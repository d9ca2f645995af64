/** Protocol version 3 negotiation: canonical JSON, option selection and the Noise prologue. */
module Noise {
  import opened Json
  import opened Utf8
  import opened Wrappers
  import JsonText

  const NOISE_PATTERN_XX := "XXpsk2"
  const NOISE_PATTERN_KK := "KKpsk0"
  const NOISE_SUITE_CHACHA := "25519_ChaChaPoly_SHA256"
  const NOISE_SUITE_AESGCM := "25519_AESGCM_SHA256"
  const NOISE_SUITES := [NOISE_SUITE_CHACHA, NOISE_SUITE_AESGCM]

  /** The payload printed with its keys in order at every depth, without spaces or escapes, in UTF-8. */
  function CanonicalJson(payload: Json): seq<byte> {
    Encode(JsonText.Dumps(SortKeys(payload), JsonText.COMPACT))
  }

  function NoiseProtocolName(pattern: string, suite: string): string {
    "Noise_" + pattern + "_" + suite
  }

  /** The first of our suites, in our order of preference, that the server offers. */
  function FirstOffered(ours: seq<string>, offered: seq<string>): (r: Option<string>)
    ensures r.Some? ==> r.value in ours && r.value in offered
    ensures r.None? ==> forall s | s in ours :: s !in offered
  {
    if ours == [] then None
    else if ours[0] in offered then Some(ours[0])
    else FirstOffered(ours[1..], offered)
  }

  function SelectNoiseOptions(serverPatterns: seq<string>, serverSuites: seq<string>, pinnedRemoteKey: Option<string>)
    : Option<(string, string)>
  {
    var suite :- FirstOffered(NOISE_SUITES, serverSuites);
    if pinnedRemoteKey.Some? && pinnedRemoteKey.value != "" && NOISE_PATTERN_KK in serverPatterns then
      Some((NOISE_PATTERN_KK, suite))
    else if NOISE_PATTERN_XX in serverPatterns then Some((NOISE_PATTERN_XX, suite))
    else None
  }

  /**
   What a selection promises, whatever order the server lists its options in: ChaCha20 whenever it is
   offered, KK exactly when a key is pinned and KK is offered, and nothing exactly when no option is shared.
   */
  lemma SelectionMeaning(patterns: seq<string>, suites: seq<string>, pinned: Option<string>)
    ensures var r := SelectNoiseOptions(patterns, suites, pinned);
            var kk := pinned.Some? && pinned.value != "" && NOISE_PATTERN_KK in patterns;
            && (r.None? <==> (NOISE_SUITE_CHACHA !in suites && NOISE_SUITE_AESGCM !in suites)
                             || (!kk && NOISE_PATTERN_XX !in patterns))
            && (r.Some? ==> && r.value.0 in [NOISE_PATTERN_XX, NOISE_PATTERN_KK] && r.value.0 in patterns
                            && r.value.1 in NOISE_SUITES && r.value.1 in suites
                            && (r.value.0 == NOISE_PATTERN_KK <==> kk)
                            && (r.value.1 == NOISE_SUITE_CHACHA <==> NOISE_SUITE_CHACHA in suites))
  {
    assert NOISE_SUITES[1..] == [NOISE_SUITE_AESGCM];
    assert NOISE_SUITES[1..][1..] == [];
    assert NOISE_SUITE_AESGCM[6] != NOISE_SUITE_CHACHA[6];
    assert NOISE_PATTERN_KK[0] != NOISE_PATTERN_XX[0];
  }

  /** HELLO payload, HANDSHAKE parameter payload and protocol name, one after the other. */
  function BuildPrologue(hello: Json, handshake: Json, protocolName: string): seq<byte> {
    CanonicalJson(hello) + CanonicalJson(handshake) + Encode(protocolName)
  }

  /** Two payloads have the same canonical bytes exactly when they differ in key order only. */
  lemma CanonicalJsonDecidesSame(a: Json, b: Json)
    requires Valid(a) && Valid(b)
    ensures CanonicalJson(a) == CanonicalJson(b) <==> Same(a, b)
  {
    SortKeysDecidesSame(a, b);
    if CanonicalJson(a) == CanonicalJson(b) {
      EncodeInjective(JsonText.Dumps(SortKeys(a), JsonText.COMPACT), JsonText.Dumps(SortKeys(b), JsonText.COMPACT));
      JsonText.LoadsDumps(SortKeys(a), JsonText.COMPACT);
      JsonText.LoadsDumps(SortKeys(b), JsonText.COMPACT);
    }
  }

  /** The prologue as text, before encoding. */
  function PrologueText(hello: Json, handshake: Json, name: string): string {
    JsonText.Dumps(SortKeys(hello), JsonText.COMPACT)
    + (JsonText.Dumps(SortKeys(handshake), JsonText.COMPACT) + name)
  }

  lemma BuildPrologueText(hello: Json, handshake: Json, name: string)
    ensures BuildPrologue(hello, handshake, name) == Encode(PrologueText(hello, handshake, name))
  {
    var h := JsonText.Dumps(SortKeys(hello), JsonText.COMPACT);
    var p := JsonText.Dumps(SortKeys(handshake), JsonText.COMPACT);
    EncodeConcat(p, name);
    EncodeConcat(h, p + name);
    AppendAssociates(Encode(h), Encode(p), Encode(name));
  }

  lemma PrologueTextReadsBack(hello: Json, handshake: Json, name: string)
    requires hello.Obj? && handshake.Obj?
    ensures var t := PrologueText(hello, handshake, name);
            var rest := JsonText.Dumps(SortKeys(handshake), JsonText.COMPACT) + name;
            && JsonText.ParseValue(t) == Some((SortKeys(hello), rest))
            && JsonText.ParseValue(rest) == Some((SortKeys(handshake), name))
  {
    JsonText.ParsePrint(SortKeys(handshake), JsonText.COMPACT, name);
    JsonText.ParsePrint(SortKeys(hello), JsonText.COMPACT,
      JsonText.Dumps(SortKeys(handshake), JsonText.COMPACT) + name);
  }

  /**
   The prologue binds all three of its parts although nothing separates them: equal bytes mean the same
   HELLO payload, the same parameter payload and the same protocol name.
   */
  lemma PrologueInjective(hello1: Json, handshake1: Json, name1: string, hello2: Json, handshake2: Json, name2: string)
    requires hello1.Obj? && handshake1.Obj? && hello2.Obj? && handshake2.Obj?
    requires Valid(hello1) && Valid(handshake1) && Valid(hello2) && Valid(handshake2)
    ensures BuildPrologue(hello1, handshake1, name1) == BuildPrologue(hello2, handshake2, name2)
       <==> Same(hello1, hello2) && Same(handshake1, handshake2) && name1 == name2
  {
    BuildPrologueText(hello1, handshake1, name1);
    BuildPrologueText(hello2, handshake2, name2);
    SortKeysDecidesSame(hello1, hello2);
    SortKeysDecidesSame(handshake1, handshake2);
    if BuildPrologue(hello1, handshake1, name1) == BuildPrologue(hello2, handshake2, name2) {
      EncodeInjective(PrologueText(hello1, handshake1, name1), PrologueText(hello2, handshake2, name2));
      PrologueTextReadsBack(hello1, handshake1, name1);
      PrologueTextReadsBack(hello2, handshake2, name2);
    }
  }

  /**
   Decoded and read from the front the prologue gives the HELLO payload, then the parameter payload, each with its keys
   in order; the protocol name is what is left.
   */
  lemma PrologueReadsInOrder(hello: Json, handshake: Json, name: string)
    requires hello.Obj? && handshake.Obj?
    ensures var text := Decode(BuildPrologue(hello, handshake, name));
            && text.Some?
            && var first := JsonText.ParseValue(text.value);
               && first.Some? && first.value.0 == SortKeys(hello)
               && JsonText.ParseValue(first.value.1) == Some((SortKeys(handshake), name))
  {
    BuildPrologueText(hello, handshake, name);
    DecodeEncode(PrologueText(hello, handshake, name));
    PrologueTextReadsBack(hello, handshake, name);
  }

  lemma NameWithPattern(suite: string)
    ensures NoiseProtocolName("XXpsk2", suite) == "Noise_XXpsk2_" + suite
    ensures NoiseProtocolName("KKpsk0", suite) == "Noise_KKpsk0_" + suite
  {
    assert "Noise_" + "XXpsk2" + "_" == "Noise_XXpsk2_";
    assert "Noise_" + "KKpsk0" + "_" == "Noise_KKpsk0_";
  }

  /** The names that go into the prologue. */
  lemma ProtocolNames(patterns: seq<string>, suites: seq<string>, pinned: Option<string>)
    requires SelectNoiseOptions(patterns, suites, pinned).Some?
    ensures var (pattern, suite) := SelectNoiseOptions(patterns, suites, pinned).value;
            var name := NoiseProtocolName(pattern, suite);
            var chosen := if "25519_ChaChaPoly_SHA256" in suites then "25519_ChaChaPoly_SHA256"
                          else "25519_AESGCM_SHA256";
            if pinned.Some? && pinned.value != "" && "KKpsk0" in patterns then name == "Noise_KKpsk0_" + chosen
            else name == "Noise_XXpsk2_" + chosen
  {
    SelectionMeaning(patterns, suites, pinned);
    hide SelectNoiseOptions, NoiseProtocolName;
    var r := SelectNoiseOptions(patterns, suites, pinned).value;
    NameWithPattern(r.1);
    assert r.0 == NOISE_PATTERN_KK || r.0 == NOISE_PATTERN_XX;
    assert r.1 == NOISE_SUITE_CHACHA || r.1 == NOISE_SUITE_AESGCM;
  }

  /** The full protocol name determines the pattern and the suite of any registered pattern. */
  lemma ProtocolNameInjective(p1: string, s1: string, p2: string, s2: string)
    requires |p1| == |p2| && NoiseProtocolName(p1, s1) == NoiseProtocolName(p2, s2)
    ensures p1 == p2 && s1 == s2
  {
    var n1, n2 := NoiseProtocolName(p1, s1), NoiseProtocolName(p2, s2);
    assert p1 == n1[6..6 + |p1|] && p2 == n2[6..6 + |p2|];
    assert s1 == n1[7 + |p1|..] && s2 == n2[7 + |p2|..];
  }
}
