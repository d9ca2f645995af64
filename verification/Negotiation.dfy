/** When the server's parameters lead to a version 3 proposal, read off the JSON they arrived in. */
module Negotiation {
  import opened BusClients
  import opened Handshakes
  import opened Json
  import opened Noise
  import opened Protocol
  import opened Session
  import opened Utf8
  import opened Wrappers
  import JsonText

  // ---------------------------------------------------------------- the server's lists

  function Items(v: Json): seq<Json> { if v.Arr? then v.items else [] }

  lemma {:induction false} StringsHas(items: seq<Json>, s: string)
    ensures s in Strings(items) <==> Str(s) in items
  {
    if items != [] {
      StringsHas(items[1..], s);
      assert items == [items[0]] + items[1..];
      assert items[0].Str? ==> (items[0].s == s <==> items[0] == Str(s));
    }
  }

  lemma OfferedHas(v: Json, s: string)
    ensures s in Offered(v) <==> Str(s) in Items(v)
  {
    if v.Arr? { StringsHas(v.items, s); }
  }

  /** Whether two lists of the server's, with or without a pinned key, have something for this client. */
  predicate Shared(patterns: seq<Json>, suites: seq<Json>, pinned: bool) {
    && (Str("25519_ChaChaPoly_SHA256") in suites || Str("25519_AESGCM_SHA256") in suites)
    && (Str("XXpsk2") in patterns || (pinned && Str("KKpsk0") in patterns))
  }

  function Listed(params: seq<Field>, name: string): seq<Json> {
    var noise := Get(params, "noise");
    if noise.Obj? then Items(Get(noise.fields, name)) else []
  }

  /** What Noise takes on this side before the server is asked. */
  predicate Able(c: Config) { c.noiseSupported && c.password != "" && c.maxVersion >= 3 }

  /** The parameters offer this client a version 3 handshake it can take part in. */
  predicate OffersNoise(c: Config, params: seq<Field>, pinned: bool) {
    var version := Get(params, "max_protocol_version");
    && Able(c) && version.Int? && version.n >= 3 && Get(params, "noise").Obj?
    && Shared(Listed(params, "patterns"), Listed(params, "suites"), pinned)
  }

  /** The version is there and no number: comparing it raises. */
  predicate VersionRaises(c: Config, params: seq<Field>) {
    var version := Get(params, "max_protocol_version");
    Able(c) && HasKey(params, "max_protocol_version") && !version.Int? && !version.Bool?
  }

  function WantedPattern(patterns: seq<Json>, pinned: bool): string {
    if pinned && Str("KKpsk0") in patterns then "KKpsk0" else "XXpsk2"
  }

  function WantedSuite(suites: seq<Json>): string {
    if Str("25519_ChaChaPoly_SHA256") in suites then "25519_ChaChaPoly_SHA256" else "25519_AESGCM_SHA256"
  }

  lemma SelectionIsWanted(patterns: seq<Json>, suites: seq<Json>, pinned: Option<string>)
    requires pinned != Some("")
    ensures var r := SelectNoiseOptions(Offered(Arr(patterns)), Offered(Arr(suites)), pinned);
            r == if Shared(patterns, suites, pinned.Some?)
                 then Some((WantedPattern(patterns, pinned.Some?), WantedSuite(suites))) else None
  {
    hide Offered, SelectNoiseOptions;
    SelectionMeaning(Offered(Arr(patterns)), Offered(Arr(suites)), pinned);
    OfferedHas(Arr(patterns), "XXpsk2");
    OfferedHas(Arr(patterns), "KKpsk0");
    OfferedHas(Arr(suites), "25519_ChaChaPoly_SHA256");
    OfferedHas(Arr(suites), "25519_AESGCM_SHA256");
  }

  lemma OffersNothing(v: Json)
    requires !v.Arr?
    ensures Offered(v) == Offered(Arr([]))
  {
  }

  lemma SelectionShared(c: Config, s: Client, params: seq<Field>)
    ensures var patterns, suites := Listed(params, "patterns"), Listed(params, "suites");
            var pinned := Pinned(c, s).Some?;
            Selection(c, s, params) == if Shared(patterns, suites, pinned)
                                       then Some((WantedPattern(patterns, pinned), WantedSuite(suites))) else None
  {
    var noise := Get(params, "noise");
    var fields := if noise.Obj? then noise.fields else [];
    var ps, ss := Get(fields, "patterns"), Get(fields, "suites");
    EmptyHasNothing();
    hide Get, Offered, SelectNoiseOptions, PinId, Shared, WantedPattern, WantedSuite;
    SelectionIsWanted(Items(ps), Items(ss), Pinned(c, s));
    if !ps.Arr? { OffersNothing(ps); }
    if !ss.Arr? { OffersNothing(ss); }
  }

  /** What is wanted is one of the server's own options. */
  lemma WantedIsListed(patterns: seq<Json>, suites: seq<Json>, pinned: bool)
    requires Shared(patterns, suites, pinned)
    ensures Str(WantedPattern(patterns, pinned)) in patterns && Str(WantedSuite(suites)) in suites
  {
  }

  lemma EmptyHasNothing()
    ensures Get([], "patterns") == Null && Get([], "suites") == Null
  {
  }

  lemma ShouldWhenOffered(c: Config, s: Client, params: seq<Field>)
    ensures ShouldUseNoise(c, s, params) == Some(true) <==> OffersNoise(c, params, Pinned(c, s).Some?)
    ensures ShouldUseNoise(c, s, params) == None <==> VersionRaises(c, params)
  {
    SelectionShared(c, s, params);
    GetMeans(params, "max_protocol_version");
    hide Selection, Pinned, Get, HasKey, Shared, Listed;
  }

  // ---------------------------------------------------------------- what a step then does

  /** A frame on the socket of a client that sends at once is what this task stands for. */
  predicate Does(f: Frame, t: Task) { if t.CloseTask? then f.CloseFrame? else !f.CloseFrame? && f.msg == t.msg }

  /** This went to the connection and nothing else: onto the socket, or to the back of the queue. */
  predicate HandedOver(mode: Mode, b: Bus, b': Bus, tasks: seq<Task>) {
    var n := |b.wire|;
    match mode
    case Sync =>
      && b'.tasks == b.tasks && |b'.wire| == n + |tasks| && b'.wire[..n] == b.wire
      && (b'.closing <==> b.closing || CloseTask in tasks)
      && forall i | 0 <= i < |tasks| :: Does(b'.wire[n + i], tasks[i])
    case Async => b'.wire == b.wire && b'.tasks == b.tasks + tasks && b'.closing == b.closing
  }

  /** The client capabilities in the first message, as the server reads them. */
  predicate Announces(payload: seq<byte>, binarize: Json, encodings: Json) {
    var text := Decode(payload);
    text.Some? && JsonText.Loads(text.value)
               == Some(Obj([Field("binarize", SortKeys(binarize)), Field("encodings", SortKeys(encodings))]))
  }

  /** A handshake whose first message, an initiator's, is its only one so far, and what it is bound to. */
  predicate Opened(c: Config, s: Client, h: Handshake, params: seq<Field>, pattern: string, suite: string,
                   binarize: Json, ephemeral: nat)
    requires s.nodeId.Str?
  {
    var expected := if pattern == "KKpsk0" then Pinned(c, s) else None;
    var hello := if s.hello.Some? then s.hello.value else Obj([]);
    && h.pattern == pattern && h.ownKey == c.ownKey && h.remoteKey == expected
    && BoundTo(h.binding, Offer(hello, Obj(params), pattern, suite))
    && h.binding.psk == Some(Psk(c.password, s.nodeId.s))
    && h.binding.statics == (if expected.Some? then Some((c.ownKey, expected.value)) else None)
    && |h.seen| == 1 && h.seen[0].ephemeral == ephemeral && h.seen[0].prior == []
    && Announces(h.seen[0].payload, binarize, c.encodings)
  }

  /** s' has proposed a pattern and a suite of the server's. */
  predicate Proposed(c: Config, s: Client, s': Client, params: seq<Field>, ephemeral: nat)
    requires s.nodeId.Str?
  {
    var patterns, suites := Listed(params, "patterns"), Listed(params, "suites");
    var pattern, suite := WantedPattern(patterns, Pinned(c, s).Some?), WantedSuite(suites);
    && Str(pattern) in patterns && Str(suite) in suites
    && s'.handshake.Some? && s'.pattern == Some(pattern)
    && Opened(c, s, s'.handshake.value, params, pattern, suite, s'.binarize, ephemeral)
    && HandedOver(c.mode, s.bus, s'.bus, [EmitTask(NoiseOffer(pattern, suite, s'.handshake.value.seen[0]))])
  }

  /** Nothing was proposed; nothing was sent, or the legacy offer was. */
  predicate FellBack(c: Config, s: Client, s': Client, sends: bool) {
    && s'.handshake == s.handshake && s'.pattern == s.pattern
    && if sends then HandedOver(c.mode, s.bus, s'.bus, [EmitTask(LegacyOffer(s'.binarize, c.password != ""))])
       else s'.bus == s.bus
  }

  /** The handshake was given up and the connection is to be closed. */
  predicate GaveUp(c: Config, s: Client, s': Client) {
    && s'.handshake.None? && s'.bus.transport.None?
    && HandedOver(c.mode, s.bus, s'.bus, [CloseTask])
  }

  /** Keeps what the parameters are not about. */
  predicate OnlyNegotiates(s: Client, s': Client) {
    && s'.nodeId == s.nodeId && s'.mpubkey == s.mpubkey && s'.hello == s.hello && s'.pins == s.pins
    && s'.bus.cryptoKey == s.bus.cryptoKey && s'.bus.established == s.bus.established
    && s'.bus.connected == s.bus.connected
  }

  lemma EmitHandsOver(mode: Mode, b: Bus, m: Msg)
    ensures HandedOver(mode, b, Emit(mode, b, m), [EmitTask(m)])
  {
  }

  lemma SortedCapabilities(b: Json, e: Json)
    ensures SortKeys(Obj([Field("binarize", b), Field("encodings", e)]))
         == Obj([Field("binarize", SortKeys(b)), Field("encodings", SortKeys(e))])
  {
    var x, y := Field("binarize", b), Field("encodings", e);
    var y' := Field("encodings", SortKeys(e));
    assert [x, y][1..] == [y] && [y][1..] == [] && SortFields([]) == [];
    assert SortFields([y]) == Insert(y', []);
    assert Insert(y', []) == [y'];
    assert "binarize"[0] < "encodings"[0];
    assert Less("binarize", "encodings");
  }

  lemma PayloadAnnounces(c: Config, s: Client)
    ensures Announces(NoisePayload(c, s), s.binarize, c.encodings)
  {
    SortedCapabilities(s.binarize, c.encodings);
    hide SortKeys, Encode, Decode, JsonText.Loads, JsonText.Dumps;
    var sorted := SortKeys(Obj([Field("binarize", s.binarize), Field("encodings", c.encodings)]));
    DecodeEncode(JsonText.Dumps(sorted, JsonText.COMPACT));
    JsonText.LoadsDumps(sorted, JsonText.COMPACT);
  }

  function OpeningOf(c: Config, s: Client, params: seq<Field>, pattern: string, suite: string, ephemeral: nat)
    : Handshake
    requires s.nodeId.Str?
  {
    var h := Begin(true, OfferOf(s, params, (pattern, suite)), Psk(c.password, s.nodeId.s), c.ownKey, Pinned(c, s));
    Saw(h, Written(h, NoisePayload(c, s), ephemeral))
  }

  lemma OpeningIsOpened(c: Config, s: Client, params: seq<Field>, pattern: string, suite: string, ephemeral: nat)
    requires s.nodeId.Str?
    ensures Opened(c, s, OpeningOf(c, s, params, pattern, suite, ephemeral), params, pattern, suite, s.binarize,
                   ephemeral)
  {
    PayloadAnnounces(c, s);
    hide BuildPrologue, NoiseProtocolName, NoisePayload, Pinned, Announces;
  }

  lemma StartProposes(c: Config, s: Client, params: seq<Field>, ephemeral: nat)
    requires s.nodeId.Str? && Shared(Listed(params, "patterns"), Listed(params, "suites"), Pinned(c, s).Some?)
    ensures Proposed(c, s, StartNoise(c, s, params, ephemeral), params, ephemeral)
  {
    SelectionShared(c, s, params);
    WantedIsListed(Listed(params, "patterns"), Listed(params, "suites"), Pinned(c, s).Some?);
    var (pattern, suite) := Selection(c, s, params).value;
    OpeningIsOpened(c, s, params, pattern, suite, ephemeral);
    hide Selection, Listed, NoisePayload, Pinned, Emit, HandedOver, Begin, Written, OfferOf, WantedPattern, WantedSuite,
         Shared, Opened;
    var h := OpeningOf(c, s, params, pattern, suite, ephemeral);
    assert StartNoise(c, s, params, ephemeral)
        == Say(c, s.(handshake := Some(h), pattern := Some(pattern)), NoiseOffer(pattern, suite, h.seen[0]));
    EmitHandsOver(c.mode, s.bus, NoiseOffer(pattern, suite, h.seen[0]));
  }

  lemma StartKeeps(c: Config, s: Client, params: seq<Field>, ephemeral: nat)
    ensures var s' := StartNoise(c, s, params, ephemeral);
            s'.params == s.params && s'.binarize == s.binarize && OnlyNegotiates(s, s')
    ensures Selection(c, s, params).Some? && !s.nodeId.Str? ==> GaveUp(c, s, StartNoise(c, s, params, ephemeral))
  {
    hide Selection, NoisePayload, Pinned, Begin, Written, Saw, OfferOf;
    assert CloseTask in [CloseTask];
  }

  /** What starting does when there is something to propose; s1 is s with the parameters recorded. */
  lemma StartSettles(c: Config, s: Client, s1: Client, params: seq<Field>, ephemeral: nat)
    requires s1 == s.(binarize := s1.binarize, params := s1.params)
    requires OffersNoise(c, params, Pinned(c, s).Some?)
    ensures var s' := StartNoise(c, s1, params, ephemeral);
            && s'.params == s1.params && s'.binarize == s1.binarize && OnlyNegotiates(s, s')
            && if s.nodeId.Str? then Proposed(c, s, s', params, ephemeral) else GaveUp(c, s, s')
  {
    SelectionShared(c, s1, params);
    SamePinned(c, s, s1);
    StartKeeps(c, s1, params, ephemeral);
    hide Pinned, Shared, Listed, Selection, StartNoise, HandedOver, WantedPattern, WantedSuite;
    if s.nodeId.Str? { StartProposes(c, s1, params, ephemeral); }
  }

  lemma SamePinned(c: Config, s: Client, s1: Client)
    requires s1.nodeId == s.nodeId && s1.pins == s.pins
    ensures Pinned(c, s1) == Pinned(c, s)
  {
    hide Truthy;
  }

  /** The same when there is nothing to propose. */
  lemma LegacySettles(c: Config, s: Client, s1: Client)
    requires s1 == s.(binarize := s1.binarize, params := s1.params)
    ensures var s' := LegacyStart(c, s1);
            FellBack(c, s, s', true) && s'.params == s1.params && s'.binarize == s1.binarize && OnlyNegotiates(s, s')
  {
    EmitHandsOver(c.mode, s.bus, LegacyOffer(s1.binarize, c.password != ""));
    hide HandedOver;
  }

  lemma RecordedSettles(c: Config, s: Client, params: seq<Field>, ephemeral: nat)
    ensures var s' := ReceiveParams(c, s, params, ephemeral);
            && s'.params == Some(Obj(params)) && OnlyNegotiates(s, s')
            && s'.binarize == (if HasKey(params, "binarize") then Get(params, "binarize") else Bool(false))
            && if OffersNoise(c, params, Pinned(c, s).Some?)
               then if s.nodeId.Str? then Proposed(c, s, s', params, ephemeral) else GaveUp(c, s, s')
               else FellBack(c, s, s', !VersionRaises(c, params) && Truthy(Get(params, "password")) && c.password != "")
  {
    var s1 := s.(binarize := if HasKey(params, "binarize") then Get(params, "binarize") else Bool(false),
                 params := Some(Obj(params)));
    ShouldWhenOffered(c, s1, params);
    SamePinned(c, s, s1);
    LegacySettles(c, s, s1);
    if OffersNoise(c, params, Pinned(c, s).Some?) { StartSettles(c, s, s1, params, ephemeral); }
    hide Proposed, StartNoise, LegacyStart, ShouldUseNoise, OffersNoise, VersionRaises, HandedOver, Get, HasKey, Truthy,
         Pinned;
  }

  /**
   Parameters that reach a client lead to a proposal exactly when both sides are able to and the lists of the server
   hold a suite of ours and a pattern we can use; KK takes a pinned key. The proposal is one of the server's, ChaCha20
   whenever it is listed. Otherwise the password exchange is started if asked for, or nothing is done.
   */
  lemma ParamsLeadTo(c: Config, s: Client, params: seq<Field>, ephemeral: nat)
    requires !HasKey(params, "envelope") && (HasKey(params, "noise") ==> s.handshake.None?)
    ensures var s' := Step(c, s, Shake(params, ephemeral));
            && s'.params == Some(Obj(params)) && OnlyNegotiates(s, s')
            && s'.binarize == (if HasKey(params, "binarize") then Get(params, "binarize") else Bool(false))
            && if OffersNoise(c, params, Pinned(c, s).Some?)
               then if s.nodeId.Str? then Proposed(c, s, s', params, ephemeral) else GaveUp(c, s, s')
               else FellBack(c, s, s', !VersionRaises(c, params) && Truthy(Get(params, "password")) && c.password != "")
  {
    RecordedSettles(c, s, params, ephemeral);
    hide Proposed, GaveUp, FellBack, OnlyNegotiates, ReceiveParams, ReceiveNoise, OffersNoise, VersionRaises, Get,
         HasKey, Truthy, Pinned;
  }

  /** A retry negotiates by the parameters that were kept, and starts the legacy exchange if they offer no other. */
  lemma RetryLeadsTo(c: Config, s: Client, ephemeral: nat)
    requires s.bus.connected && s.handshake.None?
    ensures var s' := Step(c, s, Event.Retry(ephemeral));
            var params := if s.params.Some? && s.params.value.Obj? then s.params.value.fields else [];
            && s'.params == s.params && s'.binarize == s.binarize && OnlyNegotiates(s, s')
            && if OffersNoise(c, params, Pinned(c, s).Some?)
               then if s.nodeId.Str? then Proposed(c, s, s', params, ephemeral) else GaveUp(c, s, s')
               else FellBack(c, s, s', !VersionRaises(c, params))
  {
    var params := if s.params.Some? && s.params.value.Obj? then s.params.value.fields else [];
    ShouldWhenOffered(c, s, params);
    LegacySettles(c, s, s);
    if OffersNoise(c, params, Pinned(c, s).Some?) { StartSettles(c, s, s, params, ephemeral); }
    assert params == [] ==> !OffersNoise(c, params, Pinned(c, s).Some?) && !VersionRaises(c, params);
    hide Proposed, StartNoise, LegacyStart, ShouldUseNoise, OffersNoise, VersionRaises, HandedOver, Pinned;
  }
}
