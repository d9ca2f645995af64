/**
 An ideal Noise handshake (Noise Protocol Framework revision 34): a message can be read only by a party with
 the same protocol name, prologue and pre-shared key that has seen the same messages before it, and the
 messages that depend on the pre-shared key can be written only by a party that knows the password.
 */
module Handshakes {
  import opened Json
  import opened Noise
  import opened Utf8
  import opened Wrappers

  /** Derived from the shared password, salted by the node id of the server. */
  datatype Psk = Psk(password: string, nodeId: string)

  /** What both ends must hold alike; the static keys when they were known beforehand (initiator first). */
  datatype Binding = Binding(name: string, prologue: seq<byte>, psk: Option<Psk>, statics: Option<(string, string)>)

  /** A handshake message as the term it was made from. */
  datatype Packet = Packet(ephemeral: nat, staticKey: Option<string>, auth: Binding, prior: seq<Packet>,
                           payload: seq<byte>)

  datatype Handshake =
    Handshake(pattern: string, binding: Binding, ownKey: string, remoteKey: Option<string>, seen: seq<Packet>)

  /** KK takes two messages, XX three. */
  predicate Finished(h: Handshake) { |h.seen| >= if h.pattern == NOISE_PATTERN_KK then 2 else 3 }

  /** The key of the next message depends on the password: from message 1 on in KKpsk0, from 2 on in XXpsk2. */
  predicate Mixed(h: Handshake) { h.pattern == NOISE_PATTERN_KK || h.seen != [] }

  function Auth(h: Handshake): Binding { if Mixed(h) then h.binding else h.binding.(psk := None) }

  /** In XX each side sends its static key in its first message after the first. */
  predicate CarriesStatic(h: Handshake) { h.pattern != NOISE_PATTERN_KK && h.seen != [] }

  function Written(h: Handshake, payload: seq<byte>, ephemeral: nat): Packet {
    Packet(ephemeral, if CarriesStatic(h) then Some(h.ownKey) else None, Auth(h), h.seen, payload)
  }

  function Saw(h: Handshake, p: Packet): Handshake { h.(seen := h.seen + [p]) }

  /** None is an authentication failure. */
  function Read(h: Handshake, p: Packet): Option<Handshake> {
    if Finished(h) || p.auth != Auth(h) || p.prior != h.seen then None
    else if !CarriesStatic(h) then Some(Saw(h, p))
    else if p.staticKey.Some? && p.staticKey.value != "" then Some(Saw(h, p).(remoteKey := p.staticKey))
    else None
  }

  /** What a party believes was negotiated. */
  datatype Offer = Offer(hello: Json, params: Json, pattern: string, suite: string)

  /** The initial state of either side; a remote key is of use in KK only. */
  function Begin(initiator: bool, o: Offer, psk: Psk, ownKey: string, remoteKey: Option<string>): Handshake {
    var name := NoiseProtocolName(o.pattern, o.suite);
    var known := if o.pattern == NOISE_PATTERN_KK then remoteKey else None;
    var statics := if known.None? then None
                   else if initiator then Some((ownKey, known.value)) else Some((known.value, ownKey));
    Handshake(o.pattern, Binding(name, BuildPrologue(o.hello, o.params, name), Some(psk), statics), ownKey, known, [])
  }

  /** Same dictionaries up to key order, same pattern, same suite. */
  predicate Agree(a: Offer, b: Offer) {
    Same(a.hello, b.hello) && Same(a.params, b.params) && a.pattern == b.pattern && a.suite == b.suite
  }

  predicate WellFormed(o: Offer) {
    && o.hello.Obj? && o.params.Obj? && Valid(o.hello) && Valid(o.params)
    && (o.pattern == NOISE_PATTERN_KK || o.pattern == NOISE_PATTERN_XX)
  }

  /** The name and the prologue of a negotiation. */
  predicate BoundTo(b: Binding, o: Offer) {
    var name := NoiseProtocolName(o.pattern, o.suite);
    b.name == name && b.prologue == BuildPrologue(o.hello, o.params, name)
  }

  /** Two parties bound alike agree on the whole negotiation. */
  lemma BoundAlikeAgree(b: Binding, o1: Offer, o2: Offer)
    requires WellFormed(o1) && WellFormed(o2)
    requires BoundTo(b, o1)
    ensures BoundTo(b, o2) <==> Agree(o1, o2)
  {
    hide BuildPrologue, Valid, Same, NoiseProtocolName;
    var n1, n2 := NoiseProtocolName(o1.pattern, o1.suite), NoiseProtocolName(o2.pattern, o2.suite);
    PrologueInjective(o1.hello, o1.params, n1, o2.hello, o2.params, n2);
    if n1 == n2 { ProtocolNameInjective(o1.pattern, o1.suite, o2.pattern, o2.suite); }
  }

  // ---------------------------------------------------------------- two parties, no interference

  /** One side: what it takes the negotiation to be, its pre-shared key, its own key and the one it expects. */
  datatype Party = Party(o: Offer, psk: Psk, ownKey: string, expected: Option<string>)

  /** Each message is written by one side and read by the other. */
  function Pass(writer: Handshake, reader: Handshake, payload: seq<byte>, ephemeral: nat)
    : Option<(Handshake, Handshake)>
  {
    var p := Written(writer, payload, ephemeral);
    var read :- Read(reader, p);
    Some((Saw(writer, p), read))
  }

  /** Message after message from the initiator and the responder in turn. */
  function Rounds(i: Handshake, r: Handshake, payload1: seq<byte>, payload2: seq<byte>, ephemerals: (nat, nat, nat))
    : Option<(Handshake, Handshake)>
  {
    var (i1, r1) :- Pass(i, r, payload1, ephemerals.0);
    var (r2, i2) :- Pass(r1, i1, payload2, ephemerals.1);
    if Finished(i2) then Some((i2, r2)) else Pass(i2, r2, [], ephemerals.2)
  }

  /** The whole handshake between two parties; None when one of them aborts. */
  function Exchange(a: Party, b: Party, payload1: seq<byte>, payload2: seq<byte>, ephemerals: (nat, nat, nat))
    : Option<(Handshake, Handshake)>
  {
    Rounds(Begin(true, a.o, a.psk, a.ownKey, a.expected), Begin(false, b.o, b.psk, b.ownKey, b.expected),
           payload1, payload2, ephemerals)
  }

  /** In KK each side knows the other's key beforehand. */
  predicate KnowEachOther(a: Party, b: Party) { a.expected == Some(b.ownKey) && b.expected == Some(a.ownKey) }

  predicate Matching(a: Party, b: Party) {
    Agree(a.o, b.o) && a.psk == b.psk && (a.o.pattern == NOISE_PATTERN_KK ==> KnowEachOther(a, b))
  }

  /** Both sides look at the same handshake from its two ends. */
  predicate Mirrored(i: Handshake, r: Handshake) {
    i.binding == r.binding && i.pattern == r.pattern && i.seen == r.seen
  }

  lemma PassMirrors(w: Handshake, r: Handshake, payload: seq<byte>, ephemeral: nat)
    requires Mirrored(w, r) && !Finished(r) && w.ownKey != ""
    ensures var q := Pass(w, r, payload, ephemeral);
            && q.Some? && Mirrored(q.value.0, q.value.1)
            && q.value.0 == w.(seen := w.seen + [Written(w, payload, ephemeral)])
            && q.value.1.ownKey == r.ownKey
            && q.value.1.remoteKey == (if CarriesStatic(w) then Some(w.ownKey) else r.remoteKey)
  {
  }

  /** The first message can be read without the password in XX, and in KK exactly with the same pre-shared key. */
  lemma FirstMessageReads(a: Party, b: Party, payload: seq<byte>, ephemeral: nat)
    requires Matching(a.(psk := b.psk), b) && a.o == b.o
    requires a.o.pattern == NOISE_PATTERN_KK || a.o.pattern == NOISE_PATTERN_XX
    ensures var i, r := Begin(true, a.o, a.psk, a.ownKey, a.expected), Begin(false, b.o, b.psk, b.ownKey, b.expected);
            Pass(i, r, payload, ephemeral).Some? <==> a.o.pattern == "XXpsk2" || a.psk == b.psk
  {
    hide BuildPrologue, NoiseProtocolName, Agree;
    assert NOISE_PATTERN_KK[0] == 'K' && NOISE_PATTERN_XX == "XXpsk2";
  }

  lemma PassNeedsAuth(w: Handshake, r: Handshake, payload: seq<byte>, ephemeral: nat)
    requires Pass(w, r, payload, ephemeral).Some?
    ensures Auth(w) == Auth(r) && w.seen == r.seen
    ensures var q := Pass(w, r, payload, ephemeral);
            && q.value.0.binding == w.binding && q.value.1.binding == r.binding
            && q.value.0.pattern == w.pattern && q.value.1.pattern == r.pattern
            && |q.value.0.seen| == |w.seen| + 1
  {
  }

  lemma BegunAlike(a: Party, b: Party)
    requires WellFormed(a.o) && WellFormed(b.o)
    requires a.o.pattern == NOISE_PATTERN_KK ==> a.expected.Some?
    requires b.o.pattern == NOISE_PATTERN_KK ==> b.expected.Some?
    ensures var i, r := Begin(true, a.o, a.psk, a.ownKey, a.expected), Begin(false, b.o, b.psk, b.ownKey, b.expected);
            && (i.binding == r.binding <==> Matching(a, b))
            && (Auth(i) == Auth(r) ==> Agree(a.o, b.o))
  {
    hide WellFormed, Agree, BuildPrologue, NoiseProtocolName;
    var i, r := Begin(true, a.o, a.psk, a.ownKey, a.expected), Begin(false, b.o, b.psk, b.ownKey, b.expected);
    assert BoundTo(i.binding, a.o) && BoundTo(r.binding, b.o);
    assert BoundTo(i.binding, b.o) <==> i.binding.name == r.binding.name && i.binding.prologue == r.binding.prologue;
    BoundAlikeAgree(i.binding, a.o, b.o);
    assert Agree(a.o, b.o) ==> a.o.pattern == b.o.pattern by { AgreeOnPattern(a.o, b.o); }
    assert a.o.pattern != NOISE_PATTERN_KK && a.o.pattern == b.o.pattern ==> i.binding.statics == r.binding.statics;
  }

  lemma AgreeOnPattern(a: Offer, b: Offer)
    ensures Agree(a, b) ==> a.pattern == b.pattern
  {
  }

  lemma RoundsMirrored(i: Handshake, r: Handshake, payload1: seq<byte>, payload2: seq<byte>,
                       ephemerals: (nat, nat, nat))
    requires Mirrored(i, r) && i.seen == [] && i.ownKey != "" && r.ownKey != ""
    requires i.pattern == NOISE_PATTERN_KK ==> i.remoteKey == Some(r.ownKey) && r.remoteKey == Some(i.ownKey)
    ensures var q := Rounds(i, r, payload1, payload2, ephemerals);
            q.Some? && Finished(q.value.0) && Finished(q.value.1) && q.value.0.seen == q.value.1.seen
            && q.value.0.remoteKey == Some(r.ownKey) && q.value.1.remoteKey == Some(i.ownKey)
  {
    hide Pass, Auth, Written;
    PassMirrors(i, r, payload1, ephemerals.0);
    var q1 := Pass(i, r, payload1, ephemerals.0).value;
    PassMirrors(q1.1, q1.0, payload2, ephemerals.1);
    var q2 := Pass(q1.1, q1.0, payload2, ephemerals.1).value;
    if !Finished(q2.1) { PassMirrors(q2.1, q2.0, [], ephemerals.2); }
  }

  lemma RoundsNeed(i: Handshake, r: Handshake, payload1: seq<byte>, payload2: seq<byte>, ephemerals: (nat, nat, nat))
    requires Rounds(i, r, payload1, payload2, ephemerals).Some?
    ensures Auth(i) == Auth(r) && i.binding == r.binding
  {
    hide Pass, Written, Finished;
    PassNeedsAuth(i, r, payload1, ephemerals.0);
    var q1 := Pass(i, r, payload1, ephemerals.0).value;
    PassNeedsAuth(q1.1, q1.0, payload2, ephemerals.1);
  }

  /**
   Two parties complete a handshake exactly when they agree on the negotiation, derive the same pre-shared key
   and, in KK, expect each other's static key. Then both have seen the same messages and know each other's key.
   */
  lemma ExchangeCompletesWhen(a: Party, b: Party, payload1: seq<byte>, payload2: seq<byte>, ephemerals: (nat, nat, nat))
    requires WellFormed(a.o) && WellFormed(b.o) && a.ownKey != "" && b.ownKey != ""
    requires a.o.pattern == NOISE_PATTERN_KK ==> a.expected.Some?
    requires b.o.pattern == NOISE_PATTERN_KK ==> b.expected.Some?
    ensures var q := Exchange(a, b, payload1, payload2, ephemerals);
            && (q.Some? <==> Matching(a, b))
            && (q.Some? ==> && Finished(q.value.0) && Finished(q.value.1) && q.value.0.seen == q.value.1.seen
                            && q.value.0.remoteKey == Some(b.ownKey) && q.value.1.remoteKey == Some(a.ownKey))
  {
    var i, r := Begin(true, a.o, a.psk, a.ownKey, a.expected), Begin(false, b.o, b.psk, b.ownKey, b.expected);
    BegunAlike(a, b);
    AgreeOnPattern(a.o, b.o);
    hide WellFormed, Agree, BuildPrologue, NoiseProtocolName, Rounds, Auth, Finished;
    if i.binding == r.binding {
      RoundsMirrored(i, r, payload1, payload2, ephemerals);
    } else if Rounds(i, r, payload1, payload2, ephemerals).Some? {
      RoundsNeed(i, r, payload1, payload2, ephemerals);
      assert false;
    }
  }
}
