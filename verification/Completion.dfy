/** What the server's answer to a handshake leads to, read off the answer: a transport, a close, or nothing. */
module Completion {
  import opened BusClients
  import opened Handshakes
  import opened Json
  import opened Negotiation
  import opened Noise
  import opened Protocol
  import opened Session
  import opened Utf8
  import opened Wrappers
  import JsonText

  // ---------------------------------------------------------------- the Noise answer

  /** The handshake message in a payload; None when there is none or it is not hex. */
  function MessageIn(c: Config, params: seq<Field>): Option<Packet> {
    var noise := Get(params, "noise");
    if noise.Obj? && Get(noise.fields, "msg").Str? then c.unhex(Get(noise.fields, "msg").s) else None
  }

  /** A handshake that has sent its first message and nothing more, in one of the two patterns. */
  predicate AwaitsReply(h: Handshake) {
    |h.seen| == 1 && h.pattern in ["XXpsk2", "KKpsk0"]
  }

  /** The reply was written under the same binding after the same messages; in XX it carries a static key. */
  predicate Authentic(h: Handshake, p: Packet) {
    && p.auth == h.binding && p.prior == h.seen
    && (h.pattern == "XXpsk2" ==> p.staticKey.Some? && p.staticKey.value != "")
  }

  /** The key the server has shown, or was known to have. */
  function ServerKey(h: Handshake, p: Packet): Option<string> {
    var key := if h.pattern == "XXpsk2" then p.staticKey else h.remoteKey;
    if key == Some("") then None else key
  }

  /** The last message of XX; KK is over after the reply. */
  function LastMessage(h: Handshake, p: Packet, ephemeral: nat): seq<Packet> {
    if h.pattern == "XXpsk2" then [Packet(ephemeral, Some(h.ownKey), h.binding, h.seen + [p], [])] else []
  }

  function Replies(h: Handshake, p: Packet, ephemeral: nat): seq<Task> {
    var last := LastMessage(h, p, ephemeral);
    if |last| == 0 then [] else [EmitTask(NoiseReply(last[0]))]
  }

  /** The payload is a selection or can pass for an empty one: all but the text of something that is no dictionary. */
  predicate Selects(payload: seq<byte>) {
    var text := Decode(payload);
    text.None? || JsonText.Loads(text.value).None? || JsonText.Loads(text.value).value.Obj?
  }

  /** A session of the whole transcript, and the HELLO that opens it. */
  predicate Installed(c: Config, s: Client, s': Client, p: Packet, ephemeral: nat)
    requires s.handshake.Some?
  {
    var h := s.handshake.value;
    && s'.handshake.None? && s'.bus.established
    && s'.bus.transport.Some? && s'.bus.transport.value.transcript == h.seen + [p] + LastMessage(h, p, ephemeral)
    && s'.bus.transport.value.remoteKey == ServerKey(h, p)
    && HandedOver(c.mode, s.bus, s'.bus, Replies(h, p, ephemeral) + [EmitTask(SessionHello)])
  }

  /** The same session, if any, whatever was sent in it. */
  predicate SameSession(b: Bus, d: Bus) {
    && d.established == b.established && (d.transport.Some? <==> b.transport.Some?)
    && (b.transport.Some? ==> d.transport.value.transcript == b.transport.value.transcript
                              && d.transport.value.remoteKey == b.transport.value.remoteKey)
  }

  /** The handshake is over but nothing came of it: a session there was stays. */
  predicate CameToNothing(c: Config, s: Client, s': Client, p: Packet, ephemeral: nat)
    requires s.handshake.Some?
  {
    var h := s.handshake.value;
    && s'.handshake.Some? && s'.handshake.value.seen == h.seen + [p] + LastMessage(h, p, ephemeral)
    && SameSession(s.bus, s'.bus) && HandedOver(c.mode, s.bus, s'.bus, Replies(h, p, ephemeral))
  }

  predicate Closed(c: Config, s: Client, s': Client, replies: seq<Task>) {
    && s'.handshake.None? && s'.bus.transport.None? && s'.bus.established == s.bus.established
    && HandedOver(c.mode, s.bus, s'.bus, replies + [CloseTask])
  }

  lemma PatternsDiffer()
    ensures NOISE_PATTERN_KK != "XXpsk2" && NOISE_PATTERN_KK == "KKpsk0"
  {
    assert NOISE_PATTERN_KK[0] == 'K' && "XXpsk2"[0] == 'X';
  }

  /** Reading the reply succeeds exactly when it is authentic. */
  lemma ReadsReply(h: Handshake, p: Packet)
    requires AwaitsReply(h)
    ensures Read(h, p).Some? <==> Authentic(h, p)
    ensures Authentic(h, p) ==>
              var r := Read(h, p).value;
              && r.seen == h.seen + [p] && r.pattern == h.pattern && r.binding == h.binding && r.ownKey == h.ownKey
              && RemoteOf(r) == ServerKey(h, p) && (Finished(r) <==> h.pattern == "KKpsk0")
  {
    PatternsDiffer();
  }

  lemma HandedOverInTurn(mode: Mode, a: Bus, b: Bus, d: Bus, first: seq<Task>, second: seq<Task>)
    requires HandedOver(mode, a, b, first) && HandedOver(mode, b, d, second)
    ensures HandedOver(mode, a, d, first + second)
  {
    if mode.Sync? {
      var n, k := |a.wire|, |first|;
      assert d.wire[..n] == d.wire[..n + k][..n];
      forall i | 0 <= i < |first + second| ensures Does(d.wire[n + i], (first + second)[i]) {
        if i < k {
          assert d.wire[..n + k][n + i] == d.wire[n + i];
        } else {
          assert Does(d.wire[n + k + (i - k)], second[i - k]);
        }
      }
    }
  }

  lemma NothingHandedOver(mode: Mode, b: Bus, d: Bus)
    requires d.wire == b.wire && d.tasks == b.tasks && d.closing == b.closing
    ensures HandedOver(mode, b, d, [])
  {
    assert b.tasks + [] == b.tasks;
  }

  lemma RequestHandsOver(mode: Mode, b: Bus)
    ensures HandedOver(mode, b, RequestClose(mode, b), [CloseTask])
  {
    assert CloseTask in [CloseTask];
  }

  lemma EmitKeepsSession(mode: Mode, b: Bus, m: Msg)
    ensures SameSession(b, Emit(mode, b, m))
  {
  }

  /** The client after it has answered the reply, r being the handshake that read it. */
  lemma ReplyAnswers(c: Config, s: Client, h: Handshake, p: Packet, ephemeral: nat)
    requires AwaitsReply(h) && Authentic(h, p)
    ensures Read(h, p).Some?
    ensures var r := Read(h, p).value;
            var s1 := Reply(c, s, r, ephemeral);
            && s1 == s.(handshake := s1.handshake, bus := s1.bus) && s1.handshake.Some?
            && s1.handshake.value.seen == h.seen + [p] + LastMessage(h, p, ephemeral)
            && Finished(s1.handshake.value) && RemoteOf(s1.handshake.value) == ServerKey(h, p)
            && SameSession(s.bus, s1.bus) && HandedOver(c.mode, s.bus, s1.bus, Replies(h, p, ephemeral))
  {
    ReadsReply(h, p);
    PatternsDiffer();
    var r := Read(h, p).value;
    var msg3 := Written(r, [], ephemeral);
    if h.pattern == "KKpsk0" {
      NothingHandedOver(c.mode, s.bus, s.bus);
      assert r.seen + [] == r.seen;
    } else {
      assert msg3 == LastMessage(h, p, ephemeral)[0];
      EmitHandsOver(c.mode, s.bus, NoiseReply(msg3));
      EmitKeepsSession(c.mode, s.bus, NoiseReply(msg3));
    }
    hide Emit, HandedOver, Authentic;
  }

  /** The pin that a server's key leaves: the first key that is shown, for good. */
  function PinnedBy(c: Config, s: Client, key: Option<string>): map<Json, string> {
    if Pinned(c, s).None? && key.Some? then s.pins[PinId(c, s) := key.value] else s.pins
  }

  /** The server has shown a key, and another one is pinned. */
  predicate OtherKeyPinned(c: Config, s: Client, key: Option<string>) { Pinned(c, s).Some? && Pinned(c, s) != key }

  lemma RefusedLeadsTo(c: Config, s: Client, payload: seq<byte>)
    requires s.handshake.Some? && OtherKeyPinned(c, s, RemoteOf(s.handshake.value))
    ensures var s' := Complete(c, s, payload);
            s' == s.(handshake := s'.handshake, bus := s'.bus) && Closed(c, s, s', [])
  {
    hide Finished, RemoteOf, Pinned, Readable;
    RequestHandsOver(c.mode, s.bus.(transport := None));
    assert [] + [CloseTask] == [CloseTask];
  }

  /** The outcome of a finished handshake, from the state its answer left. */
  lemma AcceptedLeadsTo(c: Config, s: Client, payload: seq<byte>)
    requires s.handshake.Some? && Finished(s.handshake.value)
    requires !OtherKeyPinned(c, s, RemoteOf(s.handshake.value))
    ensures var s' := Complete(c, s, payload);
            var h := s.handshake.value;
            && s' == s.(handshake := s'.handshake, bus := s'.bus, pins := PinnedBy(c, s, RemoteOf(h)))
            && if Selects(payload)
               then && s'.handshake.None? && s'.bus.established && s'.bus.transport.Some?
                    && s'.bus.transport.value.transcript == h.seen
                    && s'.bus.transport.value.remoteKey == RemoteOf(h)
                    && HandedOver(c.mode, s.bus, s'.bus, [EmitTask(SessionHello)])
               else s'.handshake == s.handshake && s'.bus == s.bus
  {
    hide Finished, RemoteOf, Pinned, PinId, Decode, JsonText.Loads;
    var h := s.handshake.value;
    var b := s.bus.(transport := Some(Session(h.seen, RemoteOf(h), 0)));
    EmitHandsOver(c.mode, b, SessionHello);
    EmitKeepsSession(c.mode, b, SessionHello);
    hide Emit;
  }

  /** No bytes are no JSON text. */
  lemma EmptyText(payload: seq<byte>)
    ensures payload == [] ==> Decode(payload).Some? && JsonText.Loads(Decode(payload).value).None?
  {
  }

  lemma AuthenticLeadsTo(c: Config, s: Client, params: seq<Field>, p: Packet, ephemeral: nat)
    requires s.handshake.Some? && AwaitsReply(s.handshake.value) && Authentic(s.handshake.value, p)
    requires MessageIn(c, params) == Some(p)
    ensures var s' := ReceiveNoise(c, s, params, ephemeral);
            var h := s.handshake.value;
            var key := ServerKey(h, p);
            && s' == s.(handshake := s'.handshake, bus := s'.bus, pins := s'.pins)
            && if OtherKeyPinned(c, s, key)
               then s'.pins == s.pins && Closed(c, s, s', Replies(h, p, ephemeral))
               else && s'.pins == PinnedBy(c, s, key)
                    && if Selects(p.payload) then Installed(c, s, s', p, ephemeral)
                       else CameToNothing(c, s, s', p, ephemeral)
  {
    var h := s.handshake.value;
    ReplyAnswers(c, s, h, p, ephemeral);
    var s1 := Reply(c, s, Read(h, p).value, ephemeral);
    var s' := Complete(c, s1, p.payload);
    SamePinned(c, s, s1);
    if OtherKeyPinned(c, s1, RemoteOf(s1.handshake.value)) {
      RefusedLeadsTo(c, s1, p.payload);
    } else {
      AcceptedLeadsTo(c, s1, p.payload);
    }
    assert ReceiveNoise(c, s, params, ephemeral) == s';
    assert PinId(c, s1) == PinId(c, s);
    hide ReceiveNoise, Reply, Read, Complete, Pinned, PinId, Selects, ServerKey, LastMessage, Authentic, AwaitsReply,
         Finished, RemoteOf;
    var replies := Replies(h, p, ephemeral);
    if OtherKeyPinned(c, s, ServerKey(h, p)) {
      assert HandedOver(c.mode, s1.bus, s'.bus, [] + [CloseTask]);
      assert [] + [CloseTask] == [CloseTask];
      hide HandedOver, Replies;
      HandedOverInTurn(c.mode, s.bus, s1.bus, s'.bus, replies, [CloseTask]);
    } else {
      hide HandedOver, Replies;
      if Selects(p.payload) {
        HandedOverInTurn(c.mode, s.bus, s1.bus, s'.bus, replies, [EmitTask(SessionHello)]);
      }
    }
  }

  lemma OtherwiseCloses(c: Config, s: Client, params: seq<Field>, ephemeral: nat)
    requires s.handshake.Some? && AwaitsReply(s.handshake.value)
    requires MessageIn(c, params).None? || !Authentic(s.handshake.value, MessageIn(c, params).value)
    ensures var s' := ReceiveNoise(c, s, params, ephemeral);
            s' == s.(handshake := s'.handshake, bus := s'.bus) && Closed(c, s, s', [])
  {
    if MessageIn(c, params).Some? { ReadsReply(s.handshake.value, MessageIn(c, params).value); }
    hide Read, Get, Authentic;
    RequestHandsOver(c.mode, s.bus.(transport := None));
    assert [] + [CloseTask] == [CloseTask];
  }

  /**
   What the reply to a handshake leads to. A message that is missing, no hex or not authentic closes the connection, and
   so does a key other than the pinned one. Otherwise the key is pinned, and unless the payload is the text of something
   that is no dictionary the client has a session of the whole transcript, its HELLO on the way.
   */
  lemma ReplyLeadsTo(c: Config, s: Client, params: seq<Field>, ephemeral: nat)
    requires s.handshake.Some? && AwaitsReply(s.handshake.value) && HasKey(params, "noise")
    ensures var s' := Step(c, s, Shake(params, ephemeral));
            var h := s.handshake.value;
            && s' == s.(handshake := s'.handshake, bus := s'.bus, pins := s'.pins)
            && if MessageIn(c, params).None? || !Authentic(h, MessageIn(c, params).value)
               then s'.pins == s.pins && Closed(c, s, s', [])
               else
                 var p := MessageIn(c, params).value;
                 var key := ServerKey(h, p);
                 if OtherKeyPinned(c, s, key) then s'.pins == s.pins && Closed(c, s, s', Replies(h, p, ephemeral))
                 else && s'.pins == PinnedBy(c, s, key)
                      && if Selects(p.payload) then Installed(c, s, s', p, ephemeral)
                         else CameToNothing(c, s, s', p, ephemeral)
  {
    var p := MessageIn(c, params);
    if p.None? || !Authentic(s.handshake.value, p.value) {
      OtherwiseCloses(c, s, params, ephemeral);
    } else {
      AuthenticLeadsTo(c, s, params, p.value, ephemeral);
    }
    hide Closed, Installed, CameToNothing, OtherKeyPinned, PinnedBy, ServerKey, Selects, ReceiveNoise, Authentic,
         AwaitsReply, Replies, MessageIn, Get, HasKey;
  }

  /** A reply to a handshake that has had all its messages closes the connection, whatever it holds. */
  lemma LateReplyCloses(c: Config, s: Client, params: seq<Field>, ephemeral: nat)
    requires s.handshake.Some? && HasKey(params, "noise")
    requires |s.handshake.value.seen| >= if s.handshake.value.pattern == "KKpsk0" then 2 else 3
    ensures var s' := Step(c, s, Shake(params, ephemeral));
            s' == s.(handshake := s'.handshake, bus := s'.bus) && Closed(c, s, s', [])
  {
    hide Get, HasKey;
    RequestHandsOver(c.mode, s.bus.(transport := None));
    assert [] + [CloseTask] == [CloseTask];
  }

  /** What passes for a selection: any dictionary as any server prints it, nothing, no UTF-8, no JSON. */
  lemma PayloadsThatSelect(payload: seq<byte>, f: seq<Field>, st: JsonText.Style)
    requires payload in {[], Encode(JsonText.Dumps(Obj(f), st))}
             || Decode(payload).None? || JsonText.Loads(Decode(payload).value).None?
    ensures Selects(payload)
  {
    EmptyText([]);
    DecodeEncode(JsonText.Dumps(Obj(f), st));
    JsonText.LoadsDumps(Obj(f), st);
    hide Decode, JsonText.Loads, JsonText.Dumps;
  }

  /** What does not: any other JSON value, as any server prints it. */
  lemma PayloadsThatDoNot(v: Json, st: JsonText.Style)
    requires !v.Obj?
    ensures !Selects(Encode(JsonText.Dumps(v, st)))
  {
    DecodeEncode(JsonText.Dumps(v, st));
    JsonText.LoadsDumps(v, st);
    hide Decode, JsonText.Loads, JsonText.Dumps;
  }

  // ---------------------------------------------------------------- the legacy answer

  /** An envelope that opens gives the session key and the HELLO goes out; one that does not changes nothing. */
  lemma EnvelopeLeadsTo(c: Config, s: Client, params: seq<Field>, ephemeral: nat)
    requires HasKey(params, "envelope") && (HasKey(params, "noise") ==> s.handshake.None?)
    ensures var s' := Step(c, s, Shake(params, ephemeral));
            var key := c.openEnvelope(Get(params, "envelope"), s.mpubkey);
            && s' == s.(bus := s'.bus)
            && if key.None? then s'.bus == s.bus
               else && s'.bus.cryptoKey == key && s'.bus.established
                    && SameSession(s.bus.(established := true), s'.bus)
                    && HandedOver(c.mode, s.bus, s'.bus, [EmitTask(SessionHello)])
  {
    var key := c.openEnvelope(Get(params, "envelope"), s.mpubkey);
    if key.Some? {
      var b := s.bus.(cryptoKey := key);
      EmitHandsOver(c.mode, b, SessionHello);
      EmitKeepsSession(c.mode, b, SessionHello);
      EmitKeepsKey(c.mode, b, SessionHello);
    }
    hide Get, HasKey, Emit, ReceiveNoise, ReceiveParams;
  }

  lemma EmitKeepsKey(mode: Mode, b: Bus, m: Msg)
    ensures Emit(mode, b, m).cryptoKey == b.cryptoKey
  {
  }
}
