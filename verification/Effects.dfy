/**
 What a step does: what its pins decide, and what it asks of the connection. Neither depends on how the kind of
 client sends, nor on what it has sent or queued.
 */
module Effects {
  import opened BusClients
  import opened Handshakes
  import opened Json
  import opened Noise
  import opened Protocol
  import opened Session
  import opened Utf8
  import opened Wrappers

  // ---------------------------------------------------------------- what a client decides by its pins

  datatype Decision =
    | NoLookup
    | LegacyInstead
    | Unusable
    | Proposes(pattern: string, suite: string, expected: Option<string>)
    | Refuses
    | Accepts

  /** Whether parameters make a client look for Noise options at all. */
  predicate Asks(c: Config, payload: seq<Field>) {
    && c.noiseSupported && c.password != "" && c.maxVersion >= PROTOCOL_V3
    && HasKey(payload, "max_protocol_version") && Get(payload, "max_protocol_version").Int?
    && Get(payload, "max_protocol_version").n >= PROTOCOL_V3 && Get(payload, "noise").Obj?
  }

  /** The pattern and suite it will propose; in KK also the key it expects. */
  function Proposal(c: Config, s: Client, payload: seq<Field>): Decision {
    match Selection(c, s, payload)
    case None => LegacyInstead
    case Some(selection) =>
      if !s.nodeId.Str? then Unusable
      else Proposes(selection.0, selection.1, if selection.0 == NOISE_PATTERN_KK then Pinned(c, s) else None)
  }

  /** The handshake after an authenticated reply and the message it may call for. */
  function Replied(c: Config, s: Client, payload: seq<Field>, ephemeral: nat): Option<Handshake>
    requires s.handshake.Some?
  {
    var p :- PacketOf(c, payload);
    var h :- Read(s.handshake.value, p);
    Some(if Finished(h) then h else Saw(h, Written(h, [], ephemeral)))
  }

  /** Whether the server's static key is taken. */
  function Verdict(c: Config, s: Client, payload: seq<Field>, ephemeral: nat): Decision
    requires s.handshake.Some?
  {
    var h := Replied(c, s, payload, ephemeral);
    if h.None? || !Finished(h.value) then NoLookup
    else if Pinned(c, s).Some? && Pinned(c, s) != RemoteOf(h.value) then Refuses
    else Accepts
  }

  /** What the pins decide in a step. */
  function Decides(c: Config, s: Client, e: Event): Decision {
    match e
    case Shake(fields, ephemeral) =>
      if HasKey(fields, "noise") && s.handshake.Some? then Verdict(c, s, fields, ephemeral)
      else if !HasKey(fields, "envelope") && Asks(c, fields) then Proposal(c, s, fields)
      else NoLookup
    case Retry(_) =>
      if s.bus.connected && s.handshake.None? && s.params.Some? && s.params.value.Obj? && s.params.value.fields != []
         && Asks(c, s.params.value.fields) then Proposal(c, s, s.params.value.fields)
      else NoLookup
    case _ => NoLookup
  }

  lemma AsksIsShould(c: Config, s: Client, payload: seq<Field>)
    ensures Asks(c, payload) ==> ShouldUseNoise(c, s, payload) == Some(Selection(c, s, payload).Some?)
    ensures !Asks(c, payload) ==> ShouldUseNoise(c, s, payload) != Some(true)
  {
    hide Selection, Get, HasKey;
  }

  // ---------------------------------------------------------------- what a step asks of the connection

  /** A handler's use of the connection; first is the reply that goes ahead of the outcome of a handshake. */
  datatype Act =
    | Nothing
    | Opens
    | Says(msg: Msg)
    | Unlocks(key: nat)
    | Aborts(first: Option<Msg>)
    | Finishes(first: Option<Msg>, transport: BusClients.Session)

  function SayFirst(mode: Mode, b: Bus, first: Option<Msg>): Bus {
    if first.Some? then Emit(mode, b, first.value) else b
  }

  function DoAct(mode: Mode, b: Bus, a: Act): Bus {
    match a
    case Nothing => b
    case Opens => b.(connected := true)
    case Says(m) => Emit(mode, b, m)
    case Unlocks(key) => Emit(mode, b.(cryptoKey := Some(key)), SessionHello).(established := true)
    case Aborts(first) => RequestClose(mode, SayFirst(mode, b, first).(transport := None))
    case Finishes(first, t) =>
      Emit(mode, SayFirst(mode, b, first).(transport := Some(t)), SessionHello).(established := true)
  }

  function StartAct(c: Config, s: Client, payload: seq<Field>, ephemeral: nat): Act {
    match Selection(c, s, payload)
    case None => Says(LegacyOffer(s.binarize, c.password != ""))
    case Some(selection) =>
      if !s.nodeId.Str? then Aborts(None)
      else
        var o := OfferOf(s, payload, selection);
        var h := Begin(true, o, Psk(c.password, s.nodeId.s), c.ownKey, Pinned(c, s));
        Says(NoiseOffer(selection.0, selection.1, Written(h, NoisePayload(c, s), ephemeral)))
  }

  function CompleteAct(c: Config, s: Client, h: Handshake, payload: seq<byte>, first: Option<Msg>): Act {
    if !Finished(h) || (Pinned(c, s).Some? && Pinned(c, s) != RemoteOf(h)) then Aborts(first)
    else if Readable(payload) then Finishes(first, BusClients.Session(h.seen, RemoteOf(h), 0))
    else if first.Some? then Says(first.value)
    else Nothing
  }

  function ReceiveAct(c: Config, s: Client, payload: seq<Field>, ephemeral: nat): Act
    requires s.handshake.Some?
  {
    match PacketOf(c, payload)
    case None => Aborts(None)
    case Some(p) =>
      match Read(s.handshake.value, p)
      case None => Aborts(None)
      case Some(h) =>
        if Finished(h) then CompleteAct(c, s, h, p.payload, None)
        else
          var msg3 := Written(h, [], ephemeral);
          CompleteAct(c, s, Saw(h, msg3), p.payload, Some(NoiseReply(msg3)))
  }

  function ParamsAct(c: Config, s: Client, payload: seq<Field>, ephemeral: nat): Act {
    var s' := s.(binarize := if HasKey(payload, "binarize") then Get(payload, "binarize") else Bool(false),
                 params := Some(Obj(payload)));
    match ShouldUseNoise(c, s', payload)
    case None => Nothing
    case Some(true) => StartAct(c, s', payload, ephemeral)
    case Some(false) =>
      if Truthy(Get(payload, "password")) && c.password != ""
      then Says(LegacyOffer(s'.binarize, c.password != "")) else Nothing
  }

  function LegacyAct(c: Config, s: Client, envelope: Json): Act {
    match c.openEnvelope(envelope, s.mpubkey)
    case None => Nothing
    case Some(key) => Unlocks(key)
  }

  function RetryAct(c: Config, s: Client, ephemeral: nat): Act {
    if s.handshake.Some? then Nothing
    else if s.params.Some? && s.params.value.Obj? && s.params.value.fields != [] then
      match ShouldUseNoise(c, s, s.params.value.fields)
      case None => Nothing
      case Some(true) => StartAct(c, s, s.params.value.fields, ephemeral)
      case Some(false) => Says(LegacyOffer(s.binarize, c.password != ""))
    else Says(LegacyOffer(s.binarize, c.password != ""))
  }

  /** What a step does to the connection; a turn and the end of a connection are no doing of the client. */
  function ActOf(c: Config, s: Client, e: Event): Act {
    match e
    case Shake(fields, ephemeral) =>
      if HasKey(fields, "noise") && s.handshake.Some? then ReceiveAct(c, s, fields, ephemeral)
      else if HasKey(fields, "envelope") then LegacyAct(c, s, Get(fields, "envelope"))
      else ParamsAct(c, s, fields, ephemeral)
    case Retry(ephemeral) => if s.bus.connected then RetryAct(c, s, ephemeral) else Nothing
    case Open => Opens
    case Send(msg) => Says(msg)
    case _ => Nothing
  }

  lemma StartIsAct(c: Config, s: Client, payload: seq<Field>, ephemeral: nat)
    ensures StartNoise(c, s, payload, ephemeral).bus == DoAct(c.mode, s.bus, StartAct(c, s, payload, ephemeral))
  {
    hide Selection, Begin, Written, Saw, NoisePayload, Pinned, OfferOf, Emit;
    if Selection(c, s, payload).Some? {
      OfferHas(s, payload, Selection(c, s, payload).value);
    }
  }

  lemma CompleteIsAct(c: Config, s: Client, x: Client, payload: seq<byte>, first: Option<Msg>)
    requires x.handshake.Some? && x.nodeId == s.nodeId && x.pins == s.pins && x.bus == SayFirst(c.mode, s.bus, first)
    ensures Complete(c, x, payload).bus
         == DoAct(c.mode, s.bus, CompleteAct(c, s, x.handshake.value, payload, first))
  {
    hide Finished, RemoteOf, Readable, Pinned, PinId, Emit;
    PinnedDepends(c, s, x);
  }

  lemma PinnedDepends(c: Config, s: Client, t: Client)
    requires t.nodeId == s.nodeId && t.pins == s.pins
    ensures Pinned(c, t) == Pinned(c, s)
  {
    hide Truthy;
  }

  lemma ReceiveIsAct(c: Config, s: Client, payload: seq<Field>, ephemeral: nat)
    requires s.handshake.Some?
    ensures ReceiveNoise(c, s, payload, ephemeral).bus == DoAct(c.mode, s.bus, ReceiveAct(c, s, payload, ephemeral))
  {
    hide PacketOf, Read, Written, Complete, CompleteAct, Finished, Saw, Emit;
    var p := PacketOf(c, payload);
    if p.Some? && Read(s.handshake.value, p.value).Some? {
      var h := Read(s.handshake.value, p.value).value;
      var first := if Finished(h) then None else Some(NoiseReply(Written(h, [], ephemeral)));
      CompleteIsAct(c, s, Reply(c, s, h, ephemeral), p.value.payload, first);
    }
  }

  lemma ParamsIsAct(c: Config, s: Client, payload: seq<Field>, ephemeral: nat)
    ensures ReceiveParams(c, s, payload, ephemeral).bus == DoAct(c.mode, s.bus, ParamsAct(c, s, payload, ephemeral))
  {
    hide StartNoise, StartAct, ShouldUseNoise, Get, HasKey, Truthy, Emit;
    StartIsAct(c, s.(binarize := if HasKey(payload, "binarize") then Get(payload, "binarize") else Bool(false),
                     params := Some(Obj(payload))), payload, ephemeral);
  }

  lemma RetryIsAct(c: Config, s: Client, ephemeral: nat)
    ensures StartHandshake(c, s, ephemeral).bus == DoAct(c.mode, s.bus, RetryAct(c, s, ephemeral))
  {
    hide StartNoise, StartAct, ShouldUseNoise, Emit;
    if s.params.Some? && s.params.value.Obj? { StartIsAct(c, s, s.params.value.fields, ephemeral); }
  }

  /** The connection after a step. */
  lemma StepIsAct(c: Config, s: Client, e: Event)
    requires !e.Turn? && !e.Ended?
    ensures Step(c, s, e).bus == DoAct(c.mode, s.bus, ActOf(c, s, e))
  {
    hide ReceiveNoise, ReceiveAct, ReceiveParams, ParamsAct, StartHandshake, RetryAct, Get, HasKey, Truthy, Emit;
    match e
    case Shake(fields, ephemeral) =>
      if s.handshake.Some? { ReceiveIsAct(c, s, fields, ephemeral); }
      ParamsIsAct(c, s, fields, ephemeral);
    case Retry(ephemeral) => RetryIsAct(c, s, ephemeral);
    case _ =>
  }

  // ---------------------------------------------------------------- two clients that decide alike

  /** Configurations that differ in the kind of client and its endpoint. */
  ghost predicate SameButKind(c: Config, d: Config) { d == c.(mode := d.mode, endpoint := d.endpoint) }

  /** Alike in everything but the connection and the pins. */
  predicate Kin(x: Client, y: Client) { x == y.(bus := x.bus, pins := x.pins) }

  lemma AsksAlike(c: Config, d: Config, payload: seq<Field>)
    requires SameButKind(c, d)
    ensures Asks(c, payload) == Asks(d, payload)
  {
    hide Get, HasKey;
  }

  lemma SamePacket(c: Config, d: Config, payload: seq<Field>)
    requires SameButKind(c, d)
    ensures PacketOf(c, payload) == PacketOf(d, payload)
  {
    hide Get;
  }

  /** Without a lookup the answer does not depend on pins or endpoint. */
  lemma ShouldWithoutLookup(c: Config, d: Config, s: Client, t: Client, payload: seq<Field>)
    requires SameButKind(c, d) && !Asks(c, payload)
    ensures ShouldUseNoise(c, s, payload) == ShouldUseNoise(d, t, payload)
  {
    hide Selection, Get, HasKey;
  }

  lemma ProposalIgnores(c: Config, s: Client, t: Client, payload: seq<Field>)
    requires t.nodeId == s.nodeId && t.pins == s.pins
    ensures Proposal(c, t, payload) == Proposal(c, s, payload) && Selection(c, t, payload) == Selection(c, s, payload)
  {
    PinnedDepends(c, s, t);
    hide Get, Pinned, SelectNoiseOptions, Offered;
  }

  /** The expected key is of use in KK only. */
  lemma BeginDepends(o: Offer, psk: Psk, ownKey: string, k: Option<string>, l: Option<string>)
    requires o.pattern == NOISE_PATTERN_KK ==> k == l
    ensures Begin(true, o, psk, ownKey, k) == Begin(true, o, psk, ownKey, l)
  {
    hide BuildPrologue, NoiseProtocolName;
  }

  lemma StartKin(c: Config, d: Config, x: Client, y: Client, payload: seq<Field>, ephemeral: nat)
    requires SameButKind(c, d) && Kin(x, y) && Proposal(c, x, payload) == Proposal(d, y, payload)
    ensures Kin(StartNoise(c, x, payload, ephemeral), StartNoise(d, y, payload, ephemeral))
    ensures StartAct(c, x, payload, ephemeral) == StartAct(d, y, payload, ephemeral)
  {
    hide Selection, Written, Saw, BuildPrologue, NoiseProtocolName, CanonicalJson, Pinned, Begin, Emit;
    var s, t := Selection(c, x, payload), Selection(d, y, payload);
    assert s.None? <==> t.None?;
    if s.Some? && x.nodeId.Str? {
      assert s == t;
      OfferHas(x, payload, s.value);
      BeginDepends(OfferOf(x, payload, s.value), Psk(c.password, x.nodeId.s), c.ownKey, Pinned(c, x), Pinned(d, y));
      assert OfferOf(x, payload, s.value) == OfferOf(y, payload, s.value);
      assert NoisePayload(c, x) == NoisePayload(d, y);
    }
  }

  lemma ParamsKin(c: Config, d: Config, x: Client, y: Client, payload: seq<Field>, ephemeral: nat)
    requires SameButKind(c, d) && Kin(x, y)
    requires Asks(c, payload) ==> Proposal(c, x, payload) == Proposal(d, y, payload)
    ensures Kin(ReceiveParams(c, x, payload, ephemeral), ReceiveParams(d, y, payload, ephemeral))
    ensures ParamsAct(c, x, payload, ephemeral) == ParamsAct(d, y, payload, ephemeral)
  {
    hide StartNoise, StartAct, ShouldUseNoise, Asks, Proposal, Get, HasKey, Truthy, Selection, Emit;
    var binarize := if HasKey(payload, "binarize") then Get(payload, "binarize") else Bool(false);
    var x1 := x.(binarize := binarize, params := Some(Obj(payload)));
    var y1 := y.(binarize := binarize, params := Some(Obj(payload)));
    AsksAlike(c, d, payload);
    AsksIsShould(c, x1, payload);
    AsksIsShould(d, y1, payload);
    ProposalIgnores(c, x, x1, payload);
    ProposalIgnores(d, y, y1, payload);
    if Asks(c, payload) {
      StartKin(c, d, x1, y1, payload, ephemeral);
      SameSelection(c, d, x1, y1, payload);
    } else {
      ShouldWithoutLookup(c, d, x1, y1, payload);
    }
  }

  lemma SameSelection(c: Config, d: Config, x: Client, y: Client, payload: seq<Field>)
    requires Proposal(c, x, payload) == Proposal(d, y, payload)
    ensures Selection(c, x, payload).Some? <==> Selection(d, y, payload).Some?
  {
    hide Selection, Pinned;
  }

  lemma RetryKin(c: Config, d: Config, x: Client, y: Client, ephemeral: nat)
    requires SameButKind(c, d) && Kin(x, y)
    requires x.handshake.None? && x.params.Some? && x.params.value.Obj? && x.params.value.fields != []
             && Asks(c, x.params.value.fields)
             ==> Proposal(c, x, x.params.value.fields) == Proposal(d, y, x.params.value.fields)
    ensures Kin(StartHandshake(c, x, ephemeral), StartHandshake(d, y, ephemeral))
    ensures RetryAct(c, x, ephemeral) == RetryAct(d, y, ephemeral)
  {
    hide StartNoise, StartAct, ShouldUseNoise, Asks, Proposal, Selection, Emit;
    if x.handshake.None? && x.params.Some? && x.params.value.Obj? && x.params.value.fields != [] {
      var payload := x.params.value.fields;
      AsksAlike(c, d, payload);
      AsksIsShould(c, x, payload);
      AsksIsShould(d, y, payload);
      if Asks(c, payload) {
        StartKin(c, d, x, y, payload, ephemeral);
        SameSelection(c, d, x, y, payload);
      } else {
        ShouldWithoutLookup(c, d, x, y, payload);
      }
    }
  }

  /** What Complete does to all but the connection and the pins. */
  lemma CompleteKin(c: Config, d: Config, x: Client, y: Client, payload: seq<byte>)
    requires SameButKind(c, d) && Kin(x, y) && x.handshake.Some?
    requires var h := x.handshake.value;
             Finished(h) ==>
               (Pinned(c, x).Some? && Pinned(c, x) != RemoteOf(h) <==>
                Pinned(d, y).Some? && Pinned(d, y) != RemoteOf(h))
    ensures Kin(Complete(c, x, payload), Complete(d, y, payload))
  {
    hide Finished, RemoteOf, Readable, Pinned, PinId, Emit;
  }

  lemma ReceiveKin(c: Config, d: Config, x: Client, y: Client, payload: seq<Field>, ephemeral: nat)
    requires SameButKind(c, d) && Kin(x, y) && x.handshake.Some?
    requires Verdict(c, x, payload, ephemeral) == Verdict(d, y, payload, ephemeral)
    ensures Kin(ReceiveNoise(c, x, payload, ephemeral), ReceiveNoise(d, y, payload, ephemeral))
    ensures ReceiveAct(c, x, payload, ephemeral) == ReceiveAct(d, y, payload, ephemeral)
  {
    SamePacket(c, d, payload);
    hide PacketOf, Read, Written, Complete, Finished, Saw, RemoteOf, Pinned, Readable, Reply;
    var p := PacketOf(c, payload);
    if p.Some? && Read(x.handshake.value, p.value).Some? {
      var h := Read(x.handshake.value, p.value).value;
      ReplyKin(c, x, h, ephemeral);
      ReplyKin(d, y, h, ephemeral);
      CompleteKin(c, d, Reply(c, x, h, ephemeral), Reply(d, y, h, ephemeral), p.value.payload);
    }
  }

  lemma ReplyKin(c: Config, s: Client, h: Handshake, ephemeral: nat)
    ensures var r := Reply(c, s, h, ephemeral);
            && r == s.(bus := r.bus, handshake := r.handshake) && Pinned(c, r) == Pinned(c, s)
            && r.handshake == Some(if Finished(h) then h else Saw(h, Written(h, [], ephemeral)))
  {
    PinnedDepends(c, s, Reply(c, s, h, ephemeral));
    hide Finished, Written, Saw, Pinned, Emit;
  }

  /** Clients that decide alike by their pins do alike, whatever their kind. */
  lemma StepKin(c: Config, d: Config, x: Client, y: Client, e: Event)
    requires SameButKind(c, d) && Kin(x, y) && x.bus.connected == y.bus.connected
    requires Decides(c, x, e) == Decides(d, y, e)
    ensures Kin(Step(c, x, e), Step(d, y, e)) && ActOf(c, x, e) == ActOf(d, y, e)
  {
    hide ReceiveNoise, ReceiveAct, ReceiveParams, ParamsAct, StartHandshake, RetryAct, Proposal, Verdict, Asks, Get,
         HasKey,
         Truthy, Drain, Emit;
    match e
    case Shake(fields, ephemeral) =>
      AsksAlike(c, d, fields);
      if HasKey(fields, "noise") && x.handshake.Some? {
        ReceiveKin(c, d, x, y, fields, ephemeral);
      } else if !HasKey(fields, "envelope") {
        ParamsKin(c, d, x, y, fields, ephemeral);
      }
    case Retry(ephemeral) =>
      if x.params.Some? && x.params.value.Obj? { AsksAlike(c, d, x.params.value.fields); }
      if x.bus.connected { RetryKin(c, d, x, y, ephemeral); }
    case _ =>
  }

  // ---------------------------------------------------------------- what is handed to the connection

  /** The messages and closes of an act, as tasks. */
  function Handed(a: Act): seq<Task> {
    match a
    case Nothing => []
    case Opens => []
    case Says(m) => [EmitTask(m)]
    case Unlocks(_) => [EmitTask(SessionHello)]
    case Aborts(first) => FirstTask(first) + [CloseTask]
    case Finishes(first, _) => FirstTask(first) + [EmitTask(SessionHello)]
  }

  function FirstTask(first: Option<Msg>): seq<Task> { if first.Some? then [EmitTask(first.value)] else [] }

  lemma ProposalKinds(c: Config, s: Client, payload: seq<Field>)
    ensures var d := Proposal(c, s, payload);
            && (d.LegacyInstead? || d.Unusable? || d.Proposes?)
            && (d.Unusable? ==> !s.nodeId.Str?) && (d.Proposes? ==> s.nodeId.Str?)
            && (d.Proposes? ==> (d.pattern == NOISE_PATTERN_KK <==> d.expected.Some?))
  {
    if Selection(c, s, payload).Some? { SelectsRegistered(c, s, payload); }
    hide Selection, Pinned;
  }

  /** What an act hands over after a proposal was decided on. */
  predicate Proposed(c: Config, a: Act, d: Decision) {
    match d
    case Proposes(pattern, suite, expected) =>
      && a.Says? && a.msg.NoiseOffer? && a.msg.pattern == pattern && a.msg.suite == suite
      && (expected.Some? ==> a.msg.packet.auth.statics == Some((c.ownKey, expected.value)))
    case Unusable => a == Aborts(None)
    case LegacyInstead => a.Nothing? || (a.Says? && a.msg.LegacyOffer?)
    case _ => true
  }

  lemma BeginStatics(o: Offer, psk: Psk, ownKey: string, expected: Option<string>, payload: seq<byte>, ephemeral: nat)
    ensures o.pattern == NOISE_PATTERN_KK && expected.Some? ==>
              Written(Begin(true, o, psk, ownKey, expected), payload, ephemeral).auth.statics
              == Some((ownKey, expected.value))
  {
    hide BuildPrologue, NoiseProtocolName;
  }

  lemma StartProposes(c: Config, s: Client, payload: seq<Field>, ephemeral: nat)
    ensures Proposed(c, StartAct(c, s, payload, ephemeral), Proposal(c, s, payload))
  {
    hide Selection, NoisePayload, Pinned, Begin, Written, OfferOf;
    var selection := Selection(c, s, payload);
    if selection.Some? && s.nodeId.Str? {
      OfferHas(s, payload, selection.value);
      BeginStatics(OfferOf(s, payload, selection.value), Psk(c.password, s.nodeId.s), c.ownKey, Pinned(c, s),
                   NoisePayload(c, s), ephemeral);
    }
  }

  lemma ParamsProposes(c: Config, s: Client, payload: seq<Field>, ephemeral: nat)
    requires Asks(c, payload)
    ensures Proposed(c, ParamsAct(c, s, payload, ephemeral), Proposal(c, s, payload))
  {
    hide StartAct, ShouldUseNoise, Asks, Get, HasKey, Truthy, Selection, Pinned;
    var s1 := s.(binarize := if HasKey(payload, "binarize") then Get(payload, "binarize") else Bool(false),
                 params := Some(Obj(payload)));
    AsksIsShould(c, s1, payload);
    ProposalIgnores(c, s, s1, payload);
    StartProposes(c, s1, payload, ephemeral);
  }

  lemma RetryProposes(c: Config, s: Client, ephemeral: nat)
    requires s.handshake.None? && s.params.Some? && s.params.value.Obj? && s.params.value.fields != []
    requires Asks(c, s.params.value.fields)
    ensures Proposed(c, RetryAct(c, s, ephemeral), Proposal(c, s, s.params.value.fields))
  {
    hide StartAct, ShouldUseNoise, Asks, Selection, Pinned;
    AsksIsShould(c, s, s.params.value.fields);
    StartProposes(c, s, s.params.value.fields, ephemeral);
  }

  /** The message that goes ahead of the outcome. */
  function ReplyTo(c: Config, s: Client, payload: seq<Field>, ephemeral: nat): Option<Msg>
    requires s.handshake.Some?
  {
    var p :- PacketOf(c, payload);
    var h :- Read(s.handshake.value, p);
    if Finished(h) then None else Some(NoiseReply(Written(h, [], ephemeral)))
  }

  /** What an act hands over after a verdict. */
  predicate Judged(a: Act, first: Option<Msg>, d: Decision) {
    match d
    case Refuses => a == Aborts(first)
    case Accepts => (a.Finishes? && a.first == first) || (if first.Some? then a == Says(first.value) else a == Nothing)
    case _ => true
  }

  lemma ReceiveJudges(c: Config, s: Client, payload: seq<Field>, ephemeral: nat)
    requires s.handshake.Some?
    ensures Judged(ReceiveAct(c, s, payload, ephemeral), ReplyTo(c, s, payload, ephemeral),
                   Verdict(c, s, payload, ephemeral))
  {
    hide PacketOf, Read, Written, Finished, Saw, RemoteOf, Pinned, Readable;
  }

  lemma VerdictKinds(c: Config, d: Config, s: Client, t: Client, payload: seq<Field>, ephemeral: nat)
    requires SameButKind(c, d) && s.handshake.Some? && t.handshake == s.handshake
    ensures var x, y := Verdict(c, s, payload, ephemeral), Verdict(d, t, payload, ephemeral);
            && (x.NoLookup? <==> y.NoLookup?)
            && (x.NoLookup? || x.Refuses? || x.Accepts?) && (y.NoLookup? || y.Refuses? || y.Accepts?)
    ensures ReplyTo(c, s, payload, ephemeral) == ReplyTo(d, t, payload, ephemeral)
  {
    SamePacket(c, d, payload);
    hide PacketOf, Read, Written, Finished, Saw, RemoteOf, Pinned;
  }

  lemma DifferentProposalsShow(a: Act, b: Act, c: Config, d: Config, x: Decision, y: Decision)
    requires SameButKind(c, d) && Proposed(c, a, x) && Proposed(d, b, y) && x != y
    requires x.LegacyInstead? || x.Unusable? || x.Proposes?
    requires y.LegacyInstead? || y.Unusable? || y.Proposes?
    requires !(x.Unusable? && y.Proposes?) && !(y.Unusable? && x.Proposes?)
    requires x.Proposes? ==> (x.pattern == NOISE_PATTERN_KK <==> x.expected.Some?)
    requires y.Proposes? ==> (y.pattern == NOISE_PATTERN_KK <==> y.expected.Some?)
    ensures Handed(a) != Handed(b)
  {
    assert a.Says? && b.Says? && a.msg != b.msg ==> Handed(a)[0] != Handed(b)[0];
    if x.Unusable? || y.Unusable? { assert Handed(Aborts(None)) == [CloseTask]; }
  }

  lemma DifferentVerdictsShow(a: Act, b: Act, first: Option<Msg>, x: Decision, y: Decision)
    requires Judged(a, first, x) && Judged(b, first, y) && x != y
    requires (x.Refuses? || x.Accepts?) && (y.Refuses? || y.Accepts?)
    ensures Handed(a) != Handed(b)
  {
    var n := |FirstTask(first)|;
    assert a.Aborts? ==> Handed(a)[n] == CloseTask;
    assert b.Aborts? ==> Handed(b)[n] == CloseTask;
    assert a.Finishes? ==> Handed(a)[n] == EmitTask(SessionHello);
    assert b.Finishes? ==> Handed(b)[n] == EmitTask(SessionHello);
    assert !a.Aborts? && !a.Finishes? ==> |Handed(a)| == n;
    assert !b.Aborts? && !b.Finishes? ==> |Handed(b)| == n;
  }

  /** Clients that decide differently by their pins hand different things to the connection. */
  lemma DifferentDecisionsShow(c: Config, d: Config, x: Client, y: Client, e: Event)
    requires SameButKind(c, d) && Kin(x, y) && x.bus.connected == y.bus.connected
    requires Decides(c, x, e) != Decides(d, y, e)
    ensures Handed(ActOf(c, x, e)) != Handed(ActOf(d, y, e))
  {
    hide ReceiveAct, ParamsAct, RetryAct, Proposal, Verdict, Asks, Get, HasKey, Truthy, Handed, Proposed, Judged,
         ReplyTo;
    match e
    case Shake(fields, ephemeral) =>
      AsksAlike(c, d, fields);
      if HasKey(fields, "noise") && x.handshake.Some? {
        ReceiveJudges(c, x, fields, ephemeral);
        ReceiveJudges(d, y, fields, ephemeral);
        VerdictKinds(c, d, x, y, fields, ephemeral);
        DifferentVerdictsShow(ActOf(c, x, e), ActOf(d, y, e), ReplyTo(c, x, fields, ephemeral), Decides(c, x, e),
                              Decides(d, y, e));
      } else if !HasKey(fields, "envelope") && Asks(c, fields) {
        ParamsProposes(c, x, fields, ephemeral);
        ParamsProposes(d, y, fields, ephemeral);
        ProposalKinds(c, x, fields);
        ProposalKinds(d, y, fields);
        DifferentProposalsShow(ActOf(c, x, e), ActOf(d, y, e), c, d, Decides(c, x, e), Decides(d, y, e));
      }
    case Retry(ephemeral) =>
      if x.params.Some? && x.params.value.Obj? {
        var payload := x.params.value.fields;
        AsksAlike(c, d, payload);
        if x.bus.connected && x.handshake.None? && payload != [] && Asks(c, payload) {
          RetryProposes(c, x, ephemeral);
          RetryProposes(d, y, ephemeral);
          ProposalKinds(c, x, payload);
          ProposalKinds(d, y, payload);
          DifferentProposalsShow(ActOf(c, x, e), ActOf(d, y, e), c, d, Decides(c, x, e), Decides(d, y, e));
        }
      }
    case _ =>
  }
}
