/** Runs of a client: what it keeps of HELLO, its pinned keys, and when a session counts as established. */
module Session {
  import opened BusClients
  import opened Handshakes
  import opened Json
  import opened Noise
  import opened Protocol
  import opened Utf8
  import opened Wrappers

  /** Ended is the end of a connection; Turn lets the loop run its tasks, or the socket close as requested. */
  datatype Event =
    | Hello(fields: seq<Field>)
    | Shake(fields: seq<Field>, ephemeral: nat)
    | Retry(ephemeral: nat)
    | Open
    | Ended(how: LoopEnd)
    | Turn
    | Send(msg: Msg)

  function End(mode: Mode, b: Bus, how: LoopEnd): Bus {
    match mode
    case Sync => OnClose(b)
    case Async => EndLoop(b, how)
  }

  function TakeTurn(mode: Mode, b: Bus): Bus {
    match mode
    case Sync => if b.closing then OnClose(b) else b
    case Async => Drain(b)
  }

  function Step(c: Config, s: Client, e: Event): Client {
    match e
    case Hello(fields) => HandleHello(s, fields)
    case Shake(fields, ephemeral) => HandleHandshake(c, s, fields, ephemeral)
    case Retry(ephemeral) => if s.bus.connected then StartHandshake(c, s, ephemeral) else s
    case Open => s.(bus := s.bus.(connected := true))
    case Ended(how) => s.(bus := End(c.mode, s.bus, how))
    case Turn => s.(bus := TakeTurn(c.mode, s.bus))
    case Send(msg) => Say(c, s, msg)
  }

  function After(c: Config, s: Client, es: seq<Event>): Client
    decreases es
  {
    if es == [] then s else After(c, Step(c, s, es[0]), es[1..])
  }

  // ---------------------------------------------------------------- HELLO

  /** The first HELLO that names its sender. */
  function FirstNamed(es: seq<Event>): Option<seq<Field>> {
    if es == [] then None
    else if es[0].Hello? && Truthy(Get(es[0].fields, "node_id")) then Some(es[0].fields)
    else FirstNamed(es[1..])
  }

  /** Handlers other than handle_hello leave what HELLO said alone. */
  predicate SameServer(s: Client, s': Client) {
    s'.nodeId == s.nodeId && s'.mpubkey == s.mpubkey && s'.hello == s.hello
  }

  lemma ServerKept(c: Config, s: Client, e: Event)
    requires e.Hello? ==> Truthy(s.nodeId)
    ensures SameServer(s, Step(c, s, e))
  {
    hide Read, Written, Begin, Selection, ShouldUseNoise, Pinned, Drain, SendSync, Finished, Readable, RemoteOf, Get,
         HasKey, Truthy;
  }

  lemma GetHas(fields: seq<Field>, key: string)
    ensures !HasKey(fields, key) ==> Get(fields, key) == Null
  {
    if fields != [] { HasKeyHead(fields, key); }
  }

  lemma {:induction false} NamedServerKept(c: Config, s: Client, es: seq<Event>)
    requires Truthy(s.nodeId)
    ensures SameServer(s, After(c, s, es))
    decreases es
  {
    hide Step, Truthy;
    if es != [] {
      ServerKept(c, s, es[0]);
      NamedServerKept(c, Step(c, s, es[0]), es[1..]);
    }
  }

  lemma HelloRecorded(c: Config, s: Client, fields: seq<Field>)
    requires !Truthy(s.nodeId)
    ensures var s' := Step(c, s, Hello(fields));
            && s'.hello == Some(Obj(fields)) && s'.mpubkey == Get(fields, "pubkey")
            && s'.nodeId == (if HasKey(fields, "node_id") then Get(fields, "node_id") else Str(""))
            && (Truthy(s'.nodeId) <==> Truthy(Get(fields, "node_id")))
            && (Truthy(s'.nodeId) ==> s'.nodeId == Get(fields, "node_id"))
  {
    GetHas(fields, "node_id");
    hide Get, HasKey;
  }

  function LastHello(es: seq<Event>): Option<seq<Field>> {
    if es == [] then None
    else if LastHello(es[1..]).Some? then LastHello(es[1..])
    else if es[0].Hello? then Some(es[0].fields) else None
  }

  /** What the client has of a HELLO is what this one said; without one it is as before. */
  predicate HeardLast(s: Client, s': Client, last: Option<seq<Field>>) {
    match last
    case None => SameServer(s, s')
    case Some(fields) =>
      && s'.hello == Some(Obj(fields)) && s'.mpubkey == Get(fields, "pubkey")
      && s'.nodeId == if HasKey(fields, "node_id") then Get(fields, "node_id") else Str("")
  }

  /**
   Through reconnects and all else the client keeps the first HELLO that named its sender: a later HELLO, also
   one of a new connection, never enters the prologue. Until there is one it has what the last HELLO said, with the
   empty string for a missing node id.
   */
  lemma {:induction false} FirstHelloKept(c: Config, s: Client, es: seq<Event>)
    requires !Truthy(s.nodeId)
    ensures var s' := After(c, s, es);
            match FirstNamed(es)
            case None => !Truthy(s'.nodeId) && HeardLast(s, s', LastHello(es))
            case Some(fields) => s'.hello == Some(Obj(fields)) && s'.nodeId == Get(fields, "node_id")
                                 && s'.mpubkey == Get(fields, "pubkey")
    decreases es
  {
    hide Step, Truthy, Get, HasKey;
    if es != [] {
      var s' := Step(c, s, es[0]);
      if es[0].Hello? {
        HelloRecorded(c, s, es[0].fields);
      } else {
        ServerKept(c, s, es[0]);
      }
      if Truthy(s'.nodeId) {
        NamedServerKept(c, s', es[1..]);
      } else {
        FirstHelloKept(c, s', es[1..]);
      }
    }
  }

  // ---------------------------------------------------------------- pinned keys

  ghost predicate PinsKept(p: map<Json, string>, q: map<Json, string>) {
    forall id | id in p && p[id] != "" :: id in q && q[id] == p[id]
  }

  lemma StepKeepsPins(c: Config, s: Client, e: Event)
    ensures PinsKept(s.pins, Step(c, s, e).pins)
  {
    hide Read, Written, Begin, Selection, ShouldUseNoise, Drain, SendSync, Finished, Readable, RemoteOf, Get, HasKey,
         Truthy;
  }

  /** Once a key is pinned for an endpoint it stays pinned, over all runs and reconnects. */
  lemma {:induction false} PinsWriteOnce(c: Config, s: Client, es: seq<Event>)
    ensures PinsKept(s.pins, After(c, s, es).pins)
    decreases es
  {
    hide Step;
    if es != [] {
      StepKeepsPins(c, s, es[0]);
      PinsWriteOnce(c, Step(c, s, es[0]), es[1..]);
    }
  }

  /** The pin identifier no longer changes: it is the endpoint, or the node id is known. */
  predicate Identified(c: Config, s: Client) { c.endpoint.Some? || Truthy(s.nodeId) }

  /** A handshake under way knows the other side's key once the pattern has told it. */
  predicate Keyed(h: Handshake) {
    && h.seen != []
    && (h.pattern == NOISE_PATTERN_KK || |h.seen| >= 2 ==> h.remoteKey.Some? && h.remoteKey.value != "")
  }

  predicate HandshakeKeyed(s: Client) { s.handshake.Some? ==> Keyed(s.handshake.value) }

  /** The transport in use has the key pinned for the server. */
  predicate PinHolds(c: Config, s: Client) {
    s.bus.transport.Some? ==> Pinned(c, s).Some? && s.bus.transport.value.remoteKey == Pinned(c, s)
  }

  predicate SessionPinned(c: Config, s: Client) { HandshakeKeyed(s) && PinHolds(c, s) }

  /** Sending changes the nonce of a transport only. */
  predicate SameTransport(b: Bus, b': Bus) {
    b'.transport.Some? ==> b.transport.Some? && b'.transport.value.remoteKey == b.transport.value.remoteKey
  }

  lemma {:induction false} DrainKeepsTransport(b: Bus)
    ensures SameTransport(b, Drain(b))
    decreases |b.tasks|
  {
    if b.tasks != [] { DrainKeepsTransport(RunTask(b.(tasks := b.tasks[1..]), b.tasks[0])); }
  }

  lemma PinIdKept(c: Config, s: Client, e: Event)
    requires Identified(c, s)
    ensures Identified(c, Step(c, s, e)) && PinId(c, Step(c, s, e)) == PinId(c, s)
  {
    hide Step, Truthy;
    if !e.Hello? || Truthy(s.nodeId) { ServerKept(c, s, e); }
  }

  lemma PinPins(c: Config, s: Client, remote: Option<string>)
    requires remote.Some? && remote.value != "" && (Pinned(c, s).Some? ==> Pinned(c, s) == remote)
    ensures var s' := Pin(c, s, remote);
            Pinned(c, s') == remote && s'.bus == s.bus && s'.handshake == s.handshake
  {
    hide Truthy;
  }

  /** A handshake ended with a transport in use. */
  predicate Installed(s: Client, s': Client) { s.handshake.Some? && s'.handshake.None? && s'.bus.transport.Some? }

  /** A transport just installed has the pinned key; any other is the one that was in use. */
  predicate Moves(c: Config, s: Client, s': Client) {
    HandshakeKeyed(s') && (if Installed(s, s') then PinHolds(c, s') else SameTransport(s.bus, s'.bus))
  }

  lemma InstallPins(c: Config, s: Client, t: BusClients.Session)
    requires t.remoteKey.Some? && t.remoteKey == Pinned(c, s)
    ensures SessionPinned(c, Install(c, s, t)) && Install(c, s, t).handshake.None?
            && Install(c, s, t).bus.transport.Some?
  {
    hide Truthy, Keyed;
  }

  lemma AbortClean(c: Config, s: Client)
    ensures Abort(c, s).handshake.None? && Abort(c, s).bus.transport.None?
  {
  }

  lemma CompleteMoves(c: Config, s: Client, payload: seq<byte>)
    requires s.handshake.Some? && Keyed(s.handshake.value)
    ensures Moves(c, s, Complete(c, s, payload))
  {
    hide Readable, Pinned, PinId, Install, Abort, Pin;
    AbortClean(c, s);
    var h := s.handshake.value;
    if Finished(h) && (Pinned(c, s).Some? ==> Pinned(c, s) == RemoteOf(h)) {
      PinPins(c, s, RemoteOf(h));
      InstallPins(c, Pin(c, s, RemoteOf(h)), BusClients.Session(h.seen, RemoteOf(h), 0));
    }
  }

  lemma ReadKeys(h: Handshake, p: Packet)
    requires Keyed(h) && Read(h, p).Some?
    ensures Keyed(Read(h, p).value) && |Read(h, p).value.seen| >= 2
  {
  }

  lemma ReplyKeeps(c: Config, s: Client, h: Handshake, ephemeral: nat)
    requires Keyed(h) && (h.pattern == NOISE_PATTERN_KK || |h.seen| >= 2)
    ensures var s' := Reply(c, s, h, ephemeral);
            && s'.handshake.Some? && Keyed(s'.handshake.value) && s'.pins == s.pins && s'.nodeId == s.nodeId
            && SameTransport(s.bus, s'.bus) && (s.bus.transport.None? <==> s'.bus.transport.None?)
  {
  }

  lemma ReceiveMoves(c: Config, s: Client, payload: seq<Field>, ephemeral: nat)
    requires s.handshake.Some? && Keyed(s.handshake.value)
    ensures Moves(c, s, ReceiveNoise(c, s, payload, ephemeral))
  {
    hide Complete, Keyed, Reply, PacketOf, Abort, PinHolds;
    AbortClean(c, s);
    var p := PacketOf(c, payload);
    if p.Some? {
      var h := s.handshake.value;
      var r := Read(h, p.value);
      if r.Some? {
        ReadKeys(h, p.value);
        ReplyKeeps(c, s, r.value, ephemeral);
        CompleteMoves(c, Reply(c, s, r.value, ephemeral), p.value.payload);
      }
    }
  }

  lemma SelectsRegistered(c: Config, s: Client, payload: seq<Field>)
    requires Selection(c, s, payload).Some?
    ensures var pattern := Selection(c, s, payload).value.0;
            && (pattern == NOISE_PATTERN_KK || pattern == NOISE_PATTERN_XX)
            && (pattern == NOISE_PATTERN_KK ==> Pinned(c, s).Some?)
  {
    hide Get, Pinned, Offered, FirstOffered;
  }

  lemma BegunKeyed(o: Offer, psk: Psk, ownKey: string, remoteKey: Option<string>, p: Packet)
    requires o.pattern == NOISE_PATTERN_KK ==> remoteKey.Some? && remoteKey.value != ""
    ensures Keyed(Saw(Begin(true, o, psk, ownKey, remoteKey), p))
  {
    hide BuildPrologue;
  }

  lemma SayKeeps(c: Config, s: Client, m: Msg)
    ensures SameTransport(s.bus, Say(c, s, m).bus) && Say(c, s, m) == s.(bus := Say(c, s, m).bus)
  {
  }

  lemma PinnedNonEmpty(c: Config, s: Client)
    ensures Pinned(c, s).Some? ==> Pinned(c, s).value != ""
  {
  }

  /** Only the transport and the handshake matter to how a step moves. */
  lemma MovesQuietly(c: Config, s: Client, s': Client)
    requires SameTransport(s.bus, s'.bus) && HandshakeKeyed(s')
    requires s.handshake.Some? && s'.handshake.None? ==> s'.bus.transport.None?
    ensures Moves(c, s, s')
  {
    hide Keyed, PinHolds;
  }

  lemma StartMoves(c: Config, s: Client, payload: seq<Field>, ephemeral: nat)
    requires HandshakeKeyed(s)
    ensures Moves(c, s, StartNoise(c, s, payload, ephemeral))
  {
    hide Selection, OfferOf, Begin, Keyed, Pinned, NoisePayload, Written, Emit, Saw;
    var s' := StartNoise(c, s, payload, ephemeral);
    var sel := Selection(c, s, payload);
    if sel.None? {
      SayKeeps(c, s, LegacyOffer(s.binarize, c.password != ""));
    } else if s.nodeId.Str? {
      SelectsRegistered(c, s, payload);
      PinnedNonEmpty(c, s);
      var o := OfferOf(s, payload, sel.value);
      OfferHas(s, payload, sel.value);
      var h := Begin(true, o, Psk(c.password, s.nodeId.s), c.ownKey, Pinned(c, s));
      var msg1 := Written(h, NoisePayload(c, s), ephemeral);
      BegunKeyed(o, Psk(c.password, s.nodeId.s), c.ownKey, Pinned(c, s), msg1);
      SayKeeps(c, s.(handshake := Some(Saw(h, msg1)), pattern := Some(sel.value.0)),
               NoiseOffer(sel.value.0, sel.value.1, msg1));
    }
    MovesQuietly(c, s, s');
  }

  lemma OfferHas(s: Client, payload: seq<Field>, selection: (string, string))
    ensures var o := OfferOf(s, payload, selection); o.pattern == selection.0 && o.suite == selection.1
  {
  }

  lemma ParamsMoves(c: Config, s: Client, payload: seq<Field>, ephemeral: nat)
    requires HandshakeKeyed(s)
    ensures Moves(c, s, ReceiveParams(c, s, payload, ephemeral))
  {
    hide Keyed, StartNoise, ShouldUseNoise, PinHolds, Truthy, Get, HasKey;
    var s1 := s.(binarize := if HasKey(payload, "binarize") then Get(payload, "binarize") else Bool(false),
                 params := Some(Obj(payload)));
    StartMoves(c, s1, payload, ephemeral);
    MovesQuietly(c, s, s1);
    MovesQuietly(c, s, LegacyStart(c, s1));
  }

  lemma RetryMoves(c: Config, s: Client, ephemeral: nat)
    requires HandshakeKeyed(s)
    ensures Moves(c, s, StartHandshake(c, s, ephemeral))
  {
    hide Keyed, StartNoise, ShouldUseNoise, PinHolds;
    if s.params.Some? && s.params.value.Obj? { StartMoves(c, s, s.params.value.fields, ephemeral); }
    MovesQuietly(c, s, s);
    MovesQuietly(c, s, LegacyStart(c, s));
  }

  lemma StepMoves(c: Config, s: Client, e: Event)
    requires HandshakeKeyed(s)
    ensures Moves(c, s, Step(c, s, e))
  {
    hide Keyed, ReceiveNoise, ReceiveParams, StartHandshake, Pinned, Truthy, Get, HasKey, Drain, PinHolds, Moves;
    var s' := Step(c, s, e);
    match e
    case Shake(fields, ephemeral) =>
      if HasKey(fields, "noise") && s.handshake.Some? {
        ReceiveMoves(c, s, fields, ephemeral);
      } else if HasKey(fields, "envelope") {
        MovesQuietly(c, s, s');
      } else {
        ParamsMoves(c, s, fields, ephemeral);
      }
    case Retry(ephemeral) =>
      RetryMoves(c, s, ephemeral);
      MovesQuietly(c, s, s);
    case Turn =>
      DrainKeepsTransport(s.bus);
      MovesQuietly(c, s, s');
    case _ => MovesQuietly(c, s, s');
  }

  /** As long as the pin identifier stays, so does the pin. */
  lemma PinnedKept(c: Config, s: Client, s': Client)
    requires PinsKept(s.pins, s'.pins) && PinId(c, s') == PinId(c, s)
    ensures Pinned(c, s).Some? ==> Pinned(c, s') == Pinned(c, s)
  {
    hide PinId;
  }

  lemma StepKeepsSessionPinned(c: Config, s: Client, e: Event)
    requires PinId(c, Step(c, s, e)) == PinId(c, s) && SessionPinned(c, s)
    ensures SessionPinned(c, Step(c, s, e))
  {
    hide Keyed, Step, Pinned, PinId, PinsKept;
    StepMoves(c, s, e);
    StepKeepsPins(c, s, e);
    PinnedKept(c, s, Step(c, s, e));
  }

  /**
   Over every run and every reconnect the key of a transport in use is the key pinned for the server: a pin
   exists, it is the transport's remote key, and it is the one pinned first.
   */
  lemma {:induction false} TransportHasPinnedKey(c: Config, s: Client, es: seq<Event>)
    requires Identified(c, s) && SessionPinned(c, s)
    ensures var s' := After(c, s, es);
            && PinId(c, s') == PinId(c, s)
            && (Pinned(c, s).Some? ==> Pinned(c, s') == Pinned(c, s))
            && (s'.bus.transport.Some? ==> Pinned(c, s').Some? && s'.bus.transport.value.remoteKey == Pinned(c, s'))
    decreases es
  {
    if es == [] {
    } else {
      hide Step, PinId, Identified;
      PinIdKept(c, s, es[0]);
      StepKeepsSessionPinned(c, s, es[0]);
      StepKeepsPins(c, s, es[0]);
      TransportHasPinnedKey(c, Step(c, s, es[0]), es[1..]);
    }
  }

  // ---------------------------------------------------------------- a pin identifier that changes

  /** The first HELLO that names its sender, heard by a client without an endpoint. */
  predicate Renames(c: Config, s: Client, e: Event) {
    c.endpoint.None? && e.Hello? && !Truthy(s.nodeId) && Truthy(Get(e.fields, "node_id"))
  }

  /** The pin identifier changes then, unless the name is the placeholder, and at no other time. */
  lemma PinIdChangesWhen(c: Config, s: Client, e: Event)
    ensures PinId(c, Step(c, s, e)) != PinId(c, s) <==> Renames(c, s, e) && Get(e.fields, "node_id") != Str("unknown")
  {
    hide Step, Truthy, Get;
    if e.Hello? && !Truthy(s.nodeId) {
      HelloRecorded(c, s, e.fields);
    } else {
      ServerKept(c, s, e);
    }
  }

  /** The transport's key is pinned under the placeholder. */
  predicate PinnedUnknown(s: Client) {
    && s.bus.transport.Some? && s.bus.transport.value.remoteKey.Some? && s.bus.transport.value.remoteKey.value != ""
    && Str("unknown") in s.pins && s.pins[Str("unknown")] == s.bus.transport.value.remoteKey.value
  }

  /** Whether a transport is in use that was installed before the client was named. */
  predicate Lapsed(c: Config, s: Client, e: Event, lapsed: bool) {
    && Step(c, s, e).bus.transport.Some?
    && !Installed(s, Step(c, s, e))
    && (lapsed || (Renames(c, s, e) && s.bus.transport.Some?))
  }

  function LapsedAfter(c: Config, s: Client, es: seq<Event>, lapsed: bool): bool
    decreases es
  {
    if es == [] then lapsed else LapsedAfter(c, Step(c, s, es[0]), es[1..], Lapsed(c, s, es[0], lapsed))
  }

  /** What is known of a transport's key: pinned, or, once lapsed, pinned under the placeholder. */
  predicate PinKnown(c: Config, s: Client, lapsed: bool) {
    && HandshakeKeyed(s)
    && (if lapsed then Identified(c, s) && PinnedUnknown(s) else PinHolds(c, s))
  }
  lemma PinKnownKept(c: Config, s: Client, e: Event, lapsed: bool)
    requires PinKnown(c, s, lapsed)
    ensures PinKnown(c, Step(c, s, e), Lapsed(c, s, e, lapsed))
  {
    hide Keyed, Step, Pinned, PinId, PinsKept, Truthy, Get;
    var s' := Step(c, s, e);
    StepMoves(c, s, e);
    StepKeepsPins(c, s, e);
    if lapsed {
      PinIdKept(c, s, e);
      if !Installed(s, s') { PlaceholderKept(s, s'); }
    } else if Renames(c, s, e) {
      HelloRecorded(c, s, e.fields);
      HelloKeepsSession(c, s, e);
      PinnedAsUnknown(c, s);
    } else {
      PinIdChangesWhen(c, s, e);
      StepKeepsSessionPinned(c, s, e);
    }
  }

  lemma PlaceholderKept(s: Client, s': Client)
    requires PinnedUnknown(s) && PinsKept(s.pins, s'.pins) && SameTransport(s.bus, s'.bus)
    ensures s'.bus.transport.Some? ==> PinnedUnknown(s')
  {
  }

  lemma HelloKeepsSession(c: Config, s: Client, e: Event)
    requires e.Hello?
    ensures Step(c, s, e).bus == s.bus && Step(c, s, e).pins == s.pins && Step(c, s, e).handshake == s.handshake
  {
    hide Truthy, Get, HasKey;
  }

  lemma PinnedAsUnknown(c: Config, s: Client)
    requires PinHolds(c, s) && c.endpoint.None? && !Truthy(s.nodeId)
    ensures s.bus.transport.Some? ==> PinnedUnknown(s)
  {
    hide Truthy;
  }

  /**
   For every client: the transport in use has the key pinned for the server unless the client was named after
   the transport was installed; then the key is pinned under the placeholder, and whether it is the pinned one
   depends on what the store holds for the name.
   */
  lemma {:induction false} TransportPinnedUnlessLapsed(c: Config, s: Client, es: seq<Event>, lapsed: bool)
    requires PinKnown(c, s, lapsed)
    ensures var s' := After(c, s, es);
            && (!LapsedAfter(c, s, es, lapsed) ==> PinHolds(c, s'))
            && (LapsedAfter(c, s, es, lapsed) ==>
                  && PinnedUnknown(s') && Identified(c, s')
                  && (PinHolds(c, s') <==> Pinned(c, s') == Some(s'.pins[Str("unknown")])))
    decreases es
  {
    if es != [] {
      hide Step, PinKnown, Lapsed;
      PinKnownKept(c, s, es[0], lapsed);
      TransportPinnedUnlessLapsed(c, Step(c, s, es[0]), es[1..], Lapsed(c, s, es[0], lapsed));
    } else {
      hide Pinned, Truthy, Keyed;
    }
  }

  /**
   A client without an endpoint finishes a handshake before any HELLO has named the server, and is then sent a
   HELLO with a name nothing is pinned under: the transport stays in use and no key is pinned for the server.
   */
  lemma UnknownPinLapses(c: Config, s: Client, p: Packet, fields: seq<Field>, ephemeral: nat, hello: seq<Field>,
                         name: string)
    requires c.endpoint.None? && s.nodeId == Str("") && s.pins == map[] && s.handshake.Some?
    requires HasKey(fields, "noise") && PacketOf(c, fields) == Some(p) && Read(s.handshake.value, p).Some?
             && p.payload == []
    requires Keyed(s.handshake.value) && s.handshake.value.pattern == NOISE_PATTERN_XX && |s.handshake.value.seen| == 1
    requires Get(hello, "node_id") == Str(name) && name != "" && name != "unknown"
    ensures var s1 := After(c, s, [Shake(fields, ephemeral)]);
            s1.bus.transport.Some? && PinHolds(c, s1)
    ensures var s2 := After(c, s, [Shake(fields, ephemeral), Hello(hello)]);
            s2.bus.transport.Some? && Pinned(c, s2).None? && !PinHolds(c, s2)
  {
    hide Step, Get, HasKey, PacketOf, Read, Keyed, Pinned, PinHolds;
    var s1 := Step(c, s, Shake(fields, ephemeral));
    assert [Shake(fields, ephemeral), Hello(hello)][1..] == [Hello(hello)];
    AfterOne(c, s, Shake(fields, ephemeral));
    AfterOne(c, s1, Hello(hello));
    FinishesUnknown(c, s, p, fields, ephemeral);
    HelloRecorded(c, s1, hello);
    HelloKeepsSession(c, s1, Hello(hello));
    NotPinned(c, Step(c, s1, Hello(hello)), name);
  }

  lemma NotPinned(c: Config, s: Client, name: string)
    requires c.endpoint.None? && s.nodeId == Str(name) && name != "" && name != "unknown"
    requires s.pins.Keys == {Str("unknown")} && s.bus.transport.Some?
    ensures Pinned(c, s).None? && !PinHolds(c, s)
  {
  }

  lemma AfterOne(c: Config, s: Client, e: Event)
    ensures After(c, s, [e]) == Step(c, s, e)
  {
    hide Step;
    assert [e][1..] == [];
  }

  lemma FinishesUnknown(c: Config, s: Client, p: Packet, fields: seq<Field>, ephemeral: nat)
    requires c.endpoint.None? && s.nodeId == Str("") && s.pins == map[] && s.handshake.Some?
    requires HasKey(fields, "noise") && PacketOf(c, fields) == Some(p) && Read(s.handshake.value, p).Some?
             && p.payload == []
    requires Keyed(s.handshake.value) && s.handshake.value.pattern == NOISE_PATTERN_XX && |s.handshake.value.seen| == 1
    ensures var s1 := Step(c, s, Shake(fields, ephemeral));
            && s1.bus.transport.Some? && PinHolds(c, s1) && s1.nodeId == Str("") && s1.pins.Keys == {Str("unknown")}
  {
    assert Readable([]);
    hide HasKey, PacketOf, Readable, SendSync;
    assert NOISE_PATTERN_XX[0] != NOISE_PATTERN_KK[0];
  }

  // ---------------------------------------------------------------- the session is really there

  /** Once the handshake counts as done there is a key or a transport. */
  predicate Backed(b: Bus) { b.established ==> b.cryptoKey.Some? || b.transport.Some? }

  /** An assignment to a field of the client, or a send. */
  datatype Write =
    | SetConnected(on: bool)
    | SetEstablished(on: bool)
    | SetKey(key: Option<nat>)
    | SetTransport(transport: Option<BusClients.Session>)
    | SendsHello

  function Assign(mode: Mode, b: Bus, w: Write): Bus {
    match w
    case SetConnected(on) => b.(connected := on)
    case SetEstablished(on) => b.(established := on)
    case SetKey(key) => b.(cryptoKey := key)
    case SetTransport(transport) => b.(transport := transport)
    case SendsHello => Emit(mode, b, SessionHello)
  }

  function Apply(mode: Mode, b: Bus, ws: seq<Write>): Bus
    decreases ws
  {
    if ws == [] then b else Apply(mode, Assign(mode, b, ws[0]), ws[1..])
  }

  /** The handlers that change what a session rests on. */
  datatype Program = Loses | Closes | FinishesNoise(t: BusClients.Session) | FinishesLegacy(key: nat)

  /** Their assignments, in the order of the source. */
  function Statements(p: Program): seq<Write> {
    match p
    case Loses => [SetConnected(false), SetEstablished(false), SetKey(None), SetTransport(None)]
    case Closes => [SetEstablished(false), SetKey(None), SetTransport(None), SetConnected(false)]
    case FinishesNoise(t) => [SetTransport(Some(t)), SendsHello, SetEstablished(true)]
    case FinishesLegacy(key) => [SetKey(Some(key)), SendsHello, SetEstablished(true)]
  }

  lemma StatementsMakeHandlers(c: Config, s: Client, p: Program)
    ensures Apply(c.mode, s.bus, Statements(p)) ==
            match p
            case Loses => OnClose(s.bus).(closing := s.bus.closing)
            case Closes => AsyncClose(s.bus)
            case FinishesNoise(t) => Install(c, s, t).bus
            case FinishesLegacy(key) => Established(Say(c, s.(bus := s.bus.(cryptoKey := Some(key))), SessionHello)).bus
  {
    hide SendSync, Apply;
    ApplyNone(c.mode,
              Assign(c.mode, Assign(c.mode, Assign(c.mode, s.bus, Statements(p)[0]), Statements(p)[1]),
                     Statements(p)[2]));
    match p
    case Loses =>
      assert Statements(p) == [SetConnected(false), SetEstablished(false), SetKey(None)] + [SetTransport(None)];
      ApplyThree(c.mode, s.bus, SetConnected(false), SetEstablished(false), SetKey(None), [SetTransport(None)]);
      ApplyOne(c.mode, s.bus.(connected := false, established := false, cryptoKey := None), SetTransport(None));
    case Closes =>
      assert Statements(p) == [SetEstablished(false), SetKey(None), SetTransport(None)] + [SetConnected(false)];
      ApplyThree(c.mode, s.bus, SetEstablished(false), SetKey(None), SetTransport(None), [SetConnected(false)]);
      ApplyOne(c.mode, s.bus.(established := false, cryptoKey := None, transport := None), SetConnected(false));
    case FinishesNoise(t) =>
      assert Statements(p) == [SetTransport(Some(t)), SendsHello, SetEstablished(true)] + [];
      ApplyThree(c.mode, s.bus, SetTransport(Some(t)), SendsHello, SetEstablished(true), []);
    case FinishesLegacy(key) =>
      assert Statements(p) == [SetKey(Some(key)), SendsHello, SetEstablished(true)] + [];
      ApplyThree(c.mode, s.bus, SetKey(Some(key)), SendsHello, SetEstablished(true), []);
  }

  lemma ApplyNone(mode: Mode, b: Bus)
    ensures Apply(mode, b, []) == b
  {
  }

  lemma ApplyOne(mode: Mode, b: Bus, w: Write)
    ensures Apply(mode, b, [w]) == Assign(mode, b, w)
  {
    assert [w][1..] == [];
  }

  lemma ApplyThree(mode: Mode, b: Bus, u: Write, v: Write, w: Write, rest: seq<Write>)
    ensures Apply(mode, b, [u, v, w] + rest) == Apply(mode, Assign(mode, Assign(mode, Assign(mode, b, u), v), w), rest)
  {
    hide Assign;
    ApplyCons(mode, b, u, [v, w] + rest);
    ApplyCons(mode, Assign(mode, b, u), v, [w] + rest);
    ApplyCons(mode, Assign(mode, Assign(mode, b, u), v), w, rest);
    assert [u, v, w] + rest == [u] + ([v, w] + rest) && [v, w] + rest == [v] + ([w] + rest);
  }

  lemma ApplyCons(mode: Mode, b: Bus, w: Write, rest: seq<Write>)
    ensures Apply(mode, b, [w] + rest) == Apply(mode, Assign(mode, b, w), rest)
  {
    assert ([w] + rest)[1..] == rest;
  }

  lemma EmitKeepsBasis(mode: Mode, b: Bus, m: Msg)
    ensures var b' := Emit(mode, b, m);
            && b'.established == b.established && b'.connected == b.connected && b'.cryptoKey == b.cryptoKey
            && (b'.transport.Some? <==> b.transport.Some?)
  {
  }

  /** One more statement of a program, from a state in which the statements before it have run. */
  lemma {:induction false} ApplySnoc(mode: Mode, b: Bus, ws: seq<Write>, i: nat)
    requires i < |ws|
    ensures Apply(mode, b, ws[..i + 1]) == Apply(mode, Apply(mode, b, ws[..i]), [ws[i]])
    decreases i
  {
    hide Assign;
    if i > 0 {
      assert ws[..i + 1][1..] == ws[1..][..i] && ws[..i][1..] == ws[1..][..i - 1];
      ApplySnoc(mode, Assign(mode, b, ws[0]), ws[1..], i - 1);
    } else {
      assert ws[..1] == [ws[0]];
    }
  }

  /** Neither the statements of a close nor those of a completed handshake leave a session unbacked in between. */
  lemma {:induction false} BackedAtEveryStatement(mode: Mode, b: Bus, p: Program, i: nat)
    requires Backed(b) && i <= |Statements(p)|
    ensures Backed(Apply(mode, b, Statements(p)[..i]))
    ensures i > 0 && (p.Loses? || p.Closes?) && !(p.Loses? && i == 1) ==>
              !Apply(mode, b, Statements(p)[..i]).established
    ensures i > 0 && p.FinishesNoise? ==> Apply(mode, b, Statements(p)[..i]).transport.Some?
    ensures i > 0 && p.FinishesLegacy? ==> Apply(mode, b, Statements(p)[..i]).cryptoKey.Some?
    decreases i
  {
    hide Emit;
    var ws := Statements(p);
    if i > 0 {
      BackedAtEveryStatement(mode, b, p, i - 1);
      ApplySnoc(mode, b, ws, i - 1);
      EmitKeepsBasis(mode, Apply(mode, b, ws[..i - 1]), SessionHello);
      assert [ws[i - 1]][1..] == [];
    }
  }

  /** Between an abort and its close the session is backed only if there is a legacy key or none was set up. */
  lemma BackedAfterAbort(c: Config, s: Client)
    ensures Backed(Abort(c, s).bus) <==> !s.bus.established || s.bus.cryptoKey.Some?
  {
  }

  predicate CloseRequested(mode: Mode, b: Bus) { if mode.Sync? then b.closing else CloseTask in b.tasks }

  lemma {:induction false} DrainBacked(b: Bus)
    ensures Backed(b) || CloseTask in b.tasks ==> Backed(Drain(b))
    ensures CloseTask in b.tasks || !b.established ==> !Drain(b).established
    decreases |b.tasks|
  {
    hide SendAsync;
    if b.tasks != [] {
      var b' := b.(tasks := b.tasks[1..]);
      assert b.tasks == [b.tasks[0]] + b.tasks[1..];
      if b.tasks[0].EmitTask? { SendAsyncKeepsBasis(b', b.tasks[0].msg); }
      DrainBacked(RunTask(b', b.tasks[0]));
    }
  }

  lemma SendAsyncKeepsBasis(b: Bus, m: Msg)
    ensures var b' := SendAsync(b, m);
            && b'.established == b.established && b'.cryptoKey == b.cryptoKey && b'.tasks == b.tasks
            && (b'.transport.Some? <==> b.transport.Some?)
  {
  }

  predicate Sound(mode: Mode, b: Bus) { Backed(b) || CloseRequested(mode, b) }

  lemma TurnSettles(mode: Mode, b: Bus)
    requires Sound(mode, b)
    ensures Backed(TakeTurn(mode, b))
  {
    if mode.Async? { DrainBacked(b); }
  }

  lemma AbortSound(c: Config, s: Client)
    ensures Sound(c.mode, Abort(c, s).bus)
  {
  }

  lemma SaySound(c: Config, s: Client, m: Msg)
    ensures Backed(s.bus) ==> Backed(Say(c, s, m).bus)
  {
  }

  lemma StartSound(c: Config, s: Client, payload: seq<Field>, ephemeral: nat)
    requires Backed(s.bus)
    ensures Sound(c.mode, StartNoise(c, s, payload, ephemeral).bus)
  {
    hide Selection, OfferOf, Begin, Written, Saw, NoisePayload, Pinned, Get;
  }

  lemma CompleteSound(c: Config, s: Client, payload: seq<byte>)
    requires Backed(s.bus) && s.handshake.Some?
    ensures Sound(c.mode, Complete(c, s, payload).bus)
  {
    hide Finished, Readable, Pinned, PinId, RemoteOf;
  }

  lemma ReceiveSound(c: Config, s: Client, payload: seq<Field>, ephemeral: nat)
    requires Backed(s.bus) && s.handshake.Some?
    ensures Sound(c.mode, ReceiveNoise(c, s, payload, ephemeral).bus)
  {
    hide PacketOf, Read, Written, Complete, Abort, Sound, Backed, Emit, Finished;
    AbortSound(c, s);
    var p := PacketOf(c, payload);
    if p.Some? {
      var r := Read(s.handshake.value, p.value);
      if r.Some? {
        var msg3 := Written(r.value, [], ephemeral);
        SaySound(c, s.(handshake := Some(Saw(r.value, msg3))), NoiseReply(msg3));
        CompleteSound(c, Reply(c, s, r.value, ephemeral), p.value.payload);
      }
    }
  }

  lemma StepSound(c: Config, s: Client, e: Event)
    requires Backed(s.bus)
    ensures Sound(c.mode, Step(c, s, e).bus)
  {
    hide ReceiveNoise, StartNoise, ShouldUseNoise, Get, HasKey, Truthy, Drain, SendSync;
    match e
    case Shake(fields, ephemeral) =>
      if s.handshake.Some? { ReceiveSound(c, s, fields, ephemeral); }
      ParamsSound(c, s, fields, ephemeral);
    case Retry(ephemeral) =>
      if s.params.Some? && s.params.value.Obj? { StartSound(c, s, s.params.value.fields, ephemeral); }
      SaySound(c, s, LegacyOffer(s.binarize, c.password != ""));
    case Turn => if c.mode.Async? { DrainBacked(s.bus); }
    case Send(msg) => SaySound(c, s, msg);
    case _ =>
  }

  lemma ParamsSound(c: Config, s: Client, payload: seq<Field>, ephemeral: nat)
    requires Backed(s.bus)
    ensures Sound(c.mode, ReceiveParams(c, s, payload, ephemeral).bus)
    ensures Backed(ReceiveLegacy(c, s, Get(payload, "envelope")).bus)
  {
    hide StartNoise, ShouldUseNoise, Truthy, Get, HasKey;
    var s1 := s.(binarize := if HasKey(payload, "binarize") then Get(payload, "binarize") else Bool(false),
                 params := Some(Obj(payload)));
    StartSound(c, s1, payload, ephemeral);
    SaySound(c, s1, LegacyOffer(s1.binarize, c.password != ""));
  }

  /** A handler followed by what it asked for: its queued sends, and the close that an abort requests. */
  function Settled(c: Config, s: Client, e: Event): Client { Step(c, Step(c, s, e), Turn) }

  function AfterSettled(c: Config, s: Client, es: seq<Event>): Client
    decreases es
  {
    if es == [] then s else AfterSettled(c, Settled(c, s, es[0]), es[1..])
  }

  /** In every run, an established session has a key or a transport. */
  lemma {:induction false} EstablishedIsBacked(c: Config, s: Client, es: seq<Event>)
    requires Backed(s.bus)
    ensures Backed(AfterSettled(c, s, es).bus)
    decreases es
  {
    if es != [] {
      hide Sound, Backed, TakeTurn;
      StepSound(c, s, es[0]);
      TurnSettles(c.mode, Step(c, s, es[0]).bus);
      assert Settled(c, s, es[0]).bus == TakeTurn(c.mode, Step(c, s, es[0]).bus);
      EstablishedIsBacked(c, Settled(c, s, es[0]), es[1..]);
    }
  }

  /** Until the socket closes or the loop takes its turn, a requested close stays requested. */
  predicate KeepsRequest(mode: Mode, b: Bus, b': Bus) {
    if mode.Sync? then b'.closing == b.closing || b'.closing else b.tasks <= b'.tasks
  }

  lemma StartKeepsRequest(c: Config, s: Client, payload: seq<Field>, ephemeral: nat)
    ensures KeepsRequest(c.mode, s.bus, StartNoise(c, s, payload, ephemeral).bus)
  {
    hide Selection, OfferOf, Begin, Written, Saw, NoisePayload, Pinned, Get;
  }

  lemma CompleteKeepsRequest(c: Config, s: Client, payload: seq<byte>)
    requires s.handshake.Some?
    ensures KeepsRequest(c.mode, s.bus, Complete(c, s, payload).bus)
  {
    hide Finished, Readable, Pinned, PinId, RemoteOf;
  }

  lemma ReceiveKeepsRequest(c: Config, s: Client, payload: seq<Field>, ephemeral: nat)
    requires s.handshake.Some?
    ensures KeepsRequest(c.mode, s.bus, ReceiveNoise(c, s, payload, ephemeral).bus)
  {
    hide PacketOf, Read, Written, Complete, Finished;
    var p := PacketOf(c, payload);
    if p.Some? && Read(s.handshake.value, p.value).Some? {
      CompleteKeepsRequest(c, Reply(c, s, Read(s.handshake.value, p.value).value, ephemeral), p.value.payload);
    }
  }

  lemma ParamsKeepRequest(c: Config, s: Client, payload: seq<Field>, ephemeral: nat)
    ensures KeepsRequest(c.mode, s.bus, ReceiveParams(c, s, payload, ephemeral).bus)
  {
    hide ShouldUseNoise, StartNoise, Get, HasKey, Truthy;
    StartKeepsRequest(c, s.(binarize := if HasKey(payload, "binarize") then Get(payload, "binarize") else Bool(false),
                            params := Some(Obj(payload))), payload, ephemeral);
  }

  lemma StepKeepsRequest(c: Config, s: Client, e: Event)
    requires !e.Turn? && !e.Ended?
    ensures KeepsRequest(c.mode, s.bus, Step(c, s, e).bus)
  {
    hide ReceiveNoise, ReceiveParams, StartNoise, ShouldUseNoise, Get, HasKey, Truthy, Drain;
    match e
    case Shake(fields, ephemeral) =>
      if s.handshake.Some? { ReceiveKeepsRequest(c, s, fields, ephemeral); }
      ParamsKeepRequest(c, s, fields, ephemeral);
    case Retry(ephemeral) =>
      if s.params.Some? && s.params.value.Obj? { StartKeepsRequest(c, s, s.params.value.fields, ephemeral); }
    case _ =>
  }

  lemma StepKeepsSound(c: Config, s: Client, e: Event)
    requires Sound(c.mode, s.bus)
    ensures Sound(c.mode, Step(c, s, e).bus)
  {
    hide HandleHello, HandleHandshake, StartHandshake, Drain, Say;
    if Backed(s.bus) {
      StepSound(c, s, e);
    } else if e.Turn? {
      TurnSettles(c.mode, s.bus);
    } else if !e.Ended? {
      StepKeepsRequest(c, s, e);
    }
  }

  /** After every step of every run, with turns at any time: a basis for the session, or its close is under way. */
  lemma {:induction false} BackedOrClosing(c: Config, s: Client, es: seq<Event>)
    requires Sound(c.mode, s.bus)
    ensures Backed(After(c, s, es).bus) || CloseRequested(c.mode, After(c, s, es).bus)
    decreases es
  {
    if es != [] {
      hide Step, Sound;
      StepKeepsSound(c, s, es[0]);
      BackedOrClosing(c, Step(c, s, es[0]), es[1..]);
    } else {
      hide Backed, CloseRequested;
    }
  }

  /**
   A connection that ended leaves no session behind, except that an asyncio receive loop whose iteration runs
   out or is cancelled resets nothing itself.
   */
  lemma EndedLeavesNothing(mode: Mode, b: Bus, how: LoopEnd)
    ensures var b' := End(mode, b, how);
            !b'.established && b'.cryptoKey.None? && b'.transport.None?
            <==> mode.Sync? || how.Raised? || (!b.established && b.cryptoKey.None? && b.transport.None?)
  {
  }

  /**
   Closing does not clear a handshake in flight. After a reconnect the server's parameters are then taken for
   a reply to it: the new connection is refused, its parameters are not recorded, and only then is the client
   ready for another.
   */
  lemma ReconnectRefusedWhenInFlight(c: Config, s: Client, hello: seq<Field>, params: seq<Field>, ephemeral: nat)
    requires HasKey(params, "noise") && PacketOf(c, params).None? && !HasKey(params, "envelope")
    requires s.bus.tasks == []
    ensures var lost := Step(c, s, Ended(Raised));
            var greeted := Step(c, Step(c, lost, Open), Hello(hello));
            var shaken := Step(c, greeted, Shake(params, ephemeral));
            var settled := Settled(c, greeted, Shake(params, ephemeral));
            && (s.handshake.None? ==> shaken.params == Some(Obj(params)))
            && (s.handshake.Some? ==> && shaken.params == s.params && CloseRequested(c.mode, shaken.bus)
                                      && settled.bus.wire == s.bus.wire + [CloseFrame] && !settled.bus.connected
                                      && settled.handshake.None?)
  {
    hide HasKey, Get, PacketOf, ShouldUseNoise, StartNoise, Truthy, Drain;
    ParamsRecorded(c, Step(c, Step(c, Step(c, s, Ended(Raised)), Open), Hello(hello)), params, ephemeral);
    if c.mode.Async? && s.handshake.Some? {
      var b := AsyncClose(s.bus).(connected := true);
      assert b.tasks + [CloseTask] == [CloseTask];
      DrainClose(b.(tasks := [CloseTask]));
      assert RequestClose(Async, b.(transport := None)) == b.(tasks := [CloseTask]);
    }
  }

  /**
   A server whose parameters have no Noise options is not refused: its parameters are recorded, but the old
   handshake stays in flight, and as long as it does no retry starts another.
   */
  lemma ReconnectWaitsWithoutNoise(c: Config, s: Client, hello: seq<Field>, params: seq<Field>, ephemeral: nat,
                                   later: nat)
    requires s.handshake.Some? && !HasKey(params, "noise") && !HasKey(params, "envelope")
    ensures var lost := Step(c, s, Ended(Raised));
            var greeted := Step(c, Step(c, lost, Open), Hello(hello));
            var shaken := Step(c, greeted, Shake(params, ephemeral));
            && shaken.params == Some(Obj(params)) && shaken.handshake == s.handshake
            && Step(c, shaken, Retry(later)) == shaken
  {
    var greeted := Step(c, Step(c, Step(c, s, Ended(Raised)), Open), Hello(hello));
    assert greeted.handshake == s.handshake by { hide HasKey, Get, Truthy; }
    ParamsRecorded(c, greeted, params, ephemeral);
    ParamsKeepHandshake(c, greeted, params, ephemeral);
    hide HasKey, Get, Truthy, ReceiveParams, Drain;
  }

  lemma ParamsKeepHandshake(c: Config, s: Client, payload: seq<Field>, ephemeral: nat)
    requires !HasKey(payload, "noise")
    ensures ReceiveParams(c, s, payload, ephemeral).handshake == s.handshake
  {
    NoNoiseNoNoise(c, s.(binarize := if HasKey(payload, "binarize") then Get(payload, "binarize") else Bool(false),
                         params := Some(Obj(payload))), payload);
    hide ShouldUseNoise, StartNoise, Get, HasKey, Truthy;
  }

  /** Parameters without Noise options never start a handshake. */
  lemma NoNoiseNoNoise(c: Config, s: Client, payload: seq<Field>)
    requires !HasKey(payload, "noise")
    ensures ShouldUseNoise(c, s, payload) != Some(true)
  {
    GetHas(payload, "noise");
    hide Selection, Get, HasKey;
  }

  lemma DrainClose(b: Bus)
    requires b.tasks == [CloseTask]
    ensures Drain(b) == CloseSocket(b.(tasks := []))
  {
    assert b.tasks[1..] == [];
  }

  lemma ParamsRecorded(c: Config, s: Client, payload: seq<Field>, ephemeral: nat)
    ensures ReceiveParams(c, s, payload, ephemeral).params == Some(Obj(payload))
  {
    hide Selection, Begin, Written, NoisePayload, Pinned, Get, HasKey, Truthy, ShouldUseNoise;
  }
}
