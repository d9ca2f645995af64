/**
 The satellite's handshake: HELLO, parameter negotiation, the Noise exchange, the legacy exchange and the
 session they establish, for the threading client and for the asyncio client.
 */
module Protocol {
  import opened BusClients
  import opened Handshakes
  import opened Json
  import opened Noise
  import opened Utf8
  import opened Wrappers
  import JsonText

  const PROTOCOL_V3 := 3

  /**
   What does not change during a client's life, and the foreign calls: unhex gives the handshake message a hex
   string stands for, openEnvelope the secret of a legacy envelope; None is an exception.
   */
  datatype Config = Config(mode: Mode, noiseSupported: bool, password: string, maxVersion: int,
                           endpoint: Option<string>, ownKey: string, encodings: Json,
                           unhex: string -> Option<Packet>, openEnvelope: (Json, Json) -> Option<nat>)

  /** The state of a client and of its protocol object; pins belong to the identity. */
  datatype Client = Client(bus: Bus, nodeId: Json, mpubkey: Json, hello: Option<Json>, params: Option<Json>,
                           binarize: Json, handshake: Option<Handshake>, pattern: Option<string>,
                           pins: map<Json, string>)

  function Say(c: Config, s: Client, m: Msg): Client { s.(bus := Emit(c.mode, s.bus, m)) }

  function Abort(c: Config, s: Client): Client {
    s.(handshake := None, bus := RequestClose(c.mode, s.bus.(transport := None)))
  }

  // ---------------------------------------------------------------- negotiation

  /** Identifies the server in the pin store: the endpoint, or the node id when the client has no config. */
  function PinId(c: Config, s: Client): Json {
    if c.endpoint.Some? then Str(c.endpoint.value) else if Truthy(s.nodeId) then s.nodeId else Str("unknown")
  }

  /** The pinned key, if there is one that counts. */
  function Pinned(c: Config, s: Client): Option<string> {
    var id := PinId(c, s);
    if id in s.pins && s.pins[id] != "" then Some(s.pins[id]) else None
  }

  /** The strings of a list. */
  function Offered(v: Json): seq<string> { if v.Arr? then Strings(v.items) else [] }

  function Strings(items: seq<Json>): seq<string> {
    if items == [] then []
    else (if items[0].Str? then [items[0].s] else []) + Strings(items[1..])
  }

  function Selection(c: Config, s: Client, payload: seq<Field>): Option<(string, string)> {
    var noise := Get(payload, "noise");
    var fields := if noise.Obj? then noise.fields else [];
    SelectNoiseOptions(Offered(Get(fields, "patterns")), Offered(Get(fields, "suites")), Pinned(c, s))
  }

  /** None is the TypeError of comparing something that is no number. */
  function ShouldUseNoise(c: Config, s: Client, payload: seq<Field>): Option<bool> {
    if !c.noiseSupported || c.password == "" || c.maxVersion < PROTOCOL_V3 then Some(false)
    else
      var version := if HasKey(payload, "max_protocol_version") then Get(payload, "max_protocol_version") else Int(1);
      match version
      case Int(n) => Some(n >= PROTOCOL_V3 && Get(payload, "noise").Obj? && Selection(c, s, payload).Some?)
      case Bool(_) => Some(false)
      case _ => None
  }

  function NoisePayload(c: Config, s: Client): seq<byte> {
    CanonicalJson(Obj([Field("binarize", s.binarize), Field("encodings", c.encodings)]))
  }

  /** What this client takes the negotiation to be. */
  function OfferOf(s: Client, payload: seq<Field>, selection: (string, string)): Offer {
    Offer(s.hello.UnwrapOr(Obj([])), Obj(payload), selection.0, selection.1)
  }

  function LegacyStart(c: Config, s: Client): Client { Say(c, s, LegacyOffer(s.binarize, c.password != "")) }

  /** A node id that is no string cannot salt the pre-shared key: the handshake fails to initialize. */
  function StartNoise(c: Config, s: Client, payload: seq<Field>, ephemeral: nat): Client {
    match Selection(c, s, payload)
    case None => LegacyStart(c, s)
    case Some(selection) =>
      if !s.nodeId.Str? then Abort(c, s)
      else
        var h := Begin(true, OfferOf(s, payload, selection), Psk(c.password, s.nodeId.s), c.ownKey, Pinned(c, s));
        var msg1 := Written(h, NoisePayload(c, s), ephemeral);
        Say(c, s.(handshake := Some(Saw(h, msg1)), pattern := Some(selection.0)),
             NoiseOffer(selection.0, selection.1, msg1))
  }

  /** payload["noise"]["msg"] from hex; None is malformed. */
  function PacketOf(c: Config, payload: seq<Field>): Option<Packet> {
    var noise := Get(payload, "noise");
    if !noise.Obj? then None
    else
      var text := Get(noise.fields, "msg");
      if text.Str? then c.unhex(text.s) else None
  }

  /** Whether the server's selection can be read: anything but a JSON value that is no dictionary. */
  predicate Readable(payload: seq<byte>) {
    var text := Decode(payload);
    text.Some? ==> var v := JsonText.Loads(text.value); v.Some? ==> v.value.Obj?
  }

  /** The handshake after message 2, and message 3 if the pattern has one. */
  function Reply(c: Config, s: Client, h: Handshake, ephemeral: nat): Client {
    if Finished(h) then s.(handshake := Some(h))
    else
      var msg3 := Written(h, [], ephemeral);
      Say(c, s.(handshake := Some(Saw(h, msg3))), NoiseReply(msg3))
  }

  /** The key the transport reports; a handshake without one reports none. */
  function RemoteOf(h: Handshake): Option<string> { if h.remoteKey == Some("") then None else h.remoteKey }

  /** Pin on first use, and never again. */
  function Pin(c: Config, s: Client, remote: Option<string>): Client {
    if Pinned(c, s).None? && remote.Some? then s.(pins := s.pins[PinId(c, s) := remote.value]) else s
  }

  function Established(s: Client): Client { s.(bus := s.bus.(established := true)) }

  function Install(c: Config, s: Client, t: Session): Client {
    Established(Say(c, s.(bus := s.bus.(transport := Some(t)), handshake := None), SessionHello))
  }

  /** After message 2 was authenticated: the transport, the pin, the server's selection. */
  function Complete(c: Config, s: Client, payload: seq<byte>): Client
    requires s.handshake.Some?
  {
    var h := s.handshake.value;
    if !Finished(h) || (Pinned(c, s).Some? && Pinned(c, s) != RemoteOf(h)) then Abort(c, s)
    else
      var s' := Pin(c, s, RemoteOf(h));
      if Readable(payload) then Install(c, s', Session(h.seen, RemoteOf(h), 0)) else s'
  }

  function ReceiveNoise(c: Config, s: Client, payload: seq<Field>, ephemeral: nat): Client
    requires s.handshake.Some?
  {
    match PacketOf(c, payload)
    case None => Abort(c, s)
    case Some(p) =>
      match Read(s.handshake.value, p)
      case None => Abort(c, s)
      case Some(h) => Complete(c, Reply(c, s, h, ephemeral), p.payload)
  }

  function ReceiveLegacy(c: Config, s: Client, envelope: Json): Client {
    match c.openEnvelope(envelope, s.mpubkey)
    case None => s
    case Some(key) => Established(Say(c, s.(bus := s.bus.(cryptoKey := Some(key))), SessionHello))
  }

  // ---------------------------------------------------------------- handlers

  function HandleHello(s: Client, payload: seq<Field>): Client {
    if Truthy(s.nodeId) then s
    else s.(mpubkey := Get(payload, "pubkey"),
            nodeId := if HasKey(payload, "node_id") then Get(payload, "node_id") else Str(""),
            hello := Some(Obj(payload)))
  }

  /** The server's parameters: negotiate version 3, or answer a request for the password exchange. */
  function ReceiveParams(c: Config, s: Client, payload: seq<Field>, ephemeral: nat): Client {
    var s' := s.(binarize := if HasKey(payload, "binarize") then Get(payload, "binarize") else Bool(false),
                 params := Some(Obj(payload)));
    match ShouldUseNoise(c, s', payload)
    case None => s'
    case Some(true) => StartNoise(c, s', payload, ephemeral)
    case Some(false) => if Truthy(Get(payload, "password")) && c.password != "" then LegacyStart(c, s') else s'
  }

  function HandleHandshake(c: Config, s: Client, payload: seq<Field>, ephemeral: nat): Client {
    if HasKey(payload, "noise") && s.handshake.Some? then ReceiveNoise(c, s, payload, ephemeral)
    else if HasKey(payload, "envelope") then ReceiveLegacy(c, s, Get(payload, "envelope"))
    else ReceiveParams(c, s, payload, ephemeral)
  }

  /** What wait_for_handshake calls on every retry while connected. */
  function StartHandshake(c: Config, s: Client, ephemeral: nat): Client {
    if s.handshake.Some? then s
    else if s.params.Some? && s.params.value.Obj? && s.params.value.fields != [] then
      match ShouldUseNoise(c, s, s.params.value.fields)
      case None => s
      case Some(true) => StartNoise(c, s, s.params.value.fields, ephemeral)
      case Some(false) => LegacyStart(c, s)
    else LegacyStart(c, s)
  }

  // ---------------------------------------------------------------- the protocol object

  /** NodeIdentity, as far as the handshake uses it. */
  class Identity {
    var pinnedNoiseKeys: map<Json, string>

    constructor (pins: map<Json, string>)
      ensures pinnedNoiseKeys == pins
    {
      pinnedNoiseKeys := pins;
    }
  }

  /** HiveMindSlaveProtocol. */
  class SlaveProtocol {
    const c: Config
    const hm: BusClient
    const identity: Identity
    var nodeId: Json
    var mpubkey: Json
    var serverHello: Option<Json>
    var serverParams: Option<Json>
    var binarize: Json
    var noiseHandshake: Option<Handshake>
    var noisePattern: Option<string>

    function State(): Client
      reads this, hm, identity
    {
      Client(hm.State(), nodeId, mpubkey, serverHello, serverParams, binarize, noiseHandshake, noisePattern,
             identity.pinnedNoiseKeys)
    }

    predicate Bound() { hm.mode == c.mode }

    constructor (c: Config, hm: BusClient, identity: Identity, binarize: bool)
      requires hm.mode == c.mode
      ensures this.c == c && this.hm == hm && this.identity == identity && Bound()
      ensures State() == Client(hm.State(), Str(""), Str(""), None, None, Bool(binarize), None, None,
                                identity.pinnedNoiseKeys)
    {
      this.c, this.hm, this.identity := c, hm, identity;
      nodeId, mpubkey, serverHello, serverParams := Str(""), Str(""), None, None;
      this.binarize, noiseHandshake, noisePattern := Bool(binarize), None, None;
    }

    method OnHello(payload: seq<Field>)
      modifies this
      ensures State() == HandleHello(old(State()), payload)
    {
      if !Truthy(nodeId) {
        mpubkey := Get(payload, "pubkey");
        nodeId := if HasKey(payload, "node_id") then Get(payload, "node_id") else Str("");
        serverHello := Some(Obj(payload));
      }
    }

    method AbortNoise()
      requires Bound()
      modifies this, hm
      ensures State() == Abort(c, old(State()))
    {
      noiseHandshake := None;
      hm.transport := None;
      hm.Close();
    }

    method LegacyStartHandshake()
      requires Bound()
      modifies hm
      ensures State() == LegacyStart(c, old(State()))
    {
      hm.EmitMessage(LegacyOffer(binarize, c.password != ""));
    }

    method StartNoiseHandshake(payload: seq<Field>, ephemeral: nat)
      requires Bound()
      modifies this, hm
      ensures State() == StartNoise(c, old(State()), payload, ephemeral)
    {
      hide Begin, Written, Get, HasKey, BuildPrologue, CanonicalJson;
      var selection := Selection(c, State(), payload);
      if selection.None? {
        LegacyStartHandshake();
        return;
      }
      if !nodeId.Str? {
        AbortNoise();
        return;
      }
      var o := OfferOf(State(), payload, selection.value);
      var h := Begin(true, o, Psk(c.password, nodeId.s), c.ownKey, Pinned(c, State()));
      noisePattern := Some(o.pattern);
      var msg1 := Written(h, NoisePayload(c, State()), ephemeral);
      noiseHandshake := Some(Saw(h, msg1));
      hm.EmitMessage(NoiseOffer(o.pattern, o.suite, msg1));
    }

    method ReceiveNoiseHandshake(payload: seq<Field>, ephemeral: nat)
      requires Bound() && noiseHandshake.Some?
      modifies this, hm, identity
      ensures State() == ReceiveNoise(c, old(State()), payload, ephemeral)
    {
      var msg := PacketOf(c, payload);
      if msg.None? {
        AbortNoise();
        return;
      }
      var read := Read(noiseHandshake.value, msg.value);
      if read.None? {
        AbortNoise();
        return;
      }
      noiseHandshake := read;
      if !Finished(read.value) {
        var msg3 := Written(read.value, [], ephemeral);
        noiseHandshake := Some(Saw(read.value, msg3));
        hm.EmitMessage(NoiseReply(msg3));
      }
      FinishNoiseHandshake(msg.value.payload);
    }

    method FinishNoiseHandshake(noisePayload: seq<byte>)
      requires Bound() && noiseHandshake.Some?
      modifies this, hm, identity
      ensures State() == Complete(c, old(State()), noisePayload)
    {
      hide Finished, Readable, Truthy, RemoteOf;
      var h := noiseHandshake.value;
      var pinned := Pinned(c, State());
      var remote := RemoteOf(h);
      if !Finished(h) || (pinned.Some? && remote != pinned) {
        AbortNoise();
        return;
      }
      if pinned.None? && remote.Some? {
        identity.pinnedNoiseKeys := identity.pinnedNoiseKeys[PinId(c, State()) := remote.value];
      }
      if !Readable(noisePayload) { return; }
      hm.transport := Some(Session(h.seen, remote, 0));
      noiseHandshake := None;
      hm.EmitMessage(SessionHello);
      hm.established := true;
    }

    method ReceiveHandshake(envelope: Json)
      requires Bound()
      modifies hm
      ensures State() == ReceiveLegacy(c, old(State()), envelope)
    {
      var secret := c.openEnvelope(envelope, mpubkey);
      if secret.None? { return; }
      hm.cryptoKey := secret;
      hm.EmitMessage(SessionHello);
      hm.established := true;
    }

    method OnHandshake(payload: seq<Field>, ephemeral: nat)
      requires Bound()
      modifies this, hm, identity
      ensures State() == HandleHandshake(c, old(State()), payload, ephemeral)
    {
      hide ShouldUseNoise, Get, HasKey, Truthy, ReceiveNoise, ReceiveLegacy, LegacyStart, StartNoise;
      if HasKey(payload, "noise") && noiseHandshake.Some? {
        ReceiveNoiseHandshake(payload, ephemeral);
      } else if HasKey(payload, "envelope") {
        ReceiveHandshake(Get(payload, "envelope"));
      } else {
        binarize := if HasKey(payload, "binarize") then Get(payload, "binarize") else Bool(false);
        serverParams := Some(Obj(payload));
        var noise := ShouldUseNoise(c, State(), payload);
        if noise == Some(true) {
          StartNoiseHandshake(payload, ephemeral);
        } else if noise == Some(false) && Truthy(Get(payload, "password")) && c.password != "" {
          LegacyStartHandshake();
        }
      }
    }

    method Retry(ephemeral: nat)
      requires Bound()
      modifies this, hm
      ensures State() == StartHandshake(c, old(State()), ephemeral)
    {
      if noiseHandshake.Some? { return; }
      if serverParams.Some? && serverParams.value.Obj? && serverParams.value.fields != [] {
        var noise := ShouldUseNoise(c, State(), serverParams.value.fields);
        if noise == Some(true) {
          StartNoiseHandshake(serverParams.value.fields, ephemeral);
        } else if noise == Some(false) {
          LegacyStartHandshake();
        }
      } else {
        LegacyStartHandshake();
      }
    }
  }
}
