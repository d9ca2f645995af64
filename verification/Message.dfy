/** HiveMessage: construction, its dictionary form, and the payload it wraps. */
module Message {
  import opened Json
  import opened Wrappers
  import opened Utf8
  import JsonText

  datatype MsgType =
    | Handshake | Bus | SharedBus | Intercom | Broadcast | Propagate | Escalate | Hello | Query | Cascade
    | Ping | Rendezvous | ThirdParty | Binary

  function TypeName(t: MsgType): string {
    match t
    case Handshake => "shake"
    case Bus => "bus"
    case SharedBus => "shared_bus"
    case Intercom => "intercom"
    case Broadcast => "broadcast"
    case Propagate => "propagate"
    case Escalate => "escalate"
    case Hello => "hello"
    case Query => "query"
    case Cascade => "cascade"
    case Ping => "ping"
    case Rendezvous => "rendezvous"
    case ThirdParty => "3rdparty"
    case Binary => "bin"
  }

  const ALL_TYPES := [Handshake, Bus, SharedBus, Intercom, Broadcast, Propagate, Escalate, Hello, Query, Cascade,
                      Ping, Rendezvous, ThirdParty, Binary]

  /** The type a string names; None is ValueError. */
  function TypeOf(name: string): Option<MsgType> { FindType(name, ALL_TYPES) }

  function FindType(name: string, types: seq<MsgType>): Option<MsgType> {
    if types == [] then None else if TypeName(types[0]) == name then Some(types[0]) else FindType(name, types[1..])
  }

  predicate IsWrapper(t: MsgType) { t.Broadcast? || t.Propagate? || t.Cascade? || t.Escalate? || t.Query? }

  predicate IsBus(t: MsgType) { t.Bus? || t.SharedBus? }

  /** What is stored: a JSON value, or the raw content of a BINARY message. */
  datatype Stored = Value(json: Json) | Raw(bytes: seq<byte>)

  datatype HiveMsg = HiveMsg(msgType: MsgType, stored: Stored, metadata: Json, rawRoute: Json, node: Json,
                             sourcePeer: Json, siteId: Json, pubkey: Json, targets: Json, binType: nat)

  const NO_FIELDS := Obj([])

  /** x or {} */
  function OrEmpty(v: Json): Json { if Truthy(v) then v else NO_FIELDS }

  /** An OVOS bus message: its constructor replaces missing data and context by empty dictionaries. */
  datatype BusMsg = BusMsg(msgType: Json, data: Json, context: Json)

  function BusFields(b: BusMsg): Json {
    Obj([Field("type", b.msgType), Field("data", b.data), Field("context", b.context)])
  }

  /** What the constructor accepts as payload. */
  datatype Arg = FromBus(bus: BusMsg) | FromHive(inner: HiveMsg) | FromText(text: string) | FromJson(json: Json)
               | FromBytes(bytes: seq<byte>)

  function StoredOf(t: MsgType, arg: Arg): Option<Stored> {
    if t.Binary? then
      if !arg.FromBytes? then None
      else Some(if arg.bytes == [] then Value(NO_FIELDS) else Raw(arg.bytes))
    else
      match arg
      case FromBus(b) => Some(Value(BusFields(b)))
      case FromHive(inner) =>
        var d :- AsDict(inner);
        Some(Value(d))
      case FromText(text) =>
        var v :- JsonText.Loads(text);
        Some(Value(OrEmpty(v)))
      case FromJson(v) => Some(Value(OrEmpty(v)))
      case FromBytes(bytes) => Some(if bytes == [] then Value(NO_FIELDS) else Raw(bytes))
  }

  /** HiveMessage(msg_type, payload, ...); None where it raises. */
  function Make(name: string, arg: Arg, metadata: Json, route: Json, node: Json, sourcePeer: Json, siteId: Json,
                pubkey: Json, targets: Json, binType: nat): Option<HiveMsg>
  {
    var t :- TypeOf(name);
    if !t.Binary? && binType != 0 then None
    else
      var stored :- StoredOf(t, arg);
      Some(HiveMsg(t, stored, OrEmpty(metadata), if Truthy(route) then route else Arr([]), node, sourcePeer, siteId,
                   pubkey, if Truthy(targets) then targets else Arr([]), binType))
  }

  /** A record that names a source and targets. */
  predicate IsRecord(r: Json) { r.Obj? && Truthy(Get(r.fields, "targets")) && Truthy(Get(r.fields, "source")) }

  function Records(items: seq<Json>): seq<Json> {
    if items == [] then []
    else if IsRecord(items[0]) then [items[0]] + Records(items[1..])
    else Records(items[1..])
  }

  function Route(m: HiveMsg): seq<Json> { if m.rawRoute.Arr? then Records(m.rawRoute.items) else [] }

  /** as_dict; None for BINARY and for payloads that are no dictionary. */
  function AsDict(m: HiveMsg): (r: Option<Json>)
    ensures r.Some? ==> r.value.Obj?
  {
    if m.msgType.Binary? || m.stored.Raw? then None
    else
      var payload :- if m.stored.json.Str? then JsonText.Loads(m.stored.json.s) else Some(m.stored.json);
      if !payload.Obj? then None else Some(DictOf(m, payload))
  }

  function DictOf(m: HiveMsg, payload: Json): Json {
    Obj([Field("msg_type", Str(TypeName(m.msgType))),
         Field("payload", payload),
         Field("metadata", m.metadata),
         Field("route", Arr(Route(m))),
         Field("node", m.node),
         Field("target_site_id", m.siteId),
         Field("target_pubkey", m.pubkey),
         Field("source_peer", m.sourcePeer)])
  }

  const PARAMETERS := ["msg_type", "payload", "node", "source_peer", "route", "target_peers", "target_site_id",
                       "target_pubkey", "bin_type", "metadata"]

  predicate KnownKeys(fields: seq<Field>) { forall i | 0 <= i < |fields| :: fields[i].key in PARAMETERS }

  /** HiveMessage(**fields) */
  function FromDict(fields: seq<Field>): Option<HiveMsg> {
    var bin := Get(fields, "bin_type");
    if !KnownKeys(fields) || !Get(fields, "msg_type").Str? || !(bin == Null || bin == Int(0)) then None
    else
      var payload := Get(fields, "payload");
      Make(Get(fields, "msg_type").s, if payload.Str? then FromText(payload.s) else FromJson(payload),
           Get(fields, "metadata"), Get(fields, "route"), Get(fields, "node"), Get(fields, "source_peer"),
           Get(fields, "target_site_id"), Get(fields, "target_pubkey"), Get(fields, "target_peers"), 0)
  }

  /** What the payload property returns. */
  datatype Payload = BusPayload(bus: BusMsg) | HivePayload(inner: HiveMsg) | StoredPayload(stored: Stored)

  function PayloadOf(m: HiveMsg): Option<Payload> {
    if IsBus(m.msgType) then
      if m.stored.Raw? || !m.stored.json.Obj? || !HasKey(m.stored.json.fields, "type") then None
      else
        var fields := m.stored.json.fields;
        Some(BusPayload(BusMsg(Get(fields, "type"), OrEmpty(Get(fields, "data")), OrEmpty(Get(fields, "context")))))
    else if IsWrapper(m.msgType) then
      if m.stored.Raw? || !m.stored.json.Obj? then None
      else
        var inner :- FromDict(m.stored.json.fields);
        Some(HivePayload(inner))
    else Some(StoredPayload(m.stored))
  }

  /** What every constructed message satisfies. */
  predicate Made(m: HiveMsg) {
    && OrEmpty(m.metadata) == m.metadata
    && (!m.msgType.Binary? ==> m.binType == 0)
    && (m.stored.Value? ==> OrEmpty(m.stored.json) == m.stored.json)
  }

  // ---------------------------------------------------------------- facts

  function Place(t: MsgType): nat {
    match t
    case Handshake => 0
    case Bus => 1
    case SharedBus => 2
    case Intercom => 3
    case Broadcast => 4
    case Propagate => 5
    case Escalate => 6
    case Hello => 7
    case Query => 8
    case Cascade => 9
    case Ping => 10
    case Rendezvous => 11
    case ThirdParty => 12
    case Binary => 13
  }

  lemma AllTypesListed(t: MsgType)
    ensures t in ALL_TYPES
  {
    assert ALL_TYPES[Place(t)] == t;
  }

  lemma TypeNamesKnown(t: MsgType)
    ensures TypeOf(TypeName(t)) == Some(t)
  {
    AllTypesListed(t);
    FindsType(t, ALL_TYPES);
  }

  lemma {:induction false} FindsType(t: MsgType, types: seq<MsgType>)
    requires t in types
    ensures FindType(TypeName(t), types) == Some(t)
  {
    if types[0] != t {
      NamesDistinct(t, types[0]);
      FindsType(t, types[1..]);
    }
  }

  lemma NamesDistinct(t: MsgType, u: MsgType)
    requires t != u
    ensures TypeName(t) != TypeName(u)
  {
    var a, b := TypeName(t), TypeName(u);
    assert |a| != |b| || a[0] != b[0] || a[1] != b[1];
  }

  /** Whether a single record stays depends on that record alone. */
  lemma RecordsOfOne(r: Json)
    ensures Records([r]) == if r.Obj? && Truthy(Get(r.fields, "targets")) && Truthy(Get(r.fields, "source")) then [r]
                            else []
  {
    assert [r][1..] == [];
  }

  /** A route is filtered stretch by stretch, in its order. */
  lemma {:induction false} RecordsConcat(a: seq<Json>, b: seq<Json>)
    ensures Records(a + b) == Records(a) + Records(b)
  {
    hide IsRecord;
    if a == [] {
      assert a + b == b;
    } else {
      RecordsConcat(a[1..], b);
      assert (a + b)[1..] == a[1..] + b;
    }
  }

  lemma {:induction false} RecordsIdempotent(items: seq<Json>)
    ensures Records(Records(items)) == Records(items)
  {
    hide IsRecord;
    if items != [] {
      RecordsIdempotent(items[1..]);
      assert ([items[0]] + Records(items[1..]))[1..] == Records(items[1..]);
    }
  }

  lemma MakeMade(name: string, arg: Arg, metadata: Json, route: Json, node: Json, sourcePeer: Json, siteId: Json,
                 pubkey: Json, targets: Json, binType: nat)
    ensures var m := Make(name, arg, metadata, route, node, sourcePeer, siteId, pubkey, targets, binType);
            m.Some? ==> Made(m.value)
  {
    var t := TypeOf(name);
    if t.Some? {
      StoredMade(t.value, arg);
      hide StoredOf, TypeOf, AsDict;
    }
  }

  lemma StoredMade(t: MsgType, arg: Arg)
    ensures var s := StoredOf(t, arg); s.Some? && s.value.Value? ==> OrEmpty(s.value.json) == s.value.json
  {
    hide JsonText.Loads, Get, Records, TypeName;
    if arg.FromHive? && AsDict(arg.inner).Some? { assert AsDict(arg.inner).value.fields != []; }
  }
}
