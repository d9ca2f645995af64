/** Reading a message of unknown kind, and the record of the hops a message has taken. */
module Relay {
  import opened Json
  import opened Message
  import opened Wrapping
  import opened Wrappers
  import JsonText

  // ---------------------------------------------------------------- deserialize

  /** HiveMessage(payload["msg_type"], payload["payload"], ...); None where that raises. */
  function AsHive(fields: seq<Field>): Option<HiveMsg> {
    if !HasKey(fields, "msg_type") || !HasKey(fields, "payload") || !Get(fields, "msg_type").Str? then None
    else
      var payload := Get(fields, "payload");
      Make(Get(fields, "msg_type").s, if payload.Str? then FromText(payload.s) else FromJson(payload),
           Get(fields, "metadata"), Get(fields, "route"), Null, Null, Get(fields, "target_site_id"),
           Get(fields, "target_pubkey"), Null, 0)
  }

  /** asBus is the bus library's own reader of dictionaries. */
  function AsBus(fields: seq<Field>, asBus: Json -> Option<BusMsg>): Option<HiveMsg> {
    if !HasKey(fields, "type") then None
    else
      var bus :- asBus(Obj(fields));
      Make(TypeName(Bus), FromBus(bus), Get(fields, "metadata"), Null, Null, Null, Get(fields, "target_site_id"),
           Get(fields, "target_pubkey"), Null, 0)
  }

  function AsThirdParty(fields: seq<Field>): Option<HiveMsg> {
    Make(TypeName(ThirdParty), FromJson(Obj(fields)), Get(fields, "metadata"), Null, Null, Null,
         Get(fields, "target_site_id"), Get(fields, "target_pubkey"), Null, 0)
  }

  function Deserialize(fields: seq<Field>, asBus: Json -> Option<BusMsg>): Option<HiveMsg> {
    var hive := AsHive(fields);
    if hive.Some? then hive
    else
      var bus := AsBus(fields, asBus);
      if bus.Some? then bus else AsThirdParty(fields)
  }

  /** Every dictionary is some message. */
  lemma DeserializeTotal(fields: seq<Field>, asBus: Json -> Option<BusMsg>)
    ensures Deserialize(fields, asBus).Some? && Made(Deserialize(fields, asBus).value)
  {
    TypeNamesKnown(ThirdParty);
    MadeByEach(fields, asBus);
    hide AsHive, AsBus, Get, TypeOf, Made, TypeName;
  }

  lemma MadeByEach(fields: seq<Field>, asBus: Json -> Option<BusMsg>)
    ensures AsHive(fields).Some? ==> Made(AsHive(fields).value)
    ensures AsBus(fields, asBus).Some? ==> Made(AsBus(fields, asBus).value)
    ensures AsThirdParty(fields).Some? ==> Made(AsThirdParty(fields).value)
  {
    hide Get, HasKey, TypeOf, Made, TypeName, Make;
    var payload := Get(fields, "payload");
    if Get(fields, "msg_type").Str? {
      MakeMade(Get(fields, "msg_type").s, if payload.Str? then FromText(payload.s) else FromJson(payload),
               Get(fields, "metadata"), Get(fields, "route"), Null, Null, Get(fields, "target_site_id"),
               Get(fields, "target_pubkey"), Null, 0);
    }
    if asBus(Obj(fields)).Some? {
      MakeMade(TypeName(Bus), FromBus(asBus(Obj(fields)).value), Get(fields, "metadata"), Null, Null, Null,
               Get(fields, "target_site_id"), Get(fields, "target_pubkey"), Null, 0);
    }
    MakeMade(TypeName(ThirdParty), FromJson(Obj(fields)), Get(fields, "metadata"), Null, Null, Null,
             Get(fields, "target_site_id"), Get(fields, "target_pubkey"), Null, 0);
  }

  /** A dictionary that can be taken for a hive message, its payload for JSON text if it is a string. */
  predicate IsHive(fields: seq<Field>) {
    var name, payload := Get(fields, "msg_type"), Get(fields, "payload");
    && HasKey(fields, "msg_type") && HasKey(fields, "payload") && name.Str?
    && TypeOf(name.s).Some? && TypeOf(name.s) != Some(Binary)
    && (payload.Str? ==> JsonText.Loads(payload.s).Some?)
  }

  lemma IsHiveWhen(fields: seq<Field>)
    ensures AsHive(fields).Some? <==> IsHive(fields)
    ensures AsHive(fields).Some? ==> Some(AsHive(fields).value.msgType) == TypeOf(Get(fields, "msg_type").s)
  {
    hide Get, HasKey, TypeOf, JsonText.Loads;
  }

  /** The message's outer fields come from the dictionary; it has no route and no source. */
  predicate TakesOuter(r: HiveMsg, fields: seq<Field>) {
    && r.metadata == OrEmpty(Get(fields, "metadata")) && r.siteId == Get(fields, "target_site_id")
    && r.pubkey == Get(fields, "target_pubkey") && r.rawRoute == Arr([]) && r.sourcePeer == Null
  }

  lemma AsBusWhen(fields: seq<Field>, asBus: Json -> Option<BusMsg>)
    ensures var bus := if HasKey(fields, "type") then asBus(Obj(fields)) else None;
            && (AsBus(fields, asBus).Some? <==> bus.Some?)
            && (bus.Some? ==> var r := AsBus(fields, asBus).value;
                              r.msgType.Bus? && r.stored == Value(BusFields(bus.value)) && TakesOuter(r, fields))
  {
    TypeNamesKnown(Bus);
    hide Get, HasKey, TypeOf, TypeName;
  }

  lemma AsThirdPartyIs(fields: seq<Field>)
    ensures AsThirdParty(fields).Some?
    ensures var r := AsThirdParty(fields).value;
            r.msgType.ThirdParty? && r.stored == Value(Obj(fields)) && TakesOuter(r, fields)
  {
    TypeNamesKnown(ThirdParty);
    hide Get, TypeOf, TypeName;
  }

  /**
   What a dictionary is read as: a hive message if it can be one, else a bus message if the bus library takes it for
   one, else a message of unknown kind that holds the whole dictionary.
   */
  lemma DeserializeAs(fields: seq<Field>, asBus: Json -> Option<BusMsg>)
    requires Deserialize(fields, asBus).Some?
    ensures var r := Deserialize(fields, asBus).value;
            var bus := if HasKey(fields, "type") then asBus(Obj(fields)) else None;
            if IsHive(fields) then Some(r.msgType) == TypeOf(Get(fields, "msg_type").s)
            else && TakesOuter(r, fields)
                 && if bus.Some? then r.msgType.Bus? && r.stored == Value(BusFields(bus.value))
                    else r.msgType.ThirdParty? && r.stored == Value(Obj(fields))
  {
    IsHiveWhen(fields);
    AsBusWhen(fields, asBus);
    AsThirdPartyIs(fields);
    hide IsHive, AsHive, AsBus, AsThirdParty, Get, HasKey, TypeOf, TakesOuter;
  }

  lemma DictHas(m: HiveMsg, payload: Json)
    ensures HasKey(DictOf(m, payload).fields, "msg_type") && HasKey(DictOf(m, payload).fields, "payload")
  {
    var f := DictOf(m, payload).fields;
    assert f[0].key == "msg_type" && f[1].key == "payload";
  }

  /**
   A serialized message deserializes to itself but for its node and its source peer: exactly the messages with
   neither come back with the dictionary form they had.
   */
  lemma DeserializeSerialized(m: HiveMsg, asBus: Json -> Option<BusMsg>)
    requires Made(m) && AsDict(m).Some?
    ensures var text := JsonText.Dumps(AsDict(m).value, JsonText.READABLE);
            && JsonText.Loads(text) == AsDict(m)
            && var r := Deserialize(AsDict(m).value.fields, asBus);
               r.Some? && AsDict(r.value) == AsDict(m.(node := Null, sourcePeer := Null))
               && (AsDict(r.value) == AsDict(m) <==> m.node == Null && m.sourcePeer == Null)
  {
    hide *;
    JsonText.LoadsDumps(AsDict(m).value, JsonText.READABLE);
    var payload := DictPayload(m);
    AsHiveOfDict(m, payload);
    DictsDiffer(m, payload);
    DictOfBare(m, payload);
    DeserializeHive(AsDict(m).value.fields, asBus);
  }

  lemma DictPayload(m: HiveMsg) returns (payload: Json)
    requires AsDict(m).Some?
    ensures !m.msgType.Binary? && payload.Obj? && AsDict(m) == Some(DictOf(m, payload))
    ensures AsDict(m.(node := Null, sourcePeer := Null)) == Some(DictOf(m.(node := Null, sourcePeer := Null), payload))
  {
    hide JsonText.Loads, Route, TypeName;
    payload := if m.stored.json.Str? then JsonText.Loads(m.stored.json.s).value else m.stored.json;
  }

  lemma DeserializeHive(fields: seq<Field>, asBus: Json -> Option<BusMsg>)
    ensures AsHive(fields).Some? ==> Deserialize(fields, asBus) == AsHive(fields)
  {
    hide AsHive, AsBus;
  }

  /** A message without its node and its source peer. */
  function Bare(m: HiveMsg, payload: Json): HiveMsg { Rebuilt(m, payload).(node := Null, sourcePeer := Null) }

  lemma AsHiveOfDict(m: HiveMsg, payload: Json)
    requires Made(m) && !m.msgType.Binary? && payload.Obj?
    ensures AsHive(DictOf(m, payload).fields) == Some(Bare(m, payload))
  {
    DictHas(m, payload);
    DictGets(m, payload);
    TypeNamesKnown(m.msgType);
    hide Get, HasKey, TypeName, KnownKeys, TypeOf, Route, DictOf;
  }

  lemma DictOfBare(m: HiveMsg, payload: Json)
    requires !m.msgType.Binary? && payload.Obj?
    ensures AsDict(Bare(m, payload)) == Some(DictOf(m.(node := Null, sourcePeer := Null), payload))
  {
    var n := m.(node := Null, sourcePeer := Null);
    RouteOfRebuilt(m, payload);
    RouteKept(Bare(m, payload), Rebuilt(m, payload));
    RouteKept(m, n);
    hide Route;
    DictDepends(Bare(m, payload), n, payload);
  }

  lemma RouteKept(a: HiveMsg, b: HiveMsg)
    requires a.rawRoute == b.rawRoute
    ensures Route(a) == Route(b)
  {
  }

  lemma DictDepends(a: HiveMsg, b: HiveMsg, payload: Json)
    requires a.msgType == b.msgType && a.metadata == b.metadata && Route(a) == Route(b) && a.node == b.node
    requires a.siteId == b.siteId && a.pubkey == b.pubkey && a.sourcePeer == b.sourcePeer
    ensures DictOf(a, payload) == DictOf(b, payload)
  {
  }

  lemma DictsDiffer(m: HiveMsg, payload: Json)
    ensures DictOf(m.(node := Null, sourcePeer := Null), payload) == DictOf(m, payload)
       <==> m.node == Null && m.sourcePeer == Null
  {
    var a, b := DictOf(m.(node := Null, sourcePeer := Null), payload).fields, DictOf(m, payload).fields;
    assert a[4] == b[4] <==> m.node == Null;
    assert a[7] == b[7] <==> m.sourcePeer == Null;
    assert Route(m.(node := Null, sourcePeer := Null)) == Route(m);
  }

  // ---------------------------------------------------------------- hops

  /** The fields of a message that relays change. */
  datatype Hops = Hops(route: seq<Json>, targets: seq<Json>, sourcePeer: Json)

  function TargetPeers(h: Hops): seq<Json> {
    if Truthy(h.sourcePeer) && h.targets == [] then [h.sourcePeer] else h.targets
  }

  function Hop(source: Json, targets: seq<Json>): Json {
    Obj([Field("source", source), Field("targets", Arr(targets))])
  }

  /** update_hop_data without extra data; None where the last record has no source to compare. */
  function UpdateHop(h: Hops): Option<Hops> {
    if h.route == [] then Some(h.(route := [Hop(h.sourcePeer, TargetPeers(h))]))
    else
      var last := h.route[|h.route| - 1];
      if !last.Obj? || !HasKey(last.fields, "source") then None
      else if Get(last.fields, "source") == h.sourcePeer then Some(h)
      else Some(h.(route := h.route + [Hop(h.sourcePeer, TargetPeers(h))]))
  }

  /** A relay names itself as source and records the hop. */
  function Passed(h: Hops, peer: string): Option<Hops> { UpdateHop(h.(sourcePeer := Str(peer))) }

  function PassedAll(h: Hops, peers: seq<string>): Option<Hops>
    decreases peers
  {
    if peers == [] then Some(h)
    else
      var h' :- Passed(h, peers[0]);
      PassedAll(h', peers[1..])
  }

  /** The mutable part of a HiveMessage. */
  class Envelope {
    var route: seq<Json>
    var targets: seq<Json>
    var sourcePeer: Json

    function State(): Hops
      reads this
    {
      Hops(route, targets, sourcePeer)
    }

    method UpdateHopData() returns (ok: bool)
      modifies this`route
      ensures ok <==> UpdateHop(old(State())).Some?
      ensures State() == if ok then UpdateHop(old(State())).value else old(State())
    {
      if route != [] {
        var last := route[|route| - 1];
        if !last.Obj? || !HasKey(last.fields, "source") { return false; }
        if Get(last.fields, "source") == sourcePeer { return true; }
      }
      route := route + [Hop(sourcePeer, TargetPeers(State()))];
      ok := true;
    }

    method ReplaceRoute(route: seq<Json>)
      modifies this`route
      ensures State() == old(State()).(route := route)
    {
      this.route := route;
    }

    method UpdateSourcePeer(peer: Json)
      modifies this`sourcePeer
      ensures State() == old(State()).(sourcePeer := peer)
    {
      sourcePeer := peer;
    }

    method AddTargetPeer(peer: Json)
      modifies this`targets
      ensures State() == old(State()).(targets := old(targets) + [peer])
    {
      targets := targets + [peer];
    }

    /** Removes the first occurrence. */
    method RemoveTargetPeer(peer: Json)
      modifies this`targets
      ensures peer !in old(targets) ==> State() == old(State())
      ensures peer in old(targets) ==>
        exists i :: 0 <= i < |old(targets)| && old(targets)[i] == peer && peer !in old(targets)[..i]
                    && State() == old(State()).(targets := old(targets)[..i] + old(targets)[i + 1..])
    {
      var i := 0;
      while i < |targets| && targets[i] != peer
        invariant 0 <= i <= |targets| && peer !in targets[..i]
      {
        i := i + 1;
      }
      if i < |targets| {
        ghost var before := targets;
        targets := targets[..i] + targets[i + 1..];
        assert before[i] == peer;
      }
    }
  }

  /** Every record names its source. */
  ghost predicate AllSourced(route: seq<Json>) {
    forall i | 0 <= i < |route| :: IsRecord(route[i]) && HasKey(route[i].fields, "source")
  }

  function Source(r: Json): Json { if r.Obj? then Get(r.fields, "source") else Null }

  /** From here on the records name these targets, or their own source when there are none. */
  ghost predicate Addressed(route: seq<Json>, from: nat, targets: seq<Json>) {
    forall i | from <= i < |route| ::
      route[i].Obj? && Get(route[i].fields, "targets") == Arr(if targets == [] then [Source(route[i])] else targets)
  }

  function Sources(route: seq<Json>): seq<Json> {
    if route == [] then [] else Sources(route[..|route| - 1]) + [Source(route[|route| - 1])]
  }

  /** The path so far and the peers after it, a peer that follows itself left out. */
  function Trail(path: seq<Json>, peers: seq<string>): seq<Json>
    decreases peers
  {
    if peers == [] then path
    else if path != [] && path[|path| - 1] == Str(peers[0]) then Trail(path, peers[1..])
    else Trail(path + [Str(peers[0])], peers[1..])
  }

  lemma HopIsRecord(peer: string, targets: seq<Json>)
    requires peer != "" && targets != []
    ensures var r := Hop(Str(peer), targets);
            && IsRecord(r) && HasKey(r.fields, "source") && Source(r) == Str(peer)
            && Get(r.fields, "targets") == Arr(targets)
  {
    var f := Hop(Str(peer), targets).fields;
    assert f[0].key == "source" && f[1..][0].key == "targets" && "source"[0] != "targets"[0];
  }

  lemma SourcesSnoc(route: seq<Json>, r: Json)
    ensures Sources(route + [r]) == Sources(route) + [Source(r)]
  {
    assert (route + [r])[..|route|] == route;
  }

  lemma LastSourced(route: seq<Json>)
    requires AllSourced(route) && route != []
    ensures var last := route[|route| - 1];
            last.Obj? && HasKey(last.fields, "source") && Get(last.fields, "source") == Source(last)
  {
  }

  lemma PassedRecords(h: Hops, peer: string)
    requires AllSourced(h.route) && peer != ""
    ensures var r := Passed(h, peer);
            && r.Some? && AllSourced(r.value.route) && r.value.targets == h.targets
            && Sources(r.value.route) == Trail(Sources(h.route), [peer])
  {
    hide IsRecord, HasKey, Get;
    var h' := h.(sourcePeer := Str(peer));
    HopIsRecord(peer, TargetPeers(h'));
    SourcesSnoc(h.route, Hop(Str(peer), TargetPeers(h')));
    if h.route != [] { LastSourced(h.route); }
    assert [peer][1..] == [];
    assert [] + [Hop(Str(peer), TargetPeers(h'))] == [Hop(Str(peer), TargetPeers(h'))];
  }

  lemma PassedAddresses(h: Hops, peer: string)
    requires AllSourced(h.route) && peer != "" && Passed(h, peer).Some?
    ensures var r := Passed(h, peer).value;
            h.route <= r.route && Addressed(r.route, |h.route|, h.targets)
  {
    var h' := h.(sourcePeer := Str(peer));
    HopIsRecord(peer, TargetPeers(h'));
    hide IsRecord, HasKey, Get, AllSourced, Hop;
  }

  /** Two stretches of a trail are one. */
  lemma TrailStep(path: seq<Json>, peers: seq<string>)
    requires peers != []
    ensures Trail(path, peers) == Trail(Trail(path, [peers[0]]), peers[1..])
  {
    assert [peers[0]][1..] == [];
  }

  /**
   However many relays a message passes, its route names exactly the relays in order, a relay that handles it
   several times in a row once, and says who it went to: the targets, or the relay itself when there are none. No
   record changes or is lost when the route is filtered.
   */
  lemma {:induction false} RouteIsTrail(h: Hops, peers: seq<string>)
    requires AllSourced(h.route) && forall i | 0 <= i < |peers| :: peers[i] != ""
    ensures var r := PassedAll(h, peers);
            r.Some? && Sources(r.value.route) == Trail(Sources(h.route), peers)
            && Records(r.value.route) == r.value.route
            && h.route <= r.value.route && Addressed(r.value.route, |h.route|, h.targets)
    decreases peers
  {
    if peers == [] {
      AllRecordsKept(h.route);
    } else {
      hide AllSourced, Passed, Addressed;
      PassedRecords(h, peers[0]);
      PassedAddresses(h, peers[0]);
      TrailStep(Sources(h.route), peers);
      var h' := Passed(h, peers[0]).value;
      RouteIsTrail(h', peers[1..]);
      AddressedOn(h'.route, PassedAll(h', peers[1..]).value.route, |h.route|, h.targets);
    }
  }

  lemma AddressedOn(route: seq<Json>, longer: seq<Json>, from: nat, targets: seq<Json>)
    requires from <= |route| && route <= longer
    requires Addressed(route, from, targets) && Addressed(longer, |route|, targets)
    ensures Addressed(longer, from, targets)
  {
    forall i | from <= i < |route| ensures longer[i] == route[i] {}
  }

  lemma {:induction false} AllRecordsKept(route: seq<Json>)
    requires AllSourced(route)
    ensures Records(route) == route
  {
    hide IsRecord, HasKey;
    if route != [] {
      assert forall i | 0 <= i < |route| - 1 :: route[1..][i] == route[i + 1];
      AllRecordsKept(route[1..]);
    }
  }
}
