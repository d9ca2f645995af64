/** The two ways a client sends a message: as a binary frame and as JSON text. */
module SendPaths {
  import opened Bits
  import opened Json
  import opened Message
  import opened Serialization
  import opened Utf8
  import opened Wrapping
  import opened Wrappers
  import JsonText

  /** What emit hands to get_bitstring: the payload property, serialized if it can be. */
  function BodyOf(m: HiveMsg): Option<Body> {
    var p :- PayloadOf(m);
    match p
    case BusPayload(bus) => Some(TextBody(JsonText.Dumps(BusFields(bus), JsonText.READABLE)))
    case HivePayload(inner) =>
      var d :- AsDict(inner);
      Some(TextBody(JsonText.Dumps(d, JsonText.READABLE)))
    case StoredPayload(Value(v)) => Some(JsonBody(v))
    case StoredPayload(Raw(bytes)) => Some(RawBody(bytes))
  }

  /** The frame as the client's setting asks: compressed, not, or whichever is shorter. */
  function Bitstring(z: Zlib, m: HiveMsg, body: Body, compress: Option<bool>): Option<Bits> {
    match compress
    case Some(compressed) => Encoded(z, m.msgType, body, compressed, m.metadata, m.binType, false)
    case None => Auto(z, m.msgType, body, m.metadata, m.binType, false)
  }

  /** Encoded as a frame, sent, decoded. */
  function Framed(z: Zlib, m: HiveMsg, compress: Option<bool>): Option<HiveMsg> {
    var body :- BodyOf(m);
    var bits :- Bitstring(z, m, body, compress);
    var bytes :- BitsToBytes(bits);
    match Decoded(z, bytes)
    case Ok(r) => Some(r)
    case Err(_) => None
  }

  /** Serialized as text, sent, parsed, rebuilt. */
  function Printed(m: HiveMsg): Option<HiveMsg> {
    var d :- AsDict(m);
    var v :- JsonText.Loads(JsonText.Dumps(d, JsonText.READABLE));
    if v.Obj? then FromDict(v.fields) else None
  }

  /** The payload dictionary a frame delivers. */
  function Normal(m: HiveMsg): Option<Json> {
    var p :- PayloadOf(m);
    match p
    case BusPayload(bus) => Some(BusFields(bus))
    case HivePayload(inner) => AsDict(inner)
    case StoredPayload(Value(v)) => Some(v)
    case StoredPayload(Raw(_)) => None
  }

  lemma NormalTruthy(m: HiveMsg)
    requires Made(m) && Normal(m).Some?
    ensures OrEmpty(Normal(m).value) == Normal(m).value
  {
    hide FromDict, Get, JsonText.Loads, Records, TypeName;
  }

  lemma PrintedDelivers(m: HiveMsg)
    requires Made(m) && !m.msgType.Binary? && m.stored.Value? && m.stored.json.Obj?
    ensures Printed(m) == Some(Rebuilt(m, m.stored.json))
  {
    hide JsonText.Loads, JsonText.Dumps, FromDict, Route, TypeName;
    var d := DictOf(m, m.stored.json);
    assert AsDict(m) == Some(d);
    JsonText.LoadsDumps(d, JsonText.READABLE);
    RebuildsAs(m, m.stored.json);
  }

  lemma FrameContent(m: HiveMsg)
    requires Made(m) && !m.msgType.Binary? && BodyOf(m).Some? && m.stored.Value?
    ensures Normal(m).Some? && Content(BodyOf(m).value) == Normal(m)
  {
    hide JsonText.Loads, JsonText.Dumps, FromDict, AsDict, Get, HasKey;
    if PayloadOf(m).value.BusPayload? { JsonText.LoadsDumps(BusFields(PayloadOf(m).value.bus), JsonText.READABLE); }
    if PayloadOf(m).value.HivePayload? {
      JsonText.LoadsDumps(AsDict(PayloadOf(m).value.inner).value, JsonText.READABLE);
    }
  }

  /** What json.dumps makes of the metadata, compressed or not, fits the length field. */
  predicate FitsAs(z: Zlib, metadata: Json, compressed: bool) {
    var meta := Cast2Bytes(z, JsonBody(OrEmpty(metadata)), compressed);
    meta.Some? && |meta.value| <= 255
  }

  predicate MetadataFitsAs(z: Zlib, m: HiveMsg, compressed: bool) {
    FitsAs(z, m.metadata, compressed)
  }

  /** The automatic choice makes both forms, so it takes metadata that fits in both. */
  predicate MetadataFits(z: Zlib, m: HiveMsg, compress: Option<bool>) {
    match compress
    case Some(compressed) => MetadataFitsAs(z, m, compressed)
    case None => MetadataFitsAs(z, m, false) && MetadataFitsAs(z, m, true)
  }

  /** The message a frame with the payload dictionary delivers. */
  function Delivered(m: HiveMsg, payload: Json): HiveMsg {
    Received(OnWire(m.msgType), Value(payload), m.metadata, 0)
  }

  /** Either form exists exactly when its metadata fits, and delivers the payload dictionary. */
  lemma FormDelivers(z: Zlib, m: HiveMsg, compressed: bool)
    requires Inverse(z) && Made(m) && !m.msgType.Binary? && m.stored.Value? && m.stored.json.Obj? && m.metadata.Obj?
    requires BodyOf(m).Some?
    ensures var bits := Encoded(z, m.msgType, BodyOf(m).value, compressed, m.metadata, m.binType, false);
            && (bits.Some? <==> MetadataFitsAs(z, m, compressed))
            && (bits.Some? ==> BitsToBytes(bits.value).Some? && Normal(m).Some?
                               && Decoded(z, BitsToBytes(bits.value).value) == Ok(Delivered(m, Normal(m).value)))
  {
    BodyWhenNormal(m);
    hide Encoded, Decoded, Content, Normal, BodyOf, BitsToBytes, Inverse, Received, OnWire, Cast2Bytes, Made;
    FrameContent(m);
    NormalTruthy(m);
    MetadataKept(m);
    EncodableWhen(z, m.msgType, BodyOf(m).value, compressed, m.metadata, m.binType, false);
    if Encoded(z, m.msgType, BodyOf(m).value, compressed, m.metadata, m.binType, false).Some? {
      RoundTrip(z, m.msgType, BodyOf(m).value, compressed, m.metadata, m.binType, false);
    }
  }

  /** The frame path delivers the payload dictionary under the type's code, or raises; for every setting. */
  lemma FrameDelivers(z: Zlib, m: HiveMsg, compress: Option<bool>)
    requires Inverse(z) && Made(m) && !m.msgType.Binary? && m.stored.Value? && m.stored.json.Obj? && m.metadata.Obj?
    ensures Framed(z, m, compress)
         == if Normal(m).Some? && MetadataFits(z, m, compress) then Some(Delivered(m, Normal(m).value)) else None
  {
    hide *;
    FramedMeans(z, m, compress);
    BodyWhenNormal(m);
    FitsMeans(z, m, compress);
    if BodyOf(m).Some? {
      FormDelivers(z, m, false);
      FormDelivers(z, m, true);
      AutoPicks(z, m, BodyOf(m).value);
    }
  }

  lemma AutoPicks(z: Zlib, m: HiveMsg, body: Body)
    ensures var unc := Encoded(z, m.msgType, body, false, m.metadata, m.binType, false);
            var comp := Encoded(z, m.msgType, body, true, m.metadata, m.binType, false);
            var auto := Auto(z, m.msgType, body, m.metadata, m.binType, false);
            && (auto.Some? <==> unc.Some? && comp.Some?) && (auto.Some? ==> auto == unc || auto == comp)
  {
    hide Encoded;
  }

  lemma FitsMeans(z: Zlib, m: HiveMsg, compress: Option<bool>)
    ensures var unc, comp := MetadataFitsAs(z, m, false), MetadataFitsAs(z, m, true);
            MetadataFits(z, m, compress) <==> ((compress != Some(true) ==> unc) && (compress != Some(false) ==> comp))
  {
    hide MetadataFitsAs;
  }

  lemma FramedMeans(z: Zlib, m: HiveMsg, compress: Option<bool>)
    ensures BodyOf(m).None? ==> Framed(z, m, compress).None?
    ensures BodyOf(m).Some? ==>
              var bits := if compress.Some?
                          then Encoded(z, m.msgType, BodyOf(m).value, compress.value, m.metadata, m.binType, false)
                          else Auto(z, m.msgType, BodyOf(m).value, m.metadata, m.binType, false);
              var bytes := if bits.Some? then BitsToBytes(bits.value) else None;
              Framed(z, m, compress)
              == if bytes.Some? && Decoded(z, bytes.value).Ok? then Some(Decoded(z, bytes.value).value) else None
  {
    hide Encoded, Auto, Decoded, BitsToBytes, BodyOf;
  }

  lemma MetadataKept(m: HiveMsg)
    requires Made(m)
    ensures OrEmpty(m.metadata) == m.metadata
  {
  }

  lemma BodyWhenNormal(m: HiveMsg)
    requires !m.msgType.Binary? && m.stored.Value? && m.stored.json.Obj?
    ensures BodyOf(m).Some? <==> Normal(m).Some?
    ensures BodyOf(m).Some? && BodyOf(m).value.JsonBody? ==> BodyOf(m).value.json.Obj?
  {
    hide FromDict, AsDict, JsonText.Dumps, Get, HasKey;
  }

  // ---------------------------------------------------------------- what emit does first

  /** What the client fills into the context of bus messages. */
  datatype Ids = Ids(useragent: Json, sessionId: Json, siteId: Json)

  /** d[key] = value */
  function Put(fields: seq<Field>, key: string, value: Json): seq<Field> {
    if fields == [] then [Field(key, value)]
    else if fields[0].key == key then [Field(key, value)] + fields[1..]
    else [fields[0]] + Put(fields[1..], key, value)
  }

  /** d.setdefault(key, value) */
  function PutMissing(fields: seq<Field>, key: string, value: Json): seq<Field> {
    if HasKey(fields, key) then fields else fields + [Field(key, value)]
  }

  /** The routing context; None where a context or a session that is no dictionary raises. */
  function Routed(ids: Ids, b: BusMsg): Option<BusMsg> {
    if !b.context.Obj? then None
    else
      var named := PutMissing(PutMissing(b.context.fields, "source", ids.useragent), "platform", ids.useragent);
      var full := PutMissing(PutMissing(named, "destination", Str("HiveMind")), "session", Obj([]));
      var session := Get(full, "session");
      if !session.Obj? then None
      else
        var known := Put(Put(session.fields, "session_id", ids.sessionId), "site_id", ids.siteId);
        Some(b.(context := Obj(Put(full, "session", Obj(known)))))
  }

  /** A BUS payload is read, given its routing context and stored again; other messages stay as they are. */
  function Prepared(ids: Ids, m: HiveMsg): Option<HiveMsg> {
    if !m.msgType.Bus? then Some(m)
    else
      var p :- PayloadOf(m);
      if !p.BusPayload? then None
      else
        var b :- Routed(ids, p.bus);
        Some(m.(stored := Value(BusFields(b))))
  }

  /** Sent as a binary frame, and what the other side makes of it; None where a step raises. */
  function ByFrame(ids: Ids, z: Zlib, m: HiveMsg, compress: Option<bool>): Option<HiveMsg> {
    var n :- Prepared(ids, m);
    Framed(z, n, compress)
  }

  /** Sent as JSON text, and what the other side makes of it. */
  function ByText(ids: Ids, m: HiveMsg): Option<HiveMsg> {
    var n :- Prepared(ids, m);
    Printed(n)
  }

  /** The same type, metadata and payload dictionary. */
  predicate Alike(a: HiveMsg, b: HiveMsg) {
    && a.msgType == b.msgType && a.metadata == b.metadata
    && a.stored.Value? && b.stored.Value? && Same(a.stored.json, b.stored.json)
  }

  // ---------------------------------------------------------------- which payloads are kept

  lemma {:induction false} MeaningGet(fields: seq<Field>, key: string)
    ensures HasKey(fields, key) ==>
              key in MeaningOfFields(fields) && MeaningOfFields(fields)[key] == Meaning(Get(fields, key))
    ensures !HasKey(fields, key) ==> Get(fields, key) == Null && key !in MeaningOfFields(fields)
  {
    if fields != [] {
      HasKeyHead(fields, key);
      MeaningGet(fields[1..], key);
    }
  }

  ghost predicate SameKeys(f: seq<Field>, g: seq<Field>) { forall k :: HasKey(f, k) <==> HasKey(g, k) }

  ghost predicate SameValues(f: seq<Field>, g: seq<Field>) {
    forall k | HasKey(f, k) :: Same(Get(f, k), Get(g, k))
  }

  /** Two dictionaries are the same when they have the same keys with the same values. */
  lemma SameByKeys(f: seq<Field>, g: seq<Field>)
    ensures Same(Obj(f), Obj(g)) <==> SameKeys(f, g) && SameValues(f, g)
  {
    hide HasKey, Get, Meaning, MeaningOfFields;
    forall k ensures HasKey(f, k) <==> k in MeaningOfFields(f) { MeaningGet(f, k); }
    forall k ensures HasKey(g, k) <==> k in MeaningOfFields(g) { MeaningGet(g, k); }
    MeaningOfObj(f);
    MeaningOfObj(g);
    var m, n := MeaningOfFields(f), MeaningOfFields(g);
    if m == n {
      forall k | HasKey(f, k) ensures Same(Get(f, k), Get(g, k)) {
        MeaningGet(f, k);
        MeaningGet(g, k);
      }
    }
    if SameKeys(f, g) && SameValues(f, g) {
      assert m.Keys == n.Keys;
      forall k | k in m ensures m[k] == n[k] {
        MeaningGet(f, k);
        MeaningGet(g, k);
      }
      assert m == n;
    }
  }

  lemma MeaningOfObj(fields: seq<Field>)
    ensures Meaning(Obj(fields)) == VObj(MeaningOfFields(fields))
  {
  }

  /** Exactly the keys of a bus message, with data and context that are not replaced. */
  ghost predicate BusShaped(fields: seq<Field>) {
    && (forall k :: HasKey(fields, k) <==> k == "type" || k == "data" || k == "context")
    && OrEmpty(Get(fields, "data")) == Get(fields, "data")
    && OrEmpty(Get(fields, "context")) == Get(fields, "context")
  }

  /** Exactly the keys of as_dict, with values that the constructor keeps. */
  ghost predicate HiveShaped(fields: seq<Field>) {
    && (forall k :: HasKey(fields, k) <==> k in DICT_KEYS)
    && OrEmpty(Get(fields, "metadata")) == Get(fields, "metadata")
    && Get(fields, "payload").Obj?
    && Get(fields, "route").Arr? && Records(Get(fields, "route").items) == Get(fields, "route").items
  }

  lemma OrEmptySame(v: Json)
    ensures Same(OrEmpty(v), v) <==> OrEmpty(v) == v
  {
  }

  lemma BusKeys(b: BusMsg)
    ensures var f := BusFields(b).fields;
            && (forall k :: HasKey(f, k) <==> k == "type" || k == "data" || k == "context")
            && Get(f, "type") == b.msgType && Get(f, "data") == b.data && Get(f, "context") == b.context
  {
    var f := BusFields(b).fields;
    assert "type"[0] != "data"[0] && "data"[0] != "context"[0] && "type"[0] != "context"[0];
    assert f[0].key == "type" && f[1].key == "data" && f[2].key == "context";
    hide Get;
    GetAt(f, 0);
    GetAt(f, 1);
    GetAt(f, 2);
  }

  /** A bus payload is read back as it is stored exactly when it has the shape of a bus message. */
  lemma BusPayloadKept(m: HiveMsg)
    requires IsBus(m.msgType) && m.stored.Value? && m.stored.json.Obj? && HasKey(m.stored.json.fields, "type")
    ensures Normal(m).Some?
    ensures Same(Normal(m).value, m.stored.json) <==> BusShaped(m.stored.json.fields)
  {
    var fields := m.stored.json.fields;
    var b := BusMsg(Get(fields, "type"), OrEmpty(Get(fields, "data")), OrEmpty(Get(fields, "context")));
    assert Normal(m) == Some(BusFields(b));
    assert BusFields(b).Obj?;
    hide HasKey, Get, OrEmpty, MeaningOfFields, Meaning, Normal, BusFields;
    BusKeys(b);
    SameByKeys(BusFields(b).fields, fields);
    OrEmptySame(Get(fields, "data"));
    OrEmptySame(Get(fields, "context"));
    var f := BusFields(b).fields;
    if SameKeys(f, fields) && SameValues(f, fields) {
      assert Same(Get(f, "data"), Get(fields, "data")) && Same(Get(f, "context"), Get(fields, "context"));
    }
  }

  /** A payload the constructor takes and as_dict can cast. */
  predicate AcceptsPayload(payload: Json) {
    var v := if payload.Str? then JsonText.Loads(payload.s) else Some(payload);
    v.Some? && (OrEmpty(v.value).Str? ==> JsonText.Loads(OrEmpty(v.value).s).Some?)
    && (if OrEmpty(v.value).Str? then JsonText.Loads(OrEmpty(v.value).s).value.Obj? else OrEmpty(v.value).Obj?)
  }

  /** A dictionary that HiveMessage(**d) accepts and whose message can be cast to a dictionary again. */
  predicate Rebuildable(fields: seq<Field>) {
    && KnownKeys(fields) && Get(fields, "msg_type").Str? && TypeOf(Get(fields, "msg_type").s).Some?
    && TypeOf(Get(fields, "msg_type").s) != Some(Binary)
    && (Get(fields, "bin_type") == Null || Get(fields, "bin_type") == Int(0))
    && AcceptsPayload(Get(fields, "payload"))
  }

  /** The payload dictionary of the message rebuilt from fields. */
  function RebuiltPayload(payload: Json): Json
    requires AcceptsPayload(payload)
  {
    var v := OrEmpty(if payload.Str? then JsonText.Loads(payload.s).value else payload);
    if v.Str? then JsonText.Loads(v.s).value else v
  }

  /** The message HiveMessage(**d) makes; its payload as stored. */
  function RebuiltFrom(fields: seq<Field>): HiveMsg
    requires Rebuildable(fields)
  {
    var payload := Get(fields, "payload");
    var v := OrEmpty(if payload.Str? then JsonText.Loads(payload.s).value else payload);
    var route, targets := Get(fields, "route"), Get(fields, "target_peers");
    HiveMsg(TypeOf(Get(fields, "msg_type").s).value, Value(v), OrEmpty(Get(fields, "metadata")),
            if Truthy(route) then route else Arr([]), Get(fields, "node"), Get(fields, "source_peer"),
            Get(fields, "target_site_id"), Get(fields, "target_pubkey"),
            if Truthy(targets) then targets else Arr([]), 0)
  }

  lemma RebuildsWhen(fields: seq<Field>)
    ensures FromDict(fields).Some? && AsDict(FromDict(fields).value).Some? <==> Rebuildable(fields)
    ensures Rebuildable(fields) ==> FromDict(fields) == Some(RebuiltFrom(fields))
    ensures Rebuildable(fields) ==>
              AsDict(RebuiltFrom(fields)) == Some(DictOf(RebuiltFrom(fields), RebuiltPayload(Get(fields, "payload"))))
  {
    hide Get, KnownKeys, TypeOf, JsonText.Loads, DictOf;
  }

  lemma {:induction false} NameOfFound(name: string, types: seq<MsgType>)
    ensures FindType(name, types).Some? ==> TypeName(FindType(name, types).value) == name
  {
    hide TypeName;
    if types != [] { NameOfFound(name, types[1..]); }
  }

  lemma {:induction false} RecordsShorter(items: seq<Json>)
    ensures |Records(items)| <= |items|
    ensures |Records(items)| == |items| ==> Records(items) == items
  {
    hide IsRecord;
    if items != [] { RecordsShorter(items[1..]); }
  }

  /** The route read back is the one stored exactly when that is a list of records. */
  lemma RouteKeptWhen(fields: seq<Field>)
    requires Rebuildable(fields)
    ensures var route := Get(fields, "route");
            Same(Arr(Message.Route(RebuiltFrom(fields))), route) <==> route.Arr? && Records(route.items) == route.items
  {
    hide Get, KnownKeys, TypeOf, JsonText.Loads, Records, AcceptsPayload;
    var route := Get(fields, "route");
    if route.Arr? {
      RecordsShorter(route.items);
      assert Message.Route(RebuiltFrom(fields)) == Records(route.items) by {
        if route.items == [] { RecordsShorter([]); }
      }
      assert |MeaningOfItems(Records(route.items))| == |Records(route.items)|;
    }
  }

  lemma PayloadKeptWhen(payload: Json)
    requires AcceptsPayload(payload)
    ensures Same(RebuiltPayload(payload), payload) <==> payload.Obj?
  {
    hide JsonText.Loads;
  }

  /** A payload that wraps a message is read back as it is stored exactly when it has the shape of as_dict. */
  lemma HivePayloadKept(m: HiveMsg)
    requires IsWrapper(m.msgType) && m.stored.Value? && m.stored.json.Obj?
    ensures Normal(m).Some? <==> Rebuildable(m.stored.json.fields)
    ensures Normal(m).Some? ==> (Same(Normal(m).value, m.stored.json) <==> HiveShaped(m.stored.json.fields))
  {
    var fields := m.stored.json.fields;
    RebuildsWhen(fields);
    NormalOfWrapper(m);
    if Rebuildable(fields) { DictKeptWhen(fields); }
    hide FromDict, AsDict, HiveShaped, Rebuildable, Meaning, DictOf;
  }

  lemma NormalOfWrapper(m: HiveMsg)
    requires IsWrapper(m.msgType) && m.stored.Value? && m.stored.json.Obj?
    ensures var r := FromDict(m.stored.json.fields);
            Normal(m) == if r.Some? then AsDict(r.value) else None
  {
    hide FromDict, AsDict;
  }

  lemma RebuiltHas(fields: seq<Field>)
    requires Rebuildable(fields)
    ensures var r := RebuiltFrom(fields);
            && Str(TypeName(r.msgType)) == Get(fields, "msg_type") && r.metadata == OrEmpty(Get(fields, "metadata"))
            && r.node == Get(fields, "node") && r.siteId == Get(fields, "target_site_id")
            && r.pubkey == Get(fields, "target_pubkey") && r.sourcePeer == Get(fields, "source_peer")
  {
    hide Get, KnownKeys, JsonText.Loads, TypeName, AcceptsPayload, OrEmpty, Truthy;
    NameOfFound(Get(fields, "msg_type").s, ALL_TYPES);
  }

  lemma DictKeysOnly(m: HiveMsg, payload: Json)
    ensures forall k :: HasKey(DictOf(m, payload).fields, k) <==> k in DICT_KEYS
  {
    var f := DictOf(m, payload).fields;
    DictHasKeys(m, payload);
    hide DictOf;
    forall k ensures HasKey(f, k) <==> k in DICT_KEYS {
      if k in DICT_KEYS {
        var i :| 0 <= i < |DICT_KEYS| && DICT_KEYS[i] == k;
        assert f[i].key == k;
      }
    }
  }

  /** The eight values of a dictionary form, compared one by one. */
  predicate EightSame(d: seq<Field>, f: seq<Field>) {
    && Same(Get(d, "msg_type"), Get(f, "msg_type")) && Same(Get(d, "payload"), Get(f, "payload"))
    && Same(Get(d, "metadata"), Get(f, "metadata")) && Same(Get(d, "route"), Get(f, "route"))
    && Same(Get(d, "node"), Get(f, "node")) && Same(Get(d, "target_site_id"), Get(f, "target_site_id"))
    && Same(Get(d, "target_pubkey"), Get(f, "target_pubkey")) && Same(Get(d, "source_peer"), Get(f, "source_peer"))
  }

  lemma ValuesByKeys(d: seq<Field>, f: seq<Field>)
    requires forall k :: HasKey(d, k) <==> k in DICT_KEYS
    ensures SameValues(d, f) <==> EightSame(d, f)
  {
    hide HasKey, Get, Same;
    if SameValues(d, f) {
      assert forall i | 0 <= i < 8 :: HasKey(d, DICT_KEYS[i]) ==> Same(Get(d, DICT_KEYS[i]), Get(f, DICT_KEYS[i]));
      assert DICT_KEYS[0] == "msg_type" && DICT_KEYS[1] == "payload" && DICT_KEYS[2] == "metadata"
             && DICT_KEYS[3] == "route"
          && DICT_KEYS[4] == "node" && DICT_KEYS[5] == "target_site_id" && DICT_KEYS[6] == "target_pubkey"
          && DICT_KEYS[7] == "source_peer";
    }
  }

  lemma DictKeptWhen(fields: seq<Field>)
    requires Rebuildable(fields)
    ensures Same(DictOf(RebuiltFrom(fields), RebuiltPayload(Get(fields, "payload"))), Obj(fields))
            <==> HiveShaped(fields)
  {
    hide FromDict, RebuiltFrom, RebuiltPayload, DictOf, Get, HasKey, Meaning, OrEmpty, Message.Route, Records, TypeName,
         TypeOf,
         KnownKeys, JsonText.Loads, MeaningOfFields, SameValues;
    var r, payload := RebuiltFrom(fields), RebuiltPayload(Get(fields, "payload"));
    DictIsObj(r, payload);
    var d := DictOf(r, payload).fields;
    DictGets(r, payload);
    DictKeysOnly(r, payload);
    RouteKeptWhen(fields);
    PayloadKeptWhen(Get(fields, "payload"));
    OrEmptySame(Get(fields, "metadata"));
    RebuiltHas(fields);
    SameByKeys(d, fields);
    ValuesByKeys(d, fields);
  }

  lemma DictIsObj(m: HiveMsg, payload: Json)
    ensures DictOf(m, payload).Obj?
  {
  }

  // ---------------------------------------------------------------- the two paths

  /** What can be prepared: a BUS message with a type, a context and in it a session that are dictionaries. */
  predicate Preparable(m: HiveMsg)
    requires m.stored.Value? && m.stored.json.Obj?
  {
    m.msgType.Bus? ==>
      && HasKey(m.stored.json.fields, "type")
      && var context := OrEmpty(Get(m.stored.json.fields, "context"));
         context.Obj? && (HasKey(context.fields, "session") ==> Get(context.fields, "session").Obj?)
  }

  /** What the getter can read, so that a frame can be made of it. */
  predicate Readable(m: HiveMsg)
    requires m.stored.Value? && m.stored.json.Obj?
  {
    && (IsBus(m.msgType) ==> HasKey(m.stored.json.fields, "type"))
    && (IsWrapper(m.msgType) ==> Rebuildable(m.stored.json.fields))
  }

  /** What is read back as it is stored: the BUS payload emit has rewritten is. */
  ghost predicate Kept(m: HiveMsg)
    requires m.stored.Value? && m.stored.json.Obj?
  {
    && (m.msgType.SharedBus? ==> BusShaped(m.stored.json.fields))
    && (IsWrapper(m.msgType) ==> HiveShaped(m.stored.json.fields))
  }

  lemma NormalWhen(m: HiveMsg)
    requires !m.msgType.Binary? && m.stored.Value? && m.stored.json.Obj?
    ensures Normal(m).Some? <==> Readable(m)
    ensures Normal(m).Some? && !m.msgType.Bus? ==> (Same(Normal(m).value, m.stored.json) <==> Kept(m))
  {
    if IsWrapper(m.msgType) { HivePayloadKept(m); }
    if IsBus(m.msgType) && HasKey(m.stored.json.fields, "type") { BusPayloadKept(m); }
    hide BusShaped, HiveShaped, Rebuildable, Meaning, FromDict, AsDict, HasKey, Get;
  }

  /** Sent unprepared, a message is delivered alike exactly when its payload is what the getter gives. */
  lemma SentAlikeWhenNormal(z: Zlib, m: HiveMsg, compress: Option<bool>)
    requires Inverse(z) && Made(m) && !m.msgType.Binary? && m.stored.Value? && m.stored.json.Obj? && m.metadata.Obj?
    ensures var f, t := Framed(z, m, compress), Printed(m);
            && t.Some? && (f.Some? <==> Normal(m).Some? && MetadataFits(z, m, compress))
            && (f.Some? ==> (Alike(f.value, t.value) <==>
                             !m.msgType.Intercom? && Same(Normal(m).value, m.stored.json)))
  {
    hide Framed, Printed, Normal, Inverse, Meaning, Message.Route, MetadataFits, Made;
    FrameDelivers(z, m, compress);
    PrintedDelivers(m);
  }

  lemma GetAppended(fields: seq<Field>, key: string, value: Json, k: string)
    ensures HasKey(PutMissing(fields, key, value), k) <==> HasKey(fields, k) || k == key
    ensures Get(PutMissing(fields, key, value), k)
         == if HasKey(fields, k) then Get(fields, k) else if k == key then value else Null
  {
    hide HasKey, Get;
    if !HasKey(fields, key) { GetConcat(fields, Field(key, value), k); }
    MeaningGet(fields, k);
  }

  lemma {:induction false} GetConcat(fields: seq<Field>, f: Field, k: string)
    ensures HasKey(fields + [f], k) <==> HasKey(fields, k) || k == f.key
    ensures Get(fields + [f], k) == if HasKey(fields, k) then Get(fields, k) else if k == f.key then f.value else Null
  {
    HasKeyHead(fields + [f], k);
    assert (fields + [f])[1..] == if fields == [] then [] else fields[1..] + [f];
    if fields != [] {
      HasKeyHead(fields, k);
      GetConcat(fields[1..], f, k);
    }
  }

  lemma RoutedWhen(ids: Ids, b: BusMsg)
    ensures Routed(ids, b).Some? <==>
            b.context.Obj? && (HasKey(b.context.fields, "session") ==> Get(b.context.fields, "session").Obj?)
    ensures Routed(ids, b).Some? ==>
            Routed(ids, b).value.msgType == b.msgType && Routed(ids, b).value.data == b.data
            && Truthy(Routed(ids, b).value.context)
  {
    if b.context.Obj? {
      var f1 := PutMissing(b.context.fields, "source", ids.useragent);
      var f2 := PutMissing(f1, "platform", ids.useragent);
      var f3 := PutMissing(f2, "destination", Str("HiveMind"));
      assert "session"[1] != "source"[1] && "session"[0] != "platform"[0] && "session"[0] != "destination"[0];
      GetAppended(b.context.fields, "source", ids.useragent, "session");
      GetAppended(f1, "platform", ids.useragent, "session");
      GetAppended(f2, "destination", Str("HiveMind"), "session");
      GetAppended(f3, "session", Obj([]), "session");
      hide HasKey, Get, PutMissing;
    }
  }

  lemma {:induction false} GetPut(fields: seq<Field>, key: string, value: Json, k: string)
    ensures HasKey(Put(fields, key, value), k) <==> HasKey(fields, k) || k == key
    ensures Get(Put(fields, key, value), k) == if k == key then value else Get(fields, k)
  {
    var put := Put(fields, key, value);
    HasKeyHead(put, k);
    if fields == [] {
      assert put[1..] == [];
    } else {
      HasKeyHead(fields, k);
      if fields[0].key == key {
        assert put[1..] == fields[1..];
      } else {
        assert put[1..] == Put(fields[1..], key, value);
        GetPut(fields[1..], key, value, k);
      }
    }
  }

  /** What a message that goes out says of where it comes from, under each key k of its context. */
  ghost predicate RoutedContext(ids: Ids, context: seq<Field>, k: string, r: Json)
    requires HasKey(context, "session") ==> Get(context, "session").Obj?
  {
    && (k == "source" || k == "platform" ==> r == if HasKey(context, k) then Get(context, k) else ids.useragent)
    && (k == "destination" ==> r == if HasKey(context, k) then Get(context, k) else Str("HiveMind"))
    && (k == "session" ==>
          && r.Obj? && Get(r.fields, "session_id") == ids.sessionId && Get(r.fields, "site_id") == ids.siteId
          && forall x | x != "session_id" && x != "site_id" ::
               Get(r.fields, x) == if HasKey(context, "session") then Get(Get(context, "session").fields, x) else Null)
    && (k !in ["source", "platform", "destination", "session"] ==> r == Get(context, k))
  }

  /** The session gets its two ids whatever it held; the rest of the context stays, and what is missing is filled in. */
  lemma RoutedSays(ids: Ids, b: BusMsg, k: string)
    requires Routed(ids, b).Some?
    ensures b.context.Obj? && Routed(ids, b).value.context.Obj?
    ensures HasKey(b.context.fields, "session") ==> Get(b.context.fields, "session").Obj?
    ensures RoutedContext(ids, b.context.fields, k, Get(Routed(ids, b).value.context.fields, k))
  {
    RoutedWhen(ids, b);
    var f := b.context.fields;
    var f1 := PutMissing(f, "source", ids.useragent);
    var f2 := PutMissing(f1, "platform", ids.useragent);
    var f3 := PutMissing(f2, "destination", Str("HiveMind"));
    var full := PutMissing(f3, "session", Obj([]));
    FilledIn(ids, f, k);
    FilledIn(ids, f, "session");
    var session := Get(full, "session");
    var known := Put(Put(session.fields, "session_id", ids.sessionId), "site_id", ids.siteId);
    GetPut(full, "session", Obj(known), k);
    hide HasKey, Get, PutMissing, Put;
    assert "session_id" != "site_id" by { assert |"session_id"| != |"site_id"|; }
    forall x ensures Get(known, x) == if x == "site_id" then ids.siteId else if x == "session_id" then ids.sessionId
                                      else Get(session.fields, x)
    {
      GetPut(session.fields, "session_id", ids.sessionId, x);
      GetPut(Put(session.fields, "session_id", ids.sessionId), "site_id", ids.siteId, x);
    }
    EmptySession();
  }

  lemma EmptySession()
    ensures forall x :: Get([], x) == Null
  {
  }

  /** The context with what was missing, before the session is looked at. */
  lemma FilledIn(ids: Ids, f: seq<Field>, k: string)
    ensures var f1 := PutMissing(f, "source", ids.useragent);
            var f2 := PutMissing(f1, "platform", ids.useragent);
            var f3 := PutMissing(f2, "destination", Str("HiveMind"));
            var full := PutMissing(f3, "session", Obj([]));
            Get(full, k) == if HasKey(f, k) then Get(f, k)
                            else if k == "source" || k == "platform" then ids.useragent
                            else if k == "destination" then Str("HiveMind")
                            else if k == "session" then Obj([]) else Get(f, k)
  {
    var f1 := PutMissing(f, "source", ids.useragent);
    var f2 := PutMissing(f1, "platform", ids.useragent);
    var f3 := PutMissing(f2, "destination", Str("HiveMind"));
    GetAppended(f, "source", ids.useragent, k);
    GetAppended(f1, "platform", ids.useragent, k);
    GetAppended(f2, "destination", Str("HiveMind"), k);
    GetAppended(f3, "session", Obj([]), k);
    GetMeans(f, k);
    hide HasKey, Get, PutMissing;
  }

  lemma PreparedWhen(ids: Ids, m: HiveMsg)
    requires Made(m) && !m.msgType.Binary? && m.stored.Value? && m.stored.json.Obj?
    ensures Prepared(ids, m).Some? <==> Preparable(m)
    ensures Prepared(ids, m).Some? ==>
            var n := Prepared(ids, m).value;
            && Made(n) && n == m.(stored := n.stored) && n.stored.Value? && n.stored.json.Obj?
            && (m.msgType.Bus? ==> HasKey(n.stored.json.fields, "type") && BusShaped(n.stored.json.fields))
            && (!m.msgType.Bus? ==> n == m)
  {
    hide HasKey, Get, Routed, PayloadOf, OrEmpty, BusShaped, BusFields;
    if m.msgType.Bus? {
      var fields := m.stored.json.fields;
      var b := BusMsg(Get(fields, "type"), OrEmpty(Get(fields, "data")), OrEmpty(Get(fields, "context")));
      PayloadOfBus(m);
      RoutedWhen(ids, b);
      if HasKey(fields, "type") && Routed(ids, b).Some? {
        OrEmptyTwice(Get(fields, "data"));
        StoredBus(m, Routed(ids, b).value);
      }
    }
  }

  lemma PayloadOfBus(m: HiveMsg)
    requires m.msgType.Bus? && m.stored.Value? && m.stored.json.Obj?
    ensures var fields := m.stored.json.fields;
            PayloadOf(m)
            == if HasKey(fields, "type")
               then Some(BusPayload(BusMsg(Get(fields, "type"), OrEmpty(Get(fields, "data")),
                                           OrEmpty(Get(fields, "context")))))
               else None
  {
    hide HasKey, Get;
  }

  lemma OrEmptyTwice(v: Json)
    ensures OrEmpty(OrEmpty(v)) == OrEmpty(v)
  {
  }

  /** The routed message, stored again, has the shape of a bus message. */
  lemma StoredBus(m: HiveMsg, r: BusMsg)
    requires Made(m) && m.msgType.Bus? && OrEmpty(r.data) == r.data && Truthy(r.context)
    ensures BusFields(r).Obj? && Made(m.(stored := Value(BusFields(r))))
    ensures HasKey(BusFields(r).fields, "type") && BusShaped(BusFields(r).fields)
  {
    BusKeys(r);
    assert OrEmpty(BusFields(r)) == BusFields(r);
    hide HasKey, Get, BusFields;
  }

  /**
   Every message with a dictionary for a payload. Text delivers what can be prepared; a frame also needs a
   payload the getter can read and metadata that fits. Both deliver the same exactly when the type has a code
   of its own and the payload is kept: BUS always, SHARED_BUS when it has the shape of a bus message, a wrapper
   when its payload has the shape of as_dict, every other type always.
   */
  lemma PathsAgreeWhen(ids: Ids, z: Zlib, m: HiveMsg, compress: Option<bool>)
    requires Inverse(z) && Made(m) && !m.msgType.Binary? && m.stored.Value? && m.stored.json.Obj? && m.metadata.Obj?
    ensures var f, t := ByFrame(ids, z, m, compress), ByText(ids, m);
            && (t.Some? <==> Preparable(m))
            && (f.Some? <==> Preparable(m) && Readable(m) && MetadataFits(z, m, compress))
            && (f.Some? ==> (Alike(f.value, t.value) <==> !m.msgType.Intercom? && Kept(m)))
  {
    hide Framed, Printed, Normal, Inverse, Alike, BusShaped, HiveShaped, MetadataFits, Rebuildable, Made, Prepared,
         HasKey, Get,
         Same, OrEmpty, Truthy, Preparable;
    PreparedWhen(ids, m);
    if Prepared(ids, m).Some? {
      var n := Prepared(ids, m).value;
      SentAlikeWhenNormal(z, n, compress);
      SameMetadata(z, m, n, compress);
      if m.msgType.Bus? {
        BusPayloadKept(n);
        PreparableReadable(m);
      } else {
        NormalWhen(m);
      }
    }
  }

  lemma PreparableReadable(m: HiveMsg)
    requires m.msgType.Bus? && m.stored.Value? && m.stored.json.Obj? && Preparable(m)
    ensures Readable(m)
  {
  }

  lemma SameMetadata(z: Zlib, m: HiveMsg, n: HiveMsg, compress: Option<bool>)
    requires n.metadata == m.metadata
    ensures MetadataFits(z, n, compress) == MetadataFits(z, m, compress)
  {
  }

  // ---------------------------------------------------------------- which way is taken

  /** agreed is what the server's parameters say of binarization, wanted the client's own setting. */
  predicate SendsFrame(t: MsgType, agreed: bool, wanted: bool) {
    t.Binary? || (!t.Hello? && !t.Handshake? && agreed && wanted)
  }

  /** emit of a message that is not BINARY, and what the other side makes of it. */
  function Sent(ids: Ids, z: Zlib, m: HiveMsg, agreed: bool, wanted: bool, compress: Option<bool>): Option<HiveMsg> {
    if SendsFrame(m.msgType, agreed, wanted) then ByFrame(ids, z, m, compress) else ByText(ids, m)
  }

  /** Both are delivered, and alike, or neither is. */
  predicate SameDelivery(a: Option<HiveMsg>, b: Option<HiveMsg>) {
    (a.Some? <==> b.Some?) && (a.Some? ==> Alike(a.value, b.value))
  }

  lemma AlikeItself(ids: Ids, m: HiveMsg)
    requires Made(m) && !m.msgType.Binary? && m.stored.Value? && m.stored.json.Obj?
    ensures var t := ByText(ids, m); SameDelivery(t, t)
  {
    hide Prepared, Printed, Made;
    PreparedWhen(ids, m);
    if Prepared(ids, m).Some? { PrintedDelivers(Prepared(ids, m).value); }
  }

  /**
   What is delivered does not depend on the settings of the two sides exactly for HELLO and HANDSHAKE, for what cannot
   be prepared, and for messages with a code and a kept payload whose metadata fits a frame.
   */
  lemma SettingsDoNotMatterWhen(ids: Ids, z: Zlib, m: HiveMsg, compress: Option<bool>)
    requires Inverse(z) && Made(m) && !m.msgType.Binary? && m.stored.Value? && m.stored.json.Obj? && m.metadata.Obj?
    ensures (forall agreed, wanted :: SameDelivery(Sent(ids, z, m, agreed, wanted, compress), ByText(ids, m)))
       <==> || m.msgType.Hello? || m.msgType.Handshake? || !Preparable(m)
            || (!m.msgType.Intercom? && Kept(m) && Readable(m) && MetadataFits(z, m, compress))
  {
    PathsAgreeWhen(ids, z, m, compress);
    AlikeItself(ids, m);
    hide ByFrame, ByText, Alike, Preparable, Readable, Kept, MetadataFits, Inverse, Made;
    assert Sent(ids, z, m, true, true, compress)
        == if m.msgType.Hello? || m.msgType.Handshake? then ByText(ids, m) else ByFrame(ids, z, m, compress);
  }

  /** A BINARY frame as the client's setting asks. */
  function BinaryBits(z: Zlib, content: seq<byte>, metadata: Json, binType: nat, compress: Option<bool>): Option<Bits> {
    match compress
    case Some(compressed) => Encoded(z, Binary, RawBody(content), compressed, metadata, binType, false)
    case None => Auto(z, Binary, RawBody(content), metadata, binType, false)
  }

  /** emit of BINARY content with the content type given to it, and what the other side makes of it. */
  function SentBinary(z: Zlib, content: seq<byte>, metadata: Json, binType: nat, compress: Option<bool>)
    : Option<HiveMsg>
  {
    var bits :- BinaryBits(z, content, metadata, binType, compress);
    var bytes :- BitsToBytes(bits);
    match Decoded(z, bytes)
    case Ok(r) => Some(r)
    case Err(_) => None
  }

  /**
   BINARY content goes as a frame whatever the settings; if its metadata fits it arrives as it was, with its content
   type, and else sending raises.
   */
  lemma BinaryArrives(z: Zlib, content: seq<byte>, metadata: Json, binType: nat, compress: Option<bool>)
    requires Inverse(z) && OrEmpty(metadata).Obj? && content != []
    ensures forall agreed, wanted :: SendsFrame(Binary, agreed, wanted)
    ensures var r := SentBinary(z, content, metadata, binType, compress);
            && (r.Some? <==> (compress != Some(true) ==> FitsAs(z, metadata, false))
                             && (compress != Some(false) ==> FitsAs(z, metadata, true)))
            && (r.Some? ==> && r.value.msgType.Binary? && r.value.stored == Raw(content)
                            && r.value.metadata == OrEmpty(metadata)
                            && r.value.binType == if binType < 7 then binType else 0)
  {
    BinaryFormArrives(z, content, metadata, binType, false);
    BinaryFormArrives(z, content, metadata, binType, true);
    BinaryPicks(z, content, metadata, binType, compress);
    hide Encoded, BinaryBits, Decoded, BitsToBytes, Inverse, OrEmpty, FitsAs;
  }

  lemma BinaryPicks(z: Zlib, content: seq<byte>, metadata: Json, binType: nat, compress: Option<bool>)
    ensures var unc := Encoded(z, Binary, RawBody(content), false, metadata, binType, false);
            var comp := Encoded(z, Binary, RawBody(content), true, metadata, binType, false);
            var bits := BinaryBits(z, content, metadata, binType, compress);
            && (bits.Some? <==> (compress != Some(true) ==> unc.Some?) && (compress != Some(false) ==> comp.Some?))
            && (bits.Some? ==> (bits == unc || bits == comp))
  {
    hide Encoded;
  }

  lemma BinaryFormArrives(z: Zlib, content: seq<byte>, metadata: Json, binType: nat, compressed: bool)
    requires Inverse(z) && OrEmpty(metadata).Obj? && content != []
    ensures var bits := Encoded(z, Binary, RawBody(content), compressed, metadata, binType, false);
            && (bits.Some? <==> FitsAs(z, metadata, compressed))
            && (bits.Some? ==>
                  BitsToBytes(bits.value).Some?
                  && Decoded(z, BitsToBytes(bits.value).value)
                     == Ok(Received(Binary, Raw(content), OrEmpty(metadata), BinaryType(binType))))
  {
    EncodableWhen(z, Binary, RawBody(content), compressed, metadata, binType, false);
    assert Cast2Bytes(z, JsonBody(OrEmpty(metadata)), compressed).Some?;
    hide Encoded, Decoded, BitsToBytes, Inverse, OrEmpty, Cast2Bytes;
    if Encoded(z, Binary, RawBody(content), compressed, metadata, binType, false).Some? {
      RoundTrip(z, Binary, RawBody(content), compressed, metadata, binType, false);
    }
  }

  // ---------------------------------------------------------------- inputs on either side

  /** A payload built from a HiveMessage is always kept. */
  lemma HivePayloadsAreKept(t: MsgType, inner: HiveMsg)
    requires IsWrapper(t) && Made(inner) && AsDict(inner).Some?
    ensures var w := Wrap(t, inner);
            w.Some? && w.value.stored.Value? && w.value.stored.json.Obj? && Readable(w.value) && Kept(w.value)
  {
    WrapHolds(t, inner);
    var w := Wrap(t, inner).value;
    UnwrapOnce(t, w, inner);
    HivePayloadKept(w);
    hide AsDict, Wrap, PayloadOf, HiveShaped, Rebuildable, BusShaped, Meaning;
  }

  /** A payload built from a bus message is always kept. */
  lemma BusPayloadsAreKept(b: BusMsg)
    requires OrEmpty(b.data) == b.data && OrEmpty(b.context) == b.context
    ensures BusShaped(BusFields(b).fields) && HasKey(BusFields(b).fields, "type")
  {
    BusKeys(b);
    hide BusFields, HasKey, Get;
  }

  /** HiveMessage(t, payload) with a dictionary. */
  function Plain(t: MsgType, fields: seq<Field>): HiveMsg {
    HiveMsg(t, Value(Obj(fields)), Obj([]), Arr([]), Null, Null, Null, Null, Arr([]), 0)
  }

  lemma PlainFits(z: Zlib, t: MsgType, fields: seq<Field>)
    ensures Made(Plain(t, fields)) && MetadataFits(z, Plain(t, fields), Some(false))
  {
    var text := JsonText.Dumps(Obj([]), JsonText.DEFAULT);
    assert text == "{}";
    assert text[1..] == "}" && text[1..][1..] == "";
    assert Encode("") == [] && |Encode("}")| == 1;
    assert |Encode(text)| == 2;
  }

  lemma SparseKeys(name: string)
    ensures var fields := [Field("type", Str(name))];
            HasKey(fields, "type") && Get(fields, "context") == Null && !BusShaped(fields)
  {
    var fields := [Field("type", Str(name))];
    assert fields[0].key == "type" && "type"[0] != "data"[0] && "type"[0] != "context"[0] && fields[1..] == [];
    assert !HasKey(fields, "data");
  }

  /** SHARED_BUS from {"type": name}: both paths deliver, and not the same. */
  lemma SparseSharedBusDiffers(ids: Ids, z: Zlib, name: string)
    requires Inverse(z)
    ensures var m := Plain(SharedBus, [Field("type", Str(name))]);
            var f, t := ByFrame(ids, z, m, Some(false)), ByText(ids, m);
            f.Some? && t.Some? && !Alike(f.value, t.value)
  {
    hide ByFrame, ByText, Alike, MetadataFits, Inverse, Made, BusShaped, HasKey, Get;
    var fields := [Field("type", Str(name))];
    PlainFits(z, SharedBus, fields);
    PathsAgreeWhen(ids, z, Plain(SharedBus, fields), Some(false));
    SparseKeys(name);
  }

  /** BUS from the same dictionary: the same is delivered, because emit stores what the getter gives. */
  lemma SparseBusAgrees(ids: Ids, z: Zlib, name: string)
    requires Inverse(z)
    ensures var m := Plain(Bus, [Field("type", Str(name))]);
            var f, t := ByFrame(ids, z, m, Some(false)), ByText(ids, m);
            f.Some? && t.Some? && Alike(f.value, t.value)
  {
    hide ByFrame, ByText, Alike, MetadataFits, Inverse, Made, BusShaped, Get;
    var fields := [Field("type", Str(name))];
    PlainFits(z, Bus, fields);
    PathsAgreeWhen(ids, z, Plain(Bus, fields), Some(false));
    SparseKeys(name);
  }

  /** BROADCAST from {"msg_type": "ping"}: both paths deliver, and not the same. */
  lemma SparseWrapperDiffers(ids: Ids, z: Zlib)
    requires Inverse(z)
    ensures var m := Plain(Broadcast, [Field("msg_type", Str("ping"))]);
            var f, t := ByFrame(ids, z, m, Some(false)), ByText(ids, m);
            f.Some? && t.Some? && !Alike(f.value, t.value)
  {
    hide ByFrame, ByText, Alike, MetadataFits, Inverse, Made, Rebuildable, HiveShaped;
    var fields := [Field("msg_type", Str("ping"))];
    PlainFits(z, Broadcast, fields);
    PathsAgreeWhen(ids, z, Plain(Broadcast, fields), Some(false));
    PingRebuildable();
    PingNotShaped();
  }

  lemma PingNotShaped()
    ensures !HiveShaped([Field("msg_type", Str("ping"))])
  {
    var fields := [Field("msg_type", Str("ping"))];
    assert DICT_KEYS[1] == "payload" && "payload"[0] != "msg_type"[0];
    assert !HasKey(fields, "payload");
    hide HasKey, Get, OrEmpty, Records;
  }

  lemma PingGets()
    ensures var fields := [Field("msg_type", Str("ping"))];
            && KnownKeys(fields) && Get(fields, "msg_type") == Str("ping")
            && Get(fields, "bin_type") == Null && Get(fields, "payload") == Null
  {
    var fields := [Field("msg_type", Str("ping"))];
    DictKeysDiffer();
    assert DICT_KEYS[0] == "msg_type" && DICT_KEYS[1] == "payload" && fields[1..] == [];
    assert Get(fields[1..], "bin_type") == Null && Get(fields[1..], "payload") == Null;
  }

  lemma PingRebuildable()
    ensures Rebuildable([Field("msg_type", Str("ping"))])
  {
    hide TypeOf, JsonText.Loads, Get, KnownKeys, TypeName;
    PingGets();
    TypeNamesKnown(Ping);
    assert TypeName(Ping) == "ping" by { PingName(); }
  }

  lemma PingName()
    ensures TypeName(Ping) == "ping"
  {
  }

  /** SHARED_BUS without a type: only the text path delivers. */
  lemma OnlyTextDelivers(ids: Ids, z: Zlib, fields: seq<Field>)
    requires Inverse(z) && !HasKey(fields, "type")
    ensures var m := Plain(SharedBus, fields);
            ByFrame(ids, z, m, Some(false)).None? && ByText(ids, m).Some?
  {
    PlainFits(z, SharedBus, fields);
    PathsAgreeWhen(ids, z, Plain(SharedBus, fields), Some(false));
    hide ByFrame, ByText, MetadataFits, Inverse, Made, HasKey, BusShaped;
  }
}
