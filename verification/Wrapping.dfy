/** The dictionary form is a fixpoint of rebuilding, so nested wrapping undoes itself at any depth. */
module Wrapping {
  import opened Json
  import opened Message
  import opened Wrappers
  import JsonText

  lemma {:induction false} GetAt(fields: seq<Field>, i: nat)
    requires i < |fields| && Distinct(fields)
    ensures Get(fields, fields[i].key) == fields[i].value
  {
    if i > 0 { GetAt(fields[1..], i - 1); }
  }

  lemma {:induction false} GetMissing(fields: seq<Field>, key: string)
    requires forall i | 0 <= i < |fields| :: fields[i].key != key
    ensures Get(fields, key) == Null
  {
    if fields != [] { GetMissing(fields[1..], key); }
  }

  const DICT_KEYS := ["msg_type", "payload", "metadata", "route", "node", "target_site_id", "target_pubkey",
                      "source_peer"]

  lemma DictKeysDiffer()
    ensures forall i, j | 0 <= i < j < |DICT_KEYS| :: DICT_KEYS[i] != DICT_KEYS[j]
    ensures forall i | 0 <= i < |DICT_KEYS| :: DICT_KEYS[i] != "bin_type" && DICT_KEYS[i] != "target_peers"
    ensures forall i | 0 <= i < |DICT_KEYS| :: DICT_KEYS[i] in PARAMETERS
  {
    assert |"msg_type"| == 8 && |"payload"| == 7 && |"metadata"| == 8 && |"route"| == 5 && |"node"| == 4
        && |"target_site_id"| == 14 && |"target_pubkey"| == 13 && |"source_peer"| == 11
        && |"bin_type"| == 8 && |"target_peers"| == 12;
    assert "msg_type"[1] == 's' && "metadata"[1] == 'e' && "bin_type"[1] == 'i';
    assert PARAMETERS[0] == "msg_type" && PARAMETERS[1] == "payload" && PARAMETERS[2] == "node"
        && PARAMETERS[3] == "source_peer" && PARAMETERS[4] == "route" && PARAMETERS[6] == "target_site_id"
        && PARAMETERS[7] == "target_pubkey" && PARAMETERS[9] == "metadata";
  }

  predicate HasDictKeys(f: seq<Field>) { |f| == 8 && forall i | 0 <= i < 8 :: f[i].key == DICT_KEYS[i] }

  lemma GetsByPosition(f: seq<Field>)
    requires HasDictKeys(f)
    ensures Distinct(f) && KnownKeys(f) && Get(f, "bin_type") == Null && Get(f, "target_peers") == Null
    ensures forall i | 0 <= i < 8 :: Get(f, DICT_KEYS[i]) == f[i].value
  {
    DictKeysDiffer();
    hide Get;
    forall i | 0 <= i < 8 ensures Get(f, DICT_KEYS[i]) == f[i].value { GetAt(f, i); }
    GetMissing(f, "bin_type");
    GetMissing(f, "target_peers");
  }

  lemma DictHasKeys(m: HiveMsg, payload: Json)
    ensures HasDictKeys(DictOf(m, payload).fields)
  {
  }

  lemma DictGets(m: HiveMsg, payload: Json)
    ensures var f := DictOf(m, payload).fields;
            && KnownKeys(f) && Get(f, "bin_type") == Null && Get(f, "target_peers") == Null
            && Get(f, "msg_type") == Str(TypeName(m.msgType)) && Get(f, "payload") == payload
            && Get(f, "metadata") == m.metadata && Get(f, "route") == Arr(Route(m)) && Get(f, "node") == m.node
            && Get(f, "target_site_id") == m.siteId && Get(f, "target_pubkey") == m.pubkey
            && Get(f, "source_peer") == m.sourcePeer
  {
    var f := DictOf(m, payload).fields;
    DictHasKeys(m, payload);
    GetsByPosition(f);
    hide Get, TypeName, Route, HasDictKeys, KnownKeys, Distinct;
    assert Get(f, DICT_KEYS[0]) == f[0].value && Get(f, DICT_KEYS[1]) == f[1].value
        && Get(f, DICT_KEYS[2]) == f[2].value && Get(f, DICT_KEYS[3]) == f[3].value
        && Get(f, DICT_KEYS[4]) == f[4].value && Get(f, DICT_KEYS[5]) == f[5].value
        && Get(f, DICT_KEYS[6]) == f[6].value && Get(f, DICT_KEYS[7]) == f[7].value;
  }

  /** What rebuilding from the dictionary form gives: the same message with its route filtered. */
  function Rebuilt(m: HiveMsg, payload: Json): HiveMsg {
    HiveMsg(m.msgType, Value(payload), m.metadata, Arr(Route(m)), m.node, m.sourcePeer, m.siteId, m.pubkey, Arr([]), 0)
  }

  lemma RebuildsAs(m: HiveMsg, payload: Json)
    requires Made(m) && !m.msgType.Binary? && payload.Obj?
    ensures FromDict(DictOf(m, payload).fields) == Some(Rebuilt(m, payload))
  {
    DictGets(m, payload);
    TypeNamesKnown(m.msgType);
    hide Get, TypeName, Route, DictOf, KnownKeys, TypeOf;
  }

  /** HiveMessage(**m.as_dict) succeeds and has the dictionary form m has. */
  lemma AsDictIsFixpoint(m: HiveMsg)
    requires Made(m) && AsDict(m).Some?
    ensures var r := FromDict(AsDict(m).value.fields);
            && r.Some? && Made(r.value) && AsDict(r.value) == AsDict(m)
            && r.value.stored.Value? && r.value.stored.json.Obj?
  {
    var payload := if m.stored.json.Str? then JsonText.Loads(m.stored.json.s).value else m.stored.json;
    assert AsDict(m) == Some(DictOf(m, payload));
    RebuildsAs(m, payload);
    RouteOfRebuilt(m, payload);
    hide FromDict, Route, JsonText.Loads;
  }

  lemma RouteOfRebuilt(m: HiveMsg, payload: Json)
    ensures Route(Rebuilt(m, payload)) == Route(m)
  {
    if m.rawRoute.Arr? { RecordsIdempotent(m.rawRoute.items); }
  }

  /** HiveMessage(t, payload=m) */
  function Wrap(t: MsgType, m: HiveMsg): Option<HiveMsg> {
    Make(TypeName(t), FromHive(m), Null, Null, Null, Null, Null, Null, Null, 0)
  }

  function WrapAll(ts: seq<MsgType>, m: HiveMsg): Option<HiveMsg> {
    if ts == [] then Some(m)
    else
      var inner :- WrapAll(ts[1..], m);
      Wrap(ts[0], inner)
  }

  /** n reads of the payload property. */
  function UnwrapTimes(n: nat, m: HiveMsg): Option<HiveMsg> {
    if n == 0 then Some(m)
    else
      var p :- PayloadOf(m);
      if p.HivePayload? then UnwrapTimes(n - 1, p.inner) else None
  }

  lemma WrapHolds(t: MsgType, m: HiveMsg)
    requires IsWrapper(t) && AsDict(m).Some?
    ensures var w := Wrap(t, m);
            w.Some? && Made(w.value) && AsDict(w.value).Some? && w.value.msgType == t
            && w.value.stored == Value(AsDict(m).value)
  {
    TypeNamesKnown(t);
    MakeMade(TypeName(t), FromHive(m), Null, Null, Null, Null, Null, Null, Null, 0);
    hide TypeName, TypeOf;
  }

  lemma UnwrapOnce(t: MsgType, w: HiveMsg, m: HiveMsg)
    requires IsWrapper(t) && Made(m) && AsDict(m).Some?
    requires w.msgType == t && w.stored == Value(AsDict(m).value)
    ensures var p := PayloadOf(w);
            && p.Some? && p.value.HivePayload? && Made(p.value.inner) && AsDict(p.value.inner) == AsDict(m)
            && p.value.inner.stored.Value? && p.value.inner.stored.json.Obj?
  {
    AsDictIsFixpoint(m);
    hide AsDict, FromDict;
  }

  /** Wrapping in any sequence of wrapper types and reading the payload as often gives the message back. */
  lemma {:induction false} NestedWrappingUndoesItself(ts: seq<MsgType>, m: HiveMsg)
    requires Made(m) && AsDict(m).Some?
    requires forall i | 0 <= i < |ts| :: IsWrapper(ts[i])
    ensures var w := WrapAll(ts, m);
            && w.Some? && Made(w.value) && AsDict(w.value).Some?
            && var r := UnwrapTimes(|ts|, w.value);
               r.Some? && Made(r.value) && AsDict(r.value) == AsDict(m)
  {
    hide AsDict, PayloadOf, Wrap, Made;
    if ts != [] {
      NestedWrappingUndoesItself(ts[1..], m);
      var inner := WrapAll(ts[1..], m).value;
      WrapHolds(ts[0], inner);
      var w := Wrap(ts[0], inner).value;
      UnwrapOnce(ts[0], w, inner);
      var read := PayloadOf(w).value.inner;
      DictDeterminesUnwrapping(|ts| - 1, inner, read);
    }
  }

  lemma SameDictSameParts(a: HiveMsg, b: HiveMsg)
    requires AsDict(a).Some? && AsDict(a) == AsDict(b)
    requires a.stored.Value? && a.stored.json.Obj? && b.stored.Value? && b.stored.json.Obj?
    ensures a.msgType == b.msgType && a.stored == b.stored
  {
    TypeNamesKnown(a.msgType);
    TypeNamesKnown(b.msgType);
    hide TypeName, TypeOf, Route, JsonText.Loads;
    assert AsDict(a).value.fields[0] == AsDict(b).value.fields[0];
    assert AsDict(a).value.fields[1] == AsDict(b).value.fields[1];
  }

  /** Messages with the same dictionary form unwrap to messages with the same dictionary form. */
  lemma DictDeterminesUnwrapping(n: nat, a: HiveMsg, b: HiveMsg)
    requires Made(b) && AsDict(a).Some? && AsDict(a) == AsDict(b) && b.stored.Value? && b.stored.json.Obj?
    requires UnwrapTimes(n, a).Some? && Made(UnwrapTimes(n, a).value)
    ensures var x, y := UnwrapTimes(n, a), UnwrapTimes(n, b);
            y.Some? && Made(y.value) && AsDict(x.value) == AsDict(y.value)
  {
    if n > 0 {
      assert a.stored.Value? && a.stored.json.Obj?;
      SameDictSameParts(a, b);
      PayloadByParts(a, b);
      hide AsDict, PayloadOf, Made;
    }
  }

  lemma PayloadByParts(a: HiveMsg, b: HiveMsg)
    requires a.msgType == b.msgType && a.stored == b.stored
    ensures PayloadOf(a) == PayloadOf(b)
  {
  }
}
