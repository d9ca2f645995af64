/** PING floods: a satellite answers an id it has not seen, and a hive of satellites falls silent. */
module Flood {
  import opened Sequences
  import opened Wrappers
  import opened Json
  import opened FloodCache
  import HiveMap

  const MAX_FLOOD_IDS := 1000

  /** The id in a PING payload, empty when it is missing or the payload is no dictionary. */
  function FloodId(payload: Json): string {
    if payload.Obj? && Get(payload.fields, "flood_id").Str? then Get(payload.fields, "flood_id").s else ""
  }

  /** A PING's id is what its dictionary has under flood_id; the empty id is never answered. */
  lemma FloodIdIsRead(fields: seq<Field>, id: string)
    requires Distinct(fields) && id != ""
    ensures FloodId(Obj(fields)) == id <==> Field("flood_id", Str(id)) in fields
  {
    GetMeans(fields, "flood_id");
    hide Get;
  }

  /** Ids a satellite answers and its cache afterwards. */
  function Answers(cache: seq<string>, id: string): seq<string> {
    if Seen(cache, id, MAX_FLOOD_IDS) == Some(true) then [] else [id]
  }

  class Satellite {
    var hiveMapper: HiveMap.HiveMapper?
    /** Flood ids of the responsive PINGs sent upstream, oldest first. */
    var sent: seq<string>

    function Cache(): seq<string>
      reads this, hiveMapper
    {
      if hiveMapper == null then [] else hiveMapper.seenFloodIds
    }

    constructor ()
      ensures Cache() == [] && sent == []
    {
      hiveMapper, sent := null, [];
    }

    /** The mapper is made when the first PING arrives. */
    method HandlePing(payload: Json)
      modifies this, hiveMapper
      ensures Cache() == Checked(old(Cache()), FloodId(payload), MAX_FLOOD_IDS)
      ensures sent == old(sent) + Answers(old(Cache()), FloodId(payload))
      ensures hiveMapper == old(hiveMapper) || (old(hiveMapper) == null && fresh(hiveMapper))
    {
      if hiveMapper == null { hiveMapper := new HiveMap.HiveMapper(); }
      var seen := hiveMapper.CheckFloodId(FloodId(payload), MAX_FLOOD_IDS);
      if seen == Some(true) { return; }
      sent := sent + [FloodId(payload)];
    }
  }

  // ---------------------------------------------------------------- a hive

  /**
   The caches of a hive's satellites, the deliveries the network still owes (ids with multiplicity), and
   the answers given so far as (satellite, id).
   */
  datatype Hive = Hive(caches: seq<seq<string>>, owed: multiset<string>, answers: seq<(nat, string)>)

  /** One PING reaches one satellite. */
  datatype Delivery = Delivery(to: nat, id: string)

  predicate Possible(h: Hive, d: Delivery) { d.to < |h.caches| && d.id in h.owed }

  /** A delivery is used up; an answer is a new PING the network delivers up to fanout times. */
  function Deliver(h: Hive, d: Delivery, fanout: nat): Hive
    requires Possible(h, d)
  {
    var cache := h.caches[d.to];
    var answered := Answers(cache, d.id) != [];
    Hive(h.caches[d.to := Checked(cache, d.id, MAX_FLOOD_IDS)],
         h.owed[d.id := h.owed[d.id] - 1 + (if answered then fanout else 0)],
         if answered then h.answers + [(d.to, d.id)] else h.answers)
  }

  /** Deliveries in any order the network likes. */
  predicate IsRun(h: Hive, run: seq<Delivery>, fanout: nat)
    decreases run
  {
    run == [] || (Possible(h, run[0]) && IsRun(Deliver(h, run[0], fanout), run[1..], fanout))
  }

  function After(h: Hive, run: seq<Delivery>, fanout: nat): Hive
    requires IsRun(h, run, fanout)
    decreases run
  {
    if run == [] then h else After(Deliver(h, run[0], fanout), run[1..], fanout)
  }

  function TotalCached(caches: seq<seq<string>>): nat {
    if caches == [] then 0 else TotalCached(caches[..|caches| - 1]) + |caches[|caches| - 1]|
  }

  /** Caches hold distinct ids, all from the circulating ones. */
  predicate CachesFit(h: Hive, ids: set<string>) {
    && (forall n | 0 <= n < |h.caches| :: NoRepeats(h.caches[n]) && forall id | id in h.caches[n] :: id in ids)
    && (forall id | id in h.owed :: id in ids)
  }

  /** Nothing has been forgotten: each answered id is cached where it was answered, and nothing else is. */
  predicate Remembers(h: Hive) {
    && NoRepeats(h.answers)
    && (forall i | 0 <= i < |h.answers| :: h.answers[i].0 < |h.caches| && h.answers[i].1 in h.caches[h.answers[i].0])
    && TotalCached(h.caches) == |h.answers|
  }

  /** Deliveries owed, less those that answers added. */
  function Debt(h: Hive, fanout: nat): int { |h.owed| - fanout * |h.answers| }

  lemma {:induction false} TotalCachedGrows(caches: seq<seq<string>>, n: nat, cache: seq<string>)
    requires n < |caches|
    ensures TotalCached(caches[n := cache]) == TotalCached(caches) - |caches[n]| + |cache|
  {
    var last := |caches| - 1;
    if n == last {
      assert caches[n := cache][..last] == caches[..last];
    } else {
      TotalCachedGrows(caches[..last], n, cache);
      assert caches[n := cache][..last] == caches[..last][n := cache];
    }
  }

  lemma {:induction false} TotalCachedBound(caches: seq<seq<string>>, most: nat)
    requires forall n | 0 <= n < |caches| :: |caches[n]| <= most
    ensures TotalCached(caches) <= |caches| * most
  {
    if caches != [] {
      TotalCachedBound(caches[..|caches| - 1], most);
      assert |caches| * most == (|caches| - 1) * most + most;
    }
  }

  /** With at most as many ids as a cache holds, a new id is cached without evicting another. */
  lemma CacheHasRoom(cache: seq<string>, id: string, ids: set<string>)
    requires NoRepeats(cache) && (forall x | x in cache :: x in ids)
    requires |ids| <= MAX_FLOOD_IDS && id in ids && id != ""
    ensures Checked(cache, id, MAX_FLOOD_IDS) == if id in cache then cache else cache + [id]
  {
    if id !in cache { DistinctFit(cache, ids - {id}); }
  }

  /** What a delivery does while there is room: nothing, or one more cached id and one more answer. */
  lemma DeliverCases(h: Hive, d: Delivery, fanout: nat, ids: set<string>)
    requires CachesFit(h, ids) && Possible(h, d) && |ids| <= MAX_FLOOD_IDS
    ensures var h' := Deliver(h, d, fanout);
            var cache := h.caches[d.to];
            if d.id == "" || d.id in cache then h'.caches == h.caches && h'.answers == h.answers
            else h'.caches == h.caches[d.to := cache + [d.id]] && h'.answers == h.answers + [(d.to, d.id)]
    ensures Debt(Deliver(h, d, fanout), fanout) == Debt(h, fanout) - 1
    ensures CachesFit(Deliver(h, d, fanout), ids)
  {
    var cache := h.caches[d.to];
    if d.id == "" || d.id in cache {
      assert h.caches[d.to := cache] == h.caches;
    } else {
      CacheHasRoom(cache, d.id, ids);
      assert fanout * (|h.answers| + 1) == fanout * |h.answers| + fanout;
    }
  }

  lemma DeliverRemembers(h: Hive, d: Delivery, fanout: nat, ids: set<string>)
    requires CachesFit(h, ids) && Remembers(h) && Possible(h, d) && |ids| <= MAX_FLOOD_IDS
    ensures Remembers(Deliver(h, d, fanout))
  {
    DeliverCases(h, d, fanout, ids);
    hide Checked, Answers, Deliver, TotalCached, CachesFit;
    var h' := Deliver(h, d, fanout);
    var cache := h.caches[d.to];
    if d.id != "" && d.id !in cache {
      TotalCachedGrows(h.caches, d.to, cache + [d.id]);
      forall i | 0 <= i < |h'.answers|
        ensures h'.answers[i].0 < |h'.caches| && h'.answers[i].1 in h'.caches[h'.answers[i].0]
      {
        if i == |h.answers| { assert (cache + [d.id])[|cache|] == d.id; }
      }
    }
  }

  lemma {:induction false} RunRemembers(h: Hive, run: seq<Delivery>, fanout: nat, ids: set<string>)
    requires CachesFit(h, ids) && Remembers(h) && IsRun(h, run, fanout) && |ids| <= MAX_FLOOD_IDS
    ensures CachesFit(After(h, run, fanout), ids) && Remembers(After(h, run, fanout))
    ensures |After(h, run, fanout).caches| == |h.caches|
    ensures Debt(After(h, run, fanout), fanout) == Debt(h, fanout) - |run|
    decreases run
  {
    if run != [] {
      var h' := Deliver(h, run[0], fanout);
      DeliverCases(h, run[0], fanout, ids);
      DeliverRemembers(h, run[0], fanout, ids);
      hide Deliver, Remembers, CachesFit, Debt;
      RunRemembers(h', run[1..], fanout, ids);
    }
  }

  /**
   A flood ends. Start any number of satellites with empty caches and any PINGs for at most 1000 distinct
   ids: however the network orders and repeats deliveries, no satellite answers an id twice, there are at
   most satellites times ids answers, and no run is longer than the PINGs owed at first plus fanout for
   each answer.
   */
  lemma FloodEnds(satellites: nat, owed: multiset<string>, ids: set<string>, run: seq<Delivery>, fanout: nat)
    requires |ids| <= 1000 && forall id | id in owed :: id in ids
    requires IsRun(Hive(seq(satellites, n => []), owed, []), run, fanout)
    ensures var h := After(Hive(seq(satellites, n => []), owed, []), run, fanout);
            && NoRepeats(h.answers)
            && |h.answers| <= satellites * |ids|
            && |run| <= |owed| + fanout * (satellites * |ids|)
  {
    var h0 := Hive(seq(satellites, n => []), owed, []);
    TotalCachedBound(h0.caches, 0);
    RunRemembers(h0, run, fanout, ids);
    var h := After(h0, run, fanout);
    forall n | 0 <= n < |h.caches| ensures |h.caches[n]| <= |ids| { DistinctFit(h.caches[n], ids); }
    TotalCachedBound(h.caches, |ids|);
    MulMonotone(fanout, |h.answers|, satellites * |ids|);
  }

  lemma MulMonotone(k: nat, a: nat, b: nat)
    requires a <= b
    ensures k * a <= k * b
  {
  }

  // ---------------------------------------------------------------- one id too many

  /** Ids in the order in which a satellite sees them over and over; its full cache holds all but the next. */
  predicate Turning(h: Hive, ring: seq<string>) {
    && |ring| == MAX_FLOOD_IDS + 1 && NoRepeats(ring) && "" !in ring
    && |h.caches| >= 1 && h.caches[0] == ring[1..] && forall i | 0 <= i < |ring| :: ring[i] in h.owed
  }

  lemma TurnOnce(h: Hive, ring: seq<string>, fanout: nat)
    requires Turning(h, ring) && fanout >= 1
    ensures Possible(h, Delivery(0, ring[0]))
            && Turning(Deliver(h, Delivery(0, ring[0]), fanout), ring[1..] + [ring[0]])
  {
    var next := ring[1..] + [ring[0]];
    FullCacheForgetsFirst(ring[1..], ring[0], MAX_FLOOD_IDS);
    assert next[1..] == ring[1..][1..] + [ring[0]];
    forall i | 0 <= i < |next| ensures next[i] in ring {
      assert next[i] == if i < |ring| - 1 then ring[i + 1] else ring[0];
    }
    forall i, j | 0 <= i < j < |next| ensures next[i] != next[j] {
      assert next[i] == ring[i + 1] && next[j] == if j < |ring| - 1 then ring[j + 1] else ring[0];
    }
  }

  lemma {:induction false} TurnsForever(h: Hive, ring: seq<string>, fanout: nat, n: nat) returns (run: seq<Delivery>)
    requires Turning(h, ring) && fanout >= 1
    ensures IsRun(h, run, fanout) && |run| == n
    decreases n
  {
    run := [];
    if n > 0 {
      var d := Delivery(0, ring[0]);
      TurnOnce(h, ring, fanout);
      hide Turning, Deliver;
      var rest := TurnsForever(Deliver(h, d, fanout), ring[1..] + [ring[0]], fanout, n - 1);
      run := [d] + rest;
      assert run[1..] == rest;
    }
  }

  /** The satellite has seen the first k ids. */
  predicate Filling(h: Hive, ring: seq<string>, k: nat) {
    && |ring| == MAX_FLOOD_IDS + 1 && NoRepeats(ring) && "" !in ring && k <= MAX_FLOOD_IDS
    && |h.caches| >= 1 && h.caches[0] == ring[..k] && forall i | 0 <= i < |ring| :: ring[i] in h.owed
  }

  lemma FillOnce(h: Hive, ring: seq<string>, fanout: nat, k: nat)
    requires Filling(h, ring, k) && k < MAX_FLOOD_IDS && fanout >= 1
    ensures Possible(h, Delivery(0, ring[k])) && Filling(Deliver(h, Delivery(0, ring[k]), fanout), ring, k + 1)
  {
    assert ring[k] !in ring[..k];
    assert ring[..k + 1] == ring[..k] + [ring[k]];
  }

  lemma FullTurns(h: Hive, ring: seq<string>)
    requires Filling(h, ring, MAX_FLOOD_IDS)
    ensures Turning(h, [ring[MAX_FLOOD_IDS]] + ring[..MAX_FLOOD_IDS])
  {
    var turned := [ring[MAX_FLOOD_IDS]] + ring[..MAX_FLOOD_IDS];
    assert turned[1..] == ring[..MAX_FLOOD_IDS];
    forall i | 0 <= i < |turned| ensures turned[i] in ring {
      assert turned[i] == if i == 0 then ring[MAX_FLOOD_IDS] else ring[i - 1];
    }
  }

  lemma {:induction false} FillsAndTurns(h: Hive, ring: seq<string>, fanout: nat, k: nat, n: nat)
    returns (run: seq<Delivery>)
    requires Filling(h, ring, k) && fanout >= 1
    ensures IsRun(h, run, fanout) && |run| == n
    decreases n
  {
    run := [];
    if k == MAX_FLOOD_IDS {
      FullTurns(h, ring);
      run := TurnsForever(h, [ring[k]] + ring[..k], fanout, n);
    } else if n > 0 {
      var d := Delivery(0, ring[k]);
      FillOnce(h, ring, fanout, k);
      hide Filling, Deliver;
      var rest := FillsAndTurns(Deliver(h, d, fanout), ring, fanout, k + 1, n - 1);
      run := [d] + rest;
      assert run[1..] == rest;
    }
  }

  /** The bound of 1000 ids is exact: with 1001 a hive of satellites with empty caches has runs of every length. */
  lemma OneIdTooManyFloods(satellites: nat, ring: seq<string>, fanout: nat, n: nat)
    requires satellites >= 1 && fanout >= 1
    requires |ring| == 1001 && NoRepeats(ring) && "" !in ring
    ensures exists run :: IsRun(Hive(seq(satellites, k => []), multiset(ring), []), run, fanout) && |run| == n
  {
    var h := Hive(seq(satellites, k => []), multiset(ring), []);
    assert ring[..0] == [];
    var run := FillsAndTurns(h, ring, fanout, 0, n);
  }
}
