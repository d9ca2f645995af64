/** The bounded cache of flood ids, oldest first, and the sliding window it stands for. */
module FloodCache {
  import opened Sequences
  import opened Wrappers

  /** Drops the oldest ids until one more fits. */
  function Evict(cache: seq<string>, maxSize: nat): seq<string>
    requires maxSize >= 1
  {
    if |cache| < maxSize then cache else cache[|cache| - maxSize + 1..]
  }

  /** The cache after a call; with no room for even one id the eviction loop empties the cache and raises. */
  function Checked(cache: seq<string>, id: string, maxSize: int): seq<string> {
    if id == "" || id in cache then cache
    else if maxSize < 1 then []
    else Evict(cache, maxSize) + [id]
  }

  /** What a call returns; None is the KeyError of evicting from an empty cache. */
  function Seen(cache: seq<string>, id: string, maxSize: int): Option<bool> {
    if id == "" || id in cache then Some(true)
    else if maxSize < 1 then None
    else Some(false)
  }

  // ---------------------------------------------------------------- the window

  /** The last n elements, or all of them. */
  function Window(accepted: seq<string>, n: nat): seq<string> {
    if |accepted| <= n then accepted else accepted[|accepted| - n..]
  }

  /** Ids freshly accepted by a run of calls on an empty cache, in order: the reference definition. */
  function Accepted(ids: seq<string>, maxSize: nat): seq<string> {
    if ids == [] then []
    else
      var before := Accepted(ids[..|ids| - 1], maxSize);
      var id := ids[|ids| - 1];
      if id == "" || id in Window(before, maxSize) then before else before + [id]
  }

  /** The cache after a run of calls on an empty cache. */
  function CacheAfter(ids: seq<string>, maxSize: nat): seq<string> {
    if ids == [] then [] else Checked(CacheAfter(ids[..|ids| - 1], maxSize), ids[|ids| - 1], maxSize)
  }

  /** After any run of calls the cache holds exactly the last maxSize accepted ids, in order. */
  lemma {:induction false} CacheIsWindow(ids: seq<string>, maxSize: nat)
    requires maxSize >= 1
    ensures CacheAfter(ids, maxSize) == Window(Accepted(ids, maxSize), maxSize)
  {
    if ids != [] {
      CacheIsWindow(ids[..|ids| - 1], maxSize);
      WindowSlides(Accepted(ids[..|ids| - 1], maxSize), ids[|ids| - 1], maxSize);
    }
  }

  lemma WindowSlides(accepted: seq<string>, id: string, maxSize: nat)
    requires maxSize >= 1
    ensures Evict(Window(accepted, maxSize), maxSize) + [id] == Window(accepted + [id], maxSize)
  {
  }

  /** A call reports an id as seen exactly when it is empty or in the window, and never fails. */
  lemma SeenMeansInWindow(ids: seq<string>, id: string, maxSize: nat)
    requires maxSize >= 1
    ensures Seen(CacheAfter(ids, maxSize), id, maxSize)
         == Some(id == "" || id in Window(Accepted(ids, maxSize), maxSize))
  {
    CacheIsWindow(ids, maxSize);
  }

  /** An id is accepted again only after at least maxSize other acceptances. */
  lemma {:induction false} AcceptancesAreSpaced(ids: seq<string>, maxSize: nat, i: nat, j: nat)
    requires maxSize >= 1
    requires i < j < |Accepted(ids, maxSize)| && Accepted(ids, maxSize)[i] == Accepted(ids, maxSize)[j]
    ensures j - i - 1 >= maxSize
  {
    var before := Accepted(ids[..|ids| - 1], maxSize);
    if j < |before| {
      AcceptancesAreSpaced(ids[..|ids| - 1], maxSize, i, j);
    } else if i + maxSize >= |before| {
      RecentIsInWindow(before, maxSize, i);
    }
  }

  lemma RecentIsInWindow(accepted: seq<string>, n: nat, i: nat)
    requires i < |accepted| <= i + n
    ensures accepted[i] in Window(accepted, n)
  {
    var w := Window(accepted, n);
    assert w[i - (|accepted| - |w|)] == accepted[i];
  }

  /** While no more distinct ids circulate than the cache holds, no id is accepted twice. */
  lemma {:induction false} FewIdsAcceptedOnce(ids: seq<string>, maxSize: nat, universe: set<string>)
    requires maxSize >= 1 && |universe| <= maxSize
    requires forall id | id in ids :: id in universe
    ensures forall i, j | 0 <= i < j < |Accepted(ids, maxSize)| ::
              Accepted(ids, maxSize)[i] != Accepted(ids, maxSize)[j]
    ensures forall id | id in Accepted(ids, maxSize) :: id in universe
    ensures |Accepted(ids, maxSize)| <= |universe|
  {
    if ids != [] {
      var before := Accepted(ids[..|ids| - 1], maxSize);
      FewIdsAcceptedOnce(ids[..|ids| - 1], maxSize, universe);
      DistinctFit(Accepted(ids, maxSize), universe);
    }
  }

  lemma {:induction false} DistinctAllAccepted(ids: seq<string>, maxSize: nat)
    requires NoRepeats(ids) && "" !in ids
    ensures Accepted(ids, maxSize) == ids
  {
    if ids != [] {
      var before, last := ids[..|ids| - 1], ids[|ids| - 1];
      DistinctAllAccepted(before, maxSize);
      assert last !in before;
      assert before + [last] == ids;
    }
  }

  /** The bound is exact: with one id more than the cache holds, the first is forgotten and accepted again. */
  lemma OneIdTooMany(ids: seq<string>, maxSize: nat)
    requires maxSize >= 1 && |ids| == maxSize + 1 && NoRepeats(ids) && "" !in ids
    ensures Accepted(ids + [ids[0]], maxSize) == ids + [ids[0]]
  {
    DistinctAllAccepted(ids, maxSize);
    assert (ids + [ids[0]])[..|ids|] == ids;
    assert Window(ids, maxSize) == ids[1..];
  }

  /** A full cache takes a new id and forgets its oldest. */
  lemma FullCacheForgetsFirst(cache: seq<string>, id: string, maxSize: nat)
    requires |cache| == maxSize >= 1 && id != "" && id !in cache
    ensures Checked(cache, id, maxSize) == cache[1..] + [id] && Seen(cache, id, maxSize) == Some(false)
  {
  }
}
