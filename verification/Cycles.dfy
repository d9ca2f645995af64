/** When the recursion over a graph ends: exactly when no cycle can be reached from where it starts. */
module Cycles {
  import opened Sequences
  import opened TreeView

  predicate WalkFrom(children: Children, peer: string, w: seq<string>) { IsWalk(children, w) && w[0] == peer }

  /** No walk from the peer comes to a peer twice. */
  ghost predicate LoopFree(children: Children, peer: string) {
    forall w | WalkFrom(children, peer, w) :: NoRepeats(w)
  }

  /** The recursion from the peer nests at most depth calls. */
  predicate EndsWithin(children: Children, peer: string, depth: nat)
    decreases depth
  {
    depth > 0 && forall i | 0 <= i < |Kids(children, peer)| :: EndsWithin(children, Kids(children, peer)[i], depth - 1)
  }

  /** Walks from the peer have at most n peers. */
  ghost predicate Bounded(children: Children, peer: string, n: nat) {
    forall w | WalkFrom(children, peer, w) :: |w| <= n
  }

  lemma WalkOn(children: Children, v: seq<string>, w: seq<string>)
    requires IsWalk(children, v) && IsWalk(children, w) && w[0] in Kids(children, v[|v| - 1])
    ensures IsWalk(children, v + w)
  {
    var x := v + w;
    forall i | 0 < i < |x| ensures x[i] in Kids(children, x[i - 1]) {
      if i > |v| { assert x[i] == w[i - |v|] && x[i - 1] == w[i - |v| - 1]; }
    }
  }

  lemma WalkPart(children: Children, w: seq<string>, i: nat, j: nat)
    requires IsWalk(children, w) && i < j <= |w|
    ensures IsWalk(children, w[i..j])
  {
    var x := w[i..j];
    forall k | 0 < k < |x| ensures x[k] in Kids(children, x[k - 1]) {
      assert x[k] == w[i + k] && x[k - 1] == w[i + k - 1];
    }
  }

  lemma KidsBounded(children: Children, peer: string, n: nat)
    ensures Bounded(children, peer, n + 1) <==>
            forall i | 0 <= i < |Kids(children, peer)| :: Bounded(children, Kids(children, peer)[i], n)
  {
    var kids := Kids(children, peer);
    if Bounded(children, peer, n + 1) {
      forall i, w | 0 <= i < |kids| && WalkFrom(children, kids[i], w) ensures |w| <= n {
        assert IsWalk(children, [peer]);
        WalkOn(children, [peer], w);
        assert WalkFrom(children, peer, [peer] + w);
      }
    }
    if forall i | 0 <= i < |kids| :: Bounded(children, kids[i], n) {
      forall w | WalkFrom(children, peer, w) ensures |w| <= n + 1 {
        if |w| > 1 {
          assert w[1] in kids;
          var i :| 0 <= i < |kids| && kids[i] == w[1];
          WalkPart(children, w, 1, |w|);
          assert WalkFrom(children, kids[i], w[1..|w|]);
        }
      }
    }
  }

  /** Nested calls are walks. */
  lemma {:induction false} DepthIsWalkLength(children: Children, peer: string, depth: nat)
    ensures EndsWithin(children, peer, depth) <==> Bounded(children, peer, depth)
    decreases depth
  {
    assert WalkFrom(children, peer, [peer]);
    hide WalkFrom, Kids;
    if depth > 0 {
      KidsBounded(children, peer, depth - 1);
      var kids := Kids(children, peer);
      forall i | 0 <= i < |kids|
        ensures EndsWithin(children, kids[i], depth - 1) <==> Bounded(children, kids[i], depth - 1)
      {
        DepthIsWalkLength(children, kids[i], depth - 1);
      }
    }
  }

  // ---------------------------------------------------------------- a cycle

  /** Around a cycle walks get as long as one likes. */
  lemma {:induction false} Pump(children: Children, v: seq<string>, i: nat, j: nat, n: nat) returns (w: seq<string>)
    requires IsWalk(children, v) && i < j < |v| && v[i] == v[j]
    ensures IsWalk(children, w) && w[0] == v[0] && |w| >= n && w[|w| - 1] == v[i]
    decreases n
  {
    if n <= i + 1 {
      w := v[..i + 1];
      WalkPart(children, v, 0, i + 1);
    } else {
      var u := Pump(children, v, i, j, n - 1);
      WalkPart(children, v, i + 1, j + 1);
      var round := v[i + 1..j + 1];
      assert round[0] == v[i + 1] && round[|round| - 1] == v[j];
      WalkOn(children, u, round);
      w := u + round;
    }
  }

  /** With a cycle in reach there are walks of every length. */
  lemma CycleHasWalks(children: Children, peer: string, n: nat) returns (w: seq<string>)
    requires !LoopFree(children, peer)
    ensures WalkFrom(children, peer, w) && |w| == n + 1
  {
    var v :| WalkFrom(children, peer, v) && !NoRepeats(v);
    var i, j :| 0 <= i < j < |v| && v[i] == v[j];
    var u := Pump(children, v, i, j, n + 1);
    WalkPart(children, u, 0, n + 1);
    w := u[..n + 1];
    assert u[0..n + 1] == w;
  }

  // ---------------------------------------------------------------- no cycle

  /** Every peer some other one has for a child. */
  function AllKids(children: Children): set<string> { set p, kid | p in children && kid in children[p] :: kid }

  lemma LoopFreeBounded(children: Children, peer: string)
    requires LoopFree(children, peer)
    ensures Bounded(children, peer, |AllKids(children)| + 1)
  {
    forall w | WalkFrom(children, peer, w) ensures |w| <= |AllKids(children)| + 1 {
      forall x | x in w ensures x in AllKids(children) + {peer} {
        var i :| 0 <= i < |w| && w[i] == x;
        if i > 0 { assert w[i] in Kids(children, w[i - 1]); }
      }
      DistinctFit(w, AllKids(children) + {peer});
    }
  }

  /** The length of a longest walk from the peer. */
  ghost predicate IsHeight(children: Children, peer: string, h: nat) {
    Bounded(children, peer, h) && exists w :: WalkFrom(children, peer, w) && |w| == h
  }

  lemma {:induction false} HeightExists(children: Children, peer: string, n: nat)
    requires Bounded(children, peer, n)
    ensures exists h :: IsHeight(children, peer, h)
    decreases n
  {
    assert WalkFrom(children, peer, [peer]);
    if w :| WalkFrom(children, peer, w) && |w| == n {
      assert IsHeight(children, peer, n);
    } else {
      assert Bounded(children, peer, n - 1);
      HeightExists(children, peer, n - 1);
    }
  }

  lemma LoopFreeHasHeight(children: Children, peer: string)
    requires LoopFree(children, peer)
    ensures exists h :: IsHeight(children, peer, h)
  {
    LoopFreeBounded(children, peer);
    HeightExists(children, peer, |AllKids(children)| + 1);
  }

  ghost function Height(children: Children, peer: string): (h: nat)
    requires LoopFree(children, peer)
    ensures IsHeight(children, peer, h)
  {
    LoopFreeHasHeight(children, peer);
    var h :| IsHeight(children, peer, h);
    h
  }

  lemma KidWalk(children: Children, peer: string, kid: string, w: seq<string>)
    requires LoopFree(children, peer) && kid in Kids(children, peer) && WalkFrom(children, kid, w)
    ensures NoRepeats(w) && |w| < Height(children, peer)
  {
    WalkOn(children, [peer], w);
    var x := [peer] + w;
    assert x[0] == peer && NoRepeats(x);
    forall i, j | 0 <= i < j < |w| ensures w[i] != w[j] { assert w[i] == x[i + 1] && w[j] == x[j + 1]; }
    assert IsHeight(children, peer, Height(children, peer));
    hide IsWalk, NoRepeats, Kids;
  }

  lemma KidsLoopFree(children: Children, peer: string, kid: string)
    requires LoopFree(children, peer) && kid in Kids(children, peer)
    ensures LoopFree(children, kid) && Height(children, kid) < Height(children, peer)
  {
    hide WalkFrom, NoRepeats, Kids;
    forall w | WalkFrom(children, kid, w) ensures NoRepeats(w) { KidWalk(children, peer, kid, w); }
    assert IsHeight(children, kid, Height(children, kid));
    var w :| WalkFrom(children, kid, w) && |w| == Height(children, kid);
    KidWalk(children, peer, kid, w);
  }

  lemma KidListed(children: Children, peer: string, kid: string)
    requires kid in Kids(children, peer)
    ensures kid in AllKids(children)
  {
  }

  /** Ranks for all peers from which no cycle can be reached. */
  lemma RankLoopFree(children: Children, peers: set<string>) returns (rank: map<string, nat>)
    requires forall p | p in peers :: LoopFree(children, p)
    ensures Ranked(children, rank) && forall p | p in peers :: p in rank
  {
    hide LoopFree, AllKids, Kids;
    rank := map p | p in AllKids(children) + peers && LoopFree(children, p) :: Height(children, p);
    forall p, kid | p in rank && kid in Kids(children, p) ensures kid in rank && rank[kid] < rank[p] {
      KidsLoopFree(children, p, kid);
      KidListed(children, p, kid);
    }
  }

  lemma {:induction false} RankFalls(children: Children, rank: map<string, nat>, w: seq<string>, i: nat, j: nat)
    requires Ranked(children, rank) && IsWalk(children, w) && w[0] in rank && i <= j < |w|
    ensures w[i] in rank && w[j] in rank && (i < j ==> rank[w[j]] < rank[w[i]])
    decreases j
  {
    if j > 0 {
      RankFalls(children, rank, w, if i < j then i else j - 1, j - 1);
      assert w[j] in Kids(children, w[j - 1]);
    }
  }

  /** A peer can be ranked exactly when no cycle can be reached from it. */
  lemma RankedWhenLoopFree(children: Children, peer: string)
    ensures LoopFree(children, peer) <==> exists rank :: Ranked(children, rank) && peer in rank
  {
    if LoopFree(children, peer) { var rank := RankLoopFree(children, {peer}); }
    if rank :| Ranked(children, rank) && peer in rank {
      forall w | WalkFrom(children, peer, w) ensures NoRepeats(w) {
        forall i, j | 0 <= i < j < |w| ensures w[i] != w[j] { RankFalls(children, rank, w, i, j); }
      }
    }
  }

  /** The recursion from a peer ends, at some depth, exactly when no cycle can be reached from it. */
  lemma EndsWhenLoopFree(children: Children, peer: string)
    ensures (exists depth :: EndsWithin(children, peer, depth)) <==> LoopFree(children, peer)
  {
    if LoopFree(children, peer) {
      LoopFreeBounded(children, peer);
      DepthIsWalkLength(children, peer, |AllKids(children)| + 1);
    } else if depth :| EndsWithin(children, peer, depth) {
      DepthIsWalkLength(children, peer, depth);
      var w := CycleHasWalks(children, peer, depth);
      assert false;
    }
  }
}
