/** Rendering a graph of peers as a tree: one line per walk from the root. */
module TreeView {
  import opened Sequences

  /** Ordered children of each peer. */
  type Children = map<string, seq<string>>

  function Kids(children: Children, peer: string): seq<string> {
    if peer in children then children[peer] else []
  }

  function Rank(rank: map<string, nat>, peer: string): nat {
    if peer in rank then rank[peer] else 0
  }

  /** Peers with a rank have children of lower rank only: none of them is below itself. */
  predicate Ranked(children: Children, rank: map<string, nat>) {
    forall p, kid | p in rank && kid in Kids(children, p) :: kid in rank && rank[kid] < rank[p]
  }

  predicate DistinctKids(children: Children) {
    forall p | p in children :: NoRepeats(children[p])
  }

  function Connector(isLast: bool): string {
    if isLast then "\U{2514}\U{2500}\U{2500} " else "\U{251C}\U{2500}\U{2500} "
  }

  function Bar(isLast: bool): string {
    if isLast then "    " else "\U{2502}   "
  }

  // ---------------------------------------------------------------- what the recursion writes

  /** The lines of one peer and everything below it. */
  function Lines(children: Children, labels: map<string, string>, peer: string, prefix: string, isLast: bool,
                 rank: map<string, nat>): seq<string>
    requires Ranked(children, rank) && peer in rank
    decreases Rank(rank, peer), 1, 0
  {
    [prefix + Connector(isLast) + Label(labels, peer)]
    + KidLines(children, labels, peer, 0, prefix + Bar(isLast), rank)
  }

  function KidLines(children: Children, labels: map<string, string>, peer: string, from: nat, prefix: string,
                    rank: map<string, nat>): seq<string>
    requires Ranked(children, rank) && peer in rank
    decreases Rank(rank, peer), 0, |Kids(children, peer)| - from
  {
    var kids := Kids(children, peer);
    if from >= |kids| then []
    else Lines(children, labels, kids[from], prefix, from == |kids| - 1, rank)
         + KidLines(children, labels, peer, from + 1, prefix, rank)
  }

  /** A peer with its site and latency; a peer without any is just its name. */
  function Label(labels: map<string, string>, peer: string): string {
    if peer in labels then labels[peer] else peer
  }

  /** Appends the peer and everything below it, a child after the other. */
  method Render(children: Children, labels: map<string, string>, peer: string, prefix: string, isLast: bool,
                lines: seq<string>, ghost rank: map<string, nat>) returns (out: seq<string>)
    requires Ranked(children, rank) && peer in rank
    ensures out == lines + Lines(children, labels, peer, prefix, isLast, rank)
    decreases Rank(rank, peer), 1
  {
    out := lines + [prefix + Connector(isLast) + Label(labels, peer)];
    var childPrefix := prefix + Bar(isLast);
    out := RenderKids(children, labels, peer, childPrefix, out, rank);
  }

  method RenderKids(children: Children, labels: map<string, string>, peer: string, prefix: string,
                    lines: seq<string>, ghost rank: map<string, nat>) returns (out: seq<string>)
    requires Ranked(children, rank) && peer in rank
    ensures out == lines + KidLines(children, labels, peer, 0, prefix, rank)
    decreases Rank(rank, peer), 0
  {
    hide Lines;
    out := lines;
    var kids := Kids(children, peer);
    for i := 0 to |kids|
      invariant out + KidLines(children, labels, peer, i, prefix, rank)
             == lines + KidLines(children, labels, peer, 0, prefix, rank)
    {
      ghost var done, below := out, Lines(children, labels, kids[i], prefix, i == |kids| - 1, rank);
      ghost var rest := KidLines(children, labels, peer, i + 1, prefix, rank);
      out := Render(children, labels, kids[i], prefix, i == |kids| - 1, out, rank);
      assert done + (below + rest) == out + rest;
    }
  }

  // ---------------------------------------------------------------- walks

  /** Each step goes from a peer to one of its children. */
  predicate IsWalk(children: Children, w: seq<string>) {
    w != [] && forall i | 0 < i < |w| :: w[i] in Kids(children, w[i - 1])
  }

  /** All walks that begin with the given one, in the order a reader meets them. */
  function Walks(children: Children, w: seq<string>, rank: map<string, nat>): seq<seq<string>>
    requires w != [] && Ranked(children, rank) && w[|w| - 1] in rank
    decreases Rank(rank, w[|w| - 1]), 1, 0
  {
    [w] + KidWalks(children, w, 0, rank)
  }

  function KidWalks(children: Children, w: seq<string>, from: nat, rank: map<string, nat>): seq<seq<string>>
    requires w != [] && Ranked(children, rank) && w[|w| - 1] in rank
    decreases Rank(rank, w[|w| - 1]), 0, |Kids(children, w[|w| - 1])| - from
  {
    var kids := Kids(children, w[|w| - 1]);
    if from >= |kids| then []
    else Walks(children, w + [kids[from]], rank) + KidWalks(children, w, from + 1, rank)
  }

  lemma PrefixOfExtension(w: seq<string>, kid: string, x: seq<string>)
    ensures w + [kid] <= x <==> w <= x && |x| > |w| && x[|w|] == kid
  {
    if w <= x && |x| > |w| && x[|w|] == kid { assert x[..|w| + 1] == w + [kid]; }
  }

  /** The list of walks is complete: it holds the walks that begin with w and nothing else. */
  lemma {:induction false} WalksComplete(children: Children, w: seq<string>, rank: map<string, nat>, x: seq<string>)
    requires IsWalk(children, w) && Ranked(children, rank) && w[|w| - 1] in rank
    ensures x in Walks(children, w, rank) <==> w <= x && IsWalk(children, x)
    decreases Rank(rank, w[|w| - 1]), 1, 0
  {
    KidWalksComplete(children, w, 0, rank, x);
    if w <= x && IsWalk(children, x) && x != w {
      assert x[|w|] in Kids(children, x[|w| - 1]) && x[|w| - 1] == w[|w| - 1];
    }
  }

  lemma {:induction false} KidWalksComplete(children: Children, w: seq<string>, from: nat, rank: map<string, nat>,
                                            x: seq<string>)
    requires IsWalk(children, w) && Ranked(children, rank) && w[|w| - 1] in rank && from <= |Kids(children, w[|w| - 1])|
    ensures x in KidWalks(children, w, from, rank) <==>
            w <= x && IsWalk(children, x) && |x| > |w| && x[|w|] in Kids(children, w[|w| - 1])[from..]
    decreases Rank(rank, w[|w| - 1]), 0, |Kids(children, w[|w| - 1])| - from
  {
    var kids := Kids(children, w[|w| - 1]);
    if from < |kids| {
      var w' := w + [kids[from]];
      assert IsWalk(children, w');
      WalksComplete(children, w', rank, x);
      KidWalksComplete(children, w, from + 1, rank, x);
      PrefixOfExtension(w, kids[from], x);
    }
  }

  /** No walk is listed twice. */
  lemma {:induction false} WalksDistinct(children: Children, w: seq<string>, rank: map<string, nat>)
    requires IsWalk(children, w) && Ranked(children, rank) && w[|w| - 1] in rank && DistinctKids(children)
    ensures NoRepeats(Walks(children, w, rank))
    decreases Rank(rank, w[|w| - 1]), 1, 0
  {
    KidWalksDistinct(children, w, 0, rank);
    KidWalksComplete(children, w, 0, rank, w);
    ConcatDistinct([w], KidWalks(children, w, 0, rank));
  }

  lemma {:induction false} KidWalksDistinct(children: Children, w: seq<string>, from: nat, rank: map<string, nat>)
    requires IsWalk(children, w) && Ranked(children, rank) && w[|w| - 1] in rank && DistinctKids(children)
    requires from <= |Kids(children, w[|w| - 1])|
    ensures NoRepeats(KidWalks(children, w, from, rank))
    decreases Rank(rank, w[|w| - 1]), 0, |Kids(children, w[|w| - 1])| - from
  {
    var kids := Kids(children, w[|w| - 1]);
    if from < |kids| {
      var w' := w + [kids[from]];
      assert IsWalk(children, w');
      WalksDistinct(children, w', rank);
      KidWalksDistinct(children, w, from + 1, rank);
      forall x | x in Walks(children, w', rank) ensures x !in KidWalks(children, w, from + 1, rank) {
        WalksComplete(children, w', rank, x);
        KidWalksComplete(children, w, from + 1, rank, x);
        PrefixOfExtension(w, kids[from], x);
      }
      ConcatDistinct(Walks(children, w', rank), KidWalks(children, w, from + 1, rank));
    }
  }

  /** One peer stands before another in a list of children. */
  predicate Earlier(kids: seq<string>, a: string, b: string) {
    exists i, j :: 0 <= i < j < |kids| && kids[i] == a && kids[j] == b
  }

  /** The two walks part at n: the first ends there, or turns to an earlier child. */
  predicate PartsAt(children: Children, v: seq<string>, w: seq<string>, n: nat) {
    && 0 < n <= |v| && n < |w| && v[..n] == w[..n]
    && (n == |v| || Earlier(Kids(children, v[n - 1]), v[n], w[n]))
  }

  /** A reader meets a walk before those that go on from it and before those that turn to a later child. */
  ghost predicate Above(children: Children, v: seq<string>, w: seq<string>) {
    exists n :: PartsAt(children, v, w, n)
  }

  ghost predicate TopDown(children: Children, walks: seq<seq<string>>) {
    forall i, j | 0 <= i < j < |walks| :: Above(children, walks[i], walks[j])
  }

  lemma TopDownConcat(children: Children, a: seq<seq<string>>, b: seq<seq<string>>)
    requires TopDown(children, a) && TopDown(children, b)
    requires forall v, w | v in a && w in b :: Above(children, v, w)
    ensures TopDown(children, a + b)
  {
    hide Above;
    forall i, j | 0 <= i < j < |a + b| ensures Above(children, (a + b)[i], (a + b)[j]) {
      if i < |a| <= j { assert (a + b)[i] in a && (a + b)[j] in b; }
    }
  }

  lemma {:induction false} WalksTopDown(children: Children, w: seq<string>, rank: map<string, nat>)
    requires IsWalk(children, w) && Ranked(children, rank) && w[|w| - 1] in rank
    ensures TopDown(children, Walks(children, w, rank))
    decreases Rank(rank, w[|w| - 1]), 1, 0
  {
    KidWalksTopDown(children, w, 0, rank);
    forall x | x in KidWalks(children, w, 0, rank) ensures Above(children, w, x) {
      KidWalksComplete(children, w, 0, rank, x);
      assert PartsAt(children, w, x, |w|);
    }
    TopDownConcat(children, [w], KidWalks(children, w, 0, rank));
  }

  lemma {:induction false} KidWalksTopDown(children: Children, w: seq<string>, from: nat, rank: map<string, nat>)
    requires IsWalk(children, w) && Ranked(children, rank) && w[|w| - 1] in rank
    requires from <= |Kids(children, w[|w| - 1])|
    ensures TopDown(children, KidWalks(children, w, from, rank))
    decreases Rank(rank, w[|w| - 1]), 0, |Kids(children, w[|w| - 1])| - from
  {
    hide TopDown;
    var kids := Kids(children, w[|w| - 1]);
    if from < |kids| {
      var w' := w + [kids[from]];
      assert IsWalk(children, w');
      WalksTopDown(children, w', rank);
      KidWalksTopDown(children, w, from + 1, rank);
      forall x, y | x in Walks(children, w', rank) && y in KidWalks(children, w, from + 1, rank)
        ensures Above(children, x, y)
      {
        WalksComplete(children, w', rank, x);
        KidWalksComplete(children, w, from + 1, rank, y);
        TurnLater(children, w, from, x, y);
      }
      TopDownConcat(children, Walks(children, w', rank), KidWalks(children, w, from + 1, rank));
    } else {
      NothingTopDown(children);
    }
  }

  lemma NothingTopDown(children: Children)
    ensures TopDown(children, [])
  {
  }

  lemma TurnLater(children: Children, w: seq<string>, from: nat, x: seq<string>, y: seq<string>)
    requires w != [] && from < |Kids(children, w[|w| - 1])|
    requires w + [Kids(children, w[|w| - 1])[from]] <= x
    requires w <= y && |y| > |w| && y[|w|] in Kids(children, w[|w| - 1])[from + 1..]
    ensures Above(children, x, y)
  {
    var kids := Kids(children, w[|w| - 1]);
    var k :| 0 <= k < |kids| - from - 1 && kids[from + 1..][k] == y[|w|];
    assert kids[from] == x[|w|] && kids[from + 1 + k] == y[|w|];
    assert Earlier(kids, x[|w|], y[|w|]);
    assert x[..|w|] == w && y[..|w|] == w && w[|w| - 1] == x[|w| - 1];
    assert PartsAt(children, x, y, |w|);
  }

  lemma ConcatDistinct<T>(a: seq<T>, b: seq<T>)
    requires NoRepeats(a) && NoRepeats(b) && forall x | x in a :: x !in b
    ensures NoRepeats(a + b)
  {
    forall i, j | 0 <= i < j < |a + b| ensures (a + b)[i] != (a + b)[j] {
      if i < |a| <= j { assert (a + b)[i] in a && (a + b)[j] in b; }
    }
  }

  // ---------------------------------------------------------------- lines are walks

  /** Whether the peer is the last child of its parent. */
  predicate IsLastKid(children: Children, parent: string, kid: string) {
    var kids := Kids(children, parent);
    kids != [] && kid == kids[|kids| - 1]
  }

  /** What stands in front of the children of a walk's end: one column for each peer below the root. */
  function Indent(children: Children, w: seq<string>): string {
    if |w| <= 1 then ""
    else Indent(children, w[..|w| - 1]) + Bar(IsLastKid(children, w[|w| - 2], w[|w| - 1]))
  }

  /** The line of a walk that has left the root. */
  function LineOf(children: Children, labels: map<string, string>, w: seq<string>): string
    requires |w| >= 2
  {
    Indent(children, w[..|w| - 1]) + Connector(IsLastKid(children, w[|w| - 2], w[|w| - 1])) + Label(labels, w[|w| - 1])
  }

  lemma ColumnsSpelledOut(isLast: bool)
    ensures |Bar(isLast)| == 4 && Bar(isLast) == if isLast then "    " else "\U{2502}   "
    ensures |Connector(isLast)| == 4
    ensures Connector(isLast) == if isLast then "\U{2514}\U{2500}\U{2500} " else "\U{251C}\U{2500}\U{2500} "
  {
  }

  /** The column of an ancestor, or of the walk's own end. */
  function ColumnOf(children: Children, w: seq<string>, k: nat): string
    requires k + 1 < |w|
  {
    Bar(IsLastKid(children, w[k], w[k + 1]))
  }

  lemma IndentStep(children: Children, w: seq<string>)
    requires |w| >= 2
    ensures Indent(children, w) == Indent(children, w[..|w| - 1]) + ColumnOf(children, w, |w| - 2)
    ensures |ColumnOf(children, w, |w| - 2)| == 4
  {
    ColumnsSpelledOut(IsLastKid(children, w[|w| - 2], w[|w| - 1]));
  }

  lemma ColumnOfPrefix(children: Children, w: seq<string>, k: nat)
    requires k + 2 < |w|
    ensures ColumnOf(children, w[..|w| - 1], k) == ColumnOf(children, w, k)
  {
    hide IsLastKid, Bar;
  }

  lemma {:induction false} IndentReads(children: Children, w: seq<string>, k: nat)
    requires k + 1 < |w|
    ensures |Indent(children, w)| == 4 * (|w| - 1)
    ensures Indent(children, w)[4 * k..4 * k + 4] == ColumnOf(children, w, k)
    decreases |w|
  {
    hide *;
    var n := |w| - 2;
    var init, own := w[..|w| - 1], ColumnOf(children, w, n);
    IndentStep(children, w);
    if n == 0 {
      NoIndent(children, init);
    } else {
      IndentReads(children, init, if k < n then k else 0);
      if k < n {
        ColumnOfPrefix(children, w, k);
        SliceOfFirst(Indent(children, init), own, 4 * k, 4 * k + 4);
      }
    }
  }

  lemma NoIndent(children: Children, w: seq<string>)
    requires |w| == 1
    ensures Indent(children, w) == ""
  {
  }

  lemma SliceOfFirst(a: string, b: string, lo: nat, hi: nat)
    requires lo <= hi <= |a|
    ensures (a + b)[lo..hi] == a[lo..hi]
  {
  }

  /**
   A line by its columns, four characters wide: one for each ancestor below the root, with a bar where that ancestor has
   siblings to come, then the branch, then the label.
   */
  lemma LineReads(children: Children, labels: map<string, string>, w: seq<string>, k: nat)
    requires k + 2 < |w| || |w| == 2
    ensures var line, n := LineOf(children, labels, w), 4 * (|w| - 2);
            && |line| == n + 4 + |Label(labels, w[|w| - 1])|
            && line[n..n + 4] == (if IsLastKid(children, w[|w| - 2], w[|w| - 1]) then "\U{2514}\U{2500}\U{2500} "
                                  else "\U{251C}\U{2500}\U{2500} ")
            && line[n + 4..] == Label(labels, w[|w| - 1])
            && (|w| > 2 ==>
                  line[4 * k..4 * k + 4] == if IsLastKid(children, w[k], w[k + 1]) then "    " else "\U{2502}   ")
  {
    hide Indent, Connector, Bar, Label, IsLastKid;
    var init := w[..|w| - 1];
    var isLast := IsLastKid(children, w[|w| - 2], w[|w| - 1]);
    var front, branch, name := Indent(children, init), Connector(isLast), Label(labels, w[|w| - 1]);
    ColumnsSpelledOut(isLast);
    if |w| == 2 { NoIndent(children, init); }
    if |w| > 2 { AncestorColumn(children, w, k, branch + name); }
    ThreeParts(front, branch, name);
  }

  lemma ThreeParts(a: string, b: string, c: string)
    ensures a + b + c == a + (b + c) && |a + b + c| == |a| + |b| + |c|
    ensures (a + b + c)[|a|..|a| + |b|] == b && (a + b + c)[|a| + |b|..] == c
  {
  }

  lemma AncestorColumn(children: Children, w: seq<string>, k: nat, rest: string)
    requires k + 2 < |w|
    ensures |Indent(children, w[..|w| - 1])| == 4 * (|w| - 2)
    ensures (Indent(children, w[..|w| - 1]) + rest)[4 * k..4 * k + 4]
         == if IsLastKid(children, w[k], w[k + 1]) then "    " else "\U{2502}   "
  {
    var init := w[..|w| - 1];
    IndentReads(children, init, k);
    SliceOfFirst(Indent(children, init), rest, 4 * k, 4 * k + 4);
    ColumnsSpelledOut(IsLastKid(children, w[k], w[k + 1]));
    hide Indent, Bar, IsLastKid;
  }

  predicate Depicts(children: Children, labels: map<string, string>, lines: seq<string>, walks: seq<seq<string>>) {
    && |lines| == |walks|
    && forall i | 0 <= i < |lines| :: |walks[i]| >= 2 && lines[i] == LineOf(children, labels, walks[i])
  }

  lemma {:induction false} LinesDepictWalks(children: Children, labels: map<string, string>, w: seq<string>,
                                            rank: map<string, nat>)
    requires |w| >= 2 && IsWalk(children, w) && Ranked(children, rank) && w[|w| - 1] in rank && DistinctKids(children)
    ensures Depicts(children, labels,
                    Lines(children, labels, w[|w| - 1], Indent(children, w[..|w| - 1]),
                          IsLastKid(children, w[|w| - 2], w[|w| - 1]), rank),
                    Walks(children, w, rank))
    decreases Rank(rank, w[|w| - 1]), 1, 0
  {
    var isLast := IsLastKid(children, w[|w| - 2], w[|w| - 1]);
    var prefix := Indent(children, w[..|w| - 1]);
    KidLinesDepictWalks(children, labels, w, 0, rank);
    OwnLine(children, labels, w);
    hide IsLastKid, Indent, LineOf, KidLines, KidWalks, IsWalk, DistinctKids, Connector, Bar, Depicts, Ranked;
    DepictsConcat(children, labels, [prefix + Connector(isLast) + Label(labels, w[|w| - 1])], [w],
      KidLines(children, labels, w[|w| - 1], 0, prefix + Bar(isLast), rank), KidWalks(children, w, 0, rank));
  }

  lemma OwnLine(children: Children, labels: map<string, string>, w: seq<string>)
    requires |w| >= 2
    ensures var isLast := IsLastKid(children, w[|w| - 2], w[|w| - 1]);
            var prefix := Indent(children, w[..|w| - 1]);
            && Indent(children, w) == prefix + Bar(isLast)
            && Depicts(children, labels, [prefix + Connector(isLast) + Label(labels, w[|w| - 1])], [w])
  {
    hide IsLastKid, Connector, Bar, Label;
  }

  lemma {:induction false} KidLinesDepictWalks(children: Children, labels: map<string, string>, w: seq<string>,
                                               from: nat, rank: map<string, nat>)
    requires IsWalk(children, w) && Ranked(children, rank) && w[|w| - 1] in rank && DistinctKids(children)
    ensures Depicts(children, labels,
                    KidLines(children, labels, w[|w| - 1], from, Indent(children, w), rank),
                    KidWalks(children, w, from, rank))
    decreases Rank(rank, w[|w| - 1]), 0, |Kids(children, w[|w| - 1])| - from
  {
    hide Lines, Walks, Indent, LineOf, Depicts, DistinctKids, Connector, Bar;
    NothingDepicted(children, labels);
    var kids := Kids(children, w[|w| - 1]);
    if from < |kids| {
      var w' := w + [kids[from]];
      assert IsWalk(children, w') && w'[..|w'| - 1] == w;
      OnlyLastIsLast(children, w[|w| - 1], from);
      LinesDepictWalks(children, labels, w', rank);
      KidLinesDepictWalks(children, labels, w, from + 1, rank);
      DepictsConcat(children, labels,
        Lines(children, labels, kids[from], Indent(children, w), from == |kids| - 1, rank), Walks(children, w', rank),
        KidLines(children, labels, w[|w| - 1], from + 1, Indent(children, w), rank),
        KidWalks(children, w, from + 1, rank));
    }
  }

  lemma NothingDepicted(children: Children, labels: map<string, string>)
    ensures Depicts(children, labels, [], [])
  {
  }

  lemma OnlyLastIsLast(children: Children, parent: string, i: nat)
    requires DistinctKids(children) && i < |Kids(children, parent)|
    ensures IsLastKid(children, parent, Kids(children, parent)[i]) <==> i == |Kids(children, parent)| - 1
  {
  }

  lemma DepictsConcat(children: Children, labels: map<string, string>,
                      a: seq<string>, wa: seq<seq<string>>, b: seq<string>, wb: seq<seq<string>>)
    requires Depicts(children, labels, a, wa) && Depicts(children, labels, b, wb)
    ensures Depicts(children, labels, a + b, wa + wb)
  {
    hide LineOf;
  }

  /** Below the root's own line there is one line per walk that leaves the root, each walk once, in reading order. */
  lemma TreeShowsWalks(children: Children, labels: map<string, string>, root: string, rank: map<string, nat>)
    requires Ranked(children, rank) && root in rank && DistinctKids(children)
    ensures var walks := Walks(children, [root], rank);
            && Depicts(children, labels, KidLines(children, labels, root, 0, "", rank), walks[1..])
            && walks[0] == [root] && NoRepeats(walks) && TopDown(children, walks)
            && forall w :: w in walks <==> [root] <= w && IsWalk(children, w)
  {
    assert IsWalk(children, [root]);
    WalksTopDown(children, [root], rank);
    KidLinesDepictWalks(children, labels, [root], 0, rank);
    WalksDistinct(children, [root], rank);
    forall w ensures w in Walks(children, [root], rank) <==> [root] <= w && IsWalk(children, w) {
      WalksComplete(children, [root], rank, w);
    }
  }

  /** Every peer is a child of at most one other and the root of none. */
  predicate Forest(children: Children, root: string) {
    && (forall p, q, kid | p in children && q in children && kid in children[p] && kid in children[q] :: p == q)
    && (forall p | p in children :: root !in children[p])
  }

  /** In a forest two walks from the root to the same peer are the same, so each peer has one line. */
  lemma {:induction false} ForestWalksUnique(children: Children, root: string, v: seq<string>, w: seq<string>)
    requires Forest(children, root) && IsWalk(children, v) && IsWalk(children, w) && v[0] == w[0] == root
    requires v[|v| - 1] == w[|w| - 1]
    ensures v == w
    decreases |v|
  {
    if |v| == 1 || |w| == 1 {
      assert |v| > 1 ==> v[|v| - 1] in Kids(children, v[|v| - 2]);
      assert |w| > 1 ==> w[|w| - 1] in Kids(children, w[|w| - 2]);
    } else {
      assert v[|v| - 1] in Kids(children, v[|v| - 2]) && w[|w| - 1] in Kids(children, w[|w| - 2]);
      ForestWalksUnique(children, root, v[..|v| - 1], w[..|w| - 1]);
      assert v == v[..|v| - 1] + [v[|v| - 1]] && w == w[..|w| - 1] + [w[|w| - 1]];
    }
  }
}
