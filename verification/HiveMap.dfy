/** The hive mapper: flood-loop prevention, PING ingestion and the ASCII view of the topology. */
module HiveMap {
  import opened Cycles
  import opened Sequences
  import opened Wrappers
  import opened Topology
  import opened TreeView
  import FloodCache

  /** The edge dictionary's items, sets included, in the order iteration meets them. */
  type Listing = seq<(string, seq<string>)>

  ghost predicate Lists(listing: Listing, edges: map<string, set<string>>) {
    && (forall i | 0 <= i < |listing| :: listing[i].0 in edges && NoRepeats(listing[i].1)
                                         && forall t :: t in listing[i].1 <==> t in edges[listing[i].0])
    && (forall i, j | 0 <= i < j < |listing| :: listing[i].0 != listing[j].0)
    && (forall s | s in edges :: exists i :: 0 <= i < |listing| && listing[i].0 == s)
  }

  /** Every edge leads to a lower rank. */
  ghost predicate RankedEdges(edges: map<string, set<string>>, rank: map<string, nat>) {
    forall s, t | t in Entry(edges, s) :: s in rank && t in rank && rank[t] < rank[s]
  }

  /** Each step goes against a stored edge, away from the originator of the PING. */
  predicate Outward(edges: map<string, set<string>>, w: seq<string>) {
    w != [] && forall i | 0 < i < |w| :: w[i - 1] in Entry(edges, w[i])
  }

  /** Each step follows a stored edge. */
  predicate Along(edges: map<string, set<string>>, w: seq<string>) {
    w != [] && forall i | 0 < i < |w| :: w[i] in Entry(edges, w[i - 1])
  }

  /** No cycle can be reached from the peer against the stored edges. */
  ghost predicate NoCycleOutward(edges: map<string, set<string>>, peer: string) {
    forall w | Outward(edges, w) && w[0] == peer :: NoRepeats(w)
  }

  /** No cycle can be reached from the peer along the stored edges. */
  ghost predicate NoCycleAlong(edges: map<string, set<string>>, peer: string) {
    forall w | Along(edges, w) && w[0] == peer :: NoRepeats(w)
  }

  ghost predicate Acyclic(edges: map<string, set<string>>) { forall w | Along(edges, w) :: NoRepeats(w) }

  /** A peer that relays but that nobody relays to. */
  ghost predicate IsRoot(edges: map<string, set<string>>, peer: string) {
    peer in edges && forall s :: peer !in Entry(edges, s)
  }

  /** The raw view starts at the roots, or at the first key when there are none. */
  ghost predicate IsShownRoot(listing: Listing, edges: map<string, set<string>>, peer: string) {
    IsRoot(edges, peer) || ((forall p :: !IsRoot(edges, p)) && listing != [] && peer == listing[0].0)
  }

  // ---------------------------------------------------------------- text of a peer

  function Site(nodes: map<string, NodeInfo>, peer: string): string {
    if peer in nodes && nodes[peer].siteId.Some? && nodes[peer].siteId.value != "" then
      "  site=" + nodes[peer].siteId.value
    else ""
  }

  function Latency(nodes: map<string, NodeInfo>, peer: string): string {
    if peer in nodes && nodes[peer].latency.Some? then "  latency=" + nodes[peer].latency.value + "ms" else ""
  }

  function Labels(nodes: map<string, NodeInfo>): map<string, string> {
    map p | p in nodes :: p + Site(nodes, p) + Latency(nodes, p)
  }

  /** A peer's site and latency as its line shows them, each only if there is one. */
  lemma LabelSpelledOut(nodes: map<string, NodeInfo>, peer: string)
    ensures peer !in nodes ==> Label(Labels(nodes), peer) == peer && Site(nodes, peer) == ""
    ensures peer in nodes ==>
              var (site, latency) := (nodes[peer].siteId, nodes[peer].latency);
              && (site.None? || site == Some("") ==> Site(nodes, peer) == "")
              && (site.Some? && site != Some("") ==> Site(nodes, peer) == "  site=" + site.value)
              && (latency.None? ==> Label(Labels(nodes), peer) == peer + Site(nodes, peer))
              && (latency.Some? ==>
                    Label(Labels(nodes), peer) == peer + Site(nodes, peer) + ("  latency=" + latency.value + "ms"))
  {
    hide Site;
    SiteSpelledOut(nodes, peer);
    assert peer + Site(nodes, peer) + "" == peer + Site(nodes, peer);
  }

  lemma SiteSpelledOut(nodes: map<string, NodeInfo>, peer: string)
    ensures var site := if peer in nodes then nodes[peer].siteId else None;
            && (site.None? || site == Some("") ==> Site(nodes, peer) == "")
            && (site.Some? && site != Some("") ==> Site(nodes, peer) == "  site=" + site.value)
  {
  }

  function Join(lines: seq<string>): string {
    if lines == [] then ""
    else if |lines| == 1 then lines[0]
    else Join(lines[..|lines| - 1]) + "\n" + lines[|lines| - 1]
  }

  // ---------------------------------------------------------------- lines of a text

  /** A text cut at its newlines. */
  function Split(text: string): (r: seq<string>)
    ensures r != []
  {
    if text == "" then [""] else CutAt(text[0], Split(text[1..]))
  }

  /** A newline starts another line; anything else belongs to the first. */
  function CutAt(c: char, lines: seq<string>): (r: seq<string>)
    requires lines != []
    ensures r != []
  {
    if c == '\n' then [""] + lines else [[c] + lines[0]] + lines[1..]
  }

  lemma CutAppend(c: char, a: seq<string>, b: seq<string>)
    requires a != []
    ensures CutAt(c, a + b) == CutAt(c, a) + b
  {
    if c == '\n' {
      assert [""] + (a + b) == [""] + a + b;
    } else {
      var first := [[c] + a[0]];
      assert (a + b)[0] == a[0] && (a + b)[1..] == a[1..] + b;
      assert first + (a[1..] + b) == first + a[1..] + b;
    }
  }

  predicate OneLine(s: string) { '\n' !in s }

  lemma {:induction false} SplitOneLine(line: string)
    requires OneLine(line)
    ensures Split(line) == [line]
  {
    if line != "" {
      SplitOneLine(line[1..]);
      assert line == [line[0]] + line[1..];
    }
  }

  lemma {:induction false} SplitAppend(a: string, b: string)
    ensures Split(a + "\n" + b) == Split(a) + Split(b)
  {
    var text := a + "\n" + b;
    if a == "" {
      assert text[1..] == b;
    } else {
      SplitAppend(a[1..], b);
      assert text[0] == a[0] && text[1..] == a[1..] + "\n" + b;
      CutAppend(a[0], Split(a[1..]), Split(b));
      hide CutAt;
    }
  }

  /** Lines that are joined can be told apart again, in their order. */
  lemma {:induction false} SplitJoin(lines: seq<string>)
    requires lines != [] && forall i | 0 <= i < |lines| :: OneLine(lines[i])
    ensures Split(Join(lines)) == lines
  {
    var n := |lines| - 1;
    SplitOneLine(lines[n]);
    if n > 0 {
      SplitJoin(lines[..n]);
      SplitAppend(Join(lines[..n]), lines[n]);
    }
  }

  /** No peer, site or latency has a newline in it. */
  ghost predicate OneLineNames(edges: map<string, set<string>>, nodes: map<string, NodeInfo>) {
    && (forall s | s in edges :: OneLine(s))
    && (forall s, t | t in Entry(edges, s) :: OneLine(t))
    && (forall p | p in nodes :: OneLine(p) && OneLineInfo(nodes[p]))
  }

  predicate OneLineInfo(info: NodeInfo) {
    (info.siteId.Some? ==> OneLine(info.siteId.value)) && (info.latency.Some? ==> OneLine(info.latency.value))
  }

  lemma SiteIsOneLine(nodes: map<string, NodeInfo>, peer: string)
    requires forall p | p in nodes :: OneLineInfo(nodes[p])
    ensures OneLine(Site(nodes, peer)) && OneLine(Latency(nodes, peer))
  {
  }

  lemma LabelIsOneLine(edges: map<string, set<string>>, nodes: map<string, NodeInfo>, peer: string)
    requires OneLineNames(edges, nodes) && OneLine(peer)
    ensures OneLine(Label(Labels(nodes), peer))
  {
    SiteIsOneLine(nodes, peer);
    hide Site, Latency;
  }

  lemma {:induction false} IndentIsOneLine(children: Children, w: seq<string>)
    ensures OneLine(Indent(children, w))
  {
    if |w| > 1 { IndentIsOneLine(children, w[..|w| - 1]); }
  }

  lemma LineIsOneLine(edges: map<string, set<string>>, nodes: map<string, NodeInfo>, children: Children, w: seq<string>)
    requires OneLineNames(edges, nodes) && |w| >= 2 && OneLine(w[|w| - 1])
    ensures OneLine(LineOf(children, Labels(nodes), w))
  {
    LabelIsOneLine(edges, nodes, w[|w| - 1]);
    IndentIsOneLine(children, w[..|w| - 1]);
    hide Indent, Label, Labels;
  }

  // ---------------------------------------------------------------- children of the two views

  /** Display children of the rooted view: the stored edges turned around. */
  ghost predicate Inverts(children: Children, edges: map<string, set<string>>) {
    DistinctKids(children) && forall s, t :: s in Kids(children, t) <==> t in Entry(edges, s)
  }

  /** Display children of the raw view: the stored edges. */
  ghost predicate Follows(children: Children, edges: map<string, set<string>>) {
    DistinctKids(children) && forall s, t :: t in Kids(children, s) <==> t in Entry(edges, s)
  }

  /** A source is appended to the sources of a target that do not hold it yet. */
  function WithSource(sources: seq<string>, src: string, isTarget: bool): seq<string> {
    if isTarget && src !in sources then sources + [src] else sources
  }

  /** Who sends to t according to the first n items, in their order. */
  function Sources(listing: Listing, n: nat, t: string): seq<string>
    requires n <= |listing|
  {
    if n == 0 then []
    else Sources(listing, n - 1, t) + (if t in listing[n - 1].1 then [listing[n - 1].0] else [])
  }

  lemma {:induction false} SourcesSend(listing: Listing, n: nat, s: string, t: string)
    requires n <= |listing|
    ensures s in Sources(listing, n, t) <==> Sends(listing, n, s, t)
  {
    if n > 0 {
      SourcesSend(listing, n - 1, s, t);
      SendsNext(listing, n - 1, n);
      hide Sends;
    }
  }

  /** Children of the rooted view stand in the order in which iteration meets them. */
  ghost predicate InvertsInOrder(children: Children, listing: Listing) {
    forall t :: Kids(children, t) == Sources(listing, |listing|, t)
  }

  /** And so do those of the raw view. */
  ghost predicate FollowsInOrder(children: Children, listing: Listing) {
    forall i | 0 <= i < |listing| :: Kids(children, listing[i].0) == listing[i].1
  }

  method AddInverse(children: Children, src: string, targets: seq<string>) returns (out: Children)
    requires DistinctKids(children)
    ensures DistinctKids(out)
    ensures forall t :: Kids(out, t) == WithSource(Kids(children, t), src, t in targets)
  {
    out := children;
    hide WithSource;
    forall t ensures WithSource(Kids(children, t), src, false) == Kids(children, t) {
      NotATarget(Kids(children, t), src);
    }
    for j := 0 to |targets|
      invariant forall t :: Kids(out, t) == WithSource(Kids(children, t), src, t in targets[..j])
    {
      var t := targets[j];
      var before := out;
      if t !in out { out := out[t := []]; }
      if src !in out[t] { out := out[t := out[t] + [src]]; }
      assert Kids(out, t) == if src in Kids(before, t) then Kids(before, t) else Kids(before, t) + [src];
      assert forall p | p != t :: Kids(out, p) == Kids(before, p);
      TargetAdded(Kids(children, t), src, t in targets[..j]);
      assert targets[..j + 1] == targets[..j] + [t];
      assert forall p :: p in targets[..j + 1] <==> p in targets[..j] || p == t;
    }
    assert targets[..|targets|] == targets;
    StaysDistinct(children, src, targets, out);
  }

  lemma NotATarget(sources: seq<string>, src: string)
    ensures WithSource(sources, src, false) == sources
  {
  }

  lemma TargetAdded(sources: seq<string>, src: string, isTarget: bool)
    ensures var before := WithSource(sources, src, isTarget);
            WithSource(sources, src, true) == if src in before then before else before + [src]
  {
  }

  lemma StaysDistinct(children: Children, src: string, targets: seq<string>, out: Children)
    requires DistinctKids(children)
    requires forall t :: Kids(out, t) == WithSource(Kids(children, t), src, t in targets)
    ensures DistinctKids(out)
  {
    forall p | p in out ensures NoRepeats(out[p]) {
      assert Kids(out, p) == WithSource(Kids(children, p), src, p in targets);
    }
  }

  /** One of the first n items lists t as a target of s. */
  predicate Sends(listing: Listing, n: nat, s: string, t: string)
    requires n <= |listing|
  {
    exists k :: 0 <= k < n && listing[k].0 == s && t in listing[k].1
  }

  lemma AllSends(listing: Listing, edges: map<string, set<string>>)
    requires Lists(listing, edges)
    ensures forall s, t :: Sends(listing, |listing|, s, t) <==> t in Entry(edges, s)
    ensures forall t :: Receives(listing, |listing|, t) <==> exists s :: t in Entry(edges, s)
  {
    forall s, t ensures Sends(listing, |listing|, s, t) <==> t in Entry(edges, s) {
      if s in edges { var i :| 0 <= i < |listing| && listing[i].0 == s; }
    }
    forall t ensures Receives(listing, |listing|, t) <==> exists s :: t in Entry(edges, s) {
      if Receives(listing, |listing|, t) {
        var k :| 0 <= k < |listing| && t in listing[k].1;
        assert Sends(listing, |listing|, listing[k].0, t);
      }
    }
  }

  predicate Receives(listing: Listing, n: nat, t: string)
    requires n <= |listing|
  {
    exists k :: 0 <= k < n && t in listing[k].1
  }

  lemma SendsNext(listing: Listing, n: nat, next: nat)
    requires n < |listing| && next == n + 1
    ensures forall s, t :: Sends(listing, next, s, t) <==>
              Sends(listing, n, s, t) || (s == listing[n].0 && t in listing[n].1)
    ensures forall t :: Receives(listing, next, t) <==> Receives(listing, n, t) || t in listing[n].1
  {
  }

  method InvertEdges(listing: Listing, ghost edges: map<string, set<string>>) returns (children: Children)
    requires Lists(listing, edges)
    ensures Inverts(children, edges) && InvertsInOrder(children, listing)
  {
    hide Sends, Kids, Entry;
    children := map[];
    NoKids();
    for i := 0 to |listing|
      invariant DistinctKids(children)
      invariant forall t :: Kids(children, t) == Sources(listing, i, t)
    {
      forall t ensures listing[i].0 !in Sources(listing, i, t) { NotYetASource(listing, i, t); }
      children := AddInverse(children, listing[i].0, listing[i].1);
    }
    AllSends(listing, edges);
    forall s, t ensures s in Kids(children, t) <==> t in Entry(edges, s) {
      SourcesSend(listing, |listing|, s, t);
    }
  }

  lemma NotYetASource(listing: Listing, n: nat, t: string)
    requires n < |listing| && forall i, j | 0 <= i < j < |listing| :: listing[i].0 != listing[j].0
    ensures listing[n].0 !in Sources(listing, n, t)
  {
    SourcesSend(listing, n, listing[n].0, t);
  }

  lemma NoKids()
    ensures forall t: string :: Kids(map[], t) == []
    ensures forall listing: Listing, s, t: string :: !Sends(listing, 0, s, t)
    ensures forall listing: Listing, t: string :: !Receives(listing, 0, t)
  {
  }

  lemma AddKids(children: Children, src: string, targets: seq<string>, out: Children)
    requires DistinctKids(children) && src !in children && NoRepeats(targets)
    requires out == children[src := targets]
    ensures DistinctKids(out)
    ensures Kids(out, src) == targets && Kids(children, src) == []
    ensures forall s | s != src :: Kids(out, s) == Kids(children, s)
  {
  }

  /** children.setdefault(src, []) and one append for each target. */
  method FollowEdges(listing: Listing, ghost edges: map<string, set<string>>)
    returns (children: Children, allTargets: set<string>)
    requires Lists(listing, edges)
    ensures Follows(children, edges) && FollowsInOrder(children, listing)
    ensures forall t :: t in allTargets <==> exists s :: t in Entry(edges, s)
  {
    hide Sends, Receives, Entry, Kids;
    children, allTargets := map[], {};
    NoKids();
    for i := 0 to |listing|
      invariant forall k | i <= k < |listing| :: listing[k].0 !in children
      invariant forall k | 0 <= k < i :: Kids(children, listing[k].0) == listing[k].1
      invariant DistinctKids(children)
      invariant forall s, t :: t in Kids(children, s) <==> Sends(listing, i, s, t)
      invariant forall t :: t in allTargets <==> Receives(listing, i, t)
    {
      SendsNext(listing, i, i + 1);
      var before := children;
      children := children[listing[i].0 := listing[i].1];
      AddKids(before, listing[i].0, listing[i].1, children);
      allTargets := allTargets + set t | t in listing[i].1;
    }
    AllSends(listing, edges);
  }

  // ---------------------------------------------------------------- ranks

  lemma {:induction false} HighestRank(rank: map<string, nat>) returns (top: nat)
    ensures forall p | p in rank :: rank[p] <= top
    decreases |rank|
  {
    if rank == map[] {
      top := 0;
    } else {
      var p :| p in rank;
      var rest := rank - {p};
      assert rest.Keys == rank.Keys - {p};
      top := HighestRank(rest);
      assert forall q | q in rank && q != p :: rank[q] == rest[q];
      top := if rank[p] > top then rank[p] else top;
    }
  }

  lemma OutwardIsWalk(edges: map<string, set<string>>, children: Children, w: seq<string>)
    requires Inverts(children, edges)
    ensures Outward(edges, w) <==> IsWalk(children, w)
  {
  }

  lemma AlongIsWalk(edges: map<string, set<string>>, children: Children, w: seq<string>)
    requires Follows(children, edges)
    ensures Along(edges, w) <==> IsWalk(children, w)
  {
  }

  lemma OutwardLoops(edges: map<string, set<string>>, children: Children, peer: string)
    requires Inverts(children, edges)
    ensures NoCycleOutward(edges, peer) <==> LoopFree(children, peer)
  {
    hide Inverts, NoRepeats;
    forall w ensures Outward(edges, w) <==> IsWalk(children, w) { OutwardIsWalk(edges, children, w); }
  }

  lemma AlongLoops(edges: map<string, set<string>>, children: Children, peer: string)
    requires Follows(children, edges)
    ensures NoCycleAlong(edges, peer) <==> LoopFree(children, peer)
  {
    hide Follows, NoRepeats;
    forall w ensures Along(edges, w) <==> IsWalk(children, w) { AlongIsWalk(edges, children, w); }
  }

  /**
   The rooted view's recursion ends exactly when no cycle can be reached from the root against the stored
   edges; otherwise it follows walks of every length.
   */
  lemma RootedEndsWhen(edges: map<string, set<string>>, children: Children, root: string, n: nat)
    requires Inverts(children, edges)
    ensures (exists depth :: EndsWithin(children, root, depth)) <==> NoCycleOutward(edges, root)
    ensures !NoCycleOutward(edges, root) ==> exists w :: Outward(edges, w) && w[0] == root && |w| == n + 1
  {
    EndsWhenLoopFree(children, root);
    OutwardLoops(edges, children, root);
    if !NoCycleOutward(edges, root) {
      var w := CycleHasWalks(children, root, n);
      OutwardIsWalk(edges, children, w);
    }
  }

  /** The raw view's recursion from a displayed root ends exactly when no cycle can be reached from it. */
  lemma RawEndsWhen(edges: map<string, set<string>>, children: Children, root: string, n: nat)
    requires Follows(children, edges)
    ensures (exists depth :: EndsWithin(children, root, depth)) <==> NoCycleAlong(edges, root)
    ensures !NoCycleAlong(edges, root) ==> exists w :: Along(edges, w) && w[0] == root && |w| == n + 1
  {
    EndsWhenLoopFree(children, root);
    AlongLoops(edges, children, root);
    if !NoCycleAlong(edges, root) {
      var w := CycleHasWalks(children, root, n);
      AlongIsWalk(edges, children, w);
    }
  }

  /** Two PINGs whose routes go both ways are enough for a cycle: neither view of them ends. */
  lemma TwoPingsMakeACycle(a: string, b: string, p: Ping, q: Ping, listing: Listing)
    requires a != "" && b != "" && a != b && WellFormed(p) && WellFormed(q)
    requires p.fields.value.floodId != q.fields.value.floodId
    requires p.rawRoute == [Hop(a, [b])] && q.rawRoute == [Hop(b, [a])]
    requires Lists(listing, Topology.OnPing(Topology.OnPing(EMPTY, p), q).edges)
    ensures var edges := Topology.OnPing(Topology.OnPing(EMPTY, p), q).edges;
            && !NoCycleOutward(edges, a) && !NoCycleOutward(edges, b)
            && exists root :: IsShownRoot(listing, edges, root) && !NoCycleAlong(edges, root)
  {
    var g := Topology.OnPing(EMPTY, p);
    var edges := Topology.OnPing(g, q).edges;
    RouteOfOne(p.rawRoute[0]);
    RouteOfOne(q.rawRoute[0]);
    assert b in Entry(edges, a) && a in Entry(edges, b) by {
      OnPingEdges(EMPTY, p, a, b);
      OnPingEdges(g, q, a, b);
      OnPingEdges(g, q, b, a);
    }
    forall s | s in edges ensures s == a || s == b {
      OnPingEdges(EMPTY, p, s, a);
      OnPingEdges(g, q, s, a);
    }
    TwoPeersCycle(edges, a, b, listing);
  }

  /** A cycle that cannot be reached from the root does no harm. */
  lemma CycleOutOfReach()
    ensures var edges := map["a" := {"b"}, "b" := {"a"}, "d" := {"c"}];
            !Acyclic(edges) && NoCycleOutward(edges, "c")
  {
    var edges := map["a" := {"b"}, "b" := {"a"}, "d" := {"c"}];
    var v := ["a", "b", "a"];
    assert v[0] == v[2] && Along(edges, v);
    var children := map["b" := ["a"], "a" := ["b"], "c" := ["d"]];
    assert Kids(children, "d") == [] && EndsWithin(children, "d", 1);
    assert Kids(children, "c") == ["d"] && EndsWithin(children, "c", 2);
    RootedEndsWhen(edges, children, "c", 0);
  }

  lemma RouteOfOne(hop: Topology.Hop)
    requires hop.Hop? && |hop.targets| == 1 && hop.source != ""
    ensures Route([hop]) == [hop]
  {
    assert [hop][1..] == [];
  }

  lemma TwoPeersCycle(edges: map<string, set<string>>, a: string, b: string, listing: Listing)
    requires a != b && b in Entry(edges, a) && a in Entry(edges, b) && Lists(listing, edges)
    requires forall s | s in edges :: s == a || s == b
    ensures !NoCycleOutward(edges, a) && !NoCycleOutward(edges, b)
    ensures exists root :: IsShownRoot(listing, edges, root) && !NoCycleAlong(edges, root)
  {
    var v, w := [a, b, a], [b, a, b];
    assert v[0] == v[2] && w[0] == w[2];
    assert Outward(edges, v) && Outward(edges, w) && Along(edges, v) && Along(edges, w);
    assert !NoRepeats(v) && !NoRepeats(w);
    assert a in edges && listing != [];
    var first := listing[0].0;
    assert first in edges;
    assert forall p :: !IsRoot(edges, p);
    assert IsShownRoot(listing, edges, first) && !NoCycleAlong(edges, first);
  }

  // ---------------------------------------------------------------- the rooted view

  /** The lines are the walks outward from the root, each once and in reading order, the root's own line first. */
  ghost predicate RootedView(lines: seq<string>, listing: Listing, edges: map<string, set<string>>,
                             nodes: map<string, NodeInfo>, root: string, children: Children, walks: seq<seq<string>>)
  {
    && Inverts(children, edges) && InvertsInOrder(children, listing)
    && |lines| == |walks| >= 1 && walks[0] == [root] && NoRepeats(walks) && TopDown(children, walks)
    && (forall w :: w in walks <==> w != [] && w[0] == root && Outward(edges, w))
    && lines[0] == "[self] " + root + Site(nodes, root)
    && Depicts(children, Labels(nodes), lines[1..], walks[1..])
  }

  ghost predicate ShowsRooted(lines: seq<string>, listing: Listing, edges: map<string, set<string>>,
                              nodes: map<string, NodeInfo>, root: string)
  {
    exists children, walks :: RootedView(lines, listing, edges, nodes, root, children, walks)
  }

  lemma RootedIsOneLine(lines: seq<string>, listing: Listing, edges: map<string, set<string>>,
                        nodes: map<string, NodeInfo>, root: string)
    requires ShowsRooted(lines, listing, edges, nodes, root) && OneLineNames(edges, nodes) && OneLine(root)
    ensures lines != [] && forall i | 0 <= i < |lines| :: OneLine(lines[i])
  {
    var children, walks :| RootedView(lines, listing, edges, nodes, root, children, walks);
    hide Inverts, InvertsInOrder, TopDown, NoRepeats, LineOf, OneLineNames, Labels, Site;
    forall i | 0 <= i < |lines| ensures OneLine(lines[i]) {
      if i == 0 {
        HeaderIsOneLine(edges, nodes, root);
      } else {
        var w := walks[1..][i - 1];
        assert lines[i] == lines[1..][i - 1] && w == walks[i] && w in walks;
        OutwardIsOneLine(edges, nodes, w);
        LineIsOneLine(edges, nodes, children, w);
      }
    }
  }

  lemma RootedHasALine(lines: seq<string>, listing: Listing, edges: map<string, set<string>>,
                       nodes: map<string, NodeInfo>, root: string)
    requires ShowsRooted(lines, listing, edges, nodes, root)
    ensures lines != []
  {
  }

  lemma HeaderIsOneLine(edges: map<string, set<string>>, nodes: map<string, NodeInfo>, root: string)
    requires OneLineNames(edges, nodes) && OneLine(root)
    ensures OneLine("[self] " + root + Site(nodes, root)) && OneLine(root + Site(nodes, root))
  {
    SiteIsOneLine(nodes, root);
    hide Site;
  }

  lemma OutwardIsOneLine(edges: map<string, set<string>>, nodes: map<string, NodeInfo>, w: seq<string>)
    requires OneLineNames(edges, nodes) && Outward(edges, w) && |w| >= 2
    ensures OneLine(w[|w| - 1])
  {
    assert w[|w| - 2] in Entry(edges, w[|w| - 1]);
  }

  method RootedLines(listing: Listing, ghost edges: map<string, set<string>>, nodes: map<string, NodeInfo>,
                     root: string)
    returns (lines: seq<string>)
    requires Lists(listing, edges) && NoCycleOutward(edges, root)
    ensures ShowsRooted(lines, listing, edges, nodes, root)
  {
    var displayChildren := InvertEdges(listing, edges);
    OutwardLoops(edges, displayChildren, root);
    ghost var rank := RankLoopFree(displayChildren, {root});
    lines := ["[self] " + root + Site(nodes, root)];
    lines := RenderKids(displayChildren, Labels(nodes), root, "", lines, rank);
    ghost var children, walks := displayChildren, Walks(displayChildren, [root], rank);
    TreeShowsWalks(children, Labels(nodes), root, rank);
    forall w ensures w in walks <==> w != [] && w[0] == root && Outward(edges, w) {
      OutwardIsWalk(edges, children, w);
      assert [root] <= w <==> w != [] && w[0] == root;
    }
    assert lines[1..] == KidLines(children, Labels(nodes), root, 0, "", rank);
    assert RootedView(lines, listing, edges, nodes, root, children, walks);
  }

  /**
   When every peer relays to at most one other and the root to none, each peer that can be reached has
   exactly one line.
   */
  lemma OneLinePerPeer(lines: seq<string>, listing: Listing, edges: map<string, set<string>>,
                       nodes: map<string, NodeInfo>, root: string, children: Children, walks: seq<seq<string>>,
                       w: seq<string>)
    requires RootedView(lines, listing, edges, nodes, root, children, walks)
    requires forall s, t, u | t in Entry(edges, s) && u in Entry(edges, s) :: t == u
    requires Entry(edges, root) == {}
    requires w != [] && w[0] == root && Outward(edges, w)
    ensures exists i :: 0 <= i < |lines| && walks[i] == w
                        && forall j | 0 <= j < |lines| && walks[j][|walks[j]| - 1] == w[|w| - 1] :: j == i
  {
    hide TopDown, InvertsInOrder, Depicts, Site;
    assert w in walks;
    var i :| 0 <= i < |walks| && walks[i] == w;
    assert Forest(children, root) by {
      forall p, q, kid | p in children && q in children && kid in children[p] && kid in children[q] ensures p == q {
        assert kid in Kids(children, p) && kid in Kids(children, q);
        assert p in Entry(edges, kid) && q in Entry(edges, kid);
      }
      forall p | p in children ensures root !in children[p] {
        assert root in Kids(children, p) <==> p in Entry(edges, root);
      }
    }
    forall j | 0 <= j < |lines| && walks[j] != [] && walks[j][|walks[j]| - 1] == w[|w| - 1] ensures j == i {
      assert walks[j] in walks;
      OutwardIsWalk(edges, children, w);
      OutwardIsWalk(edges, children, walks[j]);
      ForestWalksUnique(children, root, walks[j], w);
    }
    assert forall j | 0 <= j < |lines| :: walks[j] in walks;
  }

  // ---------------------------------------------------------------- the raw view

  /** The line of a walk in the raw view. */
  function RawLine(children: Children, nodes: map<string, NodeInfo>, w: seq<string>): string
    requires w != []
  {
    if |w| == 1 then w[0] + Site(nodes, w[0]) else LineOf(children, Labels(nodes), w)
  }

  /** The walks from each root in turn, root after root. */
  function WalksFrom(children: Children, roots: seq<string>, rank: map<string, nat>): seq<seq<string>>
    requires Ranked(children, rank) && forall p | p in roots :: p in rank
  {
    if roots == [] then []
    else WalksFrom(children, roots[..|roots| - 1], rank) + Walks(children, [roots[|roots| - 1]], rank)
  }

  /** Each line is the line of the walk at the same place. */
  predicate RawDepicts(children: Children, nodes: map<string, NodeInfo>, lines: seq<string>, walks: seq<seq<string>>) {
    && |lines| == |walks|
    && forall i | 0 <= i < |lines| :: walks[i] != [] && lines[i] == RawLine(children, nodes, walks[i])
  }

  /** One peer is met before another. */
  predicate KeyBefore(listing: Listing, p: string, q: string) {
    exists i, j :: 0 <= i < j < |listing| && listing[i].0 == p && listing[j].0 == q
  }

  /** In reading order, root after root. */
  ghost predicate RootByRoot(children: Children, listing: Listing, walks: seq<seq<string>>) {
    forall i, j | 0 <= i < j < |walks| :: RawAbove(children, listing, walks[i], walks[j])
  }

  ghost predicate RawAbove(children: Children, listing: Listing, v: seq<string>, w: seq<string>) {
    v != [] && w != [] && if v[0] == w[0] then Above(children, v, w) else KeyBefore(listing, v[0], w[0])
  }

  /** The lines are the walks along the edges from the displayed roots, each once and in reading order. */
  ghost predicate RawView(lines: seq<string>, listing: Listing, edges: map<string, set<string>>,
                          nodes: map<string, NodeInfo>, children: Children, walks: seq<seq<string>>)
  {
    && Follows(children, edges) && FollowsInOrder(children, listing)
    && RawDepicts(children, nodes, lines, walks) && NoRepeats(walks) && RootByRoot(children, listing, walks)
    && (forall w :: w in walks <==> w != [] && IsShownRoot(listing, edges, w[0]) && Along(edges, w))
  }

  lemma {:induction false} WalksFromComplete(children: Children, roots: seq<string>, rank: map<string, nat>,
                                             w: seq<string>)
    requires Ranked(children, rank) && (forall p | p in roots :: p in rank)
    ensures w in WalksFrom(children, roots, rank) <==> IsWalk(children, w) && w[0] in roots
  {
    if roots != [] {
      var last := roots[|roots| - 1];
      WalksFromComplete(children, roots[..|roots| - 1], rank, w);
      assert IsWalk(children, [last]);
      WalksComplete(children, [last], rank, w);
      assert [last] <= w <==> w != [] && w[0] == last;
      assert roots == roots[..|roots| - 1] + [last];
    }
  }

  lemma {:induction false} WalksFromDistinct(children: Children, roots: seq<string>, rank: map<string, nat>)
    requires Ranked(children, rank) && (forall p | p in roots :: p in rank) && DistinctKids(children)
             && NoRepeats(roots)
    ensures NoRepeats(WalksFrom(children, roots, rank))
  {
    if roots != [] {
      var init, last := roots[..|roots| - 1], roots[|roots| - 1];
      WalksFromDistinct(children, init, rank);
      assert IsWalk(children, [last]);
      WalksDistinct(children, [last], rank);
      forall w | w in WalksFrom(children, init, rank) ensures w !in Walks(children, [last], rank) {
        WalksFromComplete(children, init, rank, w);
        WalksComplete(children, [last], rank, w);
      }
      ConcatDistinct(WalksFrom(children, init, rank), Walks(children, [last], rank));
    }
  }

  lemma RootByRootConcat(children: Children, listing: Listing, a: seq<seq<string>>, b: seq<seq<string>>)
    requires RootByRoot(children, listing, a) && RootByRoot(children, listing, b)
    requires forall v, w | v in a && w in b :: RawAbove(children, listing, v, w)
    ensures RootByRoot(children, listing, a + b)
  {
    hide RawAbove;
    forall i, j | 0 <= i < j < |a + b| ensures RawAbove(children, listing, (a + b)[i], (a + b)[j]) {
      if i < |a| <= j { assert (a + b)[i] in a && (a + b)[j] in b; }
    }
  }

  lemma WalksByRoot(children: Children, listing: Listing, root: string, rank: map<string, nat>)
    requires Ranked(children, rank) && root in rank
    ensures RootByRoot(children, listing, Walks(children, [root], rank))
  {
    assert IsWalk(children, [root]);
    WalksTopDown(children, [root], rank);
    var walks := Walks(children, [root], rank);
    forall w | w in walks ensures w != [] && w[0] == root { WalksComplete(children, [root], rank, w); }
    hide Above;
    forall i, j | 0 <= i < j < |walks| ensures RawAbove(children, listing, walks[i], walks[j]) {
      assert walks[i] in walks && walks[j] in walks;
    }
  }

  lemma {:induction false} WalksFromOrdered(children: Children, listing: Listing, roots: seq<string>,
                                            rank: map<string, nat>)
    requires Ranked(children, rank) && forall p | p in roots :: p in rank
    requires NoRepeats(roots) && InKeyOrder(listing, roots)
    ensures RootByRoot(children, listing, WalksFrom(children, roots, rank))
  {
    if roots != [] {
      var init, last := roots[..|roots| - 1], roots[|roots| - 1];
      WalksFromOrdered(children, listing, init, rank);
      WalksByRoot(children, listing, last, rank);
      assert IsWalk(children, [last]);
      forall v, w | v in WalksFrom(children, init, rank) && w in Walks(children, [last], rank)
        ensures RawAbove(children, listing, v, w)
      {
        WalksFromComplete(children, init, rank, v);
        WalksComplete(children, [last], rank, w);
        var i :| 0 <= i < |init| && init[i] == v[0];
        assert roots[i] == v[0] && KeyBefore(listing, roots[i], last);
      }
      hide RootByRoot;
      RootByRootConcat(children, listing, WalksFrom(children, init, rank), Walks(children, [last], rank));
    }
  }

  predicate InKeyOrder(listing: Listing, roots: seq<string>) {
    forall i, j | 0 <= i < j < |roots| :: KeyBefore(listing, roots[i], roots[j])
  }

  /** In an acyclic graph some walk from a root ends in each endpoint of an edge. */
  lemma {:induction false} EndpointReached(edges: map<string, set<string>>, rank: map<string, nat>, top: nat, p: string)
    returns (w: seq<string>)
    requires RankedEdges(edges, rank) && forall q | q in rank :: rank[q] <= top
    requires p in edges || exists s :: p in Entry(edges, s)
    ensures w != [] && IsRoot(edges, w[0]) && Along(edges, w) && w[|w| - 1] == p
    decreases top - (if p in rank && rank[p] <= top then rank[p] else 0), if p in rank then 0 else 1
  {
    if IsRoot(edges, p) {
      w := [p];
    } else {
      var s :| p in Entry(edges, s);
      var v := EndpointReached(edges, rank, top, s);
      w := v + [p];
    }
  }

  lemma RawWalks(listing: Listing, edges: map<string, set<string>>, children: Children, roots: seq<string>,
                 rank: map<string, nat>)
    requires Ranked(children, rank) && (forall p | p in roots :: p in rank) && Follows(children, edges)
    requires forall p :: p in roots <==> IsShownRoot(listing, edges, p)
    ensures forall w :: w in WalksFrom(children, roots, rank) <==>
              w != [] && IsShownRoot(listing, edges, w[0]) && Along(edges, w)
  {
    hide IsShownRoot;
    forall w ensures w in WalksFrom(children, roots, rank) <==>
                     w != [] && IsShownRoot(listing, edges, w[0]) && Along(edges, w) {
      WalksFromComplete(children, roots, rank, w);
      AlongIsWalk(edges, children, w);
    }
  }

  /** In an acyclic graph all peers can be ranked. */
  lemma AcyclicRanked(edges: map<string, set<string>>, children: Children) returns (rank: map<string, nat>)
    requires Follows(children, edges) && Acyclic(edges)
    ensures RankedEdges(edges, rank)
  {
    forall p ensures LoopFree(children, p) { AlongLoops(edges, children, p); }
    rank := RankLoopFree(children, edges.Keys);
    forall s, t | t in Entry(edges, s) ensures s in rank && t in rank && rank[t] < rank[s] {
      assert s in edges && t in Kids(children, s);
    }
  }

  /** An acyclic graph with an edge entry has a root, so the fallback to the first key is not needed. */
  lemma SomeRoot(edges: map<string, set<string>>, children: Children)
    requires Follows(children, edges) && Acyclic(edges) && edges != map[]
    ensures exists p :: IsRoot(edges, p)
  {
    var p :| p in edges;
    var rank := AcyclicRanked(edges, children);
    var top := HighestRank(rank);
    var w := EndpointReached(edges, rank, top, p);
  }

  method CandidateRoots(listing: Listing, allTargets: set<string>) returns (roots: seq<string>)
    requires forall i, j | 0 <= i < j < |listing| :: listing[i].0 != listing[j].0
    ensures NoRepeats(roots) && InKeyOrder(listing, roots)
    ensures forall p :: p in roots <==> p !in allTargets && exists i :: 0 <= i < |listing| && listing[i].0 == p
  {
    roots := [];
    for k := 0 to |listing|
      invariant NoRepeats(roots) && InKeyOrder(listing, roots)
      invariant forall p :: p in roots <==> p !in allTargets && exists i :: 0 <= i < k && listing[i].0 == p
    {
      if listing[k].0 !in allTargets {
        forall i | 0 <= i < |roots| ensures KeyBefore(listing, roots[i], listing[k].0) { assert roots[i] in roots; }
        roots := roots + [listing[k].0];
      }
    }
  }

  /** Candidate roots, or the first key when there are none. */
  method DisplayRoots(listing: Listing, allTargets: set<string>, ghost edges: map<string, set<string>>)
    returns (roots: seq<string>)
    requires Lists(listing, edges)
    requires forall t :: t in allTargets <==> exists s :: t in Entry(edges, s)
    ensures NoRepeats(roots) && InKeyOrder(listing, roots) && forall p :: p in roots <==> IsShownRoot(listing, edges, p)
  {
    roots := CandidateRoots(listing, allTargets);
    forall p ensures p in roots <==> IsRoot(edges, p) {
      if p in edges { var i :| 0 <= i < |listing| && listing[i].0 == p; }
    }
    assert roots != [] ==> IsRoot(edges, roots[0]);
    roots := if roots != [] then roots else FirstKey(listing);
  }

  function FirstKey(listing: Listing): seq<string> {
    if listing == [] then [] else [listing[0].0]
  }

  lemma RawDepictsConcat(children: Children, nodes: map<string, NodeInfo>,
                         a: seq<string>, wa: seq<seq<string>>, b: seq<string>, wb: seq<seq<string>>)
    requires RawDepicts(children, nodes, a, wa) && RawDepicts(children, nodes, b, wb)
    ensures RawDepicts(children, nodes, a + b, wa + wb)
  {
    hide RawLine;
  }

  lemma DepictedBelowRoot(children: Children, nodes: map<string, NodeInfo>, lines: seq<string>, walks: seq<seq<string>>)
    requires Depicts(children, Labels(nodes), lines, walks)
    ensures RawDepicts(children, nodes, lines, walks)
  {
    hide LineOf, Labels;
  }

  lemma RawBlock(children: Children, nodes: map<string, NodeInfo>, root: string, rank: map<string, nat>)
    requires Ranked(children, rank) && root in rank && DistinctKids(children)
    ensures RawDepicts(children, nodes,
                       [root + Site(nodes, root)] + KidLines(children, Labels(nodes), root, 0, "", rank),
                       Walks(children, [root], rank))
  {
    var header, below := [root + Site(nodes, root)], KidLines(children, Labels(nodes), root, 0, "", rank);
    var walks := Walks(children, [root], rank);
    assert RawDepicts(children, nodes, header, [[root]]);
    TreeShowsWalks(children, Labels(nodes), root, rank);
    hide *;
    DepictedBelowRoot(children, nodes, below, walks[1..]);
    RawDepictsConcat(children, nodes, header, [[root]], below, walks[1..]);
    assert walks == [walks[0]] + walks[1..];
  }

  method RenderRoots(children: Children, nodes: map<string, NodeInfo>, roots: seq<string>, ghost rank: map<string, nat>)
    returns (lines: seq<string>)
    requires Ranked(children, rank) && (forall p | p in roots :: p in rank) && DistinctKids(children)
    ensures RawDepicts(children, nodes, lines, WalksFrom(children, roots, rank))
  {
    hide RawDepicts, KidLines, Walks;
    lines := [];
    RawDepictsNothing(children, nodes);
    for k := 0 to |roots|
      invariant RawDepicts(children, nodes, lines, WalksFrom(children, roots[..k], rank))
    {
      var root := roots[k];
      ghost var before := lines;
      lines := lines + [root + Site(nodes, root)];
      lines := RenderKids(children, Labels(nodes), root, "", lines, rank);
      ghost var block := [root + Site(nodes, root)] + KidLines(children, Labels(nodes), root, 0, "", rank);
      assert lines == before + block;
      RawBlock(children, nodes, root, rank);
      RawDepictsConcat(children, nodes, before, WalksFrom(children, roots[..k], rank), block,
                       Walks(children, [root], rank));
      assert roots[..k + 1][..k] == roots[..k];
    }
    assert roots[..|roots|] == roots;
  }

  lemma RawDepictsNothing(children: Children, nodes: map<string, NodeInfo>)
    ensures RawDepicts(children, nodes, [], [])
  {
  }

  /** Every peer at either end of a stored edge ends one of the walks, so it has a line. */
  ghost predicate ShowsAll(edges: map<string, set<string>>, walks: seq<seq<string>>) {
    && (forall p | p in edges :: EndsIn(walks, p))
    && (forall s, p | p in Entry(edges, s) :: EndsIn(walks, p))
  }

  predicate EndsIn(walks: seq<seq<string>>, p: string) {
    exists i :: 0 <= i < |walks| && walks[i] != [] && walks[i][|walks[i]| - 1] == p
  }

  /** The raw view; it has a line for every endpoint of an edge exactly when the edges have no cycle at all. */
  ghost predicate ShowsRaw(lines: seq<string>, listing: Listing, edges: map<string, set<string>>,
                           nodes: map<string, NodeInfo>)
  {
    exists children, walks ::
      RawView(lines, listing, edges, nodes, children, walks) && (ShowsAll(edges, walks) <==> Acyclic(edges))
  }

  lemma AllShown(listing: Listing, edges: map<string, set<string>>, children: Children, walks: seq<seq<string>>)
    requires Follows(children, edges) && Acyclic(edges)
    requires forall w :: w in walks <==> w != [] && IsShownRoot(listing, edges, w[0]) && Along(edges, w)
    ensures ShowsAll(edges, walks)
  {
    var rank := AcyclicRanked(edges, children);
    var top := HighestRank(rank);
    forall p | p in edges || exists s :: p in Entry(edges, s) ensures EndsIn(walks, p) {
      var w := EndpointReached(edges, rank, top, p);
      assert IsShownRoot(listing, edges, w[0]);
      assert w in walks;
    }
  }

  /** A view that shows every endpoint leaves no cycle out of reach, so if it ends there is none. */
  lemma ShownAllAcyclic(listing: Listing, edges: map<string, set<string>>, walks: seq<seq<string>>)
    requires forall p | IsShownRoot(listing, edges, p) :: NoCycleAlong(edges, p)
    requires forall w :: w in walks <==> w != [] && IsShownRoot(listing, edges, w[0]) && Along(edges, w)
    requires ShowsAll(edges, walks)
    ensures Acyclic(edges)
  {
    hide IsShownRoot;
    forall v | Along(edges, v) ensures NoRepeats(v) {
      if |v| > 1 {
        assert v[1] in Entry(edges, v[0]);
        var u := WalkTo(edges, walks, v[0]);
        Continue(edges, u, v);
        var x := u + v[1..];
        assert NoRepeats(x);
        forall i, j | 0 <= i < j < |v| ensures v[i] != v[j] {
          assert v[i] == x[|u| - 1 + i] && v[j] == x[|u| - 1 + j];
        }
      }
    }
  }

  lemma WalkTo(edges: map<string, set<string>>, walks: seq<seq<string>>, p: string) returns (u: seq<string>)
    requires ShowsAll(edges, walks) && p in edges
    ensures u in walks && u != [] && u[|u| - 1] == p
  {
    assert EndsIn(walks, p);
    var i :| 0 <= i < |walks| && walks[i] != [] && walks[i][|walks[i]| - 1] == p;
    u := walks[i];
  }

  lemma Continue(edges: map<string, set<string>>, u: seq<string>, v: seq<string>)
    requires Along(edges, u) && Along(edges, v) && u[|u| - 1] == v[0]
    ensures Along(edges, u + v[1..]) && (u + v[1..])[0] == u[0]
  {
    var x := u + v[1..];
    forall i | 0 < i < |x| ensures x[i] in Entry(edges, x[i - 1]) {
      if i >= |u| { assert x[i] == v[i - |u| + 1] && x[i - 1] == v[i - |u|]; }
    }
  }

  lemma RawIsOneLine(lines: seq<string>, listing: Listing, edges: map<string, set<string>>,
                     nodes: map<string, NodeInfo>)
    requires ShowsRaw(lines, listing, edges, nodes) && Lists(listing, edges) && OneLineNames(edges, nodes)
    ensures forall i | 0 <= i < |lines| :: OneLine(lines[i])
  {
    hide ShowsAll, Acyclic;
    var children, walks :| RawView(lines, listing, edges, nodes, children, walks);
    hide Follows, FollowsInOrder, RootByRoot, NoRepeats, LineOf, OneLineNames, Labels, Site, IsShownRoot, Lists, Along;
    forall i | 0 <= i < |lines| ensures OneLine(lines[i]) {
      var w := walks[i];
      assert w in walks;
      AlongIsOneLine(listing, edges, nodes, w);
      HeaderIsOneLine(edges, nodes, w[|w| - 1]);
      if |w| > 1 { LineIsOneLine(edges, nodes, children, w); }
    }
  }

  lemma AlongIsOneLine(listing: Listing, edges: map<string, set<string>>, nodes: map<string, NodeInfo>, w: seq<string>)
    requires OneLineNames(edges, nodes) && Along(edges, w) && IsShownRoot(listing, edges, w[0]) && Lists(listing, edges)
    ensures OneLine(w[|w| - 1])
  {
    if |w| > 1 { assert w[|w| - 1] in Entry(edges, w[|w| - 2]); }
  }

  lemma AShownRoot(listing: Listing, edges: map<string, set<string>>)
    requires Lists(listing, edges)
    ensures edges != map[] <==> exists p :: IsShownRoot(listing, edges, p)
  {
    if edges != map[] {
      var p :| p in edges;
      var i :| 0 <= i < |listing| && listing[i].0 == p;
      assert IsShownRoot(listing, edges, listing[0].0)
             || exists q :: IsRoot(edges, q) && IsShownRoot(listing, edges, q);
    }
  }

  /** There is nothing to show exactly when there are no edges. */
  lemma RawIsEmptyWhen(lines: seq<string>, listing: Listing, edges: map<string, set<string>>,
                       nodes: map<string, NodeInfo>)
    requires ShowsRaw(lines, listing, edges, nodes) && Lists(listing, edges)
    ensures lines == [] <==> edges == map[]
  {
    AShownRoot(listing, edges);
    hide ShowsAll, Acyclic, Lists, IsShownRoot;
    var children, walks :| RawView(lines, listing, edges, nodes, children, walks);
    hide Follows, FollowsInOrder, RootByRoot, NoRepeats, RawLine;
    if lines != [] { assert walks[0] in walks; }
    if edges != map[] {
      var p :| IsShownRoot(listing, edges, p);
      assert [p][0] == p && Along(edges, [p]);
      assert [p] in walks;
    }
  }

  method RawLines(listing: Listing, ghost edges: map<string, set<string>>, nodes: map<string, NodeInfo>)
    returns (lines: seq<string>)
    requires Lists(listing, edges) && forall p | IsShownRoot(listing, edges, p) :: NoCycleAlong(edges, p)
    ensures ShowsRaw(lines, listing, edges, nodes)
  {
    hide WalksFrom, RawDepicts, Along, IsShownRoot, NoCycleAlong, Acyclic, ShowsAll, Ranked, LoopFree, NoRepeats, Lists;
    var kids, allTargets := FollowEdges(listing, edges);
    var roots := DisplayRoots(listing, allTargets, edges);
    forall p | p in roots ensures LoopFree(kids, p) { AlongLoops(edges, kids, p); }
    ghost var rank := RankLoopFree(kids, set p | p in roots);
    lines := RenderRoots(kids, nodes, roots, rank);
    ghost var walks := WalksFrom(kids, roots, rank);
    WalksFromDistinct(kids, roots, rank);
    WalksFromOrdered(kids, listing, roots, rank);
    RawWalks(listing, edges, kids, roots, rank);
    if Acyclic(edges) { AllShown(listing, edges, kids, walks); }
    if ShowsAll(edges, walks) { ShownAllAcyclic(listing, edges, walks); }
    assert RawView(lines, listing, edges, nodes, kids, walks);
  }

  // ---------------------------------------------------------------- the mapper

  lemma NamedGrows(targets: seq<string>, t: string)
    ensures Named(targets + [t]) == if t != "" then Named(targets) + {t} else Named(targets)
  {
    assert forall x :: x in targets + [t] <==> x in targets || x == t;
  }

  class HiveMapper {
    var nodes: map<string, NodeInfo>
    var edges: map<string, set<string>>
    var seenPings: map<string, set<string>>
    var seenFloodIds: seq<string>

    function State(): Graph
      reads this
    {
      Graph(nodes, edges, seenPings)
    }

    constructor ()
      ensures State() == EMPTY && seenFloodIds == []
    {
      nodes, edges, seenPings, seenFloodIds := map[], map[], map[], [];
    }

    method StartPing(floodId: string)
      modifies this`seenPings
      ensures State() == Topology.StartPing(old(State()), floodId)
    {
      seenPings := seenPings[floodId := {}];
    }

    method OnPing(message: Ping) returns (isNew: bool)
      modifies this`nodes, this`edges, this`seenPings
      ensures State() == Topology.OnPing(old(State()), message)
      ensures isNew == Accepts(old(State()), message)
    {
      if message.fields.None? { return false; }
      var f := message.fields.value;
      if f.floodId == "" || f.peer == "" { return false; }
      var seen := Entry(seenPings, f.floodId);
      if f.peer in seen { return false; }
      seenPings := seenPings[f.floodId := seen + {f.peer}];
      nodes := nodes[f.peer := f.info];
      IngestRoute(Route(message.rawRoute));
      isNew := true;
    }

    method IngestRoute(route: seq<Hop>)
      modifies this`edges
      ensures edges == AddRoute(old(edges), route)
    {
      for i := 0 to |route|
        invariant edges == AddRoute(old(edges), route[..i])
      {
        IngestHop(route[i]);
        assert route[..i + 1][..i] == route[..i];
      }
      assert route[..|route|] == route;
    }

    method IngestHop(hop: Hop)
      modifies this`edges
      ensures edges == AddHop(old(edges), hop)
    {
      if hop.NotADict? || hop.source == "" { return; }
      var source, targets := hop.source, hop.targets;
      ghost var before := Entry(edges, source);
      if source !in edges { edges := edges[source := {}]; }
      assert before + Named([]) == before;
      for j := 0 to |targets|
        invariant edges == old(edges)[source := before + Named(targets[..j])]
      {
        var t := targets[j];
        NamedGrows(targets[..j], t);
        assert targets[..j + 1] == targets[..j] + [t];
        if t != "" {
          edges := edges[source := edges[source] + {t}];
          assert before + (Named(targets[..j]) + {t}) == before + Named(targets[..j]) + {t};
        }
      }
      assert targets[..|targets|] == targets;
    }

    /** None is the KeyError raised when there is no room for any id. */
    method CheckFloodId(floodId: string, maxSize: int) returns (seen: Option<bool>)
      modifies this`seenFloodIds
      ensures seenFloodIds == FloodCache.Checked(old(seenFloodIds), floodId, maxSize)
      ensures seen == FloodCache.Seen(old(seenFloodIds), floodId, maxSize)
    {
      if floodId == "" { return Some(true); }
      if floodId in seenFloodIds { return Some(true); }
      while |seenFloodIds| >= maxSize
        invariant |seenFloodIds| <= |old(seenFloodIds)|
        invariant seenFloodIds == old(seenFloodIds)[|old(seenFloodIds)| - |seenFloodIds|..]
        invariant |seenFloodIds| < |old(seenFloodIds)| ==> |seenFloodIds| + 1 >= maxSize
        decreases |seenFloodIds|
      {
        if seenFloodIds == [] { return None; }
        seenFloodIds := seenFloodIds[1..];
      }
      seenFloodIds := seenFloodIds + [floodId];
      seen := Some(false);
    }

    method Clear()
      modifies this
      ensures State() == EMPTY && seenFloodIds == []
    {
      nodes, edges, seenPings, seenFloodIds := map[], map[], map[], [];
    }

    /**
     The text of the view asked for; the listing is the order in which iteration meets the edges. Unless a name has
     a newline in it, the lines of the text are the view.
     */
    method ToAscii(listing: Listing, rootPeer: Option<string>) returns (text: string)
      requires Lists(listing, edges)
      requires rootPeer.Some? ==> NoCycleOutward(edges, rootPeer.value)
      requires rootPeer.None? ==> forall p | IsShownRoot(listing, edges, p) :: NoCycleAlong(edges, p)
      ensures nodes == map[] && edges == map[] ==> text == "[No nodes discovered]"
      ensures (nodes != map[] || edges != map[]) && rootPeer.Some? ==>
                exists lines :: ShowsRooted(lines, listing, edges, nodes, rootPeer.value) && text == Join(lines)
      ensures (nodes != map[] || edges != map[]) && rootPeer.None? ==>
                exists lines :: ShowsRaw(lines, listing, edges, nodes)
                                && text == (if lines != [] then Join(lines) else "[No topology data]")
      ensures nodes != map[] && edges == map[] && rootPeer.None? ==> text == "[No topology data]"
      ensures (nodes != map[] || edges != map[]) && rootPeer.Some?
              && OneLineNames(edges, nodes) && OneLine(rootPeer.value) ==>
                ShowsRooted(Split(text), listing, edges, nodes, rootPeer.value)
      ensures edges != map[] && rootPeer.None? && OneLineNames(edges, nodes) ==>
                ShowsRaw(Split(text), listing, edges, nodes)
    {
      hide ShowsRooted, ShowsRaw, NoCycleOutward, NoCycleAlong, Lists, IsShownRoot, OneLineNames;
      if nodes == map[] && edges == map[] { return "[No nodes discovered]"; }
      var lines: seq<string>;
      if rootPeer.Some? {
        lines := RootedLines(listing, edges, nodes, rootPeer.value);
        RootedHasALine(lines, listing, edges, nodes, rootPeer.value);
        if OneLineNames(edges, nodes) && OneLine(rootPeer.value) {
          RootedIsOneLine(lines, listing, edges, nodes, rootPeer.value);
          SplitJoin(lines);
        }
      } else {
        lines := RawLines(listing, edges, nodes);
        RawIsEmptyWhen(lines, listing, edges, nodes);
        if OneLineNames(edges, nodes) && lines != [] {
          RawIsOneLine(lines, listing, edges, nodes);
          SplitJoin(lines);
        }
      }
      text := if lines != [] then Join(lines) else "[No topology data]";
    }
  }
}
