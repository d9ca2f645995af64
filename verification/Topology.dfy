/** The hive topology: an edge map and per-flood deduplication, built from PINGs in any order. */
module Topology {
  import opened Wrappers

  /** A route record: {"source": ..., "targets": [...]}, or something that is no dictionary. */
  datatype Hop = Hop(source: string, targets: seq<string>) | NotADict

  datatype NodeInfo = NodeInfo(siteId: Option<string>, publicKey: Option<string>, lang: Option<string>,
                               latency: Option<string>)

  /** An inner PING; fields is None when the payload is no dictionary. */
  datatype Ping = Ping(fields: Option<PingFields>, rawRoute: seq<Hop>)

  datatype PingFields = PingFields(floodId: string, peer: string, info: NodeInfo)

  datatype Graph = Graph(nodes: map<string, NodeInfo>, edges: map<string, set<string>>, seen: map<string, set<string>>)

  const EMPTY := Graph(map[], map[], map[])

  /** HiveMessage.route: only the records that name a source and at least one target. */
  function Route(raw: seq<Hop>): seq<Hop> {
    if raw == [] then []
    else (if raw[0].Hop? && raw[0].targets != [] && raw[0].source != "" then [raw[0]] else []) + Route(raw[1..])
  }

  function Named(targets: seq<string>): set<string> { set t | t in targets && t != "" }

  /** d.get(key, set()) */
  function Entry(d: map<string, set<string>>, key: string): set<string> {
    if key in d then d[key] else {}
  }

  function AddHop(edges: map<string, set<string>>, hop: Hop): map<string, set<string>> {
    if hop.NotADict? || hop.source == "" then edges
    else edges[hop.source := Entry(edges, hop.source) + Named(hop.targets)]
  }

  function AddRoute(edges: map<string, set<string>>, route: seq<Hop>): map<string, set<string>> {
    if route == [] then edges else AddHop(AddRoute(edges, route[..|route| - 1]), route[|route| - 1])
  }

  predicate WellFormed(p: Ping) { p.fields.Some? && p.fields.value.floodId != "" && p.fields.value.peer != "" }

  /** Whether on_ping takes the PING in. */
  predicate Accepts(g: Graph, p: Ping) {
    WellFormed(p) && p.fields.value.peer !in Entry(g.seen, p.fields.value.floodId)
  }

  function OnPing(g: Graph, p: Ping): Graph {
    if !WellFormed(p) then g
    else
      var f := p.fields.value;
      // a missing entry and an empty one are the same to Entry
      if f.peer in Entry(g.seen, f.floodId) then g
      else
        Graph(g.nodes[f.peer := f.info],
              AddRoute(g.edges, Route(p.rawRoute)),
              g.seen[f.floodId := Entry(g.seen, f.floodId) + {f.peer}])
  }

  function StartPing(g: Graph, floodId: string): Graph { g.(seen := g.seen[floodId := {}]) }

  // ---------------------------------------------------------------- what a route adds

  /** All (source, target) pairs of an edge map. */
  function Pairs(edges: map<string, set<string>>): set<(string, string)> {
    set s, t | s in edges && t in edges[s] :: (s, t)
  }

  /** Source s sends to target t somewhere in the PING's route. */
  predicate HopIn(p: Ping, s: string, t: string) {
    t != "" && s != "" && exists i :: 0 <= i < |p.rawRoute| && p.rawRoute[i].Hop?
                                      && p.rawRoute[i].source == s && t in p.rawRoute[i].targets
  }

  /** Source s has a record with at least one target in the PING's route. */
  predicate SourceIn(p: Ping, s: string) {
    s != "" && exists i :: 0 <= i < |p.rawRoute| && p.rawRoute[i].Hop?
                           && p.rawRoute[i].source == s && p.rawRoute[i].targets != []
  }

  lemma {:induction false} RouteMembers(raw: seq<Hop>, hop: Hop)
    ensures hop in Route(raw) <==> hop in raw && hop.Hop? && hop.targets != [] && hop.source != ""
  {
    if raw != [] {
      RouteMembers(raw[1..], hop);
      assert raw == [raw[0]] + raw[1..];
    }
  }

  lemma {:induction false} AddRouteAdds(edges: map<string, set<string>>, route: seq<Hop>, s: string, t: string)
    ensures s in AddRoute(edges, route) <==>
            s in edges || (s != "" && exists hop :: hop in route && hop.Hop? && hop.source == s)
    ensures t in Entry(AddRoute(edges, route), s) <==>
            t in Entry(edges, s)
            || (s != "" && t != "" && exists hop :: hop in route && hop.Hop? && hop.source == s && t in hop.targets)
  {
    if route != [] {
      var init, last := route[..|route| - 1], route[|route| - 1];
      AddRouteAdds(edges, init, s, t);
      assert route == init + [last];
      assert forall hop :: hop in route <==> hop in init || hop == last;
    }
  }

  /** What taking in a PING adds to the edges: its route's hops and nothing else. */
  lemma OnPingEdges(g: Graph, p: Ping, s: string, t: string)
    ensures t in Entry(OnPing(g, p).edges, s) <==> t in Entry(g.edges, s) || (Accepts(g, p) && HopIn(p, s, t))
    ensures s in OnPing(g, p).edges <==> s in g.edges || (Accepts(g, p) && SourceIn(p, s))
  {
    var route := Route(p.rawRoute);
    AddRouteAdds(g.edges, route, s, t);
    forall hop ensures hop in route <==> hop in p.rawRoute && hop.Hop? && hop.targets != [] && hop.source != "" {
      RouteMembers(p.rawRoute, hop);
    }
    if HopIn(p, s, t) {
      var i :| 0 <= i < |p.rawRoute| && p.rawRoute[i].Hop? && p.rawRoute[i].source == s && t in p.rawRoute[i].targets;
      assert p.rawRoute[i] in route;
    }
    if SourceIn(p, s) {
      var i :| 0 <= i < |p.rawRoute| && p.rawRoute[i].Hop? && p.rawRoute[i].source == s && p.rawRoute[i].targets != [];
      assert p.rawRoute[i] in route;
    }
  }

  // ---------------------------------------------------------------- any history of calls

  datatype Op = Started(floodId: string) | Pinged(ping: Ping) | Cleared

  function Apply(g: Graph, op: Op): Graph {
    match op
    case Started(f) => StartPing(g, f)
    case Pinged(p) => OnPing(g, p)
    case Cleared => EMPTY
  }

  /** The mapper after a history of calls on a new one. */
  function After(ops: seq<Op>): Graph {
    if ops == [] then EMPTY else Apply(After(ops[..|ops| - 1]), ops[|ops| - 1])
  }

  /** Call i is a PING naming this flood and peer. */
  predicate Names(ops: seq<Op>, i: nat, floodId: string, peer: string)
    requires i < |ops|
  {
    ops[i].Pinged? && WellFormed(ops[i].ping)
    && ops[i].ping.fields.value.floodId == floodId && ops[i].ping.fields.value.peer == peer
  }

  /** Call i forgets who was heard for this flood. */
  predicate Forgets(ops: seq<Op>, i: nat, floodId: string)
    requires i < |ops|
  {
    ops[i] == Started(floodId) || ops[i].Cleared?
  }

  /** The peer has been heard for the flood since the calls last forgot about it. */
  predicate HeardIn(ops: seq<Op>, floodId: string, peer: string) {
    exists i :: 0 <= i < |ops| && Names(ops, i, floodId, peer) && forall j | i < j < |ops| :: !Forgets(ops, j, floodId)
  }

  /** Call i is the first PING of its peer and flood since the last start_ping of the flood or clear. */
  predicate First(ops: seq<Op>, i: nat)
    requires i < |ops|
  {
    ops[i].Pinged? && WellFormed(ops[i].ping)
    && !HeardIn(ops[..i], ops[i].ping.fields.value.floodId, ops[i].ping.fields.value.peer)
  }

  lemma {:induction false} HeardIsHeard(ops: seq<Op>, floodId: string, peer: string)
    requires floodId != "" && peer != ""
    ensures peer in Entry(After(ops).seen, floodId) <==> HeardIn(ops, floodId, peer)
  {
    if ops != [] {
      var n := |ops| - 1;
      var init := ops[..n];
      HeardIsHeard(init, floodId, peer);
      assert forall i | 0 <= i < n :: ops[i] == init[i];
      if HeardIn(init, floodId, peer) && !Forgets(ops, n, floodId) {
        var i :| 0 <= i < n && Names(init, i, floodId, peer) && forall j | i < j < n :: !Forgets(init, j, floodId);
        assert Names(ops, i, floodId, peer);
        assert forall j | i < j < n :: !Forgets(init, j, floodId) ==> !Forgets(ops, j, floodId);
        assert HeardIn(ops, floodId, peer);
      }
      if HeardIn(ops, floodId, peer) && !Names(ops, n, floodId, peer) {
        var i :| 0 <= i < |ops| && Names(ops, i, floodId, peer)
            && forall j | i < j < |ops| :: !Forgets(ops, j, floodId);
        assert Names(init, i, floodId, peer);
        assert forall j | i < j < n :: !Forgets(ops, j, floodId) ==> !Forgets(init, j, floodId);
        assert HeardIn(init, floodId, peer);
      }
      if Names(ops, n, floodId, peer) { assert HeardIn(ops, floodId, peer); }
    }
  }

  /** Call i contributes the hop from s to t to the edges the mapper ends with. */
  predicate Contributes(ops: seq<Op>, i: nat, s: string, t: string)
    requires i < |ops|
  {
    First(ops, i) && HopIn(ops[i].ping, s, t) && forall j | i < j < |ops| :: !ops[j].Cleared?
  }

  /**
   After any history the edges are exactly the route hops of the first PING of each peer and flood since
   the flood was last started or the mapper cleared, among those since the last clear.
   */
  lemma {:induction false} EdgesAreFirstPings(ops: seq<Op>, s: string, t: string)
    ensures (s, t) in Pairs(After(ops).edges) <==> exists i :: 0 <= i < |ops| && Contributes(ops, i, s, t)
  {
    if ops != [] {
      var n := |ops| - 1;
      var init := ops[..n];
      EdgesAreFirstPings(init, s, t);
      assert forall i | 0 <= i < n :: ops[i] == init[i] && ops[..i] == init[..i];
      forall i | 0 <= i < n
        ensures Contributes(ops, i, s, t) <==> Contributes(init, i, s, t) && !ops[n].Cleared?
      {
        assert forall j | i < j < n :: init[j] == ops[j];
      }
      if ops[n].Pinged? {
        var p := ops[n].ping;
        OnPingEdges(After(init), p, s, t);
        if WellFormed(p) { HeardIsHeard(init, p.fields.value.floodId, p.fields.value.peer); }
        assert Accepts(After(init), p) <==> First(ops, n);
        assert Contributes(ops, n, s, t) <==> First(ops, n) && HopIn(p, s, t);
      }
    }
  }

  /** Call i tells of the peer, in a PING that was taken in and not cleared since. */
  predicate Announces(ops: seq<Op>, i: nat, peer: string)
    requires i < |ops|
  {
    First(ops, i) && ops[i].ping.fields.value.peer == peer && forall j | i < j < |ops| :: !ops[j].Cleared?
  }

  /** After any history a peer is known exactly when it was announced, and by what its last announcement said. */
  lemma {:induction false} NodesAreLastAnnounced(ops: seq<Op>, peer: string)
    ensures peer in After(ops).nodes <==> exists i :: 0 <= i < |ops| && Announces(ops, i, peer)
    ensures forall i | 0 <= i < |ops| && Announces(ops, i, peer)
                       && (forall j | i < j < |ops| :: !Announces(ops, j, peer)) ::
              peer in After(ops).nodes && After(ops).nodes[peer] == ops[i].ping.fields.value.info
  {
    if ops != [] {
      var n := |ops| - 1;
      var init := ops[..n];
      NodesAreLastAnnounced(init, peer);
      AnnouncedBefore(ops, peer);
      hide Announces;
      AnnouncedNow(ops, peer);
      forall i | 0 <= i < |ops| && Announces(ops, i, peer) && (forall j | i < j < |ops| :: !Announces(ops, j, peer))
        ensures peer in After(ops).nodes && After(ops).nodes[peer] == ops[i].ping.fields.value.info
      {
        if i < n { assert Announces(init, i, peer) && !Announces(ops, n, peer); }
      }
    }
  }

  lemma AnnouncedBefore(ops: seq<Op>, peer: string)
    requires ops != []
    ensures var n := |ops| - 1;
            forall i | 0 <= i < n :: Announces(ops, i, peer) <==> Announces(ops[..n], i, peer) && !ops[n].Cleared?
  {
    var n := |ops| - 1;
    var init := ops[..n];
    forall i | 0 <= i < n ensures Announces(ops, i, peer) <==> Announces(init, i, peer) && !ops[n].Cleared? {
      assert ops[i] == init[i] && ops[..i] == init[..i];
      assert forall j | i < j < n :: init[j] == ops[j];
    }
  }

  /** What the last call does to the peer. */
  lemma AnnouncedNow(ops: seq<Op>, peer: string)
    requires ops != []
    ensures var n := |ops| - 1;
            var before, after := After(ops[..n]).nodes, After(ops).nodes;
            && (Announces(ops, n, peer) ==>
                  ops[n].Pinged? && WellFormed(ops[n].ping) && peer in after
                  && after[peer] == ops[n].ping.fields.value.info)
            && (!Announces(ops, n, peer) && !ops[n].Cleared? ==>
                  (peer in after <==> peer in before) && (peer in before ==> after[peer] == before[peer]))
            && (ops[n].Cleared? ==> peer !in after)
  {
    var n := |ops| - 1;
    if ops[n].Pinged? && WellFormed(ops[n].ping) {
      var f := ops[n].ping.fields.value;
      HeardIsHeard(ops[..n], f.floodId, f.peer);
      hide HeardIn;
    }
  }

  // ---------------------------------------------------------------- a batch in any order

  function OnPings(g: Graph, ps: seq<Ping>): Graph {
    if ps == [] then g else OnPing(OnPings(g, ps[..|ps| - 1]), ps[|ps| - 1])
  }

  predicate DistinctPings(ps: seq<Ping>) {
    && (forall i | 0 <= i < |ps| :: WellFormed(ps[i]))
    && (forall i, j | 0 <= i < j < |ps| ::
          || ps[i].fields.value.floodId != ps[j].fields.value.floodId
          || ps[i].fields.value.peer != ps[j].fields.value.peer)
  }

  predicate Tells(p: Ping, floodId: string, peer: string) {
    WellFormed(p) && p.fields.value.floodId == floodId && p.fields.value.peer == peer
  }

  lemma LastSplits(ps: seq<Ping>)
    requires ps != []
    ensures forall p :: p in ps <==> p in ps[..|ps| - 1] || p == ps[|ps| - 1]
  {
    assert ps == ps[..|ps| - 1] + [ps[|ps| - 1]];
  }

  lemma {:induction false} BatchHeard(g: Graph, ps: seq<Ping>, floodId: string, peer: string)
    requires DistinctPings(ps)
    ensures peer in Entry(OnPings(g, ps).seen, floodId) <==>
            peer in Entry(g.seen, floodId) || exists p :: p in ps && Tells(p, floodId, peer)
  {
    if ps != [] {
      var last := ps[|ps| - 1];
      BatchHeard(g, ps[..|ps| - 1], floodId, peer);
      LastSplits(ps);
      assert peer in Entry(OnPings(g, ps).seen, floodId) <==>
             peer in Entry(OnPings(g, ps[..|ps| - 1]).seen, floodId) || Tells(last, floodId, peer);
    }
  }

  lemma {:induction false} BatchFloods(g: Graph, ps: seq<Ping>, floodId: string)
    requires DistinctPings(ps)
    ensures floodId in OnPings(g, ps).seen <==>
            floodId in g.seen || exists p, peer :: p in ps && Tells(p, floodId, peer)
  {
    if ps != [] {
      BatchFloods(g, ps[..|ps| - 1], floodId);
      LastSplits(ps);
      var last := ps[|ps| - 1];
      assert Tells(last, last.fields.value.floodId, last.fields.value.peer);
    }
  }

  lemma BatchAccepts(g: Graph, ps: seq<Ping>)
    requires ps != [] && DistinctPings(ps)
    ensures Accepts(OnPings(g, ps[..|ps| - 1]), ps[|ps| - 1]) <==> Accepts(g, ps[|ps| - 1])
  {
    var last := ps[|ps| - 1].fields.value;
    BatchHeard(g, ps[..|ps| - 1], last.floodId, last.peer);
    NotYetHeard(ps);
  }

  lemma {:induction false} BatchPeers(g: Graph, ps: seq<Ping>, peer: string)
    requires DistinctPings(ps)
    ensures peer in OnPings(g, ps).nodes <==>
            peer in g.nodes || exists p, floodId :: p in ps && Tells(p, floodId, peer) && Accepts(g, p)
  {
    if ps != [] {
      BatchPeers(g, ps[..|ps| - 1], peer);
      LastSplits(ps);
      BatchAccepts(g, ps);
      var last := ps[|ps| - 1];
      assert Tells(last, last.fields.value.floodId, last.fields.value.peer);
    }
  }

  lemma NotYetHeard(ps: seq<Ping>)
    requires ps != [] && DistinctPings(ps)
    ensures forall p | p in ps[..|ps| - 1] ::
              p.fields.value.floodId != ps[|ps| - 1].fields.value.floodId
              || p.fields.value.peer != ps[|ps| - 1].fields.value.peer
  {
  }

  lemma {:induction false} BatchEdges(g: Graph, ps: seq<Ping>, s: string, t: string)
    requires DistinctPings(ps)
    ensures t in Entry(OnPings(g, ps).edges, s) <==>
            t in Entry(g.edges, s) || exists p :: p in ps && Accepts(g, p) && HopIn(p, s, t)
    ensures s in OnPings(g, ps).edges <==>
            s in g.edges || exists p :: p in ps && Accepts(g, p) && SourceIn(p, s)
  {
    if ps != [] {
      var init, last := ps[..|ps| - 1], ps[|ps| - 1];
      BatchEdges(g, init, s, t);
      BatchAccepts(g, ps);
      LastSplits(ps);
      OnPingEdges(OnPings(g, init), last, s, t);
    }
  }

  /**
   The order in which a batch arrives does not matter: the edges, the deduplication sets and the peers
   known are the same for every permutation of PINGs with pairwise distinct flood and peer.
   */
  lemma OrderDoesNotMatter(g: Graph, ps: seq<Ping>, qs: seq<Ping>)
    requires DistinctPings(ps) && DistinctPings(qs) && multiset(ps) == multiset(qs)
    ensures OnPings(g, ps).edges == OnPings(g, qs).edges
    ensures OnPings(g, ps).seen == OnPings(g, qs).seen
    ensures OnPings(g, ps).nodes.Keys == OnPings(g, qs).nodes.Keys
  {
    forall p ensures p in ps <==> p in qs {
      assert p in ps <==> p in multiset(ps);
      assert p in qs <==> p in multiset(qs);
    }
    var a, b := OnPings(g, ps), OnPings(g, qs);
    forall s, t ensures t in Entry(a.edges, s) <==> t in Entry(b.edges, s) {
      BatchEdges(g, ps, s, t);
      BatchEdges(g, qs, s, t);
    }
    forall s ensures s in a.edges <==> s in b.edges {
      BatchEdges(g, ps, s, "");
      BatchEdges(g, qs, s, "");
    }
    forall f, peer ensures peer in Entry(a.seen, f) <==> peer in Entry(b.seen, f) {
      BatchHeard(g, ps, f, peer);
      BatchHeard(g, qs, f, peer);
    }
    forall f ensures f in a.seen <==> f in b.seen {
      BatchFloods(g, ps, f);
      BatchFloods(g, qs, f);
    }
    forall peer ensures peer in a.nodes <==> peer in b.nodes {
      BatchPeers(g, ps, peer);
      BatchPeers(g, qs, peer);
    }
    SameMaps(a.edges, b.edges);
    SameMaps(a.seen, b.seen);
  }

  lemma SameMaps(m: map<string, set<string>>, n: map<string, set<string>>)
    requires forall k :: k in m <==> k in n
    requires forall k, x :: x in Entry(m, k) <==> x in Entry(n, k)
    ensures m == n
  {
    forall k | k in m ensures m[k] == n[k] {
      assert m[k] == Entry(m, k) && n[k] == Entry(n, k);
    }
  }
}
