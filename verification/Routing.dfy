/** The routing tables of the network simulator (code/hupsim.pl). */
module Routing {
  import opened Common

  type Id = nat

  const INFINITY: nat := 65535

  /** `ids` are the defined entries of the router array and `routes[u]` the defined entries of the
      route array of router u, each in array order. */
  datatype Topology = Topology(ids: seq<Id>, routes: map<Id, seq<Id>>) {
    function Neighbours(u: Id): seq<Id> {
      if u in routes then routes[u] else []
    }

    /** Routes lead to routers. */
    ghost predicate Valid() {
      forall u, v :: v in Neighbours(u) ==> v in routes
    }

    /** `ids` lists every router once. */
    ghost predicate Listed() {
      Distinct(ids) && forall u :: u in ids <==> u in routes
    }

    ghost predicate Undirected() {
      forall u, v :: v in Neighbours(u) <==> u in Neighbours(v)
    }
  }

  // ----- Building the topology from the map file -----

  datatype Link = Link(from: Id, to: Id)

  /** Insert into an increasing sequence, as assigning to an array entry does. */
  function Insert(s: seq<Id>, x: Id): (r: seq<Id>)
    ensures forall y :: y in r <==> y == x || y in s
  {
    if s == [] || x < s[0] then [x] + s
    else if s[0] == x then s
    else
      assert s == [s[0]] + s[1..];
      [s[0]] + Insert(s[1..], x)
  }

  ghost predicate Increasing(s: seq<Id>) { forall i, j :: 0 <= i < j < |s| ==> s[i] < s[j] }

  lemma {:induction false} InsertIncreasing(s: seq<Id>, x: Id)
    requires Increasing(s)
    ensures Increasing(Insert(s, x))
  {
    if s != [] && s[0] < x {
      InsertIncreasing(s[1..], x);
      var r := Insert(s[1..], x);
      forall j | 0 <= j < |r| ensures s[0] < r[j] { assert r[j] in r; }
    }
  }

  function AddRouter(t: Topology, u: Id): Topology {
    if u in t.ids then t else Topology(Insert(t.ids, u), t.routes[u := []])
  }

  function AddRoute(t: Topology, u: Id, v: Id): Topology {
    t.(routes := t.routes[u := Insert(t.Neighbours(u), v)])
  }

  /** One line of the map file. */
  function AddLink(t: Topology, l: Link): Topology {
    var t := AddRouter(AddRouter(t, l.to), l.from);
    AddRoute(AddRoute(t, l.to, l.from), l.from, l.to)
  }

  function Build(links: seq<Link>): Topology {
    if links == [] then Topology([], map[]) else AddLink(Build(links[..|links| - 1]), links[|links| - 1])
  }

  lemma AddLinkNeighbours(t: Topology, l: Link, u: Id, v: Id)
    requires t.Valid() && t.Listed()
    ensures v in AddLink(t, l).Neighbours(u) <==>
              v in t.Neighbours(u) || (u == l.to && v == l.from) || (u == l.from && v == l.to)
  {
  }

  lemma AddLinkRouters(t: Topology, l: Link, u: Id)
    requires t.Valid() && t.Listed()
    ensures u in AddLink(t, l).ids <==> u in t.ids || u == l.to || u == l.from
    ensures u in AddLink(t, l).routes <==> u in AddLink(t, l).ids
  {
  }

  lemma AddLinkOrder(t: Topology, l: Link)
    requires Increasing(t.ids)
    ensures Increasing(AddLink(t, l).ids)
  {
    InsertIncreasing(t.ids, l.to);
    InsertIncreasing(AddRouter(t, l.to).ids, l.from);
  }

  /** `r` is `t` with one more link. */
  ghost predicate HasLinked(t: Topology, l: Link, r: Topology) {
    && (forall u :: u in r.ids <==> u in t.ids || u == l.to || u == l.from)
    && (forall u :: u in r.routes <==> u in r.ids)
    && (forall u, v :: v in r.Neighbours(u) <==>
          v in t.Neighbours(u) || (u == l.to && v == l.from) || (u == l.from && v == l.to))
  }

  lemma AddLinkLinks(t: Topology, l: Link)
    requires t.Valid() && t.Listed()
    ensures HasLinked(t, l, AddLink(t, l))
  {
    forall u
      ensures u in AddLink(t, l).ids <==> u in t.ids || u == l.to || u == l.from
      ensures u in AddLink(t, l).routes <==> u in AddLink(t, l).ids
    {
      AddLinkRouters(t, l, u);
    }
    forall u, v
      ensures v in AddLink(t, l).Neighbours(u) <==>
                v in t.Neighbours(u) || (u == l.to && v == l.from) || (u == l.from && v == l.to)
    {
      AddLinkNeighbours(t, l, u, v);
    }
  }

  lemma LinkedStaysUndirected(t: Topology, l: Link, r: Topology)
    requires t.Valid() && t.Listed() && t.Undirected() && HasLinked(t, l, r) && Increasing(r.ids)
    ensures r.Valid() && r.Listed() && r.Undirected()
  {
  }

  /** Every map file gives a well-formed undirected topology. */
  lemma {:induction false} BuildIsUndirected(links: seq<Link>)
    ensures Build(links).Valid() && Build(links).Listed() && Build(links).Undirected()
    ensures Increasing(Build(links).ids)
  {
    if links != [] {
      var t, l := Build(links[..|links| - 1]), links[|links| - 1];
      BuildIsUndirected(links[..|links| - 1]);
      AddLinkOrder(t, l);
      AddLinkLinks(t, l);
      LinkedStaysUndirected(t, l, AddLink(t, l));
    }
  }

  /** Some line of the map file joins u and v. */
  ghost predicate Joins(links: seq<Link>, u: Id, v: Id) {
    exists i :: 0 <= i < |links| && IsBetween(links[i], u, v)
  }

  ghost predicate Mentions(links: seq<Link>, u: Id) {
    exists i :: 0 <= i < |links| && (links[i].from == u || links[i].to == u)
  }

  ghost predicate IsBetween(l: Link, u: Id, v: Id) { (l.from == u && l.to == v) || (l.from == v && l.to == u) }

  lemma LastLink(links: seq<Link>, u: Id, v: Id)
    requires links != []
    ensures var k := |links| - 1;
            && (Joins(links, u, v) <==> Joins(links[..k], u, v) || IsBetween(links[k], u, v))
            && (Mentions(links, u) <==> Mentions(links[..k], u) || links[k].from == u || links[k].to == u)
  {
    var k := |links| - 1;
    assert forall i :: 0 <= i < k ==> links[..k][i] == links[i];
    assert links[k] == links[|links| - 1];
  }

  /** The topology has exactly the routers and the links of the map file. */
  lemma {:induction false} BuildIsExact(links: seq<Link>, u: Id, v: Id)
    ensures v in Build(links).Neighbours(u) <==> Joins(links, u, v)
    ensures u in Build(links).ids <==> Mentions(links, u)
  {
    if links != [] {
      var k := |links| - 1;
      BuildIsUndirected(links[..k]);
      BuildIsExact(links[..k], u, v);
      AddLinkNeighbours(Build(links[..k]), links[k], u, v);
      AddLinkRouters(Build(links[..k]), links[k], u);
      LastLink(links, u, v);
    }
  }

  // ----- Walks and distances -----

  /** There is a walk of exactly k hops from u to v. */
  ghost predicate Walk(t: Topology, u: Id, v: Id, k: nat)
    decreases k
  {
    if k == 0 then u == v else exists w :: v in t.Neighbours(w) && Walk(t, u, w, k - 1)
  }

  ghost predicate IsDistance(t: Topology, u: Id, v: Id, d: nat) {
    Walk(t, u, v, d) && forall k: nat :: k < d ==> !Walk(t, u, v, k)
  }

  ghost predicate Reachable(t: Topology, u: Id, v: Id) {
    exists k: nat :: Walk(t, u, v, k)
  }

  ghost predicate Connected(t: Topology) {
    forall u, v {:trigger Reachable(t, u, v)} :: u in t.routes && v in t.routes ==> Reachable(t, u, v)
  }

  lemma {:induction false} WalkJoin(t: Topology, u: Id, v: Id, w: Id, j: nat, k: nat)
    requires Walk(t, u, v, j) && Walk(t, v, w, k)
    ensures Walk(t, u, w, j + k)
    decreases k
  {
    if k > 0 {
      var x :| w in t.Neighbours(x) && Walk(t, v, x, k - 1);
      WalkJoin(t, u, v, x, j, k - 1);
    }
  }

  lemma EdgeWalk(t: Topology, u: Id, v: Id)
    requires v in t.Neighbours(u)
    ensures Walk(t, u, v, 1)
  {
    assert Walk(t, u, u, 0);
  }

  lemma {:induction false} LeastWalk(t: Topology, u: Id, v: Id, k: nat) returns (d: nat)
    requires Walk(t, u, v, k)
    ensures IsDistance(t, u, v, d)
    decreases k
  {
    if j: nat :| j < k && Walk(t, u, v, j) {
      d := LeastWalk(t, u, v, j);
    } else {
      d := k;
    }
  }

  // ----- Dijkstra's labels -----

  /** The `distance`, `done` and `predecessor` fields of the routers. */
  datatype Labels = Labels(distance: map<Id, nat>, done: set<Id>, predecessor: map<Id, Id>)

  /** v was last reached over an edge from a settled router. */
  ghost predicate Reached(t: Topology, l: Labels, settled: set<Id>, v: Id)
    requires v in l.distance
  {
    && v in l.predecessor
    && l.predecessor[v] in settled
    && l.predecessor[v] in l.distance
    && v in t.Neighbours(l.predecessor[v])
    && l.distance[l.predecessor[v]] + 1 == l.distance[v]
  }

  /** Labels from `self`: 0 for itself, and finite labels come over settled predecessors. */
  ghost predicate Sound(t: Topology, self: Id, l: Labels, settled: set<Id>) {
    && (forall v :: v in l.distance <==> v in t.routes)
    && self in l.distance && l.distance[self] == 0
    && (forall v :: v in l.distance ==> l.distance[v] <= INFINITY)
    && (forall v {:trigger Reached(t, l, settled, v)} ::
          v in l.distance && l.distance[v] < INFINITY && v != self ==> Reached(t, l, settled, v))
  }

  ghost predicate Relaxed(t: Topology, l: Labels, u: Id)
    requires t.Valid() && u in l.distance && forall v :: v in l.distance <==> v in t.routes
  {
    forall w :: w in t.Neighbours(u) ==> l.distance[w] <= l.distance[u] + 1
  }

  /** The edges of the routers that are done are relaxed, and those routers are the nearest ones. */
  ghost predicate Settled(t: Topology, l: Labels)
    requires t.Valid() && forall v :: v in l.distance <==> v in t.routes
  {
    && (forall v :: v in l.done ==> v in l.distance)
    && (forall v {:trigger Relaxed(t, l, v)} :: v in l.done ==> Relaxed(t, l, v))
    && (forall v, w :: v in l.done && w in l.distance && w !in l.done && v in l.distance ==> l.distance[v] <= l.distance[w])
  }

  ghost predicate Inv(t: Topology, self: Id, l: Labels) {
    t.Valid() && Sound(t, self, l, l.done) && Settled(t, l)
  }

  /** No router that is not done is nearer. */
  ghost predicate Nearest(l: Labels, next: Id) {
    next in l.distance && forall w :: w in l.distance && w !in l.done ==> l.distance[next] <= l.distance[w]
  }

  ghost predicate EdgesRelaxed(t: Topology, l: Labels, next: Id, k: nat) {
    && next in l.distance && k <= |t.Neighbours(next)|
    && forall i :: 0 <= i < k ==>
         var w := t.Neighbours(next)[i]; w in l.distance && l.distance[w] <= l.distance[next] + 1
  }

  /** While the edges of `next` are being relaxed; `k` of them have been. */
  ghost predicate Relaxing(t: Topology, self: Id, l: Labels, next: Id, k: nat) {
    && t.Valid() && next in t.routes && next !in l.done
    && Sound(t, self, l, l.done + {next}) && Settled(t, l)
    && Nearest(l, next) && EdgesRelaxed(t, l, next, k)
  }

  function Relax(l: Labels, next: Id, w: Id): Labels
    requires next in l.distance && w in l.distance
  {
    if l.distance[w] > l.distance[next] + 1 then
      l.(distance := l.distance[w := l.distance[next] + 1], predecessor := l.predecessor[w := next])
    else l
  }

  lemma RelaxKeepsSound(t: Topology, self: Id, l: Labels, next: Id, k: nat)
    requires Relaxing(t, self, l, next, k) && k < |t.Neighbours(next)|
    ensures Sound(t, self, Relax(l, next, t.Neighbours(next)[k]), l.done + {next})
  {
    var w := t.Neighbours(next)[k];
    var r := Relax(l, next, w);
    if r != l {
      assert w !in l.done && w != next;
      forall v | v in r.distance && r.distance[v] < INFINITY && v != self
        ensures Reached(t, r, l.done + {next}, v)
      {
        if v != w {
          assert Reached(t, l, l.done + {next}, v);
        }
      }
    }
  }

  lemma RelaxKeepsSettled(t: Topology, l: Labels, next: Id, w: Id)
    requires t.Valid() && (forall v :: v in l.distance <==> v in t.routes)
    requires Settled(t, l) && next in l.distance && next !in l.done && w in l.distance
    ensures Settled(t, Relax(l, next, w))
  {
    var r := Relax(l, next, w);
    if r != l {
      assert w !in l.done;
      forall v | v in r.done ensures Relaxed(t, r, v) { assert Relaxed(t, l, v); }
      forall v, u | v in r.done && u in r.distance && u !in r.done && v in r.distance
        ensures r.distance[v] <= r.distance[u]
      {
        assert l.distance[v] <= l.distance[u];
        assert l.distance[v] <= l.distance[next];
      }
    }
  }

  lemma RelaxKeepsNearest(t: Topology, l: Labels, next: Id, k: nat)
    requires k < |t.Neighbours(next)| && t.Neighbours(next)[k] in l.distance
    requires Nearest(l, next) && EdgesRelaxed(t, l, next, k)
    ensures var r := Relax(l, next, t.Neighbours(next)[k]);
            Nearest(r, next) && EdgesRelaxed(t, r, next, k + 1)
  {
  }

  lemma RelaxKeeps(t: Topology, self: Id, l: Labels, next: Id, k: nat)
    requires Relaxing(t, self, l, next, k) && k < |t.Neighbours(next)|
    ensures Relaxing(t, self, Relax(l, next, t.Neighbours(next)[k]), next, k + 1)
  {
    RelaxKeepsSound(t, self, l, next, k);
    RelaxKeepsSettled(t, l, next, t.Neighbours(next)[k]);
    RelaxKeepsNearest(t, l, next, k);
  }

  lemma DoneKeeps(t: Topology, self: Id, l: Labels, next: Id)
    requires Relaxing(t, self, l, next, |t.Neighbours(next)|)
    ensures Inv(t, self, l.(done := l.done + {next}))
  {
    var r := l.(done := l.done + {next});
    forall v | v in l.distance && l.distance[v] < INFINITY && v != self
      ensures Reached(t, r, r.done, v)
    {
      assert Reached(t, l, l.done + {next}, v);
    }
    forall v | v in r.done ensures v in r.distance && Relaxed(t, r, v) {
      if v in l.done {
        assert Relaxed(t, l, v);
      }
    }
  }

  // ----- What the finished labels mean -----

  ghost predicate Finished(t: Topology, self: Id, l: Labels) {
    Inv(t, self, l) && forall v :: v in t.routes ==> v in l.done
  }

  /** Following predecessors from v gives a walk of the length of its label. */
  lemma {:induction false} ChainWalk(t: Topology, self: Id, l: Labels, v: Id)
    requires Sound(t, self, l, l.done) && v in l.distance && l.distance[v] < INFINITY
    ensures Walk(t, self, v, l.distance[v])
    decreases l.distance[v]
  {
    if v != self {
      assert Reached(t, l, l.done, v);
      ChainWalk(t, self, l, l.predecessor[v]);
    }
  }

  /** Following predecessors from v visits one router for each distance up to that of v. */
  lemma {:induction false} ChainSet(t: Topology, self: Id, l: Labels, v: Id) returns (visited: set<Id>)
    requires Sound(t, self, l, l.done) && v in l.distance && l.distance[v] < INFINITY
    ensures |visited| == l.distance[v] + 1
    ensures visited <= t.routes.Keys
    ensures forall x :: x in visited ==> x in l.distance && l.distance[x] <= l.distance[v]
    decreases l.distance[v]
  {
    if v == self {
      visited := {v};
    } else {
      assert Reached(t, l, l.done, v);
      visited := ChainSet(t, self, l, l.predecessor[v]);
      visited := visited + {v};
    }
  }

  lemma LabelBelowSize(t: Topology, self: Id, l: Labels, v: Id)
    requires t.Valid() && Sound(t, self, l, l.done) && v in l.distance && l.distance[v] < INFINITY
    ensures l.distance[v] < |t.routes|
  {
    var visited := ChainSet(t, self, l, v);
    SubsetSize(visited, t.routes.Keys);
  }

  /** No walk is shorter than the label of its end, and labels at the end of walks are finite. */
  lemma {:induction false} LabelBelowWalk(t: Topology, self: Id, l: Labels, v: Id, k: nat)
    requires Finished(t, self, l) && |t.routes| < INFINITY && Walk(t, self, v, k)
    ensures v in l.distance && l.distance[v] <= k && l.distance[v] < INFINITY
    decreases k
  {
    if k > 0 {
      var w :| v in t.Neighbours(w) && Walk(t, self, w, k - 1);
      LabelBelowWalk(t, self, l, w, k - 1);
      LabelBelowSize(t, self, l, w);
      assert Relaxed(t, l, w);
    }
  }

  /** On a connected topology the finished labels are the distances. */
  lemma LabelIsDistance(t: Topology, self: Id, l: Labels, v: Id)
    requires Finished(t, self, l) && Connected(t) && |t.routes| < INFINITY && v in t.routes
    ensures l.distance[v] < INFINITY && IsDistance(t, self, v, l.distance[v])
  {
    assert Reachable(t, self, v);
    var k: nat :| Walk(t, self, v, k);
    LabelBelowWalk(t, self, l, v, k);
    ChainWalk(t, self, l, v);
    forall j: nat | j < l.distance[v] ensures !Walk(t, self, v, j) {
      if Walk(t, self, v, j) {
        LabelBelowWalk(t, self, l, v, j);
        assert false;
      }
    }
  }

  // ----- Next hops and forwarding -----

  /** h is a neighbour of u one hop nearer to v. */
  ghost predicate IsNextHop(t: Topology, u: Id, v: Id, h: Id) {
    h in t.Neighbours(u) && exists d: nat :: IsDistance(t, u, v, d + 1) && IsDistance(t, h, v, d)
  }

  lemma NextHopFromWalk(t: Topology, u: Id, v: Id, h: Id, d: nat)
    requires h in t.Neighbours(u) && IsDistance(t, u, v, d + 1) && Walk(t, h, v, d)
    ensures IsNextHop(t, u, v, h)
  {
    forall j: nat | j < d ensures !Walk(t, h, v, j) {
      if Walk(t, h, v, j) {
        EdgeWalk(t, u, h);
        WalkJoin(t, u, h, v, 1, j);
        assert false;
      }
    }
    assert IsDistance(t, h, v, d);
  }

  /** The routing table of one router: a next hop for every other router. */
  ghost predicate GoodTable(t: Topology, u: Id, table: map<Id, Id>) {
    && (forall v :: v in t.routes && v != u ==> v in table)
    && (forall v {:trigger IsNextHop(t, u, v, table[v])} :: v in t.routes && v != u ==> IsNextHop(t, u, v, table[v]))
  }

  ghost predicate GoodTables(t: Topology, tables: map<Id, map<Id, Id>>) {
    forall u :: u in t.routes ==> u in tables && GoodTable(t, u, tables[u])
  }

  /** Where a packet for v that starts at u is after k hops; it stays once delivered. */
  ghost function Forward(t: Topology, tables: map<Id, map<Id, Id>>, u: Id, v: Id, k: nat): Id
    requires t.Valid() && GoodTables(t, tables) && u in t.routes && v in t.routes
    decreases k
  {
    if k == 0 || u == v then u
    else
      assert IsNextHop(t, u, v, tables[u][v]);
      Forward(t, tables, tables[u][v], v, k - 1)
  }

  lemma DistanceUnique(t: Topology, u: Id, v: Id, d: nat, e: nat)
    requires IsDistance(t, u, v, d) && IsDistance(t, u, v, e)
    ensures d == e
  {
  }

  /** If every router forwards by its own table, a packet that is not dropped reaches its destination
      in exactly the shortest-path number of hops, and not before. */
  lemma {:induction false} Delivery(t: Topology, tables: map<Id, map<Id, Id>>, u: Id, v: Id, d: nat)
    requires t.Valid() && GoodTables(t, tables) && u in t.routes && v in t.routes
    requires IsDistance(t, u, v, d)
    ensures Forward(t, tables, u, v, d) == v
    ensures forall k: nat :: k < d ==> Forward(t, tables, u, v, k) != v
    decreases d
  {
    if d > 0 {
      assert u != v by {
        if u == v { assert Walk(t, u, v, 0); }
      }
      var h := tables[u][v];
      assert IsNextHop(t, u, v, h);
      var e: nat :| IsDistance(t, u, v, e + 1) && IsDistance(t, h, v, e);
      DistanceUnique(t, u, v, d, e + 1);
      Delivery(t, tables, h, v, d - 1);
    }
  }

  /** Going back from v along the predecessors has led to s, short of `self`. */
  ghost predicate Traced(t: Topology, self: Id, l: Labels, v: Id, s: Id) {
    && v in l.distance && IsDistance(t, self, v, l.distance[v])
    && s in l.distance && s != self && Reached(t, l, l.done, s)
    && l.distance[s] <= l.distance[v] < INFINITY
    && Walk(t, s, v, l.distance[v] - l.distance[s])
  }

  lemma TraceStart(t: Topology, self: Id, l: Labels, v: Id)
    requires Finished(t, self, l) && Connected(t) && |t.routes| < INFINITY && v in t.routes && v != self
    ensures Traced(t, self, l, v, v)
  {
    LabelIsDistance(t, self, l, v);
  }

  lemma TraceStep(t: Topology, self: Id, l: Labels, v: Id, s: Id)
    requires Sound(t, self, l, l.done) && Traced(t, self, l, v, s) && l.predecessor[s] != self
    ensures Traced(t, self, l, v, l.predecessor[s])
    ensures l.distance[l.predecessor[s]] < l.distance[s]
  {
    var p := l.predecessor[s];
    assert Reached(t, l, l.done, p);
    EdgeWalk(t, p, s);
    WalkJoin(t, p, s, v, 1, l.distance[v] - l.distance[s]);
  }

  lemma TraceEnd(t: Topology, self: Id, l: Labels, v: Id, s: Id)
    requires Sound(t, self, l, l.done) && Traced(t, self, l, v, s) && l.predecessor[s] == self
    ensures IsNextHop(t, self, v, s)
  {
    NextHopFromWalk(t, self, v, s, l.distance[v] - 1);
  }

  // ----- The simulator object -----

  /** All routers, with the fields that `createTable` keeps on each of them. The labels are left
      over from one router's run to the next. */
  class Simulator {
    const topo: Topology
    var distance: map<Id, nat>
    var done: set<Id>
    var predecessor: map<Id, Id>
    var routingTable: map<Id, map<Id, Id>>

    constructor (topo: Topology)
      ensures this.topo == topo && distance == map[] && done == {} && routingTable == map[]
    {
      this.topo := topo;
      distance, done, predecessor, routingTable := map[], {}, map[], map[];
    }

    ghost function View(): Labels
      reads this
    {
      Labels(distance, done, predecessor)
    }

    /** Only routers carry labels. */
    ghost predicate Labelled()
      reads this
    {
      topo.Valid() && topo.Listed() && (forall v :: v in distance ==> v in topo.routes) && (forall v :: v in done ==> v in topo.routes)
    }

    /** The first loop of `createTable`. */
    method Reset(self: Id)
      requires Labelled() && self in topo.routes
      modifies this`distance, this`done
      ensures Labelled() && Inv(topo, self, View()) && done == {}
    {
      for i := 0 to |topo.ids|
        invariant Labelled()
        invariant forall j :: 0 <= j < i ==>
                    topo.ids[j] !in done && topo.ids[j] in distance &&
                    distance[topo.ids[j]] == if topo.ids[j] == self then 0 else INFINITY
      {
        var v := topo.ids[i];
        done := done - {v};
        if v == self {
          distance := distance[v := 0];
        } else {
          distance := distance[v := INFINITY];
        }
      }
    }

    /** The router to visit next: the first of the nearest ones that are not done. */
    method SelectNext() returns (next: Id)
      requires topo.Listed() && forall v :: v in topo.routes <==> v in distance
      requires forall v :: v in distance ==> distance[v] <= INFINITY
      requires exists v :: v in topo.routes && v !in done
      ensures next in topo.routes && next !in done && Nearest(View(), next)
    {
      var found := None;
      var min := INFINITY + 1;
      for i := 0 to |topo.ids|
        invariant found.None? ==> min == INFINITY + 1
        invariant found.Some? ==>
                    found.value in topo.routes && found.value !in done && min == distance[found.value]
        invariant forall j :: 0 <= j < i && topo.ids[j] !in done ==> min <= distance[topo.ids[j]]
      {
        var v := topo.ids[i];
        if v !in done && distance[v] < min {
          found := Some(v);
          min := distance[v];
        }
      }
      next := found.value;
    }

    method RelaxEdge(next: Id, w: Id)
      requires next in distance && w in distance
      modifies this`distance, this`predecessor
      ensures View() == Relax(old(View()), next, w)
    {
      var weight := distance[next] + 1;
      if distance[w] > weight {
        distance := distance[w := weight];
        predecessor := predecessor[w := next];
      }
    }

    /** Relax every edge of the chosen router, then mark it done. */
    method Visit(self: Id, next: Id)
      requires Labelled() && Inv(topo, self, View())
      requires next in topo.routes && next !in done && Nearest(View(), next)
      modifies this`distance, this`done, this`predecessor
      ensures Labelled() && Inv(topo, self, View()) && done == old(done) + {next}
    {
      var edges := topo.Neighbours(next);
      StartRelaxing(topo, self, View(), next);
      for k := 0 to |edges|
        invariant Relaxing(topo, self, View(), next, k) && done == old(done)
      {
        RelaxKeeps(topo, self, View(), next, k);
        RelaxEdge(next, edges[k]);
      }
      DoneKeeps(topo, self, View(), next);
      done := done + {next};
    }

    method VisitNext(self: Id)
      requires Labelled() && Inv(topo, self, View()) && |done| < |topo.routes|
      modifies this`distance, this`done, this`predecessor
      ensures Labelled() && Inv(topo, self, View()) && |done| == old(|done|) + 1
    {
      SmallerLeavesSome(done, topo.routes.Keys);
      var next := SelectNext();
      Visit(self, next);
    }

    /** The second loop of `createTable`: as many visits as there are routers. */
    method ComputeLabels(self: Id)
      requires Labelled() && self in topo.routes
      modifies this`distance, this`done, this`predecessor
      ensures Labelled() && Finished(topo, self, View())
    {
      Reset(self);
      DistinctSize(topo.ids);
      assert ToSet(topo.ids) == topo.routes.Keys;
      for i := 0 to |topo.ids|
        invariant Labelled() && Inv(topo, self, View()) && |done| == i
      {
        VisitNext(self);
      }
      SubsetSize(done, topo.routes.Keys);
    }

    /** Walk back along the predecessors to the router just after `self`. */
    method StartRoute(self: Id, v: Id) returns (startRoute: Id)
      requires Finished(topo, self, View()) && Connected(topo) && |topo.routes| < INFINITY
      requires v in topo.routes && v != self
      ensures IsNextHop(topo, self, v, startRoute)
    {
      startRoute := v;
      TraceStart(topo, self, View(), v);
      while predecessor[startRoute] != self
        invariant Traced(topo, self, View(), v, startRoute)
        decreases distance[startRoute]
      {
        TraceStep(topo, self, View(), v, startRoute);
        startRoute := predecessor[startRoute];
      }
      TraceEnd(topo, self, View(), v, startRoute);
    }

    /** The last loop of `createTable`: the next hop towards every other router. */
    method FillTable(self: Id) returns (table: map<Id, Id>)
      requires topo.Listed() && Finished(topo, self, View()) && Connected(topo) && |topo.routes| < INFINITY
      ensures GoodTable(topo, self, table)
    {
      table := map[];
      for i := 0 to |topo.ids|
        invariant forall j :: 0 <= j < i && topo.ids[j] != self ==>
                    topo.ids[j] in table && IsNextHop(topo, self, topo.ids[j], table[topo.ids[j]])
      {
        var v := topo.ids[i];
        if v != self {
          var hop := StartRoute(self, v);
          table := table[v := hop];
        }
      }
    }

    /** `createTable`. */
    method CreateTable(self: Id)
      requires Labelled() && Connected(topo) && |topo.routes| < INFINITY && self in topo.routes
      modifies this
      ensures Labelled()
      ensures self in routingTable && GoodTable(topo, self, routingTable[self])
      ensures routingTable == old(routingTable)[self := routingTable[self]]
    {
      ComputeLabels(self);
      var table := FillTable(self);
      routingTable := routingTable[self := table];
    }

    /** The setup loop of the simulator: every router builds its own table. */
    method CreateTables()
      requires Labelled() && Connected(topo) && |topo.routes| < INFINITY
      modifies this
      ensures GoodTables(topo, routingTable)
    {
      for i := 0 to |topo.ids|
        invariant Labelled()
        invariant forall j :: 0 <= j < i ==>
                    topo.ids[j] in routingTable && GoodTable(topo, topo.ids[j], routingTable[topo.ids[j]])
      {
        CreateTable(topo.ids[i]);
      }
    }
  }

  /** The setup of the simulator: the topology of the map file, then every router's table. */
  method Setup(links: seq<Link>) returns (sim: Simulator)
    requires Connected(Build(links)) && |Build(links).routes| < INFINITY
    ensures sim.topo == Build(links) && GoodTables(Build(links), sim.routingTable)
  {
    var topo := Topology([], map[]);
    for i := 0 to |links|
      invariant topo == Build(links[..i])
    {
      assert links[..i + 1][..i] == links[..i];
      topo := AddLink(topo, links[i]);
    }
    assert links[..|links|] == links;
    BuildIsUndirected(links);
    sim := new Simulator(topo);
    sim.CreateTables();
  }

  lemma StartRelaxing(t: Topology, self: Id, l: Labels, next: Id)
    requires Inv(t, self, l) && next in t.routes && next !in l.done && Nearest(l, next)
    ensures Relaxing(t, self, l, next, 0)
  {
    forall v | v in l.distance && l.distance[v] < INFINITY && v != self
      ensures Reached(t, l, l.done + {next}, v)
    {
      assert Reached(t, l, l.done, v);
    }
  }
}
