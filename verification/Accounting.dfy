/** Where the packets of the simulated network are, and how long it can stay busy (code/hupsim.pl). */
module Accounting {
  import opened Common
  import opened Routing
  import opened Forwarding

  // ----- Places -----

  /** A place where a packet can be. */
  datatype Place = Delivered(i: nat) | Dropped(i: nat) | Queued(q: QueueId, i: nat)

  ghost function At(n: Net, a: Place): Option<Packet> {
    match a
    case Delivered(i) => if i < |n.delivered| then Some(n.delivered[i]) else None
    case Dropped(i) => if i < |n.dropped| then Some(n.dropped[i]) else None
    case Queued(q, i) => if i < |n.Queue(q)| then Some(n.Queue(q)[i]) else None
  }

  ghost predicate Holds(n: Net, a: Place, id: nat) {
    At(n, a).Some? && At(n, a).value.id == id
  }

  /** No packet is in two places. */
  ghost predicate Unique(n: Net) {
    forall a, b, id {:trigger Holds(n, a, id), Holds(n, b, id)} :: Holds(n, a, id) && Holds(n, b, id) ==> a == b
  }

  /** Exactly the packets that have been injected are somewhere. */
  ghost predicate Complete(n: Net) {
    forall id: nat {:trigger Somewhere(n, id)} :: Somewhere(n, id) <==> id < n.injected
  }

  ghost predicate Somewhere(n: Net, id: nat) { exists a :: Holds(n, a, id) }

  /** Every packet injected is in exactly one place: delivered, dropped or queued. */
  ghost predicate Once(n: Net) { Unique(n) && Complete(n) }

  /** `m` is `n` with one more packet, at `a`. */
  ghost predicate Adds(n: Net, m: Net, p: Packet, a: Place) {
    && At(n, a).None? && At(m, a) == Some(p)
    && forall b {:trigger At(m, b)} :: b != a ==> At(m, b) == At(n, b)
  }

  lemma RecvAdds(n: Net, tables: map<Id, map<Id, Id>>, u: Id, p: Packet) returns (a: Place)
    requires p.dest == u || (u in tables && p.dest in tables[u])
    ensures Adds(n, Recv(n, tables, u, p), p, a)
    ensures if p.dest == u then a.Delivered?
            else a.Dropped? || (a.Queued? && a.q == QueueId(u, tables[u][p.dest]))
    ensures Recv(n, tables, u, p).injected == n.injected
  {
    if p.dest == u {
      a := Delivered(|n.delivered|);
    } else {
      var q := QueueId(u, tables[u][p.dest]);
      a := if |n.Queue(q)| >= n.Limit(q) then Dropped(|n.dropped|) else Queued(q, |n.Queue(q)|);
    }
  }

  lemma AddKeepsUnique(n: Net, m: Net, p: Packet, a: Place)
    requires Unique(n) && Adds(n, m, p, a) && !Somewhere(n, p.id)
    ensures Unique(m)
  {
    forall b, c, id | Holds(m, b, id) && Holds(m, c, id) ensures b == c {
      if b != a { assert Holds(n, b, id); }
      if c != a { assert Holds(n, c, id); }
    }
  }

  lemma AddedSomewhere(n: Net, m: Net, p: Packet, a: Place, id: nat)
    requires Adds(n, m, p, a)
    ensures Somewhere(m, id) <==> Somewhere(n, id) || id == p.id
  {
    if b :| Holds(m, b, id) {
      if b != a { assert Holds(n, b, id); }
    }
    if b :| Holds(n, b, id) {
      assert Holds(m, b, id);
    }
    assert Holds(m, a, p.id);
  }

  // ----- The head of a queue leaves -----

  function Pop(n: Net, q: QueueId): Net
    requires n.Queue(q) != []
  {
    n.(queues := n.queues[q := n.Queue(q)[1..]])
  }

  /** Where a packet was before the head of q left. */
  function Before(q: QueueId, a: Place): Place {
    if a.Queued? && a.q == q then Queued(q, a.i + 1) else a
  }

  lemma PopAt(n: Net, q: QueueId, a: Place)
    requires n.Queue(q) != []
    ensures At(Pop(n, q), a) == At(n, Before(q, a))
  {
  }

  lemma PopKeepsUnique(n: Net, q: QueueId)
    requires Unique(n) && n.Queue(q) != []
    ensures Unique(Pop(n, q))
    ensures !Somewhere(Pop(n, q), n.Queue(q)[0].id)
  {
    var m := Pop(n, q);
    forall a, b, id | Holds(m, a, id) && Holds(m, b, id) ensures a == b {
      PopAt(n, q, a);
      PopAt(n, q, b);
      assert Holds(n, Before(q, a), id) && Holds(n, Before(q, b), id);
    }
    var head := n.Queue(q)[0].id;
    assert Holds(n, Queued(q, 0), head);
    forall a ensures !Holds(m, a, head) {
      PopAt(n, q, a);
      assert Holds(m, a, head) <==> Holds(n, Before(q, a), head);
    }
  }

  lemma PoppedSomewhere(n: Net, q: QueueId, id: nat)
    requires n.Queue(q) != [] && id != n.Queue(q)[0].id
    ensures Somewhere(Pop(n, q), id) <==> Somewhere(n, id)
  {
    var m := Pop(n, q);
    if a :| Holds(m, a, id) {
      PopAt(n, q, a);
      assert Holds(n, Before(q, a), id);
    }
    if a :| Holds(n, a, id) {
      var b := if a.Queued? && a.q == q then Queued(q, a.i - 1) else a;
      assert a != Queued(q, 0);
      assert Before(q, b) == a;
      PopAt(n, q, b);
      assert Holds(m, b, id);
    }
  }

  // ----- Every step -----

  lemma InjectOnce(n: Net, tables: map<Id, map<Id, Id>>, p: Packet)
    requires Once(n) && p.id == n.injected && (p.dest == p.src || (p.src in tables && p.dest in tables[p.src]))
    ensures Once(Recv(n.(injected := n.injected + 1), tables, p.src, p))
  {
    var n1 := n.(injected := n.injected + 1);
    var m := Recv(n1, tables, p.src, p);
    forall a ensures At(n1, a) == At(n, a) { }
    forall id ensures Somewhere(n1, id) <==> Somewhere(n, id) {
      if a :| Holds(n, a, id) { assert Holds(n1, a, id); }
      if a :| Holds(n1, a, id) { assert Holds(n, a, id); }
    }
    forall a, b, id | Holds(n1, a, id) && Holds(n1, b, id) ensures a == b {
      assert Holds(n, a, id) && Holds(n, b, id);
    }
    var a := RecvAdds(n1, tables, p.src, p);
    assert !Somewhere(n, p.id);
    AddKeepsUnique(n1, m, p, a);
    forall id: nat ensures Somewhere(m, id) <==> id < m.injected { AddedSomewhere(n1, m, p, a, id); }
  }

  lemma TransmitOnce(n: Net, tables: map<Id, map<Id, Id>>, q: QueueId)
    requires Once(n) && n.Queue(q) != []
    requires var p := n.Queue(q)[0]; p.dest == q.next || (q.next in tables && p.dest in tables[q.next])
    ensures var p := n.Queue(q)[0]; Once(Recv(Pop(n, q), tables, q.next, p.(hops := p.hops + 1)))
  {
    var p := n.Queue(q)[0];
    var m := Recv(Pop(n, q), tables, q.next, p.(hops := p.hops + 1));
    PopKeepsUnique(n, q);
    var a := RecvAdds(Pop(n, q), tables, q.next, p.(hops := p.hops + 1));
    AddKeepsUnique(Pop(n, q), m, p.(hops := p.hops + 1), a);
    forall id: nat ensures Somewhere(m, id) <==> id < m.injected {
      AddedSomewhere(Pop(n, q), m, p.(hops := p.hops + 1), a, id);
      if id == p.id {
        assert Holds(n, Queued(q, 0), id);
        assert Somewhere(n, id);
      } else {
        PoppedSomewhere(n, q, id);
      }
    }
  }

  lemma StepOnce(t: Topology, n: Net, tables: map<Id, map<Id, Id>>, e: Event)
    requires Forwarding.Inv(t, n) && t.Valid() && GoodTables(t, tables) && Enabled(t, n, e) && Once(n)
    ensures Once(Step(t, n, tables, e))
  {
    match e
    case Inject(src, dest, length) => InjectOnce(n, tables, Packet(n.injected, src, dest, length, 0));
    case Transmit(q) =>
      assert Underway(t, q, n.Queue(q)[0]);
      TransmitOnce(n, tables, q);
  }

  /** In every run each packet injected is in exactly one place: it has been delivered once, or
      dropped once, or stands once in one queue. */
  lemma {:induction false} ExactlyOnce(t: Topology, n: Net, tables: map<Id, map<Id, Id>>, events: seq<Event>)
    requires Forwarding.Inv(t, n) && t.Valid() && Connected(t) && GoodTables(t, tables) && Once(n)
    requires Run(t, n, tables, events).Some?
    ensures Once(Run(t, n, tables, events).value)
    decreases |events|
  {
    if events != [] {
      StepKeeps(t, n, tables, events[0]);
      StepOnce(t, n, tables, events[0]);
      ExactlyOnce(t, Step(t, n, tables, events[0]), tables, events[1..]);
    }
  }

  lemma EmptyOnce(n: Net)
    requires Empty(n)
    ensures Once(n)
  {
    forall a, id ensures !Holds(n, a, id) {
      if a.Queued? { assert n.Queue(a.q) == []; }
    }
  }

  // ----- When packets are dropped -----

  /** The packet that an event moves, the router it comes to, and the network without it. */
  ghost function Mover(n: Net, e: Event): Packet
    requires e.Transmit? ==> n.Queue(e.queue) != []
  {
    match e
    case Inject(src, dest, length) => Packet(n.injected, src, dest, length, 0)
    case Transmit(q) => var p := n.Queue(q)[0]; p.(hops := p.hops + 1)
  }

  function Comes(e: Event): Id { if e.Inject? then e.src else e.queue.next }

  ghost function Base(n: Net, e: Event): Net
    requires e.Transmit? ==> n.Queue(e.queue) != []
  {
    match e
    case Inject(_, _, _) => n
    case Transmit(q) => Pop(n, q)
  }

  /** A packet that has come to its destination is delivered. Another one is dropped if and only if the
      queue to its next hop is full, and else joins that queue at its end; all other queues, and what
      has been delivered and dropped before, stay. */
  lemma StepLaw(t: Topology, n: Net, tables: map<Id, map<Id, Id>>, e: Event)
    requires Forwarding.Inv(t, n) && t.Valid() && GoodTables(t, tables) && Enabled(t, n, e)
    ensures var m, p, u, base := Step(t, n, tables, e), Mover(n, e), Comes(e), Base(n, e);
            && m.delivered == (if p.dest == u then n.delivered + [p] else n.delivered)
            && (p.dest == u ==> m.dropped == n.dropped && forall r :: m.Queue(r) == base.Queue(r))
            && (p.dest != u ==>
                  && u in tables && p.dest in tables[u]
                  && var q := QueueId(u, tables[u][p.dest]);
                  && (m.dropped == n.dropped + [p] <==> |base.Queue(q)| >= n.Limit(q))
                  && (|base.Queue(q)| < n.Limit(q) ==> m.dropped == n.dropped && m.Queue(q) == base.Queue(q) + [p])
                  && (|base.Queue(q)| >= n.Limit(q) ==> m.Queue(q) == base.Queue(q))
                  && forall r :: r != q ==> m.Queue(r) == base.Queue(r))
            && m.injected == (if e.Inject? then n.injected + 1 else n.injected) && m.limit == n.limit
  {
    if e.Transmit? {
      assert Underway(t, e.queue, n.Queue(e.queue)[0]);
    }
  }

  /** The packets in one queue are different packets, so they are at most as many as there are
      numbers for them. */
  lemma QueueSize(n: Net, q: QueueId, bound: nat, x: nat)
    requires Unique(n) && forall a, id: nat :: Holds(n, a, id) ==> id < bound && id != x
    ensures |n.Queue(q)| <= bound && (x < bound ==> |n.Queue(q)| < bound)
  {
    var ids := seq(|n.Queue(q)|, i requires 0 <= i < |n.Queue(q)| => n.Queue(q)[i].id);
    assert forall i :: 0 <= i < |ids| ==> Holds(n, Queued(q, i), ids[i]);
    DistinctSize(ids);
    SubsetSize(ToSet(ids), Below(bound) - {x});
  }

  function Below(bound: nat): (numbers: set<nat>)
    ensures |numbers| == bound && forall i: nat :: i in numbers <==> i < bound
  {
    if bound == 0 then {} else Below(bound - 1) + {bound - 1}
  }

  /** No limit is below the number of packets ever injected. */
  ghost predicate Ample(n: Net, injected: nat) { forall q :: injected <= n.Limit(q) }

  lemma StepDropsNothing(t: Topology, n: Net, tables: map<Id, map<Id, Id>>, e: Event)
    requires Forwarding.Inv(t, n) && t.Valid() && GoodTables(t, tables) && Enabled(t, n, e) && Once(n)
    requires Ample(n, Step(t, n, tables, e).injected) && n.dropped == []
    ensures Step(t, n, tables, e).dropped == []
  {
    StepLaw(t, n, tables, e);
    var p, base, u := Mover(n, e), Base(n, e), Comes(e);
    if p.dest != u {
      var q := QueueId(u, tables[u][p.dest]);
      assert n.Limit(q) >= Step(t, n, tables, e).injected;
      if e.Transmit? {
        PopKeepsUnique(n, e.queue);
        forall a, id: nat | Holds(base, a, id) ensures id < n.injected && id != p.id { PoppedBelow(n, e.queue, a, id); }
        assert Holds(n, Queued(e.queue, 0), p.id);
        assert Somewhere(n, p.id);
        QueueSize(base, q, n.injected, p.id);
      } else {
        forall a, id: nat | Holds(n, a, id) ensures id < n.injected { assert Somewhere(n, id); }
        QueueSize(n, q, n.injected, n.injected);
      }
    }
  }

  lemma PoppedBelow(n: Net, q: QueueId, a: Place, id: nat)
    requires Once(n) && n.Queue(q) != [] && Holds(Pop(n, q), a, id)
    ensures id < n.injected && id != n.Queue(q)[0].id
  {
    PopKeepsUnique(n, q);
    assert Somewhere(Pop(n, q), id);
    PoppedSomewhere(n, q, id);
  }

  lemma {:induction false} RunLimits(t: Topology, n: Net, tables: map<Id, map<Id, Id>>, events: seq<Event>)
    requires Forwarding.Inv(t, n) && t.Valid() && Connected(t) && GoodTables(t, tables)
    requires Run(t, n, tables, events).Some?
    ensures var m := Run(t, n, tables, events).value; n.injected <= m.injected && m.limit == n.limit
    decreases |events|
  {
    if events != [] {
      StepKeeps(t, n, tables, events[0]);
      StepLaw(t, n, tables, events[0]);
      RunLimits(t, Step(t, n, tables, events[0]), tables, events[1..]);
    }
  }

  /** In every run in which no more packets are injected than the smallest queue can hold, nothing is
      dropped. */
  lemma {:induction false} NothingDropped(t: Topology, n: Net, tables: map<Id, map<Id, Id>>, events: seq<Event>)
    requires Forwarding.Inv(t, n) && t.Valid() && Connected(t) && GoodTables(t, tables) && Once(n) && n.dropped == []
    requires Run(t, n, tables, events).Some? && Ample(n, Run(t, n, tables, events).value.injected)
    ensures Run(t, n, tables, events).value.dropped == []
    decreases |events|
  {
    if events != [] {
      StepKeeps(t, n, tables, events[0]);
      StepOnce(t, n, tables, events[0]);
      StepLaw(t, n, tables, events[0]);
      var m := Step(t, n, tables, events[0]);
      RunLimits(t, m, tables, events[1..]);
      AmpleLater(n, m, Run(t, n, tables, events).value.injected);
      StepDropsNothing(t, n, tables, events[0]);
      NothingDropped(t, m, tables, events[1..]);
    }
  }

  lemma AmpleLater(n: Net, m: Net, injected: nat)
    requires Ample(n, injected) && m.limit == n.limit && m.injected <= injected
    ensures Ample(m, injected) && Ample(n, m.injected)
  {
    forall q ensures m.Limit(q) == n.Limit(q) && injected <= n.Limit(q) { }
  }

  // ----- How far packets have to go -----

  /** The links a queued packet has yet to cross. */
  ghost function LinksLeft(t: Topology, q: QueueId, p: Packet): nat
    requires Underway(t, q, p)
  {
    var left: nat :| IsDistance(t, q.next, p.dest, left);
    left + 1
  }

  /** The links the packet with this number has yet to cross; none once it is delivered or dropped. */
  ghost function Left(t: Topology, n: Net, id: nat): nat
    requires Forwarding.Inv(t, n)
  {
    if exists a: Place :: a.Queued? && Holds(n, a, id) then
      var a: Place :| a.Queued? && Holds(n, a, id);
      assert n.Queue(a.q)[a.i] in n.Queue(a.q);
      LinksLeft(t, a.q, n.Queue(a.q)[a.i])
    else 0
  }

  lemma LeftQueued(t: Topology, n: Net, id: nat, q: QueueId, i: nat, left: nat)
    requires Forwarding.Inv(t, n) && Unique(n) && Holds(n, Queued(q, i), id)
    requires IsDistance(t, q.next, n.Queue(q)[i].dest, left)
    ensures Left(t, n, id) == left + 1
  {
    var p := n.Queue(q)[i];
    assert p in n.Queue(q);
    assert Underway(t, q, p);
    assert Left(t, n, id) == LinksLeft(t, q, p);
    var d: nat :| IsDistance(t, q.next, p.dest, d) && LinksLeft(t, q, p) == d + 1;
    DistanceUnique(t, q.next, p.dest, d, left);
  }

  lemma LeftGone(t: Topology, n: Net, id: nat, a: Place)
    requires Forwarding.Inv(t, n) && Unique(n) && Holds(n, a, id) && !a.Queued?
    ensures Left(t, n, id) == 0
  {
  }

  /** A packet that stays in its queue, or stays out of all queues, has as far to go as before. */
  lemma LeftSame(t: Topology, n: Net, a: Place, m: Net, b: Place, id: nat)
    requires Forwarding.Inv(t, n) && Unique(n) && Forwarding.Inv(t, m) && Unique(m)
    requires Holds(n, a, id) && Holds(m, b, id) && At(n, a) == At(m, b)
    requires a.Queued? == b.Queued? && (a.Queued? ==> a.q == b.q)
    ensures Left(t, n, id) == Left(t, m, id)
  {
    if a.Queued? {
      var p := n.Queue(a.q)[a.i];
      assert p in n.Queue(a.q);
      assert Underway(t, a.q, p);
      var left: nat :| IsDistance(t, a.q.next, p.dest, left);
      LeftQueued(t, n, id, a.q, a.i, left);
      LeftQueued(t, m, id, b.q, b.i, left);
    } else {
      LeftGone(t, n, id, a);
      LeftGone(t, m, id, b);
    }
  }

  /** The links that the first k packets have yet to cross. */
  ghost function Total(t: Topology, n: Net, k: nat): nat
    requires Forwarding.Inv(t, n)
  {
    if k == 0 then 0 else Total(t, n, k - 1) + Left(t, n, k - 1)
  }

  /** If only packet x has changed its distance, the totals differ by that. */
  lemma {:induction false} TotalChange(t: Topology, n: Net, m: Net, k: nat, x: nat)
    requires Forwarding.Inv(t, n) && Forwarding.Inv(t, m)
    requires forall id: nat :: id < k && id != x ==> Left(t, n, id) == Left(t, m, id)
    ensures Total(t, m, k) - Total(t, n, k) == if x < k then Left(t, m, x) - Left(t, n, x) else 0
  {
    if k > 0 {
      TotalChange(t, n, m, k - 1, x);
    }
  }

  /** A packet that u passes on towards its destination, d links away, has at most d links left, and
      none if it is delivered or dropped. */
  lemma LeftOnReceipt(t: Topology, n: Net, tables: map<Id, map<Id, Id>>, u: Id, p: Packet, a: Place, d: nat)
    requires t.Valid() && GoodTables(t, tables) && u in t.routes && p.dest in t.routes && IsDistance(t, u, p.dest, d)
    requires var m := Recv(n, tables, u, p); Forwarding.Inv(t, m) && Unique(m) && Adds(n, m, p, a)
    requires if p.dest == u then a.Delivered? else a.Dropped? || (a.Queued? && a.q == QueueId(u, tables[u][p.dest]))
    ensures Left(t, Recv(n, tables, u, p), p.id) <= d
  {
    var m := Recv(n, tables, u, p);
    assert Holds(m, a, p.id);
    if a.Queued? {
      var h := tables[u][p.dest];
      assert IsNextHop(t, u, p.dest, h);
      var e: nat :| IsDistance(t, u, p.dest, e + 1) && IsDistance(t, h, p.dest, e);
      DistanceUnique(t, u, p.dest, d, e + 1);
      LeftQueued(t, m, p.id, a.q, a.i, e);
    } else {
      LeftGone(t, m, p.id, a);
    }
  }

  ghost function Distance(t: Topology, u: Id, v: Id): nat {
    if exists d: nat :: IsDistance(t, u, v, d) then var d: nat :| IsDistance(t, u, v, d); d else 0
  }

  lemma DistanceIs(t: Topology, u: Id, v: Id)
    requires Connected(t) && u in t.routes && v in t.routes
    ensures IsDistance(t, u, v, Distance(t, u, v))
  {
    assert Reachable(t, u, v);
    var k: nat :| Walk(t, u, v, k);
    var d := LeastWalk(t, u, v, k);
  }

  /** A transmission brings one packet nearer to its end and leaves the others where they are. */
  lemma TransmitLowers(t: Topology, n: Net, tables: map<Id, map<Id, Id>>, q: QueueId)
    requires Forwarding.Inv(t, n) && t.Valid() && Connected(t) && GoodTables(t, tables) && Once(n) && n.Queue(q) != []
    ensures Forwarding.Inv(t, Step(t, n, tables, Transmit(q))) && Step(t, n, tables, Transmit(q)).injected == n.injected
    ensures Total(t, Step(t, n, tables, Transmit(q)), n.injected) < Total(t, n, n.injected)
  {
    StepKeeps(t, n, tables, Transmit(q));
    StepOnce(t, n, tables, Transmit(q));
    var m, p := Step(t, n, tables, Transmit(q)), n.Queue(q)[0];
    assert Underway(t, q, p);
    var popped, p' := Pop(n, q), p.(hops := p.hops + 1);
    var a := RecvAdds(popped, tables, q.next, p');
    assert Holds(n, Queued(q, 0), p.id);
    assert Somewhere(n, p.id);
    var left: nat :| IsDistance(t, q.next, p.dest, left);
    LeftQueued(t, n, p.id, q, 0, left);
    LeftOnReceipt(t, popped, tables, q.next, p', a, left);
    forall id: nat | id < n.injected && id != p.id ensures Left(t, n, id) == Left(t, m, id) {
      OthersStay(t, n, q, m, p', a, id);
    }
    TotalChange(t, n, m, n.injected, p.id);
  }

  lemma OthersStay(t: Topology, n: Net, q: QueueId, m: Net, p: Packet, a: Place, id: nat)
    requires Forwarding.Inv(t, n) && Unique(n) && Forwarding.Inv(t, m) && Unique(m) && Somewhere(m, id)
    requires n.Queue(q) != [] && Adds(Pop(n, q), m, p, a) && id != p.id
    ensures Left(t, n, id) == Left(t, m, id)
  {
    var b :| Holds(m, b, id);
    assert At(m, b) == At(Pop(n, q), b);
    PopAt(n, q, b);
    assert Holds(n, Before(q, b), id);
    LeftSame(t, n, Before(q, b), m, b, id);
  }

  lemma OthersStayOnInject(t: Topology, n: Net, n1: Net, m: Net, p: Packet, a: Place, id: nat)
    requires Forwarding.Inv(t, n) && Unique(n) && Forwarding.Inv(t, m) && Unique(m) && Somewhere(n, id)
    requires n1 == n.(injected := n1.injected) && Adds(n1, m, p, a)
    ensures Left(t, n, id) == Left(t, m, id)
  {
    var b :| Holds(n, b, id);
    assert At(n1, b) == At(n, b);
    assert Holds(m, b, id);
    LeftSame(t, n, b, m, b, id);
  }

  /** An injection adds at most the distance between its ends. */
  lemma InjectAdds(t: Topology, n: Net, tables: map<Id, map<Id, Id>>, e: Event)
    requires Forwarding.Inv(t, n) && t.Valid() && Connected(t) && GoodTables(t, tables) && Once(n)
    requires e.Inject? && Enabled(t, n, e)
    ensures Forwarding.Inv(t, Step(t, n, tables, e)) && Step(t, n, tables, e).injected == n.injected + 1
    ensures Total(t, Step(t, n, tables, e), n.injected + 1) <= Total(t, n, n.injected) + Distance(t, e.src, e.dest)
  {
    StepKeeps(t, n, tables, e);
    StepOnce(t, n, tables, e);
    var m, p, n1 := Step(t, n, tables, e), Packet(n.injected, e.src, e.dest, e.length, 0), n.(injected := n.injected + 1);
    var a := RecvAdds(n1, tables, e.src, p);
    DistanceIs(t, e.src, e.dest);
    LeftOnReceipt(t, n1, tables, e.src, p, a, Distance(t, e.src, e.dest));
    forall id: nat | id < n.injected ensures Left(t, n, id) == Left(t, m, id) {
      assert Somewhere(n, id);
      OthersStayOnInject(t, n, n1, m, p, a, id);
    }
    TotalChange(t, n, m, n.injected, n.injected);
  }

  // ----- How long a run can be -----

  function Transmissions(events: seq<Event>): nat {
    if events == [] then 0 else (if events[0].Transmit? then 1 else 0) + Transmissions(events[1..])
  }

  /** The shortest-path lengths of all packets injected during a run. */
  ghost function Budget(t: Topology, events: seq<Event>): nat {
    if events == [] then 0
    else (if events[0].Inject? then Distance(t, events[0].src, events[0].dest) else 0) + Budget(t, events[1..])
  }

  /** In every run, the links crossed and those left to cross are together at most those that were
      left at the start and the shortest paths of the packets injected since. */
  lemma {:induction false} LinksAreBounded(t: Topology, n: Net, tables: map<Id, map<Id, Id>>, events: seq<Event>)
    requires Forwarding.Inv(t, n) && t.Valid() && Connected(t) && GoodTables(t, tables) && Once(n)
    requires Run(t, n, tables, events).Some?
    ensures var m := Run(t, n, tables, events).value;
            && Forwarding.Inv(t, m)
            && Transmissions(events) + Total(t, m, m.injected) <= Total(t, n, n.injected) + Budget(t, events)
    decreases |events|
  {
    if events != [] {
      var e := events[0];
      StepKeeps(t, n, tables, e);
      StepOnce(t, n, tables, e);
      if e.Transmit? {
        TransmitLowers(t, n, tables, e.queue);
      } else {
        InjectAdds(t, n, tables, e);
      }
      LinksAreBounded(t, Step(t, n, tables, e), tables, events[1..]);
    }
  }

  /** The packet has been delivered or dropped. */
  ghost predicate HasLeft(n: Net, id: nat) { exists a: Place :: !a.Queued? && Holds(n, a, id) }

  /** Every run from an empty network crosses at most as many links as the shortest paths of its
      packets have together, and once no transmission is possible each packet injected has been
      delivered or dropped, exactly once. */
  lemma Drains(t: Topology, n: Net, tables: map<Id, map<Id, Id>>, events: seq<Event>)
    requires Empty(n) && t.Valid() && Connected(t) && GoodTables(t, tables)
    requires Forwarding.Inv(t, n) && Run(t, n, tables, events).Some?
    ensures Transmissions(events) <= Budget(t, events)
    ensures var m := Run(t, n, tables, events).value;
            && Once(m)
            && ((forall q :: !Enabled(t, m, Transmit(q))) ==>
                  forall id: nat :: id < m.injected ==> HasLeft(m, id))
  {
    EmptyOnce(n);
    EmptyTotal(t, n);
    LinksAreBounded(t, n, tables, events);
    ExactlyOnce(t, n, tables, events);
    var m := Run(t, n, tables, events).value;
    if forall q :: !Enabled(t, m, Transmit(q)) {
      forall id: nat | id < m.injected ensures HasLeft(m, id) {
        assert Somewhere(m, id);
        var a :| Holds(m, a, id);
        assert a.Queued? ==> Enabled(t, m, Transmit(a.q));
      }
    }
  }

  /** In every such run from an empty network, once no transmission is possible every packet injected
      has been delivered. */
  lemma EverythingArrives(t: Topology, n: Net, tables: map<Id, map<Id, Id>>, events: seq<Event>)
    requires Empty(n) && t.Valid() && Connected(t) && GoodTables(t, tables)
    requires Forwarding.Inv(t, n) && Run(t, n, tables, events).Some?
    requires var m := Run(t, n, tables, events).value; Ample(n, m.injected) && forall q :: !Enabled(t, m, Transmit(q))
    ensures var m := Run(t, n, tables, events).value;
            forall id: nat :: id < m.injected ==> HasArrived(m, id)
  {
    EmptyOnce(n);
    Drains(t, n, tables, events);
    NothingDropped(t, n, tables, events);
    var m := Run(t, n, tables, events).value;
    forall id: nat | id < m.injected ensures HasArrived(m, id) {
      assert HasLeft(m, id);
      var a: Place :| !a.Queued? && Holds(m, a, id);
      assert m.delivered[a.i].id == id;
    }
  }

  ghost predicate HasArrived(n: Net, id: nat) { exists i :: 0 <= i < |n.delivered| && n.delivered[i].id == id }

  lemma EmptyTotal(t: Topology, n: Net)
    requires Empty(n) && Forwarding.Inv(t, n)
    ensures Total(t, n, n.injected) == 0
  {
  }
}
