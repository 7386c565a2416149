/** Packets on their way through the simulated network: queues, drops and deliveries in every
    interleaving (code/hupsim.pl). */
module Forwarding {
  import opened Common
  import opened Routing

  /** `id` numbers the packets as they enter the network and `hops` counts the links crossed; the
      simulator stores neither. */
  datatype Packet = Packet(id: nat, src: Id, dest: Id, length: nat, hops: nat)

  // ----- One queue -----

  function TotalLength(queue: seq<Packet>): nat {
    if queue == [] then 0 else queue[0].length + TotalLength(queue[1..])
  }

  lemma {:induction false} TotalLengthJoin(queue: seq<Packet>, p: Packet)
    ensures TotalLength(queue + [p]) == TotalLength(queue) + p.length
  {
    if queue == [] {
      assert queue + [p] == [p] && TotalLength([p][1..]) == 0;
    } else {
      assert (queue + [p])[1..] == queue[1..] + [p];
      TotalLengthJoin(queue[1..], p);
    }
  }

  /** `NSQueue`: it never holds more than `max` packets, and `size` is their total length. */
  class Queue {
    const max: nat
    var queue: seq<Packet>
    var size: nat
    var dropped: nat

    ghost predicate Valid()
      reads this
    {
      |queue| <= max && size == TotalLength(queue)
    }

    /** A missing or zero limit means the default. */
    constructor (max: nat)
      ensures Valid() && queue == [] && dropped == 0 && this.max == if max == 0 then 10 else max
    {
      this.max := if max == 0 then 10 else max;
      queue, size, dropped := [], 0, 0;
    }

    /** `enQ`. */
    method Enqueue(p: Packet)
      requires Valid()
      modifies this
      ensures Valid()
      ensures dropped == old(dropped) + 1 <==> |old(queue)| >= max
      ensures |old(queue)| >= max ==> queue == old(queue)
      ensures |old(queue)| < max ==> queue == old(queue) + [p] && dropped == old(dropped)
    {
      if |queue| >= max {
        dropped := dropped + 1;
      } else {
        TotalLengthJoin(queue, p);
        queue := queue + [p];
        size := size + p.length;
      }
    }

    /** The head of the queue leaves it, in `run`. */
    method Dequeue() returns (p: Packet)
      requires Valid() && queue != []
      modifies this`queue, this`size
      ensures Valid() && [p] + queue == old(queue)
    {
      p := queue[0];
      queue := queue[1..];
      size := size - p.length;
    }
  }

  // ----- The network -----

  /** The queue from router `at` to its neighbour `next`. */
  datatype QueueId = QueueId(at: Id, next: Id)

  /** The queues, with their limits, and the packets that have left the network. */
  datatype Net = Net(
    queues: map<QueueId, seq<Packet>>,
    limit: map<QueueId, nat>,
    injected: nat,
    delivered: seq<Packet>,
    dropped: seq<Packet>)
  {
    function Queue(q: QueueId): seq<Packet> { if q in queues then queues[q] else [] }

    /** A missing or zero limit in the map file means the default. */
    function Limit(q: QueueId): nat { if q in limit && limit[q] != 0 then limit[q] else 10 }
  }

  datatype Event =
    | Inject(src: Id, dest: Id, length: nat)
    | Transmit(queue: QueueId)

  /** `enQ`: the packet joins the queue unless it is full. */
  function Enqueue(n: Net, q: QueueId, p: Packet): Net {
    if |n.Queue(q)| >= n.Limit(q) then n.(dropped := n.dropped + [p])
    else n.(queues := n.queues[q := n.Queue(q) + [p]])
  }

  /** `recv`: hand over a packet that has arrived, or queue it towards its next hop. */
  function Recv(n: Net, tables: map<Id, map<Id, Id>>, u: Id, p: Packet): Net
    requires p.dest == u || (u in tables && p.dest in tables[u])
  {
    if p.dest == u then n.(delivered := n.delivered + [p])
    else Enqueue(n, QueueId(u, tables[u][p.dest]), p)
  }

  predicate Enabled(t: Topology, n: Net, e: Event) {
    match e
    case Inject(src, dest, _) => src in t.routes && dest in t.routes
    case Transmit(q) => n.Queue(q) != []
  }

  function Step(t: Topology, n: Net, tables: map<Id, map<Id, Id>>, e: Event): Net
    requires Inv(t, n) && t.Valid() && GoodTables(t, tables) && Enabled(t, n, e)
  {
    match e
    case Inject(src, dest, length) => Recv(n.(injected := n.injected + 1), tables, src, Packet(n.injected, src, dest, length, 0))
    case Transmit(q) =>
      var p := n.Queue(q)[0];
      assert Underway(t, q, p);
      Recv(n.(queues := n.queues[q := n.Queue(q)[1..]]), tables, q.next, p.(hops := p.hops + 1))
  }

  // ----- The invariant -----

  /** The hops made and the distance left add up to the distance of the whole way. */
  ghost predicate OnShortestPath(t: Topology, p: Packet, at: Id) {
    exists left: nat :: IsDistance(t, at, p.dest, left) && IsDistance(t, p.src, p.dest, p.hops + left)
  }

  /** A queued packet is on a shortest path once it has crossed the link. */
  ghost predicate Underway(t: Topology, q: QueueId, p: Packet) {
    q.next in t.routes && p.dest in t.routes && OnShortestPath(t, p.(hops := p.hops + 1), q.next)
  }

  ghost predicate Arrived(t: Topology, p: Packet) {
    IsDistance(t, p.src, p.dest, p.hops)
  }

  ghost predicate Inv(t: Topology, n: Net) {
    && (forall q, p {:trigger Underway(t, q, p)} :: p in n.Queue(q) ==> Underway(t, q, p))
    && (forall q :: |n.Queue(q)| <= n.Limit(q))
    && (forall p :: p in n.delivered ==> Arrived(t, p))
  }

  lemma PopKeeps(t: Topology, n: Net, q: QueueId)
    requires Inv(t, n) && n.Queue(q) != []
    ensures Inv(t, n.(queues := n.queues[q := n.Queue(q)[1..]]))
  {
    var m := n.(queues := n.queues[q := n.Queue(q)[1..]]);
    forall r ensures |m.Queue(r)| <= m.Limit(r) { assert |n.Queue(r)| <= n.Limit(r); }
    forall r, p | p in m.Queue(r) ensures Underway(t, r, p) { assert p in n.Queue(r); }
  }

  lemma EnqueueKeeps(t: Topology, n: Net, q: QueueId, p: Packet)
    requires Inv(t, n) && Underway(t, q, p)
    ensures Inv(t, Enqueue(n, q, p))
  {
    var m := Enqueue(n, q, p);
    forall r ensures |m.Queue(r)| <= m.Limit(r) { assert |n.Queue(r)| <= n.Limit(r); }
    forall r, x | x in m.Queue(r) ensures Underway(t, r, x) {
      assert x in n.Queue(r) || (r == q && x == p);
    }
  }

  lemma DeliverKeeps(t: Topology, n: Net, p: Packet)
    requires Inv(t, n) && Arrived(t, p)
    ensures Inv(t, n.(delivered := n.delivered + [p]))
  {
    var m := n.(delivered := n.delivered + [p]);
    forall r ensures |m.Queue(r)| <= m.Limit(r) { assert |n.Queue(r)| <= n.Limit(r); }
    forall r, x | x in m.Queue(r) ensures Underway(t, r, x) { assert x in n.Queue(r); }
  }

  lemma AtHome(t: Topology, p: Packet)
    requires OnShortestPath(t, p, p.dest)
    ensures Arrived(t, p)
  {
    assert Walk(t, p.dest, p.dest, 0);
  }

  lemma HopAhead(t: Topology, u: Id, p: Packet, h: Id)
    requires OnShortestPath(t, p, u) && IsNextHop(t, u, p.dest, h)
    ensures OnShortestPath(t, p.(hops := p.hops + 1), h)
  {
    var left: nat :| IsDistance(t, u, p.dest, left) && IsDistance(t, p.src, p.dest, p.hops + left);
    var d: nat :| IsDistance(t, u, p.dest, d + 1) && IsDistance(t, h, p.dest, d);
    DistanceUnique(t, u, p.dest, d + 1, left);
    assert IsDistance(t, p.src, p.dest, p.hops + 1 + d);
  }

  lemma RecvKeeps(t: Topology, n: Net, tables: map<Id, map<Id, Id>>, u: Id, p: Packet)
    requires Inv(t, n) && t.Valid() && GoodTables(t, tables)
    requires u in t.routes && p.dest in t.routes && OnShortestPath(t, p, u)
    ensures Inv(t, Recv(n, tables, u, p))
  {
    if p.dest == u {
      AtHome(t, p);
      DeliverKeeps(t, n, p);
    } else {
      var h := tables[u][p.dest];
      assert IsNextHop(t, u, p.dest, h);
      HopAhead(t, u, p, h);
      EnqueueKeeps(t, n, QueueId(u, h), p);
    }
  }

  lemma Injected(t: Topology, p: Packet)
    requires Connected(t) && p.src in t.routes && p.dest in t.routes && p.hops == 0
    ensures OnShortestPath(t, p, p.src)
  {
    assert Reachable(t, p.src, p.dest);
    var k: nat :| Walk(t, p.src, p.dest, k);
    var d := LeastWalk(t, p.src, p.dest, k);
  }

  lemma TransmitKeeps(t: Topology, n: Net, tables: map<Id, map<Id, Id>>, q: QueueId)
    requires Inv(t, n) && t.Valid() && GoodTables(t, tables) && n.Queue(q) != []
    ensures var p := n.Queue(q)[0];
            && Underway(t, q, p)
            && Inv(t, Recv(n.(queues := n.queues[q := n.Queue(q)[1..]]), tables, q.next, p.(hops := p.hops + 1)))
  {
    var p := n.Queue(q)[0];
    assert Underway(t, q, p);
    PopKeeps(t, n, q);
    RecvKeeps(t, n.(queues := n.queues[q := n.Queue(q)[1..]]), tables, q.next, p.(hops := p.hops + 1));
  }

  lemma CountKeeps(t: Topology, n: Net, injected: nat)
    requires Inv(t, n)
    ensures Inv(t, n.(injected := injected))
  {
    var m := n.(injected := injected);
    forall q ensures |m.Queue(q)| <= m.Limit(q) { assert |n.Queue(q)| <= n.Limit(q); }
    forall q, x | x in m.Queue(q) ensures Underway(t, q, x) { assert x in n.Queue(q); }
  }

  lemma InjectKeeps(t: Topology, n: Net, tables: map<Id, map<Id, Id>>, p: Packet)
    requires Inv(t, n) && t.Valid() && Connected(t) && GoodTables(t, tables)
    requires p.src in t.routes && p.dest in t.routes && p.hops == 0
    ensures Inv(t, Recv(n.(injected := n.injected + 1), tables, p.src, p))
  {
    CountKeeps(t, n, n.injected + 1);
    Injected(t, p);
    RecvKeeps(t, n.(injected := n.injected + 1), tables, p.src, p);
  }

  lemma StepKeeps(t: Topology, n: Net, tables: map<Id, map<Id, Id>>, e: Event)
    requires Inv(t, n) && t.Valid() && Connected(t) && GoodTables(t, tables) && Enabled(t, n, e)
    ensures Inv(t, Step(t, n, tables, e))
  {
    match e
    case Inject(src, dest, length) =>
      InjectKeeps(t, n, tables, Packet(n.injected, src, dest, length, 0));
    case Transmit(q) =>
      TransmitKeeps(t, n, tables, q);
  }

  /** A network in which nothing has happened yet. */
  ghost predicate Empty(n: Net) {
    n.injected == 0 && n.delivered == [] && n.dropped == [] && forall q :: n.Queue(q) == []
  }

  lemma EmptyInv(t: Topology, n: Net)
    requires Empty(n)
    ensures Inv(t, n)
  {
    forall q ensures |n.Queue(q)| <= n.Limit(q) { assert n.Queue(q) == []; }
  }

  // ----- Whole runs -----

  ghost function Run(t: Topology, n: Net, tables: map<Id, map<Id, Id>>, events: seq<Event>): Option<Net>
    requires Inv(t, n) && t.Valid() && Connected(t) && GoodTables(t, tables)
    decreases |events|
  {
    if events == [] then Some(n)
    else if !Enabled(t, n, events[0]) then None
    else
      StepKeeps(t, n, tables, events[0]);
      Run(t, Step(t, n, tables, events[0]), tables, events[1..])
  }

  /** In every run of the network, with any interleaving of senders and links and any drops: each
      packet delivered has crossed exactly as many links as the shortest path has, and no queue
      exceeds its limit. */
  lemma {:induction false} LoopFree(t: Topology, n: Net, tables: map<Id, map<Id, Id>>, events: seq<Event>)
    requires Inv(t, n) && t.Valid() && Connected(t) && GoodTables(t, tables)
    requires Run(t, n, tables, events).Some?
    ensures var m := Run(t, n, tables, events).value;
            && (forall p :: p in m.delivered ==> IsDistance(t, p.src, p.dest, p.hops))
            && (forall q :: |m.Queue(q)| <= m.Limit(q))
    decreases |events|
  {
    if events != [] {
      StepKeeps(t, n, tables, events[0]);
      LoopFree(t, Step(t, n, tables, events[0]), tables, events[1..]);
    } else {
      forall p | p in n.delivered ensures IsDistance(t, p.src, p.dest, p.hops) { assert Arrived(t, p); }
    }
  }
}
