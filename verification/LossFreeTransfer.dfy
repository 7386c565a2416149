/** The same transfer over a network that delivers every packet, in order: it terminates
    (code/bt_server.c, code/bt_client.c). */
module LossFreeTransfer {
  import opened Common
  import opened ChunkLayout
  import opened Congestion
  import opened Sender
  import opened Receiver

  /** `dataQueue` and `ackQueue` are the packets in flight; `sent` is the history of DATA sent. */
  datatype State = State(
    sender: Option<Sender>,
    open: bool,
    store: Store,
    complete: bool,
    dataQueue: seq<DataPacket>,
    ackQueue: seq<nat>,
    sent: seq<nat>)

  datatype Action = DataArrives(at: Time) | AckArrives(at: Time) | ServerTimer(at: Time)

  /** Packets arrive in order. The client never times out; the server's timer may fire, though
      fewer than five times between two ACKs. */
  predicate Enabled(s: State, a: Action) {
    match a
    case DataArrives(_) => s.dataQueue != []
    case AckArrives(_) => s.ackQueue != []
    case ServerTimer(at) =>
      && s.sender.Some?
      && HasTimedOut(s.sender.value.timestamp, at)
      && s.sender.value.cctrl.timeoutCount + 1 < MAX_TO_COUNTS
  }

  function Served(s: State, source: ChunkData, r: Result): State
    requires forall k :: k in r.sent ==> IsSeqNum(k)
  {
    s.(sender := r.next, dataQueue := s.dataQueue + Packets(source, r.sent), sent := s.sent + r.sent)
  }

  function OnData(sha: Digest, s: State, source: ChunkData): State
    requires s.dataQueue != [] && WellFormed(s.dataQueue[0].num, s.dataQueue[0].payload)
  {
    var p, s := s.dataQueue[0], s.(dataQueue := s.dataQueue[1..]);
    if !s.open then s
    else
      var r := Receive(sha, s.store, sha(source), p.num, p.payload);
      s.(store := r.store,
         ackQueue := s.ackQueue + [r.ack],
         open := r.verdict == Pending,
         complete := s.complete || r.verdict == Valid)
  }

  /** Packets in flight are genuine, and the sender's counters are in range. */
  ghost predicate Ready(s: State, source: ChunkData) {
    && (forall p :: p in s.dataQueue ==> IsSeqNum(p.num) && p.payload == Segment(source, p.num))
    && (forall i :: 0 <= i < |s.ackQueue| ==> s.ackQueue[i] <= MAX_SEQ_NUM)
    && (s.sender.Some? ==> CountersInRange(s.sender.value))
  }

  function Apply(sha: Digest, s: State, source: ChunkData, a: Action): State
    requires Ready(s, source) && Enabled(s, a)
  {
    match a
    case DataArrives(_) => OnData(sha, s, source)
    case AckArrives(at) =>
      var ack, s := s.ackQueue[0], s.(ackQueue := s.ackQueue[1..]);
      if s.sender.None? then s
      else
        AckSendsInRange(s.sender.value, ack, at);
        Served(s, source, ReceiveAck(s.sender.value, ack, at))
    case ServerTimer(at) => Served(s, source, ReceiveTimer(s.sender.value, at))
  }

  lemma StepStaysReady(sha: Digest, s: State, source: ChunkData, a: Action)
    requires Ready(s, source) && Enabled(s, a) && StoreInv(s.store)
    ensures Ready(Apply(sha, s, source, a), source) && StoreInv(Apply(sha, s, source, a).store)
  {
    match a
    case DataArrives(_) =>
      var p := s.dataQueue[0];
      ReceiveInv(sha, s.store, sha(source), p.num, p.payload);
    case AckArrives(at) =>
      if s.sender.Some? {
        AckSendsInRange(s.sender.value, s.ackQueue[0], at);
      }
    case ServerTimer(at) =>
  }

  // ----- Whole runs -----

  /** The state after a run; None if some action was not possible when its turn came. */
  ghost function Run(sha: Digest, s: State, source: ChunkData, actions: seq<Action>): Option<State>
    requires Ready(s, source) && StoreInv(s.store)
    decreases |actions|
  {
    if actions == [] then Some(s)
    else if !Enabled(s, actions[0]) then None
    else
      StepStaysReady(sha, s, source, actions[0]);
      Run(sha, Apply(sha, s, source, actions[0]), source, actions[1..])
  }

  // ----- The invariant of transfers that start from nothing -----

  /** Exactly the first p segments have arrived. */
  ghost predicate FirstBits(bits: Bitmap, p: nat) {
    forall i :: 0 <= i < MAX_SEQ_NUM ==> (bits[i] <==> i < p)
  }

  /** Whatever the clocks do, the window stays open. */
  ghost predicate LiveWindow(c: CongestCtrl) {
    1 <= c.windSize && (c.mode.CA? ==> 1 <= c.startWindSize)
  }

  /** The client holds exactly the first segments, and has noticed if that is all of them. */
  ghost predicate ClientInv(s: State, source: ChunkData) {
    var p := s.store.count;
    && p <= MAX_SEQ_NUM
    && StoreInv(s.store) && Agrees(s.store, source) && FirstBits(s.store.bits, p)
    && (s.complete <==> p == MAX_SEQ_NUM) && (s.open <==> p < MAX_SEQ_NUM)
  }

  /** What has been sent and not acknowledged is on its way there or back, once and in order. */
  ghost predicate InFlight(s: State, source: ChunkData, begin: nat, index: nat) {
    var p := s.store.count;
    && begin <= p <= index <= MAX_SEQ_NUM
    && s.sent == Upto(0, index)
    && s.dataQueue == Packets(source, Upto(p, index))
    && s.ackQueue == Upto(begin, p)
  }

  ghost predicate Inv(s: State, source: ChunkData) {
    && Ready(s, source)
    && ClientInv(s, source)
    && match s.sender
       case Some(x) =>
         && LiveWindow(x.cctrl)
         && x.cctrl.timeoutCount < MAX_TO_COUNTS
         && x.cctrl.begin < x.cctrl.index
         && InFlight(s, source, x.cctrl.begin, x.cctrl.index)
       case None =>
         InFlight(s, source, MAX_SEQ_NUM, MAX_SEQ_NUM)
  }

  /** The server has just answered the GET for a chunk of which the client has nothing. */
  ghost predicate Init(s: State, source: ChunkData, at: Time) {
    && s.sender == Start(at).next
    && s.open && !s.complete
    && s.store.count == 0 && StoreInv(s.store) && FirstBits(s.store.bits, 0)
    && s.sent == Start(at).sent == Upto(0, 1) && s.dataQueue == Packets(source, Upto(0, 1)) && s.ackQueue == []
  }

  lemma FirstBitsPrefix(bits: Bitmap, p: nat)
    requires FirstBits(bits, p) && p <= MAX_SEQ_NUM
    ensures Prefix(bits) == p
  {
    var q := Prefix(bits);
    assert q < MAX_SEQ_NUM ==> !bits[q];
    assert p < MAX_SEQ_NUM ==> !bits[p];
  }

  /** The next segment in order extends the prefix by one, and is acknowledged with its own number. */
  lemma NextSegment(sha: Digest, s: Store, source: ChunkData, p: nat)
    requires StoreInv(s) && Agrees(s, source) && FirstBits(s.bits, p) && s.count == p < MAX_SEQ_NUM
    ensures var r := Receive(sha, s, sha(source), p + 1, Segment(source, p + 1));
            && FirstBits(r.store.bits, p + 1)
            && r.store.count == p + 1
            && r.ack == p + 1
            && StoreInv(r.store) && Agrees(r.store, source)
            && r.verdict == if p + 1 == MAX_SEQ_NUM then Valid else Pending
  {
    ReceiveGenuine(sha, s, source, p + 1);
    FirstBitsPrefix(s.bits[p := true], p + 1);
  }

  lemma PacketsJoin(source: ChunkData, a: nat, b: nat, c: nat)
    requires a <= b <= c <= MAX_SEQ_NUM
    ensures Upto(a, b) + Upto(b, c) == Upto(a, c)
    ensures Packets(source, Upto(a, b)) + Packets(source, Upto(b, c)) == Packets(source, Upto(a, c))
  {
  }

  lemma PacketsTail(source: ChunkData, p: nat, n: nat)
    requires p < n <= MAX_SEQ_NUM
    ensures Packets(source, Upto(p, n))[0] == DataPacket(p + 1, Segment(source, p + 1))
    ensures Packets(source, Upto(p, n))[1..] == Packets(source, Upto(p + 1, n))
  {
  }

  lemma ClientStep(sha: Digest, s: State, source: ChunkData)
    requires ClientInv(s, source) && s.store.count < MAX_SEQ_NUM && s.dataQueue != []
    requires s.dataQueue[0] == DataPacket(s.store.count + 1, Segment(source, s.store.count + 1))
    ensures var t, p := OnData(sha, s, source), s.store.count;
            && ClientInv(t, source) && t.store.count == p + 1
            && t == s.(store := t.store, open := t.open, complete := t.complete,
                       dataQueue := s.dataQueue[1..], ackQueue := s.ackQueue + [p + 1])
  {
    NextSegment(sha, s.store, source, s.store.count);
  }

  /** One DATA packet less on its way there, one ACK more on its way back. */
  lemma DataMoves(s: State, t: State, source: ChunkData, begin: nat, index: nat)
    requires InFlight(s, source, begin, index) && s.dataQueue != [] && t.store.count == s.store.count + 1
    requires t.sent == s.sent && t.dataQueue == s.dataQueue[1..] && t.ackQueue == s.ackQueue + [s.store.count + 1]
    ensures InFlight(t, source, begin, index)
  {
    var p := s.store.count;
    PacketsTail(source, p, index);
    assert Upto(begin, p) + [p + 1] == Upto(begin, p + 1);
  }

  lemma DataStep(sha: Digest, s: State, source: ChunkData)
    requires Inv(s, source) && s.dataQueue != []
    ensures Inv(OnData(sha, s, source), source)
    ensures OnData(sha, s, source).store.count == s.store.count + 1
  {
    StepStaysReady(sha, s, source, DataArrives(0));
    var c := s.sender.value.cctrl;
    PacketsTail(source, s.store.count, c.index);
    ClientStep(sha, s, source);
    DataMoves(s, OnData(sha, s, source), source, c.begin, c.index);
  }

  lemma WindowStaysLive(c: CongestCtrl, timestamp: Time, at: Time)
    requires LiveWindow(c)
    ensures LiveWindow(CongestionControl(c, timestamp, at)) && LiveWindow(DetectedFirstLoss(c, at))
  {
  }

  /** What an ACK in order does to a sender that has more to send. */
  ghost predicate MovesOn(c: CongestCtrl, r: Result) {
    && r.next.Some?
    && var c' := r.next.value.cctrl;
    && LiveWindow(c')
    && c'.begin == c.begin + 1
    && c'.timeoutCount == 0
    && c.index <= c'.index <= MAX_SEQ_NUM
    && c'.begin < c'.index
    && r.sent == Upto(c.index, c'.index)
  }

  lemma AckInOrder(x: Sender, at: Time)
    requires LiveWindow(x.cctrl) && x.cctrl.begin < x.cctrl.index <= MAX_SEQ_NUM && x.cctrl.begin + 1 < MAX_SEQ_NUM
    ensures MovesOn(x.cctrl, ReceiveAck(x, x.cctrl.begin + 1, at))
  {
    WindowStaysLive(AdjustWindow(x.cctrl, x.cctrl.begin + 1), x.timestamp, at);
  }

  /** The packets released by an ACK join the queue behind those in flight. */
  lemma ServedInFlight(s: State, source: ChunkData, r: Result, begin: nat, index: nat, index': nat)
    requires InFlight(s, source, begin, index) && begin < s.store.count && index <= index' <= MAX_SEQ_NUM
    requires r.sent == Upto(index, index')
    ensures InFlight(Served(s.(ackQueue := s.ackQueue[1..]), source, r), source, begin + 1, index')
  {
    assert s.ackQueue[1..] == Upto(begin + 1, s.store.count);
    PacketsJoin(source, 0, index, index');
    PacketsJoin(source, s.store.count, index, index');
  }

  lemma AckGoesOn(s: State, source: ChunkData, r: Result, t: State)
    requires Inv(s, source) && s.ackQueue != [] && s.sender.Some? && MovesOn(s.sender.value.cctrl, r)
    requires t == Served(s.(ackQueue := s.ackQueue[1..]), source, r) && Ready(t, source)
    ensures Inv(t, source) && Rank(t) < Rank(s)
  {
    var x := s.sender.value;
    ServedInFlight(s, source, r, x.cctrl.begin, x.cctrl.index, r.next.value.cctrl.index);
  }

  lemma LastAck(s: State, source: ChunkData)
    requires Inv(s, source) && s.ackQueue != [] && s.sender.Some? && s.sender.value.cctrl.begin + 1 == MAX_SEQ_NUM
    ensures var t := Served(s.(ackQueue := s.ackQueue[1..]), source, Result(None, []));
            Inv(t, source) && Rank(t) < Rank(s)
  {
    var r := Result(None, []);
    assert r.sent == Upto(MAX_SEQ_NUM, MAX_SEQ_NUM);
    ServedInFlight(s, source, r, s.sender.value.cctrl.begin, MAX_SEQ_NUM, MAX_SEQ_NUM);
  }

  lemma AckStep(sha: Digest, s: State, source: ChunkData, at: Time)
    requires Inv(s, source) && s.ackQueue != []
    ensures Inv(Apply(sha, s, source, AckArrives(at)), source)
    ensures Rank(Apply(sha, s, source, AckArrives(at))) < Rank(s)
  {
    assert s.ackQueue[0] == s.sender.value.cctrl.begin + 1;
    if s.sender.value.cctrl.begin + 1 < MAX_SEQ_NUM {
      StepStaysReady(sha, s, source, AckArrives(at));
      AckInOrder(s.sender.value, at);
      AckGoesOn(s, source, ReceiveAck(s.sender.value, s.ackQueue[0], at), Apply(sha, s, source, AckArrives(at)));
    } else {
      LastAck(s, source);
    }
  }

  /** Each delivery lowers the rank by at least one, and so does each timeout between two ACKs. */
  function Rank(s: State): int {
    match s.sender
    case None => 0
    case Some(x) =>
      5 * ((MAX_SEQ_NUM - s.store.count) + (MAX_SEQ_NUM - x.cctrl.begin)) + (MAX_TO_COUNTS - x.cctrl.timeoutCount)
  }

  lemma StepDecreases(sha: Digest, s: State, source: ChunkData, a: Action)
    requires Inv(s, source) && Enabled(s, a)
    ensures Inv(Apply(sha, s, source, a), source)
    ensures 0 <= Rank(Apply(sha, s, source, a)) < Rank(s)
  {
    match a
    case DataArrives(_) => DataStep(sha, s, source);
    case AckArrives(at) => AckStep(sha, s, source, at);
    case ServerTimer(at) =>
      WindowStaysLive(s.sender.value.cctrl.(timeoutCount := s.sender.value.cctrl.timeoutCount + 1), s.sender.value.timestamp, at);
  }

  lemma {:induction false} RunIsBounded(sha: Digest, s: State, source: ChunkData, actions: seq<Action>)
    requires Inv(s, source) && Run(sha, s, source, actions).Some?
    ensures Inv(Run(sha, s, source, actions).value, source)
    ensures |actions| <= Rank(s) - Rank(Run(sha, s, source, actions).value)
    decreases |actions|
  {
    if actions != [] {
      StepDecreases(sha, s, source, actions[0]);
      RunIsBounded(sha, Apply(sha, s, source, actions[0]), source, actions[1..]);
    }
  }

  /** No state is stuck before the server has retired the transfer. */
  lemma Progress(s: State, source: ChunkData)
    requires Inv(s, source)
    ensures s.sender.Some? <==> exists a :: Enabled(s, a)
  {
    if s.sender.Some? {
      var c := s.sender.value.cctrl;
      assert |s.dataQueue| + |s.ackQueue| == c.index - c.begin;
      if s.dataQueue != [] {
        assert Enabled(s, DataArrives(0));
      } else {
        assert Enabled(s, AckArrives(0));
      }
    }
  }

  /** Every loss-free run from the start is finite, sends segments in order and at most once, and
      can go on until the server retires the transfer; by then every segment has been sent exactly
      once, in order, and the client holds the chunk. */
  lemma Termination(sha: Digest, s: State, source: ChunkData, at: Time, actions: seq<Action>)
    requires Init(s, source, at) && Run(sha, s, source, actions).Some?
    ensures |actions| <= 5255
    ensures var t := Run(sha, s, source, actions).value;
            && (exists n: nat :: n <= MAX_SEQ_NUM && t.sent == Upto(0, n))
            && (t.sender.Some? <==> exists a :: Enabled(t, a))
            && (t.sender.None? ==> t.complete && t.store.data == source && t.sent == Upto(0, MAX_SEQ_NUM))
  {
    RunIsBounded(sha, s, source, actions);
    var t := Run(sha, s, source, actions).value;
    Progress(t, source);
    assert t.sent == Upto(0, if t.sender.Some? then t.sender.value.cctrl.index else MAX_SEQ_NUM);
    if t.sender.None? {
      FullIsSource(t.store, source);
    }
  }
}
