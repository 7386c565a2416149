/** Loss-free transfers of a chunk that the client may already hold in part, from an earlier
    transfer with another peer: they terminate too (code/bt_server.c, code/bt_client.c).

    The client's ACKs then jump over segments it holds, so the server skips segments, takes repeated
    ACKs for losses and sends some segments again. */
module ResumedTransfer {
  import opened Common
  import opened ChunkLayout
  import opened Congestion
  import opened Sender
  import opened Receiver
  import opened LossFreeTransfer

  // ----- Positions in the queues -----

  function Position(q: seq<DataPacket>, k: nat): (i: nat)
    ensures i <= |q| && (i < |q| ==> q[i].num == k)
    ensures forall j :: 0 <= j < i ==> q[j].num != k
  {
    if q == [] || q[0].num == k then 0 else 1 + Position(q[1..], k)
  }

  predicate Queued(q: seq<DataPacket>, k: nat) { exists i :: 0 <= i < |q| && q[i].num == k }

  function AckPosition(q: seq<nat>, a: nat): (i: nat)
    ensures i <= |q| && (i < |q| ==> q[i] == a)
    ensures forall j :: 0 <= j < i ==> q[j] != a
  {
    if q == [] || q[0] == a then 0 else 1 + AckPosition(q[1..], a)
  }

  lemma QueuedAppend(q: seq<DataPacket>, more: seq<DataPacket>, k: nat)
    ensures Queued(q + more, k) <==> Queued(q, k) || Queued(more, k)
    ensures Queued(q, k) ==> Position(q + more, k) == Position(q, k)
  {
    var all := q + more;
    forall i | 0 <= i < |more| ensures all[|q| + i] == more[i] { }
    assert Queued(q, k) ==> all[Position(q, k)].num == k;
  }

  lemma QueuedTail(q: seq<DataPacket>, k: nat)
    requires q != []
    ensures Queued(q, k) <==> q[0].num == k || Queued(q[1..], k)
    ensures Queued(q, k) && q[0].num != k ==> Position(q, k) == Position(q[1..], k) + 1
  {
    forall i | 1 <= i < |q| ensures q[1..][i - 1] == q[i] { }
  }

  lemma AckAppend(q: seq<nat>, b: nat, a: nat)
    ensures a in q ==> AckPosition(q + [b], a) == AckPosition(q, a)
    ensures a !in q && a == b ==> AckPosition(q + [b], a) == |q|
  {
    var all := q + [b];
    var i := AckPosition(all, a);
    assert all[|q|] == b;
    assert a in q ==> all[AckPosition(q, a)] == a;
  }

  lemma PrefixIs(bits: seq<bool>, p: nat)
    requires p <= |bits| && (forall i :: 0 <= i < p ==> bits[i]) && (p < |bits| ==> !bits[p])
    ensures Prefix(bits) == p
  {
    var q := Prefix(bits);
    assert q < |bits| ==> !bits[q];
  }

  // ----- The invariant -----

  ghost predicate ClientOk(s: State, source: ChunkData) {
    && StoreInv(s.store) && Agrees(s.store, source)
    && (s.complete <==> s.store.count == MAX_SEQ_NUM) && (s.open <==> !s.complete)
  }

  /** Segments sent and not acknowledged have arrived or are on their way. */
  ghost predicate Covered(bits: Bitmap, q: seq<DataPacket>, begin: nat, index: nat)
    requires index <= MAX_SEQ_NUM
  {
    forall k {:trigger Queued(q, k)} :: begin < k <= index ==> bits[k - 1] || Queued(q, k)
  }

  /** The ACK for the client's prefix is on its way, unless the server has it already; only before
      the first DATA packet arrives it is still to be sent. */
  ghost predicate AckUnderway(s: State, begin: nat) {
    var p := Prefix(s.store.bits);
    begin < p ==> p in s.ackQueue || (s.ackQueue == [] && s.dataQueue != [] && s.open)
  }

  ghost predicate SenderOk(s: State, c: CongestCtrl) {
    && LiveWindow(c) && c.timeoutCount < MAX_TO_COUNTS
    && c.begin < c.index <= MAX_SEQ_NUM
    && c.begin <= Prefix(s.store.bits)
    && (forall i :: 0 <= i < |s.ackQueue| ==> s.ackQueue[i] <= Prefix(s.store.bits))
    && Covered(s.store.bits, s.dataQueue, c.begin, c.index)
    && AckUnderway(s, c.begin)
  }

  ghost predicate Inv(s: State, source: ChunkData) {
    && Ready(s, source) && ClientOk(s, source)
    && match s.sender
       case Some(x) => SenderOk(s, x.cctrl)
       case None => s.complete
  }

  /** The server has just answered the GET for a chunk of which the client may have a part. */
  ghost predicate Init(s: State, source: ChunkData, at: Time) {
    && s.sender == Start(at).next
    && s.open && !s.complete
    && StoreInv(s.store) && Agrees(s.store, source) && s.store.count < MAX_SEQ_NUM
    && s.sent == Upto(0, 1) && s.dataQueue == Packets(source, Upto(0, 1)) && s.ackQueue == []
  }

  lemma InitInv(s: State, source: ChunkData, at: Time)
    requires Init(s, source, at)
    ensures Inv(s, source)
  {
    StartInv(at);
    assert s.dataQueue[0].num == 1;
  }

  // ----- The measure -----

  /** Compared from left to right. While the segment the client waits for is on its way, `wait` is
      the number of packets before it; else it is the number of ACKs before the client's newest. */
  datatype Rank = Rank(alive: nat, lacking: nat, phase: nat, wait: nat, other: nat, patience: int)

  ghost function RankOf(s: State): Rank {
    var p := Prefix(s.store.bits);
    match s.sender
    case None => Rank(0, 0, 0, |s.dataQueue|, |s.ackQueue|, 0)
    case Some(x) =>
      var patience := MAX_TO_COUNTS - x.cctrl.timeoutCount;
      if Queued(s.dataQueue, p + 1) then
        Rank(1, MAX_SEQ_NUM - p, 0, Position(s.dataQueue, p + 1), |s.ackQueue|, patience)
      else
        Rank(1, MAX_SEQ_NUM - p, 1, AckPosition(s.ackQueue, p), |s.dataQueue|, patience)
  }

  predicate Below(a: Rank, b: Rank) {
    || a.alive < b.alive
    || (a.alive == b.alive && a.lacking < b.lacking)
    || (a.alive == b.alive && a.lacking == b.lacking && a.phase < b.phase)
    || (a.alive == b.alive && a.lacking == b.lacking && a.phase == b.phase && a.wait < b.wait)
    || (a.alive == b.alive && a.lacking == b.lacking && a.phase == b.phase && a.wait == b.wait && a.other < b.other)
    || (a == b.(patience := a.patience) && 0 <= a.patience < b.patience)
  }

  // ----- DATA arrives -----

  /** What a genuine segment does to the bits: one is set, and the prefix grows exactly if it is the
      segment the client waits for. */
  lemma SegmentArrives(sha: Digest, s: Store, source: ChunkData, k: nat)
    requires StoreInv(s) && Agrees(s, source) && s.count < MAX_SEQ_NUM && IsSeqNum(k)
    ensures var r := Receive(sha, s, sha(source), k, Segment(source, k));
            && r.store.bits == s.bits[k - 1 := true]
            && r.ack == Prefix(r.store.bits)
            && (if k == Prefix(s.bits) + 1 then Prefix(s.bits) < r.ack else r.ack == Prefix(s.bits))
  {
    ReceiveGenuine(sha, s, source, k);
    var p, bits := Prefix(s.bits), s.bits[k - 1 := true];
    assert s.bits[k - 1] ==> bits == s.bits;
    if k == p + 1 {
      PrefixAtLeast(bits, k);
    } else {
      PrefixIs(bits, p);
    }
  }

  lemma PrefixAtLeast(bits: seq<bool>, p: nat)
    requires p <= |bits| && forall i :: 0 <= i < p ==> bits[i]
    ensures p <= Prefix(bits)
  {
  }

  lemma CoveredTail(bits: Bitmap, bits': Bitmap, q: seq<DataPacket>, begin: nat, index: nat)
    requires index <= MAX_SEQ_NUM && Covered(bits, q, begin, index) && q != []
    requires forall i :: 0 <= i < MAX_SEQ_NUM && bits[i] ==> bits'[i]
    requires IsSeqNum(q[0].num) && bits'[q[0].num - 1]
    ensures Covered(bits', q[1..], begin, index)
  {
    forall k | begin < k <= index ensures bits'[k - 1] || Queued(q[1..], k) {
      QueuedTail(q, k);
      assert bits[k - 1] || Queued(q, k);
    }
  }

  /** All segments have arrived, and no DATA is needed any more. */
  lemma CompleteBits(s: State, source: ChunkData)
    requires ClientOk(s, source)
    ensures s.complete <==> Prefix(s.store.bits) == MAX_SEQ_NUM
    ensures s.complete ==> s.store.data == source
  {
    FullCountIsFullPrefix(s.store.bits);
    if s.complete {
      FullIsSource(s.store, source);
    }
  }

  lemma OpenData(sha: Digest, s: State, source: ChunkData)
    requires Ready(s, source) && ClientOk(s, source) && s.dataQueue != [] && s.open
    ensures var t, k := OnData(sha, s, source), s.dataQueue[0].num;
            && ClientOk(t, source)
            && t.store.bits == s.store.bits[k - 1 := true]
            && t.ackQueue == s.ackQueue + [Prefix(t.store.bits)] && t.dataQueue == s.dataQueue[1..]
            && t.sender == s.sender
            && if k == Prefix(s.store.bits) + 1 then Prefix(s.store.bits) < Prefix(t.store.bits)
               else Prefix(t.store.bits) == Prefix(s.store.bits)
  {
    var p := s.dataQueue[0];
    assert p.payload == Segment(source, p.num);
    ReceiveGenuine(sha, s.store, source, p.num);
    FullCountIsFullPrefix(s.store.bits);
    SegmentArrives(sha, s.store, source, p.num);
  }

  lemma DataKeeps(sha: Digest, s: State, source: ChunkData)
    requires Inv(s, source) && s.dataQueue != []
    ensures Inv(OnData(sha, s, source), source)
    ensures Below(RankOf(OnData(sha, s, source)), RankOf(s))
  {
    StepStaysReady(sha, s, source, DataArrives(0));
    CompleteBits(s, source);
    if s.open {
      OpenDataKeeps(sha, s, source);
      OpenDataLowers(sha, s, source);
    } else if s.sender.Some? {
      var c := s.sender.value.cctrl;
      CoveredTail(s.store.bits, s.store.bits, s.dataQueue, c.begin, c.index);
      NoneBeyond(s.dataQueue, source);
      NoneBeyond(s.dataQueue[1..], source);
    }
  }

  lemma NoneBeyond(q: seq<DataPacket>, source: ChunkData)
    requires forall p :: p in q ==> IsSeqNum(p.num) && p.payload == Segment(source, p.num)
    ensures !Queued(q, MAX_SEQ_NUM + 1)
  {
  }

  lemma OpenDataKeeps(sha: Digest, s: State, source: ChunkData)
    requires Inv(s, source) && s.dataQueue != [] && s.open && Ready(OnData(sha, s, source), source)
    ensures Inv(OnData(sha, s, source), source)
  {
    var t, c := OnData(sha, s, source), s.sender.value.cctrl;
    OpenData(sha, s, source);
    CoveredTail(s.store.bits, t.store.bits, s.dataQueue, c.begin, c.index);
    assert t.ackQueue[|s.ackQueue|] == Prefix(t.store.bits);
  }

  lemma OpenDataLowers(sha: Digest, s: State, source: ChunkData)
    requires Inv(s, source) && s.dataQueue != [] && s.open
    ensures Below(RankOf(OnData(sha, s, source)), RankOf(s))
  {
    var p := Prefix(s.store.bits);
    OpenData(sha, s, source);
    QueuedTail(s.dataQueue, p + 1);
    AckAppend(s.ackQueue, p, p);
  }

  // ----- An ACK arrives -----

  /** Whatever segments the server adds, and wherever it puts its window. */
  lemma CoveredMore(bits: Bitmap, q: seq<DataPacket>, more: seq<DataPacket>, c: CongestCtrl, c': CongestCtrl, source: ChunkData, from: nat)
    requires c.index <= MAX_SEQ_NUM && c'.index <= MAX_SEQ_NUM && Covered(bits, q, c.begin, c.index)
    requires c.begin <= c'.begin <= from <= c'.index && (from <= c.index || from <= c'.begin)
    requires more == Packets(source, Upto(from, c'.index))
    ensures Covered(bits, q + more, c'.begin, c'.index)
  {
    forall k | c'.begin < k <= c'.index ensures bits[k - 1] || Queued(q + more, k) {
      QueuedAppend(q, more, k);
      if k <= from {
        assert bits[k - 1] || Queued(q, k);
      } else {
        assert more[k - from - 1].num == k;
      }
    }
  }

  /** What any ACK but the last does to the counters of the sender. */
  ghost predicate Answers(c: CongestCtrl, ack: nat, r: Result) {
    && r.next.Some?
    && var c' := r.next.value.cctrl;
    && LiveWindow(c') && c'.timeoutCount == 0
    && c'.begin == Max(c.begin, ack)
    && c'.begin < c'.index <= MAX_SEQ_NUM
    && exists from: nat ::
         && c'.begin <= from <= c'.index && (from <= c.index || from <= c'.begin)
         && r.sent == Upto(from, c'.index)
  }

  lemma AckAnswers(x: Sender, ack: nat, at: Time)
    requires LiveWindow(x.cctrl) && x.cctrl.begin < x.cctrl.index <= MAX_SEQ_NUM && ack < MAX_SEQ_NUM
    ensures Answers(x.cctrl, ack, ReceiveAck(x, ack, at))
  {
    var r, c := ReceiveAck(x, ack, at), x.cctrl;
    if Transmits(c, ack) {
      WindowStaysLive(AdjustWindow(c, ack), x.timestamp, at);
      WindowStaysLive(c.(dupCount := c.dupCount + 1, index := c.begin), x.timestamp, at);
      var from := Reacted(x, ack, at).index;
      assert r.sent == Upto(from, r.next.value.cctrl.index);
    } else {
      assert r.sent == Upto(c.index, c.index);
    }
  }

  lemma AckKeeps(s: State, source: ChunkData, r: Result, t: State)
    requires Inv(s, source) && s.ackQueue != [] && s.sender.Some? && Answers(s.sender.value.cctrl, s.ackQueue[0], r)
    requires t == Served(s.(ackQueue := s.ackQueue[1..]), source, r) && Ready(t, source)
    requires s.ackQueue[0] < MAX_SEQ_NUM
    ensures Inv(t, source)
  {
    var c, c' := s.sender.value.cctrl, r.next.value.cctrl;
    var from: nat :| c'.begin <= from <= c'.index && (from <= c.index || from <= c'.begin) && r.sent == Upto(from, c'.index);
    CoveredMore(s.store.bits, s.dataQueue, Packets(source, r.sent), c, c', source, from);
    assert s.ackQueue == [s.ackQueue[0]] + s.ackQueue[1..];
  }

  lemma AckLowers(s: State, source: ChunkData, r: Result, t: State)
    requires Inv(s, source) && s.ackQueue != [] && s.sender.Some? && Answers(s.sender.value.cctrl, s.ackQueue[0], r)
    requires t == Served(s.(ackQueue := s.ackQueue[1..]), source, r) && Inv(t, source)
    requires s.ackQueue[0] < MAX_SEQ_NUM
    ensures Below(RankOf(t), RankOf(s))
  {
    var p := Prefix(s.store.bits);
    QueuedAppend(s.dataQueue, Packets(source, r.sent), p + 1);
    if !Queued(s.dataQueue, p + 1) && !Queued(t.dataQueue, p + 1) {
      assert p == MAX_SEQ_NUM || !s.store.bits[p];
      assert s.ackQueue[0] != p;
      assert AckPosition(s.ackQueue, p) == 1 + AckPosition(s.ackQueue[1..], p);
    }
  }

  // ----- Every step -----

  lemma AckStepLowers(sha: Digest, s: State, source: ChunkData, at: Time)
    requires Inv(s, source) && s.ackQueue != []
    ensures Inv(Apply(sha, s, source, AckArrives(at)), source)
    ensures Below(RankOf(Apply(sha, s, source, AckArrives(at))), RankOf(s))
  {
    StepStaysReady(sha, s, source, AckArrives(at));
    CompleteBits(s, source);
    if s.sender.Some? && s.ackQueue[0] < MAX_SEQ_NUM {
      var t, r := Apply(sha, s, source, AckArrives(at)), ReceiveAck(s.sender.value, s.ackQueue[0], at);
      AckAnswers(s.sender.value, s.ackQueue[0], at);
      AckKeeps(s, source, r, t);
      AckLowers(s, source, r, t);
    }
  }

  /** A timeout that does not kill the transfer only costs patience. */
  lemma TimerLowers(sha: Digest, s: State, source: ChunkData, at: Time)
    requires Inv(s, source) && Enabled(s, ServerTimer(at))
    ensures Inv(Apply(sha, s, source, ServerTimer(at)), source)
    ensures Below(RankOf(Apply(sha, s, source, ServerTimer(at))), RankOf(s))
  {
    var t, c := Apply(sha, s, source, ServerTimer(at)), s.sender.value.cctrl;
    WindowStaysLive(c.(timeoutCount := c.timeoutCount + 1), s.sender.value.timestamp, at);
    assert t.dataQueue == s.dataQueue && t.ackQueue == s.ackQueue;
  }

  lemma StepLowers(sha: Digest, s: State, source: ChunkData, a: Action)
    requires Inv(s, source) && Enabled(s, a)
    ensures Inv(Apply(sha, s, source, a), source)
    ensures Below(RankOf(Apply(sha, s, source, a)), RankOf(s))
  {
    match a
    case DataArrives(_) => DataKeeps(sha, s, source);
    case AckArrives(at) => AckStepLowers(sha, s, source, at);
    case ServerTimer(at) => TimerLowers(sha, s, source, at);
  }

  /** As long as the server has not retired the transfer, a packet is on its way. */
  lemma PacketUnderway(s: State, source: ChunkData)
    requires Inv(s, source) && s.sender.Some?
    ensures s.dataQueue != [] || s.ackQueue != []
  {
    var begin := s.sender.value.cctrl.begin;
    if begin == Prefix(s.store.bits) {
      assert Queued(s.dataQueue, begin + 1);
    }
  }

  /** The server has retired the transfer, the client holds the chunk, and no packet is left over. */
  ghost predicate Delivered(s: State, source: ChunkData) {
    s.sender.None? && s.complete && s.store.data == source && s.dataQueue == [] && s.ackQueue == []
  }

  /** Nothing can happen any more exactly when everything is delivered. */
  lemma StuckMeansDelivered(s: State, source: ChunkData)
    requires Inv(s, source)
    ensures Delivered(s, source) <==> forall a :: !Enabled(s, a)
  {
    CompleteBits(s, source);
    if forall a :: !Enabled(s, a) {
      assert !Enabled(s, DataArrives(0)) && !Enabled(s, AckArrives(0));
      if s.sender.Some? {
        PacketUnderway(s, source);
      }
    }
  }

  // ----- Whole runs -----

  /** The schedule of a run, by the number of steps made so far; it lets something happen whenever
      something can. */
  ghost predicate Schedules(pick: (nat, State) -> Action) {
    forall n: nat, s: State {:trigger pick(n, s)} :: (exists a :: Enabled(s, a)) ==> Enabled(s, pick(n, s))
  }

  /** The state k steps after step n. */
  ghost function After(sha: Digest, s: State, source: ChunkData, pick: (nat, State) -> Action, n: nat, k: nat): (t: State)
    requires Inv(s, source) && Schedules(pick)
    ensures Inv(t, source)
    decreases k
  {
    if k == 0 || forall a :: !Enabled(s, a) then s
    else
      StepLowers(sha, s, source, pick(n, s));
      After(sha, Apply(sha, s, source, pick(n, s)), source, pick, n + 1, k - 1)
  }

  /** Under every schedule, and whatever the client holds at the start, the run ends with the chunk
      delivered. */
  lemma {:induction false} Terminates(sha: Digest, s: State, source: ChunkData, pick: (nat, State) -> Action, n: nat)
    requires Inv(s, source) && Schedules(pick)
    ensures exists k: nat :: Delivered(After(sha, s, source, pick, n, k), source)
    decreases RankOf(s).alive, RankOf(s).lacking, RankOf(s).phase, RankOf(s).wait, RankOf(s).other, RankOf(s).patience
  {
    if forall a :: !Enabled(s, a) {
      StuckMeansDelivered(s, source);
      assert Delivered(After(sha, s, source, pick, n, 0), source);
    } else {
      var next := Apply(sha, s, source, pick(n, s));
      StepLowers(sha, s, source, pick(n, s));
      Terminates(sha, next, source, pick, n + 1);
      var k: nat :| Delivered(After(sha, next, source, pick, n + 1, k), source);
      assert After(sha, s, source, pick, n, k + 1) == After(sha, next, source, pick, n + 1, k);
    }
  }
}
