/** When a loss-free transfer sends every segment exactly once, in order: exactly when the client
    holds no segment beyond the first at the start (code/bt_server.c, code/bt_client.c). */
module ResumedOrder {
  import opened Common
  import opened ChunkLayout
  import opened Congestion
  import opened Sender
  import opened Receiver
  import opened LossFreeTransfer
  import opened ResumedTransfer

  /** So far each segment has been sent once, in order, and all of them before the transfer is retired. */
  ghost predicate EachOnce(t: State) {
    exists n: nat :: n <= MAX_SEQ_NUM && t.sent == Upto(0, n) && (t.sender.None? ==> n == MAX_SEQ_NUM)
  }

  ghost predicate AlwaysEachOnce(sha: Digest, s: State, source: ChunkData)
    requires Ready(s, source) && StoreInv(s.store)
  {
    forall actions :: Run(sha, s, source, actions).Some? ==> EachOnce(Run(sha, s, source, actions).value)
  }

  ghost predicate NothingBeyondFirst(bits: Bitmap) {
    forall i :: 1 <= i < MAX_SEQ_NUM ==> !bits[i]
  }

  // ----- It holds -----

  lemma OrderedIsEachOnce(s: State, source: ChunkData)
    requires LossFreeTransfer.Inv(s, source)
    ensures EachOnce(s)
  {
    assert s.sent == Upto(0, if s.sender.Some? then s.sender.value.cctrl.index else MAX_SEQ_NUM);
  }

  lemma OrderedRun(sha: Digest, s: State, source: ChunkData, actions: seq<Action>)
    requires LossFreeTransfer.Inv(s, source) && Run(sha, s, source, actions).Some?
    ensures EachOnce(Run(sha, s, source, actions).value)
  {
    RunIsBounded(sha, s, source, actions);
    OrderedIsEachOnce(Run(sha, s, source, actions).value, source);
  }

  /** The client holds exactly the first segment, which is on its way again. */
  ghost predicate FirstAgain(s: State, source: ChunkData) {
    && Ready(s, source) && ResumedTransfer.Inv(s, source)
    && FirstBits(s.store.bits, 1) && s.store.count == 1
    && s.sender.Some? && s.sender.value.cctrl.begin == 0 && s.sender.value.cctrl.index == 1
    && s.sent == Upto(0, 1) && s.dataQueue == Packets(source, Upto(0, 1)) && s.ackQueue == []
  }

  lemma {:induction false} FirstAgainRun(sha: Digest, s: State, source: ChunkData, actions: seq<Action>)
    requires FirstAgain(s, source) && Run(sha, s, source, actions).Some?
    ensures EachOnce(Run(sha, s, source, actions).value)
    decreases |actions|
  {
    if actions != [] {
      var t := Apply(sha, s, source, actions[0]);
      StepLowers(sha, s, source, actions[0]);
      match actions[0]
      case DataArrives(_) =>
        FirstBitsPrefix(s.store.bits, 1);
        OpenData(sha, s, source);
        assert t.dataQueue == Packets(source, Upto(1, 1)) && t.ackQueue == Upto(0, 1);
        OrderedRun(sha, t, source, actions[1..]);
      case ServerTimer(_) =>
        assert t.sent == s.sent && t.dataQueue == s.dataQueue;
        FirstAgainRun(sha, t, source, actions[1..]);
      case AckArrives(_) => assert false;
    }
  }

  // ----- It fails -----

  /** The sender has a window of one segment, with j acknowledged and j + 1 sent. */
  ghost predicate OneAtATime(c: CongestCtrl, at: Time, j: nat) {
    && c.mode.CA? && c.rttTimer == at && c.windSize == 1 && c.startWindSize == 1
    && c.begin == j && c.index == j + 1
  }

  /** One segment at a time under way, the next being j + 1, and none of those up to k held but the
      ones that have arrived. */
  ghost predicate StopAndWait(s: State, source: ChunkData, at: Time, j: nat, k: nat) {
    && ResumedTransfer.Inv(s, source) && s.open && s.sender.Some?
    && OneAtATime(s.sender.value.cctrl, at, j)
    && s.sent == Upto(0, j + 1) && s.dataQueue == Packets(source, Upto(j, j + 1)) && s.ackQueue == []
    && j + 1 < k <= MAX_SEQ_NUM && 2 <= k && s.store.bits[k - 1]
    && (forall i :: 0 <= i < j ==> s.store.bits[i])
    && (forall i :: Max(j, 1) <= i < k - 1 ==> !s.store.bits[i])
  }

  /** The next segment arrives and is acknowledged with the client's new prefix q. */
  lemma SegmentTaken(sha: Digest, s: State, source: ChunkData, at: Time, j: nat, k: nat) returns (q: nat)
    requires StopAndWait(s, source, at, j, k)
    ensures var t := Apply(sha, s, source, DataArrives(at));
            && ResumedTransfer.Inv(t, source)
            && t.sender == s.sender && t.sent == s.sent && t.dataQueue == [] && t.ackQueue == [q]
            && t.store.bits == s.store.bits[j := true] && Prefix(t.store.bits) == q
            && t.open == (q < MAX_SEQ_NUM)
    ensures if j + 2 < k then q == j + 1 else k <= q <= MAX_SEQ_NUM
  {
    StepLowers(sha, s, source, DataArrives(at));
    var t := Apply(sha, s, source, DataArrives(at));
    OpenData(sha, s, source);
    CompleteBits(t, source);
    q := Prefix(t.store.bits);
    if j + 2 < k {
      PrefixIs(t.store.bits, j + 1);
    } else {
      PrefixAtLeast(t.store.bits, k);
    }
  }

  /** With a window of one, the ACK lets the server send exactly the segment behind it. */
  lemma AckTaken(x: Sender, q: nat, at: Time)
    requires OneAtATime(x.cctrl, at, x.cctrl.begin) && x.cctrl.begin < q < MAX_SEQ_NUM
    ensures var r := ReceiveAck(x, q, at);
            r.next.Some? && r.sent == [q + 1] && OneAtATime(r.next.value.cctrl, at, q)
  {
    var c := CongestionControl(AdjustWindow(x.cctrl, q), x.timestamp, at);
    assert Since(at, at) == 0;
    assert c.windSize == 1 && c.index == q;
    assert Upto(q, q + 1) == [q + 1];
  }

  /** What the server has sent once it has skipped segment k: not all segments, in order. */
  lemma Skipped(t: State, k: nat, q: nat)
    requires 2 <= k <= q <= MAX_SEQ_NUM
    requires if q == MAX_SEQ_NUM then t.sender.None? && t.sent == Upto(0, k - 1) else t.sent == Upto(0, k - 1) + [q + 1]
    ensures !EachOnce(t)
  {
    if q < MAX_SEQ_NUM {
      assert t.sent[k - 1] == q + 1;
    }
  }

  /** The ACK comes back: the server sends the segment behind it, or retires the transfer. */
  lemma AckReturns(sha: Digest, t: State, source: ChunkData, at: Time, j: nat, q: nat)
    requires ResumedTransfer.Inv(t, source) && t.sender.Some? && OneAtATime(t.sender.value.cctrl, at, j)
    requires t.dataQueue == [] && t.ackQueue == [q] && j < q <= MAX_SEQ_NUM
    ensures var u := Apply(sha, t, source, AckArrives(at));
            && ResumedTransfer.Inv(u, source) && u.store == t.store && u.open == t.open && u.ackQueue == []
            && if q == MAX_SEQ_NUM then u.sender.None? && u.sent == t.sent
               else u.sender.Some? && OneAtATime(u.sender.value.cctrl, at, q) &&
                    u.dataQueue == Packets(source, Upto(q, q + 1)) && u.sent == t.sent + [q + 1]
  {
    StepLowers(sha, t, source, AckArrives(at));
    if q < MAX_SEQ_NUM {
      AckTaken(t.sender.value, q, at);
      OneSent(t, source, ReceiveAck(t.sender.value, q, at), q);
    }
  }

  lemma OneSent(t: State, source: ChunkData, r: Result, q: nat)
    requires q < MAX_SEQ_NUM && r.sent == [q + 1] && t.dataQueue == []
    ensures var u := Served(t, source, r);
            u.dataQueue == Packets(source, Upto(q, q + 1)) && u.sent == t.sent + [q + 1]
  {
    assert Upto(q, q + 1) == [q + 1];
  }

  lemma WaitsAgain(s: State, u: State, source: ChunkData, at: Time, j: nat, k: nat)
    requires StopAndWait(s, source, at, j, k) && j + 2 < k
    requires ResumedTransfer.Inv(u, source) && u.open && u.sender.Some? && OneAtATime(u.sender.value.cctrl, at, j + 1)
    requires u.sent == s.sent + [j + 2] && u.dataQueue == Packets(source, Upto(j + 1, j + 2)) && u.ackQueue == []
    requires u.store.bits == s.store.bits[j := true]
    ensures StopAndWait(u, source, at, j + 1, k)
  {
    assert Upto(0, j + 1) + [j + 2] == Upto(0, j + 2);
  }

  /** One segment there and its ACK back: the same again, or segment k has been skipped. */
  lemma OneTurn(sha: Digest, s: State, source: ChunkData, at: Time, j: nat, k: nat)
    requires StopAndWait(s, source, at, j, k)
    ensures var t := Apply(sha, s, source, DataArrives(at));
            && Ready(t, source) && StoreInv(t.store) && Enabled(t, AckArrives(at))
            && var u := Apply(sha, t, source, AckArrives(at));
            if j + 2 < k then StopAndWait(u, source, at, j + 1, k) else !EachOnce(u)
  {
    var q := SegmentTaken(sha, s, source, at, j, k);
    var t := Apply(sha, s, source, DataArrives(at));
    AckReturns(sha, t, source, at, j, q);
    if j + 2 < k {
      WaitsAgain(s, Apply(sha, t, source, AckArrives(at)), source, at, j, k);
    } else {
      Skipped(Apply(sha, t, source, AckArrives(at)), k, q);
    }
  }

  /** Go on one segment at a time until the ACK jumps over segment k. */
  lemma {:induction false} FailingRun(sha: Digest, s: State, source: ChunkData, at: Time, j: nat, k: nat) returns (actions: seq<Action>)
    requires StopAndWait(s, source, at, j, k)
    ensures Run(sha, s, source, actions).Some? && !EachOnce(Run(sha, s, source, actions).value)
    decreases k - j
  {
    OneTurn(sha, s, source, at, j, k);
    var rest := [];
    if j + 2 < k {
      rest := FailingRun(sha, Apply(sha, Apply(sha, s, source, DataArrives(at)), source, AckArrives(at)), source, at, j + 1, k);
    }
    actions := [DataArrives(at), AckArrives(at)] + rest;
    RunTwo(sha, s, source, DataArrives(at), AckArrives(at), rest);
  }

  lemma RunTwo(sha: Digest, s: State, source: ChunkData, a: Action, b: Action, rest: seq<Action>)
    requires Ready(s, source) && StoreInv(s.store) && Enabled(s, a)
    requires var t := Apply(sha, s, source, a); Ready(t, source) && StoreInv(t.store) && Enabled(t, b)
    ensures var u := Apply(sha, Apply(sha, s, source, a), source, b);
            Ready(u, source) && StoreInv(u.store) && Run(sha, s, source, [a, b] + rest) == Run(sha, u, source, rest)
  {
    StepStaysReady(sha, Apply(sha, s, source, a), source, b);
    assert ([a, b] + rest)[1..] == [b] + rest && ([b] + rest)[1..] == rest;
  }

  lemma {:induction false} LeastHeld(bits: Bitmap, i: nat) returns (k: nat)
    requires 1 <= i < MAX_SEQ_NUM && bits[i]
    ensures 2 <= k <= MAX_SEQ_NUM && bits[k - 1] && forall j :: 1 <= j < k - 1 ==> !bits[j]
    decreases i
  {
    if j :| 1 <= j < i && bits[j] {
      k := LeastHeld(bits, j);
    } else {
      k := i + 1;
    }
  }

  /** A reading of the clock at which a transfer created at `at` has timed out. */
  function Later(at: Time): (now: Time)
    ensures HasTimedOut(at, now)
  {
    if at + 3001 < 0x10_0000 * 1000 then at + 3001 else 0
  }

  /** One timeout before anything arrives leaves the window at one segment. */
  lemma SlowDown(sha: Digest, s: State, source: ChunkData, at: Time, k: nat)
    requires ResumedTransfer.Init(s, source, at) && 2 <= k <= MAX_SEQ_NUM && s.store.bits[k - 1]
    requires forall j :: 1 <= j < k - 1 ==> !s.store.bits[j]
    ensures Ready(s, source) && Enabled(s, ServerTimer(Later(at)))
    ensures StopAndWait(Apply(sha, s, source, ServerTimer(Later(at))), source, Later(at), 0, k)
  {
    InitInv(s, source, at);
    StepLowers(sha, s, source, ServerTimer(Later(at)));
    var t := Apply(sha, s, source, ServerTimer(Later(at)));
    assert t.sent == s.sent && t.dataQueue == s.dataQueue;
  }

  lemma HeldFails(sha: Digest, s: State, source: ChunkData, at: Time)
    requires ResumedTransfer.Init(s, source, at) && !NothingBeyondFirst(s.store.bits)
    ensures Ready(s, source) && !AlwaysEachOnce(sha, s, source)
  {
    var i :| 1 <= i < MAX_SEQ_NUM && s.store.bits[i];
    var k := LeastHeld(s.store.bits, i);
    SlowDown(sha, s, source, at, k);
    var rest := FailingRun(sha, Apply(sha, s, source, ServerTimer(Later(at))), source, Later(at), 0, k);
    var actions := [ServerTimer(Later(at))] + rest;
    assert actions[1..] == rest;
    assert Run(sha, s, source, actions).Some?;
  }

  lemma NothingHeldSucceeds(sha: Digest, s: State, source: ChunkData, at: Time, actions: seq<Action>)
    requires ResumedTransfer.Init(s, source, at) && NothingBeyondFirst(s.store.bits)
    requires Ready(s, source) && Run(sha, s, source, actions).Some?
    ensures EachOnce(Run(sha, s, source, actions).value)
  {
    var bits := s.store.bits;
    InitInv(s, source, at);
    if bits[0] {
      CountBitsNone(bits[1..]);
      FirstAgainRun(sha, s, source, actions);
    } else {
      CountBitsNone(bits);
      OrderedRun(sha, s, source, actions);
    }
  }

  /** Each segment is sent exactly once and in order in every run, if and only if the client holds
      no segment beyond the first when the server starts. */
  lemma OrderExactly(sha: Digest, s: State, source: ChunkData, at: Time)
    requires ResumedTransfer.Init(s, source, at)
    ensures Ready(s, source)
    ensures AlwaysEachOnce(sha, s, source) <==> NothingBeyondFirst(s.store.bits)
  {
    InitInv(s, source, at);
    if NothingBeyondFirst(s.store.bits) {
      forall actions | Run(sha, s, source, actions).Some?
        ensures EachOnce(Run(sha, s, source, actions).value)
      {
        NothingHeldSucceeds(sha, s, source, at, actions);
      }
    } else {
      HeldFails(sha, s, source, at);
    }
  }
}
