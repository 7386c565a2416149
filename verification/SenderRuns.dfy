/** Whole runs of one outgoing transfer: any sequence of ACKs and timer ticks. */
module SenderRuns {
  import opened Common
  import opened ChunkLayout
  import opened Congestion
  import opened Sender

  /** One DATA transmission, with the window at the moment of sending. */
  datatype Sent = Sent(num: nat, begin: nat, windSize: nat)

  datatype Run = Run(last: Option<Sender>, log: seq<Sent>)

  function Logged(r: Result): seq<Sent> {
    if r.next.None? then []
    else seq(|r.sent|, i requires 0 <= i < |r.sent| =>
           Sent(r.sent[i], r.next.value.cctrl.begin, r.next.value.cctrl.windSize))
  }

  /** The run of a transfer over a sequence of events; events after its deletion find no transfer. */
  function Execute(s: Sender, events: seq<Event>): Run
    decreases |events|
  {
    if events == [] then
      Run(Some(s), [])
    else
      var r := Step(s, events[0]);
      if r.next.None? then
        Run(None, Logged(r))
      else
        var rest := Execute(r.next.value, events[1..]);
        Run(rest.last, Logged(r) + rest.log)
  }

  /** The clock does not run backwards from `now`, and ACK numbers are in range. */
  ghost predicate Clocked(events: seq<Event>, now: Time) {
    events == [] ||
    (now <= events[0].at && AckInRange(events[0]) && Clocked(events[1..], events[0].at))
  }

  function LastTime(events: seq<Event>, now: Time): Time {
    if events == [] then now else events[|events| - 1].at
  }

  ghost predicate InWindow(x: Sent) {
    x.begin < x.num <= Min(MAX_SEQ_NUM, x.begin + x.windSize)
  }

  lemma LoggedInWindow(s: Sender, r: Result, born: Time, now: Time)
    requires Disciplined(s, r, born, now)
    ensures forall x :: x in Logged(r) ==> InWindow(x) && s.cctrl.begin <= x.begin
  {
    forall x | x in Logged(r)
      ensures InWindow(x) && s.cctrl.begin <= x.begin
    {
      var i :| 0 <= i < |Logged(r)| && Logged(r)[i] == x;
      assert r.sent[i] in r.sent;
    }
  }

  /** From any valid state: the invariant holds at the end of the run, the window has not moved
      back, and every transmission was inside the window it was sent under. */
  lemma {:induction false} RunInv(s: Sender, events: seq<Event>, born: Time, now: Time)
    requires Inv(s, born, now) && Clocked(events, now)
    ensures var run := Execute(s, events);
            && (run.last.Some? ==>
                  && Inv(run.last.value, born, LastTime(events, now))
                  && s.cctrl.begin <= run.last.value.cctrl.begin)
            && forall x :: x in run.log ==> InWindow(x) && s.cctrl.begin <= x.begin
    decreases |events|
  {
    if events != [] {
      StepInv(s, events[0], born, now);
      var r := Step(s, events[0]);
      LoggedInWindow(s, r, born, events[0].at);
      if r.next.Some? {
        RunInv(r.next.value, events[1..], born, events[0].at);
      }
    }
  }

  /** Window discipline and window bound of every run of a transfer, from its creation: at every
      step boundary `begin < index <= 525`, `dup_count <= 2`, and the window is between 1 and
      64 plus one per 200 ms of life, a power of two in slow start; every DATA sent was inside the
      window at that moment. */
  lemma WholeRun(events: seq<Event>, born: Time)
    requires Clocked(events, born)
    ensures var run := Execute(Start(born).next.value, events);
            && (forall x :: x in run.log ==> InWindow(x))
            && (run.last.Some? ==>
                  var c := run.last.value.cctrl;
                  && c.begin < c.index <= 525
                  && c.dupCount <= 2
                  && born <= LastTime(events, born)
                  && 1 <= c.windSize <= 64 + (LastTime(events, born) - born) / 200
                  && (c.mode.SS? ==> IsPowerOfTwo(c.windSize) && c.windSize < 2 * c.ssthresh))
  {
    StartInv(born);
    RunInv(Start(born).next.value, events, born, born);
  }

  // ----- Stall recovery -----

  function CountAck(events: seq<Event>, p: nat): nat {
    if events == [] then 0
    else (if events[0].Ack? && events[0].num == p then 1 else 0) + CountAck(events[1..], p)
  }

  ghost predicate AcksUpTo(events: seq<Event>, p: nat) {
    forall e :: e in events && e.Ack? ==> e.num <= p
  }

  /** How many more ACKs of p the sender must see before it is sure to have sent p + 1. */
  function AcksNeeded(c: CongestCtrl, p: nat): int {
    if c.begin < p then MAX_DUP_ACKS + 1 else MAX_DUP_ACKS - c.dupCount
  }

  ghost predicate Transmitted(log: seq<Sent>, k: nat) {
    exists x :: x in log && x.num == k
  }

  lemma StallStep(s: Sender, e: Event, p: nat, born: Time, now: Time)
    requires Inv(s, born, now) && now <= e.at
    requires s.cctrl.begin <= p < MAX_SEQ_NUM
    requires e.Ack? ==> e.num <= p
    requires Step(s, e).next.Some?
    ensures var c' := Step(s, e).next.value.cctrl;
            && c'.begin <= p
            && (Transmitted(Logged(Step(s, e)), p + 1) ||
                AcksNeeded(c', p) <= AcksNeeded(s.cctrl, p) - CountAck([e], p))
  {
    var r := Step(s, e);
    if e.Ack? && e.num == p && Transmits(s.cctrl, p) && s.cctrl.begin == p {
      var c := Reacted(s, p, e.at);
      WindowInvLater(s.cctrl, born, now, e.at);
      LossKeepsWindow(s.cctrl.(dupCount := s.cctrl.dupCount + 1, index := s.cctrl.begin), born, e.at);
      assert r.sent[0] == p + 1;
      assert Logged(r)[0].num == p + 1;
    }
  }

  lemma {:induction false} StallRun(s: Sender, events: seq<Event>, p: nat, born: Time, now: Time)
    requires Inv(s, born, now) && Clocked(events, now)
    requires s.cctrl.begin <= p < MAX_SEQ_NUM && AcksUpTo(events, p)
    requires Execute(s, events).last.Some?
    requires AcksNeeded(s.cctrl, p) <= CountAck(events, p)
    ensures Transmitted(Execute(s, events).log, p + 1)
    decreases |events|
  {
    if events != [] {
      var e := events[0];
      var r := Step(s, e);
      StepInv(s, e, born, now);
      StallStep(s, e, p, born, now);
      var rest := Execute(r.next.value, events[1..]);
      if Transmitted(Logged(r), p + 1) {
        var x :| x in Logged(r) && x.num == p + 1;
        assert x in Logged(r) + rest.log;
      } else {
        assert CountAck([e], p) + CountAck(events[1..], p) == CountAck(events, p);
        StallRun(r.next.value, events[1..], p, born, e.at);
        var x :| x in rest.log && x.num == p + 1;
        assert x in Logged(r) + rest.log;
      }
    }
  }

  /** Stall recovery: in every run of a transfer, four deliveries of ACK p, with any older ACKs and
      any timer ticks around them that do not kill the transfer, make it send DATA p + 1. */
  lemma StallRecovery(s: Sender, events: seq<Event>, p: nat, born: Time, now: Time)
    requires Inv(s, born, now) && Clocked(events, now)
    requires s.cctrl.begin <= p < MAX_SEQ_NUM && AcksUpTo(events, p)
    requires Execute(s, events).last.Some?
    requires CountAck(events, p) >= 4
    ensures Transmitted(Execute(s, events).log, p + 1)
  {
    StallRun(s, events, p, born, now);
  }

  // ----- Growth in congestion avoidance -----

  predicate IsNewAck(s: Sender, e: Event) { e.Ack? && s.cctrl.begin < e.num }

  predicate IsLoss(s: Sender, e: Event) {
    match e
    case Ack(num, _) => num == s.cctrl.begin && s.cctrl.dupCount + 1 >= MAX_DUP_ACKS
    case Timer(at) => HasTimedOut(s.timestamp, at)
  }

  /** The time of the last new ACK, or of the entry into congestion avoidance if that is later. */
  function Mark(s: Sender, events: seq<Event>, mark: Time): Time
    decreases |events|
  {
    if events == [] || Step(s, events[0]).next.None? then
      mark
    else
      var next := Step(s, events[0]).next.value;
      var entered := s.cctrl.mode.SS? && next.cctrl.mode.CA?;
      Mark(next, events[1..], if entered || IsNewAck(s, events[0]) then events[0].at else mark)
  }

  /** In congestion avoidance the window is its starting size plus the whole 200 ms periods up to `mark`. */
  ghost predicate Linear(c: CongestCtrl, mark: Time) {
    c.mode.CA? ==>
      && c.rttTimer <= mark
      && c.windSize == c.startWindSize + (mark - c.rttTimer) / RTT
  }

  lemma LinearStep(s: Sender, e: Event, mark: Time, born: Time, now: Time)
    requires Inv(s, born, now) && now <= e.at && mark <= now && Linear(s.cctrl, mark)
    requires Step(s, e).next.Some?
    ensures var next := Step(s, e).next.value;
            var entered := s.cctrl.mode.SS? && next.cctrl.mode.CA?;
            && Linear(next.cctrl, if entered || IsNewAck(s, e) then e.at else mark)
            && (s.cctrl.mode.CA? && !IsLoss(s, e) ==>
                  && next.cctrl.mode.CA?
                  && next.cctrl.startWindSize == s.cctrl.startWindSize
                  && next.cctrl.rttTimer == s.cctrl.rttTimer
                  && s.cctrl.windSize <= next.cctrl.windSize)
  {
    assert s.cctrl.rtt == RTT;
  }

  lemma {:induction false} LinearRun(s: Sender, events: seq<Event>, mark: Time, born: Time, now: Time)
    requires Inv(s, born, now) && Clocked(events, now) && mark <= now && Linear(s.cctrl, mark)
    requires Execute(s, events).last.Some?
    ensures Linear(Execute(s, events).last.value.cctrl, Mark(s, events, mark))
    decreases |events|
  {
    if events != [] {
      var e := events[0];
      var next := Step(s, e).next.value;
      StepInv(s, e, born, now);
      LinearStep(s, e, mark, born, now);
      var entered := s.cctrl.mode.SS? && next.cctrl.mode.CA?;
      LinearRun(next, events[1..], if entered || IsNewAck(s, e) then e.at else mark, born, e.at);
    }
  }

  /** In every run that ends in congestion avoidance, the window is the size at entry plus the
      whole 200 ms periods between the entry and the last new ACK since. */
  lemma AvoidanceWindow(events: seq<Event>, born: Time)
    requires Clocked(events, born)
    requires var last := Execute(Start(born).next.value, events).last;
             last.Some? && last.value.cctrl.mode.CA?
    ensures var c := Execute(Start(born).next.value, events).last.value.cctrl;
            var mark := Mark(Start(born).next.value, events, born);
            c.rttTimer <= mark && c.windSize == c.startWindSize + (mark - c.rttTimer) / 200
  {
    StartInv(born);
    LinearRun(Start(born).next.value, events, born, born, born);
  }

  ghost predicate NoLoss(s: Sender, events: seq<Event>)
    decreases |events|
  {
    events == [] || Step(s, events[0]).next.None? ||
    (!IsLoss(s, events[0]) && NoLoss(Step(s, events[0]).next.value, events[1..]))
  }

  /** Until the next loss the window never shrinks in congestion avoidance and the mode stays. */
  lemma {:induction false} AvoidanceMonotone(s: Sender, events: seq<Event>, mark: Time, born: Time, now: Time)
    requires Inv(s, born, now) && Clocked(events, now) && mark <= now
    requires s.cctrl.mode.CA? && Linear(s.cctrl, mark)
    requires NoLoss(s, events) && Execute(s, events).last.Some?
    ensures var c := Execute(s, events).last.value.cctrl;
            && c.mode.CA?
            && c.startWindSize == s.cctrl.startWindSize
            && c.rttTimer == s.cctrl.rttTimer
            && s.cctrl.windSize <= c.windSize
    decreases |events|
  {
    if events != [] {
      var e := events[0];
      var next := Step(s, e).next.value;
      StepInv(s, e, born, now);
      LinearStep(s, e, mark, born, now);
      AvoidanceMonotone(next, events[1..], if IsNewAck(s, e) then e.at else mark, born, e.at);
    }
  }

  // ----- Slow start after a loss -----

  /** Without a loss, slow start keeps its threshold for as long as it lasts, and avoidance lasts. */
  lemma {:induction false} ThresholdStays(s: Sender, events: seq<Event>, born: Time, now: Time)
    requires Inv(s, born, now) && Clocked(events, now) && NoLoss(s, events) && Execute(s, events).last.Some?
    ensures var c := Execute(s, events).last.value.cctrl;
            && c.ssthresh == s.cctrl.ssthresh
            && (s.cctrl.mode.CA? ==> c.mode.CA?)
    decreases |events|
  {
    if events != [] {
      StepInv(s, events[0], born, now);
      ThresholdStays(Step(s, events[0]).next.value, events[1..], born, events[0].at);
    }
  }

  /** A loss out of avoidance at window w starts slow start at window 1, and the next new ACK that
      ends this slow start by its threshold comes exactly when the window is the least power of two at
      or above half of w, or above 2 if that is more. */
  lemma NextExit(s: Sender, e: Event, events: seq<Event>, f: Event, born: Time, now: Time)
    requires Inv(s, born, now) && s.cctrl.mode.CA? && IsLoss(s, e) && Step(s, e).next.Some?
    requires now <= e.at && AckInRange(e) && Clocked(events, e.at)
    requires NoLoss(Step(s, e).next.value, events) && Execute(Step(s, e).next.value, events).last.Some?
    requires var last := Execute(Step(s, e).next.value, events).last.value;
             && last.cctrl.mode.SS? && IsNewAck(last, f) && f.num < MAX_SEQ_NUM && LastTime(events, e.at) <= f.at
    ensures Step(s, e).next.value.cctrl.mode.SS? && Step(s, e).next.value.cctrl.windSize == 1
    ensures var last := Execute(Step(s, e).next.value, events).last.value;
            var next := Step(last, f).next.value;
            && (next.cctrl.mode.CA? <==> IsLeastPowerAtLeast(last.cctrl.windSize, Max(s.cctrl.windSize / 2, 2)))
            && next.cctrl.windSize == if next.cctrl.mode.CA? then last.cctrl.windSize else 2 * last.cctrl.windSize
  {
    var first := Step(s, e).next.value;
    StepInv(s, e, born, now);
    LossLaw(s.cctrl, e.at);
    ThresholdStays(first, events, born, e.at);
    RunInv(first, events, born, e.at);
    var last := Execute(first, events).last.value;
    WindowInvLater(last.cctrl, born, LastTime(events, e.at), f.at);
    SlowStartExit(AdjustWindow(last.cctrl, f.num), born, last.timestamp, f.at);
  }

  // ----- Duplicates and silence -----

  ghost predicate OldAcks(events: seq<Event>, begin: nat) {
    forall e :: e in events ==> e.Ack? && e.num <= begin
  }

  /** Old ACKs, and fewer than three copies of the last one since the sender last transmitted, send
      nothing and leave the window alone; they only count, and restart the clock. */
  lemma {:induction false} FewDuplicates(s: Sender, events: seq<Event>)
    requires s.cctrl.begin < MAX_SEQ_NUM && OldAcks(events, s.cctrl.begin)
    requires s.cctrl.dupCount + CountAck(events, s.cctrl.begin) < 3
    ensures var run := Execute(s, events);
            && run.log == []
            && run.last.Some?
            && run.last.value.cctrl == s.cctrl.(dupCount := s.cctrl.dupCount + CountAck(events, s.cctrl.begin),
                                                timeoutCount := if events == [] then s.cctrl.timeoutCount else 0)
            && run.last.value.timestamp == if events == [] then s.timestamp else events[|events| - 1].at
    decreases |events|
  {
    if events != [] {
      assert events[0] in events;
      var next := Step(s, events[0]).next.value;
      FewDuplicates(next, events[1..]);
    }
  }

  /** The third copy is a loss: the sender goes back and sends the segment behind the copy first. */
  lemma ThirdDuplicate(s: Sender, at: Time, born: Time, now: Time)
    requires Inv(s, born, now) && now <= at && s.cctrl.dupCount == 2
    ensures var r := Step(s, Ack(s.cctrl.begin, at));
            && r.next.Some? && r.next.value.cctrl.dupCount == 0 && r.next.value.cctrl.begin == s.cctrl.begin
            && |r.sent| == Min(MAX_SEQ_NUM - s.cctrl.begin, r.next.value.cctrl.windSize)
            && (forall i :: 0 <= i < |r.sent| ==> r.sent[i] == s.cctrl.begin + 1 + i)
            && r.next.value.cctrl.windSize == if s.cctrl.mode.SS? then s.cctrl.windSize else 1
  {
  }

  /** A new ACK moves the window there, forgets duplicates and timeouts, and restarts the clock. */
  lemma NewAckForgets(s: Sender, num: nat, at: Time)
    requires s.cctrl.begin < num < MAX_SEQ_NUM
    ensures var next := Step(s, Ack(num, at)).next;
            && next.Some? && next.value.timestamp == at && next.value.cctrl.begin == num
            && next.value.cctrl.dupCount == 0 && next.value.cctrl.timeoutCount == 0
  {
  }

  /** Ticks of the timer, each more than 3000 ms after the last sign of life. */
  ghost predicate Silence(events: seq<Event>, timestamp: Time) {
    forall e :: e in events ==> e.Timer? && timestamp <= e.at && e.at - timestamp > 3000
  }

  /** A transfer outlives exactly the timeouts that leave it with fewer than five since its last ACK,
      and sends nothing meanwhile. */
  lemma {:induction false} SilentDeath(s: Sender, events: seq<Event>)
    requires s.cctrl.timeoutCount < 5 && Silence(events, s.timestamp)
    ensures Execute(s, events).log == []
    ensures Execute(s, events).last.Some? <==> s.cctrl.timeoutCount + |events| < 5
    ensures Execute(s, events).last.Some? ==>
              && Execute(s, events).last.value.timestamp == s.timestamp
              && Execute(s, events).last.value.cctrl.timeoutCount == s.cctrl.timeoutCount + |events|
    decreases |events|
  {
    if events != [] {
      assert events[0] in events;
      var r := Step(s, events[0]);
      if r.next.Some? {
        SilentDeath(r.next.value, events[1..]);
      }
    }
  }

  /** A clock that has run backwards, as it does every 2^20 seconds, counts as a timeout. */
  lemma BackwardsTick(s: Sender, at: Time)
    requires at < s.timestamp && s.cctrl.timeoutCount + 1 < 5
    ensures Step(s, Timer(at)).next.Some? && Step(s, Timer(at)).next.value.cctrl.timeoutCount == s.cctrl.timeoutCount + 1
  {
  }

  /** Ticks within 3000 ms of the last sign of life change nothing. */
  lemma EarlyTick(s: Sender, at: Time)
    requires s.timestamp <= at && at - s.timestamp <= 3000
    ensures Step(s, Timer(at)) == Result(Some(s), [])
  {
  }
}
