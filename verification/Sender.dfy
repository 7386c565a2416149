/** The sending side of one transfer (code/bt_server.c, code/transfer.c). */
module Sender {
  import opened Common
  import opened ChunkLayout
  import opened Congestion

  const MAX_DUP_ACKS: nat := 3
  const MAX_TO_COUNTS: nat := 5
  const TIMEOUT_THRESHOLD: nat := 3000

  datatype DataPacket = DataPacket(num: nat, payload: seq<byte>)

  /** The DATA packets that carry the given segments of a chunk. */
  function Packets(chunk: ChunkData, nums: seq<nat>): seq<DataPacket>
    requires forall k :: k in nums ==> IsSeqNum(k)
  {
    seq(|nums|, i requires 0 <= i < |nums| => DataPacket(nums[i], Segment(chunk, nums[i])))
  }

  /** The mutable part of an outgoing `Transfer`. */
  datatype Sender = Sender(cctrl: CongestCtrl, timestamp: Time)

  /** What can happen to an outgoing transfer; `at` is the reading of the clock. */
  datatype Event = Ack(num: nat, at: Time) | Timer(at: Time)

  /** The transfer after a step (None once it is deleted) and the segments sent by the step. */
  datatype Result = Result(next: Option<Sender>, sent: seq<nat>)

  // ----- Specification -----

  /** One past the last segment the window allows, as an index. */
  function WindowEnd(c: CongestCtrl): nat {
    Min(MAX_SEQ_NUM, c.begin + c.windSize)
  }

  /** The sender has sent everything the window allows and forgotten its duplicate ACKs. */
  function Flushed(c: CongestCtrl): CongestCtrl {
    c.(dupCount := 0, index := Max(c.index, WindowEnd(c)))
  }

  function AdjustWindow(c: CongestCtrl, ack: nat): CongestCtrl {
    c.(begin := ack, index := Max(c.index, ack))
  }

  function HasTimedOut(timestamp: Time, now: Time): bool {
    Since(timestamp, now) > TIMEOUT_THRESHOLD
  }

  function Start(now: Time): Result {
    Result(Some(Sender(Flushed(FreshCtrl), now)), Upto(0, Flushed(FreshCtrl).index))
  }

  /** What the ACK does before the window is flushed, for an ACK that makes the sender transmit. */
  function Reacted(s: Sender, ack: nat, now: Time): CongestCtrl {
    if s.cctrl.begin < ack then
      CongestionControl(AdjustWindow(s.cctrl, ack), s.timestamp, now)
    else
      DetectedFirstLoss(s.cctrl.(dupCount := s.cctrl.dupCount + 1, index := s.cctrl.begin), now)
  }

  /** Does this ACK make the sender transmit: is it new, or the third duplicate? */
  predicate Transmits(c: CongestCtrl, ack: nat) {
    c.begin < ack || (ack == c.begin && c.dupCount + 1 >= MAX_DUP_ACKS)
  }

  function ReceiveAck(s: Sender, ack: nat, now: Time): Result {
    if ack == MAX_SEQ_NUM then
      Result(None, [])
    else if Transmits(s.cctrl, ack) then
      var c := Reacted(s, ack, now);
      Result(Some(Sender(Flushed(c).(timeoutCount := 0), now)), Upto(c.index, Flushed(c).index))
    else
      var dups := if ack == s.cctrl.begin then s.cctrl.dupCount + 1 else s.cctrl.dupCount;
      Result(Some(Sender(s.cctrl.(dupCount := dups, timeoutCount := 0), now)), [])
  }

  function ReceiveTimer(s: Sender, now: Time): Result {
    if !HasTimedOut(s.timestamp, now) then
      Result(Some(s), [])
    else
      var c := s.cctrl.(timeoutCount := s.cctrl.timeoutCount + 1);
      if c.timeoutCount >= MAX_TO_COUNTS then
        Result(None, [])
      else
        Result(Some(s.(cctrl := DetectedFirstLoss(c, now))), [])
  }

  function Step(s: Sender, e: Event): Result {
    match e
    case Ack(num, at) => ReceiveAck(s, num, at)
    case Timer(at) => ReceiveTimer(s, at)
  }

  // ----- The object whose fields the code updates -----

  class Transfer {
    const chunk: ChunkData
    var cctrl: CongestCtrl
    var timestamp: Time

    ghost function View(): Sender
      reads this
    {
      Sender(cctrl, timestamp)
    }

    /** `create_transfer`. */
    constructor (chunk: ChunkData, now: Time)
      ensures this.chunk == chunk
      ensures View() == Sender(FreshCtrl, now)
    {
      this.chunk := chunk;
      cctrl := FreshCtrl;
      timestamp := now;
    }

    /** `congestion_control`, with `slow_start` and `congestion_avoidance`. */
    method UpdateWindow(now: Time)
      modifies this`cctrl
      ensures cctrl == CongestionControl(old(cctrl), timestamp, now)
    {
      match cctrl.mode
      case SS =>
        if cctrl.rtt == 0 {
          cctrl := cctrl.(rtt := Since(timestamp, now));
        }
        if cctrl.windSize < cctrl.ssthresh {
          cctrl := cctrl.(windSize := cctrl.windSize * 2);
        } else {
          cctrl := cctrl.(mode := CA);
          cctrl := cctrl.(rttTimer := now);
          cctrl := cctrl.(startWindSize := cctrl.windSize);
        }
      case CA =>
        if cctrl.rtt != 0 {
          var newWindSize := Since(cctrl.rttTimer, now) / cctrl.rtt + cctrl.startWindSize;
          if cctrl.windSize != newWindSize {
            cctrl := cctrl.(windSize := newWindSize);
          }
        }
    }

    /** `detected_first_loss`. */
    method Lost(now: Time)
      modifies this`cctrl
      ensures cctrl == DetectedFirstLoss(old(cctrl), now)
    {
      cctrl := cctrl.(ssthresh := Max(cctrl.windSize / 2, 2));
      if cctrl.mode.SS? {
        cctrl := cctrl.(mode := CA);
        cctrl := cctrl.(rttTimer := now);
        cctrl := cctrl.(startWindSize := cctrl.windSize);
      } else {
        cctrl := cctrl.(windSize := 1);
        cctrl := cctrl.(mode := SS);
      }
    }

    /** `send_DATA`: one packet at a time, until the window or the chunk is exhausted. */
    method SendData() returns (sent: seq<DataPacket>)
      requires cctrl.index <= MAX_SEQ_NUM
      modifies this`cctrl
      ensures cctrl == Flushed(old(cctrl))
      ensures sent == Packets(chunk, Upto(old(cctrl).index, cctrl.index))
    {
      sent := [];
      cctrl := cctrl.(dupCount := 0);
      while cctrl.index < MAX_SEQ_NUM && cctrl.index < cctrl.begin + cctrl.windSize
        invariant old(cctrl).index <= cctrl.index <= Max(old(cctrl).index, WindowEnd(cctrl))
        invariant cctrl == old(cctrl).(dupCount := 0, index := cctrl.index)
        invariant sent == Packets(chunk, Upto(old(cctrl).index, cctrl.index))
        decreases MAX_SEQ_NUM - cctrl.index
      {
        var offset := cctrl.index * DATA_SIZE;
        var payload;
        if BT_CHUNK_SIZE - offset < DATA_SIZE {
          payload := chunk[offset..offset + (BT_CHUNK_SIZE - offset)];
        } else {
          payload := chunk[offset..offset + DATA_SIZE];
        }
        cctrl := cctrl.(index := cctrl.index + 1);
        sent := sent + [DataPacket(cctrl.index, payload)];
      }
    }

    /** The body of `receive_ACK`, once the transfer of the peer has been found. */
    method Acknowledged(ack: nat, now: Time) returns (retired: bool, sent: seq<DataPacket>)
      requires cctrl.begin <= cctrl.index <= MAX_SEQ_NUM
      requires ack <= MAX_SEQ_NUM
      modifies this
      ensures retired <==> ReceiveAck(old(View()), ack, now).next.None?
      ensures !retired ==> View() == ReceiveAck(old(View()), ack, now).next.value
      ensures forall k :: k in ReceiveAck(old(View()), ack, now).sent ==> IsSeqNum(k)
      ensures sent == Packets(chunk, ReceiveAck(old(View()), ack, now).sent)
    {
      sent := [];
      if ack == MAX_SEQ_NUM {
        return true, [];
      }
      retired := false;
      if ack > cctrl.begin {
        cctrl := cctrl.(begin := ack);
        if cctrl.begin > cctrl.index {
          cctrl := cctrl.(index := cctrl.begin);
        }
        UpdateWindow(now);
        sent := SendData();
      } else if ack == cctrl.begin {
        cctrl := cctrl.(dupCount := cctrl.dupCount + 1);
        if cctrl.dupCount >= MAX_DUP_ACKS {
          cctrl := cctrl.(index := cctrl.begin);
          Lost(now);
          sent := SendData();
        }
      }
      cctrl := cctrl.(timeoutCount := 0);
      timestamp := now;
    }

    /** What `handle_server_timeout` does with one transfer. */
    method TimerFired(now: Time) returns (dead: bool)
      modifies this`cctrl
      ensures dead <==> ReceiveTimer(old(View()), now).next.None?
      ensures !dead ==> View() == ReceiveTimer(old(View()), now).next.value
    {
      dead := false;
      if Since(timestamp, now) > TIMEOUT_THRESHOLD {
        cctrl := cctrl.(timeoutCount := cctrl.timeoutCount + 1);
        if cctrl.timeoutCount >= MAX_TO_COUNTS {
          dead := true;
        } else {
          Lost(now);
        }
      }
    }
  }

  // ----- What every step keeps, whatever the clocks do -----

  ghost predicate CountersInRange(s: Sender) {
    s.cctrl.begin <= s.cctrl.index <= MAX_SEQ_NUM && s.cctrl.begin < MAX_SEQ_NUM
  }

  /** Counters stay in range, only segments of the chunk are sent, and the window starts where it
      did or at the number acknowledged. */
  lemma AckSendsInRange(s: Sender, ack: nat, now: Time)
    requires CountersInRange(s) && ack <= MAX_SEQ_NUM
    ensures forall k :: k in ReceiveAck(s, ack, now).sent ==> IsSeqNum(k)
    ensures ReceiveAck(s, ack, now).next.Some? ==>
              var next := ReceiveAck(s, ack, now).next.value;
              CountersInRange(next) && (next.cctrl.begin == s.cctrl.begin || next.cctrl.begin == ack)
  {
  }

  // ----- What every step keeps while the clock does not run backwards -----

  /** The state of a transfer created at `born`, between two steps, with the clock at `now`. */
  ghost predicate Inv(s: Sender, born: Time, now: Time) {
    var c := s.cctrl;
    && WindowInv(c, born, now)
    && c.begin < c.index <= MAX_SEQ_NUM
    && c.dupCount < MAX_DUP_ACKS
    && c.timeoutCount < MAX_TO_COUNTS
    && born <= s.timestamp <= now
  }

  ghost predicate AckInRange(e: Event) {
    e.Ack? ==> e.num <= MAX_SEQ_NUM
  }

  lemma StartInv(now: Time)
    ensures Inv(Start(now).next.value, now, now) && Start(now).sent == [1]
  {
    FreshWindow(now);
  }

  /** Flushing a valid window leaves at least one segment in flight and sends only inside the window. */
  lemma FlushedInv(c: CongestCtrl, born: Time, now: Time)
    requires WindowInv(c, born, now) && c.begin <= c.index <= MAX_SEQ_NUM && c.begin < MAX_SEQ_NUM
    ensures Inv(Sender(Flushed(c).(timeoutCount := 0), now), born, now)
    ensures forall k :: k in Upto(c.index, Flushed(c).index) ==> c.begin < k <= WindowEnd(c)
  {
  }

  /** The discipline of one step: the invariant is kept, the window never moves back, and every
      segment sent lies inside the window as it is when it is sent. */
  ghost predicate Disciplined(s: Sender, r: Result, born: Time, now: Time) {
    match r.next
    case None => r.sent == []
    case Some(next) =>
      && Inv(next, born, now)
      && s.cctrl.begin <= next.cctrl.begin
      && forall k :: k in r.sent ==> next.cctrl.begin < k <= WindowEnd(next.cctrl)
  }

  lemma AckDisciplined(s: Sender, ack: nat, born: Time, now: Time)
    requires Inv(s, born, now) && ack <= MAX_SEQ_NUM
    ensures Disciplined(s, ReceiveAck(s, ack, now), born, now)
  {
    if ack != MAX_SEQ_NUM && Transmits(s.cctrl, ack) {
      if s.cctrl.begin < ack {
        NewAckKeepsWindow(AdjustWindow(s.cctrl, ack), born, s.timestamp, now);
      } else {
        LossKeepsWindow(s.cctrl.(dupCount := s.cctrl.dupCount + 1, index := s.cctrl.begin), born, now);
      }
      FlushedInv(Reacted(s, ack, now), born, now);
    }
  }

  lemma TimerDisciplined(s: Sender, born: Time, now: Time)
    requires Inv(s, born, now)
    ensures Disciplined(s, ReceiveTimer(s, now), born, now)
  {
    LossKeepsWindow(s.cctrl.(timeoutCount := s.cctrl.timeoutCount + 1), born, now);
  }

  lemma StepInv(s: Sender, e: Event, born: Time, now: Time)
    requires Inv(s, born, now) && now <= e.at && AckInRange(e)
    ensures Disciplined(s, Step(s, e), born, e.at)
  {
    WindowInvLater(s.cctrl, born, now, e.at);
    match e
    case Ack(num, at) => AckDisciplined(s, num, born, at);
    case Timer(at) => TimerDisciplined(s, born, at);
  }
}
