/** The slow-start / congestion-avoidance automaton (code/congestion.c, code/transfer.c). */
module Congestion {
  import opened Common

  const DEFAULT_WIND_SIZE: nat := 1
  const DEFAULT_SS_THRESH: nat := 64
  const RTT: nat := 200

  /** Values of the millisecond clock, which masks the seconds to 20 bits (code/mytime.c:8). */
  type Time = t: nat | t < 0x10_0000 * 1000

  /** `now - t` in `unsigned long` arithmetic. */
  function Since(t: Time, now: Time): nat {
    if t <= now then now - t else now - t + 0x1_0000_0000_0000_0000
  }

  datatype Mode = SS | CA

  /** The fields of `CongestCtrl`; `last_received` is never read and is not kept. */
  datatype CongestCtrl = CongestCtrl(
    mode: Mode,
    timeoutCount: nat,
    dupCount: nat,
    begin: nat,
    index: nat,
    windSize: nat,
    startWindSize: nat,
    rtt: nat,
    ssthresh: nat,
    rttTimer: Time)

  const FreshCtrl: CongestCtrl :=
    CongestCtrl(SS, 0, 0, 0, 0, DEFAULT_WIND_SIZE, 0, RTT, DEFAULT_SS_THRESH, 0)

  function SlowStart(c: CongestCtrl, timestamp: Time, now: Time): CongestCtrl {
    var c := if c.rtt == 0 then c.(rtt := Since(timestamp, now)) else c;
    if c.windSize < c.ssthresh then
      c.(windSize := c.windSize * 2)
    else
      EnterAvoidance(c, now)
  }

  function EnterAvoidance(c: CongestCtrl, now: Time): CongestCtrl {
    c.(mode := CA, rttTimer := now, startWindSize := c.windSize)
  }

  function CongestionAvoidance(c: CongestCtrl, now: Time): CongestCtrl {
    if c.rtt == 0 then c
    else c.(windSize := Since(c.rttTimer, now) / c.rtt + c.startWindSize)
  }

  /** What a new ACK does to the window. */
  function CongestionControl(c: CongestCtrl, timestamp: Time, now: Time): CongestCtrl {
    match c.mode
    case SS => SlowStart(c, timestamp, now)
    case CA => CongestionAvoidance(c, now)
  }

  /** What a timeout or a third duplicate ACK does to the window. */
  function DetectedFirstLoss(c: CongestCtrl, now: Time): CongestCtrl {
    var c := c.(ssthresh := Max(c.windSize / 2, 2));
    match c.mode
    case SS => EnterAvoidance(c, now)
    case CA => c.(windSize := 1, mode := SS)
  }

  // ----- Powers of two -----

  predicate IsPowerOfTwo(n: nat) {
    n == 1 || (n > 0 && n % 2 == 0 && IsPowerOfTwo(n / 2))
  }

  /** Consecutive powers of two are a factor of two apart. */
  lemma {:induction false} PowerGap(p: nat, q: nat)
    requires IsPowerOfTwo(p) && IsPowerOfTwo(q) && p < q
    ensures 2 * p <= q
  {
    if p > 1 {
      PowerGap(p / 2, q / 2);
    }
  }

  ghost predicate IsLeastPowerAtLeast(w: nat, bound: nat) {
    && IsPowerOfTwo(w)
    && bound <= w
    && forall p: nat :: IsPowerOfTwo(p) && bound <= p ==> w <= p
  }

  // ----- The invariant of the window, for a transfer created at time `born` -----

  /** The most the window can have grown to: 64, plus one per whole 200 ms of life. */
  function WindowCap(born: Time, now: Time): nat
    requires born <= now
  {
    DEFAULT_SS_THRESH + (now - born) / RTT
  }

  ghost predicate WindowInv(c: CongestCtrl, born: Time, now: Time) {
    && born <= now
    && c.rtt == RTT
    && 2 <= c.ssthresh
    && 1 <= c.windSize <= WindowCap(born, now)
    && match c.mode
       case SS =>
         && IsPowerOfTwo(c.windSize)
         && c.windSize < 2 * c.ssthresh
         && (c.ssthresh == DEFAULT_SS_THRESH || 2 * c.ssthresh <= WindowCap(born, now))
       case CA =>
         && born <= c.rttTimer <= now
         && 1 <= c.startWindSize <= WindowCap(born, c.rttTimer)
         && c.startWindSize <= c.windSize
  }

  lemma FreshWindow(now: Time)
    ensures WindowInv(FreshCtrl, now, now)
  {
  }

  lemma WindowInvLater(c: CongestCtrl, born: Time, t: Time, now: Time)
    requires WindowInv(c, born, t) && t <= now
    ensures WindowInv(c, born, now)
  {
  }

  lemma NewAckKeepsWindow(c: CongestCtrl, born: Time, timestamp: Time, now: Time)
    requires WindowInv(c, born, now)
    ensures WindowInv(CongestionControl(c, timestamp, now), born, now)
  {
    if c.mode.SS? && c.windSize < c.ssthresh {
      assert IsPowerOfTwo(2 * c.windSize);
      if c.ssthresh == DEFAULT_SS_THRESH {
        assert IsPowerOfTwo(64);
        PowerGap(c.windSize, 64);
      }
    }
  }

  lemma LossKeepsWindow(c: CongestCtrl, born: Time, now: Time)
    requires WindowInv(c, born, now)
    ensures WindowInv(DetectedFirstLoss(c, now), born, now)
  {
  }

  /** What a loss does. The threshold becomes half the window, rounded down, but at least 2. Out of
      slow start the window stays and avoidance begins now; out of avoidance the window falls to 1 and
      slow start begins. Nothing else changes. */
  lemma LossLaw(c: CongestCtrl, now: Time)
    ensures var d := DetectedFirstLoss(c, now);
            && 2 <= d.ssthresh
            && (if c.windSize < 6 then d.ssthresh == 2 else 2 * d.ssthresh <= c.windSize < 2 * d.ssthresh + 2)
            && (if c.mode.SS? then
                  d.mode.CA? && d.windSize == d.startWindSize == c.windSize && d.rttTimer == now
                else
                  d.mode.SS? && d.windSize == 1 && d.startWindSize == c.startWindSize && d.rttTimer == c.rttTimer)
            && d.timeoutCount == c.timeoutCount && d.dupCount == c.dupCount
            && d.begin == c.begin && d.index == c.index && d.rtt == c.rtt
  {
  }

  /** A power of two below twice the threshold that has reached it is the least such power. */
  lemma LeastPower(w: nat, bound: nat)
    requires IsPowerOfTwo(w) && bound <= w < 2 * bound
    ensures IsLeastPowerAtLeast(w, bound)
  {
    forall p: nat | IsPowerOfTwo(p) && bound <= p
      ensures w <= p
    {
      if p < w {
        PowerGap(p, w);
        assert false;
      }
    }
  }

  /** Slow start is left by a new ACK exactly when the window has reached the threshold, and the
      window is then the least power of two at or above the threshold. */
  lemma SlowStartExit(c: CongestCtrl, born: Time, timestamp: Time, now: Time)
    requires WindowInv(c, born, now) && c.mode.SS?
    ensures CongestionControl(c, timestamp, now).mode.CA? <==> IsLeastPowerAtLeast(c.windSize, c.ssthresh)
    ensures CongestionControl(c, timestamp, now).mode.CA? ==>
              CongestionControl(c, timestamp, now).windSize == CongestionControl(c, timestamp, now).startWindSize == c.windSize
    ensures CongestionControl(c, timestamp, now).mode.SS? ==>
              CongestionControl(c, timestamp, now).windSize == 2 * c.windSize
  {
    if c.ssthresh <= c.windSize {
      LeastPower(c.windSize, c.ssthresh);
    }
  }
}
