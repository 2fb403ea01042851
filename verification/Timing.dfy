/** The derived times of dude/tunables.py, the deadlines of a bucket's round and the door of
    dude/consensus/mempool.py. Times are milliseconds; the safety margin is a real number. */
module Timing {
  import Modular

  datatype Dials = Dials(rttMax: int, clockSkew: int, retryBudget: int, heldConvergenceMax: int, safetyMargin: real,
      windowsToSettle: int)

  /** The declared values a deployment may choose. */
  predicate Sensible(t: Dials) {
    t.rttMax >= 1 && t.clockSkew >= 0 && t.retryBudget >= 1 && t.heldConvergenceMax >= 1 && t.safetyMargin >= 1.0 &&
    t.windowsToSettle >= 1
  }

  function SingleWaveBudget(t: Dials): int { t.rttMax * t.retryBudget }

  function HeldWaveBudget(t: Dials): int { SingleWaveBudget(t) * t.heldConvergenceMax }

  function BlockTimeFloor(t: Dials): int { HeldWaveBudget(t) + SingleWaveBudget(t) * 2 + t.clockSkew }

  /** `int(x)`: toward zero. */
  function Truncate(x: real): int { if x >= 0.0 then x.Floor else -((-x).Floor) }

  function BlockTime(t: Dials): int { Truncate(BlockTimeFloor(t) as real * t.safetyMargin) }

  function CutReserve(t: Dials): int { SingleWaveBudget(t) * 2 }

  function AdmitWindow(t: Dials): int { BlockTime(t) + t.clockSkew + t.rttMax * 2 }

  function Bucket(t: Dials, ts: int): int
    requires BlockTime(t) > 0
  {
    ts / BlockTime(t)
  }

  function BucketStart(t: Dials, b: int): int { BlockTime(t) * b }

  function AbandonBy(t: Dials, b: int): int { BucketStart(t, b + 2) }

  function CloseBy(t: Dials, b: int): int { AbandonBy(t, b) - CutReserve(t) }

  lemma Product(a: int, b: int)
    requires a >= 1 && b >= 1
    ensures a * b >= 1 && a * b >= a
  {
  }

  lemma Stretch(n: int, x: real)
    requires n >= 0 && x >= 1.0
    ensures (n as real * x).Floor >= n
  {
    assert n as real * x >= n as real;
  }

  /** The margin never takes the block time below its floor. */
  lemma BlockTimeBounds(t: Dials)
    requires Sensible(t)
    ensures SingleWaveBudget(t) >= 1 && HeldWaveBudget(t) >= 1
    ensures BlockTime(t) >= BlockTimeFloor(t) == HeldWaveBudget(t) + CutReserve(t) + t.clockSkew > CutReserve(t) > 0
  {
    Product(t.rttMax, t.retryBudget);
    Product(SingleWaveBudget(t), t.heldConvergenceMax);
    Stretch(BlockTimeFloor(t), t.safetyMargin);
  }

  /** The block time is the margin times what a block needs: every wave of holdings, two waves of
      signatures, a wave being `retryBudget` round trips, and the skew; rounded down. */
  lemma BlockTimeIs(t: Dials)
    requires Sensible(t)
    ensures var needed := t.rttMax * t.retryBudget * (t.heldConvergenceMax + 2) + t.clockSkew;
            BlockTime(t) as real <= needed as real * t.safetyMargin < (BlockTime(t) + 1) as real
  {
    BlockTimeBounds(t);
    var needed := t.rttMax * t.retryBudget * (t.heldConvergenceMax + 2) + t.clockSkew;
    var wave := t.rttMax * t.retryBudget;
    assert wave * (t.heldConvergenceMax + 2) == wave * t.heldConvergenceMax + wave * 2;
    assert BlockTimeFloor(t) == needed;
    assert needed as real * t.safetyMargin >= 0.0;
  }

  /** A bucket is the half-open interval between two starts. */
  lemma BucketIs(t: Dials, ts: int, b: int)
    requires Sensible(t) && BlockTime(t) > 0
    ensures Bucket(t, ts) == b <==> BucketStart(t, b) <= ts < BucketStart(t, b + 1)
  {
    Modular.DivisionIs(ts, BlockTime(t), b);
  }

  /** The collecting window of a bucket's round opens when the bucket closes and leaves room for
      every wave of holdings and for the skew; the reserve after it leaves room for both waves of
      signatures; and it all takes one block time. */
  lemma Deadlines(t: Dials, b: int)
    requires Sensible(t)
    ensures BucketStart(t, b + 1) + HeldWaveBudget(t) + t.clockSkew <= CloseBy(t, b)
    ensures CloseBy(t, b) + 2 * SingleWaveBudget(t) == AbandonBy(t, b) && CloseBy(t, b) < AbandonBy(t, b)
    ensures AbandonBy(t, b) == BlockTime(t) * (b + 2) == BucketStart(t, b + 1) + BlockTime(t)
  {
    BlockTimeBounds(t);
    assert BucketStart(t, b + 2) == BucketStart(t, b + 1) + BlockTime(t);
  }

  // ------------------------------------------------------------------------- the door

  /** The timestamp part of `Mempool.valid`. */
  predicate AdmittedAt(t: Dials, ts: int, now: int) { now - ts <= AdmitWindow(t) && ts - now <= AdmitWindow(t) }

  /** The timestamp part of `valid_for_bucket`. */
  predicate TimelyFor(t: Dials, ts: int, b: int) {
    BucketStart(t, b) - AdmitWindow(t) - t.clockSkew <= ts <= BucketStart(t, b + 1) + AdmitWindow(t) + t.clockSkew
  }

  /** A transaction is admitted exactly when it is stamped within a block time, the skew and two
      round trips of the node's clock. */
  lemma DoorIs(t: Dials, ts: int, now: int)
    ensures AdmittedAt(t, ts, now) <==>
            -(BlockTime(t) + t.clockSkew + 2 * t.rttMax) <= ts - now <= BlockTime(t) + t.clockSkew + 2 * t.rttMax
  {
  }

  /** It is timely for a bucket exactly when it is stamped within that and the skew of the bucket. */
  lemma TimelyIs(t: Dials, ts: int, b: int)
    ensures TimelyFor(t, ts, b) <==>
            BlockTime(t) * b - (BlockTime(t) + 2 * t.clockSkew + 2 * t.rttMax) <= ts <=
            BlockTime(t) * (b + 1) + (BlockTime(t) + 2 * t.clockSkew + 2 * t.rttMax)
  {
  }

  /** Whatever one node admits by its clock, another validates for the bucket exactly when that
      clock read within the skew of the bucket. */
  lemma DoorMatchesBucket(t: Dials, now: int, b: int)
    requires Sensible(t)
    ensures (forall ts :: AdmittedAt(t, ts, now) ==> TimelyFor(t, ts, b)) <==>
            BucketStart(t, b) - t.clockSkew <= now <= BucketStart(t, b + 1) + t.clockSkew
  {
    BlockTimeBounds(t);
    var w := AdmitWindow(t);
    assert w >= 0;
    assert AdmittedAt(t, now - w, now) && AdmittedAt(t, now + w, now);
  }

  /** A transaction admitted during a bucket, even on a clock off by the skew, is timely for it. */
  lemma AdmittedIsTimely(t: Dials, ts: int, trueTime: int, clock: int)
    requires Sensible(t) && BlockTime(t) > 0 && -t.clockSkew <= clock - trueTime <= t.clockSkew &&
             AdmittedAt(t, ts, clock)
    ensures TimelyFor(t, ts, Bucket(t, trueTime))
  {
    var b := Bucket(t, trueTime);
    BucketIs(t, trueTime, b);
    DoorMatchesBucket(t, clock, b);
  }
}
