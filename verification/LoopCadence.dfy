/** How often the server ticks and sends snapshots (server/src/AuthoritativeLoop.cpp). */
module LoopCadence {
  import opened Prelude
  import opened Loop

  /** The interval is the greatest whole number of nanoseconds that fits tickRateHz times into a second, or else 1. */
  lemma IntervalFitsTheRate(hz: nat, n: nat)
    requires hz > 0
    ensures var ns := TickInterval(hz);
            && (hz <= NANOS_PER_SECOND ==> ns * hz <= NANOS_PER_SECOND && (n * hz <= NANOS_PER_SECOND ==> n <= ns))
            && (hz > NANOS_PER_SECOND ==> ns == 1)
  {
    if hz <= NANOS_PER_SECOND {
      QuotientAtLeast(NANOS_PER_SECOND, hz, 1);
      if n * hz <= NANOS_PER_SECOND { QuotientAtLeast(NANOS_PER_SECOND, hz, n); }
    }
  }

  /** The frame of this tick, due a snapshot exactly at the multiples of the cadence. */
  predicate IsFrameOf(f: Frame, tick: nat, cadence: nat)
    requires cadence > 0
  {
    f.tick == tick && (f.snapshotDue <==> tick % cadence == 0)
  }

  /** Frames are numbered on from the state's tick. */
  lemma {:induction false} FramesAreNumbered(interval: int, cadence: nat, s: LoopState, now: int, i: nat)
    requires interval > 0 && cadence > 0 && i < |Advance(interval, cadence, s, now).1|
    ensures IsFrameOf(Advance(interval, cadence, s, now).1[i], s.tick + 1 + i, cadence)
    decreases i
  {
    var (next, frame) := OneTick(interval, cadence, s);
    assert Advance(interval, cadence, s, now).1 == [frame] + Advance(interval, cadence, next, now).1;
    if i > 0 { FramesAreNumbered(interval, cadence, next, now, i - 1); }
  }

  /** So a snapshot is due in exactly one of any `cadence` consecutive frames. */
  lemma SnapshotsKeepTheCadence(interval: int, cadence: nat, s: LoopState, now: int, i: nat)
    requires interval > 0 && cadence > 0 && i + cadence <= |Advance(interval, cadence, s, now).1|
    ensures var frames := Advance(interval, cadence, s, now).1;
            && (exists j :: i <= j < i + cadence && frames[j].snapshotDue)
            && (forall j, k :: i <= j < k < i + cadence ==> !(frames[j].snapshotDue && frames[k].snapshotDue))
  {
    var frames := Advance(interval, cadence, s, now).1;
    var first := s.tick + 1 + i;
    var r := (first + cadence - 1) % cadence;
    var j := i + cadence - 1 - r;
    NextMultiple(first, cadence);
    FramesAreNumbered(interval, cadence, s, now, j);
    assert s.tick + 1 + j == first + cadence - 1 - r;
    assert frames[j].snapshotDue;
    forall j, k | i <= j < k < i + cadence ensures !(frames[j].snapshotDue && frames[k].snapshotDue) {
      FramesAreNumbered(interval, cadence, s, now, j);
      FramesAreNumbered(interval, cadence, s, now, k);
      if frames[j].snapshotDue && frames[k].snapshotDue { MultiplesLieApart(frames[j].tick, frames[k].tick, cadence); }
    }
  }

  lemma NextMultiple(first: nat, cadence: nat)
    requires cadence > 0
    ensures var last := first + cadence - 1; (last - last % cadence) % cadence == 0 && 0 <= last % cadence < cadence
  {
    var last := first + cadence - 1;
    assert last - last % cadence == last / cadence * cadence;
    MultipleLeavesNothing(last / cadence, cadence);
  }

  lemma MultipleLeavesNothing(q: nat, k: nat)
    requires k > 0
    ensures (q * k) % k == 0
  {
    var n := q * k;
    assert (q - n / k) * k == n % k by { assert n == n / k * k + n % k; }
    OnlyZeroFits(q - n / k, k);
  }

  lemma OnlyZeroFits(d: int, k: nat)
    requires k > 0 && 0 <= d * k < k
    ensures d * k == 0
  {
    if d >= 1 {
      MulMono(1, d, k);
    } else if d <= -1 {
      MulMono(d, -1, k);
    }
  }

  lemma MultiplesLieApart(a: nat, b: nat, k: nat)
    requires k > 0 && a < b && a % k == 0 && b % k == 0
    ensures b - a >= k
  {
    assert a == a / k * k && b == b / k * k;
    var d := b / k - a / k;
    assert d * k == b - a;
    if b - a < k { OnlyZeroFits(d, k); }
  }
}
