/**
 * The playback index arithmetic: how elapsed wall-clock time picks the two recorded samples that
 * bracket the current frame, and when playback ends.
 */
module Playback {
  import opened Wrappers

  /** The fixed sample and playback rate, in samples per second. */
  const TargetFps: real := 60.0

  /** The least clock distance between two recorded samples, `1 / TargetFps`. */
  const RecordInterval: real := 1.0 / 60.0

  /** Python's `int(x)` on a float: truncation toward zero. */
  function Trunc(x: real): (n: int)
    ensures 0.0 <= x ==> n as real <= x < n as real + 1.0
    ensures x < 0.0 ==> x <= n as real < x + 1.0
    ensures 0 <= n <==> -1.0 < x
  {
    if x >= 0.0 then x.Floor else -((-x).Floor)
  }

  /** The whole number of sample intervals in `elapsed` seconds, `int(elapsed * TargetFps)`. */
  function FrameIndex(elapsed: real): (k: int)
    ensures 0.0 <= elapsed ==> 0 <= k && k as real <= elapsed * TargetFps < k as real + 1.0
    ensures elapsed < 0.0 ==> k <= 0 && elapsed * TargetFps <= k as real < elapsed * TargetFps + 1.0
  {
    Trunc(elapsed * TargetFps)
  }

  /**
   * Python's `xs[i]` on a list of length `n`: the position read, counting a negative index from
   * the end; None stands for the IndexError Python raises.
   */
  function PyIndex(n: nat, i: int): (r: Option<nat>)
    ensures r.Some? <==> -(n as int) <= i < n
    ensures r.Some? ==> r.value < n
    ensures r.Some? && 0 <= i ==> r.value == i
    ensures r.Some? && i < 0 ==> r.value == i + n
  {
    if 0 <= i < n then Some(i) else if -(n as int) <= i < 0 then Some(i + n) else None
  }

  /** What one playback tick does with a log of `n` samples after `elapsed` seconds. */
  datatype Step =
    | Finished                          // the index reached the last sample: stop playback
    | Blend(i0: nat, i1: nat, t: real)  // blend sample i0 towards sample i1 by weight t
    | IndexFault                        // reading the log raised IndexError

  /**
   * One playback step. Playback stops as soon as the lower index reaches the last sample, so the
   * last sample is never shown and the player never reads past the log. A clock that stepped back
   * gives a negative index, which Python's list indexing reads from the end of the log.
   */
  function PlaybackStep(n: nat, elapsed: real): (st: Step)
    ensures st.Finished? <==> FrameIndex(elapsed) >= n - 1
    ensures st.IndexFault? <==> FrameIndex(elapsed) < -(n as int) && FrameIndex(elapsed) < n - 1
    ensures st.Blend? ==> st.i0 < n && st.i1 < n
    ensures st.Blend? ==>
      var k := FrameIndex(elapsed);
      && st.i0 as int == (if k < 0 then k + n else k)
      && st.i1 as int == (if k + 1 < 0 then k + 1 + n else k + 1)
      && st.t == elapsed * TargetFps - k as real
    ensures 0.0 <= elapsed && !st.Finished? ==>
      && st.Blend?
      && st.i0 as int == FrameIndex(elapsed)
      && st.i1 == st.i0 + 1 <= n - 1
      && 0.0 <= st.t < 1.0
      && st.t == elapsed * TargetFps - st.i0 as real
  {
    var floatIdx := elapsed * TargetFps;
    var idx0 := Trunc(floatIdx);
    var t := floatIdx - idx0 as real;
    if idx0 >= n - 1 then Finished
    else
      match PyIndex(n, idx0)
      case None => IndexFault
      case Some(i0) =>
        match PyIndex(n, idx0 + 1)
        case None => IndexFault
        case Some(i1) => Blend(i0, i1, t)
  }

  /** For a clock that does not run backwards, the index never decreases as time passes. */
  lemma FrameIndexMonotone(e1: real, e2: real)
    requires 0.0 <= e1 <= e2
    ensures 0 <= FrameIndex(e1) <= FrameIndex(e2)
  {
    var a, b := e1 * TargetFps, e2 * TargetFps;
    assert Trunc(a) as real <= a <= b < Trunc(b) as real + 1.0;
  }

  /** Playback ends exactly when `elapsed * TargetFps` reaches `n - 1`: it lasts `(n - 1) / TargetFps` seconds. */
  lemma FinishedIffEndReached(n: nat, elapsed: real)
    requires 0.0 <= elapsed
    ensures PlaybackStep(n, elapsed).Finished? <==> elapsed * TargetFps >= (n - 1) as real
  {
    var f := elapsed * TargetFps;
    assert Trunc(f) as real <= f < Trunc(f) as real + 1.0;
  }

  /** Once a playback step is Finished, every later step is Finished too. */
  lemma FinishedIsFinal(n: nat, e1: real, e2: real)
    requires 0.0 <= e1 <= e2
    requires PlaybackStep(n, e1).Finished?
    ensures PlaybackStep(n, e2).Finished?
  {
    FrameIndexMonotone(e1, e2);
  }

  /** A log with fewer than two samples cannot be interpolated: its first step already finishes. */
  lemma ShortLogFinishesAtOnce(n: nat, elapsed: real)
    requires n <= 1 && 0.0 <= elapsed
    ensures PlaybackStep(n, elapsed).Finished?
  {
  }

  /**
   * A wall clock that stepped back by less than one sample interval truncates to index 0: the
   * player reads samples 0 and 1 with a negative weight, extrapolating before the first sample.
   */
  lemma ClockStepBackUnderOneInterval()
    ensures PlaybackStep(3, -0.5 / 60.0) == Blend(0, 1, -0.5)
  {
    assert Trunc(-0.5) == 0;
  }

  /**
   * A wall clock that stepped back by between one and two sample intervals gives index -1, which
   * Python reads from the end: the three-sample player pairs the last sample with the first at
   * weight -0.5, extrapolating beyond the last sample away from the first.
   */
  lemma ClockStepBackReadsFromEnd()
    ensures PlaybackStep(3, -1.5 / 60.0) == Blend(2, 0, -0.5)
  {
    assert Trunc(-1.5) == -1;
  }
}
