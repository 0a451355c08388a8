/**
 * The realised-frame-rate history: one entry per finished playback run, at most five kept, the
 * oldest evicted first.
 */
module FpsHistory {

  /** How many measurements the history keeps. */
  const MaxEntries: nat := 5

  /**
   * One measurement: the running number shown in its label (`#number`), the realised frames per
   * second and the playback duration in seconds. The label text itself is presentation.
   */
  datatype FpsRecord = FpsRecord(number: nat, fps: real, duration: real)

  /** `s` ends with `suffix`. */
  predicate IsSuffix<T(==)>(suffix: seq<T>, s: seq<T>)
  {
    |suffix| <= |s| && s[|s| - |suffix|..] == suffix
  }

  function Min(a: int, b: int): int
  {
    if a <= b then a else b
  }

  /**
   * Appends `rec` and, when the history then holds more than five entries, drops the oldest one:
   * the result is the most recent `min(|h| + 1, 5)` entries of `h + [rec]`.
   */
  function Push(h: seq<FpsRecord>, rec: FpsRecord): (r: seq<FpsRecord>)
    ensures IsSuffix(r, h + [rec])
    ensures |h| <= MaxEntries ==> |r| == Min(|h| + 1, MaxEntries)
    ensures |r| >= 1 && r[|r| - 1] == rec
  {
    var appended := h + [rec];
    if |appended| > MaxEntries then appended[1..] else appended
  }

  /**
   * Closes one playback run that produced `frames` frames in `duration` seconds. A run of no
   * positive duration records nothing; otherwise the new last entry carries the next running
   * number and the rate `frames / duration`.
   */
  function Finalize(h: seq<FpsRecord>, frames: nat, duration: real): (r: seq<FpsRecord>)
    ensures duration <= 0.0 ==> r == h
    ensures duration > 0.0 ==>
      && |r| >= 1
      && r[|r| - 1].number == |h| + 1
      && r[|r| - 1].fps * duration == frames as real
      && r[|r| - 1].duration == duration
      && IsSuffix(r[..|r| - 1], h)
    ensures duration > 0.0 ==> r == Push(h, FpsRecord(|h| + 1, frames as real / duration, duration))
    ensures |h| <= MaxEntries && duration > 0.0 ==> |r| == Min(|h| + 1, MaxEntries)
    ensures |h| <= MaxEntries ==> |r| <= MaxEntries
  {
    if duration <= 0.0 then h
    else
      var rate := frames as real / duration;
      assert rate * duration == frames as real;
      var appended := h + [FpsRecord(|h| + 1, rate, duration)];
      var r := Push(h, appended[|h|]);
      assert r[..|r| - 1] == appended[|appended| - |r|..|h|];
      r
  }

  /** The history as the panel lists it: the most recent measurement first. */
  function DisplayOrder(h: seq<FpsRecord>): (r: seq<FpsRecord>)
    ensures |r| == |h|
    ensures forall k :: 0 <= k < |h| ==> r[k] == h[|h| - 1 - k]
  {
    if h == [] then [] else [h[|h| - 1]] + DisplayOrder(h[..|h| - 1])
  }

  /** 120 frames in 2 seconds are recorded as 60 frames per second. */
  lemma SixtyFpsExample()
    ensures Finalize([], 120, 2.0) == [FpsRecord(1, 60.0, 2.0)]
  {
    var none: seq<FpsRecord> := [];
    var rec := FpsRecord(1, 60.0, 2.0);
    assert Push(none, rec) == [rec];
    assert Finalize(none, 120, 2.0) == Push(none, rec);
  }

  /**
   * The running number is computed from the length of the history before the append, so once five
   * entries are kept every later measurement is numbered 6: the last two labels repeat.
   */
  lemma NumberingStopsAtSix(h: seq<FpsRecord>, f1: nat, d1: real, f2: nat, d2: real)
    requires |h| == MaxEntries && d1 > 0.0 && d2 > 0.0
    ensures var h1 := Finalize(h, f1, d1);
            var h2 := Finalize(h1, f2, d2);
            |h2| == MaxEntries && h2[3].number == 6 && h2[4].number == 6
  {
    var h1 := Finalize(h, f1, d1);
    assert |h1| == MaxEntries;
    var h2 := Finalize(h1, f2, d2);
    assert h2[3] == h1[4];
  }
}
