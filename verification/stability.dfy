/** The reading window and the stability detector of the weight notification handler.
    Readings are exact reals: the source's `parseFloat`, NaN and rounding are not modelled. */
module Stability {

  /** Largest allowed spread of the recent readings, in grams. */
  const StabilityThreshold: real := 0.0
  /** How many of the most recent readings the detector looks at. */
  const StabilityReadingsCount: nat := 5
  /** How many readings the window keeps. */
  const WindowCapacity: nat := 10

  /** `s.slice(-k)` for a positive `k`: the last `k` elements, or all of `s` when it is shorter. */
  function LastN<T>(s: seq<T>, k: nat): (r: seq<T>)
    requires k > 0
    ensures |r| == if |s| < k then |s| else k
    ensures forall i :: 0 <= i < |r| ==> r[i] == s[|s| - |r| + i]
  {
    if |s| <= k then s else s[|s| - k..]
  }

  /** `Math.min(...s)` on a non-empty sequence. */
  function Min(s: seq<real>): (m: real)
    requires |s| > 0
    ensures m in s
    ensures forall i :: 0 <= i < |s| ==> m <= s[i]
  {
    if |s| == 1 then s[0]
    else
      var rest := Min(s[1..]);
      if s[0] <= rest then s[0] else rest
  }

  /** `Math.max(...s)` on a non-empty sequence. */
  function Max(s: seq<real>): (m: real)
    requires |s| > 0
    ensures m in s
    ensures forall i :: 0 <= i < |s| ==> s[i] <= m
  {
    if |s| == 1 then s[0]
    else
      var rest := Max(s[1..]);
      if s[0] >= rest then s[0] else rest
  }

  /** Every two elements of `s` are equal. */
  predicate AllEqual(s: seq<real>)
  {
    forall i, j :: 0 <= i < |s| && 0 <= j < |s| ==> s[i] == s[j]
  }

  /** Every two elements of `s` differ by at most the threshold. */
  predicate WithinThreshold(s: seq<real>)
  {
    forall i, j :: 0 <= i < |s| && 0 <= j < |s| ==> s[i] - s[j] <= StabilityThreshold
  }

  /** The spread test `max - min <= threshold` is the pairwise test, and with a zero
      threshold both mean that all readings are equal. */
  lemma SpreadTest(s: seq<real>)
    requires |s| > 0
    ensures (Max(s) - Min(s) <= StabilityThreshold) <==> WithinThreshold(s)
    ensures WithinThreshold(s) <==> AllEqual(s)
  {
    if Max(s) - Min(s) <= StabilityThreshold {
      forall i, j | 0 <= i < |s| && 0 <= j < |s|
        ensures s[i] - s[j] <= StabilityThreshold
      {
        assert s[i] <= Max(s) && Min(s) <= s[j];
      }
    }
    if WithinThreshold(s) {
      var a :| 0 <= a < |s| && s[a] == Max(s);
      var b :| 0 <= b < |s| && s[b] == Min(s);
      assert s[a] - s[b] <= StabilityThreshold;
    }
  }

  /** The five most recent readings, once there are at least five. */
  function Recent(readings: seq<real>): (r: seq<real>)
    requires |readings| >= StabilityReadingsCount
    ensures |r| == StabilityReadingsCount
    ensures r == readings[|readings| - StabilityReadingsCount..]
  {
    LastN(readings, StabilityReadingsCount)
  }

  /** `checkWeightStability`: false with fewer than five readings; otherwise true exactly
      when the last five readings are all equal (a spread of at most zero grams). */
  function CheckWeightStability(readings: seq<real>): (stable: bool)
    ensures |readings| < StabilityReadingsCount ==> !stable
    ensures |readings| >= StabilityReadingsCount ==>
              (stable <==> AllEqual(readings[|readings| - StabilityReadingsCount..]))
  {
    if |readings| < StabilityReadingsCount then false
    else
      var recent := Recent(readings);
      SpreadTest(recent);
      Max(recent) - Min(recent) <= StabilityThreshold
  }

  /** The window after one notification: the reading is pushed, and the array is cut back to
      its last ten elements when it grew beyond ten. The result is the newest reading preceded
      by the latest older readings, in their original order, at most ten in all. */
  function PushReading(window: seq<real>, w: real): (r: seq<real>)
    ensures |r| == if |window| + 1 > WindowCapacity then WindowCapacity else |window| + 1
    ensures r[|r| - 1] == w
    ensures forall i :: 0 <= i < |r| - 1 ==> r[i] == window[|window| - (|r| - 1) + i]
  {
    var pushed := window + [w];
    if |pushed| > WindowCapacity then LastN(pushed, WindowCapacity) else pushed
  }

  /** The window after a run of notifications, oldest first. */
  function PushAll(window: seq<real>, ws: seq<real>): seq<real>
    decreases |ws|
  {
    if |ws| == 0 then window else PushAll(PushReading(window, ws[0]), ws[1..])
  }

  /** Cutting back to the last `k` before appending more and cutting again is the same as
      cutting once at the end. */
  lemma LastNAbsorbs(x: seq<real>, y: seq<real>, k: nat)
    requires k > 0
    ensures LastN(LastN(x, k) + y, k) == LastN(x + y, k)
  {
    var l, r := LastN(LastN(x, k) + y, k), LastN(x + y, k);
    assert |l| == |r|;
    forall i | 0 <= i < |l|
      ensures l[i] == r[i]
    {
      var z := LastN(x, k) + y;
      var p := |z| - |l| + i;
      if p >= |LastN(x, k)| {
        assert z[p] == y[p - |LastN(x, k)|];
      }
    }
  }

  /** One push is cutting `window + [w]` back to its last ten. */
  lemma PushReadingIsLastN(window: seq<real>, w: real)
    ensures PushReading(window, w) == LastN(window + [w], WindowCapacity)
  {
    var r, l := PushReading(window, w), LastN(window + [w], WindowCapacity);
    assert |r| == |l|;
    forall i | 0 <= i < |r|
      ensures r[i] == l[i]
    {
    }
  }

  /** A run of notifications leaves the last ten readings of the old window followed by the
      new ones: the window is a FIFO of capacity ten. */
  lemma {:induction false} PushAllIsSuffix(window: seq<real>, ws: seq<real>)
    requires |window| <= WindowCapacity
    ensures PushAll(window, ws) == LastN(window + ws, WindowCapacity)
    decreases |ws|
  {
    if |ws| == 0 {
      assert window + ws == window;
    } else {
      var w := ws[0];
      var next := PushReading(window, w);
      PushReadingIsLastN(window, w);
      PushAllIsSuffix(next, ws[1..]);
      LastNAbsorbs(window + [w], ws[1..], WindowCapacity);
      assert window + [w] + ws[1..] == window + ws;
    }
  }

  /** Once the window is full, a new reading evicts exactly the oldest one. */
  lemma FullWindowEvictsOldest(window: seq<real>, w: real)
    requires |window| == WindowCapacity
    ensures PushReading(window, w) == window[1..] + [w]
  {
    var r := PushReading(window, w);
    assert |r| == |window[1..] + [w]|;
    forall i | 0 <= i < |r|
      ensures r[i] == (window[1..] + [w])[i]
    {
    }
  }

  /** The verdict depends only on the last five readings: anything older may be anything. */
  lemma VerdictIgnoresOlderReadings(older: seq<real>, s: seq<real>)
    requires |s| >= StabilityReadingsCount
    ensures CheckWeightStability(older + s) == CheckWeightStability(s)
  {
    var t := older + s;
    assert t[|t| - StabilityReadingsCount..] == s[|s| - StabilityReadingsCount..];
  }

  /** Two windows that end in the same five readings get the same verdict. */
  lemma SameRecentSameVerdict(a: seq<real>, b: seq<real>)
    requires |a| >= StabilityReadingsCount && |b| >= StabilityReadingsCount
    requires a[|a| - StabilityReadingsCount..] == b[|b| - StabilityReadingsCount..]
    ensures CheckWeightStability(a) == CheckWeightStability(b)
  {
  }

  /** Cutting the window back to ten never changes the verdict that the untrimmed array
      would have given. */
  lemma TrimKeepsVerdict(window: seq<real>, w: real)
    ensures CheckWeightStability(PushReading(window, w)) == CheckWeightStability(window + [w])
  {
    var r, t := PushReading(window, w), window + [w];
    if |t| > WindowCapacity {
      var rr, tt := r[|r| - StabilityReadingsCount..], t[|t| - StabilityReadingsCount..];
      forall i | 0 <= i < StabilityReadingsCount
        ensures rr[i] == tt[i]
      {
        if i < StabilityReadingsCount - 1 {
          assert rr[i] == r[|r| - StabilityReadingsCount + i];
        }
      }
      assert rr == tt;
      SameRecentSameVerdict(r, t);
    } else {
      forall i | 0 <= i < |r|
        ensures r[i] == t[i]
      {
      }
      assert r == t;
    }
  }

  /** Five equal readings are stable; one reading off by a gram is not. */
  lemma ZeroToleranceExamples()
    ensures CheckWeightStability([10.0, 10.0, 10.0, 10.0, 10.0])
    ensures !CheckWeightStability([10.0, 10.0, 10.0, 10.0, 11.0])
  {
    var bad := [10.0, 10.0, 10.0, 10.0, 11.0];
    assert bad[|bad| - StabilityReadingsCount..] == bad;
    assert bad[0] != bad[4];
  }
}
