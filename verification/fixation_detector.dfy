/**
 * The fixation detector: a state machine over a bounded window of recent
 * gaze samples, an optional open fixation and the log of closed fixations.
 *
 * This module holds the pure part: the window operations, the stability
 * test, the transition of one observation (`Observe`) and the invariant it
 * keeps. The class that updates these fields in place is in module Tracker.
 */
module FixationDetector {
  import opened Wrappers

  /** Capacity of the window of recent samples. */
  const HistoryCapacity: nat := 10

  /** Spatial tolerance of a fixation, in pixels. */
  const FixationThreshold: real := 20.0

  /** Minimum duration of a fixation, in milliseconds. */
  const FixationDuration: real := 30.0

  /** A gaze position in (fractional) pixels. */
  datatype Point = Point(x: real, y: real)

  /** One observation: a gaze position and its timestamp in milliseconds. */
  datatype Sample = Sample(position: Point, timestamp: real)

  /** A fixation: when it began, its centroid, and how long it has lasted. */
  datatype Fixation = Fixation(startTime: real, position: Option<Point>, duration: real)

  /** The detector's three pieces of state. */
  datatype Detector = Detector(history: seq<Sample>, current: Option<Fixation>, closed: seq<Fixation>)

  /** What one observation does: the next state and the value returned. */
  datatype Observation = Observation(next: Detector, fixation: Option<Fixation>)

  /** The state of a freshly built detector. */
  const Initial: Detector := Detector([], None, [])

  // ---------------------------------------------------------------------
  // Window operations

  /**
   * Appends a sample to the window, evicting the oldest samples so that at
   * most `HistoryCapacity` remain; the new sample is last.
   */
  function Push(history: seq<Sample>, s: Sample): (w: seq<Sample>)
    ensures |w| == if |history| < HistoryCapacity then |history| + 1 else HistoryCapacity
    ensures w[|w| - 1] == s
  {
    var all := history + [s];
    if |all| <= HistoryCapacity then all else all[|all| - HistoryCapacity..]
  }

  /** The samples a push keeps before the new one are the most recent ones of the old window, in order. */
  lemma PushKeepsRecent(history: seq<Sample>, s: Sample)
    ensures var w := Push(history, s);
      forall i :: 0 <= i < |w| - 1 ==> w[i] == history[|history| - (|w| - 1) + i]
  {
  }

  /** Timestamps never decrease from one sample to the next. */
  predicate TimesSorted(history: seq<Sample>)
  {
    forall i :: 0 < i < |history| ==> history[i - 1].timestamp <= history[i].timestamp
  }

  /** A sample may follow the window: its timestamp is not older than the newest one. */
  predicate Follows(history: seq<Sample>, timestamp: real)
  {
    |history| > 0 ==> history[|history| - 1].timestamp <= timestamp
  }

  /** Squared Euclidean distance; it is below `t * t` exactly when the distance is below `t`. */
  function SquaredDistance(a: Point, b: Point): (d: real)
    ensures d >= 0.0
  {
    (a.x - b.x) * (a.x - b.x) + (a.y - b.y) * (a.y - b.y)
  }

  /** The largest squared distance from `pivot` to a sample position. */
  function MaxSquaredDistance(pivot: Point, samples: seq<Sample>): (m: real)
    requires |samples| > 0
    ensures forall i :: 0 <= i < |samples| ==> SquaredDistance(pivot, samples[i].position) <= m
    ensures exists i :: 0 <= i < |samples| && m == SquaredDistance(pivot, samples[i].position)
  {
    var d := SquaredDistance(pivot, samples[0].position);
    if |samples| == 1 then d
    else
      var rest := MaxSquaredDistance(pivot, samples[1..]);
      assert forall i :: 1 <= i < |samples| ==> samples[i] == samples[1..][i - 1];
      if d >= rest then d else rest
  }

  /** Pivot-based spread: the largest squared distance from the window's FIRST sample. */
  function Spread(history: seq<Sample>): real
    requires |history| > 0
  {
    MaxSquaredDistance(history[0].position, history)
  }

  /** Newest timestamp minus oldest timestamp in the window. */
  function Span(history: seq<Sample>): real
    requires |history| > 0
  {
    history[|history| - 1].timestamp - history[0].timestamp
  }

  /** The stability test: spread below the threshold and span at least the minimum duration. */
  predicate Stable(history: seq<Sample>)
    requires |history| > 0
  {
    Spread(history) < FixationThreshold * FixationThreshold && Span(history) >= FixationDuration
  }

  function WindowSumX(history: seq<Sample>): real
  {
    if history == [] then 0.0 else history[0].position.x + WindowSumX(history[1..])
  }

  function WindowSumY(history: seq<Sample>): real
  {
    if history == [] then 0.0 else history[0].position.y + WindowSumY(history[1..])
  }

  /** The per-axis mean of the window positions, `None` for an empty window. */
  function MeanPosition(history: seq<Sample>): (p: Option<Point>)
    ensures p.Some? <==> |history| > 0
  {
    if |history| == 0 then None
    else Some(Point(WindowSumX(history) / |history| as real, WindowSumY(history) / |history| as real))
  }

  // ---------------------------------------------------------------------
  // One observation

  /**
   * Feeds one sample: push it; with fewer than two samples report nothing;
   * otherwise open, extend or close the fixation according to stability.
   */
  function Observe(d: Detector, s: Sample): Observation
  {
    var h := Push(d.history, s);
    if |h| < 2 then
      Observation(d.(history := h), None)
    else if Stable(h) then
      var f := if d.current.None? then Fixation(h[0].timestamp, MeanPosition(h), Span(h))
               else d.current.value.(duration := Span(h));
      Observation(Detector(h, Some(f), d.closed), Some(f))
    else if d.current.Some? then
      Observation(Detector(h, None, d.closed + [d.current.value]), None)
    else
      Observation(d.(history := h), None)
  }

  /** The open fixation, if any, was opened on this window's stable samples. */
  predicate OpenConsistent(d: Detector)
  {
    d.current.Some? ==>
      && |d.history| >= 2
      && d.current.value.position.Some?
      && d.current.value.duration == Span(d.history)
      && d.current.value.startTime <= d.history[0].timestamp
  }

  /** Fixations begin in order: closed ones in log order, then the open one. */
  predicate StartsOrdered(d: Detector)
  {
    && (forall i, j :: 0 <= i <= j < |d.closed| ==> d.closed[i].startTime <= d.closed[j].startTime)
    && (forall i :: 0 <= i < |d.closed| ==>
          |d.history| > 0 && d.closed[i].startTime <= d.history[0].timestamp)
    && (d.current.Some? ==>
          forall i :: 0 <= i < |d.closed| ==> d.closed[i].startTime <= d.current.value.startTime)
  }

  /** Every closed fixation has a centroid and lasted at least the minimum duration. */
  predicate ClosedWellFormed(closed: seq<Fixation>)
  {
    forall i :: 0 <= i < |closed| ==>
      closed[i].position.Some? && closed[i].duration >= FixationDuration
  }

  /** The invariant of every reachable detector state. */
  predicate Inv(d: Detector)
  {
    && |d.history| <= HistoryCapacity
    && TimesSorted(d.history)
    && (d.current.Some? <==> |d.history| >= 2 && Stable(d.history))
    && OpenConsistent(d)
    && ClosedWellFormed(d.closed)
    && StartsOrdered(d)
  }

  // ---------------------------------------------------------------------
  // Lemmas

  lemma InitialInv()
    ensures Inv(Initial)
  {
  }

  /** Pushing a sample that follows the window keeps it sorted and never moves its start back. */
  lemma PushKeepsOrder(history: seq<Sample>, s: Sample)
    requires |history| <= HistoryCapacity && TimesSorted(history) && Follows(history, s.timestamp)
    ensures TimesSorted(Push(history, s))
    ensures |history| > 0 ==> history[0].timestamp <= Push(history, s)[0].timestamp
  {
    var w := Push(history, s);
    PushKeepsRecent(history, s);
    var off := |history| - (|w| - 1);
    forall i | 0 < i < |w|
      ensures w[i - 1].timestamp <= w[i].timestamp
    {
      if i < |w| - 1 {
        assert w[i - 1] == history[off + i - 1] && w[i] == history[off + i];
      } else {
        assert w[i - 1] == history[|history| - 1];
      }
    }
    if |history| > 0 && |w| > 1 {
      assert w[0] == history[off];
      if off == 1 {
        assert history[0].timestamp <= history[1].timestamp;
      }
    }
  }

  /** The window has at most `HistoryCapacity` samples after every push; a full window loses its oldest. */
  lemma PushBounded(history: seq<Sample>, s: Sample)
    requires |history| <= HistoryCapacity
    ensures |Push(history, s)| <= HistoryCapacity
    ensures |history| == HistoryCapacity ==> Push(history, s) == history[1..] + [s]
    ensures |history| < HistoryCapacity ==> Push(history, s) == history + [s]
  {
    var w := Push(history, s);
    PushKeepsRecent(history, s);
    if |history| == HistoryCapacity {
      assert w == history[1..] + [s] by {
        assert forall i :: 0 <= i < |w| - 1 ==> w[i] == history[1..][i];
      }
    } else {
      assert forall i :: 0 <= i < |w| - 1 ==> w[i] == history[i];
    }
  }

  /**
   * Stability holds exactly when every sample lies within the threshold of
   * the window's first sample and the window spans at least the minimum duration.
   */
  lemma StableIff(history: seq<Sample>)
    requires |history| > 0
    ensures Stable(history) <==>
      (forall i :: 0 <= i < |history| ==>
         SquaredDistance(history[0].position, history[i].position) < FixationThreshold * FixationThreshold)
      && history[|history| - 1].timestamp - history[0].timestamp >= FixationDuration
  {
  }

  /** Bounds on a coordinate sum from strict bounds on every sample. */
  lemma {:induction false} WindowSumXBounds(history: seq<Sample>, lo: real, hi: real)
    requires forall i :: 0 <= i < |history| ==> lo < history[i].position.x < hi
    ensures |history| > 0 ==> |history| as real * lo < WindowSumX(history) < |history| as real * hi
  {
    if |history| > 1 {
      assert forall i :: 0 <= i < |history| - 1 ==> history[1..][i] == history[i + 1];
      WindowSumXBounds(history[1..], lo, hi);
      RealProductStep(|history|, lo);
      RealProductStep(|history|, hi);
    }
  }

  lemma {:induction false} WindowSumYBounds(history: seq<Sample>, lo: real, hi: real)
    requires forall i :: 0 <= i < |history| ==> lo < history[i].position.y < hi
    ensures |history| > 0 ==> |history| as real * lo < WindowSumY(history) < |history| as real * hi
  {
    if |history| > 1 {
      assert forall i :: 0 <= i < |history| - 1 ==> history[1..][i] == history[i + 1];
      WindowSumYBounds(history[1..], lo, hi);
      RealProductStep(|history|, lo);
      RealProductStep(|history|, hi);
    }
  }

  lemma RealProductStep(n: nat, a: real)
    ensures n as real * a == (n - 1) as real * a + a
  {
  }

  /** A quotient by a positive count stays within bounds the scaled sum respects. */
  lemma DivideBounds(n: real, sum: real, lo: real, hi: real)
    requires n > 0.0 && n * lo < sum < n * hi
    ensures lo < sum / n < hi
  {
    assert sum == n * (sum / n);
  }

  /** A coordinate whose square is below `t * t` is within `t` of zero. */
  lemma SquareBound(a: real, t: real)
    requires t > 0.0 && a * a < t * t
    ensures -t < a < t
  {
  }

  /** A point within the threshold of the pivot is within it on each axis. */
  lemma NearPivot(p: Point, q: Point)
    requires SquaredDistance(p, q) < FixationThreshold * FixationThreshold
    ensures p.x - FixationThreshold < q.x < p.x + FixationThreshold
    ensures p.y - FixationThreshold < q.y < p.y + FixationThreshold
  {
    var dx, dy := p.x - q.x, p.y - q.y;
    assert SquaredDistance(p, q) == dx * dx + dy * dy;
    assert dx * dx >= 0.0 && dy * dy >= 0.0;
    assert dx * dx < FixationThreshold * FixationThreshold;
    assert dy * dy < FixationThreshold * FixationThreshold;
    SquareBound(dx, FixationThreshold);
    SquareBound(dy, FixationThreshold);
  }

  /**
   * The centroid of a window whose spread is below the threshold lies within
   * the threshold of the window's first sample on each axis.
   */
  lemma CentroidNearPivot(history: seq<Sample>)
    requires |history| > 0 && Spread(history) < FixationThreshold * FixationThreshold
    ensures MeanPosition(history).Some?
    ensures -FixationThreshold < MeanPosition(history).value.x - history[0].position.x < FixationThreshold
    ensures -FixationThreshold < MeanPosition(history).value.y - history[0].position.y < FixationThreshold
  {
    var p, t := history[0].position, FixationThreshold;
    forall i | 0 <= i < |history|
      ensures p.x - t < history[i].position.x < p.x + t
      ensures p.y - t < history[i].position.y < p.y + t
    {
      NearPivot(p, history[i].position);
    }
    MeanXWithin(history, p.x - t, p.x + t);
    MeanYWithin(history, p.y - t, p.y + t);
  }

  lemma MeanXWithin(history: seq<Sample>, lo: real, hi: real)
    requires |history| > 0
    requires forall i :: 0 <= i < |history| ==> lo < history[i].position.x < hi
    ensures lo < MeanPosition(history).value.x < hi
  {
    WindowSumXBounds(history, lo, hi);
    DivideBounds(|history| as real, WindowSumX(history), lo, hi);
  }

  lemma MeanYWithin(history: seq<Sample>, lo: real, hi: real)
    requires |history| > 0
    requires forall i :: 0 <= i < |history| ==> lo < history[i].position.y < hi
    ensures lo < MeanPosition(history).value.y < hi
  {
    WindowSumYBounds(history, lo, hi);
    DivideBounds(|history| as real, WindowSumY(history), lo, hi);
  }

  /** Every observation keeps the window it pushed to, whatever else happens. */
  lemma ObserveSlidesWindow(d: Detector, s: Sample)
    ensures Observe(d, s).next.history == Push(d.history, s)
  {
  }

  /**
   * The first sample into an empty window leaves fewer than two samples:
   * the window becomes that sample alone, nothing is returned and nothing
   * else changes.
   */
  lemma ObserveTooFewSamples(d: Detector, s: Sample)
    requires d.history == []
    ensures Observe(d, s).next.history == [s]
    ensures Observe(d, s).fixation == None
    ensures Observe(d, s).next.current == d.current && Observe(d, s).next.closed == d.closed
  {
  }

  /**
   * A stable window with no open fixation opens one that starts at the
   * oldest timestamp of the window, is centred on the window's mean
   * position, and lasts the window's span.
   */
  lemma ObserveOpens(d: Detector, s: Sample)
    requires d.current.None?
    requires |Push(d.history, s)| >= 2 && Stable(Push(d.history, s))
    ensures var h := Push(d.history, s);
      && Observe(d, s).next.current == Some(Fixation(h[0].timestamp, MeanPosition(h), Span(h)))
      && Observe(d, s).next.current.value.position.Some?
      && Observe(d, s).fixation == Observe(d, s).next.current
      && Observe(d, s).next.closed == d.closed
  {
  }

  /** While a fixation stays open and stable only its duration changes. */
  lemma ObserveExtends(d: Detector, s: Sample)
    requires d.current.Some?
    requires |Push(d.history, s)| >= 2 && Stable(Push(d.history, s))
    ensures Observe(d, s).next.current.Some?
    ensures Observe(d, s).next.current.value.startTime == d.current.value.startTime
    ensures Observe(d, s).next.current.value.position == d.current.value.position
    ensures Observe(d, s).next.current.value.duration == Span(Push(d.history, s))
    ensures Observe(d, s).next.closed == d.closed
  {
  }

  /**
   * When stability fails with a fixation open, the log grows by exactly that
   * fixation, the open slot empties and the window is kept.
   */
  lemma ObserveCloses(d: Detector, s: Sample)
    requires d.current.Some?
    requires |Push(d.history, s)| >= 2 && !Stable(Push(d.history, s))
    ensures Observe(d, s).next.closed == d.closed + [d.current.value]
    ensures |Observe(d, s).next.closed| == |d.closed| + 1
    ensures Observe(d, s).next.current.None? && Observe(d, s).fixation.None?
    ensures Observe(d, s).next.history == Push(d.history, s)
  {
  }

  /** When stability fails and nothing is open, only the window changes. */
  lemma ObserveIdle(d: Detector, s: Sample)
    requires d.current.None?
    requires |Push(d.history, s)| >= 2 && !Stable(Push(d.history, s))
    ensures Observe(d, s).next == d.(history := Push(d.history, s))
    ensures Observe(d, s).fixation.None?
  {
  }

  /** A stable window keeps the invariant, whether it opens or extends the fixation. */
  lemma StablePreservesInv(d: Detector, s: Sample)
    requires Inv(d) && Follows(d.history, s.timestamp)
    requires |Push(d.history, s)| >= 2 && Stable(Push(d.history, s))
    ensures Inv(Observe(d, s).next)
  {
    var h := Push(d.history, s);
    PushKeepsOrder(d.history, s);
    PushBounded(d.history, s);
    var e := Observe(d, s).next;
    assert |d.history| > 0;
    assert OpenConsistent(e);
    assert StartsOrdered(e) by {
      if d.current.None? {
        assert forall i :: 0 <= i < |d.closed| ==> d.closed[i].startTime <= h[0].timestamp;
      }
    }
  }

  /** Closing a fixation keeps the invariant: the log gains a well-formed, latest-starting entry. */
  lemma ClosePreservesInv(d: Detector, s: Sample)
    requires Inv(d) && Follows(d.history, s.timestamp)
    requires d.current.Some?
    requires |Push(d.history, s)| >= 2 && !Stable(Push(d.history, s))
    ensures Inv(Observe(d, s).next)
  {
    var h := Push(d.history, s);
    PushKeepsOrder(d.history, s);
    PushBounded(d.history, s);
    var e := Observe(d, s).next;
    assert e.closed == d.closed + [d.current.value];
    assert d.current.value.duration == Span(d.history) >= FixationDuration;
    assert ClosedWellFormed(e.closed) by {
      forall i | 0 <= i < |e.closed|
        ensures e.closed[i].position.Some? && e.closed[i].duration >= FixationDuration
      {
        if i < |d.closed| { assert e.closed[i] == d.closed[i]; }
      }
    }
    assert StartsOrdered(e) by {
      forall i, j | 0 <= i <= j < |e.closed|
        ensures e.closed[i].startTime <= e.closed[j].startTime
      {
        if j < |d.closed| { assert e.closed[i] == d.closed[i] && e.closed[j] == d.closed[j]; }
        else if i < |d.closed| { assert e.closed[i] == d.closed[i]; }
      }
      forall i | 0 <= i < |e.closed|
        ensures |e.history| > 0 && e.closed[i].startTime <= e.history[0].timestamp
      {
        if i < |d.closed| { assert e.closed[i] == d.closed[i]; }
      }
    }
  }

  /**
   * Every observation of a sample that follows the window keeps the
   * invariant, and what it returns is exactly the open fixation afterwards.
   */
  lemma ObservePreservesInv(d: Detector, s: Sample)
    requires Inv(d) && Follows(d.history, s.timestamp)
    ensures Inv(Observe(d, s).next)
    ensures Observe(d, s).fixation == Observe(d, s).next.current
  {
    var h := Push(d.history, s);
    PushKeepsOrder(d.history, s);
    PushBounded(d.history, s);
    if |h| >= 2 {
      if Stable(h) {
        StablePreservesInv(d, s);
      } else if d.current.Some? {
        ClosePreservesInv(d, s);
      } else {
        assert StartsOrdered(Observe(d, s).next);
      }
    }
  }

  /**
   * An open fixation's duration is the span of the current window, which
   * never exceeds the time since the fixation started; the two agree while
   * the window still begins at the fixation's start.
   */
  lemma OpenDurationBound(d: Detector)
    requires Inv(d) && d.current.Some?
    ensures d.current.value.duration >= FixationDuration
    ensures d.current.value.startTime + d.current.value.duration
            <= d.history[|d.history| - 1].timestamp
    ensures d.current.value.startTime == d.history[0].timestamp ==>
            d.current.value.startTime + d.current.value.duration
            == d.history[|d.history| - 1].timestamp
  {
  }
}
