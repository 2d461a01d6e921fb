/**
 * Runs of the fixation detector: a stream of samples fed one by one, and
 * what holds across the whole stream.
 */
module FixationRuns {
  import opened Wrappers
  import opened FixationDetector

  /** The state after feeding `samples` in order to `d`. */
  function Run(d: Detector, samples: seq<Sample>): Detector
    decreases |samples|
  {
    if samples == [] then d
    else Observe(Run(d, samples[..|samples| - 1]), samples[|samples| - 1]).next
  }

  /** The samples follow the window and each other in time. */
  predicate Chronological(d: Detector, samples: seq<Sample>)
  {
    TimesSorted(d.history + samples)
  }

  /**
   * Every state reached by a chronological stream keeps the invariant, and
   * its window ends with the last sample fed.
   */
  lemma {:induction false} RunPreservesInv(d: Detector, samples: seq<Sample>)
    requires Inv(d) && Chronological(d, samples)
    ensures Inv(Run(d, samples))
    ensures samples != [] ==>
      |Run(d, samples).history| > 0
      && Run(d, samples).history[|Run(d, samples).history| - 1] == samples[|samples| - 1]
    decreases |samples|
  {
    if samples != [] {
      var n := |samples|;
      var prefix, s := samples[..n - 1], samples[n - 1];
      ChronologicalPrefix(d, samples);
      RunPreservesInv(d, prefix);
      var e := Run(d, prefix);
      NextFollows(d, samples, e);
      assert Run(d, samples) == Observe(e, s).next;
      StepKeepsInv(e, s, Run(d, samples));
    }
  }

  /** One step of a run keeps the invariant and ends the window with the sample fed. */
  lemma StepKeepsInv(e: Detector, s: Sample, r: Detector)
    requires Inv(e) && Follows(e.history, s.timestamp) && r == Observe(e, s).next
    ensures Inv(r) && |r.history| > 0 && r.history[|r.history| - 1] == s
  {
    ObservePreservesInv(e, s);
    ObserveSlidesWindow(e, s);
  }

  lemma ChronologicalPrefix(d: Detector, samples: seq<Sample>)
    requires samples != [] && Chronological(d, samples)
    ensures Chronological(d, samples[..|samples| - 1])
  {
    var all := d.history + samples;
    assert d.history + samples[..|samples| - 1] == all[..|all| - 1];
  }

  /** The last sample of a chronological stream follows the window reached before it. */
  lemma NextFollows(d: Detector, samples: seq<Sample>, e: Detector)
    requires samples != [] && Chronological(d, samples)
    requires samples[..|samples| - 1] == [] ==> e == d
    requires samples[..|samples| - 1] != [] ==>
      |e.history| > 0 && e.history[|e.history| - 1] == samples[|samples| - 2]
    ensures Follows(e.history, samples[|samples| - 1].timestamp)
  {
    var all := d.history + samples;
    var n := |samples|;
    assert samples[n - 1] == all[|all| - 1];
    if n > 1 {
      assert samples[n - 2] == all[|all| - 2];
    } else if |e.history| > 0 {
      assert e.history[|e.history| - 1] == all[|d.history| - 1];
    }
  }

  /**
   * As long as a fixation stays open through a stream, its start time and
   * position are those it was opened with, and the log of closed fixations
   * does not change.
   */
  lemma {:induction false} FrozenWhileOpen(d: Detector, samples: seq<Sample>)
    requires d.current.Some?
    requires forall k :: 0 <= k <= |samples| ==> Run(d, samples[..k]).current.Some?
    ensures Run(d, samples).current.Some?
    ensures Run(d, samples).current.value.startTime == d.current.value.startTime
    ensures Run(d, samples).current.value.position == d.current.value.position
    ensures Run(d, samples).closed == d.closed
    decreases |samples|
  {
    assert samples[..0] == [];
    assert samples[..|samples|] == samples;
    if samples != [] {
      var n := |samples|;
      var prefix := samples[..n - 1];
      forall k | 0 <= k <= |prefix|
        ensures Run(d, prefix[..k]).current.Some?
      {
        assert prefix[..k] == samples[..k];
      }
      FrozenWhileOpen(d, prefix);
      StepKeepsOpen(Run(d, prefix), samples[n - 1], Run(d, samples));
    }
  }

  /** A step that leaves a fixation open keeps its start, its position and the log. */
  lemma StepKeepsOpen(e: Detector, s: Sample, r: Detector)
    requires r == Observe(e, s).next && e.current.Some? && r.current.Some?
    ensures r.current.value.startTime == e.current.value.startTime
    ensures r.current.value.position == e.current.value.position
    ensures r.closed == e.closed
  {
  }

  /**
   * The log of closed fixations only ever grows at its end, by at most one
   * entry per sample.
   */
  lemma {:induction false} ClosedLogAppendOnly(d: Detector, samples: seq<Sample>)
    ensures d.closed <= Run(d, samples).closed
    ensures |Run(d, samples).closed| <= |d.closed| + |samples|
    decreases |samples|
  {
    if samples != [] {
      ClosedLogAppendOnly(d, samples[..|samples| - 1]);
    }
  }

  /** The window never holds more than `HistoryCapacity` samples, however long the stream. */
  lemma {:induction false} WindowBounded(d: Detector, samples: seq<Sample>)
    requires |d.history| <= HistoryCapacity
    ensures |Run(d, samples).history| ==
      if |d.history| + |samples| < HistoryCapacity then |d.history| + |samples| else HistoryCapacity
    decreases |samples|
  {
    if samples != [] {
      var prefix, s := samples[..|samples| - 1], samples[|samples| - 1];
      WindowBounded(d, prefix);
      ObserveSlidesWindow(Run(d, prefix), s);
    }
  }

  /**
   * A reading scenario: three samples near (100,100) at 0, 5 and 10 ms, a
   * fourth back at (100,100) at 40 ms, then a jump to (500,500) at 45 ms.
   */
  const Scenario: seq<Sample> := [
    Sample(Point(100.0, 100.0), 0.0), Sample(Point(101.0, 100.0), 5.0),
    Sample(Point(100.0, 101.0), 10.0), Sample(Point(100.0, 100.0), 40.0),
    Sample(Point(500.0, 500.0), 45.0)]

  /** The fixation the scenario opens: from 0 ms, centred on the mean (100.25, 100.25), lasting 40 ms. */
  const ScenarioFixation: Fixation := Fixation(0.0, Some(Point(100.25, 100.25)), 40.0)

  /** The first three samples span only 10 ms: nothing opens. */
  lemma ScenarioFirstThree()
    ensures Run(Initial, Scenario[..3]) == Detector(Scenario[..3], None, [])
  {
    var ss := Scenario;
    ScenarioFirstTwo();
    assert ss[..3][..2] == ss[..2];
    assert Push(ss[..2], ss[2]) == ss[..3];
    assert Span(ss[..3]) == 10.0;
  }

  /** The first two samples span only 5 ms: nothing opens. */
  lemma ScenarioFirstTwo()
    ensures Run(Initial, Scenario[..2]) == Detector(Scenario[..2], None, [])
  {
    var ss := Scenario;
    assert ss[..2][..1] == ss[..1] && ss[..1][..0] == [];
    assert Run(Initial, ss[..1]) == Detector(ss[..1], None, []);
    assert Push(ss[..1], ss[1]) == ss[..2];
    assert Span(ss[..2]) == 5.0;
  }

  /** The first four samples form a stable window whose mean is (100.25, 100.25). */
  lemma ScenarioStableWindow()
    ensures Stable(Scenario[..4]) && Span(Scenario[..4]) == 40.0
    ensures MeanPosition(Scenario[..4]) == Some(Point(100.25, 100.25))
  {
    var w := Scenario[..4];
    var p := w[0].position;
    assert w[1..] == Scenario[1..4] && w[2..] == Scenario[2..4] && w[3..] == Scenario[3..4];
    assert MaxSquaredDistance(p, w[3..]) == 0.0;
    assert MaxSquaredDistance(p, w[2..]) == 1.0;
    assert MaxSquaredDistance(p, w[1..]) == 1.0;
    assert Spread(w) == 1.0;
    assert w[3..][1..] == [];
    assert WindowSumX(w[3..]) == 100.0 && WindowSumY(w[3..]) == 100.0;
    assert WindowSumX(w[2..]) == 200.0 && WindowSumY(w[2..]) == 201.0;
    assert WindowSumX(w[1..]) == 301.0 && WindowSumY(w[1..]) == 301.0;
    assert WindowSumX(w) == 401.0 && WindowSumY(w) == 401.0;
  }

  /** The fourth sample opens the scenario's fixation. */
  lemma ScenarioOpens()
    ensures Run(Initial, Scenario[..4]) == Detector(Scenario[..4], Some(ScenarioFixation), [])
  {
    var ss := Scenario;
    ScenarioFirstThree();
    ScenarioStableWindow();
    assert ss[..4][..3] == ss[..3];
    assert Push(ss[..3], ss[3]) == ss[..4];
  }

  /**
   * After four samples a fixation is open from 0 ms; the fifth sample, about
   * 566 px from the window's first sample, closes it: the log then holds
   * exactly that fixation and the open slot is empty.
   */
  lemma OpenThenClose()
    ensures Run(Initial, Scenario[..4]).current == Some(ScenarioFixation)
    ensures Run(Initial, Scenario).current == None
    ensures Run(Initial, Scenario).closed == [ScenarioFixation]
  {
    var ss := Scenario;
    ScenarioOpens();
    assert ss[..4] == ss[..|ss| - 1];
    var w5 := Push(ss[..4], ss[4]);
    assert w5 == ss;
    assert SquaredDistance(ss[0].position, ss[4].position) == 320000.0;
    assert !Stable(w5);
  }
}
