/**
 * The pupil tracker object: the detector state it updates in place on
 * every observation, and the per-frame records a recording accumulates.
 */
module Tracker {
  import opened Wrappers
  import opened PupilLocator
  import opened FixationDetector
  import opened Session

  class PupilTracker {
    /** The sliding window of recent samples. */
    var positionsHistory: seq<Sample>
    /** The open fixation, if any. */
    var currentFixation: Option<Fixation>
    /** The log of closed fixations. */
    var fixations: seq<Fixation>
    /** The records of the current recording. */
    var trackingData: seq<TrackingRecord>

    /** The detector state held in the fields. */
    function State(): Detector
      reads this
    {
      Detector(positionsHistory, currentFixation, fixations)
    }

    /** The detector state is reachable and every record is as `ProcessFrame` builds it. */
    predicate Valid()
      reads this
    {
      && Inv(State())
      && forall i :: 0 <= i < |trackingData| ==> Complete(trackingData[i])
    }

    constructor ()
      ensures Valid()
      ensures State() == Initial && trackingData == []
    {
      positionsHistory := [];
      currentFixation := None;
      fixations := [];
      trackingData := [];
    }

    /**
     * Observes one gaze position at `timestamp`: the state afterwards is the
     * one `Observe` describes, and the result is the open fixation, if any.
     */
    method DetectFixation(currentPosition: Point, timestamp: real) returns (fixation: Option<Fixation>)
      requires Valid() && Follows(positionsHistory, timestamp)
      modifies this
      ensures Valid()
      ensures State() == Observe(old(State()), Sample(currentPosition, timestamp)).next
      ensures fixation == Observe(old(State()), Sample(currentPosition, timestamp)).fixation
      ensures fixation == currentFixation
      ensures trackingData == old(trackingData)
    {
      ghost var before := State();
      var sample := Sample(currentPosition, timestamp);
      ghost var after := Observe(before, sample);
      ObservePreservesInv(before, sample);
      var history := Push(positionsHistory, sample);
      var current, closed := currentFixation, fixations;
      if |history| >= 2 {
        var maxDistance := Spread(history);
        var duration := Span(history);
        if maxDistance < FixationThreshold * FixationThreshold && duration >= FixationDuration {
          if current.None? {
            current := Some(Fixation(history[0].timestamp, MeanPosition(history), duration));
          } else {
            current := Some(current.value.(duration := duration));
          }
        } else if current.Some? {
          closed := closed + [current.value];
          current := None;
        }
      }
      assert Detector(history, current, closed) == after.next;
      positionsHistory, currentFixation, fixations := history, current, closed;
      fixation := if |history| < 2 then None else current;
    }

    /** Starting a recording empties the records; the detector state is kept. */
    method StartRecording()
      requires Valid()
      modifies this
      ensures Valid()
      ensures trackingData == []
      ensures State() == old(State())
    {
      trackingData := [];
    }

    /**
     * Stopping a recording aggregates its records into the classifier's
     * table, with a recording that never fixated reported as having no data.
     * The result never fails on a missing column, is a table exactly when
     * some frame was a fixation, and every cell of that table is present.
     */
    method StopRecording() returns (result: Aggregate)
      requires Valid()
      ensures result == AggregateFixations(trackingData)
      ensures !result.MissingColumn?
      ensures result.Table? <==> exists i :: 0 <= i < |trackingData| && trackingData[i].isFixation
      ensures result.Table? ==>
        && |result.rows| == |FixationRows(trackingData)|
        && forall k :: 0 <= k < |result.rows| ==>
             result.rows[k] == Features(FixationRows(trackingData)[k])
             && result.rows[k].x.Some? && result.rows[k].y.Some? && result.rows[k].duration.Some?
    {
      AggregateFixationsCorrect(trackingData);
      CompleteTable(trackingData);
      var rows := FixationRows(trackingData);
      if |rows| == 0 {
        result := NoData;
      } else {
        result := Table(FeatureTable(rows));
      }
    }
  }

  /**
   * Processes one frame of a recording whose pupils have been located: when
   * both centres are present, their midpoint is observed at `currentTime`
   * and one record is appended; otherwise the frame changes nothing.
   */
  method ProcessFrame(tracker: PupilTracker, pupils: Pupils, currentTime: real)
    returns (fixation: Option<Fixation>)
    requires tracker.Valid() && Follows(tracker.positionsHistory, currentTime)
    modifies tracker
    ensures tracker.Valid()
    ensures pupils.left.None? || pupils.right.None? ==>
      fixation.None? && tracker.State() == old(tracker.State())
      && tracker.trackingData == old(tracker.trackingData)
    ensures pupils.left.Some? && pupils.right.Some? ==>
      var o := Observe(old(tracker.State()),
                       Sample(GazePoint(pupils.left.value, pupils.right.value), currentTime));
      && fixation == o.fixation
      && tracker.State() == o.next
      && tracker.trackingData == old(tracker.trackingData)
           + [MakeRecord(currentTime, pupils.left.value, pupils.right.value, fixation)]
  {
    fixation := None;
    if pupils.left.Some? && pupils.right.Some? {
      var leftCentre, rightCentre := pupils.left.value, pupils.right.value;
      var avgPosition := GazePoint(leftCentre, rightCentre);
      fixation := tracker.DetectFixation(avgPosition, currentTime);
      RecordComplete(currentTime, leftCentre, rightCentre, fixation);
      var dataPoint := MakeRecord(currentTime, leftCentre, rightCentre, fixation);
      tracker.trackingData := tracker.trackingData + [dataPoint];
    }
  }
}
