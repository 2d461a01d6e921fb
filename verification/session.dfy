/**
 * The per-frame tracking record and the fixation table built from the
 * records when a recording stops.
 */
module Session {
  import opened Wrappers
  import opened PupilLocator
  import opened FixationDetector

  /** The fixation columns of a record; the centroid columns are empty when the fixation has no centroid. */
  datatype FixationFields = FixationFields(duration: real, x: Option<real>, y: Option<real>)

  /** One row per processed frame; the fixation columns are present exactly on fixation frames. */
  datatype TrackingRecord = TrackingRecord(
    timestamp: real,
    leftPupilX: int, leftPupilY: int,
    rightPupilX: int, rightPupilY: int,
    isFixation: bool,
    fixation: Option<FixationFields>)

  /** One row of the table given to the classifier; an absent cell is `None`. */
  datatype FeatureRow = FeatureRow(x: Option<real>, y: Option<real>, duration: Option<real>)

  /** What stopping a recording produces from its records. */
  datatype Aggregate =
    | NoData                         // nothing to classify
    | MissingColumn(name: string)    // a column lookup raised
    | Table(rows: seq<FeatureRow>)   // the table handed to the classifier

  /** The gaze point of a frame: the midpoint of the two pupil centres. */
  function GazePoint(left: Pixel, right: Pixel): (p: Point)
    ensures p.x - left.x as real == right.x as real - p.x
    ensures p.y - left.y as real == right.y as real - p.y
  {
    Point((left.x + right.x) as real / 2.0, (left.y + right.y) as real / 2.0)
  }

  /** The fixation columns carried by a record are present exactly when it is flagged. */
  predicate WellFormed(r: TrackingRecord)
  {
    r.isFixation <==> r.fixation.Some?
  }

  /**
   * Builds the record of one frame from the time, both pupil centres and
   * what the detector returned.
   */
  function MakeRecord(timestamp: real, left: Pixel, right: Pixel, fixation: Option<Fixation>): (r: TrackingRecord)
    ensures WellFormed(r)
    ensures r.isFixation <==> fixation.Some?
    ensures r.timestamp == timestamp
    ensures (r.leftPupilX, r.leftPupilY, r.rightPupilX, r.rightPupilY) == (left.x, left.y, right.x, right.y)
    ensures fixation.Some? ==>
      && r.fixation.value.duration == fixation.value.duration
      && (r.fixation.value.x.Some? <==> fixation.value.position.Some?)
      && (r.fixation.value.y.Some? <==> fixation.value.position.Some?)
      && (fixation.value.position.Some? ==>
            r.fixation.value.x == Some(fixation.value.position.value.x)
            && r.fixation.value.y == Some(fixation.value.position.value.y))
  {
    var fields := match fixation
      case None => None
      case Some(f) =>
        Some(FixationFields(
          f.duration,
          if f.position.Some? then Some(f.position.value.x) else None,
          if f.position.Some? then Some(f.position.value.y) else None));
    TrackingRecord(timestamp, left.x, left.y, right.x, right.y, fixation.Some?, fields)
  }

  /** The rows flagged as fixations, in their original order. */
  function FixationRows(records: seq<TrackingRecord>): (rows: seq<TrackingRecord>)
    ensures |rows| <= |records|
    ensures forall i :: 0 <= i < |rows| ==> rows[i].isFixation && rows[i] in records
    ensures forall i :: 0 <= i < |records| && records[i].isFixation ==> records[i] in rows
  {
    if records == [] then []
    else
      var rest := FixationRows(records[1..]);
      assert forall i :: 1 <= i < |records| ==> records[i] == records[1..][i - 1];
      if records[0].isFixation then [records[0]] + rest else rest
  }

  /** The three feature columns of a record: duration, x and y from its fixation columns. */
  function Features(r: TrackingRecord): FeatureRow
  {
    match r.fixation
    case None => FeatureRow(None, None, None)
    case Some(f) => FeatureRow(f.x, f.y, Some(f.duration))
  }

  /** The feature columns of each row, in order. */
  function FeatureTable(rows: seq<TrackingRecord>): seq<FeatureRow>
  {
    seq(|rows|, i requires 0 <= i < |rows| => Features(rows[i]))
  }

  /**
   * A record as the tracker builds it: well formed, and a flagged record
   * carries both centroid columns.
   */
  predicate Complete(r: TrackingRecord)
  {
    && WellFormed(r)
    && (r.fixation.Some? ==> r.fixation.value.x.Some? && r.fixation.value.y.Some?)
  }

  /** Some record carries fixation columns, so the data frame has them. */
  predicate HasFixationColumns(records: seq<TrackingRecord>)
  {
    exists i :: 0 <= i < |records| && records[i].fixation.Some?
  }

  /**
   * The aggregation as the stop handler performs it: nothing without
   * records; a failed column lookup when no record ever carried fixation
   * columns; otherwise the flagged rows with their three feature columns.
   */
  function AggregateAsWritten(records: seq<TrackingRecord>): Aggregate
  {
    if |records| == 0 then NoData
    else if !HasFixationColumns(records) then MissingColumn("fixation_duration")
    else Table(FeatureTable(FixationRows(records)))
  }

  /**
   * The aggregation with the no-fixation session reported as having no
   * data: a table is produced only when some frame was a fixation.
   */
  function AggregateFixations(records: seq<TrackingRecord>): Aggregate
  {
    var rows := FixationRows(records);
    if |rows| == 0 then NoData else Table(FeatureTable(rows))
  }

  // ---------------------------------------------------------------------
  // Lemmas

  /** Appending a record appends its row to the fixation rows exactly when it is flagged. */
  lemma FixationRowsAppend(records: seq<TrackingRecord>, r: TrackingRecord)
    ensures FixationRows(records + [r]) == FixationRows(records) + (if r.isFixation then [r] else [])
  {
    if records != [] {
      assert (records + [r])[1..] == records[1..] + [r];
      FixationRowsAppend(records[1..], r);
    } else {
      assert [r][1..] == [];
    }
  }

  /** A frame whose returned fixation has a centroid yields a complete record. */
  lemma RecordComplete(timestamp: real, left: Pixel, right: Pixel, fixation: Option<Fixation>)
    requires fixation.Some? ==> fixation.value.position.Some?
    ensures Complete(MakeRecord(timestamp, left, right, fixation))
  {
  }

  /**
   * The classifier row of a fixation frame carries exactly the detector's
   * fixation: its centroid and its duration.
   */
  lemma RecordFeatures(timestamp: real, left: Pixel, right: Pixel, f: Fixation)
    requires f.position.Some?
    ensures Features(MakeRecord(timestamp, left, right, Some(f)))
            == FeatureRow(Some(f.position.value.x), Some(f.position.value.y), Some(f.duration))
  {
  }

  /** The feature table of a concatenation is the concatenation of the tables. */
  lemma FeatureTableAppend(a: seq<TrackingRecord>, b: seq<TrackingRecord>)
    ensures FeatureTable(a + b) == FeatureTable(a) + FeatureTable(b)
  {
  }

  /**
   * Recording one more frame extends the table handed to the classifier by
   * that frame's features exactly when it is a fixation frame.
   */
  lemma {:induction false} TableGrowsInOrder(records: seq<TrackingRecord>, r: TrackingRecord)
    ensures FeatureTable(FixationRows(records + [r]))
            == FeatureTable(FixationRows(records)) + (if r.isFixation then [Features(r)] else [])
  {
    FixationRowsAppend(records, r);
    FeatureTableAppend(FixationRows(records), if r.isFixation then [r] else []);
  }

  /** No fixation rows exactly when no record is flagged. */
  lemma NoFixationRows(records: seq<TrackingRecord>)
    ensures |FixationRows(records)| == 0 <==> forall i :: 0 <= i < |records| ==> !records[i].isFixation
  {
  }

  /**
   * The corrected aggregation never fails: it yields a table exactly when a
   * frame was flagged, holding exactly the flagged rows' feature columns,
   * each with a duration.
   */
  lemma AggregateFixationsCorrect(records: seq<TrackingRecord>)
    requires forall i :: 0 <= i < |records| ==> WellFormed(records[i])
    ensures !AggregateFixations(records).MissingColumn?
    ensures AggregateFixations(records).Table? <==> exists i :: 0 <= i < |records| && records[i].isFixation
    ensures AggregateFixations(records).Table? ==>
      var rows := FixationRows(records);
      && |AggregateFixations(records).rows| == |rows|
      && forall k :: 0 <= k < |rows| ==>
           AggregateFixations(records).rows[k] == Features(rows[k])
           && AggregateFixations(records).rows[k].duration.Some?
  {
    NoFixationRows(records);
    var rows := FixationRows(records);
    forall k | 0 <= k < |rows| ensures rows[k].fixation.Some? {
      var i :| 0 <= i < |records| && records[i] == rows[k];
    }
  }

  /**
   * From complete records the corrected aggregation hands the classifier
   * rows in which every cell is present.
   */
  lemma CompleteTable(records: seq<TrackingRecord>)
    requires forall i :: 0 <= i < |records| ==> Complete(records[i])
    ensures AggregateFixations(records).Table? ==>
      forall k :: 0 <= k < |AggregateFixations(records).rows| ==>
        var row := AggregateFixations(records).rows[k];
        row.x.Some? && row.y.Some? && row.duration.Some?
  {
    var rows := FixationRows(records);
    forall k | 0 <= k < |rows|
      ensures Complete(rows[k])
    {
      var i :| 0 <= i < |records| && records[i] == rows[k];
    }
  }

  /**
   * Whenever some frame was a fixation, the aggregation as written and the
   * corrected one agree.
   */
  lemma AggregateAgrees(records: seq<TrackingRecord>)
    requires forall i :: 0 <= i < |records| ==> WellFormed(records[i])
    requires exists i :: 0 <= i < |records| && records[i].isFixation
    ensures AggregateAsWritten(records) == AggregateFixations(records)
  {
    NoFixationRows(records);
    var i :| 0 <= i < |records| && records[i].isFixation;
    assert records[i].fixation.Some?;
  }

  /**
   * As written, a session with records but no fixation frame fails on the
   * missing fixation column instead of reporting that there is no data.
   */
  lemma AsWrittenFailsWithoutFixations(records: seq<TrackingRecord>)
    requires |records| > 0
    requires forall i :: 0 <= i < |records| ==> WellFormed(records[i]) && !records[i].isFixation
    ensures AggregateAsWritten(records) == MissingColumn("fixation_duration")
    ensures AggregateFixations(records) == NoData
  {
    NoFixationRows(records);
  }

  /** A one-frame session where the gaze was never fixed: the column lookup fails. */
  lemma SingleFrameWithoutFixation()
    ensures AggregateAsWritten([MakeRecord(0.0, Pixel(10, 10), Pixel(30, 10), None)])
            == MissingColumn("fixation_duration")
  {
    var records := [MakeRecord(0.0, Pixel(10, 10), Pixel(30, 10), None)];
    assert !records[0].isFixation;
    AsWrittenFailsWithoutFixations(records);
  }
}
