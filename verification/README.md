# Pupil tracking and fixation detection, modelled in Dafny

This project models the signal-processing core of a webcam reading-test
application. Each video frame goes through four steps:

1. A face-mesh detector yields facial landmarks.
2. The **pupil locator** reduces the four iris landmarks of each eye to one
   integer pixel centre.
3. The midpoint of the two centres is fed, with a timestamp, to the
   **fixation detector**. This is a state machine over three pieces of state:
   a bounded window of the 10 most recent samples, at most one open fixation,
   and a log of closed fixations.
4. Every frame becomes a **tracking record**. When a recording stops, the
   records flagged as fixations are projected to the classifier's
   `x`, `y`, `duration` table.

Modules (one `.dfy` file each):

- `Wrappers`: `Option` and `Result`.
- `PupilLocator`: the iris-centre reduction of `PupilTracker.detect_pupil`. Means are truncated toward zero, as a conversion to `int` does.
- `FixationDetector`: the window operations as functions over `seq`, the pivot spread and the time span, the window mean, the transition `Observe` of one `detect_fixation` call on a `Detector` value, the invariant `Inv` every reachable state keeps, and lemmas for each branch.
- `FixationRuns`: streams of samples (`Run`), the invariants kept along a whole stream, and a concrete open-then-close scenario.
- `Session`: the per-frame record, the fixation-row filter and the feature table, including the stop-time aggregation as written and corrected (see Findings).
- `Tracker`: the `PupilTracker` class. Its fields `positionsHistory`, `currentFixation`, `fixations` and `trackingData` are updated in place. `DetectFixation` is proved to produce exactly the state `Observe` describes and to keep `Inv`. `ProcessFrame` is the per-frame step of the recording loop. `StopRecording` aggregates the records with the corrected aggregation. The class invariant covers the records too: each is complete, meaning flagged exactly when it carries fixation columns, with both centroid columns present.

Positions and timestamps are `real`. The test `euclidean(a, b) < 20` is modelled as the equivalent squared test `dx*dx + dy*dy < 20*20`. The maximum of the distances is below 20 exactly when the maximum of the squared distances is below 400. Non-decreasing timestamps are a caller precondition (`Follows`, `Chronological`).

Two behaviours of the code deserve a note:

- A fixation's stored duration is the span of the current 10-sample window (DyslexiaWebsite.py:71, 81), not the time since the fixation began. Once the window has slid past the fixation's first sample, the stored duration is shorter. `FixationDetector.OpenDurationBound` states the relation: the duration never exceeds the time since the start, and the two agree while the window still begins at the start.
- A stop with records but no fixation frame raises `KeyError` (see Findings). The model's tracker uses the corrected aggregation, which reports that there is no data.

## Model

| member | source | states |
|---|---|---|
| `PupilLocator.TruncDiv` | DyslexiaWebsite.py:53-54 | the integer centre coordinate is the quotient rounded toward zero: for a non-negative sum, `d*q <= n < d*q + d`; for a negative sum, `d*q - d < n <= d*q` |
| `PupilLocator.IrisCentre` | DyslexiaWebsite.py:49-54 | each coordinate of an eye's centre is the per-axis mean of the iris points, truncated toward zero, bracketed as above by the number of points |
| `PupilLocator.DetectPupil` | DyslexiaWebsite.py:38-58 | no face gives `(None, None)`; a landmark set with more than 477 points gives both centres, each the iris centre of its four indices; a shorter set raises an index error; the two centres are present together or absent together |
| `PupilLocator.CentreWithinBox` | DyslexiaWebsite.py:49-54 | the truncated centre lies in every axis-aligned box that holds all the iris points |
| `PupilLocator.SquareCentre` | DyslexiaWebsite.py:44-54 | the pixels (50,50), (60,50), (50,60), (60,60) centre at (55,55) |
| `FixationDetector.Push` | DyslexiaWebsite.py:61 | after a push the window holds one more sample, capped at 10, and the new sample is last |
| `FixationDetector.PushKeepsRecent` | DyslexiaWebsite.py:31 | the samples kept before the new one are the most recent ones of the old window, in their order |
| `FixationDetector.PushBounded` | DyslexiaWebsite.py:31 | a window of at most 10 samples stays at most 10; a full window loses exactly its oldest sample; a non-full window just grows |
| `FixationDetector.PushKeepsOrder` | DyslexiaWebsite.py:60-61 | pushing a sample no older than the newest keeps the timestamps non-decreasing, and the oldest timestamp never moves back |
| `FixationDetector.MaxSquaredDistance` | DyslexiaWebsite.py:70 | the result is the maximum squared distance from the pivot: it bounds every sample's distance and equals one of them |
| `FixationDetector.StableIff` | DyslexiaWebsite.py:70-73 | a window is stable exactly when every sample is within 20 px of the window's FIRST sample and newest minus oldest timestamp is at least 30 ms |
| `FixationDetector.MeanPosition` | DyslexiaWebsite.py:77 | the mean position is present exactly when the window is non-empty |
| `FixationDetector.CentroidNearPivot` | DyslexiaWebsite.py:70-77 | the mean position of a window whose spread passes the test lies within 20 px of the first sample on each axis |
| `FixationDetector.InitialInv` | DyslexiaWebsite.py:31-33 | a fresh detector (empty window, nothing open, empty log) satisfies the invariant |
| `FixationDetector.ObserveSlidesWindow` | DyslexiaWebsite.py:61 | every call pushes its sample and no branch clears the window |
| `FixationDetector.ObserveTooFewSamples` | DyslexiaWebsite.py:61-64 | the first sample into an empty window (the only case that leaves fewer than 2 samples) becomes the whole window; the call returns `None` and leaves the open fixation and the log unchanged |
| `FixationDetector.ObserveOpens` | DyslexiaWebsite.py:73-79 | a stable window with nothing open opens a fixation that starts at the oldest window timestamp, is centred on the window mean (never `None`) and lasts the window span; that fixation is returned and the log is unchanged |
| `FixationDetector.ObserveExtends` | DyslexiaWebsite.py:80-81 | with a fixation open and the window stable, only the duration changes: start time and position stay, the duration becomes the new span, the log is unchanged |
| `FixationDetector.ObserveCloses` | DyslexiaWebsite.py:82-85 | with a fixation open and the window unstable, the log grows by exactly that fixation, the open slot empties, `None` is returned and the window is kept |
| `FixationDetector.ObserveIdle` | DyslexiaWebsite.py:82-85 | with nothing open and the window unstable, only the window changes |
| `FixationDetector.StablePreservesInv` | DyslexiaWebsite.py:73-81 | opening or extending a fixation keeps the invariant |
| `FixationDetector.ClosePreservesInv` | DyslexiaWebsite.py:82-85 | closing a fixation keeps the invariant: the logged entry has a position, lasted at least 30 ms and started no earlier than the entries before it |
| `FixationDetector.ObservePreservesInv` | DyslexiaWebsite.py:60-87 | each call keeps the invariant and returns exactly the open fixation. The invariant: window at most 10 samples in time order; a fixation open exactly when the window holds at least 2 samples and is stable; the open fixation has a position, lasts the window span and started no later than the window; closed fixations have positions, lasted at least 30 ms and are ordered by start |
| `FixationDetector.OpenDurationBound` | DyslexiaWebsite.py:71-81 | an open fixation lasts at least 30 ms; start plus duration never passes the newest timestamp, with equality while the window still begins at the start |
| `FixationRuns.RunPreservesInv` | DyslexiaWebsite.py:60-87 | any chronological stream of calls keeps the invariant, and the window ends with the last sample fed |
| `FixationRuns.StepKeepsInv` | DyslexiaWebsite.py:60-87 | one call keeps the invariant and leaves its sample newest in the window |
| `FixationRuns.FrozenWhileOpen` | DyslexiaWebsite.py:80-81 | as long as a fixation stays open through a stream, its start time and position stay as they were at opening and the log does not change |
| `FixationRuns.StepKeepsOpen` | DyslexiaWebsite.py:80-81 | a call that leaves a fixation open keeps its start, position and the log |
| `FixationRuns.ClosedLogAppendOnly` | DyslexiaWebsite.py:82-85 | the closed log only grows at its end, by at most one entry per call |
| `FixationRuns.WindowBounded` | DyslexiaWebsite.py:31 | after any stream the window holds the smaller of 10 and the number of samples ever fed |
| `FixationRuns.OpenThenClose` | DyslexiaWebsite.py:60-87 | samples (100,100)@0, (101,100)@5, (100,101)@10, (100,100)@40 open a fixation that starts at 0 with mean (100.25,100.25) and lasts 40; a fifth sample (500,500)@45 closes it, leaving exactly that fixation in the log and nothing open |
| `Session.GazePoint` | DyslexiaWebsite.py:191 | the observed gaze point is the midpoint of the two pupil centres |
| `Session.MakeRecord` | DyslexiaWebsite.py:197-210 | `is_fixation` is true exactly when the detector returned a fixation; the fixation columns are present exactly then and carry its duration and, when it has one, its position |
| `Session.FixationRows` | DyslexiaWebsite.py:152 | every kept row is flagged and comes from the records, and every flagged record is kept |
| `Session.FixationRowsAppend` | DyslexiaWebsite.py:152 | appending a record appends it to the fixation rows exactly when it is flagged, so the rows keep the recording order |
| `Session.NoFixationRows` | DyslexiaWebsite.py:152 | there are no fixation rows exactly when no record is flagged |
| `Session.RecordComplete` | DyslexiaWebsite.py:205-210 | a frame whose returned fixation has a centroid yields a complete record: flagged exactly when it has fixation columns, and then with both `fixation_x` and `fixation_y` present |
| `Session.RecordFeatures` | DyslexiaWebsite.py:154-158 | the classifier row of a fixation frame is exactly the detector's fixation: its centroid as `x`, `y` and its duration |
| `Session.FeatureTableAppend` | DyslexiaWebsite.py:154-158 | projecting to feature columns commutes with concatenation, so rows keep their order |
| `Session.TableGrowsInOrder` | DyslexiaWebsite.py:152-158 | recording one more frame extends the classifier's table by that frame's features exactly when it is a fixation frame, and leaves the earlier rows as they were |
| `Session.CompleteTable` | DyslexiaWebsite.py:152-158 | from complete records (as built at lines 205-209) every cell of the corrected table (`x`, `y`, `duration`) is present |
| `Session.AggregateAgrees` | DyslexiaWebsite.py:148-158 | when some frame was a fixation, the stop-time aggregation as written and the corrected one give the same table |
| `Session.AsWrittenFailsWithoutFixations` | DyslexiaWebsite.py:148-154 | as written, a recording with frames but no fixation frame raises on the missing `fixation_duration` column; the corrected aggregation reports no data |
| `Session.SingleFrameWithoutFixation` | DyslexiaWebsite.py:152-154 | a one-frame recording without a fixation makes the written aggregation raise |
| `Session.AggregateFixationsCorrect` | DyslexiaWebsite.py:148-158 | the corrected aggregation never raises; it yields a table exactly when some frame was flagged, and the table holds exactly the flagged rows' features, each with a duration |
| `Tracker.PupilTracker.constructor` | DyslexiaWebsite.py:28-36 | a new tracker has an empty window, nothing open, an empty log and no records, and satisfies the class invariant (detector invariant and complete records) |
| `Tracker.PupilTracker.DetectFixation` | DyslexiaWebsite.py:60-87 | the fields are updated in place to exactly the state `Observe` gives; the result is the open fixation; the class invariant is kept; the records are untouched |
| `Tracker.PupilTracker.StartRecording` | DyslexiaWebsite.py:132-134 | starting a recording empties the records, keeps the detector state and keeps the class invariant |
| `Tracker.PupilTracker.StopRecording` | DyslexiaWebsite.py:142-158 | stopping yields the corrected aggregation of the tracker's own records: it never fails on a missing column, is a table exactly when some frame was a fixation, has one row per fixation frame with that frame's features, and every cell is present |
| `Tracker.ProcessFrame` | DyslexiaWebsite.py:182-211 | a frame with both pupils observes their midpoint and appends exactly one record built from the result, which is complete because an open fixation always has a centroid (so the `None` branches of lines 208-209 never fire); a frame missing a pupil changes nothing and never feeds the detector |

## Left out

- Face-mesh construction and `process` (DyslexiaWebsite.py:16-22, 40): a foreign landmark detector. Its output for the first face is the input `Option<seq<Pixel>>` of `DetectPupil`.
- Denormalising landmarks from [0,1] to pixels and the per-landmark `astype(int)` (DyslexiaWebsite.py:44): floating point. The model starts from integer pixel points.
- `sqrt` inside `euclidean` and all floating-point rounding: positions and times are exact `real`s, and distances are compared squared.
- The colour conversion, circle drawing and display of frames, and the frame returned by `detect_pupil` (DyslexiaWebsite.py:39, 56, 58, 186-187, 214-220): rendering.
- Camera capture and release and the `try`/`except`/`finally` around the recording loop (DyslexiaWebsite.py:123, 175-179, 222-226): I/O and exception plumbing. The loop itself is not modelled; `ProcessFrame` is its body for a frame whose pupils were located.
- `time.time()` (DyslexiaWebsite.py:190): the timestamp is a parameter of `ProcessFrame`.
- The `recording` test at DyslexiaWebsite.py:196: it is always true inside the loop, which runs only while recording.
- Streamlit UI, session state, buttons, the sample text and result display (DyslexiaWebsite.py:90-145, 164-168).
- `DyslexiaDetector.predict` (DyslexiaWebsite.py:161): an opaque classifier. The model stops at the table it receives.
- CSV persistence (DyslexiaWebsite.py:170-173): I/O. Line 171 also reads `filename` before assigning it, so this path fails whenever it is reached.
- test_run.py: offline evaluation glue with file I/O.
- Tracker.PupilTracker.DetectFixation: the open fixation is a mutable dict in the source. It is the same object as the value returned and the value later logged. The model uses values. No aliasing is observable, because the dict is never changed after it is logged and records copy its fields.
- Session.Features: the model keeps only the three feature columns the classifier uses. The real table also keeps every other record column.

## Findings

| source | as written | input that shows it | evidently intended | confidence | as-written member | corrected member |
|---|---|---|---|---|---|---|
| DyslexiaWebsite.py:148-158 | when a recording has frames but no frame was a fixation, no record has the `fixation_duration` key, so the data frame lacks that column and `fixation_data['fixation_duration']` raises `KeyError` | one record `MakeRecord(0.0, Pixel(10,10), Pixel(30,10), None)`, then stop | skip classification when there is no fixation data, as the guard at line 148 already does for a recording with no records at all | high; not executed | `Session.AggregateAsWritten` (exhibited by `Session.SingleFrameWithoutFixation`, `Session.AsWrittenFailsWithoutFixations`) | `Session.AggregateFixations` (proved by `Session.AggregateFixationsCorrect`, `Session.AggregateAgrees`) |
