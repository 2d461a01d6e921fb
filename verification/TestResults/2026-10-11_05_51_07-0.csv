TestResult.DisplayName,TestResult.Outcome,TestResult.Duration,TestResult.ResourceCount,RandomSeed
Tracker.PupilTracker.DetectFixation (correctness),Passed,00:00:00.3378256,1470291,2
Tracker.PupilTracker.DetectFixation (well-formedness),Passed,00:00:00.0900099,105403,2
