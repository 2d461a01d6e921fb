TestResult.DisplayName,TestResult.Outcome,TestResult.Duration,TestResult.ResourceCount,RandomSeed
Tracker.PupilTracker.DetectFixation (correctness),Passed,00:00:00.5693312,2103234,1
Tracker.PupilTracker.DetectFixation (well-formedness),Passed,00:00:00.1171381,105279,1
