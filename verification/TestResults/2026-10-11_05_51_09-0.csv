TestResult.DisplayName,TestResult.Outcome,TestResult.Duration,TestResult.ResourceCount,RandomSeed
Tracker.PupilTracker.DetectFixation (correctness),Passed,00:00:00.4304745,1586075,3
Tracker.PupilTracker.DetectFixation (well-formedness),Passed,00:00:00.1026864,105401,3
