/**
 The sidecar uploads of one manifest: jobs are claimed, retried and finished in any order, and each
 finished one looks over all the jobs to settle the manifest. Every complete run settles it the same
 way.
 */
module SidecarUploads {
  import opened Options

  datatype JobState = Queued | VerifyPending | RetryWait | Done | Failed

  /** `maxAttempts` is the column; zero stands for one. */
  datatype Job = Job(state: JobState, attempts: nat, maxAttempts: nat, nextRunAt: Option<int>, priority: int,
                     allowPassthrough: bool)

  datatype ManifestState = SidecarUploading | SidecarVerified | SidecarUploadFailed

  datatype PipelineState = UploadQueued | Uploading | Verified | PassthroughAllowed | ManualReview

  datatype World = World(jobs: seq<Job>, manifest: ManifestState, pipeline: PipelineState)

  /** What one attempt comes to: verified, sizes differ, copy failed, or the worker raised. */
  datatype Outcome = RemoteVerified | SizeMismatch | CopyFailed | Raised

  datatype Attempt = Attempt(job: nat, now: int, outcome: Outcome)

  predicate Terminal(j: Job) {
    j.state.Done? || j.state.Failed?
  }

  function MaxAttempts(j: Job): nat {
    if j.maxAttempts == 0 then 1 else j.maxAttempts
  }

  predicate Claimable(j: Job, now: int) {
    !Terminal(j) && (j.state.RetryWait? && j.nextRunAt.Some? ==> j.nextRunAt.value <= now)
  }

  /** The due job of lowest priority number, the oldest of those, is the one claimed. */
  predicate IsNext(jobs: seq<Job>, now: int, next: nat) {
    && next < |jobs| && Claimable(jobs[next], now)
    && forall i :: 0 <= i < |jobs| && Claimable(jobs[i], now) ==>
         jobs[next].priority < jobs[i].priority || (jobs[next].priority == jobs[i].priority && next <= i)
  }

  predicate Enabled(w: World, a: Attempt) {
    a.job < |w.jobs| && Claimable(w.jobs[a.job], a.now)
  }

  /** The delay before the next attempt: from the schedule, its last from then on, a minute without one. */
  function Delay(schedule: seq<nat>, attempt: nat): nat {
    if schedule == [] then 60
    else if attempt == 0 then schedule[0]
    else if attempt <= |schedule| then schedule[attempt - 1]
    else schedule[|schedule| - 1]
  }

  function AfterAttempt(j: Job, a: Attempt, schedule: seq<nat>): Job {
    var claimed := j.(attempts := j.attempts + 1);
    if a.outcome.RemoteVerified? then claimed.(state := Done)
    else if claimed.attempts >= MaxAttempts(j) then claimed.(state := Failed)
    else if a.outcome.SizeMismatch? then claimed.(state := VerifyPending)
    else claimed.(state := RetryWait, nextRunAt := Some(a.now + Delay(schedule, claimed.attempts)))
  }

  datatype ScanResult = FoundFailure | FoundPending | AllDone

  /** The scan stops at the first job that is not done. */
  function Scan(jobs: seq<Job>): ScanResult {
    if jobs == [] then AllDone
    else if jobs[0].state.Failed? then FoundFailure
    else if !jobs[0].state.Done? then FoundPending
    else Scan(jobs[1..])
  }

  /** Only a pipeline run that is still waiting for its sidecars moves. */
  function Advance(p: PipelineState, to: PipelineState): PipelineState {
    if p.UploadQueued? || p.Uploading? then to else p
  }

  function GiveUp(w: World, allow: bool): World {
    w.(manifest := SidecarUploadFailed,
       pipeline := Advance(w.pipeline, if allow then PassthroughAllowed else ManualReview))
  }

  function Settle(w: World, allow: bool): World {
    match Scan(w.jobs)
    case FoundFailure => GiveUp(w, allow)
    case FoundPending => w.(manifest := SidecarUploading, pipeline := Advance(w.pipeline, Uploading))
    case AllDone => w.(manifest := SidecarVerified, pipeline := Advance(w.pipeline, Verified))
  }

  function Step(w: World, a: Attempt, schedule: seq<nat>): World
    requires Enabled(w, a)
  {
    var j := AfterAttempt(w.jobs[a.job], a, schedule);
    var w' := w.(jobs := w.jobs[a.job := j]);
    if j.state.Done? then Settle(w', j.allowPassthrough)
    else if j.state.Failed? then GiveUp(w', j.allowPassthrough)
    else w'
  }

  // ---------------------------------------------------------------------------------------------
  // The invariant
  // ---------------------------------------------------------------------------------------------

  predicate AnyFailed(jobs: seq<Job>) {
    exists i :: 0 <= i < |jobs| && jobs[i].state.Failed?
  }

  predicate AllFinished(jobs: seq<Job>) {
    forall i :: 0 <= i < |jobs| ==> Terminal(jobs[i])
  }

  predicate EveryoneDone(jobs: seq<Job>) {
    forall i :: 0 <= i < |jobs| ==> jobs[i].state.Done?
  }

  lemma {:induction false} ScanMeans(jobs: seq<Job>)
    ensures Scan(jobs) == AllDone <==> EveryoneDone(jobs)
    ensures Scan(jobs) == FoundFailure ==> AnyFailed(jobs)
    ensures Scan(jobs) == FoundPending ==> !AllFinished(jobs)
  {
    if jobs != [] {
      ScanMeans(jobs[1..]);
      assert forall i :: 0 <= i < |jobs[1..]| ==> jobs[1..][i] == jobs[i + 1];
      if jobs[0].state.Done? {
        if AnyFailed(jobs[1..]) {
          var i :| 0 <= i < |jobs[1..]| && jobs[1..][i].state.Failed?;
          assert jobs[i + 1].state.Failed?;
        }
        assert EveryoneDone(jobs) ==> EveryoneDone(jobs[1..]);
        if EveryoneDone(jobs[1..]) {
          forall i | 0 <= i < |jobs| ensures jobs[i].state.Done? {
            assert i > 0 ==> jobs[1..][i - 1].state.Done?;
          }
        }
        if AllFinished(jobs) {
          forall i | 0 <= i < |jobs[1..]| ensures Terminal(jobs[1..][i]) {
            assert Terminal(jobs[i + 1]);
          }
        }
      }
    }
  }

  /**
   Nobody exceeds the attempts allowed. Without a failure the manifest is uploading until everyone is
   done and verified then; with one, the pipeline has been given up, and once everyone has finished
   the manifest is failed, whatever it was in between.
   */
  ghost predicate Inv(w: World) {
    w.jobs != [] && AttemptsLeft(w.jobs) && InStep(w)
  }

  predicate AttemptsLeft(jobs: seq<Job>) {
    && (forall i :: 0 <= i < |jobs| ==> jobs[i].attempts <= MaxAttempts(jobs[i]))
    && (forall i :: 0 <= i < |jobs| && !Terminal(jobs[i]) ==> jobs[i].attempts < MaxAttempts(jobs[i]))
  }

  ghost predicate InStep(w: World) {
    if AnyFailed(w.jobs) then
         && (exists i :: 0 <= i < |w.jobs| && GaveUp(w.jobs[i], w.pipeline))
         && !w.manifest.SidecarVerified?
         && (AllFinished(w.jobs) ==> w.manifest.SidecarUploadFailed?)
       else if EveryoneDone(w.jobs) then w.manifest.SidecarVerified? && w.pipeline.Verified?
       else w.manifest.SidecarUploading? && (w.pipeline.UploadQueued? || w.pipeline.Uploading?)
  }

  /** A failed job leaves the pipeline passed through or to be reviewed, as its payload allows. */
  predicate GaveUp(j: Job, p: PipelineState) {
    j.state.Failed? && p == if j.allowPassthrough then PassthroughAllowed else ManualReview
  }

  /** A manifest whose jobs have all been queued and none tried. */
  predicate Start(w: World) {
    && w.jobs != []
    && (forall i :: 0 <= i < |w.jobs| ==> w.jobs[i].state.Queued? && w.jobs[i].attempts == 0)
    && w.manifest.SidecarUploading? && w.pipeline.UploadQueued?
  }

  lemma StartInv(w: World)
    requires Start(w)
    ensures Inv(w)
  {
    assert w.jobs[0].state.Queued?;
  }

  lemma StepInv(w: World, a: Attempt, schedule: seq<nat>)
    requires Inv(w) && Enabled(w, a)
    ensures Inv(Step(w, a, schedule))
  {
    StepAttempts(w, a, schedule);
    StepInStep(w, a, schedule);
    hide Step, InStep, AttemptsLeft;
  }

  lemma StepAttempts(w: World, a: Attempt, schedule: seq<nat>)
    requires AttemptsLeft(w.jobs) && Enabled(w, a)
    ensures AttemptsLeft(Step(w, a, schedule).jobs) && |Step(w, a, schedule).jobs| == |w.jobs|
  {
    hide Scan;
  }

  lemma StepInStep(w: World, a: Attempt, schedule: seq<nat>)
    requires InStep(w) && Enabled(w, a)
    ensures InStep(Step(w, a, schedule))
  {
    hide Scan, Delay;
    var w' := Step(w, a, schedule);
    ScanMeans(w'.jobs);
    assert w'.jobs[a.job] == AfterAttempt(w.jobs[a.job], a, schedule);
    assert !Terminal(w.jobs[a.job]);
    if AnyFailed(w.jobs) {
      var i :| 0 <= i < |w.jobs| && GaveUp(w.jobs[i], w.pipeline);
      assert w'.jobs[i].state.Failed? && GaveUp(w'.jobs[i], w'.pipeline);
    } else if AnyFailed(w'.jobs) {
      OnlyThisFailed(w, a, schedule);
    }
  }

  lemma OnlyThisFailed(w: World, a: Attempt, schedule: seq<nat>)
    requires !AnyFailed(w.jobs) && Enabled(w, a) && AnyFailed(Step(w, a, schedule).jobs)
    ensures Step(w, a, schedule).jobs[a.job].state.Failed?
  {
    hide Scan, Delay;
    var w' := Step(w, a, schedule);
    assert forall k :: 0 <= k < |w.jobs| && k != a.job ==> w'.jobs[k] == w.jobs[k];
    var i :| 0 <= i < |w'.jobs| && w'.jobs[i].state.Failed?;
  }

  // ---------------------------------------------------------------------------------------------
  // Whole runs
  // ---------------------------------------------------------------------------------------------

  predicate Possible(w: World, run: seq<Attempt>, schedule: seq<nat>)
    decreases |run|
  {
    run == [] || (Enabled(w, run[0]) && Possible(Step(w, run[0], schedule), run[1..], schedule))
  }

  function After(w: World, run: seq<Attempt>, schedule: seq<nat>): World
    requires Possible(w, run, schedule)
    decreases |run|
  {
    if run == [] then w else After(Step(w, run[0], schedule), run[1..], schedule)
  }

  function Attempts(jobs: seq<Job>): nat {
    if jobs == [] then 0 else jobs[0].attempts + Attempts(jobs[1..])
  }

  function Allowance(jobs: seq<Job>): nat {
    if jobs == [] then 0 else MaxAttempts(jobs[0]) + Allowance(jobs[1..])
  }

  lemma {:induction false} OneMoreAttempt(jobs: seq<Job>, i: nat, j: Job)
    requires i < |jobs| && j.attempts == jobs[i].attempts + 1 && j.maxAttempts == jobs[i].maxAttempts
    ensures Attempts(jobs[i := j]) == Attempts(jobs) + 1
    ensures Allowance(jobs[i := j]) == Allowance(jobs)
  {
    if i > 0 {
      OneMoreAttempt(jobs[1..], i - 1, j);
      assert jobs[i := j][1..] == jobs[1..][i - 1 := j];
    } else {
      assert jobs[i := j][1..] == jobs[1..];
    }
  }

  lemma {:induction false} WithinAllowance(jobs: seq<Job>)
    requires forall i :: 0 <= i < |jobs| ==> jobs[i].attempts <= MaxAttempts(jobs[i])
    ensures Attempts(jobs) <= Allowance(jobs)
  {
    if jobs != [] {
      WithinAllowance(jobs[1..]);
    }
  }

  lemma {:induction false} RunInv(w: World, run: seq<Attempt>, schedule: seq<nat>)
    requires Inv(w) && Possible(w, run, schedule)
    ensures Inv(After(w, run, schedule))
    ensures Attempts(After(w, run, schedule).jobs) == Attempts(w.jobs) + |run|
    ensures Allowance(After(w, run, schedule).jobs) == Allowance(w.jobs)
    ensures |After(w, run, schedule).jobs| == |w.jobs|
    decreases |run|
  {
    if run != [] {
      hide Inv;
      StepInv(w, run[0], schedule);
      StepCounts(w, run[0], schedule);
      RunInv(Step(w, run[0], schedule), run[1..], schedule);
    }
  }

  lemma StepCounts(w: World, a: Attempt, schedule: seq<nat>)
    requires Enabled(w, a)
    ensures Attempts(Step(w, a, schedule).jobs) == Attempts(w.jobs) + 1
    ensures Allowance(Step(w, a, schedule).jobs) == Allowance(w.jobs)
    ensures |Step(w, a, schedule).jobs| == |w.jobs|
  {
    OneMoreAttempt(w.jobs, a.job, AfterAttempt(w.jobs[a.job], a, schedule));
  }

  lemma {:induction false} NoAttempts(jobs: seq<Job>)
    requires forall i :: 0 <= i < |jobs| ==> jobs[i].attempts == 0
    ensures Attempts(jobs) == 0
  {
    if jobs != [] {
      NoAttempts(jobs[1..]);
    }
  }

  /** How often one job is claimed in a run. */
  function Claims(run: seq<Attempt>, i: nat): nat {
    if run == [] then 0 else (if run[0].job == i then 1 else 0) + Claims(run[1..], i)
  }

  lemma StepJob(w: World, a: Attempt, schedule: seq<nat>, i: nat)
    requires Enabled(w, a) && i < |w.jobs|
    ensures i < |Step(w, a, schedule).jobs|
    ensures Step(w, a, schedule).jobs[i] == if a.job == i then AfterAttempt(w.jobs[i], a, schedule) else w.jobs[i]
  {
  }

  lemma {:induction false} ClaimsAreCounted(w: World, run: seq<Attempt>, schedule: seq<nat>, i: nat)
    requires Possible(w, run, schedule) && i < |w.jobs|
    ensures i < |After(w, run, schedule).jobs|
    ensures After(w, run, schedule).jobs[i].attempts == w.jobs[i].attempts + Claims(run, i)
    ensures MaxAttempts(After(w, run, schedule).jobs[i]) == MaxAttempts(w.jobs[i])
    decreases |run|
  {
    if run != [] {
      hide Settle, GiveUp, Scan, Advance;
      StepCounts(w, run[0], schedule);
      StepJob(w, run[0], schedule, i);
      hide Step;
      ClaimsAreCounted(Step(w, run[0], schedule), run[1..], schedule, i);
    }
  }

  /** No run from a fresh manifest claims a job more often than the job is allowed. */
  lemma ClaimsWithinMaximum(w: World, run: seq<Attempt>, schedule: seq<nat>, i: nat)
    requires Start(w) && Possible(w, run, schedule) && i < |w.jobs|
    ensures Claims(run, i) <= MaxAttempts(w.jobs[i])
  {
    StartInv(w);
    RunInv(w, run, schedule);
    ClaimsAreCounted(w, run, schedule, i);
  }

  /**
   Every run from a fresh manifest ends: it makes no more attempts than the jobs are allowed together,
   and as long as a job is unfinished some attempt is possible.
   */
  lemma EveryRunEnds(w: World, run: seq<Attempt>, schedule: seq<nat>, outcome: Outcome) returns (next: Attempt)
    requires Start(w) && Possible(w, run, schedule)
    ensures |run| <= Allowance(w.jobs)
    ensures !AllFinished(After(w, run, schedule).jobs) ==>
      Enabled(After(w, run, schedule), next) && next.outcome == outcome
  {
    StartInv(w);
    RunInv(w, run, schedule);
    NoAttempts(w.jobs);
    var end := After(w, run, schedule);
    WithinAllowance(end.jobs);
    next := Attempt(0, 0, outcome);
    if !AllFinished(end.jobs) {
      var i: nat :| i < |end.jobs| && !Terminal(end.jobs[i]);
      next := Attempt(i, if end.jobs[i].nextRunAt.Some? then end.jobs[i].nextRunAt.value else 0, outcome);
    }
  }

  /**
   However claims, retries and outcomes are interleaved, a run that finishes every job leaves the
   manifest verified if and only if every job is done, and failed otherwise; the pipeline is
   verified or given up accordingly.
   */
  lemma CompleteRunsSettle(w: World, run: seq<Attempt>, schedule: seq<nat>)
    requires Start(w) && Possible(w, run, schedule)
    requires AllFinished(After(w, run, schedule).jobs)
    ensures
      var end := After(w, run, schedule);
      && (end.manifest.SidecarVerified? <==> EveryoneDone(end.jobs))
      && (end.manifest.SidecarUploadFailed? <==> !EveryoneDone(end.jobs))
      && (end.pipeline.Verified? <==> EveryoneDone(end.jobs))
      && (!EveryoneDone(end.jobs) ==> exists i :: 0 <= i < |end.jobs| && GaveUp(end.jobs[i], end.pipeline))
  {
    StartInv(w);
    RunInv(w, run, schedule);
    var end := After(w, run, schedule);
    if !EveryoneDone(end.jobs) {
      var i :| 0 <= i < |end.jobs| && !end.jobs[i].state.Done?;
      assert Terminal(end.jobs[i]);
      assert AnyFailed(end.jobs);
    }
    assert EveryoneDone(end.jobs) ==> !AnyFailed(end.jobs);
  }

  lemma {:induction false} GivenUpForGood(w: World, run: seq<Attempt>, schedule: seq<nat>)
    requires Possible(w, run, schedule) && (w.pipeline.PassthroughAllowed? || w.pipeline.ManualReview?)
    ensures After(w, run, schedule).pipeline == w.pipeline
    decreases |run|
  {
    if run != [] {
      hide Scan;
      GivenUpForGood(Step(w, run[0], schedule), run[1..], schedule);
    }
  }

  /** The first job to fail for good decides for all of the run whether the pipeline may pass through. */
  lemma FirstFailureDecides(w: World, run: seq<Attempt>, schedule: seq<nat>)
    requires Inv(w) && !AnyFailed(w.jobs) && run != [] && Possible(w, run, schedule)
    requires AnyFailed(Step(w, run[0], schedule).jobs)
    ensures After(w, run, schedule).pipeline
         == if w.jobs[run[0].job].allowPassthrough then PassthroughAllowed else ManualReview
  {
    hide Scan;
    var next := Step(w, run[0], schedule);
    var i :| 0 <= i < |next.jobs| && next.jobs[i].state.Failed?;
    assert i == run[0].job;
    GivenUpForGood(next, run[1..], schedule);
  }

  /** Only its own attempts change a job. */
  lemma {:induction false} JobStays(w: World, run: seq<Attempt>, schedule: seq<nat>, job: nat)
    requires Possible(w, run, schedule) && job < |w.jobs| && forall i :: 0 <= i < |run| ==> run[i].job != job
    ensures job < |After(w, run, schedule).jobs| && After(w, run, schedule).jobs[job] == w.jobs[job]
    decreases |run|
  {
    if run != [] {
      hide AfterAttempt, Settle, GiveUp, Scan;
      StepJob(w, run[0], schedule, job);
      hide Step;
      JobStays(Step(w, run[0], schedule), run[1..], schedule, job);
    }
  }

  /**
   After a failed copy, or an attempt that raised, the job waits at least the schedule's entry for its
   failures so far, the last entry once they are used up, a minute without a schedule.
   */
  lemma RetryWaits(w: World, failed: Attempt, between: seq<Attempt>, again: Attempt, schedule: seq<nat>)
    requires Enabled(w, failed) && (failed.outcome.CopyFailed? || failed.outcome.Raised?)
    requires Possible(Step(w, failed, schedule), between, schedule)
    requires forall i :: 0 <= i < |between| ==> between[i].job != failed.job
    requires again.job == failed.job && Enabled(After(Step(w, failed, schedule), between, schedule), again)
    ensures
      var k := w.jobs[failed.job].attempts;
      again.now >= failed.now
        + if schedule == [] then 60 else if k < |schedule| then schedule[k] else schedule[|schedule| - 1]
  {
    hide After, Possible, Settle, GiveUp;
    StepJob(w, failed, schedule, failed.job);
    JobStays(Step(w, failed, schedule), between, schedule, failed.job);
  }

  /** A job without a maximum of its own is tried once. */
  lemma MaximumMeans(j: Job)
    ensures MaxAttempts(j) >= 1 && (j.maxAttempts > 0 ==> MaxAttempts(j) == j.maxAttempts)
    ensures j.maxAttempts == 0 ==> MaxAttempts(j) == 1
  {
  }

  function Fates(jobs: seq<Job>): seq<JobState> {
    seq(|jobs|, i requires 0 <= i < |jobs| => jobs[i].state)
  }

  /** Two complete runs in which every job meets the same fate settle the manifest the same way. */
  lemma Confluent(w: World, run1: seq<Attempt>, run2: seq<Attempt>, schedule: seq<nat>)
    requires Start(w) && Possible(w, run1, schedule) && Possible(w, run2, schedule)
    requires AllFinished(After(w, run1, schedule).jobs)
    requires Fates(After(w, run1, schedule).jobs) == Fates(After(w, run2, schedule).jobs)
    ensures After(w, run1, schedule).manifest == After(w, run2, schedule).manifest
  {
    var a, b := After(w, run1, schedule), After(w, run2, schedule);
    forall i | 0 <= i < |b.jobs| ensures a.jobs[i].state == b.jobs[i].state && Terminal(b.jobs[i]) {
      assert Fates(a.jobs)[i] == Fates(b.jobs)[i];
      assert Terminal(a.jobs[i]);
    }
    assert |a.jobs| == |Fates(a.jobs)| == |b.jobs|;
    CompleteRunsSettle(w, run1, schedule);
    CompleteRunsSettle(w, run2, schedule);
    assert EveryoneDone(a.jobs) <==> EveryoneDone(b.jobs);
  }

  /**
   In between, a failed manifest goes back to uploading when another job is verified: exactly when, in
   id order, an unfinished job comes before the first failed one.
   */
  lemma FailureIsForgottenIff(w: World, a: Attempt, schedule: seq<nat>, firstFailed: nat)
    requires Inv(w) && Enabled(w, a) && a.outcome.RemoteVerified? && a.job != firstFailed
    requires firstFailed < |w.jobs| && w.jobs[firstFailed].state.Failed?
    requires forall i :: 0 <= i < firstFailed ==> !w.jobs[i].state.Failed?
    ensures Step(w, a, schedule).manifest.SidecarUploading?
       <==> exists i :: 0 <= i < firstFailed && i != a.job && !Terminal(w.jobs[i])
  {
    var jobs := w.jobs[a.job := AfterAttempt(w.jobs[a.job], a, schedule)];
    ScanStopsBefore(jobs, firstFailed);
    if i :| 0 <= i < firstFailed && i != a.job && !Terminal(w.jobs[i]) {
      assert !jobs[i].state.Done?;
    }
    if i :| 0 <= i < firstFailed && !jobs[i].state.Done? {
      assert i != a.job && !Terminal(w.jobs[i]);
    }
  }

  /** The runs the runner makes: each attempt is at the job that is next. */
  predicate InTurn(w: World, run: seq<Attempt>, schedule: seq<nat>)
    requires Possible(w, run, schedule)
    decreases |run|
  {
    run == [] || (IsNext(w.jobs, run[0].now, run[0].job) && InTurn(Step(w, run[0], schedule), run[1..], schedule))
  }

  const FRESH :=
    World([Job(Queued, 0, 2, None, 0, true), Job(Queued, 0, 1, None, 0, true), Job(Queued, 0, 1, None, 0, true)],
          SidecarUploading, UploadQueued)

  /** The first job has to wait for a retry, the second fails for good, the third is verified. */
  const THREE_ATTEMPTS := [Attempt(0, 0, CopyFailed), Attempt(1, 0, CopyFailed), Attempt(2, 0, RemoteVerified)]

  /** A run of the runner on a fresh manifest in which the failed manifest is uploading again. */
  lemma FailureForgotten()
    ensures Start(FRESH) && Possible(FRESH, THREE_ATTEMPTS, []) && InTurn(FRESH, THREE_ATTEMPTS, [])
    ensures Possible(FRESH, THREE_ATTEMPTS[..2], [])
      && After(FRESH, THREE_ATTEMPTS[..2], []).manifest.SidecarUploadFailed?
    ensures
      var end := After(FRESH, THREE_ATTEMPTS, []);
      AnyFailed(end.jobs) && end.manifest.SidecarUploading?
  {
    var w1 := Step(FRESH, THREE_ATTEMPTS[0], []);
    var w2 := Step(w1, THREE_ATTEMPTS[1], []);
    var w3 := Step(w2, THREE_ATTEMPTS[2], []);
    assert w1.jobs[0] == Job(RetryWait, 1, 2, Some(60), 0, true);
    assert w2.jobs[1] == Job(Failed, 1, 1, None, 0, true) && w2.manifest.SidecarUploadFailed?;
    assert w3.jobs[0] == w1.jobs[0] && w3.jobs[1] == w2.jobs[1] && w3.manifest.SidecarUploading?;
    FirstOf(FRESH, THREE_ATTEMPTS, [], w1);
    FirstOf(w1, THREE_ATTEMPTS[1..], [], w2);
    FirstOf(w2, THREE_ATTEMPTS[2..], [], w3);
    FirstOf(FRESH, THREE_ATTEMPTS[..2], [], w1);
    FirstOf(w1, THREE_ATTEMPTS[..2][1..], [], w2);
  }

  /** A run taken apart at its first attempt. */
  lemma FirstOf(w: World, run: seq<Attempt>, schedule: seq<nat>, next: World)
    requires run != [] && Enabled(w, run[0]) && next == Step(w, run[0], schedule)
    ensures Possible(w, run, schedule) <==> Possible(next, run[1..], schedule)
    ensures Possible(w, run, schedule) ==>
      && After(w, run, schedule) == After(next, run[1..], schedule)
      && (InTurn(w, run, schedule) <==> IsNext(w.jobs, run[0].now, run[0].job) && InTurn(next, run[1..], schedule))
  {
  }

  lemma {:induction false} ScanStopsBefore(jobs: seq<Job>, firstFailed: nat)
    requires firstFailed < |jobs| && jobs[firstFailed].state.Failed?
    requires forall i :: 0 <= i < firstFailed ==> !jobs[i].state.Failed?
    ensures Scan(jobs)
      == if exists i :: 0 <= i < firstFailed && !jobs[i].state.Done? then FoundPending else FoundFailure
  {
    if firstFailed > 0 && jobs[0].state.Done? {
      ScanStopsBefore(jobs[1..], firstFailed - 1);
      if i :| 0 <= i < firstFailed && !jobs[i].state.Done? {
        assert !jobs[1..][i - 1].state.Done?;
      }
      if i :| 0 <= i < firstFailed - 1 && !jobs[1..][i].state.Done? {
        assert !jobs[i + 1].state.Done?;
      }
    }
  }

  // ---------------------------------------------------------------------------------------------
  // The runner
  // ---------------------------------------------------------------------------------------------

  class SidecarUploadRunner {
    const schedule: seq<nat>
    var jobs: seq<Job>
    var manifest: ManifestState
    var pipeline: PipelineState

    constructor (schedule: seq<nat>, jobs: seq<Job>)
      ensures this.schedule == schedule && State() == World(jobs, SidecarUploading, UploadQueued)
    {
      this.schedule := schedule;
      this.jobs := jobs;
      manifest, pipeline := SidecarUploading, UploadQueued;
    }

    ghost function State(): World
      reads this
    {
      World(jobs, manifest, pipeline)
    }

    method NextDue(now: int) returns (next: Option<nat>)
      ensures next.None? ==> forall i :: 0 <= i < |jobs| ==> !Claimable(jobs[i], now)
      ensures next.Some? ==> IsNext(jobs, now, next.value)
    {
      next := None;
      for i := 0 to |jobs|
        invariant next.None? ==> forall k :: 0 <= k < i ==> !Claimable(jobs[k], now)
        invariant next.Some? ==>
          && next.value < i && Claimable(jobs[next.value], now)
          && forall k :: 0 <= k < i && Claimable(jobs[k], now) ==>
               jobs[next.value].priority < jobs[k].priority
                 || (jobs[next.value].priority == jobs[k].priority && next.value <= k)
      {
        if Claimable(jobs[i], now) && (next.None? || jobs[i].priority < jobs[next.value].priority) {
          next := Some(i);
        }
      }
    }

    /** Look over the jobs until one that is not done turns up. */
    method ScanJobs() returns (pending: bool, terminalFailure: bool)
      ensures terminalFailure <==> Scan(jobs) == FoundFailure
      ensures pending <==> Scan(jobs) == FoundPending
    {
      pending, terminalFailure := false, false;
      var i := 0;
      while i < |jobs|
        invariant i <= |jobs| && Scan(jobs) == Scan(jobs[i..])
        invariant !pending && !terminalFailure
      {
        assert jobs[i..][1..] == jobs[i + 1..];
        if jobs[i].state.Failed? {
          terminalFailure := true;
          break;
        }
        if !jobs[i].state.Done? {
          pending := true;
          break;
        }
        i := i + 1;
      }
    }

    method MarkFailed(allow: bool)
      modifies this`manifest, this`pipeline
      ensures State() == GiveUp(old(State()), allow)
    {
      manifest := SidecarUploadFailed;
      if pipeline.UploadQueued? || pipeline.Uploading? {
        pipeline := if allow then PassthroughAllowed else ManualReview;
      }
    }

    /** One claim and what became of it, or nothing when no job is due. */
    method RunNext(now: int, outcome: Outcome) returns (claimed: Option<nat>)
      modifies this`jobs, this`manifest, this`pipeline
      ensures claimed.None? ==> State() == old(State()) && forall i :: 0 <= i < |jobs| ==> !Claimable(jobs[i], now)
      ensures claimed.Some? ==>
        && IsNext(old(jobs), now, claimed.value)
        && Enabled(old(State()), Attempt(claimed.value, now, outcome))
        && State() == Step(old(State()), Attempt(claimed.value, now, outcome), schedule)
    {
      claimed := NextDue(now);
      if claimed.None? {
        return;
      }
      var id := claimed.value;
      var job := jobs[id].(attempts := jobs[id].attempts + 1);
      var exhausted := job.attempts >= MaxAttempts(job);
      if outcome.RemoteVerified? {
        jobs := jobs[id := job.(state := Done)];
        var pending, terminalFailure := ScanJobs();
        if terminalFailure {
          MarkFailed(job.allowPassthrough);
        } else if pending {
          manifest := SidecarUploading;
          pipeline := Advance(pipeline, Uploading);
        } else {
          manifest := SidecarVerified;
          pipeline := Advance(pipeline, Verified);
        }
      } else if exhausted {
        jobs := jobs[id := job.(state := Failed)];
        MarkFailed(job.allowPassthrough);
      } else if outcome.SizeMismatch? {
        jobs := jobs[id := job.(state := VerifyPending)];
      } else {
        jobs := jobs[id := job.(state := RetryWait, nextRunAt := Some(now + Delay(schedule, job.attempts)))];
      }
    }
  }
}
