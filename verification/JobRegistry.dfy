/**
 The in-memory registry of long-running backup jobs (engine/nasty-backup/src/jobs.rs).
 Each registry operation runs under one write lock, so each is a method that maps
 the old job table to the new one.  The pure functions below are the specifications
 of those methods; the concurrent protocol in JobProtocol steps with the same functions.
 Times are integer instants; `RETENTION` is the one-hour retention window.
 */
module JobRegistry {
  import opened Base

  datatype JobKind = InitRepo | RunBackup | CheckRepo | Restore

  datatype JobState = Pending | Running | Succeeded | Failed {
    predicate Terminal() {
      Succeeded? || Failed?
    }
  }

  datatype Job = Job(
    id: string,
    profile: string,
    kind: JobKind,
    state: JobState,
    createdAt: int,
    startedAt: Option<int>,
    finishedAt: Option<int>,
    fraction: Option<real>,
    result: Option<string>,
    error: Option<string>)

  type Jobs = map<string, Job>

  datatype StartError = AlreadyRunning(profile: string, jobId: string)

  const RETENTION: int := 3600 * 1_000_000_000

  const UNEXPECTED_TASK_ERROR := "Backup operation stopped unexpectedly; retry the operation"

  function NewJob(id: string, profile: string, kind: JobKind, now: int): Job {
    Job(id, profile, kind, Pending, now, None, None, None, None, None)
  }

  predicate Kept(job: Job, now: int) {
    job.state.Terminal() && job.finishedAt.Some? ==> job.finishedAt.value > now - RETENTION
  }

  // What the sweep leaves.
  function Collected(jobs: Jobs, now: int): Jobs {
    map id | id in jobs && Kept(jobs[id], now) :: jobs[id]
  }

  predicate Active(jobs: Jobs, id: string) {
    id in jobs && !jobs[id].state.Terminal()
  }

  predicate ActiveFor(jobs: Jobs, id: string, profile: string) {
    Active(jobs, id) && jobs[id].profile == profile
  }

  predicate Busy(jobs: Jobs, profile: string) {
    exists id | id in jobs :: ActiveFor(jobs, id, profile)
  }

  // No profile has two jobs in flight.
  ghost predicate OneActivePerProfile(jobs: Jobs) {
    forall a, b | Active(jobs, a) && Active(jobs, b) && jobs[a].profile == jobs[b].profile :: a == b
  }

  function WithRunning(jobs: Jobs, id: string, now: int): Jobs {
    if id in jobs then jobs[id := jobs[id].(state := JobState.Running, startedAt := Some(now))] else jobs
  }

  function Clamp(x: real): real {
    if x < 0.0 then 0.0 else if x > 1.0 then 1.0 else x
  }

  function WithProgress(jobs: Jobs, id: string, fraction: real): Jobs {
    if id in jobs then jobs[id := jobs[id].(fraction := Some(Clamp(fraction)))] else jobs
  }

  function WithSuccess(jobs: Jobs, id: string, result: string, now: int): Jobs {
    if id in jobs
    then jobs[id := jobs[id].(state := JobState.Succeeded, finishedAt := Some(now), result := Some(result))]
    else jobs
  }

  function WithFailure(jobs: Jobs, id: string, error: string, now: int): Jobs {
    if id in jobs
    then jobs[id := jobs[id].(state := JobState.Failed, finishedAt := Some(now), error := Some(error))]
    else jobs
  }

  // The same jobs are there, and all but one are as they were.
  ghost predicate OthersUnchanged(before: Jobs, after: Jobs, id: string) {
    after.Keys == before.Keys && forall other | other in before && other != id :: after[other] == before[other]
  }

  // What the job is for does not change.
  predicate SameRequest(a: Job, b: Job) {
    a.id == b.id && a.profile == b.profile && a.kind == b.kind && a.createdAt == b.createdAt
  }

  predicate SameOutcome(a: Job, b: Job) {
    a.finishedAt == b.finishedAt && a.result == b.result && a.error == b.error
  }

  // The marker after the repair of an abandoned job of `profile`.
  function Unmarked(running: Option<string>, profile: string): Option<string> {
    if running == Some(profile) then None else running
  }

  // The shared `running` option: the profile the last backup to start belongs to.
  class RunningMarker {
    var profile: Option<string>

    constructor ()
      ensures profile == None
    {
      profile := None;
    }
  }

  class JobRegistry {
    var jobs: Jobs

    constructor ()
      ensures jobs == map[]
    {
      jobs := map[];
    }

    // Drop terminal jobs whose finish time is outside the retention window.
    method CollectGarbage(now: int)
      modifies this
      ensures jobs == Collected(old(jobs), now)
      ensures forall id | Active(old(jobs), id) :: id in jobs && jobs[id] == old(jobs)[id]
    {
      var pending := jobs.Keys;
      var kept: Jobs := map[];
      while pending != {}
        invariant pending <= old(jobs).Keys
        invariant jobs == old(jobs)
        invariant kept == map id | id in jobs && id !in pending && Kept(jobs[id], now) :: jobs[id]
        decreases |pending|
      {
        var id :| id in pending;
        if Kept(jobs[id], now) {
          kept := kept[id := jobs[id]];
        }
        pending := pending - {id};
      }
      jobs := kept;
    }

    // Admit a job unless the profile already has one in flight.  `id` is the fresh UUID.
    method Start(profile: string, kind: JobKind, id: string, now: int) returns (r: Result<Job, StartError>)
      requires id !in jobs
      modifies this
      ensures r.Ok? <==> !Busy(old(jobs), profile)
      ensures r.Ok? ==> r.value == NewJob(id, profile, kind, now) && jobs == Collected(old(jobs), now)[id := r.value]
      ensures r.Err? ==> jobs == Collected(old(jobs), now)
      ensures r.Err? ==> r.error.profile == profile && ActiveFor(old(jobs), r.error.jobId, profile)
    {
      CollectGarbage(now);
      CollectKeepsBusy(old(jobs), profile, now);
      var pending := jobs.Keys;
      while pending != {}
        invariant pending <= jobs.Keys
        invariant jobs == Collected(old(jobs), now)
        invariant forall other | other in jobs && other !in pending :: !ActiveFor(jobs, other, profile)
        decreases |pending|
      {
        var other :| other in pending;
        if jobs[other].profile == profile && !jobs[other].state.Terminal() {
          assert ActiveFor(jobs, other, profile);
          return Err(AlreadyRunning(profile, other));
        }
        pending := pending - {other};
      }
      var job := NewJob(id, profile, kind, now);
      jobs := jobs[id := job];
      r := Ok(job);
    }

    // Whatever state the job was in, it is Running from now on.
    method MarkRunning(id: string, now: int)
      modifies this
      ensures jobs == WithRunning(old(jobs), id, now)
      ensures OthersUnchanged(old(jobs), jobs, id)
      ensures id in jobs ==> Active(jobs, id) && jobs[id].startedAt == Some(now) && SameRequest(old(jobs)[id], jobs[id])
      ensures id in jobs ==> SameOutcome(old(jobs)[id], jobs[id])
    {
      if id in jobs {
        jobs := jobs[id := jobs[id].(state := JobState.Running, startedAt := Some(now))];
      }
    }

    method MarkProgress(id: string, fraction: real)
      modifies this
      ensures jobs == WithProgress(old(jobs), id, fraction)
      ensures id in jobs ==> jobs[id].fraction.Some? && 0.0 <= jobs[id].fraction.value <= 1.0
    {
      if id in jobs {
        jobs := jobs[id := jobs[id].(fraction := Some(Clamp(fraction)))];
      }
    }

    // The job is over; an error recorded earlier is not cleared.
    method MarkSucceeded(id: string, result: string, now: int)
      modifies this
      ensures jobs == WithSuccess(old(jobs), id, result, now)
      ensures OthersUnchanged(old(jobs), jobs, id) && !Active(jobs, id)
      ensures id in jobs ==> jobs[id].result == Some(result) && jobs[id].error == old(jobs)[id].error
      ensures id in jobs ==> Kept(jobs[id], now) && SameRequest(old(jobs)[id], jobs[id])
    {
      if id in jobs {
        var job := jobs[id];
        jobs := jobs[id := job.(state := JobState.Succeeded, finishedAt := Some(now), result := Some(result))];
      }
    }

    // The job is over; a result recorded earlier is not cleared.
    method MarkFailed(id: string, error: string, now: int)
      modifies this
      ensures jobs == WithFailure(old(jobs), id, error, now)
      ensures OthersUnchanged(old(jobs), jobs, id) && !Active(jobs, id)
      ensures id in jobs ==> jobs[id].error == Some(error) && jobs[id].result == old(jobs)[id].result
      ensures id in jobs ==> Kept(jobs[id], now) && SameRequest(old(jobs)[id], jobs[id])
    {
      if id in jobs {
        var job := jobs[id];
        jobs := jobs[id := job.(state := JobState.Failed, finishedAt := Some(now), error := Some(error))];
      }
    }

    // The monitor's repair: a job its worker left in flight becomes Failed, and the
    // shared marker is dropped when it names the job's profile.
    method RecoverAbandoned(id: string, marker: RunningMarker, now: int) returns (repaired: bool)
      modifies this, marker
      ensures repaired <==> Active(old(jobs), id)
      ensures repaired ==> jobs == WithFailure(old(jobs), id, UNEXPECTED_TASK_ERROR, now)
      ensures repaired ==> marker.profile == Unmarked(old(marker.profile), old(jobs)[id].profile)
      ensures !repaired ==> jobs == old(jobs) && marker.profile == old(marker.profile)
      ensures !Active(jobs, id)
    {
      if id !in jobs || jobs[id].state.Terminal() {
        return false;
      }
      var profile := jobs[id].profile;
      if marker.profile == Some(profile) {
        marker.profile := None;
      }
      var job := jobs[id];
      jobs := jobs[id := job.(state := JobState.Failed, finishedAt := Some(now), error := Some(UNEXPECTED_TASK_ERROR))];
      repaired := true;
    }
  }

  // The sweep never changes whether a profile is busy, so sweeping before admission
  // cannot admit a second job.
  lemma CollectKeepsBusy(jobs: Jobs, profile: string, now: int)
    ensures Busy(Collected(jobs, now), profile) <==> Busy(jobs, profile)
    ensures forall id :: ActiveFor(Collected(jobs, now), id, profile) <==> ActiveFor(jobs, id, profile)
  {
    var kept := Collected(jobs, now);
    forall id
      ensures ActiveFor(kept, id, profile) <==> ActiveFor(jobs, id, profile)
    {
    }
    if Busy(jobs, profile) {
      var id :| id in jobs && ActiveFor(jobs, id, profile);
      assert id in kept && ActiveFor(kept, id, profile);
    }
    if Busy(kept, profile) {
      var id :| id in kept && ActiveFor(kept, id, profile);
      assert id in jobs && ActiveFor(jobs, id, profile);
    }
  }

  // Marking a job Running overwrites its state unconditionally.  That keeps the
  // one-job rule exactly when the job is still in flight or its profile is idle.
  lemma RunningKeepsOneActiveIff(jobs: Jobs, id: string, now: int)
    requires OneActivePerProfile(jobs) && id in jobs
    ensures OneActivePerProfile(WithRunning(jobs, id, now)) <==> Active(jobs, id) || !Busy(jobs, jobs[id].profile)
  {
    var after := WithRunning(jobs, id, now);
    if !Active(jobs, id) && Busy(jobs, jobs[id].profile) {
      var other :| other in jobs && ActiveFor(jobs, other, jobs[id].profile);
      assert Active(after, id) && Active(after, other) && id != other;
    } else {
      forall a, b | Active(after, a) && Active(after, b) && after[a].profile == after[b].profile
        ensures a == b
      {
        if a != id && b != id {
          assert Active(jobs, a) && Active(jobs, b);
        } else if a != b {
          var other := if a == id then b else a;
          assert ActiveFor(jobs, other, jobs[id].profile);
        }
      }
    }
  }
}
