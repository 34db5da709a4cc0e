/**
 The concurrent backup-job protocol: request handlers admit jobs, one worker task
 per job runs it, one monitor task per worker repairs what the worker left behind.
 (engine/nasty-backup/src/jobs.rs and the start_* workers of
 engine/nasty-backup/src/lib.rs.)

 A step is one critical section: one lock acquisition on the job table, or one on
 the shared `running` marker.  The monitor's repair holds the table lock while it waits
 for the marker lock, so it is two steps with `repairing` set in between; every step
 that needs the table waits for `repairing` to be clear.  A worker may end at any point:
 by returning, by panicking, or by being cancelled.
 */
module JobProtocol {
  import opened Base
  import opened JobRegistry

  /** Where a worker task is.
      Spawned: before mark_running.  Working: marked Running.  Holding: a backup run that
      has set the marker.  Released: it has cleared the marker.  Reported: it has made its
      one terminal mark.  Ended: the worker is over.  Watched: its monitor is over too. */
  datatype Stage = Spawned | Working | Holding | Released | Reported | Ended | Watched

  // `held`: this worker set the marker and neither it nor its monitor has let go of it.
  datatype Worker = Worker(profile: string, kind: JobKind, stage: Stage, held: bool)

  // `setter` records which job last set the marker; the code has no such variable.
  datatype State = State(
    jobs: Jobs,
    running: Option<string>,
    setter: Option<string>,
    workers: map<string, Worker>,
    repairing: Option<string>)

  datatype Step =
    | Admit(id: string, profile: string, kind: JobKind, now: int)
    | Refuse(profile: string, now: int)
    | Sweep(now: int)
    | MarkRunning(id: string, now: int)
    | SetMarker(id: string)
    | ClearMarker(id: string)
    | Progress(id: string, fraction: real)
    | Succeed(id: string, result: string, now: int)
    | Fail(id: string, error: string, now: int)
    | End(id: string)
    | MonitorLeave(id: string)
    | MonitorLock(id: string)
    | MonitorRepair(id: string, now: int)

  ghost predicate Init(s: State) {
    s == State(map[], None, None, map[], None)
  }

  predicate At(s: State, id: string, stage: Stage) {
    id in s.workers && s.workers[id].stage == stage
  }

  function Moved(s: State, id: string, stage: Stage): State
    requires id in s.workers
  {
    s.(workers := s.workers[id := s.workers[id].(stage := stage)])
  }

  // A worker reports failure from wherever it is; success only after its work is over.
  predicate MayReport(s: State, id: string, success: bool) {
    id in s.workers &&
    match s.workers[id].stage
    case Working => success ==> !s.workers[id].kind.RunBackup?
    case Released => true
    case _ => false
  }

  predicate Enabled(s: State, step: Step) {
    match step
    case Admit(id, profile, _, _) => s.repairing.None? && id !in s.workers && !Busy(s.jobs, profile)
    case Refuse(profile, _) => s.repairing.None? && Busy(s.jobs, profile)
    case Sweep(_) => s.repairing.None?
    case MarkRunning(id, _) => s.repairing.None? && At(s, id, Spawned)
    case SetMarker(id) => At(s, id, Working) && s.workers[id].kind.RunBackup?
    case ClearMarker(id) => At(s, id, Holding)
    case Progress(id, _) => s.repairing.None? && At(s, id, Working) && s.workers[id].kind.Restore?
    case Succeed(id, _, _) => s.repairing.None? && MayReport(s, id, true)
    case Fail(id, _, _) => s.repairing.None? && MayReport(s, id, false)
    case End(id) => id in s.workers && !s.workers[id].stage.Ended? && !s.workers[id].stage.Watched?
    case MonitorLeave(id) => s.repairing.None? && At(s, id, Ended) && !Active(s.jobs, id)
    case MonitorLock(id) => s.repairing.None? && At(s, id, Ended) && Active(s.jobs, id)
    case MonitorRepair(id, _) => s.repairing == Some(id) && id in s.workers && id in s.jobs
  }

  function Apply(s: State, step: Step): State
    requires Enabled(s, step)
  {
    match step
    case Admit(id, profile, kind, now) =>
      s.(jobs := Collected(s.jobs, now)[id := NewJob(id, profile, kind, now)],
         workers := s.workers[id := Worker(profile, kind, Spawned, false)])
    case Refuse(_, now) => s.(jobs := Collected(s.jobs, now))
    case Sweep(now) => s.(jobs := Collected(s.jobs, now))
    case MarkRunning(id, now) => Moved(s, id, Working).(jobs := WithRunning(s.jobs, id, now))
    case SetMarker(id) =>
      s.(running := Some(s.workers[id].profile), setter := Some(id),
         workers := s.workers[id := s.workers[id].(stage := Holding, held := true)])
    case ClearMarker(id) =>
      s.(running := None, setter := None,
         workers := s.workers[id := s.workers[id].(stage := Released, held := false)])
    case Progress(id, fraction) => s.(jobs := WithProgress(s.jobs, id, fraction))
    case Succeed(id, result, now) => Moved(s, id, Reported).(jobs := WithSuccess(s.jobs, id, result, now))
    case Fail(id, error, now) => Moved(s, id, Reported).(jobs := WithFailure(s.jobs, id, error, now))
    case End(id) => Moved(s, id, Ended)
    case MonitorLeave(id) => Moved(s, id, Watched)
    case MonitorLock(id) => s.(repairing := Some(id))
    case MonitorRepair(id, now) =>
      var profile := s.jobs[id].profile;
      s.(jobs := WithFailure(s.jobs, id, UNEXPECTED_TASK_ERROR, now),
         running := Unmarked(s.running, profile),
         setter := if s.running == Some(profile) then None else s.setter,
         workers := s.workers[id := s.workers[id].(stage := Watched, held := false)],
         repairing := None)
  }

  // A run: every interleaving of handlers, workers, monitors and sweeps.
  ghost predicate Run(states: seq<State>, steps: seq<Step>) {
    && |states| == |steps| + 1
    && Init(states[0])
    && forall i | 0 <= i < |steps| :: Enabled(states[i], steps[i]) && states[i + 1] == Apply(states[i], steps[i])
  }

  // ------------------------------------------------------------------ invariant

  // What a job's fields say in each state.
  predicate WellShaped(job: Job) {
    match job.state
    case Pending => job.startedAt.None? && job.finishedAt.None? && job.result.None? && job.error.None?
    case Running => job.startedAt.Some? && job.finishedAt.None? && job.result.None? && job.error.None?
    case Succeeded => job.finishedAt.Some? && job.result.Some? && job.error.None?
    case Failed => job.finishedAt.Some? && job.result.None? && job.error.Some?
  }

  predicate Tracked(s: State, id: string)
    requires id in s.jobs
  {
    && id in s.workers
    && s.jobs[id].id == id
    && s.jobs[id].profile == s.workers[id].profile
    && s.jobs[id].kind == s.workers[id].kind
    && WellShaped(s.jobs[id])
  }

  // How far a worker has got, and what that says about its job.
  predicate InStep(s: State, id: string)
    requires id in s.workers
  {
    var w := s.workers[id];
    && (w.held ==> w.kind.RunBackup? && (w.stage.Holding? || w.stage.Ended?))
    && (w.held ==> Active(s.jobs, id))
    && match w.stage
       case Spawned => Active(s.jobs, id) && s.jobs[id].state.Pending?
       case Working => Active(s.jobs, id) && s.jobs[id].state.Running?
       case Holding => Active(s.jobs, id) && s.jobs[id].state.Running? && w.held
       case Released => Active(s.jobs, id) && s.jobs[id].state.Running?
       case Reported => !Active(s.jobs, id)
       case Ended => true
       case Watched => !Active(s.jobs, id)
  }

  // The marker names a profile only while the job that set it is in flight.
  predicate MarkerBacked(s: State) {
    match s.running
    case None => s.setter.None?
    case Some(profile) =>
      && s.setter.Some?
      && s.setter.value in s.workers
      && s.workers[s.setter.value].held
      && s.workers[s.setter.value].profile == profile
  }

  ghost predicate Inv(s: State) {
    && (forall id | id in s.jobs :: Tracked(s, id))
    && (forall id | id in s.workers :: InStep(s, id))
    && OneActivePerProfile(s.jobs)
    && MarkerBacked(s)
    && (s.repairing.Some? ==> At(s, s.repairing.value, Ended) && Active(s.jobs, s.repairing.value))
  }

  lemma SweepKeepsInv(s: State, now: int)
    requires Inv(s)
    ensures Inv(s.(jobs := Collected(s.jobs, now)))
  {
    var t := s.(jobs := Collected(s.jobs, now));
    assert forall id :: Active(t.jobs, id) <==> Active(s.jobs, id);
    forall id | id in t.jobs ensures Tracked(t, id) {
      assert Tracked(s, id);
    }
    forall id | id in t.workers ensures InStep(t, id) {
      assert InStep(s, id);
    }
  }

  lemma AdmitKeepsInv(s: State, step: Step)
    requires Inv(s) && step.Admit? && Enabled(s, step)
    ensures Inv(Apply(s, step))
  {
    var id := step.id;
    var swept := s.(jobs := Collected(s.jobs, step.now));
    var t := Apply(s, step);
    SweepKeepsInv(s, step.now);
    CollectKeepsBusy(s.jobs, step.profile, step.now);
    forall other | other in t.jobs ensures Tracked(t, other) {
      if other != id {
        assert Tracked(swept, other);
      }
    }
    forall other | other in t.workers ensures InStep(t, other) {
      if other != id {
        assert InStep(swept, other);
      }
    }
    forall a, b | Active(t.jobs, a) && Active(t.jobs, b) && t.jobs[a].profile == t.jobs[b].profile
      ensures a == b
    {
      if a != id && b != id {
        assert Active(swept.jobs, a) && Active(swept.jobs, b);
      } else if a != b {
        var other := if a == id then b else a;
        assert ActiveFor(swept.jobs, other, step.profile);
      }
    }
  }

  // Rewriting one job that was in flight, and moving its worker, keeps the invariant
  // when the pair still agrees.
  lemma RewriteKeepsInv(s: State, t: State, id: string)
    requires Inv(s) && Active(s.jobs, id)
    requires t.jobs.Keys == s.jobs.Keys && t.workers.Keys == s.workers.Keys
    requires forall other | other in s.jobs && other != id :: t.jobs[other] == s.jobs[other]
    requires forall other | other in s.workers && other != id :: t.workers[other] == s.workers[other]
    requires Tracked(t, id) && InStep(t, id)
    requires t.jobs[id].profile == s.jobs[id].profile
    requires MarkerBacked(t)
    requires t.repairing.None? || (t.repairing == s.repairing && t.repairing.value != id)
    ensures Inv(t)
  {
    forall other | other in t.jobs ensures Tracked(t, other) {
      assert Tracked(s, other);
    }
    forall other | other in t.workers ensures InStep(t, other) {
      assert InStep(s, other);
    }
    forall a, b | Active(t.jobs, a) && Active(t.jobs, b) && t.jobs[a].profile == t.jobs[b].profile
      ensures a == b
    {
      assert Active(s.jobs, a) && Active(s.jobs, b);
    }
  }

  lemma WorkerStepKeepsInv(s: State, step: Step)
    requires Inv(s) && Enabled(s, step)
    requires step.MarkRunning? || step.SetMarker? || step.ClearMarker? || step.Progress? || step.Succeed? || step.Fail?
    ensures Inv(Apply(s, step))
  {
    var id := step.id;
    assert InStep(s, id);
    assert Tracked(s, id);
    RewriteKeepsInv(s, Apply(s, step), id);
  }

  lemma EndKeepsInv(s: State, step: Step)
    requires Inv(s) && Enabled(s, step)
    requires step.End? || step.MonitorLeave? || step.MonitorLock?
    ensures Inv(Apply(s, step))
  {
    var t := Apply(s, step);
    forall other | other in t.jobs ensures Tracked(t, other) {
      assert Tracked(s, other);
    }
    forall other | other in t.workers ensures InStep(t, other) {
      assert InStep(s, other);
    }
  }

  // When the repair finds the marker naming its profile, the abandoned job itself set it.
  lemma RepairFindsOwnMarker(s: State, id: string)
    requires Inv(s) && Active(s.jobs, id)
    ensures s.running == Some(s.jobs[id].profile) ==> s.setter == Some(id)
  {
    if s.running == Some(s.jobs[id].profile) {
      var setter := s.setter.value;
      assert InStep(s, setter);
      assert Active(s.jobs, setter) && Tracked(s, setter);
      assert s.jobs[setter].profile == s.jobs[id].profile;
    }
  }

  lemma RepairKeepsInv(s: State, step: Step)
    requires Inv(s) && step.MonitorRepair? && Enabled(s, step)
    ensures Inv(Apply(s, step))
  {
    var id := step.id;
    assert InStep(s, id) && Tracked(s, id);
    RepairFindsOwnMarker(s, id);
    var t := Apply(s, step);
    assert MarkerBacked(t) by {
      if t.running.Some? {
        assert s.workers[s.setter.value].profile != s.jobs[id].profile;
      }
    }
    RewriteKeepsInv(s, t, id);
  }

  lemma StepKeepsInv(s: State, step: Step)
    requires Inv(s) && Enabled(s, step)
    ensures Inv(Apply(s, step))
  {
    match step
    case Admit(_, _, _, _) => AdmitKeepsInv(s, step);
    case Refuse(_, now) => SweepKeepsInv(s, now);
    case Sweep(now) => SweepKeepsInv(s, now);
    case MonitorRepair(_, _) => RepairKeepsInv(s, step);
    case End(_) => EndKeepsInv(s, step);
    case MonitorLeave(_) => EndKeepsInv(s, step);
    case MonitorLock(_) => EndKeepsInv(s, step);
    case _ => WorkerStepKeepsInv(s, step);
  }

  lemma {:induction false} RunKeepsInv(states: seq<State>, steps: seq<Step>, n: nat)
    requires Run(states, steps) && n <= |steps|
    ensures Inv(states[n])
  {
    if n > 0 {
      RunKeepsInv(states, steps, n - 1);
      assert Enabled(states[n - 1], steps[n - 1]);
      StepKeepsInv(states[n - 1], steps[n - 1]);
    }
  }

  // ------------------------------------------------------------------ results over whole runs

  /** In every interleaving, at every moment, a profile has at most one job in flight. */
  lemma OneJobInFlight(states: seq<State>, steps: seq<Step>, n: nat, a: string, b: string)
    requires Run(states, steps) && n <= |steps|
    requires Active(states[n].jobs, a) && Active(states[n].jobs, b) && a != b
    ensures states[n].jobs[a].profile != states[n].jobs[b].profile
  {
    RunKeepsInv(states, steps, n);
  }

  /** Whenever the marker names a profile, a backup job of that profile which set the
      marker is in flight. */
  lemma MarkerNamesJobInFlight(states: seq<State>, steps: seq<Step>, n: nat)
    requires Run(states, steps) && n <= |steps|
    requires states[n].running.Some?
    ensures states[n].setter.Some?
    ensures var id := states[n].setter.value;
            && ActiveFor(states[n].jobs, id, states[n].running.value)
            && states[n].jobs[id].kind.RunBackup?
  {
    RunKeepsInv(states, steps, n);
    var id := states[n].setter.value;
    assert InStep(states[n], id);
    assert Tracked(states[n], id);
  }

  /** A repair takes away only a marker its own job set: a marker another job set is
      still there, and still has that job as its setter, after the repair. */
  lemma RepairSparesOtherMarkers(states: seq<State>, steps: seq<Step>, n: nat)
    requires Run(states, steps) && n < |steps| && steps[n].MonitorRepair?
    ensures states[n].setter != Some(steps[n].id) ==>
              states[n + 1].running == states[n].running && states[n + 1].setter == states[n].setter
    ensures states[n].setter == Some(steps[n].id) ==> states[n + 1].running.None?
  {
    RunKeepsInv(states, steps, n);
    var s, id := states[n], steps[n].id;
    assert Enabled(s, steps[n]);
    RepairFindsOwnMarker(s, id);
    if s.setter == Some(id) {
      assert Tracked(s, id);
    }
  }

  /** Once a job's monitor is over, the job is terminal or swept, and a terminal job
      carries a result and no error, or an error and no result. */
  lemma WatchedJobIsSettled(states: seq<State>, steps: seq<Step>, n: nat, id: string)
    requires Run(states, steps) && n <= |steps|
    requires At(states[n], id, Watched)
    ensures id !in states[n].jobs || states[n].jobs[id].state.Terminal()
    ensures id in states[n].jobs && states[n].jobs[id].state.Succeeded? ==>
              states[n].jobs[id].result.Some? && states[n].jobs[id].error.None?
    ensures id in states[n].jobs && states[n].jobs[id].state.Failed? ==>
              states[n].jobs[id].result.None? && states[n].jobs[id].error.Some?
  {
    RunKeepsInv(states, steps, n);
    assert InStep(states[n], id);
    if id in states[n].jobs {
      assert Tracked(states[n], id);
    }
  }

  /** However a worker ended, its monitor can finish: from every reachable state with the
      table lock free, at most two monitor steps settle the job. */
  lemma MonitorCanSettle(states: seq<State>, steps: seq<Step>, n: nat, id: string, now: int)
    requires Run(states, steps) && n <= |steps|
    requires At(states[n], id, Ended) && states[n].repairing.None?
    ensures Active(states[n].jobs, id) ==>
              && Enabled(states[n], MonitorLock(id))
              && var locked := Apply(states[n], MonitorLock(id));
                 && Enabled(locked, MonitorRepair(id, now))
                 && At(Apply(locked, MonitorRepair(id, now)), id, Watched)
    ensures !Active(states[n].jobs, id) ==>
              Enabled(states[n], MonitorLeave(id)) && At(Apply(states[n], MonitorLeave(id)), id, Watched)
  {
    RunKeepsInv(states, steps, n);
    if Active(states[n].jobs, id) {
      assert Enabled(states[n], MonitorLock(id));
      var locked := Apply(states[n], MonitorLock(id));
      assert Enabled(locked, MonitorRepair(id, now));
    }
  }

  // One step never changes a terminal job, never drops a job in flight, and never
  // moves a job backwards.
  lemma StepRespectsJob(s: State, step: Step, id: string)
    requires Inv(s) && Enabled(s, step) && id in s.jobs
    ensures var t := Apply(s, step);
            && (s.jobs[id].state.Terminal() && id in t.jobs ==> t.jobs[id] == s.jobs[id])
            && (Active(s.jobs, id) ==> id in t.jobs)
            && (id in t.jobs ==> Rank(s.jobs[id].state) <= Rank(t.jobs[id].state))
            && id in t.workers
  {
    assert Tracked(s, id);
    if step.MarkRunning? || step.SetMarker? || step.ClearMarker? || step.Progress? || step.Succeed? || step.Fail? {
      assert InStep(s, step.id);
    }
  }

  function Rank(state: JobState): nat {
    match state
    case Pending => 0
    case Running => 1
    case _ => 2
  }

  // A swept job stays swept: its id is never admitted again.
  lemma {:induction false} SweptStaysSwept(states: seq<State>, steps: seq<Step>, i: nat, j: nat, id: string)
    requires Run(states, steps) && i <= j <= |steps|
    requires id in states[i].workers && id !in states[i].jobs
    ensures id in states[j].workers && id !in states[j].jobs
    decreases j
  {
    if i < j {
      SweptStaysSwept(states, steps, i, j - 1, id);
      assert Enabled(states[j - 1], steps[j - 1]);
    }
  }

  /** Over any stretch of a run: a terminal job is later identical or swept, a job in
      flight is never lost before it is terminal, and a job only ever moves forward
      through Pending, Running, terminal. */
  lemma {:induction false} TerminalIsFinal(states: seq<State>, steps: seq<Step>, i: nat, j: nat, id: string)
    requires Run(states, steps) && i <= j <= |steps|
    requires id in states[i].jobs
    ensures states[i].jobs[id].state.Terminal() && id in states[j].jobs ==> states[j].jobs[id] == states[i].jobs[id]
    ensures id in states[j].jobs ==> Rank(states[i].jobs[id].state) <= Rank(states[j].jobs[id].state)
    ensures id !in states[j].jobs ==>
              exists k | i <= k < j :: id in states[k].jobs && states[k].jobs[id].state.Terminal()
    decreases j
  {
    if i < j {
      TerminalIsFinal(states, steps, i, j - 1, id);
      if id in states[j - 1].jobs {
        LastStepRespectsJob(states, steps, j, id);
      } else {
        var k :| i <= k < j - 1 && id in states[k].jobs && states[k].jobs[id].state.Terminal();
        GoneStaysGone(states, steps, i, j, id);
      }
    }
  }

  lemma LastStepRespectsJob(states: seq<State>, steps: seq<Step>, j: nat, id: string)
    requires Run(states, steps) && 0 < j <= |steps| && id in states[j - 1].jobs
    ensures states[j - 1].jobs[id].state.Terminal() && id in states[j].jobs ==> states[j].jobs[id] == states[j - 1].jobs[id]
    ensures id in states[j].jobs ==> Rank(states[j - 1].jobs[id].state) <= Rank(states[j].jobs[id].state)
    ensures id !in states[j].jobs ==> states[j - 1].jobs[id].state.Terminal()
  {
    assert Enabled(states[j - 1], steps[j - 1]);
    RunKeepsInv(states, steps, j - 1);
    StepRespectsJob(states[j - 1], steps[j - 1], id);
  }

  lemma GoneStaysGone(states: seq<State>, steps: seq<Step>, i: nat, j: nat, id: string)
    requires Run(states, steps) && i < j <= |steps| && id in states[i].jobs && id !in states[j - 1].jobs
    ensures id !in states[j].jobs
  {
    RunKeepsInv(states, steps, i);
    assert Tracked(states[i], id);
    WorkersStay(states, steps, i, j - 1, id);
    SweptStaysSwept(states, steps, j - 1, j, id);
  }

  lemma {:induction false} WorkersStay(states: seq<State>, steps: seq<Step>, i: nat, j: nat, id: string)
    requires Run(states, steps) && i <= j <= |steps|
    requires id in states[i].workers
    ensures id in states[j].workers
    decreases j
  {
    if i < j {
      WorkersStay(states, steps, i, j - 1, id);
      assert Enabled(states[j - 1], steps[j - 1]);
    }
  }
}
