/**
 Moving the appdata directory to another file system (appdata_relocate,
 run_appdata_relocation, ensure_appdata_symlink, enable and disable in
 engine/nasty-apps/src/lib.rs), interleaved with enabling and disabling Apps, with the
 boot-time set-up of the /appdata link (restore), and with crashes.

 `lock` is the config_mutations mutex.  The data under a path is `Whole` or a `Partial`
 copy; a freshly created path is Whole.  External commands succeed or fail as the step says; a
 failed configuration write leaves the old file or an unparsable one.  Enabling holds the lock
 throughout and is one step; a crash inside it is the step that failed at that point followed
 by a crash.
 */
module AppdataRelocation {
  import opened Base

  type Path = string
  type App = string

  datatype Copy = Whole | Partial

  // The configuration file; Apps counts as enabled while the file exists.  `home` is the
  // appdata path on the file system of the recorded storage, where boot falls back to.
  datatype Config = Absent | Torn | Config(enabled: bool, appdata: Option<Path>, home: Option<Path>)

  datatype Holder = Preparer | Disabler | Relocator

  /** Where the detached relocation task is.  Reviving and ReviveLocked are the restart loop,
      entered on success and on failure alike; Closing is just before it clears `running`. */
  datatype Pc =
    | Leasing
    | Stopping(next: nat)
    | Creating
    | Copying
    | CheckingMount
    | WantSwitch
    | Switching
    | Unlinked
    | Linked
    | Reviving(next: nat)
    | ReviveLocked(next: nat)
    | Closing

  // `attempted`: apps given a start attempt.  `excused`: the configuration could not be
  // read in the restart loop.
  datatype Job = Job(
    current: Path, target: Path, affected: seq<(App, bool)>, stopped: seq<App>, attempted: set<App>, excused: bool, pc: Pc)

  /** The boot set-up of the link, working from what it read of the configuration: the recorded
      path, or without one the path on the storage's file system.  A recorded path has the form
      the engine writes, so setting it up gives that path again.  Wired: the link is made and the
      path is still to be recorded. */
  datatype Heal =
    | NoHeal
    | Loaded(path: Path, recorded: bool)
    | Present(path: Path, recorded: bool)
    | Removed(path: Path, recorded: bool)
    | Wired(path: Path)

  datatype State = State(
    config: Config,
    link: Option<Path>,
    data: map<Path, Copy>,
    running: bool,
    lock: Option<Holder>,
    disabling: bool,
    job: Option<Job>,
    heal: Heal)

  // How far enabling got with the appdata path: not created; old link kept; old link removed
  // and the new one not made; linked.  And with its configuration file.
  datatype SetUp = NotCreated | LinkKept | LinkDropped | LinkMade
  datatype Save = Saved | NotSaved | SavedTorn

  datatype Step =
    | Enable(path: Path, setUp: SetUp, save: Save)
    | Take(holder: Holder)
    | Release(holder: Holder)
    | Admit(current: Path, target: Path, affected: seq<(App, bool)>)
    | CheckDisable
    | RemoveConfig
    | Lease(ok: bool)
    | StopNext(ok: bool)
    | CreateTarget(ok: bool)
    | FinishCopy
    | FailCopy(deleted: bool)
    | CheckMount(ok: bool)
    | TakeSwitch
    | LoadSwitch(readable: bool)
    | DropLink(ok: bool)
    | MakeLink(ok: bool)
    | SaveConfig(ok: bool, torn: bool)
    | TakeRevive
    | Revive(readable: bool)
    | Close
    | HealLoad
    | HealCreate(ok: bool)
    | HealRemove
    | HealLink
    | HealSave(save: Save)
    | HealStop
    | Crash

  predicate At(s: State, pc: Pc) {
    s.job.Some? && s.job.value.pc == pc
  }

  predicate Readable(c: Config, readable: bool) {
    readable && !c.Torn?
  }

  predicate IsOn(c: Config) {
    c.Config? && c.enabled
  }

  predicate Enabled(s: State, step: Step) {
    match step
    case Enable(_, _, _) => s.lock.None? && s.config.Absent?
    case Take(h) => s.lock.None? && !h.Relocator?
    case Release(h) => s.lock == Some(h) && !h.Relocator?
    case Admit(current, target, _) =>
      && s.lock == Some(Preparer) && IsOn(s.config) && s.config.appdata == Some(current)
      && target !in s.data && !s.running
    case CheckDisable => s.lock == Some(Disabler) && !s.config.Absent? && !s.running
    case RemoveConfig => s.lock == Some(Disabler) && s.disabling
    case Lease(_) => At(s, Leasing)
    case StopNext(_) => s.job.Some? && s.job.value.pc.Stopping? && s.job.value.pc.next < |s.job.value.affected|
    case CreateTarget(_) => At(s, Creating)
    case FinishCopy => At(s, Copying)
    case FailCopy(_) => At(s, Copying)
    case CheckMount(_) => At(s, CheckingMount)
    case TakeSwitch => At(s, WantSwitch) && s.lock.None?
    case LoadSwitch(_) => At(s, Switching) && s.lock == Some(Relocator)
    case DropLink(_) => At(s, Unlinked) && s.link.Some?
    case MakeLink(ok) => At(s, Unlinked) && (ok ==> s.link.None?)
    case SaveConfig(_, _) => At(s, Linked) && s.config.Config?
    case TakeRevive => s.job.Some? && s.job.value.pc.Reviving? && s.job.value.pc.next < |s.job.value.stopped| && s.lock.None?
    case Revive(_) => s.job.Some? && s.job.value.pc.ReviveLocked? && s.job.value.pc.next < |s.job.value.stopped|
    case Close => s.job.Some? && s.job.value.pc.Closing?
    case HealLoad => s.heal.NoHeal? && s.config.Config? && (s.config.appdata.Some? || s.config.home.Some?)
    case HealCreate(_) => s.heal.Loaded?
    case HealRemove => s.heal.Present? && s.link.Some?
    case HealLink => (s.heal.Present? || s.heal.Removed?) && s.link.None?
    case HealSave(_) => s.heal.Wired? && s.lock.None?
    case HealStop => !s.heal.NoHeal?
    case Crash => true
  }

  function Go(s: State, pc: Pc): State
    requires s.job.Some?
  {
    s.(job := Some(s.job.value.(pc := pc)))
  }

  // Enter the restart loop, or skip it when there is nothing left to restart.
  function ReviveFrom(s: State, k: nat): State
    requires s.job.Some?
  {
    Go(s, if k < |s.job.value.stopped| then Reviving(k) else Closing)
  }

  function NextStop(s: State, k: nat): State
    requires s.job.Some?
  {
    Go(s, if k < |s.job.value.affected| then Stopping(k) else Creating)
  }

  // The link points at the path of the boot set-up, which records the path if it was not.
  function Healed(path: Path, recorded: bool): Heal {
    if recorded then NoHeal else Wired(path)
  }

  function Apply(s: State, step: Step): State
    requires Enabled(s, step)
  {
    match step
    case Enable(p, setUp, save) =>
      s.(data := if setUp.NotCreated? || p in s.data then s.data else s.data[p := Whole],
         link := if setUp.LinkMade? then Some(p) else if setUp.LinkDropped? then None else s.link,
         config := if save.Saved? then Config(true, if setUp.LinkMade? then Some(p) else None, Some(p))
                   else if save.SavedTorn? then Torn else Absent)
    case Take(h) => s.(lock := Some(h), disabling := false)
    case Release(_) => s.(lock := None, disabling := false)
    case Admit(current, target, affected) =>
      s.(running := true, lock := None, job := Some(Job(current, target, affected, [], {}, false, Leasing)))
    case CheckDisable => s.(disabling := true)
    case RemoveConfig => s.(config := Absent, disabling := false)
    case Lease(ok) => if ok then NextStop(s, 0) else ReviveFrom(s, 0)
    case StopNext(ok) =>
      var j := s.job.value;
      var (app, wasRunning) := j.affected[j.pc.next];
      if !wasRunning then NextStop(s, j.pc.next + 1)
      else if !ok then ReviveFrom(s, 0)
      else NextStop(s.(job := Some(j.(stopped := j.stopped + [app]))), j.pc.next + 1)
    case CreateTarget(ok) =>
      var t := s.job.value.target;
      if ok && t !in s.data then Go(s, Copying).(data := s.data[t := Partial]) else ReviveFrom(s, 0)
    case FinishCopy => Go(s, CheckingMount).(data := s.data[s.job.value.target := Whole])
    case FailCopy(deleted) =>
      ReviveFrom(s, 0).(data := if deleted then s.data - {s.job.value.target} else s.data)
    case CheckMount(ok) => if ok then Go(s, WantSwitch) else ReviveFrom(s, 0)
    case TakeSwitch => Go(s, Switching).(lock := Some(Relocator))
    case LoadSwitch(readable) =>
      if !Readable(s.config, readable) then ReviveFrom(s, 0).(lock := None)
      else if IsOn(s.config) then
        if s.link == Some(s.job.value.target) then Go(s, Linked) else Go(s, Unlinked)
      else Go(s, Closing).(lock := None)
    case DropLink(ok) => if ok then s.(link := None) else ReviveFrom(s, 0).(lock := None)
    case MakeLink(ok) =>
      if ok then Go(s, Linked).(link := Some(s.job.value.target)) else ReviveFrom(s, 0).(lock := None)
    case SaveConfig(ok, torn) =>
      ReviveFrom(s, 0).(
        lock := None,
        config := if ok then s.config.(appdata := Some(s.job.value.target)) else if torn then Torn else s.config)
    case TakeRevive => Go(s, ReviveLocked(s.job.value.pc.next)).(lock := Some(Relocator))
    case Revive(readable) =>
      var j := s.job.value;
      if !Readable(s.config, readable) then Go(s.(job := Some(j.(excused := true))), Closing).(lock := None)
      else if !IsOn(s.config) then Go(s, Closing).(lock := None)
      else ReviveFrom(s.(job := Some(j.(attempted := j.attempted + {j.stopped[j.pc.next]}))), j.pc.next + 1).(lock := None)
    case Close => s.(running := false, job := None)
    case HealLoad =>
      s.(heal := if s.config.appdata.Some? then Loaded(s.config.appdata.value, true) else Loaded(s.config.home.value, false))
    case HealCreate(ok) =>
      var p := s.heal.path;
      if p in s.data then s.(heal := Present(p, s.heal.recorded))
      else if ok then s.(data := s.data[p := Whole], heal := Present(p, s.heal.recorded))
      else s.(heal := NoHeal)
    case HealRemove =>
      if s.link == Some(s.heal.path) then s.(heal := Healed(s.heal.path, s.heal.recorded))
      else s.(link := None, heal := Removed(s.heal.path, s.heal.recorded))
    case HealLink => s.(link := Some(s.heal.path), heal := Healed(s.heal.path, s.heal.recorded))
    case HealSave(save) =>
      s.(heal := NoHeal,
         config := if !IsOn(s.config) || save.NotSaved? then s.config
                   else if save.Saved? then s.config.(appdata := Some(s.heal.path)) else Torn)
    case HealStop => s.(heal := NoHeal)
    case Crash => s.(running := false, lock := None, disabling := false, job := None, heal := NoHeal)
  }

  predicate Complete(s: State, p: Path) {
    p in s.data && s.data[p].Whole?
  }

  // Whatever is or will be linked is complete.
  predicate SoundLinks(s: State) {
    && (s.link.Some? ==> Complete(s, s.link.value))
    && (s.config.Config? && s.config.appdata.Some? ==> Complete(s, s.config.appdata.value))
    && (s.heal.Wired? || (!s.heal.NoHeal? && s.heal.recorded) ==> Complete(s, s.heal.path))
  }

  ghost predicate Init(s: State) {
    && !s.running && s.lock.None? && !s.disabling && s.job.None? && s.heal.NoHeal?
    && SoundLinks(s)
  }

  ghost predicate Run(states: seq<State>, steps: seq<Step>) {
    && |states| == |steps| + 1
    && Init(states[0])
    && forall i | 0 <= i < |steps| :: Enabled(states[i], steps[i]) && states[i + 1] == Apply(states[i], steps[i])
  }

  // ------------------------------------------------------------------ invariant

  // The stopped apps before position k have had their start attempt.
  predicate RevivedTo(j: Job, k: nat) {
    k <= |j.stopped| && forall i | 0 <= i < k :: j.stopped[i] in j.attempted
  }

  predicate JobOk(s: State)
    requires s.job.Some?
  {
    var j := s.job.value;
    && s.running
    && (j.excused ==> j.pc.Closing?)
    && (s.lock == Some(Relocator) <==> j.pc.Switching? || j.pc.Unlinked? || j.pc.Linked? || j.pc.ReviveLocked?)
    && match j.pc
       case Leasing => j.stopped == []
       case Stopping(_) => true
       case Creating => true
       case Copying => j.target in s.data && s.data[j.target].Partial?
       case CheckingMount => Complete(s, j.target)
       case WantSwitch => Complete(s, j.target)
       case Switching => Complete(s, j.target)
       case Unlinked => Complete(s, j.target) && s.config.Config?
       case Linked => Complete(s, j.target) && s.config.Config?
       case Reviving(k) => RevivedTo(j, k)
       case ReviveLocked(k) => RevivedTo(j, k)
       case Closing => j.excused || RevivedTo(j, |j.stopped|)
  }

  // What holds whatever paths are enabled.
  predicate Inv(s: State) {
    && (s.running ==> s.job.Some? && !s.config.Absent? && (s.config.Config? ==> s.config.enabled))
    && (s.disabling ==> s.lock == Some(Disabler) && !s.running)
    && (s.job.None? ==> s.lock != Some(Relocator))
    && (s.job.Some? ==> JobOk(s))
  }

  predicate StopStep(step: Step) {
    step.Lease? || step.StopNext?
  }

  predicate CopyStep(step: Step) {
    step.CreateTarget? || step.FinishCopy? || step.FailCopy? || step.CheckMount?
  }

  predicate SwitchStep(step: Step) {
    step.TakeSwitch? || step.LoadSwitch?
  }

  predicate FlipStep(step: Step) {
    step.DropLink? || step.MakeLink? || step.SaveConfig?
  }

  predicate ReviveStep(step: Step) {
    step.TakeRevive? || step.Revive? || step.Close?
  }

  lemma StopStepKeepsInv(s: State, step: Step)
    requires Inv(s) && Enabled(s, step) && StopStep(step)
    ensures Inv(Apply(s, step))
  {
  }

  lemma CopyStepKeepsInv(s: State, step: Step)
    requires Inv(s) && Enabled(s, step) && CopyStep(step)
    ensures Inv(Apply(s, step))
  {
  }

  lemma SwitchStepKeepsInv(s: State, step: Step)
    requires Inv(s) && Enabled(s, step) && SwitchStep(step)
    ensures Inv(Apply(s, step))
  {
  }

  lemma FlipStepKeepsInv(s: State, step: Step)
    requires Inv(s) && Enabled(s, step) && FlipStep(step)
    ensures Inv(Apply(s, step))
  {
  }

  lemma ReviveStepKeepsInv(s: State, step: Step)
    requires Inv(s) && Enabled(s, step) && ReviveStep(step)
    ensures Inv(Apply(s, step))
  {
  }

  lemma OtherStepKeepsInv(s: State, step: Step)
    requires Inv(s) && Enabled(s, step) && !StopStep(step) && !CopyStep(step) && !SwitchStep(step)
    requires !FlipStep(step) && !ReviveStep(step)
    ensures Inv(Apply(s, step))
  {
  }

  lemma {:induction false} RunKeepsInv(states: seq<State>, steps: seq<Step>, n: nat)
    requires Run(states, steps) && n <= |steps|
    ensures Inv(states[n])
  {
    if n > 0 {
      RunKeepsInv(states, steps, n - 1);
      var s, step := states[n - 1], steps[n - 1];
      assert Enabled(s, step);
      if StopStep(step) {
        StopStepKeepsInv(s, step);
      } else if CopyStep(step) {
        CopyStepKeepsInv(s, step);
      } else if SwitchStep(step) {
        SwitchStepKeepsInv(s, step);
      } else if FlipStep(step) {
        FlipStepKeepsInv(s, step);
      } else if ReviveStep(step) {
        ReviveStepKeepsInv(s, step);
      } else {
        OtherStepKeepsInv(s, step);
      }
    }
  }

  // ------------------------------------------------------------------ results over whole runs

  /** While a relocation is running Apps is enabled: the configuration file is there and,
      when it parses, says enabled.  So the branches for Apps disabled during relocation are
      never taken. */
  lemma EnabledWhileRunning(states: seq<State>, steps: seq<Step>, n: nat)
    requires Run(states, steps) && n <= |steps| && states[n].running
    ensures !states[n].config.Absent?
    ensures states[n].config.Config? ==> states[n].config.enabled
  {
    RunKeepsInv(states, steps, n);
  }

  lemma StepKeepsComplete(s: State, step: Step, p: Path)
    requires Inv(s) && Enabled(s, step) && Complete(s, p)
    ensures Complete(Apply(s, step), p)
  {
  }

  /** Complete data is never removed or overwritten: not the old copy of any relocation, not
      a finished one. */
  lemma {:induction false} CompleteDataStays(states: seq<State>, steps: seq<Step>, i: nat, j: nat, p: Path)
    requires Run(states, steps) && i <= j <= |steps| && Complete(states[i], p)
    ensures Complete(states[j], p)
    decreases j
  {
    if i < j {
      CompleteDataStays(states, steps, i, j - 1, p);
      RunKeepsInv(states, steps, j - 1);
      assert Enabled(states[j - 1], steps[j - 1]);
      StepKeepsComplete(states[j - 1], steps[j - 1], p);
    }
  }

  lemma ExcusedOnlyByUnreadableConfig(s: State, step: Step)
    requires Inv(s) && Enabled(s, step)
    requires Apply(s, step).job.Some? && Apply(s, step).job.value.excused
    ensures || (step.Revive? && !Readable(s.config, step.readable))
            || s.job == Apply(s, step).job
  {
  }

  // Step k met an unreadable configuration in the restart loop of the job there is at n.
  ghost predicate GaveUpAt(states: seq<State>, steps: seq<Step>, k: nat, n: nat)
    requires |states| == |steps| + 1 && n <= |steps|
  {
    && k < n && steps[k].Revive? && !Readable(states[k].config, steps[k].readable)
    && forall m | k < m <= n :: states[m].job == states[n].job
  }

  lemma {:induction false} ExcusedGaveUp(states: seq<State>, steps: seq<Step>, n: nat)
    requires Run(states, steps) && n <= |steps| && states[n].job.Some? && states[n].job.value.excused
    ensures exists k :: GaveUpAt(states, steps, k, n)
  {
    assert n > 0;
    RunKeepsInv(states, steps, n - 1);
    assert Enabled(states[n - 1], steps[n - 1]);
    ExcusedOnlyByUnreadableConfig(states[n - 1], steps[n - 1]);
    if states[n - 1].job == states[n].job {
      ExcusedGaveUp(states, steps, n - 1);
      var k :| GaveUpAt(states, steps, k, n - 1);
      assert GaveUpAt(states, steps, k, n);
    } else {
      assert GaveUpAt(states, steps, n - 1, n);
    }
  }

  /** When a relocation clears `running`, every app it stopped has had a start attempt, unless
      its restart loop met a configuration it could not read. */
  lemma StoppedAppsAreRevived(states: seq<State>, steps: seq<Step>, n: nat)
    requires Run(states, steps) && n < |steps| && steps[n].Close?
    ensures states[n].job.Some? && !states[n + 1].running
    ensures var j := states[n].job.value;
            || (forall i | 0 <= i < |j.stopped| :: j.stopped[i] in j.attempted)
            || exists k :: GaveUpAt(states, steps, k, n)
  {
    assert Enabled(states[n], steps[n]);
    RunKeepsInv(states, steps, n);
    if states[n].job.value.excused {
      ExcusedGaveUp(states, steps, n);
    }
  }

  // ------------------------------------------------------------------ what the link points at

  // The copy events of a path.
  predicate CopyStarts(s: State, step: Step, p: Path) {
    step == CreateTarget(true) && s.job.Some? && s.job.value.target == p && p !in s.data
  }

  predicate CopyEnds(s: State, step: Step, p: Path) {
    (step.FinishCopy? || step == FailCopy(true)) && s.job.Some? && s.job.value.target == p
  }

  ghost predicate NoEnd(states: seq<State>, steps: seq<Step>, from: nat, n: nat, p: Path)
    requires |states| == |steps| + 1 && n <= |steps|
  {
    forall m | from <= m < n :: !CopyEnds(states[m], steps[m], p)
  }

  // Step k started a copy to p that was neither finished nor deleted before position n.
  ghost predicate LeftBy(states: seq<State>, steps: seq<Step>, k: nat, n: nat, p: Path)
    requires |states| == |steps| + 1 && n <= |steps|
  {
    k < n && CopyStarts(states[k], steps[k], p) && NoEnd(states, steps, k + 1, n, p)
  }

  /** The last copy event of p before position n is a start: a copy that a crash or a failed
      deletion left unfinished, or one that was there from the beginning. */
  ghost predicate Unfinished(states: seq<State>, steps: seq<Step>, n: nat, p: Path)
    requires |states| == |steps| + 1 && n <= |steps|
  {
    || (exists k :: LeftBy(states, steps, k, n, p))
    || (p in states[0].data && states[0].data[p].Partial? && NoEnd(states, steps, 0, n, p))
  }

  predicate PartialAt(s: State, p: Path) {
    p in s.data && s.data[p].Partial?
  }

  lemma OnlyCopyChangesPartial(s: State, step: Step, p: Path)
    requires Enabled(s, step) && !CopyStep(step)
    ensures PartialAt(Apply(s, step), p) <==> PartialAt(s, p)
  {
  }

  lemma StepKeepsPartial(s: State, step: Step, p: Path)
    requires Inv(s) && Enabled(s, step)
    ensures PartialAt(Apply(s, step), p) <==> CopyStarts(s, step, p) || (PartialAt(s, p) && !CopyEnds(s, step, p))
    ensures CopyEnds(s, step, p) ==> !CopyStarts(s, step, p)
  {
    if !CopyStep(step) {
      OnlyCopyChangesPartial(s, step, p);
    }
  }

  lemma UnfinishedGrows(states: seq<State>, steps: seq<Step>, n: nat, p: Path)
    requires |states| == |steps| + 1 && n < |steps|
    requires CopyEnds(states[n], steps[n], p) ==> !CopyStarts(states[n], steps[n], p)
    ensures Unfinished(states, steps, n + 1, p) <==>
              CopyStarts(states[n], steps[n], p) || (Unfinished(states, steps, n, p) && !CopyEnds(states[n], steps[n], p))
  {
    if CopyStarts(states[n], steps[n], p) {
      assert LeftBy(states, steps, n, n + 1, p);
    }
    if Unfinished(states, steps, n, p) && !CopyEnds(states[n], steps[n], p) {
      if k :| LeftBy(states, steps, k, n, p) {
        assert LeftBy(states, steps, k, n + 1, p);
      }
    }
    var next := n + 1;
    if Unfinished(states, steps, next, p) && !CopyStarts(states[n], steps[n], p) {
      if k :| LeftBy(states, steps, k, next, p) {
        assert LeftBy(states, steps, k, n, p);
      }
    }
  }

  // A path holds a partial copy exactly when its last copy event is a start.
  lemma {:induction false} PartialIffUnfinished(states: seq<State>, steps: seq<Step>, n: nat, p: Path)
    requires Run(states, steps) && n <= |steps|
    ensures PartialAt(states[n], p) <==> Unfinished(states, steps, n, p)
  {
    if n > 0 {
      PartialIffUnfinished(states, steps, n - 1, p);
      RunKeepsInv(states, steps, n - 1);
      assert Enabled(states[n - 1], steps[n - 1]);
      StepKeepsPartial(states[n - 1], steps[n - 1], p);
      UnfinishedGrows(states, steps, n - 1, p);
    }
  }

  // ------------------------------------------------------------------ when the link stays complete

  // The step makes path p whole: an empty new one, or a finished copy.
  predicate MakesWhole(s: State, step: Step, p: Path) {
    || (step.FinishCopy? && s.job.Some? && s.job.value.target == p)
    || (step.Enable? && !step.setUp.NotCreated? && step.path == p && p !in s.data)
    || (step == HealCreate(true) && s.heal.Loaded? && s.heal.path == p && p !in s.data)
  }

  lemma StepMakesWhole(s: State, step: Step, p: Path)
    requires Inv(s) && Enabled(s, step)
    ensures Complete(Apply(s, step), p) <==> Complete(s, p) || MakesWhole(s, step, p)
  {
    if Complete(s, p) {
      StepKeepsComplete(s, step, p);
    }
  }

  // Path p was whole at the start, or some step before position n made it whole.
  ghost predicate MadeWhole(states: seq<State>, steps: seq<Step>, n: nat, p: Path)
    requires |states| == |steps| + 1 && n <= |steps|
  {
    Complete(states[0], p) || exists k | 0 <= k < n :: MakesWhole(states[k], steps[k], p)
  }

  lemma {:induction false} CompleteIffMadeWhole(states: seq<State>, steps: seq<Step>, n: nat, p: Path)
    requires Run(states, steps) && n <= |steps|
    ensures Complete(states[n], p) <==> MadeWhole(states, steps, n, p)
  {
    if n > 0 {
      CompleteIffMadeWhole(states, steps, n - 1, p);
      RunKeepsInv(states, steps, n - 1);
      assert Enabled(states[n - 1], steps[n - 1]);
      StepMakesWhole(states[n - 1], steps[n - 1], p);
      if MadeWhole(states, steps, n, p) && !Complete(states[0], p) {
        var k :| 0 <= k < n && MakesWhole(states[k], steps[k], p);
      }
    }
  }

  // The step makes the link to a path that no configuration records: enabling Apps, or the boot
  // set-up for a configuration without a path.
  predicate LinksAt(s: State, step: Step, p: Path) {
    || (step.Enable? && step.setUp.LinkMade? && step.path == p)
    || (step.HealLink? && (s.heal.Present? || s.heal.Removed?) && !s.heal.recorded && s.heal.path == p)
  }

  lemma NewLinkIsSoundIff(s: State, step: Step, p: Path)
    requires Inv(s) && SoundLinks(s) && Enabled(s, step) && LinksAt(s, step, p)
    ensures Apply(s, step).link == Some(p)
    ensures SoundLinks(Apply(s, step)) <==> Complete(Apply(s, step), p)
  {
    if step.Enable? {
      EnableKeepsOthers(s, step, p);
    }
  }

  lemma EnableKeepsOthers(s: State, step: Step, p: Path)
    requires SoundLinks(s) && Enabled(s, step) && step.Enable? && LinksAt(s, step, p)
    ensures SoundLinks(Apply(s, step)) <==> Complete(Apply(s, step), p)
  {
  }

  predicate BootStep(step: Step) {
    step.HealLoad? || step.HealCreate? || step.HealRemove? || step.HealLink? || step.HealSave? || step.HealStop?
  }

  lemma FlipKeepsLinks(s: State, step: Step)
    requires Inv(s) && SoundLinks(s) && Enabled(s, step) && FlipStep(step)
    ensures SoundLinks(Apply(s, step))
  {
  }

  lemma BootKeepsLinks(s: State, step: Step)
    requires SoundLinks(s) && Enabled(s, step) && BootStep(step)
    requires step.HealLink? ==> s.heal.recorded
    ensures SoundLinks(Apply(s, step))
  {
  }

  lemma EnableKeepsLinks(s: State, step: Step)
    requires SoundLinks(s) && Enabled(s, step) && step.Enable? && !step.setUp.LinkMade?
    ensures SoundLinks(Apply(s, step))
  {
  }

  lemma OtherStepKeepsLinks(s: State, step: Step)
    requires Inv(s) && SoundLinks(s) && Enabled(s, step) && !FlipStep(step) && !BootStep(step) && !step.Enable?
    ensures SoundLinks(Apply(s, step))
  {
  }

  lemma StepKeepsLinks(s: State, step: Step)
    requires Inv(s) && SoundLinks(s) && Enabled(s, step)
    requires forall p | LinksAt(s, step, p) :: Complete(Apply(s, step), p)
    ensures SoundLinks(Apply(s, step))
  {
    if p :| LinksAt(s, step, p) {
      NewLinkIsSoundIff(s, step, p);
    } else if step.Enable? {
      assert !LinksAt(s, step, step.path);
      EnableKeepsLinks(s, step);
    } else if BootStep(step) {
      assert step.HealLink? ==> !LinksAt(s, step, s.heal.path);
      BootKeepsLinks(s, step);
    } else if FlipStep(step) {
      FlipKeepsLinks(s, step);
    } else {
      OtherStepKeepsLinks(s, step);
    }
  }

  // Among the first n steps, whatever path gets linked without being recorded has been made whole.
  ghost predicate Careful(states: seq<State>, steps: seq<Step>, n: nat)
    requires |states| == |steps| + 1 && n <= |steps|
  {
    forall k, p | 0 <= k < n && LinksAt(states[k], steps[k], p) :: MadeWhole(states, steps, k + 1, p)
  }

  lemma {:induction false} CarefulKeepsLinks(states: seq<State>, steps: seq<Step>, n: nat)
    requires Run(states, steps) && n <= |steps| && Careful(states, steps, n)
    ensures SoundLinks(states[n])
  {
    if n > 0 {
      CarefulKeepsLinks(states, steps, n - 1);
      RunKeepsInv(states, steps, n - 1);
      var s, step := states[n - 1], steps[n - 1];
      assert Enabled(s, step);
      forall p | LinksAt(s, step, p)
        ensures Complete(Apply(s, step), p)
      {
        assert MadeWhole(states, steps, n - 1 + 1, p);
        CompleteIffMadeWhole(states, steps, n, p);
      }
      StepKeepsLinks(s, step);
    }
  }

  predicate LinkIsComplete(s: State) {
    s.link.Some? ==> Complete(s, s.link.value)
  }

  /** Over every run of relocating, enabling, disabling, booting and crashes, the /appdata link
      always points at complete data, never at a partial copy or at nothing, exactly when
      neither enabling nor a boot without a recorded path ever links a path that was not made
      whole before. */
  lemma LinkStaysCompleteIff(states: seq<State>, steps: seq<Step>)
    requires Run(states, steps)
    ensures (forall n | 0 <= n <= |steps| :: LinkIsComplete(states[n])) <==> Careful(states, steps, |steps|)
  {
    if Careful(states, steps, |steps|) {
      forall n | 0 <= n <= |steps|
        ensures LinkIsComplete(states[n])
      {
        CarefulKeepsLinks(states, steps, n);
      }
    } else {
      var k, p :| 0 <= k < |steps| && LinksAt(states[k], steps[k], p) && !MadeWhole(states, steps, k + 1, p);
      CompleteIffMadeWhole(states, steps, k + 1, p);
      assert Enabled(states[k], steps[k]);
      assert !LinkIsComplete(states[k + 1]);
    }
  }

  /** In terms of copies: what gets linked was not made whole exactly when its last copy event
      is an unfinished copy, or when the boot set-up saw such a copy and it was deleted since. */
  lemma WholeIffNotUnfinished(states: seq<State>, steps: seq<Step>, k: nat, p: Path)
    requires Run(states, steps) && k < |steps| && LinksAt(states[k], steps[k], p)
    ensures MadeWhole(states, steps, k + 1, p) <==>
              !Unfinished(states, steps, k, p) && (steps[k].HealLink? ==> p in states[k].data)
  {
    assert Enabled(states[k], steps[k]);
    CompleteIffMadeWhole(states, steps, k + 1, p);
    PartialIffUnfinished(states, steps, k, p);
  }

  // ------------------------------------------------------------------ how a partial copy gets linked

  /** From every settled state, a relocation whose copy does not finish leaves a partial copy:
      because of a crash, or because the copy fails and so does its deletion. */
  lemma CopyLeavesPartial(s: State, target: Path, crash: bool) returns (steps: seq<Step>, end: State)
    requires Init(s) && IsOn(s.config) && s.config.appdata.Some? && target !in s.data
    ensures Leads(s, steps, end) && end == s.(data := s.data[target := Partial])
    ensures (!crash ==> Crash !in steps) && forall step | step in steps :: !step.Enable?
  {
    var current := s.config.appdata.value;
    var s1 := s.(lock := Some(Preparer));
    var job := Job(current, target, [], [], {}, false, Leasing);
    var s2 := s.(running := true, job := Some(job));
    var s3 := s2.(job := Some(job.(pc := Creating)));
    var s4 := s2.(job := Some(job.(pc := Copying)), data := s.data[target := Partial]);
    end := s.(data := s.data[target := Partial]);
    steps := CopyStops(s4, end, crash);
    Before(s3, CreateTarget(true), s4, steps, end);
    steps := [CreateTarget(true)] + steps;
    Before(s2, Lease(true), s3, steps, end);
    steps := [Lease(true)] + steps;
    Before(s1, Admit(current, target, []), s2, steps, end);
    steps := [Admit(current, target, [])] + steps;
    Before(s, Take(Preparer), s1, steps, end);
    steps := [Take(Preparer)] + steps;
  }

  lemma CopyStops(s: State, end: State, crash: bool) returns (steps: seq<Step>)
    requires At(s, Copying) && s.job.value.stopped == [] && s.lock.None? && !s.disabling && s.heal.NoHeal?
    requires end == s.(running := false, job := None)
    ensures Leads(s, steps, end) && (!crash ==> Crash !in steps) && forall step | step in steps :: !step.Enable?
  {
    steps := [];
    if crash {
      Before(s, Crash, end, steps, end);
      steps := [Crash] + steps;
    } else {
      var closing := Go(s, Closing);
      Before(closing, Close, end, steps, end);
      steps := [Close] + steps;
      Before(s, FailCopy(false), closing, steps, end);
      steps := [FailCopy(false)] + steps;
    }
  }

  lemma Disables(s: State) returns (steps: seq<Step>)
    requires !s.running && s.lock.None? && !s.disabling && !s.config.Absent?
    ensures Leads(s, steps, s.(config := Absent)) && Crash !in steps && forall step | step in steps :: !step.Enable?
  {
    var s1 := s.(lock := Some(Disabler));
    var s2 := s1.(disabling := true);
    var s3 := s1.(config := Absent);
    var end := s.(config := Absent);
    steps := [];
    Before(s3, Release(Disabler), end, steps, end);
    steps := [Release(Disabler)] + steps;
    Before(s2, RemoveConfig, s3, steps, end);
    steps := [RemoveConfig] + steps;
    Before(s1, CheckDisable, s2, steps, end);
    steps := [CheckDisable] + steps;
    Before(s, Take(Disabler), s1, steps, end);
    steps := [Take(Disabler)] + steps;
  }

  // Disabling Apps and enabling it at another path.
  lemma Reenables(s: State, p: Path) returns (steps: seq<Step>, end: State)
    requires !s.running && s.lock.None? && !s.disabling && !s.config.Absent? && PartialAt(s, p)
    ensures Leads(s, steps, end) && end.link == Some(p) && PartialAt(end, p) && Crash !in steps
  {
    var off := s.(config := Absent);
    var first := Disables(s);
    end := off.(link := Some(p), config := Config(true, Some(p), Some(p)));
    Before(off, Enable(p, LinkMade, Saved), end, [], end);
    LeadsJoin(s, first, off, [Enable(p, LinkMade, Saved)] + [], end);
    steps := first + ([Enable(p, LinkMade, Saved)] + []);
  }

  /** So from every settled state there is a run that ends with the link on a partial copy,
      with a crash in mid-copy and also without any crash. */
  lemma EnableLinksPartial(s: State, target: Path, crash: bool) returns (steps: seq<Step>, end: State)
    requires Init(s) && IsOn(s.config) && s.config.appdata.Some? && target !in s.data
    ensures Leads(s, steps, end) && end.link == Some(target) && PartialAt(end, target)
    ensures !crash ==> Crash !in steps
  {
    var first, mid := CopyLeavesPartial(s, target, crash);
    var second, last := Reenables(mid, target);
    LeadsJoin(s, first, mid, second, last);
    steps, end := first + second, last;
  }

  // A boot that finds no recorded path and a partial copy where it looks.
  lemma BootLinks(s: State, p: Path) returns (steps: seq<Step>, end: State)
    requires s.config == Config(true, None, Some(p)) && s.link.None? && s.heal.NoHeal? && PartialAt(s, p)
    ensures Leads(s, steps, end) && end.link == Some(p) && PartialAt(end, p)
    ensures forall step | step in steps :: !step.Enable?
  {
    var s1 := s.(heal := Loaded(p, false));
    var s2 := s.(heal := Present(p, false));
    end := s.(link := Some(p), heal := Wired(p));
    Before(s2, HealLink, end, [], end);
    steps := [HealLink] + [];
    Before(s1, HealCreate(true), s2, steps, end);
    steps := [HealCreate(true)] + steps;
    Before(s, HealLoad, s1, steps, end);
    steps := [HealLoad] + steps;
  }

  // Disabling Apps, enabling it with the link removed and not made again, and restarting.
  lemma EnablesUnlinked(s: State, p: Path) returns (steps: seq<Step>)
    requires Init(s) && !s.config.Absent? && PartialAt(s, p)
    ensures Leads(s, steps, s.(config := Config(true, None, Some(p)), link := None))
    ensures forall step | step in steps :: step.Enable? ==> step.setUp.LinkDropped?
  {
    var off := s.(config := Absent);
    var end := s.(config := Config(true, None, Some(p)), link := None);
    var first := Disables(s);
    Before(end, Crash, end, [], end);
    Before(off, Enable(p, LinkDropped, Saved), end, [Crash] + [], end);
    LeadsJoin(s, first, off, [Enable(p, LinkDropped, Saved)] + ([Crash] + []), end);
    steps := first + ([Enable(p, LinkDropped, Saved)] + ([Crash] + []));
  }

  /** The same happens at boot, without any enabling that makes a link: a crash in mid-copy,
      Apps enabled on the target's file system with the symlink failing, and a restart. */
  lemma BootLinksPartial(s: State, target: Path) returns (steps: seq<Step>, end: State)
    requires Init(s) && IsOn(s.config) && s.config.appdata.Some? && target !in s.data
    ensures Leads(s, steps, end) && end.link == Some(target) && PartialAt(end, target)
    ensures forall step | step in steps :: step.Enable? ==> !step.setUp.LinkMade?
  {
    var first, mid := CopyLeavesPartial(s, target, true);
    var second := EnablesUnlinked(mid, target);
    var booted := mid.(config := Config(true, None, Some(target)), link := None);
    var third, last := BootLinks(booted, target);
    LeadsJoin(s, first, mid, second, booted);
    LeadsJoin(s, first + second, booted, third, last);
    steps, end := first + second + third, last;
  }

  lemma {:induction false} LeadsJoin(s: State, xs: seq<Step>, t: State, ys: seq<Step>, u: State)
    requires Leads(s, xs, t) && Leads(t, ys, u)
    ensures Leads(s, xs + ys, u)
    decreases |xs|
  {
    if xs == [] {
      assert xs + ys == ys;
    } else {
      LeadsJoin(Apply(s, xs[0]), xs[1..], t, ys, u);
      assert (xs + ys)[1..] == xs[1..] + ys;
    }
  }

  lemma Before(s: State, step: Step, next: State, steps: seq<Step>, t: State)
    requires Enabled(s, step) && Apply(s, step) == next && Leads(next, steps, t)
    ensures Leads(s, [step] + steps, t)
  {
    assert ([step] + steps)[1..] == steps;
  }

  ghost predicate Leads(s: State, steps: seq<Step>, t: State)
    decreases |steps|
  {
    if steps == [] then s == t else Enabled(s, steps[0]) && Leads(Apply(s, steps[0]), steps[1..], t)
  }
}
