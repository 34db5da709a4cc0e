/**
 The compose deployment transaction of one app (engine/nasty-apps/src/lib.rs,
 begin/finish/rollback/recover): a write-ahead marker protocol over the project
 directory and the app's sidecar manifest.

 The machine keeps two views of the disk: `vol`, what the running system sees, and
 `dur`, what would be found after losing power now.  File-system operations change `vol`;
 syncs and the kernel's own write-back carry changes to `dur`.  A crash can happen
 between any two steps and replaces `vol` by `dur`.  Three kinds of file system are
 covered:
   WriteThrough  every operation is durable at once (process crash, not power loss);
   Journaled     directory operations reach the disk in order, syncing a directory
                 forces everything before it, unsynced file data is torn arbitrarily;
   Unordered     every directory entry reaches the disk on its own schedule.

 Docker steps do not touch this state; their failure, like any failed operation and any
 dropped request, is the Abandon step.  Of the sidecar only the credential ids are
 tracked.  An unlink that fails in rollback is ignored there, and is the step
 RestoreFile(false); RollbackRestoresIff says what it does to the outcome.  Removing the
 project directory is taken to be one step; RemovalOrderIff in ComposeTransactionLimits says
 exactly what hangs on that.
 */
module ComposeTransaction {
  import opened Base

  type Content = seq<nat>

  datatype File = Compose | Env | Meta

  datatype Snapshot = Snapshot(compose: Option<Content>, env: Option<Content>, meta: Option<Content>, ids: seq<string>)

  const ABSENT := Snapshot(None, None, None, [])

  datatype Disk = Disk(
    dir: bool,
    compose: Option<Content>,
    env: Option<Content>,
    meta: Option<Content>,
    marker: Option<Snapshot>,
    ids: seq<string>)

  datatype Mode = WriteThrough | Journaled | Unordered

  function Saved(m: Snapshot, f: File): Option<Content> {
    match f
    case Compose => m.compose
    case Env => m.env
    case Meta => m.meta
  }

  function Get(d: Disk, f: File): Option<Content> {
    match f
    case Compose => d.compose
    case Env => d.env
    case Meta => d.meta
  }

  function Put(d: Disk, f: File, c: Option<Content>): Disk {
    match f
    case Compose => d.(compose := c)
    case Env => d.(env := c)
    case Meta => d.(meta := c)
  }

  function Deployed(d: Disk): Snapshot {
    Snapshot(d.compose, d.env, d.meta, d.ids)
  }

  // What recovery makes of a disk: the marker's snapshot when there is a marker,
  // otherwise the deployed files themselves.
  function Recoverable(d: Disk): Snapshot {
    if d.marker.Some? then d.marker.value else Deployed(d)
  }

  function Removed(d: Disk): Disk {
    Disk(false, None, None, None, None, d.ids)
  }

  // A directory whose own entry never reached the disk is gone with its contents.
  function Found(d: Disk): Disk {
    if d.dir then d else Removed(d)
  }

  /** Where the running operation is.
      Begun..Renamed: begin.  Open: between begin and finish, callers mutate.
      Restoring..Clearing: rollback.  Syncing..Unlinked: finish. */
  datatype Pc =
    | Idle
    | Begun(isNew: bool)
    | Noted(isNew: bool, snap: Snapshot)
    | Renamed(isNew: bool)
    | Open(isNew: bool, idsTouched: bool)
    | Restoring(file: File)
    | RestoringIds
    | RestoredIds
    | Restored
    | DroppedSidecar
    | DroppedDir
    | Syncing(file: File)
    | SyncingDir
    | SyncingParent
    | Unlinking
    | Unlinked

  /** `dirty`: files with data not yet synced.  `committed` is the last committed deployment,
      `previous` the one before; `lag` says that the marker of the last commit has been
      unlinked but the unlink not yet synced. */
  datatype State = State(
    vol: Disk,
    dur: Disk,
    dirty: set<File>,
    pc: Pc,
    committed: Snapshot,
    previous: Snapshot,
    lag: bool)

  datatype Step =
    | Begin(isNew: bool)
    | Note
    | Rename
    | SyncMarker
    | Write(file: File, content: Content)
    | Delete(file: File)
    | SetIds(ids: seq<string>)
    | SyncFiles
    | DropStage
    | StartRollback
    | TearRestore(partial: Content)
    | RestoreFile(ok: bool)
    | RestoreIds
    | SyncIds
    | DropSidecar
    | DropDir
    | SyncDrop
    | StartFinish
    | SyncFile
    | SyncDir
    | SyncParent
    | UnlinkMarker
    | SyncUnlink
    | SweepStaging
    | Abandon
    | FlushAll
    | FlushFile(file: File)
    | FlushMarker
    | FlushDir
    | FlushIds
    | Tear(file: File, junk: Option<Content>)
    | Crash

  function After(file: File): Pc {
    match file
    case Compose => Restoring(Env)
    case Env => Restoring(Meta)
    case Meta => RestoringIds
  }

  function AfterSync(file: File): Pc {
    match file
    case Compose => Syncing(Env)
    case Env => Syncing(Meta)
    case Meta => SyncingDir
  }

  predicate Enabled(mode: Mode, s: State, step: Step) {
    match step
    case Begin(isNew) =>
      && s.pc.Idle? && s.vol.marker.None?
      && (if isNew then !s.vol.dir && Deployed(s.vol) == ABSENT
          else s.vol.compose.Some? || Deployed(s.vol) == ABSENT)
    case Note => s.pc.Begun?
    case Rename => s.pc.Noted?
    case SyncMarker => s.pc.Renamed?
    case Write(_, _) => s.pc.Open?
    case Delete(_) => s.pc.Open?
    case SetIds(_) => s.pc.Open?
    case SyncFiles => s.pc.Open?
    case DropStage => (s.pc.Begun? || s.pc.Noted? || s.pc.Renamed? || (s.pc.Open? && !s.pc.idsTouched)) && s.pc.isNew
    case StartRollback => (s.pc.Idle? || s.pc.Open?) && s.vol.marker.Some?
    case TearRestore(_) => s.pc.Restoring? && s.vol.marker.Some? && Saved(s.vol.marker.value, s.pc.file).Some?
    case RestoreFile(ok) =>
      s.pc.Restoring? && s.vol.marker.Some? && (ok || Saved(s.vol.marker.value, s.pc.file).None?)
    case RestoreIds => s.pc.RestoringIds? && s.vol.marker.Some?
    case SyncIds => s.pc.RestoredIds?
    case DropSidecar => s.pc.Restored? && s.vol.compose.None?
    case DropDir => s.pc.DroppedSidecar?
    case SyncDrop => s.pc.DroppedDir?
    case StartFinish => (s.pc.Open? || s.pc.Restored?) && s.vol.compose.Some?
    case SyncFile => s.pc.Syncing?
    case SyncDir => s.pc.SyncingDir?
    case SyncParent => s.pc.SyncingParent?
    case UnlinkMarker => s.pc.Unlinking?
    case SyncUnlink => s.pc.Unlinked?
    case SweepStaging =>
      s.pc.Idle? && s.vol.dir && s.vol.marker.None? && s.vol.compose.None? && s.vol.env.None? && s.vol.meta.None?
    case Abandon => true
    case FlushAll => mode.Journaled?
    case FlushFile(f) => mode.Unordered? && f !in s.dirty
    case FlushMarker => mode.Unordered?
    case FlushDir => mode.Unordered?
    case FlushIds => mode.Unordered?
    case Tear(f, _) => f in s.dirty
    case Crash => true
  }

  // `dur` once everything but unsynced file data has been written back.
  function Flushed(s: State): Disk {
    s.vol.(compose := if Compose in s.dirty then s.dur.compose else s.vol.compose,
           env := if Env in s.dirty then s.dur.env else s.vol.env,
           meta := if Meta in s.dirty then s.dur.meta else s.vol.meta)
  }

  // Syncing the project directory.
  function DirSynced(mode: Mode, s: State): Disk {
    if mode.Unordered? then Flushed(s).(dir := s.dur.dir, ids := s.dur.ids) else Flushed(s)
  }

  // Syncing the directory that holds the project directory and the sidecar.
  function ParentSynced(mode: Mode, s: State): Disk {
    if mode.Unordered? then s.dur.(dir := s.vol.dir, ids := s.vol.ids) else Flushed(s)
  }

  function Drop(s: State): State {
    s.(vol := Removed(s.vol), dirty := {})
  }

  function Raw(mode: Mode, s: State, step: Step): State
    requires Enabled(mode, s, step)
  {
    match step
    case Begin(isNew) => s.(vol := s.vol.(dir := true), pc := Begun(isNew))
    case Note => s.(pc := Noted(s.pc.isNew, Deployed(s.vol)))
    case Rename => s.(vol := s.vol.(marker := Some(s.pc.snap)), pc := Renamed(s.pc.isNew))
    case SyncMarker => s.(dur := DirSynced(mode, s), pc := Open(s.pc.isNew, false), lag := false)
    case Write(f, c) => s.(vol := Put(s.vol, f, Some(c)), dirty := s.dirty + {f})
    case Delete(f) => s.(vol := Put(s.vol, f, None), dirty := s.dirty - {f})
    case SetIds(ids) => s.(vol := s.vol.(ids := ids), pc := s.pc.(idsTouched := true))
    case SyncFiles =>
      var clean := s.(dirty := {});
      var synced := clean.(dur := DirSynced(mode, clean));
      synced.(dur := ParentSynced(mode, synced))
    case DropStage => Drop(s).(pc := Idle)
    case StartRollback => s.(pc := Restoring(Compose))
    case TearRestore(partial) => s.(vol := Put(s.vol, s.pc.file, Some(partial)), dirty := s.dirty + {s.pc.file})
    case RestoreFile(ok) =>
      var saved := Saved(s.vol.marker.value, s.pc.file);
      if !ok then s.(pc := After(s.pc.file))
      else s.(vol := Put(s.vol, s.pc.file, saved),
         dirty := if saved.Some? then s.dirty + {s.pc.file} else s.dirty - {s.pc.file},
         pc := After(s.pc.file))
    case RestoreIds => s.(vol := s.vol.(ids := s.vol.marker.value.ids), pc := RestoredIds)
    case SyncIds => s.(dur := ParentSynced(mode, s), pc := Restored)
    case DropSidecar => s.(vol := s.vol.(ids := []), pc := DroppedSidecar)
    case DropDir => Drop(s).(pc := DroppedDir)
    case SyncDrop => s.(dur := ParentSynced(mode, s), pc := Idle, lag := false)
    case StartFinish => s.(pc := Syncing(Compose))
    case SyncFile => s.(dirty := s.dirty - {s.pc.file}, pc := AfterSync(s.pc.file))
    case SyncDir => s.(dur := DirSynced(mode, s), pc := SyncingParent)
    case SyncParent => s.(dur := ParentSynced(mode, s), pc := Unlinking)
    case UnlinkMarker =>
      s.(vol := s.vol.(marker := None), pc := Unlinked,
         committed := Deployed(s.vol), previous := s.committed, lag := true)
    case SyncUnlink => s.(dur := DirSynced(mode, s), pc := Idle, lag := false)
    case SweepStaging => s.(vol := s.vol.(dir := false))
    case Abandon => s.(pc := Idle)
    case FlushAll => s.(dur := Flushed(s))
    case FlushFile(f) => s.(dur := Put(s.dur, f, Get(s.vol, f)))
    case FlushMarker => s.(dur := s.dur.(marker := s.vol.marker))
    case FlushDir => s.(dur := s.dur.(dir := s.vol.dir))
    case FlushIds => s.(dur := s.dur.(ids := s.vol.ids))
    case Tear(f, junk) => s.(dur := Put(s.dur, f, junk))
    case Crash =>
      var d := Found(s.dur);
      State(d, d, {}, Idle, Recoverable(d), s.previous, false)
  }

  function Apply(mode: Mode, s: State, step: Step): State
    requires Enabled(mode, s, step)
  {
    var t := Raw(mode, s, step);
    if mode.WriteThrough? then t.(dur := t.vol, dirty := {}, lag := false) else t
  }

  ghost predicate Init(mode: Mode, s: State) {
    && s.vol == s.dur && s.vol.marker.None? && s.dirty == {} && s.pc.Idle? && !s.lag
    && s.committed == Deployed(s.vol) && s.previous == s.committed
    && (if s.vol.compose.Some? then s.vol.dir else s.vol == Disk(false, None, None, None, None, []))
    && (mode.Unordered? ==> s.vol.compose.Some?)
  }

  // The marker is on disk: a crash now would find it.
  predicate StoredMarker(s: State) {
    s.dur.dir && s.dur.marker == Some(s.committed)
  }

  /** The two conditions the guarantee rests on: a rollback of an existing app starts only
      under a marker that is on disk, and on an Unordered file system only existing apps are
      redeployed.  RollbackIsSafeIff and FreshInstallNeedsOrder in ComposeTransactionLimits
      show that neither can be dropped. */
  predicate Disciplined(mode: Mode, s: State, step: Step) {
    && (step.StartRollback? ==> StoredMarker(s) || s.committed == ABSENT)
    && (step.Begin? && mode.Unordered? ==> s.vol.compose.Some?)
  }

  ghost predicate Run(mode: Mode, states: seq<State>, steps: seq<Step>) {
    && |states| == |steps| + 1
    && Init(mode, states[0])
    && forall i | 0 <= i < |steps| ::
         && Enabled(mode, states[i], steps[i]) && Disciplined(mode, states[i], steps[i])
         && states[i + 1] == Apply(mode, states[i], steps[i])
  }

  // ------------------------------------------------------------------ invariant

  predicate Whole(m: Snapshot) {
    m.compose.None? ==> m == ABSENT
  }

  // A marker is in place and holds the committed deployment.
  predicate Marked(s: State) {
    s.vol.marker == Some(s.committed) && s.vol.dir
  }

  // A file the snapshot holds is back in place; one it lacks may have survived its unlink.
  predicate Rewritten(s: State, f: File) {
    Saved(s.committed, f).Some? ==> Get(s.vol, f) == Saved(s.committed, f)
  }

  predicate AllRewritten(s: State) {
    Rewritten(s, Compose) && Rewritten(s, Env) && Rewritten(s, Meta)
  }

  // What the running system's view satisfies at each point, in every mode.
  predicate VolInv(s: State) {
    && Whole(s.committed) && Whole(s.previous)
    && Recoverable(s.vol) == s.committed
    && (!s.vol.dir ==> s.vol == Removed(s.vol))
    && (s.lag ==> s.committed.compose.Some?)
    && match s.pc
       case Idle => true
       case Begun(isNew) => s.vol.marker.None? && s.vol.dir && (isNew ==> s.committed == ABSENT)
       case Noted(isNew, snap) =>
         s.vol.marker.None? && s.vol.dir && snap == s.committed && (isNew ==> s.committed == ABSENT)
       case Renamed(isNew) => Marked(s) && Deployed(s.vol) == s.committed && (isNew ==> s.committed == ABSENT)
       case Open(isNew, idsTouched) =>
         Marked(s) && (isNew ==> s.committed == ABSENT) && (!idsTouched ==> s.vol.ids == s.committed.ids)
       case Restoring(file) =>
         && Marked(s)
         && (!file.Compose? ==> Rewritten(s, Compose))
         && (file.Meta? ==> Rewritten(s, Env))
       case RestoringIds => Marked(s) && AllRewritten(s)
       case RestoredIds => Marked(s) && AllRewritten(s) && s.vol.ids == s.committed.ids
       case Restored => Marked(s) && AllRewritten(s) && s.vol.ids == s.committed.ids
       case DroppedSidecar => Marked(s) && s.committed == ABSENT && s.vol.ids == []
       case DroppedDir => s.vol == Removed(s.vol)
       case Syncing(_) => Marked(s) && s.vol.compose.Some?
       case SyncingDir => Marked(s) && s.vol.compose.Some?
       case SyncingParent => Marked(s) && s.vol.compose.Some?
       case Unlinking => Marked(s) && s.vol.compose.Some?
       case Unlinked => s.vol.marker.None? && s.vol.dir
  }

  predicate Rewriting(pc: Pc) {
    pc.Open? || pc.Restoring? || pc.RestoringIds? || pc.RestoredIds? || pc.Restored? || pc.DroppedSidecar? ||
    pc.Syncing? || pc.SyncingDir? || pc.SyncingParent? || pc.Unlinking?
  }

  // What is durable is what is committed, except that an unsynced unlink may come undone.
  predicate DurableOk(s: State) {
    var d := Found(s.dur);
    Recoverable(d) == s.committed || (s.lag && d.marker == Some(s.previous))
  }

  // The data-sync progress of finish.
  predicate SyncProgress(s: State) {
    && (s.pc == Syncing(Env) ==> Compose !in s.dirty)
    && (s.pc == Syncing(Meta) ==> Compose !in s.dirty && Env !in s.dirty)
    && (s.pc.SyncingDir? || s.pc.SyncingParent? || s.pc.Unlinking? ==> s.dirty == {})
  }

  predicate JournaledInv(s: State) {
    && DurableOk(s)
    && (s.dirty != {} ==> s.vol.marker.Some? && StoredMarker(s))
    && (Rewriting(s.pc) ==> StoredMarker(s) || (s.committed == ABSENT && !s.pc.Open?))
    && (s.vol.marker.Some? ==> StoredMarker(s) || Deployed(s.vol) == s.committed)
    && SyncProgress(s)
    && (s.pc.SyncingParent? || s.pc.Unlinking? ==> s.dur == s.vol)
  }

  // Every tracked file and the ids are durable as they stand.
  predicate Settled(s: State) {
    s.dirty == {} && Deployed(s.dur) == Deployed(s.vol)
  }

  predicate UnorderedInv(s: State) {
    && s.vol.dir && s.dur.dir && s.committed.compose.Some? && s.previous.compose.Some?
    && (s.vol.marker.None? ==> Settled(s) && (s.dur.marker.None? || (s.lag && s.dur.marker == Some(s.previous))))
    && (s.vol.marker.Some? ==>
          || StoredMarker(s)
          || (&& !Rewriting(s.pc) && Settled(s) && Deployed(s.vol) == s.committed
              && (s.dur.marker.None? || (s.lag && s.dur.marker == Some(s.previous)))))
    && SyncProgress(s)
    && (s.pc.SyncingParent? ==> Deployed(s.dur) == Deployed(s.vol).(ids := s.dur.ids))
    && (s.pc.Unlinking? ==> Settled(s))
  }

  predicate Inv(mode: Mode, s: State) {
    && VolInv(s)
    && match mode
       case WriteThrough => s.dur == s.vol && s.dirty == {} && !s.lag
       case Journaled => JournaledInv(s)
       case Unordered => UnorderedInv(s)
  }

  lemma InitInv(mode: Mode, s: State)
    requires Init(mode, s)
    ensures Inv(mode, s)
  {
  }

  lemma CrashKeepsInv(mode: Mode, s: State)
    requires Inv(mode, s)
    ensures Inv(mode, Apply(mode, s, Crash))
  {
  }

  predicate Beginning(step: Step) {
    step.Begin? || step.Note? || step.Rename? || step.SyncMarker? || step.DropStage? || step.SweepStaging?
  }

  predicate Mutating(step: Step) {
    step.Write? || step.Delete? || step.SetIds? || step.SyncFiles?
  }

  predicate Restores(step: Step) {
    step.StartRollback? || step.TearRestore? || step.RestoreFile? || step.RestoreIds? || step.SyncIds?
  }

  predicate Dropping(step: Step) {
    step.DropSidecar? || step.DropDir? || step.SyncDrop?
  }

  predicate Finishing(step: Step) {
    step.StartFinish? || step.SyncFile? || step.SyncDir? || step.SyncParent? || step.UnlinkMarker? || step.SyncUnlink?
  }

  predicate Background(step: Step) {
    step.Abandon? || step.FlushAll? || step.FlushFile? || step.FlushMarker? || step.FlushDir? || step.FlushIds? || step.Tear?
  }

  lemma BeginningKeepsVol(mode: Mode, s: State, step: Step)
    requires VolInv(s) && Enabled(mode, s, step) && Beginning(step)
    ensures VolInv(Apply(mode, s, step))
  {
  }

  lemma MutatingKeepsVol(mode: Mode, s: State, step: Step)
    requires VolInv(s) && Enabled(mode, s, step) && Mutating(step)
    ensures VolInv(Apply(mode, s, step))
  {
  }

  lemma RestoresKeepsVol(mode: Mode, s: State, step: Step)
    requires VolInv(s) && Enabled(mode, s, step) && Restores(step)
    ensures VolInv(Apply(mode, s, step))
  {
  }

  lemma DroppingKeepsVol(mode: Mode, s: State, step: Step)
    requires VolInv(s) && Enabled(mode, s, step) && Dropping(step)
    ensures VolInv(Apply(mode, s, step))
  {
  }

  lemma FinishingKeepsVol(mode: Mode, s: State, step: Step)
    requires VolInv(s) && Enabled(mode, s, step) && Finishing(step)
    ensures VolInv(Apply(mode, s, step))
  {
  }

  lemma BackgroundKeepsVol(mode: Mode, s: State, step: Step)
    requires VolInv(s) && Enabled(mode, s, step) && Background(step)
    ensures VolInv(Apply(mode, s, step))
  {
  }

  lemma BeginningKeepsJournaled(s: State, step: Step)
    requires Inv(Journaled, s) && Enabled(Journaled, s, step) && Disciplined(Journaled, s, step) && Beginning(step)
    ensures JournaledInv(Apply(Journaled, s, step))
  {
  }

  lemma MutatingKeepsJournaled(s: State, step: Step)
    requires Inv(Journaled, s) && Enabled(Journaled, s, step) && Disciplined(Journaled, s, step) && Mutating(step)
    ensures JournaledInv(Apply(Journaled, s, step))
  {
  }

  lemma RestoresKeepsJournaled(s: State, step: Step)
    requires Inv(Journaled, s) && Enabled(Journaled, s, step) && Disciplined(Journaled, s, step) && Restores(step)
    ensures JournaledInv(Apply(Journaled, s, step))
  {
  }

  lemma DroppingKeepsJournaled(s: State, step: Step)
    requires Inv(Journaled, s) && Enabled(Journaled, s, step) && Disciplined(Journaled, s, step) && Dropping(step)
    ensures JournaledInv(Apply(Journaled, s, step))
  {
  }

  lemma FinishingKeepsJournaled(s: State, step: Step)
    requires Inv(Journaled, s) && Enabled(Journaled, s, step) && Disciplined(Journaled, s, step) && Finishing(step)
    ensures JournaledInv(Apply(Journaled, s, step))
  {
    var t := Apply(Journaled, s, step);
    assert forall f :: f in t.dirty ==> f.Compose? || f.Env? || f.Meta?;
  }

  lemma TearKeepsJournaled(s: State, step: Step)
    requires Inv(Journaled, s) && Enabled(Journaled, s, step) && step.Tear?
    ensures JournaledInv(Apply(Journaled, s, step))
  {
  }

  lemma FlushKeepsJournaled(s: State)
    requires Inv(Journaled, s)
    ensures JournaledInv(Apply(Journaled, s, FlushAll))
  {
  }

  lemma BackgroundKeepsJournaled(s: State, step: Step)
    requires Inv(Journaled, s) && Enabled(Journaled, s, step) && Disciplined(Journaled, s, step) && Background(step)
    ensures JournaledInv(Apply(Journaled, s, step))
  {
    if step.Tear? {
      TearKeepsJournaled(s, step);
    } else if step.FlushAll? {
      FlushKeepsJournaled(s);
    }
  }

  lemma BeginningKeepsUnordered(s: State, step: Step)
    requires Inv(Unordered, s) && Enabled(Unordered, s, step) && Disciplined(Unordered, s, step) && Beginning(step)
    ensures UnorderedInv(Apply(Unordered, s, step))
  {
  }

  lemma MutatingKeepsUnordered(s: State, step: Step)
    requires Inv(Unordered, s) && Enabled(Unordered, s, step) && Disciplined(Unordered, s, step) && Mutating(step)
    ensures UnorderedInv(Apply(Unordered, s, step))
  {
  }

  lemma RestoresKeepsUnordered(s: State, step: Step)
    requires Inv(Unordered, s) && Enabled(Unordered, s, step) && Disciplined(Unordered, s, step) && Restores(step)
    ensures UnorderedInv(Apply(Unordered, s, step))
  {
  }

  // Only existing apps are redeployed there, so no project directory is ever removed.
  lemma NothingDropsUnordered(s: State, step: Step)
    requires Inv(Unordered, s) && Enabled(Unordered, s, step) && Disciplined(Unordered, s, step)
    ensures !Dropping(step)
  {
  }

  lemma FinishingKeepsUnordered(s: State, step: Step)
    requires Inv(Unordered, s) && Enabled(Unordered, s, step) && Disciplined(Unordered, s, step) && Finishing(step)
    ensures UnorderedInv(Apply(Unordered, s, step))
  {
    var t := Apply(Unordered, s, step);
    assert forall f :: f in t.dirty ==> f.Compose? || f.Env? || f.Meta?;
  }

  lemma BackgroundKeepsUnordered(s: State, step: Step)
    requires Inv(Unordered, s) && Enabled(Unordered, s, step) && Disciplined(Unordered, s, step) && Background(step)
    ensures UnorderedInv(Apply(Unordered, s, step))
  {
  }

  lemma StepKeepsVol(mode: Mode, s: State, step: Step)
    requires VolInv(s) && Enabled(mode, s, step) && !step.Crash?
    ensures VolInv(Apply(mode, s, step))
  {
    if Beginning(step) {
      BeginningKeepsVol(mode, s, step);
    } else if Mutating(step) {
      MutatingKeepsVol(mode, s, step);
    } else if Restores(step) {
      RestoresKeepsVol(mode, s, step);
    } else if Dropping(step) {
      DroppingKeepsVol(mode, s, step);
    } else if Finishing(step) {
      FinishingKeepsVol(mode, s, step);
    } else {
      BackgroundKeepsVol(mode, s, step);
    }
  }

  lemma StepKeepsJournaled(s: State, step: Step)
    requires Inv(Journaled, s) && Enabled(Journaled, s, step) && Disciplined(Journaled, s, step) && !step.Crash?
    ensures JournaledInv(Apply(Journaled, s, step))
  {
    if Beginning(step) {
      BeginningKeepsJournaled(s, step);
    } else if Mutating(step) {
      MutatingKeepsJournaled(s, step);
    } else if Restores(step) {
      RestoresKeepsJournaled(s, step);
    } else if Dropping(step) {
      DroppingKeepsJournaled(s, step);
    } else if Finishing(step) {
      FinishingKeepsJournaled(s, step);
    } else {
      BackgroundKeepsJournaled(s, step);
    }
  }

  lemma StepKeepsUnordered(s: State, step: Step)
    requires Inv(Unordered, s) && Enabled(Unordered, s, step) && Disciplined(Unordered, s, step) && !step.Crash?
    ensures UnorderedInv(Apply(Unordered, s, step))
  {
    if Beginning(step) {
      BeginningKeepsUnordered(s, step);
    } else if Mutating(step) {
      MutatingKeepsUnordered(s, step);
    } else if Restores(step) {
      RestoresKeepsUnordered(s, step);
    } else if Finishing(step) {
      FinishingKeepsUnordered(s, step);
    } else {
      NothingDropsUnordered(s, step);
      BackgroundKeepsUnordered(s, step);
    }
  }

  lemma StepKeepsInv(mode: Mode, s: State, step: Step)
    requires Inv(mode, s) && Enabled(mode, s, step) && Disciplined(mode, s, step)
    ensures Inv(mode, Apply(mode, s, step))
  {
    if step.Crash? {
      CrashKeepsInv(mode, s);
    } else {
      StepKeepsVol(mode, s, step);
      match mode
      case WriteThrough =>
      case Journaled => StepKeepsJournaled(s, step);
      case Unordered => StepKeepsUnordered(s, step);
    }
  }

  lemma {:induction false} RunKeepsInv(mode: Mode, states: seq<State>, steps: seq<Step>, n: nat)
    requires Run(mode, states, steps) && n <= |steps|
    ensures Inv(mode, states[n])
  {
    if n == 0 {
      InitInv(mode, states[0]);
    } else {
      RunKeepsInv(mode, states, steps, n - 1);
      assert Enabled(mode, states[n - 1], steps[n - 1]);
      StepKeepsInv(mode, states[n - 1], steps[n - 1]);
    }
  }

  // ------------------------------------------------------------------ results over whole runs

  /** At every moment of every run a present marker holds exactly the last committed
      deployment, and without a marker the deployed files are that deployment. */
  lemma MarkerHoldsCommitted(mode: Mode, states: seq<State>, steps: seq<Step>, n: nat)
    requires Run(mode, states, steps) && n <= |steps|
    ensures states[n].vol.marker.Some? ==> states[n].vol.marker.value == states[n].committed
    ensures states[n].vol.marker.None? ==> Deployed(states[n].vol) == states[n].committed
  {
    RunKeepsInv(mode, states, steps, n);
  }

  /** Losing power at any moment leaves the last committed deployment; only when the
      marker of a commit has been unlinked and not yet synced may it leave the one before. */
  lemma CrashIsAtomic(mode: Mode, states: seq<State>, steps: seq<Step>, n: nat)
    requires Run(mode, states, steps) && n < |steps| && steps[n].Crash?
    ensures || states[n + 1].committed == states[n].committed
            || (states[n].lag && states[n + 1].committed == states[n].previous)
    ensures states[n + 1].committed == Recoverable(states[n + 1].vol)
  {
    RunKeepsInv(mode, states, steps, n);
    assert Enabled(mode, states[n], steps[n]);
  }

  // With no unlink outstanding, what is durable is what is committed.
  lemma DurableIsCommitted(mode: Mode, s: State)
    requires Inv(mode, s) && !s.lag
    ensures Recoverable(Found(s.dur)) == s.committed
  {
  }

  lemma StaysCommitted(mode: Mode, s: State, step: Step)
    requires Inv(mode, s) && !s.lag && Enabled(mode, s, step) && !step.UnlinkMarker?
    ensures Apply(mode, s, step).committed == s.committed && !Apply(mode, s, step).lag
  {
    DurableIsCommitted(mode, s);
  }

  /** Once finish has returned, the commit survives: after any further steps that do not
      reach another commit, any number of crashes included, it is still the committed
      deployment and a crash would find it. */
  lemma {:induction false} FinishIsDurable(mode: Mode, states: seq<State>, steps: seq<Step>, n: nat, m: nat)
    requires Run(mode, states, steps) && n < m <= |steps|
    requires steps[n].SyncUnlink?
    requires forall k | n < k < m :: !steps[k].UnlinkMarker?
    ensures states[m].committed == states[n].committed && !states[m].lag
    ensures Recoverable(Found(states[m].dur)) == states[n].committed
    decreases m
  {
    assert Enabled(mode, states[m - 1], steps[m - 1]);
    if n + 1 < m {
      FinishIsDurable(mode, states, steps, n, m - 1);
      RunKeepsInv(mode, states, steps, m - 1);
      StaysCommitted(mode, states[m - 1], steps[m - 1]);
    }
    RunKeepsInv(mode, states, steps, m);
    DurableIsCommitted(mode, states[m]);
  }

  /** Does a survivor of file f spoil the rollback?  Of a redeployed app every file counts; of
      a new app only the compose file, since the project directory goes when it is gone. */
  predicate Counts(snap: Snapshot, f: File) {
    snap.compose.Some? || f.Compose?
  }

  predicate Wrong(s: State, snap: Snapshot, f: File) {
    Counts(snap, f) && Get(s.vol, f) != Saved(snap, f)
  }

  // The ignored failure of an unlink that leaves a file that counts.
  predicate Spoils(s: State, step: Step, snap: Snapshot) {
    step == RestoreFile(false) && s.pc.Restoring? && Counts(snap, s.pc.file) && Get(s.vol, s.pc.file).Some?
  }

  predicate AnyWrong(s: State, snap: Snapshot) {
    Wrong(s, snap, Compose) || Wrong(s, snap, Env) || Wrong(s, snap, Meta)
  }

  // A rollback towards `snap` is under way, or has just come to its end; `spoiled` says
  // whether a failed unlink has left a file that counts.
  predicate RollingBack(s: State, snap: Snapshot, spoiled: bool) {
    && Whole(snap)
    && (s.pc.Unlinked? || s.pc.Idle? || s.committed == snap)
    && match s.pc
       case Restoring(Compose) => Marked(s) && !spoiled
       case Restoring(Env) => Marked(s) && spoiled == Wrong(s, snap, Compose)
       case Restoring(Meta) => Marked(s) && spoiled == (Wrong(s, snap, Compose) || Wrong(s, snap, Env))
       case RestoringIds => spoiled == AnyWrong(s, snap)
       case RestoredIds => spoiled == AnyWrong(s, snap)
       case Restored => spoiled == AnyWrong(s, snap)
       case DroppedSidecar => !spoiled
       case DroppedDir => !spoiled && Deployed(s.vol) == snap && s.vol.marker.None?
       case Syncing(_) => spoiled == (Deployed(s.vol) != snap)
       case SyncingDir => spoiled == (Deployed(s.vol) != snap)
       case SyncingParent => spoiled == (Deployed(s.vol) != snap)
       case Unlinking => spoiled == (Deployed(s.vol) != snap)
       case Unlinked => spoiled == (Deployed(s.vol) != snap)
       case Idle => s.vol.marker.None? && spoiled == (Deployed(s.vol) != snap) && !s.lag
       case _ => false
  }

  lemma RestoreStep(mode: Mode, s: State, step: Step, snap: Snapshot, spoiled: bool)
    requires Inv(mode, s) && Enabled(mode, s, step) && RollingBack(s, snap, spoiled) && !s.pc.Idle?
    requires step.RestoreFile? || step.TearRestore?
    ensures RollingBack(Apply(mode, s, step), snap, spoiled || Spoils(s, step, snap))
  {
  }

  lemma DropStep(mode: Mode, s: State, step: Step, snap: Snapshot, spoiled: bool)
    requires Inv(mode, s) && Enabled(mode, s, step) && RollingBack(s, snap, spoiled) && !s.pc.Idle?
    requires (Restores(step) || Dropping(step)) && !step.RestoreFile? && !step.TearRestore?
    ensures RollingBack(Apply(mode, s, step), snap, spoiled)
  {
  }

  lemma SealStep(mode: Mode, s: State, step: Step, snap: Snapshot, spoiled: bool)
    requires Inv(mode, s) && Enabled(mode, s, step) && RollingBack(s, snap, spoiled) && !s.pc.Idle?
    requires Finishing(step) && !step.UnlinkMarker? && !step.SyncUnlink?
    ensures RollingBack(Apply(mode, s, step), snap, spoiled)
  {
  }

  lemma UnlinkStep(mode: Mode, s: State, step: Step, snap: Snapshot, spoiled: bool)
    requires Inv(mode, s) && Enabled(mode, s, step) && RollingBack(s, snap, spoiled) && !s.pc.Idle?
    requires step.UnlinkMarker? || step.SyncUnlink?
    ensures RollingBack(Apply(mode, s, step), snap, spoiled)
  {
  }

  lemma WriteBackStep(mode: Mode, s: State, step: Step, snap: Snapshot, spoiled: bool)
    requires Inv(mode, s) && Enabled(mode, s, step) && RollingBack(s, snap, spoiled) && !s.pc.Idle?
    requires Background(step) && !step.Abandon?
    ensures RollingBack(Apply(mode, s, step), snap, spoiled)
  {
  }

  lemma RollbackStep(mode: Mode, s: State, step: Step, snap: Snapshot, spoiled: bool)
    requires Inv(mode, s) && Enabled(mode, s, step) && RollingBack(s, snap, spoiled) && !s.pc.Idle?
    requires !step.Abandon? && !step.Crash?
    ensures RollingBack(Apply(mode, s, step), snap, spoiled || Spoils(s, step, snap))
  {
    if step.RestoreFile? || step.TearRestore? {
      RestoreStep(mode, s, step, snap, spoiled);
    } else if Restores(step) || Dropping(step) {
      DropStep(mode, s, step, snap, spoiled);
    } else if step.UnlinkMarker? || step.SyncUnlink? {
      UnlinkStep(mode, s, step, snap, spoiled);
    } else if Finishing(step) {
      SealStep(mode, s, step, snap, spoiled);
    } else {
      WriteBackStep(mode, s, step, snap, spoiled);
    }
  }

  // Some step strictly between i and j spoils the rollback.
  ghost predicate SpoiledBetween(states: seq<State>, steps: seq<Step>, i: nat, j: nat, snap: Snapshot)
    requires i < j <= |steps| && |states| == |steps| + 1
  {
    exists k | i < k < j :: Spoils(states[k], steps[k], snap)
  }

  lemma {:induction false} RollsBack(mode: Mode, states: seq<State>, steps: seq<Step>, i: nat, j: nat)
    requires Run(mode, states, steps) && i < j <= |steps|
    requires steps[i].StartRollback?
    requires forall k | i < k < j :: !steps[k].Abandon? && !steps[k].Crash? && !states[k].pc.Idle?
    ensures RollingBack(states[j], states[i].committed, SpoiledBetween(states, steps, i, j, states[i].committed))
    decreases j
  {
    var snap := states[i].committed;
    assert Enabled(mode, states[j - 1], steps[j - 1]);
    RunKeepsInv(mode, states, steps, j - 1);
    if i + 1 < j {
      RollsBack(mode, states, steps, i, j - 1);
      RollbackStep(mode, states[j - 1], steps[j - 1], snap, SpoiledBetween(states, steps, i, j - 1, snap));
      SpoiledGrows(states, steps, i, j, snap);
    }
  }

  lemma SpoiledGrows(states: seq<State>, steps: seq<Step>, i: nat, j: nat, snap: Snapshot)
    requires i + 1 < j <= |steps| && |states| == |steps| + 1
    ensures SpoiledBetween(states, steps, i, j, snap) <==>
              SpoiledBetween(states, steps, i, j - 1, snap) || Spoils(states[j - 1], steps[j - 1], snap)
  {
    if SpoiledBetween(states, steps, i, j - 1, snap) {
      var k :| i < k < j - 1 && Spoils(states[k], steps[k], snap);
    }
  }

  /** A rollback that runs to its end, from wherever it starts and whatever the kernel writes
      back meanwhile, removes the marker and leaves its result durable.  The result is the
      snapshot the marker held exactly when no ignored unlink failure left a file that counts:
      for a redeployed app any file the snapshot lacks, for a new app the compose file. */
  lemma RollbackRestoresIff(mode: Mode, states: seq<State>, steps: seq<Step>, i: nat, j: nat)
    requires Run(mode, states, steps) && i < j <= |steps|
    requires steps[i].StartRollback? && states[j].pc.Idle?
    requires forall k | i < k < j :: !steps[k].Abandon? && !steps[k].Crash? && !states[k].pc.Idle?
    ensures states[i].vol.marker == Some(states[i].committed)
    ensures Deployed(states[j].vol) == states[i].committed <==>
              forall k | i < k < j :: !Spoils(states[k], steps[k], states[i].committed)
    ensures states[j].vol.marker.None? && Recoverable(Found(states[j].dur)) == Deployed(states[j].vol)
  {
    RunKeepsInv(mode, states, steps, i);
    assert Enabled(mode, states[i], steps[i]);
    RollsBack(mode, states, steps, i, j);
    RunKeepsInv(mode, states, steps, j);
    DurableIsCommitted(mode, states[j]);
  }
}
