/**
 What the guarantees of ComposeTransaction hang on: the two conditions of `Disciplined`,
 the unlink errors that rollback ignores, and the order in which remove_dir_all unlinks.
 Each part shows the failing run or state and the exact condition.
 */
module ComposeTransactionLimits {
  import opened Base
  import opened ComposeTransaction

  // `steps` lead from `s` to `t`; the two conditions are not imposed.
  ghost predicate Path(mode: Mode, s: State, steps: seq<Step>, t: State)
    decreases |steps|
  {
    if steps == [] then s == t
    else Enabled(mode, s, steps[0]) && Path(mode, Apply(mode, s, steps[0]), steps[1..], t)
  }

  lemma {:induction false} Join(mode: Mode, s: State, xs: seq<Step>, t: State, ys: seq<Step>, u: State)
    requires Path(mode, s, xs, t) && Path(mode, t, ys, u)
    ensures Path(mode, s, xs + ys, u)
    decreases |xs|
  {
    if xs == [] {
      assert xs + ys == ys;
    } else {
      Join(mode, Apply(mode, s, xs[0]), xs[1..], t, ys, u);
      assert (xs + ys)[1..] == xs[1..] + ys;
    }
  }

  lemma Then(mode: Mode, s: State, xs: seq<Step>, t: State, step: Step, u: State)
    requires Path(mode, s, xs, t) && Enabled(mode, t, step) && Apply(mode, t, step) == u
    ensures Path(mode, s, xs + [step], u)
  {
    assert [step][1..] == [];
    Join(mode, s, xs, t, [step], u);
  }

  // A settled system around `app`.
  function Start(app: Disk): State {
    State(app, app, {}, Idle, Deployed(app), Deployed(app), false)
  }

  // A begin that renamed the marker into place and failed to sync it.
  function Unsynced(app: Disk): State {
    Start(app).(vol := app.(marker := Some(Deployed(app))))
  }

  lemma BeginFails(app: Disk) returns (steps: seq<Step>)
    requires app.dir && app.marker.None? && app.compose.Some?
    ensures Path(Journaled, Start(app), steps, Unsynced(app))
  {
    var s := Start(app);
    var m := Deployed(app);
    steps := [];
    Then(Journaled, s, steps, s, Begin(false), s.(pc := Begun(false)));
    steps := steps + [Begin(false)];
    Then(Journaled, s, steps, s.(pc := Begun(false)), Note, s.(pc := Noted(false, m)));
    steps := steps + [Note];
    var renamed := Unsynced(app).(pc := Renamed(false));
    Then(Journaled, s, steps, s.(pc := Noted(false, m)), Rename, renamed);
    steps := steps + [Rename];
    Then(Journaled, s, steps, renamed, Abandon, Unsynced(app));
    steps := steps + [Abandon];
  }

  lemma RollbackTears(app: Disk, junk: Content) returns (steps: seq<Step>, end: State)
    requires app.dir && app.marker.None? && app.compose.Some?
    ensures Path(Journaled, Unsynced(app), steps, end)
    ensures end.vol == app.(compose := Some(junk))
  {
    var s := Unsynced(app);
    var s1 := s.(pc := Restoring(Compose));
    var s2 := s1.(vol := s1.vol.(compose := Some(junk)), dirty := {Compose});
    var s3 := s2.(dur := app.(compose := Some(junk)));
    end := State(s3.dur, s3.dur, {}, Idle, Deployed(s3.dur), s.previous, false);
    steps := [];
    Then(Journaled, s, steps, s, StartRollback, s1);
    steps := steps + [StartRollback];
    Then(Journaled, s, steps, s1, TearRestore(junk), s2);
    steps := steps + [TearRestore(junk)];
    Then(Journaled, s, steps, s2, Tear(Compose, Some(junk)), s3);
    steps := steps + [Tear(Compose, Some(junk))];
    Then(Journaled, s, steps, s3, Crash, end);
    steps := steps + [Crash];
  }

  /** For every deployed app and every way of tearing its compose file: a begin whose
      directory sync fails after the rename, then a rollback from the marker it left, then a
      power loss, can leave the torn file with no marker to restore it from. */
  lemma UnsyncedMarkerLosesApp(app: Disk, junk: Content) returns (steps: seq<Step>, end: State)
    requires app.dir && app.marker.None? && app.compose.Some?
    ensures Init(Journaled, Start(app)) && Path(Journaled, Start(app), steps, end)
    ensures end.vol == app.(compose := Some(junk))
  {
    var first := BeginFails(app);
    var second, last := RollbackTears(app, junk);
    Join(Journaled, Start(app), first, Unsynced(app), second, last);
    steps, end := first + second, last;
  }

  // ------------------------------------------------------------------ which rollbacks are safe

  /** A rollback started in s, up to where it commits, ends or loses power: whatever unlinks
      fail in it and whatever the kernel writes back meanwhile. */
  ghost predicate RollsBackFrom(mode: Mode, s: State, states: seq<State>, steps: seq<Step>) {
    && |states| == |steps| + 1 && |steps| > 0 && states[0] == s && steps[0].StartRollback?
    && (forall k | 0 <= k < |steps| ::
          Enabled(mode, states[k], steps[k]) && states[k + 1] == Apply(mode, states[k], steps[k]))
    && forall k | 0 < k < |steps| ::
         !states[k].pc.Idle? && !steps[k].Abandon? && !steps[k].Crash? && !steps[k].UnlinkMarker?
  }

  // Losing power at any point of any such rollback leaves the committed deployment.
  ghost predicate RollbackIsSafe(mode: Mode, s: State) {
    forall states: seq<State>, steps: seq<Step> | RollsBackFrom(mode, s, states, steps) ::
      Recoverable(Found(states[|steps|].dur)) == s.committed
  }

  // Where a rollback can be; only that of a new app removes the directory.
  predicate InRollback(s: State) {
    && !s.pc.Open?
    && (Rewriting(s.pc) || ((s.pc.DroppedDir? || s.pc.Idle?) && s.committed == ABSENT))
  }

  lemma RestoreStaysInRollback(mode: Mode, s: State, step: Step)
    requires VolInv(s) && Enabled(mode, s, step) && InRollback(s) && !s.pc.Idle?
    requires Restores(step) || Dropping(step)
    ensures InRollback(Apply(mode, s, step)) && Apply(mode, s, step).committed == s.committed && !step.StartRollback?
  {
  }

  lemma SealStaysInRollback(mode: Mode, s: State, step: Step)
    requires VolInv(s) && Enabled(mode, s, step) && InRollback(s) && !s.pc.Idle?
    requires Finishing(step) && !step.UnlinkMarker?
    ensures InRollback(Apply(mode, s, step)) && Apply(mode, s, step).committed == s.committed
  {
  }

  lemma StepStaysInRollback(mode: Mode, s: State, step: Step)
    requires VolInv(s) && Enabled(mode, s, step) && InRollback(s) && !s.pc.Idle?
    requires !step.Abandon? && !step.Crash? && !step.UnlinkMarker?
    ensures InRollback(Apply(mode, s, step)) && Apply(mode, s, step).committed == s.committed
    ensures Disciplined(mode, s, step)
  {
    if Restores(step) || Dropping(step) {
      RestoreStaysInRollback(mode, s, step);
    } else if Finishing(step) {
      SealStaysInRollback(mode, s, step);
    }
  }

  lemma {:induction false} RollbackKeepsInv(mode: Mode, s: State, states: seq<State>, steps: seq<Step>, n: nat)
    requires Inv(mode, s) && Disciplined(mode, s, StartRollback)
    requires RollsBackFrom(mode, s, states, steps) && 0 < n <= |steps|
    ensures Inv(mode, states[n]) && InRollback(states[n]) && states[n].committed == s.committed
  {
    assert Enabled(mode, states[n - 1], steps[n - 1]);
    if n == 1 {
      StepKeepsInv(mode, s, StartRollback);
    } else {
      RollbackKeepsInv(mode, s, states, steps, n - 1);
      StepStaysInRollback(mode, states[n - 1], steps[n - 1]);
      StepKeepsInv(mode, states[n - 1], steps[n - 1]);
    }
  }

  lemma InRollbackIsRecoverable(mode: Mode, s: State)
    requires Inv(mode, s) && InRollback(s)
    ensures Recoverable(Found(s.dur)) == s.committed
  {
    if !s.lag {
      DurableIsCommitted(mode, s);
    }
  }

  // Tearing the compose file on disk while the marker is not there.
  lemma RollbackLoses(mode: Mode, s: State) returns (states: seq<State>, steps: seq<Step>)
    requires Inv(mode, s) && (s.pc.Idle? || s.pc.Open?) && s.vol.marker.Some?
    requires !StoredMarker(s) && s.committed != ABSENT
    ensures RollsBackFrom(mode, s, states, steps)
    ensures Recoverable(Found(states[|steps|].dur)) != s.committed
  {
    var s1 := Apply(mode, s, StartRollback);
    states, steps := [s, s1], [StartRollback];
    if Recoverable(Found(s1.dur)) == s.committed {
      var junk: Content := s.committed.compose.value + [0];
      var s2 := Apply(mode, s1, TearRestore(junk));
      var s3 := Apply(mode, s2, Tear(Compose, Some(junk)));
      states, steps := [s, s1, s2, s3], [StartRollback, TearRestore(junk), Tear(Compose, Some(junk))];
    }
  }

  /** On every kind of file system, from every state in which a rollback can start: losing
      power anywhere in it leaves the committed deployment exactly when the marker is on disk
      or the app is a new one. */
  lemma RollbackIsSafeIff(mode: Mode, s: State)
    requires Inv(mode, s) && (s.pc.Idle? || s.pc.Open?) && s.vol.marker.Some?
    ensures RollbackIsSafe(mode, s) <==> StoredMarker(s) || s.committed == ABSENT
  {
    if StoredMarker(s) || s.committed == ABSENT {
      forall states: seq<State>, steps: seq<Step> | RollsBackFrom(mode, s, states, steps)
        ensures Recoverable(Found(states[|steps|].dur)) == s.committed
      {
        RollbackKeepsInv(mode, s, states, steps, |steps|);
        InRollbackIsRecoverable(mode, states[|steps|]);
      }
    } else {
      var states, steps := RollbackLoses(mode, s);
    }
  }

  // ------------------------------------------------------------------ a removed app returns

  const NOTHING := Disk(false, None, None, None, None, [])

  // A new app: marker and compose file written and synced.
  function Installed(c: Content): State {
    var d := Disk(true, Some(c), None, None, Some(ABSENT), []);
    State(d, d, {}, Open(true, false), ABSENT, ABSENT, false)
  }

  lemma InstallSyncs(c: Content) returns (steps: seq<Step>)
    ensures Path(Unordered, Start(NOTHING), steps, Installed(c))
  {
    var s := Start(NOTHING);
    var d := NOTHING.(dir := true);
    var s1 := s.(vol := d, pc := Begun(true));
    var s2 := s1.(pc := Noted(true, ABSENT));
    var s3 := s2.(vol := d.(marker := Some(ABSENT)), pc := Renamed(true));
    var s4 := s3.(dur := NOTHING.(marker := Some(ABSENT)), pc := Open(true, false));
    var s5 := s4.(vol := s4.vol.(compose := Some(c)), dirty := {Compose});
    steps := [];
    Then(Unordered, s, steps, s, Begin(true), s1);
    steps := steps + [Begin(true)];
    Then(Unordered, s, steps, s1, Note, s2);
    steps := steps + [Note];
    Then(Unordered, s, steps, s2, Rename, s3);
    steps := steps + [Rename];
    Then(Unordered, s, steps, s3, SyncMarker, s4);
    steps := steps + [SyncMarker];
    Then(Unordered, s, steps, s4, Write(Compose, c), s5);
    steps := steps + [Write(Compose, c)];
    Then(Unordered, s, steps, s5, SyncFiles, Installed(c));
    steps := steps + [SyncFiles];
  }

  lemma StagingReturns(c: Content) returns (steps: seq<Step>, end: State)
    ensures Path(Unordered, Installed(c), steps, end)
    ensures end.vol == Disk(true, Some(c), None, None, None, [])
  {
    var s := Installed(c);
    var s1 := s.(vol := NOTHING, pc := Idle);
    var s2 := s1.(dur := s.dur.(marker := None));
    end := State(s2.dur, s2.dur, {}, Idle, Deployed(s2.dur), ABSENT, false);
    steps := [];
    Then(Unordered, s, steps, s, DropStage, s1);
    steps := steps + [DropStage];
    Then(Unordered, s, steps, s1, FlushMarker, s2);
    steps := steps + [FlushMarker];
    Then(Unordered, s, steps, s2, Crash, end);
    steps := steps + [Crash];
  }

  /** On an Unordered file system a new app that failed can come back: its directory is
      removed, the marker's unlink reaches the disk before the compose file's, and power is
      lost. */
  lemma FreshInstallNeedsOrder(c: Content) returns (steps: seq<Step>, end: State)
    ensures Path(Unordered, Start(NOTHING), steps, end)
    ensures end.vol == Disk(true, Some(c), None, None, None, [])
  {
    var first := InstallSyncs(c);
    var second, last := StagingReturns(c);
    Join(Unordered, Start(NOTHING), first, Installed(c), second, last);
    steps, end := first + second, last;
  }

  // ------------------------------------------------------------------ a survivor is committed

  // A new app whose compose file is written, every operation being durable at once.
  function Staged(c: Content): State {
    var d := Disk(true, Some(c), None, None, Some(ABSENT), []);
    State(d, d, {}, Open(true, false), ABSENT, ABSENT, false)
  }

  lemma Stages(c: Content) returns (steps: seq<Step>)
    ensures Path(WriteThrough, Start(NOTHING), steps, Staged(c))
  {
    var s := Start(NOTHING);
    var d := NOTHING.(dir := true);
    var s1 := s.(vol := d, dur := d, pc := Begun(true));
    var s2 := s1.(pc := Noted(true, ABSENT));
    var marked := d.(marker := Some(ABSENT));
    var s3 := s2.(vol := marked, dur := marked, pc := Renamed(true));
    var s4 := s3.(pc := Open(true, false));
    steps := [];
    Then(WriteThrough, s, steps, s, Begin(true), s1);
    steps := steps + [Begin(true)];
    Then(WriteThrough, s, steps, s1, Note, s2);
    steps := steps + [Note];
    Then(WriteThrough, s, steps, s2, Rename, s3);
    steps := steps + [Rename];
    Then(WriteThrough, s, steps, s3, SyncMarker, s4);
    steps := steps + [SyncMarker];
    Then(WriteThrough, s, steps, s4, Write(Compose, c), Staged(c));
    steps := steps + [Write(Compose, c)];
  }

  // The rollback whose unlink of the compose file failed.
  lemma UnlinkFails(c: Content) returns (steps: seq<Step>)
    ensures Path(WriteThrough, Staged(c), steps, Staged(c).(pc := Restored))
  {
    var s := Staged(c);
    steps := [];
    Then(WriteThrough, s, steps, s, StartRollback, s.(pc := Restoring(Compose)));
    steps := steps + [StartRollback];
    Then(WriteThrough, s, steps, s.(pc := Restoring(Compose)), RestoreFile(false), s.(pc := Restoring(Env)));
    steps := steps + [RestoreFile(false)];
    Then(WriteThrough, s, steps, s.(pc := Restoring(Env)), RestoreFile(true), s.(pc := Restoring(Meta)));
    steps := steps + [RestoreFile(true)];
    Then(WriteThrough, s, steps, s.(pc := Restoring(Meta)), RestoreFile(true), s.(pc := RestoringIds));
    steps := steps + [RestoreFile(true)];
    Then(WriteThrough, s, steps, s.(pc := RestoringIds), RestoreIds, s.(pc := RestoredIds));
    steps := steps + [RestoreIds];
    Then(WriteThrough, s, steps, s.(pc := RestoredIds), SyncIds, s.(pc := Restored));
    steps := steps + [SyncIds];
  }

  // It goes on to finish, which syncs what is there and commits it.
  lemma SurvivorSyncs(c: Content) returns (steps: seq<Step>)
    ensures Path(WriteThrough, Staged(c).(pc := Restored), steps, Staged(c).(pc := Unlinking))
  {
    var s := Staged(c);
    var start := s.(pc := Restored);
    steps := [];
    Then(WriteThrough, start, steps, start, StartFinish, s.(pc := Syncing(Compose)));
    steps := steps + [StartFinish];
    Then(WriteThrough, start, steps, s.(pc := Syncing(Compose)), SyncFile, s.(pc := Syncing(Env)));
    steps := steps + [SyncFile];
    Then(WriteThrough, start, steps, s.(pc := Syncing(Env)), SyncFile, s.(pc := Syncing(Meta)));
    steps := steps + [SyncFile];
    Then(WriteThrough, start, steps, s.(pc := Syncing(Meta)), SyncFile, s.(pc := SyncingDir));
    steps := steps + [SyncFile];
    Then(WriteThrough, start, steps, s.(pc := SyncingDir), SyncDir, s.(pc := SyncingParent));
    steps := steps + [SyncDir];
    Then(WriteThrough, start, steps, s.(pc := SyncingParent), SyncParent, s.(pc := Unlinking));
    steps := steps + [SyncParent];
  }

  lemma SurvivorCommits(c: Content) returns (steps: seq<Step>, end: State)
    ensures Path(WriteThrough, Staged(c).(pc := Unlinking), steps, end)
    ensures end.vol == Disk(true, Some(c), None, None, None, []) && end.committed == Deployed(end.vol) && end.pc.Idle?
  {
    var s := Staged(c);
    var start := s.(pc := Unlinking);
    var d := s.vol.(marker := None);
    var gone := s.(vol := d, dur := d, pc := Unlinked, committed := Deployed(d));
    end := gone.(pc := Idle);
    steps := [];
    Then(WriteThrough, start, steps, start, UnlinkMarker, gone);
    steps := steps + [UnlinkMarker];
    Then(WriteThrough, start, steps, gone, SyncUnlink, end);
    steps := steps + [SyncUnlink];
  }

  lemma SurvivorFinishes(c: Content) returns (steps: seq<Step>, end: State)
    ensures Path(WriteThrough, Staged(c).(pc := Restored), steps, end)
    ensures end.vol == Disk(true, Some(c), None, None, None, []) && end.committed == Deployed(end.vol) && end.pc.Idle?
  {
    var first := SurvivorSyncs(c);
    var second, last := SurvivorCommits(c);
    Join(WriteThrough, Staged(c).(pc := Restored), first, Staged(c).(pc := Unlinking), second, last);
    steps, end := first + second, last;
  }

  /** For every new app: a failed install rolls back, the unlink of its compose file fails and
      is ignored, and the rollback ends by committing the app that it was to remove. */
  lemma SurvivorIsCommitted(c: Content) returns (steps: seq<Step>, end: State)
    ensures Path(WriteThrough, Start(NOTHING), steps, end)
    ensures end.pc.Idle? && end.vol == Disk(true, Some(c), None, None, None, [])
    ensures end.committed == Snapshot(Some(c), None, None, [])
  {
    var first := Stages(c);
    var second := UnlinkFails(c);
    var third, last := SurvivorFinishes(c);
    Join(WriteThrough, Start(NOTHING), first, Staged(c), second, Staged(c).(pc := Restored));
    Join(WriteThrough, Start(NOTHING), first + second, Staged(c).(pc := Restored), third, last);
    steps, end := first + second + third, last;
  }

  datatype Entry = Tracked(file: File) | Marker | Other(name: string)

  function Unlink(d: Disk, e: Entry): Disk {
    match e
    case Tracked(f) => Put(d, f, None)
    case Marker => d.(marker := None)
    case Other(_) => d
  }

  function UnlinkAll(d: Disk, entries: seq<Entry>): Disk {
    if entries == [] then d else Unlink(UnlinkAll(d, entries[..|entries| - 1]), entries[|entries| - 1])
  }

  lemma {:induction false} UnlinkAllEffect(d: Disk, entries: seq<Entry>)
    ensures var after := UnlinkAll(d, entries);
            && (forall f :: Get(after, f) == if Tracked(f) in entries then None else Get(d, f))
            && after.marker == (if Marker in entries then None else d.marker)
            && after.ids == d.ids
  {
    if entries != [] {
      UnlinkAllEffect(d, entries[..|entries| - 1]);
    }
  }

  /** remove_dir_all on a failed install unlinks the directory's entries in directory
      order.  A crash part-way leaves a disk recovery clears to nothing exactly when the
      marker comes after every tracked file that exists. */
  lemma RemovalOrderIff(d: Disk, entries: seq<Entry>, at: nat)
    requires d.marker == Some(ABSENT) && d.ids == []
    requires at < |entries| && entries[at] == Marker && Marker !in entries[..at]
    requires forall f | Get(d, f).Some? :: Tracked(f) in entries
    ensures (forall k | 0 <= k <= |entries| :: Recoverable(UnlinkAll(d, entries[..k])) == ABSENT) <==>
            (forall f | Get(d, f).Some? :: Tracked(f) in entries[..at])
  {
    if forall f | Get(d, f).Some? :: Tracked(f) in entries[..at] {
      forall k | 0 <= k <= |entries|
        ensures Recoverable(UnlinkAll(d, entries[..k])) == ABSENT
      {
        var after := UnlinkAll(d, entries[..k]);
        UnlinkAllEffect(d, entries[..k]);
        if k <= at {
          assert entries[..k] <= entries[..at];
        } else {
          assert entries[..k][at] == Marker;
          assert entries[..at] <= entries[..k];
          assert Get(after, Compose).None? && Get(after, Env).None? && Get(after, Meta).None?;
        }
      }
    } else {
      var f :| Get(d, f).Some? && Tracked(f) !in entries[..at];
      UnlinkAllEffect(d, entries[..at + 1]);
      assert entries[..at + 1] == entries[..at] + [Marker];
      var after := UnlinkAll(d, entries[..at + 1]);
      assert Get(after, f).Some?;
      assert Deployed(after) != ABSENT;
    }
  }
}
