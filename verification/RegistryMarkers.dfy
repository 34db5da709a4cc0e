/**
 Credential deletion against pending compose deployments.  Rolling a deployment back puts the
 ids of its marker into the app's manifest, and that validates them against the store
 (rollback_compose_deployment_transaction, set_app_registry_credential_ids_inner in
 engine/nasty-apps/src/lib.rs).  Deletion looks for references in the manifests only
 (apps_referencing_registry_credential), not in the markers.
 */
module RegistryMarkers {
  import opened Base
  import opened RegistryCredentials

  // Rollback gets past its validation.
  predicate CanRollBack(s: State, app: string) {
    app in s.markers && AllExist(s.store, s.markers[app]) && NoRepeats(s.markers[app])
  }

  // Then, and only then, a task that holds the lock can take the validation step.
  lemma CanRollBackIsValidate(s: State, t: nat, app: string)
    requires app in s.markers && t in s.tasks && s.tasks[t].Reading?
    ensures Enabled(s, Validate(t, app, s.markers[app])) <==> CanRollBack(s, app)
  {
  }

  // ------------------------------------------------------------------ no store brings an id back

  // A store about to be saved holds no marker's id that the present store lacks.
  ghost predicate NoRevival(s: State) {
    forall t, app, id | t in s.tasks && s.tasks[t].SaveReady? && app in s.markers && id in s.markers[app] ::
      Exists(s.tasks[t].next, id) ==> Exists(s.store, id)
  }

  lemma CreatedHasNoOther(store: Store, c: Credential, id: string)
    requires Created(store, c).Some? && id != c.id && Exists(Created(store, c).value, id)
    ensures Exists(store, id)
  {
    var next := Created(store, c).value;
    var i :| 0 <= i < |next| && next[i].id == id;
    assert store[i].id == id;
  }

  lemma PrepareKeepsNoRevival(s: State, step: Step)
    requires Inv(s) && NoRevival(s) && Enabled(s, step) && (step.PrepareCreate? || step.PrepareUpdate?)
    ensures NoRevival(Apply(s, step))
  {
    var after := Apply(s, step);
    forall t, app, id |
      t in after.tasks && after.tasks[t].SaveReady? && app in after.markers && id in after.markers[app]
      ensures Exists(after.tasks[t].next, id) ==> Exists(after.store, id)
    {
      if t == step.t && Exists(after.tasks[t].next, id) {
        if step.PrepareCreate? {
          CreatedHasNoOther(s.store, step.credential, id);
        } else {
          UpdatedIsProper(s.store, step.target, step.title, step.secret);
        }
      }
    }
  }

  // Under the lock of one task no other task is about to save a store.
  lemma LockKeepsOthersOut(s: State, t: nat, u: nat)
    requires Inv(s) && t in s.tasks && u in s.tasks && t != u && (s.tasks[u].Reads() || s.tasks[u].Writes())
    ensures !s.tasks[t].SaveReady?
  {
    assert TaskOk(s, t);
  }

  lemma StoreStepKeepsNoRevival(s: State, step: Step)
    requires Inv(s) && NoRevival(s) && Enabled(s, step) && (step.Save? || step.SaveDelete? || step.PutMarker?)
    ensures NoRevival(Apply(s, step))
  {
    var after := Apply(s, step);
    forall t | t in after.tasks
      ensures !after.tasks[t].SaveReady?
    {
      if t != step.t {
        LockKeepsOthersOut(s, t, step.t);
      }
    }
  }

  lemma StepKeepsNoRevival(s: State, step: Step)
    requires Inv(s) && NoRevival(s) && Enabled(s, step)
    ensures NoRevival(Apply(s, step))
  {
    if step.PrepareCreate? || step.PrepareUpdate? {
      PrepareKeepsNoRevival(s, step);
    } else if step.Save? || step.SaveDelete? || step.PutMarker? {
      StoreStepKeepsNoRevival(s, step);
    }
  }

  lemma {:induction false} RunKeepsNoRevival(states: seq<State>, steps: seq<Step>, n: nat)
    requires Run(states, steps) && n <= |steps|
    ensures NoRevival(states[n])
  {
    if n > 0 {
      RunKeepsNoRevival(states, steps, n - 1);
      RunKeepsInv(states, steps, n - 1);
      assert Enabled(states[n - 1], steps[n - 1]);
      StepKeepsNoRevival(states[n - 1], steps[n - 1]);
    }
  }

  // ------------------------------------------------------------------ when a rollback can complete

  // The step deletes the credential.
  predicate Deletes(s: State, step: Step, id: string) {
    step.SaveDelete? && step.t in s.tasks && s.tasks[step.t].DeleteReady? && s.tasks[step.t].id == id
  }

  lemma StepKeepsMarkedId(s: State, step: Step, app: string, id: string)
    requires Inv(s) && NoRevival(s) && Enabled(s, step) && app in s.markers && id in s.markers[app]
    ensures Exists(Apply(s, step).store, id) <==> Exists(s.store, id) && !Deletes(s, step, id)
  {
    if step.Save? {
      assert TaskOk(s, step.t);
    } else if step.SaveDelete? {
      DeletedExists(s.store, s.tasks[step.t].id, id);
    }
  }

  // The app's marker was put at i and is still there at n.
  ghost predicate Pending(states: seq<State>, steps: seq<Step>, i: nat, n: nat, app: string)
    requires |states| == |steps| + 1
  {
    && i < n <= |steps| && steps[i].PutMarker? && steps[i].app == app
    && forall k | i < k < n :: !((steps[k].DropMarker? || steps[k].RemoveApp?) && steps[k].app == app)
  }

  ghost predicate DeletedSince(states: seq<State>, steps: seq<Step>, i: nat, n: nat, id: string)
    requires |states| == |steps| + 1 && n <= |steps|
  {
    exists k | i < k < n :: Deletes(states[k], steps[k], id)
  }

  lemma {:induction false} MarkerStays(states: seq<State>, steps: seq<Step>, i: nat, n: nat, app: string)
    requires Run(states, steps) && Pending(states, steps, i, n, app)
    ensures app in states[n].markers && states[n].markers[app] == IdsOf(states[i], app)
    decreases n
  {
    assert Enabled(states[n - 1], steps[n - 1]);
    if i + 1 < n {
      MarkerStays(states, steps, i, n - 1, app);
    }
  }

  lemma DeletedSinceGrows(states: seq<State>, steps: seq<Step>, i: nat, n: nat, id: string)
    requires |states| == |steps| + 1 && i + 1 < n <= |steps|
    ensures DeletedSince(states, steps, i, n, id) <==>
              DeletedSince(states, steps, i, n - 1, id) || Deletes(states[n - 1], steps[n - 1], id)
  {
    if DeletedSince(states, steps, i, n - 1, id) {
      var k :| i < k < n - 1 && Deletes(states[k], steps[k], id);
    }
  }

  // The ids a marker takes from a manifest exist when it takes them.
  lemma MarkedIdExistsAtFirst(states: seq<State>, steps: seq<Step>, i: nat, app: string, id: string)
    requires Run(states, steps) && i < |steps| && steps[i].PutMarker? && steps[i].app == app
    requires id in IdsOf(states[i], app)
    ensures Exists(states[i + 1].store, id)
  {
    assert Enabled(states[i], steps[i]);
    ManifestIdsExist(states, steps, i, app, id);
  }

  lemma MarkedIdStep(states: seq<State>, steps: seq<Step>, i: nat, n: nat, app: string, id: string)
    requires Run(states, steps) && Pending(states, steps, i, n, app) && n < |steps| && id in IdsOf(states[i], app)
    ensures Exists(states[n + 1].store, id) <==> Exists(states[n].store, id) && !Deletes(states[n], steps[n], id)
  {
    MarkerStays(states, steps, i, n, app);
    RunKeepsInv(states, steps, n);
    RunKeepsNoRevival(states, steps, n);
    assert Enabled(states[n], steps[n]);
    StepKeepsMarkedId(states[n], steps[n], app, id);
  }

  // Every step of the stretch keeps the credential unless it deletes it.
  ghost predicate KeptUnlessDeleted(states: seq<State>, steps: seq<Step>, i: nat, n: nat, id: string)
    requires |states| == |steps| + 1 && n <= |steps|
  {
    forall k | i < k < n ::
      Exists(states[k + 1].store, id) <==> Exists(states[k].store, id) && !Deletes(states[k], steps[k], id)
  }

  lemma {:induction false} GoneIffDeleted(states: seq<State>, steps: seq<Step>, i: nat, n: nat, id: string)
    requires |states| == |steps| + 1 && i < n <= |steps|
    requires Exists(states[i + 1].store, id) && KeptUnlessDeleted(states, steps, i, n, id)
    ensures Exists(states[n].store, id) <==> !DeletedSince(states, steps, i, n, id)
    decreases n
  {
    if i + 1 < n {
      GoneIffDeleted(states, steps, i, n - 1, id);
      DeletedSinceGrows(states, steps, i, n, id);
    }
  }

  lemma MarkedIdExistsIff(states: seq<State>, steps: seq<Step>, i: nat, n: nat, app: string, id: string)
    requires Run(states, steps) && Pending(states, steps, i, n, app) && id in IdsOf(states[i], app)
    ensures Exists(states[n].store, id) <==> !DeletedSince(states, steps, i, n, id)
  {
    MarkedIdExistsAtFirst(states, steps, i, app, id);
    forall k | i < k < n
      ensures Exists(states[k + 1].store, id) <==> Exists(states[k].store, id) && !Deletes(states[k], steps[k], id)
    {
      MarkedIdStep(states, steps, i, k, app, id);
    }
    GoneIffDeleted(states, steps, i, n, id);
  }

  // The ids the marker took were distinct, and none has been deleted since.
  ghost predicate Spared(states: seq<State>, steps: seq<Step>, i: nat, n: nat, app: string)
    requires |states| == |steps| + 1 && i < n <= |steps|
  {
    && NoRepeats(IdsOf(states[i], app))
    && forall id | id in IdsOf(states[i], app) :: !DeletedSince(states, steps, i, n, id)
  }

  lemma CanRollBackIff(states: seq<State>, steps: seq<Step>, i: nat, n: nat, app: string)
    requires Run(states, steps) && Pending(states, steps, i, n, app)
    ensures CanRollBack(states[n], app) <==> Spared(states, steps, i, n, app)
  {
    MarkerStays(states, steps, i, n, app);
    var ids := IdsOf(states[i], app);
    forall id | id in ids
      ensures Exists(states[n].store, id) <==> !DeletedSince(states, steps, i, n, id)
    {
      MarkedIdExistsIff(states, steps, i, n, app, id);
    }
    if CanRollBack(states[n], app) {
      forall id | id in ids
        ensures !DeletedSince(states, steps, i, n, id)
      {
        var k :| 0 <= k < |ids| && ids[k] == id;
        assert Exists(states[n].store, ids[k]);
      }
    }
  }

  /** In every interleaving, as long as a deployment's marker is pending, it holds the ids of the
      manifest it was written from, and a task that holds the lock can take its rollback past
      the validation of those ids exactly when none was repeated and none has been deleted since
      the marker was written.  Once one has been, every further attempt fails. */
  lemma RollbackPassesIff(states: seq<State>, steps: seq<Step>, i: nat, n: nat, app: string, t: nat)
    requires Run(states, steps) && Pending(states, steps, i, n, app)
    requires t in states[n].tasks && states[n].tasks[t].Reading?
    ensures app in states[n].markers && states[n].markers[app] == IdsOf(states[i], app)
    ensures Enabled(states[n], Validate(t, app, states[n].markers[app])) <==> Spared(states, steps, i, n, app)
  {
    MarkerStays(states, steps, i, n, app);
    CanRollBackIff(states, steps, i, n, app);
    CanRollBackIsValidate(states[n], t, app);
  }

  // ------------------------------------------------------------------ a rollback that can never complete

  ghost predicate Leads(s: State, steps: seq<Step>, t: State)
    decreases |steps|
  {
    if steps == [] then s == t else Enabled(s, steps[0]) && Leads(Apply(s, steps[0]), steps[1..], t)
  }

  lemma Before(s: State, step: Step, next: State, steps: seq<Step>, t: State)
    requires Enabled(s, step) && Apply(s, step) == next && Leads(next, steps, t)
    ensures Leads(s, [step] + steps, t)
  {
    assert ([step] + steps)[1..] == steps;
  }

  // One app that uses one credential.
  function Bound(c: Credential, app: string): State {
    State([c], map[app := Manifest([c.id])], map[], map[])
  }

  // Its redeployment without the credential was cut off.
  function CutOff(c: Credential, app: string): State {
    State([c], map[app := Manifest([])], map[app := [c.id]], map[])
  }

  // The deployment writes its marker and the app's new, empty list of ids.
  function Redeployed(c: Credential, app: string): State {
    CutOff(c, app).(tasks := map[0 := Reading])
  }

  lemma DeploymentStarts(c: Credential, app: string) returns (steps: seq<Step>, end: State)
    ensures end == Bound(c, app).(markers := map[app := [c.id]], tasks := map[0 := Reading])
    ensures Leads(Bound(c, app), steps, end)
  {
    var s := Bound(c, app);
    var s1 := s.(tasks := map[0 := Reading]);
    end := s1.(markers := map[app := [c.id]]);
    Before(s1, PutMarker(0, app), end, [], end);
    Before(s, AcquireRead(0), s1, [PutMarker(0, app)] + [], end);
    steps := [AcquireRead(0)] + ([PutMarker(0, app)] + []);
  }

  lemma DeploymentSetsIds(c: Credential, app: string, s: State) returns (steps: seq<Step>)
    requires s == Bound(c, app).(markers := map[app := [c.id]], tasks := map[0 := Reading])
    ensures Leads(s, steps, Redeployed(c, app))
  {
    var s1 := s.(tasks := map[0 := Validated(app, [])]);
    var end := Redeployed(c, app);
    Before(s1, SetIds(0), end, [], end);
    Before(s, Validate(0, app, []), s1, [SetIds(0)] + [], end);
    steps := [Validate(0, app, [])] + ([SetIds(0)] + []);
  }

  lemma DeploymentIsCutOff(c: Credential, app: string) returns (steps: seq<Step>)
    ensures Leads(Bound(c, app), steps, CutOff(c, app))
  {
    var first, marked := DeploymentStarts(c, app);
    var second := DeploymentSetsIds(c, app, marked);
    Join(Bound(c, app), first, marked, second, Redeployed(c, app));
    Before(Redeployed(c, app), Quit(0), CutOff(c, app), [], CutOff(c, app));
    Join(Bound(c, app), first + second, Redeployed(c, app), [Quit(0)] + [], CutOff(c, app));
    steps := first + second + ([Quit(0)] + []);
  }

  lemma ScanStarts(c: Credential, app: string) returns (steps: seq<Step>)
    ensures Leads(CutOff(c, app), steps, CutOff(c, app).(tasks := map[0 := Scanning(c.id, {app})]))
  {
    var s := CutOff(c, app);
    var s1 := s.(tasks := map[0 := Writing]);
    var end := s.(tasks := map[0 := Scanning(c.id, {app})]);
    assert Exists(s.store, c.id) by {
      assert s.store[0].id == c.id;
    }
    assert s.manifests.Keys == {app};
    Before(s1, BeginScan(0, c.id), end, [], end);
    Before(s, AcquireWrite(0), s1, [BeginScan(0, c.id)] + [], end);
    steps := [AcquireWrite(0)] + ([BeginScan(0, c.id)] + []);
  }

  lemma ScanFindsNothing(c: Credential, app: string) returns (steps: seq<Step>)
    ensures Leads(CutOff(c, app).(tasks := map[0 := Scanning(c.id, {app})]), steps,
                  CutOff(c, app).(tasks := map[0 := DeleteReady(c.id)]))
  {
    var s := CutOff(c, app).(tasks := map[0 := Scanning(c.id, {app})]);
    var s1 := s.(tasks := map[0 := Scanning(c.id, {})]);
    var end := s.(tasks := map[0 := DeleteReady(c.id)]);
    assert {app} - {app} == {};
    Before(s1, EndScan(0), end, [], end);
    Before(s, ScanOne(0, app), s1, [EndScan(0)] + [], end);
    steps := [ScanOne(0, app)] + ([EndScan(0)] + []);
  }

  lemma CredentialIsDeleted(c: Credential, app: string) returns (steps: seq<Step>, end: State)
    ensures Leads(CutOff(c, app), steps, end)
    ensures end.store == [] && end.markers == map[app := [c.id]]
  {
    var s := CutOff(c, app);
    var scan, ready := s.(tasks := map[0 := Scanning(c.id, {app})]), s.(tasks := map[0 := DeleteReady(c.id)]);
    var first := ScanStarts(c, app);
    var second := ScanFindsNothing(c, app);
    Join(s, first, scan, second, ready);
    end := s.(tasks := map[0 := Writing], store := []);
    assert Deleted([c], c.id) == [];
    Before(ready, SaveDelete(0), end, [], end);
    Join(s, first + second, ready, [SaveDelete(0)] + [], end);
    steps := first + second + ([SaveDelete(0)] + []);
  }

  lemma {:induction false} Join(s: State, xs: seq<Step>, t: State, ys: seq<Step>, u: State)
    requires Leads(s, xs, t) && Leads(t, ys, u)
    ensures Leads(s, xs + ys, u)
    decreases |xs|
  {
    if xs == [] {
      assert xs + ys == ys;
    } else {
      Join(Apply(s, xs[0]), xs[1..], t, ys, u);
      assert (xs + ys)[1..] == xs[1..] + ys;
    }
  }

  /** For every credential and app: a redeployment that drops the credential is cut off, the
      credential is deleted, no manifest naming it any more, and the pending deployment can no
      longer be rolled back. */
  lemma DeletionBlocksRollback(c: Credential, app: string) returns (steps: seq<Step>, end: State)
    ensures Init(Bound(c, app)) && Leads(Bound(c, app), steps, end)
    ensures app in end.markers && !CanRollBack(end, app)
  {
    assert Exists([c], c.id) by {
      assert [c][0].id == c.id;
    }
    var first := DeploymentIsCutOff(c, app);
    var second, last := CredentialIsDeleted(c, app);
    Join(Bound(c, app), first, CutOff(c, app), second, last);
    steps, end := first + second, last;
    assert !Exists(end.store, end.markers[app][0]);
  }
}
