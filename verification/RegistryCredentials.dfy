/**
 Registry credentials and the apps that refer to them (engine/nasty-apps/src/lib.rs,
 registry_credentials_*, validate_registry_credential_ids, set_app_registry_credential_ids,
 save_app_manifest_base, apps_referencing_registry_credential).

 Tasks interleave at every await.  Credential create, update and delete hold the registry
 lock for writing; app installs, updates and compose deployments hold it for reading;
 ingress and startup edits of a manifest hold neither, only the manifest mutex.  Any task
 can end at any point, and the engine can crash.  A simple app's manifest is written in
 place and can be left torn; the other files are replaced by rename.  A compose deployment's
 marker records the ids its rollback will put back; it stays when the deployment is cut off.
 */
module RegistryCredentials {
  import opened Base

  datatype Credential = Credential(id: string, registry: string, title: string, secret: string)

  type Store = seq<Credential>

  // A torn manifest does not parse.
  datatype Manifest = Manifest(ids: seq<string>) | Torn

  function LowerChar(c: char): char {
    if 'A' <= c <= 'Z' then c - 'A' + 'a' else c
  }

  // `eq_ignore_ascii_case`.
  predicate SameLabel(a: string, b: string) {
    |a| == |b| && forall i | 0 <= i < |a| :: LowerChar(a[i]) == LowerChar(b[i])
  }

  predicate Exists(store: Store, id: string) {
    exists i | 0 <= i < |store| :: store[i].id == id
  }

  predicate AllExist(store: Store, ids: seq<string>) {
    forall k | 0 <= k < |ids| :: Exists(store, ids[k])
  }

  // No two credentials share an id, nor a label within a registry.
  ghost predicate Proper(store: Store) {
    forall i, j | 0 <= i < j < |store| ::
      && store[i].id != store[j].id
      && !(store[i].registry == store[j].registry && SameLabel(store[i].title, store[j].title))
  }

  predicate NoRepeats(ids: seq<string>) {
    forall i, j | 0 <= i < j < |ids| :: ids[i] != ids[j]
  }

  predicate LabelFree(store: Store, registry: string, title: string, except: Option<string>) {
    forall i | 0 <= i < |store| && Some(store[i].id) != except ::
      !(store[i].registry == registry && SameLabel(store[i].title, title))
  }

  function IndexOf(store: Store, id: string): (i: nat)
    ensures i <= |store|
    ensures i < |store| ==> store[i].id == id
    ensures i == |store| <==> !Exists(store, id)
  {
    if store == [] then 0
    else if store[0].id == id then 0
    else
      assert forall k | 0 < k < |store| :: store[k] == store[1..][k - 1];
      1 + IndexOf(store[1..], id)
  }

  function Created(store: Store, c: Credential): Option<Store> {
    if LabelFree(store, c.registry, c.title, None) then Some(store + [c]) else None
  }

  function Updated(store: Store, id: string, title: string, secret: Option<string>): Option<Store> {
    var i := IndexOf(store, id);
    if i == |store| || !LabelFree(store, store[i].registry, title, Some(id)) then None
    else Some(store[i := store[i].(title := title, secret := if secret.Some? then secret.value else store[i].secret)])
  }

  function Deleted(store: Store, id: string): Store {
    if store == [] then []
    else
      var init := Deleted(store[..|store| - 1], id);
      if store[|store| - 1].id == id then init else init + [store[|store| - 1]]
  }

  // validate_registry_credential_ids.
  method ValidateIds(store: Store, ids: seq<string>) returns (ok: bool)
    ensures ok <==> AllExist(store, ids) && NoRepeats(ids)
  {
    var seen: set<string> := {};
    var k := 0;
    while k < |ids|
      invariant 0 <= k <= |ids|
      invariant forall i | 0 <= i < k :: ids[i] in seen && Exists(store, ids[i])
      invariant forall id | id in seen :: exists i | 0 <= i < k :: ids[i] == id
      invariant forall i, j | 0 <= i < j < k :: ids[i] != ids[j]
    {
      if ids[k] in seen || !Exists(store, ids[k]) {
        return false;
      }
      seen := seen + {ids[k]};
      k := k + 1;
    }
    ok := true;
  }

  // ------------------------------------------------------------------ store operations

  lemma SameLabelSymmetric(a: string, b: string)
    ensures SameLabel(a, b) <==> SameLabel(b, a)
  {
  }

  lemma CreatedIsProper(store: Store, c: Credential)
    requires Proper(store) && !Exists(store, c.id) && Created(store, c).Some?
    ensures Proper(Created(store, c).value)
    ensures forall id | Exists(store, id) :: Exists(Created(store, c).value, id)
  {
    var after := Created(store, c).value;
    forall i, j | 0 <= i < j < |after|
      ensures after[i].id != after[j].id
      ensures !(after[i].registry == after[j].registry && SameLabel(after[i].title, after[j].title))
    {
      if j == |store| {
        assert store[i].id != c.id;
      }
    }
    forall id | Exists(store, id) ensures Exists(after, id) {
      var k :| 0 <= k < |store| && store[k].id == id;
      assert after[k].id == id;
    }
  }

  lemma UpdatedIsProper(store: Store, id: string, title: string, secret: Option<string>)
    requires Proper(store) && Updated(store, id, title, secret).Some?
    ensures Proper(Updated(store, id, title, secret).value)
    ensures forall other :: Exists(store, other) <==> Exists(Updated(store, id, title, secret).value, other)
  {
    var after := Updated(store, id, title, secret).value;
    var n := IndexOf(store, id);
    assert forall k | 0 <= k < |store| :: after[k].id == store[k].id && after[k].registry == store[k].registry;
    forall i, j | 0 <= i < j < |after|
      ensures !(after[i].registry == after[j].registry && SameLabel(after[i].title, after[j].title))
    {
      if i == n {
        SameLabelSymmetric(after[i].title, after[j].title);
        assert Some(store[j].id) != Some(id);
      } else if j == n {
        assert Some(store[i].id) != Some(id);
      }
    }
    forall other ensures Exists(store, other) <==> Exists(after, other) {
      if Exists(store, other) {
        var k :| 0 <= k < |store| && store[k].id == other;
        assert after[k].id == other;
      }
      if Exists(after, other) {
        var k :| 0 <= k < |after| && after[k].id == other;
        assert store[k].id == other;
      }
    }
  }

  lemma {:induction false} DeletedExists(store: Store, id: string, other: string)
    ensures Exists(Deleted(store, id), other) <==> Exists(store, other) && other != id
  {
    if store != [] {
      var init, last := store[..|store| - 1], store[|store| - 1];
      DeletedExists(init, id, other);
      assert Exists(store, other) <==> Exists(init, other) || last.id == other by {
        if Exists(store, other) {
          var k :| 0 <= k < |store| && store[k].id == other;
          assert k < |init| ==> init[k].id == other;
        }
        if Exists(init, other) {
          var k :| 0 <= k < |init| && init[k].id == other;
          assert store[k].id == other;
        }
      }
      var rest := Deleted(init, id);
      if last.id != id {
        var all := rest + [last];
        if Exists(rest, other) {
          var k :| 0 <= k < |rest| && rest[k].id == other;
          assert all[k].id == other;
        }
        if last.id == other {
          assert all[|rest|].id == other;
        }
        if Exists(all, other) {
          var k :| 0 <= k < |all| && all[k].id == other;
          assert k < |rest| ==> rest[k].id == other;
        }
      }
    }
  }

  lemma {:induction false} DeletedIsProper(store: Store, id: string)
    requires Proper(store)
    ensures Proper(Deleted(store, id))
    ensures forall c | c in Deleted(store, id) :: c in store
  {
    if store != [] {
      var init, last := store[..|store| - 1], store[|store| - 1];
      assert Proper(init);
      DeletedIsProper(init, id);
      var rest := Deleted(init, id);
      forall k | 0 <= k < |rest|
        ensures rest[k].id != last.id
        ensures !(rest[k].registry == last.registry && SameLabel(rest[k].title, last.title))
      {
        assert rest[k] in init;
        var n :| 0 <= n < |init| && init[n] == rest[k];
        assert store[n] == rest[k];
      }
    }
  }

  // ------------------------------------------------------------------ interleavings

  datatype Task =
    | Reading                                        // registry lock held for reading
    | Validated(app: string, ids: seq<string>)       // ids checked, manifest not yet written
    | Overwriting(app: string, ids: seq<string>)     // writing a simple app's manifest in place
    | Writing                                        // registry lock held for writing
    | SaveReady(next: Store)                         // new store contents computed
    | Scanning(id: string, todo: set<string>)        // delete: looking through the manifests
    | DeleteReady(id: string)                        // no manifest refers to the id
    | Touching(app: string, found: Option<Manifest>) // another manifest field is being edited
  {
    predicate Reads() { Reading? || Validated? || Overwriting? }
    predicate Writes() { Writing? || SaveReady? || Scanning? || DeleteReady? }
    predicate HoldsManifests() { Overwriting? || Scanning? || Touching? }
  }

  // `markers`: the credential ids recorded by each pending compose deployment.
  datatype State = State(
    store: Store, manifests: map<string, Manifest>, markers: map<string, seq<string>>, tasks: map<nat, Task>)

  datatype Step =
    | AcquireRead(t: nat)
    | Validate(t: nat, app: string, ids: seq<string>)
    | SetIds(t: nat)
    | PutMarker(t: nat, app: string)
    | DropMarker(t: nat, app: string)
    | BeginOverwrite(t: nat)
    | EndOverwrite(t: nat)
    | AcquireWrite(t: nat)
    | PrepareCreate(t: nat, credential: Credential)
    | PrepareUpdate(t: nat, target: string, title: string, secret: Option<string>)
    | Save(t: nat)
    | BeginScan(t: nat, target: string)
    | ScanOne(t: nat, app: string)
    | EndScan(t: nat)
    | SaveDelete(t: nat)
    | BeginTouch(t: nat, app: string)
    | EndTouch(t: nat)
    | TearTouch(t: nat)
    | RemoveApp(app: string)
    | Quit(t: nat)
    | Crash

  predicate Is(s: State, t: nat) {
    t in s.tasks
  }

  predicate NoReaders(s: State) {
    forall t | t in s.tasks :: !s.tasks[t].Reads()
  }

  predicate NoWriter(s: State) {
    forall t | t in s.tasks :: !s.tasks[t].Writes()
  }

  predicate ManifestsFree(s: State) {
    forall t | t in s.tasks :: !s.tasks[t].HoldsManifests()
  }

  predicate Refers(m: Manifest, id: string) {
    m.Manifest? && id in m.ids
  }

  // A fresh UUID is in no store and no marker.
  predicate NewId(s: State, id: string) {
    !Exists(s.store, id) && forall app | app in s.markers :: id !in s.markers[app]
  }

  // The ids the app's manifest names.
  function IdsOf(s: State, app: string): seq<string> {
    if app in s.manifests && s.manifests[app].Manifest? then s.manifests[app].ids else []
  }

  predicate Enabled(s: State, step: Step) {
    match step
    case AcquireRead(t) => !Is(s, t) && NoWriter(s)
    case Validate(t, _, ids) =>
      Is(s, t) && (s.tasks[t].Reading? || s.tasks[t].Validated?) && AllExist(s.store, ids) && NoRepeats(ids)
    case PutMarker(t, app) =>
      Is(s, t) && s.tasks[t].Reading? && ManifestsFree(s) && app !in s.markers &&
      (app in s.manifests ==> s.manifests[app].Manifest?)
    case DropMarker(t, app) => Is(s, t) && s.tasks[t].Reading? && app in s.markers
    case SetIds(t) =>
      Is(s, t) && s.tasks[t].Validated? && ManifestsFree(s) &&
      (s.tasks[t].app in s.manifests ==> s.manifests[s.tasks[t].app].Manifest?)
    case BeginOverwrite(t) => Is(s, t) && s.tasks[t].Validated? && ManifestsFree(s)
    case EndOverwrite(t) => Is(s, t) && s.tasks[t].Overwriting?
    case AcquireWrite(t) => !Is(s, t) && NoWriter(s) && NoReaders(s)
    case PrepareCreate(t, c) =>
      Is(s, t) && s.tasks[t].Writing? && NewId(s, c.id) && Created(s.store, c).Some?
    case PrepareUpdate(t, target, title, secret) =>
      Is(s, t) && s.tasks[t].Writing? && Updated(s.store, target, title, secret).Some?
    case Save(t) => Is(s, t) && s.tasks[t].SaveReady?
    case BeginScan(t, target) => Is(s, t) && s.tasks[t].Writing? && Exists(s.store, target) && ManifestsFree(s)
    case ScanOne(t, app) =>
      Is(s, t) && s.tasks[t].Scanning? && app in s.tasks[t].todo &&
      (app in s.manifests ==> s.manifests[app].Manifest? && !Refers(s.manifests[app], s.tasks[t].id))
    case EndScan(t) => Is(s, t) && s.tasks[t].Scanning? && s.tasks[t].todo == {}
    case SaveDelete(t) => Is(s, t) && s.tasks[t].DeleteReady?
    case BeginTouch(t, app) => !Is(s, t) && ManifestsFree(s)
    case EndTouch(t) => Is(s, t) && s.tasks[t].Touching?
    case TearTouch(t) => Is(s, t) && s.tasks[t].Touching?
    case RemoveApp(_) => true
    case Quit(t) => Is(s, t)
    case Crash => true
  }

  function At(s: State, t: nat, task: Task): State {
    s.(tasks := s.tasks[t := task])
  }

  function Apply(s: State, step: Step): State
    requires Enabled(s, step)
  {
    match step
    case AcquireRead(t) => At(s, t, Reading)
    case Validate(t, app, ids) => At(s, t, Validated(app, ids))
    case SetIds(t) => At(s, t, Reading).(manifests := s.manifests[s.tasks[t].app := Manifest(s.tasks[t].ids)])
    case PutMarker(_, app) => s.(markers := s.markers[app := IdsOf(s, app)])
    case DropMarker(_, app) => s.(markers := s.markers - {app})
    case BeginOverwrite(t) =>
      At(s, t, Overwriting(s.tasks[t].app, s.tasks[t].ids)).(manifests := s.manifests[s.tasks[t].app := Torn])
    case EndOverwrite(t) => At(s, t, Reading).(manifests := s.manifests[s.tasks[t].app := Manifest(s.tasks[t].ids)])
    case AcquireWrite(t) => At(s, t, Writing)
    case PrepareCreate(t, c) => At(s, t, SaveReady(Created(s.store, c).value))
    case PrepareUpdate(t, target, title, secret) => At(s, t, SaveReady(Updated(s.store, target, title, secret).value))
    case Save(t) => At(s, t, Writing).(store := s.tasks[t].next)
    case BeginScan(t, target) => At(s, t, Scanning(target, s.manifests.Keys))
    case ScanOne(t, app) => At(s, t, Scanning(s.tasks[t].id, s.tasks[t].todo - {app}))
    case EndScan(t) => At(s, t, DeleteReady(s.tasks[t].id))
    case SaveDelete(t) => At(s, t, Writing).(store := Deleted(s.store, s.tasks[t].id))
    case BeginTouch(t, app) => At(s, t, Touching(app, if app in s.manifests then Some(s.manifests[app]) else None))
    case EndTouch(t) =>
      var found := s.tasks[t].found;
      // An unparsable manifest is refused; a missing one becomes an empty object.
      var rest := s.(tasks := s.tasks - {t});
      if found.None? then rest.(manifests := s.manifests[s.tasks[t].app := Manifest([])])
      else if found.value.Torn? then rest
      else rest.(manifests := s.manifests[s.tasks[t].app := found.value])
    case TearTouch(t) => s.(tasks := s.tasks - {t}, manifests := s.manifests[s.tasks[t].app := Torn])
    case RemoveApp(app) => s.(manifests := s.manifests - {app}, markers := s.markers - {app})
    case Quit(t) => s.(tasks := s.tasks - {t})
    case Crash => s.(tasks := map[])
  }

  ghost predicate Init(s: State) {
    Proper(s.store) && s.tasks == map[] && forall app | app in s.manifests :: Backed(s.store, s.manifests[app])
  }

  ghost predicate Run(states: seq<State>, steps: seq<Step>) {
    && |states| == |steps| + 1
    && Init(states[0])
    && forall i | 0 <= i < |steps| :: Enabled(states[i], steps[i]) && states[i + 1] == Apply(states[i], steps[i])
  }

  // Every id of the manifest is in the store.
  predicate Backed(store: Store, m: Manifest) {
    m.Manifest? ==> AllExist(store, m.ids)
  }

  // What each task in flight knows.
  ghost predicate TaskOk(s: State, t: nat)
    requires t in s.tasks
  {
    var task := s.tasks[t];
    && (task.Writes() ==> forall u | u in s.tasks && u != t :: !s.tasks[u].Reads() && !s.tasks[u].Writes())
    && (task.HoldsManifests() ==> forall u | u in s.tasks && u != t :: !s.tasks[u].HoldsManifests())
    && match task
       case Validated(_, ids) => AllExist(s.store, ids)
       case Overwriting(_, ids) => AllExist(s.store, ids)
       case SaveReady(next) => Proper(next) && forall id | Exists(s.store, id) :: Exists(next, id)
       case Scanning(id, todo) => forall app | app in s.manifests && app !in todo :: !Refers(s.manifests[app], id)
       case DeleteReady(id) =>
         && (forall app | app in s.manifests :: !Refers(s.manifests[app], id))
         && (forall u | u in s.tasks && s.tasks[u].Touching? && s.tasks[u].found.Some? ::
               !Refers(s.tasks[u].found.value, id))
       case Touching(_, found) => found.Some? ==> Backed(s.store, found.value)
       case _ => true
  }

  ghost predicate Inv(s: State) {
    && Proper(s.store)
    && (forall app | app in s.manifests :: Backed(s.store, s.manifests[app]))
    && (forall t | t in s.tasks :: TaskOk(s, t))
  }

  lemma GrowsKeepsBacked(before: Store, after: Store, ids: seq<string>)
    requires AllExist(before, ids) && forall id | Exists(before, id) :: Exists(after, id)
    ensures AllExist(after, ids)
  {
  }

  lemma DeleteKeepsBacked(store: Store, id: string, ids: seq<string>)
    requires AllExist(store, ids) && id !in ids
    ensures AllExist(Deleted(store, id), ids)
  {
    forall k | 0 <= k < |ids| ensures Exists(Deleted(store, id), ids[k]) {
      DeletedExists(store, id, ids[k]);
    }
  }

  lemma SaveKeepsInv(s: State, t: nat)
    requires Inv(s) && Enabled(s, Save(t))
    ensures Inv(Apply(s, Save(t)))
  {
    assert TaskOk(s, t);
    var after := Apply(s, Save(t));
    forall app | app in after.manifests ensures Backed(after.store, after.manifests[app]) {
      if s.manifests[app].Manifest? {
        GrowsKeepsBacked(s.store, after.store, s.manifests[app].ids);
      }
    }
    forall u | u in after.tasks ensures TaskOk(after, u) {
      assert TaskOk(s, u);
      if u != t && s.tasks[u].Touching? && s.tasks[u].found.Some? && s.tasks[u].found.value.Manifest? {
        GrowsKeepsBacked(s.store, after.store, s.tasks[u].found.value.ids);
      }
    }
  }

  lemma SaveDeleteKeepsInv(s: State, t: nat)
    requires Inv(s) && Enabled(s, SaveDelete(t))
    ensures Inv(Apply(s, SaveDelete(t)))
  {
    assert TaskOk(s, t);
    var id := s.tasks[t].id;
    var after := Apply(s, SaveDelete(t));
    DeletedIsProper(s.store, id);
    forall app | app in after.manifests ensures Backed(after.store, after.manifests[app]) {
      if s.manifests[app].Manifest? {
        assert !Refers(s.manifests[app], id);
        DeleteKeepsBacked(s.store, id, s.manifests[app].ids);
      }
    }
    forall u | u in after.tasks ensures TaskOk(after, u) {
      assert TaskOk(s, u);
      if u != t && s.tasks[u].Touching? && s.tasks[u].found.Some? && s.tasks[u].found.value.Manifest? {
        assert !Refers(s.tasks[u].found.value, id);
        DeleteKeepsBacked(s.store, id, s.tasks[u].found.value.ids);
      }
    }
  }

  lemma PrepareKeepsInv(s: State, step: Step)
    requires Inv(s) && Enabled(s, step) && (step.PrepareCreate? || step.PrepareUpdate?)
    ensures Inv(Apply(s, step))
  {
    assert TaskOk(s, step.t);
    if step.PrepareCreate? {
      CreatedIsProper(s.store, step.credential);
    } else {
      UpdatedIsProper(s.store, step.target, step.title, step.secret);
    }
    var after := Apply(s, step);
    forall u | u in after.tasks ensures TaskOk(after, u) {
      assert TaskOk(s, u);
    }
  }

  lemma LockingKeepsInv(s: State, step: Step)
    requires Inv(s) && Enabled(s, step)
    requires step.AcquireRead? || step.AcquireWrite? || step.PutMarker? || step.DropMarker? || step.Quit? || step.Crash?
    ensures Inv(Apply(s, step))
  {
    var after := Apply(s, step);
    forall u | u in after.tasks ensures TaskOk(after, u) {
      assert u in s.tasks ==> TaskOk(s, u);
    }
  }

  lemma BindingKeepsInv(s: State, step: Step)
    requires Inv(s) && Enabled(s, step)
    requires step.Validate? || step.SetIds? || step.BeginOverwrite? || step.EndOverwrite?
    ensures Inv(Apply(s, step))
  {
    var after := Apply(s, step);
    forall u | u in after.tasks ensures TaskOk(after, u) {
      assert u in s.tasks ==> TaskOk(s, u);
    }
  }

  lemma ScansKeepsInv(s: State, step: Step)
    requires Inv(s) && Enabled(s, step)
    requires step.BeginScan? || step.ScanOne? || step.EndScan?
    ensures Inv(Apply(s, step))
  {
    var after := Apply(s, step);
    forall u | u in after.tasks ensures TaskOk(after, u) {
      assert u in s.tasks ==> TaskOk(s, u);
    }
  }

  lemma EditingKeepsInv(s: State, step: Step)
    requires Inv(s) && Enabled(s, step)
    requires step.BeginTouch? || step.TearTouch? || step.RemoveApp?
    ensures Inv(Apply(s, step))
  {
    var after := Apply(s, step);
    forall u | u in after.tasks ensures TaskOk(after, u) {
      assert u in s.tasks ==> TaskOk(s, u);
    }
  }

  lemma EndTouchKeepsInv(s: State, t: nat)
    requires Inv(s) && Enabled(s, EndTouch(t))
    ensures Inv(Apply(s, EndTouch(t)))
  {
    var after := Apply(s, EndTouch(t));
    assert TaskOk(s, t);
    forall u | u in after.tasks ensures TaskOk(after, u) {
      assert TaskOk(s, u);
    }
  }

  lemma {:induction false} RunKeepsInv(states: seq<State>, steps: seq<Step>, n: nat)
    requires Run(states, steps) && n <= |steps|
    ensures Inv(states[n])
  {
    if n > 0 {
      RunKeepsInv(states, steps, n - 1);
      var s, step := states[n - 1], steps[n - 1];
      assert Enabled(s, step);
      match step
      case Save(t) => SaveKeepsInv(s, t);
      case SaveDelete(t) => SaveDeleteKeepsInv(s, t);
      case PrepareCreate(_, _) => PrepareKeepsInv(s, step);
      case PrepareUpdate(_, _, _, _) => PrepareKeepsInv(s, step);
      case Validate(_, _, _) => BindingKeepsInv(s, step);
      case SetIds(_) => BindingKeepsInv(s, step);
      case BeginOverwrite(_) => BindingKeepsInv(s, step);
      case EndOverwrite(_) => BindingKeepsInv(s, step);
      case BeginScan(_, _) => ScansKeepsInv(s, step);
      case ScanOne(_, _) => ScansKeepsInv(s, step);
      case EndScan(_) => ScansKeepsInv(s, step);
      case BeginTouch(_, _) => EditingKeepsInv(s, step);
      case EndTouch(t) => EndTouchKeepsInv(s, t);
      case TearTouch(_) => EditingKeepsInv(s, step);
      case RemoveApp(_) => EditingKeepsInv(s, step);
      case _ => LockingKeepsInv(s, step);
    }
  }

  /** In every interleaving, every credential id in an app manifest names a stored
      credential. */
  lemma ManifestIdsExist(states: seq<State>, steps: seq<Step>, n: nat, app: string, id: string)
    requires Run(states, steps) && n <= |steps|
    requires app in states[n].manifests && Refers(states[n].manifests[app], id)
    ensures Exists(states[n].store, id)
  {
    RunKeepsInv(states, steps, n);
    assert Backed(states[n].store, states[n].manifests[app]);
  }

  /** In every interleaving, no two credentials of one registry share a title, ignoring
      case. */
  lemma LabelsStayUnique(states: seq<State>, steps: seq<Step>, n: nat, i: nat, j: nat)
    requires Run(states, steps) && n <= |steps|
    requires i < j < |states[n].store| && states[n].store[i].registry == states[n].store[j].registry
    ensures !SameLabel(states[n].store[i].title, states[n].store[j].title)
    ensures states[n].store[i].id != states[n].store[j].id
  {
    RunKeepsInv(states, steps, n);
  }
}
