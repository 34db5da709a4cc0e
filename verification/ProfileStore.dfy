/**
 Persistence of the backup profiles (engine/nasty-backup/src/lib.rs, create_profile,
 delete_profile, persist_profiles_checked, save_profiles_to, publish_profiles,
 load_profiles_from): the in-memory list and the state file.

 A file is represented by what decoding it gives: `Holds(list)`, `Garbage`, or a read
 error; a missing file decodes to the empty list.  Encoding followed by decoding is taken
 to be the identity.  `faults` names the calls that fail.
 */
module ProfileStore {
  import opened Base

  datatype Profile = Profile(id: string, name: string, definition: string)

  type Profiles = seq<Profile>

  datatype File = Missing | Holds(profiles: Profiles) | Garbage(bytes: nat) | Unreadable

  datatype Op = Read | Create | Write | SyncData | Rename | Cleanup | SyncDir

  datatype PersistFailure = BeforeRename | AfterRename

  datatype StoreError = AlreadyExists | NotFound | Persist(failure: PersistFailure)

  function Decode(f: File, faults: set<Op>): Option<Profiles> {
    if Read in faults then None
    else match f
      case Missing => Some([])
      case Holds(profiles) => Some(profiles)
      case _ => None
  }

  function Committed(r: Result<(), PersistFailure>): bool {
    r.Ok? || r.error.AfterRename?
  }

  ghost predicate Distinct(profiles: Profiles) {
    forall i, j | 0 <= i < j < |profiles| ::
      profiles[i].id != profiles[j].id && profiles[i].name != profiles[j].name
  }

  function Without(profiles: Profiles, id: string): Profiles {
    if profiles == [] then []
    else
      var init := Without(profiles[..|profiles| - 1], id);
      if profiles[|profiles| - 1].id == id then init else init + [profiles[|profiles| - 1]]
  }

  class Store {
    var profiles: Profiles
    var loadError: bool
    var file: File
    var temp: bool
    var cacerts: set<string>

    // Memory and file agree, unless the startup load failed.
    ghost predicate Synced()
      reads this
    {
      !loadError ==> Decode(file, {}) == Some(profiles)
    }

    // Startup.
    constructor (file: File, temp: bool, cacerts: set<string>, faults: set<Op>)
      ensures this.file == file && this.cacerts == cacerts
      ensures loadError <==> Decode(file, faults).None?
      ensures profiles == if loadError then [] else Decode(file, faults).value
      ensures Synced()
    {
      this.file, this.cacerts := file, cacerts;
      this.temp := temp && Cleanup in faults;
      var loaded := Decode(file, faults);
      loadError := loaded.None?;
      profiles := if loaded.Some? then loaded.value else [];
    }

    // save_profiles_to.
    method Save(next: Profiles, faults: set<Op>) returns (r: Result<(), PersistFailure>)
      modifies this`file, this`temp
      ensures Committed(r) <==> Decode(old(file), faults).Some? && !old(temp) && faults !! {Create, Write, SyncData, Rename}
      ensures r.Ok? <==> Committed(r) && SyncDir !in faults
      ensures Committed(r) ==> file == Holds(next) && !temp
      ensures !Committed(r) ==> file == old(file)
    {
      if Decode(file, faults).None? || temp || Create in faults {
        return Err(BeforeRename);
      }
      temp := true;
      if Write in faults || SyncData in faults || Rename in faults {
        temp := Cleanup in faults;
        return Err(BeforeRename);
      }
      file, temp := Holds(next), false;
      r := if SyncDir in faults then Err(AfterRename) else Ok(());
    }

    /** persist_profiles_checked: memory follows the file at every failure point, and a
        store whose startup load failed, or whose file does not decode, is left alone. */
    method PersistChecked(next: Profiles, faults: set<Op>) returns (r: Result<(), PersistFailure>)
      modifies this`profiles, this`file, this`temp
      ensures Committed(r) ==> file == Holds(next) && profiles == next
      ensures !Committed(r) ==> file == old(file) && profiles == old(profiles)
      ensures loadError || Decode(old(file), faults).None? ==> r == Err(BeforeRename)
      ensures old(Synced()) ==> Synced()
    {
      if loadError {
        return Err(BeforeRename);
      }
      r := Save(next, faults);
      if r.Ok? || r.error.AfterRename? {
        profiles := next;
      }
    }

    method CreateProfile(profile: Profile, faults: set<Op>) returns (r: Result<(), StoreError>)
      modifies this`profiles, this`file, this`temp
      ensures r == Err(AlreadyExists) <==>
                exists i | 0 <= i < |old(profiles)| :: old(profiles)[i].id == profile.id || old(profiles)[i].name == profile.name
      ensures r.Ok? || r == Err(Persist(AfterRename)) ==> profiles == old(profiles) + [profile] && file == Holds(profiles)
      ensures r == Err(Persist(BeforeRename)) || r == Err(AlreadyExists) ==> profiles == old(profiles) && file == old(file)
      ensures r != Err(NotFound)
      ensures old(Distinct(profiles)) ==> Distinct(profiles)
      ensures old(Synced()) ==> Synced()
    {
      var i := 0;
      while i < |profiles|
        invariant 0 <= i <= |profiles| && profiles == old(profiles) && file == old(file) && loadError == old(loadError)
        invariant forall k | 0 <= k < i :: profiles[k].id != profile.id && profiles[k].name != profile.name
      {
        if profiles[i].id == profile.id || profiles[i].name == profile.name {
          return Err(AlreadyExists);
        }
        i := i + 1;
      }
      var persisted := PersistChecked(profiles + [profile], faults);
      r := if persisted.Ok? then Ok(()) else Err(Persist(persisted.error));
    }

    method DeleteProfile(id: string, faults: set<Op>) returns (r: Result<(), StoreError>)
      modifies this`profiles, this`file, this`temp, this`cacerts
      ensures r == Err(NotFound) <==> forall i | 0 <= i < |old(profiles)| :: old(profiles)[i].id != id
      ensures r.Ok? || r == Err(Persist(AfterRename)) ==>
                profiles == Without(old(profiles), id) && file == Holds(profiles) && cacerts == old(cacerts) - {id}
      ensures r == Err(Persist(BeforeRename)) || r == Err(NotFound) ==>
                profiles == old(profiles) && file == old(file) && cacerts == old(cacerts)
      ensures r != Err(AlreadyExists)
      ensures old(Distinct(profiles)) ==> Distinct(profiles)
      ensures old(Synced()) ==> Synced()
    {
      if !(exists i | 0 <= i < |profiles| :: profiles[i].id == id) {
        return Err(NotFound);
      }
      WithoutContents(profiles, id);
      var persisted := PersistChecked(Without(profiles, id), faults);
      if Committed(persisted) {
        cacerts := cacerts - {id};
      }
      r := if persisted.Ok? then Ok(()) else Err(Persist(persisted.error));
    }
  }

  /** Deleting removes every profile with the id, keeps the rest, and keeps them distinct. */
  lemma {:induction false} WithoutContents(profiles: Profiles, id: string)
    ensures forall p :: p in Without(profiles, id) <==> p in profiles && p.id != id
    ensures Distinct(profiles) ==> Distinct(Without(profiles, id))
  {
    if profiles != [] {
      var init, last := profiles[..|profiles| - 1], profiles[|profiles| - 1];
      WithoutContents(init, id);
      assert profiles == init + [last];
      if Distinct(profiles) {
        assert Distinct(init);
        forall k | 0 <= k < |Without(init, id)|
          ensures Without(init, id)[k].id != last.id && Without(init, id)[k].name != last.name
        {
          assert Without(init, id)[k] in init;
        }
      }
    }
  }
}

/**
 The same persistence as a machine of single file operations, with a crash possible
 between any two of them, and edits of the file by others.

 A file has contents as they read now and contents on disk; the two may differ until the
 data is synced.  A rename changes what the state path reads at once, and what a crash finds
 there only when the directory entry reaches the disk.
 */
module ProfileStoreCrash {
  import opened Base
  import opened ProfileStore

  /** Where a save is: checked; temporary file created, written, synced; renamed. */
  datatype Pc =
    | Down
    | Idle
    | Checked(next: Profiles)
    | Staged(next: Profiles)
    | Written(next: Profiles)
    | Ready(next: Profiles)
    | Renamed(next: Profiles)

  /** `file` is what the state path reads, `data` what its file has on disk, and `settled`
      says that the data can no longer change on its own.  `linked`: the directory entry is on
      disk; otherwise a crash finds `before`.  `temp`: the temporary file exists;
      `tempData` is what it has on disk. */
  datatype State = State(
    mem: Profiles,
    loadError: bool,
    file: File,
    data: File,
    settled: bool,
    linked: bool,
    before: File,
    temp: bool,
    tempData: File,
    pc: Pc)

  datatype Step =
    | Start(readFails: bool, cleaned: bool)
    | Check(next: Profiles, readFails: bool)
    | CreateTemp
    | WriteTemp
    | SyncTemp
    | Rename
    | Fail(cleaned: bool)
    | Publish(dirSynced: bool)
    | TearTemp(junk: File)
    | Tear(junk: File)
    | WriteBack
    | Crash(tempLeft: bool)
    | OutsideEdit(file: File)

  function FaultsOf(readFails: bool): set<Op> {
    if readFails then {Read} else {}
  }

  // What a crash finds under the state path.
  function OnDisk(s: State): File {
    if s.linked then s.data else s.before
  }

  predicate Undecodable(f: File) {
    Decode(f, {}).None?
  }

  /** What the file system allows; the code renames only after the sync, which is `Follows`. */
  predicate Enabled(s: State, step: Step) {
    match step
    case Start(_, _) => s.pc.Down?
    case Check(_, _) => s.pc.Idle?
    case CreateTemp => s.pc.Checked? && !s.temp
    case WriteTemp => s.pc.Staged?
    case SyncTemp => s.pc.Written?
    case Rename => s.pc.Written? || s.pc.Ready?
    case Fail(_) => s.pc.Checked? || s.pc.Staged? || s.pc.Written? || s.pc.Ready?
    case Publish(_) => s.pc.Renamed?
    case TearTemp(_) => s.pc.Staged? || s.pc.Written?
    case Tear(_) => !s.settled
    case WriteBack => true
    case Crash(_) => true
    case OutsideEdit(_) => true
  }

  predicate Follows(s: State, step: Step) {
    step.Rename? ==> s.pc.Ready?
  }

  function Apply(s: State, step: Step): State
    requires Enabled(s, step)
  {
    match step
    case Start(readFails, cleaned) =>
      var loaded := Decode(s.file, FaultsOf(readFails));
      s.(mem := if loaded.Some? then loaded.value else [], loadError := loaded.None?,
         temp := s.temp && !cleaned, pc := Idle)
    case Check(next, readFails) =>
      if s.loadError || Decode(s.file, FaultsOf(readFails)).None? then s else s.(pc := Checked(next))
    case CreateTemp => s.(temp := true, tempData := Garbage(0), pc := Staged(s.pc.next))
    case WriteTemp => s.(pc := Written(s.pc.next))
    case SyncTemp => s.(tempData := Holds(s.pc.next), pc := Ready(s.pc.next))
    case Rename =>
      s.(file := Holds(s.pc.next), data := s.tempData, settled := s.pc.Ready?, linked := false, before := OnDisk(s),
         temp := false, pc := Renamed(s.pc.next))
    case Fail(cleaned) => s.(temp := s.temp && !cleaned, pc := Idle)
    case Publish(dirSynced) => s.(mem := s.pc.next, linked := s.linked || dirSynced, pc := Idle)
    case TearTemp(junk) => s.(tempData := junk)
    case Tear(junk) => s.(data := junk)
    case WriteBack => s.(linked := true)
    case Crash(tempLeft) =>
      var found := OnDisk(s);
      s.(file := found, data := found, settled := true, linked := true, before := found, temp := tempLeft,
         mem := [], loadError := false, pc := Down)
    case OutsideEdit(f) => s.(file := f, data := f, settled := true, linked := true)
  }

  // The engine has not started; the file is there or not, and durable.
  ghost predicate Init(s: State) {
    s.pc.Down? && s.data == s.file && s.settled && s.linked && Whole(s.file)
  }

  // Any run of file operations, and those the code makes.
  ghost predicate Path(states: seq<State>, steps: seq<Step>) {
    && |states| == |steps| + 1
    && forall i | 0 <= i < |steps| :: Enabled(states[i], steps[i]) && states[i + 1] == Apply(states[i], steps[i])
  }

  ghost predicate Run(states: seq<State>, steps: seq<Step>) {
    Path(states, steps) && forall i | 0 <= i < |steps| :: Follows(states[i], steps[i])
  }

  ghost predicate Undisturbed(steps: seq<Step>) {
    forall i | 0 <= i < |steps| :: !steps[i].OutsideEdit?
  }

  predicate Whole(f: File) {
    f.Missing? || f.Holds?
  }

  function Contents(f: File): Profiles {
    if f.Holds? then f.profiles else []
  }

  // The data of the state file is on disk, and that of a synced temporary file too.
  predicate Solid(s: State) {
    && s.settled && s.data == s.file
    && (s.pc.Ready? ==> s.tempData == Holds(s.pc.next))
  }

  predicate Inv(s: State) {
    && Solid(s) && Whole(s.file) && Whole(OnDisk(s))
    && (!s.pc.Down? && !s.loadError ==>
          Contents(s.file) == if s.pc.Renamed? then s.pc.next else s.mem)
    && (s.loadError ==> s.pc.Idle? || s.pc.Down?)
  }

  lemma StepKeepsInv(s: State, step: Step)
    requires Inv(s) && Enabled(s, step) && Follows(s, step) && !step.OutsideEdit?
    ensures Inv(Apply(s, step))
  {
  }

  lemma {:induction false} RunKeepsInv(states: seq<State>, steps: seq<Step>, n: nat)
    requires Run(states, steps) && Init(states[0]) && Undisturbed(steps) && n <= |steps|
    ensures Inv(states[n])
  {
    if n > 0 {
      RunKeepsInv(states, steps, n - 1);
      assert Enabled(states[n - 1], steps[n - 1]) && Follows(states[n - 1], steps[n - 1]);
      StepKeepsInv(states[n - 1], steps[n - 1]);
    }
  }

  /** Without outside edits, whenever the engine is up, loaded its state and is not inside a
      save, memory is exactly what the file decodes to, after every success, failure and
      crash. */
  lemma MemoryEqualsFile(states: seq<State>, steps: seq<Step>, n: nat)
    requires Run(states, steps) && Init(states[0]) && Undisturbed(steps) && n <= |steps|
    requires states[n].pc.Idle? && !states[n].loadError
    ensures Decode(states[n].file, {}) == Some(states[n].mem)
  {
    RunKeepsInv(states, steps, n);
  }

  // ------------------------------------------------------------------ crashes during a save

  // No crash, edit or rename among the first n steps.
  ghost predicate Quiet(steps: seq<Step>, n: nat)
    requires n <= |steps|
  {
    forall k | 0 <= k < n :: !steps[k].Crash? && !steps[k].OutsideEdit? && !steps[k].Rename?
  }

  lemma {:induction false} QuietKeepsFile(states: seq<State>, steps: seq<Step>, n: nat)
    requires Path(states, steps) && n <= |steps| && Quiet(steps, n) && states[0].settled
    ensures states[n].data == states[0].data && states[n].settled
    ensures OnDisk(states[n]) == OnDisk(states[0]) || OnDisk(states[n]) == states[0].data
    ensures states[n].before == states[0].before
  {
    if n > 0 {
      QuietKeepsFile(states, steps, n - 1);
      assert Enabled(states[n - 1], steps[n - 1]);
    }
  }

  // The states of a run from position k on.
  lemma Suffix(states: seq<State>, steps: seq<Step>, k: nat)
    requires Path(states, steps) && k <= |steps|
    ensures Path(states[k..], steps[k..])
  {
    forall i | 0 <= i < |steps[k..]|
      ensures Enabled(states[k..][i], steps[k..][i]) && states[k..][i + 1] == Apply(states[k..][i], steps[k..][i])
    {
      assert Enabled(states[k + i], steps[k + i]);
    }
  }

  /** A crash in the middle of a save leaves the whole old list or the whole new one: with at
      most one rename, at r, since the file was last on disk, the crash finds the file from
      before it or the list that save had synced. */
  lemma CrashMidSave(states: seq<State>, steps: seq<Step>, j: nat, r: nat)
    requires Run(states, steps) && j < |steps| && Solid(states[0]) && states[0].linked
    requires steps[j].Crash?
    requires forall k | 0 <= k < j :: !steps[k].Crash? && !steps[k].OutsideEdit? && (steps[k].Rename? ==> k == r)
    ensures || states[j + 1].file == states[0].file
            || (r < j && steps[r].Rename? && states[r].pc.Ready? && states[j + 1].file == Holds(states[r].pc.next))
  {
    assert Enabled(states[j], steps[j]);
    if r < j && steps[r].Rename? {
      assert Enabled(states[r], steps[r]) && Follows(states[r], steps[r]);
      QuietKeepsFile(states, steps, r);
      SolidUntil(states, steps, r);
      Suffix(states, steps, r + 1);
      QuietKeepsFile(states[r + 1..], steps[r + 1..], j - r - 1);
    } else {
      QuietKeepsFile(states, steps, j);
    }
  }

  lemma {:induction false} SolidUntil(states: seq<State>, steps: seq<Step>, n: nat)
    requires Run(states, steps) && n <= |steps| && Solid(states[0])
    ensures Solid(states[n])
  {
    if n > 0 {
      SolidUntil(states, steps, n - 1);
      assert Enabled(states[n - 1], steps[n - 1]) && Follows(states[n - 1], steps[n - 1]);
    }
  }

  // A crash after the rename, with nothing renamed or edited in between.
  ghost predicate CrashesAfterRename(s: State, states: seq<State>, steps: seq<Step>) {
    && Path(states, steps) && |steps| >= 2 && states[0] == s
    && steps[0].Rename? && steps[|steps| - 1].Crash?
    && forall k | 0 < k < |steps| - 1 :: !steps[k].Crash? && !steps[k].OutsideEdit? && !steps[k].Rename?
  }

  // However the disk is written back, a crash after the rename finds the old or the new list.
  ghost predicate RenameIsAtomic(s: State)
    requires s.pc.Written? || s.pc.Ready?
  {
    forall states: seq<State>, steps: seq<Step> | CrashesAfterRename(s, states, steps) ::
      states[|steps|].file == OnDisk(s) || states[|steps|].file == Holds(s.pc.next)
  }

  lemma SyncedRenameIsAtomic(s: State, states: seq<State>, steps: seq<Step>)
    requires s.pc.Ready? && Solid(s) && CrashesAfterRename(s, states, steps)
    ensures states[|steps|].file == OnDisk(s) || states[|steps|].file == Holds(s.pc.next)
  {
    var n := |steps| - 1;
    assert Enabled(states[0], steps[0]) && Enabled(states[n], steps[n]);
    Suffix(states, steps, 1);
    QuietKeepsFile(states[1..], steps[1..], n - 1);
  }

  // The torn data and the new directory entry reach the disk.
  lemma UnsyncedRenameTears(s: State, junk: File) returns (states: seq<State>, steps: seq<Step>)
    requires s.pc.Written?
    ensures CrashesAfterRename(s, states, steps) && states[|steps|].file == junk
  {
    var s1 := Apply(s, Step.Rename);
    var s2 := Apply(s1, Tear(junk));
    var s3 := Apply(s2, WriteBack);
    var s4 := Apply(s3, Crash(false));
    states, steps := [s, s1, s2, s3, s4], [Step.Rename, Tear(junk), WriteBack, Crash(false)];
  }

  /** The save is atomic exactly when the rename comes after the sync of the temporary file;
      without it a crash can find anything. */
  lemma AtomicIffSynced(s: State)
    requires (s.pc.Written? || s.pc.Ready?) && Solid(s)
    ensures RenameIsAtomic(s) <==> s.pc.Ready?
  {
    if s.pc.Ready? {
      forall states: seq<State>, steps: seq<Step> | CrashesAfterRename(s, states, steps)
        ensures states[|steps|].file == OnDisk(s) || states[|steps|].file == Holds(s.pc.next)
      {
        SyncedRenameIsAtomic(s, states, steps);
      }
    } else {
      var junk := if OnDisk(s) == Unreadable then Garbage(0) else Unreadable;
      var states, steps := UnsyncedRenameTears(s, junk);
    }
  }

  // ------------------------------------------------------------------ files that do not decode

  predicate InSave(pc: Pc) {
    pc.Checked? || pc.Staged? || pc.Written? || pc.Ready?
  }

  // A save in flight began with a check that decoded the file.
  ghost predicate CheckedAt(states: seq<State>, steps: seq<Step>, k: nat, n: nat)
    requires |states| == |steps| + 1 && n <= |steps|
  {
    && k < n && steps[k].Check? && !states[k].loadError && Decode(states[k].file, {}).Some?
    && forall m | k < m < n :: !steps[m].Check? && !steps[m].Start? && !steps[m].Crash?
  }

  lemma {:induction false} InFlightWasChecked(states: seq<State>, steps: seq<Step>, n: nat)
    requires Path(states, steps) && !InSave(states[0].pc) && n <= |steps| && InSave(states[n].pc)
    ensures exists k :: CheckedAt(states, steps, k, n)
  {
    assert n > 0;
    assert Enabled(states[n - 1], steps[n - 1]);
    if InSave(states[n - 1].pc) {
      InFlightWasChecked(states, steps, n - 1);
      var k :| CheckedAt(states, steps, k, n - 1);
      assert CheckedAt(states, steps, k, n);
    } else {
      assert CheckedAt(states, steps, n - 1, n);
    }
  }

  /** Every rename belongs to a save whose check found the engine healthy and the file
      decodable. */
  lemma RenameWasChecked(states: seq<State>, steps: seq<Step>, n: nat)
    requires Path(states, steps) && !InSave(states[0].pc) && n < |steps| && steps[n].Rename?
    ensures exists k :: CheckedAt(states, steps, k, n)
  {
    assert Enabled(states[n], steps[n]);
    InFlightWasChecked(states, steps, n);
  }

  /** A corrupt file that is on disk survives every operation, crash and restart, until
      somebody else edits it. */
  lemma {:induction false} CorruptFileIsKept(states: seq<State>, steps: seq<Step>, n: nat)
    requires Run(states, steps) && n <= |steps|
    requires states[0].pc.Idle? || states[0].pc.Down?
    requires Undecodable(states[0].file) && states[0].data == states[0].file && states[0].settled && states[0].linked
    requires forall k | 0 <= k < n :: !steps[k].OutsideEdit?
    ensures states[n].file == states[0].file && states[n].data == states[0].file
    ensures (states[n].pc.Idle? || states[n].pc.Down?) && states[n].settled && states[n].linked
  {
    if n > 0 {
      CorruptFileIsKept(states, steps, n - 1);
      assert Enabled(states[n - 1], steps[n - 1]);
    }
  }

  /** After a startup load that failed for a passing reason, no operation changes the file
      until the engine is restarted. */
  lemma {:induction false} LoadErrorKeepsFile(states: seq<State>, steps: seq<Step>, n: nat)
    requires Run(states, steps) && n <= |steps| && states[0].pc.Idle? && states[0].loadError
    requires forall k | 0 <= k < n :: !steps[k].OutsideEdit? && !steps[k].Crash?
    ensures states[n].file == states[0].file && states[n].pc.Idle? && states[n].loadError
  {
    if n > 0 {
      LoadErrorKeepsFile(states, steps, n - 1);
      assert Enabled(states[n - 1], steps[n - 1]);
    }
  }

  // A run of the code from s without crash or outside edit.
  ghost predicate Continues(s: State, states: seq<State>, steps: seq<Step>) {
    Run(states, steps) && states[0] == s && forall k | 0 <= k < |steps| :: !steps[k].Crash? && !steps[k].OutsideEdit?
  }

  // The code never replaces the file from s on.
  ghost predicate Keeps(s: State) {
    forall states: seq<State>, steps: seq<Step> | Continues(s, states, steps) :: states[|steps|].file == s.file
  }

  // A save past its check that can still reach its rename.
  predicate AboutToReplace(s: State) {
    (s.pc.Checked? && !s.temp) || s.pc.Staged? || s.pc.Written? || s.pc.Ready?
  }

  lemma {:induction false} NotAboutToReplace(states: seq<State>, steps: seq<Step>, n: nat)
    requires Run(states, steps) && n <= |steps| && !AboutToReplace(states[0]) && Undecodable(states[0].file)
    requires forall k | 0 <= k < n :: !steps[k].Crash? && !steps[k].OutsideEdit?
    ensures states[n].file == states[0].file && !AboutToReplace(states[n])
  {
    if n > 0 {
      NotAboutToReplace(states, steps, n - 1);
      assert Enabled(states[n - 1], steps[n - 1]) && Follows(states[n - 1], steps[n - 1]);
    }
  }

  lemma One(s: State)
    ensures Continues(s, [s], [])
  {
  }

  lemma Before(s: State, step: Step, states: seq<State>, steps: seq<Step>)
    requires Enabled(s, step) && Follows(s, step) && !step.Crash? && !step.OutsideEdit?
    requires Continues(Apply(s, step), states, steps)
    ensures Continues(s, [s] + states, [step] + steps)
  {
    var ss, ts := [s] + states, [step] + steps;
    forall i | 0 <= i < |ts|
      ensures Enabled(ss[i], ts[i]) && ss[i + 1] == Apply(ss[i], ts[i]) && Follows(ss[i], ts[i])
    {
      if i > 0 {
        assert Enabled(states[i - 1], steps[i - 1]);
      }
    }
  }

  // A save past its check goes on to replace the file.
  lemma Replaces(s: State) returns (states: seq<State>, steps: seq<Step>)
    requires AboutToReplace(s)
    ensures Continues(s, states, steps) && states[|steps|].file == Holds(s.pc.next)
    decreases if s.pc.Checked? then 3 else if s.pc.Staged? then 2 else if s.pc.Written? then 1 else 0
  {
    var step := if s.pc.Checked? then CreateTemp else if s.pc.Staged? then WriteTemp
      else if s.pc.Written? then SyncTemp else Step.Rename;
    var next := Apply(s, step);
    if s.pc.Ready? {
      One(next);
      states, steps := [next], [];
    } else {
      states, steps := Replaces(next);
    }
    Before(s, step, states, steps);
    states, steps := [s] + states, [step] + steps;
  }

  /** The check protects only what it saw.  From a state with an undecodable file, however it
      came to be so, every continuation keeps that file exactly when no save is past its check
      with its way to the rename open. */
  lemma KeptIffNotAboutToReplace(s: State)
    requires Undecodable(s.file)
    ensures Keeps(s) <==> !AboutToReplace(s)
  {
    if AboutToReplace(s) {
      var states, steps := Replaces(s);
      assert states[|steps|].file != s.file;
    } else {
      forall states: seq<State>, steps: seq<Step> | Continues(s, states, steps)
        ensures states[|steps|].file == s.file
      {
        NotAboutToReplace(states, steps, |steps|);
      }
    }
  }

  /** So an edit that makes the file undecodable is lost to a save that checked before it,
      and to no other. */
  lemma LateEditIsLostIff(s: State, edit: File)
    requires Undecodable(edit)
    ensures Keeps(Apply(s, OutsideEdit(edit))) <==> !AboutToReplace(s)
  {
    KeptIffNotAboutToReplace(Apply(s, OutsideEdit(edit)));
  }
}
