/**
 The restricted tar extractor and the session around it (`exact`, `extract_tar`, `retrieve`
 and `inspect` in nixos/scripts/recovery-inspect.py).

 `Extract` says what an archive means: the tree it stages or the reason it is refused.
 `ExtractTar` is the loop over a stream that may return short reads, proved to compute it.
 Every accepted archive is shown to stage a tree that the later traversal accepts with the
 same entry and byte counts.
 */
module RecoveryTar {
  import opened Base
  import opened Text
  import opened RecoveryTree
  import opened TarHeader

  const MAX_PADDING: nat := 64 * 1024
  const CHUNK: nat := 64 * 1024

  // The names seen, the paths created, the tree on disk, and the bytes counted.
  datatype State = State(seen: set<string>, created: set<Path>, tree: Tree, bytes: nat)

  const INITIAL: State := State({}, {}, map[], 0)

  // ------------------------------------------------------------------ one entry

  // The i-th of the directories on the way is made if it was not, and then opened.
  function MakeDirectory(st: State, path: Path): Result<State, Refusal> {
    if path !in st.created then
      if path in st.tree then Err(FilesystemError)
      else
        var made := st.(created := st.created + {path}, tree := st.tree[path := Directory]);
        if |made.created| > MAX_ENTRIES then Err(EntryLimit) else Ok(made)
    else if !HasDirectory(st.tree, path) then Err(FilesystemError)
    else Ok(st)
  }

  // The first n directories of a path.
  function MakeDirectories(st: State, parts: Path, n: nat): Result<State, Refusal>
    requires n <= |parts|
  {
    if n == 0 then Ok(st)
    else
      var before := MakeDirectories(st, parts, n - 1);
      if before.Err? then before else MakeDirectory(before.value, parts[..n])
  }

  function Enlisted(st: State, rec: Record): State {
    st.(seen := st.seen + {rec.name}, bytes := st.bytes + rec.size)
  }

  // How many of an entry's parts are directories to make.
  function DirectoryCount(rec: Record): (n: nat)
    requires rec.directory || rec.parts != []
    ensures n <= |rec.parts|
  {
    if rec.directory then |rec.parts| else |rec.parts| - 1
  }

  // Names, limits and directories of an entry, before any content is read.
  function Enter(st: State, rec: Record): Result<State, Refusal>
    requires rec.directory || rec.parts != []
  {
    if rec.name in st.seen then Err(DuplicateArchiveEntry)
    else
      var entered := Enlisted(st, rec);
      if |entered.seen| > MAX_ENTRIES then Err(EntryLimit)
      else if entered.bytes > MAX_BYTES then Err(ByteLimit)
      else MakeDirectories(entered, rec.parts, DirectoryCount(rec))
  }

  function WriteFile(st: State, path: Path, content: string): Result<State, Refusal> {
    if path in st.tree then Err(FilesystemError)
    else
      var written := st.(created := st.created + {path}, tree := st.tree[path := File(content)]);
      if |written.created| > MAX_ENTRIES then Err(EntryLimit) else Ok(written)
  }

  // ------------------------------------------------------------------ the archive

  function Padding(size: nat): nat {
    if size % BLOCK == 0 then 0 else BLOCK - size % BLOCK
  }

  // The second end block, and zero padding up to the end of the stream.
  function EndOf(rest: string, st: State): Result<State, Refusal> {
    if |rest| < BLOCK then Err(TruncatedArchive)
    else if rest[..BLOCK] != Zeros(BLOCK) then Err(InvalidArchiveEnd)
    else if |rest| - BLOCK > MAX_PADDING || rest[BLOCK..] != Zeros(|rest| - BLOCK) then Err(InvalidArchiveEnd)
    else Ok(st)
  }

  // The content of a file, and the padding after it.
  function Store(rest: string, st: State, rec: Record): Result<State, Refusal> {
    if rec.parts in st.tree then Err(FilesystemError)
    else if |rest| < rec.size then Err(TruncatedArchive)
    else
      var written := WriteFile(st, rec.parts, rest[..rec.size]);
      if written.Err? then written
      else if |rest| < rec.size + Padding(rec.size) then Err(TruncatedArchive)
      else written
  }

  function Step(h: string, rest: string, st: State, utf8: string -> bool): Result<State, Refusal>
    requires |h| == BLOCK
  {
    var rec := ParseHeader(h, utf8);
    if rec.Err? then Err(rec.error)
    else
      ParsedIsSound(h, utf8);
      var entered := Enter(st, rec.value);
      if entered.Err? || rec.value.directory then entered else Store(rest, entered.value, rec.value)
  }

  // How far an accepted entry reaches into what follows its header.
  function Length(h: string, utf8: string -> bool): nat
    requires |h| == BLOCK && ParseHeader(h, utf8).Ok?
  {
    var rec := ParseHeader(h, utf8).value;
    rec.size + Padding(rec.size)
  }

  lemma StepFits(h: string, rest: string, st: State, utf8: string -> bool)
    requires |h| == BLOCK && Step(h, rest, st, utf8).Ok?
    ensures ParseHeader(h, utf8).Ok? && Length(h, utf8) <= |rest|
  {
    ParsedIsSound(h, utf8);
    var rec := ParseHeader(h, utf8).value;
    StoreFits(rest, Enter(st, rec), rec);
  }

  lemma StoreFits(rest: string, entered: Result<State, Refusal>, rec: Record)
    ensures entered.Ok? && Store(rest, entered.value, rec).Ok? ==> rec.size + Padding(rec.size) <= |rest|
    ensures rec.size == 0 ==> rec.size + Padding(rec.size) == 0
  {
  }

  /** What the archive in the stream stages, starting from the state. */
  function Extract(stream: string, st: State, utf8: string -> bool): Result<State, Refusal>
    decreases |stream|
  {
    if |stream| < BLOCK then Err(TruncatedArchive)
    else
      var h, rest := stream[..BLOCK], stream[BLOCK..];
      if h == Zeros(BLOCK) then EndOf(rest, st)
      else
        var next := Step(h, rest, st, utf8);
        if next.Err? then next
        else
          StepFits(h, rest, st, utf8);
          Extract(rest[Length(h, utf8)..], next.value, utf8)
  }

  // ------------------------------------------------------------------ what every state keeps

  // Root entries apart, the tree is prefix-closed and within the limits, the created names
  // are its paths, and the byte count is its size.
  ghost predicate Inv(st: State) {
    && st.created == st.tree.Keys
    && PrefixClosed(st.tree)
    && AllAllowed(st.tree)
    && ShallowPaths(st.tree)
    && |st.created| <= MAX_ENTRIES
  }

  ghost predicate ShallowPaths(t: Tree) {
    forall p | p in t :: |p| <= MAX_DEPTH
  }

  // The bytes counted are those of the tree.
  ghost predicate Counted(st: State) {
    st.bytes == TotalSize(st.tree) && st.bytes <= MAX_BYTES
  }

  lemma TotalInsert(t: Tree, p: Path, n: Node)
    requires p !in t
    ensures TotalSize(t[p := n]) == TotalSize(t) + Size(n)
  {
    TotalWithout(t[p := n], p);
    assert t[p := n] - {p} == t;
  }

  // Adding an entry whose parent is there.
  lemma InsertKeeps(st: State, p: Path, n: Node)
    requires Inv(st) && p !in st.tree && p != [] && |p| <= MAX_DEPTH && Size(n) <= MAX_FILE
    requires |p| > 1 ==> HasDirectory(st.tree, p[..|p| - 1])
    requires |st.created + {p}| <= MAX_ENTRIES
    ensures Inv(st.(created := st.created + {p}, tree := st.tree[p := n]))
  {
  }

  // Making directories changes neither the names seen nor any byte count.
  ghost predicate Prepared(st: State, after: State) {
    Inv(after) && after.seen == st.seen && after.bytes == st.bytes && TotalSize(after.tree) == TotalSize(st.tree)
  }

  lemma DirectoryKeeps(st: State, path: Path)
    requires Inv(st) && path != [] && |path| <= MAX_DEPTH && MakeDirectory(st, path).Ok?
    requires |path| > 1 ==> HasDirectory(st.tree, path[..|path| - 1])
    ensures Prepared(st, MakeDirectory(st, path).value) && HasDirectory(MakeDirectory(st, path).value.tree, path)
  {
    if path !in st.created {
      InsertKeeps(st, path, Directory);
      TotalInsert(st.tree, path, Directory);
    }
  }

  lemma {:induction false} DirectoriesKeep(st: State, parts: Path, n: nat)
    requires Inv(st) && n <= |parts| <= MAX_DEPTH && MakeDirectories(st, parts, n).Ok?
    ensures Prepared(st, MakeDirectories(st, parts, n).value)
    ensures n > 0 ==> HasDirectory(MakeDirectories(st, parts, n).value.tree, parts[..n])
    decreases n
  {
    if n > 0 {
      DirectoriesKeep(st, parts, n - 1);
      DirectoriesStep(st, MakeDirectories(st, parts, n - 1).value, parts, n);
    }
  }

  lemma DirectoriesStep(st: State, before: State, parts: Path, n: nat)
    requires 0 < n <= |parts| <= MAX_DEPTH && Prepared(st, before) && MakeDirectory(before, parts[..n]).Ok?
    requires n > 1 ==> HasDirectory(before.tree, parts[..n - 1])
    ensures Prepared(st, MakeDirectory(before, parts[..n]).value)
    ensures HasDirectory(MakeDirectory(before, parts[..n]).value.tree, parts[..n])
  {
    assert parts[..n][..n - 1] == parts[..n - 1];
    DirectoryKeeps(before, parts[..n]);
  }

  lemma EnterKeeps(st: State, rec: Record)
    requires Inv(st) && Counted(st) && Sound(rec) && Enter(st, rec).Ok?
    ensures Inv(Enter(st, rec).value)
    ensures Enter(st, rec).value.bytes == TotalSize(Enter(st, rec).value.tree) + rec.size <= MAX_BYTES
    ensures DirectoryCount(rec) > 0 ==> HasDirectory(Enter(st, rec).value.tree, rec.parts[..DirectoryCount(rec)])
  {
    var entered := Enlisted(st, rec);
    assert Inv(entered);
    DirectoriesKeep(entered, rec.parts, DirectoryCount(rec));
  }

  lemma StoreKeeps(rest: string, st: State, rec: Record)
    requires Inv(st) && Sound(rec) && !rec.directory && Store(rest, st, rec).Ok?
    requires st.bytes == TotalSize(st.tree) + rec.size <= MAX_BYTES
    requires |rec.parts| > 1 ==> HasDirectory(st.tree, rec.parts[..|rec.parts| - 1])
    ensures Inv(Store(rest, st, rec).value) && Counted(Store(rest, st, rec).value)
  {
    var file := File(rest[..rec.size]);
    InsertKeeps(st, rec.parts, file);
    TotalInsert(st.tree, rec.parts, file);
  }

  lemma StepKeeps(h: string, rest: string, st: State, utf8: string -> bool)
    requires |h| == BLOCK && Inv(st) && Counted(st) && Step(h, rest, st, utf8).Ok?
    ensures Inv(Step(h, rest, st, utf8).value) && Counted(Step(h, rest, st, utf8).value)
  {
    ParsedIsSound(h, utf8);
    var rec := ParseHeader(h, utf8).value;
    EnterKeeps(st, rec);
    if !rec.directory {
      StoreKeeps(rest, Enter(st, rec).value, rec);
    }
  }

  lemma {:induction false} ExtractKeeps(stream: string, st: State, utf8: string -> bool)
    requires Inv(st) && Counted(st) && Extract(stream, st, utf8).Ok?
    ensures Inv(Extract(stream, st, utf8).value) && Counted(Extract(stream, st, utf8).value)
    decreases |stream|
  {
    var h, rest := stream[..BLOCK], stream[BLOCK..];
    if h != Zeros(BLOCK) {
      var next := Step(h, rest, st, utf8).value;
      StepKeeps(h, rest, st, utf8);
      StepFits(h, rest, st, utf8);
      ExtractKeeps(rest[Length(h, utf8)..], next, utf8);
    }
  }

  // The budget the extractor reports.
  function Reported(st: State): Budget {
    Budget(|st.created|, st.bytes)
  }

  /** Every accepted archive stages a prefix-closed tree in which every ancestor of an entry
      is a directory; the traversal of that tree fits all limits and counts exactly the
      entries and bytes that the extractor reported. */
  lemma AcceptedTreeWalks(archive: string, utf8: string -> bool)
    requires Extract(archive, INITIAL, utf8).Ok?
    ensures var st := Extract(archive, INITIAL, utf8).value;
            && PrefixClosed(st.tree)
            && (forall p, i | p in st.tree && 0 < i < |p| :: HasDirectory(st.tree, p[..i]))
            && Fits(st.tree, [], Budget(0, 0))
            && Sum(Budget(0, 0), Below(st.tree, [])) == Reported(st)
  {
    ExtractKeeps(archive, INITIAL, utf8);
    KeptWalks(Extract(archive, INITIAL, utf8).value);
  }

  lemma KeptWalks(st: State)
    requires Inv(st) && Counted(st)
    ensures PrefixClosed(st.tree)
    ensures forall p, i | p in st.tree && 0 < i < |p| :: HasDirectory(st.tree, p[..i])
    ensures Fits(st.tree, [], Budget(0, 0)) && Sum(Budget(0, 0), Below(st.tree, [])) == Reported(st)
  {
    forall p, i | p in st.tree && 0 < i < |p|
      ensures HasDirectory(st.tree, p[..i])
    {
      AncestorIsDirectory(st.tree, p, i);
    }
    assert Below(st.tree, []) == st.tree;
    assert |st.tree| == |st.tree.Keys|;
  }

  // ------------------------------------------------------------------ the stream

  class Stream {
    var rest: string

    constructor (data: string)
      ensures rest == data
    {
      rest := data;
    }

    // Up to n bytes; nothing only at the end.
    method Read(n: nat) returns (chunk: string)
      requires n > 0
      modifies this
      ensures old(rest) == chunk + rest && |chunk| <= n
      ensures chunk == "" <==> old(rest) == ""
    {
      if rest == "" {
        return "";
      }
      var k :| 1 <= k <= n && k <= |rest|;
      chunk, rest := rest[..k], rest[k..];
      assert old(rest) == old(rest)[..k] + old(rest)[k..];
    }

    // Exactly n bytes, or the archive is truncated.
    method Exact(n: nat) returns (r: Result<string, Refusal>)
      modifies this
      ensures r.Ok? <==> |old(rest)| >= n
      ensures r.Ok? ==> r.value == old(rest)[..n] && rest == old(rest)[n..]
      ensures r.Err? ==> r.error == TruncatedArchive
    {
      var data := "";
      while |data| < n
        invariant |data| <= n && old(rest) == data + rest
        decreases n - |data|
      {
        var chunk := Read(n - |data|);
        if chunk == "" {
          return Err(TruncatedArchive);
        }
        data := data + chunk;
      }
      r := Ok(data);
    }

    // File content, chunk by chunk.
    method Content(size: nat) returns (r: Result<string, Refusal>)
      modifies this
      ensures r.Ok? <==> |old(rest)| >= size
      ensures r.Ok? ==> r.value == old(rest)[..size] && rest == old(rest)[size..]
      ensures r.Err? ==> r.error == TruncatedArchive
    {
      var written := "";
      while |written| < size
        invariant |written| <= size && old(rest) == written + rest
        decreases size - |written|
      {
        var remaining := size - |written|;
        var chunk := Exact(if remaining < CHUNK then remaining else CHUNK);
        if chunk.Err? {
          return chunk;
        }
        written := written + chunk.value;
      }
      r := Ok(written);
    }

    // Only zeros, and not too many of them, up to the end of the stream.
    method Drain() returns (ok: bool)
      modifies this
      ensures ok <==> |old(rest)| <= MAX_PADDING && old(rest) == Zeros(|old(rest)|)
    {
      var padding := "";
      while true
        invariant old(rest) == padding + rest && |padding| <= MAX_PADDING
        invariant forall i | 0 <= i < |padding| :: padding[i] == '\0'
        decreases |rest|
      {
        var chunk := Read(4096);
        if chunk == "" {
          assert padding == Zeros(|padding|);
          return true;
        }
        if |padding| + |chunk| > MAX_PADDING || !AllZero(chunk) {
          NotPadding(old(rest), padding, chunk, rest);
          return false;
        }
        padding := padding + chunk;
      }
    }
  }

  predicate AllZero(s: string) {
    forall i | 0 <= i < |s| :: s[i] == '\0'
  }

  lemma NotPadding(all: string, padding: string, chunk: string, rest: string)
    requires all == padding + (chunk + rest)
    requires |padding| + |chunk| > MAX_PADDING || !AllZero(chunk)
    ensures |all| > MAX_PADDING || all != Zeros(|all|)
  {
    if !AllZero(chunk) {
      var i :| 0 <= i < |chunk| && chunk[i] != '\0';
      assert all[|padding| + i] == chunk[i];
    }
  }

  // ------------------------------------------------------------------ the extractor

  method MakeParents(st: State, parts: Path, n: nat) returns (r: Result<State, Refusal>)
    requires n <= |parts|
    ensures r == MakeDirectories(st, parts, n)
  {
    r := Ok(st);
    var i := 0;
    while i < n
      invariant 0 <= i <= n && r == MakeDirectories(st, parts, i) && r.Ok?
    {
      var made := MakeDirectory(r.value, parts[..i + 1]);
      if made.Err? {
        MakeStops(st, parts, i + 1, n);
        return made;
      }
      r := made;
      i := i + 1;
    }
  }

  lemma {:induction false} MakeStops(st: State, parts: Path, i: nat, n: nat)
    requires i <= n <= |parts| && MakeDirectories(st, parts, i).Err?
    ensures MakeDirectories(st, parts, n) == MakeDirectories(st, parts, i)
    decreases n
  {
    if i < n {
      MakeStops(st, parts, i, n - 1);
    }
  }

  /** The loop over the archive, with reads of any size, computes `Extract`. */
  method ExtractTar(stream: Stream, utf8: string -> bool) returns (r: Result<State, Refusal>)
    modifies stream
    ensures r == Extract(old(stream.rest), INITIAL, utf8)
  {
    var st := INITIAL;
    while true
      invariant Extract(old(stream.rest), INITIAL, utf8) == Extract(stream.rest, st, utf8)
      decreases |stream.rest|
    {
      ghost var before := stream.rest;
      var header := stream.Exact(BLOCK);
      if header.Err? {
        return Err(header.error);
      }
      if header.value == Zeros(BLOCK) {
        r := ReadEnd(stream, st);
        return;
      }
      r := ReadEntry(stream, header.value, st, utf8);
      if r.Err? {
        return;
      }
      st := r.value;
    }
  }

  method ReadEnd(stream: Stream, st: State) returns (r: Result<State, Refusal>)
    modifies stream
    ensures r == EndOf(old(stream.rest), st)
  {
    var second := stream.Exact(BLOCK);
    if second.Err? {
      return Err(second.error);
    }
    if second.value != Zeros(BLOCK) {
      return Err(InvalidArchiveEnd);
    }
    var ok := stream.Drain();
    r := if ok then Ok(st) else Err(InvalidArchiveEnd);
  }

  method ReadEntry(stream: Stream, h: string, st: State, utf8: string -> bool) returns (r: Result<State, Refusal>)
    requires |h| == BLOCK
    modifies stream
    ensures r == Step(h, old(stream.rest), st, utf8)
    ensures r.Ok? ==> ParseHeader(h, utf8).Ok? && Length(h, utf8) <= |old(stream.rest)|
    ensures r.Ok? ==> stream.rest == old(stream.rest)[Length(h, utf8)..]
  {
    var parsed := ParseHeader(h, utf8);
    if parsed.Err? {
      return Err(parsed.error);
    }
    ParsedIsSound(h, utf8);
    var rec := parsed.value;
    r := EnterEntry(st, rec);
    if r.Err? || rec.directory {
      return;
    }
    r := StoreFile(stream, r.value, rec);
  }

  method EnterEntry(st: State, rec: Record) returns (r: Result<State, Refusal>)
    requires rec.directory || rec.parts != []
    ensures r == Enter(st, rec)
  {
    if rec.name in st.seen {
      return Err(DuplicateArchiveEntry);
    }
    var entered := Enlisted(st, rec);
    if |entered.seen| > MAX_ENTRIES {
      return Err(EntryLimit);
    }
    if entered.bytes > MAX_BYTES {
      return Err(ByteLimit);
    }
    r := MakeParents(entered, rec.parts, DirectoryCount(rec));
  }

  method StoreFile(stream: Stream, st: State, rec: Record) returns (r: Result<State, Refusal>)
    modifies stream
    ensures r == Store(old(stream.rest), st, rec)
    ensures r.Ok? ==> rec.size + Padding(rec.size) <= |old(stream.rest)|
    ensures r.Ok? ==> stream.rest == old(stream.rest)[rec.size + Padding(rec.size)..]
  {
    if rec.parts in st.tree {
      return Err(FilesystemError);
    }
    var content := stream.Content(rec.size);
    if content.Err? {
      return Err(content.error);
    }
    r := WriteFile(st, rec.parts, content.value);
    if r.Err? {
      return;
    }
    var padding := stream.Exact(Padding(rec.size));
    if padding.Err? {
      return Err(padding.error);
    }
  }
}
