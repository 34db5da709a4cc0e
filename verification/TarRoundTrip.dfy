/**
 Writing an entry list as a ustar archive and extracting it rebuilds exactly its tree.

 The tree of a list is defined without the extractor: the paths of its entries and all their
 ancestors, with the listed nodes at listed paths and directories elsewhere.
 */
module TarRoundTrip {
  import opened Base
  import opened RecoveryTree
  import opened TarHeader
  import opened RecoveryTar
  import opened TarEncoding

  // ------------------------------------------------------------------ the tree of a list

  // The first n paths on the way to a path.
  function Ancestry(path: Path, n: nat): set<Path>
    requires n <= |path|
  {
    if n == 0 then {} else Ancestry(path, n - 1) + {path[..n]}
  }

  lemma {:induction false} AncestryHas(path: Path, n: nat, p: Path)
    requires n <= |path|
    ensures p in Ancestry(path, n) <==> 1 <= |p| <= n && p == path[..|p|]
    decreases n
  {
    if n > 0 {
      AncestryHas(path, n - 1, p);
    }
  }

  lemma {:induction false} AncestryGrows(path: Path, k: nat, n: nat)
    requires k <= n <= |path|
    ensures Ancestry(path, k) <= Ancestry(path, n)
    decreases n
  {
    if k < n {
      AncestryGrows(path, k, n - 1);
    }
  }

  function Places(es: seq<Entry>): set<Path> {
    set e, i | e in es && 1 <= i <= |e.path| :: e.path[..i]
  }

  ghost predicate ListedAt(es: seq<Entry>, p: Path) {
    exists e | e in es :: e.path == p
  }

  ghost function NodeAt(es: seq<Entry>, p: Path): Node {
    if ListedAt(es, p) then
      var e :| e in es && e.path == p;
      e.node
    else Directory
  }

  ghost function TreeOf(es: seq<Entry>): Tree {
    map p | p in Places(es) :: NodeAt(es, p)
  }

  // ------------------------------------------------------------------ consistent lists

  predicate DistinctNames(es: seq<Entry>) {
    forall i, j | 0 <= i < j < |es| :: Name(es[i]) != Name(es[j])
  }

  // No file lies above another entry.
  predicate FilesAreLeaves(es: seq<Entry>) {
    forall e, f | e in es && f in es && e.node.File? :: !(e.path < f.path)
  }

  // The list describes one tree within the limits.
  ghost predicate OneTree(es: seq<Entry>) {
    && DistinctNames(es)
    && FilesAreLeaves(es)
    && |es| <= MAX_ENTRIES
    && |TreeOf(es)| <= MAX_ENTRIES
    && TotalSize(TreeOf(es)) <= MAX_BYTES
  }

  // ------------------------------------------------------------------ the archive

  function Content(n: Node): string {
    if n.File? then n.content else ""
  }

  function EncodeEntry(e: Entry): string
    requires ValidSpelling(e)
  {
    HeaderOf(e) + Content(e.node) + Zeros(Padding(Size(e.node)))
  }

  predicate Spelled(es: seq<Entry>) {
    forall e | e in es :: ValidSpelling(e)
  }

  function EncodeAll(es: seq<Entry>): string
    requires Spelled(es)
  {
    if es == [] then "" else EncodeEntry(es[0]) + EncodeAll(es[1..])
  }

  // Two zero blocks, and a writer's record padding.
  function Encode(es: seq<Entry>, padding: nat): string
    requires Spelled(es)
  {
    EncodeAll(es) + Zeros(2 * BLOCK + padding)
  }

  // ------------------------------------------------------------------ reading entries back

  function RecordOf(e: Entry): Record {
    Record(Name(e), e.path, e.node.Directory?, Size(e.node))
  }

  // What the extractor does with an entry once its header and content are read.
  function Admit(st: State, e: Entry): Result<State, Refusal>
    requires e.node.File? ==> e.path != []
  {
    var entered := Enter(st, RecordOf(e));
    if entered.Err? || e.node.Directory? then entered else WriteFile(entered.value, e.path, e.node.content)
  }

  ghost predicate AllValid(es: seq<Entry>, utf8: string -> bool) {
    forall e | e in es :: ValidEntry(e, utf8)
  }

  predicate Placed(es: seq<Entry>) {
    forall e | e in es :: e.node.File? ==> e.path != []
  }

  function AdmitAll(st: State, es: seq<Entry>): Result<State, Refusal>
    requires Placed(es)
    decreases |es|
  {
    if es == [] then Ok(st)
    else
      assert es[0] in es;
      var next := Admit(st, es[0]);
      if next.Err? then next else AdmitAll(next.value, es[1..])
  }

  lemma EntryBlocks(h: string, content: string, pad: string, more: string)
    requires |h| == BLOCK
    ensures var s := h + content + pad + more;
            && |s| >= BLOCK && s[..BLOCK] == h && s[BLOCK..] == content + pad + more
            && s[BLOCK..][..|content|] == content && s[BLOCK..][|content| + |pad|..] == more
  {
  }

  // What follows an entry that was admitted or refused.
  function After(admitted: Result<State, Refusal>, more: string, utf8: string -> bool): Result<State, Refusal> {
    if admitted.Err? then admitted else Extract(more, admitted.value, utf8)
  }

  // One written entry at the front of the stream is admitted or refused by the state alone,
  // and nothing more is consumed.
  lemma ExtractEntry(e: Entry, more: string, st: State, utf8: string -> bool)
    requires ValidEntry(e, utf8)
    ensures Extract(EncodeEntry(e) + more, st, utf8) == After(Admit(st, e), more, utf8)
  {
    var h, content, pad := HeaderOf(e), Content(e.node), Zeros(Padding(Size(e.node)));
    var s := EncodeEntry(e) + more;
    HeaderReads(e, utf8);
    EntryBlocks(h, content, pad, more);
    StepAdmits(e, s[BLOCK..], st, utf8);
  }

  lemma StepAdmits(e: Entry, rest: string, st: State, utf8: string -> bool)
    requires ValidEntry(e, utf8) && |HeaderOf(e)| == BLOCK
    requires |rest| >= Size(e.node) + Padding(Size(e.node)) && rest[..Size(e.node)] == Content(e.node)
    ensures Step(HeaderOf(e), rest, st, utf8) == Admit(st, e)
    ensures ParseHeader(HeaderOf(e), utf8).Ok? && Length(HeaderOf(e), utf8) == Size(e.node) + Padding(Size(e.node))
  {
    HeaderReads(e, utf8);
  }

  lemma ZerosSplit(a: nat, b: nat)
    ensures Zeros(a + b)[..a] == Zeros(a) && Zeros(a + b)[a..] == Zeros(b)
  {
  }

  lemma ExtractEnd(padding: nat, st: State, utf8: string -> bool)
    requires padding <= MAX_PADDING
    ensures Extract(Zeros(2 * BLOCK + padding), st, utf8) == Ok(st)
  {
    ZerosSplit(BLOCK, BLOCK + padding);
    ZerosSplit(BLOCK, padding);
  }

  lemma EncodeStep(es: seq<Entry>, padding: nat)
    requires es != [] && Spelled(es)
    ensures Encode(es, padding) == EncodeEntry(es[0]) + Encode(es[1..], padding)
  {
    Associate(EncodeEntry(es[0]), EncodeAll(es[1..]), Zeros(2 * BLOCK + padding));
  }

  lemma Associate(a: string, b: string, c: string)
    ensures (a + b) + c == a + (b + c)
  {
  }

  lemma AdmitStep(st: State, es: seq<Entry>)
    requires es != [] && Placed(es)
    ensures Admit(st, es[0]).Err? ==> AdmitAll(st, es) == Admit(st, es[0])
    ensures Admit(st, es[0]).Ok? ==> AdmitAll(st, es) == AdmitAll(Admit(st, es[0]).value, es[1..])
  {
  }

  // Extracting a written list is admitting its entries one by one, refusals included.
  lemma {:induction false} ExtractEncoded(es: seq<Entry>, padding: nat, st: State, utf8: string -> bool)
    requires AllValid(es, utf8) && padding <= MAX_PADDING
    ensures Extract(Encode(es, padding), st, utf8) == AdmitAll(st, es)
    decreases |es|
  {
    if es == [] {
      assert Encode(es, padding) == Zeros(2 * BLOCK + padding);
      ExtractEnd(padding, st, utf8);
    } else {
      AdmitStep(st, es);
      EncodeStep(es, padding);
      ExtractFront(es[0], Encode(es[1..], padding), Encode(es, padding), st, utf8);
      if Admit(st, es[0]).Ok? {
        ExtractEncoded(es[1..], padding, Admit(st, es[0]).value, utf8);
      }
    }
  }

  lemma ExtractFront(e: Entry, more: string, all: string, st: State, utf8: string -> bool)
    requires ValidEntry(e, utf8) && all == EncodeEntry(e) + more
    ensures Extract(all, st, utf8) == After(Admit(st, e), more, utf8)
  {
    ExtractEntry(e, more, st, utf8);
  }

  // ------------------------------------------------------------------ directories

  // The tree with directories at the given places that were free.
  function Filled(t: Tree, places: set<Path>): Tree {
    map p | p in t.Keys + places :: if p in t then t[p] else Directory
  }

  function WithDirectories(t: Tree, path: Path, n: nat): Tree
    requires n <= |path|
  {
    Filled(t, Ancestry(path, n))
  }

  // Nothing but directories stands at the places.
  predicate Passable(t: Tree, places: set<Path>) {
    forall p | p in places && p in t :: t[p].Directory?
  }

  function MadeAt(st: State, places: set<Path>): State {
    st.(created := st.tree.Keys + places, tree := Filled(st.tree, places))
  }

  function Made(st: State, path: Path, n: nat): State
    requires n <= |path|
  {
    MadeAt(st, Ancestry(path, n))
  }

  // The state differs from st by directories at those of the places that were free.
  ghost predicate IsMade(st: State, ways: seq<Path>, after: State) {
    && after.seen == st.seen && after.bytes == st.bytes
    && (forall p :: p in after.created <==> p in after.tree)
    && (forall p :: p in after.tree <==> p in st.tree || p in ways)
    && (forall p | p in after.tree :: after.tree[p] == if p in st.tree then st.tree[p] else Directory)
  }

  lemma MadeIsMade(st: State, ways: seq<Path>, places: set<Path>, after: State)
    requires IsMade(st, ways, after) && forall p :: p in ways <==> p in places
    ensures after == MadeAt(st, places)
  {
    assert after.tree.Keys == st.tree.Keys + places;
    assert after.created == st.tree.Keys + places;
    FilledIs(st.tree, places, after.tree);
  }

  // Making the directories of a list of paths, in order.
  function MakeEach(st: State, ways: seq<Path>): Result<State, Refusal> {
    if ways == [] then Ok(st)
    else
      var before := MakeEach(st, ways[..|ways| - 1]);
      if before.Err? then before else MakeDirectory(before.value, ways[|ways| - 1])
  }

  lemma MakeOld(st: State, ways: seq<Path>, before: State, p: Path)
    requires IsMade(st, ways, before) && (p in st.tree ==> st.tree[p].Directory?) && p in before.created
    ensures MakeDirectory(before, p) == Ok(before) && IsMade(st, ways + [p], before)
  {
  }

  lemma MakeNew(st: State, ways: seq<Path>, before: State, p: Path)
    requires IsMade(st, ways, before) && p !in before.created && |before.created + {p}| <= MAX_ENTRIES
    ensures MakeDirectory(before, p).Ok? && IsMade(st, ways + [p], MakeDirectory(before, p).value)
  {
    var made := before.(created := before.created + {p}, tree := before.tree[p := Directory]);
    assert MakeDirectory(before, p) == Ok(made);
  }

  lemma {:induction false} MakeAll(st: State, ways: seq<Path>, room: set<Path>) returns (after: State)
    requires st.created == st.tree.Keys && st.created <= room && |room| <= MAX_ENTRIES
    requires forall p | p in ways :: p in room && (p in st.tree ==> st.tree[p].Directory?)
    ensures MakeEach(st, ways) == Ok(after) && IsMade(st, ways, after)
  {
    after := st;
    if ways != [] {
      var front, p := ways[..|ways| - 1], ways[|ways| - 1];
      var before := MakeAll(st, front, room);
      assert ways == front + [p];
      assert before.created + {p} <= room;
      MakeInRoom(st, front, before, p, room);
      after := MakeDirectory(before, p).value;
    }
  }

  lemma MakeInRoom(st: State, ways: seq<Path>, before: State, p: Path, room: set<Path>)
    requires IsMade(st, ways, before) && (p in st.tree ==> st.tree[p].Directory?)
    requires before.created + {p} <= room && |room| <= MAX_ENTRIES
    ensures MakeDirectory(before, p).Ok? && IsMade(st, ways + [p], MakeDirectory(before, p).value)
  {
    if p in before.created {
      MakeOld(st, ways, before, p);
    } else {
      SubsetSize(before.created + {p}, room);
      MakeNew(st, ways, before, p);
    }
  }

  // The way to a path, from the top.
  function Ways(path: Path, n: nat): seq<Path>
    requires n <= |path|
  {
    if n == 0 then [] else Ways(path, n - 1) + [path[..n]]
  }

  lemma {:induction false} WaysAre(st: State, path: Path, n: nat)
    requires n <= |path|
    ensures forall p :: p in Ways(path, n) <==> p in Ancestry(path, n)
    ensures MakeDirectories(st, path, n) == MakeEach(st, Ways(path, n))
    decreases n
  {
    if n > 0 {
      WaysAre(st, path, n - 1);
      assert Ways(path, n)[..|Ways(path, n)| - 1] == Ways(path, n - 1);
    }
  }

  lemma MakeDirectoriesIs(st: State, path: Path, n: nat)
    requires n <= |path| && st.created == st.tree.Keys && Passable(st.tree, Ancestry(path, n))
    requires |st.tree.Keys + Ancestry(path, n)| <= MAX_ENTRIES
    ensures MakeDirectories(st, path, n) == Ok(Made(st, path, n))
  {
    WaysAre(st, path, n);
    var after := MakeAll(st, Ways(path, n), st.tree.Keys + Ancestry(path, n));
    MadeIsMade(st, Ways(path, n), Ancestry(path, n), after);
  }

  lemma SubsetSize<T>(a: set<T>, b: set<T>)
    requires a <= b
    ensures |a| <= |b|
  {
    assert b == a + (b - a);
  }

  // ------------------------------------------------------------------ growing the tree of a list

  lemma NodeIsListed(es: seq<Entry>, e: Entry)
    requires DistinctNames(es) && e in es && e.path != []
    ensures NodeAt(es, e.path) == e.node
  {
    assert ListedAt(es, e.path);
    var f :| f in es && f.path == e.path && NodeAt(es, e.path) == f.node;
    assert Name(f) == Name(e);
    var i :| 0 <= i < |es| && es[i] == e;
    var j :| 0 <= j < |es| && es[j] == f;
  }

  lemma PlacesGrow(es: seq<Entry>, e: Entry)
    ensures Places(es + [e]) == Places(es) + Ancestry(e.path, |e.path|)
  {
    forall p
      ensures p in Places(es + [e]) <==> p in Places(es) + Ancestry(e.path, |e.path|)
    {
      AncestryHas(e.path, |e.path|, p);
      if p in Places(es + [e]) {
        var f, i :| f in es + [e] && 1 <= i <= |f.path| && f.path[..i] == p;
      }
      if p in Places(es) {
        var f, i :| f in es && 1 <= i <= |f.path| && f.path[..i] == p;
        assert f in es + [e];
      }
      assert e in es + [e];
    }
  }

  // Elsewhere than at its own path, a new entry changes no node.
  lemma NodeStays(es: seq<Entry>, e: Entry, p: Path)
    requires DistinctNames(es + [e]) && p != e.path && p != []
    ensures NodeAt(es + [e], p) == NodeAt(es, p)
  {
    FrontDistinct(es, e);
    if ListedAt(es, p) {
      var f :| f in es && f.path == p;
      assert f in es + [e];
      NodeIsListed(es, f);
      NodeIsListed(es + [e], f);
    } else {
      assert !ListedAt(es + [e], p);
    }
  }

  lemma FrontDistinct(es: seq<Entry>, e: Entry)
    requires DistinctNames(es + [e])
    ensures DistinctNames(es) && forall f | f in es :: Name(f) != Name(e)
  {
    var all := es + [e];
    assert forall i | 0 <= i < |es| :: all[i] == es[i];
    assert all[|es|] == e;
  }

  // A place of the list at or above the new entry's path.
  lemma PlaceOf(es: seq<Entry>, p: Path) returns (f: Entry)
    requires p in Places(es)
    ensures f in es && p <= f.path && p != []
  {
    var g, i :| g in es && 1 <= i <= |g.path| && g.path[..i] == p;
    f := g;
  }

  lemma SamePathSameName(e: Entry, f: Entry)
    ensures e.path == f.path && e.path != [] ==> Name(e) == Name(f)
  {
  }

  lemma FileIsNew(es: seq<Entry>, e: Entry)
    requires DistinctNames(es + [e]) && FilesAreLeaves(es + [e]) && e.node.File? && e.path != []
    ensures e.path !in Places(es)
  {
    FrontDistinct(es, e);
    assert e in es + [e] && forall f | f in es :: f in es + [e];
    if e.path in Places(es) {
      var f := PlaceOf(es, e.path);
      SamePathSameName(e, f);
    }
  }

  lemma WayIsPassable(es: seq<Entry>, e: Entry)
    requires DistinctNames(es + [e]) && FilesAreLeaves(es + [e])
    ensures Passable(TreeOf(es), Ancestry(e.path, |e.path|))
  {
    FrontDistinct(es, e);
    var t := TreeOf(es);
    forall p | p in Ancestry(e.path, |e.path|) && p in t
      ensures t[p].Directory?
    {
      AncestryHas(e.path, |e.path|, p);
      if ListedAt(es, p) {
        var f :| f in es && f.path == p;
        NodeIsListed(es, f);
        assert f in es + [e] && e in es + [e];
        assert p == e.path || p < e.path;
        assert Name(f) != Name(e);
      }
    }
  }

  lemma FilledIs(t: Tree, places: set<Path>, after: Tree)
    requires after.Keys == t.Keys + places
    requires forall p | p in after :: after[p] == if p in t then t[p] else Directory
    ensures after == Filled(t, places)
  {
  }

  lemma DirectoryGrows(es: seq<Entry>, e: Entry)
    requires DistinctNames(es + [e]) && FilesAreLeaves(es + [e]) && e.node.Directory?
    ensures TreeOf(es + [e]) == WithDirectories(TreeOf(es), e.path, |e.path|)
  {
    PlacesGrow(es, e);
    TreeKeys(es);
    TreeKeys(es + [e]);
    var before, after := TreeOf(es), TreeOf(es + [e]);
    forall p | p in after
      ensures after[p] == if p in before then before[p] else Directory
    {
      GrownNode(es, e, p);
    }
    FilledIs(before, Ancestry(e.path, |e.path|), after);
  }

  lemma GrownNode(es: seq<Entry>, e: Entry, p: Path)
    requires DistinctNames(es + [e]) && FilesAreLeaves(es + [e])
    requires p in Places(es) + Ancestry(e.path, |e.path|)
    ensures p == e.path ==> NodeAt(es + [e], p) == e.node
    ensures p != e.path ==> NodeAt(es + [e], p) == if p in Places(es) then NodeAt(es, p) else Directory
    ensures p == e.path && p in Places(es) ==> NodeAt(es, p) == Directory
  {
    AncestryHas(e.path, |e.path|, p);
    assert e in es + [e];
    if p == e.path {
      NodeIsListed(es + [e], e);
      WayIsPassable(es, e);
      AncestryHas(e.path, |e.path|, e.path);
    } else {
      NodeStays(es, e, p);
      if p !in Places(es) && ListedAt(es, p) {
        var f :| f in es && f.path == p;
      }
    }
  }

  lemma FilePlaces(es: seq<Entry>, e: Entry)
    requires e.path != []
    ensures Places(es + [e]) == Places(es) + Ancestry(e.path, |e.path| - 1) + {e.path}
    ensures e.path !in Ancestry(e.path, |e.path| - 1)
  {
    PlacesGrow(es, e);
    AncestryHas(e.path, |e.path| - 1, e.path);
    assert e.path[..|e.path|] == e.path;
  }

  lemma FileNodes(es: seq<Entry>, e: Entry, p: Path)
    requires DistinctNames(es + [e]) && FilesAreLeaves(es + [e]) && e.node.File? && e.path != []
    requires p in Places(es + [e])
    ensures NodeAt(es + [e], p) == if p == e.path then e.node else if p in Places(es) then NodeAt(es, p) else Directory
  {
    PlacesGrow(es, e);
    GrownNode(es, e, p);
  }

  lemma FilledWithFile(t: Tree, places: set<Path>, path: Path, node: Node, after: Tree)
    requires path !in t && path !in places && after.Keys == t.Keys + places + {path}
    requires forall p | p in after :: after[p] == if p == path then node else if p in t then t[p] else Directory
    ensures path !in Filled(t, places) && after == Filled(t, places)[path := node]
  {
  }

  lemma FileGrows(es: seq<Entry>, e: Entry)
    requires DistinctNames(es + [e]) && FilesAreLeaves(es + [e]) && e.node.File? && e.path != []
    ensures e.path !in WithDirectories(TreeOf(es), e.path, |e.path| - 1)
    ensures TreeOf(es + [e]) == WithDirectories(TreeOf(es), e.path, |e.path| - 1)[e.path := e.node]
  {
    FilePlaces(es, e);
    FileIsNew(es, e);
    TreeKeys(es);
    TreeKeys(es + [e]);
    var before, after := TreeOf(es), TreeOf(es + [e]);
    forall p | p in after
      ensures after[p] == if p == e.path then e.node else if p in before then before[p] else Directory
    {
      FileNodes(es, e, p);
    }
    FilledWithFile(before, Ancestry(e.path, |e.path| - 1), e.path, e.node, after);
  }

  // ------------------------------------------------------------------ admitting a list

  function NamesOf(es: seq<Entry>): set<string> {
    set e | e in es :: Name(e)
  }

  // The extractor's state after a list has been admitted.
  ghost function StateOf(es: seq<Entry>): State {
    State(NamesOf(es), TreeOf(es).Keys, TreeOf(es), TotalSize(TreeOf(es)))
  }

  lemma {:induction false} NamesAreFew(es: seq<Entry>)
    ensures |NamesOf(es)| <= |es|
  {
    if es == [] {
      assert NamesOf(es) == {};
    } else {
      var front, last := es[..|es| - 1], es[|es| - 1];
      NamesAreFew(front);
      assert es == front + [last];
      assert NamesOf(es) == NamesOf(front) + {Name(last)};
    }
  }

  // What it takes to admit one more entry.
  ghost predicate Admissible(es: seq<Entry>, e: Entry) {
    && DistinctNames(es + [e]) && FilesAreLeaves(es + [e])
    && (e.node.File? ==> e.path != [])
    && |es| + 1 <= MAX_ENTRIES
    && |TreeOf(es + [e])| <= MAX_ENTRIES
    && TotalSize(TreeOf(es + [e])) <= MAX_BYTES
  }

  lemma DirectoriesWeighNothing(t: Tree, path: Path, n: nat)
    requires n <= |path|
    ensures TotalSize(WithDirectories(t, path, n)) == TotalSize(t)
  {
    var all := WithDirectories(t, path, n);
    var extra := all - t.Keys;
    assert all == t + extra;
    TotalUnion(t, extra);
    OnlyDirectories(extra);
  }

  lemma {:induction false} OnlyDirectories(t: Tree)
    requires forall p | p in t :: t[p].Directory?
    ensures TotalSize(t) == 0
    decreases |t|
  {
    if t != map[] {
      OnlyDirectories(t - {Pick(t)});
    }
  }

  lemma GrownTotal(es: seq<Entry>, e: Entry)
    requires DistinctNames(es + [e]) && FilesAreLeaves(es + [e]) && (e.node.File? ==> e.path != [])
    ensures TotalSize(TreeOf(es + [e])) == TotalSize(TreeOf(es)) + Size(e.node)
  {
    if e.node.Directory? {
      DirectoryGrows(es, e);
      DirectoriesWeighNothing(TreeOf(es), e.path, |e.path|);
    } else {
      FileGrows(es, e);
      DirectoriesWeighNothing(TreeOf(es), e.path, |e.path| - 1);
      TotalInsert(WithDirectories(TreeOf(es), e.path, |e.path| - 1), e.path, e.node);
    }
  }

  // The state once the entry's name and size are counted.
  ghost function Begun(es: seq<Entry>, e: Entry): State {
    State(NamesOf(es + [e]), TreeOf(es).Keys, TreeOf(es), TotalSize(TreeOf(es + [e])))
  }

  lemma EnlistedIs(es: seq<Entry>, e: Entry)
    requires Admissible(es, e)
    ensures Enlisted(StateOf(es), RecordOf(e)) == Begun(es, e)
    ensures Name(e) !in NamesOf(es) && |NamesOf(es) + {Name(e)}| <= MAX_ENTRIES
  {
    NamesGrow(es, e);
    GrownTotal(es, e);
  }

  lemma NamesGrow(es: seq<Entry>, e: Entry)
    requires DistinctNames(es + [e])
    ensures NamesOf(es + [e]) == NamesOf(es) + {Name(e)} && Name(e) !in NamesOf(es)
    ensures |NamesOf(es) + {Name(e)}| <= |es| + 1
  {
    FrontDistinct(es, e);
    NamesAreFew(es + [e]);
    assert NamesOf(es + [e]) == NamesOf(es) + {Name(e)};
  }

  lemma EnterGrown(es: seq<Entry>, e: Entry) returns (entered: State)
    requires Admissible(es, e)
    ensures entered == Made(Begun(es, e), e.path, DirectoryCount(RecordOf(e)))
    ensures Enter(StateOf(es), RecordOf(e)) == Ok(entered)
  {
    entered := Made(Begun(es, e), e.path, DirectoryCount(RecordOf(e)));
    EnlistedIs(es, e);
    GrownTotal(es, e);
    EnterIs(StateOf(es), RecordOf(e));
    WayFits(es, e);
    WayIsPassable(es, e);
    MakeDirectoriesIs(Begun(es, e), e.path, DirectoryCount(RecordOf(e)));
  }

  lemma EnterIs(st: State, rec: Record)
    requires rec.directory || rec.parts != []
    requires rec.name !in st.seen && |st.seen + {rec.name}| <= MAX_ENTRIES && st.bytes + rec.size <= MAX_BYTES
    ensures Enter(st, rec) == MakeDirectories(Enlisted(st, rec), rec.parts, DirectoryCount(rec))
  {
  }

  lemma WayFits(es: seq<Entry>, e: Entry)
    requires Admissible(es, e)
    ensures |TreeOf(es).Keys + Ancestry(e.path, DirectoryCount(RecordOf(e)))| <= MAX_ENTRIES
  {
    PlacesGrow(es, e);
    TreeKeys(es);
    TreeKeys(es + [e]);
    var n := DirectoryCount(RecordOf(e));
    AncestryGrows(e.path, n, |e.path|);
    SubsetSize(Places(es) + Ancestry(e.path, n), Places(es + [e]));
  }

  lemma DirectoryAdmits(es: seq<Entry>, e: Entry)
    requires Admissible(es, e) && e.node.Directory?
    ensures Admit(StateOf(es), e) == Ok(StateOf(es + [e]))
  {
    var entered := EnterGrown(es, e);
    PlacesGrow(es, e);
    DirectoryGrows(es, e);
    TreeKeys(es);
    TreeKeys(es + [e]);
  }

  lemma AdmitFile(st: State, e: Entry, entered: State, after: State)
    requires e.node.File? && e.path != [] && Enter(st, RecordOf(e)) == Ok(entered)
    requires WriteFile(entered, e.path, e.node.content) == Ok(after)
    ensures Admit(st, e) == Ok(after)
  {
  }

  lemma FileAdmits(es: seq<Entry>, e: Entry)
    requires Admissible(es, e) && e.node.File?
    ensures Admit(StateOf(es), e) == Ok(StateOf(es + [e]))
  {
    var entered := EnterGrown(es, e);
    FileWritten(es, e, entered);
    AdmitFile(StateOf(es), e, entered, StateOf(es + [e]));
  }

  lemma FileWritten(es: seq<Entry>, e: Entry, entered: State)
    requires Admissible(es, e) && e.node.File? && entered == Made(Begun(es, e), e.path, DirectoryCount(RecordOf(e)))
    ensures WriteFile(entered, e.path, e.node.content) == Ok(StateOf(es + [e]))
  {
    var n := |e.path| - 1;
    assert DirectoryCount(RecordOf(e)) == n;
    var way, before, after := Ancestry(e.path, n), TreeOf(es), StateOf(es + [e]);
    FileGrows(es, e);
    FileKeys(es, e);
    WriteMakes(entered, before, way, e.path, e.node, after);
  }

  lemma WriteMakes(entered: State, before: Tree, way: set<Path>, path: Path, node: Node, after: State)
    requires node.File? && entered == MadeAt(entered.(tree := before), way) && path !in Filled(before, way)
    requires after.seen == entered.seen && after.bytes == entered.bytes
    requires after.created == before.Keys + way + {path} && after.tree == Filled(before, way)[path := node]
    requires |after.created| <= MAX_ENTRIES
    ensures WriteFile(entered, path, node.content) == Ok(after)
  {
    WriteIs(entered, path, node.content);
  }

  lemma FileKeys(es: seq<Entry>, e: Entry)
    requires Admissible(es, e) && e.node.File?
    ensures TreeOf(es + [e]).Keys == TreeOf(es).Keys + Ancestry(e.path, |e.path| - 1) + {e.path}
    ensures |TreeOf(es + [e]).Keys| <= MAX_ENTRIES
  {
    FilePlaces(es, e);
    TreeKeys(es);
    TreeKeys(es + [e]);
  }

  lemma TreeKeys(es: seq<Entry>)
    ensures TreeOf(es).Keys == Places(es) && |TreeOf(es)| == |Places(es)|
  {
    assert |TreeOf(es)| == |TreeOf(es).Keys|;
  }

  lemma WriteIs(st: State, path: Path, content: string)
    requires path !in st.tree && |st.created + {path}| <= MAX_ENTRIES
    ensures WriteFile(st, path, content) ==
            Ok(st.(created := st.created + {path}, tree := st.tree[path := File(content)]))
  {
  }

  lemma AdmitGrown(es: seq<Entry>, e: Entry)
    requires Admissible(es, e)
    ensures Admit(StateOf(es), e) == Ok(StateOf(es + [e]))
  {
    if e.node.Directory? {
      DirectoryAdmits(es, e);
    } else {
      FileAdmits(es, e);
    }
  }

  // A prefix of a list describes part of its tree.
  lemma PrefixIsSmaller(es: seq<Entry>, more: seq<Entry>)
    requires DistinctNames(es + more) && FilesAreLeaves(es + more)
    ensures DistinctNames(es) && FilesAreLeaves(es)
    ensures |TreeOf(es)| <= |TreeOf(es + more)| && TotalSize(TreeOf(es)) <= TotalSize(TreeOf(es + more))
  {
    PrefixDistinct(es, more);
    var a, b := TreeOf(es), TreeOf(es + more);
    forall p | p in a
      ensures p in b
    {
      var e, i :| e in es && 1 <= i <= |e.path| && e.path[..i] == p;
      assert e in es + more;
    }
    assert a.Keys <= b.Keys;
    SubsetSize(a.Keys, b.Keys);
    assert |a.Keys| == |a| && |b.Keys| == |b|;
    PrefixTotal(es, more);
  }

  lemma PrefixDistinct(es: seq<Entry>, more: seq<Entry>)
    requires DistinctNames(es + more) && FilesAreLeaves(es + more)
    ensures DistinctNames(es) && FilesAreLeaves(es)
  {
    var all := es + more;
    assert forall i | 0 <= i < |es| :: all[i] == es[i];
    assert forall e | e in es :: e in all;
  }

  lemma {:induction false} PrefixTotal(es: seq<Entry>, more: seq<Entry>)
    requires DistinctNames(es + more) && FilesAreLeaves(es + more)
    ensures TotalSize(TreeOf(es)) <= TotalSize(TreeOf(es + more))
    decreases |more|
  {
    if more == [] {
      assert es + more == es;
    } else {
      var e, rest := more[0], more[1..];
      assert es + more == (es + [e]) + rest;
      PrefixTotal(es + [e], rest);
      PrefixDistinct(es + [e], rest);
      GrownIsHeavier(es, e);
    }
  }

  lemma GrownIsHeavier(es: seq<Entry>, e: Entry)
    requires DistinctNames(es + [e]) && FilesAreLeaves(es + [e])
    ensures TotalSize(TreeOf(es)) <= TotalSize(TreeOf(es + [e]))
  {
    if e.node.Directory? {
      DirectoryGrows(es, e);
      DirectoriesWeighNothing(TreeOf(es), e.path, |e.path|);
    } else if e.path != [] {
      FileGrows(es, e);
      DirectoriesWeighNothing(TreeOf(es), e.path, |e.path| - 1);
      TotalInsert(WithDirectories(TreeOf(es), e.path, |e.path| - 1), e.path, e.node);
    } else {
      RootAddsNothing(es, e);
    }
  }

  lemma RootAddsNothing(es: seq<Entry>, e: Entry)
    requires e.path == [] && DistinctNames(es + [e])
    ensures TreeOf(es + [e]) == TreeOf(es)
  {
    PlacesGrow(es, e);
    forall p | p in Places(es)
      ensures NodeAt(es + [e], p) == NodeAt(es, p)
    {
      var f := PlaceOf(es, p);
      NodeStays(es, e, p);
    }
  }

  lemma NextIsAdmissible(all: seq<Entry>, done: seq<Entry>, e: Entry, rest: seq<Entry>)
    requires OneTree(all) && Placed(all) && all == done + [e] + rest
    ensures Admissible(done, e)
  {
    PrefixIsSmaller(done + [e], rest);
    assert e in all;
  }

  lemma MoveFirst(done: seq<Entry>, todo: seq<Entry>)
    requires todo != []
    ensures done + todo == done + [todo[0]] + todo[1..]
  {
  }

  lemma AdmitNext(st: State, next: State, todo: seq<Entry>)
    requires todo != [] && Placed(todo) && Admit(st, todo[0]) == Ok(next)
    ensures AdmitAll(st, todo) == AdmitAll(next, todo[1..])
  {
  }

  lemma {:induction false} AdmitList(all: seq<Entry>, done: seq<Entry>, todo: seq<Entry>)
    requires OneTree(all) && Placed(all) && all == done + todo && Placed(todo)
    ensures AdmitAll(StateOf(done), todo) == Ok(StateOf(all))
    decreases |todo|
  {
    if todo == [] {
      assert all == done;
    } else {
      var e, rest := todo[0], todo[1..];
      MoveFirst(done, todo);
      NextIsAdmissible(all, done, e, rest);
      AdmitGrown(done, e);
      AdmitNext(StateOf(done), StateOf(done + [e]), todo);
      AdmitList(all, done + [e], rest);
    }
  }

  // ------------------------------------------------------------------ what admission needs

  // No file stands on the ways.
  ghost predicate Clear(t: Tree, ways: seq<Path>) {
    forall p | p in ways && p in t :: t[p].Directory?
  }

  lemma MakeUnfolds(st: State, ways: seq<Path>, p: Path, after: State) returns (before: State)
    requires MakeEach(st, ways + [p]) == Ok(after)
    ensures MakeEach(st, ways) == Ok(before) && MakeDirectory(before, p) == Ok(after)
  {
    assert (ways + [p])[..|ways|] == ways;
    before := MakeEach(st, ways).value;
  }

  lemma {:induction false} MakeNeeds(st: State, ways: seq<Path>, after: State)
    requires st.created == st.tree.Keys && |st.created| <= MAX_ENTRIES && MakeEach(st, ways) == Ok(after)
    ensures IsMade(st, ways, after) && |after.created| <= MAX_ENTRIES && Clear(st.tree, ways)
  {
    if ways != [] {
      var front, p := ways[..|ways| - 1], ways[|ways| - 1];
      assert ways == front + [p];
      var before := MakeUnfolds(st, front, p, after);
      MakeNeeds(st, front, before);
      MakeNeedsLast(st, front, before, p, after);
    }
  }

  lemma MakeNeedsLast(st: State, ways: seq<Path>, before: State, p: Path, after: State)
    requires IsMade(st, ways, before) && |before.created| <= MAX_ENTRIES && Clear(st.tree, ways)
    requires MakeDirectory(before, p) == Ok(after)
    ensures IsMade(st, ways + [p], after) && |after.created| <= MAX_ENTRIES && Clear(st.tree, ways + [p])
  {
    if p in before.created {
      MakeOld(st, ways, before, p);
    } else {
      MakeNew(st, ways, before, p);
    }
  }

  lemma DirectoriesNeed(st: State, path: Path, n: nat)
    requires n <= |path| && st.created == st.tree.Keys && |st.created| <= MAX_ENTRIES && MakeDirectories(st, path, n).Ok?
    ensures MakeDirectories(st, path, n) == Ok(Made(st, path, n)) && Passable(st.tree, Ancestry(path, n))
    ensures |st.tree.Keys + Ancestry(path, n)| <= MAX_ENTRIES
  {
    WaysAre(st, path, n);
    var after := MakeEach(st, Ways(path, n)).value;
    MakeNeeds(st, Ways(path, n), after);
    MadeIsMade(st, Ways(path, n), Ancestry(path, n), after);
  }

  lemma {:induction false} NamesAreMany(es: seq<Entry>)
    requires DistinctNames(es)
    ensures |NamesOf(es)| == |es|
  {
    if es == [] {
      assert NamesOf(es) == {};
    } else {
      var front, last := es[..|es| - 1], es[|es| - 1];
      assert es == front + [last];
      FrontDistinct(front, last);
      NamesAreMany(front);
      NamesGrow(front, last);
    }
  }

  lemma NewNameIsDistinct(es: seq<Entry>, e: Entry)
    requires DistinctNames(es) && Name(e) !in NamesOf(es)
    ensures DistinctNames(es + [e])
  {
    var all := es + [e];
    forall i, j | 0 <= i < j < |all|
      ensures Name(all[i]) != Name(all[j])
    {
      assert all[i] == es[i] && es[i] in es;
    }
  }

  lemma EnterNeeds(es: seq<Entry>, e: Entry)
    requires DistinctNames(es) && |TreeOf(es)| <= MAX_ENTRIES && (e.node.File? ==> e.path != [])
    requires Enter(StateOf(es), RecordOf(e)).Ok?
    ensures DistinctNames(es + [e]) && |es| + 1 <= MAX_ENTRIES
    ensures TotalSize(TreeOf(es)) + Size(e.node) <= MAX_BYTES
    ensures var n := DirectoryCount(RecordOf(e));
            && Passable(TreeOf(es), Ancestry(e.path, n)) && |TreeOf(es).Keys + Ancestry(e.path, n)| <= MAX_ENTRIES
            && Enter(StateOf(es), RecordOf(e)) == Ok(Made(Enlisted(StateOf(es), RecordOf(e)), e.path, n))
  {
    NewNameIsDistinct(es, e);
    NamesAreMany(es + [e]);
    NamesGrow(es, e);
    TreeKeys(es);
    EnterIs(StateOf(es), RecordOf(e));
    DirectoriesNeed(Enlisted(StateOf(es), RecordOf(e)), e.path, DirectoryCount(RecordOf(e)));
  }

  // An admitted entry has no file above it, and if it is a file nothing below it.
  lemma AdmittedIsLeaf(es: seq<Entry>, e: Entry)
    requires Placed(es) && DistinctNames(es + [e]) && FilesAreLeaves(es)
    requires e.node.File? ==> e.path != [] && e.path !in Places(es)
    requires Passable(TreeOf(es), Ancestry(e.path, DirectoryCount(RecordOf(e))))
    ensures FilesAreLeaves(es + [e])
  {
    FrontDistinct(es, e);
    forall f, g | f in es + [e] && g in es + [e] && f.node.File?
      ensures !(f.path < g.path)
    {
      if f in es && g == e && f.path < e.path {
        FileAbove(es, e, f);
      } else if f == e && g in es {
        AboveIsPlace(es, g, e.path);
      }
    }
  }

  lemma AboveIsPlace(es: seq<Entry>, g: Entry, p: Path)
    requires g in es
    ensures p != [] && p <= g.path ==> p in Places(es)
  {
    if p != [] && p <= g.path {
      assert g.path[..|p|] == p;
    }
  }

  lemma FileAbove(es: seq<Entry>, e: Entry, f: Entry)
    requires DistinctNames(es) && f in es && f.node.File? && f.path != [] && f.path < e.path
    ensures !Passable(TreeOf(es), Ancestry(e.path, DirectoryCount(RecordOf(e))))
  {
    NodeIsListed(es, f);
    assert f.path[..|f.path|] == f.path;
    assert f.path in Places(es);
    AncestryHas(e.path, DirectoryCount(RecordOf(e)), f.path);
    assert e.path[..|f.path|] == f.path;
    assert !TreeOf(es)[f.path].Directory?;
  }

  // A file is written only where nothing was, and with room for one more path.
  lemma WriteNeeds(es: seq<Entry>, e: Entry, entered: State)
    requires e.node.File? && e.path != [] && WriteFile(entered, e.path, e.node.content).Ok?
    requires entered.tree == Filled(TreeOf(es), Ancestry(e.path, |e.path| - 1))
    requires entered.created == TreeOf(es).Keys + Ancestry(e.path, |e.path| - 1)
    ensures e.path !in Places(es) && |TreeOf(es + [e])| <= MAX_ENTRIES
  {
    TreeKeys(es);
    FilePlaces(es, e);
    TreeKeys(es + [e]);
  }

  lemma AdmitNeeds(es: seq<Entry>, e: Entry)
    requires Placed(es) && OneTree(es) && (e.node.File? ==> e.path != []) && Admit(StateOf(es), e).Ok?
    ensures Admissible(es, e)
  {
    EnterNeeds(es, e);
    if e.node.File? {
      WriteNeeds(es, e, Enter(StateOf(es), RecordOf(e)).value);
    } else {
      PlacesGrow(es, e);
      TreeKeys(es);
      TreeKeys(es + [e]);
    }
    AdmittedIsLeaf(es, e);
    GrownTotal(es, e);
  }

  lemma {:induction false} AdmitAllNeeds(done: seq<Entry>, todo: seq<Entry>)
    requires Placed(done) && Placed(todo) && OneTree(done) && AdmitAll(StateOf(done), todo).Ok?
    ensures OneTree(done + todo)
    decreases |todo|
  {
    if todo == [] {
      assert done + todo == done;
    } else {
      var e := todo[0];
      assert e in todo;
      AdmitStep(StateOf(done), todo);
      AdmitNeeds(done, e);
      AdmitGrown(done, e);
      MoveFirst(done, todo);
      AdmitAllNeeds(done + [e], todo[1..]);
    }
  }

  lemma NothingIsOneTree()
    ensures OneTree([]) && StateOf([]) == INITIAL
  {
    assert TreeOf([]) == map[];
  }

  /** Writing a list of entries as ustar, in any spelling and with any ignored metadata, and
      extracting it, succeeds exactly when the list describes one tree within the limits, and
      then rebuilds exactly that tree and its counts. */
  lemma EncodedExtracts(es: seq<Entry>, padding: nat, utf8: string -> bool)
    requires AllValid(es, utf8) && padding <= MAX_PADDING
    ensures Extract(Encode(es, padding), INITIAL, utf8).Ok? <==> OneTree(es)
    ensures OneTree(es) ==> Extract(Encode(es, padding), INITIAL, utf8) == Ok(StateOf(es))
    ensures Reported(StateOf(es)) == Budget(|TreeOf(es)|, TotalSize(TreeOf(es)))
  {
    NothingIsOneTree();
    assert [] + es == es;
    ExtractEncoded(es, padding, INITIAL, utf8);
    if OneTree(es) {
      AdmitList(es, [], es);
    }
    if AdmitAll(INITIAL, es).Ok? {
      AdmitAllNeeds([], es);
    }
    TreeKeys(es);
  }

  lemma {:induction false} AncestryIsSmall(path: Path, n: nat)
    requires n <= |path|
    ensures |Ancestry(path, n)| <= n
    decreases n
  {
    if n > 0 {
      AncestryIsSmall(path, n - 1);
    }
  }

  lemma SinglePlaces(e: Entry)
    requires |e.path| <= MAX_DEPTH
    ensures |TreeOf([e])| <= MAX_DEPTH
  {
    assert [] + [e] == [e];
    PlacesGrow([], e);
    TreeKeys([e]);
    AncestryIsSmall(e.path, |e.path|);
    assert Places([]) + Ancestry(e.path, |e.path|) == Ancestry(e.path, |e.path|);
  }

  lemma SingleIsDistinct(e: Entry)
    ensures DistinctNames([e]) && FilesAreLeaves([e])
  {
  }

  lemma SingleTotal(e: Entry)
    requires e.node.File? ==> e.path != []
    ensures TotalSize(TreeOf([e])) == Size(e.node)
  {
    var none: seq<Entry> := [];
    assert none + [e] == [e];
    SingleIsDistinct(e);
    GrownTotal(none, e);
    assert TreeOf(none) == map[];
  }

  lemma SingleIsOneTree(e: Entry)
    requires |e.path| <= MAX_DEPTH && Size(e.node) <= MAX_FILE && (e.node.File? ==> e.path != [])
    ensures OneTree([e])
  {
    SingleIsDistinct(e);
    SinglePlaces(e);
    SingleTotal(e);
  }

  /** In particular every valid entry alone is an archive that extracts. */
  lemma OneEntryExtracts(e: Entry, padding: nat, utf8: string -> bool)
    requires ValidEntry(e, utf8) && padding <= MAX_PADDING
    ensures Spelled([e]) && Extract(Encode([e], padding), INITIAL, utf8) == Ok(StateOf([e]))
  {
    SingleIsOneTree(e);
    EncodedExtracts([e], padding, utf8);
  }
}
