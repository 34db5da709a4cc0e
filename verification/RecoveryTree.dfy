/**
 The staged recovery tree and its bounded traversal (`walk` in
 nixos/scripts/recovery-inspect.py).

 A tree is a finite map from paths, relative to the staging root, to directories and regular
 files.  `Walk` visits each directory's entries in any order, counting entries and bytes
 against the limits and, when staging, copying what it visits.
 */
module RecoveryTree {
  import opened Base

  const MAX_ENTRIES: nat := 50_000
  const MAX_BYTES: nat := 1024 * 1024 * 1024
  const MAX_FILE: nat := 64 * 1024 * 1024
  const MAX_DEPTH: nat := 24

  type Path = seq<string>

  datatype Node = Directory | File(content: string)

  type Tree = map<Path, Node>

  datatype Budget = Budget(entries: nat, bytes: nat)

  function Size(n: Node): nat {
    if n.File? then |n.content| else 0
  }

  // ------------------------------------------------------------------ the bytes of a tree

  ghost function Pick(t: Tree): (p: Path)
    requires t != map[]
    ensures p in t
  {
    var p :| p in t;
    p
  }

  ghost function TotalSize(t: Tree): nat {
    if t == map[] then 0 else Size(t[Pick(t)]) + TotalSize(t - {Pick(t)})
  }

  lemma {:induction false} TotalWithout(t: Tree, p: Path)
    requires p in t
    ensures TotalSize(t) == Size(t[p]) + TotalSize(t - {p})
    decreases |t|
  {
    var q := Pick(t);
    if q != p {
      TotalWithout(t - {q}, p);
      TotalWithout(t - {p}, q);
      assert t - {q} - {p} == t - {p} - {q};
    }
  }

  lemma UnionWithout(a: Tree, b: Tree, p: Path)
    requires p in b && p !in a
    ensures (a + b) - {p} == a + (b - {p}) && (a + b)[p] == b[p]
  {
  }

  lemma {:induction false} TotalUnion(a: Tree, b: Tree)
    requires a.Keys !! b.Keys
    ensures TotalSize(a + b) == TotalSize(a) + TotalSize(b)
    decreases |b|
  {
    if b == map[] {
      assert a + b == a;
    } else {
      var p := Pick(b);
      assert p !in a.Keys;
      TotalUnion(a, b - {p});
      TotalWithout(a + b, p);
      UnionWithout(a, b, p);
    }
  }

  lemma CountUnion(a: Tree, b: Tree)
    requires a.Keys !! b.Keys
    ensures |a + b| == |a| + |b|
  {
    assert (a + b).Keys == a.Keys + b.Keys;
    assert |a.Keys| == |a| && |b.Keys| == |b| && |(a + b).Keys| == |a + b|;
  }

  predicate Within(a: Tree, b: Tree) {
    forall p | p in a :: p in b && b[p] == a[p]
  }

  lemma WithinSplits(a: Tree, b: Tree)
    requires Within(a, b)
    ensures b == a + (b - a.Keys)
  {
  }

  lemma WithinIsSmaller(a: Tree, b: Tree)
    requires Within(a, b)
    ensures TotalSize(a) <= TotalSize(b) && |a| <= |b|
  {
    var rest := b - a.Keys;
    WithinSplits(a, b);
    TotalUnion(a, rest);
    CountUnion(a, rest);
  }

  lemma TotalSingle(p: Path, n: Node)
    ensures TotalSize(map[p := n]) == Size(n) && |map[p := n]| == 1
  {
    var t := map[p := n];
    TotalWithout(t, p);
    assert t - {p} == map[];
  }

  // ------------------------------------------------------------------ shape

  // Every path but those directly below the root has its parent in the tree, as a directory.
  ghost predicate PrefixClosed(t: Tree) {
    forall p | p in t :: p != [] && (|p| > 1 ==> HasDirectory(t, p[..|p| - 1]))
  }

  predicate HasDirectory(t: Tree, p: Path) {
    p in t && t[p].Directory?
  }

  // All proper ancestors are directories; in particular no file lies above another entry.
  lemma {:induction false} AncestorIsDirectory(t: Tree, p: Path, i: nat)
    requires PrefixClosed(t) && p in t && 0 < i < |p|
    ensures HasDirectory(t, p[..i])
    decreases |p|
  {
    var parent := p[..|p| - 1];
    if i < |p| - 1 {
      AncestorIsDirectory(t, parent, i);
      assert parent[..i] == p[..i];
    }
  }

  // What lies strictly below a directory, and an entry with what lies below it.
  function Below(t: Tree, d: Path): Tree {
    map p | p in t && d < p :: t[p]
  }

  function Under(t: Tree, c: Path): Tree {
    map p | p in t && c <= p :: t[p]
  }

  function Children(t: Tree, d: Path): set<Path> {
    set p | p in t && |p| == |d| + 1 && d < p
  }

  // The part of `Below(t, d)` whose branch is not in `todo`.
  function Visited(t: Tree, d: Path, todo: set<Path>): Tree {
    map p | p in t && d < p && p[..|d| + 1] !in todo :: t[p]
  }

  // ------------------------------------------------------------------ limits

  predicate Allowed(p: Path, n: Node) {
    (n.Directory? ==> |p| <= MAX_DEPTH) && Size(n) <= MAX_FILE
  }

  ghost predicate AllAllowed(t: Tree) {
    forall p | p in t :: Allowed(p, t[p])
  }

  ghost function Sum(b: Budget, t: Tree): Budget {
    Budget(b.entries + |t|, b.bytes + TotalSize(t))
  }

  predicate InBudget(b: Budget) {
    b.entries <= MAX_ENTRIES && b.bytes <= MAX_BYTES
  }

  // A traversal from d with the budget used so far stays within every limit.
  ghost predicate Fits(t: Tree, d: Path, before: Budget) {
    |d| <= MAX_DEPTH && AllAllowed(Below(t, d)) && InBudget(Sum(before, Below(t, d)))
  }

  lemma ChildrenAreBranches(t: Tree, d: Path)
    requires PrefixClosed(t)
    ensures Visited(t, d, {}) == Below(t, d)
    ensures Visited(t, d, Children(t, d)) == map[]
  {
    forall p | p in t && d < p
      ensures p[..|d| + 1] in Children(t, d)
    {
      if |p| > |d| + 1 {
        AncestorIsDirectory(t, p, |d| + 1);
      } else {
        assert p[..|d| + 1] == p;
      }
      assert p[..|d|] == d;
      assert p[..|d| + 1][..|d|] == d;
    }
  }

  // Visiting child c adds exactly c and what lies below it.
  lemma VisitAdds(t: Tree, d: Path, todo: set<Path>, c: Path)
    requires todo <= Children(t, d) && c in todo
    ensures Visited(t, d, todo - {c}) == Visited(t, d, todo) + Under(t, c)
    ensures Visited(t, d, todo).Keys !! Under(t, c).Keys
    ensures Within(Visited(t, d, todo), Below(t, d)) && Within(Under(t, c), Below(t, d))
  {
    forall p | p in t
      ensures c <= p <==> d < p && p[..|d| + 1] == c
    {
      if c <= p {
        assert p[..|c|] == c && c[..|d|] == d;
        assert p[..|d|] == p[..|c|][..|d|];
      }
    }
  }

  lemma UnderSplits(t: Tree, c: Path)
    requires c in t
    ensures Under(t, c) == map[c := t[c]] + Below(t, c) && c !in Below(t, c)
  {
    assert forall p | p in t :: c <= p <==> p == c || c < p;
  }

  lemma NothingBelowFile(t: Tree, c: Path)
    requires PrefixClosed(t) && c in t && t[c].File?
    ensures Below(t, c) == map[]
  {
    forall p | p in t && c < p
      ensures false
    {
      assert p[..|c|] == c;
      AncestorIsDirectory(t, p, |c|);
    }
  }

  lemma BelowShrinks(t: Tree, d: Path, c: Path)
    requires c in Children(t, d)
    ensures |Below(t, c)| < |Below(t, d)|
  {
    var smaller := Below(t, c);
    assert Within(smaller, Below(t, d) - {c}) by {
      forall p | p in smaller
        ensures p in Below(t, d) && p != c
      {
        assert p[..|c|] == c && c[..|d|] == d;
        assert p[..|d|] == p[..|c|][..|d|];
      }
    }
    WithinIsSmaller(smaller, Below(t, d) - {c});
    assert c in Below(t, d);
  }

  // What the traversal has used after visiting the child as well.
  lemma SumGrows(before: Budget, t: Tree, d: Path, todo: set<Path>, c: Path)
    requires todo <= Children(t, d) && c in todo
    ensures Sum(before, Visited(t, d, todo - {c})) == Sum(Sum(before, Visited(t, d, todo)), Under(t, c))
    ensures !InBudget(Sum(before, Visited(t, d, todo - {c}))) ==> !InBudget(Sum(before, Below(t, d)))
  {
    VisitAdds(t, d, todo, c);
    TotalUnion(Visited(t, d, todo), Under(t, c));
    CountUnion(Visited(t, d, todo), Under(t, c));
    WithinIsSmaller(Visited(t, d, todo - {c}), Below(t, d));
  }

  lemma UnderSum(b: Budget, t: Tree, c: Path)
    requires c in t
    ensures Sum(b, Under(t, c)) == Sum(Budget(b.entries + 1, b.bytes + Size(t[c])), Below(t, c))
  {
    UnderSplits(t, c);
    TotalSingle(c, t[c]);
    TotalUnion(map[c := t[c]], Below(t, c));
    CountUnion(map[c := t[c]], Below(t, c));
  }

  lemma UnderAllowed(t: Tree, c: Path)
    requires c in t
    ensures AllAllowed(Under(t, c)) <==> Allowed(c, t[c]) && AllAllowed(Below(t, c))
  {
    UnderSplits(t, c);
  }

  // What it takes to visit a directory, and a file.
  lemma DirectoryFits(t: Tree, c: Path, b: Budget)
    requires HasDirectory(t, c)
    ensures Fits(t, c, Budget(b.entries + 1, b.bytes)) <==> AllAllowed(Under(t, c)) && InBudget(Sum(b, Under(t, c)))
    ensures Sum(Budget(b.entries + 1, b.bytes), Below(t, c)) == Sum(b, Under(t, c))
    ensures b.entries + 1 > MAX_ENTRIES ==> !InBudget(Sum(b, Under(t, c)))
  {
    UnderSum(b, t, c);
    UnderAllowed(t, c);
  }

  lemma FileFits(t: Tree, c: Path, b: Budget)
    requires PrefixClosed(t) && c in t && t[c].File?
    ensures Under(t, c) == map[c := t[c]] && Sum(b, Under(t, c)) == Budget(b.entries + 1, b.bytes + |t[c].content|)
    ensures AllAllowed(Under(t, c)) <==> |t[c].content| <= MAX_FILE
  {
    NothingBelowFile(t, c);
    UnderSplits(t, c);
    UnderSum(b, t, c);
  }

  /** The traversal succeeds exactly when the subtree fits the limits; it then has counted
      every entry and byte below the directory, and copied exactly that part of the tree.
      The order in which a directory's entries come is arbitrary. */
  method Walk(t: Tree, d: Path, before: Budget) returns (r: Result<Budget, Refusal>, copy: Tree)
    requires PrefixClosed(t) && InBudget(before)
    ensures r.Ok? <==> Fits(t, d, before)
    ensures r.Ok? ==> r.value == Sum(before, Below(t, d)) && copy == Below(t, d)
    decreases |Below(t, d)|, 0
  {
    copy := map[];
    if |d| > MAX_DEPTH {
      return Err(DepthLimit), copy;
    }
    var budget, todo := before, Children(t, d);
    ChildrenAreBranches(t, d);
    while todo != {}
      invariant todo <= Children(t, d)
      invariant copy == Visited(t, d, todo) && budget == Sum(before, copy)
      invariant AllAllowed(copy)
      invariant InBudget(budget)
      decreases |todo|
    {
      var c :| c in todo;
      VisitAdds(t, d, todo, c);
      SumGrows(before, t, d, todo, c);
      UnderSum(budget, t, c);
      UnderSplits(t, c);
      BelowShrinks(t, d, c);
      var outcome, part := Visit(t, c, budget);
      if outcome.Err? {
        return outcome, copy;
      }
      budget, copy, todo := outcome.value, copy + part, todo - {c};
    }
    r := Ok(budget);
  }

  // One entry: a file is checked and read, a directory is entered.
  method Visit(t: Tree, c: Path, budget: Budget) returns (r: Result<Budget, Refusal>, part: Tree)
    requires PrefixClosed(t) && c in t && InBudget(budget)
    ensures r.Ok? <==> AllAllowed(Under(t, c)) && InBudget(Sum(budget, Under(t, c)))
    ensures r.Ok? ==> r.value == Sum(budget, Under(t, c)) && part == Under(t, c)
    decreases |Below(t, c)|, 1
  {
    part := map[];
    var entries := budget.entries + 1;
    if t[c].Directory? {
      DirectoryFits(t, c, budget);
      if entries > MAX_ENTRIES {
        return Err(EntryLimit), part;
      }
      r, part := Walk(t, c, Budget(entries, budget.bytes));
      UnderSplits(t, c);
      part := map[c := Directory] + part;
    } else {
      r, part := VisitFile(t, c, budget);
    }
  }

  method VisitFile(t: Tree, c: Path, budget: Budget) returns (r: Result<Budget, Refusal>, part: Tree)
    requires PrefixClosed(t) && c in t && t[c].File?
    ensures r.Ok? <==> AllAllowed(Under(t, c)) && InBudget(Sum(budget, Under(t, c)))
    ensures r.Ok? ==> r.value == Sum(budget, Under(t, c)) && part == Under(t, c)
  {
    FileFits(t, c, budget);
    part := map[];
    var entries := budget.entries + 1;
    if entries > MAX_ENTRIES {
      return Err(EntryLimit), part;
    }
    if |t[c].content| > MAX_FILE {
      return Err(FileSizeLimit), part;
    }
    var bytes := budget.bytes + |t[c].content|;
    if bytes > MAX_BYTES {
      return Err(ByteLimit), part;
    }
    r, part := Ok(Budget(entries, bytes)), map[c := t[c]];
  }

  datatype Refusal =
    | TruncatedArchive | InvalidArchiveEnd | InvalidArchiveHeader | InvalidArchiveChecksum
    | UnsupportedArchiveHeader | UnsafeArchiveEntry | UnsafeArchivePath | DuplicateArchiveEntry
    | NotUnicode | FilesystemError
    | DepthLimit | EntryLimit | FileSizeLimit | ByteLimit
}
