/**
 Writing tar header blocks in the ustar interchange format (section "ustar Interchange
 Format" of the pax utility in POSIX.1-2017), and the proof that the extractor's header
 reader recovers exactly the entry that was written.

 An entry fixes what the reader looks at; the fields it ignores are arbitrary bytes, and so
 are the permitted spellings: the split of a long name over the prefix field, a trailing
 slash on a directory, the kind byte of a regular file, and the name of the root.
 */
module TarEncoding {
  import opened Base
  import opened Text
  import opened RecoveryTree
  import opened TarHeader

  // ------------------------------------------------------------------ number fields

  function OctalChar(d: nat): (c: char)
    requires d < 8
    ensures IsOctal(c) && c as int - '0' as int == d
  {
    ('0' as int + d) as char
  }

  function Octal(n: nat, digits: nat): (s: string)
    ensures |s| == digits && AllOctal(s)
  {
    if digits == 0 then "" else Octal(n / 8, digits - 1) + [OctalChar(n % 8)]
  }

  function Pow8(n: nat): nat {
    if n == 0 then 1 else 8 * Pow8(n - 1)
  }

  lemma {:induction false} OctalReads(n: nat, digits: nat)
    requires n < Pow8(digits)
    ensures OctalValue(Octal(n, digits)) == n
    decreases digits
  {
    if digits > 0 {
      OctalReads(n / 8, digits - 1);
      assert Octal(n, digits)[..digits - 1] == Octal(n / 8, digits - 1);
    }
  }

  predicate AllBlank(s: string) {
    forall i | 0 <= i < |s| :: s[i] == '\0' || s[i] == ' '
  }

  lemma {:induction false} StripsTail(s: string, tail: string)
    requires s != "" && IsOctal(s[|s| - 1]) && AllBlank(tail)
    ensures StripRight(s + tail) == s
    decreases |tail|
  {
    if tail == "" {
      assert s + tail == s;
    } else {
      var init := tail[..|tail| - 1];
      assert (s + tail)[..|s + tail| - 1] == s + init;
      assert (s + tail)[|s + tail| - 1] == tail[|tail| - 1];
      StripsTail(s, init);
    }
  }

  lemma NumberReads(n: nat, digits: nat, tail: string)
    requires 0 < digits && n < Pow8(digits) && AllBlank(tail)
    ensures TarNumber(Octal(n, digits) + tail) == Some(n)
  {
    var s := Octal(n, digits);
    assert IsOctal(s[0]) && IsOctal(s[digits - 1]);
    StripsTail(s, tail);
    OctalReads(n, digits);
  }

  function SizeField(n: nat): (s: string)
    ensures |s| == 12
  {
    Octal(n, 11) + "\0"
  }

  function ChecksumField(n: nat): (s: string)
    ensures |s| == 8
  {
    Octal(n, 6) + "\0 "
  }

  lemma FieldsRead(n: nat)
    ensures n <= MAX_FILE ==> TarNumber(SizeField(n)) == Some(n)
    ensures n < 262_144 ==> TarNumber(ChecksumField(n)) == Some(n)
  {
    Powers();
    if n <= MAX_FILE {
      NumberReads(n, 11, "\0");
    }
    if n < 262_144 {
      NumberReads(n, 6, "\0 ");
    }
  }

  lemma Powers()
    ensures Pow8(6) == 262_144 && Pow8(11) > MAX_FILE
  {
    assert Pow8(3) == 512;
    assert Pow8(9) == 134_217_728;
  }

  // ------------------------------------------------------------------ entries

  // The header fields that the reader ignores.
  datatype Meta = Meta(owner: string, time: string, link: string, names: string, tail: string)

  datatype Entry = Entry(path: Path, node: Node, spelling: Spelling, meta: Meta)

  // How many parts of the path go to the prefix field, whether a directory's name ends in a
  // slash, whether the root is written ".", and whether a file's kind byte is NUL.
  datatype Spelling = Spelling(split: nat, slash: bool, dot: bool, nul: bool)

  function Kind(e: Entry): string {
    if e.node.Directory? then "5" else if e.spelling.nul then "\0" else "0"
  }

  // The name the extractor knows the entry by.
  function Name(e: Entry): string {
    if e.path == [] then (if e.spelling.dot then "." else "") else Joined(e.path, '/')
  }

  function SlashText(e: Entry): string {
    if e.spelling.slash then "/" else ""
  }

  function PrefixText(e: Entry): string
    requires e.spelling.split <= |e.path|
  {
    Joined(e.path[..e.spelling.split], '/')
  }

  function NameText(e: Entry): string
    requires e.spelling.split <= |e.path|
  {
    (if e.path == [] then Name(e) else Joined(e.path[e.spelling.split..], '/')) + SlashText(e)
  }

  predicate AllBytes(s: string) {
    forall i | 0 <= i < |s| :: s[i] as int < 256
  }

  predicate ValidPart(p: string) {
    ProperPart(p) && '/' !in p && Clean(p) && AllBytes(p)
  }

  predicate ValidPath(path: Path) {
    |path| <= MAX_DEPTH && forall p | p in path :: ValidPart(p)
  }

  predicate ValidMeta(m: Meta) {
    && |m.owner| == 24 && |m.time| == 12 && |m.link| == 100 && |m.names| == 82 && |m.tail| == 12
    && AllBytes(m.owner) && AllBytes(m.time) && AllBytes(m.link) && AllBytes(m.names) && AllBytes(m.tail)
  }

  predicate ValidSpelling(e: Entry) {
    && (e.spelling.split == 0 || e.spelling.split < |e.path|)
    && (e.spelling.slash ==> e.node.Directory?)
    && |NameText(e)| <= 100 && |PrefixText(e)| <= 155
  }

  // An entry that the format can hold and the extractor's rules allow.
  predicate ValidEntry(e: Entry, utf8: string -> bool) {
    && ValidPath(e.path)
    && (e.node.File? ==> e.path != [])
    && Size(e.node) <= MAX_FILE
    && ValidSpelling(e)
    && ValidMeta(e.meta)
    && utf8(Name(e) + SlashText(e))
  }

  // ------------------------------------------------------------------ the header block

  function Padded(s: string, n: nat): (r: string)
    requires |s| <= n
    ensures |r| == n
  {
    s + Zeros(n - |s|)
  }

  // Before and after the checksum field.
  function Left(e: Entry): string
    requires ValidSpelling(e)
  {
    Padded(NameText(e), 100) + e.meta.owner + SizeField(Size(e.node)) + e.meta.time
  }

  function Right(e: Entry): string
    requires ValidSpelling(e)
  {
    Kind(e) + e.meta.link + USTAR + e.meta.names + Padded(PrefixText(e), 155) + e.meta.tail
  }

  function HeaderOf(e: Entry): string
    requires ValidSpelling(e)
  {
    Left(e) + ChecksumField(ByteSum(Left(e)) + 256 + ByteSum(Right(e))) + Right(e)
  }

  lemma LeftSlices(n: string, o: string, s: string, t: string)
    requires |n| == 100 && |o| == 24 && |s| == 12 && |t| == 12
    ensures |n + o + s + t| == 148
    ensures (n + o + s + t)[..100] == n && (n + o + s + t)[124..136] == s
  {
  }

  lemma RightSlices(k: string, l: string, m: string, x: string, p: string, t: string)
    requires |k| == 1 && |l| == 100 && |m| == 6 && |x| == 82 && |p| == 155 && |t| == 12
    ensures |k + l + m + x + p + t| == 356 && (k + l + m + x + p + t)[0] == k[0]
    ensures (k + l + m + x + p + t)[101..107] == m && (k + l + m + x + p + t)[189..344] == p
  {
  }

  lemma Blocks(left: string, mid: string, right: string)
    requires |left| == 148 && |mid| == 8 && |right| == 356
    ensures var h := left + mid + right;
            && |h| == 512 && h[..148] == left && h[148..156] == mid && h[156..] == right
            && h[..100] == left[..100] && h[124..136] == left[124..136] && h[156] == right[0]
            && h[257..263] == right[101..107] && h[345..500] == right[189..344]
  {
    var h := left + mid + right;
    assert h[156..] == right;
    assert h[257..263] == h[156..][101..107] && h[345..500] == h[156..][189..344];
    assert h[..100] == h[..148][..100] && h[124..136] == h[..148][124..136];
  }

  // The fields of a written header.
  lemma HeaderFields(e: Entry)
    requires ValidSpelling(e) && ValidMeta(e.meta)
    ensures var h := HeaderOf(e);
            && |h| == BLOCK && |Left(e)| == 148 && |Right(e)| == 356
            && h[..148] == Left(e) && h[156..] == Right(e)
            && h[148..156] == ChecksumField(ByteSum(Left(e)) + 256 + ByteSum(Right(e)))
            && h[..100] == Padded(NameText(e), 100) && h[124..136] == SizeField(Size(e.node))
            && h[156] == Kind(e)[0] && h[257..263] == USTAR && h[345..500] == Padded(PrefixText(e), 155)
  {
    var m := e.meta;
    LeftSlices(Padded(NameText(e), 100), m.owner, SizeField(Size(e.node)), m.time);
    RightSlices(Kind(e), m.link, USTAR, m.names, Padded(PrefixText(e), 155), m.tail);
    Blocks(Left(e), ChecksumField(ByteSum(Left(e)) + 256 + ByteSum(Right(e))), Right(e));
  }

  // ------------------------------------------------------------------ the checksum

  lemma {:induction false} ByteSumBound(s: string)
    requires AllBytes(s)
    ensures ByteSum(s) <= 255 * |s|
  {
    if s != "" {
      ByteSumBound(s[..|s| - 1]);
    }
  }

  lemma {:induction false} JoinedBytes(parts: Path)
    requires forall p | p in parts :: ValidPart(p)
    ensures AllBytes(Joined(parts, '/')) && Clean(Joined(parts, '/'))
  {
    if |parts| == 1 {
      assert ValidPart(parts[0]);
    } else if |parts| > 1 {
      assert ValidPart(parts[0]);
      JoinedBytes(parts[1..]);
    }
  }

  lemma TextBytes(e: Entry, utf8: string -> bool)
    requires ValidEntry(e, utf8)
    ensures AllBytes(NameText(e)) && AllBytes(PrefixText(e))
  {
    var k := e.spelling.split;
    assert forall p | p in e.path[..k] :: p in e.path;
    assert forall p | p in e.path[k..] :: p in e.path;
    JoinedBytes(e.path[..k]);
    JoinedBytes(e.path[k..]);
  }

  lemma LeftBytes(e: Entry)
    requires ValidSpelling(e) && ValidMeta(e.meta) && AllBytes(NameText(e))
    ensures AllBytes(Left(e))
  {
    assert AllBytes(Padded(NameText(e), 100));
    assert AllBytes(SizeField(Size(e.node))) by {
      OctalBytes(Octal(Size(e.node), 11));
    }
  }

  lemma OctalBytes(s: string)
    requires AllOctal(s)
    ensures AllBytes(s)
  {
  }

  lemma RightBytes(e: Entry)
    requires ValidSpelling(e) && ValidMeta(e.meta) && AllBytes(PrefixText(e))
    ensures AllBytes(Right(e))
  {
    assert AllBytes(Kind(e)) && AllBytes(USTAR);
    assert AllBytes(Padded(PrefixText(e), 155));
  }

  lemma ChecksumReads(e: Entry, utf8: string -> bool)
    requires ValidEntry(e, utf8)
    ensures |HeaderOf(e)| == BLOCK && TarNumber(HeaderOf(e)[148..156]) == Some(ChecksumOf(HeaderOf(e)))
  {
    HeaderFields(e);
    TextBytes(e, utf8);
    LeftBytes(e);
    RightBytes(e);
    ByteSumBound(Left(e));
    ByteSumBound(Right(e));
    FieldsRead(ByteSum(Left(e)) + 256 + ByteSum(Right(e)));
  }

  // ------------------------------------------------------------------ the name

  lemma PaddedReads(s: string, n: nat)
    requires |s| <= n && '\0' !in s
    ensures UpToNul(Padded(s, n)) == s
  {
    var r := Padded(s, n);
    var i := IndexOf(r, '\0');
    assert forall k | 0 <= k < |s| :: r[k] == s[k];
    assert |s| < n ==> r[|s|] == '\0';
    assert i == |s|;
  }

  lemma {:induction false} JoinedSplits(parts: Path, k: nat)
    requires 0 < k < |parts|
    ensures Joined(parts[..k], '/') + "/" + Joined(parts[k..], '/') == Joined(parts, '/')
  {
    if k == 1 {
      assert parts[..1] == [parts[0]];
    } else {
      var rest := parts[1..];
      JoinedSplits(rest, k - 1);
      assert parts[..k][1..] == rest[..k - 1] && parts[k..] == rest[k - 1..];
      JoinAfter(parts[0], Joined(rest[..k - 1], '/'), Joined(parts[k..], '/'));
    }
  }

  lemma JoinAfter(a: string, b: string, c: string)
    ensures a + ['/'] + b + "/" + c == a + ['/'] + (b + "/" + c)
  {
  }

  lemma JoinedNotEmpty(parts: Path)
    requires parts != [] && parts[0] != ""
    ensures Joined(parts, '/') != "" && Joined(parts, '/')[0] == parts[0][0]
  {
  }

  lemma TextHasNoNul(s: string)
    requires Clean(s)
    ensures '\0' !in s
  {
  }

  // What the reader makes of the name and prefix fields.
  lemma RawNameReads(e: Entry, utf8: string -> bool)
    requires ValidEntry(e, utf8) && |HeaderOf(e)| == BLOCK
    ensures RawName(HeaderOf(e)) == Name(e) + SlashText(e)
  {
    HeaderFields(e);
    var k := e.spelling.split;
    assert forall p | p in e.path[..k] :: p in e.path;
    assert forall p | p in e.path[k..] :: p in e.path;
    JoinedBytes(e.path[..k]);
    JoinedBytes(e.path[k..]);
    assert Clean(NameText(e));
    TextHasNoNul(NameText(e));
    TextHasNoNul(PrefixText(e));
    PaddedReads(NameText(e), 100);
    PaddedReads(PrefixText(e), 155);
    SplitNameReads(e, utf8);
  }

  lemma SplitNameReads(e: Entry, utf8: string -> bool)
    requires ValidEntry(e, utf8)
    ensures PrefixText(e) == "" <==> e.spelling.split == 0
    ensures (if PrefixText(e) != "" then PrefixText(e) + "/" + NameText(e) else NameText(e)) == Name(e) + SlashText(e)
  {
    var k := e.spelling.split;
    if k == 0 {
      assert e.path[..0] == [] && e.path[0..] == e.path;
    } else {
      assert e.path[..k][0] == e.path[0] && ValidPart(e.path[0]);
      JoinedNotEmpty(e.path[..k]);
      JoinedSplits(e.path, k);
      var a, b := Joined(e.path[..k], '/'), Joined(e.path[k..], '/');
      assert a + "/" + (b + SlashText(e)) == (a + "/" + b) + SlashText(e);
    }
  }

  lemma {:induction false} JoinedEnds(parts: Path)
    requires parts != [] && forall p | p in parts :: ValidPart(p)
    ensures var s := Joined(parts, '/'); s != "" && s[|s| - 1] != '/'
  {
    assert ValidPart(parts[0]);
    if |parts| == 1 {
      assert parts[0][|parts[0]| - 1] in parts[0];
    } else {
      JoinedEnds(parts[1..]);
    }
  }

  lemma SlashRemoved(e: Entry, utf8: string -> bool)
    requires ValidEntry(e, utf8)
    ensures WithoutSlash(Name(e) + SlashText(e), e.node.Directory?) == Name(e)
  {
    if e.path != [] {
      JoinedEnds(e.path);
    }
  }

  lemma NameIsSafe(e: Entry, utf8: string -> bool)
    requires ValidEntry(e, utf8) && e.path != []
    ensures SafeName(Name(e)) && Split(Name(e), '/') == e.path && Name(e) != "."
  {
    assert forall i | 0 <= i < |e.path| :: ValidPart(e.path[i]);
    SplitJoined(e.path, '/');
    JoinedBytes(e.path);
    JoinedNotEmpty(e.path);
    assert e.path[0][0] in e.path[0];
    SplitOnceNone(".", '/');
  }

  lemma PathReads(e: Entry, utf8: string -> bool)
    requires ValidEntry(e, utf8)
    ensures ParsePath(Name(e), e.node.Directory?) == Ok(e.path)
  {
    if e.path != [] {
      NameIsSafe(e, utf8);
    }
  }

  /** Reading a written header gives the entry's name, path, kind and size. */
  lemma HeaderReads(e: Entry, utf8: string -> bool)
    requires ValidEntry(e, utf8)
    ensures |HeaderOf(e)| == BLOCK && HeaderOf(e) != Zeros(BLOCK)
    ensures ParseHeader(HeaderOf(e), utf8) == Ok(Record(Name(e), e.path, e.node.Directory?, Size(e.node)))
  {
    var h := HeaderOf(e);
    HeaderFields(e);
    ChecksumReads(e, utf8);
    assert h[257] == h[257..263][0] == 'u';
    FieldsRead(Size(e.node));
    NameReads(e, utf8);
  }

  lemma NameReads(e: Entry, utf8: string -> bool)
    requires ValidEntry(e, utf8) && |HeaderOf(e)| == BLOCK && HeaderOf(e)[156] == Kind(e)[0]
    ensures ParseName(HeaderOf(e), Size(e.node), utf8) == Ok(Record(Name(e), e.path, e.node.Directory?, Size(e.node)))
  {
    RawNameReads(e, utf8);
    SlashRemoved(e, utf8);
    PathReads(e, utf8);
  }
}
