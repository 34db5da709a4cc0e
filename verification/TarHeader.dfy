/**
 Tar header blocks as `extract_tar` in nixos/scripts/recovery-inspect.py reads them: the
 "ustar Interchange Format" of the pax utility in POSIX.1-2017, restricted to regular files
 and directories.

 A byte string is a `string`; in an archive every character is below 256.  Whether a name is
 valid UTF-8 is a parameter.  The path rules look for '/', '\\' and control characters, which
 are single bytes in UTF-8, so they are stated on the bytes.
 */
module TarHeader {
  import opened Base
  import opened Text
  import opened RecoveryTree

  const BLOCK: nat := 512

  function ByteSum(s: string): nat {
    if s == "" then 0 else ByteSum(s[..|s| - 1]) + s[|s| - 1] as int
  }

  function Repeat(c: char, n: nat): (s: string)
    ensures |s| == n && forall i | 0 <= i < n :: s[i] == c
  {
    if n == 0 then "" else Repeat(c, n - 1) + [c]
  }

  function Zeros(n: nat): (s: string)
    ensures |s| == n && forall i | 0 <= i < n :: s[i] == '\0'
  {
    Repeat('\0', n)
  }

  // ------------------------------------------------------------------ numbers

  predicate IsOctal(c: char) {
    '0' <= c <= '7'
  }

  predicate AllOctal(s: string) {
    forall i | 0 <= i < |s| :: IsOctal(s[i])
  }

  function OctalValue(s: string): nat
    requires AllOctal(s)
  {
    if s == "" then 0 else 8 * OctalValue(s[..|s| - 1]) + (s[|s| - 1] as int - '0' as int)
  }

  function StripRight(s: string): string {
    if s != "" && (s[|s| - 1] == '\0' || s[|s| - 1] == ' ') then StripRight(s[..|s| - 1]) else s
  }

  function StripLeft(s: string): string {
    if s != "" && s[0] == ' ' then StripLeft(s[1..]) else s
  }

  // `tar_number`: octal digits after leading spaces and before trailing spaces and NULs.
  function TarNumber(raw: string): Option<nat> {
    var text := StripLeft(StripRight(raw));
    if text == "" || !AllOctal(text) then None else Some(OctalValue(text))
  }

  // ------------------------------------------------------------------ names

  function UpToNul(s: string): string {
    s[..IndexOf(s, '\0')]
  }

  predicate Clean(s: string) {
    forall i | 0 <= i < |s| :: s[i] >= ' ' && s[i] != '\\'
  }

  predicate ProperPart(p: string) {
    p != "" && p != "." && p != ".." && |p| <= 255
  }

  predicate SafeName(name: string) {
    && name != ""
    && (forall p | p in Split(name, '/') :: ProperPart(p))
    && name[0] != '/'
    && Clean(name)
  }

  // ------------------------------------------------------------------ a header

  // A header that has been checked by itself; the root directory has no parts.
  datatype Record = Record(name: string, parts: Path, directory: bool, size: nat)

  const USTAR: string := "ustar\0"
  const OLD_GNU: string := "ustar "

  predicate IsKind(c: char) {
    c == '0' || c == '\0' || c == '5'
  }

  function ChecksumOf(h: string): nat
    requires |h| == BLOCK
  {
    ByteSum(h[..148]) + 8 * 32 + ByteSum(h[156..])
  }

  function RawName(h: string): string
    requires |h| == BLOCK
  {
    var name, prefix := UpToNul(h[..100]), UpToNul(h[345..500]);
    if h[257..263] == USTAR && prefix != "" then prefix + "/" + name else name
  }

  function WithoutSlash(name: string, directory: bool): string {
    if directory && name != "" && name[|name| - 1] == '/' then name[..|name| - 1] else name
  }

  function ParsePath(name: string, directory: bool): Result<Path, Refusal> {
    if directory && (name == "" || name == ".") then Ok([])
    else if !SafeName(name) then Err(UnsafeArchivePath)
    else if |Split(name, '/')| > MAX_DEPTH then Err(DepthLimit)
    else Ok(Split(name, '/'))
  }

  function ParseName(h: string, size: nat, utf8: string -> bool): Result<Record, Refusal>
    requires |h| == BLOCK
  {
    var directory := h[156] == '5';
    var raw := RawName(h);
    if !utf8(raw) then Err(NotUnicode)
    else
      var name := WithoutSlash(raw, directory);
      var parts := ParsePath(name, directory);
      if parts.Err? then Err(parts.error) else Ok(Record(name, parts.value, directory, size))
  }

  function ParseHeader(h: string, utf8: string -> bool): Result<Record, Refusal>
    requires |h| == BLOCK
  {
    var sum := TarNumber(h[148..156]);
    if sum.None? then Err(InvalidArchiveHeader)
    else if sum.value != ChecksumOf(h) then Err(InvalidArchiveChecksum)
    else if h[257..263] != USTAR && h[257..263] != OLD_GNU then Err(UnsupportedArchiveHeader)
    else if !IsKind(h[156]) then Err(UnsafeArchiveEntry)
    else
      var size := TarNumber(h[124..136]);
      if size.None? then Err(InvalidArchiveHeader)
      else if size.value > MAX_FILE || (h[156] == '5' && size.value != 0) then Err(FileSizeLimit)
      else ParseName(h, size.value, utf8)
  }

  // What an accepted header guarantees by itself.
  predicate Sound(rec: Record) {
    && |rec.parts| <= MAX_DEPTH
    && rec.size <= MAX_FILE
    && (rec.directory ==> rec.size == 0)
    && (!rec.directory ==> rec.parts != [])
    && (forall p | p in rec.parts :: ProperPart(p))
  }

  lemma ParsedIsSound(h: string, utf8: string -> bool)
    requires |h| == BLOCK && ParseHeader(h, utf8).Ok?
    ensures Sound(ParseHeader(h, utf8).value)
  {
  }
}
