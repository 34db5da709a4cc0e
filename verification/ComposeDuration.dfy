/**
 Compose durations such as `1h30m` or `1.5s` (parse_compose_duration in
 engine/nasty-apps/src/lib.rs): an optional sign, then segments of whole digits, optional
 fraction digits, and a unit.  The result is a number of nanoseconds in the i64 range; the
 arithmetic on the way is i128 with every operation checked.

 `Duration` is what a text denotes: the sum of its segments.  The parser is proved to
 return it, and the text of any list of segments is proved to denote their sum.
 */
module ComposeDuration {
  import opened Base
  import opened Text
  import opened Arith

  const I64_MAX: int := 0x7FFF_FFFF_FFFF_FFFF
  const I64_MIN: int := -I64_MAX - 1
  const I128_MAX: int := 0x7FFF_FFFF_FFFF_FFFF_FFFF_FFFF_FFFF_FFFF

  const SECOND: nat := 1_000_000_000
  const WEEK: nat := 604_800 * SECOND

  // The digits before the dot, those after it, and the unit.
  datatype Segment = Segment(whole: string, fraction: string, unit: string)

  // The number a run of digits writes; nothing but digits reaches this function.
  function Value(digits: string): nat {
    if digits == "" then 0
    else
      var c := digits[|digits| - 1];
      10 * Value(digits[..|digits| - 1]) + if IsDigit(c) then DigitValue(c) else 0
  }

  // The units s, m, h, d, w and ns, us, ms, where the u may also be the micro sign or mu.
  function UnitNanos(unit: string): (r: Option<nat>)
    ensures r.Some? ==> 1 <= r.value <= WEEK
  {
    if |unit| == 1 then
      match unit[0]
      case 's' => Some(SECOND)
      case 'm' => Some(60 * SECOND)
      case 'h' => Some(3_600 * SECOND)
      case 'd' => Some(86_400 * SECOND)
      case 'w' => Some(WEEK)
      case _ => None
    else if |unit| == 2 && unit[1] == 's' then
      match unit[0]
      case 'n' => Some(1)
      case 'u' => Some(1_000)
      case '\U{B5}' => Some(1_000)
      case '\U{3BC}' => Some(1_000)
      case 'm' => Some(1_000_000)
      case _ => None
    else None
  }

  function Pow10(n: nat): (p: nat)
    ensures p >= 1
  {
    if n == 0 then 1 else 10 * Pow10(n - 1)
  }

  // The digits of a fraction that are used: at most 18.
  function Kept(fraction: string): (k: string)
    ensures |k| <= 18
  {
    if |fraction| <= 18 then fraction else fraction[..18]
  }

  // w whole units and f / scale of a unit, rounded down.
  function Nanos(w: nat, f: nat, scale: nat, unit: nat): nat
    requires scale > 0
  {
    MulMono(0, w, unit);
    MulMono(0, f, unit);
    w * unit + (f * unit) / scale
  }

  function SegmentNanos(g: Segment): Option<nat> {
    var unit := UnitNanos(g.unit);
    if unit.None? then None
    else Some(Nanos(Value(g.whole), Value(Kept(g.fraction)), Pow10(|Kept(g.fraction)|), unit.value))
  }

  function Plus(x: Option<nat>, y: Option<nat>): Option<nat> {
    if x.None? || y.None? then None else Some(x.value + y.value)
  }

  function SumBy(f: Segment -> Option<nat>, gs: seq<Segment>): Option<nat> {
    if gs == [] then Some(0) else Plus(f(gs[0]), SumBy(f, gs[1..]))
  }

  function Sum(gs: seq<Segment>): Option<nat> {
    SumBy(SegmentNanos, gs)
  }

  // ------------------------------------------------------------------ reading segments

  predicate StartsSegment(c: char) {
    c == '.' || IsDigit(c)
  }

  // Where the digits that start at i end.
  function DigitsEnd(s: string, i: nat): (e: nat)
    requires i <= |s|
    ensures i <= e <= |s|
    decreases |s| - i
  {
    if i < |s| && IsDigit(s[i]) then DigitsEnd(s, i + 1) else i
  }

  // Where the unit that starts at i ends.
  function UnitEnd(s: string, i: nat): (e: nat)
    requires i <= |s|
    ensures i <= e <= |s|
    decreases |s| - i
  {
    if i < |s| && !StartsSegment(s[i]) then UnitEnd(s, i + 1) else i
  }

  predicate DotAt(s: string, i: nat) {
    i < |s| && s[i] == '.'
  }

  // Where the whole digits end, the fraction digits start and end, and the unit ends.
  datatype Marks = Marks(whole: nat, dot: nat, fraction: nat, end: nat) {
    function Moved(d: nat): Marks {
      Marks(d + whole, d + dot, d + fraction, d + end)
    }
  }

  function MarksAt(s: string, i: nat): (m: Marks)
    requires i <= |s|
    ensures i <= m.whole <= m.dot <= m.fraction <= m.end <= |s|
  {
    var w := DigitsEnd(s, i);
    var dot := if DotAt(s, w) then w + 1 else w;
    var f := if DotAt(s, w) then DigitsEnd(s, dot) else dot;
    Marks(w, dot, f, UnitEnd(s, f))
  }

  function Cut(s: string, i: nat, m: Marks): Segment
    requires i <= m.whole <= m.dot <= m.fraction <= m.end <= |s|
  {
    Segment(s[i..m.whole], s[m.dot..m.fraction], s[m.fraction..m.end])
  }

  function SegmentEnd(s: string, i: nat): (e: nat)
    requires i <= |s|
    ensures i <= e <= |s|
  {
    MarksAt(s, i).end
  }

  function SegmentAt(s: string, i: nat): Segment
    requires i <= |s|
  {
    Cut(s, i, MarksAt(s, i))
  }

  // Some digit, and a unit.
  predicate Complete(i: nat, m: Marks) {
    (i < m.whole || m.dot < m.fraction) && m.fraction < m.end
  }

  // The segments of s from position i on.
  function Split(s: string, i: nat): Option<seq<Segment>>
    requires i <= |s|
    decreases |s| - i
  {
    if i == |s| then Some([])
    else if !Complete(i, MarksAt(s, i)) then None
    else
      var rest := Split(s, SegmentEnd(s, i));
      if rest.None? then None else Some([SegmentAt(s, i)] + rest.value)
  }

  function Total(s: string, i: nat): Option<nat>
    requires i <= |s|
  {
    if Split(s, i).None? then None else Sum(Split(s, i).value)
  }

  function Limit(negative: bool): nat {
    if negative then I64_MAX + 1 else I64_MAX
  }

  function Signed(negative: bool, n: nat): int {
    if negative then -(n as int) else n
  }

  predicate Negative(value: string) {
    value != "" && value[0] == '-'
  }

  function SignLength(value: string): (n: nat)
    ensures n <= |value|
  {
    if value != "" && (value[0] == '-' || value[0] == '+') then 1 else 0
  }

  // The duration a text denotes.
  function Duration(value: string): (r: Option<int>)
    ensures r.Some? ==> I64_MIN <= r.value <= I64_MAX
  {
    var start := SignLength(value);
    if start == |value| then None
    else if value[start..] == "0" then Some(0)
    else
      var total := Total(value, start);
      if total.None? || total.value > Limit(Negative(value)) then None
      else Some(Signed(Negative(value), total.value))
  }

  // ------------------------------------------------------------------ the parser

  method SkipDigits(s: string, start: nat) returns (i: nat)
    requires start <= |s|
    ensures i == DigitsEnd(s, start)
  {
    i := start;
    while i < |s| && IsDigit(s[i])
      invariant start <= i <= |s|
      invariant DigitsEnd(s, start) == DigitsEnd(s, i)
    {
      i := i + 1;
    }
  }

  method SkipUnit(s: string, start: nat) returns (i: nat)
    requires start <= |s|
    ensures i == UnitEnd(s, start)
  {
    i := start;
    while i < |s| && !StartsSegment(s[i])
      invariant start <= i <= |s|
      invariant UnitEnd(s, start) == UnitEnd(s, i)
    {
      i := i + 1;
    }
  }

  method Scan(s: string, start: nat) returns (m: Marks)
    requires start < |s|
    ensures m == MarksAt(s, start)
  {
    var wholeEnd := SkipDigits(s, start);
    var fractionStart, fractionEnd := wholeEnd, wholeEnd;
    if wholeEnd < |s| && s[wholeEnd] == '.' {
      fractionStart := wholeEnd + 1;
      fractionEnd := SkipDigits(s, fractionStart);
    }
    var end := SkipUnit(s, fractionEnd);
    m := Marks(wholeEnd, fractionStart, fractionEnd, end);
  }

  // A checked i128 operation on non-negative operands.
  function Checked(n: nat): Option<nat> {
    if n <= I128_MAX then Some(n) else None
  }

  // The checked arithmetic of one segment: None only on overflow.
  method Multiply(w: nat, f: nat, digits: nat, unit: nat) returns (r: Option<nat>)
    requires f < Pow10(digits) && digits <= 18 && 1 <= unit <= WEEK
    ensures r == if Nanos(w, f, Pow10(digits), unit) <= I128_MAX then Some(Nanos(w, f, Pow10(digits), unit)) else None
  {
    MulMono(0, w, unit);
    MulMono(0, f, unit);
    Quotient(f * unit, Pow10(digits));
    var whole := Checked(w);
    if whole.None? {
      MulMono(1, unit, w);
      return None;
    }
    var segment := Checked(w * unit);
    if segment.None? {
      return None;
    }
    // This product cannot overflow: at most 18 digits times at most a week.
    FractionFits(f, digits, unit);
    var product := f * unit;
    var sum := Checked(segment.value + product / Pow10(digits));
    if sum.None? {
      return None;
    }
    r := Some(sum.value);
  }

  method EvaluateSegment(g: Segment) returns (r: Option<nat>)
    ensures r.Some? ==> SegmentNanos(g) == r
    ensures r.None? ==> SegmentNanos(g).None? || SegmentNanos(g).value > I128_MAX
  {
    var unit := UnitNanos(g.unit);
    if unit.None? {
      return None;
    }
    var kept := Kept(g.fraction);
    ValueBound(kept);
    r := Multiply(Value(g.whole), Value(kept), |kept|, unit.value);
  }

  /** The parser: it terminates, overflows nothing, and returns exactly the denoted duration,
      which is always a value of the i64 range, i64::MIN included. */
  method ParseComposeDuration(value: string) returns (r: Option<int>)
    ensures r == Duration(value)
  {
    var negative, index := Negative(value), SignLength(value);
    if index == |value| {
      return None;
    }
    if value[index..] == "0" {
      return Some(0);
    }
    var total := ParseSegments(value, index, Limit(negative));
    r := if total.None? then None else Some(Signed(negative, total.value));
  }

  // The loop over the segments, abandoned as soon as the sum exceeds the limit.
  method ParseSegments(s: string, start: nat, limit: nat) returns (r: Option<nat>)
    requires start <= |s| && limit <= I64_MAX + 1
    ensures r == if Total(s, start).Some? && Total(s, start).value <= limit then Total(s, start) else None
  {
    var index, total := start, 0;
    ghost var whole, left := Total(s, start), Total(s, start);
    while index < |s|
      invariant start <= index <= |s| && 0 <= total <= limit
      invariant Carried(whole, total, left) && left == Total(s, index)
    {
      var segment, end := ReadNext(s, index);
      if segment.None? {
        return None;
      }
      var sum := total + segment.value;
      if Checked(sum).None? || sum > limit {
        return None;
      }
      ghost var rest := Total(s, end);
      Carry(whole, total, segment.value, left, rest);
      total, index, left := sum, end, rest;
    }
    r := Some(total);
  }

  // What is left to add completes the running total.
  ghost predicate Carried(whole: Option<nat>, total: nat, left: Option<nat>) {
    (whole.Some? <==> left.Some?) && (whole.Some? ==> whole.value == total + left.value)
  }

  lemma Carry(whole: Option<nat>, total: nat, segment: nat, left: Option<nat>, rest: Option<nat>)
    requires Carried(whole, total, left) && left == Plus(Some(segment), rest)
    ensures Carried(whole, total + segment, rest)
  {
  }

  // One turn of the loop: the value of the next segment and where it ends.
  method ReadNext(s: string, index: nat) returns (segment: Option<nat>, end: nat)
    requires index < |s|
    ensures segment.Some? ==> index < end <= |s| && Total(s, index) == Plus(segment, Total(s, end))
    ensures segment.None? ==> Total(s, index).None? || Total(s, index).value > I128_MAX
  {
    var m := Scan(s, index);
    end := m.end;
    TotalStep(s, index);
    if (index == m.whole && m.dot == m.fraction) || m.fraction == m.end {
      return None, end;
    }
    segment := EvaluateSegment(Cut(s, index, m));
  }

  lemma SplitStep(s: string, i: nat, g: Segment, e: nat, rest: seq<Segment>)
    requires i < |s| && SegmentAt(s, i) == g && SegmentEnd(s, i) == e
    requires Complete(i, MarksAt(s, i)) && Split(s, e) == Some(rest)
    ensures Split(s, i) == Some([g] + rest)
  {
  }

  lemma SplitHead(s: string, i: nat, gs: seq<Segment>)
    requires i < |s| && Split(s, i) == Some(gs)
    ensures gs != [] && gs[0] == SegmentAt(s, i) && Complete(i, MarksAt(s, i)) && SegmentEnd(s, i) > i
    ensures Split(s, SegmentEnd(s, i)) == Some(gs[1..]) && gs == [gs[0]] + gs[1..]
  {
  }

  lemma TotalStep(s: string, i: nat)
    requires i < |s|
    ensures !Complete(i, MarksAt(s, i)) ==> Total(s, i).None?
    ensures Complete(i, MarksAt(s, i)) ==>
              && SegmentEnd(s, i) > i
              && Total(s, i) == Plus(SegmentNanos(SegmentAt(s, i)), Total(s, SegmentEnd(s, i)))
  {
    if Complete(i, MarksAt(s, i)) && Split(s, i).Some? {
      var gs := Split(s, i).value;
      assert gs[0] == SegmentAt(s, i) && gs[1..] == Split(s, SegmentEnd(s, i)).value;
    }
  }

  // ------------------------------------------------------------------ arithmetic

  lemma Quotient(d: nat, p: nat)
    requires p > 0
    ensures d / p >= 0
  {
  }

  lemma {:induction false} ValueBound(s: string)
    ensures Value(s) < Pow10(|s|)
  {
    if s != "" {
      ValueBound(s[..|s| - 1]);
    }
  }

  lemma {:induction false} Pow10Mono(a: nat, b: nat)
    requires a <= b
    ensures Pow10(a) <= Pow10(b)
    decreases b
  {
    if a < b {
      Pow10Mono(a, b - 1);
    }
  }

  lemma Pow10At18()
    ensures Pow10(18) == 1_000_000_000_000_000_000
  {
    assert Pow10(6) == 1_000_000 by {
      assert Pow10(3) == 1_000;
    }
    assert Pow10(12) == 1_000_000_000_000 by {
      assert Pow10(9) == 1_000_000_000;
    }
    assert Pow10(15) == 1_000_000_000_000_000;
  }

  lemma FractionFits(f: nat, n: nat, unit: nat)
    requires n <= 18 && f < Pow10(n) && unit <= WEEK
    ensures f * unit <= I128_MAX
  {
    Pow10Mono(n, 18);
    Pow10At18();
    MulMono(f, 1_000_000_000_000_000_000, unit);
  }

  // ------------------------------------------------------------------ texts inside texts

  lemma {:induction false} DigitsEndIs(s: string, i: nat, e: nat)
    requires i <= e <= |s| && AllDigits(s[i..e]) && (e < |s| ==> !IsDigit(s[e]))
    ensures DigitsEnd(s, i) == e
    decreases e - i
  {
    if i < e {
      assert s[i] == s[i..e][0];
      assert s[i + 1..e] == s[i..e][1..];
      DigitsEndIs(s, i + 1, e);
    }
  }

  predicate UnitText(t: string) {
    t != "" && forall k | 0 <= k < |t| :: !StartsSegment(t[k])
  }

  lemma {:induction false} UnitEndIs(s: string, i: nat, e: nat)
    requires i <= e <= |s| && (i < e ==> UnitText(s[i..e])) && (e < |s| ==> StartsSegment(s[e]))
    ensures UnitEnd(s, i) == e
    decreases e - i
  {
    if i < e {
      assert s[i] == s[i..e][0];
      if i + 1 < e {
        assert s[i + 1..e] == s[i..e][1..];
      }
      UnitEndIs(s, i + 1, e);
    }
  }

  lemma {:induction false} UnitEndShape(s: string, i: nat)
    requires i <= |s|
    ensures i < UnitEnd(s, i) ==> UnitText(s[i..UnitEnd(s, i)])
    ensures UnitEnd(s, i) < |s| ==> StartsSegment(s[UnitEnd(s, i)])
    decreases |s| - i
  {
    var e := UnitEnd(s, i);
    if i < |s| && !StartsSegment(s[i]) {
      UnitEndShape(s, i + 1);
      assert s[i..e] == [s[i]] + s[i + 1..e];
    }
  }

  lemma {:induction false} DigitsEndShape(s: string, i: nat)
    requires i <= |s|
    ensures AllDigits(s[i..DigitsEnd(s, i)])
    ensures DigitsEnd(s, i) < |s| ==> !IsDigit(s[DigitsEnd(s, i)])
    decreases |s| - i
  {
    if i < |s| && IsDigit(s[i]) {
      DigitsEndShape(s, i + 1);
      var e := DigitsEnd(s, i);
      assert s[i..e] == [s[i]] + s[i + 1..e];
    }
  }

  // Text s stands in t at offset d, and where s ends t goes on with a new segment or ends.
  ghost predicate Inside(s: string, t: string, d: nat) {
    && d + |s| <= |t|
    && t[d..d + |s|] == s
    && (d + |s| < |t| ==> StartsSegment(t[d + |s|]))
  }

  lemma InsideSlice(s: string, t: string, d: nat, i: nat, e: nat)
    requires Inside(s, t, d) && i <= e <= |s|
    ensures t[d + i..d + e] == s[i..e]
  {
    forall k | 0 <= k < e - i
      ensures t[d + i..d + e][k] == s[i..e][k]
    {
      assert s[i + k] == t[d..d + |s|][i + k];
    }
  }

  lemma InsideDigits(s: string, t: string, d: nat, i: nat)
    requires Inside(s, t, d) && i <= |s| && DigitsEnd(s, i) < |s|
    ensures DigitsEnd(t, d + i) == d + DigitsEnd(s, i)
  {
    var e := DigitsEnd(s, i);
    DigitsEndShape(s, i);
    assert t[d + e] == t[d..d + |s|][e];
    InsideSlice(s, t, d, i, e);
    DigitsEndIs(t, d + i, d + e);
  }

  lemma InsideUnit(s: string, t: string, d: nat, i: nat)
    requires Inside(s, t, d) && i <= |s|
    ensures UnitEnd(t, d + i) == d + UnitEnd(s, i)
  {
    var e := UnitEnd(s, i);
    UnitEndShape(s, i);
    assert e < |s| ==> t[d + e] == t[d..d + |s|][e];
    InsideSlice(s, t, d, i, e);
    UnitEndIs(t, d + i, d + e);
  }

  lemma InsideMarks(s: string, t: string, d: nat, i: nat)
    requires Inside(s, t, d) && i < |s| && MarksAt(s, i).fraction < |s|
    ensures MarksAt(t, d + i) == MarksAt(s, i).Moved(d)
  {
    var m := MarksAt(s, i);
    InsideDigits(s, t, d, i);
    assert t[d + m.whole] == t[d..d + |s|][m.whole];
    if DotAt(s, m.whole) {
      InsideDigits(s, t, d, m.dot);
    }
    InsideUnit(s, t, d, m.fraction);
  }

  lemma InsideCut(s: string, t: string, d: nat, i: nat, m: Marks)
    requires Inside(s, t, d) && i <= m.whole <= m.dot <= m.fraction <= m.end <= |s|
    ensures Cut(t, d + i, m.Moved(d)) == Cut(s, i, m)
  {
    InsideSlice(s, t, d, i, m.whole);
    InsideSlice(s, t, d, m.dot, m.fraction);
    InsideSlice(s, t, d, m.fraction, m.end);
  }

  lemma Associate<T>(a: seq<T>, b: seq<T>, c: seq<T>)
    ensures a + (b + c) == a + b + c
  {
  }

  lemma InsideStep(s: string, t: string, d: nat, i: nat, m: Marks, rest: seq<Segment>)
    requires Inside(s, t, d) && i < |s| && MarksAt(s, i) == m && Complete(i, m)
    requires Split(t, d + m.end) == Some(rest)
    ensures Split(t, d + i) == Some([Cut(s, i, m)] + rest)
  {
    InsideMarks(s, t, d, i);
    InsideCut(s, t, d, i, m);
    SplitBy(t, d + i, m.Moved(d), Cut(s, i, m), rest);
  }

  lemma SplitBy(t: string, j: nat, m: Marks, g: Segment, rest: seq<Segment>)
    requires j < |t| && MarksAt(t, j) == m && Complete(j, m) && Cut(t, j, m) == g && Split(t, m.end) == Some(rest)
    ensures Split(t, j) == Some([g] + rest)
  {
  }

  lemma {:induction false} InsideSplit(s: string, t: string, d: nat, i: nat, gs: seq<Segment>, last: seq<Segment>)
    requires Inside(s, t, d) && i <= |s| && Split(s, i) == Some(gs) && Split(t, d + |s|) == Some(last)
    ensures Split(t, d + i) == Some(gs + last)
    decreases |s| - i
  {
    if i < |s| {
      SplitHead(s, i, gs);
      InsideSplit(s, t, d, SegmentEnd(s, i), gs[1..], last);
      InsideStep(s, t, d, i, MarksAt(s, i), gs[1..] + last);
      Associate([gs[0]], gs[1..], last);
    } else {
      assert gs + last == last;
    }
  }

  lemma SplitStarts(s: string)
    requires s != "" && Split(s, 0).Some?
    ensures StartsSegment(s[0])
  {
  }

  lemma InsideBoth(a: string, b: string)
    requires b != "" ==> StartsSegment(b[0])
    ensures Inside(a, a + b, 0) && Inside(b, a + b, |a|)
  {
  }

  lemma SplitAppend(a: string, b: string, ga: seq<Segment>, gb: seq<Segment>)
    requires Split(a, 0) == Some(ga) && Split(b, 0) == Some(gb)
    ensures Split(a + b, 0) == Some(ga + gb)
  {
    if b != "" {
      SplitStarts(b);
    }
    InsideBoth(a, b);
    InsideSplit(b, a + b, |a|, 0, gb, []);
    assert gb + [] == gb;
    InsideSplit(a, a + b, 0, 0, ga, gb);
  }

  lemma {:induction false} SumByAppend(f: Segment -> Option<nat>, a: seq<Segment>, b: seq<Segment>)
    ensures SumBy(f, a + b) == Plus(SumBy(f, a), SumBy(f, b))
  {
    if a == [] {
      assert a + b == b;
    } else {
      SumByAppend(f, a[1..], b);
      assert (a + b)[1..] == a[1..] + b;
    }
  }

  // A text that is read as segments: no sign, and not the bare zero.
  predicate Unsigned(s: string) {
    s != "" && SignLength(s) == 0 && s != "0"
  }

  /** Concatenating two unsigned duration texts adds their durations, and is refused exactly
      when the sum leaves the i64 range. */
  lemma DurationAdds(a: string, b: string)
    requires Unsigned(a) && Unsigned(b) && Duration(a).Some? && Duration(b).Some?
    ensures Duration(a + b) ==
            if Duration(a).value + Duration(b).value <= I64_MAX then Some(Duration(a).value + Duration(b).value) else None
  {
    UnsignedAppend(a, b);
    TotalAppend(a, b);
  }

  lemma UnsignedAppend(a: string, b: string)
    requires Unsigned(a) && Unsigned(b)
    ensures Unsigned(a + b)
    ensures a[0..] == a && b[0..] == b && (a + b)[0..] == a + b
    ensures !Negative(a) && !Negative(b) && !Negative(a + b)
  {
    assert (a + b)[0] == a[0];
    assert |a + b| >= 2;
  }

  lemma TotalAppend(a: string, b: string)
    requires Total(a, 0).Some? && Total(b, 0).Some?
    ensures Total(a + b, 0) == Plus(Total(a, 0), Total(b, 0))
  {
    var ga, gb := Split(a, 0).value, Split(b, 0).value;
    SplitAppend(a, b, ga, gb);
    SumByAppend(SegmentNanos, ga, gb);
  }

  // ------------------------------------------------------------------ texts of segments

  predicate Printable(g: Segment) {
    AllDigits(g.whole) && AllDigits(g.fraction) && (g.whole != "" || g.fraction != "") && UnitText(g.unit)
  }

  function DotText(g: Segment): string {
    if g.fraction == "" then "" else "." + g.fraction
  }

  function SegmentText(g: Segment): string {
    g.whole + DotText(g) + g.unit
  }

  function TextOf(gs: seq<Segment>): string {
    if gs == [] then "" else SegmentText(gs[0]) + TextOf(gs[1..])
  }

  predicate AllPrintable(gs: seq<Segment>) {
    forall g | g in gs :: Printable(g)
  }

  function TextMarks(g: Segment): Marks {
    var w := |g.whole|;
    var dot := if g.fraction == "" then w else w + 1;
    Marks(w, dot, dot + |g.fraction|, dot + |g.fraction| + |g.unit|)
  }

  lemma TextSlices(g: Segment)
    ensures var s, m := SegmentText(g), TextMarks(g);
            && m.end == |s| && s[..m.whole] == g.whole && s[m.dot..m.fraction] == g.fraction && s[m.fraction..] == g.unit
            && (g.fraction != "" ==> s[m.whole] == '.')
  {
  }

  // A segment's own text is read back as that segment, and as nothing more.
  lemma ReadMarks(g: Segment)
    requires Printable(g)
    ensures MarksAt(SegmentText(g), 0) == TextMarks(g)
  {
    var s, m := SegmentText(g), TextMarks(g);
    TextSlices(g);
    assert s[m.fraction] == s[m.fraction..][0] == g.unit[0];
    assert s[0..m.whole] == g.whole;
    DigitsEndIs(s, 0, m.whole);
    if g.fraction != "" {
      DigitsEndIs(s, m.dot, m.fraction);
    }
    assert s[m.fraction..m.end] == g.unit;
    UnitEndIs(s, m.fraction, m.end);
  }

  lemma ReadSegment(g: Segment)
    requires Printable(g)
    ensures Split(SegmentText(g), 0) == Some([g])
  {
    var s, m := SegmentText(g), TextMarks(g);
    ReadMarks(g);
    TextSlices(g);
    assert s[0..m.whole] == g.whole && s[m.fraction..m.end] == g.unit;
    assert SegmentAt(s, 0) == g;
    SplitStep(s, 0, g, |s|, []);
    assert [g] + [] == [g];
  }

  lemma {:induction false} ReadSegments(gs: seq<Segment>)
    requires AllPrintable(gs)
    ensures Split(TextOf(gs), 0) == Some(gs)
  {
    if gs != [] {
      assert Printable(gs[0]);
      ReadSegment(gs[0]);
      ReadSegments(gs[1..]);
      SplitAppend(SegmentText(gs[0]), TextOf(gs[1..]), [gs[0]], gs[1..]);
      assert gs == [gs[0]] + gs[1..];
    }
  }

  function SignText(negative: bool): string {
    if negative then "-" else ""
  }

  lemma ReadSigned(sign: string, text: string, gs: seq<Segment>)
    requires Split(text, 0) == Some(gs)
    ensures Split(sign + text, |sign|) == Some(gs)
  {
    assert (sign + text)[|sign|..|sign| + |text|] == text;
    InsideSplit(text, sign + text, |sign|, 0, gs, []);
    assert gs + [] == gs;
  }

  lemma TextShape(gs: seq<Segment>)
    requires gs != [] && AllPrintable(gs)
    ensures |TextOf(gs)| >= 2 && StartsSegment(TextOf(gs)[0])
  {
    var g := gs[0];
    assert Printable(g);
    assert |SegmentText(g)| == |g.whole| + |DotText(g)| + |g.unit|;
    assert TextOf(gs) == SegmentText(g) + TextOf(gs[1..]);
    assert TextOf(gs)[0] == if g.whole != "" then g.whole[0] else '.';
  }

  /** The text of any list of segments, with or without a minus sign, denotes the sum of the
      segments whenever that is an i64, and is refused exactly otherwise. */
  lemma TextDenotesSum(negative: bool, gs: seq<Segment>)
    requires gs != [] && AllPrintable(gs)
    ensures Duration(SignText(negative) + TextOf(gs)) ==
            if Sum(gs).Some? && Sum(gs).value <= Limit(negative) then Some(Signed(negative, Sum(gs).value)) else None
  {
    var sign, text := SignText(negative), TextOf(gs);
    TextShape(gs);
    SignOf(negative, text);
    ReadSegments(gs);
    ReadSigned(sign, text, gs);
  }

  lemma SignOf(negative: bool, text: string)
    requires |text| >= 2 && StartsSegment(text[0])
    ensures var value := SignText(negative) + text;
            && SignLength(value) == |SignText(negative)| && Negative(value) == negative
            && |value[SignLength(value)..]| >= 2
  {
    assert (SignText(negative) + text)[0] == if negative then '-' else text[0];
  }

  // ------------------------------------------------------------------ precision

  lemma {:induction false} ValueSplit(a: string, b: string)
    ensures Value(a + b) == Value(a) * Pow10(|b|) + Value(b)
  {
    if b == "" {
      assert a + b == a;
    } else {
      var init := b[..|b| - 1];
      assert (a + b)[..|a + b| - 1] == a + init;
      assert (a + b)[|a + b| - 1] == b[|b| - 1];
      ValueSplit(a, init);
      var c := b[|b| - 1];
      ShiftLeft(Value(a), Pow10(|init|), Value(init), if IsDigit(c) then DigitValue(c) else 0);
    }
  }

  lemma ShiftLeft(a: nat, p: nat, i: nat, d: nat)
    ensures 10 * (a * p + i) + d == a * (10 * p) + (10 * i + d)
  {
  }

  // The exact value of a segment, multiplied by the power of ten of its fraction.
  function ExactScaled(g: Segment, unit: nat): int {
    (Value(g.whole) * Pow10(|g.fraction|) + Value(g.fraction)) * unit
  }

  lemma FloorBounds(d: nat, p: nat)
    requires p > 0
    ensures (d / p) * p <= d < (d / p) * p + p
  {
    DivMod(d, p);
  }

  lemma Distribute(x: int, y: int, p: int)
    ensures (x + y) * p == x * p + y * p
  {
  }

  lemma Swap(w: int, p: int, u: int)
    ensures (w * p) * u == (w * u) * p
  {
  }

  // A segment with a short fraction, and one whose fraction kept * tail + dropped is cut.
  lemma ShortBounds(w: nat, f: nat, p: nat, u: nat)
    requires p > 0
    ensures var v := Nanos(w, f, p, u); v * p <= (w * p + f) * u < (v + 1) * p
  {
    MulMono(0, f, u);
    FloorBounds(f * u, p);
    Distribute(w * p, f, u);
    Swap(w, p, u);
    Distribute(w * u, (f * u) / p, p);
    Distribute(w * u + (f * u) / p, 1, p);
  }

  lemma LongBounds(w: nat, kept: nat, dropped: nat, tail: nat, p: nat, u: nat)
    requires p > 0 && dropped < tail && u < p
    ensures var v := Nanos(w, kept, p, u);
            v * (p * tail) <= (w * (p * tail) + (kept * tail + dropped)) * u < (v + 2) * (p * tail)
  {
    var v := Nanos(w, kept, p, u);
    ShortBounds(w, kept, p, u);
    var exact := (w * p + kept) * u;
    MulMono(v * p, exact, tail);
    MulMono(exact + 1, (v + 1) * p, tail);
    Scale(w, p, kept, tail, u);
    Distribute(w * (p * tail) + kept * tail, dropped, u);
    MulMono(dropped, tail, u);
    MulMono(u, p, tail);
    Regroup3(v, p, tail);
    Regroup3(v + 1, p, tail);
    Distribute(exact, 1, tail);
    Distribute(v + 1, 1, p * tail);
    Swap(1, tail, u);
  }

  lemma Scale(w: nat, p: nat, kept: nat, tail: nat, u: nat)
    ensures ((w * p + kept) * u) * tail == (w * (p * tail) + kept * tail) * u
  {
    Swap(w * p + kept, u, tail);
    Distribute(w * p, kept, tail);
    Regroup3(w, p, tail);
  }

  lemma Regroup3(v: nat, p: nat, tail: nat)
    ensures (v * p) * tail == v * (p * tail)
  {
  }

  lemma {:induction false} Pow10Adds(a: nat, b: nat)
    ensures Pow10(a + b) == Pow10(a) * Pow10(b)
  {
    if a > 0 {
      Pow10Adds(a - 1, b);
      Regroup3(10, Pow10(a - 1), Pow10(b));
    }
  }

  /** With at most 18 fraction digits a segment is its exact value rounded down; with any
      number of digits it is never above the exact value and less than 2 ns below it. */
  lemma SegmentIsClose(g: Segment)
    requires SegmentNanos(g).Some?
    ensures var p := Pow10(|g.fraction|);
            var v := SegmentNanos(g).value;
            var exact := ExactScaled(g, UnitNanos(g.unit).value);
            v * p <= exact < (v + if |g.fraction| <= 18 then 1 else 2) * p
  {
    var u := UnitNanos(g.unit).value;
    if |g.fraction| <= 18 {
      ShortBounds(Value(g.whole), Value(g.fraction), Pow10(|g.fraction|), u);
    } else {
      var kept, dropped := g.fraction[..18], g.fraction[18..];
      assert g.fraction == kept + dropped;
      ValueSplit(kept, dropped);
      ValueBound(dropped);
      Pow10Adds(18, |dropped|);
      Pow10At18();
      LongBounds(Value(g.whole), Value(kept), Value(dropped), Pow10(|dropped|), Pow10(18), u);
    }
  }

  // Only a minus sign reaches below zero, and only it reaches i64::MIN.
  lemma NegativeNeedsSign(value: string)
    requires Duration(value).Some? && Duration(value).value < 0
    ensures Negative(value)
  {
  }

  lemma {:induction false} ValueIsDigits(s: string)
    requires AllDigits(s)
    ensures Value(s) == Digits(s)
  {
    if s != "" {
      ValueIsDigits(s[..|s| - 1]);
    }
  }

  lemma SumOne(g: Segment)
    ensures Sum([g]) == SegmentNanos(g)
  {
    assert [g][1..] == [];
    assert SumBy(SegmentNanos, [g]) == Plus(SegmentNanos(g), SumBy(SegmentNanos, []));
  }

  // n nanoseconds in decimal notation.
  function NanosText(n: nat): Segment {
    Segment(Decimal(n), "", "ns")
  }

  /** Every 64-bit number of nanoseconds is reached by its own decimal text with unit ns: up to
      i64::MAX with or without a sign, and i64::MIN exactly with a minus sign. */
  lemma EveryDurationIsReached(n: nat, negative: bool)
    ensures Duration(SignText(negative) + TextOf([NanosText(n)])) ==
            if n <= Limit(negative) then Some(Signed(negative, n)) else None
  {
    var g := NanosText(n);
    DecimalDigits(n);
    ValueIsDigits(Decimal(n));
    assert UnitNanos("ns") == Some(1) && Value("") == 0;
    assert SegmentNanos(g) == Some(n);
    SumOne(g);
    assert Printable(g);
    TextDenotesSum(negative, [g]);
  }
}
