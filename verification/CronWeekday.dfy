/**
 Translation of a POSIX crontab weekday field (Sunday is 0 or 7) into the numbering of
 the `cron` crate (Sunday is 1): normalize_posix_weekday in
 engine/nasty-backup/src/scheduler.rs.
 */
module CronWeekday {
  import opened Base
  import opened Text
  import opened Arith

  const USIZE_MAX: nat := 0xFFFF_FFFF_FFFF_FFFF

  datatype WeekdayError = MixedNames | InvalidStep | NotADay | Descending | NoDays

  // The values of one list element: lo, lo + step, ... up to hi.
  datatype Span = Span(lo: nat, hi: nat, step: nat)

  function ParseDay(s: string): Result<nat, WeekdayError> {
    match ParseUnsigned(s, 255)
    case None => Err(NotADay)
    case Some(v) => if v > 7 then Err(NotADay) else Ok(v)
  }

  function ParseStep(part: string): nat {
    match SplitOnce(part, '/')
    case None => 1
    case Some((_, step)) => match ParseUnsigned(step, USIZE_MAX) case None => 0 case Some(n) => n
  }

  function PartBase(part: string): string {
    match SplitOnce(part, '/')
    case None => part
    case Some((base, _)) => base
  }

  function ParseEnds(base: string): (r: Result<(nat, nat), WeekdayError>)
    ensures r.Ok? ==> r.value.0 <= r.value.1 <= 7
  {
    if base == "*" then Ok((0, 6))
    else match SplitOnce(base, '-')
      case Some((first, last)) =>
        (match ParseDay(first)
         case Err(e) => Err(e)
         case Ok(lo) =>
           match ParseDay(last)
           case Err(e) => Err(e)
           case Ok(hi) => if lo > hi then Err(Descending) else Ok((lo, hi)))
      case None =>
        match ParseDay(base)
        case Err(e) => Err(e)
        case Ok(v) => Ok((v, v))
  }

  function ParsePart(part: string): (r: Result<Span, WeekdayError>)
    ensures r.Ok? ==> r.value.lo <= r.value.hi <= 7 && r.value.step > 0
  {
    var step := ParseStep(part);
    if step == 0 then Err(InvalidStep)
    else match ParseEnds(PartBase(part))
      case Err(e) => Err(e)
      case Ok((lo, hi)) => Ok(Span(lo, hi, step))
  }

  predicate InSpan(span: Span, v: nat)
    requires span.step > 0
  {
    span.lo <= v <= span.hi && (v - span.lo) % span.step == 0
  }

  predicate SpanSelects(span: Span, day: nat)
    requires span.step > 0
  {
    exists v | 0 <= v <= span.hi :: InSpan(span, v) && v % 7 == day
  }

  predicate PartSelects(part: string, day: nat) {
    var r := ParsePart(part);
    r.Ok? && SpanSelects(r.value, day)
  }

  // Day `day` (Sunday = 0) is selected by some list element.
  predicate Selects(parts: seq<string>, day: nat) {
    exists i | 0 <= i < |parts| :: PartSelects(parts[i], day)
  }

  predicate AllValid(parts: seq<string>) {
    forall i | 0 <= i < |parts| :: ParsePart(parts[i]).Ok?
  }

  predicate Numeric(field: string) {
    forall i | 0 <= i < |field| :: !('a' <= field[i] <= 'z' || 'A' <= field[i] <= 'Z')
  }

  // A named field with a numeric (or empty) endpoint is refused.
  predicate MixesNumbers(field: string) {
    var parts := Split(field, ',');
    exists i | 0 <= i < |parts| ::
      var ends := Split(PartBase(parts[i]), '-');
      exists k | 0 <= k < |ends| :: AllDigits(ends[k])
  }

  // The selected days as the crate writes them, smallest first.
  function Numerals(selected: seq<bool>): seq<string> {
    if selected == [] then []
    else Numerals(selected[..|selected| - 1]) + if selected[|selected| - 1] then [Decimal(|selected|)] else []
  }

  predicate Listed(parts: seq<string>, number: nat) {
    exists i | 0 <= i < |parts| :: ParseUnsigned(parts[i], 255) == Some(number)
  }

  // The days a crate weekday list of plain numbers names, Sunday = 1.
  predicate Names(text: string, number: nat) {
    Listed(Split(text, ','), number)
  }

  predicate WeekdayNumber(part: string) {
    var n := ParseUnsigned(part, 255);
    n.Some? && 1 <= n.value <= 7
  }

  predicate AllWeekdayNumbers(parts: seq<string>) {
    forall i | 0 <= i < |parts| :: WeekdayNumber(parts[i])
  }

  // A comma list of weekday numbers in the crate's range.
  predicate PlainList(text: string) {
    AllWeekdayNumbers(Split(text, ','))
  }

  method MarkSpan(selected: array<bool>, span: Span)
    requires selected.Length == 7 && span.lo <= span.hi <= 7 && span.step > 0
    modifies selected
    ensures forall d | 0 <= d < 7 :: selected[d] <==> (old(selected[d]) || SpanSelects(span, d))
  {
    var v := span.lo;
    while v <= span.hi
      invariant span.lo <= v && (v - span.lo) % span.step == 0
      invariant forall d | 0 <= d < 7 ::
                  selected[d] <==> (old(selected[d]) || exists u | 0 <= u < v && u <= span.hi :: InSpan(span, u) && u % 7 == d)
      decreases span.hi + 1 - v
    {
      assert InSpan(span, v);
      ghost var before := selected[..];
      selected[v % 7] := true;
      forall d | 0 <= d < 7
        ensures selected[d] <==>
                  (old(selected[d]) || exists u | 0 <= u < v + span.step && u <= span.hi :: InSpan(span, u) && u % 7 == d)
      {
        SpanGap(span, v);
        if exists u | 0 <= u < v && u <= span.hi :: InSpan(span, u) && u % 7 == d {
          var u :| 0 <= u < v && u <= span.hi && InSpan(span, u) && u % 7 == d;
          assert 0 <= u < v + span.step;
        }
      }
      StepAligned(span, v);
      v := v + span.step;
    }
    forall d | 0 <= d < 7
      ensures SpanSelects(span, d) <==> exists u | 0 <= u < v && u <= span.hi :: InSpan(span, u) && u % 7 == d
    {
      if SpanSelects(span, d) {
        var u :| 0 <= u <= span.hi && InSpan(span, u) && u % 7 == d;
        assert 0 <= u < v;
      }
    }
  }

  lemma StepAligned(span: Span, v: nat)
    requires span.step > 0 && span.lo <= v && (v - span.lo) % span.step == 0
    ensures (v + span.step - span.lo) % span.step == 0
  {
    ModShift(v - span.lo, span.step);
  }

  lemma ModShift(a: nat, m: nat)
    requires m > 0
    ensures (a + m) % m == a % m
  {
    var q := a / m;
    assert a == q * m + a % m;
    assert a + m == (q + 1) * m + a % m;
    DivUnique(a + m, m, q + 1, a % m);
  }

  // Between v and v + step nothing but v itself is in the span.
  lemma SpanGap(span: Span, v: nat)
    requires span.step > 0 && span.lo <= v && (v - span.lo) % span.step == 0
    ensures forall u | v < u < v + span.step :: !InSpan(span, u)
  {
    forall u | v < u < v + span.step
      ensures !InSpan(span, u)
    {
      var q := (v - span.lo) / span.step;
      assert v - span.lo == q * span.step;
      DivUnique(u - span.lo, span.step, q, u - v);
    }
  }

  // One list element: refused, or its days marked.
  method MarkPart(selected: array<bool>, part: string) returns (error: Option<WeekdayError>)
    requires selected.Length == 7
    modifies selected
    ensures error.None? <==> ParsePart(part).Ok?
    ensures error.None? ==> forall d | 0 <= d < 7 :: selected[d] <==> (old(selected[d]) || PartSelects(part, d))
  {
    var span := ParsePart(part);
    if span.Err? {
      return Some(span.error);
    }
    MarkSpan(selected, span.value);
    error := None;
  }

  predicate Shows(selected: seq<bool>, parts: seq<string>) {
    |selected| == 7 && forall d | 0 <= d < 7 :: selected[d] <==> Selects(parts, d)
  }

  lemma ShowsMore(before: seq<bool>, after: seq<bool>, parts: seq<string>, i: nat)
    requires i < |parts| && Shows(before, parts[..i]) && |after| == 7
    requires forall d | 0 <= d < 7 :: after[d] <==> (before[d] || PartSelects(parts[i], d))
    ensures Shows(after, parts[..i + 1])
  {
    forall d | 0 <= d < 7 ensures after[d] <==> Selects(parts[..i + 1], d) {
      SelectsMore(parts, i, d);
    }
  }

  lemma ValidExtends(parts: seq<string>, i: nat)
    requires i < |parts| && AllValid(parts[..i]) && ParsePart(parts[i]).Ok?
    ensures AllValid(parts[..i + 1])
  {
    var more := parts[..i + 1];
    forall k | 0 <= k < |more|
      ensures ParsePart(more[k]).Ok?
    {
      if k < i {
        assert more[k] == parts[..i][k];
      }
    }
  }

  // Which days the list elements select.
  method SelectDays(parts: seq<string>) returns (r: Result<seq<bool>, WeekdayError>)
    ensures r.Ok? <==> AllValid(parts)
    ensures r.Ok? ==> Shows(r.value, parts)
  {
    var selected := new bool[7](_ => false);
    var i := 0;
    while i < |parts|
      invariant 0 <= i <= |parts|
      invariant AllValid(parts[..i])
      invariant Shows(selected[..], parts[..i])
    {
      ghost var before := selected[..];
      var error := MarkPart(selected, parts[i]);
      if error.Some? {
        return Err(error.value);
      }
      ValidExtends(parts, i);
      ShowsMore(before, selected[..], parts, i);
      i := i + 1;
    }
    assert parts[..|parts|] == parts;
    r := Ok(selected[..]);
  }

  /** The translation succeeds on a numeric field exactly when every list element is
      valid, and then names exactly the days the field selects, one higher. */
  method NormalizePosixWeekday(field: string) returns (r: Result<string, WeekdayError>)
    ensures !Numeric(field) ==> r == if MixesNumbers(field) then Err(MixedNames) else Ok(field)
    ensures Numeric(field) ==> (r.Ok? <==> AllValid(Split(field, ',')))
    ensures Numeric(field) && r.Ok? ==>
              forall n: nat :: Names(r.value, n) <==> 1 <= n <= 7 && Selects(Split(field, ','), n - 1)
    ensures Numeric(field) && r.Ok? ==> PlainList(r.value)
  {
    if !Numeric(field) {
      if MixesNumbers(field) {
        return Err(MixedNames);
      }
      return Ok(field);
    }
    var parts := Split(field, ',');
    var days := SelectDays(parts);
    if days.Err? {
      return Err(days.error);
    }
    var selected := days.value;
    SomeDay(parts);
    if !(exists d | 0 <= d < 7 :: selected[d]) {
      return Err(NoDays);
    }
    var text := Joined(Numerals(selected), ',');
    forall n: nat ensures Names(text, n) <==> 1 <= n <= 7 && Selects(parts, n - 1) {
      NumeralsName(selected, n);
    }
    NumeralsName(selected, 0);
    r := Ok(text);
  }

  lemma SelectsMore(parts: seq<string>, i: nat, d: nat)
    requires i < |parts|
    ensures Selects(parts[..i + 1], d) <==> Selects(parts[..i], d) || PartSelects(parts[i], d)
  {
    if Selects(parts[..i + 1], d) {
      var k :| 0 <= k < i + 1 && PartSelects(parts[..i + 1][k], d);
      if k < i {
        assert PartSelects(parts[..i][k], d);
      }
    }
    if Selects(parts[..i], d) {
      var k :| 0 <= k < i && PartSelects(parts[..i][k], d);
      assert PartSelects(parts[..i + 1][k], d);
    }
    if PartSelects(parts[i], d) {
      assert PartSelects(parts[..i + 1][i], d);
    }
  }

  // A valid list selects some day, so the "selects no days" error is never the answer.
  lemma SomeDay(parts: seq<string>)
    requires parts != [] && ParsePart(parts[0]).Ok?
    ensures exists d | 0 <= d < 7 :: Selects(parts, d)
  {
    var span := ParsePart(parts[0]).value;
    assert InSpan(span, span.lo);
    assert PartSelects(parts[0], span.lo % 7);
    assert Selects(parts, span.lo % 7);
  }

  predicate IsNumeral(text: string, selected: seq<bool>) {
    exists d | 0 <= d < |selected| :: selected[d] && text == Decimal(d + 1)
  }

  lemma {:induction false} NumeralsAreDays(selected: seq<bool>, i: nat)
    requires i < |Numerals(selected)|
    ensures IsNumeral(Numerals(selected)[i], selected)
  {
    var init := selected[..|selected| - 1];
    if i < |Numerals(init)| {
      NumeralsAreDays(init, i);
      var d :| 0 <= d < |init| && init[d] && Numerals(init)[i] == Decimal(d + 1);
      assert selected[d];
    } else {
      assert selected[|selected| - 1] && Numerals(selected)[i] == Decimal(|selected| - 1 + 1);
    }
  }

  lemma {:induction false} DaysAreNumerals(selected: seq<bool>, d: nat)
    requires d < |selected| && selected[d]
    ensures Decimal(d + 1) in Numerals(selected)
  {
    var init := selected[..|selected| - 1];
    if d < |init| {
      DaysAreNumerals(init, d);
    }
  }

  lemma NumeralsListed(selected: seq<bool>, n: nat)
    requires |selected| == 7
    ensures Listed(Numerals(selected), n) <==> 1 <= n <= 7 && selected[n - 1]
  {
    var parts := Numerals(selected);
    if Listed(parts, n) {
      var i :| 0 <= i < |parts| && ParseUnsigned(parts[i], 255) == Some(n);
      NumeralsAreDays(selected, i);
      var d :| 0 <= d < |selected| && selected[d] && parts[i] == Decimal(d + 1);
      DecimalParses(d + 1, 255);
    }
    if 1 <= n <= 7 && selected[n - 1] {
      DaysAreNumerals(selected, n - 1);
      var i :| 0 <= i < |parts| && parts[i] == Decimal(n);
      DecimalParses(n, 255);
    }
  }

  lemma NumeralsSplit(selected: seq<bool>)
    requires Numerals(selected) != []
    ensures Split(Joined(Numerals(selected), ','), ',') == Numerals(selected)
  {
    var parts := Numerals(selected);
    forall i | 0 <= i < |parts| ensures ',' !in parts[i] {
      NumeralsAreDays(selected, i);
      var d :| 0 <= d < |selected| && selected[d] && parts[i] == Decimal(d + 1);
      DecimalDigits(d + 1);
    }
    SplitJoined(parts, ',');
  }

  lemma NumeralsPlain(selected: seq<bool>)
    requires |selected| == 7
    ensures AllWeekdayNumbers(Numerals(selected))
  {
    var parts := Numerals(selected);
    forall i | 0 <= i < |parts| ensures WeekdayNumber(parts[i]) {
      NumeralsAreDays(selected, i);
      var d :| 0 <= d < |selected| && selected[d] && parts[i] == Decimal(d + 1);
      DecimalParses(d + 1, 255);
    }
  }

  lemma NumeralsName(selected: seq<bool>, n: nat)
    requires |selected| == 7 && exists d | 0 <= d < 7 :: selected[d]
    ensures Names(Joined(Numerals(selected), ','), n) <==> 1 <= n <= 7 && selected[n - 1]
    ensures PlainList(Joined(Numerals(selected), ','))
  {
    NumeralsPlain(selected);
    var d :| 0 <= d < 7 && selected[d];
    DaysAreNumerals(selected, d);
    NumeralsSplit(selected);
    NumeralsListed(selected, n);
  }

  // ------------------------------------------------------------------ reference: abstract fields

  datatype Days = Every | Day(day: nat) | Range(first: nat, last: nat)

  // One list element as an operator means it.
  datatype Item = Item(days: Days, step: Option<nat>)

  predicate Proper(item: Item) {
    && (item.step.Some? ==> 0 < item.step.value <= USIZE_MAX)
    && match item.days
       case Every => true
       case Day(d) => d <= 7
       case Range(a, b) => a <= b <= 7
  }

  function PrintDays(days: Days): string {
    match days
    case Every => "*"
    case Day(d) => Decimal(d)
    case Range(a, b) => Decimal(a) + ['-'] + Decimal(b)
  }

  function PrintItem(item: Item): string {
    if item.step.None? then PrintDays(item.days) else PrintDays(item.days) + ['/'] + Decimal(item.step.value)
  }

  // The weekday (Sunday = 0) is one of the item's values, taken modulo the week.
  predicate ItemHas(item: Item, day: nat)
    requires Proper(item)
  {
    var step := StepOf(item);
    match item.days
    case Every => day < 7 && day % step == 0
    case Day(d) => day == d % 7
    case Range(a, b) => exists v | a <= v <= b :: (v - a) % step == 0 && v % 7 == day
  }

  function PrintField(items: seq<Item>): seq<string> {
    if items == [] then [] else PrintField(items[..|items| - 1]) + [PrintItem(items[|items| - 1])]
  }

  lemma PrintDaysPlain(days: Days)
    ensures forall c | c in PrintDays(days) :: IsDigit(c) || c == '*' || c == '-'
  {
    match days
    case Every =>
    case Day(d) => DecimalDigits(d);
    case Range(a, b) => DecimalDigits(a); DecimalDigits(b);
  }

  // The ends of an item's range of values.
  function Ends(days: Days): (nat, nat) {
    match days
    case Every => (0, 6)
    case Day(d) => (d, d)
    case Range(a, b) => (a, b)
  }

  lemma ParsePrintedDays(days: Days)
    requires Proper(Item(days, None))
    ensures ParseEnds(PrintDays(days)) == Ok(Ends(days))
  {
    var base := PrintDays(days);
    match days
    case Every =>
    case Day(d) =>
      DecimalDigits(d);
      DecimalParses(d, 255);
      assert base[0] != '*';
      SplitOnceNone(base, '-');
    case Range(a, b) =>
      DecimalDigits(a);
      DecimalParses(a, 255);
      DecimalParses(b, 255);
      assert base[0] == Decimal(a)[0];
      SplitOnceAt(Decimal(a), '-', Decimal(b));
  }

  function StepOf(item: Item): nat {
    if item.step.None? then 1 else item.step.value
  }

  lemma ParsePrinted(item: Item)
    requires Proper(item)
    ensures ParsePart(PrintItem(item)) == Ok(Span(Ends(item.days).0, Ends(item.days).1, StepOf(item)))
  {
    var base := PrintDays(item.days);
    PrintDaysPlain(item.days);
    assert '/' !in base;
    if item.step.None? {
      SplitOnceNone(base, '/');
    } else {
      SplitOnceAt(base, '/', Decimal(item.step.value));
      DecimalParses(item.step.value, USIZE_MAX);
    }
    assert PartBase(PrintItem(item)) == base;
    assert ParseStep(PrintItem(item)) == StepOf(item);
    assert Proper(Item(item.days, None));
    ParsePrintedDays(item.days);
  }

  lemma SpanOfItem(item: Item, day: nat)
    requires Proper(item)
    ensures SpanSelects(Span(Ends(item.days).0, Ends(item.days).1, StepOf(item)), day) <==> ItemHas(item, day)
  {
    var span := Span(Ends(item.days).0, Ends(item.days).1, StepOf(item));
    match item.days
    case Every =>
      SpanOfWeek(span, day);
    case Day(d) =>
      if ItemHas(item, day) {
        assert InSpan(span, d);
      }
    case Range(a, b) =>
      SpanOfRange(item, span, day);
  }

  lemma SpanOfWeek(span: Span, day: nat)
    requires span.lo == 0 && span.hi == 6 && span.step > 0
    ensures SpanSelects(span, day) <==> day < 7 && day % span.step == 0
  {
    if day < 7 && day % span.step == 0 {
      assert InSpan(span, day);
    }
  }

  lemma SpanOfRange(item: Item, span: Span, day: nat)
    requires Proper(item) && item.days.Range? && span == Span(item.days.first, item.days.last, StepOf(item))
    ensures SpanSelects(span, day) <==> ItemHas(item, day)
  {
    var a, b := item.days.first, item.days.last;
    if ItemHas(item, day) {
      var v :| a <= v <= b && (v - a) % span.step == 0 && v % 7 == day;
      assert InSpan(span, v);
    }
    if SpanSelects(span, day) {
      var v :| 0 <= v <= span.hi && InSpan(span, v) && v % 7 == day;
      assert a <= v <= b && (v - a) % span.step == 0;
    }
  }

  lemma PrintedSelects(item: Item, day: nat)
    requires Proper(item)
    ensures PartSelects(PrintItem(item), day) <==> ItemHas(item, day)
  {
    ParsePrinted(item);
    SpanOfItem(item, day);
  }

  lemma {:induction false} PrintFieldAt(items: seq<Item>)
    ensures |PrintField(items)| == |items|
    ensures forall i | 0 <= i < |items| :: PrintField(items)[i] == PrintItem(items[i])
  {
    if items != [] {
      PrintFieldAt(items[..|items| - 1]);
    }
  }

  lemma PrintItemPlain(item: Item)
    ensures ',' !in PrintItem(item) && Numeric(PrintItem(item))
  {
    var text := PrintItem(item);
    PrintDaysPlain(item.days);
    if item.step.Some? {
      DecimalDigits(item.step.value);
    }
    assert forall c | c in text :: IsDigit(c) || c == '*' || c == '-' || c == '/';
    assert forall i | 0 <= i < |text| :: text[i] in text;
  }

  lemma {:induction false} JoinedPlain(parts: seq<string>)
    requires forall i | 0 <= i < |parts| :: Numeric(parts[i])
    ensures Numeric(Joined(parts, ','))
  {
    if |parts| > 1 {
      JoinedPlain(parts[1..]);
    }
  }

  predicate SomeItemHas(items: seq<Item>, day: nat)
    requires forall i | 0 <= i < |items| :: Proper(items[i])
  {
    exists i | 0 <= i < |items| :: ItemHas(items[i], day)
  }

  lemma PrintedParts(items: seq<Item>)
    requires forall i | 0 <= i < |items| :: Proper(items[i])
    ensures AllValid(PrintField(items))
  {
    var parts := PrintField(items);
    PrintFieldAt(items);
    forall i | 0 <= i < |parts| ensures ParsePart(parts[i]).Ok? {
      ParsePrinted(items[i]);
    }
  }

  lemma PrintedField(items: seq<Item>)
    requires items != []
    ensures var parts := PrintField(items);
            parts != [] && Split(Joined(parts, ','), ',') == parts && Numeric(Joined(parts, ','))
  {
    var parts := PrintField(items);
    PrintFieldAt(items);
    forall i | 0 <= i < |items| ensures ',' !in parts[i] && Numeric(parts[i]) {
      PrintItemPlain(items[i]);
    }
    SplitJoined(parts, ',');
    JoinedPlain(parts);
  }

  lemma PrintedFieldSelects(items: seq<Item>, day: nat)
    requires forall i | 0 <= i < |items| :: Proper(items[i])
    ensures Selects(PrintField(items), day) <==> SomeItemHas(items, day)
  {
    var parts := PrintField(items);
    PrintFieldAt(items);
    forall i | 0 <= i < |items| ensures PartSelects(parts[i], day) <==> ItemHas(items[i], day) {
      PrintedSelects(items[i], day);
    }
    if Selects(parts, day) {
      var i :| 0 <= i < |parts| && PartSelects(parts[i], day);
      assert ItemHas(items[i], day);
    }
    if SomeItemHas(items, day) {
      var i :| 0 <= i < |items| && ItemHas(items[i], day);
      assert PartSelects(parts[i], day);
    }
  }

  /** For every list of single days, ranges and `*`, each with or without a step: the
      printed field is accepted, and the translated text names exactly the listed days,
      one higher. */
  method TranslateItems(items: seq<Item>) returns (r: Result<string, WeekdayError>)
    requires items != [] && forall i | 0 <= i < |items| :: Proper(items[i])
    ensures r.Ok?
    ensures forall n: nat :: Names(r.value, n) <==> 1 <= n <= 7 && SomeItemHas(items, n - 1)
  {
    PrintedField(items);
    PrintedParts(items);
    r := NormalizePosixWeekday(Joined(PrintField(items), ','));
    forall n: nat ensures Names(r.value, n) <==> 1 <= n <= 7 && SomeItemHas(items, n - 1) {
      if 1 <= n <= 7 {
        PrintedFieldSelects(items, n - 1);
      }
    }
  }
}
