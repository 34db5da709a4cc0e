/**
 Five-field crontab expressions: parse_cron and CronSchedule::next_after in
 engine/nasty-backup/src/scheduler.rs.

 The `cron` crate is a parameter: `read` is its reader of one column, giving the set of
 values the text selects, and `civil` is its calendar.  What is assumed of it is in
 `Lawful`: `*` selects everything, and a comma list of weekday numbers selects those
 weekdays (Sunday = 1).  `Schedule::after(t).next()` is the least matching instant after t,
 up to the last instant the crate considers.
 */
module Cron {
  import opened Base
  import opened Text
  import opened CronWeekday

  datatype Column = Minute | Hour | MonthDay | Month | Weekday

  // weekday: Sunday = 1 .. Saturday = 7.
  datatype Civil = Civil(second: nat, minute: nat, hour: nat, monthDay: nat, month: nat, weekday: nat)

  datatype Crate = Crate(read: (Column, string) -> Option<iset<nat>>, civil: int -> Civil, last: int)

  // The column text selects the value.
  ghost predicate Selected(crate: Crate, column: Column, text: string, value: nat) {
    var r := crate.read(column, text);
    r.Some? && value in r.value
  }

  ghost predicate Lawful(crate: Crate) {
    && (forall c, n :: Selected(crate, c, "*", n))
    && (forall text, n | PlainList(text) :: Selected(crate, Weekday, text, n) <==> Names(text, n))
    && (forall t :: 1 <= crate.civil(t).weekday <= 7)
  }

  // One crate schedule: the value sets of its five columns; the seconds column is 0.
  datatype Schedule = Schedule(
    minute: iset<nat>, hour: iset<nat>, monthDay: iset<nat>, month: iset<nat>, weekday: iset<nat>)

  datatype CronError = FieldCount | QuestionMark | BadWeekday(weekday: WeekdayError) | BadColumn

  predicate TimeOfDay(s: Schedule, c: Civil) {
    c.second == 0 && c.minute in s.minute && c.hour in s.hour && c.month in s.month
  }

  predicate Matches(crate: Crate, s: Schedule, t: int) {
    var c := crate.civil(t);
    TimeOfDay(s, c) && c.monthDay in s.monthDay && c.weekday in s.weekday
  }

  // `Schedule::after(t).next()`.
  ghost function ScheduleNext(crate: Crate, s: Schedule, t: int): Option<int>
    decreases crate.last - t
  {
    if t >= crate.last then None
    else if Matches(crate, s, t + 1) then Some(t + 1)
    else ScheduleNext(crate, s, t + 1)
  }

  lemma {:induction false} ScheduleNextIsLeast(crate: Crate, s: Schedule, t: int)
    ensures match ScheduleNext(crate, s, t)
            case Some(u) => t < u <= crate.last && Matches(crate, s, u) && forall v | t < v < u :: !Matches(crate, s, v)
            case None => forall v | t < v <= crate.last :: !Matches(crate, s, v)
    decreases crate.last - t
  {
    if t < crate.last && !Matches(crate, s, t + 1) {
      ScheduleNextIsLeast(crate, s, t + 1);
    }
  }

  ghost predicate AnyMatches(crate: Crate, schedules: seq<Schedule>, t: int) {
    exists i | 0 <= i < |schedules| :: Matches(crate, schedules[i], t)
  }

  // The minimum over the schedules of their next instants.
  ghost function NextAfter(crate: Crate, schedules: seq<Schedule>, t: int): Option<int> {
    if schedules == [] then None
    else
      var rest := NextAfter(crate, schedules[..|schedules| - 1], t);
      var here := ScheduleNext(crate, schedules[|schedules| - 1], t);
      if here.None? then rest
      else if rest.None? then here
      else if here.value < rest.value then here else rest
  }

  lemma AnyMatchesLast(crate: Crate, schedules: seq<Schedule>, u: int)
    requires schedules != []
    ensures AnyMatches(crate, schedules, u) <==>
              AnyMatches(crate, schedules[..|schedules| - 1], u) || Matches(crate, schedules[|schedules| - 1], u)
  {
    var init := schedules[..|schedules| - 1];
    if AnyMatches(crate, schedules, u) {
      var i :| 0 <= i < |schedules| && Matches(crate, schedules[i], u);
      if i < |init| {
        assert Matches(crate, init[i], u);
      }
    }
    if AnyMatches(crate, init, u) {
      var i :| 0 <= i < |init| && Matches(crate, init[i], u);
      assert Matches(crate, schedules[i], u);
    }
  }

  /** The next instant of a list of schedules is the least later instant matching any. */
  lemma {:induction false} NextAfterIsLeast(crate: Crate, schedules: seq<Schedule>, t: int)
    ensures match NextAfter(crate, schedules, t)
            case Some(u) =>
              t < u <= crate.last && AnyMatches(crate, schedules, u) && forall v | t < v < u :: !AnyMatches(crate, schedules, v)
            case None => forall v | t < v <= crate.last :: !AnyMatches(crate, schedules, v)
  {
    if schedules != [] {
      NextAfterIsLeast(crate, schedules[..|schedules| - 1], t);
      ScheduleNextIsLeast(crate, schedules[|schedules| - 1], t);
      forall u {
        AnyMatchesLast(crate, schedules, u);
      }
    }
  }

  // `Schedule::from_str` on five columns.
  function ReadColumns(crate: Crate, fields: seq<string>): Result<Schedule, CronError>
    requires |fields| == 5
  {
    var minute := crate.read(Minute, fields[0]);
    var hour := crate.read(Hour, fields[1]);
    var monthDay := crate.read(MonthDay, fields[2]);
    var month := crate.read(Month, fields[3]);
    var weekday := crate.read(Weekday, fields[4]);
    if minute.Some? && hour.Some? && monthDay.Some? && month.Some? && weekday.Some?
    then Ok(Schedule(minute.value, hour.value, monthDay.value, month.value, weekday.value))
    else Err(BadColumn)
  }

  // ------------------------------------------------------------------ the POSIX rule

  // Weekdays of the original field, Sunday = 0 or 7 when numeric.
  ghost predicate OnWeekday(crate: Crate, field: string, weekday: nat) {
    if Numeric(field) then weekday >= 1 && Selects(Split(field, ','), weekday - 1)
    else Selected(crate, Weekday, field, weekday)
  }

  /** The crontab rule: minute, hour and month match; and the day matches the day of month
      or the weekday when both are restricted, and both of them otherwise. */
  ghost predicate PosixRule(crate: Crate, fields: seq<string>, t: int)
    requires |fields| == 5
  {
    var c := crate.civil(t);
    var onMonthDay := Selected(crate, MonthDay, fields[2], c.monthDay);
    var onWeekday := OnWeekday(crate, fields[4], c.weekday);
    && c.second == 0
    && Selected(crate, Minute, fields[0], c.minute)
    && Selected(crate, Hour, fields[1], c.hour)
    && Selected(crate, Month, fields[3], c.month)
    && if fields[2] != "*" && fields[4] != "*" then onMonthDay || onWeekday else onMonthDay && onWeekday
  }

  predicate NoQuestionMark(fields: seq<string>) {
    forall i | 0 <= i < |fields| :: '?' !in fields[i]
  }

  // The crate reads the translated weekday text as the days of the original field.
  ghost predicate Translates(crate: Crate, field: string, text: string) {
    forall w: nat | 1 <= w <= 7 :: Selected(crate, Weekday, text, w) <==> OnWeekday(crate, field, w)
  }

  lemma OneScheduleRule(crate: Crate, fields: seq<string>, text: string, s: Schedule, t: int)
    requires Lawful(crate) && |fields| == 5 && (fields[2] == "*" || fields[4] == "*")
    requires Translates(crate, fields[4], text)
    requires ReadColumns(crate, fields[4 := text]) == Ok(s)
    ensures AnyMatches(crate, [s], t) <==> PosixRule(crate, fields, t)
  {
    assert [s][0] == s;
    assert Selected(crate, Weekday, text, crate.civil(t).weekday) <==> crate.civil(t).weekday in s.weekday;
  }

  lemma TwoScheduleRule(crate: Crate, fields: seq<string>, text: string, a: Schedule, b: Schedule, t: int)
    requires Lawful(crate) && |fields| == 5 && fields[2] != "*" && fields[4] != "*"
    requires Translates(crate, fields[4], text)
    requires ReadColumns(crate, fields[4 := "*"]) == Ok(a)
    requires ReadColumns(crate, fields[2 := "*"][4 := text]) == Ok(b)
    ensures AnyMatches(crate, [a, b], t) <==> PosixRule(crate, fields, t)
  {
    var c := crate.civil(t);
    assert [a, b][0] == a && [a, b][1] == b;
    assert AnyMatches(crate, [a, b], t) <==> Matches(crate, a, t) || Matches(crate, b, t);
    assert Selected(crate, Weekday, text, c.weekday) <==> c.weekday in b.weekday;
    assert Selected(crate, Weekday, "*", c.weekday) && Selected(crate, MonthDay, "*", c.monthDay);
  }

  // The schedules match exactly the instants of the crontab rule.
  ghost predicate Implements(crate: Crate, schedules: seq<Schedule>, fields: seq<string>)
    requires |fields| == 5
  {
    forall t :: AnyMatches(crate, schedules, t) <==> PosixRule(crate, fields, t)
  }

  // The crate reads the four columns before the weekday.
  ghost predicate ColumnsRead(crate: Crate, fields: seq<string>)
    requires |fields| == 5
  {
    && crate.read(Minute, fields[0]).Some? && crate.read(Hour, fields[1]).Some?
    && crate.read(MonthDay, fields[2]).Some? && crate.read(Month, fields[3]).Some?
  }

  /** The columns are accepted exactly when the crate reads each of them by itself, however
      they are spread over the schedules. */
  method ReadSchedules(crate: Crate, fields: seq<string>, text: string) returns (r: Result<seq<Schedule>, CronError>)
    requires Lawful(crate) && |fields| == 5 && Translates(crate, fields[4], text)
    ensures if ColumnsRead(crate, fields) && crate.read(Weekday, text).Some? then r.Ok? else r == Err(BadColumn)
    ensures r.Ok? ==> Implements(crate, r.value, fields)
  {
    StarIsRead(crate, MonthDay);
    StarIsRead(crate, Weekday);
    if fields[2] != "*" && fields[4] != "*" {
      var a := ReadColumns(crate, fields[4 := "*"]);
      var b := ReadColumns(crate, fields[2 := "*"][4 := text]);
      if a.Err? || b.Err? {
        return Err(BadColumn);
      }
      r := Ok([a.value, b.value]);
      forall t ensures AnyMatches(crate, r.value, t) <==> PosixRule(crate, fields, t) {
        TwoScheduleRule(crate, fields, text, a.value, b.value, t);
      }
    } else {
      var s := ReadColumns(crate, fields[4 := text]);
      if s.Err? {
        return Err(BadColumn);
      }
      r := Ok([s.value]);
      forall t ensures AnyMatches(crate, r.value, t) <==> PosixRule(crate, fields, t) {
        OneScheduleRule(crate, fields, text, s.value, t);
      }
    }
  }

  lemma StarIsRead(crate: Crate, column: Column)
    requires Lawful(crate)
    ensures crate.read(column, "*").Some?
  {
    assert Selected(crate, column, "*", 0);
  }

  // A weekday field the translation takes.
  predicate WeekdayAccepted(field: string) {
    if Numeric(field) then AllValid(Split(field, ',')) else !MixesNumbers(field)
  }

  /** The expressions of the grammar: five fields without a question mark, a weekday field that
      is numeric and valid or that the crate reads by name, and four columns the crate reads. */
  ghost predicate Accepted(crate: Crate, fields: seq<string>) {
    && |fields| == 5 && NoQuestionMark(fields) && WeekdayAccepted(fields[4]) && ColumnsRead(crate, fields)
    && (!Numeric(fields[4]) ==> crate.read(Weekday, fields[4]).Some?)
  }

  // What parsing an expression gives: its instants exactly, or a refusal exactly outside the grammar.
  ghost predicate Parses(crate: Crate, expr: string, r: Result<seq<Schedule>, CronError>) {
    var fields := Words(Trim(expr));
    && (r.Ok? <==> Accepted(crate, fields))
    && (r.Ok? ==> Implements(crate, r.value, fields))
  }

  lemma TranslatedIsRead(crate: Crate, field: string, text: string)
    requires Lawful(crate) && Numeric(field) && AllValid(Split(field, ',')) && Translates(crate, field, text)
    ensures crate.read(Weekday, text).Some?
  {
    var parts := Split(field, ',');
    SomeDay(parts);
    var d :| 0 <= d < 7 && Selects(parts, d);
    var w: nat := d + 1;
    assert OnWeekday(crate, field, w);
    assert Selected(crate, Weekday, text, w);
  }

  /** parse_cron accepts exactly the grammar, its answer matches exactly the instants of the
      crontab rule, and each refusal has its reason. */
  method ParseCron(crate: Crate, expr: string) returns (r: Result<seq<Schedule>, CronError>)
    requires Lawful(crate)
    ensures Parses(crate, expr, r)
    ensures r == Err(FieldCount) <==> |Words(Trim(expr))| != 5
    ensures r == Err(QuestionMark) <==> |Words(Trim(expr))| == 5 && !NoQuestionMark(Words(Trim(expr)))
    ensures |Words(Trim(expr))| == 5 && NoQuestionMark(Words(Trim(expr))) ==>
              (r.Err? && r.error.BadWeekday? <==> !WeekdayAccepted(Words(Trim(expr))[4]))
  {
    var fields := Words(Trim(expr));
    if |fields| != 5 {
      return Err(FieldCount);
    }
    if !NoQuestionMark(fields) {
      return Err(QuestionMark);
    }
    var weekday := NormalizePosixWeekday(fields[4]);
    if weekday.Err? {
      return Err(BadWeekday(weekday.error));
    }
    if Numeric(fields[4]) {
      TranslatedIsRead(crate, fields[4], weekday.value);
    }
    r := ReadSchedules(crate, fields, weekday.value);
  }

  // The instants of an expression; one that is refused has none.
  ghost predicate Occurs(crate: Crate, expr: string, t: int) {
    var fields := Words(Trim(expr));
    Accepted(crate, fields) && PosixRule(crate, fields, t)
  }

  /** For every accepted expression and every instant, next_after is the least later instant
      satisfying the crontab rule, and None exactly when there is none the crate considers. */
  lemma NextAfterIsPosix(crate: Crate, schedules: seq<Schedule>, fields: seq<string>, t: int)
    requires |fields| == 5 && Implements(crate, schedules, fields)
    ensures match NextAfter(crate, schedules, t)
            case Some(u) =>
              && t < u <= crate.last && PosixRule(crate, fields, u)
              && forall v | t < v < u :: !PosixRule(crate, fields, v)
            case None => forall v | t < v <= crate.last :: !PosixRule(crate, fields, v)
  {
    NextAfterIsLeast(crate, schedules, t);
    assert forall v :: AnyMatches(crate, schedules, v) <==> PosixRule(crate, fields, v);
  }
}
