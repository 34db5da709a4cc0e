/**
 The polling backup scheduler (SchedulerTick and run_scheduler_loop in
 engine/nasty-backup/src/scheduler.rs).

 `Cron` stands for the parsed schedules: `occurs(expr, t)` says that the expression is
 valid and has an occurrence at instant t, and `last` is the last instant considered.  The
 results hold for any `Cron`; `Posix` is the one parse_cron gives.
 `Fires` is should_fire: the least occurrence after the cursor is at or before now.
 */
module Scheduler {
  import opened Base
  import opened Text
  import P = Cron

  datatype Profile = Profile(id: string, enabled: bool, schedule: Option<string>)

  datatype Cron = Cron(occurs: (string, int) -> bool, last: int)

  // The least occurrence after t.
  function NextAfter(cron: Cron, expr: string, t: int): (r: Option<int>)
    ensures r.Some? ==> t < r.value <= cron.last && cron.occurs(expr, r.value)
    ensures r.Some? ==> forall u | t < u < r.value :: !cron.occurs(expr, u)
    ensures r.None? ==> forall u | t < u <= cron.last :: !cron.occurs(expr, u)
    decreases cron.last - t
  {
    if t >= cron.last then None
    else if cron.occurs(expr, t + 1) then Some(t + 1)
    else NextAfter(cron, expr, t + 1)
  }

  // The occurrences of crontab expressions.
  ghost function Posix(crate: P.Crate): Cron {
    Cron((expr, t) => P.Occurs(crate, expr, t), crate.last)
  }

  lemma SameNext(cron: Cron, expr: string, crate: P.Crate, schedules: seq<P.Schedule>, t: int)
    requires cron.last == crate.last
    requires forall u :: cron.occurs(expr, u) <==> P.AnyMatches(crate, schedules, u)
    ensures NextAfter(cron, expr, t) == P.NextAfter(crate, schedules, t)
  {
    P.NextAfterIsLeast(crate, schedules, t);
  }

  /** Whatever the expression, asking its parsed schedules for the next instant, or nobody when
      it does not parse, gives the next instant of the crontab rule. */
  lemma NextAfterAgrees(crate: P.Crate, expr: string, parsed: Result<seq<P.Schedule>, P.CronError>, t: int)
    requires P.Parses(crate, expr, parsed)
    ensures NextAfter(Posix(crate), expr, t) == if parsed.Ok? then P.NextAfter(crate, parsed.value, t) else None
  {
    var cron := Posix(crate);
    assert forall u :: cron.occurs(expr, u) <==> P.Occurs(crate, expr, u);
    if parsed.Ok? {
      assert forall u :: P.Occurs(crate, expr, u) <==> P.AnyMatches(crate, parsed.value, u);
      SameNext(cron, expr, crate, parsed.value, t);
    }
  }

  function ShouldFire(cron: Cron, expr: string, lastAttempted: int, now: int): Option<int> {
    var next := NextAfter(cron, expr, lastAttempted);
    if next.Some? && next.value <= now then next else None
  }

  function ActiveSchedule(p: Profile): Option<string> {
    if p.enabled && p.schedule.Some? && Trim(p.schedule.value) != "" then Some(Trim(p.schedule.value)) else None
  }

  datatype Cursors = Cursors(lastAttempted: map<string, int>, schedules: map<string, string>)

  function Ids(profiles: seq<Profile>): set<string> {
    set i | 0 <= i < |profiles| :: profiles[i].id
  }

  // The profiles the scheduler is responsible for.
  function ActiveIds(profiles: seq<Profile>): set<string> {
    set i | 0 <= i < |profiles| && ActiveSchedule(profiles[i]).Some? :: profiles[i].id
  }

  // What a tick does to one profile's cursor.
  function Visit(c: Cursors, startedAt: int, p: Profile, now: int): Cursors {
    match ActiveSchedule(p)
    case None => Cursors(c.lastAttempted - {p.id}, c.schedules - {p.id})
    case Some(expr) =>
      if p.id !in c.schedules || c.schedules[p.id] != expr
      then Cursors(c.lastAttempted[p.id := now], c.schedules[p.id := expr])
      else if p.id in c.lastAttempted then c
      else c.(lastAttempted := c.lastAttempted[p.id := startedAt])
  }

  // Whether a tick reports one profile as due.
  predicate Due(cron: Cron, c: Cursors, startedAt: int, p: Profile, now: int) {
    var expr := ActiveSchedule(p);
    && expr.Some? && p.id in c.schedules && c.schedules[p.id] == expr.value
    && var cursor := if p.id in c.lastAttempted then c.lastAttempted[p.id] else startedAt;
       ShouldFire(cron, expr.value, cursor, now).Some?
  }

  function Prune(c: Cursors, live: set<string>): Cursors {
    Cursors(map id | id in c.lastAttempted && id in live :: c.lastAttempted[id],
            map id | id in c.schedules && id in live :: c.schedules[id])
  }

  function VisitAll(c: Cursors, startedAt: int, profiles: seq<Profile>, now: int): Cursors {
    if profiles == [] then c
    else Visit(VisitAll(c, startedAt, profiles[..|profiles| - 1], now), startedAt, profiles[|profiles| - 1], now)
  }

  function DueIds(cron: Cron, c: Cursors, startedAt: int, profiles: seq<Profile>, now: int): seq<string> {
    if profiles == [] then []
    else
      var init := profiles[..|profiles| - 1];
      var p := profiles[|profiles| - 1];
      DueIds(cron, c, startedAt, init, now) +
      if Due(cron, VisitAll(c, startedAt, init, now), startedAt, p, now) then [p.id] else []
  }

  function Seeded(c: Cursors, startedAt: int, profiles: seq<Profile>): Cursors {
    if profiles == [] then c
    else
      var init := Seeded(c, startedAt, profiles[..|profiles| - 1]);
      var p := profiles[|profiles| - 1];
      match ActiveSchedule(p)
      case None => init
      case Some(expr) => Cursors(init.lastAttempted[p.id := startedAt], init.schedules[p.id := expr])
  }

  class SchedulerTick {
    var lastAttempted: map<string, int>
    const startedAt: int
    var schedules: map<string, string>

    function State(): Cursors
      reads this
    {
      Cursors(lastAttempted, schedules)
    }

    constructor (startedAt: int)
      ensures State() == Cursors(map[], map[]) && this.startedAt == startedAt
    {
      this.startedAt := startedAt;
      lastAttempted, schedules := map[], map[];
    }

    /** Seeding puts every active profile under observation from the start time on, with its
        schedule, and leaves every other id alone. */
    method SeedProfiles(profiles: seq<Profile>)
      modifies this
      ensures State() == Seeded(old(State()), startedAt, profiles)
      ensures forall k | 0 <= k < |profiles| && ActiveSchedule(profiles[k]).Some? && DistinctIds(profiles) ::
                ObservedFrom(State(), profiles[k].id, ActiveSchedule(profiles[k]).value, startedAt)
      ensures forall id | id !in ActiveIds(profiles) :: SameAt(State(), old(State()), id)
    {
      for i := 0 to |profiles|
        invariant State() == Seeded(old(State()), startedAt, profiles[..i])
      {
        assert profiles[..i + 1][..i] == profiles[..i];
        var expr := ActiveSchedule(profiles[i]);
        if expr.Some? {
          lastAttempted := lastAttempted[profiles[i].id := startedAt];
          schedules := schedules[profiles[i].id := expr.value];
        }
      }
      assert profiles[..|profiles|] == profiles;
      forall k | 0 <= k < |profiles| && ActiveSchedule(profiles[k]).Some? && DistinctIds(profiles)
        ensures ObservedFrom(State(), profiles[k].id, ActiveSchedule(profiles[k]).value, startedAt)
      {
        SeededAt(old(State()), startedAt, profiles, k);
      }
      forall id | id !in ActiveIds(profiles)
        ensures SameAt(State(), old(State()), id)
      {
        SeededElsewhere(old(State()), startedAt, profiles, id);
      }
    }

    method Evaluate(cron: Cron, profiles: seq<Profile>, now: int) returns (due: seq<string>)
      modifies this
      ensures State() == VisitAll(Prune(old(State()), Ids(profiles)), startedAt, profiles, now)
      ensures due == DueIds(cron, Prune(old(State()), Ids(profiles)), startedAt, profiles, now)
    {
      ghost var start := Prune(State(), Ids(profiles));
      var live := Ids(profiles);
      lastAttempted := map id | id in lastAttempted && id in live :: lastAttempted[id];
      schedules := map id | id in schedules && id in live :: schedules[id];
      due := [];
      for i := 0 to |profiles|
        invariant State() == VisitAll(start, startedAt, profiles[..i], now)
        invariant due == DueIds(cron, start, startedAt, profiles[..i], now)
      {
        assert profiles[..i + 1][..i] == profiles[..i];
        var p := profiles[i];
        var expr := ActiveSchedule(p);
        if expr.None? {
          lastAttempted, schedules := lastAttempted - {p.id}, schedules - {p.id};
          continue;
        }
        if p.id !in schedules || schedules[p.id] != expr.value {
          schedules := schedules[p.id := expr.value];
          lastAttempted := lastAttempted[p.id := now];
          continue;
        }
        if p.id !in lastAttempted {
          lastAttempted := lastAttempted[p.id := startedAt];
        }
        var cursor := lastAttempted[p.id];
        var fire := ShouldFire(cron, expr.value, cursor, now);
        if fire.Some? {
          due := due + [p.id];
        }
      }
      assert profiles[..|profiles|] == profiles;
    }

    // Only the attempted profile's cursor moves; no schedule changes.
    method MarkAttempted(id: string, at: int)
      modifies this`lastAttempted
      ensures id in lastAttempted && lastAttempted[id] == at
      ensures forall other | other != id ::
                && (other in lastAttempted <==> other in old(lastAttempted))
                && (other in lastAttempted ==> lastAttempted[other] == old(lastAttempted)[other])
    {
      lastAttempted := lastAttempted[id := at];
    }

    /** One pass of the loop: the due profiles are tried in order, and those whose backup was
        accepted are marked.  It takes the state to the next state of a run. */
    method RunPass(cron: Cron, tick: Tick) returns (due: seq<string>)
      modifies this
      ensures State() == Pass(cron, old(State()), startedAt, tick)
      ensures due == DueAt(cron, old(State()), startedAt, tick)
    {
      due := Evaluate(cron, tick.profiles, tick.now);
      ghost var evaluated := lastAttempted;
      ghost var kept := schedules;
      for i := 0 to |due|
        invariant schedules == kept && lastAttempted == Commit(evaluated, due[..i], tick.accepted, tick.now)
      {
        assert due[..i + 1][..i] == due[..i];
        if due[i] in tick.accepted {
          ghost var before := lastAttempted;
          MarkAttempted(due[i], tick.now);
          assert lastAttempted == before[due[i] := tick.now];
        }
      }
      assert due[..|due|] == due;
    }
  }

  // ------------------------------------------------------------------ seeding

  // The profile is under observation with this schedule, and from this instant on.
  predicate ObservedFrom(c: Cursors, id: string, expr: string, at: int) {
    Observed(c, id, expr) && c.lastAttempted[id] == at
  }

  predicate SameAt(a: Cursors, b: Cursors, id: string) {
    && (id in a.lastAttempted <==> id in b.lastAttempted)
    && (id in a.schedules <==> id in b.schedules)
    && (id in a.lastAttempted && id in b.lastAttempted ==> a.lastAttempted[id] == b.lastAttempted[id])
    && (id in a.schedules && id in b.schedules ==> a.schedules[id] == b.schedules[id])
  }

  lemma {:induction false} SeededAt(c: Cursors, startedAt: int, profiles: seq<Profile>, k: nat)
    requires DistinctIds(profiles) && k < |profiles| && ActiveSchedule(profiles[k]).Some?
    ensures ObservedFrom(Seeded(c, startedAt, profiles), profiles[k].id, ActiveSchedule(profiles[k]).value, startedAt)
  {
    var init := profiles[..|profiles| - 1];
    if k < |init| {
      assert init[k] == profiles[k];
      SeededAt(c, startedAt, init, k);
    }
  }

  lemma {:induction false} SeededElsewhere(c: Cursors, startedAt: int, profiles: seq<Profile>, id: string)
    requires id !in ActiveIds(profiles)
    ensures SameAt(Seeded(c, startedAt, profiles), c, id)
  {
    if profiles != [] {
      var init := profiles[..|profiles| - 1];
      assert forall i | 0 <= i < |init| :: init[i] == profiles[i];
      SeededElsewhere(c, startedAt, init, id);
    }
  }

  // ------------------------------------------------------------------ runs of the loop

  // One pass of the loop: the profile list it read, its clock, and which due profiles
  // start_run_backup accepted.
  datatype Tick = Tick(profiles: seq<Profile>, now: int, accepted: set<string>)

  function Evaluated(c: Cursors, startedAt: int, tick: Tick): Cursors {
    VisitAll(Prune(c, Ids(tick.profiles)), startedAt, tick.profiles, tick.now)
  }

  function DueAt(cron: Cron, c: Cursors, startedAt: int, tick: Tick): seq<string> {
    DueIds(cron, Prune(c, Ids(tick.profiles)), startedAt, tick.profiles, tick.now)
  }

  function Commit(m: map<string, int>, due: seq<string>, accepted: set<string>, now: int): map<string, int> {
    if due == [] then m
    else
      var init := Commit(m, due[..|due| - 1], accepted, now);
      var id := due[|due| - 1];
      if id in accepted then init[id := now] else init
  }

  function Pass(cron: Cron, c: Cursors, startedAt: int, tick: Tick): Cursors {
    var e := Evaluated(c, startedAt, tick);
    e.(lastAttempted := Commit(e.lastAttempted, DueAt(cron, c, startedAt, tick), tick.accepted, tick.now))
  }

  ghost predicate DistinctIds(profiles: seq<Profile>) {
    forall i, j | 0 <= i < j < |profiles| :: profiles[i].id != profiles[j].id
  }

  datatype Run = Run(cron: Cron, startedAt: int, seed: seq<Profile>, ticks: seq<Tick>, states: seq<Cursors>)

  ghost predicate IsRun(r: Run) {
    && |r.states| == |r.ticks| + 1
    && DistinctIds(r.seed)
    && r.states[0] == Seeded(Cursors(map[], map[]), r.startedAt, r.seed)
    && (forall k | 0 <= k < |r.ticks| :: DistinctIds(r.ticks[k].profiles))
    && forall k | 0 <= k < |r.ticks| :: r.states[k + 1] == Pass(r.cron, r.states[k], r.startedAt, r.ticks[k])
  }

  predicate SameKeys(c: Cursors) {
    c.lastAttempted.Keys == c.schedules.Keys
  }

  // A profile's cursor after all visits depends on its own visit only.
  lemma {:induction false} VisitAllAt(c: Cursors, startedAt: int, profiles: seq<Profile>, now: int, k: nat)
    requires DistinctIds(profiles) && k < |profiles|
    ensures var id := profiles[k].id;
            var after := VisitAll(c, startedAt, profiles, now);
            var own := Visit(c, startedAt, profiles[k], now);
            && (id in after.lastAttempted <==> id in own.lastAttempted)
            && (id in after.schedules <==> id in own.schedules)
            && (id in after.lastAttempted ==> after.lastAttempted[id] == own.lastAttempted[id])
            && (id in after.schedules ==> after.schedules[id] == own.schedules[id])
  {
    var init := profiles[..|profiles| - 1];
    if k < |init| {
      VisitAllAt(c, startedAt, init, now, k);
    } else {
      VisitAllElsewhere(c, startedAt, init, now, profiles[k].id);
    }
  }

  // Profiles not in the list keep their cursor.
  lemma {:induction false} VisitAllElsewhere(c: Cursors, startedAt: int, profiles: seq<Profile>, now: int, id: string)
    requires forall i | 0 <= i < |profiles| :: profiles[i].id != id
    ensures var after := VisitAll(c, startedAt, profiles, now);
            && (id in after.lastAttempted <==> id in c.lastAttempted)
            && (id in after.schedules <==> id in c.schedules)
            && (id in c.lastAttempted ==> after.lastAttempted[id] == c.lastAttempted[id])
            && (id in c.schedules ==> after.schedules[id] == c.schedules[id])
  {
    if profiles != [] {
      VisitAllElsewhere(c, startedAt, profiles[..|profiles| - 1], now, id);
    }
  }

  lemma EvaluatedKeys(c: Cursors, startedAt: int, tick: Tick)
    requires DistinctIds(tick.profiles) && SameKeys(c)
    ensures SameKeys(Evaluated(c, startedAt, tick))
    ensures Evaluated(c, startedAt, tick).schedules.Keys == ActiveIds(tick.profiles)
  {
    var pruned := Prune(c, Ids(tick.profiles));
    var after := Evaluated(c, startedAt, tick);
    forall id
      ensures id in after.lastAttempted <==> id in ActiveIds(tick.profiles)
      ensures id in after.schedules <==> id in ActiveIds(tick.profiles)
    {
      if k: int :| 0 <= k < |tick.profiles| && tick.profiles[k].id == id {
        VisitAllAt(pruned, startedAt, tick.profiles, tick.now, k);
      } else {
        VisitAllElsewhere(pruned, startedAt, tick.profiles, tick.now, id);
      }
    }
    assert after.lastAttempted.Keys == ActiveIds(tick.profiles);
    assert after.schedules.Keys == ActiveIds(tick.profiles);
  }

  // Exactly the due profiles are reported.
  lemma {:induction false} DueIdsExact(cron: Cron, c: Cursors, startedAt: int, profiles: seq<Profile>, now: int, id: string)
    requires DistinctIds(profiles)
    ensures id in DueIds(cron, c, startedAt, profiles, now) <==>
              exists k | 0 <= k < |profiles| :: profiles[k].id == id && Due(cron, c, startedAt, profiles[k], now)
  {
    if profiles != [] {
      var init, n := profiles[..|profiles| - 1], |profiles| - 1;
      DueIdsExact(cron, c, startedAt, init, now, id);
      VisitAllElsewhere(c, startedAt, init, now, profiles[n].id);
      assert Due(cron, VisitAll(c, startedAt, init, now), startedAt, profiles[n], now) <==>
             Due(cron, c, startedAt, profiles[n], now);
      if k: int :| 0 <= k < |profiles| && profiles[k].id == id && Due(cron, c, startedAt, profiles[k], now) {
        if k < n {
          assert init[k].id == id && Due(cron, c, startedAt, init[k], now);
        }
      }
      if k: int :| 0 <= k < |init| && init[k].id == id && Due(cron, c, startedAt, init[k], now) {
        assert profiles[k].id == id && Due(cron, c, startedAt, profiles[k], now);
      }
    }
  }

  lemma {:induction false} CommitAt(m: map<string, int>, due: seq<string>, accepted: set<string>, now: int, id: string)
    ensures var after := Commit(m, due, accepted, now);
            && (id in after <==> id in m || (id in due && id in accepted))
            && (id in after ==> after[id] == if id in due && id in accepted then now else m[id])
  {
    if due != [] {
      CommitAt(m, due[..|due| - 1], accepted, now, id);
    }
  }

  lemma PassKeys(cron: Cron, c: Cursors, startedAt: int, tick: Tick)
    requires DistinctIds(tick.profiles) && SameKeys(c)
    ensures SameKeys(Pass(cron, c, startedAt, tick))
    ensures Pass(cron, c, startedAt, tick).schedules.Keys == ActiveIds(tick.profiles)
  {
    EvaluatedKeys(c, startedAt, tick);
    var e := Evaluated(c, startedAt, tick);
    var due := DueAt(cron, c, startedAt, tick);
    var after := Pass(cron, c, startedAt, tick).lastAttempted;
    forall id ensures id in after <==> id in e.lastAttempted {
      CommitAt(e.lastAttempted, due, tick.accepted, tick.now, id);
      DueIdsExact(cron, Prune(c, Ids(tick.profiles)), startedAt, tick.profiles, tick.now, id);
      if id in due {
        var k :| 0 <= k < |tick.profiles| && tick.profiles[k].id == id &&
                 Due(cron, Prune(c, Ids(tick.profiles)), startedAt, tick.profiles[k], tick.now);
        assert id in ActiveIds(tick.profiles);
      }
    }
    assert after.Keys == e.lastAttempted.Keys;
  }

  lemma {:induction false} SeededKeys(c: Cursors, startedAt: int, profiles: seq<Profile>)
    requires SameKeys(c)
    ensures SameKeys(Seeded(c, startedAt, profiles))
  {
    if profiles != [] {
      SeededKeys(c, startedAt, profiles[..|profiles| - 1]);
    }
  }

  lemma {:induction false} RunKeys(r: Run, k: nat)
    requires IsRun(r) && k <= |r.ticks|
    ensures SameKeys(r.states[k])
  {
    if k == 0 {
      SeededKeys(Cursors(map[], map[]), r.startedAt, r.seed);
    } else {
      RunKeys(r, k - 1);
      PassKeys(r.cron, r.states[k - 1], r.startedAt, r.ticks[k - 1]);
    }
  }

  /** After every pass both maps have exactly the enabled profiles with a non-blank schedule
      as keys; so in no pass of any run is the fallback to the start time taken. */
  lemma KeysAreActiveProfiles(r: Run, k: nat)
    requires IsRun(r) && k < |r.ticks|
    ensures r.states[k + 1].lastAttempted.Keys == ActiveIds(r.ticks[k].profiles)
    ensures r.states[k + 1].schedules.Keys == ActiveIds(r.ticks[k].profiles)
    ensures forall n, id | 0 <= n < |r.ticks[k].profiles| && id == r.ticks[k].profiles[n].id &&
                           id in VisitAll(Prune(r.states[k], Ids(r.ticks[k].profiles)), r.startedAt,
                                          r.ticks[k].profiles[..n], r.ticks[k].now).schedules ::
              id in VisitAll(Prune(r.states[k], Ids(r.ticks[k].profiles)), r.startedAt,
                             r.ticks[k].profiles[..n], r.ticks[k].now).lastAttempted
  {
    RunKeys(r, k);
    var tick := r.ticks[k];
    PassKeys(r.cron, r.states[k], r.startedAt, tick);
    forall n, id | 0 <= n < |tick.profiles| && id == tick.profiles[n].id &&
                   id in VisitAll(Prune(r.states[k], Ids(tick.profiles)), r.startedAt, tick.profiles[..n], tick.now).schedules
      ensures id in VisitAll(Prune(r.states[k], Ids(tick.profiles)), r.startedAt, tick.profiles[..n], tick.now).lastAttempted
    {
      VisitAllElsewhere(Prune(r.states[k], Ids(tick.profiles)), r.startedAt, tick.profiles[..n], tick.now, id);
    }
  }

  // ------------------------------------------------------------------ one profile over a run

  // The tick lists the profile as active with this schedule.
  ghost predicate Lists(tick: Tick, id: string, expr: string) {
    exists k | 0 <= k < |tick.profiles| :: tick.profiles[k].id == id && ActiveSchedule(tick.profiles[k]) == Some(expr)
  }

  // The profile is under observation with this schedule.
  predicate Observed(c: Cursors, id: string, expr: string) {
    id in c.schedules && c.schedules[id] == expr && id in c.lastAttempted
  }

  // The window of instants a pass looks at for an observed profile.
  predicate InWindow(c: Cursors, tick: Tick, id: string, t: int)
    requires id in c.lastAttempted
  {
    c.lastAttempted[id] < t <= tick.now
  }

  ghost predicate HasOccurrence(cron: Cron, c: Cursors, tick: Tick, id: string, expr: string)
    requires id in c.lastAttempted
  {
    exists t :: InWindow(c, tick, id, t) && t <= cron.last && cron.occurs(expr, t)
  }

  ghost predicate Admitted(cron: Cron, c: Cursors, startedAt: int, tick: Tick, id: string) {
    id in DueAt(cron, c, startedAt, tick) && id in tick.accepted
  }

  /** What one pass does to an observed profile: it is due exactly when its window holds an
      occurrence; it stays observed; and its cursor moves, to the clock, only if admitted. */
  lemma PassOnObserved(cron: Cron, c: Cursors, startedAt: int, tick: Tick, id: string, expr: string)
    requires DistinctIds(tick.profiles) && Observed(c, id, expr) && Lists(tick, id, expr)
    ensures id in DueAt(cron, c, startedAt, tick) <==> HasOccurrence(cron, c, tick, id, expr)
    ensures var after := Pass(cron, c, startedAt, tick);
            && Observed(after, id, expr)
            && after.lastAttempted[id] ==
                 if Admitted(cron, c, startedAt, tick, id) then tick.now else c.lastAttempted[id]
  {
    var k :| 0 <= k < |tick.profiles| && tick.profiles[k].id == id && ActiveSchedule(tick.profiles[k]) == Some(expr);
    var pruned := Prune(c, Ids(tick.profiles));
    assert id in Ids(tick.profiles);
    VisitAllAt(pruned, startedAt, tick.profiles, tick.now, k);
    DueIdsExact(cron, pruned, startedAt, tick.profiles, tick.now, id);
    var e := Evaluated(c, startedAt, tick);
    CommitAt(e.lastAttempted, DueAt(cron, c, startedAt, tick), tick.accepted, tick.now, id);
    var fire := ShouldFire(cron, expr, c.lastAttempted[id], tick.now);
    assert Due(cron, pruned, startedAt, tick.profiles[k], tick.now) <==> fire.Some?;
    if fire.Some? {
      assert InWindow(c, tick, id, fire.value);
    }
    if HasOccurrence(cron, c, tick, id, expr) {
      var t :| InWindow(c, tick, id, t) && t <= cron.last && cron.occurs(expr, t);
      assert NextAfter(cron, expr, c.lastAttempted[id]).value <= t;
    }
  }

  // An instant of the crontab rule lies in the profile's window.
  ghost predicate PosixInstant(crate: P.Crate, c: Cursors, tick: Tick, id: string, expr: string)
    requires id in c.lastAttempted
  {
    exists t :: InWindow(c, tick, id, t) && t <= crate.last && P.Occurs(crate, expr, t)
  }

  /** An observed profile is reported as due exactly when its expression is in the crontab
      grammar and one of its instants lies after the cursor and not after the clock. */
  lemma DueIffPosixInstant(crate: P.Crate, c: Cursors, startedAt: int, tick: Tick, id: string, expr: string)
    requires DistinctIds(tick.profiles) && Observed(c, id, expr) && Lists(tick, id, expr)
    ensures id in DueAt(Posix(crate), c, startedAt, tick) <==> PosixInstant(crate, c, tick, id, expr)
  {
    PassOnObserved(Posix(crate), c, startedAt, tick, id, expr);
    if PosixInstant(crate, c, tick, id, expr) {
      var t :| InWindow(c, tick, id, t) && t <= crate.last && P.Occurs(crate, expr, t);
      assert Posix(crate).occurs(expr, t);
    }
    if HasOccurrence(Posix(crate), c, tick, id, expr) {
      var t :| InWindow(c, tick, id, t) && t <= crate.last && Posix(crate).occurs(expr, t);
      assert P.Occurs(crate, expr, t);
    }
  }

  // The profile keeps one schedule over passes i .. j - 1.
  ghost predicate Steady(r: Run, i: nat, j: nat, id: string, expr: string)
    requires IsRun(r) && i <= j <= |r.ticks|
  {
    && Observed(r.states[i], id, expr)
    && forall k | i <= k < j :: Lists(r.ticks[k], id, expr)
  }

  lemma {:induction false} SteadyCursor(r: Run, i: nat, j: nat, id: string, expr: string)
    requires IsRun(r) && i <= j <= |r.ticks| && Steady(r, i, j, id, expr)
    ensures Observed(r.states[j], id, expr)
    ensures r.states[i].lastAttempted[id] <= r.states[j].lastAttempted[id]
    ensures (forall k | i <= k < j :: !Admitted(r.cron, r.states[k], r.startedAt, r.ticks[k], id)) ==>
              r.states[j].lastAttempted[id] == r.states[i].lastAttempted[id]
    decreases j
  {
    if i < j {
      SteadyCursor(r, i, j - 1, id, expr);
      PassOnObserved(r.cron, r.states[j - 1], r.startedAt, r.ticks[j - 1], id, expr);
    }
  }

  /** Successive admissions of a profile whose schedule does not change consume disjoint
      windows, each holding an occurrence, and every instant of either window lies after
      the instant the schedule was first observed. */
  lemma AdmissionsConsumeDisjointWindows(r: Run, o: nat, i: nat, j: nat, id: string, expr: string)
    requires IsRun(r) && o <= i < j < |r.ticks| && Steady(r, o, j + 1, id, expr)
    requires Admitted(r.cron, r.states[i], r.startedAt, r.ticks[i], id)
    requires Admitted(r.cron, r.states[j], r.startedAt, r.ticks[j], id)
    ensures id in r.states[i].lastAttempted && id in r.states[j].lastAttempted
    ensures HasOccurrence(r.cron, r.states[i], r.ticks[i], id, expr)
    ensures HasOccurrence(r.cron, r.states[j], r.ticks[j], id, expr)
    ensures forall t :: !(InWindow(r.states[i], r.ticks[i], id, t) && InWindow(r.states[j], r.ticks[j], id, t))
    ensures forall t | InWindow(r.states[i], r.ticks[i], id, t) || InWindow(r.states[j], r.ticks[j], id, t) ::
              r.states[o].lastAttempted[id] < t
    ensures r.ticks[i].now < r.ticks[j].now
  {
    assert Steady(r, o, i, id, expr);
    SteadyCursor(r, o, i, id, expr);
    PassOnObserved(r.cron, r.states[i], r.startedAt, r.ticks[i], id, expr);
    assert Steady(r, i + 1, j, id, expr);
    SteadyCursor(r, i + 1, j, id, expr);
    PassOnObserved(r.cron, r.states[j], r.startedAt, r.ticks[j], id, expr);
    var t :| InWindow(r.states[j], r.ticks[j], id, t) && t <= r.cron.last && r.cron.occurs(expr, t);
  }

  /** Nothing at or before the instant of observation is ever consumed. */
  lemma NothingBeforeObservation(r: Run, o: nat, i: nat, id: string, expr: string)
    requires IsRun(r) && o <= i < |r.ticks| && Steady(r, o, i + 1, id, expr)
    requires Admitted(r.cron, r.states[i], r.startedAt, r.ticks[i], id)
    ensures id in r.states[i].lastAttempted && HasOccurrence(r.cron, r.states[i], r.ticks[i], id, expr)
    ensures forall t | InWindow(r.states[i], r.ticks[i], id, t) :: r.states[o].lastAttempted[id] < t
  {
    assert Steady(r, o, i, id, expr);
    SteadyCursor(r, o, i, id, expr);
    PassOnObserved(r.cron, r.states[i], r.startedAt, r.ticks[i], id, expr);
  }

  /** In particular, for every profile present when the engine starts: nothing at or before the
      start time is ever consumed while its schedule is unchanged. */
  lemma NothingBeforeStart(r: Run, n: nat, i: nat, id: string, expr: string)
    requires IsRun(r) && i < |r.ticks| && n < |r.seed| && r.seed[n].id == id && ActiveSchedule(r.seed[n]) == Some(expr)
    requires forall k | 0 <= k <= i :: Lists(r.ticks[k], id, expr)
    requires Admitted(r.cron, r.states[i], r.startedAt, r.ticks[i], id)
    ensures id in r.states[i].lastAttempted && HasOccurrence(r.cron, r.states[i], r.ticks[i], id, expr)
    ensures forall t | InWindow(r.states[i], r.ticks[i], id, t) :: r.startedAt < t
  {
    SeededAt(Cursors(map[], map[]), r.startedAt, r.seed, n);
    assert Steady(r, 0, i + 1, id, expr);
    NothingBeforeObservation(r, 0, i, id, expr);
  }

  /** An occurrence that was due and refused stays due: at every later pass, with no
      admission in between, the profile is due whenever the clock has reached the
      occurrence. */
  lemma RefusedStaysDue(r: Run, i: nat, j: nat, id: string, expr: string, t: int)
    requires IsRun(r) && i <= j < |r.ticks| && Steady(r, i, j + 1, id, expr)
    requires forall k | i <= k < j :: !Admitted(r.cron, r.states[k], r.startedAt, r.ticks[k], id)
    requires id in r.states[i].lastAttempted && InWindow(r.states[i], r.ticks[i], id, t)
    requires t <= r.cron.last && r.cron.occurs(expr, t)
    requires t <= r.ticks[j].now
    ensures id in DueAt(r.cron, r.states[j], r.startedAt, r.ticks[j])
  {
    assert Steady(r, i, j, id, expr);
    SteadyCursor(r, i, j, id, expr);
    assert InWindow(r.states[j], r.ticks[j], id, t);
    PassOnObserved(r.cron, r.states[j], r.startedAt, r.ticks[j], id, expr);
  }

  lemma NewIsNotDue(r: Run, k: nat, id: string, n: nat)
    requires IsRun(r) && k < |r.ticks| && n < |r.ticks[k].profiles| && r.ticks[k].profiles[n].id == id
    requires ActiveSchedule(r.ticks[k].profiles[n]).Some?
    requires id !in r.states[k].schedules || r.states[k].schedules[id] != ActiveSchedule(r.ticks[k].profiles[n]).value
    ensures id !in DueAt(r.cron, r.states[k], r.startedAt, r.ticks[k])
  {
    var c, tick := r.states[k], r.ticks[k];
    var pruned := Prune(c, Ids(tick.profiles));
    DueIdsExact(r.cron, pruned, r.startedAt, tick.profiles, tick.now, id);
    assert !Due(r.cron, pruned, r.startedAt, tick.profiles[n], tick.now);
  }

  /** A profile that is new, re-enabled or rescheduled is observed from that pass on, with
      the pass's clock as its cursor, and is not due in that pass. */
  lemma ObservationStartsNow(r: Run, k: nat, id: string, expr: string)
    requires IsRun(r) && k < |r.ticks| && Lists(r.ticks[k], id, expr)
    requires id !in r.states[k].schedules || r.states[k].schedules[id] != expr
    ensures Observed(r.states[k + 1], id, expr) && r.states[k + 1].lastAttempted[id] == r.ticks[k].now
    ensures id !in DueAt(r.cron, r.states[k], r.startedAt, r.ticks[k])
  {
    var c, tick := r.states[k], r.ticks[k];
    var n :| 0 <= n < |tick.profiles| && tick.profiles[n].id == id && ActiveSchedule(tick.profiles[n]) == Some(expr);
    var pruned := Prune(c, Ids(tick.profiles));
    VisitAllAt(pruned, r.startedAt, tick.profiles, tick.now, n);
    NewIsNotDue(r, k, id, n);
    CommitAt(Evaluated(c, r.startedAt, tick).lastAttempted, DueAt(r.cron, c, r.startedAt, tick), tick.accepted, tick.now, id);
  }
}
