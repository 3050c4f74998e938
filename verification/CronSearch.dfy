/**
 The search for the next occurrence (services/api/src/schedules/cron.ts, `nextCronOccurrence`).

 Timestamps are integers: milliseconds since 1970. The local-time function is a parameter in the
 first part, which holds for every time zone; the second part fixes it to UTC and decides, over
 the whole Gregorian calendar, when the five-year window holds an occurrence.
 */
module CronSearch {
  import opened Wrappers
  import opened Calendar
  import opened CronText
  import opened CronFields

  /** The parts the formatter shows; `weekday` is None when its name is not one of the seven. */
  datatype LocalTime = LocalTime(month: int, day: int, hour: int, minute: int, weekday: Option<int>)

  type Zone = int -> LocalTime

  const WINDOW_MS := 5 * 366 * 24 * 60 * 60_000

  predicate DayMatches(c: Cron, t: LocalTime) {
    var dayOfMonthMatches := t.day in c.dayOfMonth.values;
    var dayOfWeekMatches := t.weekday.Some? && t.weekday.value in c.dayOfWeek.values;
    if c.dayOfMonth.wildcard then dayOfWeekMatches
    else if c.dayOfWeek.wildcard then dayOfMonthMatches
    else dayOfMonthMatches || dayOfWeekMatches
  }

  predicate Matches(c: Cron, t: LocalTime) {
    t.minute in c.minute.values && t.hour in c.hour.values && t.month in c.month.values && DayMatches(c, t)
  }

  function FirstCandidate(after: int): (start: int)
    ensures start % 60_000 == 0 && after < start <= after + 60_000
  {
    after / 60_000 * 60_000 + 60_000
  }

  /** A whole minute strictly after `after`, inside the window, at which the expression fires. */
  predicate Occurs(c: Cron, zone: Zone, after: int, t: int) {
    t % 60_000 == 0 && after < t <= FirstCandidate(after) + WINDOW_MS && Matches(c, zone(t))
  }

  ghost predicate IsNext(c: Cron, zone: Zone, after: int, t: int) {
    Occurs(c, zone, after, t) && forall u :: Occurs(c, zone, after, u) ==> t <= u
  }

  /** The answer of a search: the least occurrence, or the error exactly when the window holds none. */
  ghost predicate Answers(c: Cron, zone: Zone, after: int, r: Result<int, CronError>) {
    match r
    case Ok(t) => IsNext(c, zone, after, t)
    case Err(e) => e == NoOccurrence && forall t :: !Occurs(c, zone, after, t)
  }

  /** A whole minute after `after`, no later than five years of 366 days after the next whole minute. */
  predicate InWindow(after: int, t: int) {
    t % 60_000 == 0 && after < t <= after - after % 60_000 + 60_000 + 5 * 366 * 86_400_000
  }

  /** The least minute in the window at which `hit` holds, or the error if there is none. */
  ghost predicate FirstSuch(hit: int -> bool, after: int, r: Result<int, CronError>) {
    match r
    case Ok(t) => InWindow(after, t) && hit(t) && forall u :: InWindow(after, u) && hit(u) ==> t <= u
    case Err(e) => e == NoOccurrence && forall u :: InWindow(after, u) ==> !hit(u)
  }

  predicate AtTimeAndMonth(c: Cron, t: LocalTime) {
    t.minute in c.minute.values && t.hour in c.hour.values && t.month in c.month.values
  }

  predicate OnWeekday(c: Cron, t: LocalTime) {
    t.weekday.Some? && t.weekday.value in c.dayOfWeek.values
  }

  /** The day rule on the answer: a wildcard day of the month leaves the choice to the weekday, a wildcard weekday
      to the day of the month, and if both are restricted either will do. */
  ghost predicate FirstByDayRule(c: Cron, zone: Zone, after: int, r: Result<int, CronError>) {
    && (c.dayOfMonth.wildcard ==> FirstSuch(t => AtTimeAndMonth(c, zone(t)) && OnWeekday(c, zone(t)), after, r))
    && (!c.dayOfMonth.wildcard && c.dayOfWeek.wildcard ==>
          FirstSuch(t => AtTimeAndMonth(c, zone(t)) && zone(t).day in c.dayOfMonth.values, after, r))
    && (!c.dayOfMonth.wildcard && !c.dayOfWeek.wildcard ==>
          FirstSuch(t => AtTimeAndMonth(c, zone(t)) && (zone(t).day in c.dayOfMonth.values || OnWeekday(c, zone(t))), after, r))
  }

  lemma OccursInWindow(c: Cron, zone: Zone, after: int, t: int)
    ensures Occurs(c, zone, after, t) <==> InWindow(after, t) && Matches(c, zone(t))
  {
    assert after / 60_000 * 60_000 == after - after % 60_000;
  }

  lemma FirstOf(c: Cron, zone: Zone, after: int, hit: int -> bool, r: Result<int, CronError>)
    requires Answers(c, zone, after, r) && forall t :: hit(t) <==> Matches(c, zone(t))
    ensures FirstSuch(hit, after, r)
  {
    forall t
      ensures Occurs(c, zone, after, t) <==> InWindow(after, t) && hit(t)
    {
      OccursInWindow(c, zone, after, t);
    }
  }

  lemma AnswersByDayRule(c: Cron, zone: Zone, after: int, r: Result<int, CronError>)
    requires Answers(c, zone, after, r)
    ensures FirstByDayRule(c, zone, after, r)
  {
    if c.dayOfMonth.wildcard {
      FirstOf(c, zone, after, t => AtTimeAndMonth(c, zone(t)) && OnWeekday(c, zone(t)), r);
    } else if c.dayOfWeek.wildcard {
      FirstOf(c, zone, after, t => AtTimeAndMonth(c, zone(t)) && zone(t).day in c.dayOfMonth.values, r);
    } else {
      FirstOf(c, zone, after, t => AtTimeAndMonth(c, zone(t)) && (zone(t).day in c.dayOfMonth.values || OnWeekday(c, zone(t))), r);
    }
  }

  /** The search. */
  method NextOccurrence(c: Cron, zone: Zone, after: int) returns (r: Result<int, CronError>)
    ensures Answers(c, zone, after, r)
    ensures FirstByDayRule(c, zone, after, r)
  {
    r := Search(c, zone, after);
    AnswersByDayRule(c, zone, after, r);
  }

  method Search(c: Cron, zone: Zone, after: int) returns (r: Result<int, CronError>)
    ensures Answers(c, zone, after, r)
  {
    var start := FirstCandidate(after);
    var limit := start + WINDOW_MS;
    var timestamp := start;
    while timestamp <= limit
      invariant timestamp % 60_000 == 0 && timestamp >= start
      invariant forall t :: t < timestamp ==> !Occurs(c, zone, after, t)
      decreases limit - timestamp
    {
      if Matches(c, zone(timestamp)) {
        return Ok(timestamp);
      }
      forall t | timestamp <= t < timestamp + 60_000
        ensures !Occurs(c, zone, after, t)
      {
        assert t % 60_000 == 0 ==> t == timestamp;
      }
      timestamp := timestamp + 60_000;
    }
    r := Err(NoOccurrence);
  }

  // ---------- both day fields restricted ----------

  function Earlier(a: Result<int, CronError>, b: Result<int, CronError>): Result<int, CronError> {
    if a.Err? then b else if b.Err? then a else Ok(Min(a.value, b.value))
  }

  /** With both day fields restricted an expression fires exactly when it fires with the weekday left open or
      with the day of the month left open, whichever wildcards leave them open. */
  lemma FiresByEither(c: Cron, anyDay: Field, anyWeekday: Field, zone: Zone, t: int)
    requires !c.dayOfMonth.wildcard && !c.dayOfWeek.wildcard && anyDay.wildcard && anyWeekday.wildcard
    ensures Fires(c, zone, t) <==> Fires(c.(dayOfWeek := anyWeekday), zone, t) || Fires(c.(dayOfMonth := anyDay), zone, t)
  {
  }

  /** So its next occurrence is the earlier of the two searches' answers, and there is none exactly if both
      find none. */
  lemma EarlierOfBoth(c: Cron, anyDay: Field, anyWeekday: Field, zone: Zone, after: int,
                      r: Result<int, CronError>, byDate: Result<int, CronError>, byWeekday: Result<int, CronError>)
    requires !c.dayOfMonth.wildcard && !c.dayOfWeek.wildcard && anyDay.wildcard && anyWeekday.wildcard
    requires Answers(c, zone, after, r)
    requires Answers(c.(dayOfWeek := anyWeekday), zone, after, byDate)
    requires Answers(c.(dayOfMonth := anyDay), zone, after, byWeekday)
    ensures r == Earlier(byDate, byWeekday)
    ensures r == Err(NoOccurrence) <==> byDate == Err(NoOccurrence) && byWeekday == Err(NoOccurrence)
  {
    forall t
      ensures Occurs(c, zone, after, t) <==>
        Occurs(c.(dayOfWeek := anyWeekday), zone, after, t) || Occurs(c.(dayOfMonth := anyDay), zone, after, t)
    {
      FiresByEither(c, anyDay, anyWeekday, zone, t);
    }
  }

  // ---------- enumeration ----------

  /** Each result is the next occurrence after the one before it. */
  ghost predicate IsChain(c: Cron, zone: Zone, after: int, results: seq<int>) {
    forall i :: 0 <= i < |results| ==> IsLink(c, zone, after, results, i)
  }

  ghost predicate IsLink(c: Cron, zone: Zone, after: int, results: seq<int>, i: nat)
    requires i < |results|
  {
    IsNext(c, zone, Before(after, results, i), results[i])
  }

  function Before(after: int, results: seq<int>, i: nat): int
    requires i < |results|
  {
    if i == 0 then after else results[i - 1]
  }

  /** The minutes at which the expression fires, whatever the window. */
  predicate Fires(c: Cron, zone: Zone, t: int) {
    t % 60_000 == 0 && Matches(c, zone(t))
  }

  /** `t` is the first time after `previous` at which `hit` holds. */
  ghost predicate FirstHit(hit: int -> bool, previous: int, t: int) {
    previous < t && hit(t) && forall u :: previous < u < t ==> !hit(u)
  }

  ghost predicate HitChain(hit: int -> bool, after: int, results: seq<int>) {
    forall i :: 0 <= i < |results| ==> HitLink(hit, after, results, i)
  }

  ghost predicate HitLink(hit: int -> bool, after: int, results: seq<int>, i: nat)
    requires i < |results|
  {
    FirstHit(hit, Before(after, results, i), results[i])
  }

  lemma {:induction false} HitsAscend(hit: int -> bool, after: int, results: seq<int>, i: nat, j: nat)
    requires HitChain(hit, after, results) && i < j < |results|
    ensures results[i] < results[j]
    decreases j
  {
    assert HitLink(hit, after, results, j);
    if i + 1 < j {
      HitsAscend(hit, after, results, i, j - 1);
    }
  }

  lemma {:induction false} HitsMissNothing(hit: int -> bool, after: int, results: seq<int>, i: nat, t: int)
    requires HitChain(hit, after, results) && i < |results|
    requires hit(t) && after < t <= results[i]
    ensures t in results
  {
    var previous := Before(after, results, i);
    assert HitLink(hit, after, results, i);
    if t <= previous {
      HitsMissNothing(hit, after, results, i - 1, t);
    }
  }

  lemma HitsFollow(hit: int -> bool, after: int, results: seq<int>, i: nat)
    requires HitChain(hit, after, results) && i < |results|
    ensures after < results[i] <= results[|results| - 1] && hit(results[i])
  {
    assert HitLink(hit, after, results, i);
    assert HitLink(hit, after, results, 0);
    if i > 0 { HitsAscend(hit, after, results, 0, i); }
    if i < |results| - 1 { HitsAscend(hit, after, results, i, |results| - 1); }
  }

  lemma NextIsFirstHit(c: Cron, zone: Zone, previous: int, t: int)
    requires IsNext(c, zone, previous, t)
    ensures FirstHit(u => Fires(c, zone, u), previous, t)
  {
    forall u | previous < u < t
      ensures !Fires(c, zone, u)
    {
      assert !Occurs(c, zone, previous, u);
    }
  }

  /** Feeding each result back lists every firing minute up to the last result once, in order. */
  lemma ChainEnumerates(c: Cron, zone: Zone, after: int, results: seq<int>)
    requires IsChain(c, zone, after, results) && results != []
    ensures forall i, j :: 0 <= i < j < |results| ==> results[i] < results[j]
    ensures forall t :: t in results <==> Fires(c, zone, t) && after < t <= results[|results| - 1]
  {
    var hit := u => Fires(c, zone, u);
    forall i | 0 <= i < |results|
      ensures HitLink(hit, after, results, i)
    {
      assert IsLink(c, zone, after, results, i);
      NextIsFirstHit(c, zone, Before(after, results, i), results[i]);
    }
    forall i, j | 0 <= i < j < |results|
      ensures results[i] < results[j]
    {
      HitsAscend(hit, after, results, i, j);
    }
    forall t
      ensures t in results <==> hit(t) && after < t <= results[|results| - 1]
    {
      if hit(t) && after < t <= results[|results| - 1] {
        HitsMissNothing(hit, after, results, |results| - 1, t);
      }
      if t in results {
        var i :| 0 <= i < |results| && results[i] == t;
        HitsFollow(hit, after, results, i);
      }
    }
    assert forall t :: hit(t) == Fires(c, zone, t);
  }

  // ---------- UTC ----------

  function UtcDay(t: int): int { t / 86_400_000 }

  function Utc(t: int): LocalTime {
    var d := DateOf(UtcDay(t));
    LocalTime(d.month, d.day, t % 86_400_000 / 3_600_000, t % 3_600_000 / 60_000, Some(Weekday(UtcDay(t))))
  }

  /** The timestamp of a clock time on a date. */
  function TimestampOf(d: Date, hour: int, minute: int): int
    requires IsDate(d)
  {
    MinuteOf(d, hour, minute) * 60_000
  }

  /** The formatter shows the date and time that a timestamp was made from. */
  lemma UtcOfTimestamp(d: Date, hour: int, minute: int)
    requires IsDate(d) && 0 <= hour < 24 && 0 <= minute < 60
    ensures var t := TimestampOf(d, hour, minute);
      t % 60_000 == 0 && UtcDay(t) == DayNumber(d) &&
      Utc(t) == LocalTime(d.month, d.day, hour, minute, Some(Weekday(DayNumber(d))))
  {
    var t := TimestampOf(d, hour, minute);
    var n := DayNumber(d);
    Clock(t, n, hour, minute);
    DateOfDayNumber(d);
  }

  lemma Clock(t: int, n: int, hour: int, minute: int)
    requires 0 <= hour < 24 && 0 <= minute < 60 && t == (n * 1440 + hour * 60 + minute) * 60_000
    ensures t % 60_000 == 0 && t / 86_400_000 == n
    ensures t % 86_400_000 / 3_600_000 == hour && t % 3_600_000 / 60_000 == minute
  {
    var ms := (hour * 60 + minute) * 60_000;
    assert t == 86_400_000 * n + ms;
    assert t % 86_400_000 == ms;
    assert t == 3_600_000 * (24 * n + hour) + minute * 60_000;
    assert t % 3_600_000 == minute * 60_000;
  }

  /** Conversely, every whole minute is the timestamp of its own date and time. */
  lemma TimestampOfUtc(t: int)
    requires t % 60_000 == 0
    ensures 0 <= Utc(t).hour < 24 && 0 <= Utc(t).minute < 60
    ensures t == TimestampOf(DateOf(UtcDay(t)), Utc(t).hour, Utc(t).minute)
  {
    DayNumberOfDateOf(UtcDay(t));
    ClockBack(t);
  }

  lemma ClockBack(t: int)
    requires t % 60_000 == 0
    ensures var hour, minute := t % 86_400_000 / 3_600_000, t % 3_600_000 / 60_000;
      0 <= hour < 24 && 0 <= minute < 60 && t == (t / 86_400_000 * 1440 + hour * 60 + minute) * 60_000
  {
    var n, ms := t / 86_400_000, t % 86_400_000;
    var hour, rest := ms / 3_600_000, ms % 3_600_000;
    assert t % 3_600_000 == rest by { assert t == 3_600_000 * (24 * n + hour) + rest; }
    var minute := rest / 60_000;
    assert rest == 60_000 * minute + rest % 60_000;
    assert t == 60_000 * (1440 * n + 60 * hour + minute) + rest % 60_000;
  }

  // ---------- when the window holds an occurrence ----------

  /** The weekday field decides nothing and the day of the month decides alone. */
  predicate DayOfMonthDecides(c: Cron) {
    !c.dayOfMonth.wildcard && c.dayOfWeek.wildcard
  }

  /** Some selected day exists in some selected month of every year. */
  ghost predicate HasYearlyDate(c: Cron)
    requires InRange(c)
  {
    exists m, d :: m in c.month.values && d in c.dayOfMonth.values && d <= CommonLength(m)
  }

  predicate SelectsLeapDay(c: Cron) {
    2 in c.month.values && 29 in c.dayOfMonth.values
  }

  /** A 29 February, at a selected time of day, lies in the window. */
  ghost predicate LeapDayInWindow(c: Cron, after: int) {
    exists y, h, m {:trigger TimestampOf(Date(y, 2, 29), h, m)} ::
      IsLeap(y) && h in c.hour.values && m in c.minute.values &&
      after < TimestampOf(Date(y, 2, 29), h, m) <= FirstCandidate(after) + WINDOW_MS
  }

  lemma Pick(f: Field, lo: int, hi: int) returns (v: int)
    requires FieldInRange(f, lo, hi)
    ensures v in f.values && lo <= v <= hi
  {
    v :| v in f.values;
  }

  /** A time of day the expression selects. */
  lemma SelectedTime(c: Cron) returns (hour: int, minute: int)
    requires InRange(c)
    ensures hour in c.hour.values && minute in c.minute.values && 0 <= hour < 24 && 0 <= minute < 60
  {
    hour := Pick(c.hour, 0, 23);
    minute := Pick(c.minute, 0, 59);
  }

  lemma YearlyDateOccurs(c: Cron, after: int, month: int, day: int) returns (t: int)
    requires InRange(c) && DayOfMonthDecides(c)
    requires month in c.month.values && day in c.dayOfMonth.values && day <= CommonLength(month)
    ensures Occurs(c, Utc, after, t)
  {
    var hour, minute := SelectedTime(c);
    var start := FirstCandidate(after) / 60_000;
    var year := YearlyRecurrence(month, day, hour, minute, start);
    var d := Date(year, month, day);
    UtcOfTimestamp(d, hour, minute);
    t := TimestampOf(d, hour, minute);
  }

  /** Any weekday falls within the first seven days of any month. */
  lemma WeekdayOccurs(c: Cron, after: int) returns (t: int)
    requires InRange(c) && !DayOfMonthDecides(c)
    ensures Occurs(c, Utc, after, t)
  {
    var hour, minute := SelectedTime(c);
    var month := Pick(c.month, 1, 12);
    var weekday := Pick(c.dayOfWeek, 0, 6);
    var start := FirstCandidate(after) / 60_000;
    var year := YearlyRecurrence(month, 1, hour, minute, start);
    var d := FirstWeekday(year, month, weekday);
    UtcOfTimestamp(d, hour, minute);
    t := TimestampOf(d, hour, minute);
  }

  lemma FirstWeekday(year: int, month: int, weekday: int) returns (d: Date)
    requires 1 <= month <= 12 && 0 <= weekday <= 6
    ensures IsDate(d) && d.month == month && Weekday(DayNumber(d)) == weekday
    ensures DayNumber(Date(year, month, 1)) <= DayNumber(d) <= DayNumber(Date(year, month, 1)) + 6
  {
    var n := DayNumber(Date(year, month, 1));
    var offset := (weekday - Weekday(n)) % 7;
    d := Date(year, month, 1 + offset);
    assert DayNumber(d) == n + offset;
    WeekdayAdds(n, weekday);
  }

  lemma WeekdayAdds(n: int, weekday: int)
    requires 0 <= weekday <= 6
    ensures Weekday(n + (weekday - Weekday(n)) % 7) == weekday
  {
  }

  lemma LeapDayOccurs(c: Cron, after: int) returns (t: int)
    requires InRange(c) && DayOfMonthDecides(c) && SelectsLeapDay(c) && LeapDayInWindow(c, after)
    ensures Occurs(c, Utc, after, t)
  {
    var y, h, m :|
      IsLeap(y) && h in c.hour.values && m in c.minute.values &&
      after < TimestampOf(Date(y, 2, 29), h, m) <= FirstCandidate(after) + WINDOW_MS;
    UtcOfTimestamp(Date(y, 2, 29), h, m);
    t := TimestampOf(Date(y, 2, 29), h, m);
  }

  lemma OccurrenceExplained(c: Cron, after: int, t: int)
    requires InRange(c) && DayOfMonthDecides(c) && Occurs(c, Utc, after, t)
    ensures HasYearlyDate(c) || (SelectsLeapDay(c) && LeapDayInWindow(c, after))
  {
    var d := DateOf(UtcDay(t));
    assert d.month in c.month.values && d.day in c.dayOfMonth.values;
    if d.day > CommonLength(d.month) {
      assert d == Date(d.year, 2, 29);
      TimestampOfUtc(t);
      assert after < TimestampOf(Date(d.year, 2, 29), Utc(t).hour, Utc(t).minute) <= FirstCandidate(after) + WINDOW_MS;
    }
  }

  /** In UTC the search of an accepted expression succeeds, from any instant, exactly unless the day of
      the month decides alone and no selected day exists in a selected month, other than a 29 February
      that the window does not hold. */
  lemma SearchSucceedsExactly(c: Cron, after: int)
    requires InRange(c)
    ensures (exists t :: Occurs(c, Utc, after, t)) <==>
      !DayOfMonthDecides(c) || HasYearlyDate(c) || (SelectsLeapDay(c) && LeapDayInWindow(c, after))
  {
    if !DayOfMonthDecides(c) {
      var t := WeekdayOccurs(c, after);
    } else {
      if HasYearlyDate(c) {
        var m, d :| m in c.month.values && d in c.dayOfMonth.values && d <= CommonLength(m);
        var t := YearlyDateOccurs(c, after, m, d);
      }
      if SelectsLeapDay(c) && LeapDayInWindow(c, after) {
        var t := LeapDayOccurs(c, after);
      }
      forall t | Occurs(c, Utc, after, t)
        ensures HasYearlyDate(c) || (SelectsLeapDay(c) && LeapDayInWindow(c, after))
      {
        OccurrenceExplained(c, after, t);
      }
    }
  }

  // ---------- leap days in the window ----------

  /** No century year that skips its leap day comes within four years of `year`. */
  predicate LeapYearsRegular(year: int) {
    forall y :: year <= y <= year + 4 && y % 4 == 0 ==> IsLeap(y)
  }

  lemma YearsAtMost(y: int)
    ensures YearStart(y + 1) <= YearStart(y) + 366
    ensures YearStart(y + 2) <= YearStart(y) + 732
    ensures YearStart(y + 3) <= YearStart(y) + 1098
    ensures YearStart(y + 4) <= YearStart(y) + 1464
  {
    YearStep(y);
    YearStep(y + 1);
    YearStep(y + 2);
    YearStep(y + 3);
  }

  lemma RoundUp(y: int) returns (r: int)
    ensures y <= r <= y + 3 && r % 4 == 0 && (r == y ==> (y + 4) % 4 == 0)
  {
    r := y + (-y) % 4;
  }

  lemma FirstLeapYear(y: int) returns (leap: int)
    requires LeapYearsRegular(y)
    ensures IsLeap(leap) && (leap == y ==> IsLeap(y + 4))
    ensures leap == y || YearStart(y) + YearLength(y) <= YearStart(leap) <= YearStart(y) + 1098
    ensures YearStart(y) + 365 <= YearStart(y + 4) <= YearStart(y) + 1464
  {
    YearsAtMost(y);
    YearsApart(y, y + 4);
    leap := RoundUp(y);
    if leap != y {
      YearsApart(y, leap);
    }
  }

  /** The first 29 February at or after `start`, at a given time of day, is at most 1,523 days away. */
  lemma NextLeapDay(start: int, hour: int, minute: int) returns (year: int)
    requires 0 <= hour < 24 && 0 <= minute < 60 && LeapYearsRegular(DateOf(UtcDay(start)).year)
    ensures IsLeap(year) && start <= TimestampOf(Date(year, 2, 29), hour, minute) < start + 1525 * 86_400_000
  {
    var today := UtcDay(start);
    var y := DateOf(today).year;
    YearOfDay(today);
    assert today * 86_400_000 <= start < today * 86_400_000 + 86_400_000;
    year := FirstLeapYear(y);
    LeapDayNumber(year, hour, minute);
    if year == y && TimestampOf(Date(y, 2, 29), hour, minute) < start {
      year := y + 4;
      LeapDayNumber(year, hour, minute);
    }
  }

  lemma LeapDayNumber(year: int, hour: int, minute: int)
    ensures IsLeap(year) ==>
      TimestampOf(Date(year, 2, 29), hour, minute) == (YearStart(year) + 59) * 86_400_000 + (hour * 60 + minute) * 60_000
  {
  }

  /** Away from such a century, a schedule for 29 February is always found. */
  lemma LeapDayReached(c: Cron, after: int)
    requires InRange(c) && LeapYearsRegular(DateOf(UtcDay(FirstCandidate(after))).year)
    ensures LeapDayInWindow(c, after)
  {
    var hour, minute := SelectedTime(c);
    var year := NextLeapDay(FirstCandidate(after), hour, minute);
  }

  lemma LeapDayOutside(y: int, h: int, m: int)
    requires IsLeap(y) && 0 <= h < 24 && 0 <= m < 60
    ensures var after := TimestampOf(Date(2096, 3, 1), 0, 0);
      !(after < TimestampOf(Date(y, 2, 29), h, m) <= FirstCandidate(after) + WINDOW_MS)
  {
    LeapDayNumber(y, h, m);
    assert TimestampOf(Date(2096, 3, 1), 0, 0) == (YearStart(2096) + 60) * 86_400_000;
    if y < 2096 {
      YearsApart(y, 2096);
    } else if y > 2096 {
      assert y >= 2104;
      if y > 2104 { YearsApart(2104, y); }
      assert YearStart(2104) == YearStart(2096) + 2921;
    }
  }

  /** Across one, it need not be: from 1 March 2096 the next 29 February is eight years away. */
  lemma LeapDayMissedAcross2100(c: Cron)
    requires InRange(c) && DayOfMonthDecides(c) && c.dayOfMonth.values == {29} && c.month.values == {2}
    ensures forall t :: !Occurs(c, Utc, TimestampOf(Date(2096, 3, 1), 0, 0), t)
  {
    var after := TimestampOf(Date(2096, 3, 1), 0, 0);
    forall y, h, m | IsLeap(y) && h in c.hour.values && m in c.minute.values
      ensures !(after < TimestampOf(Date(y, 2, 29), h, m) <= FirstCandidate(after) + WINDOW_MS)
    {
      LeapDayOutside(y, h, m);
    }
    SearchSucceedsExactly(c, after);
  }

  // ---------- the exported operation ----------

  /** `nextCronOccurrence`: the least occurrence of the expression's own words, or the error it throws; `zone`
      is None for a name that is no time zone. */
  method NextCronOccurrence(expression: string, num: Numeric, zone: Option<Zone>, after: int) returns (r: Result<int, CronError>)
    ensures |Words(expression)| != 5 ==> r == Err(NotFiveFields)
    ensures |Words(expression)| == 5 ==>
      match CronOf(LowerAll(Words(expression)), num)
      case Err(e) => r == Err(e)
      case Ok(c) =>
        && InRange(c)
        && (zone.None? ==> r == Err(UnknownZone))
        && (zone.Some? ==> Answers(c, zone.value, after, r) && FirstByDayRule(c, zone.value, after, r))
  {
    var normalized := Normalize(expression, num);
    if normalized.Err? {
      return Err(normalized.error);
    }
    NormalTextWords(expression);
    var parsed := ParseCron(normalized.value, num);
    AcceptedInRange(LowerAll(Words(expression)), num);
    if zone.None? {
      return Err(UnknownZone);
    }
    r := NextOccurrence(parsed.value, zone.value, after);
  }
}
