/** When a scheduled copy runs next (schedule.py), on the proleptic Gregorian calendar, in UTC. */
module Schedule {
  import opened Options

  // ---------------------------------------------------------------- calendar

  predicate Leap(year: int) {
    year % 4 == 0 && (year % 100 != 0 || year % 400 == 0)
  }

  function DaysInMonth(year: int, month: int): int {
    if month == 2 then (if Leap(year) then 29 else 28)
    else if month == 4 || month == 6 || month == 9 || month == 11 then 30
    else 31
  }

  datatype Date = Date(year: int, month: int, day: int) {
    predicate Valid() {
      1 <= year && 1 <= month <= 12 && 1 <= day <= DaysInMonth(year, month)
    }

    /** date.toordinal: the days up to this one, 1 for 1 January of year 1. */
    function Ordinal(): int {
      DaysBeforeYear(year) + DaysBeforeMonth(year, month) + day
    }

    /** 0 for Monday */
    function Weekday(): int {
      (Ordinal() + 6) % 7
    }

    function Next(): Date {
      if day < DaysInMonth(year, month) then Date(year, month, day + 1)
      else if month < 12 then Date(year, month + 1, 1)
      else Date(year + 1, 1, 1)
    }

    /** date + timedelta(days=n) */
    function Plus(n: nat): Date
      decreases n
    {
      if n == 0 then this else Next().Plus(n - 1)
    }

    predicate Before(that: Date) {
      year < that.year || (year == that.year && (month < that.month || (month == that.month && day < that.day)))
    }
  }

  function DaysBeforeYear(year: int): int {
    var y := year - 1;
    y * 365 + y / 4 - y / 100 + y / 400
  }

  function DaysBeforeMonth(year: int, month: int): int {
    if month <= 1 then 0 else DaysBeforeMonth(year, month - 1) + DaysInMonth(year, month - 1)
  }

  lemma YearLength(year: int)
    requires year >= 1
    ensures DaysBeforeYear(year + 1) == DaysBeforeYear(year) + 365 + (if Leap(year) then 1 else 0)
  {
    var y := year - 1;
    assert year / 4 == y / 4 + if year % 4 == 0 then 1 else 0;
    assert year / 100 == y / 100 + if year % 100 == 0 then 1 else 0;
    assert year / 400 == y / 400 + if year % 400 == 0 then 1 else 0;
  }

  lemma MonthsOfYear(year: int)
    ensures DaysBeforeMonth(year, 12) + 31 == 365 + (if Leap(year) then 1 else 0)
  {
    var february := DaysInMonth(year, 2);
    assert DaysBeforeMonth(year, 2) == 31;
    assert DaysBeforeMonth(year, 4) == DaysBeforeMonth(year, 3) + 31 == 62 + february;
    assert DaysBeforeMonth(year, 6) == DaysBeforeMonth(year, 5) + 31 == 123 + february;
    assert DaysBeforeMonth(year, 8) == DaysBeforeMonth(year, 7) + 31 == 184 + february;
    assert DaysBeforeMonth(year, 10) == DaysBeforeMonth(year, 9) + 30 == 245 + february;
    assert DaysBeforeMonth(year, 12) == DaysBeforeMonth(year, 11) + 30 == 306 + february;
  }

  lemma NextIsNext(d: Date)
    requires d.Valid()
    ensures d.Next().Valid() && d.Next().Ordinal() == d.Ordinal() + 1
  {
    if d.day == DaysInMonth(d.year, d.month) && d.month == 12 {
      MonthsOfYear(d.year);
      YearLength(d.year);
    }
    hide DaysBeforeYear;
  }

  /** The calendar is fixed by a known day, a Thursday, and by every day's next one. */
  lemma KnownDay()
    ensures Date(2026, 1, 1).Valid() && Date(2026, 1, 1).Ordinal() == 739617 && Date(2026, 1, 1).Weekday() == 3
  {
  }

  lemma NextMeans(d: Date)
    requires d.Valid()
    ensures d.Next().Weekday() == (d.Weekday() + 1) % 7 && 0 <= d.Weekday() < 7
    ensures d.Next() ==
      if d.day == 31 && d.month == 12 then Date(d.year + 1, 1, 1)
      else if d.day == LastOf(d.year, d.month) then Date(d.year, d.month + 1, 1)
      else Date(d.year, d.month, d.day + 1)
  {
    NextIsNext(d);
    FebruaryIs(d.year);
    OneDayOn(d.Ordinal());
    hide Date.Ordinal, Leap, LastOfFebruary;
  }

  lemma OneDayOn(a: int)
    ensures (a + 1 + 6) % 7 == ((a + 6) % 7 + 1) % 7
  {
  }

  lemma FebruaryIs(year: int)
    ensures DaysInMonth(year, 2) == LastOfFebruary(year)
  {
  }

  function LastOf(year: int, month: int): int {
    if month == 2 then LastOfFebruary(year) else if month in {4, 6, 9, 11} then 30 else 31
  }

  /** Every fourth year has a 29th, but no century except every fourth. */
  function LastOfFebruary(year: int): int {
    if year % 400 == 0 then 29 else if year % 100 == 0 then 28 else if year % 4 == 0 then 29 else 28
  }

  lemma {:induction false} PlusIs(d: Date, n: nat)
    requires d.Valid()
    ensures d.Plus(n).Valid() && d.Plus(n).Ordinal() == d.Ordinal() + n
    decreases n
  {
    if n > 0 {
      NextIsNext(d);
      PlusIs(d.Next(), n - 1);
    }
  }

  lemma {:induction false} EarlierMonth(year: int, a: int, b: int)
    requires 1 <= a < b
    ensures DaysBeforeMonth(year, a) + DaysInMonth(year, a) <= DaysBeforeMonth(year, b)
    decreases b
  {
    if a < b - 1 { EarlierMonth(year, a, b - 1); }
  }

  lemma {:induction false} EarlierYear(a: int, b: int)
    requires 1 <= a < b
    ensures DaysBeforeYear(a) + 365 + (if Leap(a) then 1 else 0) <= DaysBeforeYear(b)
    decreases b
  {
    YearLength(b - 1);
    if a < b - 1 { EarlierYear(a, b - 1); }
  }

  /** The ordinal counts the days in order. */
  lemma OrdinalRises(a: Date, b: Date)
    requires a.Valid() && b.Valid()
    ensures a.Before(b) <==> a.Ordinal() < b.Ordinal()
    ensures a == b <==> a.Ordinal() == b.Ordinal()
  {
    if a.Before(b) {
      BeforeRises(a, b);
    } else if b.Before(a) {
      BeforeRises(b, a);
    }
  }

  lemma BeforeRises(a: Date, b: Date)
    requires a.Valid() && b.Valid() && a.Before(b)
    ensures a.Ordinal() < b.Ordinal()
  {
    if a.year < b.year {
      EarlierYear(a.year, b.year);
      MonthsOfYear(a.year);
      if a.month < 12 { EarlierMonth(a.year, a.month, 12); }
      if 1 < b.month { EarlierMonth(b.year, 1, b.month); }
    } else if a.month < b.month {
      EarlierMonth(a.year, a.month, b.month);
    }
    hide DaysBeforeYear;
  }

  // ---------------------------------------------------------------- moments

  datatype Moment = Moment(date: Date, hour: int, minute: int, second: int, micro: int) {
    predicate Valid() {
      date.Valid() && 0 <= hour < 24 && 0 <= minute < 60 && 0 <= second < 60 && 0 <= micro < 1_000_000
    }

    /** Microseconds since midnight. */
    function Time(): int {
      hour * 3_600_000_000 + minute * 60_000_000 + second * 1_000_000 + micro
    }

    /** Microseconds since the day before year 1. */
    function At(): int {
      date.Ordinal() * 86_400_000_000 + Time()
    }

    /** The comparison of datetimes, field by field. */
    predicate Before(that: Moment) {
      || date.Before(that.date)
      || (date == that.date && (
            || hour < that.hour
            || (hour == that.hour && (
                  || minute < that.minute
                  || (minute == that.minute
                     && (second < that.second || (second == that.second && micro < that.micro)))))))
    }
  }

  lemma BeforeIsEarlier(a: Moment, b: Moment)
    requires a.Valid() && b.Valid()
    ensures a.Before(b) <==> a.At() < b.At()
    ensures a == b <==> a.At() == b.At()
  {
    OrdinalRises(a.date, b.date);
    hide Date.Ordinal, Date.Before, Date.Valid;
    TimeOfDay(a);
    TimeOfDay(b);
    if a.date == b.date { SameTime(a, b); }
    hide Moment.Time;
  }

  lemma TimeOfDay(m: Moment)
    requires m.Valid()
    ensures 0 <= m.Time() < 86_400_000_000
  {
  }

  lemma SameTime(a: Moment, b: Moment)
    requires a.Valid() && b.Valid() && a.date == b.date
    ensures a.Before(b) <==> a.Time() < b.Time()
    ensures a == b <==> a.Time() == b.Time()
  {
    hide Date.Valid;
    assert !a.date.Before(b.date);
  }

  // ---------------------------------------------------------------- schedules

  datatype Spec =
    | Hourly(minute: int)
    | Daily(minute: int, hour: int)
    | Weekly(minute: int, hour: int, weekday: int)
    | Monthly(minute: int, hour: int, day: int)
  {
    predicate Valid() {
      && 0 <= minute <= 59 && (!Hourly? ==> 0 <= hour <= 23)
      && (Weekly? ==> 0 <= weekday <= 6) && (Monthly? ==> 1 <= day <= 28)
    }

    /** The moments at which the schedule runs. */
    predicate Matches(m: Moment) {
      && m.second == 0 && m.micro == 0 && m.minute == minute
      && (!Hourly? ==> m.hour == hour)
      && (Weekly? ==> m.date.Weekday() == weekday)
      && (Monthly? ==> m.date.day == day)
    }
  }

  /** A field of the request: a whole number, or anything else (a truth value too). */
  datatype Json = Number(value: int) | Other

  datatype Frequency = HOURLY | DAILY | WEEKLY | MONTHLY

  /** The fields of a request; a missing one is Other. */
  datatype Raw = Raw(frequency: Option<Frequency>, minute: Json, hour: Json, weekday: Json, day: Json)

  datatype Checked = Stored(spec: Spec) | NoFrequency | BadField

  predicate InRange(field: Json, low: int, high: int) {
    field.Number? && low <= field.value <= high
  }

  /** The fields the frequency uses are there and in range. */
  predicate UsedFieldsOk(frequency: Frequency, raw: Raw) {
    && InRange(raw.minute, 0, 59)
    && (frequency != HOURLY ==> InRange(raw.hour, 0, 23))
    && (frequency == WEEKLY ==> InRange(raw.weekday, 0, 6))
    && (frequency == MONTHLY ==> InRange(raw.day, 1, 28))
  }

  /** validate: the fields a frequency does not use are ignored. */
  function Validate(raw: Raw): (r: Checked)
    ensures r.Stored? ==> r.spec.Valid()
    ensures r.Stored? <==> raw.frequency.Some? && UsedFieldsOk(raw.frequency.value, raw)
    ensures r.NoFrequency? <==> raw.frequency.None?
  {
    if raw.frequency.None? then NoFrequency
    else if !InRange(raw.minute, 0, 59) then BadField
    else if raw.frequency.value.HOURLY? then Stored(Hourly(raw.minute.value))
    else if !InRange(raw.hour, 0, 23) then BadField
    else
      match raw.frequency.value
      case DAILY => Stored(Daily(raw.minute.value, raw.hour.value))
      case WEEKLY =>
        if InRange(raw.weekday, 0, 6) then Stored(Weekly(raw.minute.value, raw.hour.value, raw.weekday.value))
        else BadField
      case MONTHLY =>
        if InRange(raw.day, 1, 28) then Stored(Monthly(raw.minute.value, raw.hour.value, raw.day.value))
        else BadField
  }

  /** A stored schedule as it is read back: the fields its frequency does not use are NULL. */
  function Columns(spec: Spec): Raw {
    match spec
    case Hourly(m) => Raw(Some(HOURLY), Number(m), Other, Other, Other)
    case Daily(m, h) => Raw(Some(DAILY), Number(m), Number(h), Other, Other)
    case Weekly(m, h, w) => Raw(Some(WEEKLY), Number(m), Number(h), Number(w), Other)
    case Monthly(m, h, d) => Raw(Some(MONTHLY), Number(m), Number(h), Other, Number(d))
  }

  /** spec_of gives back what was stored, exactly for valid schedules. */
  lemma StoredIsReadBack(spec: Spec)
    ensures Validate(Columns(spec)) == Stored(spec) <==> spec.Valid()
    ensures !spec.Valid() ==> Validate(Columns(spec)) == BadField
  {
  }

  function AddMonth(m: Moment): Moment {
    if m.date.month == 12 then m.(date := Date(m.date.year + 1, 1, m.date.day))
    else m.(date := Date(m.date.year, m.date.month + 1, m.date.day))
  }

  function AddHour(m: Moment): Moment {
    if m.hour < 23 then m.(hour := m.hour + 1) else m.(date := m.date.Next(), hour := 0)
  }

  /** The day of `after` at the schedule's time. */
  function AtTime(spec: Spec, after: Moment): Moment
    requires !spec.Hourly?
  {
    Moment(after.date, spec.hour, spec.minute, 0, 0)
  }

  /** next_run */
  function NextRun(spec: Spec, after: Moment): Moment {
    if spec.Hourly? then
      var candidate := Moment(after.date, after.hour, spec.minute, 0, 0);
      if after.Before(candidate) then candidate else AddHour(candidate)
    else
      var candidate := AtTime(spec, after);
      match spec
      case Daily(_, _) =>
        if after.Before(candidate) then candidate else candidate.(date := candidate.date.Plus(1))
      case Weekly(_, _, weekday) =>
        var moved := candidate.(date := candidate.date.Plus((weekday - candidate.date.Weekday()) % 7));
        if after.Before(moved) then moved else moved.(date := moved.date.Plus(7))
      case Monthly(_, _, day) =>
        var moved := candidate.(date := Date(candidate.date.year, candidate.date.month, day));
        if after.Before(moved) then moved else AddMonth(moved)
  }

  /** `r` is the first run strictly after `after`. */
  ghost predicate FirstAfter(spec: Spec, after: Moment, r: Moment) {
    && r.Valid() && spec.Matches(r) && after.At() < r.At()
    && forall m: Moment :: m.Valid() && spec.Matches(m) && after.At() < m.At() ==> r.At() <= m.At()
  }

  /** Runs of an hourly schedule are whole hours apart. */
  lemma HourLater(spec: Spec, after: Moment, candidate: Moment, m: Moment)
    requires spec.Hourly? && after.Valid() && m.Valid() && spec.Matches(m) && after.At() < m.At()
    requires candidate == Moment(after.date, after.hour, spec.minute, 0, 0) && 0 <= spec.minute < 60
    ensures candidate.At() <= m.At() && (candidate.At() <= after.At() ==> candidate.At() + 3_600_000_000 <= m.At())
  {
    hide Date.Ordinal, Date.Valid, Date.Weekday;
    var h, k := after.date.Ordinal() * 24 + after.hour, m.date.Ordinal() * 24 + m.hour;
    assert m.At() == k * 3_600_000_000 + spec.minute * 60_000_000;
    assert candidate.At() == h * 3_600_000_000 + spec.minute * 60_000_000;
    assert h * 3_600_000_000 <= after.At() < (h + 1) * 3_600_000_000;
  }

  lemma HourlyFirst(spec: Spec, after: Moment)
    requires spec.Hourly? && spec.Valid() && after.Valid()
    ensures FirstAfter(spec, after, NextRun(spec, after))
  {
    var candidate := Moment(after.date, after.hour, spec.minute, 0, 0);
    BeforeIsEarlier(after, candidate);
    NextIsNext(after.date);
    hide Date.Ordinal, Date.Before, Date.Valid, Date.Next, Date.Weekday;
    var r := NextRun(spec, after);
    assert r.At() == candidate.At() + if after.At() < candidate.At() then 0 else 3_600_000_000;
    hide Moment.At, Moment.Before;
    forall m: Moment | m.Valid() && spec.Matches(m) && after.At() < m.At()
      ensures r.At() <= m.At()
    {
      HourLater(spec, after, candidate, m);
    }
    assert r.Valid() && spec.Matches(r) && after.At() < r.At() by { HourAfter(after, candidate); }
  }

  lemma HourAfter(after: Moment, candidate: Moment)
    requires after.Valid() && candidate.Valid() && candidate.date == after.date && candidate.hour == after.hour
    ensures after.At() < candidate.At() + 3_600_000_000
  {
    hide Date.Ordinal, Date.Valid;
  }

  /** A run after `after` is not on an earlier day. */
  lemma NotEarlier(after: Moment, m: Moment)
    requires after.Valid() && m.Valid() && after.At() < m.At()
    ensures after.date.Ordinal() <= m.date.Ordinal()
    ensures after.date.Ordinal() * 86_400_000_000 <= after.At() < (after.date.Ordinal() + 1) * 86_400_000_000
  {
    hide Date.Ordinal, Date.Valid;
  }

  /** Runs of a daily schedule are whole days apart. */
  lemma DayLater(spec: Spec, after: Moment, candidate: Moment, m: Moment)
    requires spec.Daily? && after.Valid() && m.Valid() && spec.Matches(m) && after.At() < m.At()
    requires candidate == AtTime(spec, after)
    ensures candidate.At() <= m.At() && (candidate.At() <= after.At() ==> candidate.At() + 86_400_000_000 <= m.At())
  {
    NotEarlier(after, m);
    hide Date.Ordinal, Date.Valid;
    assert m.Time() == candidate.Time();
  }

  lemma DailyFirst(spec: Spec, after: Moment)
    requires spec.Daily? && spec.Valid() && after.Valid()
    ensures FirstAfter(spec, after, NextRun(spec, after))
  {
    var candidate, r := AtTime(spec, after), NextRun(spec, after);
    BeforeIsEarlier(after, candidate);
    PlusIs(after.date, 1);
    TimeOfDay(after);
    TimeOfDay(candidate);
    hide Date.Ordinal, Date.Before, Date.Valid, Date.Plus, Date.Weekday;
    assert r.Time() == candidate.Time();
    assert r.At() == candidate.At() + if after.At() < candidate.At() then 0 else 86_400_000_000;
    assert r.Valid() && spec.Matches(r) && after.At() < r.At();
    hide Moment.At, Moment.Time, Moment.Before, Moment.Valid;
    forall m: Moment | m.Valid() && spec.Matches(m) && after.At() < m.At()
      ensures r.At() <= m.At()
    {
      DayLater(spec, after, candidate, m);
    }
  }

  /** The days to the weekday. */
  lemma DaysToWeekday(ordinal: int, weekday: int)
    requires 0 <= weekday <= 6
    ensures var days := (weekday - (ordinal + 6) % 7) % 7;
      0 <= days <= 6 && (ordinal + days + 6) % 7 == weekday
  {
  }

  /** Runs of a weekly schedule are whole weeks apart. */
  lemma WeekLater(spec: Spec, after: Moment, moved: Moment, m: Moment)
    requires spec.Weekly? && after.Valid() && m.Valid() && moved.Valid() && spec.Matches(m) && spec.Matches(moved)
    requires after.At() < m.At() && after.date.Ordinal() <= moved.date.Ordinal() <= after.date.Ordinal() + 6
    ensures moved.At() <= m.At() && (moved.At() <= after.At() ==> moved.At() + 7 * 86_400_000_000 <= m.At())
  {
    NotEarlier(after, m);
    SameWeekday(m.date.Ordinal(), moved.date.Ordinal());
    hide Date.Ordinal, Date.Valid;
    assert m.Time() == moved.Time();
  }

  /** The candidate moved on to the weekday. */
  function Moved(spec: Spec, after: Moment): Moment
    requires spec.Weekly?
  {
    var candidate := AtTime(spec, after);
    candidate.(date := candidate.date.Plus((spec.weekday - candidate.date.Weekday()) % 7))
  }

  lemma MovedIs(spec: Spec, after: Moment)
    requires spec.Weekly? && spec.Valid() && after.Valid()
    ensures var moved := Moved(spec, after);
      && moved.Valid() && spec.Matches(moved)
      && after.date.Ordinal() <= moved.date.Ordinal() <= after.date.Ordinal() + 6
  {
    DaysToWeekday(after.date.Ordinal(), spec.weekday);
    PlusIs(after.date, (spec.weekday - after.date.Weekday()) % 7);
    hide Date.Ordinal, Date.Valid, Date.Plus;
  }

  /** The same weekday and time, a week later. */
  lemma WeekAfter(spec: Spec, m: Moment)
    requires spec.Weekly? && m.Valid() && spec.Matches(m)
    ensures var next := m.(date := m.date.Plus(7));
      next.Valid() && spec.Matches(next) && next.At() == m.At() + 7 * 86_400_000_000
  {
    PlusIs(m.date, 7);
    hide Date.Ordinal, Date.Valid, Date.Plus;
    SameWeekdayNext(m.date.Ordinal());
    assert m.(date := m.date.Plus(7)).Time() == m.Time();
  }

  lemma SameWeekdayNext(a: int)
    ensures (a + 7 + 6) % 7 == (a + 6) % 7
  {
  }

  lemma WeeklyFirst(spec: Spec, after: Moment)
    requires spec.Weekly? && spec.Valid() && after.Valid()
    ensures FirstAfter(spec, after, NextRun(spec, after))
  {
    var moved, r := Moved(spec, after), NextRun(spec, after);
    MovedIs(spec, after);
    WeekAfter(spec, moved);
    BeforeIsEarlier(after, moved);
    assert r == if after.Before(moved) then moved else moved.(date := moved.date.Plus(7));
    TimeOfDay(after);
    TimeOfDay(moved);
    assert after.At() < moved.At() + 7 * 86_400_000_000;
    hide Moment.Before, Moment.At, Moment.Valid, Date.Ordinal, NextRun, Moved, Spec.Matches;
    forall m: Moment | m.Valid() && spec.Matches(m) && after.At() < m.At()
      ensures r.At() <= m.At()
    {
      WeekLater(spec, after, moved, m);
    }
  }

  /** Days of one weekday are whole weeks apart. */
  lemma SameWeekday(a: int, b: int)
    requires (a + 6) % 7 == (b + 6) % 7
    ensures a < b ==> a + 7 <= b
    ensures a > b ==> a >= b + 7
  {
  }

  lemma MonthlyFirst(spec: Spec, after: Moment)
    requires spec.Monthly? && spec.Valid() && after.Valid()
    ensures FirstAfter(spec, after, NextRun(spec, after))
  {
    var candidate := AtTime(spec, after);
    var moved := candidate.(date := Date(candidate.date.year, candidate.date.month, spec.day));
    var r := NextRun(spec, after);
    assert r.Valid() && moved.Valid();
    BeforeIsEarlier(after, moved);
    BeforeIsEarlier(after, r);
    hide Date.Ordinal, Moment.At;
    forall m: Moment | m.Valid() && spec.Matches(m) && after.At() < m.At()
      ensures r.At() <= m.At()
    {
      BeforeIsEarlier(after, m);
      BeforeIsEarlier(m, r);
    }
  }

  /**
   next_run is the least moment of the schedule strictly after `after`, for every frequency and
   across the ends of months and years.
   */
  lemma NextRunIsFirst(spec: Spec, after: Moment)
    requires spec.Valid() && after.Valid()
    ensures FirstAfter(spec, after, NextRun(spec, after))
  {
    match spec
    case Hourly(_) => HourlyFirst(spec, after);
    case Daily(_, _) => DailyFirst(spec, after);
    case Weekly(_, _, _) => WeeklyFirst(spec, after);
    case Monthly(_, _, _) => MonthlyFirst(spec, after);
  }

  /** A later moment has no earlier next run. */
  lemma NextRunRises(spec: Spec, a: Moment, b: Moment)
    requires spec.Valid() && a.Valid() && b.Valid() && a.At() <= b.At()
    ensures NextRun(spec, a).At() <= NextRun(spec, b).At()
  {
    NextRunIsFirst(spec, a);
    NextRunIsFirst(spec, b);
  }
}
