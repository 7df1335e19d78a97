/** Calendar arithmetic behind the parser's "yesterday" rule and the
    controller's summary and analytics windows. A `Date` is a proleptic
    Gregorian calendar day and an `Instant` is a day plus the milliseconds
    elapsed since its midnight. Time zones and daylight-saving shifts are
    not modelled: "one day earlier" moves to the previous calendar day and
    keeps the time of day. */
module Calendar {

  datatype Date = Date(year: int, month: int, day: int)

  predicate IsLeapYear(y: int)
  {
    y % 4 == 0 && (y % 100 != 0 || y % 400 == 0)
  }

  function DaysInMonth(y: int, m: int): (n: int)
    requires 1 <= m <= 12
    ensures 28 <= n <= 31
    ensures n == 29 <==> m == 2 && IsLeapYear(y)
  {
    if m == 2 then (if IsLeapYear(y) then 29 else 28)
    else if m == 4 || m == 6 || m == 9 || m == 11 then 30
    else 31
  }

  predicate ValidDate(d: Date)
  {
    1 <= d.month <= 12 && 1 <= d.day <= DaysInMonth(d.year, d.month)
  }

  /** Chronological order of calendar days. */
  predicate DateLt(a: Date, b: Date)
  {
    || a.year < b.year
    || (a.year == b.year && a.month < b.month)
    || (a.year == b.year && a.month == b.month && a.day < b.day)
  }

  predicate DateLe(a: Date, b: Date)
  {
    a == b || DateLt(a, b)
  }

  /** The calendar day before `d`: the latest valid day earlier than `d`. */
  function PrevDay(d: Date): (r: Date)
    requires ValidDate(d)
    ensures ValidDate(r)
    ensures DateLt(r, d)
    ensures forall e :: ValidDate(e) && DateLt(e, d) ==> DateLe(e, r)
  {
    if d.day > 1 then Date(d.year, d.month, d.day - 1)
    else if d.month > 1 then Date(d.year, d.month - 1, DaysInMonth(d.year, d.month - 1))
    else Date(d.year - 1, 12, 31)
  }

  /** The calendar day after `d`: the earliest valid day later than `d`. */
  function NextDay(d: Date): (r: Date)
    requires ValidDate(d)
    ensures ValidDate(r)
    ensures DateLt(d, r)
    ensures forall e :: ValidDate(e) && DateLt(d, e) ==> DateLe(r, e)
  {
    if d.day < DaysInMonth(d.year, d.month) then Date(d.year, d.month, d.day + 1)
    else if d.month < 12 then Date(d.year, d.month + 1, 1)
    else Date(d.year + 1, 1, 1)
  }

  /** Stepping back a day and then forward a day returns to the start. */
  lemma NextOfPrev(d: Date)
    requires ValidDate(d)
    ensures NextDay(PrevDay(d)) == d
  {
  }

  const MillisPerDay: int := 86_400_000

  /** A point in time: a calendar day and the milliseconds since its
      midnight. */
  datatype Instant = Instant(date: Date, millis: int)

  predicate ValidInstant(t: Instant)
  {
    ValidDate(t.date) && 0 <= t.millis < MillisPerDay
  }

  predicate InstantLt(a: Instant, b: Instant)
  {
    DateLt(a.date, b.date) || (a.date == b.date && a.millis < b.millis)
  }

  predicate InstantLe(a: Instant, b: Instant)
  {
    a == b || InstantLt(a, b)
  }

  /** `setDate(getDate() - 1)`: the same time of day on the previous
      calendar day. */
  function OneDayEarlier(t: Instant): (r: Instant)
    requires ValidInstant(t)
    ensures ValidInstant(r)
    ensures InstantLt(r, t)
    ensures r.millis == t.millis
    ensures NextDay(r.date) == t.date
  {
    Instant(PrevDay(t.date), t.millis)
  }

  function OneDayLater(t: Instant): (r: Instant)
    requires ValidInstant(t)
    ensures ValidInstant(r)
    ensures InstantLt(t, r)
    ensures r.millis == t.millis
    ensures PrevDay(r.date) == t.date
  {
    Instant(NextDay(t.date), t.millis)
  }

  /** `setDate(getDate() - n)`: `n` calendar days earlier, same time of day. */
  function DaysEarlier(t: Instant, n: nat): (r: Instant)
    requires ValidInstant(t)
    ensures ValidInstant(r)
    ensures r.millis == t.millis
    ensures n > 0 ==> InstantLt(r, t)
    decreases n
  {
    if n == 0 then t else OneDayEarlier(DaysEarlier(t, n - 1))
  }

  function DaysLater(t: Instant, n: nat): (r: Instant)
    requires ValidInstant(t)
    ensures ValidInstant(r)
    ensures r.millis == t.millis
    decreases n
  {
    if n == 0 then t else DaysLater(OneDayLater(t), n - 1)
  }

  /** Going `n` days back and then `n` days forward returns to the start:
      `DaysEarlier` moves by exactly `n` calendar days. */
  lemma {:induction false} DaysEarlierThenLater(t: Instant, n: nat)
    requires ValidInstant(t)
    ensures DaysLater(DaysEarlier(t, n), n) == t
    decreases n
  {
    if n > 0 {
      var e := DaysEarlier(t, n - 1);
      NextOfPrev(e.date);
      assert OneDayLater(OneDayEarlier(e)) == e;
      DaysEarlierThenLater(t, n - 1);
    }
  }

  /** Start of the summary window: midnight today for the period
      `"daily"`, midnight on the first of the current month for any other
      period. */
  function SummaryWindowStart(period: string, now: Instant): (r: Instant)
    requires ValidInstant(now)
    ensures ValidInstant(r)
    ensures r.millis == 0 && InstantLe(r, now)
    ensures r.date.year == now.date.year && r.date.month == now.date.month
    ensures period == "daily" ==> r.date.day == now.date.day
    ensures period != "daily" ==> r.date.day == 1
  {
    if period == "daily" then Instant(now.date, 0)
    else Instant(Date(now.date.year, now.date.month, 1), 0)
  }

  /** With the daily period, an instant is inside the window exactly when
      it falls on today or later. */
  lemma DailyWindowIsToday(now: Instant, x: Instant)
    requires ValidInstant(now) && ValidInstant(x)
    ensures InstantLe(SummaryWindowStart("daily", now), x) <==> DateLe(now.date, x.date)
  {
  }

  /** With any other period, an instant is inside the window exactly when
      it falls in the current month or later. */
  lemma MonthlyWindowIsThisMonth(period: string, now: Instant, x: Instant)
    requires period != "daily"
    requires ValidInstant(now) && ValidInstant(x)
    ensures InstantLe(SummaryWindowStart(period, now), x) <==>
            (x.date.year > now.date.year || (x.date.year == now.date.year && x.date.month >= now.date.month))
  {
  }

  /** Start of the analytics window: thirty calendar days before now. */
  function AnalyticsWindowStart(now: Instant): (r: Instant)
    requires ValidInstant(now)
    ensures ValidInstant(r)
    ensures InstantLt(r, now)
    ensures r.millis == now.millis
  {
    DaysEarlier(now, 30)
  }

  /** The analytics window starts exactly thirty calendar days back:
      thirty steps forward from its start reach now. */
  lemma AnalyticsWindowIsThirtyDays(now: Instant)
    requires ValidInstant(now)
    ensures DaysLater(AnalyticsWindowStart(now), 30) == now
  {
    DaysEarlierThenLater(now, 30);
  }
}
