/**
 * Time-bucket aggregation of `DefaultDataProcessor`
 * (`aggregateMetrics`, `getPeriodKey`, `getPeriodDate` in
 * `packages/rankiro/src/analytics/data-processor.ts`).
 *
 * Calendar fields come from local time, here UTC shifted by a fixed `zone`
 * offset in milliseconds.
 */
module Aggregation {
  import opened Wrappers
  import opened Types
  import opened AnalyticsTypes
  import opened Calendar
  import opened Text

  // ---------------------------------------------------------------------------
  // Periods
  // ---------------------------------------------------------------------------

  /**
   * The calendar fields `getPeriodKey` prints: hour keys are
   * year-month-day-hour, day and week keys year-month-day (for a week, the
   * date of its Sunday), month keys year-month. An Invalid Date prints NaN
   * in every field.
   */
  datatype PeriodKey =
    | HourKey(year: int, month: int, day: int, hour: int)
    | DayKey(year: int, month: int, day: int)
    | MonthKey(year: int, month: int)
    | NaNKey

  /** The calendar date of a local time value. */
  function LocalDate(local: int): CivilDate {
    CivilOfDay(DayNumber(local))
  }

  /** `y-m-d` is a valid calendar date and it is day number `day`. */
  predicate NamesDay(y: int, m: int, d: int, day: int) {
    ValidCivil(CivilDate(y, m, d)) && DayOfCivil(CivilDate(y, m, d)) == day
  }

  /**
   * `getPeriodKey`: the local calendar fields of the instant, as an hour,
   * day or month key; an Invalid Date gets the NaN key.
   */
  function GetPeriodKey(date: Date, groupBy: Granularity, zone: int): (r: PeriodKey)
    ensures r == NaNKey <==> date.None?
    ensures date.Some? ==> (r.HourKey? <==> groupBy == Hour) && (r.MonthKey? <==> groupBy == Month)
  {
    match date
    case None => NaNKey
    case Some(t) =>
      var local := t + zone;
      var c := LocalDate(local);
      match groupBy
      case Hour => HourKey(c.year, c.month, c.day, HourOfDay(local))
      case Day => DayKey(c.year, c.month, c.day)
      case Week =>
        var w := CivilOfDay(DayNumber(local) - Weekday(DayNumber(local)));
        DayKey(w.year, w.month, w.day)
      case Month => MonthKey(c.year, c.month)
  }

  /**
   * What a period key names: an hour key the local day and the hour that
   * contains the instant, a day key the local day, a week key the Sunday that
   * starts the local week, a month key the month that contains the local day.
   */
  lemma PeriodKeyNamesBucket(t: int, groupBy: Granularity, zone: int)
    ensures var r := GetPeriodKey(Some(t), groupBy, zone);
      var local := t + zone;
      var day := DayNumber(local);
      match groupBy
      case Hour =>
        && NamesDay(r.year, r.month, r.day, day)
        && r.hour * MsPerHour <= local % MsPerDay < (r.hour + 1) * MsPerHour
      case Day => r.DayKey? && NamesDay(r.year, r.month, r.day, day)
      case Week => r.DayKey? && NamesDay(r.year, r.month, r.day, day - Weekday(day)) && Weekday(day - Weekday(day)) == 0
      case Month =>
        && 0 <= r.month < 12
        && DaysBeforeYear(r.year) + DaysBeforeMonth(r.year, r.month) <= day < DaysBeforeYear(r.year) + DaysBeforeMonth(r.year, r.month + 1)
  {
    var day := DayNumber(t + zone);
    match groupBy
    case Hour =>
    case Day =>
    case Week => BackToSunday(day);
    case Month => DaysBeforeMonthBounds(LocalDate(t + zone).year, LocalDate(t + zone).month);
  }

  /** Going back `Weekday(day)` days from `day` lands on a Sunday. */
  lemma BackToSunday(day: int)
    ensures Weekday(day - Weekday(day)) == 0
  {
  }

  /** The longest span, in milliseconds, between an instant and the start of its bucket. */
  function MaxOffset(groupBy: Granularity): int {
    match groupBy
    case Hour => MsPerHour
    case Day => MsPerDay
    case Week => 7 * MsPerDay
    case Month => 31 * MsPerDay
  }

  /**
   * `getPeriodDate`: the start of the bucket holding `date` — the top of the
   * hour, local midnight, the Sunday midnight on or before it, or midnight of
   * the first of the month. An Invalid Date stays invalid.
   */
  function GetPeriodDate(date: Date, groupBy: Granularity, zone: int): (r: Date)
    ensures r.Some? <==> date.Some?
    ensures r.Some? ==> r.value <= date.value < r.value + MaxOffset(groupBy)
    ensures r.Some? && groupBy.Hour? ==> (r.value + zone) % MsPerHour == 0
    ensures r.Some? && !groupBy.Hour? ==> (r.value + zone) % MsPerDay == 0
    ensures r.Some? && groupBy.Week? ==> Weekday(DayNumber(r.value + zone)) == 0
    ensures r.Some? && groupBy.Month? ==>
      LocalDate(r.value + zone) == CivilDate(LocalDate(date.value + zone).year, LocalDate(date.value + zone).month, 1)
  {
    match date
    case None => None
    case Some(t) =>
      var local := t + zone;
      match groupBy
      case Hour =>
        var r := t - local % MsPerHour;
        HourStart(t, zone, r);
        Some(r)
      case Day =>
        var r := t - local % MsPerDay;
        DayStart(t, zone, r);
        Some(r)
      case Week =>
        var r := t - local % MsPerDay - Weekday(DayNumber(local)) * MsPerDay;
        WeekStart(t, zone, r);
        Some(r)
      case Month =>
        var r := t - local % MsPerDay - (LocalDate(local).day - 1) * MsPerDay;
        MonthStart(t, zone, r);
        Some(r)
  }

  /** The top of the local hour is at most an hour before the instant. */
  lemma HourStart(t: int, zone: int, r: int)
    requires r == t - (t + zone) % MsPerHour
    ensures r <= t < r + MaxOffset(Hour) && (r + zone) % MsPerHour == 0
  {
    var local := t + zone;
    var q := local / MsPerHour;
    assert t - local % MsPerHour + zone == MsPerHour * q;
  }

  /** Local midnight is at most a day before the instant and falls on the same day. */
  lemma DayStart(t: int, zone: int, r: int)
    requires r == t - (t + zone) % MsPerDay
    ensures r <= t < r + MaxOffset(Day)
      && (r + zone) % MsPerDay == 0
      && DayNumber(r + zone) == DayNumber(t + zone)
  {
    var local := t + zone;
    var q := local / MsPerDay;
    assert t - local % MsPerDay + zone == MsPerDay * q;
    DayDivUnique(MsPerDay * q, q);
  }

  /** Going back whole days from a local midnight lands on a local midnight that many days earlier. */
  lemma BackDays(m: int, zone: int, n: int)
    requires (m + zone) % MsPerDay == 0
    ensures (m - n * MsPerDay + zone) % MsPerDay == 0
    ensures DayNumber(m - n * MsPerDay + zone) == DayNumber(m + zone) - n
  {
    var q := DayNumber(m + zone);
    assert m + zone == MsPerDay * q;
    assert m - n * MsPerDay + zone == MsPerDay * (q - n);
    DayDivUnique(m - n * MsPerDay + zone, q - n);
  }

  /** The Sunday midnight on or before the instant is less than a week before it. */
  lemma WeekStart(t: int, zone: int, r: int)
    requires r == t - (t + zone) % MsPerDay - Weekday(DayNumber(t + zone)) * MsPerDay
    ensures r <= t < r + MaxOffset(Week)
      && (r + zone) % MsPerDay == 0
      && Weekday(DayNumber(r + zone)) == 0
  {
    var m := t - (t + zone) % MsPerDay;
    DayStart(t, zone, m);
    var q := DayNumber(t + zone);
    var w := Weekday(q);
    BackDays(m, zone, w);
    assert (q - w + 4) % 7 == 0;
  }

  /** Midnight of the first of the month is less than 31 days before the instant. */
  lemma MonthStart(t: int, zone: int, r: int)
    requires r == t - (t + zone) % MsPerDay - (LocalDate(t + zone).day - 1) * MsPerDay
    ensures r <= t < r + MaxOffset(Month)
      && (r + zone) % MsPerDay == 0
      && LocalDate(r + zone) == CivilDate(LocalDate(t + zone).year, LocalDate(t + zone).month, 1)
  {
    var m := t - (t + zone) % MsPerDay;
    DayStart(t, zone, m);
    var q := DayNumber(t + zone);
    var c := CivilOfDay(q);
    DaysBeforeMonthBounds(c.year, c.month);
    BackDays(m, zone, c.day - 1);
    assert MonthStartDay(q) == q - (c.day - 1);
  }

  lemma HourDivUnique(x: int, q: int, s: int)
    requires x == MsPerHour * q + s && 0 <= s < MsPerHour
    ensures x / MsPerHour == q
  {
  }

  lemma DayDivUnique(x: int, q: int)
    requires x == MsPerDay * q
    ensures x / MsPerDay == q && x % MsPerDay == 0
  {
  }

  /** The hour count of a local time value splits into its day number and hour of day. */
  lemma HourSplit(local: int)
    ensures local / MsPerHour == 24 * DayNumber(local) + HourOfDay(local)
  {
    var q := local / MsPerDay;
    var r := local % MsPerDay;
    var h := r / MsPerHour;
    var s := r % MsPerHour;
    assert local == MsPerDay * q + r;
    assert r == MsPerHour * h + s;
    assert local == MsPerHour * (24 * q + h) + s;
    HourDivUnique(local, 24 * q + h, s);
  }

  /** The start of the local hour, as a count of hours. */
  lemma HourDate(a: int, zone: int)
    ensures GetPeriodDate(Some(a), Hour, zone) == Some(MsPerHour * ((a + zone) / MsPerHour) - zone)
  {
    var local := a + zone;
    assert local == MsPerHour * (local / MsPerHour) + local % MsPerHour;
  }

  /** Local midnight, as a count of days. */
  lemma DayDate(a: int, zone: int)
    ensures GetPeriodDate(Some(a), Day, zone) == Some(MsPerDay * DayNumber(a + zone) - zone)
  {
    var local := a + zone;
    assert local == MsPerDay * DayNumber(local) + local % MsPerDay;
  }

  /** The Sunday midnight of the week, as a count of days. */
  lemma WeekDate(a: int, zone: int)
    ensures var q := DayNumber(a + zone);
      GetPeriodDate(Some(a), Week, zone) == Some(MsPerDay * (q - Weekday(q)) - zone)
  {
    var local := a + zone;
    var q := DayNumber(local);
    assert local == MsPerDay * q + local % MsPerDay;
    assert MsPerDay * q - Weekday(q) * MsPerDay == MsPerDay * (q - Weekday(q));
  }

  /** Midnight of the first of the month, as a count of days. */
  lemma MonthDate(a: int, zone: int)
    ensures GetPeriodDate(Some(a), Month, zone) == Some(MsPerDay * MonthStartDay(DayNumber(a + zone)) - zone)
  {
    var local := a + zone;
    var q := DayNumber(local);
    var k := LocalDate(local).day - 1;
    assert GetPeriodDate(Some(a), Month, zone) == Some(a - local % MsPerDay - k * MsPerDay);
    assert MonthStartDay(q) == q - k;
    BackToDayCount(a, zone, local % MsPerDay, q, k, GetPeriodDate(Some(a), Month, zone), MonthStartDay(q));
  }

  /** Going back `k` whole days from the local midnight of day `q` lands on the midnight of day `q - k`. */
  lemma BackToDayCount(a: int, zone: int, s: int, q: int, k: int, g: Date, m: int)
    requires a + zone == MsPerDay * q + s
    requires g == Some(a - s - k * MsPerDay) && m == q - k
    ensures g == Some(MsPerDay * m - zone)
  {
    assert MsPerDay * q - k * MsPerDay == MsPerDay * (q - k);
  }

  /** Two bucket starts counted in the same unit are equal exactly when the counts are. */
  lemma UnitsEqual(da: Date, db: Date, unit: int, x: int, y: int, zone: int)
    requires unit > 0
    requires da == Some(unit * x - zone) && db == Some(unit * y - zone)
    ensures da == db <==> x == y
  {
    if x < y {
      assert unit * x < unit * y;
    } else if y < x {
      assert unit * y < unit * x;
    }
  }

  /** Hour keys agree exactly when the local hour counts do. */
  lemma HourKeyAsCount(a: int, b: int, zone: int)
    ensures GetPeriodKey(Some(a), Hour, zone) == GetPeriodKey(Some(b), Hour, zone)
        <==> (a + zone) / MsPerHour == (b + zone) / MsPerHour
  {
    HourKeyOf(a, zone);
    HourKeyOf(b, zone);
    var ka, kb := GetPeriodKey(Some(a), Hour, zone), GetPeriodKey(Some(b), Hour, zone);
    var na, nb := (a + zone) / MsPerHour, (b + zone) / MsPerHour;
    assert ka == kb <==> na == nb;
  }

  /** The hour key names the local day and hour, which the count of local hours determines and is determined by. */
  lemma HourKeyOf(a: int, zone: int)
    ensures var local := a + zone;
      var c := CivilOfDay(DayNumber(local));
      && GetPeriodKey(Some(a), Hour, zone) == HourKey(c.year, c.month, c.day, HourOfDay(local))
      && local / MsPerHour == 24 * DayNumber(local) + HourOfDay(local)
  {
    HourKeyFields(a, zone);
    HourSplit(a + zone);
  }

  lemma HourKeyFields(a: int, zone: int)
    ensures var local := a + zone;
      var c := CivilOfDay(DayNumber(local));
      GetPeriodKey(Some(a), Hour, zone) == HourKey(c.year, c.month, c.day, HourOfDay(local))
  {
  }

  lemma HourKeyMatchesDate(a: int, b: int, zone: int)
    ensures GetPeriodKey(Some(a), Hour, zone) == GetPeriodKey(Some(b), Hour, zone)
        <==> GetPeriodDate(Some(a), Hour, zone) == GetPeriodDate(Some(b), Hour, zone)
  {
    HourKeyAsCount(a, b, zone);
    HourDate(a, zone);
    HourDate(b, zone);
    UnitsEqual(GetPeriodDate(Some(a), Hour, zone), GetPeriodDate(Some(b), Hour, zone),
               MsPerHour, (a + zone) / MsPerHour, (b + zone) / MsPerHour, zone);
  }

  /** Day keys agree exactly when the local day numbers do. */
  lemma DayKeyAsCount(a: int, b: int, zone: int)
    ensures GetPeriodKey(Some(a), Day, zone) == GetPeriodKey(Some(b), Day, zone)
        <==> DayNumber(a + zone) == DayNumber(b + zone)
  {
    DayKeyOf(a, zone);
    DayKeyOf(b, zone);
    var ka, kb := GetPeriodKey(Some(a), Day, zone), GetPeriodKey(Some(b), Day, zone);
    var qa, qb := DayNumber(a + zone), DayNumber(b + zone);
    assert ka == kb <==> qa == qb;
  }

  /** The day key names the local calendar date. */
  lemma DayKeyOf(a: int, zone: int)
    ensures var c := LocalDate(a + zone);
      GetPeriodKey(Some(a), Day, zone) == DayKey(c.year, c.month, c.day)
  {
  }

  lemma DayKeyMatchesDate(a: int, b: int, zone: int)
    ensures GetPeriodKey(Some(a), Day, zone) == GetPeriodKey(Some(b), Day, zone)
        <==> GetPeriodDate(Some(a), Day, zone) == GetPeriodDate(Some(b), Day, zone)
  {
    DayKeyAsCount(a, b, zone);
    DayDate(a, zone);
    DayDate(b, zone);
    UnitsEqual(GetPeriodDate(Some(a), Day, zone), GetPeriodDate(Some(b), Day, zone),
               MsPerDay, DayNumber(a + zone), DayNumber(b + zone), zone);
  }

  /** Week keys agree exactly when the day numbers of the weeks' Sundays do. */
  lemma WeekKeyAsCount(a: int, b: int, zone: int)
    ensures var qa, qb := DayNumber(a + zone), DayNumber(b + zone);
      var sa, sb := qa - Weekday(qa), qb - Weekday(qb);
      GetPeriodKey(Some(a), Week, zone) == GetPeriodKey(Some(b), Week, zone) <==> sa == sb
  {
    WeekKeyOf(a, zone);
    WeekKeyOf(b, zone);
    var ka, kb := GetPeriodKey(Some(a), Week, zone), GetPeriodKey(Some(b), Week, zone);
    var qa, qb := DayNumber(a + zone), DayNumber(b + zone);
    var sa, sb := qa - Weekday(qa), qb - Weekday(qb);
    assert ka == kb <==> sa == sb;
  }

  /** The week key names the calendar date of the week's Sunday. */
  lemma WeekKeyOf(a: int, zone: int)
    ensures var q := DayNumber(a + zone);
      var c := CivilOfDay(q - Weekday(q));
      GetPeriodKey(Some(a), Week, zone) == DayKey(c.year, c.month, c.day)
  {
  }

  lemma WeekKeyMatchesDate(a: int, b: int, zone: int)
    ensures GetPeriodKey(Some(a), Week, zone) == GetPeriodKey(Some(b), Week, zone)
        <==> GetPeriodDate(Some(a), Week, zone) == GetPeriodDate(Some(b), Week, zone)
  {
    var qa, qb := DayNumber(a + zone), DayNumber(b + zone);
    WeekKeyAsCount(a, b, zone);
    WeekDate(a, zone);
    WeekDate(b, zone);
    UnitsEqual(GetPeriodDate(Some(a), Week, zone), GetPeriodDate(Some(b), Week, zone),
               MsPerDay, qa - Weekday(qa), qb - Weekday(qb), zone);
  }

  /** Month keys agree exactly when the day numbers of the months' first days do. */
  lemma MonthKeyAsCount(a: int, b: int, zone: int)
    ensures GetPeriodKey(Some(a), Month, zone) == GetPeriodKey(Some(b), Month, zone)
        <==> MonthStartDay(DayNumber(a + zone)) == MonthStartDay(DayNumber(b + zone))
  {
    var ka, kb := GetPeriodKey(Some(a), Month, zone), GetPeriodKey(Some(b), Month, zone);
    var ca, cb := LocalDate(a + zone), LocalDate(b + zone);
    var sa, sb := MonthStartDay(DayNumber(a + zone)), MonthStartDay(DayNumber(b + zone));
    assert ka == MonthKey(ca.year, ca.month);
    assert kb == MonthKey(cb.year, cb.month);
    assert CivilOfDay(sa) == CivilDate(ca.year, ca.month, 1);
    assert CivilOfDay(sb) == CivilDate(cb.year, cb.month, 1);
    CivilOfDayInjective(sa, sb);
    assert ka == kb <==> ca.year == cb.year && ca.month == cb.month;
  }

  lemma MonthKeyMatchesDate(a: int, b: int, zone: int)
    ensures GetPeriodKey(Some(a), Month, zone) == GetPeriodKey(Some(b), Month, zone)
        <==> GetPeriodDate(Some(a), Month, zone) == GetPeriodDate(Some(b), Month, zone)
  {
    MonthKeyAsCount(a, b, zone);
    MonthDate(a, zone);
    MonthDate(b, zone);
    UnitsEqual(GetPeriodDate(Some(a), Month, zone), GetPeriodDate(Some(b), Month, zone),
               MsPerDay, MonthStartDay(DayNumber(a + zone)), MonthStartDay(DayNumber(b + zone)), zone);
  }

  /**
   * Two dates share a period key exactly when they share a period start: the
   * printed key and the bucket date name the same bucket.
   */
  lemma PeriodKeyMatchesDate(a: Date, b: Date, groupBy: Granularity, zone: int)
    ensures GetPeriodKey(a, groupBy, zone) == GetPeriodKey(b, groupBy, zone)
        <==> GetPeriodDate(a, groupBy, zone) == GetPeriodDate(b, groupBy, zone)
  {
    if a.Some? && b.Some? {
      match groupBy
      case Hour => HourKeyMatchesDate(a.value, b.value, zone);
      case Day => DayKeyMatchesDate(a.value, b.value, zone);
      case Week => WeekKeyMatchesDate(a.value, b.value, zone);
      case Month => MonthKeyMatchesDate(a.value, b.value, zone);
    }
  }

  /** Taking the bucket of a bucket start changes nothing. */
  lemma PeriodDateIdempotent(date: Date, groupBy: Granularity, zone: int)
    ensures GetPeriodDate(GetPeriodDate(date, groupBy, zone), groupBy, zone) == GetPeriodDate(date, groupBy, zone)
  {
    if date.Some? && groupBy.Month? {
      var p := GetPeriodDate(date, groupBy, zone).value;
      var local := p + zone;
      DayDivUnique(local, local / MsPerDay);
    }
  }

  // ---------------------------------------------------------------------------
  // Folding records into aggregates
  // ---------------------------------------------------------------------------

  /** The counters that aggregation sums. */
  datatype Counter = Views | Likes | Comments | Shares | WatchTime

  function Count(m: VideoMetrics, c: Counter): real {
    match c
    case Views => m.views
    case Likes => m.likes
    case Comments => m.comments
    case Shares => m.shares
    case WatchTime => m.watchTime
  }

  /**
   * The engagement-rate merge policy: the mean of the running value and the
   * new one, not weighted by how many records were merged before.
   */
  function MergeRate(running: real, next: real): real {
    (running + next) / 2.0
  }

  /** The aggregate the first record of a bucket creates. */
  function Seed(m: VideoMetrics, period: Date): AggregatedMetrics {
    AggregatedMetrics(period, m.videoId, m.views, m.likes, m.comments, m.shares, m.engagementRate, m.watchTime)
  }

  /** An aggregate after one more record of its bucket: sums grow, the rate merges. */
  function Absorb(a: AggregatedMetrics, m: VideoMetrics): AggregatedMetrics {
    a.(totalViews := a.totalViews + m.views,
       totalLikes := a.totalLikes + m.likes,
       totalComments := a.totalComments + m.comments,
       totalShares := a.totalShares + m.shares,
       totalWatchTime := a.totalWatchTime + m.watchTime,
       averageEngagementRate := MergeRate(a.averageEngagementRate, m.engagementRate))
  }

  /** One entry of the insertion-ordered aggregation map. */
  datatype Entry<K> = Entry(key: K, value: AggregatedMetrics)

  /** The position of key `k` in the map, or -1. */
  function FindKey<K(==)>(t: seq<Entry<K>>, k: K): (i: int)
    ensures -1 <= i < |t|
    ensures i >= 0 ==> t[i].key == k
    ensures i < 0 ==> forall j :: 0 <= j < |t| ==> t[j].key != k
  {
    if |t| == 0 then -1
    else if t[|t| - 1].key == k then |t| - 1
    else FindKey(t[..|t| - 1], k)
  }

  /** One iteration of the aggregation loop: update the entry of `k` in place or append a new one. */
  function Step<K(==)>(t: seq<Entry<K>>, m: VideoMetrics, k: K, period: Date): seq<Entry<K>>
  {
    var i := FindKey(t, k);
    if i >= 0 then t[i := Entry(k, Absorb(t[i].value, m))]
    else t + [Entry(k, Seed(m, period))]
  }

  /** The aggregation map after the whole loop, keys in first-insertion order. */
  function Fold<K(==)>(ms: seq<VideoMetrics>, keyOf: VideoMetrics -> K, periodOf: VideoMetrics -> Date): seq<Entry<K>>
  {
    if |ms| == 0 then []
    else
      var last := ms[|ms| - 1];
      Step(Fold(ms[..|ms| - 1], keyOf, periodOf), last, keyOf(last), periodOf(last))
  }

  function Values<K>(t: seq<Entry<K>>): (r: seq<AggregatedMetrics>)
    ensures |r| == |t|
    ensures forall i :: 0 <= i < |t| ==> r[i] == t[i].value
  {
    seq(|t|, i requires 0 <= i < |t| => t[i].value)
  }

  // ---------------------------------------------------------------------------
  // Reference definitions: grouping stated per key
  // ---------------------------------------------------------------------------

  function KeysOf<K>(ms: seq<VideoMetrics>, keyOf: VideoMetrics -> K): (r: seq<K>)
    ensures |r| == |ms|
    ensures forall i :: 0 <= i < |ms| ==> r[i] == keyOf(ms[i])
  {
    seq(|ms|, i requires 0 <= i < |ms| => keyOf(ms[i]))
  }

  /** The distinct elements of `ks` in order of first occurrence. */
  function FirstSeen<K(==)>(ks: seq<K>): (r: seq<K>)
    ensures forall i :: 0 <= i < |ks| ==> ks[i] in r
    ensures forall i :: 0 <= i < |r| ==> r[i] in ks
    ensures forall i, j :: 0 <= i < j < |r| ==> r[i] != r[j]
  {
    if |ks| == 0 then []
    else
      var d := FirstSeen(ks[..|ks| - 1]);
      if ks[|ks| - 1] in d then d else d + [ks[|ks| - 1]]
  }

  /** The records whose key is `k`, in input order. */
  function Members<K(==)>(ms: seq<VideoMetrics>, keyOf: VideoMetrics -> K, k: K): (r: seq<VideoMetrics>)
    ensures forall i :: 0 <= i < |r| ==> r[i] in ms && keyOf(r[i]) == k
    ensures (exists i :: 0 <= i < |ms| && keyOf(ms[i]) == k) ==> |r| > 0
  {
    if |ms| == 0 then []
    else
      var last := ms[|ms| - 1];
      Members(ms[..|ms| - 1], keyOf, k) + (if keyOf(last) == k then [last] else [])
  }

  /** The exact sum of counter `c` over `g`. */
  function Total(g: seq<VideoMetrics>, c: Counter): real
  {
    if |g| == 0 then 0.0 else Total(g[..|g| - 1], c) + Count(g[|g| - 1], c)
  }

  /** The engagement rate after merging the rates of `g` pairwise, in order. */
  function RunningRate(g: seq<VideoMetrics>): real
    requires |g| > 0
  {
    if |g| == 1 then g[0].engagementRate
    else MergeRate(RunningRate(g[..|g| - 1]), g[|g| - 1].engagementRate)
  }

  /** What a bucket's aggregate should hold: first record's id and period, exact totals, merged rate. */
  function Summary(g: seq<VideoMetrics>, periodOf: VideoMetrics -> Date): AggregatedMetrics
    requires |g| > 0
  {
    AggregatedMetrics(periodOf(g[0]), g[0].videoId,
                      Total(g, Views), Total(g, Likes), Total(g, Comments), Total(g, Shares),
                      RunningRate(g), Total(g, WatchTime))
  }

  lemma SummaryStep(g: seq<VideoMetrics>, m: VideoMetrics, periodOf: VideoMetrics -> Date)
    requires |g| > 0
    ensures Summary(g + [m], periodOf) == Absorb(Summary(g, periodOf), m)
  {
    assert (g + [m])[..|g|] == g;
  }

  /** Entry `e` holds the summary of the records of `ms` with its key, of which there is at least one. */
  ghost predicate EntrySummarises<K>(e: Entry<K>, ms: seq<VideoMetrics>, keyOf: VideoMetrics -> K, periodOf: VideoMetrics -> Date)
  {
    && |Members(ms, keyOf, e.key)| > 0
    && e.value == Summary(Members(ms, keyOf, e.key), periodOf)
  }

  /** The map `t` summarises the records `ms`: one entry per distinct key, first-seen order, exact summaries. */
  ghost predicate Summarises<K>(t: seq<Entry<K>>, ms: seq<VideoMetrics>, keyOf: VideoMetrics -> K, periodOf: VideoMetrics -> Date)
  {
    var fs := FirstSeen(KeysOf(ms, keyOf));
    && |t| == |fs|
    && (forall i :: 0 <= i < |t| ==> t[i].key == fs[i])
    && (forall i :: 0 <= i < |t| ==> EntrySummarises(t[i], ms, keyOf, periodOf))
  }

  lemma KeysOfAppend<K>(p: seq<VideoMetrics>, x: VideoMetrics, keyOf: VideoMetrics -> K)
    ensures KeysOf(p + [x], keyOf) == KeysOf(p, keyOf) + [keyOf(x)]
  {
  }

  lemma MembersAppend<K>(p: seq<VideoMetrics>, x: VideoMetrics, keyOf: VideoMetrics -> K, k: K)
    ensures Members(p + [x], keyOf, k) == Members(p, keyOf, k) + (if keyOf(x) == k then [x] else [])
  {
    assert (p + [x])[..|p|] == p;
  }

  lemma FirstSeenAppend<K>(ks: seq<K>, k: K)
    ensures FirstSeen(ks + [k]) == if k in FirstSeen(ks) then FirstSeen(ks) else FirstSeen(ks) + [k]
  {
    assert (ks + [k])[..|ks|] == ks;
  }

  /** A key that no record carries has no members. */
  lemma MembersAbsent<K>(p: seq<VideoMetrics>, keyOf: VideoMetrics -> K, k: K)
    requires k !in FirstSeen(KeysOf(p, keyOf))
    ensures Members(p, keyOf, k) == []
  {
  }

  /** An entry for a key other than the new record's keeps its summary. */
  lemma EntryUntouched<K>(e: Entry<K>, p: seq<VideoMetrics>, x: VideoMetrics, keyOf: VideoMetrics -> K, periodOf: VideoMetrics -> Date)
    requires EntrySummarises(e, p, keyOf, periodOf)
    requires e.key != keyOf(x)
    ensures EntrySummarises(e, p + [x], keyOf, periodOf)
  {
    MembersAppend(p, x, keyOf, e.key);
    assert Members(p + [x], keyOf, e.key) == Members(p, keyOf, e.key) + [];
    assert Members(p, keyOf, e.key) + [] == Members(p, keyOf, e.key);
  }

  /** Absorbing a record whose key is already mapped keeps the map summarising. */
  lemma StepFound<K>(t: seq<Entry<K>>, p: seq<VideoMetrics>, x: VideoMetrics, keyOf: VideoMetrics -> K, periodOf: VideoMetrics -> Date)
    requires Summarises(t, p, keyOf, periodOf)
    requires FindKey(t, keyOf(x)) >= 0
    ensures Summarises(Step(t, x, keyOf(x), periodOf(x)), p + [x], keyOf, periodOf)
  {
    var k := keyOf(x);
    var i := FindKey(t, k);
    var fs := FirstSeen(KeysOf(p, keyOf));
    SeenKeysKept(p, x, keyOf, i);
    var u := t[i := Entry(k, Absorb(t[i].value, x))];
    forall j | 0 <= j < |u|
      ensures u[j].key == fs[j]
      ensures EntrySummarises(u[j], p + [x], keyOf, periodOf)
    {
      assert t[j].key == fs[j] && EntrySummarises(t[j], p, keyOf, periodOf);
      if j == i {
        EntryAbsorbs(t[i], p, x, keyOf, periodOf);
      } else {
        EntryUntouched(t[j], p, x, keyOf, periodOf);
      }
    }
  }

  /** A record whose key has been seen adds no key. */
  lemma SeenKeysKept<K>(p: seq<VideoMetrics>, x: VideoMetrics, keyOf: VideoMetrics -> K, i: int)
    requires 0 <= i < |FirstSeen(KeysOf(p, keyOf))|
    requires FirstSeen(KeysOf(p, keyOf))[i] == keyOf(x)
    ensures FirstSeen(KeysOf(p + [x], keyOf)) == FirstSeen(KeysOf(p, keyOf))
  {
    KeysOfAppend(p, x, keyOf);
    FirstSeenAppend(KeysOf(p, keyOf), keyOf(x));
  }

  /** The entry of the new record's key absorbs it and keeps its summary. */
  lemma EntryAbsorbs<K>(e: Entry<K>, p: seq<VideoMetrics>, x: VideoMetrics, keyOf: VideoMetrics -> K, periodOf: VideoMetrics -> Date)
    requires EntrySummarises(e, p, keyOf, periodOf)
    requires e.key == keyOf(x)
    ensures EntrySummarises(Entry(e.key, Absorb(e.value, x)), p + [x], keyOf, periodOf)
  {
    MembersAppend(p, x, keyOf, e.key);
    SummaryStep(Members(p, keyOf, e.key), x, periodOf);
  }

  /** A key the map lacks is carried by none of the records it summarises. */
  lemma UnmappedIsUnseen<K>(t: seq<Entry<K>>, p: seq<VideoMetrics>, keyOf: VideoMetrics -> K, periodOf: VideoMetrics -> Date, k: K)
    requires Summarises(t, p, keyOf, periodOf)
    requires FindKey(t, k) < 0
    ensures k !in FirstSeen(KeysOf(p, keyOf))
  {
  }

  /** The entry a record with an unseen key creates summarises that record alone. */
  lemma EntrySeeded<K>(p: seq<VideoMetrics>, x: VideoMetrics, keyOf: VideoMetrics -> K, periodOf: VideoMetrics -> Date)
    requires keyOf(x) !in FirstSeen(KeysOf(p, keyOf))
    ensures EntrySummarises(Entry(keyOf(x), Seed(x, periodOf(x))), p + [x], keyOf, periodOf)
  {
    MembersAbsent(p, keyOf, keyOf(x));
    MembersAppend(p, x, keyOf, keyOf(x));
    assert Members(p + [x], keyOf, keyOf(x)) == [x];
    SummarySingle(x, periodOf);
  }

  lemma SummarySingle(x: VideoMetrics, periodOf: VideoMetrics -> Date)
    ensures Summary([x], periodOf) == Seed(x, periodOf(x))
  {
    TotalSingle(x, Views);
    TotalSingle(x, Likes);
    TotalSingle(x, Comments);
    TotalSingle(x, Shares);
    TotalSingle(x, WatchTime);
  }

  lemma TotalSingle(x: VideoMetrics, c: Counter)
    ensures Total([x], c) == Count(x, c)
  {
    assert [x][..0] == [];
  }

  /** Seeding a record whose key is new keeps the map summarising. */
  lemma StepNew<K>(t: seq<Entry<K>>, p: seq<VideoMetrics>, x: VideoMetrics, keyOf: VideoMetrics -> K, periodOf: VideoMetrics -> Date)
    requires Summarises(t, p, keyOf, periodOf)
    requires FindKey(t, keyOf(x)) < 0
    ensures Summarises(Step(t, x, keyOf(x), periodOf(x)), p + [x], keyOf, periodOf)
  {
    var k := keyOf(x);
    var fs := FirstSeen(KeysOf(p, keyOf));
    UnmappedIsUnseen(t, p, keyOf, periodOf, k);
    KeysOfAppend(p, x, keyOf);
    FirstSeenAppend(KeysOf(p, keyOf), k);
    EntrySeeded(p, x, keyOf, periodOf);
    assert FirstSeen(KeysOf(p + [x], keyOf)) == fs + [k];
    forall j | 0 <= j < |t|
      ensures t[j].key == (fs + [k])[j]
      ensures EntrySummarises(t[j], p + [x], keyOf, periodOf)
    {
      assert t[j].key == fs[j];
      EntryUntouched(t[j], p, x, keyOf, periodOf);
    }
    var e := Entry(k, Seed(x, periodOf(x)));
    SummarisesAppend(t, e, p + [x], keyOf, periodOf);
    assert t + [e] == Step(t, x, k, periodOf(x));
  }

  /** A map whose entries follow the first-seen keys and summarise, extended by one more such entry. */
  lemma SummarisesAppend<K>(t: seq<Entry<K>>, e: Entry<K>, ms: seq<VideoMetrics>, keyOf: VideoMetrics -> K, periodOf: VideoMetrics -> Date)
    requires |FirstSeen(KeysOf(ms, keyOf))| == |t| + 1
    requires forall i :: 0 <= i < |t| ==> t[i].key == FirstSeen(KeysOf(ms, keyOf))[i]
    requires FirstSeen(KeysOf(ms, keyOf))[|t|] == e.key
    requires forall i :: 0 <= i < |t| ==> EntrySummarises(t[i], ms, keyOf, periodOf)
    requires EntrySummarises(e, ms, keyOf, periodOf)
    ensures Summarises(t + [e], ms, keyOf, periodOf)
  {
    var u := t + [e];
    forall i | 0 <= i < |u|
      ensures u[i].key == FirstSeen(KeysOf(ms, keyOf))[i]
      ensures EntrySummarises(u[i], ms, keyOf, periodOf)
    {
      if i < |t| {
        assert u[i] == t[i];
      }
    }
  }

  /**
   * The loop's map holds one entry per distinct key, in first-seen order, and
   * each entry summarises exactly the records with that key.
   */
  lemma {:induction false} FoldSpec<K>(ms: seq<VideoMetrics>, keyOf: VideoMetrics -> K, periodOf: VideoMetrics -> Date)
    ensures |Fold(ms, keyOf, periodOf)| == |FirstSeen(KeysOf(ms, keyOf))|
    ensures forall i :: 0 <= i < |Fold(ms, keyOf, periodOf)| ==>
      && Fold(ms, keyOf, periodOf)[i].key == FirstSeen(KeysOf(ms, keyOf))[i]
      && |Members(ms, keyOf, Fold(ms, keyOf, periodOf)[i].key)| > 0
      && Fold(ms, keyOf, periodOf)[i].value == Summary(Members(ms, keyOf, Fold(ms, keyOf, periodOf)[i].key), periodOf)
  {
    FoldSummarises(ms, keyOf, periodOf);
  }

  lemma {:induction false} FoldSummarises<K>(ms: seq<VideoMetrics>, keyOf: VideoMetrics -> K, periodOf: VideoMetrics -> Date)
    ensures Summarises(Fold(ms, keyOf, periodOf), ms, keyOf, periodOf)
  {
    if |ms| > 0 {
      var p := ms[..|ms| - 1];
      var x := ms[|ms| - 1];
      assert ms == p + [x];
      FoldSummarises(p, keyOf, periodOf);
      var t := Fold(p, keyOf, periodOf);
      if FindKey(t, keyOf(x)) >= 0 {
        StepFound(t, p, x, keyOf, periodOf);
      } else {
        StepNew(t, p, x, keyOf, periodOf);
      }
    }
  }

  // ---------------------------------------------------------------------------
  // aggregateMetrics
  // ---------------------------------------------------------------------------

  /** The grouping key: the video and the printed period, kept apart as a pair. */
  datatype GroupKey = GroupKey(videoId: string, period: PeriodKey)

  function KeyFn(groupBy: Granularity, zone: int): VideoMetrics -> GroupKey {
    (m: VideoMetrics) => GroupKey(m.videoId, GetPeriodKey(m.timestamp, groupBy, zone))
  }

  function PeriodFn(groupBy: Granularity, zone: int): VideoMetrics -> Date {
    (m: VideoMetrics) => GetPeriodDate(m.timestamp, groupBy, zone)
  }

  /**
   * `aggregateMetrics`: one aggregate per distinct (video, period) in order
   * of first appearance, holding that group's exact totals and pairwise
   * merged engagement rate; video and period come from the group's first record.
   */
  function AggregateMetrics(ms: seq<VideoMetrics>, groupBy: Granularity, zone: int): (r: seq<AggregatedMetrics>)
    ensures |ms| == 0 ==> r == []
    ensures |r| == |FirstSeen(KeysOf(ms, KeyFn(groupBy, zone)))|
    ensures forall i :: 0 <= i < |r| ==>
      var k := FirstSeen(KeysOf(ms, KeyFn(groupBy, zone)))[i];
      var g := Members(ms, KeyFn(groupBy, zone), k);
      && |g| > 0
      && r[i].videoId == k.videoId == g[0].videoId
      && r[i].period == GetPeriodDate(g[0].timestamp, groupBy, zone)
      && r[i].totalViews == Total(g, Views)
      && r[i].totalLikes == Total(g, Likes)
      && r[i].totalComments == Total(g, Comments)
      && r[i].totalShares == Total(g, Shares)
      && r[i].totalWatchTime == Total(g, WatchTime)
      && r[i].averageEngagementRate == RunningRate(g)
  {
    FoldSpec(ms, KeyFn(groupBy, zone), PeriodFn(groupBy, zone));
    Values(Fold(ms, KeyFn(groupBy, zone), PeriodFn(groupBy, zone)))
  }

  /** Records share an aggregate exactly when they have the same video and the same period start. */
  lemma GroupKeyMeansBucket(a: VideoMetrics, b: VideoMetrics, groupBy: Granularity, zone: int)
    ensures KeyFn(groupBy, zone)(a) == KeyFn(groupBy, zone)(b)
        <==> (a.videoId == b.videoId
              && GetPeriodDate(a.timestamp, groupBy, zone) == GetPeriodDate(b.timestamp, groupBy, zone))
  {
    PeriodKeyMatchesDate(a.timestamp, b.timestamp, groupBy, zone);
  }

  /** Every record of an aggregate has the aggregate's video and period. */
  lemma AggregateIsHomogeneous(ms: seq<VideoMetrics>, groupBy: Granularity, zone: int, i: int, m: VideoMetrics)
    requires 0 <= i < |AggregateMetrics(ms, groupBy, zone)|
    requires m in Members(ms, KeyFn(groupBy, zone), FirstSeen(KeysOf(ms, KeyFn(groupBy, zone)))[i])
    ensures m.videoId == AggregateMetrics(ms, groupBy, zone)[i].videoId
    ensures GetPeriodDate(m.timestamp, groupBy, zone) == AggregateMetrics(ms, groupBy, zone)[i].period
  {
    var k := FirstSeen(KeysOf(ms, KeyFn(groupBy, zone)))[i];
    var g := Members(ms, KeyFn(groupBy, zone), k);
    GroupKeyMeansBucket(m, g[0], groupBy, zone);
  }

  /** The loop over two records: one merged entry when their keys agree, two seeded entries otherwise. */
  lemma FoldPair<K>(a: VideoMetrics, b: VideoMetrics, keyOf: VideoMetrics -> K, periodOf: VideoMetrics -> Date)
    ensures keyOf(a) == keyOf(b) ==> Fold([a, b], keyOf, periodOf) == [Entry(keyOf(a), Absorb(Seed(a, periodOf(a)), b))]
    ensures keyOf(a) != keyOf(b) ==> Fold([a, b], keyOf, periodOf) == [Entry(keyOf(a), Seed(a, periodOf(a))), Entry(keyOf(b), Seed(b, periodOf(b)))]
  {
    assert [a, b][..1] == [a];
    assert [a][..0] == [];
    var e := Entry(keyOf(a), Seed(a, periodOf(a)));
    assert Fold([a], keyOf, periodOf) == Step([], a, keyOf(a), periodOf(a)) == [e];
    assert [e][..0] == [];
    assert Fold([a, b], keyOf, periodOf) == Step([e], b, keyOf(b), periodOf(b));
  }

  /** The worked example's first record: video-123 on 2023-01-01 at 10:00 UTC. */
  function MorningRecord(): VideoMetrics {
    VideoMetrics("video-123", Some(1672567200000), 1000.0, 100.0, 5.0, 50.0, 25.0, 15000.0, 150.0, 0.18)
  }

  /** The worked example's second record: the same video at 14:00 UTC. */
  function AfternoonRecord(): VideoMetrics {
    VideoMetrics("video-123", Some(1672581600000), 500.0, 50.0, 2.0, 25.0, 10.0, 7500.0, 150.0, 0.17)
  }

  /** Both records fall on the day starting at 2023-01-01T00:00Z. */
  lemma ExampleDays()
    ensures GetPeriodDate(MorningRecord().timestamp, Day, 0) == Some(1672531200000)
    ensures GetPeriodDate(AfternoonRecord().timestamp, Day, 0) == Some(1672531200000)
  {
  }

  /** Each record starts its own hour. */
  lemma ExampleHours()
    ensures GetPeriodDate(MorningRecord().timestamp, Hour, 0) == Some(1672567200000)
    ensures GetPeriodDate(AfternoonRecord().timestamp, Hour, 0) == Some(1672581600000)
  {
  }

  /**
   * The worked example by day: the two records merge into one aggregate with
   * views 1000 + 500 and the rates' mean.
   */
  lemma AggregateByDayExample()
    ensures AggregateMetrics([MorningRecord(), AfternoonRecord()], Day, 0)
      == [AggregatedMetrics(Some(1672531200000), "video-123", 1500.0, 150.0, 75.0, 35.0, (0.18 + 0.17) / 2.0, 22500.0)]
    ensures AggregateMetrics([], Day, 0) == []
  {
    var a, b := MorningRecord(), AfternoonRecord();
    ExampleDays();
    GroupKeyMeansBucket(a, b, Day, 0);
    FoldPair(a, b, KeyFn(Day, 0), PeriodFn(Day, 0));
  }

  /** The worked example by hour: the records stay apart, in input order. */
  lemma AggregateByHourExample()
    ensures var r := AggregateMetrics([MorningRecord(), AfternoonRecord()], Hour, 0);
      |r| == 2 && r[0].totalViews == 1000.0 && r[1].totalViews == 500.0
  {
    var a, b := MorningRecord(), AfternoonRecord();
    ExampleHours();
    GroupKeyMeansBucket(a, b, Hour, 0);
    FoldPair(a, b, KeyFn(Hour, 0), PeriodFn(Hour, 0));
  }

  // ---------------------------------------------------------------------------
  // The string key the source builds
  // ---------------------------------------------------------------------------

  /**
   * The text `getPeriodKey` returns: the fields joined by "-", months counted
   * from 0; an Invalid Date prints "NaN" in each field of its granularity.
   */
  function FormatPeriodKey(key: PeriodKey, groupBy: Granularity): string
  {
    match key
    case HourKey(y, m, d, h) => IntToString(y) + "-" + IntToString(m) + "-" + IntToString(d) + "-" + IntToString(h)
    case DayKey(y, m, d) => IntToString(y) + "-" + IntToString(m) + "-" + IntToString(d)
    case MonthKey(y, m) => IntToString(y) + "-" + IntToString(m)
    case NaNKey =>
      match groupBy
      case Hour => "NaN-NaN-NaN-NaN"
      case Month => "NaN-NaN"
      case _ => "NaN-NaN-NaN"
  }

  /** The map key of `aggregateMetrics` as written: the video id and the printed period joined by "-". */
  function SourceKeyFn(groupBy: Granularity, zone: int): VideoMetrics -> string {
    (m: VideoMetrics) => m.videoId + "-" + FormatPeriodKey(GetPeriodKey(m.timestamp, groupBy, zone), groupBy)
  }

  /** `aggregateMetrics` as written: records are grouped by the joined string key. */
  function SourceAggregateMetrics(ms: seq<VideoMetrics>, groupBy: Granularity, zone: int): (r: seq<AggregatedMetrics>)
    ensures |r| == |FirstSeen(KeysOf(ms, SourceKeyFn(groupBy, zone)))|
    ensures forall i :: 0 <= i < |r| ==>
      var g := Members(ms, SourceKeyFn(groupBy, zone), FirstSeen(KeysOf(ms, SourceKeyFn(groupBy, zone)))[i]);
      && |g| > 0
      && r[i] == Summary(g, PeriodFn(groupBy, zone))
  {
    FoldSpec(ms, SourceKeyFn(groupBy, zone), PeriodFn(groupBy, zone));
    Values(Fold(ms, SourceKeyFn(groupBy, zone), PeriodFn(groupBy, zone)))
  }

  /** Records the pair key puts together the string key puts together too: the string key is never finer. */
  lemma SourceKeyCoarser(a: VideoMetrics, b: VideoMetrics, groupBy: Granularity, zone: int)
    requires KeyFn(groupBy, zone)(a) == KeyFn(groupBy, zone)(b)
    ensures SourceKeyFn(groupBy, zone)(a) == SourceKeyFn(groupBy, zone)(b)
  {
  }

  /** A record of video `id` at local midnight of calendar date `c` (zone 0), one view and nothing else. */
  function Probe(id: string, c: CivilDate): (m: VideoMetrics)
    requires ValidCivil(c)
    ensures GetPeriodKey(m.timestamp, Day, 0) == DayKey(c.year, c.month, c.day)
  {
    var d := DayOfCivil(c);
    DayDivUnique(MsPerDay * d, d);
    CivilOfDayOfCivil(c);
    VideoMetrics(id, Some(MsPerDay * d), 1.0, 0.0, 0.0, 0.0, 0.0, 0.0, 0.0, 0.0)
  }

  lemma CollidingPeriodTexts()
    ensures FormatPeriodKey(DayKey(-1, 0, 1), Day) == "-1-0-1"
    ensures FormatPeriodKey(DayKey(1, 0, 1), Day) == "1-0-1"
    ensures "a" + "-" + FormatPeriodKey(DayKey(-1, 0, 1), Day) == "a--1-0-1"
    ensures "a-" + "-" + FormatPeriodKey(DayKey(1, 0, 1), Day) == "a--1-0-1"
  {
    assert DigitChar(1) == '1';
    assert DigitChar(0) == '0';
    assert NatToString(1) == "1";
    assert NatToString(0) == "0";
  }

  /**
   * The string key collides: a record of video "a" on 1 January of year -1 (2 BCE)
   * and one of video "a-" on 1 January of year 1 both print as "a--1-0-1",
   * so the source merges two videos into one aggregate, where the pair key
   * keeps them apart. `Probe` builds such records.
   */
  lemma SourceKeyCollision(a: VideoMetrics, b: VideoMetrics)
    requires a.videoId == "a" && GetPeriodKey(a.timestamp, Day, 0) == DayKey(-1, 0, 1)
    requires b.videoId == "a-" && GetPeriodKey(b.timestamp, Day, 0) == DayKey(1, 0, 1)
    ensures SourceKeyFn(Day, 0)(a) == SourceKeyFn(Day, 0)(b) == "a--1-0-1"
    ensures |SourceAggregateMetrics([a, b], Day, 0)| == 1
    ensures SourceAggregateMetrics([a, b], Day, 0)[0].videoId == "a"
    ensures SourceAggregateMetrics([a, b], Day, 0)[0].totalViews == a.views + b.views
    ensures |AggregateMetrics([a, b], Day, 0)| == 2
  {
    CollidingPeriodTexts();
    assert SourceKeyFn(Day, 0)(a) == "a" + "-" + FormatPeriodKey(DayKey(-1, 0, 1), Day);
    assert SourceKeyFn(Day, 0)(b) == "a-" + "-" + FormatPeriodKey(DayKey(1, 0, 1), Day);
    FoldPair(a, b, SourceKeyFn(Day, 0), PeriodFn(Day, 0));
    FoldPair(a, b, KeyFn(Day, 0), PeriodFn(Day, 0));
  }

  /** The collision happens: concrete records of video "a" in year -1 (2 BCE) and video "a-" in year 1 meet the premises above. */
  lemma SourceKeyCollisionWitness()
    ensures var a, b := Probe("a", CivilDate(-1, 0, 1)), Probe("a-", CivilDate(1, 0, 1));
      && |SourceAggregateMetrics([a, b], Day, 0)| == 1
      && |AggregateMetrics([a, b], Day, 0)| == 2
  {
    var a, b := Probe("a", CivilDate(-1, 0, 1)), Probe("a-", CivilDate(1, 0, 1));
    SourceKeyCollision(a, b);
  }
}
