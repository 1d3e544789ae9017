/**
 * The date helpers of `packages/rankiro/src/utils/date-utils.ts`.
 *
 * A `Date` is its time value in milliseconds, `None` for an Invalid Date.
 * Relational operators on two `Date` objects compare their time values,
 * and any comparison with NaN is false. The string parser of `new Date(s)`
 * is a function parameter.
 */
module DateUtils {
  import opened Wrappers
  import opened Types
  import opened JsValues
  import opened Calendar

  /** `isValidDate`: a `Date` object whose time value is not NaN. */
  function IsValidDate(v: JsValue): (r: bool)
    ensures r <==> v.JsDate? && v.date.Some?
    ensures !v.JsDate? ==> !r
  {
    match v
    case JsDate(Some(_)) => true
    case _ => false
  }

  /** `parseAPIDate`: the parsed date, or the error "Invalid date string: <s>" when it is invalid. */
  function ParseAPIDate(s: string, parse: string -> Date): (r: Result<Date, string>)
    ensures r.Failure? <==> !IsValidDate(JsDate(parse(s)))
    ensures r.Failure? ==> r.error == "Invalid date string: " + s
    ensures r.Success? ==> r.value == parse(s) && r.value.Some?
  {
    if IsValidDate(JsDate(parse(s))) then Success(parse(s)) else Failure("Invalid date string: " + s)
  }

  /** `Math.ceil(x / d)` for an integer `x` and a positive integer `d`. */
  function CeilDiv(x: int, d: int): (q: int)
    requires d > 0
    ensures (q - 1) * d < x <= q * d
  {
    -((-x) / d)
  }

  /** `getDaysDifference`: the whole days from `start` to `end`, rounded up; NaN when either date is invalid. */
  function GetDaysDifference(start: Date, end: Date): (r: Option<int>)
    ensures r.Some? <==> start.Some? && end.Some?
    ensures r.Some? ==> (r.value - 1) * MsPerDay < end.value - start.value <= r.value * MsPerDay
  {
    if start.Some? && end.Some? then Some(CeilDiv(end.value - start.value, MsPerDay)) else None
  }

  /** Equal instants are zero days apart; a positive gap of at most a day counts as one. */
  lemma DaysDifferenceSmallGaps(start: int, end: int)
    ensures start == end ==> GetDaysDifference(Some(start), Some(end)) == Some(0)
    ensures start < end <= start + MsPerDay ==> GetDaysDifference(Some(start), Some(end)) == Some(1)
  {
    var q := GetDaysDifference(Some(start), Some(end)).value;
    if start < end <= start + MsPerDay {
      assert q >= 1;
      assert q <= 1;
    }
  }

  /** Shifting both dates by the same amount leaves the difference unchanged. */
  lemma DaysDifferenceShift(start: int, end: int, shift: int)
    ensures GetDaysDifference(Some(start + shift), Some(end + shift)) == GetDaysDifference(Some(start), Some(end))
  {
    assert (end + shift) - (start + shift) == end - start;
  }

  /** `isWithinDateRange`: `start <= date <= end`, both ends inclusive. */
  function IsWithinDateRange(date: Date, start: Date, end: Date): (r: bool)
    ensures r ==> date.Some? && start.Some? && end.Some?
    ensures r ==> start.value <= date.value <= end.value
    ensures date.Some? && start.Some? && end.Some? && start.value <= date.value <= end.value ==> r
  {
    match (date, start, end)
    case (Some(t), Some(s), Some(e)) => s <= t && t <= e
    case _ => false
  }

  /** A range whose start is after its end contains nothing. */
  lemma EmptyRange(date: Date, start: int, end: int)
    requires start > end
    ensures !IsWithinDateRange(date, Some(start), Some(end))
  {
  }

  /** Both ends belong to a non-empty range. */
  lemma RangeEndsInclusive(start: int, end: int)
    requires start <= end
    ensures IsWithinDateRange(Some(start), Some(start), Some(end))
    ensures IsWithinDateRange(Some(end), Some(start), Some(end))
  {
  }
}
