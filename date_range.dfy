/**
 * The date-range resolver: `parse_iso_date` and `build_date_range`.
 * Dates are day ordinals; "now" is a parameter; ISO parsing is an opaque
 * partial function given by the caller.
 */
module DateRanges {
  import opened Wrappers

  const DefaultHistoryDays: int := 180

  /** The ordinals of `datetime.min` (0001-01-01) and `datetime.max` (9999-12-31). */
  const MinDay: int := 1
  const MaxDay: int := 3652059

  /**
   * `InvalidDate` and `InvalidRange` are the ValueErrors of the source;
   * `Overflow` is the OverflowError of a default start before 0001-01-01
   * or after 9999-12-31.
   */
  datatype RangeError = InvalidDate(text: string) | InvalidRange | Overflow

  /** A stand-in for `datetime.fromisoformat`: a day ordinal, or None when the text does not parse. */
  type IsoParser = string -> Option<int>

  /** Python's truthiness of an optional string: present and non-empty. */
  predicate Provided(s: Option<string>) {
    s.Some? && s.value != ""
  }

  /** Fails with the offending text exactly when the parser rejects it. */
  function ParseIsoDate(parse: IsoParser, text: string): (r: Result<int, RangeError>)
    ensures r.Ok? <==> parse(text).Some?
    ensures r.Ok? ==> Some(r.value) == parse(text)
    ensures r.Err? ==> r.error == InvalidDate(text)
  {
    match parse(text)
    case Some(d) => Ok(d)
    case None => Err(InvalidDate(text))
  }

  /**
   * `end` is parsed first, then `start`; a missing or empty `end` means
   * `now`, a missing or empty `start` means `window` days before the end,
   * which overflows when that day is outside the calendar. A successful
   * range never has its start after its end.
   */
  function BuildDateRange(start: Option<string>, end: Option<string>, window: int, now: int, parse: IsoParser)
    : (r: Result<(int, int), RangeError>)
    ensures r.Ok? ==> r.value.0 <= r.value.1
    ensures r.Ok? ==> if Provided(end) then parse(end.value) == Some(r.value.1) else r.value.1 == now
    ensures r.Ok? ==> if Provided(start) then parse(start.value) == Some(r.value.0) else r.value.0 == r.value.1 - window
    ensures Provided(end) && parse(end.value).None? ==> r == Err(InvalidDate(end.value))
    ensures r == Err(Overflow) <==>
              && !Provided(start) && (!Provided(end) || parse(end.value).Some?)
              && var e := if Provided(end) then parse(end.value).value else now;
                 !(MinDay <= e - window <= MaxDay)
    ensures r.Err? && r.error.InvalidDate? ==>
              (Provided(end) && r.error.text == end.value && parse(end.value).None?) ||
              (Provided(start) && r.error.text == start.value && parse(start.value).None?)
  {
    var endDay :- if Provided(end) then ParseIsoDate(parse, end.value) else Ok(now);
    var startDay :- if Provided(start) then ParseIsoDate(parse, start.value)
                    else if MinDay <= endDay - window <= MaxDay then Ok(endDay - window)
                    else Err(Overflow);
    if startDay > endDay then Err(InvalidRange) else Ok((startDay, endDay))
  }

  /** `build_date_range` with the default window of 180 days. */
  function BuildDefaultDateRange(start: Option<string>, end: Option<string>, now: int, parse: IsoParser)
    : (r: Result<(int, int), RangeError>)
    ensures r.Ok? && !Provided(start) ==> r.value.1 - r.value.0 == 180
  {
    BuildDateRange(start, end, DefaultHistoryDays, now, parse)
  }

  /** Both dates given and in order: the result is exactly the parsed pair. */
  lemma BothDatesGiven(s: string, e: string, window: int, now: int, parse: IsoParser)
    requires s != "" && e != ""
    requires parse(s).Some? && parse(e).Some? && parse(s).value <= parse(e).value
    ensures BuildDateRange(Some(s), Some(e), window, now, parse) == Ok((parse(s).value, parse(e).value))
  {
  }

  /** The range is rejected as out of order exactly when both ends resolve and the start is after the end. */
  lemma InvalidRangeExactly(start: Option<string>, end: Option<string>, window: int, now: int, parse: IsoParser)
    ensures BuildDateRange(start, end, window, now, parse) == Err(InvalidRange) <==>
      (!Provided(end) || parse(end.value).Some?) &&
      (!Provided(start) || parse(start.value).Some?) &&
      var e := if Provided(end) then parse(end.value).value else now;
      var s := if Provided(start) then parse(start.value).value else e - window;
      (Provided(start) || MinDay <= s <= MaxDay) && s > e
  {
  }

  /**
   * With a non-negative window and no start the range is never out of order:
   * once the end resolves, it fails only when the default start leaves the calendar.
   */
  lemma DefaultStartNeverInverted(end: Option<string>, window: int, now: int, parse: IsoParser)
    requires 0 <= window
    requires !Provided(end) || parse(end.value).Some?
    ensures BuildDateRange(None, end, window, now, parse) != Err(InvalidRange)
    ensures var e := if Provided(end) then parse(end.value).value else now;
            BuildDateRange(None, end, window, now, parse).Ok? <==> MinDay <= e - window <= MaxDay
  {
  }

  /** Only an end date given: the start is 180 days before it, or the subtraction overflows. */
  lemma EndOnlyDefaultsStart(e: string, now: int, parse: IsoParser)
    requires e != "" && parse(e).Some?
    ensures var d := parse(e).value;
            BuildDefaultDateRange(None, Some(e), now, parse) ==
              if MinDay <= d - 180 <= MaxDay then Ok((d - 180, d)) else Err(Overflow)
  {
  }

  /** An end of 0001-01-01 with no start: the default start would precede the calendar. */
  lemma EarliestEndOverflows(e: string, now: int, parse: IsoParser)
    requires e != "" && parse(e) == Some(MinDay)
    ensures BuildDefaultDateRange(None, Some(e), now, parse) == Err(Overflow)
  {
  }
}
