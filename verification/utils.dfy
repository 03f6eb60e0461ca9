/** `checkEndDateAfterStartDate` and the date format constant of
    `src/utils/index.ts`. The dayjs parser it calls is a parameter `parse`;
    the lemmas that need to know how it treats particular strings say so
    through `ParsesIsoDates`. */
module Utils {
  import opened Wrappers
  import opened Calendar
  import FullDate

  /** The application's date text format: the RFC 3339 full-date written by
      `FullDate.FormatFullDate`. */
  const DEFAULT_DATE_FORMAT := "YYYY-MM-DD"

  /** `!s` on a `string | undefined`: JavaScript's `ToBoolean` makes
      `undefined` and the empty string falsy and every other string truthy. */
  function IsAbsent(s: Option<string>): (falsy: bool)
    ensures falsy <==> s == None || s == Some("")
  {
    match s
    case None => true
    case Some(t) => |t| == 0
  }

  /** What the lemmas below assume about the lenient date parser: every
      full-date string with a year from 0100 on parses to the date it writes,
      and the test table's `"invalid-date"` does not parse. Nothing else is
      assumed: out-of-range days such as `2023-02-30` may parse (rolled over),
      and years 0000-0099 may be read as 1900-1999, as JavaScript's `Date`
      constructor reads them. */
  ghost predicate ParsesIsoDates(parse: string -> Option<Date>) {
    && (forall s :: FullDate.IsFullDate(s) && FullDate.FieldsOf(s).year >= 100 ==>
          parse(s) == FullDate.ParseFullDate(s))
    && parse("invalid-date").None?
  }

  /** The assumption is met, for one, by the strict full-date parser. */
  lemma StrictParserQualifies()
    ensures ParsesIsoDates(FullDate.ParseFullDate)
  {
    FullDate.ShapeSamples();
  }

  /** The strict full-date parser with years 0000-0099 read as 1900-1999, the
      way the `Date` constructor behind dayjs reads them. */
  function CenturyShiftingParse(s: string): (r: Option<Date>)
    ensures r.Some? <==> FullDate.IsFullDate(s)
    ensures r.Some? && FullDate.FieldsOf(s).year < 100 ==> r.value.year == FullDate.FieldsOf(s).year + 1900
  {
    match FullDate.ParseFullDate(s)
    case None => None
    case Some(d) => if d.year < 100 then Some(Date(d.year + 1900, d.month, d.day)) else Some(d)
  }

  /** The assumption admits that reading of two-digit years as well. */
  lemma CenturyShiftingQualifies()
    ensures ParsesIsoDates(CenturyShiftingParse)
  {
    FullDate.ShapeSamples();
  }

  /** The date-ordering check: passes when either date is missing or empty;
      otherwise passes exactly when both parse and the end date is the start
      date or a later one. */
  function CheckEndDateAfterStartDate(startDate: Option<string>, endDate: Option<string>,
                                      parse: string -> Option<Date>): (ok: bool)
    ensures IsAbsent(startDate) || IsAbsent(endDate) ==> ok
    ensures !IsAbsent(startDate) && !IsAbsent(endDate) ==>
      (parse(startDate.value).None? || parse(endDate.value).None? ==> !ok)
    ensures !IsAbsent(startDate) && !IsAbsent(endDate) ==>
      (parse(startDate.value).Some? && parse(endDate.value).Some? ==>
        (ok <==> OnOrAfter(parse(endDate.value).value, parse(startDate.value).value)))
  {
    if IsAbsent(startDate) || IsAbsent(endDate) then true
    else
      var s := parse(startDate.value);
      var e := parse(endDate.value);
      s.Some? && e.Some? && !Before(e.value, s.value)
  }

  /** Two present strings whose dates parse. */
  predicate BothParse(a: string, b: string, parse: string -> Option<Date>) {
    a != "" && b != "" && parse(a).Some? && parse(b).Some?
  }

  /** The same date as start and end passes. */
  lemma Reflexive(s: string, parse: string -> Option<Date>)
    requires s != "" && parse(s).Some?
    ensures CheckEndDateAfterStartDate(Some(s), Some(s), parse)
  {
  }

  /** An end date one day after the start passes; swapped, it fails. */
  lemma NextDayOrdered(s: string, t: string, parse: string -> Option<Date>)
    requires BothParse(s, t, parse)
    requires IsValid(parse(s).value) && parse(t).value == NextDay(parse(s).value)
    ensures CheckEndDateAfterStartDate(Some(s), Some(t), parse)
    ensures !CheckEndDateAfterStartDate(Some(t), Some(s), parse)
  {
  }

  /** For two present strings with different dates exactly one order passes;
      with the same date both do. */
  lemma ExactlyOneOrder(a: string, b: string, parse: string -> Option<Date>)
    requires BothParse(a, b, parse)
    ensures parse(a) != parse(b) ==>
      CheckEndDateAfterStartDate(Some(a), Some(b), parse) != CheckEndDateAfterStartDate(Some(b), Some(a), parse)
    ensures parse(a) == parse(b) ==>
      CheckEndDateAfterStartDate(Some(a), Some(b), parse) && CheckEndDateAfterStartDate(Some(b), Some(a), parse)
  {
  }

  /** The check is transitive over present, parsable dates. */
  lemma Transitive(a: string, b: string, c: string, parse: string -> Option<Date>)
    requires BothParse(a, b, parse) && BothParse(b, c, parse)
    requires CheckEndDateAfterStartDate(Some(a), Some(b), parse)
    requires CheckEndDateAfterStartDate(Some(b), Some(c), parse)
    ensures CheckEndDateAfterStartDate(Some(a), Some(c), parse)
  {
  }

  /** A present string that does not parse fails the check whatever the other
      present string is, in either position. */
  lemma UnparsableFails(bad: string, other: string, parse: string -> Option<Date>)
    requires bad != "" && other != "" && parse(bad).None?
    ensures !CheckEndDateAfterStartDate(Some(bad), Some(other), parse)
    ensures !CheckEndDateAfterStartDate(Some(other), Some(bad), parse)
  {
  }

  /** The rows of the unit-test table, for any parser that reads full-dates
      as written and rejects `"invalid-date"`. */
  lemma TestTable(parse: string -> Option<Date>)
    requires ParsesIsoDates(parse)
    ensures CheckEndDateAfterStartDate(None, None, parse)
    ensures CheckEndDateAfterStartDate(Some("2023-01-01"), None, parse)
    ensures CheckEndDateAfterStartDate(None, Some("2023-01-01"), parse)
    ensures CheckEndDateAfterStartDate(Some("2023-01-01"), Some("2023-01-02"), parse)
    ensures CheckEndDateAfterStartDate(Some("2023-01-01"), Some("2023-01-01"), parse)
    ensures !CheckEndDateAfterStartDate(Some("2023-01-02"), Some("2023-01-01"), parse)
    ensures !CheckEndDateAfterStartDate(Some("invalid-date"), Some("2023-01-01"), parse)
    ensures !CheckEndDateAfterStartDate(Some("2023-01-01"), Some("invalid-date"), parse)
    ensures !CheckEndDateAfterStartDate(Some("invalid-date"), Some("invalid-date"), parse)
  {
    assert FullDate.IsFullDate("2023-01-01") && FullDate.IsFullDate("2023-01-02");
  }

  /** With a full-date parser, a formatted day from year 0100 on and the
      formatted next day pass in that order and fail swapped. */
  lemma FormattedNextDay(d: Date, parse: string -> Option<Date>)
    requires ParsesIsoDates(parse)
    requires IsValid(d) && 100 <= d.year && NextDay(d).year <= 9999
    ensures CheckEndDateAfterStartDate(Some(FullDate.FormatFullDate(d)), Some(FullDate.FormatFullDate(NextDay(d))), parse)
    ensures !CheckEndDateAfterStartDate(Some(FullDate.FormatFullDate(NextDay(d))), Some(FullDate.FormatFullDate(d)), parse)
  {
    FullDate.ParseFormat(d);
    FullDate.ParseFormat(NextDay(d));
  }
}
