# Weather history form: input validation and place selection

A Dafny model of the validation core of a small weather-history web form
(a Vue application). A user enters a start date, an end date and a location.
The form accepts the input only if it passes a zod schema. A geocoding query
then resolves the location to a place. The model covers three pure pieces of
that path:

- `checkEndDateAfterStartDate` (`src/utils/index.ts`). It checks the date
  order and lets missing or empty values through. The dayjs parser it calls
  is modelled as a function parameter `parse: string -> Option<Date>`.
  Lemmas that need to know how particular strings parse assume only
  `Utils.ParsesIsoDates`: every RFC 3339 full-date with a year from 0100 on
  parses to the date it writes, and `"invalid-date"` does not parse. Nothing
  is assumed about other strings. A lenient parser may roll `2023-02-30` over
  to March 2. It may also read the years 0000-0099 as 1900-1999, which is what
  JavaScript's `Date` constructor, called by dayjs, does with them.
- `InputFormSchema` (`src/types/index.ts`). `startDate` and `endDate` must be
  ISO full-dates: the `YYYY-MM-DD` production of section 5.6 of RFC 3339,
  with the day-of-month and leap-year limits of section 5.7. `location` is
  trimmed with ECMAScript `String.prototype.trim` and must then be non-empty;
  otherwise it fails with the message `Location must not be empty`. Unknown
  keys are stripped. Errors from all fields are collected in key order.
- `useGeolocation` (`src/queries/geolocation.query.ts`). The query is
  enabled when `location.value != undefined`, a loose comparison, so `null`
  also disables it. It picks `data.find(d => d.place_id === place.value) ||
  data[0]`. The comparison is strict. A result with no `place_id` is
  `undefined`, so it matches an `undefined` place. A `null` place matches only
  a result whose `place_id` is JSON `null`.

Modules, one per file: `Wrappers` (Option, Result), `Calendar` (Gregorian
dates and their order), `FullDate` (RFC 3339 full-date parsing and the
`YYYY-MM-DD` format), `JsString` (trim), `Utils`, `Types` and
`GeolocationQuery`.

The schema has no rule across fields: although the ordering check sits in
`src/utils/index.ts`, the schema does not call it, and
`Types.NoOrderingRule` states that it enforces no order. The unit test
imports `checkEndDateAfterStartDate` from `@/types`, but the function is
defined in `src/utils/index.ts`, and that definition is the one modelled.

## Model

| member | source | states |
|---|---|---|
| `Utils.IsAbsent` | src/utils/index.ts:6 | `!startDate` is true exactly for `undefined` and for the empty string |
| `Utils.CenturyShiftingQualifies` | src/utils/index.ts:8-10 | the parser assumption admits a dayjs-like parser that reads years 0000-0099 as 1900-1999 |
| `Utils.CheckEndDateAfterStartDate` | src/utils/index.ts:5-12 | passes when either value is undefined or `""`; otherwise fails if either string does not parse, and for two parsed dates passes exactly when the end is the start day or a later one |
| `Utils.UnparsableFails` | src/utils/index.ts:8-9 | a present string that does not parse fails the check whatever the other present string is, in either position |
| `Utils.Reflexive` | src/types/__tests__/index.spec.ts:25-30 | the same parsable string as start and end passes |
| `Utils.NextDayOrdered` | src/types/__tests__/index.spec.ts:19-36 | an end date one calendar day after the start passes, and the swapped pair fails |
| `Utils.ExactlyOneOrder` | src/utils/index.ts:10 | for two present strings with different parsed dates exactly one order passes; with equal dates both orders pass |
| `Utils.Transitive` | src/utils/index.ts:10 | passing for (a, b) and for (b, c) implies passing for (a, c) |
| `Utils.TestTable` | src/types/__tests__/index.spec.ts:5-60 | all nine rows of the unit-test table hold for any parser that reads full-dates from year 0100 on as written and rejects `invalid-date` |
| `Utils.FormattedNextDay` | src/utils/index.ts:3-10 | a day from year 0100 on and the next day, both written in the `YYYY-MM-DD` format, pass in that order and fail swapped |
| `Calendar.NextDay` | src/types/__tests__/index.spec.ts:19-24 | the day after a valid day is valid and later, and no valid day lies strictly between them |
| `Calendar.BeforeIsStrictTotalOrder` | src/utils/index.ts:10 | the day order behind `isBefore` is irreflexive, asymmetric, transitive and total |
| `FullDate.ParseFullDate` | src/types/index.ts:5-6 | a string parses exactly when it is a full-date (four-digit year, month 01-12, day within that month's length in that year), and then to a valid date |
| `FullDate.FormatFullDate` | src/utils/index.ts:3 | a date is written in the zero-padded `YYYY-MM-DD` shape |
| `FullDate.ParseFormat` | src/utils/index.ts:3 | a valid date with a four-digit year, once formatted, is a full-date that parses back to the same date |
| `FullDate.FormatParse` | src/types/index.ts:5-6 | every accepted full-date is the canonical formatting of the date it parses to |
| `FullDate.FebruaryTwentyNinth` | src/types/index.ts:5-6 | `YYYY-02-29` is accepted exactly when YYYY is a Gregorian leap year |
| `FullDate.AcceptedSamples` | src/types/index.ts:5-6 | `2023-01-01`, `2024-02-29` and `2000-02-29` are accepted |
| `FullDate.DayLimitSamples` | src/types/index.ts:5-6 | `2023-02-30`, `2023-04-31`, `2023-02-29` and `1900-02-29` are rejected |
| `FullDate.ShapeSamples` | src/types/index.ts:5-6 | month 13, month 00, a one-digit month, `""` and `invalid-date` are rejected |
| `JsString.LeadingWhitespace` | src/types/index.ts:7 | measures the run of white space at the start of a string, which ends at the first other character |
| `JsString.TrailingWhitespaceStart` | src/types/index.ts:7 | finds where the run of white space at the end of a string begins, just after the last other character |
| `JsString.Trim` | src/types/index.ts:7 | the trimmed string has no white space at either end, and it is empty exactly when the input is all white space |
| `JsString.TrimIsSlice` | src/types/index.ts:7 | the trimmed string is a contiguous slice of the input, and only white space lies before and after it |
| `JsString.TrimUnpadded` | src/types/index.ts:7 | a string with no white space at either end is left unchanged |
| `JsString.TrimIdempotent` | src/types/index.ts:7 | trimming twice gives the same result as trimming once |
| `JsString.TrimPaddedSample` | src/types/index.ts:7 | `" Paris "` trims to `"Paris"` |
| `JsString.TrimInnerSample` | src/types/index.ts:7 | inner white space is kept: `"New York"` is unchanged |
| `JsString.TrimBlankSample` | src/types/index.ts:7 | a space followed by a tab trims to `""` |
| `Types.CheckIsoDate` | src/types/index.ts:5-6 | a date field succeeds exactly for a string that is a full-date, and returns it unchanged; a missing or non-string value is an invalid-type error, and any other string is an invalid-date error |
| `Types.CheckLocation` | src/types/index.ts:7 | the location succeeds exactly for a string that is not all white space, and returns it trimmed and non-empty; a missing or non-string value is an invalid-type error, and a blank string fails with `Location must not be empty` |
| `Types.Validate` | src/types/index.ts:3-9 | the input is accepted exactly when each of the three fields passes its own rule. On success the dates are copied and the location trimmed. On failure there are one to three errors in key order: each field has an error exactly when it fails, and each error correctly says why |
| `Types.ToInput` | src/types/index.ts:9 | the record as an object has exactly the keys `startDate`, `endDate` and `location`, all of them strings |
| `Types.StripsUnknownKeys` | src/types/index.ts:9 | adding or changing a key outside the schema does not change the outcome |
| `Types.OnlySchemaKeysMatter` | src/types/index.ts:9 | validating an input gives the same result as validating it restricted to the schema keys |
| `Types.ValidateIdempotent` | src/types/index.ts:3-9 | validating an accepted record again accepts it unchanged |
| `Types.CanonicalFormAccepted` | src/types/index.ts:3-9 | a record with full-date dates and a non-empty location that has no white space at either end is accepted exactly as it is |
| `Types.AcceptedFields` | src/types/index.ts:3-9 | full-date dates and a location that is not blank are accepted, and the location comes back trimmed |
| `Types.NoOrderingRule` | src/types/index.ts:3-9 | the schema has no cross-field rule: exchanging the two dates of an accepted input keeps it accepted, with the dates exchanged |
| `Types.SwappedDatesAccepted` | src/types/index.ts:3-9 | with valid fields, the input with its two dates exchanged is accepted with the dates exchanged and the location trimmed |
| `Types.BlankLocationRejected` | src/types/index.ts:7 | with valid dates, a blank location fails with that location error alone, carrying the message `Location must not be empty` |
| `Types.AcceptedSample` | src/types/index.ts:7-9 | `" Paris "` is accepted as `"Paris"`, and an extra key with any value does not change the result |
| `Types.ReversedDatesSample` | src/types/index.ts:3-9 | an end date one day before the start date is accepted |
| `Types.RejectedSample` | src/types/index.ts:3-9 | `2023-02-30`, a missing `endDate` and a blank location produce three errors, in key order |
| `GeolocationQuery.QueryEnabled` | src/queries/geolocation.query.ts:13 | the loose `location.value != undefined` holds exactly for a defined location, so `null` disables the query as `undefined` does |
| `GeolocationQuery.MatchesPlace` | src/queries/geolocation.query.ts:22 | the strict `d.place_id === place.value` holds exactly when the two values, each a string, `null` or `undefined`, are the same value |
| `GeolocationQuery.EnabledIgnoresPlace` | src/queries/geolocation.query.ts:13 | whether the query is enabled does not depend on `place`, and the empty string counts as a defined location |
| `GeolocationQuery.FindIndex` | src/queries/geolocation.query.ts:22 | `find` returns the index of a matching result that has no match before it, or nothing when no result matches |
| `GeolocationQuery.ChooseGeolocation` | src/queries/geolocation.query.ts:22 | nothing is chosen exactly when the result list is empty. A chosen result is always in the list. It is the first result whose `place_id` equals `place`, or `data[0]` when none matches |
| `GeolocationQuery.FindIndexIsFirstOfMatching` | src/queries/geolocation.query.ts:22 | `find` finds nothing exactly when the list filtered by `place` is empty; otherwise it finds the head of that filtered list |
| `GeolocationQuery.ChooseByMatching` | src/queries/geolocation.query.ts:22 | the chosen result is the head of the filtered list if there is one, else the head of the result list, else nothing |
| `GeolocationQuery.Samples` | src/queries/geolocation.query.ts:22 | the first of two matches wins. With no match, the head is chosen. A result without `place_id` is chosen for an `undefined` place, and one whose `place_id` is `null` for a `null` place; neither matches the other |

## Left out

- The dayjs parser is not modelled. It becomes the `parse` parameter, with
  only the assumption `Utils.ParsesIsoDates`. Its handling of non-ISO
  strings, its day roll-over, and its time-of-day and time-zone handling are
  outside the model.
- Utils.FormattedNextDay: makes no claim for years 0000-0099. dayjs reads
  them as 1900-1999, so `0099-12-31` followed by `0100-01-01` fails the
  check, and the parser assumption leaves those years open.
- Utils.CheckEndDateAfterStartDate: dayjs's `isBefore` compares instants,
  while the model compares the (year, month, day) that `parse` returns. The
  two agree when each string resolves to the start of its day, as date-only
  strings do. For two times on the same day, the program can fail where the
  model passes: `2023-01-01T12:00` as start and `2023-01-01T08:00` as end.
- Utils.ExactlyOneOrder: "with equal dates both orders pass" has the same
  gap. It holds for strings that resolve to the start of their day, not for
  two different times on one day.
- Zod's default message texts are library wording and are not modelled.
  Only the custom location message is. Issues are modelled by kind:
  invalid type, invalid ISO date, too small.
- An input that is not an object at all is rejected by zod as a whole. The
  form always passes an object, so the model's input is always a key-value
  map.
- The fetch, the `response.ok` error path, `GeolocationSchema.parse` and the
  API URL in `useGeolocation` are network I/O, and `GeolocationSchema` is not
  part of this model. The query key and the query library's caching,
  including `staleTime` in `src/main.ts`, are outside the model too.
- A geocoding response that is not an array of objects is not modelled.
  Neither is a numeric `place_id`, which can never be strictly equal to a
  `place`, whose type is `string | null | undefined`. Results are modelled
  as objects, which are always truthy, so `|| data[0]` applies only when
  `find` returns `undefined`.
- `src/queries/historical-weather.query.ts` and
  `src/queries/reverse-geolocation.query.ts` are fetch wrappers whose only
  logic is a conjunction of "is defined" tests.
- The `InputForm` component and its test are left out: component mounting,
  DOM attributes, event timing, and the wall-clock "yesterday" defaults.
  `src/main.ts` and `vitest.config.ts` are application bootstrap and test
  configuration.
