/** `InputFormSchema` of `src/types/index.ts`: a zod object schema whose
    `startDate` and `endDate` are ISO dates, whose `location` is a trimmed
    non-empty string, and which strips unknown keys. */
module Types {
  import opened Wrappers
  import opened FullDate
  import opened JsString

  /** A JSON value as far as the schema looks at it: a string, or anything
      else (number, boolean, null, object, array). */
  datatype Value = Str(text: string) | NonString

  /** The object handed to the schema; a key that is not there is `undefined`. */
  type RawInput = map<string, Value>

  /** The schema's keys, in declaration order. */
  datatype Field = StartDate | EndDate | Location {
    function Key(): string {
      match this
      case StartDate => "startDate"
      case EndDate => "endDate"
      case Location => "location"
    }

    function Rank(): nat {
      match this
      case StartDate => 0
      case EndDate => 1
      case Location => 2
    }
  }

  const SCHEMA_KEYS: set<string> := {"startDate", "endDate", "location"}

  const EMPTY_LOCATION_MESSAGE := "Location must not be empty"

  /** Why a field was rejected: not a string (or missing), a string that is
      not an ISO date, or a string too short after trimming. */
  datatype Issue = InvalidType | InvalidIsoDate | TooSmall(message: string)

  datatype FieldError = FieldError(path: Field, issue: Issue)

  /** The validated record: exactly the three schema keys. */
  datatype InputForm = InputForm(startDate: string, endDate: string, location: string)

  /** The value at a field's key, if the key is present. */
  function Lookup(input: RawInput, f: Field): Option<Value> {
    if f.Key() in input then Some(input[f.Key()]) else None
  }

  /** `z.iso.date()`: a string that is an RFC 3339 full-date, passed through
      unchanged. */
  function CheckIsoDate(v: Option<Value>): (r: Result<string, Issue>)
    ensures r.Success? <==> v.Some? && v.value.Str? && IsFullDate(v.value.text)
    ensures r.Success? ==> r.value == v.value.text
    ensures r.Failure? ==> (r.error == InvalidType <==> !(v.Some? && v.value.Str?))
    ensures r.Failure? ==> r.error in {InvalidType, InvalidIsoDate}
  {
    match v
    case Some(Str(s)) => if IsFullDate(s) then Success(s) else Failure(InvalidIsoDate)
    case _ => Failure(InvalidType)
  }

  /** `z.string().trim().min(1, ...)`: a string, trimmed, then required to
      have at least one character. */
  function CheckLocation(v: Option<Value>): (r: Result<string, Issue>)
    ensures r.Success? <==> v.Some? && v.value.Str? && !AllWhitespace(v.value.text)
    ensures r.Success? ==> r.value == Trim(v.value.text) && |r.value| >= 1
    ensures r.Failure? ==> (r.error == InvalidType <==> !(v.Some? && v.value.Str?))
    ensures r.Failure? ==> r.error in {InvalidType, TooSmall(EMPTY_LOCATION_MESSAGE)}
  {
    match v
    case Some(Str(s)) =>
      var t := Trim(s);
      if |t| >= 1 then Success(t) else Failure(TooSmall(EMPTY_LOCATION_MESSAGE))
    case _ => Failure(InvalidType)
  }

  /** The error list contributed by one field's check. */
  function ErrorsOf<T>(f: Field, r: Result<T, Issue>): seq<FieldError> {
    if r.Failure? then [FieldError(f, r.error)] else []
  }

  // Specification-side predicates used by the contract of Validate.

  /** The field's key holds a string. */
  predicate IsString(input: RawInput, f: Field) {
    f.Key() in input && input[f.Key()].Str?
  }

  /** The schema's rule for one field. */
  predicate Accepts(input: RawInput, f: Field) {
    && IsString(input, f)
    && match f
       case StartDate => IsFullDate(input[f.Key()].text)
       case EndDate => IsFullDate(input[f.Key()].text)
       case Location => Trim(input[f.Key()].text) != []
  }

  /** The error truthfully describes what is wrong with its field. */
  predicate Describes(input: RawInput, e: FieldError) {
    match e.issue
    case InvalidType => !IsString(input, e.path)
    case InvalidIsoDate => e.path != Location && IsString(input, e.path) && !IsFullDate(input[e.path.Key()].text)
    case TooSmall(m) =>
      e.path == Location && IsString(input, e.path) && AllWhitespace(input[e.path.Key()].text)
      && m == EMPTY_LOCATION_MESSAGE
  }

  predicate AllDescribe(input: RawInput, errors: seq<FieldError>) {
    forall i :: 0 <= i < |errors| ==> Describes(input, errors[i])
  }

  predicate HasErrorAt(errors: seq<FieldError>, f: Field) {
    exists i :: 0 <= i < |errors| && errors[i].path == f
  }

  /** Errors come in schema key order, at most one per field. */
  predicate InKeyOrder(errors: seq<FieldError>) {
    forall i, j :: 0 <= i < j < |errors| ==> errors[i].path.Rank() < errors[j].path.Rank()
  }

  /** `InputFormSchema.safeParse`: every field is checked (errors are
      collected, not short-circuited); the result is the stripped, trimmed
      record or the list of field errors. */
  function Validate(input: RawInput): (r: Result<InputForm, seq<FieldError>>)
    ensures r.Success? <==> Accepts(input, StartDate) && Accepts(input, EndDate) && Accepts(input, Location)
    ensures r.Success? ==>
      && r.value.startDate == input["startDate"].text
      && r.value.endDate == input["endDate"].text
      && r.value.location == Trim(input["location"].text)
    ensures r.Failure? ==> 1 <= |r.error| <= 3 && InKeyOrder(r.error)
    ensures r.Failure? ==> forall f: Field :: HasErrorAt(r.error, f) <==> !Accepts(input, f)
    ensures r.Failure? ==> AllDescribe(input, r.error)
  {
    ErrorPathsOf(input);
    ErrorsDescribe(input);
    CollectIssues(Lookup(input, StartDate), Lookup(input, EndDate), Lookup(input, Location))
  }

  /** The schema run on the values found at its three keys. */
  function CollectIssues(start: Option<Value>, end: Option<Value>, location: Option<Value>)
    : Result<InputForm, seq<FieldError>>
  {
    var s := CheckIsoDate(start);
    var e := CheckIsoDate(end);
    var l := CheckLocation(location);
    if s.Success? && e.Success? && l.Success? then
      Success(InputForm(s.value, e.value, l.value))
    else
      Failure(ErrorsOf(StartDate, s) + ErrorsOf(EndDate, e) + ErrorsOf(Location, l))
  }

  lemma ErrorPathsOf(input: RawInput)
    ensures var r := CollectIssues(Lookup(input, StartDate), Lookup(input, EndDate), Lookup(input, Location));
      r.Failure? ==> forall f: Field :: HasErrorAt(r.error, f) <==> !Accepts(input, f)
  {
    ErrorPaths(CheckIsoDate(Lookup(input, StartDate)), CheckIsoDate(Lookup(input, EndDate)),
               CheckLocation(Lookup(input, Location)));
  }

  /** A field has an entry in the collected list exactly when its own check failed. */
  lemma ErrorPaths<A, B, C>(s: Result<A, Issue>, e: Result<B, Issue>, l: Result<C, Issue>)
    ensures var errors := ErrorsOf(StartDate, s) + ErrorsOf(EndDate, e) + ErrorsOf(Location, l);
      && (HasErrorAt(errors, StartDate) <==> s.Failure?)
      && (HasErrorAt(errors, EndDate) <==> e.Failure?)
      && (HasErrorAt(errors, Location) <==> l.Failure?)
  {
    var errors := ErrorsOf(StartDate, s) + ErrorsOf(EndDate, e) + ErrorsOf(Location, l);
    var n := |ErrorsOf(StartDate, s)|;
    var m := |ErrorsOf(EndDate, e)|;
    if s.Failure? { assert errors[0].path == StartDate; }
    if e.Failure? { assert errors[n].path == EndDate; }
    if l.Failure? { assert errors[n + m].path == Location; }
  }

  /** Every collected error describes its field. */
  lemma ErrorsDescribe(input: RawInput)
    ensures AllDescribe(input,
      ErrorsOf(StartDate, CheckIsoDate(Lookup(input, StartDate)))
      + ErrorsOf(EndDate, CheckIsoDate(Lookup(input, EndDate)))
      + ErrorsOf(Location, CheckLocation(Lookup(input, Location))))
  {
    var a := ErrorsOf(StartDate, CheckIsoDate(Lookup(input, StartDate)));
    var b := ErrorsOf(EndDate, CheckIsoDate(Lookup(input, EndDate)));
    var c := ErrorsOf(Location, CheckLocation(Lookup(input, Location)));
    DateErrorDescribes(input, StartDate);
    DateErrorDescribes(input, EndDate);
    LocationErrorDescribes(input);
    AllDescribeConcat(input, a, b);
    AllDescribeConcat(input, a + b, c);
  }

  lemma DateErrorDescribes(input: RawInput, f: Field)
    requires f != Location
    ensures AllDescribe(input, ErrorsOf(f, CheckIsoDate(Lookup(input, f))))
  {
    var r := CheckIsoDate(Lookup(input, f));
    if r.Failure? {
      assert Describes(input, FieldError(f, r.error));
    }
  }

  lemma LocationErrorDescribes(input: RawInput)
    ensures AllDescribe(input, ErrorsOf(Location, CheckLocation(Lookup(input, Location))))
  {
    var r := CheckLocation(Lookup(input, Location));
    if r.Failure? {
      assert Describes(input, FieldError(Location, r.error));
    }
  }

  lemma AllDescribeConcat(input: RawInput, a: seq<FieldError>, b: seq<FieldError>)
    requires AllDescribe(input, a) && AllDescribe(input, b)
    ensures AllDescribe(input, a + b)
  {
    forall i | 0 <= i < |a + b|
      ensures Describes(input, (a + b)[i])
    {
      if i >= |a| { assert (a + b)[i] == b[i - |a|]; }
    }
  }

  /** The record as a JSON object. */
  function ToInput(form: InputForm): (m: RawInput)
    ensures m.Keys == SCHEMA_KEYS
    ensures forall k :: k in m ==> m[k].Str?
  {
    map["startDate" := Str(form.startDate), "endDate" := Str(form.endDate), "location" := Str(form.location)]
  }

  /** Keys outside the schema play no part: adding or changing one does not
      change the outcome (`.strip()`). */
  lemma StripsUnknownKeys(input: RawInput, k: string, v: Value)
    requires k !in SCHEMA_KEYS
    ensures Validate(input[k := v]) == Validate(input)
  {
    assert forall f: Field :: Lookup(input[k := v], f) == Lookup(input, f);
  }

  /** Validating the input is validating its restriction to the schema keys. */
  lemma OnlySchemaKeysMatter(input: RawInput)
    ensures Validate(input) == Validate(map k | k in input && k in SCHEMA_KEYS :: input[k])
  {
    var restricted := map k | k in input && k in SCHEMA_KEYS :: input[k];
    assert forall f: Field :: Lookup(restricted, f) == Lookup(input, f);
  }

  /** Validating an accepted record again accepts it unchanged. */
  lemma {:induction false} ValidateIdempotent(input: RawInput)
    requires Validate(input).Success?
    ensures Validate(ToInput(Validate(input).value)) == Validate(input)
  {
    var form := Validate(input).value;
    assert Unpadded(form.location) && form.location != [];
    CanonicalFormAccepted(form);
  }

  /** A record with full-date dates and an unpadded non-empty location is
      accepted as it is. */
  lemma CanonicalFormAccepted(form: InputForm)
    requires IsFullDate(form.startDate) && IsFullDate(form.endDate)
    requires Unpadded(form.location) && form.location != []
    ensures Validate(ToInput(form)) == Success(form)
  {
    var again := ToInput(form);
    assert Lookup(again, StartDate) == Some(Str(form.startDate));
    assert Lookup(again, EndDate) == Some(Str(form.endDate));
    assert Lookup(again, Location) == Some(Str(form.location));
    TrimUnpadded(form.location);
    assert CheckLocation(Some(Str(form.location))) == Success(form.location);
    assert CollectIssues(Some(Str(form.startDate)), Some(Str(form.endDate)), Some(Str(form.location)))
        == Success(form);
  }

  /** The schema has no cross-field rule: with the two dates exchanged an
      accepted input stays accepted, although one of the two orders puts the
      end date before the start date whenever they differ. */
  lemma {:induction false} NoOrderingRule(input: RawInput)
    requires Validate(input).Success?
    ensures var swapped := input["startDate" := input["endDate"]]["endDate" := input["startDate"]];
      && Validate(swapped).Success?
      && Validate(swapped).value.startDate == Validate(input).value.endDate
      && Validate(swapped).value.endDate == Validate(input).value.startDate
  {
    SwappedDatesAccepted(input);
  }

  lemma SwappedDatesAccepted(input: RawInput)
    requires Accepts(input, StartDate) && Accepts(input, EndDate) && Accepts(input, Location)
    ensures var swapped := input["startDate" := input["endDate"]]["endDate" := input["startDate"]];
      Validate(swapped) == Success(InputForm(input["endDate"].text, input["startDate"].text, Trim(input["location"].text)))
  {
    var swapped := input["startDate" := input["endDate"]]["endDate" := input["startDate"]];
    var start, end, location := input["startDate"].text, input["endDate"].text, input["location"].text;
    assert Lookup(swapped, StartDate) == Some(Str(end));
    assert Lookup(swapped, EndDate) == Some(Str(start));
    assert Lookup(swapped, Location) == Some(Str(location));
    AcceptedFields(swapped, end, start, location);
  }

  /** Valid dates with a blank location fail with exactly the location error
      and its message. */
  lemma {:induction false} BlankLocationRejected(input: RawInput)
    requires Accepts(input, StartDate) && Accepts(input, EndDate)
    requires IsString(input, Location) && AllWhitespace(input["location"].text)
    ensures Validate(input) == Failure([FieldError(Location, TooSmall(EMPTY_LOCATION_MESSAGE))])
  {
    var s := CheckIsoDate(Lookup(input, StartDate));
    var e := CheckIsoDate(Lookup(input, EndDate));
    var l := CheckLocation(Lookup(input, Location));
    assert Validate(input) == CollectIssues(Lookup(input, StartDate), Lookup(input, EndDate), Lookup(input, Location));
    assert ErrorsOf(StartDate, s) == [] && ErrorsOf(EndDate, e) == [];
    assert l == Failure(TooSmall(EMPTY_LOCATION_MESSAGE));
    assert ErrorsOf(StartDate, s) + ErrorsOf(EndDate, e) + ErrorsOf(Location, l)
        == [FieldError(Location, TooSmall(EMPTY_LOCATION_MESSAGE))];
  }

  /** Full-date dates and a location that is not blank are accepted, the
      location trimmed. */
  lemma AcceptedFields(input: RawInput, start: string, end: string, location: string)
    requires Lookup(input, StartDate) == Some(Str(start)) && IsFullDate(start)
    requires Lookup(input, EndDate) == Some(Str(end)) && IsFullDate(end)
    requires Lookup(input, Location) == Some(Str(location)) && Trim(location) != []
    ensures Validate(input) == Success(InputForm(start, end, Trim(location)))
  {
    assert CheckLocation(Some(Str(location))) == Success(Trim(location));
    assert CollectIssues(Some(Str(start)), Some(Str(end)), Some(Str(location)))
        == Success(InputForm(start, end, Trim(location)));
  }

  /** The location is trimmed, and an extra key with any value is dropped. */
  lemma AcceptedSample(extra: Value)
    ensures var input := map["startDate" := Str("2023-01-01"), "endDate" := Str("2023-01-02"),
                             "location" := Str(" Paris ")];
      && Validate(input) == Success(InputForm("2023-01-01", "2023-01-02", "Paris"))
      && Validate(input["extra" := extra]) == Validate(input)
  {
    var input := map["startDate" := Str("2023-01-01"), "endDate" := Str("2023-01-02"), "location" := Str(" Paris ")];
    AcceptedSamples();
    TrimPaddedSample();
    AcceptedFields(input, "2023-01-01", "2023-01-02", " Paris ");
    StripsUnknownKeys(input, "extra", extra);
  }

  /** An end date before the start date is accepted. */
  lemma ReversedDatesSample()
    ensures Validate(map["startDate" := Str("2023-01-02"), "endDate" := Str("2023-01-01"),
                         "location" := Str("London")])
         == Success(InputForm("2023-01-02", "2023-01-01", "London"))
  {
    var m := map["startDate" := Str("2023-01-02"), "endDate" := Str("2023-01-01"),
                 "location" := Str("London")];
    AcceptedSamples();
    assert IsFullDate("2023-01-02");
    TrimUnpadded("London");
    AcceptedFields(m, "2023-01-02", "2023-01-01", "London");
  }

  /** A roll-over day, a missing key and a blank location are all reported,
      in key order. */
  lemma RejectedSample()
    ensures Validate(map["startDate" := Str("2023-02-30"), "location" := Str(" \t")])
         == Failure([FieldError(StartDate, InvalidIsoDate), FieldError(EndDate, InvalidType),
                     FieldError(Location, TooSmall(EMPTY_LOCATION_MESSAGE))])
  {
    var m := map["startDate" := Str("2023-02-30"), "location" := Str(" \t")];
    assert Lookup(m, StartDate) == Some(Str("2023-02-30"));
    assert Lookup(m, EndDate) == None;
    assert Lookup(m, Location) == Some(Str(" \t"));
    DayLimitSamples();
    TrimBlankSample();
    assert CheckIsoDate(Some(Str("2023-02-30"))) == Failure(InvalidIsoDate);
    assert CheckIsoDate(None) == Failure(InvalidType);
    assert CheckLocation(Some(Str(" \t"))) == Failure(TooSmall(EMPTY_LOCATION_MESSAGE));
    assert ErrorsOf(StartDate, CheckIsoDate(Some(Str("2023-02-30")))) == [FieldError(StartDate, InvalidIsoDate)];
    assert ErrorsOf(EndDate, CheckIsoDate(None)) == [FieldError(EndDate, InvalidType)];
    assert ErrorsOf(Location, CheckLocation(Some(Str(" \t"))))
        == [FieldError(Location, TooSmall(EMPTY_LOCATION_MESSAGE))];
    var errors := [FieldError(StartDate, InvalidIsoDate)] + [FieldError(EndDate, InvalidType)]
      + [FieldError(Location, TooSmall(EMPTY_LOCATION_MESSAGE))];
    assert CollectIssues(Some(Str("2023-02-30")), None, Some(Str(" \t"))) == Failure(errors);
    assert errors == [FieldError(StartDate, InvalidIsoDate), FieldError(EndDate, InvalidType),
                      FieldError(Location, TooSmall(EMPTY_LOCATION_MESSAGE))];
  }
}
