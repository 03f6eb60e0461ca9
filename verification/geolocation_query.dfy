/** The pure parts of `useGeolocation` in `src/queries/geolocation.query.ts`:
    when the query is enabled, and which search result it picks. */
module GeolocationQuery {
  import opened Wrappers

  /** A `string | null | undefined` value. */
  datatype Nullable = Undefined | Null | Defined(value: string)

  /** One search result from the geocoding service: its `place_id` (a string,
      JSON `null`, or missing and so `undefined`) and the rest of its fields,
      carried along untouched. */
  datatype Candidate = Candidate(placeId: Nullable, fields: map<string, string>)

  /** `v == undefined` with JavaScript's loose equality, which also holds for
      `null`. */
  predicate LooselyUndefined(v: Nullable) {
    match v
    case Undefined => true
    case Null => true
    case Defined(_) => false
  }

  /** `location.value != undefined`: loose inequality, so `null` disables the
      query as `undefined` does. `place` is not consulted. */
  function QueryEnabled(location: Nullable, place: Nullable): (enabled: bool)
    ensures enabled <==> location.Defined?
  {
    !LooselyUndefined(location)
  }

  /** Whether the query is enabled does not depend on `place`, and the empty
      string counts as a defined location. */
  lemma EnabledIgnoresPlace(location: Nullable, place: Nullable, other: Nullable)
    ensures QueryEnabled(location, place) == QueryEnabled(location, other)
    ensures QueryEnabled(Defined(""), place)
  {
  }

  /** `a === b` on `string | null | undefined`: `undefined` equals only
      `undefined`, `null` only `null`, and a string the same string. */
  predicate StrictlyEqual(a: Nullable, b: Nullable) {
    match (a, b)
    case (Undefined, Undefined) => true
    case (Null, Null) => true
    case (Defined(x), Defined(y)) => x == y
    case _ => false
  }

  /** `d.place_id === place.value`. A missing `place_id` is `undefined`, so it
      matches an `undefined` place; a `null` place matches only a JSON `null`
      `place_id`; a string place matches only the same string. */
  function MatchesPlace(c: Candidate, place: Nullable): (m: bool)
    ensures m <==> c.placeId == place
  {
    StrictlyEqual(c.placeId, place)
  }

  /** `Array.prototype.find` as an index: the position of the first candidate
      matching `place`, or `None` when no candidate matches. */
  function FindIndex(data: seq<Candidate>, place: Nullable): (r: Option<nat>)
    ensures r.Some? ==> r.value < |data| && MatchesPlace(data[r.value], place)
    ensures r.Some? ==> forall j :: 0 <= j < r.value ==> !MatchesPlace(data[j], place)
    ensures r.None? ==> forall j :: 0 <= j < |data| ==> !MatchesPlace(data[j], place)
  {
    if |data| == 0 then None
    else if MatchesPlace(data[0], place) then Some(0)
    else match FindIndex(data[1..], place)
      case Some(i) => Some(i + 1)
      case None => None
  }

  /** `data.find(d => d.place_id === place.value) || data[0]`: the first
      candidate with the wanted `place_id`, else the first candidate, else
      nothing (`undefined`) for an empty result list. */
  function ChooseGeolocation(data: seq<Candidate>, place: Nullable): (r: Option<Candidate>)
    ensures |data| == 0 <==> r.None?
    ensures r.Some? ==> r.value in data
    ensures forall i :: 0 <= i < |data| && MatchesPlace(data[i], place) ==>
      ((forall j :: 0 <= j < i ==> !MatchesPlace(data[j], place)) ==> r == Some(data[i]))
    ensures (forall i :: 0 <= i < |data| ==> !MatchesPlace(data[i], place)) && |data| > 0 ==>
      r == Some(data[0])
  {
    match FindIndex(data, place)
    case Some(i) => Some(data[i])
    case None => if |data| == 0 then None else Some(data[0])
  }

  /** Reference definition: the candidates matching `place`, in order. */
  function Matching(data: seq<Candidate>, place: Nullable): seq<Candidate> {
    if |data| == 0 then []
    else if MatchesPlace(data[0], place) then [data[0]] + Matching(data[1..], place)
    else Matching(data[1..], place)
  }

  /** `find` returns the head of the filtered list, and finds nothing exactly
      when the filtered list is empty. */
  lemma {:induction false} FindIndexIsFirstOfMatching(data: seq<Candidate>, place: Nullable)
    ensures FindIndex(data, place).None? <==> Matching(data, place) == []
    ensures FindIndex(data, place).Some? ==> data[FindIndex(data, place).value] == Matching(data, place)[0]
  {
    if |data| > 0 && !MatchesPlace(data[0], place) {
      FindIndexIsFirstOfMatching(data[1..], place);
    }
  }

  /** The chosen candidate is the first match if there is one, otherwise the
      head of the result list. */
  lemma {:induction false} ChooseByMatching(data: seq<Candidate>, place: Nullable)
    ensures ChooseGeolocation(data, place) ==
      if Matching(data, place) != [] then Some(Matching(data, place)[0])
      else if |data| > 0 then Some(data[0])
      else None
  {
    FindIndexIsFirstOfMatching(data, place);
  }

  /** Sample selections: the first of two matches wins; with no match the
      head is chosen; a candidate without `place_id` is chosen for an
      `undefined` place, one whose `place_id` is `null` for a `null` place,
      and neither matches the other. */
  lemma Samples()
    ensures var data := [Candidate(Defined("1"), map[]), Candidate(Defined("2"), map[]), Candidate(Defined("2"), map["x" := "y"])];
      && ChooseGeolocation(data, Defined("2")) == Some(data[1])
      && ChooseGeolocation(data, Defined("3")) == Some(data[0])
    ensures var data := [Candidate(Defined("1"), map[]), Candidate(Null, map[]), Candidate(Undefined, map[])];
      && ChooseGeolocation(data, Undefined) == Some(data[2])
      && ChooseGeolocation(data, Null) == Some(data[1])
    ensures var data := [Candidate(Defined("1"), map[]), Candidate(Undefined, map[])];
      ChooseGeolocation(data, Null) == Some(data[0])
    ensures ChooseGeolocation([], Defined("1")).None?
  {
  }
}
