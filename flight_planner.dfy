/**
 * The flight search of the travel planner: validating the request, resolving
 * both cities to airport codes, finding alternate destination airports,
 * querying routes with the fallback loop and its two early exits, and
 * ranking the offers.  The airport directory, the geocoder and the offer
 * search are services outside the program; their answers are the functions
 * held in a `Services` value.
 */
module FlightPlanner {
  import opened Wrappers
  import opened Text
  import opened Sorting
  import opened Dates

  // ---------------------------------------------------------------------
  // What the external services answer
  // ---------------------------------------------------------------------

  /** A directory record: the `iataCode` key may be absent; `distance.value` is its distance from the query point. */
  datatype AirportRecord = AirportRecord(iataCode: Option<string>, distance: real)

  /** A directory answer: its records, or a raised error. */
  datatype Lookup = LookupFailed | Records(data: seq<AirportRecord>)

  datatype Coords = Coords(lat: real, lon: real)

  datatype Segment = Segment(carrierCode: string, number: string)

  /** One direction of an offer, with its ISO 8601 duration text (`PT2H30M`). */
  datatype Itinerary = Itinerary(duration: string, segments: seq<Segment>)

  /** A flight offer; `price` is the already-numeric `price.total`. */
  datatype Offer = Offer(price: real, itineraries: seq<Itinerary>)

  /** An offer-search answer: the offers, or a raised error. */
  datatype Search = SearchFailed | Found(data: seq<Offer>)

  /**
   * The services, as the answers they would give during one search:
   * `locate` is the keyword airport lookup, `geocode` the place geocoder
   * (`None` also when it fails, as `geocode_place` catches its own errors),
   * `nearby` the 300 km radius airport lookup, and `search` the offer search
   * for an origin and destination code with the request's fixed dates,
   * passenger count, currency 'INR' and limit of 5.
   */
  datatype Services = Services(
    locate: string -> Lookup,
    geocode: string -> Option<Coords>,
    nearby: Coords -> Lookup,
    search: (string, string) -> Search)

  // ---------------------------------------------------------------------
  // Airport resolution (get_nearest_airport)
  // ---------------------------------------------------------------------

  /** The built-in table of major airports, in the order of its dictionary literal. */
  const MajorAirports: seq<(string, string)> := [
    ("delhi", "DEL"), ("mumbai", "BOM"), ("bangalore", "BLR"),
    ("chennai", "MAA"), ("kolkata", "CCU"), ("hyderabad", "HYD"),
    ("pune", "PNQ"), ("ahmedabad", "AMD"), ("jaipur", "JAI")]

  /** The code returned when nothing else matches. */
  const DefaultAirport := "DEL"

  /** The records that carry an IATA code, in answer order. */
  function WithIata(rs: seq<AirportRecord>): (r: seq<AirportRecord>)
    ensures |r| <= |rs|
    ensures forall i :: 0 <= i < |r| ==> r[i].iataCode.Some?
  {
    if rs == [] then []
    else (if rs[0].iataCode.Some? then [rs[0]] else []) + WithIata(rs[1..])
  }

  /** `WithIata` keeps exactly the records that carry a code. */
  lemma {:induction false} WithIataMembers(rs: seq<AirportRecord>)
    ensures forall a :: a in WithIata(rs) <==> a in rs && a.iataCode.Some?
  {
    if rs != [] {
      WithIataMembers(rs[1..]);
      assert forall a :: a in rs <==> a == rs[0] || a in rs[1..];
    }
  }

  /** `distance.value` comparison: the key of both distance sorts. */
  predicate CloserOrSame(a: AirportRecord, b: AirportRecord) {
    a.distance <= b.distance
  }

  lemma CloserOrSameIsPreorder()
    ensures TotalPreorder(CloserOrSame)
  {
  }

  /** Step 1: the first record of the keyword lookup that has an IATA code. */
  function DirectHit(answer: Lookup): Option<string> {
    match answer
    case LookupFailed => None
    case Records(data) =>
      var valid := WithIata(data);
      if valid == [] then None else Some(valid[0].iataCode.value)
  }

  /** Step 2: geocode the name and take the nearest IATA airport within 300 km. */
  function RadiusHit(env: Services, name: string): Option<string> {
    match env.geocode(name)
    case None => None
    case Some(c) =>
      match env.nearby(c)
      case LookupFailed => None
      case Records(data) =>
        var valid := WithIata(data);
        if valid == [] then None
        else
          var nearest := SortBy(valid, CloserOrSame)[0];
          assert nearest in multiset(valid);
          Some(nearest.iataCode.value)
  }

  /** The code of the first table entry whose key occurs in `name`, in table order. */
  function FirstContained(table: seq<(string, string)>, name: string): (r: Option<string>)
    ensures r.None? ==> forall i :: 0 <= i < |table| ==> !IsSubstring(table[i].0, name)
    ensures r.Some? ==> exists i :: (0 <= i < |table| && table[i].1 == r.value && IsSubstring(table[i].0, name) &&
      forall j :: 0 <= j < i ==> !IsSubstring(table[j].0, name))
  {
    if table == [] then None
    else if IsSubstring(table[0].0, name) then Some(table[0].1)
    else
      var r := FirstContained(table[1..], name);
      if r.Some? then
        var i :| 0 <= i < |table[1..]| && table[1..][i].1 == r.value && IsSubstring(table[1..][i].0, name) &&
          forall j :: 0 <= j < i ==> !IsSubstring(table[1..][j].0, name);
        assert table[i + 1] == table[1..][i];
        assert forall j :: 1 <= j < i + 1 ==> table[j] == table[1..][j - 1];
        r
      else
        r
  }

  /** The code stored under exactly `name` in the table. */
  function ExactEntry(table: seq<(string, string)>, name: string): (r: Option<string>)
    ensures r.Some? <==> exists i :: 0 <= i < |table| && table[i].0 == name
    ensures r.Some? ==> exists i :: (0 <= i < |table| && table[i] == (name, r.value) &&
      forall j :: 0 <= j < i ==> table[j].0 != name)
  {
    if table == [] then None
    else if table[0].0 == name then Some(table[0].1)
    else
      var r := ExactEntry(table[1..], name);
      assert forall i :: 1 <= i < |table| ==> table[i] == table[1..][i - 1];
      r
  }

  /** Steps 3 and 4 over a table: the exact key, else the first key contained in the name, else the default. */
  function TableCodeIn(table: seq<(string, string)>, name: string, default: string): (code: string)
    ensures forall k :: 0 <= k < |table| && table[k].0 == name && (forall j :: 0 <= j < k ==> table[j].0 != name) ==>
      code == table[k].1
    ensures (forall k :: 0 <= k < |table| ==> table[k].0 != name) ==>
      if exists k :: 0 <= k < |table| && IsSubstring(table[k].0, name)
      then exists k :: 0 <= k < |table| && code == table[k].1 && IsSubstring(table[k].0, name) &&
             forall j :: 0 <= j < k ==> !IsSubstring(table[j].0, name)
      else code == default
    ensures (default != [] && forall k :: 0 <= k < |table| ==> table[k].1 != []) ==> code != []
  {
    var exact := ExactEntry(table, name);
    if exact.Some? then
      var i :| 0 <= i < |table| && table[i] == (name, exact.value) && forall j :: 0 <= j < i ==> table[j].0 != name;
      assert forall k :: 0 <= k < |table| && table[k].0 == name && (forall j :: 0 <= j < k ==> table[j].0 != name) ==> k == i;
      exact.value
    else
      FirstContained(table, name).GetOr(default)
  }

  /** The table steps of `get_nearest_airport`. */
  function TableCode(name: string): string {
    TableCodeIn(MajorAirports, name, DefaultAirport)
  }

  /** The four steps applied to an already normalised name. */
  function Resolve(env: Services, name: string): string {
    match DirectHit(env.locate(name))
    case Some(code) => code
    case None =>
      match RadiusHit(env, name)
      case Some(code) => code
      case None => TableCode(name)
  }

  /**
   * `get_nearest_airport(city_name)`: `None` for an empty name, otherwise
   * the first of the four steps that yields a code, all of them applied to
   * the lower-cased, stripped name.
   */
  function NearestAirport(env: Services, cityName: string): (r: Option<string>)
    ensures r.None? <==> cityName == []
  {
    if cityName == [] then None else Some(Resolve(env, Strip(Lower(cityName))))
  }

  /** Step 1 wins: the first record of the keyword lookup that carries an IATA code. */
  lemma ResolveDirectFirst(env: Services, name: string)
    requires env.locate(name).Records? && WithIata(env.locate(name).data) != []
    ensures var data := env.locate(name).data;
      exists i :: 0 <= i < |data| && data[i].iataCode.Some? && Resolve(env, name) == data[i].iataCode.value &&
        forall j :: 0 <= j < i ==> data[j].iataCode.None?
  {
    WithIataFirst(env.locate(name).data);
  }

  lemma {:induction false} WithIataFirst(rs: seq<AirportRecord>)
    requires WithIata(rs) != []
    ensures exists i :: 0 <= i < |rs| && rs[i] == WithIata(rs)[0] && forall j :: 0 <= j < i ==> rs[j].iataCode.None?
  {
    if rs[0].iataCode.None? {
      WithIataFirst(rs[1..]);
      var i :| 0 <= i < |rs[1..]| && rs[1..][i] == WithIata(rs[1..])[0] &&
        forall j :: 0 <= j < i ==> rs[1..][j].iataCode.None?;
      assert rs[i + 1] == WithIata(rs)[0];
      assert forall j :: 1 <= j < i + 1 ==> rs[j] == rs[1..][j - 1];
    }
  }

  /**
   * Step 2 wins only when step 1 found nothing: among the radius records
   * that carry an IATA code, one of least distance, and the first such in
   * answer order.
   */
  lemma ResolveRadiusNearest(env: Services, name: string, c: Coords)
    requires DirectHit(env.locate(name)).None? && env.geocode(name) == Some(c)
    requires env.nearby(c).Records? && WithIata(env.nearby(c).data) != []
    ensures var valid := WithIata(env.nearby(c).data);
      exists i :: 0 <= i < |valid| && Resolve(env, name) == valid[i].iataCode.value &&
        (forall j :: 0 <= j < |valid| ==> valid[i].distance <= valid[j].distance) &&
        (forall j :: 0 <= j < i ==> valid[j].distance > valid[i].distance)
  {
    var valid := WithIata(env.nearby(c).data);
    CloserOrSameIsPreorder();
    SortByHead(valid, CloserOrSame);
  }

  /** Steps 3 and 4 only when neither service step found a code. */
  lemma ResolveFallsBackToTable(env: Services, name: string)
    requires DirectHit(env.locate(name)).None? && RadiusHit(env, name).None?
    ensures Resolve(env, name) == TableCode(name)
  {
  }

  /** Every code the services hand out is non-empty. */
  ghost predicate NamedCodes(answer: Lookup) {
    answer.Records? ==> forall a :: a in answer.data && a.iataCode.Some? ==> a.iataCode.value != []
  }

  ghost predicate NamesAirports(env: Services) {
    (forall q :: NamedCodes(env.locate(q))) && (forall c :: NamedCodes(env.nearby(c)))
  }

  /**
   * Resolution never comes back empty-handed: with services that name their
   * airports, the code is non-empty.
   */
  lemma ResolveNeverEmpty(env: Services, name: string)
    requires NamesAirports(env)
    ensures Resolve(env, name) != []
  {
    var loc := env.locate(name);
    assert NamedCodes(loc);
    if DirectHit(loc).Some? {
      WithIataMembers(loc.data);
      assert WithIata(loc.data)[0] in loc.data;
    } else if RadiusHit(env, name).Some? {
      var answer := env.nearby(env.geocode(name).value);
      assert NamedCodes(answer);
      var sorted := SortBy(WithIata(answer.data), CloserOrSame);
      assert sorted[0] in multiset(WithIata(answer.data));
      WithIataMembers(answer.data);
    } else {
      TableCodesNamed();
    }
  }

  lemma TableCodesNamed()
    ensures DefaultAirport != [] && forall k :: 0 <= k < |MajorAirports| ==> MajorAirports[k].1 != []
  {
  }

  // ---------------------------------------------------------------------
  // Alternate destination airports (get_alternative_airports)
  // ---------------------------------------------------------------------

  /** The records with an IATA code that is not excluded, in answer order. */
  function Eligible(rs: seq<AirportRecord>, exclude: seq<string>): (r: seq<AirportRecord>)
    ensures |r| <= |rs|
    ensures forall i :: 0 <= i < |r| ==> r[i].iataCode.Some? && r[i].iataCode.value !in exclude
  {
    if rs == [] then []
    else
      var head := if rs[0].iataCode.Some? && rs[0].iataCode.value !in exclude then [rs[0]] else [];
      head + Eligible(rs[1..], exclude)
  }

  /** `Eligible` keeps exactly the records with a code that is not excluded. */
  lemma {:induction false} EligibleMembers(rs: seq<AirportRecord>, exclude: seq<string>)
    ensures forall a :: a in Eligible(rs, exclude) <==> a in rs && a.iataCode.Some? && a.iataCode.value !in exclude
  {
    if rs != [] {
      EligibleMembers(rs[1..], exclude);
      assert forall a :: a in rs <==> a == rs[0] || a in rs[1..];
    }
  }

  /** The eligible records of a radius answer, stably sorted by distance, at most five. */
  function NearestEligible(data: seq<AirportRecord>, exclude: seq<string>): (r: seq<AirportRecord>)
    ensures |r| <= 5
    ensures forall i :: 0 <= i < |r| ==> r[i].iataCode.Some? && r[i].iataCode.value !in exclude
    ensures Sorted(r, CloserOrSame)
  {
    var valid := Eligible(data, exclude);
    var sorted := SortBy(valid, CloserOrSame);
    CloserOrSameIsPreorder();
    SortBySorted(valid, CloserOrSame);
    var r := Take(sorted, 5);
    assert forall i :: 0 <= i < |r| ==> r[i] == sorted[i] && sorted[i] in multiset(valid);
    r
  }

  /**
   * The records behind `get_alternative_airports(city_name, exclude)`:
   * nothing when geocoding fails or the radius lookup raises; otherwise
   * the nearest eligible records.
   */
  function AlternativeRecords(env: Services, cityName: string, exclude: seq<string>): (r: seq<AirportRecord>)
    ensures |r| <= 5
    ensures forall i :: 0 <= i < |r| ==> r[i].iataCode.Some? && r[i].iataCode.value !in exclude
  {
    match env.geocode(cityName)
    case None => []
    case Some(c) =>
      match env.nearby(c)
      case LookupFailed => []
      case Records(data) => NearestEligible(data, exclude)
  }

  function Codes(rs: seq<AirportRecord>): (codes: seq<string>)
    requires forall i :: 0 <= i < |rs| ==> rs[i].iataCode.Some?
    ensures |codes| == |rs| && forall i :: 0 <= i < |rs| ==> codes[i] == rs[i].iataCode.value
  {
    if rs == [] then [] else [rs[0].iataCode.value] + Codes(rs[1..])
  }

  /** `get_alternative_airports(city_name, exclude)`: the codes of the alternative records. */
  function AlternativeAirports(env: Services, cityName: string, exclude: seq<string>): (codes: seq<string>)
    ensures |codes| <= 5
    ensures forall i :: 0 <= i < |codes| ==> codes[i] !in exclude
    ensures env.geocode(cityName).None? || env.nearby(env.geocode(cityName).value).LookupFailed? ==> codes == []
  {
    Codes(AlternativeRecords(env, cityName, exclude))
  }

  /**
   * The alternatives are the nearest eligible airports: every kept record
   * is an eligible record of the radius answer, and an eligible record that
   * was not kept is at least as far as every kept one.
   */
  lemma AlternativesAreNearest(data: seq<AirportRecord>, exclude: seq<string>)
    ensures var kept := NearestEligible(data, exclude);
      var valid := Eligible(data, exclude);
      && (forall a :: a in kept ==> a in valid)
      && (forall a, b :: a in kept && b in valid && b !in kept ==> a.distance <= b.distance)
  {
    var valid := Eligible(data, exclude);
    assert NearestEligible(data, exclude) == Take(SortBy(valid, CloserOrSame), 5);
    CloserOrSameIsPreorder();
    TakeOfSortedIsLeast(valid, CloserOrSame, 5);
    var kept := NearestEligible(data, exclude);
    forall a, b | a in kept && b in valid && b !in kept ensures a.distance <= b.distance {
      assert CloserOrSame(a, b);
    }
  }

  // ---------------------------------------------------------------------
  // Validation
  // ---------------------------------------------------------------------

  /** Why a request is answered with `False`. */
  datatype InvalidReason =
    | MissingField
    | BadDateFormat
    | ReturnNotAfterDeparture
    | DepartureInPast
    | BadAdults
    | NoOriginAirport
    | NoDestinationAirport

  /** The checks made before any service is asked, in their order (`today` is `datetime.now().date()`). */
  function Validate(originCity: string, destinationCity: string, departureDate: string, returnDate: string,
                    adults: int, today: Date): (r: Option<InvalidReason>)
    ensures r == Some(MissingField) <==>
      originCity == [] || destinationCity == [] || departureDate == [] || returnDate == []
    ensures r.Some? ==> r.value != NoOriginAirport && r.value != NoDestinationAirport
  {
    if originCity == [] || destinationCity == [] || departureDate == [] || returnDate == [] then Some(MissingField)
    else match (ParseDate(departureDate), ParseDate(returnDate))
      case (Some(dep), Some(ret)) =>
        if !Before(dep, ret) then Some(ReturnNotAfterDeparture)
        else if Before(dep, today) then Some(DepartureInPast)
        else if adults < 1 || adults > 9 then Some(BadAdults)
        else None
      case _ => Some(BadDateFormat)
  }

  /** The checks accept exactly the requests with all fields, two valid dates in order from today on, and 1 to 9 adults. */
  lemma ValidateAccepts(originCity: string, destinationCity: string, departureDate: string, returnDate: string,
                        adults: int, today: Date)
    ensures Validate(originCity, destinationCity, departureDate, returnDate, adults, today).None? <==>
      && originCity != [] && destinationCity != [] && departureDate != [] && returnDate != []
      && IsValidDate(departureDate) && IsValidDate(returnDate)
      && Before(ParseDate(departureDate).value, ParseDate(returnDate).value)
      && !Before(ParseDate(departureDate).value, today)
      && 1 <= adults <= 9
  {
  }

  /** A request the checks accept spans at least one night and does not start in the past. */
  lemma AcceptedDatesSpanANight(originCity: string, destinationCity: string, departureDate: string,
                                returnDate: string, adults: int, today: Date)
    requires Validate(originCity, destinationCity, departureDate, returnDate, adults, today).None?
    ensures var dep, ret := ParseDate(departureDate).value, ParseDate(returnDate).value;
      Ordinal(dep) < Ordinal(ret) && (ValidDate(today) ==> Ordinal(today) <= Ordinal(dep))
  {
    ValidateAccepts(originCity, destinationCity, departureDate, returnDate, adults, today);
    var dep, ret := ParseDate(departureDate).value, ParseDate(returnDate).value;
    OrdinalOrder(dep, ret);
    if ValidDate(today) {
      OrdinalOrder(dep, today);
    }
  }

  // ---------------------------------------------------------------------
  // The search plan: validation, resolution, candidate destinations
  // ---------------------------------------------------------------------

  /** A request either stops before any offer search, or searches from `originCode` to its candidates. */
  datatype Plan =
    | Rejected(reason: InvalidReason)
    | Route(originCode: string, destCode: string, candidates: seq<string>)

  /**
   * Steps 1 and 2 of `flight_planner_agent`: the checks, both airports
   * (of the stripped city names), and the candidate destinations: the
   * destination's code followed by at most three of its alternatives.
   */
  function PlanSearch(env: Services, today: Date, originCity: string, destinationCity: string,
                      departureDate: string, returnDate: string, adults: int): (p: Plan)
    ensures p.Route? ==> 1 <= |p.candidates| <= 4 && p.candidates[0] == p.destCode
    ensures p.Route? ==> forall k :: 1 <= k < |p.candidates| ==> p.candidates[k] != p.destCode
  {
    match Validate(originCity, destinationCity, departureDate, returnDate, adults, today)
    case Some(reason) => Rejected(reason)
    case None =>
      var originCode := NearestAirport(env, Strip(originCity));
      var destCode := NearestAirport(env, Strip(destinationCity));
      if originCode.None? || originCode.value == [] then Rejected(NoOriginAirport)
      else if destCode.None? || destCode.value == [] then Rejected(NoDestinationAirport)
      else
        var alternatives := AlternativeAirports(env, destinationCity, [destCode.value]);
        Route(originCode.value, destCode.value, Candidates(destCode.value, alternatives))
  }

  /** `[dest_code] + alternatives[:3]`. */
  function Candidates(destCode: string, alternatives: seq<string>): (candidates: seq<string>)
    requires forall i :: 0 <= i < |alternatives| ==> alternatives[i] !in [destCode]
    ensures 1 <= |candidates| <= 4 && candidates[0] == destCode
    ensures forall k :: 1 <= k < |candidates| ==> candidates[k] != destCode
  {
    var candidates := [destCode] + Take(alternatives, 3);
    assert forall k :: 1 <= k < |candidates| ==> candidates[k] == alternatives[k - 1];
    candidates
  }

  /**
   * "No airport found" is reachable only through a city name made of
   * whitespace: with services that name their airports, a request that
   * passes the checks is rejected for its origin exactly when the origin
   * strips to nothing, and for its destination exactly when the origin does
   * not and the destination does.
   */
  lemma NoAirportOnlyForBlankNames(env: Services, today: Date, originCity: string, destinationCity: string,
                                   departureDate: string, returnDate: string, adults: int)
    requires NamesAirports(env)
    requires Validate(originCity, destinationCity, departureDate, returnDate, adults, today).None?
    ensures var p := PlanSearch(env, today, originCity, destinationCity, departureDate, returnDate, adults);
      && (p == Rejected(NoOriginAirport) <==> Strip(originCity) == [])
      && (p == Rejected(NoDestinationAirport) <==> Strip(originCity) != [] && Strip(destinationCity) == [])
      && (p.Route? <==> Strip(originCity) != [] && Strip(destinationCity) != [])
  {
    var originCode := NearestAirport(env, Strip(originCity));
    var destCode := NearestAirport(env, Strip(destinationCity));
    if Strip(originCity) != [] {
      ResolveNeverEmpty(env, Strip(Lower(Strip(originCity))));
    }
    if Strip(destinationCity) != [] {
      ResolveNeverEmpty(env, Strip(Lower(Strip(destinationCity))));
    }
    assert originCode.None? || originCode.value == [] <==> Strip(originCity) == [];
    assert destCode.None? || destCode.value == [] <==> Strip(destinationCity) == [];
    PlanSearchShape(env, today, originCity, destinationCity, departureDate, returnDate, adults);
  }

  /** Which plan an accepted request gets, in terms of its two resolved codes. */
  lemma PlanSearchShape(env: Services, today: Date, originCity: string, destinationCity: string,
                        departureDate: string, returnDate: string, adults: int)
    requires Validate(originCity, destinationCity, departureDate, returnDate, adults, today).None?
    ensures var p := PlanSearch(env, today, originCity, destinationCity, departureDate, returnDate, adults);
      var originCode := NearestAirport(env, Strip(originCity));
      var destCode := NearestAirport(env, Strip(destinationCity));
      var noOrigin := originCode.None? || originCode.value == [];
      var noDest := destCode.None? || destCode.value == [];
      && (p == Rejected(NoOriginAirport) <==> noOrigin)
      && (p == Rejected(NoDestinationAirport) <==> !noOrigin && noDest)
      && (p.Route? <==> !noOrigin && !noDest)
  {
  }

  // ---------------------------------------------------------------------
  // The fallback search loop
  // ---------------------------------------------------------------------

  /** An offer with the `_search_info` the loop attaches to it. */
  datatype TaggedOffer = TaggedOffer(offer: Offer, originAirport: string, destAirport: string, isPrimary: bool)

  /** A searched (origin, destination) pair. */
  datatype RoutePair = RoutePair(origin: string, destination: string)

  /** The offers of one answer, each tagged with its route and whether it reaches the primary destination. */
  function Tag(offers: seq<Offer>, originCode: string, destination: string, destCode: string): (r: seq<TaggedOffer>)
    ensures |r| == |offers|
    ensures forall i :: 0 <= i < |r| ==> r[i] == TaggedOffer(offers[i], originCode, destination, destination == destCode)
  {
    if offers == [] then []
    else [TaggedOffer(offers[0], originCode, destination, destination == destCode)] + Tag(offers[1..], originCode, destination, destCode)
  }

  /** What one query adds: its tagged offers, or nothing when it raises. */
  function Answer(env: Services, originCode: string, destination: string, destCode: string): seq<TaggedOffer> {
    match env.search(originCode, destination)
    case SearchFailed => []
    case Found(data) => Tag(data, originCode, destination, destCode)
  }

  /** The accumulated offers after querying `dests` in order. */
  function Gathered(env: Services, originCode: string, destCode: string, dests: seq<string>): seq<TaggedOffer> {
    if dests == [] then []
    else Gathered(env, originCode, destCode, dests[..|dests| - 1]) +
         Answer(env, originCode, dests[|dests| - 1], destCode)
  }

  /** The number of primary-tagged offers. */
  function PrimaryCount(offers: seq<TaggedOffer>): nat {
    if offers == [] then 0
    else PrimaryCount(offers[..|offers| - 1]) + if offers[|offers| - 1].isPrimary then 1 else 0
  }

  /** Early exit A: the primary destination was just queried and answered with at least three offers. */
  predicate PrimaryAnsweredWell(env: Services, originCode: string, destCode: string, destination: string) {
    destination == destCode && env.search(originCode, destination).Found? &&
    |env.search(originCode, destination).data| >= 3
  }

  /**
   * The number of primary offers after querying `dests`, counted per query:
   * every offer of an answer for the primary destination, and none of the
   * others.
   */
  function PrimaryFound(env: Services, originCode: string, destCode: string, dests: seq<string>): nat {
    if dests == [] then 0
    else
      var last := dests[|dests| - 1];
      PrimaryFound(env, originCode, destCode, dests[..|dests| - 1]) +
      if last == destCode then |Answer(env, originCode, last, destCode)| else 0
  }

  /** Whether the loop stops right after querying the last of `dests`: exit A, or exit B (three primary offers). */
  predicate StopsAfter(env: Services, originCode: string, destCode: string, dests: seq<string>)
    requires dests != []
  {
    PrimaryAnsweredWell(env, originCode, destCode, dests[|dests| - 1]) ||
    PrimaryFound(env, originCode, destCode, dests) >= 3
  }

  lemma {:induction false} PrimaryCountAppend(a: seq<TaggedOffer>, b: seq<TaggedOffer>)
    ensures PrimaryCount(a + b) == PrimaryCount(a) + PrimaryCount(b)
    decreases |b|
  {
    if b != [] {
      assert (a + b)[..|a + b| - 1] == a + b[..|b| - 1];
      PrimaryCountAppend(a, b[..|b| - 1]);
    } else {
      assert a + b == a;
    }
  }

  lemma {:induction false} PrimaryCountUniform(offers: seq<TaggedOffer>, primary: bool)
    requires forall i :: 0 <= i < |offers| ==> offers[i].isPrimary == primary
    ensures PrimaryCount(offers) == if primary then |offers| else 0
  {
    if offers != [] {
      PrimaryCountUniform(offers[..|offers| - 1], primary);
    }
  }

  /**
   * `primary_count`, the count over all accumulated offers, equals the
   * count per query: one answer's offers are either all primary or none.
   */
  lemma {:induction false} PrimaryCountPerQuery(env: Services, originCode: string, destCode: string, dests: seq<string>)
    ensures PrimaryCount(Gathered(env, originCode, destCode, dests)) == PrimaryFound(env, originCode, destCode, dests)
  {
    if dests != [] {
      var init, last := dests[..|dests| - 1], dests[|dests| - 1];
      PrimaryCountPerQuery(env, originCode, destCode, init);
      var answer := Answer(env, originCode, last, destCode);
      PrimaryCountAppend(Gathered(env, originCode, destCode, init), answer);
      PrimaryCountUniform(answer, last == destCode);
    }
  }

  /** Exit A never fires without exit B: the primary answer's offers are all tagged primary. */
  lemma ExitAImpliesExitB(env: Services, originCode: string, destCode: string, dests: seq<string>)
    requires dests != [] && PrimaryAnsweredWell(env, originCode, destCode, dests[|dests| - 1])
    ensures PrimaryCount(Gathered(env, originCode, destCode, dests)) >= 3
  {
    PrimaryCountPerQuery(env, originCode, destCode, dests);
  }

  /**
   * Every accumulated offer carries its route: the fixed origin, a
   * destination that was queried, and `is_primary` exactly when that
   * destination is the primary one.
   */
  lemma {:induction false} GatheredTags(env: Services, originCode: string, destCode: string, dests: seq<string>)
    ensures forall o :: o in Gathered(env, originCode, destCode, dests) ==>
      o.originAirport == originCode && o.destAirport in dests && o.isPrimary == (o.destAirport == destCode)
  {
    if dests != [] {
      var init := dests[..|dests| - 1];
      GatheredTags(env, originCode, destCode, init);
      assert forall d :: d in init ==> d in dests;
    }
  }

  /** Queries that all come back empty or failed accumulate nothing. */
  lemma {:induction false} GatheredNothing(env: Services, originCode: string, destCode: string, dests: seq<string>)
    requires forall d :: d in dests ==> Answer(env, originCode, d, destCode) == []
    ensures Gathered(env, originCode, destCode, dests) == []
  {
    if dests != [] {
      GatheredNothing(env, originCode, destCode, dests[..|dests| - 1]);
    }
  }

  /** The `airports_tried` set after querying `dests` from `originCode`. */
  function Tried(originCode: string, dests: seq<string>): set<RoutePair> {
    if dests == [] then {}
    else Tried(originCode, dests[..|dests| - 1]) + {RoutePair(originCode, dests[|dests| - 1])}
  }

  /** The tried set holds exactly the pairs from the origin to a queried destination. */
  lemma {:induction false} TriedMembers(originCode: string, dests: seq<string>)
    ensures forall p :: p in Tried(originCode, dests) <==> p.origin == originCode && p.destination in dests
  {
    if dests != [] {
      var init := dests[..|dests| - 1];
      TriedMembers(originCode, init);
      assert dests == init + [dests[|dests| - 1]];
    }
  }

  /** What querying one more destination does to the accumulated offers, the tried set and the prefixes. */
  lemma QueryStep(env: Services, originCode: string, destCode: string, dests: seq<string>, d: string)
    ensures Gathered(env, originCode, destCode, dests + [d]) ==
      Gathered(env, originCode, destCode, dests) + Answer(env, originCode, d, destCode)
    ensures Tried(originCode, dests + [d]) == Tried(originCode, dests) + {RoutePair(originCode, d)}
  {
    var full := dests + [d];
    assert full[..|full| - 1] == dests && full[|full| - 1] == d;
  }

  /** The loop did not stop after any query of `dests`, the last one included. */
  predicate NeverStopped(env: Services, originCode: string, destCode: string, dests: seq<string>) {
    dests == [] ||
    (NeverStopped(env, originCode, destCode, dests[..|dests| - 1]) && !StopsAfter(env, originCode, destCode, dests))
  }

  lemma {:induction false} NeverStoppedPrefixes(env: Services, originCode: string, destCode: string, dests: seq<string>)
    requires NeverStopped(env, originCode, destCode, dests)
    ensures forall k :: 1 <= k <= |dests| ==> !StopsAfter(env, originCode, destCode, dests[..k])
  {
    if dests != [] {
      var init := dests[..|dests| - 1];
      NeverStoppedPrefixes(env, originCode, destCode, init);
      forall k | 1 <= k <= |dests| ensures !StopsAfter(env, originCode, destCode, dests[..k]) {
        if k < |dests| {
          assert init[..k] == dests[..k];
        } else {
          assert dests[..k] == dests;
        }
      }
    }
  }

  /** A query after which neither exit fires extends a run that never stopped. */
  lemma KeepGoing(env: Services, originCode: string, destCode: string, dests: seq<string>, d: string)
    requires NeverStopped(env, originCode, destCode, dests)
    requires !PrimaryAnsweredWell(env, originCode, destCode, d)
    requires PrimaryFound(env, originCode, destCode, dests + [d]) < 3
    ensures NeverStopped(env, originCode, destCode, dests + [d])
  {
    assert (dests + [d])[..|dests|] == dests;
  }

  /** The de-duplication step of the loop, in terms of what has been queried so far. */
  lemma SkipOrQuery<T>(s: seq<T>, i: nat, seen: seq<T>)
    requires i < |s| && seen == Dedup(s[..i])
    ensures s[i] in seen ==> Dedup(s[..i + 1]) == seen
    ensures s[i] !in seen ==> Dedup(s[..i + 1]) == seen + [s[i]]
  {
    DedupStep(s, i);
  }

  /** A prefix of the input de-duplicates to a prefix of the de-duplicated whole. */
  lemma SeenIsPrefix<T>(s: seq<T>, i: nat, seen: seq<T>)
    requires i <= |s| && seen == Dedup(s[..i])
    ensures |seen| <= |Dedup(s)| && seen == Dedup(s)[..|seen|]
  {
    DedupPrefix(s, i);
  }

  /**
   * One query of the loop: the answer's offers, tagged, are added unless the
   * search raised or found nothing; exit A is reported for the caller.
   */
  method QueryRoute(env: Services, originCode: string, destCode: string, destination: string,
                    offers: seq<TaggedOffer>)
    returns (extended: seq<TaggedOffer>, primaryAnswered: bool)
    ensures extended == offers + Answer(env, originCode, destination, destCode)
    ensures primaryAnswered == PrimaryAnsweredWell(env, originCode, destCode, destination)
  {
    var response := env.search(originCode, destination);
    if response.Found? && response.data != [] {
      extended := offers + Tag(response.data, originCode, destination, destCode);
      primaryAnswered := destination == destCode && |response.data| >= 3;
    } else {
      assert Answer(env, originCode, destination, destCode) == [];
      extended, primaryAnswered := offers, false;
      assert extended == offers + [];
    }
  }

  /**
   * One pass of the loop over `candidates[i]`: a pair already tried is
   * skipped; otherwise it is recorded, queried and its offers added, and
   * `stop` reports whether exit A or exit B fires after it.
   */
  method TryCandidate(env: Services, originCode: string, destCode: string, candidates: seq<string>, i: nat,
                      offers: seq<TaggedOffer>, tried: set<RoutePair>, queried: seq<string>)
    returns (offers': seq<TaggedOffer>, tried': set<RoutePair>, queried': seq<string>, stop: bool)
    requires i < |candidates| && queried == Dedup(candidates[..i])
    requires tried == Tried(originCode, queried)
    requires offers == Gathered(env, originCode, destCode, queried)
    requires NeverStopped(env, originCode, destCode, queried)
    ensures queried' == Dedup(candidates[..i + 1])
    ensures tried' == Tried(originCode, queried')
    ensures offers' == Gathered(env, originCode, destCode, queried')
    ensures stop ==> queried' != [] && StopsAfter(env, originCode, destCode, queried') &&
                     NeverStopped(env, originCode, destCode, queried'[..|queried'| - 1])
    ensures !stop ==> NeverStopped(env, originCode, destCode, queried')
  {
    var destination := candidates[i];
    SkipOrQuery(candidates, i, queried);
    TriedMembers(originCode, queried);
    if RoutePair(originCode, destination) in tried {
      assert destination in queried;
      return offers, tried, queried, false;
    }
    assert destination !in queried;
    QueryStep(env, originCode, destCode, queried, destination);
    tried' := tried + {RoutePair(originCode, destination)};
    queried' := queried + [destination];
    var primaryAnswered;
    offers', primaryAnswered := QueryRoute(env, originCode, destCode, destination, offers);
    if primaryAnswered {
      return offers', tried', queried', true;
    }
    PrimaryCountPerQuery(env, originCode, destCode, queried');
    if PrimaryCount(offers') >= 3 {
      return offers', tried', queried', true;
    }
    KeepGoing(env, originCode, destCode, queried, destination);
    stop := false;
  }

  /**
   * The loop of `flight_planner_agent` over the candidate destinations.
   * It queries the candidates in order, skipping a pair already tried,
   * accumulates the tagged offers, and stops early on exit A or exit B.
   * `queried` is the sequence of destinations actually sent to the search
   * service; `tried` is the `airports_tried` set.
   */
  method SearchRoutes(env: Services, originCode: string, destCode: string, candidates: seq<string>)
    returns (offers: seq<TaggedOffer>, tried: set<RoutePair>, queried: seq<string>)
    ensures |queried| <= |Dedup(candidates)| && queried == Dedup(candidates)[..|queried|]
    ensures tried == Tried(originCode, queried)
    ensures offers == Gathered(env, originCode, destCode, queried)
    ensures queried != [] ==> NeverStopped(env, originCode, destCode, queried[..|queried| - 1])
    ensures |queried| < |Dedup(candidates)| ==> queried != [] && StopsAfter(env, originCode, destCode, queried)
  {
    offers, tried, queried := [], {}, [];
    var i := 0;
    while i < |candidates|
      invariant 0 <= i <= |candidates|
      invariant queried == Dedup(candidates[..i])
      invariant tried == Tried(originCode, queried)
      invariant offers == Gathered(env, originCode, destCode, queried)
      invariant NeverStopped(env, originCode, destCode, queried)
    {
      var stop;
      offers, tried, queried, stop := TryCandidate(env, originCode, destCode, candidates, i, offers, tried, queried);
      if stop {
        SeenIsPrefix(candidates, i + 1, queried);
        return;
      }
      i := i + 1;
    }
    assert candidates[..i] == candidates;
    assert queried == Dedup(candidates)[..|queried|];
  }

  // ---------------------------------------------------------------------
  // Ranking
  // ---------------------------------------------------------------------

  /** The sort key `(not is_primary, price)` compared as a tuple. */
  predicate RankLe(a: TaggedOffer, b: TaggedOffer) {
    (a.isPrimary && !b.isPrimary) || (a.isPrimary == b.isPrimary && a.offer.price <= b.offer.price)
  }

  lemma RankLeIsPreorder()
    ensures TotalPreorder(RankLe)
  {
  }

  /**
   * `all_offers.sort(key=lambda x: (not is_primary, price))`: every
   * primary offer comes before every alternate one, within a group the
   * cheaper one first, the ranking holds exactly the offers given, and
   * offers of equal key keep their accumulated order.
   */
  lemma Ranking(offers: seq<TaggedOffer>)
    ensures var r := SortBy(offers, RankLe);
      && multiset(r) == multiset(offers)
      && (forall i, j :: 0 <= i < j < |r| && r[j].isPrimary ==> r[i].isPrimary)
      && (forall i, j :: 0 <= i < j < |r| && r[i].isPrimary == r[j].isPrimary ==> r[i].offer.price <= r[j].offer.price)
      && (forall z :: Equivalents(r, RankLe, z) == Equivalents(offers, RankLe, z))
  {
    RankLeIsPreorder();
    SortBySorted(offers, RankLe);
    forall z ensures Equivalents(SortBy(offers, RankLe), RankLe, z) == Equivalents(offers, RankLe, z) {
      SortByStable(offers, RankLe, z);
    }
  }

  // ---------------------------------------------------------------------
  // The whole search
  // ---------------------------------------------------------------------

  /** What `flight_planner_agent` reports: `False`, `True` (nothing found), or the ranked offers on display. */
  datatype SearchOutcome =
    | Invalid(reason: InvalidReason)
    | NoResults(tried: set<RoutePair>)
    | Offers(ranked: seq<TaggedOffer>)

  /**
   * `flight_planner_agent` up to the display of the ranked offers.
   * `queried` is the sequence of destinations sent to the offer search.
   */
  method FlightPlannerAgent(env: Services, today: Date, originCity: string, destinationCity: string,
                            departureDate: string, returnDate: string, adults: int)
    returns (outcome: SearchOutcome, queried: seq<string>)
    ensures var p := PlanSearch(env, today, originCity, destinationCity, departureDate, returnDate, adults);
      p.Rejected? ==> outcome == Invalid(p.reason) && queried == []
    ensures var p := PlanSearch(env, today, originCity, destinationCity, departureDate, returnDate, adults);
      p.Route? ==>
        var gathered := Gathered(env, p.originCode, p.destCode, queried);
        // the primary destination is queried first, no pair twice, at most four searches
        && 1 <= |queried| <= 4 && queried[0] == p.destCode
        && (forall i, j :: 0 <= i < j < |queried| ==> queried[i] != queried[j])
        && (forall d :: d in queried ==> d in p.candidates)
        // exit A: a primary answer of three or more offers ends the search
        && queried <= Dedup(p.candidates)
        && (PrimaryAnsweredWell(env, p.originCode, p.destCode, p.destCode) ==> queried == [p.destCode])
        // otherwise no exit fires: every distinct candidate is tried
        && (!PrimaryAnsweredWell(env, p.originCode, p.destCode, p.destCode) ==> queried == Dedup(p.candidates))
        // with no offers anywhere, every distinct candidate is tried and nothing is found
        && ((forall d :: d in p.candidates ==> Answer(env, p.originCode, d, p.destCode) == []) ==>
              queried == Dedup(p.candidates) && outcome.NoResults?)
        && (outcome.NoResults? <==> gathered == [])
        && (outcome.NoResults? ==> outcome.tried == Tried(p.originCode, queried))
        && (outcome.Offers? ==>
              && outcome.ranked == SortBy(gathered, RankLe)
              && multiset(outcome.ranked) == multiset(gathered)
              // offers of equal rank keep the order in which they were gathered
              && (forall z :: Equivalents(outcome.ranked, RankLe, z) == Equivalents(gathered, RankLe, z))
              && (forall o :: o in outcome.ranked ==>
                    o.originAirport == p.originCode && o.destAirport in queried &&
                    o.isPrimary == (o.destAirport == p.destCode))
              && (forall i, j :: 0 <= i < j < |outcome.ranked| && outcome.ranked[j].isPrimary ==>
                    outcome.ranked[i].isPrimary)
              && (forall i, j ::
                    (0 <= i < j < |outcome.ranked| && outcome.ranked[i].isPrimary == outcome.ranked[j].isPrimary) ==>
                    outcome.ranked[i].offer.price <= outcome.ranked[j].offer.price))
  {
    var p := PlanSearch(env, today, originCity, destinationCity, departureDate, returnDate, adults);
    if p.Rejected? {
      return Invalid(p.reason), [];
    }
    var offers, tried;
    offers, tried, queried := SearchRoutes(env, p.originCode, p.destCode, p.candidates);
    SearchShape(env, p.originCode, p.destCode, p.candidates, queried);
    GatheredTags(env, p.originCode, p.destCode, queried);
    if forall d :: d in p.candidates ==> Answer(env, p.originCode, d, p.destCode) == [] {
      GatheredNothing(env, p.originCode, p.destCode, queried);
    }
    if offers == [] {
      return NoResults(tried), queried;
    }
    var ranked := SortBy(offers, RankLe);
    Ranking(offers);
    forall o | o in ranked ensures o in offers {
      assert o in multiset(offers);
    }
    return Offers(ranked), queried;
  }

  /** A run of queries that all came back empty never triggers either exit. */
  lemma NoOffersNoStop(env: Services, originCode: string, destCode: string, dests: seq<string>)
    requires dests != [] && forall d :: d in dests ==> Answer(env, originCode, d, destCode) == []
    ensures !StopsAfter(env, originCode, destCode, dests)
  {
    GatheredNothing(env, originCode, destCode, dests);
    PrimaryCountPerQuery(env, originCode, destCode, dests);
    var last := dests[|dests| - 1];
    assert Answer(env, originCode, last, destCode) == [];
  }

  /** After a query of the primary destination that triggers exit A, nothing else is queried. */
  lemma FirstQueryStops(env: Services, originCode: string, destCode: string, queried: seq<string>)
    requires queried != [] && queried[0] == destCode
    requires NeverStopped(env, originCode, destCode, queried[..|queried| - 1])
    requires PrimaryAnsweredWell(env, originCode, destCode, destCode)
    ensures queried == [destCode]
  {
    var init := queried[..|queried| - 1];
    assert queried[..1] == [destCode];
    assert StopsAfter(env, originCode, destCode, queried[..1]);
    assert forall k :: 1 <= k <= |init| ==> init[..k] == queried[..k];
    NeverStoppedPrefixes(env, originCode, destCode, init);
  }

  /**
   * What the loop's contract means for the destinations queried: the
   * primary first, each at most once, only candidates, only the primary
   * when exit A fires on it, and every distinct candidate when no query
   * finds anything.
   */
  lemma SearchShape(env: Services, originCode: string, destCode: string, candidates: seq<string>, queried: seq<string>)
    requires 1 <= |candidates| <= 4 && candidates[0] == destCode
    requires |queried| <= |Dedup(candidates)| && queried == Dedup(candidates)[..|queried|]
    requires queried != [] ==> NeverStopped(env, originCode, destCode, queried[..|queried| - 1])
    requires |queried| < |Dedup(candidates)| ==> queried != [] && StopsAfter(env, originCode, destCode, queried)
    ensures 1 <= |queried| <= 4 && queried[0] == destCode
    ensures forall i, j :: 0 <= i < j < |queried| ==> queried[i] != queried[j]
    ensures forall d :: d in queried ==> d in candidates
    ensures PrimaryAnsweredWell(env, originCode, destCode, destCode) ==> queried == [destCode]
    ensures (forall d :: d in candidates ==> Answer(env, originCode, d, destCode) == []) ==>
      queried == Dedup(candidates)
    ensures !PrimaryAnsweredWell(env, originCode, destCode, destCode) ==> queried == Dedup(candidates)
  {
    var all := Dedup(candidates);
    DedupDistinct(candidates);
    DedupHead(candidates);
    DedupMembers(candidates);
    assert queried != [];
    assert forall i :: 0 <= i < |queried| ==> queried[i] == all[i];
    assert forall d :: d in queried ==> d in all;
    if PrimaryAnsweredWell(env, originCode, destCode, destCode) {
      FirstQueryStops(env, originCode, destCode, queried);
    }
    if forall d :: d in candidates ==> Answer(env, originCode, d, destCode) == [] {
      NoOffersNoStop(env, originCode, destCode, queried);
      assert all[..|all|] == all;
    }
    if !PrimaryAnsweredWell(env, originCode, destCode, destCode) {
      PrimaryOnlyFirst(env, originCode, destCode, queried);
      assert all[..|all|] == all;
    }
  }

  /**
   * Queries that name the primary destination only first never stop the
   * loop unless the primary answer itself triggers exit A: the alternates
   * add no primary offers.
   */
  lemma PrimaryOnlyFirst(env: Services, originCode: string, destCode: string, dests: seq<string>)
    requires dests != [] && dests[0] == destCode
    requires forall k :: 1 <= k < |dests| ==> dests[k] != destCode
    requires !PrimaryAnsweredWell(env, originCode, destCode, destCode)
    ensures !StopsAfter(env, originCode, destCode, dests)
  {
    PrimaryFoundFirst(env, originCode, destCode, dests);
    assert PrimaryFound(env, originCode, destCode, dests[..1]) == |Answer(env, originCode, destCode, destCode)|;
  }

  lemma {:induction false} PrimaryFoundFirst(env: Services, originCode: string, destCode: string, dests: seq<string>)
    requires dests != [] && dests[0] == destCode
    requires forall k :: 1 <= k < |dests| ==> dests[k] != destCode
    ensures PrimaryFound(env, originCode, destCode, dests) == PrimaryFound(env, originCode, destCode, dests[..1])
  {
    if |dests| > 1 {
      var init := dests[..|dests| - 1];
      assert init[..1] == dests[..1];
      PrimaryFoundFirst(env, originCode, destCode, init);
    } else {
      assert dests[..1] == dests;
    }
  }

  // ---------------------------------------------------------------------
  // How an offer leg is shown
  // ---------------------------------------------------------------------

  /**
   * The display text of an ISO 8601 duration: remove 'PT', write 'H' as
   * 'h ' and 'M' as 'm', and strip.
   */
  function DurationText(iso: string): string {
    Strip(Unmarked(iso))
  }

  /** The duration text before stripping. */
  function Unmarked(iso: string): string {
    Replace(Replace(Replace(iso, "PT", ""), "H", "h "), "M", "m")
  }

  lemma NoPatternChar(s: string, pat: string)
    requires pat != [] && pat[0] !in s
    ensures !IsSubstring(pat, s)
  {
    if s != [] {
      assert s[0] != pat[0];
      NoPatternChar(s[1..], pat);
    }
  }

  lemma ReplaceDigitsUnchanged(ds: string, pat: string, rep: string)
    requires AllDigits(ds) && pat != [] && !IsDigit(pat[0])
    ensures Replace(ds, pat, rep) == ds
  {
    NoPatternChar(ds, pat);
    ReplaceAbsent(ds, pat, rep);
  }

  lemma StripUnchanged(s: string)
    requires s != [] && s[0] !in Whitespace && s[|s| - 1] !in Whitespace
    ensures Strip(s) == s
  {
  }

  lemma DropPeriodMarker(body: string)
    requires 'P' !in body
    ensures Replace("PT" + body, "PT", "") == body
  {
    var s := "PT" + body;
    assert "PT" <= s && s[2..] == body;
    NoPatternChar(body, "PT");
    ReplaceAbsent(body, "PT", "");
  }

  /** Replacing a non-digit character leaves the digit runs of `h + sep + m + tail` alone. */
  lemma ReplaceAroundDigits(h: string, sep: string, m: string, tail: string, c: char, rep: string)
    requires AllDigits(h) && AllDigits(m) && !IsDigit(c)
    ensures Replace(h + sep + m + tail, [c], rep) == h + Replace(sep, [c], rep) + m + Replace(tail, [c], rep)
  {
    ReplaceCharAppend(h + sep + m, tail, c, rep);
    ReplaceCharAppend(h + sep, m, c, rep);
    ReplaceCharAppend(h, sep, c, rep);
    ReplaceDigitsUnchanged(h, [c], rep);
    ReplaceDigitsUnchanged(m, [c], rep);
  }

  lemma UnmarkedHoursMinutes(h: string, m: string)
    requires AllDigits(h) && AllDigits(m)
    ensures Unmarked("PT" + h + "H" + m + "M") == h + "h " + m + "m"
  {
    var body := h + "H" + m + "M";
    assert "PT" + h + "H" + m + "M" == "PT" + body;
    assert 'P' !in body by {
      assert forall k :: 0 <= k < |body| ==> body[k] == 'H' || body[k] == 'M' || IsDigit(body[k]);
    }
    DropPeriodMarker(body);
    assert Replace(body, "H", "h ") == h + "h " + m + "M" by {
      ReplaceAroundDigits(h, "H", m, "M", 'H', "h ");
      assert Replace("H", "H", "h ") == "h ";
      NoPatternChar("M", "H");
      ReplaceAbsent("M", "H", "h ");
    }
    assert Replace(h + "h " + m + "M", "M", "m") == h + "h " + m + "m" by {
      ReplaceAroundDigits(h, "h ", m, "M", 'M', "m");
      NoPatternChar("h ", "M");
      ReplaceAbsent("h ", "M", "m");
      assert Replace("M", "M", "m") == "m";
    }
  }

  /** `PT{h}H{m}M` is shown as `{h}h {m}m`. */
  lemma DurationHoursMinutes(h: string, m: string)
    requires h != [] && AllDigits(h) && AllDigits(m)
    ensures DurationText("PT" + h + "H" + m + "M") == h + "h " + m + "m"
  {
    UnmarkedHoursMinutes(h, m);
    var shown := h + "h " + m + "m";
    assert shown[0] == h[0] && shown[|shown| - 1] == 'm';
    StripUnchanged(shown);
  }

  lemma ReplaceHourOnly(h: string)
    requires AllDigits(h)
    ensures Replace(h + "H", "H", "h ") == h + "h "
    ensures Replace(h + "h ", "M", "m") == h + "h "
  {
    ReplaceCharAppend(h, "H", 'H', "h ");
    ReplaceDigitsUnchanged(h, "H", "h ");
    assert Replace("H", "H", "h ") == "h ";
    ReplaceCharAppend(h, "h ", 'M', "m");
    ReplaceDigitsUnchanged(h, "M", "m");
    assert Replace("h ", "M", "m") == "h ";
  }

  lemma UnmarkedHoursOnly(h: string)
    requires AllDigits(h)
    ensures Unmarked("PT" + h + "H") == h + "h "
  {
    var body := h + "H";
    assert "PT" + h + "H" == "PT" + body;
    assert 'P' !in body by {
      assert forall k :: 0 <= k < |body| ==> body[k] == 'H' || IsDigit(body[k]);
    }
    DropPeriodMarker(body);
    ReplaceHourOnly(h);
  }

  lemma StripTrailingSpace(s: string)
    requires s != [] && s[0] !in Whitespace && s[|s| - 1] !in Whitespace
    ensures Strip(s + " ") == s
  {
    var spaced := s + " ";
    assert ' ' in Whitespace;
    assert spaced[0] == s[0] && spaced[..|spaced| - 1] == s;
    assert TrimEnd(s, Whitespace) == s;
    assert TrimEnd(spaced, Whitespace) == s;
    assert TrimStart(spaced, Whitespace) == spaced;
  }

  /** `PT{h}H` is shown as `{h}h`: the trailing space is stripped. */
  lemma DurationHoursOnly(h: string)
    requires h != [] && AllDigits(h)
    ensures DurationText("PT" + h + "H") == h + "h"
  {
    UnmarkedHoursOnly(h);
    var shown := h + "h";
    assert shown[0] == h[0];
    assert shown + " " == h + "h ";
    StripTrailingSpace(shown);
  }

  /** What the offer card shows for one leg. */
  datatype LegView = LegView(flightNumber: string, duration: string, stops: int, from: string, to: string)

  /** The card for a leg flown from `from` to `to`: first segment's flight number, the duration text, the stops. */
  function ShowLeg(it: Itinerary, from: string, to: string): (v: LegView)
    requires it.segments != []
    ensures v.stops >= 0 && (v.stops == 0 <==> |it.segments| == 1)
    ensures v.stops == |it.segments| - 1 && v.duration == DurationText(it.duration)
    ensures v.from == from && v.to == to
  {
    LegView(it.segments[0].carrierCode + it.segments[0].number, DurationText(it.duration),
            |it.segments| - 1, from, to)
  }

  /**
   * The outbound leg is shown from the origin airport to the destination
   * airport, the return leg (second itinerary, when there is one) the other
   * way round.
   */
  function ShowOffer(t: TaggedOffer): (legs: (LegView, Option<LegView>))
    requires t.offer.itineraries != [] && forall it :: it in t.offer.itineraries ==> it.segments != []
    ensures legs.0.from == t.originAirport && legs.0.to == t.destAirport
    ensures legs.1.Some? <==> |t.offer.itineraries| > 1
    ensures legs.1.Some? ==> legs.1.value.from == legs.0.to && legs.1.value.to == legs.0.from
  {
    var out := ShowLeg(t.offer.itineraries[0], t.originAirport, t.destAirport);
    if |t.offer.itineraries| > 1 then (out, Some(ShowLeg(t.offer.itineraries[1], t.destAirport, t.originAirport)))
    else (out, None)
  }
}
