/**
 * The six-step planning wizard of the web app: the session state it keeps
 * between page runs, the guarded transitions of `current_step`, and the two
 * pure helpers it uses (the trip length in days and the parser for the
 * destination agent's bullet-list reply). Each step's page run is one
 * method; the button the user pressed, the widgets' values and the agents'
 * replies are its parameters.
 */
module Wizard {
  import opened Wrappers
  import opened Text
  import opened Dates
  import opened PyValue
  import Budget
  import Itinerary

  // ----- Trip length -----

  /** `(end - start).days + 1`: a trip that starts and ends on the same day lasts one day. */
  function TripDays(start: Date, end: Date): int
    requires ValidDate(start) && ValidDate(end)
  {
    Ordinal(end) - Ordinal(start) + 1
  }

  /** A trip lasts at least one day exactly when it does not end before it starts, and one day exactly when it starts and ends on the same day. */
  lemma TripDaysCount(start: Date, end: Date)
    requires ValidDate(start) && ValidDate(end)
    ensures TripDays(start, end) >= 1 <==> !Before(end, start)
    ensures TripDays(start, end) == 1 <==> start == end
  {
    OrdinalOrder(end, start);
  }

  // ----- Destination reply -----

  /** The characters stripped from both ends of a reply line before its whitespace. */
  const BulletChars: set<char> := {'-', ' ', '*', '\U{2022}'}

  /** A reply line as a destination name: `line.strip('- *•').strip()`. */
  function CleanLine(line: string): string {
    StripChars(StripChars(line, BulletChars), Whitespace)
  }

  /** A line that `line.strip()` keeps something of. */
  predicate NonBlank(line: string) {
    Strip(line) != []
  }

  /** `[f(x) for x in xs if keep(x)]`. */
  function FilterMap<T, U>(xs: seq<T>, keep: T -> bool, f: T -> U): (ys: seq<U>)
    ensures |ys| <= |xs|
  {
    if xs == [] then []
    else
      var last := xs[|xs| - 1];
      FilterMap(xs[..|xs| - 1], keep, f) + (if keep(last) then [f(last)] else [])
  }

  /** The positions of the elements `keep` accepts, in increasing order. */
  function Positions<T>(xs: seq<T>, keep: T -> bool): (ps: seq<nat>)
    ensures forall k :: 0 <= k < |ps| ==> ps[k] < |xs| && keep(xs[ps[k]])
    ensures forall k, l :: 0 <= k < l < |ps| ==> ps[k] < ps[l]
    ensures forall j :: 0 <= j < |xs| && keep(xs[j]) ==> j in ps
  {
    if xs == [] then []
    else
      var n := |xs| - 1;
      var init := xs[..n];
      var ps := Positions(init, keep);
      assert forall k :: 0 <= k < |ps| ==> xs[ps[k]] == init[ps[k]];
      assert forall j :: 0 <= j < n ==> xs[j] == init[j];
      ps + (if keep(xs[n]) then [n] else [])
  }

  /** The k-th result of the comprehension comes from the k-th accepted element. */
  lemma {:induction false} FilterMapFollows<T, U>(xs: seq<T>, keep: T -> bool, f: T -> U)
    ensures |FilterMap(xs, keep, f)| == |Positions(xs, keep)|
    ensures forall k :: 0 <= k < |FilterMap(xs, keep, f)| ==>
      FilterMap(xs, keep, f)[k] == f(xs[Positions(xs, keep)[k]])
  {
    if xs != [] {
      var n := |xs| - 1;
      var init := xs[..n];
      FilterMapFollows(init, keep, f);
      var ys, ps := FilterMap(init, keep, f), Positions(init, keep);
      var extra: seq<U> := if keep(xs[n]) then [f(xs[n])] else [];
      var extraPos: seq<nat> := if keep(xs[n]) then [n] else [];
      assert FilterMap(xs, keep, f) == ys + extra;
      assert Positions(xs, keep) == ps + extraPos;
      forall k | 0 <= k < |ys| + |extra|
        ensures (ys + extra)[k] == f(xs[(ps + extraPos)[k]])
      {
        if k < |ys| {
          assert xs[ps[k]] == init[ps[k]];
        }
      }
    }
  }

  /** A comprehension that keeps every element yields the mapped elements in order. */
  lemma {:induction false} FilterMapAll<T, U>(xs: seq<T>, keep: T -> bool, f: T -> U, ys: seq<U>)
    requires |xs| == |ys|
    requires forall i :: 0 <= i < |xs| ==> keep(xs[i]) && f(xs[i]) == ys[i]
    ensures FilterMap(xs, keep, f) == ys
  {
    if xs != [] {
      var n := |xs| - 1;
      FilterMapAll(xs[..n], keep, f, ys[..n]);
      assert ys[..n] + [ys[n]] == ys;
    }
  }

  /** The destination names of a reply: one per non-blank line, as the list comprehension builds them. */
  function ParseDestinations(reply: string): seq<string> {
    FilterMap(Split(reply, '\n'), NonBlank, CleanLine)
  }

  /**
   * Order and content of the parsed list: its k-th name is the cleaned
   * k-th non-blank line of the reply, so blank lines are dropped and the
   * order is kept.
   */
  lemma ParseDestinationsFollowLines(reply: string)
    ensures var lines, ps := Split(reply, '\n'), Positions(Split(reply, '\n'), NonBlank);
      |ParseDestinations(reply)| == |ps| &&
      forall k :: 0 <= k < |ps| ==> ParseDestinations(reply)[k] == CleanLine(lines[ps[k]])
  {
    FilterMapFollows(Split(reply, '\n'), NonBlank, CleanLine);
  }

  /** A destination name the parser gives back unchanged. */
  predicate CleanName(name: string) {
    name != [] && '\n' !in name &&
    name[0] !in BulletChars && name[0] !in Whitespace &&
    name[|name| - 1] !in BulletChars && name[|name| - 1] !in Whitespace
  }

  /** A clean name survives both strips. */
  lemma CleanNameKept(name: string)
    requires CleanName(name)
    ensures NonBlank(name) && CleanLine(name) == name
  {
    assert TrimStart(name, BulletChars) == name;
    assert TrimEnd(name, BulletChars) == name;
    assert TrimStart(name, Whitespace) == name;
    assert TrimEnd(name, Whitespace) == name;
  }

  /** A reply listing clean names one per line is parsed back into exactly those names. */
  lemma ParseDestinationsRoundTrip(names: seq<string>)
    requires |names| >= 1
    requires forall i :: 0 <= i < |names| ==> CleanName(names[i])
    ensures ParseDestinations(Join(names, '\n')) == names
  {
    forall i | 0 <= i < |names|
      ensures NonBlank(names[i]) && CleanLine(names[i]) == names[i]
    {
      CleanNameKept(names[i]);
    }
    SplitJoin(names, '\n');
    FilterMapAll(names, NonBlank, CleanLine, names);
  }

  /** The reply lines of a bullet list: each name after `- `. */
  function Bulleted(names: seq<string>): (lines: seq<string>)
    ensures |lines| == |names|
  {
    if names == [] then [] else ["- " + names[0]] + Bulleted(names[1..])
  }

  lemma {:induction false} BulletedAt(names: seq<string>, i: nat)
    requires i < |names|
    ensures Bulleted(names)[i] == "- " + names[i]
    decreases i
  {
    if i > 0 {
      BulletedAt(names[1..], i - 1);
    }
  }

  /** The bullet in front of a clean name is stripped off. */
  lemma BulletStripped(name: string)
    requires CleanName(name)
    ensures '\n' !in "- " + name
    ensures NonBlank("- " + name) && CleanLine("- " + name) == name
  {
    assert '\n' !in "- ";
    BulletLineNonBlank(name);
    BulletLineCleaned(name);
  }

  lemma BulletLineNonBlank(name: string)
    requires name != [] && name[|name| - 1] !in Whitespace
    ensures NonBlank("- " + name)
  {
    var line := "- " + name;
    assert line[|line| - 1] == name[|name| - 1];
    StripCharsEmptyIff(line, Whitespace);
  }

  lemma BulletLineCleaned(name: string)
    requires CleanName(name)
    ensures CleanLine("- " + name) == name
  {
    BulletPrefixDropped(name);
    assert StripChars("- " + name, BulletChars) == StripChars(name, BulletChars);
    CleanNameKept(name);
  }

  lemma BulletPrefixDropped(name: string)
    requires name != [] && name[0] !in BulletChars
    ensures TrimStart("- " + name, BulletChars) == name
  {
    var line := "- " + name;
    var rest := line[1..];
    assert line[0] == '-' && rest == " " + name && rest[0] == ' ' && rest[1..] == name;
    assert TrimStart(name, BulletChars) == name;
    assert TrimStart(rest, BulletChars) == name;
  }

  /** A reply listing clean names as bullets, one per line, is parsed into exactly those names. */
  lemma ParseBulletedList(names: seq<string>)
    requires |names| >= 1
    requires forall i :: 0 <= i < |names| ==> CleanName(names[i])
    ensures ParseDestinations(Join(Bulleted(names), '\n')) == names
  {
    var lines := Bulleted(names);
    forall i | 0 <= i < |lines|
      ensures '\n' !in lines[i]
      ensures NonBlank(lines[i]) && CleanLine(lines[i]) == names[i]
    {
      BulletedAt(names, i);
      BulletStripped(names[i]);
    }
    SplitJoin(lines, '\n');
    FilterMapAll(lines, NonBlank, CleanLine, names);
  }

  // ----- Session state -----

  /** The button pressed in a page run (`Stay` when none was). */
  datatype Action = Stay | Back | Next | Submit | StartOver

  /** The keys of `travel_data`. */
  datatype Key =
    | Preferences | Interests | StartDate | EndDate | DepartureCity
    | Destination | DestinationIndex | CalculatedBudget

  /** What the budget step shows after a calculation. */
  datatype BudgetSummary = BudgetSummary(total: nat, accommodation: string, tripDays: int, includesFlights: bool)

  /**
   * The selected flight step 3 stores: exactly the ten fields of its
   * dictionary, so it has no nested `departure`, `arrival` or
   * `return_flight` entry.
   */
  datatype Selection = Selection(
    airline: Value, flightNumber: Value,
    departureAirport: Value, arrivalAirport: Value,
    departureCity: Value, arrivalCity: Value,
    departureTime: Value, arrivalTime: Value,
    price: Value, duration: Value)

  /** The value stored under `key` read as a `%Y-%m-%d` date. */
  function DateField(td: map<Key, Value>, key: Key): Option<Date> {
    if key in td && td[key].VStr? then ParseDate(td[key].s) else None
  }

  /**
   * The trip data step 1 must have accepted before step 2 is reached, for
   * the dates the date pickers returned: filled-in preferences and
   * interests, a departure city, and the dates stored as `%Y-%m-%d` text,
   * the end not before the start.
   */
  predicate PreferencesAccepted(td: map<Key, Value>, start: Date, end: Date) {
    Preferences in td && Truthy(td[Preferences]) &&
    Interests in td && Truthy(td[Interests]) &&
    DepartureCity in td && td[DepartureCity].VStr? &&
    ValidDate(start) && ValidDate(end) && start.year >= 1000 && end.year >= 1000 &&
    StartDate in td && td[StartDate] == VStr(FormatDate(start)) &&
    EndDate in td && td[EndDate] == VStr(FormatDate(end)) &&
    !Before(end, start)
  }

  /**
   * What a session at a given step holds, given the guards on the way there:
   * step 2 needs accepted preferences, step 3 a chosen destination, step 4
   * a selected flight.
   */
  predicate Reachable(step: int, td: map<Key, Value>, selected: Option<Selection>, start: Date, end: Date) {
    1 <= step <= 6 &&
    (step >= 2 ==> PreferencesAccepted(td, start, end)) &&
    (step >= 3 ==> Destination in td && td[Destination].VStr?) &&
    (step >= 4 ==> selected.Some?)
  }

  /** The checks of steps 3 to 6 (required fields, readable dates) always pass in a reachable session. */
  lemma LaterStepChecksPass(step: int, td: map<Key, Value>, selected: Option<Selection>, start: Date, end: Date)
    requires Reachable(step, td, selected, start, end) && step >= 3
    ensures DepartureCity in td && Destination in td && StartDate in td && EndDate in td
    ensures DateField(td, StartDate) == Some(start) && DateField(td, EndDate) == Some(end)
    ensures TripDays(start, end) >= 1
  {
    StoredDatesRead(td, start, end);
    TripDaysCount(start, end);
  }

  /** Dates stored with `strftime('%Y-%m-%d')` read back as the same dates. */
  lemma StoredDatesRead(td: map<Key, Value>, start: Date, end: Date)
    requires ValidDate(start) && ValidDate(end) && start.year >= 1000 && end.year >= 1000
    requires StartDate in td && td[StartDate] == VStr(FormatDate(start))
    requires EndDate in td && td[EndDate] == VStr(FormatDate(end))
    ensures DateField(td, StartDate) == Some(start) && DateField(td, EndDate) == Some(end)
  {
    FormatParse(start);
    FormatParse(end);
  }

  /** The trip data after step 1's widgets have written their values (dates as `%Y-%m-%d` text). */
  function StoreTripPreferences(td: map<Key, Value>, preferences: string, interests: string,
                                start: Date, end: Date, departureCity: string): map<Key, Value>
    requires ValidDate(start) && ValidDate(end) && start.year >= 1000 && end.year >= 1000
  {
    td[Preferences := VStr(preferences)][Interests := VStr(interests)]
      [StartDate := VStr(FormatDate(start))][EndDate := VStr(FormatDate(end))]
      [DepartureCity := VStr(departureCity)]
  }

  /**
   * Step 1's check on the data just stored (whose dates read back as the
   * picked ones, `StoredDatesRead`): it is accepted exactly when the end is
   * not before the start and preferences and interests are filled in.
   */
  lemma StepOneStored(td: map<Key, Value>, preferences: string, interests: string,
                      start: Date, end: Date, departureCity: string)
    requires ValidDate(start) && ValidDate(end) && start.year >= 1000 && end.year >= 1000
    ensures PreferencesAccepted(StoreTripPreferences(td, preferences, interests, start, end, departureCity), start, end)
      <==> !Before(end, start) && preferences != [] && interests != []
  {
  }

  /** `x or y`. */
  function Or(x: Value, y: Value): Value {
    if Truthy(x) then x else y
  }

  /**
   * The selection step 3 builds from a flight result dictionary, with the
   * trip's departure city and destination standing in for missing leg
   * cities; `None` when its `departure` or `arrival` entry is not a
   * dictionary, so that the nested `.get` raises.
   */
  function FlightSelection(result: map<string, Value>, departureCity: Value, destination: Value)
    : (sel: Option<Selection>)
    ensures sel.Some? <==> Get(result, "departure", VDict(map[])).VDict? && Get(result, "arrival", VDict(map[])).VDict?
    ensures sel.Some? ==> sel.value.price == Get(result, "price", VNone)
  {
    var dep := Get(result, "departure", VDict(map[]));
    var arr := Get(result, "arrival", VDict(map[]));
    if !dep.VDict? || !arr.VDict? then None
    else
      Some(Selection(
        Get(result, "airline", VNone), Get(result, "flight_number", VNone),
        Get(dep.entries, "airport", VNone), Get(arr.entries, "airport", VNone),
        Or(Get(dep.entries, "city", VNone), departureCity), Or(Get(arr.entries, "city", VNone), destination),
        Get(dep.entries, "time", VNone), Get(arr.entries, "time", VNone),
        Get(result, "price", VNone), Get(result, "duration", VNone)))
  }

  /**
   * The selection's cities: the leg's own city when it is truthy, the
   * trip's otherwise, so a selection made for a trip with named cities
   * never has a blank city.
   */
  lemma SelectionCities(result: map<string, Value>, departureCity: Value, destination: Value)
    requires FlightSelection(result, departureCity, destination).Some?
    ensures var sel := FlightSelection(result, departureCity, destination).value;
      var dep := Get(result, "departure", VDict(map[])).entries;
      var arr := Get(result, "arrival", VDict(map[])).entries;
      (sel.departureCity == departureCity || ("city" in dep && sel.departureCity == dep["city"])) &&
      (sel.arrivalCity == destination || ("city" in arr && sel.arrivalCity == arr["city"])) &&
      (Truthy(departureCity) ==> Truthy(sel.departureCity)) &&
      (Truthy(destination) ==> Truthy(sel.arrivalCity))
  {
  }

  /** Values the `,` format specification accepts (numbers); anything else raises. */
  predicate FormatsWithComma(v: Value) {
    v.VBool? || v.VInt? || v.VFloat?
  }

  /** The budget agent raises when the flight cost is truthy and not a number. */
  predicate FlightCostRaises(cost: Value) {
    Truthy(cost) && !FormatsWithComma(cost)
  }

  /**
   * The flight details step 5 passes to the itinerary agent. The nested
   * `arrival`, `departure` and `return_flight` reads of the selection fall
   * back to their defaults, since the selection has none of those fields.
   */
  function ItineraryFlightData(sel: Selection, destination: Value): Value {
    VDict(map[
      "airline" := sel.airline,
      "flight_number" := sel.flightNumber,
      "arrival" := VDict(map["airport" := VStr(""), "city" := destination, "time" := VStr("")]),
      "departure" := VDict(map["airport" := VStr(""), "time" := VStr("")]),
      "return_flight" := VNone])
  }

  /** The `dates` dictionary step 5 passes to the itinerary agent. */
  function ItineraryDates(start: Date, end: Date): (dates: Value)
    requires ValidDate(start) && ValidDate(end) && start.year >= 1000 && end.year >= 1000
    ensures dates.VDict? && "duration" in dates.entries
    ensures dates.entries["duration"] == VInt(TripDays(start, end))
  {
    VDict(map[
      "start_date" := VStr(FormatDate(start)),
      "end_date" := VStr(FormatDate(end)),
      "duration" := VInt(TripDays(start, end))])
  }

  /**
   * The wizard's flight details always come as a non-empty dictionary
   * without a return flight, with a dictionary for each leg: the prompt
   * gets the outbound flight information, the flight-arrival first day and
   * no departure day.
   */
  lemma WizardFlightDetails(sel: Selection, destination: Value)
    ensures IsNonEmptyDict(ItineraryFlightData(sel, destination))
    ensures !Itinerary.HasReturnFlight(ItineraryFlightData(sel, destination))
    ensures Itinerary.FlightInfoOf(ItineraryFlightData(sel, destination)) == Some(Itinerary.Outbound)
    ensures forall daily ::
      Itinerary.ArrivalSection(ItineraryFlightData(sel, destination), daily).variant == Itinerary.FlightArrival
  {
    var fd := ItineraryFlightData(sel, destination);
    assert fd.entries["return_flight"] == VNone;
    assert fd.entries["arrival"].VDict? && fd.entries["departure"].VDict?;
  }

  /** The session state the app keeps across page runs. */
  class Session {
    var currentStep: int
    var travelData: map<Key, Value>
    var destinations: seq<string>
    var lastPreferences: Option<Value>
    /** `flight_result`: `VNone` while no search has been stored or the last one returned `None`. */
    var flightResult: Value
    var selectedFlight: Option<Selection>
    var budgetResult: Option<BudgetSummary>
    var itineraryResult: Option<Itinerary.Outcome>
    /** The dates the step-1 date pickers last returned; `travelData` holds them as text. */
    ghost var tripStart: Date
    ghost var tripEnd: Date

    ghost predicate Valid()
      reads this
    {
      Reachable(currentStep, travelData, selectedFlight, tripStart, tripEnd)
    }

    /** The state of a fresh session, and of one after "Start New Trip". */
    predicate Initial()
      reads this
    {
      currentStep == 1 && travelData == map[] && destinations == [] &&
      lastPreferences.None? && flightResult == VNone && selectedFlight.None? &&
      budgetResult.None? && itineraryResult.None?
    }

    /** Session initialisation: step 1, no trip data, no destinations. */
    constructor()
      ensures Valid() && Initial()
    {
      currentStep := 1;
      travelData := map[];
      destinations := [];
      lastPreferences := None;
      flightResult := VNone;
      selectedFlight := None;
      budgetResult := None;
      itineraryResult := None;
    }

    /**
     * Step 1: the widgets write the preferences, interests, dates and
     * departure city into the trip data on every run; "Next" moves to
     * step 2 only when the end date is not before the start date and
     * both preferences and interests are filled in.
     */
    method TripPreferences(preferences: string, interests: string, start: Date, end: Date,
                           departureCity: string, action: Action)
      requires Valid() && currentStep == 1
      requires ValidDate(start) && ValidDate(end) && start.year >= 1000 && end.year >= 1000
      modifies this
      ensures Valid()
      ensures travelData == StoreTripPreferences(old(travelData), preferences, interests, start, end, departureCity)
      ensures tripStart == start && tripEnd == end
      ensures currentStep == 2 <==> action == Submit && !Before(end, start) && preferences != [] && interests != []
      ensures currentStep == 1 || currentStep == 2
      ensures destinations == old(destinations) && lastPreferences == old(lastPreferences)
      ensures flightResult == old(flightResult) && selectedFlight == old(selectedFlight)
      ensures budgetResult == old(budgetResult) && itineraryResult == old(itineraryResult)
    {
      travelData := StoreTripPreferences(travelData, preferences, interests, start, end, departureCity);
      tripStart, tripEnd := start, end;
      // "Back" keeps step 1. On "Next" the check reads the dates back from
      // the text just stored, which gives the picked dates again
      // (`StoredDatesRead`); a failed check only shows an error.
      StepOneStored(old(travelData), preferences, interests, start, end, departureCity);
      if action == Submit && !Before(end, start) && preferences != [] && interests != [] {
        currentStep := 2;
      }
    }

    /** Step 2 fetches destinations when it has none for the current preferences. */
    predicate NeedsDestinations()
      requires Valid() && currentStep >= 2
      reads this
    {
      lastPreferences != Some(travelData[Preferences]) || destinations == []
    }

    /**
     * Step 2, first part: the destination list is cleared when the
     * preferences changed since it was fetched; an empty list is fetched
     * again (`reply`, `None` when the agent raises). A string reply is
     * parsed and remembered with its preferences; when the list is still
     * empty without an exception, the wizard goes back to step 1.
     */
    method LoadDestinations(reply: Option<Value>)
      requires Valid() && currentStep == 2
      modifies this
      ensures tripStart == old(tripStart) && tripEnd == old(tripEnd)
      ensures Valid()
      ensures travelData == old(travelData)
      ensures !old(NeedsDestinations()) ==>
        destinations == old(destinations) && currentStep == 2 && lastPreferences == old(lastPreferences)
      ensures old(NeedsDestinations()) && reply.None? ==>
        destinations == [] && currentStep == 2 && lastPreferences == old(lastPreferences)
      ensures old(NeedsDestinations()) && reply.Some? && reply.value.VStr? ==>
        destinations == ParseDestinations(reply.value.s) &&
        lastPreferences == Some(old(travelData)[Preferences]) &&
        currentStep == (if destinations == [] then 1 else 2)
      ensures old(NeedsDestinations()) && reply.Some? && !reply.value.VStr? ==>
        destinations == [] && currentStep == 1 && lastPreferences == old(lastPreferences)
      ensures flightResult == old(flightResult) && selectedFlight == old(selectedFlight)
      ensures budgetResult == old(budgetResult) && itineraryResult == old(itineraryResult)
    {
      var preferences := travelData[Preferences];
      if lastPreferences != Some(preferences) || destinations == [] {
        if reply.None? {
          // "Error fetching destinations"
          destinations := [];
        } else if reply.value.VStr? {
          destinations := ParseDestinations(reply.value.s);
          lastPreferences := Some(preferences);
          if destinations == [] {
            // "No destinations found matching your criteria."
            currentStep := 1;
          }
        } else {
          destinations := [];
          currentStep := 1;
        }
      }
    }

    /**
     * Step 2, second part, shown while there are destinations: the radio
     * choice is stored with the position `list.index` finds for it; "Back"
     * returns to step 1 and "Next" moves to step 3.
     */
    method PickDestination(choice: nat, action: Action)
      requires Valid() && currentStep == 2 && choice < |destinations|
      modifies this
      ensures tripStart == old(tripStart) && tripEnd == old(tripEnd)
      ensures Valid()
      ensures travelData == old(travelData)[Destination := VStr(old(destinations)[choice])]
        [DestinationIndex := VInt(FirstIndex(old(destinations), old(destinations)[choice]))]
      ensures currentStep == (if action == Back then 1 else if action == Next then 3 else 2)
      ensures destinations == old(destinations) && lastPreferences == old(lastPreferences)
      ensures flightResult == old(flightResult) && selectedFlight == old(selectedFlight)
      ensures budgetResult == old(budgetResult) && itineraryResult == old(itineraryResult)
    {
      var selected := destinations[choice];
      travelData := travelData[Destination := VStr(selected)];
      travelData := travelData[DestinationIndex := VInt(FirstIndex(destinations, selected))];
      if action == Back {
        currentStep := 1;
      } else if action == Next {
        currentStep := 3;
      }
    }

    /**
     * Whether step 3's page run stops with an error before its buttons: the
     * result's nested legs cannot be read, or the selection's price cannot
     * be formatted.
     */
    static predicate FlightStepHalts(result: Value, departureCity: Value, destination: Value) {
      IsNonEmptyDict(result) &&
      match FlightSelection(result.entries, departureCity, destination)
      case None => true
      case Some(sel) => !FormatsWithComma(sel.price)
    }

    /**
     * Step 3: the flight search runs while no result other than `None` is
     * stored (`reply` is what it returns, `None` when it raises, which is
     * stored as `False`); a non-empty dictionary result becomes the
     * selected flight. "Back" returns to step 2; "Continue" moves to step 4
     * and is disabled until a flight is selected.
     */
    method FlightOptions(reply: Option<Value>, action: Action)
      requires Valid() && currentStep == 3
      modifies this
      ensures tripStart == old(tripStart) && tripEnd == old(tripEnd)
      ensures Valid()
      ensures travelData == old(travelData)
      ensures flightResult ==
        if old(flightResult) != VNone then old(flightResult)
        else if reply.Some? then reply.value else VBool(false)
      ensures var result := flightResult;
        var found := if IsNonEmptyDict(result)
          then FlightSelection(result.entries, travelData[DepartureCity], travelData[Destination])
          else None;
        selectedFlight == (if found.Some? then found else old(selectedFlight)) &&
        currentStep ==
          if FlightStepHalts(result, travelData[DepartureCity], travelData[Destination]) then 3
          else if action == Back then 2
          else if action == Next && selectedFlight.Some? then 4
          else 3
      ensures destinations == old(destinations) && lastPreferences == old(lastPreferences)
      ensures budgetResult == old(budgetResult) && itineraryResult == old(itineraryResult)
    {
      if flightResult == VNone {
        flightResult := if reply.Some? then reply.value else VBool(false);
      }
      var result := flightResult;
      if IsNonEmptyDict(result) {
        var selection := FlightSelection(result.entries, travelData[DepartureCity], travelData[Destination]);
        if selection.None? {
          return;
        }
        selectedFlight := selection;
        if !FormatsWithComma(selection.value.price) {
          return;
        }
      }
      if action == Back {
        currentStep := currentStep - 1;
      } else if action == Next && selectedFlight.Some? {
        currentStep := currentStep + 1;
      }
    }

    /**
     * Step 4: "Calculate Budget" asks the budget agent (its reply is
     * `reply`, `None` when the call fails) with the selected flight's price
     * and stores the extracted total; when the price cannot be formatted
     * the calculation fails and nothing is stored. "Back" returns to
     * step 3, "Next" moves to step 5.
     */
    method BudgetPlanning(accommodation: string, reply: Option<string>, action: Action)
      requires Valid() && currentStep == 4
      modifies this
      ensures tripStart == old(tripStart) && tripEnd == old(tripEnd)
      ensures Valid()
      ensures
        var price := old(selectedFlight).value.price;
        if action == Submit && !FlightCostRaises(price) then
          var start, end := old(tripStart), old(tripEnd);
          travelData == old(travelData)[CalculatedBudget := VInt(Budget.ExtractBudget(reply))] &&
          budgetResult == Some(BudgetSummary(Budget.ExtractBudget(reply), accommodation,
                                             TripDays(start, end), Truthy(price)))
        else
          travelData == old(travelData) && budgetResult == old(budgetResult)
      ensures currentStep == (if action == Back then 3 else if action == Next then 5 else 4)
      ensures destinations == old(destinations) && lastPreferences == old(lastPreferences)
      ensures flightResult == old(flightResult) && selectedFlight == old(selectedFlight)
      ensures itineraryResult == old(itineraryResult)
    {
      if action == Submit {
        LaterStepChecksPass(currentStep, travelData, selectedFlight, tripStart, tripEnd);
        var start := DateField(travelData, StartDate).value;
        var end := DateField(travelData, EndDate).value;
        var flightCost := selectedFlight.value.price;
        if !FlightCostRaises(flightCost) {
          var total := Budget.ExtractBudget(reply);
          travelData := travelData[CalculatedBudget := VInt(total)];
          budgetResult := Some(BudgetSummary(total, accommodation, TripDays(start, end), Truthy(flightCost)));
        }
      } else if action == Back {
        currentStep := 3;
      } else if action == Next {
        currentStep := 5;
      }
    }

    /**
     * Step 5: the itinerary is generated once, from the stored budget (50000
     * when none was calculated), the destination, the trip dates and the
     * selected flight; `reply` is the model's reply (`None` when the call
     * raises). "Back" and "Next" move one step.
     */
    method ItineraryStep(reply: Option<string>, action: Action)
      requires Valid() && currentStep == 5
      modifies this
      ensures tripStart == old(tripStart) && tripEnd == old(tripEnd)
      ensures Valid()
      ensures travelData == old(travelData)
      ensures old(itineraryResult).Some? ==> itineraryResult == old(itineraryResult)
      ensures old(itineraryResult).None? ==>
        itineraryResult.Some? && WizardItinerary(itineraryResult.value, travelData, tripStart, tripEnd, reply)
      ensures currentStep == (if action == Back then 4 else if action == Next then 6 else 5)
      ensures destinations == old(destinations) && lastPreferences == old(lastPreferences)
      ensures flightResult == old(flightResult) && selectedFlight == old(selectedFlight)
      ensures budgetResult == old(budgetResult)
    {
      if itineraryResult.None? {
        var outcome := WizardGenerate(travelData, tripStart, tripEnd, selectedFlight.value, reply);
        itineraryResult := Some(outcome);
      }
      if action == Back {
        currentStep := currentStep - 1;
      } else if action == Next {
        currentStep := currentStep + 1;
      }
    }

    /**
     * Step 6: "Back" returns to step 5; "Start New Trip" resets the session
     * to its initial state (the reset is followed by clearing every key, and
     * the next run initialises the defaults again).
     */
    method WeatherStep(action: Action)
      requires Valid() && currentStep == 6
      modifies this
      ensures Valid()
      ensures action == StartOver ==> Initial()
      ensures action == Back ==> currentStep == 5
      ensures action != StartOver ==>
        travelData == old(travelData) && destinations == old(destinations) &&
        lastPreferences == old(lastPreferences) && flightResult == old(flightResult) &&
        selectedFlight == old(selectedFlight) && budgetResult == old(budgetResult) &&
        itineraryResult == old(itineraryResult) && (action != Back ==> currentStep == 6)
    {
      if action == Back {
        currentStep := 5;
      } else if action == StartOver {
        currentStep := 1;
        travelData := map[];
        destinations := [];
        lastPreferences := None;
        flightResult := VNone;
        selectedFlight := None;
        budgetResult := None;
        itineraryResult := None;
      }
    }
  }

  /**
   * What step 5 promises of a fresh itinerary for trip data that got past
   * step 2: an empty destination is rejected, a failed model call is the
   * only failure, and a generated itinerary covers exactly the trip's days,
   * starting with the flight arrival, with the stored budget raised to the
   * minimum.
   */
  predicate WizardItinerary(outcome: Itinerary.Outcome, td: map<Key, Value>, start: Date, end: Date,
                           reply: Option<string>)
    requires PreferencesAccepted(td, start, end) && Destination in td && td[Destination].VStr?
  {
    var destination := td[Destination].s;
    (outcome == Itinerary.InvalidDestination <==> destination == []) &&
    (outcome == Itinerary.GenerationFailed <==> destination != [] && reply.None?) &&
    (outcome.Generated? <==> destination != [] && reply.Some?) &&
    (outcome.Generated? ==>
      outcome.request.destination == destination &&
      outcome.request.duration == TripDays(start, end) && outcome.request.duration >= 1 &&
      outcome.request.budget == Itinerary.NormalBudget(Get(td, CalculatedBudget, VInt(Budget.FallbackBudget))) &&
      |outcome.request.framework| == outcome.request.duration &&
      outcome.request.framework[0].variant == Itinerary.FlightArrival &&
      outcome.request.flightInfo == Itinerary.Outbound &&
      outcome.content == reply.value)
  }

  /**
   * Step 5's request to the itinerary agent: the stored budget (50000 when
   * none was calculated), the destination, the dates read back from the
   * trip data with the trip length, and the flight details built from the
   * selection.
   */
  method WizardGenerate(td: map<Key, Value>, ghost start: Date, ghost end: Date, selected: Selection,
                        reply: Option<string>)
    returns (outcome: Itinerary.Outcome)
    requires PreferencesAccepted(td, start, end) && Destination in td && td[Destination].VStr?
    ensures WizardItinerary(outcome, td, start, end, reply)
  {
    var startDate, endDate := ReadDates(td, start, end);
    TripDaysCount(start, end);
    var budget := Get(td, CalculatedBudget, VInt(Budget.FallbackBudget));
    var destination := td[Destination];
    var flightData := ItineraryFlightData(selected, destination);
    var dates := ItineraryDates(startDate, endDate);
    WizardFlightDetails(selected, destination);
    assert Itinerary.ValidDestination(destination) <==> destination.s != [];
    assert !Itinerary.DatesRejected(dates);
    outcome := Itinerary.GenerateItinerary(destination, dates, budget, flightData, reply);
    if outcome.Generated? {
      var r := outcome.request;
      assert r.duration == TripDays(start, end);
      assert r.framework[0] == Itinerary.ArrivalSection(flightData, r.dailyBudget);
    }
  }

  /** `datetime.strptime` of the stored start and end dates, which succeeds in a session past step 1. */
  method ReadDates(td: map<Key, Value>, ghost start: Date, ghost end: Date) returns (startDate: Date, endDate: Date)
    requires PreferencesAccepted(td, start, end)
    ensures startDate == start && endDate == end
  {
    StoredDatesRead(td, start, end);
    startDate := DateField(td, StartDate).value;
    endDate := DateField(td, EndDate).value;
  }

  /** `list.index(x)`: the first position of `x`. */
  function FirstIndex(s: seq<string>, x: string): (i: nat)
    requires x in s
    ensures i < |s| && s[i] == x
    ensures forall k :: 0 <= k < i ==> s[k] != x
  {
    if s[0] == x then 0 else FirstIndex(s[1..], x) + 1
  }
}
