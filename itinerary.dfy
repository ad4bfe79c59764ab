/**
 * The itinerary agent before its language-model call: input validation,
 * normalising the budget and the duration, the daily budget, and the
 * framework of day sections (arrival, activity days 2..n, an optional
 * departure) that the prompt hands to the model. A section is modelled by
 * its day number, its variant and its budget, not by its markdown text.
 */
module Itinerary {
  import opened Wrappers
  import opened PyValue

  /** The smallest budget the planner works with. */
  const MinimumBudget: int := 20000

  /** The budget used when the given one is not convertible to an integer. */
  const DefaultBudget: int := 50000

  /** The duration used when the given one is below one day. */
  const DefaultDuration: int := 2

  /** The four section templates. */
  datatype Variant = FlightArrival | Welcome | Exploring | Departure

  /** One day section of the framework. */
  datatype Section = Section(day: int, variant: Variant, budget: int)

  /** How much of the flight the prompt's flight information describes. */
  datatype FlightInfo = NoFlightInfo | Outbound | OutboundAndReturn

  /** What the prompt is built from. */
  datatype Request = Request(
    destination: string,
    duration: int,
    budget: int,
    dailyBudget: int,
    framework: seq<Section>,
    flightInfo: FlightInfo)

  /** The result: one of the two validation messages, the failure message, or the model's reply for a request. */
  datatype Outcome =
    | InvalidDestination
    | InvalidDates
    | GenerationFailed
    | Generated(request: Request, content: string)

  /**
   * `max(int(budget), 20000)`, or 50000 when `int(budget)` raises.
   */
  function NormalBudget(budget: Value): (r: int)
    ensures r >= MinimumBudget
    ensures IntOf(budget).None? ==> r == DefaultBudget
    ensures IntOf(budget).Some? ==>
      r >= IntOf(budget).value && (r == IntOf(budget).value || r == MinimumBudget)
  {
    match IntOf(budget)
    case None => DefaultBudget
    case Some(b) => if b > MinimumBudget then b else MinimumBudget
  }

  /** A duration below one day becomes the default. */
  function NormalDuration(d: int): (r: int)
    ensures r >= 1
    ensures d >= 1 ==> r == d
    ensures d < 1 ==> r == DefaultDuration
  {
    if d < 1 then DefaultDuration else d
  }

  /** `int(budget / duration)`: the budget shared out over the days, rounded down. */
  function DailyBudget(budget: int, duration: int): (daily: int)
    requires budget >= 0 && duration >= 1
    ensures daily >= 0
    ensures daily * duration <= budget < (daily + 1) * duration
  {
    budget / duration
  }

  /** The mapping `flight_details` stands in for when it is a dictionary. */
  function EmptyDict(): Value {
    VDict(map[])
  }

  /**
   * The day-1 section. The flight variant is used for a non-empty
   * dictionary of flight details whose `arrival` entry (by default an empty
   * dictionary) is itself a dictionary; any other arrival value makes the
   * template raise, and the handler falls back to the generic variant, as
   * does every other input.
   */
  function ArrivalSection(flightDetails: Value, dailyBudget: int): (s: Section)
    ensures s.day == 1 && s.budget == dailyBudget
    ensures s.variant == FlightArrival || s.variant == Welcome
    ensures s.variant == FlightArrival <==>
      IsNonEmptyDict(flightDetails) && Get(flightDetails.entries, "arrival", EmptyDict()).VDict?
  {
    if IsNonEmptyDict(flightDetails) && Get(flightDetails.entries, "arrival", EmptyDict()).VDict? then
      Section(1, FlightArrival, dailyBudget)
    else
      Section(1, Welcome, dailyBudget)
  }

  /**
   * The activity days: one section per day from 2 to `duration`, in
   * increasing order, each with the daily budget; nothing for a duration of
   * one day or less.
   */
  method BuildActivityDays(duration: int, dailyBudget: int) returns (days: seq<Section>)
    ensures |days| == if duration <= 1 then 0 else duration - 1
    ensures forall i :: 0 <= i < |days| ==> days[i] == Section(i + 2, Exploring, dailyBudget)
  {
    days := [];
    var day := 2;
    while day <= duration
      invariant 2 <= day <= if duration < 2 then 2 else duration + 1
      invariant |days| == day - 2
      invariant forall i :: 0 <= i < |days| ==> days[i] == Section(i + 2, Exploring, dailyBudget)
    {
      days := days + [Section(day, Exploring, dailyBudget)];
      day := day + 1;
    }
  }

  /** The return flight recorded in the flight details, when it is truthy. */
  predicate HasReturnFlight(flightDetails: Value) {
    IsNonEmptyDict(flightDetails) && Truthy(Get(flightDetails.entries, "return_flight", VNone))
  }

  /**
   * The departure section, labelled with the last day and half the daily
   * budget (rounded down), or nothing (`""` in the source). The template
   * raises, and the handler gives nothing, unless the return flight and its
   * `departure` entry are dictionaries.
   */
  function DepartureSection(duration: int, flightDetails: Value, dailyBudget: int): (r: Option<Section>)
    requires dailyBudget >= 0
    ensures r.Some? ==> HasReturnFlight(flightDetails)
    ensures IsNonEmptyDict(flightDetails) ==>
      var returnFlight := Get(flightDetails.entries, "return_flight", EmptyDict());
      (r.Some? <==> Truthy(returnFlight) && returnFlight.VDict? && Get(returnFlight.entries, "departure", EmptyDict()).VDict?)
    ensures r.Some? ==> r.value.day == duration && r.value.variant == Departure
    ensures r.Some? ==> 2 * r.value.budget <= dailyBudget < 2 * r.value.budget + 2
  {
    if !IsNonEmptyDict(flightDetails) then None
    else
      var returnFlight := Get(flightDetails.entries, "return_flight", EmptyDict());
      if !Truthy(returnFlight) || !returnFlight.VDict? then None
      else if !Get(returnFlight.entries, "departure", EmptyDict()).VDict? then None
      else Some(Section(duration, Departure, dailyBudget / 2))
  }

  /**
   * The `departure` and `arrival` entries the flight-information text reads
   * with `.get(..., {}).get(...)`: each must be a dictionary, or the text
   * raises.
   */
  predicate LegsAreDicts(d: map<string, Value>) {
    Get(d, "departure", EmptyDict()).VDict? && Get(d, "arrival", EmptyDict()).VDict?
  }

  /**
   * The flight information of the prompt: none without a non-empty
   * dictionary of flight details, the outbound flight, and also the return
   * flight when it is truthy. `None` means building the text raises.
   */
  function FlightInfoOf(flightDetails: Value): (r: Option<FlightInfo>)
    ensures r == Some(NoFlightInfo) <==> !IsNonEmptyDict(flightDetails)
    ensures r == Some(OutboundAndReturn) ==> HasReturnFlight(flightDetails)
    ensures r == Some(Outbound) ==> !HasReturnFlight(flightDetails)
    ensures IsNonEmptyDict(flightDetails) && LegsAreDicts(flightDetails.entries) && !HasReturnFlight(flightDetails) ==>
      r == Some(Outbound)
    ensures IsNonEmptyDict(flightDetails) && LegsAreDicts(flightDetails.entries) ==>
      var returnFlight := Get(flightDetails.entries, "return_flight", VNone);
      Truthy(returnFlight) && returnFlight.VDict? && LegsAreDicts(returnFlight.entries) ==> r == Some(OutboundAndReturn)
  {
    if !IsNonEmptyDict(flightDetails) then Some(NoFlightInfo)
    else if !LegsAreDicts(flightDetails.entries) then None
    else if !HasReturnFlight(flightDetails) then Some(Outbound)
    else
      var returnFlight := flightDetails.entries["return_flight"];
      if returnFlight.VDict? && LegsAreDicts(returnFlight.entries) then Some(OutboundAndReturn)
      else None
  }

  /** A destination the agent accepts: a non-empty string. */
  predicate ValidDestination(destination: Value) {
    destination.VStr? && destination.s != []
  }

  /**
   * The dates the agent turns away: a falsy value, or one for which
   * `'duration' in dates` is false. `Contains` is `None` when the test
   * itself raises, which is not a rejection but a failure.
   */
  predicate DatesRejected(dates: Value) {
    !Truthy(dates) || Contains(dates, "duration") == Some(false)
  }

  /**
   * The layout of a framework: the arrival section, one activity section
   * for each day 2..duration in order, then the departure section when
   * there is one.
   */
  predicate Framework(sections: seq<Section>, duration: int, dailyBudget: int,
                      arrival: Section, departure: Option<Section>)
    requires duration >= 1
  {
    |sections| == duration + (if departure.Some? then 1 else 0) &&
    sections[0] == arrival &&
    (forall i :: 1 <= i < duration ==> sections[i] == Section(i + 1, Exploring, dailyBudget)) &&
    (departure.Some? ==> sections[duration] == departure.value)
  }

  /** The framework's day numbers run from 1 to the duration, increasing up to the departure day. */
  lemma FrameworkDays(sections: seq<Section>, duration: int, dailyBudget: int,
                     flightDetails: Value, departure: Option<Section>)
    requires duration >= 1 && dailyBudget >= 0
    requires departure == DepartureSection(duration, flightDetails, dailyBudget)
    requires Framework(sections, duration, dailyBudget, ArrivalSection(flightDetails, dailyBudget), departure)
    ensures forall i :: 0 <= i < |sections| ==> 1 <= sections[i].day <= duration
    ensures forall i, j :: 0 <= i < j < duration ==> sections[i].day < sections[j].day
    ensures forall i :: 1 <= i < duration ==> sections[i].variant == Exploring
    ensures |sections| == duration + 1 <==> departure.Some?
  {
  }

  /**
   * `generate_itinerary`: validation first, then the normalised budget and
   * duration, the framework and the flight information, then the model
   * call, whose reply is `reply` (`None` when the call raises). Every
   * exception the body raises becomes `GenerationFailed`.
   */
  method GenerateItinerary(destination: Value, dates: Value, budget: Value, flightDetails: Value,
                           reply: Option<string>)
    returns (outcome: Outcome)
    ensures outcome == InvalidDestination <==> !ValidDestination(destination)
    ensures outcome == InvalidDates <==> ValidDestination(destination) && DatesRejected(dates)
    ensures outcome.Generated? ==>
      ValidDestination(destination) && dates.VDict? && "duration" in dates.entries &&
      IntOf(dates.entries["duration"]).Some? && reply.Some?
    ensures outcome.Generated? ==>
      outcome.request.destination == destination.s && outcome.content == reply.value &&
      outcome.request.budget == NormalBudget(budget) &&
      outcome.request.duration == NormalDuration(IntOf(dates.entries["duration"]).value)
    ensures outcome.Generated? ==>
      outcome.request.dailyBudget == DailyBudget(outcome.request.budget, outcome.request.duration)
    ensures outcome.Generated? ==>
      var r := outcome.request;
      Framework(r.framework, r.duration, r.dailyBudget, ArrivalSection(flightDetails, r.dailyBudget),
                if HasReturnFlight(flightDetails) then DepartureSection(r.duration, flightDetails, r.dailyBudget)
                else None)
    ensures outcome.Generated? ==> FlightInfoOf(flightDetails) == Some(outcome.request.flightInfo)
    ensures outcome == GenerationFailed ==>
      ValidDestination(destination) && !DatesRejected(dates) &&
      (!dates.VDict? || IntOf(dates.entries["duration"]).None? ||
       FlightInfoOf(flightDetails).None? || reply.None?)
  {
    if !Truthy(destination) || !destination.VStr? {
      return InvalidDestination;
    }
    if !Truthy(dates) {
      return InvalidDates;
    }
    var hasDuration := Contains(dates, "duration");
    if hasDuration.None? {
      return GenerationFailed;
    }
    if !hasDuration.value {
      return InvalidDates;
    }
    var normalBudget := NormalBudget(budget);
    if !dates.VDict? {
      return GenerationFailed;
    }
    var given := IntOf(Get(dates.entries, "duration", VInt(DefaultDuration)));
    if given.None? {
      return GenerationFailed;
    }
    var duration := given.value;
    if duration < 1 {
      duration := DefaultDuration;
    }
    var dailyBudget := DailyBudget(normalBudget, duration);
    var arrival := ArrivalSection(flightDetails, dailyBudget);
    var activityDays := BuildActivityDays(duration, dailyBudget);
    var departure: Option<Section> := None;
    if HasReturnFlight(flightDetails) {
      departure := DepartureSection(duration, flightDetails, dailyBudget);
      if departure.Some? {
        activityDays := activityDays + [departure.value];
      }
    }
    var flightInfo := FlightInfoOf(flightDetails);
    if flightInfo.None? || reply.None? {
      return GenerationFailed;
    }
    var framework := [arrival] + activityDays;
    assert Framework(framework, duration, dailyBudget, arrival, departure);
    var request := Request(destination.s, duration, normalBudget, dailyBudget, framework, flightInfo.value);
    return Generated(request, reply.value);
  }
}
