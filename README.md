# Travel Buddy trip planner, modelled in Dafny

Travel Buddy is a six-step web wizard. It plans a trip within India:
1. the traveller's preferences;
2. a destination proposed by a language model;
3. a flight found through the Amadeus offer search;
4. a budget estimated by a language model;
5. a day-by-day itinerary;
6. the weather.

This project models the parts of it that make decisions, and proves what those parts promise. Each external service becomes an input to the model: the airport directory, the geocoder, the offer search and the language models.

- `wrappers.dfy` (`Wrappers`): the `Option` type.
- `text.dfy` (`Text`): the Python string operations the code relies on:
  - `strip()` and `strip(chars)`, ASCII `lower()`, the `in` substring test, `replace`, and `split('\n')` with its inverse `join`;
  - decimal digits, `str(n)`, and the `{n:,}` thousands grouping.
- `sorting.dfy` (`Sorting`): a stable sort with a key, as `list.sort` and `sorted` do. It also has order-preserving de-duplication and slicing to a prefix.
- `dates.dfy` (`Dates`): `datetime.date`, with:
  - `strptime(s, '%Y-%m-%d')` as CPython's directive patterns accept it;
  - `strftime('%Y-%m-%d')`;
  - date comparison, and the ordinal behind `(b - a).days`.
- `pyvalue.dfy` (`PyValue`): the dynamically typed values the itinerary agent and the wizard pass around. It covers truthiness, `int(x)`, `key in x` and `dict.get`.
- `flight_planner.dfy` (`FlightPlanner`): the flight search.
  - Airport resolution and alternate airports.
  - Input validation.
  - The fallback loop over the candidate destinations, with its two early exits.
  - The ranking of the offers.
  - How a leg's duration and stops are shown.
- `itinerary.dfy` (`Itinerary`): the itinerary agent up to its model call.
  - Validation, then the budget and duration defaults and the daily budget.
  - The framework of day sections: arrival, the activity days, and an optional departure.
  - The flight-information part of the prompt.
- `budget.dfy` (`Budget`): the budget agent's parsing of the model's reply and its flight-cost prompt line.
- `wizard.dfy` (`Wizard`): the wizard.
  - A `Session` class holds the session state. It has one method per step's page run; the pressed button, the widget values and the agents' replies are its parameters.
  - Also here: the trip length, the parser for the destination reply, and the data each step hands to the next.

The model follows the code on these points:

- **Dates.** `strptime` accepts one-digit months and days (`2025-1-5`), so "YYYY-MM-DD" is not a strict four-two-two digit format.
- **Blank city names.** The "No airport found" rejection of the flight search is reachable. A city name of only whitespace passes the all-fields check. It strips to the empty string, and `get_nearest_airport` returns `None` for that. `NoAirportOnlyForBlankNames` shows that, with services that return non-empty airport codes, this is the only way to get that rejection.
- **Early exits.** The exit "the primary query returned three or more offers" never fires without the exit "three primary offers found". All of that query's offers are tagged primary (`ExitAImpliesExitB`).
- **Arrival section.** The itinerary's flight-arrival day needs more than a non-empty dictionary of flight details: its `arrival` entry must also be a dictionary. Otherwise the template raises, and the generic welcome day is used.
- **Step 3 re-search.** Step 3 searches again on every page run while the stored result is `None`. The flight agent returns that value while no offer has been picked.
- **Budget failures.** When the selected flight's price is truthy but not a number, formatting the cost line raises before the budget agent's `try`. Step 4 then reports the failure and stores no budget.
- **Step 5's flight fields.** The selection stored by step 3 has no `arrival`, `departure` or `return_flight` field. So step 5 always sends empty airport and time fields, the destination as the arrival city, and no return flight. The itinerary therefore opens with the flight-arrival day and has no departure day (`WizardFlightDetails`). This holds for the selection step 3 stores, which replaces the agent's own one when the agent's next run returns its stored selection. The agent also writes a nested `selected_flight` of its own (agents/flight_planner.py:394). If its next run returns `True` or `False` instead, step 3 keeps that nested selection, and step 5 then sends its `arrival`, `departure` and `return_flight` fields; that write is not modelled (see "Left out").

## Model

| member | source | states |
|---|---|---|
| Dates.ParseDate | agents/flight_planner.py:17-22 | a text `strptime('%Y-%m-%d')` accepts gives a date that exists in the calendar (years 1 to 9999); `None` is the `ValueError` |
| Dates.FormatParse | app.py:239-240 | a date written with `%Y-%m-%d` parses back to the same date |
| Dates.OrdinalOrder | app.py:180-181 | the day number orders dates exactly as date comparison does, and two dates have the same day number exactly when they are equal |
| Text.StripChars | app.py:290 | the stripped text is a middle part of the input that neither starts nor ends with one of the stripped characters, and everything cut off before and after it is a stripped character |
| Text.StripCharsEmptyIff | app.py:290 | stripping leaves nothing exactly when every character of the line is one of the stripped characters |
| Text.Split | app.py:290 | `split('\n')` gives at least one piece, and no piece contains the separator |
| Text.SplitJoin | app.py:290 | splitting pieces joined with the separator gives back exactly the pieces, if none contains the separator |
| Text.JoinSplit | app.py:290 | joining the pieces of a split gives back the original text |
| Text.Decimal | agents/budget_agent.py:47 | `str(n)` is a non-empty run of digits without a leading zero |
| Text.DecimalValue | agents/budget_agent.py:47 | the digits of `str(n)` read back as `n` |
| Text.GroupedValue | agents/budget_agent.py:31 | `{n:,}` with its commas removed is a run of digits worth `n` |
| Text.GroupedShape | agents/budget_agent.py:31 | `{n:,}` starts with a digit, and each comma is followed by exactly three digits and then a comma or the end |
| Sorting.SortBy | agents/flight_planner.py:255-258 | the sorted list is a permutation of the input |
| Sorting.SortBySorted | agents/flight_planner.py:255-258 | under a total preorder, the sorted list is in order |
| Sorting.SortByStable | agents/flight_planner.py:255-258 | elements of equal key keep their relative order (the sort is stable) |
| Sorting.SortByHead | agents/flight_planner.py:80-84 | the first element of the sorted list is least, and is the first least element in input order |
| Sorting.TakeOfSortedIsLeast | agents/flight_planner.py:135-138 | the first n after sorting are input elements, and every element not kept is at least as great as every kept one |
| Sorting.DedupMembers | agents/flight_planner.py:198-202 | de-duplication keeps exactly the elements of the input |
| Sorting.DedupDistinct | agents/flight_planner.py:198-202 | the de-duplicated list has no element twice |
| Sorting.DedupPrefix | agents/flight_planner.py:198-202 | de-duplicating a prefix of the input gives a prefix of the de-duplicated whole |
| Sorting.DedupHead | agents/flight_planner.py:198 | de-duplication keeps the first element first |
| PyValue.Contains | agents/itenary_agent.py:31 | `key in x` is defined exactly for strings, lists and dictionaries (others raise), and on a dictionary it is the key test |
| PyValue.TruncateReal | agents/itenary_agent.py:35 | `int(f)` rounds toward zero: within one of `f`, never farther from zero |
| PyValue.IntOf | agents/itenary_agent.py:35-39 | `int(i)` is `i` for an integer, and `int()` of `None`, a list or a dictionary raises |
| PyValue.IntOfDecimal | agents/itenary_agent.py:35 | `int(str(n)) == n` |
| Budget.DigitRun | agents/budget_agent.py:47 | `re.search(r'\d+')` fails exactly when there is no digit; otherwise it matches the first digit and the longest run of digits from there |
| Budget.ExtractBudget | agents/budget_agent.py:36-52 | a failed model call gives the fallback 50000 |
| Budget.NoDigitFallback | agents/budget_agent.py:47-52 | a reply without a digit gives exactly 50000 |
| Budget.FirstMaximalRun | agents/budget_agent.py:47 | the budget is the value of a digit run with no digit before it and a non-digit or the end after it |
| Budget.ReadsNumberInText | agents/budget_agent.py:47 | a number written among digit-free text is read back exactly |
| Budget.MinusSignIgnored | agents/budget_agent.py:47 | "-1500" reads as 1500 and "about 45000 INR" as 45000: the result is never negative |
| Budget.FlightCostText | agents/budget_agent.py:31 | the cost line is empty exactly for no cost or a zero cost; otherwise it is the fixed prefix and the comma-grouped amount |
| Budget.FlightCostReadsBack | agents/budget_agent.py:31 | the amount on the cost line, commas removed, reads back as the cost |
| FlightPlanner.WithIataMembers | agents/flight_planner.py:59 | the filter keeps exactly the records that carry an IATA code |
| FlightPlanner.NearestAirport | agents/flight_planner.py:43-48 | no airport (`None`) exactly for an empty name |
| FlightPlanner.ResolveDirectFirst | agents/flight_planner.py:50-61 | when the keyword lookup has a record with an IATA code, the result is the code of its first such record |
| FlightPlanner.ResolveRadiusNearest | agents/flight_planner.py:65-84 | otherwise, when the radius lookup has IATA records, the result is the code of one of least distance, the first such in answer order |
| FlightPlanner.ExactEntry | agents/flight_planner.py:95-97 | an exact table key is found exactly when one exists, and it gives that key's code |
| FlightPlanner.FirstContained | agents/flight_planner.py:99-102 | the code of the first table key, in table order, that occurs in the name; none when no key occurs |
| FlightPlanner.TableCodeIn | agents/flight_planner.py:88-105 | exact key first, else the first key contained in the name, else the default; never empty when the table and the default are not |
| FlightPlanner.ResolveFallsBackToTable | agents/flight_planner.py:88-105 | the table is consulted only when neither service step found a code |
| FlightPlanner.ResolveNeverEmpty | agents/flight_planner.py:43-105 | when the services give only non-empty codes, resolution always gives a non-empty code |
| FlightPlanner.EligibleMembers | agents/flight_planner.py:129-132 | the filter keeps exactly the records with an IATA code that is not excluded |
| FlightPlanner.NearestEligible | agents/flight_planner.py:129-138 | at most five records, none excluded or without a code, in non-decreasing distance |
| FlightPlanner.AlternativesAreNearest | agents/flight_planner.py:129-138 | the kept records are eligible ones, and an eligible record left out is no nearer than any kept one |
| FlightPlanner.AlternativeRecords | agents/flight_planner.py:107-145 | at most five records, each with an IATA code that is not excluded |
| FlightPlanner.AlternativeAirports | agents/flight_planner.py:107-145 | at most five codes and none excluded; none at all when geocoding fails or the radius lookup raises |
| FlightPlanner.Validate | agents/flight_planner.py:152-172 | "fill all fields" exactly when a field is empty; validation never reports a missing airport |
| FlightPlanner.ValidateAccepts | agents/flight_planner.py:152-172 | the checks pass exactly for all fields given, two valid dates, departure before return and not before today, and 1 to 9 adults |
| FlightPlanner.AcceptedDatesSpanANight | agents/flight_planner.py:157-165 | an accepted request returns at least one day after it departs, and does not depart before today |
| FlightPlanner.PlanSearch | agents/flight_planner.py:174-198 | a search goes to one to four candidates, the destination's own airport first and never repeated among the alternatives |
| FlightPlanner.Candidates | agents/flight_planner.py:198 | `[dest_code] + alternatives[:3]` has one to four entries, with `dest_code` only in first place |
| FlightPlanner.NoAirportOnlyForBlankNames | agents/flight_planner.py:174-185 | after validation, "no airport found" happens exactly when a city name is only whitespace (origin checked first) |
| FlightPlanner.Tag | agents/flight_planner.py:216-224 | each offer is tagged with the origin, its destination, and primary exactly when that destination is the primary one |
| FlightPlanner.QueryRoute | agents/flight_planner.py:205-230 | one query adds its tagged offers (nothing when it raises or finds nothing) and reports whether it was a primary answer of three or more |
| FlightPlanner.TryCandidate | agents/flight_planner.py:198-235 | one pass skips a pair already tried, otherwise records and queries it; it stops exactly when an exit fires |
| FlightPlanner.SearchRoutes | agents/flight_planner.py:193-235 | the loop queries the distinct candidates in order, and stops before the end only right after an exit fires; the tried set and the offers match the queries made |
| FlightPlanner.PrimaryCountPerQuery | agents/flight_planner.py:233 | the count of primary offers over everything gathered equals the offers of the primary queries |
| FlightPlanner.ExitAImpliesExitB | agents/flight_planner.py:226-235 | a primary answer of three or more offers always brings the primary count to three |
| FlightPlanner.GatheredTags | agents/flight_planner.py:216-224 | every gathered offer carries the origin, a queried destination, and `is_primary` exactly for the primary destination |
| FlightPlanner.GatheredNothing | agents/flight_planner.py:216-230 | queries that all fail or find nothing gather nothing |
| FlightPlanner.TriedMembers | agents/flight_planner.py:195-202 | `airports_tried` holds exactly the pairs from the origin to a queried destination |
| FlightPlanner.NoOffersNoStop | agents/flight_planner.py:226-235 | queries that find nothing never trigger an exit |
| FlightPlanner.FirstQueryStops | agents/flight_planner.py:226-228 | a primary answer of three or more offers ends the search after that first query |
| FlightPlanner.SearchShape | agents/flight_planner.py:193-235 | at most four queries, the primary first, no destination twice, only candidates; every distinct candidate is tried when none finds anything, and also whenever the primary answer has fewer than three offers |
| FlightPlanner.PrimaryOnlyFirst | agents/flight_planner.py:224-235 | when only the first query names the primary destination, neither exit fires unless the primary answer itself has three offers |
| FlightPlanner.RankLeIsPreorder | agents/flight_planner.py:255-258 | the `(not is_primary, price)` key comparison is a total preorder |
| FlightPlanner.Ranking | agents/flight_planner.py:254-258 | the ranking is a permutation; primary offers come before alternate ones, cheaper first within a group, and equal keys keep their order |
| FlightPlanner.FlightPlannerAgent | agents/flight_planner.py:147-266 | a rejected request searches nothing. An accepted one queries a prefix of the distinct candidates, one to four of them, the primary first: only the primary after a primary answer of three, and all of them otherwise. No offers at all means every candidate was tried and "nothing found" with the tried set. Otherwise it returns the tagged offers it gathered, stably sorted by (not primary, price): the same offers, primary ones first, cheaper first within each group, and offers of equal rank in the order they were gathered |
| FlightPlanner.DurationHoursMinutes | agents/flight_planner.py:291 | `PT{h}H{m}M` is shown as `{h}h {m}m` |
| FlightPlanner.DurationHoursOnly | agents/flight_planner.py:291 | `PT{h}H` is shown as `{h}h`, the trailing space stripped |
| FlightPlanner.ShowLeg | agents/flight_planner.py:284-292 | the stop count is the number of segments less one (so no stops exactly for a single segment), the duration is the itinerary's duration text, and the leg runs between the airports given |
| FlightPlanner.ShowOffer | agents/flight_planner.py:275-343 | the outbound leg runs from the origin to the destination airport; the return leg, present exactly for a second itinerary, runs the other way |
| Itinerary.NormalBudget | agents/itenary_agent.py:34-37 | at least 20000; 50000 when `int(budget)` raises; otherwise the larger of the given budget and 20000 |
| Itinerary.NormalDuration | agents/itenary_agent.py:39-41 | at least one day: a duration of one or more is kept, anything else becomes 2 |
| Itinerary.DailyBudget | agents/itenary_agent.py:43 | the daily budget is the largest whole amount that, over all days, stays within the budget |
| Itinerary.ArrivalSection | agents/itenary_agent.py:120-167 | day 1 with the daily budget; the flight-arrival variant exactly for a non-empty dictionary whose `arrival` is a dictionary, otherwise the welcome variant |
| Itinerary.BuildActivityDays | agents/itenary_agent.py:169-193 | one exploring section per day 2 to `duration`, in order, each with the daily budget; none for one day or less |
| Itinerary.DepartureSection | agents/itenary_agent.py:195-222 | for a non-empty dictionary of flight details, present exactly when the return flight is a truthy dictionary whose `departure` entry is a dictionary; labelled with the last day and half the daily budget rounded down |
| Itinerary.FlightInfoOf | agents/itenary_agent.py:55-74 | no flight information exactly without a non-empty dictionary; with dictionary legs, the outbound flight alone when there is no truthy return flight, and the return flight too when it is a truthy dictionary with dictionary legs; the return flight appears only when it is truthy |
| Itinerary.FrameworkDays | agents/itenary_agent.py:45-53 | the sections' days run from 1 to the duration and increase up to the departure day; a departure day is added exactly when there is one |
| Itinerary.GenerateItinerary | agents/itenary_agent.py:26-118 | "invalid destination" exactly for an empty or non-string destination; "invalid dates" exactly for falsy dates or dates without `duration`. A generated itinerary uses the normalised budget and duration, the daily budget, the framework and the flight information; it fails only when a conversion or a template raises or the model call fails |
| Wizard.TripDaysCount | app.py:180-181 | a trip lasts at least one day exactly when it does not end before it starts, and one day exactly for a same-day trip |
| Wizard.FilterMapFollows | app.py:290 | the k-th result of the list comprehension comes from the k-th line it keeps |
| Wizard.FilterMapAll | app.py:290 | a comprehension that keeps every element maps them all, in order |
| Wizard.ParseDestinationsFollowLines | app.py:290 | the k-th destination is the cleaned k-th non-blank line: blank lines dropped, order kept |
| Wizard.CleanNameKept | app.py:290 | a name without bullets or whitespace at its ends survives both strips unchanged |
| Wizard.BulletStripped | app.py:290 | a `- ` bullet in front of such a name is stripped off |
| Wizard.ParseDestinationsRoundTrip | app.py:288-292 | a reply of clean names, one per line, parses to exactly those names |
| Wizard.ParseBulletedList | app.py:288-292 | a reply of clean names as `- ` bullets, one per line, parses to exactly those names |
| Wizard.LaterStepChecksPass | app.py:336-347 | in any session that reached step 3 or later, the required trip fields are present and the stored dates read back, so the checks that stop the page never fire |
| Wizard.StoredDatesRead | app.py:239-260 | dates stored as `%Y-%m-%d` text read back as the picked dates |
| Wizard.StepOneStored | app.py:257-268 | step 1's check on the stored data passes exactly when the end is not before the start and preferences and interests are filled in |
| Wizard.FlightSelection | app.py:383-396 | a selection is built exactly when the result's `departure` and `arrival` are dictionaries, and it carries the result's price |
| Wizard.SelectionCities | app.py:390-391 | each city of the selection is the leg's own truthy city or else the trip's city, and it is never blank for a trip with named cities |
| Wizard.ItineraryDates | app.py:553-558 | the `dates` step 5 sends has a `duration` entry holding the trip length |
| Wizard.WizardFlightDetails | app.py:532-548 | the flight details step 5 sends are a non-empty dictionary without a return flight, giving outbound flight information and the flight-arrival first day |
| Wizard.FirstIndex | app.py:318 | `list.index` gives the first position of the element |
| Wizard.ReadDates | app.py:502-505 | in a session past step 1, step 5 reads back exactly the picked dates |
| Wizard.WizardGenerate | app.py:492-562 | step 5's itinerary is rejected only for an empty destination and fails only when the model call fails. A generated one has the trip length as its duration and one section per day, opening with the flight arrival, with the stored (or default) budget raised to the minimum |
| Wizard.Session.constructor | app.py:128-136 | a new session starts at step 1, with no trip data and no destinations |
| Wizard.Session.TripPreferences | app.py:187-268 | the widgets' values are stored, dates as text; only "Next" with end not before start and both texts filled in moves to step 2 |
| Wizard.Session.LoadDestinations | app.py:274-301 | the list is fetched again when the preferences changed or it is empty; a string reply is parsed and remembered, an empty result goes back to step 1, and a failed call leaves the list empty |
| Wizard.Session.PickDestination | app.py:303-329 | the chosen destination and the position `list.index` finds are stored; "Back" goes to step 1 and "Next" to step 3 |
| Wizard.Session.FlightOptions | app.py:331-423 | the search runs while no result but `None` is stored (a raised search stores `False`). A dictionary result becomes the selection; the page stops when it cannot be read or its price formatted. "Continue" moves to step 4 only with a selection |
| Wizard.Session.BudgetPlanning | app.py:424-490 | "Calculate" stores the extracted budget and the summary unless the flight price cannot be formatted; "Back" goes to step 3 and "Next" to step 5 |
| Wizard.Session.ItineraryStep | app.py:492-585 | the itinerary is generated once per session and keeps what `WizardItinerary` states; "Back" and "Next" move one step |
| Wizard.Session.WeatherStep | app.py:649-661 | "Start New Trip" puts the session back in its initial state; "Back" goes to step 5 |

## Left out

- The Amadeus client, the Nominatim geocoder and the language models are services outside the program. The model takes their answers as inputs: the `Services` functions, and the `reply` parameters of the wizard and agent methods. A raised error is `LookupFailed`, `SearchFailed` or `None`.
- Today's date (`datetime.now()`) is the `today` parameter of the flight search. The date pickers' bounds (today to a year ahead) are not modelled. The model takes any valid date from year 1000 on, which is what `strftime('%Y-%m-%d')` writes as four digits.
- The flight agent's offer display and selection buttons (agents/flight_planner.py:268-401) depend on clicks across page runs. The model takes what the agent returns as step 3's `reply`. The agent writes `selected_flight` and `travel_data['flight_cost']` itself; neither write is modelled. Step 3 replaces that selection whenever the agent returns a dictionary, and no step reads `flight_cost`.
- Floats:
  - Prices and distances are taken as already-numeric values, so `float(...)` and the `int(float(price))` display price are left out.
  - `int(budget / duration)` and `int(daily_budget * 0.5)` are modelled as exact integer division, leaving out float rounding for very large budgets.
  - Floats are finite, so `int()` of an infinity or NaN is not modelled.
- The departure and arrival times (`strptime`/`strftime` of the segment timestamps) are only shown on screen and are not modelled.
- The exact markdown and emoji text of the prompts, of the itinerary sections and of the final itinerary (`format_final_itinerary`) is not modelled. The model keeps each section's day, variant and budget, and the model's reply as the content.
- Not modelled because they are only shown, or only sent in a prompt:
  - the `interests` text;
  - the `date_range` entry of step 5's dates;
  - `destination_details`;
  - the budget summary's markdown.
- Step 6's weather forecast (`weather_forecast` and the `weather_result` text) is outside the modelled core. So are the download button of step 5, the sidebar, the styles, and the `st.*` messages and spinners.
- `st.stop()` at steps 3, 5 and 6 is not a transition of the model. `LaterStepChecksPass` shows those checks always pass in a session that reached the step.
- The session's picked dates are the ghost fields `tripStart` and `tripEnd`. The trip data holds them only as text.
- `lower()` is ASCII only: other cased letters are left as they are. (`isspace()` follows Python's full set of whitespace characters.) `int()` of a string takes ASCII digits only: no Unicode digits and no `_` separators. `get_nearest_airport`'s check for a non-string name is not modelled, since names are always strings.
- Budget.DigitRun: recognises the ASCII digits `0`-`9` only. Python's `\d` in `re.search(r'\d+', ...)` matches every Unicode decimal digit, and `int()` converts such a run. So a reply that states its total in, say, Devanagari digits gives that amount in the program but the 50000 fallback in the model.
- Dates.ParseDate: the same restriction applies to the `\d` of `strptime`'s `%Y` and the second digit of `%d`, which also match non-ASCII decimal digits. The model rejects such a date text; the program accepts it.
- FlightPlanner.ShowLeg, FlightPlanner.ShowOffer: require an offer with at least one itinerary and legs with at least one segment. In the program an offer without them raises `IndexError` while its card is drawn, and the agent's outer handler returns `False`; the model does not follow that path.
- Budget.ExtractBudget: Python (3.11 on) refuses `int()` of a digit run longer than 4300 digits with `ValueError`, which gives the 50000 fallback. The model reads a run of any length as its value.
- FlightPlanner.DurationHoursMinutes: proved only for durations of the forms `PT{h}H{m}M` and `PT{h}H`. Other ISO 8601 forms go through the same `DurationText` function without a lemma.
- Wizard.ParseDestinationsFollowLines: a line made only of bullet characters (`---`) is non-blank and so yields an empty destination name. This is the code's own behaviour, and the model keeps it.
- Wizard.Session.PickDestination: the radio widget's initial index is not modelled. The chosen position is a parameter and must lie within the list.
