/**
 * The budget agent's deterministic parts: reading the total out of the
 * language model's free-text reply (the first run of decimal digits, with a
 * fixed fallback) and the optional flight-cost line of its prompt.
 */
module Budget {
  import opened Wrappers
  import opened Text

  /** What the budget is when the reply has no digit or the model call fails. */
  const FallbackBudget: nat := 50000

  /** The prompt line's fixed text before the grouped amount. */
  const FlightCostPrefix: string := "- Flight Cost: ₹"

  /** The position of the first decimal digit at or after `from`, if there is one. */
  function FirstDigitFrom(s: string, from: nat): (r: Option<nat>)
    requires from <= |s|
    ensures r.None? ==> forall k :: from <= k < |s| ==> !IsDigit(s[k])
    ensures r.Some? ==>
      from <= r.value < |s| && IsDigit(s[r.value]) &&
      (forall k :: from <= k < r.value ==> !IsDigit(s[k]))
    decreases |s| - from
  {
    if from == |s| then None
    else if IsDigit(s[from]) then Some(from)
    else FirstDigitFrom(s, from + 1)
  }

  /** The end of the run of digits that starts at `i`. */
  function RunEnd(s: string, i: nat): (j: nat)
    requires i <= |s|
    ensures i <= j <= |s|
    ensures forall k :: i <= k < j ==> IsDigit(s[k])
    ensures j == |s| || !IsDigit(s[j])
    decreases |s| - i
  {
    if i < |s| && IsDigit(s[i]) then RunEnd(s, i + 1) else i
  }

  /**
   * Where the regular expression `\d+` first matches in `s`: the leftmost
   * digit and the end of the longest run of digits starting there.
   */
  function DigitRun(s: string): (r: Option<(nat, nat)>)
    ensures r.None? <==> forall k :: 0 <= k < |s| ==> !IsDigit(s[k])
    ensures r.Some? ==>
      r.value.0 < r.value.1 <= |s| &&
      (forall k :: 0 <= k < r.value.0 ==> !IsDigit(s[k])) &&
      (forall k :: r.value.0 <= k < r.value.1 ==> IsDigit(s[k])) &&
      (r.value.1 == |s| || !IsDigit(s[r.value.1]))
  {
    match FirstDigitFrom(s, 0)
    case None => None
    case Some(i) => Some((i, RunEnd(s, i)))
  }

  /**
   * The budget read from the reply: the integer value of the first maximal
   * run of digits. A reply without any digit, or a failed call (`None`),
   * gives the fallback.
   */
  function ExtractBudget(reply: Option<string>): (budget: nat)
    ensures reply.None? ==> budget == FallbackBudget
  {
    match reply
    case None => FallbackBudget
    case Some(s) =>
      match DigitRun(s)
      case None => FallbackBudget
      case Some((i, j)) => DigitsValue(s[i..j])
  }

  /** A reply without any digit gives exactly the fallback. */
  lemma NoDigitFallback(s: string)
    requires forall k :: 0 <= k < |s| ==> !IsDigit(s[k])
    ensures ExtractBudget(Some(s)) == FallbackBudget
  {
  }

  /**
   * The budget is the value of the first maximal run of digits: whatever
   * comes before it has no digit, and the run is followed by a non-digit or
   * the end of the reply.
   */
  lemma FirstMaximalRun(s: string)
    requires exists k :: 0 <= k < |s| && IsDigit(s[k])
    ensures exists i, j ::
      0 <= i < j <= |s| &&
      (forall k :: 0 <= k < i ==> !IsDigit(s[k])) &&
      AllDigits(s[i..j]) &&
      (j == |s| || !IsDigit(s[j])) &&
      ExtractBudget(Some(s)) == DigitsValue(s[i..j])
  {
    var r := DigitRun(s);
    var i, j := r.value.0, r.value.1;
    assert AllDigits(s[i..j]);
  }

  /**
   * A number written in the reply is read back, whatever digit-free text
   * surrounds it; a minus sign before it is such text, so the result is
   * never negative.
   */
  lemma {:induction false} ReadsNumberInText(p: string, n: nat, q: string)
    requires forall k :: 0 <= k < |p| ==> !IsDigit(p[k])
    requires q == [] || !IsDigit(q[0])
    ensures ExtractBudget(Some(p + Decimal(n) + q)) == n
  {
    var ds := Decimal(n);
    var s := p + ds + q;
    var r := DigitRun(s);
    assert forall k :: 0 <= k < |p| ==> s[k] == p[k];
    assert forall k :: |p| <= k < |p| + |ds| ==> s[k] == ds[k - |p|];
    assert |p| + |ds| < |s| ==> s[|p| + |ds|] == q[0];
    assert IsDigit(s[|p|]);
    var i, j := r.value.0, r.value.1;
    assert i == |p|;
    assert j == |p| + |ds|;
    assert s[i..j] == ds;
    DecimalValue(n);
  }

  /** The reply "-1500" and the reply "about 45000 INR" behave as no sign and no words. */
  lemma MinusSignIgnored(n: nat)
    ensures ExtractBudget(Some("-" + Decimal(n))) == n
    ensures ExtractBudget(Some("about " + Decimal(n) + " INR")) == n
  {
    ReadsNumberInText("-", n, "");
    assert "-" + Decimal(n) + "" == "-" + Decimal(n);
    ReadsNumberInText("about ", n, " INR");
  }

  /**
   * The prompt's flight-cost line: empty for no cost or a zero cost,
   * otherwise the fixed prefix and the amount grouped with commas.
   */
  function FlightCostText(flightCost: Option<int>): (text: string)
    ensures text == [] <==> flightCost.None? || flightCost.value == 0
    ensures text != [] ==>
      |text| > |FlightCostPrefix| && text[..|FlightCostPrefix|] == FlightCostPrefix &&
      text[|FlightCostPrefix|..] == Thousands(flightCost.value)
  {
    if flightCost.Some? && flightCost.value != 0 then
      var amount := Thousands(flightCost.value);
      GroupedNonEmpty(if flightCost.value < 0 then -flightCost.value else flightCost.value);
      assert |amount| >= 1;
      FlightCostPrefix + amount
    else []
  }

  lemma GroupedNonEmpty(n: nat)
    ensures |Grouped(n)| >= 1
  {
    GroupedShape(n);
  }

  /** The amount on the flight-cost line reads back, commas removed, as the cost. */
  lemma FlightCostReadsBack(cost: nat)
    requires cost > 0
    ensures AllDigits(DropCommas(FlightCostText(Some(cost))[|FlightCostPrefix|..]))
    ensures DigitsValue(DropCommas(FlightCostText(Some(cost))[|FlightCostPrefix|..])) == cost
  {
    GroupedValue(cost);
  }
}
