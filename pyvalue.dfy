/**
 * The dynamically typed values the itinerary builder and the wizard hand
 * around (dictionaries of strings, numbers and nested dictionaries), with
 * the parts of Python's semantics the modelled code depends on: truthiness,
 * `int(x)`, the `in` operator and `dict.get`.
 */
module PyValue {
  import opened Wrappers
  import opened Text

  /** A Python value. Dictionary keys are strings, the only keys the modelled code uses. */
  datatype Value =
    | VNone
    | VBool(b: bool)
    | VInt(i: int)
    | VFloat(f: real)
    | VStr(s: string)
    | VList(items: seq<Value>)
    | VDict(entries: map<string, Value>)

  /** `bool(v)`: `None`, `False`, zero and empty containers are false. */
  predicate Truthy(v: Value) {
    match v
    case VNone => false
    case VBool(b) => b
    case VInt(i) => i != 0
    case VFloat(f) => f != 0.0
    case VStr(s) => s != []
    case VList(items) => items != []
    case VDict(entries) => entries != map[]
  }

  /** A non-empty `dict`: what `d and isinstance(d, dict)` accepts. */
  predicate IsNonEmptyDict(v: Value) {
    v.VDict? && v.entries != map[]
  }

  /** `d.get(key, default)`. */
  function Get<K>(d: map<K, Value>, key: K, default: Value): (r: Value)
    ensures key in d ==> r == d[key]
    ensures key !in d ==> r == default
  {
    if key in d then d[key] else default
  }

  /**
   * `key in v` for a string `key`: a substring test on a string, an element
   * test on a list, a key test on a dictionary; `None` stands for the
   * `TypeError` every other type raises.
   */
  function Contains(v: Value, key: string): (r: Option<bool>)
    ensures r.Some? <==> v.VStr? || v.VList? || v.VDict?
    ensures v.VDict? ==> r == Some(key in v.entries)
  {
    match v
    case VStr(s) => Some(IsSubstring(key, s))
    case VList(items) => Some(VStr(key) in items)
    case VDict(entries) => Some(key in entries)
    case _ => None
  }

  /** `int(f)` for a finite float: the integer part, rounding toward zero. */
  function TruncateReal(f: real): (r: int)
    ensures f >= 0.0 ==> 0.0 <= r as real <= f < r as real + 1.0
    ensures f < 0.0 ==> r as real - 1.0 < f <= r as real <= 0.0
  {
    if f >= 0.0 then f.Floor else -((-f).Floor)
  }

  /** The digits after an optional sign, with the sign applied. */
  function SignedDigits(t: string): (r: Option<int>)
  {
    if t != [] && (t[0] == '+' || t[0] == '-') then
      var ds := t[1..];
      if ds != [] && AllDigits(ds) then Some(if t[0] == '-' then -(DigitsValue(ds) as int) else DigitsValue(ds))
      else None
    else if t != [] && AllDigits(t) then Some(DigitsValue(t))
    else None
  }

  /**
   * `int(s)` for a string: surrounding whitespace is ignored, then an
   * optional sign and at least one decimal digit; anything else is a
   * `ValueError` (`None`).
   */
  function ParseInt(s: string): Option<int> {
    SignedDigits(Strip(s))
  }

  /**
   * `int(v)`: booleans count as 0 and 1, floats are truncated toward zero,
   * strings are parsed; `None` stands for the `ValueError` or `TypeError`
   * raised for anything else.
   */
  function IntOf(v: Value): (r: Option<int>)
    ensures v.VInt? ==> r == Some(v.i)
    ensures v.VNone? || v.VList? || v.VDict? ==> r.None?
  {
    match v
    case VNone => None
    case VBool(b) => Some(if b then 1 else 0)
    case VInt(i) => Some(i)
    case VFloat(f) => Some(TruncateReal(f))
    case VStr(s) => ParseInt(s)
    case _ => None
  }

  /** `int(str(n)) == n`. */
  lemma IntOfDecimal(n: nat)
    ensures IntOf(VStr(Decimal(n))) == Some(n)
  {
    DecimalValue(n);
    IntOfDigits(Decimal(n));
  }

  /** A non-empty run of digits reads back as its value. */
  lemma IntOfDigits(ds: string)
    requires ds != [] && AllDigits(ds)
    ensures IntOf(VStr(ds)) == Some(DigitsValue(ds))
  {
    assert IsDigit(ds[0]) && IsDigit(ds[|ds| - 1]);
    StripUnpadded(ds);
  }

  /** A string that neither starts nor ends in whitespace is its own `strip()`. */
  lemma StripUnpadded(t: string)
    requires t != [] && t[0] !in Whitespace && t[|t| - 1] !in Whitespace
    ensures Strip(t) == t
  {
    assert TrimStart(t, Whitespace) == t;
    assert TrimEnd(t, Whitespace) == t;
  }
}
