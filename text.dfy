/**
 * The few pieces of Python's `str` behaviour the modelled code relies on:
 * `strip()` and `strip(chars)`, `lower()` (ASCII letters only), the `in`
 * substring test, `replace`, `split('\n')`, decimal digits and the `,`
 * thousands separator of format specifications.
 */
module Text {

  /** The characters for which Python's `str.isspace()` is true. */
  const Whitespace: set<char> :=
    {'\t', '\n', '\U{0B}', '\U{0C}', '\r', '\U{1C}', '\U{1D}', '\U{1E}', '\U{1F}', ' ',
     '\U{85}', '\U{A0}', '\U{1680}', '\U{2000}', '\U{2001}', '\U{2002}', '\U{2003}',
     '\U{2004}', '\U{2005}', '\U{2006}', '\U{2007}', '\U{2008}', '\U{2009}', '\U{200A}',
     '\U{2028}', '\U{2029}', '\U{202F}', '\U{205F}', '\U{3000}'}

  /** Drops the leading characters that belong to `cs`. */
  function TrimStart(s: string, cs: set<char>): (r: string)
    ensures |r| <= |s| && r == s[|s| - |r|..]
    ensures forall k :: 0 <= k < |s| - |r| ==> s[k] in cs
    ensures r == [] || r[0] !in cs
  {
    if s != [] && s[0] in cs then TrimStart(s[1..], cs) else s
  }

  /** Drops the trailing characters that belong to `cs`. */
  function TrimEnd(s: string, cs: set<char>): (r: string)
    ensures |r| <= |s| && r == s[..|r|]
    ensures forall k :: |r| <= k < |s| ==> s[k] in cs
    ensures r == [] || r[|r| - 1] !in cs
  {
    if s != [] && s[|s| - 1] in cs then TrimEnd(s[..|s| - 1], cs) else s
  }

  /** Python's `s.strip(chars)`: the longest middle part of `s` that neither starts nor ends in `cs`. */
  function StripChars(s: string, cs: set<char>): (r: string)
    ensures r == [] || (r[0] !in cs && r[|r| - 1] !in cs)
    ensures exists i, j :: 0 <= i <= j <= |s| && r == s[i..j] && AllIn(s[..i], cs) && AllIn(s[j..], cs)
  {
    var t := TrimStart(s, cs);
    var r := TrimEnd(t, cs);
    assert r != [] ==> r[0] == t[0];
    var i, j := |s| - |t|, |s| - |t| + |r|;
    assert r == s[i..j];
    assert AllIn(s[..i], cs);
    assert s[j..] == t[|r|..];
    assert AllIn(s[j..], cs);
    r
  }

  /** Every character of `s` belongs to `cs`. */
  predicate AllIn(s: string, cs: set<char>) {
    forall k :: 0 <= k < |s| ==> s[k] in cs
  }

  /** Python's `s.strip()`. */
  function Strip(s: string): string {
    StripChars(s, Whitespace)
  }

  /** A string made only of characters in `cs` strips to nothing, and only such a string does. */
  lemma StripCharsEmptyIff(s: string, cs: set<char>)
    ensures StripChars(s, cs) == [] <==> forall k :: 0 <= k < |s| ==> s[k] in cs
  {
    var t := TrimStart(s, cs);
    if StripChars(s, cs) == [] {
      assert t == [];
    } else {
      var r := StripChars(s, cs);
      assert r[0] !in cs;
      assert r[0] == s[|s| - |t|];
    }
  }

  /** Python's `lower()` on one character, ASCII letters only. */
  function LowerChar(c: char): char {
    if 'A' <= c <= 'Z' then (c as int + 32) as char else c
  }

  /** Python's `s.lower()`, ASCII letters only. */
  function Lower(s: string): (r: string)
    ensures |r| == |s|
  {
    if s == [] then [] else [LowerChar(s[0])] + Lower(s[1..])
  }

  /** Python's `sub in s` for strings. */
  predicate IsSubstring(sub: string, s: string) {
    sub <= s || (s != [] && IsSubstring(sub, s[1..]))
  }

  /** A string contains itself (needed for the airport table's exact-match rule). */
  lemma SubstringOfSelf(s: string)
    ensures IsSubstring(s, s)
  {
  }

  /** Python's `s.replace(pat, rep)` for a non-empty `pat`: each non-overlapping occurrence, scanning left to right. */
  function Replace(s: string, pat: string, rep: string): string
    requires pat != []
  {
    if |s| < |pat| then s
    else if pat <= s then rep + Replace(s[|pat|..], pat, rep)
    else [s[0]] + Replace(s[1..], pat, rep)
  }

  /** Where `pat` does not occur, `Replace` changes nothing. */
  lemma {:induction false} ReplaceAbsent(s: string, pat: string, rep: string)
    requires pat != [] && !IsSubstring(pat, s)
    ensures Replace(s, pat, rep) == s
  {
    if |s| >= |pat| {
      assert !(pat <= s);
      ReplaceAbsent(s[1..], pat, rep);
      assert s == [s[0]] + s[1..];
    }
  }

  /** `Replace` distributes over a concatenation whose left part holds no partial occurrence of a one-char `pat`. */
  lemma {:induction false} ReplaceCharAppend(a: string, b: string, pat: char, rep: string)
    ensures Replace(a + b, [pat], rep) == Replace(a, [pat], rep) + Replace(b, [pat], rep)
  {
    if a != [] {
      assert (a + b)[1..] == a[1..] + b;
      ReplaceCharAppend(a[1..], b, pat, rep);
    } else {
      assert a + b == b;
    }
  }

  /** Python's `s.split(sep)` for a one-character separator. */
  function Split(s: string, sep: char): (parts: seq<string>)
    ensures |parts| >= 1
    ensures forall p :: p in parts ==> sep !in p
  {
    if sep !in s then [s]
    else
      var i := IndexOf(s, sep);
      [s[..i]] + Split(s[i + 1..], sep)
  }

  /** The position of the first `c` in `s`. */
  function IndexOf(s: string, c: char): (i: nat)
    requires c in s
    ensures i < |s| && s[i] == c && c !in s[..i]
  {
    if s[0] == c then 0 else IndexOf(s[1..], c) + 1
  }

  /** Python's `sep.join(parts)`. */
  function Join(parts: seq<string>, sep: char): string
    requires |parts| >= 1
  {
    if |parts| == 1 then parts[0] else parts[0] + [sep] + Join(parts[1..], sep)
  }

  /** Splitting and joining again gives back the original text. */
  lemma {:induction false} JoinSplit(s: string, sep: char)
    ensures Join(Split(s, sep), sep) == s
    decreases |s|
  {
    if sep in s {
      var i := IndexOf(s, sep);
      var parts, rest := Split(s, sep), Split(s[i + 1..], sep);
      assert parts[0] == s[..i] && parts[1..] == rest;
      assert Join(parts, sep) == s[..i] + [sep] + Join(rest, sep);
      JoinSplit(s[i + 1..], sep);
      assert s == s[..i] + [sep] + s[i + 1..];
    }
  }

  /** Joining parts that do not contain the separator and splitting again gives back the parts. */
  lemma {:induction false} SplitJoin(parts: seq<string>, sep: char)
    requires |parts| >= 1
    requires forall i :: 0 <= i < |parts| ==> sep !in parts[i]
    ensures Split(Join(parts, sep), sep) == parts
    decreases |parts|
  {
    if |parts| > 1 {
      var head, rest := parts[0], Join(parts[1..], sep);
      var s := head + [sep] + rest;
      assert s[|head|] == sep;
      var i := IndexOf(s, sep);
      assert s[..|head|] == head;
      assert s[..i] == head && s[i + 1..] == rest;
      SplitJoin(parts[1..], sep);
    }
  }

  predicate IsDigit(c: char) {
    '0' <= c <= '9'
  }

  predicate AllDigits(s: string) {
    forall k :: 0 <= k < |s| ==> IsDigit(s[k])
  }

  /** Python's `int(ds)` for a string of ASCII decimal digits. */
  function DigitsValue(ds: string): (n: nat)
    requires AllDigits(ds)
  {
    if ds == [] then 0
    else DigitsValue(ds[..|ds| - 1]) * 10 + (ds[|ds| - 1] as int - '0' as int)
  }

  /** The decimal digits of `n` without leading zeros (`str(n)` for `n >= 0`). */
  function Decimal(n: nat): (ds: string)
    ensures |ds| >= 1 && AllDigits(ds)
    ensures n >= 10 ==> ds[0] != '0'
  {
    if n < 10 then [('0' as int + n) as char]
    else Decimal(n / 10) + [('0' as int + n % 10) as char]
  }

  /** `Decimal` and `DigitsValue` are inverse: `int(str(n)) == n`. */
  lemma {:induction false} DecimalValue(n: nat)
    ensures DigitsValue(Decimal(n)) == n
  {
    var ds := Decimal(n);
    if n >= 10 {
      DecimalValue(n / 10);
      assert ds[..|ds| - 1] == Decimal(n / 10);
    }
  }

  /** The digits of `n >= 0` with a comma between every group of three, as `format(n, ',')`. */
  function Grouped(n: nat): (r: string)
  {
    if n < 1000 then Decimal(n)
    else Grouped(n / 1000) + [','] + ThreeDigits(n % 1000)
  }

  /** Exactly three digits, zero-padded. */
  function ThreeDigits(n: nat): string
    requires n < 1000
  {
    [('0' as int + n / 100) as char, ('0' as int + n / 10 % 10) as char, ('0' as int + n % 10) as char]
  }

  /** The three digits read back as the number. */
  lemma ThreeDigitsValue(n: nat)
    requires n < 1000
    ensures |ThreeDigits(n)| == 3 && AllDigits(ThreeDigits(n)) && DigitsValue(ThreeDigits(n)) == n
  {
    var ds := ThreeDigits(n);
    var a, b, c := n / 100, n / 10 % 10, n % 10;
    assert ds[..2][..1] == [ds[0]];
    assert DigitsValue([ds[0]]) == a by {
      assert [ds[0]][..0] == [];
    }
    assert DigitsValue(ds[..2]) == a * 10 + b;
    assert DigitsValue(ds) == (a * 10 + b) * 10 + c;
    ThreeDigitsArith(n);
  }

  lemma ThreeDigitsArith(n: nat)
    requires n < 1000
    ensures (n / 100 * 10 + n / 10 % 10) * 10 + n % 10 == n
  {
    var q := n / 10;
    assert n == q * 10 + n % 10;
    assert q == q / 10 * 10 + q % 10;
    assert q / 10 == n / 100;
  }

  /** Python's `format(n, ',')` for any integer: a minus sign for negatives, then the grouped digits. */
  function Thousands(n: int): string {
    if n < 0 then ['-'] + Grouped(-n) else Grouped(n)
  }

  /** The text with every comma removed. */
  function DropCommas(s: string): string {
    if s == [] then [] else (if s[0] == ',' then [] else [s[0]]) + DropCommas(s[1..])
  }

  lemma DropCommasAppend(a: string, b: string)
    ensures DropCommas(a + b) == DropCommas(a) + DropCommas(b)
  {
    if a != [] {
      assert (a + b)[1..] == a[1..] + b;
    } else {
      assert a + b == b;
    }
  }

  lemma {:induction false} DropCommasDigits(ds: string)
    requires AllDigits(ds)
    ensures DropCommas(ds) == ds
  {
    if ds != [] {
      DropCommasDigits(ds[1..]);
    }
  }

  lemma {:induction false} DigitsValueAppend(a: string, b: string)
    requires AllDigits(a) && AllDigits(b)
    ensures AllDigits(a + b)
    ensures DigitsValue(a + b) == DigitsValue(a) * Pow10(|b|) + DigitsValue(b)
    decreases |b|
  {
    if b != [] {
      var b' := b[..|b| - 1];
      var d := b[|b| - 1] as int - '0' as int;
      assert (a + b)[..|a + b| - 1] == a + b';
      assert b[..|b| - 1] == b';
      DigitsValueAppend(a, b');
      var va, vb, p := DigitsValue(a), DigitsValue(b'), Pow10(|b'|);
      assert DigitsValue(a + b) == DigitsValue(a + b') * 10 + d;
      assert DigitsValue(b) == vb * 10 + d;
      assert Pow10(|b|) == 10 * p;
      ShiftDigit(va, p, vb, d);
    } else {
      assert a + b == a;
    }
  }

  lemma ShiftDigit(va: int, p: int, vb: int, d: int)
    ensures (va * p + vb) * 10 + d == va * (10 * p) + (vb * 10 + d)
  {
  }

  function Pow10(k: nat): (p: nat)
    ensures p >= 1
  {
    if k == 0 then 1 else 10 * Pow10(k - 1)
  }

  /**
   * Reading back the grouped form: with the commas removed it is a plain
   * decimal string whose value is `n`.
   */
  lemma {:induction false} GroupedValue(n: nat)
    ensures AllDigits(DropCommas(Grouped(n)))
    ensures DigitsValue(DropCommas(Grouped(n))) == n
  {
    if n < 1000 {
      DropCommasDigits(Decimal(n));
      DecimalValue(n);
    } else {
      var hi := Grouped(n / 1000);
      var lo := ThreeDigits(n % 1000);
      ThreeDigitsValue(n % 1000);
      var dh := DropCommas(hi);
      GroupedValue(n / 1000);
      DropCommasGrouped(n);
      DigitsValueAppend(dh, lo);
      assert Pow10(3) == 1000 by {
        assert Pow10(1) == 10;
        assert Pow10(2) == 100;
      }
      assert DigitsValue(dh + lo) == n / 1000 * 1000 + n % 1000;
    }
  }

  /** A comma followed by digits loses the comma. */
  lemma CommaDigitsDropped(ds: string)
    requires AllDigits(ds)
    ensures DropCommas([','] + ds) == ds
  {
    DropCommasAppend([','], ds);
    assert DropCommas([',']) == [];
    DropCommasDigits(ds);
  }

  /** Removing the commas of a grouped number of four or more digits. */
  lemma DropCommasGrouped(n: nat)
    requires n >= 1000
    ensures DropCommas(Grouped(n)) == DropCommas(Grouped(n / 1000)) + ThreeDigits(n % 1000)
  {
    var hi, lo := Grouped(n / 1000), ThreeDigits(n % 1000);
    assert AllDigits(lo) by {
      ThreeDigitsValue(n % 1000);
    }
    CommaDigitsDropped(lo);
    assert Grouped(n) == hi + ([','] + lo);
    DropCommasAppend(hi, [','] + lo);
  }

  /** Every comma in the grouped form is followed by exactly three digits before the next comma or the end. */
  lemma {:induction false} GroupedShape(n: nat)
    ensures |Grouped(n)| >= 1 && IsDigit(Grouped(n)[0])
    ensures forall k :: 0 <= k < |Grouped(n)| && Grouped(n)[k] == ',' ==>
      k + 4 <= |Grouped(n)| && AllDigits(Grouped(n)[k + 1..k + 4]) &&
      (k + 4 == |Grouped(n)| || Grouped(n)[k + 4] == ',')
  {
    if n >= 1000 {
      GroupedShape(n / 1000);
      var hi := Grouped(n / 1000);
      var g := Grouped(n);
      var lo := ThreeDigits(n % 1000);
      ThreeDigitsValue(n % 1000);
      assert g == hi + [','] + lo;
      forall k | 0 <= k < |g| && g[k] == ','
        ensures k + 4 <= |g| && AllDigits(g[k + 1..k + 4]) && (k + 4 == |g| || g[k + 4] == ',')
      {
        if k < |hi| {
          assert g[k] == hi[k];
          assert g[k + 1..k + 4] == hi[k + 1..k + 4] || k + 4 > |hi|;
          if k + 4 <= |hi| {
            assert g[k + 1..k + 4] == hi[k + 1..k + 4];
            if k + 4 < |hi| { assert g[k + 4] == hi[k + 4]; }
          }
        } else {
          assert k == |hi|;
          assert g[k + 1..k + 4] == lo;
        }
      }
    }
  }
}
