/**
 * Python's `list.sort(key=...)` and `sorted(..., key=...)`: a stable sort.
 * The key comparison is given as `le(a, b)`, "the key of a is at most the key
 * of b"; the sort is insertion from the front, which places an element before
 * every element of equal key that came after it, so equal keys keep their
 * original order.  Also the order-keeping de-duplication and the `[:n]` slice
 * used by the flight search.
 */
module Sorting {

  /** `le` is total and transitive (and therefore reflexive): a total preorder on keys. */
  ghost predicate TotalPreorder<T(!new)>(le: (T, T) -> bool) {
    && (forall a, b :: le(a, b) || le(b, a))
    && (forall a, b, c :: le(a, b) && le(b, c) ==> le(a, c))
  }

  predicate Sorted<T>(s: seq<T>, le: (T, T) -> bool) {
    forall i, j :: 0 <= i < j < |s| ==> le(s[i], s[j])
  }

  /** `a` and `b` have equal keys. */
  predicate Equiv<T>(le: (T, T) -> bool, a: T, b: T) {
    le(a, b) && le(b, a)
  }

  /** The elements of `s` whose key equals that of `x`, in their order in `s`. */
  function Equivalents<T>(s: seq<T>, le: (T, T) -> bool, x: T): seq<T> {
    if s == [] then []
    else (if Equiv(le, s[0], x) then [s[0]] else []) + Equivalents(s[1..], le, x)
  }

  /** Puts `x` just before the first element whose key is not below that of `x`. */
  function Insert<T>(x: T, s: seq<T>, le: (T, T) -> bool): (r: seq<T>)
    ensures |r| == |s| + 1
    ensures multiset(r) == multiset(s) + multiset{x}
  {
    if s == [] || le(x, s[0]) then [x] + s
    else
      assert s == [s[0]] + s[1..];
      [s[0]] + Insert(x, s[1..], le)
  }

  /** Inserting adds `x` and nothing else. */
  lemma InsertMembers<T>(x: T, s: seq<T>, le: (T, T) -> bool, z: T)
    requires z in Insert(x, s, le)
    ensures z == x || z in s
  {
    assert z in multiset(Insert(x, s, le));
  }

  /** The stable sort of `s` by `le`. */
  function SortBy<T>(s: seq<T>, le: (T, T) -> bool): (r: seq<T>)
    ensures |r| == |s|
    ensures multiset(r) == multiset(s)
  {
    if s == [] then []
    else
      assert s == [s[0]] + s[1..];
      Insert(s[0], SortBy(s[1..], le), le)
  }

  lemma {:induction false} InsertSorted<T(!new)>(x: T, s: seq<T>, le: (T, T) -> bool)
    requires TotalPreorder(le) && Sorted(s, le)
    ensures Sorted(Insert(x, s, le), le)
  {
    if s != [] && !le(x, s[0]) {
      var t := s[1..];
      InsertSorted(x, t, le);
      var r := Insert(x, t, le);
      forall z | z in r ensures le(s[0], z) {
        InsertMembers(x, t, le, z);
        if z != x {
          var k :| 0 <= k < |t| && t[k] == z;
          assert s[k + 1] == z;
        }
      }
      var full := [s[0]] + r;
      forall i, j | 0 <= i < j < |full| ensures le(full[i], full[j]) {
        if i == 0 {
          assert full[j] == r[j - 1];
          assert r[j - 1] in r;
        } else {
          assert full[i] == r[i - 1] && full[j] == r[j - 1];
        }
      }
    }
  }

  /** The sort's result is in non-decreasing key order. */
  lemma {:induction false} SortBySorted<T(!new)>(s: seq<T>, le: (T, T) -> bool)
    requires TotalPreorder(le)
    ensures Sorted(SortBy(s, le), le)
  {
    if s != [] {
      SortBySorted(s[1..], le);
      InsertSorted(s[0], SortBy(s[1..], le), le);
    }
  }

  /**
   * What `sorted(s, key=...)[0]` picks: an element of least key, and the
   * first such in `s` (every earlier element has a strictly greater key).
   */
  lemma {:induction false} SortByHead<T(!new)>(s: seq<T>, le: (T, T) -> bool)
    requires TotalPreorder(le) && s != []
    ensures forall j :: 0 <= j < |s| ==> le(SortBy(s, le)[0], s[j])
    ensures exists i :: 0 <= i < |s| && s[i] == SortBy(s, le)[0] && forall j :: 0 <= j < i ==> !le(s[j], s[i])
  {
    var r := SortBy(s, le);
    SortBySorted(s, le);
    forall j | 0 <= j < |s| ensures le(r[0], s[j]) {
      assert s[j] in multiset(s);
      assert s[j] in multiset(r);
      var k :| 0 <= k < |r| && r[k] == s[j];
    }
    if |s| == 1 {
      assert SortBy(s[1..], le) == [];
      assert r == [s[0]];
    } else {
      var t := SortBy(s[1..], le);
      if le(s[0], t[0]) {
        assert r[0] == s[0];
      } else {
        assert r[0] == t[0];
        SortByHead(s[1..], le);
        var i' :| 0 <= i' < |s[1..]| && s[1..][i'] == t[0] && forall j :: 0 <= j < i' ==> !le(s[1..][j], s[1..][i']);
        assert s[i' + 1] == r[0];
        forall j | 0 <= j < i' + 1 ensures !le(s[j], s[i' + 1]) {
          if j > 0 {
            assert s[j] == s[1..][j - 1];
          }
        }
      }
    }
  }

  lemma EquivalentsCons<T>(x: T, s: seq<T>, le: (T, T) -> bool, z: T)
    ensures Equivalents([x] + s, le, z) == (if Equiv(le, x, z) then [x] else []) + Equivalents(s, le, z)
  {
    assert ([x] + s)[1..] == s;
  }

  lemma {:induction false} InsertStable<T(!new)>(x: T, s: seq<T>, le: (T, T) -> bool, z: T)
    requires TotalPreorder(le) && Sorted(s, le)
    ensures Equivalents(Insert(x, s, le), le, z) == Equivalents([x] + s, le, z)
  {
    if s != [] && !le(x, s[0]) {
      var t, y := s[1..], s[0];
      assert Sorted(t, le) by {
        forall i, j | 0 <= i < j < |t| ensures le(t[i], t[j]) {
          assert t[i] == s[i + 1] && t[j] == s[j + 1];
        }
      }
      InsertStable(x, t, le, z);
      var ex := if Equiv(le, x, z) then [x] else [];
      var ey := if Equiv(le, y, z) then [y] else [];
      // x and y cannot both have the key of z: that would give le(x, y)
      assert ex == [] || ey == [] by {
        assert Equiv(le, x, z) && Equiv(le, y, z) ==> le(x, z) && le(z, y) && le(x, y);
      }
      calc {
        Equivalents(Insert(x, s, le), le, z);
        Equivalents([y] + Insert(x, t, le), le, z);
        { EquivalentsCons(y, Insert(x, t, le), le, z); }
        ey + Equivalents(Insert(x, t, le), le, z);
        ey + Equivalents([x] + t, le, z);
        { EquivalentsCons(x, t, le, z); }
        ey + (ex + Equivalents(t, le, z));
        ex + (ey + Equivalents(t, le, z));
        { EquivalentsCons(y, t, le, z); assert s == [y] + t; }
        ex + Equivalents(s, le, z);
        { EquivalentsCons(x, s, le, z); }
        Equivalents([x] + s, le, z);
      }
    }
  }

  /** Stability: for every key, the elements with that key appear in the same order as in the input. */
  lemma {:induction false} SortByStable<T(!new)>(s: seq<T>, le: (T, T) -> bool, z: T)
    requires TotalPreorder(le)
    ensures Equivalents(SortBy(s, le), le, z) == Equivalents(s, le, z)
  {
    if s != [] {
      SortByStable(s[1..], le, z);
      SortBySorted(s[1..], le);
      InsertStable(s[0], SortBy(s[1..], le), le, z);
      EquivalentsCons(s[0], SortBy(s[1..], le), le, z);
      assert s == [s[0]] + s[1..];
      EquivalentsCons(s[0], s[1..], le, z);
    }
  }

  /** Python's `s[:n]`. */
  function Take<T>(s: seq<T>, n: nat): (r: seq<T>)
    ensures |r| == if |s| <= n then |s| else n
    ensures r <= s
  {
    if |s| <= n then s else s[..n]
  }

  /** The first `n` of a sorted sequence are the least: each is at most every element left out. */
  lemma TakeOfSortedIsLeast<T(!new)>(s: seq<T>, le: (T, T) -> bool, n: nat)
    requires TotalPreorder(le)
    ensures forall a :: a in Take(SortBy(s, le), n) ==> a in s
    ensures forall a, b :: a in Take(SortBy(s, le), n) && b in s && b !in Take(SortBy(s, le), n) ==> le(a, b)
  {
    var sorted := SortBy(s, le);
    var kept := Take(sorted, n);
    SortBySorted(s, le);
    assert forall m :: 0 <= m < |kept| ==> kept[m] == sorted[m];
    forall a | a in kept ensures a in s {
      assert a in multiset(s);
    }
    forall a, b | a in kept && b in s && b !in kept ensures le(a, b) {
      assert b in multiset(sorted);
      var i :| 0 <= i < |kept| && kept[i] == a;
      var k :| 0 <= k < |sorted| && sorted[k] == b;
      assert k >= |kept|;
    }
  }

  /** The elements of `s` with repeats removed, each kept at its first occurrence. */
  function Dedup<T(==)>(s: seq<T>): (r: seq<T>)
    ensures |r| <= |s|
  {
    if s == [] then []
    else
      var p := Dedup(s[..|s| - 1]);
      assert s == s[..|s| - 1] + [s[|s| - 1]];
      if s[|s| - 1] in p then p else p + [s[|s| - 1]]
  }

  /** De-duplication keeps every element and adds none. */
  lemma {:induction false} DedupMembers<T>(s: seq<T>)
    ensures forall x :: x in Dedup(s) <==> x in s
  {
    if s != [] {
      var init := s[..|s| - 1];
      DedupMembers(init);
      assert s == init + [s[|s| - 1]];
    }
  }

  /** No element occurs twice in a de-duplicated sequence. */
  lemma {:induction false} DedupDistinct<T>(s: seq<T>)
    ensures forall i, j :: 0 <= i < j < |Dedup(s)| ==> Dedup(s)[i] != Dedup(s)[j]
  {
    if s != [] {
      var init := s[..|s| - 1];
      DedupDistinct(init);
    }
  }

  /** One more element: it is kept exactly when it has not been seen. */
  lemma DedupStep<T>(s: seq<T>, i: nat)
    requires i < |s|
    ensures Dedup(s[..i + 1]) == if s[i] in Dedup(s[..i]) then Dedup(s[..i]) else Dedup(s[..i]) + [s[i]]
  {
    assert s[..i + 1][..i] == s[..i];
  }

  /** Processing a prefix of `s` de-duplicates to a prefix of the de-duplicated whole. */
  lemma {:induction false} DedupPrefix<T>(s: seq<T>, k: nat)
    requires k <= |s|
    ensures Dedup(s[..k]) <= Dedup(s)
    decreases |s|
  {
    if k < |s| {
      var init := s[..|s| - 1];
      assert init[..k] == s[..k];
      DedupPrefix(init, k);
    } else {
      assert s[..k] == s;
    }
  }

  /** A de-duplicated list whose first element is `x` when `s` starts with `x`. */
  lemma {:induction false} DedupHead<T>(s: seq<T>)
    requires s != []
    ensures Dedup(s) != [] && Dedup(s)[0] == s[0]
  {
    DedupPrefix(s, 1);
    assert s[..1] == [s[0]];
    assert [s[0]][..0] == [];
  }
}
