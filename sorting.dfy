/**
 * Comparator-driven sorting, standing in for `Array.prototype.sort` with a
 * comparator. The comparators used by the pages are strict total orders on
 * distinct keys, so every correct sort produces the same sequence; insertion
 * sort is used here.
 */
module Sorting {

  /** `before` is a strict total order on all values of T. */
  ghost predicate StrictTotalOrder<T(!new)>(before: (T, T) -> bool) {
    && (forall a :: !before(a, a))
    && (forall a, b :: a != b ==> before(a, b) || before(b, a))
    && (forall a, b, c :: before(a, b) && before(b, c) ==> before(a, c))
  }

  /** Every earlier element comes `before` every later one (so the elements are distinct). */
  ghost predicate SortedBy<T>(s: seq<T>, before: (T, T) -> bool) {
    forall i, j :: 0 <= i < j < |s| ==> before(s[i], s[j])
  }

  ghost predicate Distinct<T>(s: seq<T>) {
    forall i, j :: 0 <= i < j < |s| ==> s[i] != s[j]
  }

  function Insert<T>(x: T, s: seq<T>, before: (T, T) -> bool): (r: seq<T>)
    ensures multiset(r) == multiset(s) + multiset{x}
  {
    if |s| == 0 then [x]
    else if before(x, s[0]) then [x] + s
    else
      assert s == [s[0]] + s[1..];
      [s[0]] + Insert(x, s[1..], before)
  }

  function Sort<T>(s: seq<T>, before: (T, T) -> bool): (r: seq<T>)
    ensures multiset(r) == multiset(s)
  {
    if |s| == 0 then []
    else
      assert s == [s[0]] + s[1..];
      Insert(s[0], Sort(s[1..], before), before)
  }

  lemma {:induction false} InsertSorted<T(!new)>(x: T, s: seq<T>, before: (T, T) -> bool)
    requires StrictTotalOrder(before)
    requires SortedBy(s, before) && x !in s
    ensures SortedBy(Insert(x, s, before), before)
  {
    if |s| == 0 {
    } else if before(x, s[0]) {
      var r := [x] + s;
      forall i, j | 0 <= i < j < |r| ensures before(r[i], r[j]) {
        if i == 0 && j > 1 {
          assert before(x, s[0]) && before(s[0], s[j - 1]);
        }
      }
    } else {
      assert before(s[0], x);
      assert s == [s[0]] + s[1..];
      var t := Insert(x, s[1..], before);
      InsertSorted(x, s[1..], before);
      var r := [s[0]] + t;
      forall j | 1 <= j < |r| ensures before(s[0], r[j]) {
        assert r[j] in multiset(t);
        assert r[j] in multiset(s[1..]) || r[j] == x;
        if r[j] != x {
          var k :| 0 <= k < |s[1..]| && s[1..][k] == r[j];
          assert before(s[0], s[k + 1]);
        }
      }
      assert SortedBy(r, before);
    }
  }

  /** For distinct inputs, the sorted sequence is ordered by `before` and holds the same elements. */
  lemma {:induction false} SortSorted<T(!new)>(s: seq<T>, before: (T, T) -> bool)
    requires StrictTotalOrder(before)
    requires Distinct(s)
    ensures SortedBy(Sort(s, before), before)
    ensures multiset(Sort(s, before)) == multiset(s)
  {
    if |s| > 0 {
      var rest := s[1..];
      assert Distinct(rest) by {
        forall i, j | 0 <= i < j < |rest| ensures rest[i] != rest[j] {
          assert rest[i] == s[i + 1] && rest[j] == s[j + 1];
        }
      }
      SortSorted(rest, before);
      var t := Sort(rest, before);
      assert s[0] !in rest by {
        forall k | 0 <= k < |rest| ensures rest[k] != s[0] {
          assert rest[k] == s[k + 1];
        }
      }
      assert s[0] !in multiset(rest);
      assert s[0] !in multiset(t);
      InsertSorted(s[0], t, before);
    }
  }

  /** A sequence sorted by a strict order has no repeated element. */
  lemma SortedDistinct<T(!new)>(s: seq<T>, before: (T, T) -> bool)
    requires StrictTotalOrder(before) && SortedBy(s, before)
    ensures Distinct(s)
  {
    forall i, j | 0 <= i < j < |s| ensures s[i] != s[j] {
      assert before(s[i], s[j]);
    }
  }

  /**
   * Lexicographic order on strings, by character code. This is not the
   * order `localeCompare` gives, even on plain ASCII names: it puts every
   * upper-case letter before every lower-case one and orders punctuation
   * by code. The model uses it in place of the locale order.
   */
  predicate StrLess(a: string, b: string) {
    if |a| == 0 then |b| > 0
    else if |b| == 0 then false
    else if a[0] != b[0] then a[0] < b[0]
    else StrLess(a[1..], b[1..])
  }

  lemma {:induction false} StrLessIrreflexive(a: string)
    ensures !StrLess(a, a)
  {
    if |a| > 0 {
      StrLessIrreflexive(a[1..]);
    }
  }

  lemma {:induction false} StrLessTotal(a: string, b: string)
    requires a != b
    ensures StrLess(a, b) || StrLess(b, a)
  {
    if |a| > 0 && |b| > 0 && a[0] == b[0] {
      assert a == [a[0]] + a[1..] && b == [b[0]] + b[1..];
      StrLessTotal(a[1..], b[1..]);
    }
  }

  lemma {:induction false} StrLessTransitive(a: string, b: string, c: string)
    requires StrLess(a, b) && StrLess(b, c)
    ensures StrLess(a, c)
  {
    if |a| > 0 && |b| > 0 && |c| > 0 && a[0] == b[0] && b[0] == c[0] {
      StrLessTransitive(a[1..], b[1..], c[1..]);
    }
  }

  lemma StrLessIsStrictTotalOrder()
    ensures StrictTotalOrder(StrLess)
  {
    forall a ensures !StrLess(a, a) {
      StrLessIrreflexive(a);
    }
    forall a, b | a != b ensures StrLess(a, b) || StrLess(b, a) {
      StrLessTotal(a, b);
    }
    forall a, b, c | StrLess(a, b) && StrLess(b, c) ensures StrLess(a, c) {
      StrLessTransitive(a, b, c);
    }
  }
}
