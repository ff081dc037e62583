/** Orderings used by the pipeline's `sort_values`, `sorted(set(...))` and
    `groupby` (whose groups come out in ascending key order). */
module Ordering {

  // ---------------------------------------------------------------------------
  // Sorting by a comparator: `before(a, b)` means "a may be placed before b".
  // ---------------------------------------------------------------------------

  ghost predicate TotalPreorder<T(!new)>(before: (T, T) -> bool) {
    (forall a, b :: before(a, b) || before(b, a)) &&
    (forall a, b, c :: before(a, b) && before(b, c) ==> before(a, c))
  }

  predicate SortedBy<T>(s: seq<T>, before: (T, T) -> bool) {
    forall i, j :: 0 <= i < j < |s| ==> before(s[i], s[j])
  }

  function Insert<T>(x: T, s: seq<T>, before: (T, T) -> bool): (r: seq<T>)
    ensures multiset(r) == multiset(s) + multiset{x}
    ensures |r| == |s| + 1
  {
    if s == [] then [x]
    else if before(x, s[0]) then [x] + s
    else
      assert s == [s[0]] + s[1..];
      [s[0]] + Insert(x, s[1..], before)
  }

  /** Insertion sort; an element is placed in front of all later elements it
      may precede, so elements that tie keep their input order. */
  function SortBy<T>(s: seq<T>, before: (T, T) -> bool): (r: seq<T>)
    ensures multiset(r) == multiset(s)
    ensures |r| == |s|
  {
    if s == [] then []
    else
      assert s == [s[0]] + s[1..];
      Insert(s[0], SortBy(s[1..], before), before)
  }

  lemma {:induction false} InsertSorted<T(!new)>(x: T, s: seq<T>, before: (T, T) -> bool)
    requires TotalPreorder(before)
    requires SortedBy(s, before)
    ensures SortedBy(Insert(x, s, before), before)
    decreases |s|
  {
    if s == [] {
    } else if before(x, s[0]) {
      var r := [x] + s;
      forall i, j | 0 <= i < j < |r| ensures before(r[i], r[j]) {
        if i == 0 && j > 1 {
          assert before(s[0], s[j - 1]);
        }
      }
    } else {
      assert before(s[0], x);
      var t := Insert(x, s[1..], before);
      InsertSorted(x, s[1..], before);
      var r := [s[0]] + t;
      forall i, j | 0 <= i < j < |r| ensures before(r[i], r[j]) {
        if i == 0 {
          var e := r[j];
          assert e in multiset(t);
          assert e in multiset(s[1..]) || e == x;
          if e != x {
            var k :| 0 <= k < |s[1..]| && s[1..][k] == e;
            assert s[k + 1] == e;
          }
        }
      }
    }
  }

  lemma {:induction false} SortBySorted<T(!new)>(s: seq<T>, before: (T, T) -> bool)
    requires TotalPreorder(before)
    ensures SortedBy(SortBy(s, before), before)
    decreases |s|
  {
    if s != [] {
      SortBySorted(s[1..], before);
      InsertSorted(s[0], SortBy(s[1..], before), before);
    }
  }

  // ---------------------------------------------------------------------------
  // Sorted distinct values for a strict total order (`sorted(set(xs))`, the key
  // order of `groupby`, `unique()` then sort).
  // ---------------------------------------------------------------------------

  ghost predicate StrictTotalOrder<T(!new)>(lt: (T, T) -> bool) {
    (forall a :: !lt(a, a)) &&
    (forall a, b, c :: lt(a, b) && lt(b, c) ==> lt(a, c)) &&
    (forall a, b :: a == b || lt(a, b) || lt(b, a))
  }

  predicate StrictlySorted<T>(s: seq<T>, lt: (T, T) -> bool) {
    forall i, j :: 0 <= i < j < |s| ==> lt(s[i], s[j])
  }

  function InsertUnique<T(==,!new)>(x: T, s: seq<T>, lt: (T, T) -> bool): (r: seq<T>)
    ensures forall y :: y in r <==> y == x || y in s
    ensures |r| <= |s| + 1
  {
    if s == [] then [x]
    else if x == s[0] then s
    else if lt(x, s[0]) then [x] + s
    else
      assert forall y :: y in s <==> y == s[0] || y in s[1..];
      [s[0]] + InsertUnique(x, s[1..], lt)
  }

  /** The distinct elements of `s` (the check that they come out strictly
      sorted is `SortedSetSorted`). */
  function SortedSet<T(==,!new)>(s: seq<T>, lt: (T, T) -> bool): (r: seq<T>)
    ensures forall y :: y in r <==> y in s
    ensures |r| <= |s|
  {
    if s == [] then []
    else
      assert forall y :: y in s <==> y == s[0] || y in s[1..];
      InsertUnique(s[0], SortedSet(s[1..], lt), lt)
  }

  lemma {:induction false} InsertUniqueSorted<T(!new)>(x: T, s: seq<T>, lt: (T, T) -> bool)
    requires StrictTotalOrder(lt)
    requires StrictlySorted(s, lt)
    ensures StrictlySorted(InsertUnique(x, s, lt), lt)
    decreases |s|
  {
    if s == [] || x == s[0] {
    } else if lt(x, s[0]) {
      var r := [x] + s;
      forall i, j | 0 <= i < j < |r| ensures lt(r[i], r[j]) {
        if i == 0 && j > 1 {
          assert lt(s[0], s[j - 1]);
        }
      }
    } else {
      assert lt(s[0], x);
      var t := InsertUnique(x, s[1..], lt);
      InsertUniqueSorted(x, s[1..], lt);
      var r := [s[0]] + t;
      forall i, j | 0 <= i < j < |r| ensures lt(r[i], r[j]) {
        if i == 0 {
          var e := r[j];
          assert e in t;
          if e != x {
            assert e in s[1..];
            var k :| 0 <= k < |s[1..]| && s[1..][k] == e;
            assert s[k + 1] == e;
          }
        }
      }
    }
  }

  lemma {:induction false} SortedSetSorted<T(!new)>(s: seq<T>, lt: (T, T) -> bool)
    requires StrictTotalOrder(lt)
    ensures StrictlySorted(SortedSet(s, lt), lt)
    decreases |s|
  {
    if s != [] {
      SortedSetSorted(s[1..], lt);
      InsertUniqueSorted(s[0], SortedSet(s[1..], lt), lt);
    }
  }

  /** A strictly sorted sequence has no repeated element. */
  lemma StrictlySortedDistinct<T(!new)>(s: seq<T>, lt: (T, T) -> bool, i: int, j: int)
    requires StrictTotalOrder(lt)
    requires StrictlySorted(s, lt)
    requires 0 <= i < |s| && 0 <= j < |s| && i != j
    ensures s[i] != s[j]
  {
    if i < j {
      assert lt(s[i], s[j]);
    } else {
      assert lt(s[j], s[i]);
    }
  }

  // ---------------------------------------------------------------------------
  // Orders on the key types of the pipeline.
  // ---------------------------------------------------------------------------

  predicate IntLt(a: int, b: int) {
    a < b
  }

  lemma IntLtStrictTotal()
    ensures StrictTotalOrder(IntLt)
  {
  }

  predicate IntLe(a: int, b: int) {
    a <= b
  }

  lemma IntLeTotalPreorder()
    ensures TotalPreorder(IntLe)
  {
  }

  /** Lexicographic order on (int, int) keys, as `groupby` over two integer
      columns sorts them. */
  predicate PairLt(a: (int, int), b: (int, int)) {
    a.0 < b.0 || (a.0 == b.0 && a.1 < b.1)
  }

  lemma PairLtStrictTotal()
    ensures StrictTotalOrder(PairLt)
  {
  }

  /** Python's `str` ordering: lexicographic by code point. */
  predicate StrLt(a: string, b: string) {
    if a == [] then b != []
    else if b == [] then false
    else if a[0] != b[0] then a[0] < b[0]
    else StrLt(a[1..], b[1..])
  }

  lemma {:induction false} StrLtIrreflexive(a: string)
    ensures !StrLt(a, a)
    decreases |a|
  {
    if a != [] {
      StrLtIrreflexive(a[1..]);
    }
  }

  lemma {:induction false} StrLtTransitive(a: string, b: string, c: string)
    requires StrLt(a, b) && StrLt(b, c)
    ensures StrLt(a, c)
    decreases |a|
  {
    if a != [] && b != [] && c != [] && a[0] == b[0] && b[0] == c[0] {
      StrLtTransitive(a[1..], b[1..], c[1..]);
    }
  }

  lemma {:induction false} StrLtTotal(a: string, b: string)
    ensures a == b || StrLt(a, b) || StrLt(b, a)
    decreases |a|
  {
    if a != [] && b != [] && a[0] == b[0] {
      StrLtTotal(a[1..], b[1..]);
      if a[1..] == b[1..] {
        assert a == [a[0]] + a[1..] && b == [b[0]] + b[1..];
      }
    }
  }

  lemma StrLtStrictTotal()
    ensures StrictTotalOrder(StrLt)
  {
    forall a ensures !StrLt(a, a) {
      StrLtIrreflexive(a);
    }
    forall a, b, c | StrLt(a, b) && StrLt(b, c) ensures StrLt(a, c) {
      StrLtTransitive(a, b, c);
    }
    forall a, b ensures a == b || StrLt(a, b) || StrLt(b, a) {
      StrLtTotal(a, b);
    }
  }
}
