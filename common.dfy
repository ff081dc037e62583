/** Shared vocabulary of the pipeline model: a missing value (pandas NaN, or a
    column that is absent) is `None`; a stage that raises returns `Err`. */
module Common {

  datatype Option<T> = None | Some(value: T) {
    function GetOr(default: T): T {
      match this
      case Some(v) => v
      case None => default
    }
  }

  datatype Result<T, E> = Ok(value: T) | Err(error: E)

  /** pandas `fillna(0)` on one cell. */
  function FillZero(x: Option<real>): real {
    x.GetOr(0.0)
  }

  function Abs(x: real): real {
    if x < 0.0 then -x else x
  }

  function Max(a: real, b: real): real {
    if a < b then b else a
  }

  function Min(a: real, b: real): real {
    if a < b then a else b
  }

  function Sum(s: seq<real>): real {
    if s == [] then 0.0 else Sum(s[..|s| - 1]) + s[|s| - 1]
  }

  /** Arithmetic mean of a non-empty sequence (numpy / pandas `mean`). */
  function Mean(s: seq<real>): real
    requires |s| > 0
  {
    Sum(s) / (|s| as real)
  }

  lemma {:induction false} SumAppend(s: seq<real>, x: real)
    ensures Sum(s + [x]) == Sum(s) + x
  {
    assert (s + [x])[..|s + [x]| - 1] == s;
  }

  lemma {:induction false} SumConcat(a: seq<real>, b: seq<real>)
    ensures Sum(a + b) == Sum(a) + Sum(b)
    decreases |b|
  {
    if b == [] {
      assert a + b == a;
    } else {
      var b' := b[..|b| - 1];
      assert a + b == (a + b') + [b[|b| - 1]];
      SumConcat(a, b');
      SumAppend(a + b', b[|b| - 1]);
    }
  }

  lemma {:induction false} SumNonNegative(s: seq<real>)
    requires forall i :: 0 <= i < |s| ==> s[i] >= 0.0
    ensures Sum(s) >= 0.0
    decreases |s|
  {
    if s != [] {
      SumNonNegative(s[..|s| - 1]);
    }
  }

  lemma {:induction false} SumConstant(s: seq<real>, c: real)
    requires forall i :: 0 <= i < |s| ==> s[i] == c
    ensures Sum(s) == (|s| as real) * c
    decreases |s|
  {
    if s != [] {
      SumConstant(s[..|s| - 1], c);
    }
  }

  /** Pointwise difference of two columns sums to the difference of the sums. */
  lemma {:induction false} SumSub(a: seq<real>, b: seq<real>, c: seq<real>)
    requires |a| == |b| == |c|
    requires forall i :: 0 <= i < |c| ==> c[i] == a[i] - b[i]
    ensures Sum(c) == Sum(a) - Sum(b)
    decreases |c|
  {
    if c != [] {
      var k := |c| - 1;
      SumSub(a[..k], b[..k], c[..k]);
    }
  }

  /** A sequence that is zero except for `v` at index `t` sums to `v`, or to
      zero when `t` lies outside it. */
  lemma {:induction false} SumSpike(s: seq<real>, t: int, v: real)
    requires forall i :: 0 <= i < |s| ==> s[i] == (if i == t then v else 0.0)
    ensures Sum(s) == if 0 <= t < |s| then v else 0.0
    decreases |s|
  {
    if s != [] {
      var k := |s| - 1;
      SumSpike(s[..k], t, v);
    }
  }

  /** A sum of values between `lo` and `hi` lies between `|s|·lo` and
      `|s|·hi`. */
  lemma {:induction false} SumBounds(s: seq<real>, lo: real, hi: real)
    requires forall i :: 0 <= i < |s| ==> lo <= s[i] <= hi
    ensures (|s| as real) * lo <= Sum(s) <= (|s| as real) * hi
    decreases |s|
  {
    if s != [] {
      SumBounds(s[..|s| - 1], lo, hi);
    }
  }

  /** A mean lies between the smallest and the largest value. */
  lemma MeanBetween(s: seq<real>)
    requires |s| > 0
    ensures MinOf(s) <= Mean(s) <= MaxOf(s)
  {
    MeanWithin(s, MinOf(s), MaxOf(s));
  }

  /** A mean of values between `lo` and `hi` lies between them. */
  lemma MeanWithin(s: seq<real>, lo: real, hi: real)
    requires |s| > 0
    requires forall i :: 0 <= i < |s| ==> lo <= s[i] <= hi
    ensures lo <= Mean(s) <= hi
  {
    SumBounds(s, lo, hi);
    QuotientBetween(Sum(s), |s| as real, lo, hi);
  }

  lemma QuotientBetween(total: real, n: real, lo: real, hi: real)
    requires n > 0.0 && n * lo <= total <= n * hi
    ensures lo <= total / n <= hi
  {
    var q := total / n;
    assert q * n == total;
  }

  /** Dividing by a positive number keeps the order. */
  lemma DivMonotone(a: real, b: real, d: real)
    requires d > 0.0 && a <= b
    ensures a / d <= b / d
  {
    var q1, q2 := a / d, b / d;
    assert q1 * d == a && q2 * d == b;
    assert (q2 - q1) * d == b - a;
  }

  /** The smallest element of a non-empty sequence. */
  function MinOf(s: seq<real>): (m: real)
    requires |s| > 0
    ensures m in s
    ensures forall i :: 0 <= i < |s| ==> m <= s[i]
  {
    if |s| == 1 then s[0] else Min(MinOf(s[..|s| - 1]), s[|s| - 1])
  }

  /** The largest element of a non-empty sequence. */
  function MaxOf(s: seq<real>): (m: real)
    requires |s| > 0
    ensures m in s
    ensures forall i :: 0 <= i < |s| ==> s[i] <= m
  {
    if |s| == 1 then s[0] else Max(MaxOf(s[..|s| - 1]), s[|s| - 1])
  }

  /** The present values of a column, in order (what pandas' NaN-skipping
      reductions see). */
  function Present(s: seq<Option<real>>): (r: seq<real>)
    ensures |r| <= |s|
    ensures forall x :: x in r <==> Some(x) in s
  {
    if s == [] then []
    else Present(s[..|s| - 1]) + (if s[|s| - 1].Some? then [s[|s| - 1].value] else [])
  }

  /** No element occurs twice. */
  predicate Distinct<T(==)>(s: seq<T>) {
    forall i, j :: 0 <= i < j < |s| ==> s[i] != s[j]
  }

  /** Number of occurrences of `x` in `s`. */
  function Count<T(==)>(s: seq<T>, x: T): nat {
    if s == [] then 0 else Count(s[..|s| - 1], x) + (if s[|s| - 1] == x then 1 else 0)
  }

  lemma {:induction false} CountAppend<T>(s: seq<T>, t: T, x: T)
    ensures Count(s + [t], x) == Count(s, x) + (if t == x then 1 else 0)
  {
    assert (s + [t])[..|s + [t]| - 1] == s;
  }

  lemma {:induction false} CountConcat<T>(a: seq<T>, b: seq<T>, x: T)
    ensures Count(a + b, x) == Count(a, x) + Count(b, x)
    decreases |b|
  {
    if b == [] {
      assert a + b == a;
    } else {
      var b' := b[..|b| - 1];
      assert a + b == (a + b') + [b[|b| - 1]];
      CountConcat(a, b', x);
      CountAppend(a + b', b[|b| - 1], x);
      CountAppend(b', b[|b| - 1], x);
      assert b == b' + [b[|b| - 1]];
    }
  }

  /** The first `n` elements (pandas `head(n)`). */
  function Take<T>(s: seq<T>, n: nat): (r: seq<T>)
    ensures |r| == if |s| < n then |s| else n
    ensures forall i :: 0 <= i < |r| ==> r[i] == s[i]
  {
    if |s| <= n then s else s[..n]
  }

  /** The blocks one after another. */
  function Flatten<T>(blocks: seq<seq<T>>): seq<T> {
    if blocks == [] then [] else Flatten(blocks[..|blocks| - 1]) + blocks[|blocks| - 1]
  }

  /** Blocks of one element each flatten to those elements, in order. */
  lemma {:induction false} FlattenSingles<T>(blocks: seq<seq<T>>)
    requires forall k :: 0 <= k < |blocks| ==> |blocks[k]| == 1
    ensures |Flatten(blocks)| == |blocks|
    ensures forall k :: 0 <= k < |blocks| ==> Flatten(blocks)[k] == blocks[k][0]
    decreases |blocks|
  {
    if blocks != [] {
      var n := |blocks| - 1;
      assert forall k :: 0 <= k < n ==> blocks[..n][k] == blocks[k];
      FlattenSingles(blocks[..n]);
    }
  }

  /** Every element of the flattening comes from one of the blocks. */
  lemma {:induction false} FlattenFrom<T>(blocks: seq<seq<T>>, x: T)
    requires x in Flatten(blocks)
    ensures exists k :: 0 <= k < |blocks| && x in blocks[k]
    decreases |blocks|
  {
    var n := |blocks| - 1;
    if x !in blocks[n] {
      FlattenFrom(blocks[..n], x);
      var k :| 0 <= k < n && x in blocks[..n][k];
      assert blocks[..n][k] == blocks[k];
    }
  }

  /** Every element of a block is in the flattening. */
  lemma {:induction false} FlattenHas<T>(blocks: seq<seq<T>>, k: nat, x: T)
    requires k < |blocks| && x in blocks[k]
    ensures x in Flatten(blocks)
    decreases |blocks|
  {
    var n := |blocks| - 1;
    if k < n {
      assert blocks[..n][k] == blocks[k];
      FlattenHas(blocks[..n], k, x);
    }
  }

  /** A position at which `x` occurs in `s`. */
  lemma IndexOf<T>(s: seq<T>, x: T) returns (t: nat)
    requires x in s
    ensures t < |s| && s[t] == x
  {
    t :| t < |s| && s[t] == x;
  }

  /** The required columns absent from `columns`, in required order. */
  function MissingFrom(required: seq<string>, columns: seq<string>): seq<string> {
    if required == [] then []
    else (if required[0] in columns then [] else [required[0]]) + MissingFrom(required[1..], columns)
  }

  /** The missing list holds exactly the required columns that are absent,
      in their required order and without anything else; it is empty
      exactly when every required column is present. */
  lemma {:induction false} MissingFromMeaning(required: seq<string>, columns: seq<string>)
    ensures forall c :: c in MissingFrom(required, columns) <==> c in required && c !in columns
    ensures |MissingFrom(required, columns)| <= |required|
    ensures MissingFrom(required, columns) == [] <==> forall c :: c in required ==> c in columns
    decreases |required|
  {
    if required != [] {
      MissingFromMeaning(required[1..], columns);
      assert forall c :: c in required <==> c == required[0] || c in required[1..];
    }
  }

  /** When no required column is present, every one is listed, in the
      required order. */
  lemma {:induction false} MissingFromNonePresent(required: seq<string>, columns: seq<string>)
    requires forall c :: c in required ==> c !in columns
    ensures MissingFrom(required, columns) == required
    decreases |required|
  {
    if required != [] {
      MissingFromNonePresent(required[1..], columns);
      assert required == [required[0]] + required[1..];
    }
  }
}
