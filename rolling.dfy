/** Per-group transforms in row order, as pandas computes them:
    trailing-window means
    (`groupby(key)[col].transform(lambda s: s.rolling(window, min_periods=1).mean())`)
    and running sums (`groupby(key)[col].cumsum()`). */
module Rolling {
  import opened Common

  /** The last `window` values of `s`, or all of them when there are fewer. */
  function Trailing(s: seq<real>, window: nat): (r: seq<real>)
    ensures |r| == if |s| < window then |s| else window
    ensures forall j :: 0 <= j < |r| ==> r[j] == s[|s| - |r| + j]
  {
    if |s| <= window then s else s[|s| - window..]
  }

  /** The values of the rows with key `k`, in row order. */
  function GroupValues<K(==)>(keys: seq<K>, values: seq<real>, k: K): seq<real>
    requires |keys| == |values|
  {
    if keys == [] then []
    else
      var n := |keys| - 1;
      GroupValues(keys[..n], values[..n], k) + (if keys[n] == k then [values[n]] else [])
  }

  /** One more row adds its value to its own group and to no other. */
  lemma GroupValuesStep<K>(keys: seq<K>, values: seq<real>, i: nat, k: K)
    requires |keys| == |values| && i < |keys|
    ensures GroupValues(keys[..i + 1], values[..i + 1], k)
      == GroupValues(keys[..i], values[..i], k) + (if keys[i] == k then [values[i]] else [])
  {
    assert keys[..i + 1][..i] == keys[..i] && values[..i + 1][..i] == values[..i];
  }

  /** Each group value comes from a row of that group. */
  lemma {:induction false} GroupValuesFromGroup<K>(keys: seq<K>, values: seq<real>, k: K)
    requires |keys| == |values|
    ensures |GroupValues(keys, values, k)| <= |keys|
    ensures forall x :: x in GroupValues(keys, values, k) ==>
      exists i :: 0 <= i < |keys| && keys[i] == k && values[i] == x
    decreases |keys|
  {
    if keys != [] {
      var n := |keys| - 1;
      GroupValuesFromGroup(keys[..n], values[..n], k);
      forall x | x in GroupValues(keys, values, k) ensures exists i :: 0 <= i < |keys| && keys[i] == k && values[i] == x {
        if x in GroupValues(keys[..n], values[..n], k) {
          var i :| 0 <= i < n && keys[..n][i] == k && values[..n][i] == x;
          assert keys[i] == k && values[i] == x;
        } else {
          assert keys[n] == k && values[n] == x;
        }
      }
    }
  }

  /** The rolling mean of row `i`: the mean of the last `window` values of
      its group up to and including row `i` (the group's earlier values
      followed by the row's own). */
  function RollingAt<K(==)>(keys: seq<K>, values: seq<real>, window: nat, i: nat): real
    requires |keys| == |values| && window >= 1 && i < |keys|
  {
    Mean(Trailing(GroupValues(keys[..i], values[..i], keys[i]) + [values[i]], window))
  }

  /** The window of row `i` ends with the row's own value, holds
      min(k, window) values where k is the row's position in its group, and
      contains only values of its own group; so the rolling mean lies
      between their smallest and largest. */
  lemma RollingWindow<K>(keys: seq<K>, values: seq<real>, window: nat, i: nat)
    requires |keys| == |values| && window >= 1 && i < |keys|
    ensures var g := GroupValues(keys[..i + 1], values[..i + 1], keys[i]);
      var w := Trailing(g, window);
      && |g| >= 1 && g[|g| - 1] == values[i]
      && |w| == (if |g| < window then |g| else window)
      && (forall x :: x in w ==> exists j :: 0 <= j <= i && keys[j] == keys[i] && values[j] == x)
      && MinOf(w) <= RollingAt(keys, values, window, i) <= MaxOf(w)
  {
    var g := GroupValues(keys[..i + 1], values[..i + 1], keys[i]);
    GroupValuesStep(keys, values, i, keys[i]);
    var w := Trailing(g, window);
    GroupValuesFromGroup(keys[..i + 1], values[..i + 1], keys[i]);
    forall x | x in w ensures exists j :: 0 <= j <= i && keys[j] == keys[i] && values[j] == x {
      assert x in g;
      var j :| 0 <= j < i + 1 && keys[..i + 1][j] == keys[i] && values[..i + 1][j] == x;
    }
    MeanBetween(w);
  }

  /** With a window of one, the rolling mean is the row's own value. */
  lemma RollingWindowOne<K>(keys: seq<K>, values: seq<real>, i: nat)
    requires |keys| == |values| && i < |keys|
    ensures RollingAt(keys, values, 1, i) == values[i]
  {
    RollingWindow(keys, values, 1, i);
    var g := GroupValues(keys[..i + 1], values[..i + 1], keys[i]);
    assert Trailing(g, 1) == [values[i]];
  }

  /** The transformed column: each row's rolling mean. */
  function RollingMean<K(==)>(keys: seq<K>, values: seq<real>, window: nat): (r: seq<real>)
    requires |keys| == |values| && window >= 1
    ensures |r| == |keys|
    ensures forall i :: 0 <= i < |keys| ==> r[i] == RollingAt(keys, values, window, i)
  {
    var r := seq(|keys|, i requires 0 <= i < |keys| => RollingAt(keys, values, window, i));
    assert forall i :: 0 <= i < |keys| ==> r[i] == RollingAt(keys, values, window, i);
    r
  }

  /** The rows split at `j` contribute their group values in two parts. */
  lemma {:induction false} GroupValuesSplit<K>(keys: seq<K>, values: seq<real>, j: nat, k: K)
    requires |keys| == |values| && j <= |keys|
    ensures GroupValues(keys, values, k)
      == GroupValues(keys[..j], values[..j], k) + GroupValues(keys[j..], values[j..], k)
    decreases |keys|
  {
    if j == |keys| {
      assert keys[..j] == keys && values[..j] == values;
      assert keys[j..] == [];
    } else {
      var n := |keys| - 1;
      var last := if keys[n] == k then [values[n]] else [];
      var a := GroupValues(keys[..j], values[..j], k);
      var b := GroupValues(keys[..n][j..], values[..n][j..], k);
      assert GroupValues(keys[..n], values[..n], k) == a + b by {
        GroupValuesSplit(keys[..n], values[..n], j, k);
        assert keys[..n][..j] == keys[..j] && values[..n][..j] == values[..j];
      }
      assert GroupValues(keys[j..], values[j..], k) == b + last by {
        var tk, tv := keys[j..], values[j..];
        assert tk[..|tk| - 1] == keys[..n][j..] && tv[..|tv| - 1] == values[..n][j..];
        assert tk[|tk| - 1] == keys[n] && tv[|tv| - 1] == values[n];
      }
      assert (a + b) + last == a + (b + last);
    }
  }

  /** Rows of other groups contribute nothing to group `k`. */
  lemma {:induction false} GroupValuesAbsent<K>(keys: seq<K>, values: seq<real>, k: K)
    requires |keys| == |values|
    requires forall i :: 0 <= i < |keys| ==> keys[i] != k
    ensures GroupValues(keys, values, k) == []
    decreases |keys|
  {
    if keys != [] {
      var n := |keys| - 1;
      assert forall i :: 0 <= i < n ==> keys[..n][i] == keys[i];
      GroupValuesAbsent(keys[..n], values[..n], k);
    }
  }

  /** The cumulative sum of row `i`: the sum of its group's values up to and
      including its own (`groupby(key)[col].cumsum()`). */
  function CumulativeAt<K(==)>(keys: seq<K>, values: seq<real>, i: nat): real
    requires |keys| == |values| && i < |keys|
  {
    Sum(GroupValues(keys[..i + 1], values[..i + 1], keys[i]))
  }

  /** The first row of a group carries its own value; every later row adds
      its value to the cumulative sum of the group's previous row. */
  lemma CumulativeRunning<K>(keys: seq<K>, values: seq<real>, j: nat, i: nat)
    requires |keys| == |values| && j < i < |keys| && keys[j] == keys[i]
    requires forall m :: j < m < i ==> keys[m] != keys[i]
    ensures CumulativeAt(keys, values, i) == CumulativeAt(keys, values, j) + values[i]
  {
    var k := keys[i];
    var pre, vpre := keys[..i], values[..i];
    var g := GroupValues(keys[..j + 1], values[..j + 1], k);
    assert g == GroupValues(pre, vpre, k) by {
      GroupValuesSplit(pre, vpre, j + 1, k);
      assert pre[..j + 1] == keys[..j + 1] && vpre[..j + 1] == values[..j + 1];
      var mid, vmid := pre[j + 1..], vpre[j + 1..];
      forall t | 0 <= t < |mid| ensures mid[t] != k {
        assert mid[t] == keys[j + 1 + t];
      }
      GroupValuesAbsent(mid, vmid, k);
    }
    GroupValuesStep(keys, values, i, k);
    SumAppend(g, values[i]);
  }

  /** A group's first row carries its own value. */
  lemma CumulativeFirst<K>(keys: seq<K>, values: seq<real>, i: nat)
    requires |keys| == |values| && i < |keys|
    requires forall m :: 0 <= m < i ==> keys[m] != keys[i]
    ensures CumulativeAt(keys, values, i) == values[i]
  {
    GroupValuesStep(keys, values, i, keys[i]);
    assert forall m :: 0 <= m < i ==> keys[..i][m] == keys[m];
    GroupValuesAbsent(keys[..i], values[..i], keys[i]);
    SumAppend([], values[i]);
  }

  /** The last row of a group carries the group total. */
  lemma CumulativeTotal<K>(keys: seq<K>, values: seq<real>, i: nat)
    requires |keys| == |values| && i < |keys|
    requires forall m :: i < m < |keys| ==> keys[m] != keys[i]
    ensures CumulativeAt(keys, values, i) == Sum(GroupValues(keys, values, keys[i]))
  {
    GroupValuesSplit(keys, values, i + 1, keys[i]);
    var rest, vrest := keys[i + 1..], values[i + 1..];
    assert forall t :: 0 <= t < |rest| ==> rest[t] == keys[i + 1 + t];
    GroupValuesAbsent(rest, vrest, keys[i]);
    assert GroupValues(keys, values, keys[i]) == GroupValues(keys[..i + 1], values[..i + 1], keys[i]);
  }

  /** Non-negative values give non-negative group values. */
  lemma {:induction false} GroupValuesNonNegative<K>(keys: seq<K>, values: seq<real>, k: K)
    requires |keys| == |values|
    requires forall m :: 0 <= m < |values| ==> values[m] >= 0.0
    ensures forall m :: 0 <= m < |GroupValues(keys, values, k)| ==> GroupValues(keys, values, k)[m] >= 0.0
    decreases |keys|
  {
    if keys != [] {
      var n := |keys| - 1;
      assert forall m :: 0 <= m < n ==> values[..n][m] == values[m];
      GroupValuesNonNegative(keys[..n], values[..n], k);
    }
  }

  /** With non-negative values the cumulative sum never falls within a
      group. */
  lemma CumulativeMonotone<K>(keys: seq<K>, values: seq<real>, j: nat, i: nat)
    requires |keys| == |values| && j < i < |keys| && keys[j] == keys[i]
    requires forall m :: 0 <= m < |values| ==> values[m] >= 0.0
    ensures CumulativeAt(keys, values, j) <= CumulativeAt(keys, values, i)
  {
    var k := keys[i];
    var pre, vpre := keys[..i + 1], values[..i + 1];
    var g := GroupValues(keys[..j + 1], values[..j + 1], k);
    var rest := GroupValues(pre[j + 1..], vpre[j + 1..], k);
    assert GroupValues(pre, vpre, k) == g + rest by {
      GroupValuesSplit(pre, vpre, j + 1, k);
      assert pre[..j + 1] == keys[..j + 1] && vpre[..j + 1] == values[..j + 1];
    }
    assert Sum(rest) >= 0.0 by {
      GroupValuesNonNegative(pre[j + 1..], vpre[j + 1..], k);
      SumNonNegative(rest);
    }
    SumConcat(g, rest);
  }

  /** The transformed column: each row's cumulative sum. */
  function CumulativeSum<K(==)>(keys: seq<K>, values: seq<real>): (r: seq<real>)
    requires |keys| == |values|
    ensures |r| == |keys|
    ensures forall i :: 0 <= i < |keys| ==> r[i] == CumulativeAt(keys, values, i)
  {
    var r := seq(|keys|, i requires 0 <= i < |keys| => CumulativeAt(keys, values, i));
    assert forall i :: 0 <= i < |keys| ==> r[i] == CumulativeAt(keys, values, i);
    r
  }
}
