/** Month-over-month revenue growth of the enhanced dashboard: each
    identifier's rows summed into calendar months (`resample("M").sum()`),
    labelled "YYYY-MM", with the percentage change of revenue against the
    identifier's previous month. Months are numbered 12 * year + month - 1;
    which month a day falls in is the calendar's business and is passed in
    as `monthOf`. */
module MonthOverMonth {
  import opened Common
  import opened Ordering
  import opened Dashboard

  // ---------------------------------------------------------------------------
  // The "YYYY-MM" label (`strftime("%Y-%m")`).
  // ---------------------------------------------------------------------------

  function TwoDigits(n: nat): (r: string)
    requires n < 100
    ensures |r| == 2
  {
    [DigitChar(n / 10), DigitChar(n % 10)]
  }

  function YearMonth(mi: int): string {
    IntToString(mi / 12) + "-" + TwoDigits(mi % 12 + 1)
  }

  /** From year 0 on, the first '-' of a label follows the year. */
  lemma FirstDash(mi: int)
    requires mi >= 0
    ensures var s := IntToString(mi / 12);
      |s| < |YearMonth(mi)| && YearMonth(mi)[|s|] == '-' &&
      forall k :: 0 <= k < |s| ==> YearMonth(mi)[k] != '-'
  {
    var s := IntToString(mi / 12);
    assert forall k :: 0 <= k < |s| ==> YearMonth(mi)[k] == s[k];
  }

  /** Distinct months (from year 0 on) get distinct labels. */
  lemma YearMonthInjective(a: int, b: int)
    requires a >= 0 && b >= 0 && YearMonth(a) == YearMonth(b)
    ensures a == b
  {
    var sa, sb := IntToString(a / 12), IntToString(b / 12);
    var l := YearMonth(a);
    FirstDash(a);
    FirstDash(b);
    assert |sa| == |sb|;
    assert sa == l[..|sa|] == sb;
    IntToStringInjective(a / 12, b / 12);
    var ma, mb := a % 12 + 1, b % 12 + 1;
    assert l[|l| - 2] == DigitChar(ma / 10) && l[|l| - 2] == DigitChar(mb / 10);
    assert l[|l| - 1] == DigitChar(ma % 10) && l[|l| - 1] == DigitChar(mb % 10);
    assert ma == 10 * (ma / 10) + ma % 10 && mb == 10 * (mb / 10) + mb % 10;
  }

  // ---------------------------------------------------------------------------
  // Percentage change (`pct_change() * 100`).
  // ---------------------------------------------------------------------------

  /** Growth of `cur` over `prev` in percent; undefined when `prev` is zero. */
  function Growth(prev: real, cur: real): Option<real> {
    if prev == 0.0 then None else Some((cur / prev - 1.0) * 100.0)
  }

  /** Growth is defined exactly when the previous value is non-zero, and then
      the current value is the previous one grown by that percentage. */
  lemma GrowthRoundTrip(prev: real, cur: real)
    ensures Growth(prev, cur).None? <==> prev == 0.0
    ensures Growth(prev, cur).Some? ==> cur == prev * (1.0 + Growth(prev, cur).value / 100.0)
  {
  }

  /** Growing a non-zero value by `g` percent is read back as growth `g`. */
  lemma GrowthOfGrown(prev: real, g: real, cur: real)
    requires prev != 0.0 && cur == prev * (1.0 + g / 100.0)
    ensures Growth(prev, cur) == Some(g)
  {
    var x := 1.0 + g / 100.0;
    var q := cur / prev;
    assert q * prev == prev * x;
    assert prev * (q - x) == 0.0;
  }

  /** The percentage change of a column: undefined for the first value, the
      growth over the previous value otherwise. */
  function PctChange(xs: seq<real>): (r: seq<Option<real>>)
    ensures |r| == |xs|
  {
    if |xs| <= 1 then seq(|xs|, t => None)
    else
      var n := |xs| - 1;
      PctChange(xs[..n]) + [Growth(xs[n - 1], xs[n])]
  }

  /** The first percentage change is undefined and every later one is the
      growth over the previous value. */
  lemma {:induction false} PctChangeValues(xs: seq<real>)
    ensures |xs| > 0 ==> PctChange(xs)[0] == None
    ensures forall t {:trigger PctChange(xs)[t]} :: 0 < t < |xs| ==> PctChange(xs)[t] == Growth(xs[t - 1], xs[t])
    decreases |xs|
  {
    if |xs| > 1 {
      var n := |xs| - 1;
      var pre := xs[..n];
      PctChangeValues(pre);
      assert forall t :: 0 <= t < n ==> pre[t] == xs[t];
      assert forall t :: 0 <= t < n ==> PctChange(xs)[t] == PctChange(pre)[t];
    }
  }

  // ---------------------------------------------------------------------------
  // Monthly sums per identifier.
  // ---------------------------------------------------------------------------

  /** The two summed columns. */
  datatype Measure = Revenue | Quantity

  function Value(r: DashRow, f: Measure): real {
    match f
    case Revenue => r.revenue
    case Quantity => r.quantity
  }

  /** The sum of `f` over the rows of identifier `id`. */
  function IdSum(rows: seq<DashRow>, id: string, f: Measure): real {
    if rows == [] then 0.0
    else
      var n := |rows| - 1;
      IdSum(rows[..n], id, f) + (if rows[n].identifier == id then Value(rows[n], f) else 0.0)
  }

  /** The sum of `f` over the rows of identifier `id` in month `m`. */
  function MonthSum(rows: seq<DashRow>, monthOf: int -> int, id: string, m: int, f: Measure): real {
    if rows == [] then 0.0
    else
      var n := |rows| - 1;
      MonthSum(rows[..n], monthOf, id, m, f)
        + (if rows[n].identifier == id && monthOf(rows[n].date) == m then Value(rows[n], f) else 0.0)
  }

  /** The months of the rows of identifier `id`, in row order. */
  function MonthsOf(rows: seq<DashRow>, monthOf: int -> int, id: string): (r: seq<int>)
    ensures forall m :: m in r <==> exists i :: 0 <= i < |rows| && rows[i].identifier == id && monthOf(rows[i].date) == m
  {
    if rows == [] then []
    else
      var n := |rows| - 1;
      var p := MonthsOf(rows[..n], monthOf, id);
      assert forall i :: 0 <= i < n ==> rows[..n][i] == rows[i];
      p + (if rows[n].identifier == id then [monthOf(rows[n].date)] else [])
  }

  function MinInt(s: seq<int>): (m: int)
    requires |s| > 0
    ensures m in s && forall i :: 0 <= i < |s| ==> m <= s[i]
  {
    if |s| == 1 then s[0]
    else
      var m := MinInt(s[..|s| - 1]);
      assert forall i :: 0 <= i < |s| - 1 ==> s[..|s| - 1][i] == s[i];
      if s[|s| - 1] < m then s[|s| - 1] else m
  }

  function MaxInt(s: seq<int>): (m: int)
    requires |s| > 0
    ensures m in s && forall i :: 0 <= i < |s| ==> s[i] <= m
  {
    if |s| == 1 then s[0]
    else
      var m := MaxInt(s[..|s| - 1]);
      assert forall i :: 0 <= i < |s| - 1 ==> s[..|s| - 1][i] == s[i];
      if s[|s| - 1] > m then s[|s| - 1] else m
  }

  /** The monthly sums of `f` for `count` months from `lo` on. */
  function MonthColumn(rows: seq<DashRow>, monthOf: int -> int, id: string, lo: int, count: nat, f: Measure): (r: seq<real>)
    ensures |r| == count && forall t :: 0 <= t < count ==> r[t] == MonthSum(rows, monthOf, id, lo + t, f)
  {
    var r := seq(count, t requires 0 <= t < count => MonthSum(rows, monthOf, id, lo + t, f));
    assert forall t :: 0 <= t < count ==> r[t] == MonthSum(rows, monthOf, id, lo + t, f);
    r
  }

  /** An identifier of the frame has at least one month. */
  lemma MonthsOfPresent(rows: seq<DashRow>, monthOf: int -> int, id: string)
    requires id in Identifiers(rows)
    ensures |MonthsOf(rows, monthOf, id)| > 0
  {
    var i :| 0 <= i < |rows| && Identifiers(rows)[i] == id;
    assert monthOf(rows[i].date) in MonthsOf(rows, monthOf, id);
  }

  /** A row of the monthly frame; its `year_month` column is the label of its
      month. */
  datatype MonthRow = MonthRow(identifier: string, month: int, revenue: real, quantity: real, growth: Option<real>)
  {
    function YearMonthLabel(): string {
      YearMonth(month)
    }
  }

  /** The months of identifier `id` from its first to its last, both
      included (`resample` fills the months in between with zero sums). */
  function FirstMonth(rows: seq<DashRow>, monthOf: int -> int, id: string): int
    requires id in Identifiers(rows)
  {
    MonthsOfPresent(rows, monthOf, id);
    MinInt(MonthsOf(rows, monthOf, id))
  }

  function LastMonth(rows: seq<DashRow>, monthOf: int -> int, id: string): int
    requires id in Identifiers(rows)
  {
    MonthsOfPresent(rows, monthOf, id);
    MaxInt(MonthsOf(rows, monthOf, id))
  }

  /** The number of months from the first to the last, both included. */
  function MonthSpan(rows: seq<DashRow>, monthOf: int -> int, id: string): (n: nat)
    requires id in Identifiers(rows)
    ensures n == LastMonth(rows, monthOf, id) - FirstMonth(rows, monthOf, id) + 1
  {
    var ms := MonthsOf(rows, monthOf, id);
    assert FirstMonth(rows, monthOf, id) in ms;
    LastMonth(rows, monthOf, id) - FirstMonth(rows, monthOf, id) + 1
  }

  /** Identifier `id`'s block of the monthly frame. */
  function MonthBlock(rows: seq<DashRow>, monthOf: int -> int, id: string): (b: seq<MonthRow>)
    requires id in Identifiers(rows)
    ensures var lo, count := FirstMonth(rows, monthOf, id), MonthSpan(rows, monthOf, id);
      var revs := MonthColumn(rows, monthOf, id, lo, count, Revenue);
      |b| == count &&
      forall t :: 0 <= t < count ==>
        b[t] == MonthOf(id, lo, revs, MonthColumn(rows, monthOf, id, lo, count, Quantity), PctChange(revs), t)
  {
    var lo, count := FirstMonth(rows, monthOf, id), MonthSpan(rows, monthOf, id);
    var revs := MonthColumn(rows, monthOf, id, lo, count, Revenue);
    var qtys := MonthColumn(rows, monthOf, id, lo, count, Quantity);
    var growth := PctChange(revs);
    var b := seq(count, t requires 0 <= t < count => MonthOf(id, lo, revs, qtys, growth, t));
    assert forall t :: 0 <= t < count ==> b[t] == MonthOf(id, lo, revs, qtys, growth, t);
    b
  }

  /** Row `t` of a block starting at month `lo`. */
  function MonthOf(
    id: string, lo: int, revs: seq<real>, qtys: seq<real>, growth: seq<Option<real>>, t: nat
  ): MonthRow
    requires t < |revs| && t < |qtys| && t < |growth|
  {
    MonthRow(id, lo + t, revs[t], qtys[t], growth[t])
  }

  // ---------------------------------------------------------------------------
  // The monthly frame.
  // ---------------------------------------------------------------------------

  datatype MomFrame = MomFrame(columns: seq<string>, rows: seq<MonthRow>)

  const EmptyMomColumns: seq<string> := ["date", "identifier", "revenue", "quantity", "year_month", "mom_growth_pct"]
  const MomColumns: seq<string> := ["identifier", "date", "revenue", "quantity", "year_month", "mom_growth_pct"]

  /** The identifiers in ascending order (the group order of `groupby`). */
  function IdentifierGroups(rows: seq<DashRow>): (r: seq<string>)
    ensures forall id :: id in r <==> id in Identifiers(rows)
  {
    SortedSet(Identifiers(rows), StrLt)
  }

  /** The groups are the identifiers in strictly ascending order, so the
      frame holds one block per identifier and the blocks come in identifier
      order. */
  lemma IdentifierGroupsAscending(rows: seq<DashRow>)
    ensures StrictlySorted(IdentifierGroups(rows), StrLt)
  {
    StrLtStrictTotal();
    SortedSetSorted(Identifiers(rows), StrLt);
  }

  function MomBlocks(rows: seq<DashRow>, monthOf: int -> int): (b: seq<seq<MonthRow>>)
    ensures |b| == |IdentifierGroups(rows)|
    ensures forall k :: 0 <= k < |b| ==> b[k] == MonthBlock(rows, monthOf, IdentifierGroups(rows)[k])
  {
    var ids := IdentifierGroups(rows);
    var b := seq(|ids|, k requires 0 <= k < |ids| => MonthBlock(rows, monthOf, ids[k]));
    assert forall k :: 0 <= k < |b| ==> b[k] == MonthBlock(rows, monthOf, ids[k]);
    b
  }

  /** `calculate_mom_growth`: an empty frame with the fixed columns for empty
      input, otherwise the identifiers' monthly blocks one after another. */
  function CalculateMomGrowth(rows: seq<DashRow>, monthOf: int -> int): MomFrame {
    if rows == [] then MomFrame(EmptyMomColumns, [])
    else MomFrame(MomColumns, Flatten(MomBlocks(rows, monthOf)))
  }

  // ---------------------------------------------------------------------------
  // Properties.
  // ---------------------------------------------------------------------------

  /** Empty input gives a frame with no rows; with or without rows the frame
      has the same six columns (in a different order). */
  lemma MomColumnsFixed(rows: seq<DashRow>, monthOf: int -> int)
    ensures rows == [] ==> CalculateMomGrowth(rows, monthOf).rows == []
    ensures multiset(CalculateMomGrowth(rows, monthOf).columns) == multiset(MomColumns)
  {
    assert EmptyMomColumns == [MomColumns[1], MomColumns[0]] + MomColumns[2..];
    SwapFront(MomColumns);
  }

  /** Swapping the first two elements keeps the multiset. */
  lemma SwapFront<T>(s: seq<T>)
    requires |s| >= 2
    ensures multiset([s[1], s[0]] + s[2..]) == multiset(s)
  {
    assert s == [s[0], s[1]] + s[2..];
  }

  /** The first and last months of an identifier are months in which it has
      a row, and every row of it falls between them. */
  lemma MonthRange(rows: seq<DashRow>, monthOf: int -> int, id: string)
    requires id in Identifiers(rows)
    ensures var lo, hi := FirstMonth(rows, monthOf, id), LastMonth(rows, monthOf, id);
      && (forall i :: 0 <= i < |rows| && rows[i].identifier == id ==> lo <= monthOf(rows[i].date) <= hi)
      && (exists i :: 0 <= i < |rows| && rows[i].identifier == id && monthOf(rows[i].date) == lo)
      && (exists i :: 0 <= i < |rows| && rows[i].identifier == id && monthOf(rows[i].date) == hi)
  {
    var ms := MonthsOf(rows, monthOf, id);
    var lo, hi := FirstMonth(rows, monthOf, id), LastMonth(rows, monthOf, id);
    forall i | 0 <= i < |rows| && rows[i].identifier == id ensures lo <= monthOf(rows[i].date) <= hi {
      assert monthOf(rows[i].date) in ms;
    }
    assert lo in ms && hi in ms;
  }

  /** An identifier's block has one row per month from its first to its last
      month, in order, each holding the month's revenue and quantity sums. */
  lemma MonthBlockRows(rows: seq<DashRow>, monthOf: int -> int, id: string)
    requires id in Identifiers(rows)
    ensures var b := MonthBlock(rows, monthOf, id);
      var lo, hi := FirstMonth(rows, monthOf, id), LastMonth(rows, monthOf, id);
      && |b| == hi - lo + 1
      && (forall t :: 0 <= t < |b| ==>
            b[t].identifier == id && b[t].month == lo + t &&
            b[t].revenue == MonthSum(rows, monthOf, id, lo + t, Revenue) &&
            b[t].quantity == MonthSum(rows, monthOf, id, lo + t, Quantity))
  {
    var lo, count := FirstMonth(rows, monthOf, id), MonthSpan(rows, monthOf, id);
    var revs := MonthColumn(rows, monthOf, id, lo, count, Revenue);
    var qtys := MonthColumn(rows, monthOf, id, lo, count, Quantity);
    BlockFields(id, lo, revs, qtys, MonthBlock(rows, monthOf, id));
  }

  /** The first month of a block has no growth and every later one the
      growth of its revenue over the previous month's. */
  lemma MonthBlockGrowth(rows: seq<DashRow>, monthOf: int -> int, id: string)
    requires id in Identifiers(rows)
    ensures var b := MonthBlock(rows, monthOf, id);
      && b[0].growth == None
      && (forall t :: 0 < t < |b| ==> b[t].growth == Growth(b[t - 1].revenue, b[t].revenue))
  {
    var lo, count := FirstMonth(rows, monthOf, id), MonthSpan(rows, monthOf, id);
    var revs := MonthColumn(rows, monthOf, id, lo, count, Revenue);
    var qtys := MonthColumn(rows, monthOf, id, lo, count, Quantity);
    BlockGrowth(id, lo, revs, qtys, MonthBlock(rows, monthOf, id));
  }

  /** The fields of a block built from columns `revs` and `qtys`. */
  lemma BlockFields(id: string, lo: int, revs: seq<real>, qtys: seq<real>, b: seq<MonthRow>)
    requires |b| == |revs| == |qtys|
    requires forall t :: 0 <= t < |b| ==> b[t] == MonthOf(id, lo, revs, qtys, PctChange(revs), t)
    ensures forall t :: 0 <= t < |b| ==>
      b[t].identifier == id && b[t].month == lo + t &&
      b[t].revenue == revs[t] && b[t].quantity == qtys[t]
  {
  }

  /** The growth column of a block built from the revenue column `revs`. */
  lemma BlockGrowth(id: string, lo: int, revs: seq<real>, qtys: seq<real>, b: seq<MonthRow>)
    requires |b| == |revs| == |qtys| > 0
    requires forall t :: 0 <= t < |b| ==> b[t] == MonthOf(id, lo, revs, qtys, PctChange(revs), t)
    ensures b[0].growth == None
    ensures forall t :: 0 < t < |b| ==> b[t].growth == Growth(b[t - 1].revenue, b[t].revenue)
  {
    var growth := PctChange(revs);
    PctChangeValues(revs);
    assert b[0] == MonthOf(id, lo, revs, qtys, growth, 0);
    forall t | 0 < t < |b|
      ensures b[t].growth == Growth(b[t - 1].revenue, b[t].revenue)
    {
      assert b[t] == MonthOf(id, lo, revs, qtys, growth, t);
      assert b[t - 1] == MonthOf(id, lo, revs, qtys, growth, t - 1);
    }
  }

  /** The revenue and quantity columns of a block. */
  function MonthRevenues(b: seq<MonthRow>): (r: seq<real>)
    ensures |r| == |b| && forall t :: 0 <= t < |b| ==> r[t] == b[t].revenue
  {
    var r := seq(|b|, t requires 0 <= t < |b| => b[t].revenue);
    assert forall t :: 0 <= t < |b| ==> r[t] == b[t].revenue;
    r
  }

  function MonthQuantities(b: seq<MonthRow>): (r: seq<real>)
    ensures |r| == |b| && forall t :: 0 <= t < |b| ==> r[t] == b[t].quantity
  {
    var r := seq(|b|, t requires 0 <= t < |b| => b[t].quantity);
    assert forall t :: 0 <= t < |b| ==> r[t] == b[t].quantity;
    r
  }

  /** Summing a monthly column over a range of months that holds every row
      of the identifier gives the identifier's total. */
  lemma {:induction false} MonthColumnTotal(
    rows: seq<DashRow>, monthOf: int -> int, id: string, lo: int, count: nat, f: Measure)
    requires forall i :: 0 <= i < |rows| && rows[i].identifier == id ==> lo <= monthOf(rows[i].date) < lo + count
    ensures Sum(MonthColumn(rows, monthOf, id, lo, count, f)) == IdSum(rows, id, f)
    decreases |rows|
  {
    var col := MonthColumn(rows, monthOf, id, lo, count, f);
    if rows == [] {
      SumSpike(col, -1, 0.0);
    } else {
      var n := |rows| - 1;
      var pre, last := rows[..n], rows[n];
      assert forall i :: 0 <= i < |pre| ==> pre[i] == rows[i];
      MonthColumnTotal(pre, monthOf, id, lo, count, f);
      var colPre := MonthColumn(pre, monthOf, id, lo, count, f);
      var hit := last.identifier == id;
      var v := if hit then Value(last, f) else 0.0;
      var t := if hit then monthOf(last.date) - lo else -1;
      var spike := seq(count, i requires 0 <= i < count => col[i] - colPre[i]);
      forall i | 0 <= i < count
        ensures spike[i] == (if i == t then v else 0.0)
      {
        assert col[i] == colPre[i] + (if hit && monthOf(last.date) == lo + i then Value(last, f) else 0.0);
      }
      SumSpike(spike, t, v);
      SumSub(col, colPre, spike);
    }
  }

  /** Monthly resampling loses nothing: an identifier's monthly revenues and
      quantities add up to its total revenue and quantity. */
  lemma MonthBlockConserves(rows: seq<DashRow>, monthOf: int -> int, id: string)
    requires id in Identifiers(rows)
    ensures Sum(MonthRevenues(MonthBlock(rows, monthOf, id))) == IdSum(rows, id, Revenue)
    ensures Sum(MonthQuantities(MonthBlock(rows, monthOf, id))) == IdSum(rows, id, Quantity)
  {
    var b := MonthBlock(rows, monthOf, id);
    var lo, count := FirstMonth(rows, monthOf, id), MonthSpan(rows, monthOf, id);
    MonthRange(rows, monthOf, id);
    MonthBlockRows(rows, monthOf, id);
    assert MonthRevenues(b) == MonthColumn(rows, monthOf, id, lo, count, Revenue);
    assert MonthQuantities(b) == MonthColumn(rows, monthOf, id, lo, count, Quantity);
    MonthColumnTotal(rows, monthOf, id, lo, count, Revenue);
    MonthColumnTotal(rows, monthOf, id, lo, count, Quantity);
  }

  /** A row of identifier `id`'s block is one of its months with that
      month's sums. */
  lemma BlockRow(rows: seq<DashRow>, monthOf: int -> int, id: string, r: MonthRow)
    requires id in Identifiers(rows) && r in MonthBlock(rows, monthOf, id)
    ensures && r.identifier == id
      && FirstMonth(rows, monthOf, r.identifier) <= r.month <= LastMonth(rows, monthOf, r.identifier)
      && r.revenue == MonthSum(rows, monthOf, r.identifier, r.month, Revenue)
      && r.quantity == MonthSum(rows, monthOf, r.identifier, r.month, Quantity)
  {
    var b := MonthBlock(rows, monthOf, id);
    var lo, count := FirstMonth(rows, monthOf, id), MonthSpan(rows, monthOf, id);
    var revs := MonthColumn(rows, monthOf, id, lo, count, Revenue);
    var qtys := MonthColumn(rows, monthOf, id, lo, count, Quantity);
    BlockFields(id, lo, revs, qtys, b);
    var t := RowOfColumns(id, lo, revs, qtys, b, r);
    SumAt(rows, monthOf, id, lo, count, Revenue, t, r.month);
    SumAt(rows, monthOf, id, lo, count, Quantity, t, r.month);
  }

  /** Entry `t` of a monthly column is the sum of month `m` = `lo + t`. */
  lemma SumAt(rows: seq<DashRow>, monthOf: int -> int, id: string, lo: int, count: nat, f: Measure, t: nat, m: int)
    requires t < count && m == lo + t
    ensures MonthColumn(rows, monthOf, id, lo, count, f)[t] == MonthSum(rows, monthOf, id, m, f)
  {
  }

  /** A row of a block built from columns `revs` and `qtys` is the row of
      its month. */
  lemma RowOfColumns(id: string, lo: int, revs: seq<real>, qtys: seq<real>, b: seq<MonthRow>, r: MonthRow)
    returns (t: nat)
    requires |b| == |revs| == |qtys| && r in b
    requires forall t :: 0 <= t < |b| ==>
      b[t].identifier == id && b[t].month == lo + t && b[t].revenue == revs[t] && b[t].quantity == qtys[t]
    ensures t < |b| && r.identifier == id && r.month == lo + t && r.revenue == revs[t] && r.quantity == qtys[t]
  {
    t := IndexOf(b, r);
  }

  /** The frame has a row for identifier `id` in month `m`. */
  predicate HasMonth(f: seq<MonthRow>, id: string, m: int) {
    exists r :: r in f && r.identifier == id && r.month == m
  }

  /** For non-empty input every row of the frame is a month of one of the
      identifiers, between its first and last month, with that month's
      sums. */
  lemma MomFrameRows(rows: seq<DashRow>, monthOf: int -> int)
    requires rows != []
    ensures CalculateMomGrowth(rows, monthOf).columns == MomColumns
    ensures forall r :: r in CalculateMomGrowth(rows, monthOf).rows ==>
      && r.identifier in Identifiers(rows)
      && FirstMonth(rows, monthOf, r.identifier) <= r.month <= LastMonth(rows, monthOf, r.identifier)
      && r.revenue == MonthSum(rows, monthOf, r.identifier, r.month, Revenue)
      && r.quantity == MonthSum(rows, monthOf, r.identifier, r.month, Quantity)
  {
    var ids := IdentifierGroups(rows);
    var blocks := MomBlocks(rows, monthOf);
    forall r: MonthRow | r in Flatten(blocks)
      ensures r.identifier in Identifiers(rows)
      ensures FirstMonth(rows, monthOf, r.identifier) <= r.month <= LastMonth(rows, monthOf, r.identifier)
      ensures r.revenue == MonthSum(rows, monthOf, r.identifier, r.month, Revenue)
      ensures r.quantity == MonthSum(rows, monthOf, r.identifier, r.month, Quantity)
    {
      FlattenFrom(blocks, r);
      var k :| 0 <= k < |blocks| && r in blocks[k];
      var id := ids[k];
      AtIndexIn(ids, k, id);
      assert blocks[k] == MonthBlock(rows, monthOf, id);
      BlockRow(rows, monthOf, id, r);
    }
  }

  /** For non-empty input every month of every identifier from its first to
      its last month has a row in the frame. */
  lemma MomFrameCovers(rows: seq<DashRow>, monthOf: int -> int)
    requires rows != []
    ensures forall id, m :: id in Identifiers(rows) && FirstMonth(rows, monthOf, id) <= m <= LastMonth(rows, monthOf, id) ==>
      HasMonth(CalculateMomGrowth(rows, monthOf).rows, id, m)
  {
    var ids := IdentifierGroups(rows);
    var blocks := MomBlocks(rows, monthOf);
    forall id, m | id in Identifiers(rows) && FirstMonth(rows, monthOf, id) <= m <= LastMonth(rows, monthOf, id)
      ensures HasMonth(Flatten(blocks), id, m)
    {
      var k :| 0 <= k < |ids| && ids[k] == id;
      var b := blocks[k];
      assert b == MonthBlock(rows, monthOf, id);
      var t := BlockHasMonth(rows, monthOf, id, m);
      FlattenHas(blocks, k, b[t]);
      assert b[t] in Flatten(blocks) && b[t].identifier == id && b[t].month == m;
    }
  }

  /** The block of identifier `id` has a row for every month from its first
      to its last. */
  lemma BlockHasMonth(rows: seq<DashRow>, monthOf: int -> int, id: string, m: int) returns (t: nat)
    requires id in Identifiers(rows) && FirstMonth(rows, monthOf, id) <= m <= LastMonth(rows, monthOf, id)
    ensures var b := MonthBlock(rows, monthOf, id);
      t < |b| && b[t].identifier == id && b[t].month == m
  {
    MonthBlockRows(rows, monthOf, id);
    t := m - FirstMonth(rows, monthOf, id);
  }
}
