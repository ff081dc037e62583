/** Data preparation of the enhanced dashboard: the gap-free daily grid per
    product-region combination, its chart identifier, the rolling and
    cumulative revenue per identifier and the month-over-month growth. */
module Dashboard {
  import opened Common
  import opened Ordering
  import opened Rolling

  // ---------------------------------------------------------------------------
  // Chart identifier "product (region)" (`astype(str)` of the product id).
  // ---------------------------------------------------------------------------

  function DigitChar(d: nat): (c: char)
    requires d < 10
    ensures '0' <= c <= '9' && c as int - '0' as int == d
  {
    ('0' as int + d) as char
  }

  /** Decimal digits of `n`, most significant first. */
  function NatToString(n: nat): (r: string)
    ensures |r| >= 1 && (n >= 10 ==> |r| >= 2)
    ensures forall i :: 0 <= i < |r| ==> '0' <= r[i] <= '9'
    decreases n
  {
    if n < 10 then [DigitChar(n)] else NatToString(n / 10) + [DigitChar(n % 10)]
  }

  /** Python's `str` of an int. */
  function IntToString(n: int): (r: string)
    ensures |r| >= 1 && forall i :: 0 <= i < |r| ==> r[i] != ' '
  {
    if n < 0 then "-" + NatToString(-n) else NatToString(n)
  }

  lemma {:induction false} NatToStringInjective(a: nat, b: nat)
    requires NatToString(a) == NatToString(b)
    ensures a == b
    decreases a
  {
    var s := NatToString(a);
    if a >= 10 && b >= 10 {
      assert s[|s| - 1] == DigitChar(a % 10) && s[|s| - 1] == DigitChar(b % 10);
      assert NatToString(a / 10) == s[..|s| - 1] == NatToString(b / 10);
      NatToStringInjective(a / 10, b / 10);
    }
  }

  /** Only negative numbers print with a leading '-'. */
  lemma SignChar(n: int)
    ensures IntToString(n)[0] == '-' <==> n < 0
  {
    if n >= 0 {
      assert '0' <= NatToString(n)[0] <= '9';
    }
  }

  /** Distinct product ids print differently. */
  lemma IntToStringInjective(a: int, b: int)
    requires IntToString(a) == IntToString(b)
    ensures a == b
  {
    SignChar(a);
    SignChar(b);
    if a < 0 {
      assert NatToString(-a) == IntToString(a)[1..] == NatToString(-b);
      NatToStringInjective(-a, -b);
    } else {
      NatToStringInjective(a, b);
    }
  }

  function Identifier(productId: int, region: string): string {
    IntToString(productId) + " (" + region + ")"
  }

  /** The first space of an identifier follows the product id. */
  lemma FirstSpace(p: int, r: string)
    ensures var s := IntToString(p);
      |s| < |Identifier(p, r)| && Identifier(p, r)[|s|] == ' ' &&
      forall k :: 0 <= k < |s| ==> Identifier(p, r)[k] != ' '
  {
    var s := IntToString(p);
    assert forall k :: 0 <= k < |s| ==> Identifier(p, r)[k] == s[k];
  }

  /** The identifier names its product-region combination unambiguously, so
      grouping by identifier is grouping by (product, region). */
  lemma IdentifierInjective(p1: int, r1: string, p2: int, r2: string)
    requires Identifier(p1, r1) == Identifier(p2, r2)
    ensures p1 == p2 && r1 == r2
  {
    var s1, s2 := IntToString(p1), IntToString(p2);
    var id := Identifier(p1, r1);
    FirstSpace(p1, r1);
    FirstSpace(p2, r2);
    assert |s1| == |s2|;
    assert s1 == id[..|s1|] == s2;
    IntToStringInjective(p1, p2);
    assert r1 == id[|s1| + 2..|id| - 1] == r2;
  }

  // ---------------------------------------------------------------------------
  // Gap filling.
  // ---------------------------------------------------------------------------

  /** A row of the loaded time series; dates are day numbers. */
  datatype SalesRow = SalesRow(
    date: int, productId: int, region: string, revenue: real, quantity: real, profit: real)

  /** A row of the dashboard frame. */
  datatype DashRow = DashRow(
    date: int, productId: int, region: string, revenue: real, quantity: real, profit: real,
    identifier: string)

  type Combo = (int, string)

  function ComboOf(r: SalesRow): Combo {
    (r.productId, r.region)
  }

  /** The distinct product-region combinations, in order of first appearance
      (`drop_duplicates`). */
  function Combos(rows: seq<SalesRow>): (r: seq<Combo>)
    ensures Distinct(r)
    ensures forall c :: c in r <==> exists i :: 0 <= i < |rows| && ComboOf(rows[i]) == c
  {
    if rows == [] then []
    else
      var n := |rows| - 1;
      var p := Combos(rows[..n]);
      assert forall i :: 0 <= i < n ==> rows[..n][i] == rows[i];
      if ComboOf(rows[n]) in p then p else p + [ComboOf(rows[n])]
  }

  function MinDate(rows: seq<SalesRow>): (m: int)
    requires rows != []
    ensures forall i :: 0 <= i < |rows| ==> m <= rows[i].date
    ensures exists i :: 0 <= i < |rows| && rows[i].date == m
  {
    if |rows| == 1 then rows[0].date
    else
      var m := MinDate(rows[1..]);
      assert forall i :: 1 <= i < |rows| ==> rows[1..][i - 1] == rows[i];
      if rows[0].date <= m then rows[0].date else m
  }

  function MaxDate(rows: seq<SalesRow>): (m: int)
    requires rows != []
    ensures forall i :: 0 <= i < |rows| ==> rows[i].date <= m
    ensures exists i :: 0 <= i < |rows| && rows[i].date == m
  {
    if |rows| == 1 then rows[0].date
    else
      var m := MaxDate(rows[1..]);
      assert forall i :: 1 <= i < |rows| ==> rows[1..][i - 1] == rows[i];
      if rows[0].date >= m then rows[0].date else m
  }

  predicate HasKey(r: SalesRow, d: int, c: Combo) {
    r.date == d && ComboOf(r) == c
  }

  /** The loaded rows on day `d` for combination `c`, in row order. */
  function Matching(rows: seq<SalesRow>, d: int, c: Combo): seq<SalesRow> {
    if rows == [] then []
    else
      var n := |rows| - 1;
      Matching(rows[..n], d, c) + (if HasKey(rows[n], d, c) then [rows[n]] else [])
  }

  function ToDash(d: int, c: Combo, r: SalesRow): DashRow {
    DashRow(d, c.0, c.1, r.revenue, r.quantity, r.profit, Identifier(c.0, c.1))
  }

  /** The left merge of one grid cell with the loaded rows: the matching
      rows, or one row of zeros (`fillna(0)`) when none matches. */
  function FillCell(d: int, c: Combo, rows: seq<SalesRow>): seq<DashRow> {
    var m := Matching(rows, d, c);
    if m == [] then [DashRow(d, c.0, c.1, 0.0, 0.0, 0.0, Identifier(c.0, c.1))]
    else seq(|m|, i requires 0 <= i < |m| => ToDash(d, c, m[i]))
  }

  /** The (day, combination) keys of the full index: `count` days from `lo`
      on crossed with every combination, day by day (the cross join on a
      constant key keeps the order of the days). */
  function FullIndex(lo: int, count: nat, combos: seq<Combo>): (r: seq<(int, Combo)>)
    ensures |r| == count * |combos|
    ensures forall k :: k in r <==> lo <= k.0 < lo + count && k.1 in combos
    ensures forall a, b :: 0 <= a < b < |r| ==> r[a].0 <= r[b].0
  {
    if count == 0 then []
    else
      var d := lo + (count - 1);
      var front := FullIndex(lo, count - 1, combos);
      var day := seq(|combos|, j requires 0 <= j < |combos| => (d, combos[j]));
      assert forall j :: 0 <= j < |combos| ==> day[j] == (d, combos[j]);
      assert (count - 1) * |combos| + |combos| == count * |combos|;
      front + day
  }

  /** The left merge of the keys with the loaded rows: for each key in
      order, its block of matching rows or one row of zeros. */
  function LeftMerge(keys: seq<(int, Combo)>, rows: seq<SalesRow>): seq<DashRow> {
    Flatten(MergeBlocks(keys, rows))
  }

  function MergeBlocks(keys: seq<(int, Combo)>, rows: seq<SalesRow>): (b: seq<seq<DashRow>>)
    ensures |b| == |keys|
    ensures forall k :: 0 <= k < |keys| ==> b[k] == FillCell(keys[k].0, keys[k].1, rows)
  {
    var b := seq(|keys|, k requires 0 <= k < |keys| => FillCell(keys[k].0, keys[k].1, rows));
    assert forall k :: 0 <= k < |keys| ==> b[k] == FillCell(keys[k].0, keys[k].1, rows);
    b
  }

  /** Every day from the first to the last date crossed with every
      combination, left-merged with the loaded rows; an empty frame is
      returned as it is. */
  function FillMissingDates(rows: seq<SalesRow>): (r: seq<DashRow>)
    ensures rows == [] ==> r == []
  {
    if rows == [] then [] else LeftMerge(FullIndex(MinDate(rows), DaySpan(rows), Combos(rows)), rows)
  }

  /** The number of days from the first to the last date, both included. */
  function DaySpan(rows: seq<SalesRow>): (n: nat)
    requires rows != []
    ensures n == MaxDate(rows) - MinDate(rows) + 1
  {
    MaxDate(rows) - MinDate(rows) + 1
  }

  /** No two loaded rows share a (date, product, region) key. */
  predicate UniqueKeys(rows: seq<SalesRow>) {
    forall i, j :: 0 <= i < j < |rows| ==> rows[i].date != rows[j].date || ComboOf(rows[i]) != ComboOf(rows[j])
  }

  /** The index of the last loaded row with key (d, c), if any. */
  function KeyIndex(rows: seq<SalesRow>, d: int, c: Combo): (r: Option<nat>)
    ensures r.None? <==> forall i :: 0 <= i < |rows| ==> !HasKey(rows[i], d, c)
    ensures r.Some? ==> r.value < |rows| && HasKey(rows[r.value], d, c)
  {
    if rows == [] then None
    else if HasKey(rows[|rows| - 1], d, c) then Some(|rows| - 1)
    else KeyIndex(rows[..|rows| - 1], d, c)
  }

  /** The grid cell (d, c): the loaded row with that key, or zeros. */
  function Cell(d: int, c: Combo, rows: seq<SalesRow>): DashRow {
    match KeyIndex(rows, d, c)
    case None => DashRow(d, c.0, c.1, 0.0, 0.0, 0.0, Identifier(c.0, c.1))
    case Some(k) => ToDash(d, c, rows[k])
  }

  /** A cell carries its own day, product, region and identifier; it is zero
      when no loaded row has its key and, with unique keys, holds the values
      of the loaded row that has. */
  lemma CellValues(d: int, c: Combo, rows: seq<SalesRow>)
    ensures var r := Cell(d, c, rows);
      r.date == d && r.productId == c.0 && r.region == c.1 && r.identifier == Identifier(c.0, c.1)
    ensures (forall i :: 0 <= i < |rows| ==> !HasKey(rows[i], d, c)) ==>
      Cell(d, c, rows).revenue == 0.0 && Cell(d, c, rows).quantity == 0.0 && Cell(d, c, rows).profit == 0.0
    ensures forall i :: 0 <= i < |rows| && HasKey(rows[i], d, c) && UniqueKeys(rows) ==>
      Cell(d, c, rows) == ToDash(d, c, rows[i])
  {
  }

  /** The matching rows are exactly the rows with the key; with unique keys
      there is at most one. */
  lemma {:induction false} MatchingUnique(rows: seq<SalesRow>, d: int, c: Combo)
    ensures Matching(rows, d, c) == [] <==> forall i :: 0 <= i < |rows| ==> !HasKey(rows[i], d, c)
    ensures forall i :: 0 <= i < |rows| && HasKey(rows[i], d, c) && UniqueKeys(rows) ==>
      Matching(rows, d, c) == [rows[i]]
    decreases |rows|
  {
    if rows != [] {
      var n := |rows| - 1;
      var p := rows[..n];
      MatchingUnique(p, d, c);
      assert forall i :: 0 <= i < n ==> p[i] == rows[i];
      if UniqueKeys(rows) {
        assert UniqueKeys(p);
        if HasKey(rows[n], d, c) {
          assert forall i :: 0 <= i < n ==> !HasKey(p[i], d, c);
        }
      }
    }
  }

  lemma FillCellOne(d: int, c: Combo, rows: seq<SalesRow>)
    requires UniqueKeys(rows)
    ensures FillCell(d, c, rows) == [Cell(d, c, rows)]
  {
    MatchingUnique(rows, d, c);
    match KeyIndex(rows, d, c)
    case None =>
    case Some(k) =>
      assert Matching(rows, d, c) == [rows[k]];
  }

  /** The rows of a cell carry its day, combination and identifier. */
  lemma FillCellKeys(d: int, c: Combo, rows: seq<SalesRow>)
    ensures forall r :: r in FillCell(d, c, rows) ==>
      r.date == d && (r.productId, r.region) == c && r.identifier == Identifier(c.0, c.1)
  {
  }

  /** Every merged row carries a key of the index and the identifier of its
      combination. */
  lemma MergeKeys(keys: seq<(int, Combo)>, rows: seq<SalesRow>)
    ensures forall r :: r in LeftMerge(keys, rows) ==>
      (r.date, (r.productId, r.region)) in keys && r.identifier == Identifier(r.productId, r.region)
  {
    var blocks := MergeBlocks(keys, rows);
    forall r | r in LeftMerge(keys, rows)
      ensures (r.date, (r.productId, r.region)) in keys && r.identifier == Identifier(r.productId, r.region)
    {
      FlattenFrom(blocks, r);
      var k :| 0 <= k < |blocks| && r in blocks[k];
      FillCellKeys(keys[k].0, keys[k].1, rows);
    }
  }

  /** With unique keys the merge yields exactly one row per key: the grid
      cell of that key. */
  lemma MergeCells(keys: seq<(int, Combo)>, rows: seq<SalesRow>)
    requires UniqueKeys(rows)
    ensures |LeftMerge(keys, rows)| == |keys|
    ensures forall k :: 0 <= k < |keys| ==> LeftMerge(keys, rows)[k] == Cell(keys[k].0, keys[k].1, rows)
  {
    var blocks := MergeBlocks(keys, rows);
    forall k | 0 <= k < |keys| ensures blocks[k] == [Cell(keys[k].0, keys[k].1, rows)] {
      FillCellOne(keys[k].0, keys[k].1, rows);
    }
    FlattenSingles(blocks);
  }

  lemma AtIndexIn<T>(s: seq<T>, k: nat, x: T)
    requires k < |s| && s[k] == x
    ensures x in s
  {
  }

  /** With unique keys the cell of every key is a merged row. */
  lemma MergeHasCell(keys: seq<(int, Combo)>, rows: seq<SalesRow>, d: int, c: Combo)
    requires UniqueKeys(rows) && (d, c) in keys
    ensures Cell(d, c, rows) in LeftMerge(keys, rows)
  {
    MergeCells(keys, rows);
    var k :| 0 <= k < |keys| && keys[k] == (d, c);
    AtIndexIn(LeftMerge(keys, rows), k, Cell(d, c, rows));
  }

  /** Filled rows lie on the grid: a day between the first and the last
      date and a loaded combination, with its identifier. */
  lemma FillOnGrid(rows: seq<SalesRow>)
    ensures forall r :: r in FillMissingDates(rows) ==>
      MinDate(rows) <= r.date <= MaxDate(rows) && (r.productId, r.region) in Combos(rows) &&
      r.identifier == Identifier(r.productId, r.region)
  {
    if rows != [] {
      MergeKeys(FullIndex(MinDate(rows), DaySpan(rows), Combos(rows)), rows);
    }
  }

  /** With unique keys the filled frame has one row per (day, combination)
      of the full index, in its order, holding the loaded row of that key or
      zeros. */
  lemma FillMissingDatesCells(rows: seq<SalesRow>)
    requires rows != [] && UniqueKeys(rows)
    ensures var keys := FullIndex(MinDate(rows), DaySpan(rows), Combos(rows));
      |FillMissingDates(rows)| == DaySpan(rows) * |Combos(rows)| &&
      forall k :: 0 <= k < |keys| ==> FillMissingDates(rows)[k] == Cell(keys[k].0, keys[k].1, rows)
  {
    MergeCells(FullIndex(MinDate(rows), DaySpan(rows), Combos(rows)), rows);
  }

  /** Every cell of the grid is a row of the filled frame (unique keys). */
  lemma FillHasCell(rows: seq<SalesRow>, d: int, c: Combo)
    requires rows != [] && UniqueKeys(rows) && MinDate(rows) <= d <= MaxDate(rows) && c in Combos(rows)
    ensures Cell(d, c, rows) in FillMissingDates(rows)
  {
    var keys := FullIndex(MinDate(rows), DaySpan(rows), Combos(rows));
    assert (d, c) in keys;
    MergeHasCell(keys, rows, d, c);
  }

  /** Every loaded row survives the filling with its values (unique keys). */
  lemma FillKeepsRows(rows: seq<SalesRow>, k: nat)
    requires UniqueKeys(rows) && k < |rows|
    ensures ToDash(rows[k].date, ComboOf(rows[k]), rows[k]) in FillMissingDates(rows)
  {
    var d, c := rows[k].date, ComboOf(rows[k]);
    assert c in Combos(rows);
    FillHasCell(rows, d, c);
    CellValues(d, c, rows);
    assert HasKey(rows[k], d, c);
  }

  /** A (day, combination) of the grid that no loaded row has appears as a
      row of zeros (unique keys). */
  lemma FillZeroGap(rows: seq<SalesRow>, d: int, c: Combo)
    requires rows != [] && UniqueKeys(rows) && MinDate(rows) <= d <= MaxDate(rows) && c in Combos(rows)
    requires forall i :: 0 <= i < |rows| ==> !HasKey(rows[i], d, c)
    ensures DashRow(d, c.0, c.1, 0.0, 0.0, 0.0, Identifier(c.0, c.1)) in FillMissingDates(rows)
  {
    FillHasCell(rows, d, c);
  }

  // ---------------------------------------------------------------------------
  // Rolling and cumulative revenue per identifier.
  // ---------------------------------------------------------------------------

  /** The order of `sort_values(["identifier", "date"])`. */
  predicate IdDateBefore(a: DashRow, b: DashRow) {
    StrLt(a.identifier, b.identifier) || (a.identifier == b.identifier && a.date <= b.date)
  }

  lemma IdDateTotalPreorder()
    ensures TotalPreorder(IdDateBefore)
  {
    StrLtStrictTotal();
  }

  /** The frame sorted by identifier, then date. */
  function SortByIdDate(rows: seq<DashRow>): (r: seq<DashRow>)
    ensures multiset(r) == multiset(rows) && SortedBy(r, IdDateBefore)
  {
    IdDateTotalPreorder();
    SortBySorted(rows, IdDateBefore);
    SortBy(rows, IdDateBefore)
  }

  function Identifiers(rows: seq<DashRow>): (r: seq<string>)
    ensures |r| == |rows| && forall i :: 0 <= i < |rows| ==> r[i] == rows[i].identifier
  {
    seq(|rows|, i requires 0 <= i < |rows| => rows[i].identifier)
  }

  function Revenues(rows: seq<DashRow>): (r: seq<real>)
    ensures |r| == |rows| && forall i :: 0 <= i < |rows| ==> r[i] == rows[i].revenue
  {
    seq(|rows|, i requires 0 <= i < |rows| => rows[i].revenue)
  }

  /** A row of the sorted frame with an added column. */
  datatype Derived = Derived(row: DashRow, value: real)

  function RowsOf(d: seq<Derived>): (r: seq<DashRow>)
    ensures |r| == |d| && forall i :: 0 <= i < |d| ==> r[i] == d[i].row
  {
    seq(|d|, i requires 0 <= i < |d| => d[i].row)
  }

  function Attach(rows: seq<DashRow>, values: seq<real>): (r: seq<Derived>)
    requires |values| == |rows|
    ensures |r| == |rows| && forall i :: 0 <= i < |rows| ==> r[i] == Derived(rows[i], values[i])
  {
    seq(|rows|, i requires 0 <= i < |rows| => Derived(rows[i], values[i]))
  }

  lemma RowsOfAttach(rows: seq<DashRow>, values: seq<real>)
    requires |values| == |rows|
    ensures RowsOf(Attach(rows, values)) == rows
  {
    assert forall i :: 0 <= i < |rows| ==> RowsOf(Attach(rows, values))[i] == rows[i];
  }

  /** `rolling_revenue` over a sorted frame. */
  function RollingOf(s: seq<DashRow>, window: nat): seq<Derived>
    requires window >= 1
  {
    Attach(s, RollingMean(Identifiers(s), Revenues(s), window))
  }

  /** `cumulative_revenue` over a sorted frame. */
  function CumulativeOf(s: seq<DashRow>): seq<Derived> {
    Attach(s, CumulativeSum(Identifiers(s), Revenues(s)))
  }

  /** The sorted frame with `rolling_revenue`. */
  function ComputeRollingAvg(rows: seq<DashRow>, window: nat): seq<Derived>
    requires window >= 1
  {
    RollingOf(SortByIdDate(rows), window)
  }

  /** The sorted frame with `cumulative_revenue`. */
  function ComputeCumulativeRevenue(rows: seq<DashRow>): seq<Derived> {
    CumulativeOf(SortByIdDate(rows))
  }

  /** Rows of one identifier in order come in date order. */
  lemma SameIdBefore(a: DashRow, b: DashRow)
    requires IdDateBefore(a, b) && a.identifier == b.identifier
    ensures a.date <= b.date
  {
    StrLtIrreflexive(a.identifier);
  }

  /** A row placed between two rows of an identifier has it too. */
  lemma BetweenSameId(a: DashRow, m: DashRow, b: DashRow)
    requires IdDateBefore(a, m) && IdDateBefore(m, b) && a.identifier == b.identifier
    ensures m.identifier == a.identifier
  {
    if m.identifier != a.identifier {
      StrLtTransitive(m.identifier, b.identifier, m.identifier);
      StrLtIrreflexive(m.identifier);
    }
  }

  /** In a frame sorted by identifier the rows of one identifier are
      contiguous. */
  lemma Contiguous(s: seq<DashRow>, a: nat, m: nat, b: nat)
    requires SortedBy(s, IdDateBefore) && a < m < b < |s| && s[a].identifier == s[b].identifier
    ensures s[m].identifier == s[a].identifier
  {
    BetweenSameId(s[a], s[m], s[b]);
  }

  /** In a sorted frame the rolling value of a row is the mean of the
      revenues of the last min(k, window) rows of its identifier up to and
      including it, where k is its position within the identifier: they are
      rows of its identifier dated no later, its own revenue is the last of
      them, and the mean lies between their smallest and largest. */
  lemma RollingOfWindow(s: seq<DashRow>, window: nat, i: nat)
    requires SortedBy(s, IdDateBefore) && window >= 1 && i < |s|
    ensures var g := GroupValues(Identifiers(s)[..i + 1], Revenues(s)[..i + 1], s[i].identifier);
      var w := Trailing(g, window);
      && |g| >= 1 && g[|g| - 1] == s[i].revenue
      && |w| == (if |g| < window then |g| else window)
      && (forall x :: x in w ==>
            (exists j :: 0 <= j <= i && s[j].identifier == s[i].identifier && s[j].date <= s[i].date && s[j].revenue == x))
      && MinOf(w) <= RollingOf(s, window)[i].value <= MaxOf(w)
  {
    var keys, revs := Identifiers(s), Revenues(s);
    var col := RollingMean(keys, revs, window);
    assert RollingOf(s, window)[i].value == col[i] == RollingAt(keys, revs, window, i);
    RollingWindow(keys, revs, window, i);
    var g := GroupValues(keys[..i + 1], revs[..i + 1], keys[i]);
    var w := Trailing(g, window);
    forall x | x in w
      ensures exists j :: 0 <= j <= i && s[j].identifier == s[i].identifier && s[j].date <= s[i].date && s[j].revenue == x
    {
      var j :| 0 <= j <= i && keys[j] == keys[i] && revs[j] == x;
      if j < i {
        SameIdBefore(s[j], s[i]);
      }
    }
  }

  lemma RollingAvgWindow(rows: seq<DashRow>, window: nat, i: nat)
    requires window >= 1 && i < |rows|
    ensures var s := SortByIdDate(rows);
      var g := GroupValues(Identifiers(s)[..i + 1], Revenues(s)[..i + 1], s[i].identifier);
      var w := Trailing(g, window);
      && multiset(RowsOf(ComputeRollingAvg(rows, window))) == multiset(rows)
      && SortedBy(RowsOf(ComputeRollingAvg(rows, window)), IdDateBefore)
      && |g| >= 1 && g[|g| - 1] == s[i].revenue
      && |w| == (if |g| < window then |g| else window)
      && (forall x :: x in w ==>
            (exists j :: 0 <= j <= i && s[j].identifier == s[i].identifier && s[j].date <= s[i].date && s[j].revenue == x))
      && MinOf(w) <= ComputeRollingAvg(rows, window)[i].value <= MaxOf(w)
  {
    RollingOfWindow(SortByIdDate(rows), window, i);
    var s := SortByIdDate(rows);
    RowsOfAttach(s, RollingMean(Identifiers(s), Revenues(s), window));
  }

  /** In a sorted frame cumulative revenue is the running sum in date order
      within each identifier: the first row of an identifier carries its own
      revenue and every later row adds its revenue to the previous row's. */
  lemma CumulativeOfRunning(s: seq<DashRow>, i: nat)
    requires SortedBy(s, IdDateBefore) && i < |s|
    ensures && |CumulativeOf(s)| == |s| && RowsOf(CumulativeOf(s)) == s
      && (i == 0 || s[i - 1].identifier != s[i].identifier ==> CumulativeOf(s)[i].value == s[i].revenue)
      && (i > 0 && s[i - 1].identifier == s[i].identifier ==>
            CumulativeOf(s)[i].value == CumulativeOf(s)[i - 1].value + s[i].revenue)
  {
    var keys, revs := Identifiers(s), Revenues(s);
    if i > 0 && s[i - 1].identifier == s[i].identifier {
      CumulativeRunning(keys, revs, i - 1, i);
    } else {
      forall m | 0 <= m < i ensures keys[m] != keys[i] {
        if keys[m] == keys[i] {
          Contiguous(s, m, i - 1, i);
        }
      }
      CumulativeFirst(keys, revs, i);
    }
    RowsOfAttach(s, CumulativeSum(keys, revs));
  }

  lemma CumulativeRunningSum(rows: seq<DashRow>, i: nat)
    requires i < |rows|
    ensures var s := SortByIdDate(rows);
      var out := ComputeCumulativeRevenue(rows);
      && multiset(RowsOf(out)) == multiset(rows) && SortedBy(RowsOf(out), IdDateBefore)
      && (i == 0 || s[i - 1].identifier != s[i].identifier ==> out[i].value == s[i].revenue)
      && (i > 0 && s[i - 1].identifier == s[i].identifier ==> out[i].value == out[i - 1].value + s[i].revenue)
  {
    CumulativeOfRunning(SortByIdDate(rows), i);
  }

  /** The last row of an identifier carries the identifier's total revenue. */
  lemma CumulativeOfLast(s: seq<DashRow>, i: nat)
    requires SortedBy(s, IdDateBefore) && i < |s|
    requires i == |s| - 1 || s[i + 1].identifier != s[i].identifier
    ensures CumulativeOf(s)[i].value == Sum(GroupValues(Identifiers(s), Revenues(s), s[i].identifier))
  {
    var keys, revs := Identifiers(s), Revenues(s);
    forall m | i < m < |keys| ensures keys[m] != keys[i] {
      if keys[m] == keys[i] {
        Contiguous(s, i, i + 1, m);
      }
    }
    CumulativeTotal(keys, revs, i);
  }

  lemma CumulativeLastIsTotal(rows: seq<DashRow>, i: nat)
    requires i < |rows|
    requires var s := SortByIdDate(rows); i == |s| - 1 || s[i + 1].identifier != s[i].identifier
    ensures var s := SortByIdDate(rows);
      ComputeCumulativeRevenue(rows)[i].value == Sum(GroupValues(Identifiers(s), Revenues(s), s[i].identifier))
  {
    CumulativeOfLast(SortByIdDate(rows), i);
  }

  /** With non-negative revenue, cumulative revenue never falls within an
      identifier. */
  lemma CumulativeNonDecreasing(rows: seq<DashRow>, j: nat, i: nat)
    requires j < i < |rows|
    requires forall r :: r in rows ==> r.revenue >= 0.0
    requires var s := SortByIdDate(rows); s[j].identifier == s[i].identifier
    ensures ComputeCumulativeRevenue(rows)[j].value <= ComputeCumulativeRevenue(rows)[i].value
  {
    var s := SortByIdDate(rows);
    var keys, revs := Identifiers(s), Revenues(s);
    forall m | 0 <= m < |revs| ensures revs[m] >= 0.0 {
      assert s[m] in multiset(rows);
    }
    CumulativeMonotone(keys, revs, j, i);
  }
}
