/** The ingestion stage: both raw files must exist, carry their required
    columns, and pass the per-column value checks; the loaded tables are
    then handed on as they are. */
module Ingestion {
  import opened Common

  /** A loaded table: its column names in file order, and for each column
      its cells top to bottom (`None` for an empty or NaN cell). */
  datatype Table = Table(columns: seq<string>, cells: map<string, seq<Option<real>>>)

  datatype Source = SalesFile | InventoryFile

  datatype IngestionError =
    | FileNotFound(file: Source)
    | MissingColumns(file: Source, missing: seq<string>)
    | ValidationFailed(file: Source, column: string)

  datatype Loaded = Loaded(sales: Table, inventory: Table)

  /** The two value predicates the stage applies: `x > 0` and `x >= 0`. */
  datatype Check = Positive | NonNegative

  const SalesRequired: seq<string> := ["sale_id", "product_id", "date", "quantity", "unit_price", "revenue"]

  const InventoryRequired: seq<string> :=
    ["product_id", "date", "stock_on_hand", "reorder_point", "lead_time_days", "unit_cost"]

  /** The sales checks, in the order they are applied. */
  const SalesChecks: seq<(string, Check)> :=
    [("sale_id", Positive), ("product_id", Positive), ("quantity", NonNegative), ("unit_price", Positive)]

  /** The inventory checks, in the order they are applied. */
  const InventoryChecks: seq<(string, Check)> :=
    [("product_id", Positive), ("stock_on_hand", NonNegative), ("reorder_point", Positive),
     ("lead_time_days", NonNegative), ("unit_cost", Positive)]

  function ColumnValues(t: Table, c: string): seq<Option<real>> {
    if c in t.cells then t.cells[c] else []
  }

  /** A NaN cell compares false, so it fails both checks. */
  predicate Passes(check: Check, v: Option<real>) {
    match check
    case Positive => v.Some? && v.value > 0.0
    case NonNegative => v.Some? && v.value >= 0.0
  }

  /** `df[col].apply(check).all()`. */
  predicate ColumnPasses(t: Table, c: string, check: Check) {
    forall i :: 0 <= i < |ColumnValues(t, c)| ==> Passes(check, ColumnValues(t, c)[i])
  }

  // ---------------------------------------------------------------------
  // Value checks
  // ---------------------------------------------------------------------

  /** The first check, in order, whose column fails. */
  function FirstFailing(t: Table, checks: seq<(string, Check)>): (r: Option<string>)
    ensures r.Some? ==> r.value in ColumnsOf(checks)
  {
    if checks == [] then None
    else if !ColumnPasses(t, checks[0].0, checks[0].1) then Some(checks[0].0)
    else FirstFailing(t, checks[1..])
  }

  function ColumnsOf(checks: seq<(string, Check)>): set<string> {
    set k | 0 <= k < |checks| :: checks[k].0
  }

  /** No failure is found exactly when every check holds; a found column is
      the first in check order whose check fails. */
  lemma {:induction false} FirstFailingMeaning(t: Table, checks: seq<(string, Check)>)
    ensures FirstFailing(t, checks).None? <==> forall k :: 0 <= k < |checks| ==> ColumnPasses(t, checks[k].0, checks[k].1)
    ensures FirstFailing(t, checks).Some? ==> exists k :: (0 <= k < |checks| && checks[k].0 == FirstFailing(t, checks).value &&
      !ColumnPasses(t, checks[k].0, checks[k].1) &&
      forall j :: 0 <= j < k ==> ColumnPasses(t, checks[j].0, checks[j].1))
  {
    if checks != [] && ColumnPasses(t, checks[0].0, checks[0].1) {
      var tail := checks[1..];
      FirstFailingMeaning(t, tail);
      assert forall k :: 1 <= k < |checks| ==> checks[k] == tail[k - 1];
      var r := FirstFailing(t, tail);
      if r.Some? {
        var k :| 0 <= k < |tail| && tail[k].0 == r.value &&
          !ColumnPasses(t, tail[k].0, tail[k].1) &&
          forall j :: 0 <= j < k ==> ColumnPasses(t, tail[j].0, tail[j].1);
        assert checks[k + 1].0 == r.value;
      }
    }
  }

  /** One column against one check, cell by cell. */
  method CheckColumn(t: Table, c: string, check: Check) returns (ok: bool)
    ensures ok == ColumnPasses(t, c, check)
  {
    var values := ColumnValues(t, c);
    ok := true;
    var i := 0;
    while i < |values|
      invariant 0 <= i <= |values|
      invariant ok <==> forall k :: 0 <= k < i ==> Passes(check, values[k])
    {
      if !Passes(check, values[i]) {
        ok := false;
      }
      i := i + 1;
    }
  }

  /** The loop over the check table, stopping at the first failure. */
  method FindFailing(t: Table, checks: seq<(string, Check)>) returns (r: Option<string>)
    ensures r == FirstFailing(t, checks)
  {
    var k := 0;
    while k < |checks|
      invariant 0 <= k <= |checks|
      invariant FirstFailing(t, checks) == FirstFailing(t, checks[k..])
    {
      var ok := CheckColumn(t, checks[k].0, checks[k].1);
      assert checks[k..][1..] == checks[k + 1..];
      if !ok {
        return Some(checks[k].0);
      }
      k := k + 1;
    }
    r := None;
  }

  // ---------------------------------------------------------------------
  // The stage
  // ---------------------------------------------------------------------

  /** run_ingestion as a value; whether each file exists is an input. */
  function Ingest(salesExists: bool, inventoryExists: bool, sales: Table, inventory: Table)
    : Result<Loaded, IngestionError>
  {
    var missingSales := MissingFrom(SalesRequired, sales.columns);
    var missingInventory := MissingFrom(InventoryRequired, inventory.columns);
    var failingSales := FirstFailing(sales, SalesChecks);
    var failingInventory := FirstFailing(inventory, InventoryChecks);
    if !salesExists then Err(FileNotFound(SalesFile))
    else if !inventoryExists then Err(FileNotFound(InventoryFile))
    else if missingSales != [] then Err(MissingColumns(SalesFile, missingSales))
    else if missingInventory != [] then Err(MissingColumns(InventoryFile, missingInventory))
    else if failingSales.Some? then Err(ValidationFailed(SalesFile, failingSales.value))
    else if failingInventory.Some? then Err(ValidationFailed(InventoryFile, failingInventory.value))
    else Ok(Loaded(sales, inventory))
  }

  /** Every sales row meets sale_id > 0, product_id > 0, quantity >= 0 and
      unit_price > 0. */
  predicate SalesValid(t: Table) {
    && ColumnPasses(t, "sale_id", Positive)
    && ColumnPasses(t, "product_id", Positive)
    && ColumnPasses(t, "quantity", NonNegative)
    && ColumnPasses(t, "unit_price", Positive)
  }

  /** Every inventory row meets product_id > 0, stock_on_hand >= 0,
      reorder_point > 0, lead_time_days >= 0 and unit_cost > 0. */
  predicate InventoryValid(t: Table) {
    && ColumnPasses(t, "product_id", Positive)
    && ColumnPasses(t, "stock_on_hand", NonNegative)
    && ColumnPasses(t, "reorder_point", Positive)
    && ColumnPasses(t, "lead_time_days", NonNegative)
    && ColumnPasses(t, "unit_cost", Positive)
  }

  /** The sales check table finds no failure exactly when the sales rows
      are valid. */
  lemma {:induction false} SalesChecksMeaning(t: Table)
    ensures FirstFailing(t, SalesChecks).None? <==> SalesValid(t)
  {
    var c := SalesChecks;
    FirstFailingMeaning(t, c);
    assert c[0] == ("sale_id", Positive) && c[1] == ("product_id", Positive);
    assert c[2] == ("quantity", NonNegative) && c[3] == ("unit_price", Positive);
    if SalesValid(t) {
      forall k | 0 <= k < |c| ensures ColumnPasses(t, c[k].0, c[k].1) {
        assert k == 0 || k == 1 || k == 2 || k == 3;
      }
    }
  }

  /** The inventory check table finds no failure exactly when the
      inventory rows are valid. */
  lemma {:induction false} InventoryChecksMeaning(t: Table)
    ensures FirstFailing(t, InventoryChecks).None? <==> InventoryValid(t)
  {
    var c := InventoryChecks;
    FirstFailingMeaning(t, c);
    assert c[0] == ("product_id", Positive) && c[1] == ("stock_on_hand", NonNegative);
    assert c[2] == ("reorder_point", Positive) && c[3] == ("lead_time_days", NonNegative);
    assert c[4] == ("unit_cost", Positive);
    if InventoryValid(t) {
      forall k | 0 <= k < |c| ensures ColumnPasses(t, c[k].0, c[k].1) {
        assert k == 0 || k == 1 || k == 2 || k == 3 || k == 4;
      }
    }
  }

  /** The stage succeeds exactly when both files exist, every required
      column is present and every value check holds; it then returns the
      tables unchanged, so their row counts are those loaded. */
  lemma {:induction false} IngestSucceeds(salesExists: bool, inventoryExists: bool, sales: Table, inventory: Table)
    ensures var r := Ingest(salesExists, inventoryExists, sales, inventory);
      && (r.Ok? <==>
            && salesExists && inventoryExists
            && (forall c :: c in SalesRequired ==> c in sales.columns)
            && (forall c :: c in InventoryRequired ==> c in inventory.columns)
            && SalesValid(sales) && InventoryValid(inventory))
      && (r.Ok? ==> r.value.sales == sales && r.value.inventory == inventory)
  {
    MissingFromMeaning(SalesRequired, sales.columns);
    MissingFromMeaning(InventoryRequired, inventory.columns);
    var s := FirstFailing(sales, SalesChecks);
    var v := FirstFailing(inventory, InventoryChecks);
    SalesChecksMeaning(sales);
    InventoryChecksMeaning(inventory);
  }

  /** A missing-columns error names exactly the absent required columns of
      its file, and inventory columns are only reported once the sales
      columns are complete. */
  lemma {:induction false} MissingColumnsReported(salesExists: bool, inventoryExists: bool, sales: Table, inventory: Table, c: string)
    requires Ingest(salesExists, inventoryExists, sales, inventory).Err?
    requires Ingest(salesExists, inventoryExists, sales, inventory).error.MissingColumns?
    ensures var e := Ingest(salesExists, inventoryExists, sales, inventory).error;
      && e.missing != []
      && (e.file == SalesFile ==> (c in e.missing <==> c in SalesRequired && c !in sales.columns))
      && (e.file == InventoryFile ==>
            && (forall x :: x in SalesRequired ==> x in sales.columns)
            && (c in e.missing <==> c in InventoryRequired && c !in inventory.columns))
  {
    MissingFromMeaning(SalesRequired, sales.columns);
    MissingFromMeaning(InventoryRequired, inventory.columns);
  }

  /** A failed value check names the first failing column of its file in
      check order; the sales checks all passed before an inventory check is
      reported. */
  lemma {:induction false} ValidationReported(salesExists: bool, inventoryExists: bool, sales: Table, inventory: Table)
    requires Ingest(salesExists, inventoryExists, sales, inventory).Err?
    requires Ingest(salesExists, inventoryExists, sales, inventory).error.ValidationFailed?
    ensures var e := Ingest(salesExists, inventoryExists, sales, inventory).error;
      var checks := if e.file == SalesFile then SalesChecks else InventoryChecks;
      var t := if e.file == SalesFile then sales else inventory;
      && (e.file == InventoryFile ==> SalesValid(sales))
      && exists k :: (0 <= k < |checks| && checks[k].0 == e.column && !ColumnPasses(t, checks[k].0, checks[k].1) &&
           forall j :: 0 <= j < k ==> ColumnPasses(t, checks[j].0, checks[j].1))
  {
    IngestSucceeds(salesExists, inventoryExists, sales, inventory);
    var s := FirstFailing(sales, SalesChecks);
    SalesChecksMeaning(sales);
    FirstFailingMeaning(sales, SalesChecks);
    FirstFailingMeaning(inventory, InventoryChecks);
  }

  /** run_ingestion after the files have been read. */
  method RunIngestion(salesExists: bool, inventoryExists: bool, sales: Table, inventory: Table)
    returns (r: Result<Loaded, IngestionError>)
    ensures r == Ingest(salesExists, inventoryExists, sales, inventory)
  {
    if !salesExists {
      return Err(FileNotFound(SalesFile));
    }
    if !inventoryExists {
      return Err(FileNotFound(InventoryFile));
    }
    var missingSales := MissingFrom(SalesRequired, sales.columns);
    var missingInventory := MissingFrom(InventoryRequired, inventory.columns);
    if missingSales != [] {
      return Err(MissingColumns(SalesFile, missingSales));
    }
    if missingInventory != [] {
      return Err(MissingColumns(InventoryFile, missingInventory));
    }
    var failing := FindFailing(sales, SalesChecks);
    if failing.Some? {
      return Err(ValidationFailed(SalesFile, failing.value));
    }
    failing := FindFailing(inventory, InventoryChecks);
    if failing.Some? {
      return Err(ValidationFailed(InventoryFile, failing.value));
    }
    r := Ok(Loaded(sales, inventory));
  }
}
