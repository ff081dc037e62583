/** The SQL analytics layer: the statement splitter of `run_sql_file`, its
    loop that runs every statement in order, and the export of the first
    three results. The database is the parameter `execute`, which maps a
    statement to the table it returns; loading the CSV files into SQLite and
    writing the CSV outputs are not modelled. */
module SqlLayer {
  import opened Common

  // ---------------------------------------------------------------------------
  // Python's `str.split(sep)` and `str.join`.
  // ---------------------------------------------------------------------------

  /** The pieces after one more character: a separator opens a new piece,
      any other character extends the last one. */
  function Extend(r: seq<string>, c: char, sep: char): (r': seq<string>)
    requires |r| >= 1
    ensures |r'| >= 1
  {
    if c == sep then r + [""] else r[..|r| - 1] + [r[|r| - 1] + [c]]
  }

  /** The pieces between the occurrences of `sep`, including empty ones. */
  function Split(s: string, sep: char): (r: seq<string>)
    ensures |r| >= 1
  {
    if s == [] then [""] else Extend(Split(s[..|s| - 1], sep), s[|s| - 1], sep)
  }

  /** The pieces with `sep` between consecutive ones. */
  function Join(parts: seq<string>, sep: char): string
    requires |parts| >= 1
  {
    if |parts| == 1 then parts[0]
    else Join(parts[..|parts| - 1], sep) + [sep] + parts[|parts| - 1]
  }

  lemma JoinExtend(r: seq<string>, c: char, sep: char)
    requires |r| >= 1
    ensures Join(Extend(r, c, sep), sep) == Join(r, sep) + [c]
  {
    var n := |r| - 1;
    if c == sep {
      assert (r + [""])[..|r|] == r;
    } else if n > 0 {
      var e := Extend(r, c, sep);
      assert e[..n] == r[..n];
      assert Join(r, sep) == Join(r[..n], sep) + [sep] + r[n];
    }
  }

  /** Joining the pieces with the separator gives the text back. */
  lemma {:induction false} JoinSplit(s: string, sep: char)
    ensures Join(Split(s, sep), sep) == s
    decreases |s|
  {
    if s != [] {
      var k := |s| - 1;
      JoinSplit(s[..k], sep);
      JoinExtend(Split(s[..k], sep), s[k], sep);
      assert s == s[..k] + [s[k]];
    }
  }

  /** No piece contains the separator. */
  lemma {:induction false} SplitPieces(s: string, sep: char)
    ensures forall i :: 0 <= i < |Split(s, sep)| ==> sep !in Split(s, sep)[i]
    decreases |s|
  {
    if s != [] {
      var k := |s| - 1;
      var r := Split(s[..k], sep);
      SplitPieces(s[..k], sep);
      var e := Extend(r, s[k], sep);
      forall i | 0 <= i < |e| ensures sep !in e[i] {
        if i < |r| - 1 {
          assert e[i] == r[i];
        }
      }
    }
  }

  /** There is one piece more than there are separators. */
  lemma {:induction false} SplitCount(s: string, sep: char)
    ensures |Split(s, sep)| == Count(s, sep) + 1
    decreases |s|
  {
    if s != [] {
      SplitCount(s[..|s| - 1], sep);
    }
  }

  lemma ExtendConcat(x: seq<string>, y: seq<string>, c: char, sep: char)
    requires |y| >= 1
    ensures Extend(x + y, c, sep) == x + Extend(y, c, sep)
  {
    var r := x + y;
    assert r[..|r| - 1] == x + y[..|y| - 1];
  }

  lemma SplitSnoc(t: string, c: char, sep: char)
    ensures Split(t + [c], sep) == Extend(Split(t, sep), c, sep)
  {
    assert (t + [c])[..|t|] == t;
  }

  /** Splitting at one separator splits the text into the pieces of each side. */
  lemma {:induction false} SplitAt(a: string, sep: char, b: string)
    ensures Split(a + [sep] + b, sep) == Split(a, sep) + Split(b, sep)
    decreases |b|
  {
    if b == [] {
      assert a + [sep] + b == a + [sep];
      SplitSnoc(a, sep, sep);
    } else {
      var k := |b| - 1;
      var b' := b[..k];
      assert a + [sep] + b == (a + [sep] + b') + [b[k]];
      assert b == b' + [b[k]];
      SplitAt(a, sep, b');
      SplitSnoc(a + [sep] + b', b[k], sep);
      SplitSnoc(b', b[k], sep);
      ExtendConcat(Split(a, sep), Split(b', sep), b[k], sep);
    }
  }

  // ---------------------------------------------------------------------------
  // Python's `str.strip()`.
  // ---------------------------------------------------------------------------

  /** The characters for which Python's `str.isspace` holds. */
  predicate IsSpace(c: char) {
    var n := c as int;
    (9 <= n <= 13) || (28 <= n <= 32) || n == 0x85 || n == 0xA0 || n == 0x1680
    || (0x2000 <= n <= 0x200A) || n == 0x2028 || n == 0x2029 || n == 0x202F
    || n == 0x205F || n == 0x3000
  }

  function StripLeft(s: string): string {
    if s != [] && IsSpace(s[0]) then StripLeft(s[1..]) else s
  }

  function StripRight(s: string): string {
    if s != [] && IsSpace(s[|s| - 1]) then StripRight(s[..|s| - 1]) else s
  }

  /** `lstrip` cuts a whitespace prefix and leaves a suffix that does not
      start with whitespace. */
  lemma {:induction false} StripLeftMeaning(s: string)
    ensures var r := StripLeft(s);
      && |r| <= |s| && r == s[|s| - |r|..]
      && (forall i :: 0 <= i < |s| - |r| ==> IsSpace(s[i]))
      && (r != [] ==> !IsSpace(r[0]))
    decreases |s|
  {
    if s != [] && IsSpace(s[0]) {
      StripLeftMeaning(s[1..]);
    }
  }

  /** `rstrip` cuts a whitespace suffix and leaves a prefix that does not
      end with whitespace. */
  lemma {:induction false} StripRightMeaning(s: string)
    ensures var r := StripRight(s);
      && |r| <= |s| && r == s[..|r|]
      && (forall i :: |r| <= i < |s| ==> IsSpace(s[i]))
      && (r != [] ==> !IsSpace(r[|r| - 1]))
    decreases |s|
  {
    if s != [] && IsSpace(s[|s| - 1]) {
      StripRightMeaning(s[..|s| - 1]);
    }
  }

  /** The text without leading and trailing whitespace. */
  function Strip(s: string): string {
    StripRight(StripLeft(s))
  }

  /** `strip` removes exactly the whitespace at both ends: the result is the
      infix of the text at `i` that starts and ends with a non-space
      character, and every character cut off is whitespace. */
  lemma StripMeaning(s: string) returns (i: nat)
    ensures var r := Strip(s);
      && i + |r| <= |s| && r == s[i..i + |r|]
      && (forall j :: 0 <= j < i ==> IsSpace(s[j]))
      && (forall j :: i + |r| <= j < |s| ==> IsSpace(s[j]))
      && (r != [] ==> !IsSpace(r[0]) && !IsSpace(r[|r| - 1]))
  {
    var l := StripLeft(s);
    var r := Strip(s);
    StripLeftMeaning(s);
    StripRightMeaning(l);
    i := |s| - |l|;
    assert r == s[i..i + |r|];
    forall j | i + |r| <= j < |s| ensures IsSpace(s[j]) {
      assert s[j] == l[j - i];
    }
  }

  /** The stripped text is empty exactly when the text is all whitespace. */
  lemma StripEmpty(s: string)
    ensures Strip(s) == [] <==> forall i :: 0 <= i < |s| ==> IsSpace(s[i])
  {
    var l := StripLeft(s);
    StripLeftMeaning(s);
    StripRightMeaning(l);
    var i := |s| - |l|;
    assert l != [] ==> l[0] == s[i];
    forall j | 0 <= j < |s| ensures Strip(s) == [] ==> IsSpace(s[j]) {
      assert j >= i ==> s[j] == l[j - i];
    }
  }

  /** `strip` adds no character: a character absent from the text is absent
      from the stripped text. */
  lemma StripKeeps(s: string, c: char)
    requires c !in s
    ensures c !in Strip(s)
  {
    var i := StripMeaning(s);
    assert Strip(s) == s[i..i + |Strip(s)|];
  }

  // ---------------------------------------------------------------------------
  // The statements of a SQL file.
  // ---------------------------------------------------------------------------

  /** The stripped pieces that are not empty, in order. */
  function Statements(parts: seq<string>): seq<string> {
    if parts == [] then []
    else
      var k := |parts| - 1;
      var q := Strip(parts[k]);
      Statements(parts[..k]) + (if q != [] then [q] else [])
  }

  /** `[q.strip() for q in sql_text.split(";") if q.strip()]`. */
  function Queries(sqlText: string): seq<string> {
    Statements(Split(sqlText, ';'))
  }

  lemma {:induction false} StatementsConcat(a: seq<string>, b: seq<string>)
    ensures Statements(a + b) == Statements(a) + Statements(b)
    decreases |b|
  {
    if b == [] {
      assert a + b == a;
    } else {
      var k := |b| - 1;
      assert (a + b)[..|a + b| - 1] == a + b[..k];
      StatementsConcat(a, b[..k]);
    }
  }

  /** At any ';' the statements of a text are those before it followed by
      those after it: the split keeps source order. */
  lemma QueriesAt(a: string, b: string)
    ensures Queries(a + [';'] + b) == Queries(a) + Queries(b)
  {
    SplitAt(a, ';', b);
    StatementsConcat(Split(a, ';'), Split(b, ';'));
  }

  /** A text without ';' is one statement, or none when it is all
      whitespace. */
  lemma QueriesSingle(s: string)
    requires ';' !in s
    ensures Queries(s) == if Strip(s) == [] then [] else [Strip(s)]
  {
    SingleSplit(s, ';');
    assert Statements([s]) == Statements([]) + (if Strip(s) != [] then [Strip(s)] else []);
  }

  lemma {:induction false} SingleSplit(s: string, sep: char)
    requires sep !in s
    ensures Split(s, sep) == [s]
    decreases |s|
  {
    if s != [] {
      var k := |s| - 1;
      assert sep !in s[..k];
      SingleSplit(s[..k], sep);
      assert s == s[..k] + [s[k]];
    }
  }

  lemma {:induction false} StatementsLength(parts: seq<string>)
    ensures |Statements(parts)| <= |parts|
    decreases |parts|
  {
    if parts != [] {
      StatementsLength(parts[..|parts| - 1]);
    }
  }

  /** A statement as `run_sql_file` passes it on: not empty, without `sep`,
      and neither starting nor ending with whitespace. */
  predicate IsStatement(q: string, sep: char) {
    q != [] && sep !in q && !IsSpace(q[0]) && !IsSpace(q[|q| - 1])
  }

  lemma StrippedStatement(p: string, sep: char)
    requires sep !in p && Strip(p) != []
    ensures IsStatement(Strip(p), sep)
  {
    var i := StripMeaning(p);
    StripKeeps(p, sep);
  }

  /** The statements of pieces without `sep` are statements. */
  lemma {:induction false} StatementsShape(parts: seq<string>, sep: char)
    requires forall i :: 0 <= i < |parts| ==> sep !in parts[i]
    ensures forall q :: q in Statements(parts) ==> IsStatement(q, sep)
    decreases |parts|
  {
    if parts != [] {
      var k := |parts| - 1;
      var prefix := parts[..k];
      assert forall i :: 0 <= i < k ==> prefix[i] == parts[i];
      StatementsShape(prefix, sep);
      if Strip(parts[k]) != [] {
        StrippedStatement(parts[k], sep);
      }
    }
  }

  /** Every statement is a non-empty, stripped piece of the text without ';',
      and there are at most as many statements as ';' plus one. */
  lemma QueriesShape(sqlText: string)
    ensures |Queries(sqlText)| <= Count(sqlText, ';') + 1
    ensures forall q :: q in Queries(sqlText) ==> IsStatement(q, ';')
  {
    var parts := Split(sqlText, ';');
    SplitCount(sqlText, ';');
    SplitPieces(sqlText, ';');
    StatementsLength(parts);
    StatementsShape(parts, ';');
  }

  // ---------------------------------------------------------------------------
  // Running the statements.
  // ---------------------------------------------------------------------------

  /** `run_sql_file`: one result per statement, in statement order. */
  method RunSqlFile<Table>(sqlText: string, execute: string -> Table) returns (results: seq<Table>)
    ensures |results| == |Queries(sqlText)|
    ensures forall i :: 0 <= i < |results| ==> results[i] == execute(Queries(sqlText)[i])
  {
    var queries := Queries(sqlText);
    results := [];
    var i := 0;
    while i < |queries|
      invariant 0 <= i <= |queries| && |results| == i
      invariant forall j :: 0 <= j < i ==> results[j] == execute(queries[j])
    {
      results := results + [execute(queries[i])];
      i := i + 1;
    }
  }

  const OutputNames: seq<string> := ["product_performance.csv", "demand_pressure.csv", "inventory_pressure.csv"]

  datatype ExportError = MissingResult(index: nat)

  /** The files `main` writes: the first three results under their names;
      a file with fewer than three statements fails at the first missing
      index. */
  function Outputs<Table>(results: seq<Table>): (r: Result<seq<(string, Table)>, ExportError>)
    ensures r.Ok? <==> |results| >= 3
    ensures r.Ok? ==> |r.value| == 3 && forall i :: 0 <= i < 3 ==> r.value[i] == (OutputNames[i], results[i])
    ensures r.Err? ==> r.error == MissingResult(|results|)
  {
    if |results| < 3 then Err(MissingResult(|results|))
    else Ok([(OutputNames[0], results[0]), (OutputNames[1], results[1]), (OutputNames[2], results[2])])
  }

  /** `main` after the tables are loaded: run the file's statements and
      export the first three results, which fails when the file has fewer
      than three statements. */
  method RunSqlLayer<Table>(sqlText: string, execute: string -> Table)
    returns (r: Result<seq<(string, Table)>, ExportError>)
    ensures r.Ok? <==> |Queries(sqlText)| >= 3
    ensures r.Ok? ==> |r.value| == 3
    ensures r.Ok? ==> forall i :: 0 <= i < 3 ==> r.value[i] == (OutputNames[i], execute(Queries(sqlText)[i]))
  {
    var results := RunSqlFile(sqlText, execute);
    r := Outputs(results);
  }
}
