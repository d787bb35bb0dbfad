/** The conversion engine (`SpreadsheetLogic`): a table of records is built
    into a frame, its headers are normalised, the category's business rules
    are applied, and the frame is turned back into records. Every step works
    row by row once the frame's columns are known, so each is defined on one
    row and lifted to frames. */
module Spreadsheet {
  import opened Wrappers
  import opened Headers
  import opened Numeric

  /** One cell of a frame: missing (pandas' NaN), text, a number, or a
      boolean produced by a rule. */
  datatype Cell = Empty | Text(s: string) | Number(n: real) | Flag(b: bool)

  /** A record: column name to cell. */
  type Row = map<string, Cell>

  /** A frame: its set of columns and its rows, in order. */
  datatype Frame = Frame(columns: set<string>, rows: seq<Row>)

  const Financial := "financial"
  const Inventory := "inventory"
  const AmountColumn := "amount"
  const StockColumn := "stock"
  const LowStockColumn := "low_stock_alert"
  /** Stock strictly below this raises the low-stock alert. */
  const LowStockThreshold := 10.0

  /** Every row has exactly the frame's columns. */
  predicate Rectangular(f: Frame)
  {
    forall i :: 0 <= i < |f.rows| ==> f.rows[i].Keys == f.columns
  }

  /** A row-wise transformation applied to every row, in order. */
  function MapRows(rows: seq<Row>, f: Row --> Row): (r: seq<Row>)
    requires forall i :: 0 <= i < |rows| ==> f.requires(rows[i])
    ensures |r| == |rows|
    ensures forall i :: 0 <= i < |rows| ==> r[i] == f(rows[i])
    decreases |rows|
  {
    if rows == [] then []
    else
      var tail := MapRows(rows[1..], f);
      assert forall i :: 1 <= i < |rows| ==> tail[i - 1] == f(rows[i]);
      [f(rows[0])] + tail
  }

  // ---------------------------------------------------------------------
  // Records to frame and back (`pd.DataFrame(records)`, `to_dict('records')`)

  /** The columns of a frame built from records: every key of every record,
      and nothing else. */
  function ColumnsOf(raw: seq<Row>): (cols: set<string>)
    ensures forall i, c :: 0 <= i < |raw| && c in raw[i] ==> c in cols
    ensures forall c :: c in cols ==> exists i :: 0 <= i < |raw| && c in raw[i]
    decreases |raw|
  {
    if raw == [] then {}
    else
      var init := ColumnsOf(raw[..|raw| - 1]);
      assert forall i :: 0 <= i < |raw| - 1 ==> raw[..|raw| - 1][i] == raw[i];
      init + raw[|raw| - 1].Keys
  }

  /** A record widened to the frame's columns, a missing key being a missing cell. */
  function Complete(row: Row, cols: set<string>): (r: Row)
    ensures r.Keys == cols
    ensures forall c :: c in cols && c in row ==> r[c] == row[c]
    ensures forall c :: c in cols && c !in row ==> r[c] == Empty
  {
    map c | c in cols :: if c in row then row[c] else Empty
  }

  function FromRecords(raw: seq<Row>): (f: Frame)
    ensures Rectangular(f) && |f.rows| == |raw|
    ensures f.columns == ColumnsOf(raw)
    ensures forall i :: 0 <= i < |raw| ==> f.rows[i] == Complete(raw[i], f.columns)
  {
    var cols := ColumnsOf(raw);
    Frame(cols, MapRows(raw, row => Complete(row, cols)))
  }

  /** `to_dict('records')`: one record per row, in order, each with every
      column of the frame. */
  function Records(f: Frame): (r: seq<Row>)
    ensures |r| == |f.rows|
    ensures Rectangular(f) ==> forall i :: 0 <= i < |r| ==> r[i].Keys == f.columns
  {
    f.rows
  }

  // ---------------------------------------------------------------------
  // clean_headers

  /** Keys that a renaming keeps apart. */
  predicate KeepsApart(names: set<string>, rename: string -> string)
  {
    forall a, b :: a in names && b in names && rename(a) == rename(b) ==> a == b
  }

  /** A record with every key renamed and every cell kept under its new key. */
  function RenameKeys(row: Row, rename: string -> string): (r: Row)
    requires KeepsApart(row.Keys, rename)
    ensures r.Keys == set c | c in row :: rename(c)
    ensures forall c :: c in row ==> r[rename(c)] == row[c]
  {
    map c | c in row :: rename(c) := row[c]
  }

  function RenameRow(row: Row): (r: Row)
    requires NormalizeInjective(row.Keys)
    ensures r.Keys == set c | c in row :: Normalize(c)
    ensures forall c :: c in row ==> r[Normalize(c)] == row[c]
  {
    RenameKeys(row, Normalize)
  }

  /** Every column renamed to its normal form, every cell kept under the new
      name. */
  function CleanHeaders(f: Frame): (r: Frame)
    requires Rectangular(f) && NormalizeInjective(f.columns)
    ensures Rectangular(r) && |r.rows| == |f.rows|
    ensures r.columns == set c | c in f.columns :: Normalize(c)
    ensures forall i :: 0 <= i < |f.rows| ==> r.rows[i] == RenameRow(f.rows[i])
  {
    var cols := set c | c in f.columns :: Normalize(c);
    var rows := MapRows(f.rows, RenameRow);
    assert forall i :: 0 <= i < |rows| ==> rows[i].Keys == cols by {
      forall i | 0 <= i < |rows| ensures rows[i].Keys == cols {
        assert f.rows[i].Keys == f.columns;
      }
    }
    Frame(cols, rows)
  }

  /** The cleaned headers contain no space. */
  lemma CleanHeadersNoSpace(f: Frame)
    requires Rectangular(f) && NormalizeInjective(f.columns)
    ensures forall c :: c in CleanHeaders(f).columns ==> ' ' !in c
  {
    NormalizedNoSpace(f.columns);
  }

  /** No normalised name contains a space. */
  lemma NormalizedNoSpace(cols: set<string>)
    ensures forall c :: c in (set k | k in cols :: Normalize(k)) ==> ' ' !in c
  {
    forall c | c in (set k | k in cols :: Normalize(k)) ensures ' ' !in c {
      var c0 :| c0 in cols && Normalize(c0) == c;
      NormalizeNoSpace(c0);
    }
  }

  /** A renaming that fixes every key of a record leaves the record as it is. */
  lemma RenameKeysFixed(row: Row, rename: string -> string)
    requires forall c :: c in row ==> rename(c) == c
    ensures KeepsApart(row.Keys, rename)
    ensures RenameKeys(row, rename) == row
  {
    var r := RenameKeys(row, rename);
    assert forall c :: c in r ==> c in row;
    assert forall c :: c in row ==> r[c] == row[c];
  }

  /** A record whose keys are all in normal form keeps its keys and cells. */
  lemma RenameNormalRow(row: Row)
    requires forall c :: c in row ==> Normalize(c) == c
    ensures NormalizeInjective(row.Keys)
    ensures RenameRow(row) == row
  {
    RenameKeysFixed(row, Normalize);
  }

  /** Normalised names are fixed by normalisation, so they are kept apart
      and normalising them again gives the same set. */
  lemma NormalizedNamesFixed(cols: set<string>)
    ensures forall c :: c in (set k | k in cols :: Normalize(k)) ==> Normalize(c) == c
    ensures NormalizeInjective(set k | k in cols :: Normalize(k))
    ensures (set c | c in (set k | k in cols :: Normalize(k)) :: Normalize(c)) == set k | k in cols :: Normalize(k)
  {
    var image := set k | k in cols :: Normalize(k);
    forall c | c in image ensures Normalize(c) == c {
      var c0 :| c0 in cols && Normalize(c0) == c;
      NormalizeIdempotent(c0);
    }
  }

  /** A frame whose headers are clean already is left as it is. */
  lemma {:induction false} CleanHeadersIdempotent(f: Frame)
    requires Rectangular(f) && NormalizeInjective(f.columns)
    ensures NormalizeInjective(CleanHeaders(f).columns)
    ensures CleanHeaders(CleanHeaders(f)) == CleanHeaders(f)
  {
    var g := CleanHeaders(f);
    NormalizedNamesFixed(f.columns);
    var h := CleanHeaders(g);
    forall i | 0 <= i < |g.rows| ensures h.rows[i] == g.rows[i] {
      RenameNormalRow(g.rows[i]);
    }
    assert h.rows == g.rows;
  }

  // ---------------------------------------------------------------------
  // apply_business_rules

  /** `fillna('')`: a missing cell becomes the empty text. */
  function Fill(c: Cell): (r: Cell)
    ensures r != Empty
    ensures c != Empty ==> r == c
  {
    if c == Empty then Text("") else c
  }

  /** `pd.to_numeric(..., errors='coerce')` on one cell; `None` is NaN. */
  function ToNumeric(c: Cell): (r: Option<real>)
    ensures c.Number? ==> r == Some(c.n)
    ensures c == Empty || c == Text("") ==> r == None
  {
    match c
    case Empty => None
    case Text(s) => ParseNumber(s)
    case Number(n) => Some(n)
    case Flag(b) => Some(if b then 1.0 else 0.0)
  }

  /** Coercion followed by `fillna(0)`: a number is kept, and a cell that
      does not coerce (missing, or text without a digit) becomes 0. */
  function CoerceOrZero(c: Cell): (v: real)
    ensures c.Number? ==> v == c.n
    ensures c == Empty || (c.Text? && !HasDigit(c.s)) ==> v == 0.0
  {
    match ToNumeric(c)
    case Some(n) => n
    case None => 0.0
  }

  /** The comparison `to_numeric(stock) < 10`, false for NaN: a number is low
      exactly below the threshold, and a cell that does not coerce is never
      low. */
  function IsLowStock(c: Cell): (low: bool)
    ensures c.Number? ==> (low <==> c.n < LowStockThreshold)
    ensures c == Empty || (c.Text? && !HasDigit(c.s)) ==> !low
  {
    match ToNumeric(c)
    case Some(n) => n < LowStockThreshold
    case None => false
  }

  /** Text stock with a fractional part is compared as a number: "9.5"
      raises the alert and is 9.5 as an amount. */
  lemma FractionalStock()
    ensures IsLowStock(Text("9.5")) && CoerceOrZero(Text("9.5")) == 9.5
  {
    ParseDecimal("", "9", true, "5");
    assert "" + Literal("9", true, "5") == "9.5";
    assert LiteralValue("9", "5") == 9.5 by {
      assert DigitsValue("9") == 9 && DigitsValue("5") == 5 && Pow10(1) == 10;
    }
  }

  /** The threshold is strict: stock "10.0" does not raise the alert. */
  lemma StockAtThreshold()
    ensures !IsLowStock(Text("10.0")) && CoerceOrZero(Text("10.0")) == 10.0
  {
    ParseDecimal("", "10", true, "0");
    assert "" + Literal("10", true, "0") == "10.0";
    assert LiteralValue("10", "0") == 10.0 by {
      assert "10"[..1] == "1";
      assert DigitsValue("10") == 10 && DigitsValue("0") == 0;
    }
  }

  /** Filling a missing cell does not change what it coerces to. */
  lemma FillKeepsNumeric(c: Cell)
    ensures ToNumeric(Fill(c)) == ToNumeric(c)
    ensures CoerceOrZero(Fill(c)) == CoerceOrZero(c) && IsLowStock(Fill(c)) == IsLowStock(c)
  {
  }

  function FillRow(row: Row): (r: Row)
    ensures r.Keys == row.Keys
    ensures forall c :: c in row ==> r[c] == Fill(row[c])
  {
    map c | c in row :: Fill(row[c])
  }

  function FillNa(f: Frame): (r: Frame)
    requires Rectangular(f)
    ensures Rectangular(r) && r.columns == f.columns && |r.rows| == |f.rows|
    ensures forall i :: 0 <= i < |f.rows| ==> r.rows[i] == FillRow(f.rows[i])
  {
    Frame(f.columns, MapRows(f.rows, FillRow))
  }

  /** The financial rule on one row. */
  function CoerceAmount(row: Row): Row
    requires AmountColumn in row
  {
    row[AmountColumn := Number(CoerceOrZero(row[AmountColumn]))]
  }

  /** The inventory rule on one row. */
  function FlagLowStock(row: Row): Row
    requires StockColumn in row
  {
    row[LowStockColumn := Flag(IsLowStock(row[StockColumn]))]
  }

  /** The rules on one filled row of a rectangular frame, where a column is in
      the frame exactly when it is in the row. */
  function RuleRow(row: Row, category: string): Row
  {
    if category == Financial && AmountColumn in row then CoerceAmount(row)
    else if category == Inventory && StockColumn in row then FlagLowStock(row)
    else row
  }

  /** The business rules: fill every missing cell, then the category's rule,
      which runs only when its column is in the frame. */
  function ApplyBusinessRules(f: Frame, category: string): (r: Frame)
    requires Rectangular(f)
    ensures Rectangular(r) && |r.rows| == |f.rows|
    ensures r.columns == if category == Inventory && StockColumn in f.columns
                         then f.columns + {LowStockColumn} else f.columns
    ensures forall i :: 0 <= i < |f.rows| ==> r.rows[i] == RuleRow(FillRow(f.rows[i]), category)
  {
    var filled := FillNa(f);
    if category == Financial && AmountColumn in filled.columns then
      Frame(filled.columns, MapRows(filled.rows, CoerceAmount))
    else if category == Inventory && StockColumn in filled.columns then
      Frame(filled.columns + {LowStockColumn}, MapRows(filled.rows, FlagLowStock))
    else
      filled
  }

  /** Derived columns: the one a category's rule writes, given the row's columns. */
  predicate Derived(category: string, cols: set<string>, c: string)
  {
    || (category == Financial && c == AmountColumn)
    || (category == Inventory && StockColumn in cols && c == LowStockColumn)
  }

  /** What the rules do to one row: every missing cell becomes ''; in
      `financial` every `amount` becomes a number, 0 where it does not parse;
      in `inventory` with a `stock` column `low_stock_alert` says whether the
      stock parses to a number below 10. Nothing else changes, only the
      inventory rule adds a column, and no cell is left missing. */
  lemma {:induction false} RulesOnRow(row: Row, category: string)
    ensures var r := RuleRow(FillRow(row), category);
            && r.Keys == (if category == Inventory && StockColumn in row
                          then row.Keys + {LowStockColumn} else row.Keys)
            && (forall c :: c in row && !Derived(category, row.Keys, c) ==> r[c] == Fill(row[c]))
            && (category == Financial && AmountColumn in row ==>
                  r[AmountColumn] == Number(CoerceOrZero(row[AmountColumn])))
            && (category == Inventory && StockColumn in row ==>
                  r[LowStockColumn] == Flag(IsLowStock(row[StockColumn])))
            && (forall c :: c in r ==> r[c] != Empty)
  {
    var filled := FillRow(row);
    if category == Financial && AmountColumn in row {
      FillKeepsNumeric(row[AmountColumn]);
    } else if category == Inventory && StockColumn in row {
      FillKeepsNumeric(row[StockColumn]);
    }
  }

  // ---------------------------------------------------------------------
  // process

  /** `process`: records in, records out, one for one; headers are
      normalised before the rules look for their columns. */
  function Process(raw: seq<Row>, category: string): (r: seq<Row>)
    requires NormalizeInjective(ColumnsOf(raw))
    ensures |r| == |raw|
  {
    Records(ApplyBusinessRules(CleanHeaders(FromRecords(raw)), category))
  }

  /** The whole conversion of one record, given the columns of the table. */
  function ProcessRow(row: Row, cols: set<string>, category: string): Row
    requires NormalizeInjective(cols)
  {
    RuleRow(FillRow(RenameRow(Complete(row, cols))), category)
  }

  /** `process` converts each record on its own. */
  lemma {:induction false} ProcessAt(raw: seq<Row>, category: string, i: nat)
    requires NormalizeInjective(ColumnsOf(raw)) && i < |raw|
    ensures Process(raw, category)[i] == ProcessRow(raw[i], ColumnsOf(raw), category)
  {
    var f := FromRecords(raw);
    var g := CleanHeaders(f);
    assert g.rows[i] == RenameRow(Complete(raw[i], ColumnsOf(raw)));
  }

  /** `process` written record by record, given the columns of the whole
      table: the `i`-th output is the conversion of the `i`-th input. */
  function ProcessRows(raw: seq<Row>, cols: set<string>, category: string): (r: seq<Row>)
    requires NormalizeInjective(cols)
    ensures |r| == |raw|
  {
    MapRows(raw, row => ProcessRow(row, cols, category))
  }

  /** The frame pipeline of `process` and its record-by-record form agree. */
  lemma ProcessIsRowwise(raw: seq<Row>, category: string)
    requires NormalizeInjective(ColumnsOf(raw))
    ensures Process(raw, category) == ProcessRows(raw, ColumnsOf(raw), category)
  {
    var p := Process(raw, category);
    var q := ProcessRows(raw, ColumnsOf(raw), category);
    forall i | 0 <= i < |raw| ensures p[i] == q[i] {
      ProcessAt(raw, category, i);
    }
  }

  /** The columns every processed record has. */
  function ProcessedColumns(raw: seq<Row>, category: string): set<string>
  {
    var cleaned := set c | c in ColumnsOf(raw) :: Normalize(c);
    if category == Inventory && StockColumn in cleaned then cleaned + {LowStockColumn} else cleaned
  }

  /** Every processed record carries every (normalised) column of the input,
      and no cell in it is missing. */
  lemma {:induction false} ProcessShape(raw: seq<Row>, category: string, i: nat)
    requires NormalizeInjective(ColumnsOf(raw)) && i < |raw|
    ensures Process(raw, category)[i].Keys == ProcessedColumns(raw, category)
    ensures forall c :: c in Process(raw, category)[i] ==> Process(raw, category)[i][c] != Empty
  {
    ProcessAt(raw, category, i);
    RulesOnRow(RenameRow(Complete(raw[i], ColumnsOf(raw))), category);
  }

  /** A raw column whose name normalises to `amount` (" Amount", "AMOUNT")
      is the one the financial rule coerces. */
  lemma {:induction false} ProcessCoercesAmount(raw: seq<Row>, i: nat, c: string)
    requires NormalizeInjective(ColumnsOf(raw))
    requires i < |raw| && c in raw[i] && Normalize(c) == AmountColumn
    ensures AmountColumn in Process(raw, Financial)[i]
    ensures Process(raw, Financial)[i][AmountColumn] == Number(CoerceOrZero(raw[i][c]))
  {
    ProcessAt(raw, Financial, i);
    var cols := ColumnsOf(raw);
    var renamed := RenameRow(Complete(raw[i], cols));
    assert renamed[AmountColumn] == raw[i][c];
    RulesOnRow(renamed, Financial);
  }

  /** The low-stock alert is raised exactly when the record's stock, under
      whatever raw header normalises to `stock`, parses to a number below 10;
      a record without that key gets no alert. */
  lemma {:induction false} ProcessFlagsLowStock(raw: seq<Row>, i: nat, c: string)
    requires NormalizeInjective(ColumnsOf(raw))
    requires i < |raw| && c in ColumnsOf(raw) && Normalize(c) == StockColumn
    ensures LowStockColumn in Process(raw, Inventory)[i]
    ensures Process(raw, Inventory)[i][LowStockColumn] == Flag(c in raw[i] && IsLowStock(raw[i][c]))
  {
    ProcessAt(raw, Inventory, i);
    var cols := ColumnsOf(raw);
    var complete := Complete(raw[i], cols);
    var renamed := RenameRow(complete);
    assert renamed[StockColumn] == complete[c];
    RulesOnRow(renamed, Inventory);
  }

  /** Outside `financial` and `inventory` the conversion only renames
      columns and fills missing cells. */
  lemma {:induction false} ProcessOtherCategory(raw: seq<Row>, category: string, i: nat, c: string)
    requires NormalizeInjective(ColumnsOf(raw))
    requires category != Financial && category != Inventory
    requires i < |raw| && c in ColumnsOf(raw)
    ensures Process(raw, category)[i].Keys == set k | k in ColumnsOf(raw) :: Normalize(k)
    ensures Process(raw, category)[i][Normalize(c)] == Fill(if c in raw[i] then raw[i][c] else Empty)
  {
    ProcessAt(raw, category, i);
    var renamed := RenameRow(Complete(raw[i], ColumnsOf(raw)));
    assert renamed[Normalize(c)] == Complete(raw[i], ColumnsOf(raw))[c];
  }
}
