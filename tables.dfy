/** The tabular record model shared by the three pipelines: a DataFrame as
    its column names and its rows, each row a map from column name to cell,
    and the cleaning every pipeline applies to an uploaded sheet. */
module Tables {
  import opened Outcomes
  import opened Text
  import opened Ordering

  /** A DataFrame cell as `read_csv` leaves it: NaN, a text or a number. */
  datatype Cell = Missing | Str(s: string) | Num(x: real)

  type Row = map<string, Cell>

  /** A DataFrame: column names in order, and rows. */
  datatype Table = Table(columns: seq<string>, rows: seq<Row>)

  /** `row[c]`; NaN where the row has no such cell, as `pd.concat` fills it. */
  function Get(r: Row, c: string): Cell {
    if c in r then r[c] else Missing
  }

  /** `str(cell)` as `astype(str)` writes it. */
  function CellText(c: Cell): string {
    match c
    case Missing => "nan"
    case Str(s) => s
    case Num(x) => NumberText(x)
  }

  /** `pd.to_numeric(cell, errors='coerce')`, None standing for NaN. */
  function ToNumber(c: Cell): Option<real> {
    match c
    case Missing => None
    case Str(s) => ParseNumber(s)
    case Num(x) => Some(x)
  }

  /** `pd.to_numeric(cell, errors='coerce').fillna(0)`. */
  function CoerceOrZero(c: Cell): Cell {
    Num(ToNumber(c).GetOr(0.0))
  }

  /** Every column of the table is NaN in this row. */
  predicate IsEmptyRow(columns: seq<string>, r: Row) {
    forall c :: c in columns ==> Get(r, c) == Missing
  }

  /** The rows that have at least one cell, in their original order. */
  function NonEmptyRows(columns: seq<string>, rows: seq<Row>): (kept: seq<Row>)
    ensures |kept| <= |rows|
    ensures forall r :: r in kept <==> r in rows && !IsEmptyRow(columns, r)
    ensures IsSubsequence(kept, rows)
  {
    if |rows| == 0 then []
    else
      var rest := NonEmptyRows(columns, rows[1..]);
      assert rows == [rows[0]] + rows[1..];
      if IsEmptyRow(columns, rows[0]) then
        assert |rest| > 0 ==> rest[0] in rest && rest[0] != rows[0];
        rest
      else
        assert ([rows[0]] + rest)[1..] == rest;
        [rows[0]] + rest
  }

  /** `df.dropna(how='all')`. */
  function DropEmptyRows(t: Table): Table {
    Table(t.columns, NonEmptyRows(t.columns, t.rows))
  }

  /** Every row has a cell for exactly the table's columns. */
  predicate Complete(t: Table) {
    forall i :: 0 <= i < |t.rows| ==> t.rows[i].Keys == set c | c in t.columns
  }

  /** No cell of the table is NaN. */
  predicate NoMissing(t: Table) {
    forall i, c :: 0 <= i < |t.rows| && c in t.columns ==> Get(t.rows[i], c) != Missing
  }

  /** Every cell of column `c` is a number. */
  predicate NumericColumn(t: Table, c: string) {
    forall i :: 0 <= i < |t.rows| ==> Get(t.rows[i], c).Num?
  }

  function FillCell(c: Cell): Cell {
    if c == Missing then Str("") else c
  }

  /** `df.fillna('')`: no NaN is left, every other cell is kept. */
  function FillMissing(t: Table): (r: Table)
    ensures r.columns == t.columns && |r.rows| == |t.rows|
    ensures Complete(r) && NoMissing(r)
    ensures forall i, c :: 0 <= i < |t.rows| && c in t.columns && Get(t.rows[i], c) != Missing ==>
      Get(r.rows[i], c) == Get(t.rows[i], c)
    ensures forall i, c :: 0 <= i < |t.rows| && c in t.columns && Get(t.rows[i], c) == Missing ==>
      Get(r.rows[i], c) == Str("")
  {
    Table(t.columns, seq(|t.rows|, i requires 0 <= i < |t.rows| =>
      map c | c in t.columns :: FillCell(Get(t.rows[i], c))))
  }

  /** `df[c] = pd.to_numeric(df[c], errors='coerce').fillna(0)`. */
  function CoerceColumn(t: Table, c: string): Table
    requires c in t.columns
  {
    Table(t.columns, seq(|t.rows|, i requires 0 <= i < |t.rows| =>
      t.rows[i][c := CoerceOrZero(Get(t.rows[i], c))]))
  }

  /** The loop `for col in numeric: if col in df.columns: df[col] = ...`. */
  function CoerceColumns(t: Table, numeric: seq<string>): Table {
    if |numeric| == 0 then t
    else
      var prev := CoerceColumns(t, numeric[..|numeric| - 1]);
      var c := numeric[|numeric| - 1];
      if c in prev.columns then CoerceColumn(prev, c) else prev
  }

  /** An uploaded sheet after the cleaning every pipeline starts with:
      empty rows dropped, NaN filled with '', the numeric columns coerced. */
  function Cleaned(t: Table, numeric: seq<string>): Table {
    CoerceColumns(FillMissing(DropEmptyRows(t)), numeric)
  }

  /** The cleaning as the source runs it: two reassignments, then a loop
      that replaces one numeric column at a time. */
  method CleanSheet(t: Table, numeric: seq<string>) returns (r: Table)
    ensures r == Cleaned(t, numeric)
  {
    var filled := FillMissing(DropEmptyRows(t));
    r := filled;
    for k := 0 to |numeric|
      invariant r == CoerceColumns(filled, numeric[..k])
    {
      assert numeric[..k + 1][..k] == numeric[..k];
      var col := numeric[k];
      if col in r.columns {
        r := CoerceColumn(r, col);
      }
    }
    assert numeric[..|numeric|] == numeric;
  }

  /** Coercing a column keeps the shape, leaves no NaN, makes that column
      numeric and changes no other column. */
  lemma CoerceColumnEffect(t: Table, c: string)
    requires c in t.columns && Complete(t) && NoMissing(t)
    ensures var r := CoerceColumn(t, c);
      && r.columns == t.columns && |r.rows| == |t.rows| && Complete(r) && NoMissing(r)
      && NumericColumn(r, c)
      && forall i, d :: 0 <= i < |t.rows| && d != c ==> Get(r.rows[i], d) == Get(t.rows[i], d)
  {
  }

  /** What cleaning guarantees: the same columns, one row per non-empty input
      row, a cell in every column of every row, no NaN, and every listed
      column that the sheet has holds numbers only. */
  lemma {:induction false} CleanedShape(t: Table, numeric: seq<string>)
    ensures var r := Cleaned(t, numeric);
      && r.columns == t.columns
      && |r.rows| == |NonEmptyRows(t.columns, t.rows)|
      && Complete(r) && NoMissing(r)
      && forall c :: c in numeric && c in t.columns ==> NumericColumn(r, c)
  {
    if |numeric| > 0 {
      var init := numeric[..|numeric| - 1];
      var c := numeric[|numeric| - 1];
      CleanedShape(t, init);
      var prev := Cleaned(t, init);
      assert Cleaned(t, numeric) == if c in prev.columns then CoerceColumn(prev, c) else prev;
      if c in prev.columns {
        CoerceColumnEffect(prev, c);
        forall d | d in numeric && d in t.columns ensures NumericColumn(Cleaned(t, numeric), d) {
          if d != c {
            assert d in init;
          }
        }
      } else {
        forall d | d in numeric && d in t.columns ensures NumericColumn(Cleaned(t, numeric), d) {
          assert d in init;
        }
      }
    }
  }
}
