/** The two DataFrames `reconcile_transactions` receives, and what lines 72-77 of
    streamlit_app.py do to them in place. */
module Frames {
  import opened Wrappers
  import opened Ledger
  import Normalize

  const AmountColumn: string := "amount"

  /** Why `df['amount']` at line 76/77 raises: no column is named "amount" (a `KeyError`),
      or several are, so that `df['amount']` is a DataFrame without a `.str` accessor
      (an `AttributeError`). */
  datatype SchemaError = MissingAmount | DuplicateAmount

  /** Every row has one cell per column, as in any DataFrame. */
  predicate Rectangular(columns: seq<string>, rows: seq<seq<Cell>>) {
    forall i :: 0 <= i < |rows| ==> |rows[i]| == |columns|
  }

  /** The first position of `name` in `names`. */
  function IndexOf(names: seq<string>, name: string): (r: Option<nat>)
    ensures r.None? <==> name !in names
    ensures r.Some? ==> r.value < |names| && names[r.value] == name && name !in names[..r.value]
  {
    if names == [] then None
    else if names[0] == name then Some(0)
    else match IndexOf(names[1..], name)
      case None => None
      case Some(k) =>
        assert names[..k + 1] == [names[0]] + names[1..][..k];
        Some(k + 1)
  }

  /** The position of the amount column, or the error selecting it raises. */
  function AmountIndex(columns: seq<string>): (r: Result<nat, SchemaError>)
    ensures r.Ok? ==> r.value < |columns| && columns[r.value] == AmountColumn
    ensures r.Ok? ==> forall j :: 0 <= j < |columns| && j != r.value ==> columns[j] != AmountColumn
    ensures r == Err(MissingAmount) <==> AmountColumn !in columns
    ensures r == Err(DuplicateAmount) <==>
              exists i, j :: 0 <= i < j < |columns| && columns[i] == AmountColumn && columns[j] == AmountColumn
  {
    match IndexOf(columns, AmountColumn)
    case None => Err(MissingAmount)
    case Some(k) =>
      if AmountColumn in columns[k + 1..] then
        var j :| k + 1 <= j < |columns| && columns[j] == AmountColumn;
        Err(DuplicateAmount)
      else
        assert forall j :: 0 <= j < k ==> columns[j] == columns[..k][j];
        assert forall j :: k < j < |columns| ==> columns[j] == columns[k + 1..][j - k - 1];
        Ok(k)
  }

  /** `astype(str)`: a text cell is its text, NaN is "nan", and a number is shown by
      `render`, standing for Python's float formatting. */
  function AsText(c: Cell, render: real -> string): string {
    match c
    case Text(t) => t
    case Number(None) => "nan"
    case Number(Some(v)) => render(v)
  }

  /** The amount column after line 76/77: every cell of column `k` is replaced by
      `parse` (standing for `pd.to_numeric(..., errors='coerce')`) of its filtered text;
      every other cell is left alone. */
  function CoerceRows(rows: seq<seq<Cell>>, k: nat, parse: string -> Option<real>, render: real -> string)
    : (r: seq<seq<Cell>>)
    requires forall i :: 0 <= i < |rows| ==> k < |rows[i]|
    ensures |r| == |rows|
    ensures forall i :: 0 <= i < |r| ==> |r[i]| == |rows[i]|
    ensures forall i :: 0 <= i < |r| ==>
              r[i][k] == Number(parse(Normalize.CleanAmount(AsText(rows[i][k], render))))
    ensures forall i, j :: 0 <= i < |r| && 0 <= j < |r[i]| && j != k ==> r[i][j] == rows[i][j]
  {
    seq(|rows|, i requires 0 <= i < |rows| =>
      rows[i][k := Number(parse(Normalize.CleanAmount(AsText(rows[i][k], render))))])
  }

  function Pairs(names: seq<string>, cells: seq<Cell>): (r: seq<(string, Cell)>)
    requires |names| == |cells|
    ensures |r| == |names|
    ensures forall i :: 0 <= i < |r| ==> r[i] == (names[i], cells[i])
  {
    seq(|names|, i requires 0 <= i < |names| => (names[i], cells[i]))
  }

  /** `row.to_dict()` of one row whose amount cell `k` holds a number. */
  function RecordOf(columns: seq<string>, row: seq<Cell>, k: nat): (r: Record)
    requires |row| == |columns| && k < |columns| && row[k].Number?
    ensures r.amount == row[k].number
    ensures |r.fields| == |columns| - 1
    ensures forall j :: 0 <= j < k ==> r.fields[j] == (columns[j], row[j])
    ensures forall j :: k < j < |columns| ==> r.fields[j - 1] == (columns[j], row[j])
  {
    Record(row[k].number, Pairs(columns[..k], row[..k]) + Pairs(columns[k + 1..], row[k + 1..]))
  }

  /** After coercion a record's amount is the parse of the amount cell's filtered text, and
      its other fields are the row's other cells, verbatim and in column order. */
  lemma CoercedRecord(columns: seq<string>, rows: seq<seq<Cell>>, k: nat,
                      parse: string -> Option<real>, render: real -> string, i: nat)
    requires Rectangular(columns, rows) && k < |columns| && i < |rows|
    ensures var r := RecordOf(columns, CoerceRows(rows, k, parse, render)[i], k);
            && r.amount == parse(Normalize.CleanAmount(AsText(rows[i][k], render)))
            && (forall j :: 0 <= j < k ==> r.fields[j] == (columns[j], rows[i][j]))
            && (forall j :: k < j < |columns| ==> r.fields[j - 1] == (columns[j], rows[i][j]))
  {
  }

  class Frame {
    var columns: seq<string>
    var rows: seq<seq<Cell>>

    ghost predicate Valid()
      reads this
    {
      Rectangular(columns, rows)
    }

    constructor (columns: seq<string>, rows: seq<seq<Cell>>)
      requires Rectangular(columns, rows)
      ensures Valid() && this.columns == columns && this.rows == rows
    {
      this.columns := columns;
      this.rows := rows;
    }

    /** `df.columns = df.columns.str.lower().str.strip()` (line 72/73). */
    method StandardizeColumns()
      requires Valid()
      modifies this
      ensures Valid() && rows == old(rows)
      ensures |columns| == |old(columns)|
      ensures forall i :: 0 <= i < |columns| ==> columns[i] == Normalize.StandardName(old(columns)[i])
    {
      var names := columns;
      columns := seq(|names|, i requires 0 <= i < |names| => Normalize.StandardName(names[i]));
    }

    /** `df['amount'] = pd.to_numeric(df['amount'].astype(str).str.replace(...), errors='coerce')`
        (line 76/77). Returns the amount column's position, or the error selecting it raises,
        in which case nothing changes. */
    method CoerceAmount(parse: string -> Option<real>, render: real -> string)
      returns (k: Result<nat, SchemaError>)
      requires Valid()
      modifies this
      ensures Valid() && columns == old(columns)
      ensures k == AmountIndex(columns)
      ensures k.Err? ==> rows == old(rows)
      ensures k.Ok? ==> rows == CoerceRows(old(rows), k.value, parse, render)
    {
      k := AmountIndex(columns);
      if k.Ok? {
        rows := CoerceRows(rows, k.value, parse, render);
      }
    }

    /** The rows as `iterrows` and `to_dict('records')` give them, once column `k` holds
        numbers. */
    function Records(k: nat): (r: seq<Record>)
      reads this
      requires Valid() && k < |columns|
      requires forall i :: 0 <= i < |rows| ==> rows[i][k].Number?
      ensures |r| == |rows|
      ensures forall i :: 0 <= i < |r| ==> r[i] == RecordOf(columns, rows[i], k)
    {
      var names, cells := columns, rows;
      seq(|cells|, i requires 0 <= i < |cells| => RecordOf(names, cells[i], k))
    }
  }
}
