/** The values the reconciliation passes around: table cells and transaction records. */
module Ledger {
  import opened Wrappers

  /** One cell of a loaded table. A cell is its text as `astype(str)` shows it (`Text`) until
      `pd.to_numeric(..., errors='coerce')` has replaced it by a number (`Number`, where
      `None` is the NaN produced for text that does not parse). */
  datatype Cell = Text(text: string) | Number(number: Option<real>)

  /** One transaction row as `iterrows` and `to_dict` hand it over: its parsed amount
      (`None` for NaN) and every other column as a (name, value) pair, in column order. */
  datatype Record = Record(amount: Option<real>, fields: seq<(string, Cell)>)
}
