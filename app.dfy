/** `reconcile_transactions(opera_df, pos_df)` as a whole (streamlit_app.py, lines 68-125):
    it renames both frames' columns, coerces both amount columns in place, then matches. */
module App {
  import opened Wrappers
  import opened Ledger
  import Normalize
  import opened Frames
  import opened Engine

  /** Why a run produces no results: an amount column that cannot be selected, or a division
      by zero in the fuzzy pass. */
  datatype Failure = Schema(schema: SchemaError) | Arithmetic(arithmetic: ArithmeticError)

  /** The steps run in source order: lines 72 and 73 rename the columns of both frames before
      line 76 can raise for the Opera frame, and line 77 for the POS frame; only then are the
      records matched. `parse`, `render` and `scalars` stand for what pandas and NumPy do (see
      `Frames.CoerceAmount` and `Engine.Scalars`). */
  method ReconcileTransactions(opera: Frame, pos: Frame, parse: string -> Option<real>,
                               render: real -> string, scalars: Scalars)
    returns (res: Result<Results, Failure>)
    requires opera != pos && opera.Valid() && pos.Valid()
    modifies opera, pos
    ensures opera.Valid() && pos.Valid()
    ensures |opera.columns| == |old(opera.columns)| && |pos.columns| == |old(pos.columns)|
    ensures forall i :: 0 <= i < |opera.columns| ==> opera.columns[i] == Normalize.StandardName(old(opera.columns)[i])
    ensures forall i :: 0 <= i < |pos.columns| ==> pos.columns[i] == Normalize.StandardName(old(pos.columns)[i])
    ensures AmountIndex(opera.columns).Err? ==>
              && res == Err(Schema(AmountIndex(opera.columns).error))
              && opera.rows == old(opera.rows) && pos.rows == old(pos.rows)
    ensures AmountIndex(opera.columns).Ok? ==>
              opera.rows == CoerceRows(old(opera.rows), AmountIndex(opera.columns).value, parse, render)
    ensures AmountIndex(opera.columns).Ok? && AmountIndex(pos.columns).Err? ==>
              res == Err(Schema(AmountIndex(pos.columns).error)) && pos.rows == old(pos.rows)
    ensures AmountIndex(opera.columns).Ok? && AmountIndex(pos.columns).Ok? ==>
              && pos.rows == CoerceRows(old(pos.rows), AmountIndex(pos.columns).value, parse, render)
              && res == match Reconcile(opera.Records(AmountIndex(opera.columns).value),
                                        pos.Records(AmountIndex(pos.columns).value), scalars)
                        case Ok(r) => Ok(r)
                        case Err(e) => Err(Arithmetic(e))
  {
    opera.StandardizeColumns();
    pos.StandardizeColumns();
    var operaAmount := opera.CoerceAmount(parse, render);
    if operaAmount.Err? {
      return Err(Schema(operaAmount.error));
    }
    var posAmount := pos.CoerceAmount(parse, render);
    if posAmount.Err? {
      return Err(Schema(posAmount.error));
    }
    var outcome := ReconcileRecords(opera.Records(operaAmount.value), pos.Records(posAmount.value), scalars);
    match outcome
    case Ok(r) => res := Ok(r);
    case Err(e) => res := Err(Arithmetic(e));
  }
}
