/** The matching part of `reconcile_transactions` (streamlit_app.py, lines 79-125): an exact
    pass that pairs each Opera record with the first POS record within 0.01, a fuzzy pass
    for the Opera records that found none, and the working copies that lose, by value,
    every amount that was matched.

    The first half states the result declaratively; `ReconcileRecords` is the nested loop
    of the source, proved to compute it. */
module Engine {
  import opened Wrappers
  import opened Ledger

  /** The tolerance of the exact pass (line 96). */
  const ExactTolerance: real := 0.01
  /** The relative tolerance of the fuzzy pass (line 114). */
  const FuzzyRatio: real := 0.05

  /** An entry of `results['matched']`: the Opera row, the POS row, and the Opera amount. */
  datatype Match = Match(opera: Record, pos: Record, amount: real)

  /** An entry of `results['amount_mismatch']`: the two rows and their absolute difference. */
  datatype Mismatch = Mismatch(opera: Record, pos: Record, difference: real)

  /** The dictionary `reconcile_transactions` returns. */
  datatype Results = Results(
    matched: seq<Match>,
    unmatchedOpera: seq<Record>,
    unmatchedPos: seq<Record>,
    amountMismatch: seq<Mismatch>)

  /** The exception the division at line 114 can raise. */
  datatype ArithmeticError = ZeroDivisionError

  /** What kind of number the division at line 114 works on. `iterrows` hands out NumPy
      scalars for a frame whose columns are all numeric, and Python numbers for a frame
      with any other column. `difference / a` is a Python division, which raises on zero,
      only when both frames give Python numbers; otherwise it is a NumPy division, which
      gives infinity. */
  datatype Scalars = NumpyScalars | PythonScalars

  function Abs(x: real): real { if x < 0.0 then -x else x }

  /** The exact test of line 96. Any comparison with NaN is false. */
  predicate Close(x: Option<real>, y: Option<real>) {
    x.Some? && y.Some? && Abs(x.value - y.value) < ExactTolerance
  }

  /** The outcome of the fuzzy test of line 114 for one pair of amounts. */
  datatype Verdict = Similar(difference: real) | Dissimilar | DivisionByZero

  /** `difference > 0 and difference / a < 0.05`, evaluated as the source does: NaN makes
      `difference > 0` false; for `a == 0` with a positive difference the quotient is
      infinite (NumPy) or the division raises (Python); for a negative `a` the quotient is
      negative and so below 0.05. */
  function Compare(a: Option<real>, b: Option<real>, scalars: Scalars): (v: Verdict)
    ensures v.Similar? <==>
              && a.Some? && b.Some? && a.value != b.value && a.value != 0.0
              && Abs(a.value - b.value) / a.value < FuzzyRatio
    ensures v.Similar? ==> v.difference == Abs(a.value - b.value) && v.difference > 0.0
    ensures v.DivisionByZero? <==>
              scalars == PythonScalars && a == Some(0.0) && b.Some? && b.value != 0.0
  {
    if a.None? || b.None? then Dissimilar
    else
      var difference := Abs(a.value - b.value);
      if !(difference > 0.0) then Dissimilar
      else if a.value == 0.0 then (if scalars == PythonScalars then DivisionByZero else Dissimilar)
      else if difference / a.value < FuzzyRatio then Similar(difference)
      else Dissimilar
  }

  /** The position of the first POS record the exact test accepts for amount `a` (the inner
      loop of lines 95-108 with its `break`). */
  function FirstMatch(a: Option<real>, pos: seq<Record>): (r: Option<nat>)
    ensures r.Some? ==> r.value < |pos| && Close(a, pos[r.value].amount)
    ensures r.Some? ==> forall j :: 0 <= j < r.value ==> !Close(a, pos[j].amount)
    ensures r.None? ==> forall j :: 0 <= j < |pos| ==> !Close(a, pos[j].amount)
  {
    if pos == [] then None
    else if Close(a, pos[0].amount) then Some(0)
    else match FirstMatch(a, pos[1..])
      case None => None
      case Some(k) => Some(k + 1)
  }

  /** What the exact pass emits for one Opera record: nothing, or one entry. */
  function MatchOf(a: Record, pos: seq<Record>): (r: seq<Match>)
    ensures |r| <= 1
    ensures |r| == 1 <==> FirstMatch(a.amount, pos).Some?
    ensures r != [] ==> r[0].opera == a
  {
    match FirstMatch(a.amount, pos)
    case None => []
    case Some(j) => [Match(a, pos[j], a.amount.value)]
  }

  /** `results['matched']` after the Opera records `opera` have been processed. */
  function Matched(opera: seq<Record>, pos: seq<Record>): (r: seq<Match>)
    decreases |opera|
  {
    if opera == [] then [] else Matched(opera[..|opera| - 1], pos) + MatchOf(opera[|opera| - 1], pos)
  }

  /** The fuzzy scan of lines 112-119 for Opera record `a` over the POS records `ps`: one
      entry per similar record, in order, unless a division raises. */
  function FuzzyScan(a: Record, ps: seq<Record>, scalars: Scalars): (r: Result<seq<Mismatch>, ArithmeticError>)
    ensures r.Ok? ==> |r.value| <= |ps|
    decreases |ps|
  {
    if ps == [] then Ok([])
    else match FuzzyScan(a, ps[..|ps| - 1], scalars)
      case Err(e) => Err(e)
      case Ok(found) =>
        var b := ps[|ps| - 1];
        match Compare(a.amount, b.amount, scalars)
        case DivisionByZero => Err(ZeroDivisionError)
        case Dissimilar => Ok(found)
        case Similar(d) => Ok(found + [Mismatch(a, b, d)])
  }

  /** What the fuzzy pass emits for one Opera record: nothing when it was matched exactly
      (line 110), otherwise the scan of the full POS table. */
  function MismatchOf(a: Record, pos: seq<Record>, scalars: Scalars): Result<seq<Mismatch>, ArithmeticError> {
    if FirstMatch(a.amount, pos).Some? then Ok([]) else FuzzyScan(a, pos, scalars)
  }

  /** `results['amount_mismatch']` after the Opera records `opera` have been processed, or
      the exception that ended the run. */
  function AmountMismatch(opera: seq<Record>, pos: seq<Record>, scalars: Scalars)
    : Result<seq<Mismatch>, ArithmeticError>
    decreases |opera|
  {
    if opera == [] then Ok([])
    else match AmountMismatch(opera[..|opera| - 1], pos, scalars)
      case Err(e) => Err(e)
      case Ok(found) =>
        match MismatchOf(opera[|opera| - 1], pos, scalars)
        case Err(e) => Err(e)
        case Ok(more) => Ok(found + more)
  }

  /** Python's `amount != x`, which NaN satisfies whatever `x` is. */
  predicate Differs(amount: Option<real>, x: Option<real>) {
    amount.None? || x.None? || amount.value != x.value
  }

  predicate DiffersFromAll(amount: Option<real>, taken: seq<Option<real>>) {
    forall t :: 0 <= t < |taken| ==> Differs(amount, taken[t])
  }

  /** The records of `rs`, in order, whose amount differs from each of `taken`: what is left
      of a working copy after `df[df['amount'] != x]` for each `x` in `taken`. */
  function Retain(rs: seq<Record>, taken: seq<Option<real>>): (r: seq<Record>)
    ensures |r| <= |rs|
  {
    if rs == [] then []
    else (if DiffersFromAll(rs[0].amount, taken) then [rs[0]] else []) + Retain(rs[1..], taken)
  }

  /** A record is kept exactly when it is one of `rs` and its amount differs from each of
      `taken`. */
  lemma {:induction false} RetainMembers(rs: seq<Record>, taken: seq<Option<real>>, x: Record)
    ensures x in Retain(rs, taken) <==> x in rs && DiffersFromAll(x.amount, taken)
    decreases |rs|
  {
    if rs != [] {
      RetainMembers(rs[1..], taken, x);
      assert rs == [rs[0]] + rs[1..];
    }
  }

  /** The Opera amounts and the POS amounts of the matched entries, in order. */
  function OperaAmounts(ms: seq<Match>): (r: seq<Option<real>>)
    ensures |r| == |ms| && forall k :: 0 <= k < |ms| ==> r[k] == ms[k].opera.amount
  {
    seq(|ms|, k requires 0 <= k < |ms| => ms[k].opera.amount)
  }

  function PosAmounts(ms: seq<Match>): (r: seq<Option<real>>)
    ensures |r| == |ms| && forall k :: 0 <= k < |ms| ==> r[k] == ms[k].pos.amount
  {
    seq(|ms|, k requires 0 <= k < |ms| => ms[k].pos.amount)
  }

  /** The whole result of `reconcile_transactions` for two lists of records. */
  function Reconcile(opera: seq<Record>, pos: seq<Record>, scalars: Scalars): Result<Results, ArithmeticError> {
    match AmountMismatch(opera, pos, scalars)
    case Err(e) => Err(e)
    case Ok(mismatches) =>
      var matched := Matched(opera, pos);
      Ok(Results(matched, Retain(opera, OperaAmounts(matched)), Retain(pos, PosAmounts(matched)), mismatches))
  }

  // ----- Helper lemmas for the loop -----

  /** A working copy starts as the whole table. */
  lemma {:induction false} RetainNothing(rs: seq<Record>)
    ensures Retain(rs, []) == rs
    decreases |rs|
  {
    if rs != [] {
      RetainNothing(rs[1..]);
      assert rs == [rs[0]] + rs[1..];
    }
  }

  /** Dropping one more amount from a working copy is retaining against one more amount. */
  lemma {:induction false} RetainOneMore(rs: seq<Record>, taken: seq<Option<real>>, x: Option<real>)
    ensures Retain(Retain(rs, taken), [x]) == Retain(rs, taken + [x])
    decreases |rs|
  {
    if rs != [] {
      RetainOneMore(rs[1..], taken, x);
      var r := Retain(rs, taken);
      if DiffersFromAll(rs[0].amount, taken) {
        assert r == [rs[0]] + Retain(rs[1..], taken);
        assert r[1..] == Retain(rs[1..], taken);
      } else {
        assert r == Retain(rs[1..], taken);
      }
      assert DiffersFromAll(rs[0].amount, taken + [x]) <==>
             DiffersFromAll(rs[0].amount, taken) && Differs(rs[0].amount, x) by {
        assert forall t :: 0 <= t < |taken| ==> (taken + [x])[t] == taken[t];
        assert (taken + [x])[|taken|] == x;
      }
    }
  }

  lemma AmountsStep(ms: seq<Match>, m: Match)
    ensures OperaAmounts(ms + [m]) == OperaAmounts(ms) + [m.opera.amount]
    ensures PosAmounts(ms + [m]) == PosAmounts(ms) + [m.pos.amount]
  {
    assert forall k :: 0 <= k < |ms| ==> (ms + [m])[k] == ms[k];
  }

  lemma MatchedStep(opera: seq<Record>, pos: seq<Record>, i: nat)
    requires i < |opera|
    ensures Matched(opera[..i + 1], pos) == Matched(opera[..i], pos) + MatchOf(opera[i], pos)
  {
    assert opera[..i + 1][..i] == opera[..i];
  }

  lemma AmountMismatchStep(opera: seq<Record>, pos: seq<Record>, i: nat, scalars: Scalars,
                           found: seq<Mismatch>, more: seq<Mismatch>)
    requires i < |opera|
    requires AmountMismatch(opera[..i], pos, scalars) == Ok(found)
    requires MismatchOf(opera[i], pos, scalars) == Ok(more)
    ensures AmountMismatch(opera[..i + 1], pos, scalars) == Ok(found + more)
  {
    assert opera[..i + 1][..i] == opera[..i];
  }

  lemma {:induction false} FuzzyScanErrKeeps(a: Record, pos: seq<Record>, j: nat, scalars: Scalars, e: ArithmeticError)
    requires j <= |pos| && FuzzyScan(a, pos[..j], scalars) == Err(e)
    ensures FuzzyScan(a, pos, scalars) == Err(e)
    decreases |pos| - j
  {
    if j < |pos| {
      assert pos[..j + 1][..j] == pos[..j];
      FuzzyScanErrKeeps(a, pos, j + 1, scalars, e);
    } else {
      assert pos[..j] == pos;
    }
  }

  lemma {:induction false} AmountMismatchErrKeeps(opera: seq<Record>, pos: seq<Record>, i: nat, scalars: Scalars,
                                                   e: ArithmeticError)
    requires i <= |opera| && AmountMismatch(opera[..i], pos, scalars) == Err(e)
    ensures AmountMismatch(opera, pos, scalars) == Err(e)
    decreases |opera| - i
  {
    if i < |opera| {
      assert opera[..i + 1][..i] == opera[..i];
      AmountMismatchErrKeeps(opera, pos, i + 1, scalars, e);
    } else {
      assert opera[..i] == opera;
    }
  }

  /** The inner loop of lines 95-108: the first POS record, in table order, within 0.01 of
      `a`, found by scanning until the `break`. */
  method FindExactMatch(a: Record, pos: seq<Record>) returns (found: Option<nat>)
    ensures found == FirstMatch(a.amount, pos)
  {
    found := None;
    var j := 0;
    while j < |pos|
      invariant j <= |pos|
      invariant forall k :: 0 <= k < j ==> !Close(a.amount, pos[k].amount)
    {
      if Close(a.amount, pos[j].amount) {
        found := Some(j);
        break;
      }
      j := j + 1;
    }
  }

  /** The inner loop of lines 112-119: every POS record of the full table that passes the
      fuzzy test, in table order, or the exception the division raises. */
  method ScanSimilar(a: Record, pos: seq<Record>, scalars: Scalars)
    returns (res: Result<seq<Mismatch>, ArithmeticError>)
    ensures res == FuzzyScan(a, pos, scalars)
  {
    var entries: seq<Mismatch> := [];
    for k := 0 to |pos|
      invariant FuzzyScan(a, pos[..k], scalars) == Ok(entries)
    {
      var b := pos[k];
      assert pos[..k + 1][..k] == pos[..k];
      var verdict := Compare(a.amount, b.amount, scalars);
      if verdict.DivisionByZero? {
        FuzzyScanErrKeeps(a, pos, k + 1, scalars, ZeroDivisionError);
        return Err(ZeroDivisionError);
      }
      if verdict.Similar? {
        entries := entries + [Mismatch(a, b, verdict.difference)];
      }
    }
    assert pos[..|pos|] == pos;
    res := Ok(entries);
  }

  /** One turn of the outer loop for a record that has an exact match at `j`. */
  lemma ExactTurn(opera: seq<Record>, pos: seq<Record>, i: nat, scalars: Scalars,
                  matched: seq<Match>, mismatches: seq<Mismatch>, j: nat)
    requires i < |opera| && matched == Matched(opera[..i], pos)
    requires AmountMismatch(opera[..i], pos, scalars) == Ok(mismatches)
    requires FirstMatch(opera[i].amount, pos) == Some(j)
    ensures opera[i].amount.Some? && j < |pos| && pos[j].amount.Some?
    ensures Matched(opera[..i + 1], pos) == matched + [Match(opera[i], pos[j], opera[i].amount.value)]
    ensures AmountMismatch(opera[..i + 1], pos, scalars) == Ok(mismatches)
    ensures Retain(Retain(opera, OperaAmounts(matched)), [opera[i].amount])
            == Retain(opera, OperaAmounts(Matched(opera[..i + 1], pos)))
    ensures Retain(Retain(pos, PosAmounts(matched)), [pos[j].amount])
            == Retain(pos, PosAmounts(Matched(opera[..i + 1], pos)))
  {
    MatchedStep(opera, pos, i);
    AmountMismatchStep(opera, pos, i, scalars, mismatches, []);
    assert mismatches + [] == mismatches;
    var m := Match(opera[i], pos[j], opera[i].amount.value);
    AmountsStep(matched, m);
    RetainOneMore(opera, OperaAmounts(matched), opera[i].amount);
    RetainOneMore(pos, PosAmounts(matched), pos[j].amount);
  }

  /** One turn of the outer loop for a record without an exact match. */
  lemma FuzzyTurn(opera: seq<Record>, pos: seq<Record>, i: nat, scalars: Scalars,
                  matched: seq<Match>, mismatches: seq<Mismatch>)
    requires i < |opera| && matched == Matched(opera[..i], pos)
    requires AmountMismatch(opera[..i], pos, scalars) == Ok(mismatches)
    requires FirstMatch(opera[i].amount, pos).None?
    ensures Matched(opera[..i + 1], pos) == matched
    ensures FuzzyScan(opera[i], pos, scalars).Err? ==>
              Reconcile(opera, pos, scalars) == Err(FuzzyScan(opera[i], pos, scalars).error)
    ensures FuzzyScan(opera[i], pos, scalars).Ok? ==>
              AmountMismatch(opera[..i + 1], pos, scalars) == Ok(mismatches + FuzzyScan(opera[i], pos, scalars).value)
  {
    MatchedStep(opera, pos, i);
    assert matched + [] == matched;
    assert opera[..i + 1][..i] == opera[..i];
    match FuzzyScan(opera[i], pos, scalars)
    case Err(e) =>
      AmountMismatchErrKeeps(opera, pos, i + 1, scalars, e);
    case Ok(more) =>
      AmountMismatchStep(opera, pos, i, scalars, mismatches, more);
  }

  /** The outer loop of lines 88-125. `operaUnmatched` and `posUnmatched` are the working
      copies, which lose every record sharing a matched amount (lines 104-105); the fuzzy
      scan runs only for a record without an exact match, over the full POS table, and an
      exception it raises ends the run. */
  method ReconcileRecords(opera: seq<Record>, pos: seq<Record>, scalars: Scalars)
    returns (res: Result<Results, ArithmeticError>)
    ensures res == Reconcile(opera, pos, scalars)
  {
    var matched: seq<Match> := [];
    var mismatches: seq<Mismatch> := [];
    var operaUnmatched := opera;
    var posUnmatched := pos;
    RetainNothing(opera);
    RetainNothing(pos);
    for i := 0 to |opera|
      invariant matched == Matched(opera[..i], pos)
      invariant AmountMismatch(opera[..i], pos, scalars) == Ok(mismatches)
      invariant operaUnmatched == Retain(opera, OperaAmounts(matched))
      invariant posUnmatched == Retain(pos, PosAmounts(matched))
    {
      var a := opera[i];
      var exact := FindExactMatch(a, pos);
      if exact.Some? {
        var b := pos[exact.value];
        ExactTurn(opera, pos, i, scalars, matched, mismatches, exact.value);
        matched := matched + [Match(a, b, a.amount.value)];
        operaUnmatched := Retain(operaUnmatched, [a.amount]);
        posUnmatched := Retain(posUnmatched, [b.amount]);
      } else {
        FuzzyTurn(opera, pos, i, scalars, matched, mismatches);
        var similar := ScanSimilar(a, pos, scalars);
        if similar.Err? {
          return Err(similar.error);
        }
        mismatches := mismatches + similar.value;
      }
    }
    assert opera[..|opera|] == opera;
    res := Ok(Results(matched, operaUnmatched, posUnmatched, mismatches));
  }
}
