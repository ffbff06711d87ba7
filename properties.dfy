/** What `reconcile_transactions` (streamlit_app.py, lines 68-125) promises about its four
    result lists, proved about the declarative `Engine.Reconcile`, which the loop
    `Engine.ReconcileRecords` computes. */
module Properties {
  import opened Wrappers
  import opened Ledger
  import opened Engine

  // ----- The exact pass -----

  /** An entry is in `matched` exactly when its Opera record is one of the Opera records and
      the exact pass emits that very entry for it. */
  lemma {:induction false} MatchedMembers(opera: seq<Record>, pos: seq<Record>, m: Match)
    ensures m in Matched(opera, pos) <==> m.opera in opera && MatchOf(m.opera, pos) == [m]
    decreases |opera|
  {
    if opera != [] {
      var init, last := opera[..|opera| - 1], opera[|opera| - 1];
      MatchedMembers(init, pos, m);
      assert opera == init + [last];
      assert m in MatchOf(last, pos) <==> m.opera == last && MatchOf(last, pos) == [m];
    }
  }

  /** Every matched entry pairs an Opera record with the EARLIEST POS record within 0.01 of
      it, and carries the Opera amount. */
  lemma MatchedEntry(opera: seq<Record>, pos: seq<Record>, m: Match)
    requires m in Matched(opera, pos)
    ensures m.opera in opera && m.pos in pos
    ensures m.opera.amount.Some? && m.pos.amount.Some? && m.amount == m.opera.amount.value
    ensures Abs(m.opera.amount.value - m.pos.amount.value) < ExactTolerance
    ensures FirstMatch(m.opera.amount, pos).Some? && m.pos == pos[FirstMatch(m.opera.amount, pos).value]
    ensures forall j :: 0 <= j < |pos| && Close(m.opera.amount, pos[j].amount) ==>
              FirstMatch(m.opera.amount, pos).value <= j
  {
    MatchedMembers(opera, pos, m);
  }

  lemma MatchedSnoc(opera: seq<Record>, a: Record, pos: seq<Record>)
    ensures Matched(opera + [a], pos) == Matched(opera, pos) + MatchOf(a, pos)
  {
    var o := opera + [a];
    assert o[..|o| - 1] == opera && o[|o| - 1] == a;
  }

  lemma ConcatSnoc<T>(xs: seq<T>, ys: seq<T>)
    requires ys != []
    ensures ys == ys[..|ys| - 1] + [ys[|ys| - 1]]
    ensures xs + ys == (xs + ys[..|ys| - 1]) + [ys[|ys| - 1]]
  {
  }

  /** Matched entries come out in Opera order: the entries for a concatenation are those for
      the first part followed by those for the second. */
  lemma {:induction false} MatchedConcat(o1: seq<Record>, o2: seq<Record>, pos: seq<Record>)
    ensures Matched(o1 + o2, pos) == Matched(o1, pos) + Matched(o2, pos)
    decreases |o2|
  {
    if o2 == [] {
      assert o1 + o2 == o1;
    } else {
      var init, last := o2[..|o2| - 1], o2[|o2| - 1];
      ConcatSnoc(o1, o2);
      MatchedSnoc(o1 + init, last, pos);
      MatchedSnoc(init, last, pos);
      MatchedConcat(o1, init, pos);
    }
  }

  /** Each Opera record contributes at most one matched entry, so there are no more entries
      than Opera records. */
  lemma {:induction false} MatchedLength(opera: seq<Record>, pos: seq<Record>)
    ensures |Matched(opera, pos)| <= |opera|
    decreases |opera|
  {
    if opera != [] {
      MatchedLength(opera[..|opera| - 1], pos);
    }
  }

  /** The exact pass scans the full POS table for every Opera record, so one POS record can be
      matched by several Opera records. */
  lemma PosRecordMatchedTwice()
    ensures var a1, a2 := Record(Some(50.0), [("id", Text("A1"))]), Record(Some(50.0), [("id", Text("A2"))]);
            var b := Record(Some(50.0), [("id", Text("B1"))]);
            Reconcile([a1, a2], [b], PythonScalars) == Ok(Results([Match(a1, b, 50.0), Match(a2, b, 50.0)], [], [], []))
  {
    var a1, a2 := Record(Some(50.0), [("id", Text("A1"))]), Record(Some(50.0), [("id", Text("A2"))]);
    var b := Record(Some(50.0), [("id", Text("B1"))]);
    var opera, pos := [a1, a2], [b];
    assert opera[..1] == [a1] && [a1][..0] == [];
    assert FirstMatch(a1.amount, pos) == Some(0);
    var none: seq<Mismatch> := [];
    assert none + none == none;
    var ms := [Match(a1, b, 50.0), Match(a2, b, 50.0)];
    var noMatch: seq<Match> := [];
    assert Matched([a1], pos) == [ms[0]] by { assert noMatch + [ms[0]] == [ms[0]]; }
    assert Matched(opera, pos) == ms;
    assert AmountMismatch([a1], pos, PythonScalars) == Ok([]);
    assert AmountMismatch(opera, pos, PythonScalars) == Ok([]);
    var oa, pa := OperaAmounts(ms), PosAmounts(ms);
    assert !DiffersFromAll(a1.amount, oa) by { assert !Differs(a1.amount, oa[0]); }
    assert !DiffersFromAll(a2.amount, oa) by { assert !Differs(a2.amount, oa[0]); }
    assert !DiffersFromAll(b.amount, pa) by { assert !Differs(b.amount, pa[0]); }
    assert opera[1..] == [a2] && [a2][1..] == [] && pos[1..] == [];
    assert Retain(opera, oa) == [];
    assert Retain(pos, pa) == [];
  }

  // ----- The fuzzy pass -----

  /** The fuzzy scan for `a` lists exactly the POS records that pass the test, each with its
      difference. */
  lemma {:induction false} FuzzyScanMembers(a: Record, ps: seq<Record>, scalars: Scalars, mm: Mismatch)
    requires FuzzyScan(a, ps, scalars).Ok?
    ensures mm in FuzzyScan(a, ps, scalars).value <==>
              mm.opera == a && mm.pos in ps && Compare(a.amount, mm.pos.amount, scalars) == Similar(mm.difference)
    decreases |ps|
  {
    if ps != [] {
      var init, last := ps[..|ps| - 1], ps[|ps| - 1];
      FuzzyScanMembers(a, init, scalars, mm);
      assert ps == init + [last];
    }
  }

  /** The fuzzy entries for `a` come out in POS order: the scan of a concatenation lists the
      entries for the first part, then those for the second. */
  lemma {:induction false} FuzzyScanConcat(a: Record, p1: seq<Record>, p2: seq<Record>, scalars: Scalars,
                                           x: seq<Mismatch>, y: seq<Mismatch>)
    requires FuzzyScan(a, p1, scalars) == Ok(x) && FuzzyScan(a, p2, scalars) == Ok(y)
    ensures FuzzyScan(a, p1 + p2, scalars) == Ok(x + y)
    decreases |p2|
  {
    if p2 == [] {
      assert p1 + p2 == p1;
      assert x + y == x;
    } else {
      var init, last := p2[..|p2| - 1], p2[|p2| - 1];
      var y' := FuzzyScan(a, init, scalars).value;
      FuzzyScanConcat(a, p1, init, scalars, x, y');
      assert (p1 + p2)[..|p1 + p2| - 1] == p1 + init;
      assert (p1 + p2)[|p1 + p2| - 1] == last;
      match Compare(a.amount, last.amount, scalars)
      case Similar(d) =>
        assert x + y' + [Mismatch(a, last, d)] == x + (y' + [Mismatch(a, last, d)]);
      case Dissimilar =>
      case DivisionByZero =>
    }
  }

  lemma AmountMismatchSnoc(opera: seq<Record>, a: Record, pos: seq<Record>, scalars: Scalars,
                           x: seq<Mismatch>, z: seq<Mismatch>)
    requires AmountMismatch(opera, pos, scalars) == Ok(x) && MismatchOf(a, pos, scalars) == Ok(z)
    ensures AmountMismatch(opera + [a], pos, scalars) == Ok(x + z)
  {
    var o := opera + [a];
    assert o[..|o| - 1] == opera && o[|o| - 1] == a;
  }

  lemma AmountMismatchUnsnoc(opera: seq<Record>, a: Record, pos: seq<Record>, scalars: Scalars, w: seq<Mismatch>)
    requires AmountMismatch(opera + [a], pos, scalars) == Ok(w)
    ensures AmountMismatch(opera, pos, scalars).Ok? && MismatchOf(a, pos, scalars).Ok?
    ensures w == AmountMismatch(opera, pos, scalars).value + MismatchOf(a, pos, scalars).value
  {
    var o := opera + [a];
    assert o[..|o| - 1] == opera && o[|o| - 1] == a;
  }

  /** Mismatch entries come out in Opera order, and within one Opera record in POS order
      (`FuzzyScanConcat`): the entries for a concatenation of Opera tables are those of the
      first part followed by those of the second. */
  lemma {:induction false} AmountMismatchConcat(o1: seq<Record>, o2: seq<Record>, pos: seq<Record>, scalars: Scalars,
                                                x: seq<Mismatch>, y: seq<Mismatch>)
    requires AmountMismatch(o1, pos, scalars) == Ok(x) && AmountMismatch(o2, pos, scalars) == Ok(y)
    ensures AmountMismatch(o1 + o2, pos, scalars) == Ok(x + y)
    decreases |o2|
  {
    if o2 == [] {
      assert o1 + o2 == o1;
      assert x + y == x;
    } else {
      var init, last := o2[..|o2| - 1], o2[|o2| - 1];
      ConcatSnoc(o1, o2);
      AmountMismatchUnsnoc(init, last, pos, scalars, y);
      var y', z := AmountMismatch(init, pos, scalars).value, MismatchOf(last, pos, scalars).value;
      assert AmountMismatch(o1 + init, pos, scalars) == Ok(x + y') by {
        AmountMismatchConcat(o1, init, pos, scalars, x, y');
      }
      assert AmountMismatch(o1 + init + [last], pos, scalars) == Ok(x + y' + z) by {
        AmountMismatchSnoc(o1 + init, last, pos, scalars, x + y', z);
      }
      assert x + y' + z == x + y;
    }
  }

  /** An entry is in `amount_mismatch` exactly when its Opera record had no exact match and its
      POS record, anywhere in the full POS table, passes the fuzzy test. */
  lemma {:induction false} AmountMismatchMembers(opera: seq<Record>, pos: seq<Record>, scalars: Scalars, mm: Mismatch)
    requires AmountMismatch(opera, pos, scalars).Ok?
    ensures mm in AmountMismatch(opera, pos, scalars).value <==>
              && mm.opera in opera && FirstMatch(mm.opera.amount, pos).None?
              && mm.pos in pos && Compare(mm.opera.amount, mm.pos.amount, scalars) == Similar(mm.difference)
    decreases |opera|
  {
    if opera != [] {
      var init, last := opera[..|opera| - 1], opera[|opera| - 1];
      assert opera == init + [last];
      AmountMismatchMembers(init, pos, scalars, mm);
      if FirstMatch(last.amount, pos).None? {
        FuzzyScanMembers(last, pos, scalars, mm);
      }
    }
  }

  /** Each mismatch entry has `difference = |a - b|`, a positive difference, a non-zero Opera
      amount and `difference / a < 0.05`, and its Opera record has no exact match. */
  lemma MismatchEntry(opera: seq<Record>, pos: seq<Record>, scalars: Scalars, res: Results, mm: Mismatch)
    requires Reconcile(opera, pos, scalars) == Ok(res) && mm in res.amountMismatch
    ensures mm.opera in opera && mm.pos in pos && FirstMatch(mm.opera.amount, pos).None?
    ensures mm.opera.amount.Some? && mm.pos.amount.Some?
    ensures mm.difference == Abs(mm.opera.amount.value - mm.pos.amount.value) && mm.difference > 0.0
    ensures mm.opera.amount.value != 0.0 && mm.difference / mm.opera.amount.value < FuzzyRatio
  {
    AmountMismatchMembers(opera, pos, scalars, mm);
  }

  /** No Opera record is both in a matched entry and in a mismatch entry. */
  lemma MatchedAndMismatchedDisjoint(opera: seq<Record>, pos: seq<Record>, scalars: Scalars, res: Results,
                                     m: Match, mm: Mismatch)
    requires Reconcile(opera, pos, scalars) == Ok(res) && m in res.matched && mm in res.amountMismatch
    ensures m.opera != mm.opera
  {
    MatchedMembers(opera, pos, m);
    AmountMismatchMembers(opera, pos, scalars, mm);
  }

  /** The fuzzy pass ignores the working copies: a POS record consumed by an exact match is
      still reported as a mismatch for a later Opera record. */
  lemma ConsumedPosRecordStillMismatched()
    ensures var a1, a2 := Record(Some(100.0), []), Record(Some(101.0), []);
            var b1, b2 := Record(Some(100.0), []), Record(Some(102.0), []);
            Reconcile([a1, a2], [b1, b2], NumpyScalars) ==
              Ok(Results([Match(a1, b1, 100.0)], [a2], [b2], [Mismatch(a2, b1, 1.0), Mismatch(a2, b2, 1.0)]))
  {
    var a1, a2 := Record(Some(100.0), []), Record(Some(101.0), []);
    var b1, b2 := Record(Some(100.0), []), Record(Some(102.0), []);
    var opera, pos := [a1, a2], [b1, b2];
    var m1, m2 := Mismatch(a2, b1, 1.0), Mismatch(a2, b2, 1.0);
    var ms := [Match(a1, b1, 100.0)];
    assert FirstMatch(a1.amount, pos) == Some(0);
    assert FirstMatch(a2.amount, pos) == None;
    assert opera[..1] == [a1] && [a1][..0] == [];
    assert Matched(opera, pos) == ms by {
      var noMatch: seq<Match> := [];
      assert noMatch + ms == ms && ms + noMatch == ms;
      assert Matched([a1], pos) == ms;
    }
    assert AmountMismatch(opera, pos, NumpyScalars) == Ok([m1, m2]) by {
      assert pos[..1] == [b1] && [b1][..0] == [];
      var none: seq<Mismatch> := [];
      assert none + [m1] == [m1] && none + none == none && none + [m1, m2] == [m1, m2] && [m1] + [m2] == [m1, m2];
      assert Compare(a2.amount, b1.amount, NumpyScalars) == Similar(1.0);
      assert Compare(a2.amount, b2.amount, NumpyScalars) == Similar(1.0);
      assert FuzzyScan(a2, [b1], NumpyScalars) == Ok([m1]);
      assert FuzzyScan(a2, pos, NumpyScalars) == Ok([m1, m2]);
      assert AmountMismatch([a1], pos, NumpyScalars) == Ok([]);
    }
    var oa, pa := OperaAmounts(ms), PosAmounts(ms);
    assert Retain(opera, oa) == [a2] by {
      assert !DiffersFromAll(a1.amount, oa) by { assert !Differs(a1.amount, oa[0]); }
      assert DiffersFromAll(a2.amount, oa);
      assert opera[1..] == [a2] && [a2][1..] == [];
      assert Retain([a2], oa) == [a2];
    }
    assert Retain(pos, pa) == [b2] by {
      assert !DiffersFromAll(b1.amount, pa) by { assert !Differs(b1.amount, pa[0]); }
      assert DiffersFromAll(b2.amount, pa);
      assert pos[1..] == [b2] && [b2][1..] == [];
      assert Retain([b2], pa) == [b2];
    }
  }

  /** The exact test of line 96 is symmetric, and NaN is within 0.01 of nothing. */
  lemma CloseSymmetric(a: Option<real>, b: Option<real>)
    ensures Close(a, b) <==> Close(b, a)
    ensures a.None? || b.None? ==> !Close(a, b)
  {
  }

  /** Python's `!=` on amounts: NaN differs even from itself, a parsed amount differs from
      itself never, and amounts within 0.01 but not equal still differ, so the mask of
      lines 104-105 keeps them. */
  lemma DiffersFacts(a: Option<real>, b: Option<real>)
    ensures Differs(a, a) <==> a.None?
    ensures Differs(a, b) <==> Differs(b, a)
    ensures Close(a, b) && a != b ==> Differs(a, b)
  {
  }

  /** A zero Opera amount never passes the fuzzy test: the quotient is infinite or the
      division raises. */
  lemma ZeroOperaNeverSimilar(b: Option<real>, scalars: Scalars)
    ensures !Compare(Some(0.0), b, scalars).Similar?
  {
  }

  /** A negative Opera amount passes the fuzzy test against every different amount, since
      the quotient is negative. */
  lemma NegativeOperaAlwaysSimilar(a: real, b: real, scalars: Scalars)
    requires a < 0.0 && b != a
    ensures Compare(Some(a), Some(b), scalars) == Similar(Abs(a - b))
  {
    var d := Abs(a - b);
    assert d / a < 0.0 by {
      assert d > 0.0;
      assert d / a * a == d;
    }
  }

  // ----- The working copies -----

  /** A working copy keeps its records in table order: filtering distributes over
      concatenation. */
  lemma {:induction false} RetainConcat(r1: seq<Record>, r2: seq<Record>, taken: seq<Option<real>>)
    ensures Retain(r1 + r2, taken) == Retain(r1, taken) + Retain(r2, taken)
    decreases |r1|
  {
    if r1 == [] {
      assert r1 + r2 == r2;
    } else {
      var r := r1 + r2;
      assert r[0] == r1[0] && r[1..] == r1[1..] + r2;
      var head := if DiffersFromAll(r1[0].amount, taken) then [r1[0]] else [];
      assert Retain(r, taken) == head + Retain(r1[1..] + r2, taken);
      RetainConcat(r1[1..], r2, taken);
      assert Retain(r1, taken) == head + Retain(r1[1..], taken);
    }
  }

  /** An Opera record is left in `unmatched_opera` exactly when it had no exact match: a
      record sharing the amount of a matched one has the same match itself. */
  lemma UnmatchedOperaExactly(opera: seq<Record>, pos: seq<Record>, scalars: Scalars, res: Results, r: Record)
    requires Reconcile(opera, pos, scalars) == Ok(res)
    ensures r in res.unmatchedOpera <==> r in opera && FirstMatch(r.amount, pos).None?
  {
    var ms := Matched(opera, pos);
    RetainMembers(opera, OperaAmounts(ms), r);
    if r in opera && FirstMatch(r.amount, pos).None? {
      forall t | 0 <= t < |ms|
        ensures Differs(r.amount, OperaAmounts(ms)[t])
      {
        MatchedMembers(opera, pos, ms[t]);
      }
    }
    if r in opera && FirstMatch(r.amount, pos).Some? {
      var m := MatchOf(r, pos)[0];
      MatchedMembers(opera, pos, m);
      var t :| 0 <= t < |ms| && ms[t] == m;
      assert !Differs(r.amount, OperaAmounts(ms)[t]);
    }
  }

  /** On the Opera side the result is a partition: each Opera record is in a matched entry
      or left in `unmatched_opera`, never both and never neither. */
  lemma OperaRecordMatchedOrLeft(opera: seq<Record>, pos: seq<Record>, scalars: Scalars, res: Results, r: Record)
    requires Reconcile(opera, pos, scalars) == Ok(res) && r in opera
    ensures r in res.unmatchedOpera <==> forall m :: m in res.matched ==> m.opera != r
  {
    UnmatchedOperaExactly(opera, pos, scalars, res, r);
    if FirstMatch(r.amount, pos).Some? {
      MatchedMembers(opera, pos, MatchOf(r, pos)[0]);
    } else {
      forall m | m in res.matched ensures m.opera != r {
        MatchedMembers(opera, pos, m);
      }
    }
  }

  /** A POS record is left in `unmatched_pos` exactly when its amount differs from the POS
      amount of every matched entry; in particular no matched POS record is left. */
  lemma UnmatchedPosExactly(opera: seq<Record>, pos: seq<Record>, scalars: Scalars, res: Results, r: Record)
    requires Reconcile(opera, pos, scalars) == Ok(res)
    ensures r in res.unmatchedPos <==> r in pos && forall m :: m in res.matched ==> Differs(r.amount, m.pos.amount)
    ensures forall m :: m in res.matched ==> m.pos !in res.unmatchedPos
  {
    var ms := res.matched;
    RetainMembers(pos, PosAmounts(ms), r);
    assert DiffersFromAll(r.amount, PosAmounts(ms)) <==> forall m :: m in ms ==> Differs(r.amount, m.pos.amount) by {
      if DiffersFromAll(r.amount, PosAmounts(ms)) {
        forall m | m in ms ensures Differs(r.amount, m.pos.amount) {
          var t :| 0 <= t < |ms| && ms[t] == m;
          assert PosAmounts(ms)[t] == m.pos.amount;
        }
      }
    }
    forall m | m in ms ensures m.pos !in res.unmatchedPos {
      RetainMembers(pos, PosAmounts(ms), m.pos);
      MatchedEntry(opera, pos, m);
      var t :| 0 <= t < |ms| && ms[t] == m;
      assert PosAmounts(ms)[t] == m.pos.amount;
    }
  }

  /** Removal is by value: a POS record that no entry mentions still leaves `unmatched_pos`
      when it shares the amount of a matched one. */
  lemma UnexaminedPosRecordRemoved()
    ensures var a := Record(Some(50.0), []);
            var b1, b2 := Record(Some(50.0), [("id", Text("B1"))]), Record(Some(50.0), [("id", Text("B2"))]);
            Reconcile([a], [b1, b2], PythonScalars) == Ok(Results([Match(a, b1, 50.0)], [], [], []))
  {
    var a := Record(Some(50.0), []);
    var b1, b2 := Record(Some(50.0), [("id", Text("B1"))]), Record(Some(50.0), [("id", Text("B2"))]);
    var pos := [b1, b2];
    assert [a][..0] == [];
    assert FirstMatch(a.amount, pos) == Some(0);
    var ms := [Match(a, b1, 50.0)];
    var noMatch: seq<Match> := [];
    assert noMatch + ms == ms;
    var none: seq<Mismatch> := [];
    assert none + none == none;
    assert Matched([a], pos) == ms;
    assert AmountMismatch([a], pos, PythonScalars) == Ok([]);
    var oa, pa := OperaAmounts(ms), PosAmounts(ms);
    assert !DiffersFromAll(a.amount, oa) by { assert !Differs(a.amount, oa[0]); }
    assert !DiffersFromAll(b1.amount, pa) by { assert !Differs(b1.amount, pa[0]); }
    assert !DiffersFromAll(b2.amount, pa) by { assert !Differs(b2.amount, pa[0]); }
    assert [a][1..] == [] && pos[1..] == [b2] && [b2][1..] == [];
    assert Retain([a], oa) == [];
    assert Retain(pos, pa) == [];
  }

  // ----- NaN amounts -----

  /** A record whose amount did not parse is in no matched and no mismatch entry, on either
      side, and is always kept in its unmatched list. */
  lemma NaNRecordsStayUnmatched(opera: seq<Record>, pos: seq<Record>, scalars: Scalars, res: Results, r: Record)
    requires Reconcile(opera, pos, scalars) == Ok(res) && r.amount.None?
    ensures r in opera ==> r in res.unmatchedOpera
    ensures r in pos ==> r in res.unmatchedPos
    ensures forall m :: m in res.matched ==> m.opera != r && m.pos != r
    ensures forall mm :: mm in res.amountMismatch ==> mm.opera != r && mm.pos != r
  {
    UnmatchedOperaExactly(opera, pos, scalars, res, r);
    UnmatchedPosExactly(opera, pos, scalars, res, r);
    forall m | m in res.matched ensures m.opera != r && m.pos != r {
      MatchedEntry(opera, pos, m);
    }
    forall mm | mm in res.amountMismatch ensures mm.opera != r && mm.pos != r {
      MismatchEntry(opera, pos, scalars, res, mm);
    }
  }

  // ----- When the run raises -----

  lemma {:induction false} FuzzyScanFails(a: Record, ps: seq<Record>, scalars: Scalars)
    ensures FuzzyScan(a, ps, scalars).Err? <==>
              exists j :: 0 <= j < |ps| && Compare(a.amount, ps[j].amount, scalars).DivisionByZero?
    decreases |ps|
  {
    if ps != [] {
      var init := ps[..|ps| - 1];
      FuzzyScanFails(a, init, scalars);
      assert forall j :: 0 <= j < |init| ==> init[j] == ps[j];
    }
  }

  lemma {:induction false} AmountMismatchFails(opera: seq<Record>, pos: seq<Record>, scalars: Scalars)
    ensures AmountMismatch(opera, pos, scalars).Err? <==>
              exists i :: 0 <= i < |opera| && MismatchOf(opera[i], pos, scalars).Err?
    decreases |opera|
  {
    if opera != [] {
      var init := opera[..|opera| - 1];
      AmountMismatchFails(init, pos, scalars);
      assert forall i :: 0 <= i < |init| ==> init[i] == opera[i];
    }
  }

  /** The run ends in `ZeroDivisionError` exactly when both frames give Python numbers, some
      Opera amount is zero with no POS amount within 0.01, and some POS amount parsed; the
      NumPy division never raises. */
  lemma ReconcileFails(opera: seq<Record>, pos: seq<Record>, scalars: Scalars)
    ensures Reconcile(opera, pos, scalars).Err? <==>
              && scalars == PythonScalars
              && (exists i :: 0 <= i < |opera| && opera[i].amount == Some(0.0) && FirstMatch(opera[i].amount, pos).None?)
              && (exists j :: 0 <= j < |pos| && pos[j].amount.Some?)
  {
    AmountMismatchFails(opera, pos, scalars);
    forall i | 0 <= i < |opera| {
      FuzzyScanFails(opera[i], pos, scalars);
    }
    if scalars == PythonScalars
       && (exists i :: 0 <= i < |opera| && opera[i].amount == Some(0.0) && FirstMatch(opera[i].amount, pos).None?)
       && (exists j :: 0 <= j < |pos| && pos[j].amount.Some?)
    {
      var i :| 0 <= i < |opera| && opera[i].amount == Some(0.0) && FirstMatch(opera[i].amount, pos).None?;
      var j :| 0 <= j < |pos| && pos[j].amount.Some?;
      assert !Close(opera[i].amount, pos[j].amount);
      assert Compare(opera[i].amount, pos[j].amount, scalars).DivisionByZero?;
    }
  }

  // ----- Whole runs -----

  /** Reconciling two empty ledgers gives four empty lists. */
  lemma EmptyLedgers(scalars: Scalars)
    ensures Reconcile([], [], scalars) == Ok(Results([], [], [], []))
  {
  }

  /** 100.00 against 100.005: one matched entry, nothing left over. */
  lemma WithinToleranceMatches(scalars: Scalars)
    ensures var a, b := Record(Some(100.0), [("id", Text("A1"))]), Record(Some(100.005), [("id", Text("B1"))]);
            Reconcile([a], [b], scalars) == Ok(Results([Match(a, b, 100.0)], [], [], []))
  {
    var a, b := Record(Some(100.0), [("id", Text("A1"))]), Record(Some(100.005), [("id", Text("B1"))]);
    assert [a][..0] == [];
    assert FirstMatch(a.amount, [b]) == Some(0);
    var ms := [Match(a, b, 100.0)];
    var noMatch: seq<Match> := [];
    assert noMatch + ms == ms;
    var none: seq<Mismatch> := [];
    assert none + none == none;
    assert Matched([a], [b]) == ms;
    assert AmountMismatch([a], [b], scalars) == Ok([]);
    var oa, pa := OperaAmounts(ms), PosAmounts(ms);
    assert !DiffersFromAll(a.amount, oa) by { assert !Differs(a.amount, oa[0]); }
    assert !DiffersFromAll(b.amount, pa) by { assert !Differs(b.amount, pa[0]); }
    assert [a][1..] == [] && [b][1..] == [];
  }

  /** 100.00 against 104.00: one mismatch entry with difference 4, and both records stay in
      their unmatched lists, since only exact matches leave the working copies. */
  lemma FourPercentMismatches(scalars: Scalars)
    ensures var a, b := Record(Some(100.0), [("id", Text("A1"))]), Record(Some(104.0), [("id", Text("B1"))]);
            Reconcile([a], [b], scalars) == Ok(Results([], [a], [b], [Mismatch(a, b, 4.0)]))
  {
    var a, b := Record(Some(100.0), [("id", Text("A1"))]), Record(Some(104.0), [("id", Text("B1"))]);
    assert FirstMatch(a.amount, [b]) == None;
    assert [b][..0] == [] && [a][..0] == [];
    assert Compare(a.amount, b.amount, scalars) == Similar(4.0);
    var none: seq<Mismatch> := [];
    assert none + [Mismatch(a, b, 4.0)] == [Mismatch(a, b, 4.0)];
    assert FuzzyScan(a, [b], scalars) == Ok([Mismatch(a, b, 4.0)]);
    var noMatch: seq<Match> := [];
    assert noMatch + noMatch == noMatch;
    assert Matched([a], [b]) == [];
    RetainNothing([a]);
    RetainNothing([b]);
  }

  /** 100.00 against 200.00: neither matched nor mismatched. */
  lemma FarApartStayUnmatched(scalars: Scalars)
    ensures var a, b := Record(Some(100.0), []), Record(Some(200.0), []);
            Reconcile([a], [b], scalars) == Ok(Results([], [a], [b], []))
  {
    var a, b := Record(Some(100.0), []), Record(Some(200.0), []);
    assert FirstMatch(a.amount, [b]) == None;
    assert [b][..0] == [] && [a][..0] == [];
    assert Compare(a.amount, b.amount, scalars) == Dissimilar;
    var none: seq<Mismatch> := [];
    assert none + none == none;
    assert FuzzyScan(a, [b], scalars) == Ok([]);
    var noMatch: seq<Match> := [];
    assert noMatch + noMatch == noMatch;
    assert Matched([a], [b]) == [];
    RetainNothing([a]);
    RetainNothing([b]);
  }

}
