# RECONN transaction reconciliation, modelled in Dafny

RECONN is a Streamlit page for a hotel. It takes an Opera PMS export and a POS export as two
DataFrames and reconciles them in `reconcile_transactions` (streamlit_app.py, lines 68-125).
This project models that function and proves what it does to its four result lists.

The function runs in three stages:

1. **Normalisation (lines 72-77).** Both frames' column names are lower-cased and stripped in
   place. Then the `amount` column is replaced in place: its text keeps only digits, `.` and
   `-`, and what is left goes through `pd.to_numeric(..., errors='coerce')`, which gives NaN
   for text that does not parse. A missing `amount` column raises `KeyError`. Two columns with
   that name make `df['amount']` a DataFrame with no `.str`, so that raises `AttributeError`.
2. **Exact pass (lines 92-108).** Each Opera record, in order, scans the *full* POS table for
   the first record within 0.01. A hit emits one matched entry `(opera, pos, opera amount)` and
   shrinks the working copies `opera_unmatched` / `pos_unmatched` **by value**: every record
   whose amount equals the matched amount leaves.
3. **Fuzzy pass (lines 110-119).** This runs only for an Opera record with no exact match. It
   scans the full POS table again and emits a mismatch entry for every POS record with
   `difference > 0 and difference / a < 0.05`.

Whatever is left of the working copies becomes `unmatched_opera` and `unmatched_pos`
(lines 122-123).

Files, one module each:

- `wrappers.dfy`: `Option` (where `None` is NaN) and `Result` (a value, or the exception raised).
- `ledger.dfy`: `Cell` and `Record`. A record is a parsed amount plus the other columns as
  (name, value) pairs.
- `normalize.dfy`: the column-name clean-up and the amount character filter, as functions on
  strings, with their lemmas.
- `frames.dfy`: `class Frame`, holding a DataFrame's `columns` and `rows`. Lines 72-77 change
  these in place, and `StandardizeColumns` and `CoerceAmount` model those changes.
- `engine.dfy`: the matching. It first gives a declarative definition of the result
  (`Matched`, `AmountMismatch`, `Retain`, `Reconcile`). Then `ReconcileRecords` gives the
  source's nested loops: it keeps the two working copies, and its inner scans are
  `FindExactMatch` (with the `break`) and `ScanSimilar`. Loop invariants prove that it computes
  `Reconcile`.
- `properties.dfy`: the lemmas about `Reconcile`.
- `app.dfy`: `ReconcileTransactions`, the whole function over two frames.

Parameters stand for the library behaviour the model does not define:

- `parse: string -> Option<real>` stands for `pd.to_numeric(..., errors='coerce')`.
- `render: real -> string` stands for `astype(str)` applied to a cell that already holds a number.
- `scalars: Scalars` says what kind of number `iterrows` yields. A frame with only numeric
  columns gives NumPy scalars. A frame with any other column gives Python numbers, because
  `DataFrame.values` is then an object array. `difference / opera_row['amount']` (line 114)
  therefore divides Python numbers only when both frames give Python numbers
  (`PythonScalars`), and then raises `ZeroDivisionError` when the Opera amount is zero and the
  POS amount parsed and is non-zero. Otherwise NumPy gives infinity, so the
  test is false (`NumpyScalars`). When the division raises, the exception leaves
  `reconcile_transactions` and the page shows an error (lines 65-66). The model returns
  `Err(ZeroDivisionError)` in that case, and `Properties.ReconcileFails` says exactly when it
  happens.

The model follows the code. Four consequences of the code that a reader of the page might not
expect:

- The fuzzy test is `difference > 0 and difference / a < 0.05`, with the signed Opera amount
  `a` as the divisor, not its magnitude. For a negative Opera amount every different POS
  amount passes, because the quotient is negative (`Properties.NegativeOperaAlwaysSimilar`).
- Only exact matches shrink the working copies. After 100.00 against 104.00 both records stay
  in the unmatched lists, next to the mismatch entry (`Properties.FourPercentMismatches`).
- A record is not consumed by its pair. The exact pass scans the full POS table for every
  Opera record, so one POS record can be matched by several Opera records
  (`Properties.PosRecordMatchedTwice`). A matched POS record can also appear in a mismatch
  entry for a later Opera record (`Properties.ConsumedPosRecordStillMismatched`).
- Line 114 can raise `ZeroDivisionError`, which ends the run. It raises exactly when three
  things hold together: both frames give Python numbers, some Opera amount is 0 and has no
  POS amount within 0.01, and some POS amount parsed (`Properties.ReconcileFails`). Mixed
  columns alone do not raise.

## Model

| member | source | states |
|---|---|---|
| Normalize.LowerChar | streamlit_app.py:72-73 | `str.lower()` on one character: an upper-case ASCII letter becomes the lower-case letter at the same place in the alphabet, any other character is left as it is, the result is never upper-case, and a character is whitespace after lowering exactly when it was before |
| Normalize.Lower | streamlit_app.py:72-73 | lower-casing keeps the length, works character by character and leaves no upper-case ASCII letter |
| Normalize.Strip | streamlit_app.py:72-73 | `str.strip()`: the result is a slice of the input; everything cut from either end is Python whitespace; the result neither starts nor ends with whitespace |
| Normalize.StandardName | streamlit_app.py:72-73 | a normalised column name has no upper-case ASCII letter and no whitespace at either end |
| Normalize.StandardNameOfPadded | streamlit_app.py:72-73 | a header made of any whitespace, a text without whitespace at its ends, and any whitespace normalises to that text lower-cased, so " Amount\t" becomes "amount" |
| Normalize.StandardNameIdempotent | streamlit_app.py:72-73 | normalising the column names of an already normalised frame changes nothing |
| Normalize.LowerStripCommute | streamlit_app.py:72-73 | lower-casing then stripping equals stripping then lower-casing |
| Normalize.CleanAmount | streamlit_app.py:76-77 | the filtered amount text is no longer than the input and holds only digits, `.` and `-` |
| Normalize.CleanAmountAppend | streamlit_app.py:76-77 | the filter works character by character: filtering a concatenation concatenates the filtered parts, so order is kept |
| Normalize.CleanAmountCounts | streamlit_app.py:76-77 | each digit, `.` and `-` occurs in the result exactly as often as in the input; every other character occurs zero times |
| Normalize.CleanAmountKeepsAmountText | streamlit_app.py:76-77 | text made only of digits, `.` and `-` is left unchanged |
| Normalize.CleanAmountIdempotent | streamlit_app.py:76-77 | filtering twice is the same as filtering once |
| Frames.AmountIndex | streamlit_app.py:76-77 | selecting `df['amount']` succeeds exactly when one column is named "amount", and yields its position; it fails with MissingAmount when none is, and with DuplicateAmount when two or more are |
| Frames.AsText | streamlit_app.py:76-77 | `astype(str)` of one cell: text stays, NaN is "nan", a number goes through `render`; no contract of its own, its effect on a record is stated by `Frames.CoerceRows` and `Frames.CoercedRecord` |
| Frames.CoerceRows | streamlit_app.py:76-77 | every amount cell becomes `parse` of the filtered `astype(str)` text; every other cell is unchanged |
| Frames.RecordOf | streamlit_app.py:98-99 | `row.to_dict()`: the record's amount is the amount cell, and its fields are the other cells with their column names, in column order |
| Frames.CoercedRecord | streamlit_app.py:76-77 | after coercion, a record's amount is the parse of its filtered amount text, and its other fields are kept verbatim |
| Frames.Frame.StandardizeColumns | streamlit_app.py:72-73 | the frame's columns are replaced in place by their normalised names; the rows are unchanged |
| Frames.Frame.CoerceAmount | streamlit_app.py:76-77 | the amount column is coerced in place, and the result is its position; when the column cannot be selected, the error is returned and the rows are untouched |
| Frames.Frame.Records | streamlit_app.py:92-99 | the frame's rows as the records `iterrows`/`to_dict` yield, one per row, in row order |
| Engine.Close | streamlit_app.py:96 | the exact test `abs(a - b) < 0.01`, false when either amount is NaN; no contract of its own, its properties are `Properties.CloseSymmetric` and the contract of `Engine.FirstMatch` |
| Properties.CloseSymmetric | streamlit_app.py:96 | the exact test is symmetric, and NaN is within 0.01 of nothing |
| Engine.Compare | streamlit_app.py:113-114 | the fuzzy test holds exactly when both amounts parsed, they differ, the Opera amount is non-zero and `difference / a < 0.05`; the difference is then `abs(a - b) > 0`; the division raises exactly for Python numbers with a zero Opera amount and a parsed non-zero POS amount |
| Engine.FirstMatch | streamlit_app.py:95-108 | the first POS position within 0.01 of the amount: that record is within 0.01 and none before it is; none is found exactly when no POS record is within 0.01 (NaN is never within) |
| Engine.MatchOf | streamlit_app.py:96-101 | an Opera record yields at most one matched entry, exactly when some POS record is within 0.01, and that entry carries the record itself |
| Engine.Matched | streamlit_app.py:92-108 | `results['matched']` after the given Opera records; no contract of its own, its meaning is given by `Properties.MatchedMembers`, `Properties.MatchedEntry`, `Properties.MatchedLength` and `Properties.MatchedConcat` |
| Properties.MatchedLength | streamlit_app.py:92-108 | there are no more matched entries than Opera records |
| Engine.FuzzyScan | streamlit_app.py:112-119 | the fuzzy scan of a POS table yields no more entries than there are POS records; one entry per similar record is `Properties.FuzzyScanMembers` with `Properties.FuzzyScanConcat` |
| Engine.MismatchOf | streamlit_app.py:110-119 | what the fuzzy pass emits for one Opera record: nothing after an exact match, otherwise its scan of the full POS table; no contract of its own, its meaning is given by `Properties.AmountMismatchMembers` and `Properties.MismatchEntry` |
| Engine.AmountMismatch | streamlit_app.py:92-119 | `results['amount_mismatch']` after the given Opera records, or the exception; no contract of its own, its meaning is given by `Properties.AmountMismatchMembers`, `Properties.MismatchEntry` and `Properties.AmountMismatchFails` |
| Engine.Differs | streamlit_app.py:104-105 | Python's `!=` on amounts, true whenever either is NaN; no contract of its own, its properties are `Properties.DiffersFacts` and `Engine.RetainMembers` |
| Properties.DiffersFacts | streamlit_app.py:104-105 | NaN differs even from itself and a parsed amount never does; `!=` is symmetric; amounts within 0.01 that are not equal still differ, so the mask keeps them |
| Engine.Retain | streamlit_app.py:104-105 | filtering a working copy never makes it grow |
| Engine.RetainMembers | streamlit_app.py:104-105 | a record is kept in a working copy exactly when it was in it and its amount is `!=` every removed amount (NaN always is) |
| Engine.RetainNothing | streamlit_app.py:88-89 | a working copy starts as the whole frame |
| Engine.RetainOneMore | streamlit_app.py:104-105 | removing one more amount by the mask `df['amount'] != x` is the same as retaining against the longer list of removed amounts |
| Engine.FindExactMatch | streamlit_app.py:95-108 | the inner loop with its `break` finds the first POS record within 0.01, or none |
| Engine.ScanSimilar | streamlit_app.py:112-119 | the inner loop collects every similar POS record of the full table, in order, or stops at the division that raises |
| Engine.Reconcile | streamlit_app.py:79-125 | the returned dictionary as a value: the four lists, or the exception; no contract of its own, its meaning is given by the lemmas of `Properties`, from `MatchedMembers` to `ReconcileFails` |
| Engine.ReconcileRecords | streamlit_app.py:79-125 | the nested loops, with working copies shrunk by value, compute exactly the declarative `Reconcile` |
| Properties.MatchedMembers | streamlit_app.py:92-101 | an entry is in `matched` exactly when its Opera record is an Opera record and the exact pass emits that entry for it |
| Properties.MatchedEntry | streamlit_app.py:95-101 | every matched entry pairs an Opera and a POS record whose amounts parsed and differ by less than 0.01; its `amount` is the Opera amount; its POS record is the earliest within 0.01 |
| Properties.MatchedConcat | streamlit_app.py:92-108 | matched entries appear in Opera order: the entries for a concatenation of Opera tables are those of the first part followed by those of the second |
| Properties.PosRecordMatchedTwice | streamlit_app.py:92-108 | two Opera records of 50 against one POS record of 50 give two matched entries with the same POS record, and nothing is left unmatched |
| Properties.FuzzyScanMembers | streamlit_app.py:112-119 | a mismatch entry is in the scan for `a` exactly when its POS record is in the scanned table and passes the fuzzy test with that difference |
| Properties.FuzzyScanConcat | streamlit_app.py:112-119 | the fuzzy entries for one Opera record appear in POS order |
| Properties.AmountMismatchMembers | streamlit_app.py:92-119 | an entry is in `amount_mismatch` exactly when its Opera record has no exact match and its POS record, anywhere in the full POS table, passes the fuzzy test |
| Properties.AmountMismatchConcat | streamlit_app.py:92-119 | mismatch entries appear in Opera order: when neither part raises, the entries for a concatenation of Opera tables are those of the first part followed by those of the second |
| Properties.MismatchEntry | streamlit_app.py:110-119 | each mismatch entry has `difference = abs(a - b)`, `difference > 0`, a non-zero Opera amount and `difference / a < 0.05`, and its Opera record has no exact match |
| Properties.MatchedAndMismatchedDisjoint | streamlit_app.py:93-110 | no Opera record is both in a matched entry and in a mismatch entry |
| Properties.ConsumedPosRecordStillMismatched | streamlit_app.py:104-119 | in the run of Opera 100.00, 101.00 against POS 100.00, 102.00, the POS record 100.00 is matched by the first Opera record and still reported as a mismatch for the second; the general statement is `Properties.AmountMismatchMembers` |
| Properties.ZeroOperaNeverSimilar | streamlit_app.py:113-114 | an Opera amount of zero never passes the fuzzy test |
| Properties.NegativeOperaAlwaysSimilar | streamlit_app.py:113-114 | a negative Opera amount passes the fuzzy test against every different POS amount, with difference `abs(a - b)` |
| Properties.RetainConcat | streamlit_app.py:104-105 | the working copies keep table order: filtering distributes over concatenation |
| Properties.UnmatchedOperaExactly | streamlit_app.py:104-122 | an Opera record is in `unmatched_opera` exactly when it is an Opera record with no POS record within 0.01 |
| Properties.OperaRecordMatchedOrLeft | streamlit_app.py:92-122 | each Opera record is in a matched entry or in `unmatched_opera`, never both and never neither |
| Properties.UnmatchedPosExactly | streamlit_app.py:105-123 | a POS record is in `unmatched_pos` exactly when its amount is `!=` the POS amount of every matched entry; no matched POS record is left |
| Properties.UnexaminedPosRecordRemoved | streamlit_app.py:105-123 | in the run of Opera 50 against POS 50, 50, the second POS record is in no entry and still leaves `unmatched_pos`, because it shares the matched amount; the general statement is `Properties.UnmatchedPosExactly` |
| Properties.NaNRecordsStayUnmatched | streamlit_app.py:96-114 | a record whose amount did not parse is in no matched and no mismatch entry, on either side, and always stays in its unmatched list |
| Properties.FuzzyScanFails | streamlit_app.py:112-114 | the fuzzy scan raises exactly when the division raises for some POS record |
| Properties.AmountMismatchFails | streamlit_app.py:92-119 | the run raises exactly when the fuzzy scan of some Opera record raises |
| Properties.ReconcileFails | streamlit_app.py:110-114 | the run raises `ZeroDivisionError` exactly when both frames give Python numbers, some Opera amount is zero with no POS amount within 0.01, and some POS amount parsed |
| Properties.EmptyLedgers | streamlit_app.py:80-123 | reconciling two empty ledgers gives four empty lists |
| Properties.WithinToleranceMatches | streamlit_app.py:96-105 | 100.00 against 100.005 gives one matched entry with amount 100.00 and empty unmatched lists |
| Properties.FourPercentMismatches | streamlit_app.py:110-123 | 100.00 against 104.00 gives one mismatch entry with difference 4, and both records stay unmatched |
| Properties.FarApartStayUnmatched | streamlit_app.py:110-123 | 100.00 against 200.00 gives neither a match nor a mismatch, and both records stay unmatched |
| App.ReconcileTransactions | streamlit_app.py:68-125 | the order of errors: both frames' columns are renamed first; an amount column that cannot be selected returns its error, leaving the other frame's rows as they are; otherwise both amount columns are coerced in place and the result is `Reconcile` of the two frames' records |

## Left out

- `main` (lines 7-66), `display_results` (lines 127-189) and `generate_report` (lines 191-224) are left out: they are page layout, file upload, rendering and Excel export, which is UI and I/O. `generate_report` also refers to `io`, which is never imported.
- Loading with `pd.read_excel` / `pd.read_csv` and its type inference is left out. A cell is modelled by its `astype(str)` text. Python's float formatting is the `render` parameter.
- `pd.to_numeric` is the `parse` parameter. Only the character filter in front of it is defined.
- IEEE-754 rounding in the subtraction and division is not modelled. Amounts are exact reals.
- `str.lower` is modelled only on ASCII letters.
- The `\d` class is modelled only on the ASCII digits. Python also accepts other Unicode decimal digits there.
- Column labels that are not strings are not modelled.
- DataFrame index labels are not modelled. Records are plain sequences in row order.
- `to_dict` keeps only the last of several equal non-amount column names. A `Record` keeps all of them.
- One `Record` stands for both views of a row. For a frame whose columns are all numeric, `iterrows` casts each row to one dtype. So `opera_row.to_dict()` and `pos_row.to_dict()` in the matched and mismatch entries (lines 98-99 and 116-117) show an integer field, such as a transaction id, as a float. `to_dict('records')` in the unmatched lists (lines 122-123) keeps it an integer. The model does not tell the two apart.
- Which frames give Python numbers depends on pandas' dtypes. The model does not derive this; it is the `scalars` parameter.
- App.ReconcileTransactions: requires two distinct frame objects. The page always passes two separately loaded frames, so calling with one frame as both arguments is not modelled.
- Removal by record identity, and a fuzzy pass limited to records not yet matched, are not modelled: the code does neither, and the model has only its behaviour.
