# Transaction-cleaning pipeline, modelled in Dafny

This project models `transform_data` from a small ETL script (main.py). The
function takes a table of raw transaction rows read from a spreadsheet and
returns the cleaned table that is later appended to a SQLite store. It runs
seven stages in a fixed order:

1. parse `transaction_date`; a value that does not parse becomes null;
2. derive `year` and `month` from the parsed date;
3. derive `is_refund`, true exactly for the string `'refund'`;
4. drop rows with a null in any of the five required columns;
5. keep rows with `transaction_amount > 0`;
6. coerce `user_id` to a number, drop failures, cast to an integer;
7. drop rows whose `transaction_id` was already seen (the first one stays).

A failed column lookup (`KeyError`) or a failed amount comparison
(`TypeError`) is logged and re-raised. The model returns it as a `Failure`.

Files, one module each:

- `wrappers.dfy` (`Wrappers`): `Option` and `Result`.
- `seqs.dfy` (`Seqs`): `Filter`, order-preserving row selection, with its append lemma.
- `records.dfy` (`Records`): cells, date-times and the timestamps the library can represent, raw,
  intermediate and clean rows, the errors, the per-cell conversions (`ToDatetime`, `ToNumeric`,
  `TruncToInt`), the clean-table invariant.
- `pipeline.dfy` (`Pipeline`): each stage as a specification function and as a method with a loop
  over the table; `TransformData` runs the stages in the source's order; `Transform` is the whole
  pipeline as one function.
- `reference.dfy` (`Reference`): a row-at-a-time description of what survives. `Cleaned` gives the
  clean record a row becomes on its own. `Survivors` lists the positions of rows that are valid and
  the first valid row of their transaction id.
- `properties.dfy` (`PipelineProperties`): the pipeline equals the reference; output invariants;
  the exact error conditions; nothing valid is lost; idempotence.
- `scenarios.dfy` (`Scenarios`): example inputs proved on the whole pipeline: a parsed row, a zero
  amount, a bad date, a date out of range, a non-numeric user id, a duplicate id, refund casing,
  a missing column, a text amount and a date-time amount column.

Cells are `Null | Num(real) | Text(string) | Time(DateTime)`. A `DateTime` is a calendar date
and the nanoseconds since midnight. A `Timestamp` is a `DateTime` inside the range a nanosecond
timestamp of the data-frame library can hold, 1677-09-21 00:12:43.145224193 to 2262-04-11
23:47:16.854775807. This is the range of pandas 1.x and 2.x, whose `to_datetime` yields
nanosecond timestamps. Only timestamps reach the output.

Date parsing and numeric parsing are done by the data-frame library, which is not part of this
model. They are the two functions of a `Library` value passed to the pipeline. The date function
is given the whole `transaction_date` column as well as the cell, because `pd.to_datetime` may
infer one format from the column's values. `ParsersFor` fixes the column of the table being
cleaned, which gives one function per cell. The number function is likewise given the
`user_id` column as read. A null cell never parses. A date-time cell is
already a date, and one outside the timestamp range becomes null, as any parsed date outside it
does. A number cell is already a number.

Points where the code does something easy to miss:

- `transaction_id` is never cast by the code. It stays the cell that was read, and duplicates are
  found by cell equality.
- The code re-raises the original exception rather than wrapping it. `TransformError` is that
  exception: `MissingColumns` for the `KeyError`, `NonNumericAmount` for the `TypeError`.
- The code can also fail at line 40, with a `TypeError`. Whether it does depends first on the
  type of the `transaction_amount` column as read. A date-time column raises even when no row is
  left after line 38. The model takes the column to be date-time when it holds at least one
  date-time cell and nothing else but nulls (`DatetimeColumn`). Otherwise the comparison is made
  cell by cell, and it raises when a row left after line 38 has a string or a date-time there.
- Lookup order decides which `KeyError` comes first. Line 31 looks up `transaction_date`, line 36
  `transaction_type`, and line 38 the rest. The `dropna` at line 38 names every column of its
  subset that is missing, each once, in subset order.

## Model

| member | source | states |
|---|---|---|
| Records.ToDatetime | main.py:31 | `to_datetime` with `errors='coerce'`: a null never converts, and every converted value is a timestamp the library can represent |
| Records.ToDatetimeOfTimestamp | main.py:31 | converting a cell that already holds a representable timestamp gives that timestamp back, whatever the parser |
| Records.ToNumeric | main.py:42 | `to_numeric` with `errors='coerce'`: a null never converts |
| Records.ToNumericOfNumber | main.py:42 | converting a cell that already holds a number gives that number back, whatever the parser |
| Records.TruncToInt | main.py:45 | `astype(int)` gives the integer toward zero: within 1 of the value, not past it, same sign |
| Records.TruncOfWhole | main.py:45 | casting a whole number to int gives it back, so a user id survives a second run |
| Seqs.Filter | main.py:38-43 | a row filter keeps at most the rows it had; a row is kept exactly when it was there and passes the test |
| Pipeline.DerivedRows | main.py:31-36 | one row out per row in; year and month are the parsed date's and are null exactly when the date failed to parse; is_refund holds exactly for type `'refund'`; the other cells are unchanged |
| Pipeline.CoerceUserId | main.py:42-45 | a row reaching stage 6 is dropped exactly when its user id does not coerce; otherwise it becomes a valid clean record with the same transaction id |
| Pipeline.TypedRows | main.py:42-45 | stage 6 returns at most as many rows as it was given, and each is a valid clean record |
| Pipeline.FirstById | main.py:47 | `drop_duplicates` returns at most the rows it had and loses no transaction id: the ids of its result are exactly those of its input |
| Pipeline.FirstByIdDistinct | main.py:47 | no transaction id occurs twice after `drop_duplicates` |
| Pipeline.FirstByIdKeepsValid | main.py:47 | `drop_duplicates` only removes rows, so rows that were all valid stay valid |
| Pipeline.MissingAtDropna | main.py:38 | the `KeyError` of the `dropna` names exactly the columns of its subset that are absent: each reported name is required and absent, every absent subset column is reported, and the names come in subset order, so none twice |
| Pipeline.DeriveColumns | main.py:31-36 | the loop computes the derived table of stages 1-3 |
| Pipeline.DropIncompleteRows | main.py:38 | the loop keeps exactly the rows with all five required fields non-null, in order |
| Pipeline.KeepPositiveAmounts | main.py:40 | fails when the amount column is date-time typed, even with no row left; otherwise fails exactly when a remaining amount is not a number, and else keeps exactly the rows with amount > 0, in order |
| Pipeline.CoerceUserIds | main.py:42-45 | the loop drops rows whose user id does not coerce and casts the rest to integers |
| Pipeline.DropDuplicateIds | main.py:47 | the loop with its set of seen ids keeps the first row of each transaction id |
| Pipeline.Transform | main.py:28-54 | the run fails with a `KeyError` if and only if a required column is absent, and that error names at least one column, each required and absent; a returned table is clean: every row has non-null id and type, amount > 0, year and month of its date, is_refund exactly for `'refund'`, a representable date, and no transaction id twice |
| Pipeline.TransformData | main.py:28-54 | the seven stages in order, with the lookup failures at lines 31, 36 and 38 and the comparison failure at line 40, give `Transform` |
| Reference.Survivors | main.py:38-47 | the retained positions are increasing, each is valid and the first valid row of its id, and every such row is listed |
| PipelineProperties.StagedIsPerRow | main.py:31-45 | with the parsers fixed for the table's date column, running stages 1-6 over the whole table equals deciding each row on its own, so filtering before coercion never changes which rows survive |
| PipelineProperties.DedupeKeepsFirst | main.py:38-47 | deduplicating after filtering returns, in order, the rows at the positions `Survivors` lists; an invalid earlier row never shadows a later valid one |
| PipelineProperties.TransformMatchesReference | main.py:28-50 | a successful run returns exactly the valid first occurrences, in input order, each converted on its own: an order-preserving subsequence with nothing invented |
| PipelineProperties.TransformFailsExactly | main.py:30-54 | the run fails if and only if a required column is absent, the amount column is date-time typed, or a row that reaches the comparison at line 40 has a non-numeric amount |
| PipelineProperties.ReloadedAmountsNumeric | main.py:40 | a clean table read back has a numeric amount column, so the type check at line 40 passes on a second run |
| PipelineProperties.DroppedRows | main.py:31-45 | a row with a null required field, an unparseable date, a non-positive amount or a non-numeric user id is never returned |
| PipelineProperties.EveryValidIdRetained | main.py:47 | every transaction id of a valid input row appears in the output |
| PipelineProperties.FirstByIdOfDistinct | main.py:47 | deduplication removes nothing from a table whose ids are already distinct |
| PipelineProperties.CleanedOfRaw | main.py:31-45 | a valid clean record, read back with its date as a date-time cell, passes every per-row stage and comes out unchanged |
| PipelineProperties.TransformIdempotent | main.py:28-50 | any clean table, read back in, passes through the pipeline unchanged |
| PipelineProperties.TransformTwiceIsOnce | main.py:28-50 | a run's output, run again, gives the same output |
| Scenarios.ParsedRowIsCleaned | main.py:31-45 | user `"42"` and date `"2024-01-15"` give user id 42, year 2024, month 1, not a refund |
| Scenarios.ZeroAmountDropped | main.py:40 | an amount of exactly 0 removes the row |
| Scenarios.BadDateDropped | main.py:31-38 | a date that does not parse removes the row |
| Scenarios.OutOfRangeDateDropped | main.py:31-38 | a date-time cell from the year 1600, outside the timestamp range, becomes null and removes the row |
| Scenarios.NonNumericUserDropped | main.py:42-43 | a user id `"abc"` removes the row |
| Scenarios.DuplicateIdKeepsFirst | main.py:47 | of two rows with id 7 and amounts 50 and 999, only the first is kept |
| Scenarios.InvalidRowDoesNotShadow | main.py:38-47 | a zero-amount row with id 7 does not hide the later valid row with id 7 |
| Scenarios.RefundIsFlagged | main.py:36 | type `"refund"` gives is_refund true |
| Scenarios.UpperCaseRefundIsNotFlagged | main.py:36 | type `"REFUND"` gives is_refund false |
| Scenarios.MissingUserIdColumn | main.py:38 | a table without `user_id` fails with a `KeyError` naming `user_id` |
| Scenarios.TextAmountRaises | main.py:40 | a string amount on an otherwise complete row makes the comparison fail |
| Scenarios.DateAmountColumnRaises | main.py:40 | a one-row table whose amount is a date, and whose row line 38 drops for its null date, still fails the comparison |
| Scenarios.TransformPurchases | main.py:28-54 | two purchases with the same id give the deduplicated pair of their clean records |

## Left out

- Lines 31-36 also write the parsed date and the three derived columns into the caller's
  data frame. The model returns a new table and does not model that change to the argument.
- Columns other than the five the pipeline reads are not modelled. The source carries them
  through unchanged.
- Date and number parsing are parameters, not a re-implementation of `pd.to_datetime` and
  `pd.to_numeric`. So is the library's inference of one date format for the whole column: the
  date function sees the column, but which format it infers is not modelled.
- KeepPositiveAmounts: there is no boolean cell, so a boolean amount, which passes `> 0` in the
  data-frame library when true, is not modelled.
- TransformFailsExactly: the reader's inference of the amount column's type is approximated. The
  column counts as date-time when it has at least one date-time cell and otherwise only nulls;
  other dtype rules of the reader are not modelled, and there is no boolean cell.
- ToDatetime: the timestamp range is that of pandas 1.x and 2.x. Later versions can infer a coarser
  resolution with a wider range, which keeps dates such as the year 1600; that is not modelled.
- ToDatetime: a date-time cell the spreadsheet reader already produced is range-checked but
  otherwise taken as it is. Time zones and sub-nanosecond precision are not modelled.
- TruncToInt: the cast to a 64-bit integer is modelled as exact truncation toward zero. A user id
  of magnitude 2^63 or more, which the cast cannot represent, is not modelled.
- Floating point is not modelled: amounts and coerced user ids are reals. `NaN` is a null cell.
  Infinities do not exist, so the error `astype(int)` raises on them is not modelled, and neither is
  float64 rounding.
- `DateTime` checks month 1-12, day 1-31 and a time of day under 24 hours only. Whether the day
  exists in that month is left to the date parser.
- Errors the library could raise in other ways (for example, mixed time zones in the date column)
  are not modelled. Only the column lookups and the amount comparison fail.
- Logging (lines 7-11, 29, 49, 53) is ambient output. It is left out, and so is the
  re-raise's logging step; the error itself is kept.
- `extract_data` (lines 15-24), `create_table` and `load_data` (lines 58-83), `query` (lines 87-94)
  and the module-level script (lines 97-112) are spreadsheet, database and console I/O through
  libraries, and are not part of this model.
