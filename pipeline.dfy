/**
 * The transaction-cleaning pipeline `transform_data`: seven stages run in a
 * fixed order over the whole table. Each stage is specified by a function on
 * rows and carried out by a method with a loop; `TransformData` runs them in
 * the source's order and `Transform` is the whole pipeline as one function.
 */
module Pipeline {
  import opened Wrappers
  import opened Seqs
  import opened Records

  // ---------------------------------------------------------------------
  // Stages 1-3: parse the date, derive year, month and is_refund.

  /**
   * The derived columns agree with the columns they come from: year and month
   * are those of the parsed date and are null exactly when the date is, and
   * is_refund holds exactly when the type is the string "refund".
   */
  predicate Consistent(r: Row) {
    && r.year == (if r.date.Some? then Some(r.date.value.year) else None)
    && r.month == (if r.date.Some? then Some(r.date.value.month) else None)
    && (r.isRefund <==> r.transactionType == Text("refund"))
  }

  /** One row after stages 1-3. */
  function DeriveRow(r: RawRecord, p: Parsers): Row {
    var date := ToDatetime(r.date, p);
    Row(r.transactionId, r.userId, r.amount, date, r.transactionType,
        if date.Some? then Some(date.value.year) else None,
        if date.Some? then Some(date.value.month) else None,
        r.transactionType == Text("refund"))
  }

  /** The table after stages 1-3: one derived row per raw row, same order. */
  function DerivedRows(rows: seq<RawRecord>, p: Parsers): (out: seq<Row>)
    ensures |out| == |rows|
    ensures forall k :: 0 <= k < |out| ==>
      && Consistent(out[k])
      && out[k].date == ToDatetime(rows[k].date, p)
      && out[k].transactionId == rows[k].transactionId
      && out[k].userId == rows[k].userId
      && out[k].amount == rows[k].amount
      && out[k].transactionType == rows[k].transactionType
  {
    seq(|rows|, k requires 0 <= k < |rows| => DeriveRow(rows[k], p))
  }

  // ---------------------------------------------------------------------
  // Stage 4: drop rows with a null required field.

  predicate Complete(r: Row) {
    && r.transactionId != Null
    && r.userId != Null
    && r.amount != Null
    && r.date.Some?
    && r.transactionType != Null
  }

  // ---------------------------------------------------------------------
  // Stage 5: keep rows whose amount is strictly positive.

  /** `amount > 0` can be evaluated: the cell is a number (or null, giving false). */
  predicate Comparable(r: Row) {
    r.amount == Null || r.amount.Num?
  }

  predicate AllComparable(rows: seq<Row>) {
    forall k :: 0 <= k < |rows| ==> Comparable(rows[k])
  }

  predicate Positive(r: Row) {
    r.amount.Num? && r.amount.number > 0.0
  }

  // ---------------------------------------------------------------------
  // Stage 6: coerce user_id to a number, drop failures, cast to an integer.

  /** What a row is known to satisfy when stage 6 reaches it. */
  predicate Ready(r: Row) {
    Complete(r) && Positive(r) && Consistent(r)
  }

  /** A row past stage 6 is a valid clean record; it is dropped exactly when its user id does not coerce. */
  function CoerceUserId(r: Row, p: Parsers): (c: Option<CleanRecord>)
    requires Ready(r)
    ensures c.Some? <==> ToNumeric(r.userId, p).Some?
    ensures c.Some? ==> CleanRecordValid(c.value) && c.value.transactionId == r.transactionId
  {
    match ToNumeric(r.userId, p)
    case None => None
    case Some(u) =>
      Some(CleanRecord(r.transactionId, TruncToInt(u), r.amount.number, r.date.value,
                       r.transactionType, r.year.value, r.month.value, r.isRefund))
  }

  /** The table after stage 6. */
  function TypedRows(rows: seq<Row>, p: Parsers): (out: seq<CleanRecord>)
    requires forall k :: 0 <= k < |rows| ==> Ready(rows[k])
    ensures |out| <= |rows|
    ensures forall k :: 0 <= k < |out| ==> CleanRecordValid(out[k])
  {
    if rows == [] then []
    else
      var init := TypedRows(rows[..|rows| - 1], p);
      match CoerceUserId(rows[|rows| - 1], p)
      case None => init
      case Some(c) => init + [c]
  }

  // ---------------------------------------------------------------------
  // Stage 7: drop later rows with an already seen transaction id.

  function IdsOf(rs: seq<CleanRecord>): set<Cell> {
    set k | 0 <= k < |rs| :: rs[k].transactionId
  }

  lemma IdsOfSnoc(pre: seq<CleanRecord>, c: CleanRecord)
    ensures IdsOf(pre + [c]) == IdsOf(pre) + {c.transactionId}
  {
    assert forall k :: 0 <= k < |pre| ==> (pre + [c])[k] == pre[k];
    assert (pre + [c])[|pre|] == c;
  }

  /**
   * `drop_duplicates(subset='transaction_id')` with its default `keep='first'`:
   * it only drops rows, and it drops no transaction id.
   */
  function FirstById(rs: seq<CleanRecord>): (out: seq<CleanRecord>)
    ensures |out| <= |rs|
    ensures IdsOf(out) == IdsOf(rs)
  {
    if rs == [] then []
    else
      var init := rs[..|rs| - 1];
      var last := rs[|rs| - 1];
      assert rs == init + [last];
      IdsOfSnoc(init, last);
      var before := FirstById(init);
      if last.transactionId in IdsOf(init) then before
      else
        IdsOfSnoc(before, last);
        before + [last]
  }

  /** No transaction id occurs twice in a deduplicated table. */
  lemma {:induction false} FirstByIdDistinct(rs: seq<CleanRecord>)
    ensures forall k, l :: 0 <= k < l < |FirstById(rs)| ==>
      FirstById(rs)[k].transactionId != FirstById(rs)[l].transactionId
  {
    if rs != [] {
      var init, last := rs[..|rs| - 1], rs[|rs| - 1];
      FirstByIdDistinct(init);
      var before := FirstById(init);
      if last.transactionId in IdsOf(init) {
        assert FirstById(rs) == before;
      } else {
        var out := before + [last];
        assert FirstById(rs) == out;
        forall k, l | 0 <= k < l < |out| ensures out[k].transactionId != out[l].transactionId {
          assert out[k] == before[k];
          if l == |before| {
            assert out[k].transactionId in IdsOf(before);
          } else {
            assert out[l] == before[l];
          }
        }
      }
    }
  }

  /** Deduplication only drops rows, so a table of valid records stays one. */
  lemma {:induction false} FirstByIdKeepsValid(rs: seq<CleanRecord>)
    requires forall k :: 0 <= k < |rs| ==> CleanRecordValid(rs[k])
    ensures forall k :: 0 <= k < |FirstById(rs)| ==> CleanRecordValid(FirstById(rs)[k])
  {
    if rs != [] {
      var init := rs[..|rs| - 1];
      FirstByIdKeepsValid(init);
      var before := FirstById(init);
      assert FirstById(rs) == before || FirstById(rs) == before + [rs[|rs| - 1]];
    }
  }

  // ---------------------------------------------------------------------
  // The whole pipeline.

  /** The table after stages 1-6 (stage 5 without its error check). */
  function Staged(rows: seq<RawRecord>, p: Parsers): seq<CleanRecord> {
    TypedRows(Filter(Positive, Filter(Complete, DerivedRows(rows, p))), p)
  }

  /** The `subset` of the `dropna` at line 38, in its order. */
  const DROPNA_SUBSET: seq<string> :=
    [TRANSACTION_ID, USER_ID, TRANSACTION_AMOUNT, TRANSACTION_DATE, TRANSACTION_TYPE]

  /** Where a column name stands in `DROPNA_SUBSET` (5 for any other name). */
  function SubsetPosition(c: string): (i: nat)
    ensures i < |DROPNA_SUBSET| ==> DROPNA_SUBSET[i] == c
    ensures forall j :: 0 <= j < |DROPNA_SUBSET| && DROPNA_SUBSET[j] == c ==> i == j
  {
    if c == TRANSACTION_ID then 0
    else if c == USER_ID then 1
    else if c == TRANSACTION_AMOUNT then 2
    else if c == TRANSACTION_DATE then 3
    else if c == TRANSACTION_TYPE then 4
    else 5
  }

  /** The columns of `DROPNA_SUBSET[i..]` absent from `columns`, in subset order. */
  function MissingFrom(columns: set<string>, i: nat): (names: seq<string>)
    requires i <= |DROPNA_SUBSET|
    ensures forall k :: 0 <= k < |names| ==>
      i <= SubsetPosition(names[k]) < |DROPNA_SUBSET| && names[k] !in columns
    ensures forall j :: i <= j < |DROPNA_SUBSET| && DROPNA_SUBSET[j] !in columns ==> DROPNA_SUBSET[j] in names
    ensures forall k, l :: 0 <= k < l < |names| ==> SubsetPosition(names[k]) < SubsetPosition(names[l])
    decreases |DROPNA_SUBSET| - i
  {
    if i == |DROPNA_SUBSET| then []
    else
      var rest := MissingFrom(columns, i + 1);
      if DROPNA_SUBSET[i] in columns then rest
      else
        assert SubsetPosition(DROPNA_SUBSET[i]) == i;
        [DROPNA_SUBSET[i]] + rest
  }

  /**
   * The columns the `dropna` of line 38 reports in its `KeyError`: exactly the
   * columns of its subset that the table lacks, each once, in subset order.
   */
  function MissingAtDropna(columns: set<string>): (names: seq<string>)
    ensures forall k :: 0 <= k < |names| ==> names[k] in REQUIRED_COLUMNS && names[k] !in columns
    ensures forall j :: 0 <= j < |DROPNA_SUBSET| && DROPNA_SUBSET[j] !in columns ==> DROPNA_SUBSET[j] in names
    ensures forall k, l :: 0 <= k < l < |names| ==> SubsetPosition(names[k]) < SubsetPosition(names[l])
  {
    var names := MissingFrom(columns, 0);
    assert forall k :: 0 <= k < |names| ==> names[k] == DROPNA_SUBSET[SubsetPosition(names[k])];
    names
  }

  /**
   * `transform_data` as a function of the raw table. It fails with a
   * `KeyError` exactly when a required column is absent, naming only absent
   * required columns; a table it returns is clean.
   */
  function Transform(t: RawTable, lib: Library): (r: Result<seq<CleanRecord>, TransformError>)
    ensures r.Failure? && r.error.MissingColumns? <==> !(REQUIRED_COLUMNS <= t.columns)
    ensures r.Failure? && r.error.MissingColumns? ==>
      r.error.names != [] && forall k :: 0 <= k < |r.error.names| ==>
        r.error.names[k] in REQUIRED_COLUMNS && r.error.names[k] !in t.columns
    ensures r.Success? ==> CleanTable(r.value)
  {
    var p := ParsersFor(t, lib);
    if TRANSACTION_DATE !in t.columns then Failure(MissingColumns([TRANSACTION_DATE]))
    else if TRANSACTION_TYPE !in t.columns then Failure(MissingColumns([TRANSACTION_TYPE]))
    else if MissingAtDropna(t.columns) != [] then Failure(MissingColumns(MissingAtDropna(t.columns)))
    else if DatetimeColumn(Column(t.rows, AmountField)) || !AllComparable(Filter(Complete, DerivedRows(t.rows, p)))
    then Failure(NonNumericAmount)
    else
      FirstByIdKeepsValid(Staged(t.rows, p));
      FirstByIdDistinct(Staged(t.rows, p));
      Success(FirstById(Staged(t.rows, p)))
  }

  // ---------------------------------------------------------------------
  // The stages as the source runs them, each a pass over the whole table.

  /** Lines 31-36: parse transaction_date and add year, month and is_refund. */
  method DeriveColumns(rows: seq<RawRecord>, p: Parsers) returns (out: seq<Row>)
    ensures out == DerivedRows(rows, p)
  {
    out := [];
    var i := 0;
    while i < |rows|
      invariant 0 <= i <= |rows|
      invariant |out| == i
      invariant forall k :: 0 <= k < i ==> out[k] == DeriveRow(rows[k], p)
    {
      out := out + [DeriveRow(rows[i], p)];
      i := i + 1;
    }
  }

  /** Line 38: drop every row with a null in one of the five required fields. */
  method DropIncompleteRows(rows: seq<Row>) returns (out: seq<Row>)
    ensures out == Filter(Complete, rows)
  {
    out := [];
    var i := 0;
    while i < |rows|
      invariant 0 <= i <= |rows|
      invariant out == Filter(Complete, rows[..i])
    {
      assert rows[..i + 1][..i] == rows[..i];
      if Complete(rows[i]) {
        out := out + [rows[i]];
      }
      i := i + 1;
    }
    assert rows[..|rows|] == rows;
  }

  /**
   * Line 40: keep the rows with `transaction_amount > 0`. A column of the
   * date-time type cannot be compared with 0 at all; otherwise the comparison
   * is evaluated for every row and raises when one amount is not a number.
   */
  method KeepPositiveAmounts(rows: seq<Row>, datetimeColumn: bool) returns (r: Result<seq<Row>, TransformError>)
    ensures datetimeColumn ==> r == Failure(NonNumericAmount)
    ensures !datetimeColumn ==>
      r == if AllComparable(rows) then Success(Filter(Positive, rows)) else Failure(NonNumericAmount)
  {
    if datetimeColumn {
      return Failure(NonNumericAmount);
    }
    var out := [];
    var i := 0;
    while i < |rows|
      invariant 0 <= i <= |rows|
      invariant AllComparable(rows[..i])
      invariant out == Filter(Positive, rows[..i])
    {
      if !Comparable(rows[i]) {
        return Failure(NonNumericAmount);
      }
      assert rows[..i + 1][..i] == rows[..i];
      if Positive(rows[i]) {
        out := out + [rows[i]];
      }
      i := i + 1;
    }
    assert rows[..|rows|] == rows;
    r := Success(out);
  }

  /** Lines 42-45: coerce user_id to a number, drop the failures, cast to int. */
  method CoerceUserIds(rows: seq<Row>, p: Parsers) returns (out: seq<CleanRecord>)
    requires forall k :: 0 <= k < |rows| ==> Ready(rows[k])
    ensures out == TypedRows(rows, p)
  {
    out := [];
    var i := 0;
    while i < |rows|
      invariant 0 <= i <= |rows|
      invariant out == TypedRows(rows[..i], p)
    {
      assert rows[..i + 1][..i] == rows[..i];
      var c := CoerceUserId(rows[i], p);
      if c.Some? {
        out := out + [c.value];
      }
      i := i + 1;
    }
    assert rows[..|rows|] == rows;
  }

  /** Line 47: keep the first row of each transaction id, remembering the ids seen. */
  method DropDuplicateIds(rows: seq<CleanRecord>) returns (out: seq<CleanRecord>)
    ensures out == FirstById(rows)
  {
    out := [];
    var seen: set<Cell> := {};
    var i := 0;
    while i < |rows|
      invariant 0 <= i <= |rows|
      invariant seen == IdsOf(rows[..i])
      invariant out == FirstById(rows[..i])
    {
      assert rows[..i + 1][..i] == rows[..i];
      if rows[i].transactionId !in seen {
        out := out + [rows[i]];
      }
      assert IdsOf(rows[..i + 1]) == IdsOf(rows[..i]) + {rows[i].transactionId} by {
        assert forall k :: 0 <= k < i ==> rows[..i + 1][k] == rows[..i][k];
      }
      seen := seen + {rows[i].transactionId};
      i := i + 1;
    }
    assert rows[..|rows|] == rows;
  }

  /**
   * Lines 28-54: the seven stages in order. A failed column lookup or amount
   * comparison ends the run with that error (it is logged and re-raised).
   */
  method TransformData(t: RawTable, lib: Library) returns (result: Result<seq<CleanRecord>, TransformError>)
    ensures result == Transform(t, lib)
  {
    // Line 31 looks up transaction_date, line 36 transaction_type.
    if TRANSACTION_DATE !in t.columns {
      return Failure(MissingColumns([TRANSACTION_DATE]));
    }
    if TRANSACTION_TYPE !in t.columns {
      return Failure(MissingColumns([TRANSACTION_TYPE]));
    }
    var p := ParsersFor(t, lib);
    var derived := DeriveColumns(t.rows, p);
    // Line 38 looks up the remaining required columns.
    var missing := MissingAtDropna(t.columns);
    if missing != [] {
      return Failure(MissingColumns(missing));
    }
    var complete := DropIncompleteRows(derived);
    var positive := KeepPositiveAmounts(complete, DatetimeColumn(Column(t.rows, AmountField)));
    if positive.Failure? {
      return Failure(positive.error);
    }
    var typed := CoerceUserIds(positive.value, p);
    var unique := DropDuplicateIds(typed);
    result := Success(unique);
  }
}
