/**
 * Example inputs run through the whole pipeline: a parsed row, a zero amount,
 * a bad date, a date out of range, a non-numeric user id, a duplicate id,
 * refund casing, a missing column, a text amount and a date-time amount column.
 */
module Scenarios {
  import opened Wrappers
  import opened Records
  import opened Pipeline
  import opened Reference
  import opened PipelineProperties

  const JAN_15: Timestamp := DateTime(2024, 1, 15, 0)

  function Purchase(id: real, amount: real): RawRecord {
    RawRecord(Num(id), Num(42.0), Num(amount), Time(JAN_15), Text("purchase"))
  }

  /** A purchase row with a numeric user id 42 and date JAN_15 is kept exactly when its amount is positive. */
  lemma CleanedPurchase(id: real, amount: real, p: Parsers)
    ensures !Uncomparable(Purchase(id, amount), p)
    ensures Cleaned(Purchase(id, amount), p)
         == if amount > 0.0 then Some(CleanRecord(Num(id), 42, amount, JAN_15, Text("purchase"), 2024, 1, false)) else None
  {
    TruncOfWhole(42);
  }

  /** A number in the amount column means the column does not have the date-time type. */
  lemma NumberAmountNotDatetime(rows: seq<RawRecord>, k: int)
    requires 0 <= k < |rows| && rows[k].amount.Num?
    ensures !DatetimeColumn(Column(rows, AmountField))
  {
    assert Column(rows, AmountField)[k] == rows[k].amount;
  }

  lemma TransformOfComparable(t: RawTable, lib: Library)
    requires REQUIRED_COLUMNS <= t.columns
    requires !DatetimeColumn(Column(t.rows, AmountField))
    requires forall k :: 0 <= k < |t.rows| ==> !Uncomparable(t.rows[k], ParsersFor(t, lib))
    ensures Transform(t, lib) == Success(FirstById(CleanAll(t.rows, ParsersFor(t, lib))))
  {
    TransformFailsExactly(t, lib);
    TransformSuccess(t, lib);
    StagedIsPerRow(t.rows, ParsersFor(t, lib));
  }

  lemma CleanAllPair(a: RawRecord, b: RawRecord, p: Parsers)
    ensures CleanAll([a, b], p) == AsList(Cleaned(a, p)) + AsList(Cleaned(b, p))
  {
    CleanAllSnoc([], a, p);
    assert [] + [a] == [a];
    CleanAllSnoc([a], b, p);
    assert [a] + [b] == [a, b];
  }

  lemma FirstByIdPair(a: CleanRecord, b: CleanRecord)
    ensures FirstById([a, b]) == if a.transactionId == b.transactionId then [a] else [a, b]
  {
    assert [a, b][..1] == [a];
    assert [a][..0] == [];
    assert FirstById([a]) == [a];
    IdsOfSnoc([], a);
    assert [] + [a] == [a];
  }

  /** Two purchases with the same id: the result is the deduplicated pair of their clean records. */
  lemma TransformPurchases(id: real, x: real, y: real, lib: Library)
    ensures var t := RawTable(REQUIRED_COLUMNS, [Purchase(id, x), Purchase(id, y)]);
      var p := ParsersFor(t, lib);
      Transform(t, lib) == Success(FirstById(AsList(Cleaned(Purchase(id, x), p)) + AsList(Cleaned(Purchase(id, y), p))))
  {
    var a, b := Purchase(id, x), Purchase(id, y);
    var t := RawTable(REQUIRED_COLUMNS, [a, b]);
    var p := ParsersFor(t, lib);
    CleanedPurchase(id, x, p);
    CleanedPurchase(id, y, p);
    NumberAmountNotDatetime(t.rows, 0);
    TransformOfComparable(t, lib);
    CleanAllPair(a, b, p);
  }

  /** Two rows with transaction id 7: only the first, with amount 50, is returned. */
  lemma DuplicateIdKeepsFirst(lib: Library)
    ensures Transform(RawTable(REQUIRED_COLUMNS, [Purchase(7.0, 50.0), Purchase(7.0, 999.0)]), lib)
         == Success([CleanRecord(Num(7.0), 42, 50.0, JAN_15, Text("purchase"), 2024, 1, false)])
  {
    var p := ParsersFor(RawTable(REQUIRED_COLUMNS, [Purchase(7.0, 50.0), Purchase(7.0, 999.0)]), lib);
    CleanedPurchase(7.0, 50.0, p);
    CleanedPurchase(7.0, 999.0, p);
    TransformPurchases(7.0, 50.0, 999.0, lib);
    FirstByIdPair(Cleaned(Purchase(7.0, 50.0), p).value, Cleaned(Purchase(7.0, 999.0), p).value);
  }

  /** On a one-row table the parsers see one-cell columns. */
  lemma ParsersForOne(a: RawRecord, lib: Library, c: Cell)
    ensures var p := ParsersFor(RawTable(REQUIRED_COLUMNS, [a]), lib);
      p.date(c) == lib.toDatetime([a.date], c) && p.number(c) == lib.toNumeric([a.userId], c)
  {
    assert Column([a], DateField) == [a.date];
    assert Column([a], UserField) == [a.userId];
  }

  lemma TransformOne(a: RawRecord, lib: Library)
    requires a.amount.Num?
    requires !Uncomparable(a, ParsersFor(RawTable(REQUIRED_COLUMNS, [a]), lib))
    ensures var t := RawTable(REQUIRED_COLUMNS, [a]);
      Transform(t, lib) == Success(AsList(Cleaned(a, ParsersFor(t, lib))))
  {
    var t := RawTable(REQUIRED_COLUMNS, [a]);
    var p := ParsersFor(t, lib);
    NumberAmountNotDatetime(t.rows, 0);
    TransformOfComparable(t, lib);
    CleanAllSnoc([], a, p);
    assert [] + [a] == [a];
    if Cleaned(a, p).Some? {
      assert FirstById([Cleaned(a, p).value]) == [Cleaned(a, p).value] by {
        assert [Cleaned(a, p).value][..0] == [];
      }
    }
  }

  /**
   * A row whose strings parse becomes a clean record with integer user id 42,
   * year 2024 and month 1. The date parser sees the whole date column.
   */
  lemma ParsedRowIsCleaned(lib: Library)
    requires lib.toNumeric([Text("42")], Text("42")) == Some(42.0)
    requires lib.toDatetime([Text("2024-01-15")], Text("2024-01-15")) == Some(JAN_15)
    ensures Transform(RawTable(REQUIRED_COLUMNS,
                               [RawRecord(Num(1.0), Text("42"), Num(100.0), Text("2024-01-15"), Text("purchase"))]), lib)
         == Success([CleanRecord(Num(1.0), 42, 100.0, JAN_15, Text("purchase"), 2024, 1, false)])
  {
    var a := RawRecord(Num(1.0), Text("42"), Num(100.0), Text("2024-01-15"), Text("purchase"));
    var p := ParsersFor(RawTable(REQUIRED_COLUMNS, [a]), lib);
    ParsersForOne(a, lib, a.date);
    ParsersForOne(a, lib, a.userId);
    assert ToDatetime(a.date, p) == Some(JAN_15);
    assert ToNumeric(a.userId, p) == Some(42.0);
    TruncOfWhole(42);
    assert Cleaned(a, p) == Some(CleanRecord(Num(1.0), 42, 100.0, JAN_15, Text("purchase"), 2024, 1, false));
    TransformOne(a, lib);
  }

  /** An amount of exactly 0 drops the row. */
  lemma ZeroAmountDropped(lib: Library)
    ensures Transform(RawTable(REQUIRED_COLUMNS, [Purchase(1.0, 0.0)]), lib) == Success([])
  {
    CleanedPurchase(1.0, 0.0, ParsersFor(RawTable(REQUIRED_COLUMNS, [Purchase(1.0, 0.0)]), lib));
    TransformOne(Purchase(1.0, 0.0), lib);
  }

  /** A date that does not parse drops the row. */
  lemma BadDateDropped(lib: Library)
    requires lib.toDatetime([Text("not-a-date")], Text("not-a-date")) == None
    ensures Transform(RawTable(REQUIRED_COLUMNS,
                               [RawRecord(Num(1.0), Num(42.0), Num(100.0), Text("not-a-date"), Text("purchase"))]), lib)
         == Success([])
  {
    var a := RawRecord(Num(1.0), Num(42.0), Num(100.0), Text("not-a-date"), Text("purchase"));
    var p := ParsersFor(RawTable(REQUIRED_COLUMNS, [a]), lib);
    ParsersForOne(a, lib, a.date);
    assert ToDatetime(a.date, p) == None;
    assert Cleaned(a, p) == None;
    TransformOne(a, lib);
  }

  /** A date-time before the earliest representable timestamp becomes null and drops the row. */
  lemma OutOfRangeDateDropped(lib: Library)
    ensures Transform(RawTable(REQUIRED_COLUMNS,
                               [RawRecord(Num(1.0), Num(42.0), Num(100.0), Time(DateTime(1600, 1, 1, 0)), Text("purchase"))]), lib)
         == Success([])
  {
    var a := RawRecord(Num(1.0), Num(42.0), Num(100.0), Time(DateTime(1600, 1, 1, 0)), Text("purchase"));
    var p := ParsersFor(RawTable(REQUIRED_COLUMNS, [a]), lib);
    assert !NotAfter(MIN_TIMESTAMP, a.date.time);
    assert ToDatetime(a.date, p) == None;
    assert Cleaned(a, p) == None;
    TransformOne(a, lib);
  }

  /** A user id that is not numeric drops the row. */
  lemma NonNumericUserDropped(lib: Library)
    requires lib.toNumeric([Text("abc")], Text("abc")) == None
    ensures Transform(RawTable(REQUIRED_COLUMNS,
                               [RawRecord(Num(1.0), Text("abc"), Num(100.0), Time(JAN_15), Text("purchase"))]), lib)
         == Success([])
  {
    var a := RawRecord(Num(1.0), Text("abc"), Num(100.0), Time(JAN_15), Text("purchase"));
    var p := ParsersFor(RawTable(REQUIRED_COLUMNS, [a]), lib);
    ParsersForOne(a, lib, a.userId);
    assert ToNumeric(a.userId, p) == None;
    assert Cleaned(a, p) == None;
    TransformOne(a, lib);
  }

  function OfType(kind: string): RawRecord {
    RawRecord(Num(1.0), Num(42.0), Num(10.0), Time(JAN_15), Text(kind))
  }

  /** The type "refund" sets is_refund. */
  lemma RefundIsFlagged(lib: Library)
    ensures Transform(RawTable(REQUIRED_COLUMNS, [OfType("refund")]), lib)
         == Success([CleanRecord(Num(1.0), 42, 10.0, JAN_15, Text("refund"), 2024, 1, true)])
  {
    var p := ParsersFor(RawTable(REQUIRED_COLUMNS, [OfType("refund")]), lib);
    TruncOfWhole(42);
    assert Cleaned(OfType("refund"), p) == Some(CleanRecord(Num(1.0), 42, 10.0, JAN_15, Text("refund"), 2024, 1, true));
    TransformOne(OfType("refund"), lib);
  }

  /** The comparison is case-sensitive: the type "REFUND" does not set is_refund. */
  lemma UpperCaseRefundIsNotFlagged(lib: Library)
    ensures Transform(RawTable(REQUIRED_COLUMNS, [OfType("REFUND")]), lib)
         == Success([CleanRecord(Num(1.0), 42, 10.0, JAN_15, Text("REFUND"), 2024, 1, false)])
  {
    var p := ParsersFor(RawTable(REQUIRED_COLUMNS, [OfType("REFUND")]), lib);
    TruncOfWhole(42);
    assert Text("REFUND") != Text("refund") by {
      assert "REFUND"[0] != "refund"[0];
    }
    assert Cleaned(OfType("REFUND"), p) == Some(CleanRecord(Num(1.0), 42, 10.0, JAN_15, Text("REFUND"), 2024, 1, false));
    TransformOne(OfType("REFUND"), lib);
  }

  /** A dropped row does not hide a later valid row with the same transaction id. */
  lemma InvalidRowDoesNotShadow(lib: Library)
    ensures Transform(RawTable(REQUIRED_COLUMNS, [Purchase(7.0, 0.0), Purchase(7.0, 5.0)]), lib)
         == Success([CleanRecord(Num(7.0), 42, 5.0, JAN_15, Text("purchase"), 2024, 1, false)])
  {
    var p := ParsersFor(RawTable(REQUIRED_COLUMNS, [Purchase(7.0, 0.0), Purchase(7.0, 5.0)]), lib);
    var c := CleanRecord(Num(7.0), 42, 5.0, JAN_15, Text("purchase"), 2024, 1, false);
    CleanedPurchase(7.0, 0.0, p);
    CleanedPurchase(7.0, 5.0, p);
    TransformPurchases(7.0, 0.0, 5.0, lib);
    assert [] + [c] == [c];
    assert FirstById([c]) == [c] by {
      assert [c][..0] == [];
    }
  }

  /** A table without a user_id column raises a KeyError naming it. */
  lemma MissingUserIdColumn(lib: Library)
    ensures Transform(RawTable(REQUIRED_COLUMNS - {USER_ID}, [Purchase(1.0, 10.0)]), lib)
         == Failure(MissingColumns([USER_ID]))
  {
    var columns := REQUIRED_COLUMNS - {USER_ID};
    assert TRANSACTION_DATE in columns by {
      assert TRANSACTION_DATE[0] != USER_ID[0];
    }
    assert TRANSACTION_TYPE in columns by {
      assert TRANSACTION_TYPE[0] != USER_ID[0];
    }
    assert TRANSACTION_ID in columns && TRANSACTION_AMOUNT in columns by {
      assert TRANSACTION_ID[0] != USER_ID[0] && TRANSACTION_AMOUNT[0] != USER_ID[0];
    }
    assert USER_ID !in columns;
    assert MissingAtDropna(columns) == [USER_ID];
  }

  /** A string amount on a complete row makes the comparison with 0 raise. */
  lemma TextAmountRaises(lib: Library)
    ensures Transform(RawTable(REQUIRED_COLUMNS, [Purchase(1.0, 10.0).(amount := Text("100"))]), lib)
         == Failure(NonNumericAmount)
  {
  }

  /**
   * An amount column of date-times has the date-time type, and comparing it
   * with 0 raises even though line 38 has dropped every row.
   */
  lemma DateAmountColumnRaises(lib: Library)
    ensures Transform(RawTable(REQUIRED_COLUMNS,
                               [RawRecord(Num(1.0), Num(42.0), Time(JAN_15), Null, Text("purchase"))]), lib)
         == Failure(NonNumericAmount)
  {
    var a := RawRecord(Num(1.0), Num(42.0), Time(JAN_15), Null, Text("purchase"));
    assert Column([a], AmountField) == [Time(JAN_15)];
  }
}
