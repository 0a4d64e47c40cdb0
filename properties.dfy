/**
 * What the pipeline guarantees: its stage-by-stage result equals the
 * row-at-a-time reference, it keeps exactly the first valid row of each
 * transaction id in input order, every row it returns is clean, it fails
 * exactly on a missing column or a non-numeric amount, and it is idempotent.
 */
module PipelineProperties {
  import opened Wrappers
  import opened Seqs
  import opened Records
  import opened Pipeline
  import opened Reference

  lemma {:induction false} TypedRowsAppend(xs: seq<Row>, ys: seq<Row>, p: Parsers)
    requires forall k :: 0 <= k < |xs| ==> Ready(xs[k])
    requires forall k :: 0 <= k < |ys| ==> Ready(ys[k])
    ensures forall k :: 0 <= k < |xs + ys| ==> Ready((xs + ys)[k])
    ensures TypedRows(xs + ys, p) == TypedRows(xs, p) + TypedRows(ys, p)
  {
    if ys == [] {
      assert xs + ys == xs;
    } else {
      var init := ys[..|ys| - 1];
      assert (xs + ys)[..|xs + ys| - 1] == xs + init;
      assert (xs + ys)[|xs + ys| - 1] == ys[|ys| - 1];
      TypedRowsAppend(xs, init, p);
    }
  }

  lemma StagedAppend(xs: seq<RawRecord>, ys: seq<RawRecord>, p: Parsers)
    ensures Staged(xs + ys, p) == Staged(xs, p) + Staged(ys, p)
  {
    assert DerivedRows(xs + ys, p) == DerivedRows(xs, p) + DerivedRows(ys, p);
    FilterAppend(Complete, DerivedRows(xs, p), DerivedRows(ys, p));
    var cx, cy := Filter(Complete, DerivedRows(xs, p)), Filter(Complete, DerivedRows(ys, p));
    FilterAppend(Positive, cx, cy);
    TypedRowsAppend(Filter(Positive, cx), Filter(Positive, cy), p);
  }

  lemma CoerceIsCleaned(x: RawRecord, p: Parsers)
    requires Ready(DeriveRow(x, p))
    ensures CoerceUserId(DeriveRow(x, p), p) == Cleaned(x, p)
  {
  }

  lemma TypedRowsSingle(d: Row, p: Parsers)
    requires Ready(d)
    ensures TypedRows([d], p) == AsList(CoerceUserId(d, p))
  {
  }

  lemma StagedSingle(x: RawRecord, p: Parsers)
    ensures Staged([x], p) == AsList(Cleaned(x, p))
  {
    var d := DeriveRow(x, p);
    assert DerivedRows([x], p) == [d];
    FilterSingle(Complete, d);
    if Complete(d) {
      FilterSingle(Positive, d);
      if Positive(d) {
        TypedRowsSingle(d, p);
        CoerceIsCleaned(x, p);
      } else {
        assert Cleaned(x, p) == None;
      }
    } else {
      assert Cleaned(x, p) == None;
    }
  }

  /** Running stages 1-6 over the whole table decides and converts each row on its own. */
  lemma {:induction false} StagedIsPerRow(rows: seq<RawRecord>, p: Parsers)
    ensures Staged(rows, p) == CleanAll(rows, p)
  {
    if rows != [] {
      var n := |rows| - 1;
      var init, x := rows[..n], rows[n];
      assert rows == init + [x];
      calc {
        Staged(init + [x], p);
      == { StagedAppend(init, [x], p); }
        Staged(init, p) + Staged([x], p);
      == { StagedIsPerRow(init, p); StagedSingle(x, p); }
        CleanAll(init, p) + AsList(Cleaned(x, p));
      == { CleanAllSnoc(init, x, p); }
        CleanAll(init + [x], p);
      }
    }
  }

  lemma ValidIdsSnoc(rows: seq<RawRecord>, p: Parsers)
    requires rows != []
    ensures var n := |rows| - 1;
      ValidIds(rows, p) == ValidIds(rows[..n], p) + (if Cleaned(rows[n], p).Some? then {rows[n].transactionId} else {})
  {
  }

  lemma {:induction false} IdsOfCleanAll(rows: seq<RawRecord>, p: Parsers)
    ensures IdsOf(CleanAll(rows, p)) == ValidIds(rows, p)
  {
    if rows != [] {
      var n := |rows| - 1;
      var pre := CleanAll(rows[..n], p);
      IdsOfCleanAll(rows[..n], p);
      ValidIdsSnoc(rows, p);
      assert CleanAll(rows, p) == pre + AsList(Cleaned(rows[n], p));
      if Cleaned(rows[n], p).Some? {
        IdsOfSnoc(pre, Cleaned(rows[n], p).value);
      } else {
        assert pre + [] == pre;
      }
    }
  }

  lemma FirstByIdSnoc(pre: seq<CleanRecord>, c: CleanRecord)
    ensures FirstById(pre + [c]) == FirstById(pre) + (if c.transactionId in IdsOf(pre) then [] else [c])
  {
  }

  /**
   * Deduplication after filtering keeps, for each transaction id, the first
   * valid row in input order: the retained rows are those at the positions
   * `Survivors`, in that order.
   */
  lemma FirstValidOfLast(rows: seq<RawRecord>, p: Parsers)
    requires rows != [] && Cleaned(rows[|rows| - 1], p).Some?
    ensures var n := |rows| - 1;
      FirstValid(rows, p, n) <==> rows[n].transactionId !in ValidIds(rows[..n], p)
  {
  }

  /** The last row extends the deduplicated table exactly when it is the first valid row of its id. */
  lemma DedupeSnoc(rows: seq<RawRecord>, p: Parsers)
    requires rows != []
    ensures var n := |rows| - 1;
      FirstById(CleanAll(rows, p))
        == FirstById(CleanAll(rows[..n], p)) + (if FirstValid(rows, p, n) then [Cleaned(rows[n], p).value] else [])
  {
    var n := |rows| - 1;
    var pre := CleanAll(rows[..n], p);
    assert CleanAll(rows, p) == pre + AsList(Cleaned(rows[n], p));
    if Cleaned(rows[n], p).Some? {
      FirstByIdSnoc(pre, Cleaned(rows[n], p).value);
      IdsOfCleanAll(rows[..n], p);
      FirstValidOfLast(rows, p);
    } else {
      assert pre + [] == pre;
    }
  }

  /** Extending both the kept rows and their positions by the last row keeps them aligned. */
  lemma AlignedSnoc(rows: seq<RawRecord>, p: Parsers, before: seq<CleanRecord>, s: seq<nat>, keep: bool)
    requires rows != [] && |before| == |s|
    requires keep ==> Cleaned(rows[|rows| - 1], p).Some?
    requires forall k :: 0 <= k < |s| ==>
      s[k] < |rows| - 1 && Cleaned(rows[s[k]], p).Some? && before[k] == Cleaned(rows[s[k]], p).value
    ensures var n := |rows| - 1;
      var out := before + (if keep then [Cleaned(rows[n], p).value] else []);
      var all := s + (if keep then [n] else []);
      |out| == |all| && forall k :: 0 <= k < |all| ==> out[k] == Cleaned(rows[all[k]], p).value
  {
  }

  lemma {:induction false} DedupeKeepsFirst(rows: seq<RawRecord>, p: Parsers)
    ensures |FirstById(CleanAll(rows, p))| == |Survivors(rows, p)|
    ensures forall k :: 0 <= k < |Survivors(rows, p)| ==>
      FirstById(CleanAll(rows, p))[k] == Cleaned(rows[Survivors(rows, p)[k]], p).value
  {
    if rows != [] {
      var n := |rows| - 1;
      var init := rows[..n];
      DedupeKeepsFirst(init, p);
      var s := Survivors(init, p);
      DedupeSnoc(rows, p);
      SurvivorsSnoc(rows, p);
      assert forall k :: 0 <= k < |s| ==> init[s[k]] == rows[s[k]];
      AlignedSnoc(rows, p, FirstById(CleanAll(init, p)), s, FirstValid(rows, p, n));
    }
  }

  /** A successful run is stages 1-7 with no error raised. */
  lemma TransformSuccess(t: RawTable, lib: Library)
    requires Transform(t, lib).Success?
    ensures Transform(t, lib).value == FirstById(Staged(t.rows, ParsersFor(t, lib)))
  {
  }

  /**
   * On success the pipeline returns, in input order, the clean record of every
   * row that is valid and the first valid row of its transaction id, and no
   * other row: an order-preserving selection of the input.
   */
  lemma TransformMatchesReference(t: RawTable, lib: Library)
    requires Transform(t, lib).Success?
    ensures var p := ParsersFor(t, lib);
      && |Transform(t, lib).value| == |Survivors(t.rows, p)|
      && forall k :: 0 <= k < |Survivors(t.rows, p)| ==>
           Transform(t, lib).value[k] == Cleaned(t.rows[Survivors(t.rows, p)[k]], p).value
  {
    var p := ParsersFor(t, lib);
    TransformSuccess(t, lib);
    StagedIsPerRow(t.rows, p);
    DedupeKeepsFirst(t.rows, p);
  }

  /**
   * The pipeline fails exactly when a required column is absent, the amount
   * column has the date-time type, or a row that reaches the amount comparison
   * has a non-numeric amount.
   */
  lemma TransformFailsExactly(t: RawTable, lib: Library)
    ensures Transform(t, lib).Success? <==>
      && REQUIRED_COLUMNS <= t.columns
      && !DatetimeColumn(Column(t.rows, AmountField))
      && forall k :: 0 <= k < |t.rows| ==> !Uncomparable(t.rows[k], ParsersFor(t, lib))
  {
  }

  /** A row with a null required field, a bad date, a non-positive amount or a non-numeric user id is never returned. */
  lemma DroppedRows(t: RawTable, lib: Library, i: int)
    requires 0 <= i < |t.rows|
    ensures var r, p := t.rows[i], ParsersFor(t, lib);
      (|| r.transactionId == Null || r.userId == Null || r.amount == Null || r.transactionType == Null
       || ToDatetime(r.date, p).None?
       || !(r.amount.Num? && r.amount.number > 0.0)
       || ToNumeric(r.userId, p).None?)
      ==> i !in Survivors(t.rows, p)
  {
  }

  lemma {:induction false} FirstValidWithId(rows: seq<RawRecord>, p: Parsers, i: int)
    requires 0 <= i < |rows| && Cleaned(rows[i], p).Some?
    ensures exists j :: 0 <= j <= i && FirstValid(rows, p, j) && rows[j].transactionId == rows[i].transactionId
  {
    if !FirstValid(rows, p, i) {
      var j :| 0 <= j < i && Cleaned(rows[j], p).Some? && rows[j].transactionId == rows[i].transactionId;
      FirstValidWithId(rows, p, j);
    }
  }

  /** No transaction id of a valid input row is lost: some returned row carries it. */
  lemma EveryValidIdRetained(t: RawTable, lib: Library, i: int)
    requires Transform(t, lib).Success?
    requires 0 <= i < |t.rows| && Cleaned(t.rows[i], ParsersFor(t, lib)).Some?
    ensures exists k :: 0 <= k < |Transform(t, lib).value| && Transform(t, lib).value[k].transactionId == t.rows[i].transactionId
  {
    var p := ParsersFor(t, lib);
    TransformMatchesReference(t, lib);
    FirstValidWithId(t.rows, p, i);
    var j :| 0 <= j <= i && FirstValid(t.rows, p, j) && t.rows[j].transactionId == t.rows[i].transactionId;
    var s := Survivors(t.rows, p);
    var k :| 0 <= k < |s| && s[k] == j;
    assert Transform(t, lib).value[k].transactionId == t.rows[j].transactionId;
  }

  // ---------------------------------------------------------------------
  // Idempotence: feeding a cleaned table back in changes nothing.

  /** A clean record as a raw row again: dates stay date-time cells, numbers number cells. */
  function ToRaw(c: CleanRecord): RawRecord {
    RawRecord(c.transactionId, Num(c.userId as real), Num(c.amount), Time(c.date), c.transactionType)
  }

  /** A cleaned table read back with all eight of its columns. */
  function Reloaded(out: seq<CleanRecord>): RawTable {
    RawTable(REQUIRED_COLUMNS + {"year", "month", "is_refund"},
             seq(|out|, k requires 0 <= k < |out| => ToRaw(out[k])))
  }

  /** A valid clean record, read back, is cleaned into itself. */
  lemma CleanedOfRaw(c: CleanRecord, p: Parsers)
    requires CleanRecordValid(c)
    ensures Cleaned(ToRaw(c), p) == Some(c)
  {
    TruncOfWhole(c.userId);
  }

  lemma ReloadedSnoc(out: seq<CleanRecord>)
    requires out != []
    ensures var n := |out| - 1;
      Reloaded(out).rows == Reloaded(out[..n]).rows + [ToRaw(out[n])]
  {
  }

  lemma {:induction false} CleanAllOfClean(out: seq<CleanRecord>, p: Parsers)
    requires forall k :: 0 <= k < |out| ==> CleanRecordValid(out[k])
    ensures CleanAll(Reloaded(out).rows, p) == out
  {
    if out != [] {
      var n := |out| - 1;
      var pre := out[..n];
      calc {
        CleanAll(Reloaded(out).rows, p);
      == { ReloadedSnoc(out); }
        CleanAll(Reloaded(pre).rows + [ToRaw(out[n])], p);
      == { CleanAllSnoc(Reloaded(pre).rows, ToRaw(out[n]), p); }
        CleanAll(Reloaded(pre).rows, p) + AsList(Cleaned(ToRaw(out[n]), p));
      == { CleanAllOfClean(pre, p); CleanedOfRaw(out[n], p); }
        pre + [out[n]];
      == { assert pre + [out[n]] == out; }
        out;
      }
    }
  }

  lemma {:induction false} FirstByIdOfDistinct(rs: seq<CleanRecord>)
    requires forall k, l :: 0 <= k < l < |rs| ==> rs[k].transactionId != rs[l].transactionId
    ensures FirstById(rs) == rs
  {
    if rs != [] {
      var n := |rs| - 1;
      FirstByIdOfDistinct(rs[..n]);
      assert rs[n].transactionId !in IdsOf(rs[..n]);
      assert rs[..n] + [rs[n]] == rs;
    }
  }

  /** A reloaded table's amounts are numbers, so its amount column is not of the date-time type. */
  lemma ReloadedAmountsNumeric(out: seq<CleanRecord>)
    ensures !DatetimeColumn(Column(Reloaded(out).rows, AmountField))
  {
    var col := Column(Reloaded(out).rows, AmountField);
    if out != [] {
      assert col[0] == Num(out[0].amount);
    }
  }

  /** Running the pipeline on its own output returns that output unchanged. */
  lemma TransformIdempotent(out: seq<CleanRecord>, lib: Library)
    requires CleanTable(out)
    ensures Transform(Reloaded(out), lib) == Success(out)
  {
    var t := Reloaded(out);
    var p := ParsersFor(t, lib);
    var complete := Filter(Complete, DerivedRows(t.rows, p));
    assert MissingAtDropna(t.columns) == [];
    ReloadedAmountsNumeric(out);
    assert AllComparable(complete) by {
      forall k | 0 <= k < |complete| ensures Comparable(complete[k]) {
        assert complete[k] in DerivedRows(t.rows, p);
      }
    }
    StagedIsPerRow(t.rows, p);
    CleanAllOfClean(out, p);
    FirstByIdOfDistinct(out);
  }

  /** Corollary for a single run: its output fed back in comes out the same. */
  lemma TransformTwiceIsOnce(t: RawTable, lib: Library)
    requires Transform(t, lib).Success?
    ensures Transform(Reloaded(Transform(t, lib).value), lib) == Transform(t, lib)
  {
    TransformIdempotent(Transform(t, lib).value, lib);
  }
}
