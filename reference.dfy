/**
 * An independent, row-at-a-time description of what the pipeline keeps: a
 * row survives when it is valid on its own and no earlier valid row has its
 * transaction id.
 */
module Reference {
  import opened Wrappers
  import opened Records

  /** The clean record a raw row becomes on its own, or None when some stage drops it. */
  function Cleaned(r: RawRecord, p: Parsers): Option<CleanRecord> {
    if r.transactionId == Null || r.userId == Null || r.amount == Null || r.transactionType == Null then None
    else
      match ToDatetime(r.date, p)
      case None => None
      case Some(ts) =>
        if !(r.amount.Num? && r.amount.number > 0.0) then None
        else
          match ToNumeric(r.userId, p)
          case None => None
          case Some(u) =>
            Some(CleanRecord(r.transactionId, TruncToInt(u), r.amount.number, ts, r.transactionType,
                             ts.year, ts.month, r.transactionType == Text("refund")))
  }

  /** A row that reaches the amount comparison with an amount that is not a number. */
  predicate Uncomparable(r: RawRecord, p: Parsers) {
    && r.transactionId != Null && r.userId != Null && r.amount != Null && r.transactionType != Null
    && ToDatetime(r.date, p).Some?
    && !r.amount.Num?
  }

  /** Row i is valid and is the first valid row with its transaction id. */
  predicate FirstValid(rows: seq<RawRecord>, p: Parsers, i: int)
    requires 0 <= i < |rows|
  {
    && Cleaned(rows[i], p).Some?
    && forall j :: 0 <= j < i && Cleaned(rows[j], p).Some? ==> rows[j].transactionId != rows[i].transactionId
  }

  function AsList(c: Option<CleanRecord>): seq<CleanRecord> {
    match c
    case None => []
    case Some(r) => [r]
  }

  /** The valid rows, each turned into its clean record, in input order. */
  function CleanAll(rows: seq<RawRecord>, p: Parsers): seq<CleanRecord> {
    if rows == [] then []
    else
      CleanAll(rows[..|rows| - 1], p) + AsList(Cleaned(rows[|rows| - 1], p))
  }

  lemma CleanAllSnoc(xs: seq<RawRecord>, x: RawRecord, p: Parsers)
    ensures CleanAll(xs + [x], p) == CleanAll(xs, p) + AsList(Cleaned(x, p))
  {
  }

  /** The transaction ids of the valid rows. */
  function ValidIds(rows: seq<RawRecord>, p: Parsers): set<Cell> {
    set k | 0 <= k < |rows| && Cleaned(rows[k], p).Some? :: rows[k].transactionId
  }

  lemma FirstValidOfPrefix(rows: seq<RawRecord>, p: Parsers, n: nat, i: int)
    requires 0 <= i < n <= |rows|
    ensures FirstValid(rows[..n], p, i) == FirstValid(rows, p, i)
  {
  }

  /**
   * The input positions the pipeline retains, in increasing order: exactly the
   * rows that are the first valid row of their transaction id.
   */
  function Survivors(rows: seq<RawRecord>, p: Parsers): (s: seq<nat>)
    ensures forall k :: 0 <= k < |s| ==> s[k] < |rows| && FirstValid(rows, p, s[k])
    ensures forall k, l :: 0 <= k < l < |s| ==> s[k] < s[l]
    ensures forall i :: 0 <= i < |rows| && FirstValid(rows, p, i) ==> i in s
  {
    if rows == [] then []
    else
      var n := |rows| - 1;
      var init := Survivors(rows[..n], p);
      assert forall i :: 0 <= i < n ==> FirstValid(rows[..n], p, i) == FirstValid(rows, p, i) by {
        forall i | 0 <= i < n { FirstValidOfPrefix(rows, p, n, i); }
      }
      if FirstValid(rows, p, n) then init + [n] else init
  }

  /** The last row is retained exactly when it is the first valid row of its id. */
  lemma SurvivorsSnoc(rows: seq<RawRecord>, p: Parsers)
    requires rows != []
    ensures var n := |rows| - 1;
      Survivors(rows, p) == Survivors(rows[..n], p) + (if FirstValid(rows, p, n) then [n] else [])
  {
  }
}
