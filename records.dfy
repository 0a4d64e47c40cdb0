/**
 * The data the transaction-cleaning pipeline works on: spreadsheet cells,
 * raw transaction rows, the intermediate rows that carry the derived
 * columns, and the clean transaction records it returns.
 */
module Records {
  import opened Wrappers

  const TRANSACTION_ID := "transaction_id"
  const USER_ID := "user_id"
  const TRANSACTION_AMOUNT := "transaction_amount"
  const TRANSACTION_DATE := "transaction_date"
  const TRANSACTION_TYPE := "transaction_type"

  /** The five columns the pipeline reads; a table without one of them is rejected. */
  const REQUIRED_COLUMNS: set<string> :=
    {TRANSACTION_ID, USER_ID, TRANSACTION_AMOUNT, TRANSACTION_DATE, TRANSACTION_TYPE}

  type Month = m: int | 1 <= m <= 12 witness 1
  type Day = d: int | 1 <= d <= 31 witness 1

  /** Nanoseconds since midnight: 0 up to, not including, 24 hours. */
  type NanosOfDay = n: int | 0 <= n < 86_400_000_000_000

  /** A point in time as a cell holds it: a calendar date and a time of day. */
  datatype DateTime = DateTime(year: int, month: Month, day: Day, nanosOfDay: NanosOfDay)

  /** `a` is not later than `b`. */
  predicate NotAfter(a: DateTime, b: DateTime) {
    || a.year < b.year
    || (a.year == b.year && a.month < b.month)
    || (a.year == b.year && a.month == b.month && a.day < b.day)
    || (a.year == b.year && a.month == b.month && a.day == b.day && a.nanosOfDay <= b.nanosOfDay)
  }

  /** The earliest and latest instants a nanosecond timestamp of the library can hold. */
  const MIN_TIMESTAMP := DateTime(1677, 9, 21, 763_145_224_193)      // 1677-09-21 00:12:43.145224193
  const MAX_TIMESTAMP := DateTime(2262, 4, 11, 85_636_854_775_807)   // 2262-04-11 23:47:16.854775807

  predicate InTimestampRange(d: DateTime) {
    NotAfter(MIN_TIMESTAMP, d) && NotAfter(d, MAX_TIMESTAMP)
  }

  /** A parsed date: a date-time the library's nanosecond timestamps can represent. */
  type Timestamp = d: DateTime | InTimestampRange(d) witness DateTime(1970, 1, 1, 0)

  /** One spreadsheet cell: empty, a number, a string, or a date-time value. */
  datatype Cell = Null | Num(number: real) | Text(text: string) | Time(time: DateTime)

  /**
   * The parsing done by the data-frame library, which this model does not
   * re-implement. `toDatetime(column, c)` is what `pd.to_datetime(column,
   * errors='coerce')` makes of the string or number cell `c` of `column`, and
   * `toNumeric(column, c)` what `pd.to_numeric(..., errors='coerce')` makes of
   * the non-numeric cell `c`. Each is given the whole column as it was read,
   * because the library may infer one format, or a column type, from the
   * column's values. `None` means the value does not parse.
   */
  datatype Library = Library(
    toDatetime: (seq<Cell>, Cell) -> Option<DateTime>,
    toNumeric: (seq<Cell>, Cell) -> Option<real>)

  /** The same parsing with the columns fixed: one function per cell. */
  datatype Parsers = Parsers(date: Cell -> Option<DateTime>, number: Cell -> Option<real>)

  /** A raw row: the five cells the pipeline uses, exactly as read. */
  datatype RawRecord = RawRecord(
    transactionId: Cell,
    userId: Cell,
    amount: Cell,
    date: Cell,
    transactionType: Cell)

  /**
   * A raw table: the names of the columns present and the rows. The cells of a
   * column that is not among `columns` carry no data and are never read.
   */
  datatype RawTable = RawTable(columns: set<string>, rows: seq<RawRecord>)

  /** A row after the date has been parsed and year, month and is_refund added. */
  datatype Row = Row(
    transactionId: Cell,
    userId: Cell,
    amount: Cell,
    date: Option<Timestamp>,
    transactionType: Cell,
    year: Option<int>,
    month: Option<Month>,
    isRefund: bool)

  /** A row of the cleaned table, with the types of the destination schema. */
  datatype CleanRecord = CleanRecord(
    transactionId: Cell,
    userId: int,
    amount: real,
    date: Timestamp,
    transactionType: Cell,
    year: int,
    month: Month,
    isRefund: bool)

  /** What the pipeline raises; it is logged and re-raised unchanged. */
  datatype TransformError =
    | MissingColumns(names: seq<string>)  // a KeyError on a column lookup
    | NonNumericAmount                    // a TypeError comparing an amount with 0

  /**
   * `pd.to_datetime(..., errors='coerce')` on one cell: a null stays null, a
   * date-time cell is taken as it is, any other cell is parsed, and a result
   * outside the representable range becomes null.
   */
  function ToDatetime(c: Cell, p: Parsers): (r: Option<Timestamp>)
    ensures r.Some? ==> c != Null
  {
    var d := match c
      case Null => None
      case Time(t) => Some(t)
      case _ => p.date(c);
    if d.Some? && InTimestampRange(d.value) then Some(d.value) else None
  }

  /** Converting a converted date again gives it back. */
  lemma ToDatetimeOfTimestamp(ts: Timestamp, p: Parsers)
    ensures ToDatetime(Time(ts), p) == Some(ts)
  {
  }

  /**
   * `pd.to_numeric(..., errors='coerce')` on one cell: a null stays null, a
   * number is its own value, any other cell is parsed.
   */
  function ToNumeric(c: Cell, p: Parsers): (r: Option<real>)
    ensures r.Some? ==> c != Null
  {
    match c
    case Null => None
    case Num(x) => Some(x)
    case _ => p.number(c)
  }

  /** Converting a converted number again gives it back. */
  lemma ToNumericOfNumber(x: real, p: Parsers)
    ensures ToNumeric(Num(x), p) == Some(x)
  {
  }

  /** `astype(int)` on a float: the fraction is cut off, toward zero. */
  function TruncToInt(x: real): (n: int)
    ensures 0.0 <= x ==> 0 <= n && n as real <= x < n as real + 1.0
    ensures x < 0.0 ==> n <= 0 && n as real - 1.0 < x <= n as real
  {
    if 0.0 <= x then x.Floor else -((-x).Floor)
  }

  lemma TruncOfWhole(n: int)
    ensures TruncToInt(n as real) == n
  {
  }

  /** The five columns the pipeline reads. */
  datatype Field = IdField | UserField | AmountField | DateField | TypeField

  function CellOf(r: RawRecord, f: Field): Cell {
    match f
    case IdField => r.transactionId
    case UserField => r.userId
    case AmountField => r.amount
    case DateField => r.date
    case TypeField => r.transactionType
  }

  /** One column of a table, top to bottom. */
  function Column(rows: seq<RawRecord>, f: Field): (col: seq<Cell>)
    ensures |col| == |rows| && forall k :: 0 <= k < |rows| ==> col[k] == CellOf(rows[k], f)
  {
    seq(|rows|, k requires 0 <= k < |rows| => CellOf(rows[k], f))
  }

  /**
   * The reader gives a column the date-time type when it holds at least one
   * date-time and nothing else but nulls.
   */
  predicate DatetimeColumn(col: seq<Cell>) {
    && (exists k :: 0 <= k < |col| && col[k].Time?)
    && (forall k :: 0 <= k < |col| ==> col[k] == Null || col[k].Time?)
  }

  /** The per-cell parsers a run over table `t` uses. */
  function ParsersFor(t: RawTable, lib: Library): Parsers {
    var dates, users := Column(t.rows, DateField), Column(t.rows, UserField);
    Parsers(c => lib.toDatetime(dates, c), c => lib.toNumeric(users, c))
  }

  /** The invariant every row of the cleaned table satisfies. */
  predicate CleanRecordValid(c: CleanRecord) {
    && c.transactionId != Null
    && c.transactionType != Null
    && c.amount > 0.0
    && c.year == c.date.year
    && c.month == c.date.month
    && (c.isRefund <==> c.transactionType == Text("refund"))
  }

  /** A cleaned table: every row valid and no transaction id twice. */
  predicate CleanTable(out: seq<CleanRecord>) {
    && (forall k :: 0 <= k < |out| ==> CleanRecordValid(out[k]))
    && (forall k, l :: 0 <= k < l < |out| ==> out[k].transactionId != out[l].transactionId)
  }
}
