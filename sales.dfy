/**
 * The transaction table `df` and the in-place preparation the script runs on
 * it: making `InvoiceDate` a datetime column, deriving `Revenue` when the file
 * has none, and adding the `Month` column.
 */
module Sales {
  import opened Wrappers
  import opened Months

  /** One line item of the transaction log, restricted to the columns the analysis reads. */
  datatype Row = Row(
    invoiceNo: string,
    description: Option<string>,  // None: the cell is empty in the file (NaN)
    country: string,
    quantity: int,                // negative for returns
    unitPrice: real,
    invoiceDate: Date,
    revenue: Option<real>,        // None: the table has no Revenue column
    month: Option<Month>)         // None: the table has no Month column

  /**
   * The value of the table: its rows, whether `InvoiceDate` already has a
   * datetime dtype, and which of the derived columns exist.
   */
  datatype Frame = Frame(rows: seq<Row>, datetimeDates: bool, hasRevenue: bool, hasMonth: bool)

  /** A column exists on every row or on none. */
  predicate WellFormed(f: Frame)
  {
    forall i | 0 <= i < |f.rows| ::
      f.rows[i].revenue.Some? == f.hasRevenue && f.rows[i].month.Some? == f.hasMonth
  }

  /** `Quantity * UnitPrice` of one row. */
  function LineTotal(r: Row): real
  {
    r.quantity as real * r.unitPrice
  }

  /** `df["Quantity"] * df["UnitPrice"]` stored as the `Revenue` column. */
  function RevenueColumn(rows: seq<Row>): (r: seq<Row>)
    ensures |r| == |rows|
    ensures forall i | 0 <= i < |rows| ::
      r[i].revenue == Some(LineTotal(rows[i]))
      && r[i].(revenue := rows[i].revenue) == rows[i]
  {
    seq(|rows|, i requires 0 <= i < |rows| => rows[i].(revenue := Some(LineTotal(rows[i]))))
  }

  /** `InvoiceDate.dt.to_period("M")` stored as the `Month` column. */
  function MonthColumn(rows: seq<Row>): (r: seq<Row>)
    ensures |r| == |rows|
    ensures forall i | 0 <= i < |rows| ::
      r[i].month == Some(Month(rows[i].invoiceDate.year, rows[i].invoiceDate.month))
      && r[i].(month := rows[i].month) == rows[i]
  {
    seq(|rows|, i requires 0 <= i < |rows| => rows[i].(month := Some(MonthOf(rows[i].invoiceDate))))
  }

  /** Lines 13-14: the date column ends up with a datetime dtype; no row changes. */
  function WithDatetimeDates(f: Frame): (r: Frame)
    ensures r.datetimeDates
    ensures r.rows == f.rows && r.hasRevenue == f.hasRevenue && r.hasMonth == f.hasMonth
  {
    if f.datetimeDates then f else f.(datetimeDates := true)
  }

  /**
   * Lines 15-16: a table without `Revenue` gets it as `Quantity * UnitPrice`
   * on every row; a table that has it keeps it untouched.
   */
  function WithRevenue(f: Frame): (r: Frame)
    ensures r.hasRevenue
    ensures r.datetimeDates == f.datetimeDates && r.hasMonth == f.hasMonth
    ensures |r.rows| == |f.rows|
    ensures forall i | 0 <= i < |f.rows| :: r.rows[i].(revenue := f.rows[i].revenue) == f.rows[i]
    ensures forall i | 0 <= i < |f.rows| ::
      r.rows[i].revenue == (if f.hasRevenue then f.rows[i].revenue else Some(LineTotal(f.rows[i])))
    ensures WellFormed(f) ==> WellFormed(r)
  {
    if f.hasRevenue then f else f.(rows := RevenueColumn(f.rows), hasRevenue := true)
  }

  /** Lines 13-16: the whole preparation step. */
  function Prepared(f: Frame): (r: Frame)
    ensures r.datetimeDates && r.hasRevenue && r.hasMonth == f.hasMonth
    ensures |r.rows| == |f.rows|
    ensures forall i | 0 <= i < |f.rows| :: r.rows[i].(revenue := f.rows[i].revenue) == f.rows[i]
    ensures forall i | 0 <= i < |f.rows| ::
      r.rows[i].revenue == (if f.hasRevenue then f.rows[i].revenue else Some(LineTotal(f.rows[i])))
    ensures WellFormed(f) ==> WellFormed(r)
  {
    WithRevenue(WithDatetimeDates(f))
  }

  /** Line 28: every row gets the month of its invoice date; nothing else changes. */
  function WithMonth(f: Frame): (r: Frame)
    requires f.datetimeDates
    ensures r.hasMonth && r.datetimeDates && r.hasRevenue == f.hasRevenue
    ensures |r.rows| == |f.rows|
    ensures forall i | 0 <= i < |f.rows| ::
      r.rows[i].month == Some(MonthOf(f.rows[i].invoiceDate))
      && r.rows[i].(month := f.rows[i].month) == f.rows[i]
    ensures WellFormed(f) ==> WellFormed(r)
  {
    f.(rows := MonthColumn(f.rows), hasMonth := true)
  }

  /** Running the preparation a second time changes nothing. */
  lemma PreparedIdempotent(f: Frame)
    ensures Prepared(Prepared(f)) == Prepared(f)
  {
  }

  /** A `Revenue` column supplied by the file survives preparation unchanged. */
  lemma PreparedKeepsSuppliedRevenue(f: Frame)
    requires f.hasRevenue
    ensures Prepared(f).rows == f.rows
  {
  }

  /** After preparation every row of a well-formed table carries a revenue. */
  lemma PreparedHasRevenue(f: Frame)
    requires WellFormed(f)
    ensures forall i | 0 <= i < |Prepared(f).rows| :: Prepared(f).rows[i].revenue.Some?
  {
  }

  /** The shared, mutable table `df`. */
  class Table {
    var rows: seq<Row>
    var datetimeDates: bool
    var hasRevenue: bool
    var hasMonth: bool

    function Value(): Frame
      reads this
    {
      Frame(rows, datetimeDates, hasRevenue, hasMonth)
    }

    ghost predicate Valid()
      reads this
    {
      WellFormed(Value())
    }

    /** The table as loaded from the file. */
    constructor (loaded: Frame)
      requires WellFormed(loaded)
      ensures Valid() && Value() == loaded
    {
      rows := loaded.rows;
      datetimeDates := loaded.datetimeDates;
      hasRevenue := loaded.hasRevenue;
      hasMonth := loaded.hasMonth;
    }

    /** Lines 13-14. */
    method ConvertDates()
      requires Valid()
      modifies this
      ensures Valid()
      ensures Value() == WithDatetimeDates(old(Value()))
    {
      if !datetimeDates {
        datetimeDates := true;
      }
    }

    /** Lines 15-16. */
    method EnsureRevenue()
      requires Valid()
      modifies this
      ensures Valid()
      ensures Value() == WithRevenue(old(Value()))
    {
      if !hasRevenue {
        rows := RevenueColumn(rows);
        hasRevenue := true;
      }
    }

    /** Lines 13-16, in the script's order. */
    method Prepare()
      requires Valid()
      modifies this
      ensures Valid()
      ensures Value() == Prepared(old(Value()))
    {
      ConvertDates();
      EnsureRevenue();
    }

    /** Line 28: assigns the whole `Month` column. */
    method AddMonthColumn()
      requires Valid() && datetimeDates
      modifies this
      ensures Valid()
      ensures Value() == WithMonth(old(Value()))
    {
      rows := MonthColumn(rows);
      hasMonth := true;
    }
  }
}
