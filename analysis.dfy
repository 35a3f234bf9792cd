/**
 * The questions the script asks of the prepared table: revenue per product
 * ranked, the mean revenue of a line per month, the number of distinct
 * invoices per month and the busiest month, and the ten products charted.
 */
module Analysis {
  import opened Wrappers
  import opened Series
  import opened Months
  import opened Sales

  /** How many ranked products the bar chart shows (`head(10)`). */
  const ChartSize: nat := 10

  /** The `Revenue` column exists: every row carries a value. */
  predicate RevenuePresent(rows: seq<Row>)
  {
    forall i | 0 <= i < |rows| :: rows[i].revenue.Some?
  }

  /** The `Month` column exists: every row carries a value. */
  predicate MonthPresent(rows: seq<Row>)
  {
    forall i | 0 <= i < |rows| :: rows[i].month.Some?
  }

  /** `df["Revenue"].sum()`. */
  function TotalRevenue(rows: seq<Row>): real
    requires RevenuePresent(rows)
  {
    if |rows| == 0 then 0.0 else rows[0].revenue.value + TotalRevenue(rows[1..])
  }

  // ---------------------------------------------------------------------------
  // Question 1 (lines 19-23): revenue by product, highest first
  // ---------------------------------------------------------------------------

  /**
   * `df.groupby("Description")["Revenue"]`: the (description, revenue) pair of
   * every row; rows whose description is missing belong to no group.
   */
  function ProductRevenues(rows: seq<Row>): seq<(string, real)>
    requires RevenuePresent(rows)
  {
    if |rows| == 0 then []
    else if rows[0].description.None? then ProductRevenues(rows[1..])
    else [(rows[0].description.value, rows[0].revenue.value)] + ProductRevenues(rows[1..])
  }

  /** The groups are exactly the descriptions that occur in the table. */
  lemma {:induction false} ProductKeys(rows: seq<Row>, d: string)
    requires RevenuePresent(rows)
    ensures d in Keys(ProductRevenues(rows)) <==> exists i | 0 <= i < |rows| :: rows[i].description == Some(d)
  {
    if |rows| > 0 {
      ProductKeys(rows[1..], d);
      if exists i | 0 <= i < |rows[1..]| :: rows[1..][i].description == Some(d) {
        var i :| 0 <= i < |rows[1..]| && rows[1..][i].description == Some(d);
        assert rows[i + 1].description == Some(d);
      }
      if exists i | 0 <= i < |rows| :: rows[i].description == Some(d) {
        var i :| 0 <= i < |rows| && rows[i].description == Some(d);
        if i > 0 {
          assert rows[1..][i - 1].description == Some(d);
        }
      }
    }
  }

  /** When every row has a description, the groups cover the whole revenue. */
  lemma {:induction false} ProductRevenuesTotal(rows: seq<Row>)
    requires RevenuePresent(rows)
    requires forall i | 0 <= i < |rows| :: rows[i].description.Some?
    ensures Total(ProductRevenues(rows)) == TotalRevenue(rows)
  {
    if |rows| > 0 {
      ProductRevenuesTotal(rows[1..]);
    }
  }

  /**
   * `revenue_by_product`: one entry per product, its value the product's total
   * revenue, ordered from the highest total down. Ties may come in any order.
   */
  function RevenueByProduct(rows: seq<Row>): (r: seq<(string, real)>)
    requires RevenuePresent(rows)
    ensures Descending(r)
    ensures UniqueKeys(r)
    ensures Keys(r) == Keys(ProductRevenues(rows))
    ensures forall i | 0 <= i < |r| :: r[i].1 == SumAt(ProductRevenues(rows), r[i].0)
  {
    var groups := GroupSum(ProductRevenues(rows));
    var r := SortDescending(groups);
    SortDescendingKeeps(groups);
    SortDescendingUnique(groups);
    assert forall i | 0 <= i < |r| :: r[i] in multiset(groups);
    r
  }

  /** Grouping and ranking lose no revenue and count none twice. */
  lemma RevenueByProductTotal(rows: seq<Row>)
    requires RevenuePresent(rows)
    ensures Total(RevenueByProduct(rows)) == Total(ProductRevenues(rows))
  {
    var groups := GroupSum(ProductRevenues(rows));
    GroupSumTotal(ProductRevenues(rows));
    SortDescendingKeeps(groups);
  }

  /** With a description on every row, the ranking adds up to `df["Revenue"].sum()`. */
  lemma RevenueByProductConservesRevenue(rows: seq<Row>)
    requires RevenuePresent(rows)
    requires forall i | 0 <= i < |rows| :: rows[i].description.Some?
    ensures Total(RevenueByProduct(rows)) == TotalRevenue(rows)
  {
    RevenueByProductTotal(rows);
    ProductRevenuesTotal(rows);
  }

  /**
   * Line 44: `revenue_by_product.head(10)`, the chart's input: the first ten
   * ranked products, none of which earned less than a product left out.
   */
  function TopProducts(rows: seq<Row>): (r: seq<(string, real)>)
    requires RevenuePresent(rows)
    ensures r <= RevenueByProduct(rows)
    ensures |r| == (if |RevenueByProduct(rows)| < ChartSize then |RevenueByProduct(rows)| else ChartSize)
    ensures forall i, j | 0 <= i < |r| <= j < |RevenueByProduct(rows)| ::
      RevenueByProduct(rows)[j].1 <= r[i].1
  {
    Head(RevenueByProduct(rows), ChartSize)
  }

  // ---------------------------------------------------------------------------
  // Question 2 (lines 28-32): mean revenue of a line, per month
  // ---------------------------------------------------------------------------

  /** `df.groupby("Month")["Revenue"]`: the (month, revenue) pair of every row. */
  function MonthRevenues(rows: seq<Row>): (r: seq<(Month, real)>)
    requires RevenuePresent(rows) && MonthPresent(rows)
    ensures |r| == |rows|
    ensures forall i | 0 <= i < |rows| :: r[i] == (rows[i].month.value, rows[i].revenue.value)
  {
    seq(|rows|, i requires 0 <= i < |rows| => (rows[i].month.value, rows[i].revenue.value))
  }

  /**
   * `average_order_value`: one entry per month present in the table, oldest
   * first; each is the month's revenue divided by its number of rows.
   */
  function AverageOrderValue(rows: seq<Row>): (r: seq<(Month, real)>)
    requires RevenuePresent(rows) && MonthPresent(rows)
    ensures forall i, j | 0 <= i < j < |r| :: Before(r[i].0, r[j].0)
    ensures Keys(r) == Keys(MonthRevenues(rows))
    ensures forall i | 0 <= i < |r| ::
      && CountAt(MonthRevenues(rows), r[i].0) > 0
      && r[i].1 == SumAt(MonthRevenues(rows), r[i].0) / (CountAt(MonthRevenues(rows), r[i].0) as real)
  {
    var s := MonthRevenues(rows);
    var ms := MonthsOf(s);
    assert forall m | m in ms :: CountAt(s, m) > 0 by {
      forall m | m in ms ensures CountAt(s, m) > 0 {
        CountAtPositive(s, m);
      }
    }
    var r := seq(|ms|, i requires 0 <= i < |ms| => (ms[i], SumAt(s, ms[i]) / (CountAt(s, ms[i]) as real)));
    KeysOfIndexed(r, ms);
    r
  }

  /** The months of any monthly series are the months of the table's rows. */
  lemma MonthKeys<V>(s: seq<(Month, V)>, rows: seq<Row>, m: Month)
    requires MonthPresent(rows)
    requires |s| == |rows| && forall i | 0 <= i < |rows| :: s[i].0 == rows[i].month.value
    ensures m in Keys(s) <==> exists i | 0 <= i < |rows| :: rows[i].month == Some(m)
  {
    KeysMember(s, m);
  }

  /** A month's average lies between the smallest and the largest revenue of its lines. */
  lemma AverageWithinLineRange(rows: seq<Row>, i: nat, lo: real, hi: real)
    requires RevenuePresent(rows) && MonthPresent(rows)
    requires i < |AverageOrderValue(rows)|
    requires forall j | 0 <= j < |rows| && rows[j].month == Some(AverageOrderValue(rows)[i].0) ::
      lo <= rows[j].revenue.value <= hi
    ensures lo <= AverageOrderValue(rows)[i].1 <= hi
  {
    var s := MonthRevenues(rows);
    var m := AverageOrderValue(rows)[i].0;
    var n := CountAt(s, m);
    var sum := SumAt(s, m);
    assert n > 0 && AverageOrderValue(rows)[i].1 == sum / (n as real);
    assert forall j | 0 <= j < |s| && s[j].0 == m :: lo <= s[j].1 <= hi;
    SumAtBounds(s, m, lo, hi);
    MeanWithin(sum, n, lo, hi);
  }

  // ---------------------------------------------------------------------------
  // Question 3 (lines 37-38): distinct invoices per month, and the busiest month
  // ---------------------------------------------------------------------------

  /** `df.groupby("Month")["InvoiceNo"]`: the (month, invoice number) pair of every row. */
  function MonthInvoices(rows: seq<Row>): (r: seq<(Month, string)>)
    requires MonthPresent(rows)
    ensures |r| == |rows|
    ensures forall i | 0 <= i < |rows| :: r[i] == (rows[i].month.value, rows[i].invoiceNo)
  {
    seq(|rows|, i requires 0 <= i < |rows| => (rows[i].month.value, rows[i].invoiceNo))
  }

  /** The invoice numbers that occur on the rows of month `m`. */
  function InvoicesIn(rows: seq<Row>, m: Month): set<string>
  {
    set i | 0 <= i < |rows| && rows[i].month == Some(m) :: rows[i].invoiceNo
  }

  /** The group-by reducer computes exactly the invoices of the month. */
  lemma ValuesAtIsInvoicesIn(rows: seq<Row>, m: Month)
    requires MonthPresent(rows)
    ensures ValuesAt(MonthInvoices(rows), m) == InvoicesIn(rows, m)
  {
    var s := MonthInvoices(rows);
    forall v ensures v in ValuesAt(s, m) <==> v in InvoicesIn(rows, m) {
      ValuesAtMember(s, m, v);
      if v in InvoicesIn(rows, m) {
        var i :| 0 <= i < |rows| && rows[i].month == Some(m) && rows[i].invoiceNo == v;
        assert s[i] == (m, v);
      }
    }
  }

  /**
   * `orders_per_month`: one entry per month present in the table, oldest
   * first; each is the number of distinct invoices among the month's rows,
   * at least one and at most the month's number of rows.
   */
  function OrdersPerMonth(rows: seq<Row>): (r: seq<(Month, int)>)
    requires MonthPresent(rows)
    ensures forall i, j | 0 <= i < j < |r| :: Before(r[i].0, r[j].0)
    ensures Keys(r) == Keys(MonthInvoices(rows))
    ensures forall i | 0 <= i < |r| :: r[i].1 == |InvoicesIn(rows, r[i].0)|
    ensures forall i | 0 <= i < |r| :: 1 <= r[i].1 <= CountAt(MonthInvoices(rows), r[i].0)
  {
    var s := MonthInvoices(rows);
    var ms := MonthsOf(s);
    var r := seq(|ms|, i requires 0 <= i < |ms| => (ms[i], |ValuesAt(s, ms[i])|));
    KeysOfIndexed(r, ms);
    forall i | 0 <= i < |r|
      ensures r[i].1 == |InvoicesIn(rows, r[i].0)|
      ensures 1 <= r[i].1 <= CountAt(s, r[i].0)
    {
      ValuesAtIsInvoicesIn(rows, ms[i]);
      ValuesAtBounds(s, ms[i]);
    }
    r
  }

  /**
   * `orders_per_month` depends on nothing but which invoices occur in which
   * month: two tables with the same invoice set for every month agree.
   */
  lemma OrdersDependOnInvoiceSets(a: seq<Row>, b: seq<Row>)
    requires MonthPresent(a) && MonthPresent(b)
    requires forall m :: InvoicesIn(a, m) == InvoicesIn(b, m)
    ensures OrdersPerMonth(a) == OrdersPerMonth(b)
  {
    var sa := MonthInvoices(a);
    var sb := MonthInvoices(b);
    forall m ensures m in Keys(sa) <==> m in Keys(sb) {
      MonthKeys(sa, a, m);
      MonthKeys(sb, b, m);
      if exists i | 0 <= i < |a| :: a[i].month == Some(m) {
        var i :| 0 <= i < |a| && a[i].month == Some(m);
        assert a[i].invoiceNo in InvoicesIn(b, m);
      }
      if exists i | 0 <= i < |b| :: b[i].month == Some(m) {
        var i :| 0 <= i < |b| && b[i].month == Some(m);
        assert b[i].invoiceNo in InvoicesIn(a, m);
      }
    }
    var ms := MonthsOf(sa);
    ChronologicalUnique(ms, MonthsOf(sb));
    forall i | 0 <= i < |ms| ensures ValuesAt(sa, ms[i]) == ValuesAt(sb, ms[i]) {
      ValuesAtIsInvoicesIn(a, ms[i]);
      ValuesAtIsInvoicesIn(b, ms[i]);
    }
  }

  /**
   * Another line item of an invoice already counted in its month, inserted
   * anywhere in the table, changes no count.
   */
  lemma OrdersIgnoreRepeatedLineItems(rows: seq<Row>, k: nat, extra: Row)
    requires MonthPresent(rows) && extra.month.Some? && k <= |rows|
    requires exists i | 0 <= i < |rows| ::
      rows[i].month == extra.month && rows[i].invoiceNo == extra.invoiceNo
    ensures MonthPresent(rows[..k] + [extra] + rows[k..])
    ensures OrdersPerMonth(rows[..k] + [extra] + rows[k..]) == OrdersPerMonth(rows)
  {
    var rows' := rows[..k] + [extra] + rows[k..];
    assert |rows'| == |rows| + 1;
    assert forall j | 0 <= j < k :: rows'[j] == rows[j];
    assert rows'[k] == extra;
    assert forall j | k < j < |rows'| :: rows'[j] == rows[j - 1];
    var i :| 0 <= i < |rows| && rows[i].month == extra.month && rows[i].invoiceNo == extra.invoiceNo;
    forall m ensures InvoicesIn(rows', m) == InvoicesIn(rows, m) {
      forall v | v in InvoicesIn(rows', m) ensures v in InvoicesIn(rows, m) {
        var j :| 0 <= j < |rows'| && rows'[j].month == Some(m) && rows'[j].invoiceNo == v;
        if j == k {
          assert rows[i].month == Some(m) && rows[i].invoiceNo == v;
        } else if j > k {
          assert rows[j - 1] == rows'[j];
        }
      }
      forall v | v in InvoicesIn(rows, m) ensures v in InvoicesIn(rows', m) {
        var j :| 0 <= j < |rows| && rows[j].month == Some(m) && rows[j].invoiceNo == v;
        if j < k {
          assert rows'[j] == rows[j];
        } else {
          assert rows'[j + 1] == rows[j];
        }
      }
    }
    OrdersDependOnInvoiceSets(rows', rows);
  }

  /** The order of the table's rows plays no part in `orders_per_month`. */
  lemma OrdersIgnoreRowOrder(a: seq<Row>, b: seq<Row>)
    requires MonthPresent(a) && multiset(a) == multiset(b)
    ensures MonthPresent(b)
    ensures OrdersPerMonth(a) == OrdersPerMonth(b)
  {
    forall j | 0 <= j < |b| ensures b[j].month.Some? {
      assert b[j] in multiset(a);
    }
    forall m ensures InvoicesIn(a, m) == InvoicesIn(b, m) {
      forall v | v in InvoicesIn(a, m) ensures v in InvoicesIn(b, m) {
        var j :| 0 <= j < |a| && a[j].month == Some(m) && a[j].invoiceNo == v;
        assert a[j] in multiset(b);
        var l :| 0 <= l < |b| && b[l] == a[j];
      }
      forall v | v in InvoicesIn(b, m) ensures v in InvoicesIn(a, m) {
        var j :| 0 <= j < |b| && b[j].month == Some(m) && b[j].invoiceNo == v;
        assert b[j] in multiset(a);
        var l :| 0 <= l < |a| && a[l] == b[j];
      }
    }
    OrdersDependOnInvoiceSets(a, b);
  }

  /**
   * `highest_orders_month = orders_per_month.idxmax()`: a month of the table;
   * `None` stands for the `ValueError` idxmax raises when there are no rows.
   */
  function HighestOrdersMonth(rows: seq<Row>): (r: Option<Month>)
    requires MonthPresent(rows)
    ensures r.None? <==> |rows| == 0
    ensures r.Some? ==> exists i | 0 <= i < |rows| :: rows[i].month == r
  {
    var orders := OrdersPerMonth(rows);
    var r := IdxMax(orders);
    assert r.Some? ==> exists i | 0 <= i < |rows| :: rows[i].month == r by {
      if r.Some? {
        KeysMember(orders, r.value);
        MonthKeys(MonthInvoices(rows), rows, r.value);
      }
    }
    assert |rows| > 0 ==> rows[0].month.value in Keys(MonthInvoices(rows)) by {
      if |rows| > 0 {
        MonthKeys(MonthInvoices(rows), rows, rows[0].month.value);
      }
    }
    r
  }

  /**
   * The busiest month has at least as many distinct invoices as any month of
   * the table, and every earlier month has strictly fewer: ties go to the
   * earliest month.
   */
  lemma HighestOrdersMonthIsEarliestMaximum(rows: seq<Row>)
    requires MonthPresent(rows) && |rows| > 0
    ensures HighestOrdersMonth(rows).Some?
    ensures forall j | 0 <= j < |rows| ::
      |InvoicesIn(rows, rows[j].month.value)| <= |InvoicesIn(rows, HighestOrdersMonth(rows).value)|
    ensures forall j | 0 <= j < |rows| && Before(rows[j].month.value, HighestOrdersMonth(rows).value) ::
      |InvoicesIn(rows, rows[j].month.value)| < |InvoicesIn(rows, HighestOrdersMonth(rows).value)|
  {
    var orders := OrdersPerMonth(rows);
    var i := MaxIndex(orders);
    var m := orders[i].0;
    assert HighestOrdersMonth(rows) == Some(m);
    forall j | 0 <= j < |rows|
      ensures |InvoicesIn(rows, rows[j].month.value)| <= |InvoicesIn(rows, m)|
      ensures Before(rows[j].month.value, m) ==>
        |InvoicesIn(rows, rows[j].month.value)| < |InvoicesIn(rows, m)|
    {
      var k := OrdersIndexOf(rows, j);
      if Before(rows[j].month.value, m) {
        assert !(i < k) && k != i;
      }
    }
  }

  /** Every month of the table has its entry in `orders_per_month`. */
  lemma OrdersIndexOf(rows: seq<Row>, j: nat) returns (k: nat)
    requires MonthPresent(rows) && j < |rows|
    ensures k < |OrdersPerMonth(rows)| && OrdersPerMonth(rows)[k].0 == rows[j].month.value
  {
    var mj := rows[j].month.value;
    MonthKeys(MonthInvoices(rows), rows, mj);
    KeysMember(OrdersPerMonth(rows), mj);
    k :| k < |OrdersPerMonth(rows)| && OrdersPerMonth(rows)[k].0 == mj;
  }

  // ---------------------------------------------------------------------------
  // The script as a whole (lines 13-44)
  // ---------------------------------------------------------------------------

  /** Deriving the `Month` column leaves the product ranking as it was. */
  lemma {:induction false} MonthColumnKeepsProductRevenues(rows: seq<Row>)
    requires RevenuePresent(rows)
    ensures RevenuePresent(MonthColumn(rows))
    ensures ProductRevenues(MonthColumn(rows)) == ProductRevenues(rows)
  {
    if |rows| > 0 {
      assert MonthColumn(rows)[1..] == MonthColumn(rows[1..]);
      MonthColumnKeepsProductRevenues(rows[1..]);
    }
  }

  /** What the script prints and draws. */
  datatype Report = Report(
    revenueByProduct: seq<(string, real)>,
    averageOrderValue: seq<(Month, real)>,
    ordersPerMonth: seq<(Month, int)>,
    highestOrdersMonth: Month,
    chart: seq<(string, real)>)

  /** Why a run stops: line 38 raises on a table without rows. */
  datatype RunError = NoOrders

  /**
   * Lines 13-44 on the table as loaded: prepare `df` in place, answer the three
   * questions in order, and take the chart's input.
   */
  method Analyse(loaded: Frame) returns (result: Result<Report, RunError>)
    requires WellFormed(loaded)
    ensures result.Failure? <==> |loaded.rows| == 0
    ensures result.Success? ==>
      var prepared := Prepared(loaded);
      var monthly := WithMonth(prepared);
      && RevenuePresent(prepared.rows) && RevenuePresent(monthly.rows) && MonthPresent(monthly.rows)
      && result.value.revenueByProduct == RevenueByProduct(prepared.rows)
      && result.value.averageOrderValue == AverageOrderValue(monthly.rows)
      && result.value.ordersPerMonth == OrdersPerMonth(monthly.rows)
      && Some(result.value.highestOrdersMonth) == HighestOrdersMonth(monthly.rows)
      && result.value.chart == TopProducts(prepared.rows)
  {
    var df := new Table(loaded);
    df.Prepare();
    var revenueByProduct := RevenueByProduct(df.rows);
    var chart := TopProducts(df.rows);
    df.AddMonthColumn();
    var averageOrderValue := AverageOrderValue(df.rows);
    var ordersPerMonth := OrdersPerMonth(df.rows);
    var highest := HighestOrdersMonth(df.rows);
    if highest.None? {
      return Failure(NoOrders);
    }
    result := Success(Report(revenueByProduct, averageOrderValue, ordersPerMonth, highest.value, chart));
  }
}
