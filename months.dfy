/**
 * Invoice dates and the monthly periods derived from them
 * (`InvoiceDate.dt.to_period("M")`), with pandas' chronological order of
 * periods and the sorted list of months that `groupby("Month")` indexes by.
 */
module Months {
  import opened Series

  /** A parsed `InvoiceDate` (the time of day plays no part in any result). */
  datatype Date = Date(year: int, month: int, day: int)

  /** A monthly period: the `Month` column's value. */
  datatype Month = Month(year: int, month: int)

  /** Truncates a date to its month. */
  function MonthOf(d: Date): Month
  {
    Month(d.year, d.month)
  }

  /** Chronological order of monthly periods. */
  predicate Before(a: Month, b: Month)
  {
    a.year < b.year || (a.year == b.year && a.month < b.month)
  }

  /** pandas' ordinal of a monthly period: months elapsed since January 1970. */
  function Ordinal(m: Month): int
  {
    (m.year - 1970) * 12 + (m.month - 1)
  }

  /** For calendar months, `Before` is the order of period ordinals. */
  lemma BeforeIsOrdinalOrder(a: Month, b: Month)
    requires 1 <= a.month <= 12 && 1 <= b.month <= 12
    ensures Before(a, b) <==> Ordinal(a) < Ordinal(b)
    ensures a == b <==> Ordinal(a) == Ordinal(b)
  {
  }

  /** Strictly increasing in time: sorted and without repetition. */
  predicate Chronological(ms: seq<Month>)
  {
    forall i, j | 0 <= i < j < |ms| :: Before(ms[i], ms[j])
  }

  /** Adds a month to a chronological list, unless it is already there. */
  function InsertMonth(m: Month, ms: seq<Month>): (r: seq<Month>)
    requires Chronological(ms)
    ensures Chronological(r)
    ensures forall x :: x in r <==> x == m || x in ms
    ensures |r| > 0 && (r[0] == m || (|ms| > 0 && r[0] == ms[0]))
  {
    if |ms| == 0 || Before(m, ms[0]) then [m] + ms
    else if m == ms[0] then ms
    else
      var rest := InsertMonth(m, ms[1..]);
      assert ms == [ms[0]] + ms[1..];
      [ms[0]] + rest
  }

  /** The months present among the keys of `s`, oldest first: the group index. */
  function MonthsOf<V>(s: seq<(Month, V)>): (r: seq<Month>)
    ensures Chronological(r)
    ensures forall m :: m in r <==> m in Keys(s)
  {
    if |s| == 0 then [] else InsertMonth(s[0].0, MonthsOf(s[1..]))
  }

  /** Two chronological lists with the same months are the same list. */
  lemma {:induction false} ChronologicalUnique(a: seq<Month>, b: seq<Month>)
    requires Chronological(a) && Chronological(b)
    requires forall x :: x in a <==> x in b
    ensures a == b
  {
    assert |b| > 0 ==> b[0] in a;
    if |a| > 0 {
      assert a[0] in b;
      assert |b| > 0;
      assert b[0] in a;
      var i :| 0 <= i < |a| && a[i] == b[0];
      var j :| 0 <= j < |b| && b[j] == a[0];
      assert a[0] == b[0];
      assert a == [a[0]] + a[1..] && b == [b[0]] + b[1..];
      forall x ensures x in a[1..] <==> x in b[1..] {
        if x in a[1..] {
          var k :| 0 <= k < |a| - 1 && a[1..][k] == x;
          assert Before(a[0], a[k + 1]);
          assert x in a;
          var l :| 0 <= l < |b| && b[l] == x;
          assert b[1..][l - 1] == x;
        }
        if x in b[1..] {
          var k :| 0 <= k < |b| - 1 && b[1..][k] == x;
          assert Before(b[0], b[k + 1]);
          assert x in b;
          var l :| 0 <= l < |a| && a[l] == x;
          assert a[1..][l - 1] == x;
        }
      }
      ChronologicalUnique(a[1..], b[1..]);
    }
  }

  /**
   * Adding rows for a month already present leaves the month index unchanged.
   * A documentation lemma: the grouping's index depends only on which months occur.
   */
  lemma MonthsOfAppendPresent<V>(s: seq<(Month, V)>, p: (Month, V))
    requires p.0 in Keys(s)
    ensures MonthsOf(s + [p]) == MonthsOf(s)
  {
    KeysAppend(s, [p]);
    assert Keys([p]) == {p.0};
    ChronologicalUnique(MonthsOf(s + [p]), MonthsOf(s));
  }
}
