/**
 One refresh of the dashboard: filter the loaded table by the user's
 criteria, stop with a "no data" view when nothing is left, and otherwise
 compute the headline numbers, the revenue charts and the top-five tables
 from the filtered rows.
 */
module Dashboard {
  import opened Transactions
  import opened Filters
  import opened Aggregates
  import opened Ranking
  import opened KeyOrder

  /** Everything the dashboard shows for a non-empty filtered table. */
  datatype Report = Report(
    kpis: Kpis,
    byCategory: seq<Group>,
    byStore: seq<Group>,
    byChannel: seq<Group>,
    byDay: seq<Group>,
    topProducts: seq<Group>,
    topCustomers: seq<Group>)

  /** The view after a refresh: the warning state, or the report. */
  datatype View = NoData | Shown(report: Report)

  /** No row of the table satisfies the criteria. */
  predicate NoneMatch(table: seq<Row>, c: Criteria) {
    forall i :: 0 <= i < |table| ==> !Matches(c, table[i])
  }

  /** The filtered table is empty exactly when no row of the table
      satisfies the criteria. */
  lemma FilteredEmptyIff(table: seq<Row>, c: Criteria)
    ensures |FilterRows(table, c)| == 0 <==> NoneMatch(table, c)
  {
    var f := FilterRows(table, c);
    if |f| > 0 {
      assert f[0] in multiset(f);
      assert f[0] in multiset(table);
      var i :| 0 <= i < |table| && table[i] == f[0];
      assert Matches(c, table[i]);
    }
    forall i | 0 <= i < |table| && Matches(c, table[i]) ensures |f| > 0 {
      assert table[i] in multiset(table);
      assert multiset(f)[table[i]] > 0;
    }
  }

  /** A revenue chart sorted by revenue: a ranked permutation of the
      group-by-sum that still adds up to the table's revenue. */
  predicate SortedChart(chart: seq<Group>, rows: seq<Row>, col: Column, ascending: bool) {
    && Ranked(chart, ascending)
    && multiset(chart) == multiset(GroupSum(rows, col))
    && SumGroups(chart) == Total(rows)
  }

  /** A revenue chart in key order: the group-by-sum arranged with
      strictly increasing keys, still adding up to the table's revenue. By
      `KeySortedUnique` there is only one such arrangement. */
  predicate KeyedChart(chart: seq<Group>, rows: seq<Row>, col: Column) {
    && KeySorted(chart)
    && multiset(chart) == multiset(GroupSum(rows, col))
    && SumGroups(chart) == Total(rows)
  }

  /** A top-five table: `min(5, distinct keys)` entries with distinct keys
      and non-increasing revenue, each holding its key's full revenue, and
      no group of the group-by-sum left out that earns more than a chosen
      one. Which of several tied groups fill the last places is left
      open. */
  predicate TopChart(chart: seq<Group>, rows: seq<Row>, col: Column) {
    && |chart| == (if TopCount < |KeySet(rows, col)| then TopCount else |KeySet(rows, col)|)
    && Ranked(chart, false)
    && DistinctKeys(chart)
    && (forall t :: t in chart ==> t.revenue == GroupRevenue(rows, col, t.key) && t.key in KeySet(rows, col))
    && (forall t, g :: t in chart && g in GroupSum(rows, col) && g !in chart ==> t.revenue >= g.revenue)
  }

  /** The headline numbers of a non-empty filtered table: its revenue,
      its distinct transactions and customers (each between one and the
      number of rows), and its mean line revenue. */
  predicate KpisOf(k: Kpis, f: seq<Row>) {
    && |f| > 0
    && k.totalRevenue == Total(f)
    && k.transactions == |KeySet(f, TransactionId)|
    && k.customers == |KeySet(f, CustomerId)|
    && 1 <= k.transactions <= |f|
    && 1 <= k.customers <= |f|
    && MeanRevenue(f) == Some(k.meanRevenue)
  }

  /** The charts and tables of a filtered table: category and store
      revenue sorted ascending, channel and weekday revenue in key order,
      and the top five products and customers. */
  predicate ChartsOf(r: Report, f: seq<Row>) {
    && SortedChart(r.byCategory, f, ProductCategory, true)
    && SortedChart(r.byStore, f, StoreLocation, true)
    && KeyedChart(r.byChannel, f, Channel)
    && KeyedChart(r.byDay, f, DayOfWeek)
    && TopChart(r.topProducts, f, ProductName)
    && TopChart(r.topCustomers, f, CustomerId)
  }

  /** The report of a non-empty filtered table with its headline numbers. */
  function BuildReport(f: seq<Row>, k: Kpis): Report {
    Report(
      k,
      SortByRevenue(GroupSum(f, ProductCategory), true),
      SortByRevenue(GroupSum(f, StoreLocation), true),
      GroupSumByKey(f, Channel),
      GroupSumByKey(f, DayOfWeek),
      TopFive(f, ProductName),
      TopFive(f, CustomerId))
  }

  /** The report's revenue charts are those of the filtered table: the
      category and store charts ranked by revenue, the channel and weekday
      charts in key order. */
  lemma BuildReportCharts(f: seq<Row>, k: Kpis)
    ensures SortedChart(BuildReport(f, k).byCategory, f, ProductCategory, true)
    ensures SortedChart(BuildReport(f, k).byStore, f, StoreLocation, true)
    ensures KeyedChart(BuildReport(f, k).byChannel, f, Channel)
    ensures KeyedChart(BuildReport(f, k).byDay, f, DayOfWeek)
  {
    SortKeepsSum(GroupSum(f, ProductCategory), true);
    SortKeepsSum(GroupSum(f, StoreLocation), true);
    SameGroupsSameSum(GroupSumByKey(f, Channel), GroupSum(f, Channel));
    SameGroupsSameSum(GroupSumByKey(f, DayOfWeek), GroupSum(f, DayOfWeek));
  }

  /** The report's top-five tables are top-five tables of the filtered
      table. */
  lemma BuildReportTops(f: seq<Row>, k: Kpis)
    ensures TopChart(BuildReport(f, k).topProducts, f, ProductName)
    ensures TopChart(BuildReport(f, k).topCustomers, f, CustomerId)
  {
  }

  /** Recomputes the view for new criteria: the warning state exactly when
      no row passes the filter, and otherwise the report of the filtered
      table. */
  method Refresh(table: seq<Row>, c: Criteria) returns (view: View)
    ensures view.NoData? <==> FilterRows(table, c) == []
    ensures view.NoData? <==> NoneMatch(table, c)
    ensures view.Shown? ==> KpisOf(view.report.kpis, FilterRows(table, c))
    ensures view.Shown? ==> ChartsOf(view.report, FilterRows(table, c))
  {
    var f := FilterRows(table, c);
    FilteredEmptyIff(table, c);
    var kpis := ComputeKpis(f);
    if kpis.None? {
      return NoData;
    }
    assert KpisOf(kpis.value, f);
    BuildReportCharts(f, kpis.value);
    BuildReportTops(f, kpis.value);
    view := Shown(BuildReport(f, kpis.value));
  }

  /** Two line items of the worked example: 2 x 10.00 less 1.00 at store
      A, and 1 x 5.00 at store B, in cents. */
  function ExampleTable(): seq<Row> {
    var a := Transaction("1", 10, "A", "Online", "Toys", "Regular", "Kite", "C1", 2, 1000, 100);
    var b := Transaction("2", 11, "B", "Online", "Toys", "Regular", "Ball", "C2", 1, 500, 0);
    [Row(a, LineRevenue(a), "Monday"), Row(b, LineRevenue(b), "Tuesday")]
  }

  function NoCriteria(): Criteria {
    Criteria([], [], AllChannels, [], [])
  }

  /** The worked example: 24.00 in all; choosing store A leaves one
      transaction worth 19.00. */
  lemma ExampleStoreFilter()
    ensures Total(ExampleTable()) == 2400
    ensures Total(FilterRows(ExampleTable(), NoCriteria().(stores := ["A"]))) == 1900
    ensures |KeySet(FilterRows(ExampleTable(), NoCriteria().(stores := ["A"])), TransactionId)| == 1
  {
  }

  /** A date range that excludes every row empties the table, and the
      mean then has no value. */
  lemma ExampleDateRangeExcludesAll()
    ensures FilterRows(ExampleTable(), NoCriteria().(dateRange := [20, 30])) == []
    ensures MeanRevenue(FilterRows(ExampleTable(), NoCriteria().(dateRange := [20, 30]))).None?
  {
    var t := ExampleTable();
    var c := NoCriteria().(dateRange := [20, 30]);
    FilteredEmptyIff(t, c);
  }
}
