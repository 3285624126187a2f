/**
 * The report list page (client/src/pages/Reports.js): reports grouped under
 * the month and year of their start date, groups newest first, and the final
 * balance shown on each card.
 */
module ReportsPage {
  import opened Calendar
  import opened Sorting
  import opened Ledger

  /** `toLocaleString(..., { month: 'long', year: 'numeric' })` identifies a (year, month) pair. */
  type MonthYear = (int, int)

  function MonthOf(s: ReportSummary): MonthYear {
    (s.report.startDate.year, s.report.startDate.month)
  }

  /** `dateB - dateA` as an order: later (year, month) first. */
  predicate Newer(a: MonthYear, b: MonthYear) {
    a.0 > b.0 || (a.0 == b.0 && a.1 > b.1)
  }

  lemma NewerIsStrictTotalOrder()
    ensures StrictTotalOrder(Newer)
  {
  }

  /** On real months, Newer is the order of month indices. */
  lemma NewerIsLaterMonth(a: MonthYear, b: MonthYear)
    requires 1 <= a.1 <= 12 && 1 <= b.1 <= 12
    ensures Newer(a, b) <==> MonthIndex(a.0, a.1) > MonthIndex(b.0, b.1)
  {
  }

  datatype Group = Group(month: MonthYear, reports: seq<ReportSummary>)

  /** The reports starting in month `k`, in input order. */
  function InMonth(reports: seq<ReportSummary>, k: MonthYear): (r: seq<ReportSummary>)
    ensures forall x :: x in r ==> x in reports && MonthOf(x) == k
  {
    if |reports| == 0 then []
    else
      var last := reports[|reports| - 1];
      InMonth(reports[..|reports| - 1], k) + (if MonthOf(last) == k then [last] else [])
  }

  /** Some report starts in month `k`. */
  predicate Occurs(reports: seq<ReportSummary>, k: MonthYear) {
    exists j :: 0 <= j < |reports| && MonthOf(reports[j]) == k
  }

  /** A month has reports exactly when some report starts in it. */
  lemma {:induction false} InMonthNonEmpty(reports: seq<ReportSummary>, k: MonthYear)
    ensures |InMonth(reports, k)| > 0 <==> Occurs(reports, k)
  {
    if |reports| > 0 {
      var n := |reports| - 1;
      InMonthNonEmpty(reports[..n], k);
      OccursStep(reports, n, k);
    }
  }

  lemma OccursStep(reports: seq<ReportSummary>, i: nat, k: MonthYear)
    requires i < |reports|
    ensures Occurs(reports[..i + 1], k) <==> Occurs(reports[..i], k) || MonthOf(reports[i]) == k
  {
    var p := reports[..i + 1];
    assert p[..i] == reports[..i] && p[i] == reports[i];
    if Occurs(reports[..i], k) {
      var j :| 0 <= j < i && MonthOf(reports[..i][j]) == k;
      assert p[j] == reports[..i][j];
    }
    if Occurs(p, k) && MonthOf(reports[i]) != k {
      var j :| 0 <= j < i + 1 && MonthOf(p[j]) == k;
      assert reports[..i][j] == p[j];
    }
  }

  /** Every report is kept in the list of its own month. */
  lemma {:induction false} InMonthKeeps(reports: seq<ReportSummary>, j: nat)
    requires j < |reports|
    ensures reports[j] in InMonth(reports, MonthOf(reports[j]))
  {
    var n := |reports| - 1;
    if j < n {
      assert reports[..n][j] == reports[j];
      InMonthKeeps(reports[..n], j);
    }
  }

  /**
   * The forEach of `groupReportsByMonth`: each report is pushed onto the list
   * of its start month, which is created on first sight. `keys` is the
   * object's key order; every list holds exactly the reports of its month.
   */
  method BuildGroups(reports: seq<ReportSummary>) returns (grouped: map<MonthYear, seq<ReportSummary>>, keys: seq<MonthYear>)
    ensures Distinct(keys)
    ensures forall k :: k in grouped <==> k in keys
    ensures forall k :: k in keys <==> Occurs(reports, k)
    ensures forall k :: k in grouped ==> grouped[k] == InMonth(reports, k)
  {
    grouped := map[];
    keys := [];
    var i := 0;
    while i < |reports|
      invariant 0 <= i <= |reports|
      invariant Distinct(keys)
      invariant forall k :: k in grouped <==> k in keys
      invariant forall k :: k in keys <==> Occurs(reports[..i], k)
      invariant forall k :: k in grouped ==> grouped[k] == InMonth(reports[..i], k)
    {
      var report := reports[i];
      var monthYear := MonthOf(report);
      if monthYear !in grouped {
        grouped := grouped[monthYear := []];
        keys := keys + [monthYear];
        InMonthNonEmpty(reports[..i], monthYear);
      }
      grouped := grouped[monthYear := grouped[monthYear] + [report]];
      forall k ensures Occurs(reports[..i + 1], k) <==> Occurs(reports[..i], k) || MonthOf(reports[i]) == k {
        OccursStep(reports, i, k);
      }
      assert reports[..i + 1][..i] == reports[..i];
      i := i + 1;
    }
    assert reports[..i] == reports;
  }

  /** Sorting the distinct keys newest first keeps exactly the same keys. */
  lemma SortedKeys(keys: seq<MonthYear>)
    requires Distinct(keys)
    ensures SortedBy(Sort(keys, Newer), Newer)
    ensures forall k :: k in Sort(keys, Newer) <==> k in keys
  {
    NewerIsStrictTotalOrder();
    SortSorted(keys, Newer);
    var sorted := Sort(keys, Newer);
    forall k ensures k in sorted <==> k in keys {
      assert k in sorted <==> k in multiset(sorted);
      assert k in keys <==> k in multiset(keys);
    }
  }

  /**
   * `groupReportsByMonth`: the grouped entries sorted newest month first.
   * Every group is non-empty and holds exactly the reports of its month in
   * input order, the months are distinct and strictly descending, and every
   * report's month has a group.
   */
  method GroupReportsByMonth(reports: seq<ReportSummary>) returns (groups: seq<Group>)
    ensures forall g :: 0 <= g < |groups| ==> groups[g].reports == InMonth(reports, groups[g].month)
    ensures forall g :: 0 <= g < |groups| ==> |groups[g].reports| > 0
    ensures forall g, h :: 0 <= g < h < |groups| ==> Newer(groups[g].month, groups[h].month)
    ensures forall k :: (exists g :: 0 <= g < |groups| && groups[g].month == k) <==> Occurs(reports, k)
  {
    var grouped, keys := BuildGroups(reports);
    var sorted := Sort(keys, Newer);
    SortedKeys(keys);
    groups := seq(|sorted|, g requires 0 <= g < |sorted| => Group(sorted[g], grouped[sorted[g]]));
    forall g | 0 <= g < |groups| ensures |groups[g].reports| > 0 {
      InMonthNonEmpty(reports, sorted[g]);
    }
    forall k | Occurs(reports, k) ensures exists g :: 0 <= g < |groups| && groups[g].month == k {
      var g :| 0 <= g < |sorted| && sorted[g] == k;
      assert groups[g].month == k;
    }
  }

  /** Each report appears in the group of its own month and in no other. */
  lemma EachReportInOneGroup(reports: seq<ReportSummary>, groups: seq<Group>, j: nat)
    requires j < |reports|
    requires forall g :: 0 <= g < |groups| ==> groups[g].reports == InMonth(reports, groups[g].month)
    requires forall k :: (exists g :: 0 <= g < |groups| && groups[g].month == k) <==> Occurs(reports, k)
    ensures exists g :: 0 <= g < |groups| && reports[j] in groups[g].reports
    ensures forall g :: 0 <= g < |groups| && reports[j] in groups[g].reports ==> groups[g].month == MonthOf(reports[j])
  {
    var k := MonthOf(reports[j]);
    assert Occurs(reports, k);
    var g :| 0 <= g < |groups| && groups[g].month == k;
    InMonthKeeps(reports, j);
    assert reports[j] in groups[g].reports;
  }

  /** The card's "Final Balance": the starting amount plus net_amount. */
  function FinalBalance(s: ReportSummary): int {
    s.report.startingAmount + s.netAmount
  }

  /** The list card and the report page agree: the final balance is the view's total_balance. */
  lemma FinalBalanceIsTotalBalance(report: Report, ms: seq<Record>, names: map<int, string>)
    ensures FinalBalance(Summarize(report, ms)) == View(report, ms, names).totalBalance
    ensures FinalBalance(Summarize(report, ms)) == report.startingAmount + TotalIncome(ms) - TotalExpense(ms) - SumOf(ms, OtherAmount)
  {
    NetAmountSplit(ms);
  }
}
