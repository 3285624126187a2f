/**
 * The dashboard's aggregation (client/src/pages/Dashboard.js): month totals
 * per record type and net, the percentage change between two months, the
 * six-month window, the Salary-first category list and the month by
 * category matrix of the chart. A report is bucketed by the month of its
 * start date only; record dates are never consulted.
 */
module Dashboard {
  import opened Calendar
  import opened Sorting

  /** A record as the dashboard receives it; "" stands for a missing category name. */
  datatype DashRecord = DashRecord(amount: int, kind: string, categoryName: string, date: Date)

  datatype DashReport = DashReport(startDate: Date, records: seq<DashRecord>)

  /** `toLocaleString(..., { month: 'short', year: '2-digit' })`: the month and the year modulo 100. */
  datatype MonthLabel = MonthLabel(yy: int, month: int)

  function Label(y: int, m: int): MonthLabel {
    MonthLabel(y % 100, m)
  }

  function StartLabel(r: DashReport): MonthLabel {
    Label(r.startDate.year, r.startDate.month)
  }

  /** The label of `new Date(today.getFullYear(), today.getMonth() - offset, 1)`: `offset` months back. */
  function TargetLabel(today: Date, offset: int): (l: MonthLabel)
    requires 1 <= today.month <= 12
    ensures l == Label(ShiftMonth(today.year, today.month, -offset).0, ShiftMonth(today.year, today.month, -offset).1)
  {
    var d := JsDate(today.year, today.month - 1 - offset, 1);
    var s := ShiftMonth(today.year, today.month, -offset);
    MonthIndexInjective(d.year, d.month, s.0, s.1);
    Label(d.year, d.month)
  }

  // ---------------------------------------------------------------------
  // Month totals and the widgets
  // ---------------------------------------------------------------------

  /** Sum of the amounts of the records of type `kind`. */
  function KindSum(records: seq<DashRecord>, kind: string): int {
    if |records| == 0 then 0
    else
      var last := records[|records| - 1];
      KindSum(records[..|records| - 1], kind) + (if last.kind == kind then last.amount else 0)
  }

  /** Sum over the reports whose start month carries `target` of their records of type `kind`. */
  function MonthTotal(reports: seq<DashReport>, kind: string, target: MonthLabel): int {
    if |reports| == 0 then 0
    else
      var last := reports[|reports| - 1];
      MonthTotal(reports[..|reports| - 1], kind, target) + (if StartLabel(last) == target then KindSum(last.records, kind) else 0)
  }

  /** The forEach loops of `getMonthTotal` for a typed widget. */
  method GetMonthTotal(reports: seq<DashReport>, kind: string, today: Date, offset: int) returns (total: int)
    requires 1 <= today.month <= 12
    ensures total == MonthTotal(reports, kind, TargetLabel(today, offset))
  {
    var target := TargetLabel(today, offset);
    total := 0;
    var i := 0;
    while i < |reports|
      invariant 0 <= i <= |reports|
      invariant total == MonthTotal(reports[..i], kind, target)
    {
      var report := reports[i];
      assert reports[..i + 1][..i] == reports[..i];
      if StartLabel(report) == target {
        var j := 0;
        while j < |report.records|
          invariant 0 <= j <= |report.records|
          invariant total == MonthTotal(reports[..i], kind, target) + KindSum(report.records[..j], kind)
        {
          assert report.records[..j + 1][..j] == report.records[..j];
          if report.records[j].kind == kind {
            total := total + report.records[j].amount;
          }
          j := j + 1;
        }
        assert report.records[..j] == report.records;
      }
      i := i + 1;
    }
    assert reports[..i] == reports;
  }

  /**
   * `calculateNetAmount`: income minus expenses over the reports starting in
   * the target month; records of any other type are ignored.
   */
  method CalculateNetAmount(reports: seq<DashReport>, target: MonthLabel) returns (net: int)
    ensures net == MonthTotal(reports, "income", target) - MonthTotal(reports, "expense", target)
  {
    var income := 0;
    var expenses := 0;
    var i := 0;
    while i < |reports|
      invariant 0 <= i <= |reports|
      invariant income == MonthTotal(reports[..i], "income", target)
      invariant expenses == MonthTotal(reports[..i], "expense", target)
    {
      var report := reports[i];
      assert reports[..i + 1][..i] == reports[..i];
      if StartLabel(report) == target {
        var j := 0;
        while j < |report.records|
          invariant 0 <= j <= |report.records|
          invariant income == MonthTotal(reports[..i], "income", target) + KindSum(report.records[..j], "income")
          invariant expenses == MonthTotal(reports[..i], "expense", target) + KindSum(report.records[..j], "expense")
        {
          var record := report.records[j];
          assert report.records[..j + 1][..j] == report.records[..j];
          if record.kind == "income" {
            income := income + record.amount;
          } else if record.kind == "expense" {
            expenses := expenses + record.amount;
          }
          j := j + 1;
        }
        assert report.records[..j] == report.records;
      }
      i := i + 1;
    }
    assert reports[..i] == reports;
    net := income - expenses;
  }

  /** Month totals add up over a concatenation of report lists. */
  lemma {:induction false} MonthTotalAppend(a: seq<DashReport>, b: seq<DashReport>, kind: string, target: MonthLabel)
    ensures MonthTotal(a + b, kind, target) == MonthTotal(a, kind, target) + MonthTotal(b, kind, target)
  {
    if |b| == 0 {
      assert a + b == a;
    } else {
      assert (a + b)[..|a + b| - 1] == a + b[..|b| - 1];
      MonthTotalAppend(a, b[..|b| - 1], kind, target);
    }
  }

  /** A report that starts in another month adds nothing to a month total, whatever its records' dates. */
  lemma OtherMonthReportIgnored(reports: seq<DashReport>, r: DashReport, kind: string, target: MonthLabel)
    requires StartLabel(r) != target
    ensures MonthTotal(reports + [r], kind, target) == MonthTotal(reports, kind, target)
  {
    assert (reports + [r])[..|reports|] == reports;
  }

  datatype Widget = TypeWidget(kind: string) | NetWidget

  /** The value a widget shows for a target month: the type total, or income minus expense for the Net widget. */
  function WidgetValue(w: Widget, reports: seq<DashReport>, target: MonthLabel): int {
    match w
    case TypeWidget(kind) => MonthTotal(reports, kind, target)
    case NetWidget => MonthTotal(reports, "income", target) - MonthTotal(reports, "expense", target)
  }

  function Abs(x: int): nat {
    if x < 0 then -x else x
  }

  /** `calculatePercentageChange`, over exact rationals. */
  function PercentageChange(current: int, previous: int): (r: real)
    ensures previous == 0 ==> (r == 100.0 <==> current > 0) && (r == 0.0 <==> current <= 0)
    ensures previous != 0 ==> r * (Abs(previous) as real) == ((current - previous) as real) * 100.0
  {
    if previous == 0 then (if current > 0 then 100.0 else 0.0)
    else ((current - previous) as real) / (Abs(previous) as real) * 100.0
  }

  /**
   * The arrow points up exactly when the month did not fall. After a month
   * of 0 it always points up: a fall from 0 to a negative net shows 0%.
   */
  lemma PercentageArrow(current: int, previous: int)
    ensures PercentageChange(current, previous) >= 0.0 <==> previous == 0 || current >= previous
  {
    if previous != 0 {
      var r := PercentageChange(current, previous);
      var p := Abs(previous) as real;
      assert r * p == ((current - previous) as real) * 100.0;
      if r >= 0.0 {
        assert r * p >= 0.0;
      } else {
        assert r * p < 0.0;
      }
    }
  }

  datatype WidgetView = WidgetView(current: int, previous: int, change: real, showChange: bool)

  /**
   * One MonthlyWidget: the value for the month `offset` back, the value for
   * the month before it, their percentage change, and whether that change is
   * shown (only on non-Net widgets of the current month).
   */
  method MonthlyWidget(reports: seq<DashReport>, w: Widget, today: Date, offset: int) returns (v: WidgetView)
    requires 1 <= today.month <= 12
    ensures v.current == WidgetValue(w, reports, TargetLabel(today, offset))
    ensures v.previous == WidgetValue(w, reports, TargetLabel(today, offset + 1))
    ensures v.change == PercentageChange(v.current, v.previous)
    ensures v.showChange <==> w.TypeWidget? && offset == 0
  {
    var current, previous;
    if w.NetWidget? {
      current := CalculateNetAmount(reports, TargetLabel(today, offset));
      previous := CalculateNetAmount(reports, TargetLabel(today, offset + 1));
    } else {
      current := GetMonthTotal(reports, w.kind, today, offset);
      previous := GetMonthTotal(reports, w.kind, today, offset + 1);
    }
    var change := PercentageChange(current, previous);
    v := WidgetView(current, previous, change, !w.NetWidget? && offset == 0);
  }

  // ---------------------------------------------------------------------
  // The six-month window
  // ---------------------------------------------------------------------

  function Reverse<T>(s: seq<T>): (r: seq<T>)
    ensures |r| == |s| && forall i :: 0 <= i < |s| ==> r[i] == s[|s| - 1 - i]
  {
    if |s| == 0 then [] else Reverse(s[1..]) + [s[0]]
  }

  /** `Array.from({ length: 6 }, (_, i) => label of i months back).reverse()` */
  function Window(today: Date): seq<MonthLabel>
    requires 1 <= today.month <= 12
  {
    Reverse(seq(6, i requires 0 <= i < 6 => TargetLabel(today, i)))
  }

  /** The month shown in column `i` of the window. */
  function WindowMonth(today: Date, i: int): (int, int) {
    ShiftMonth(today.year, today.month, i - 5)
  }

  /** Column `i` of the window is the label of the month `5 - i` months back. */
  lemma WindowColumns(today: Date)
    requires 1 <= today.month <= 12
    ensures |Window(today)| == 6
    ensures forall i :: 0 <= i < 6 ==> Window(today)[i] == Label(WindowMonth(today, i).0, WindowMonth(today, i).1)
  {
    var w := Window(today);
    forall i | 0 <= i < 6 ensures w[i] == Label(WindowMonth(today, i).0, WindowMonth(today, i).1) {
      assert w[i] == TargetLabel(today, 5 - i);
    }
  }

  /**
   * Six columns for six consecutive months, oldest first, ending with the
   * current month and wrapping across year ends; no label repeats.
   */
  lemma WindowShape(today: Date)
    requires 1 <= today.month <= 12
    ensures |Window(today)| == 6
    ensures forall i :: 0 <= i < 6 ==> Window(today)[i] == Label(WindowMonth(today, i).0, WindowMonth(today, i).1)
    ensures forall i :: 0 <= i < 5 ==>
              MonthIndex(WindowMonth(today, i + 1).0, WindowMonth(today, i + 1).1) == MonthIndex(WindowMonth(today, i).0, WindowMonth(today, i).1) + 1
    ensures WindowMonth(today, 5) == (today.year, today.month)
    ensures forall i, j :: 0 <= i < j < 6 ==> Window(today)[i] != Window(today)[j]
  {
    WindowColumns(today);
    MonthIndexInjective(WindowMonth(today, 5).0, WindowMonth(today, 5).1, today.year, today.month);
    forall i, j | 0 <= i < j < 6 ensures Window(today)[i] != Window(today)[j] {
      WindowMonthsDiffer(today, i, j);
    }
  }

  lemma WindowMonthsDiffer(today: Date, i: int, j: int)
    requires 0 <= i < j < 6
    ensures WindowMonth(today, i).1 != WindowMonth(today, j).1
  {
    var a := WindowMonth(today, i);
    var b := WindowMonth(today, j);
    assert MonthIndex(b.0, b.1) == MonthIndex(a.0, a.1) + (j - i);
    assert 12 * (b.0 - a.0) + (b.1 - a.1) == j - i;
  }

  /** On any day of February 2024 the window runs from September 2023 to February 2024. */
  lemma WindowAcrossYearEnd(today: Date)
    requires today.year == 2024 && today.month == 2
    ensures Window(today) ==
      [MonthLabel(23, 9), MonthLabel(23, 10), MonthLabel(23, 11), MonthLabel(23, 12), MonthLabel(24, 1), MonthLabel(24, 2)]
  {
    WindowColumns(today);
    assert WindowMonth(today, 0) == (2023, 9) && WindowMonth(today, 1) == (2023, 10);
    assert WindowMonth(today, 2) == (2023, 11) && WindowMonth(today, 3) == (2023, 12);
    assert WindowMonth(today, 4) == (2024, 1) && WindowMonth(today, 5) == (2024, 2);
  }

  // ---------------------------------------------------------------------
  // Categories
  // ---------------------------------------------------------------------

  /** Some record of the list is filed under the non-empty name `c`. */
  predicate InRecords(records: seq<DashRecord>, c: string) {
    c != "" && exists j :: 0 <= j < |records| && records[j].categoryName == c
  }

  /** Some record of some report is filed under the non-empty name `c`. */
  predicate HasCategory(reports: seq<DashReport>, c: string) {
    exists i :: 0 <= i < |reports| && InRecords(reports[i].records, c)
  }

  /** The Set of non-empty category names, filled in order of first appearance. */
  method CollectCategories(reports: seq<DashReport>) returns (cats: seq<string>)
    ensures Distinct(cats)
    ensures forall c :: c in cats <==> HasCategory(reports, c)
  {
    cats := [];
    var i := 0;
    while i < |reports|
      invariant 0 <= i <= |reports|
      invariant Distinct(cats)
      invariant forall c :: c in cats <==> HasCategory(reports[..i], c)
    {
      var records := reports[i].records;
      var j := 0;
      while j < |records|
        invariant 0 <= j <= |records|
        invariant Distinct(cats)
        invariant forall c :: c in cats <==> HasCategory(reports[..i], c) || InRecords(records[..j], c)
      {
        var name := records[j].categoryName;
        if name != "" && name !in cats {
          cats := cats + [name];
        }
        forall c ensures InRecords(records[..j + 1], c) <==> InRecords(records[..j], c) || (c != "" && c == name) {
          InRecordsStep(records, j, c);
        }
        j := j + 1;
      }
      forall c ensures HasCategory(reports[..i + 1], c) <==> HasCategory(reports[..i], c) || InRecords(records, c) {
        HasCategoryStep(reports, i, c);
      }
      assert records[..j] == records;
      i := i + 1;
    }
    assert reports[..i] == reports;
  }

  lemma InRecordsStep(records: seq<DashRecord>, j: nat, c: string)
    requires j < |records|
    ensures InRecords(records[..j + 1], c) <==> InRecords(records[..j], c) || (c != "" && c == records[j].categoryName)
  {
    var p := records[..j + 1];
    if InRecords(records[..j], c) {
      var k :| 0 <= k < j && records[..j][k].categoryName == c;
      assert p[k] == records[..j][k];
    }
    if InRecords(p, c) && c != records[j].categoryName {
      var k :| 0 <= k < j + 1 && p[k].categoryName == c;
      assert k < j && records[..j][k] == p[k];
    }
    assert p[j] == records[j];
  }

  lemma HasCategoryStep(reports: seq<DashReport>, i: nat, c: string)
    requires i < |reports|
    ensures HasCategory(reports[..i + 1], c) <==> HasCategory(reports[..i], c) || InRecords(reports[i].records, c)
  {
    var p := reports[..i + 1];
    if HasCategory(reports[..i], c) {
      var k :| 0 <= k < i && InRecords(reports[..i][k].records, c);
      assert p[k] == reports[..i][k];
    }
    if HasCategory(p, c) && !InRecords(reports[i].records, c) {
      var k :| 0 <= k < i + 1 && InRecords(p[k].records, c);
      assert k < i && reports[..i][k] == p[k];
    }
    assert p[i] == reports[i];
  }

  /** The sort comparator: 'Salary' before everything, the rest in ascending order. */
  predicate SalaryFirst(a: string, b: string) {
    a != b && (a == "Salary" || (b != "Salary" && StrLess(a, b)))
  }

  lemma SalaryFirstIsStrictTotalOrder()
    ensures StrictTotalOrder(SalaryFirst)
  {
    StrLessIsStrictTotalOrder();
  }

  /**
   * The sorted category list holds each category once, 'Salary' first when
   * it is present and every other name after all names it follows.
   */
  lemma SortedCategoriesShape(cats: seq<string>)
    requires Distinct(cats)
    ensures var r := Sort(cats, SalaryFirst);
            && multiset(r) == multiset(cats)
            && Distinct(r)
            && ("Salary" in cats ==> r[0] == "Salary")
            && (forall i, j :: 0 <= i < j < |r| ==> r[j] != "Salary" && (r[i] == "Salary" || StrLess(r[i], r[j])))
  {
    SalaryFirstIsStrictTotalOrder();
    SortSorted(cats, SalaryFirst);
    var r := Sort(cats, SalaryFirst);
    SortedDistinct(r, SalaryFirst);
    if "Salary" in cats {
      assert "Salary" in multiset(r);
      var k :| 0 <= k < |r| && r[k] == "Salary";
      assert k == 0 || SalaryFirst(r[0], r[k]);
    }
  }

  // ---------------------------------------------------------------------
  // The month by category matrix
  // ---------------------------------------------------------------------

  /** Sum of the amounts of the records filed under the non-empty name `c`, whatever their type. */
  function NameSum(records: seq<DashRecord>, c: string): int {
    if |records| == 0 then 0
    else
      var last := records[|records| - 1];
      NameSum(records[..|records| - 1], c) + (if last.categoryName != "" && last.categoryName == c then last.amount else 0)
  }

  /** The chart cell (month label, category): the reports starting in that month, records of that name. */
  function CellSum(reports: seq<DashReport>, m: MonthLabel, c: string): int {
    if |reports| == 0 then 0
    else
      var last := reports[|reports| - 1];
      CellSum(reports[..|reports| - 1], m, c) + (if StartLabel(last) == m then NameSum(last.records, c) else 0)
  }

  type Matrix = map<MonthLabel, map<string, int>>

  /** Rows exactly for the window's labels, columns exactly for the categories. */
  ghost predicate Shaped(data: Matrix, months: seq<MonthLabel>, cats: seq<string>) {
    && (forall m :: m in data <==> m in months)
    && (forall m, c :: m in data ==> (c in data[m] <==> c in cats))
  }

  /** `monthlyData[month][category] = 0` for every window month and category. */
  method InitMatrix(months: seq<MonthLabel>, cats: seq<string>) returns (data: Matrix)
    ensures Shaped(data, months, cats)
    ensures forall m, c :: m in months && c in cats ==> data[m][c] == 0
  {
    data := map[];
    var i := 0;
    while i < |months|
      invariant 0 <= i <= |months|
      invariant forall m :: m in data <==> m in months[..i]
      invariant forall m, c :: m in data ==> (c in data[m] <==> c in cats)
      invariant forall m, c :: m in data && c in data[m] ==> data[m][c] == 0
    {
      var row: map<string, int> := map[];
      var j := 0;
      while j < |cats|
        invariant 0 <= j <= |cats|
        invariant forall c :: c in row <==> c in cats[..j]
        invariant forall c :: c in row ==> row[c] == 0
      {
        row := row[cats[j] := 0];
        assert cats[..j + 1] == cats[..j] + [cats[j]];
        j := j + 1;
      }
      assert cats[..j] == cats;
      data := data[months[i] := row];
      assert months[..i + 1] == months[..i] + [months[i]];
      i := i + 1;
    }
    assert months[..i] == months;
  }

  /** The inner forEach for one report whose start label has a row: add each named record to its cell. */
  method AddReportRecords(data: Matrix, bucket: MonthLabel, records: seq<DashRecord>) returns (out: Matrix)
    requires bucket in data
    requires forall c :: InRecords(records, c) ==> c in data[bucket]
    ensures forall m :: m in out <==> m in data
    ensures forall m, c :: m in data ==> (c in out[m] <==> c in data[m])
    ensures forall m, c {:trigger out[m][c]} :: m in data && c in data[m] ==>
              out[m][c] == data[m][c] + (if m == bucket then NameSum(records, c) else 0)
  {
    out := data;
    var j := 0;
    while j < |records|
      invariant 0 <= j <= |records|
      invariant forall m :: m in out <==> m in data
      invariant forall m, c :: m in data ==> (c in out[m] <==> c in data[m])
      invariant forall m, c {:trigger out[m][c]} :: m in data && c in data[m] ==>
                  out[m][c] == data[m][c] + (if m == bucket then NameSum(records[..j], c) else 0)
    {
      var record := records[j];
      assert records[..j + 1][..j] == records[..j];
      ghost var prev := out;
      if record.categoryName != "" {
        out := out[bucket := out[bucket][record.categoryName := out[bucket][record.categoryName] + record.amount]];
      }
      forall m, c | m in data && c in data[m]
        ensures out[m][c] == data[m][c] + (if m == bucket then NameSum(records[..j + 1], c) else 0)
      {
        assert prev[m][c] == data[m][c] + (if m == bucket then NameSum(records[..j], c) else 0);
        assert NameSum(records[..j + 1], c) == NameSum(records[..j], c)
          + (if record.categoryName != "" && record.categoryName == c then record.amount else 0);
      }
      j := j + 1;
    }
    assert records[..j] == records;
    forall m, c | m in data && c in data[m]
      ensures out[m][c] == data[m][c] + (if m == bucket then NameSum(records, c) else 0)
    {
      assert out[m][c] == data[m][c] + (if m == bucket then NameSum(records[..j], c) else 0);
    }
  }

  /** The outer forEach: every report whose start label is a row of the matrix adds its named records. */
  method FillMatrix(data: Matrix, reports: seq<DashReport>, months: seq<MonthLabel>, cats: seq<string>) returns (out: Matrix)
    requires Shaped(data, months, cats)
    requires forall c :: HasCategory(reports, c) ==> c in cats
    ensures Shaped(out, months, cats)
    ensures forall m, c :: m in months && c in cats ==> out[m][c] == data[m][c] + CellSum(reports, m, c)
  {
    out := data;
    var i := 0;
    while i < |reports|
      invariant 0 <= i <= |reports|
      invariant Shaped(out, months, cats)
      invariant forall m, c {:trigger out[m][c]} :: m in months && c in cats ==> out[m][c] == data[m][c] + CellSum(reports[..i], m, c)
    {
      var report := reports[i];
      var bucket := StartLabel(report);
      ghost var prev := out;
      if bucket in out {
        forall c | InRecords(report.records, c) ensures c in out[bucket] {
          assert HasCategory(reports, c);
        }
        out := AddReportRecords(out, bucket, report.records);
      }
      forall m, c | m in months && c in cats
        ensures out[m][c] == data[m][c] + CellSum(reports[..i + 1], m, c)
      {
        CellStep(reports, i, m, c);
        assert m in prev && c in prev[m];
        assert prev[m][c] == data[m][c] + CellSum(reports[..i], m, c);
        if bucket in prev {
          assert out[m][c] == prev[m][c] + (if m == bucket then NameSum(report.records, c) else 0);
        } else {
          assert out == prev && m != bucket;
        }
      }
      i := i + 1;
    }
    assert reports[..i] == reports;
  }

  lemma CellStep(reports: seq<DashReport>, i: nat, m: MonthLabel, c: string)
    requires i < |reports|
    ensures CellSum(reports[..i + 1], m, c)
            == CellSum(reports[..i], m, c) + (if StartLabel(reports[i]) == m then NameSum(reports[i].records, c) else 0)
  {
    assert reports[..i + 1][..i] == reports[..i];
  }

  datatype Dataset = Dataset(category: string, data: seq<int>)

  datatype ChartData = ChartData(labels: seq<MonthLabel>, datasets: seq<Dataset>)

  /** `sortedCategories.map(category => ({ label: category, data: months.map(month => monthlyData[month][category]) }))` */
  method BuildDatasets(data: Matrix, months: seq<MonthLabel>, cats: seq<string>) returns (datasets: seq<Dataset>)
    requires forall i, k :: 0 <= i < |months| && 0 <= k < |cats| ==> months[i] in data && cats[k] in data[months[i]]
    ensures |datasets| == |cats|
    ensures forall k :: 0 <= k < |cats| ==>
              && datasets[k].category == cats[k]
              && |datasets[k].data| == |months|
              && forall i :: 0 <= i < |months| ==> datasets[k].data[i] == data[months[i]][cats[k]]
  {
    datasets := [];
    var k := 0;
    while k < |cats|
      invariant 0 <= k <= |cats|
      invariant |datasets| == k
      invariant forall l :: 0 <= l < k ==>
                  && datasets[l].category == cats[l]
                  && |datasets[l].data| == |months|
                  && forall i :: 0 <= i < |months| ==> datasets[l].data[i] == data[months[i]][cats[l]]
    {
      var c := cats[k];
      assert forall i :: 0 <= i < |months| ==> months[i] in data && c in data[months[i]];
      var series := seq(|months|, i requires 0 <= i < |months| => data[months[i]][c]);
      datasets := datasets + [Dataset(c, series)];
      k := k + 1;
    }
  }

  /** The sorted list has the same names as the collected one. */
  lemma SortKeepsNames(collected: seq<string>)
    ensures forall c :: c in Sort(collected, SalaryFirst) <==> c in collected
  {
    var cats := Sort(collected, SalaryFirst);
    forall c ensures c in cats <==> c in collected {
      assert c in cats <==> c in multiset(cats);
      assert c in collected <==> c in multiset(collected);
    }
  }

  /**
   * The dashboard chart: the six window labels, one dataset per category in
   * Salary-first order, each holding for every window month the cell sum of
   * that category over the reports starting in that month.
   */
  method PrepareChartData(reports: seq<DashReport>, today: Date) returns (chart: ChartData)
    requires 1 <= today.month <= 12
    ensures chart.labels == Window(today)
    ensures forall c :: (exists k :: 0 <= k < |chart.datasets| && chart.datasets[k].category == c) <==> HasCategory(reports, c)
    ensures forall k, l :: 0 <= k < l < |chart.datasets| ==>
              chart.datasets[l].category != "Salary"
              && (chart.datasets[k].category == "Salary" || StrLess(chart.datasets[k].category, chart.datasets[l].category))
    ensures forall k :: 0 <= k < |chart.datasets| ==>
              |chart.datasets[k].data| == |chart.labels|
              && forall i :: 0 <= i < |chart.labels| ==> chart.datasets[k].data[i] == CellSum(reports, chart.labels[i], chart.datasets[k].category)
  {
    var months := Window(today);
    var collected := CollectCategories(reports);
    var cats := Sort(collected, SalaryFirst);
    SortedCategoriesShape(collected);
    SortKeepsNames(collected);
    var zero := InitMatrix(months, cats);
    var data := FillMatrix(zero, reports, months, cats);
    forall i, k | 0 <= i < |months| && 0 <= k < |cats| ensures months[i] in data && cats[k] in data[months[i]] {
      assert months[i] in months && cats[k] in cats;
    }
    var datasets := BuildDatasets(data, months, cats);
    chart := ChartData(months, datasets);
    forall k, i | 0 <= k < |datasets| && 0 <= i < |months|
      ensures datasets[k].data[i] == CellSum(reports, months[i], datasets[k].category)
    {
      assert months[i] in months && cats[k] in cats;
    }
    forall c | HasCategory(reports, c) ensures exists k :: 0 <= k < |datasets| && datasets[k].category == c {
      var k :| 0 <= k < |cats| && cats[k] == c;
      assert datasets[k].category == c;
    }
  }

  /** A record dated in March of a report that starts in January counts towards January only. */
  lemma BucketByReportStart()
    ensures var rs := [DashReport(Date(2024, 1, 1), [DashRecord(5000, "expense", "Food", Date(2024, 3, 5))])];
            && CellSum(rs, MonthLabel(24, 1), "Food") == 5000
            && CellSum(rs, MonthLabel(24, 3), "Food") == 0
  {
    var rs := [DashReport(Date(2024, 1, 1), [DashRecord(5000, "expense", "Food", Date(2024, 3, 5))])];
    assert rs[..0] == [];
    var recs := rs[0].records;
    assert recs[..0] == [];
    assert NameSum(recs, "Food") == 5000;
  }

  /** A cell adds income and expense amounts alike. */
  lemma CellIgnoresType()
    ensures var recs := [DashRecord(10000, "income", "Food", Date(2024, 1, 2)), DashRecord(4000, "expense", "Food", Date(2024, 1, 3))];
            && NameSum(recs, "Food") == 14000
            && KindSum(recs, "income") - KindSum(recs, "expense") == 6000
  {
    var recs := [DashRecord(10000, "income", "Food", Date(2024, 1, 2)), DashRecord(4000, "expense", "Food", Date(2024, 1, 3))];
    assert recs[..1][..0] == [];
    assert recs[..1] == [recs[0]];
  }
}
