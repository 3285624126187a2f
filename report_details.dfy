/**
 * The logic of the report page (client/src/pages/ReportDetails.js): the date
 * a recurring template is projected to, the batch of records built from the
 * selected templates, the selection toggle, the per-type per-category totals
 * and the bars of the category chart.
 */
module ReportDetails {
  import opened Wrappers
  import opened Calendar
  import opened Ledger
  import opened Recurring

  // ---------------------------------------------------------------------
  // calculateTransactionDate
  // ---------------------------------------------------------------------

  /**
   * The projected date in calendar terms. An unset day gives today. A day
   * that exists in the report's start month is that day. A day past the end
   * of a shorter month is first rolled by the Date constructor into the next
   * month, and `setDate(lastDay)` then acts inside that next month, so the
   * result is the next month's day `lastDay` (day 31 of April gives May 30).
   * Other numbers follow the Date normalisation the same way.
   */
  function ProjectedDate(day: Option<int>, start: Date, today: Date): Date
    requires ValidDate(start)
  {
    if DayUnset(day) then today
    else
      var d := day.value;
      var last := DaysInMonth(start.year, start.month);
      if 1 <= d <= last then Date(start.year, start.month, d)
      else if last < d <= 31 then
        var n := NextMonth(start.year, start.month);
        Date(n.0, n.1, last)
      else if d < 1 then AddDays(start.year, start.month, d)
      else SetDate(AddDays(start.year, start.month, d), last)
  }

  /** A month shorter than 31 days is followed by one at least as long. */
  lemma NextMonthNotShorter(y: int, m: int)
    requires 1 <= m <= 12 && DaysInMonth(y, m) < 31
    ensures DaysInMonth(NextMonth(y, m).0, NextMonth(y, m).1) >= DaysInMonth(y, m)
  {
  }

  /**
   * The page's steps: build `new Date(Y, M, day)`, take the last day of the
   * month as day 0 of the next, and if the day was larger call `setDate`.
   * Today's date is a parameter.
   */
  method CalculateTransactionDate(day: Option<int>, start: Date, today: Date) returns (r: Date)
    requires ValidDate(start)
    ensures r == ProjectedDate(day, start, today)
  {
    if DayUnset(day) {
      return today;
    }
    var d := day.value;
    var transactionDate := JsDate(start.year, start.month - 1, d);
    assert transactionDate == AddDays(start.year, start.month, d);
    var lastDayOfMonth := JsDate(start.year, start.month, 0).day;
    DayZeroOfNextMonth(start.year, start.month);
    if d > lastDayOfMonth {
      if d <= 31 {
        var n := NextMonth(start.year, start.month);
        NextMonthNotShorter(start.year, start.month);
        OverflowLandsInNextMonth(start.year, start.month, d);
        assert SetDate(transactionDate, lastDayOfMonth) == AddDays(n.0, n.1, lastDayOfMonth);
      }
      transactionDate := SetDate(transactionDate, lastDayOfMonth);
    }
    r := transactionDate;
  }

  /**
   * For every day the input guard admits (1..31) the result is a real date
   * carrying day min(day, lastDay): in the start month when the day exists
   * there, otherwise in the following month.
   */
  lemma ProjectionOfGuardedDay(d: int, start: Date, today: Date)
    requires ValidDate(start) && 1 <= d <= 31
    ensures var r := ProjectedDate(Some(d), start, today);
            var last := DaysInMonth(start.year, start.month);
            && ValidDate(r)
            && r.day == (if d <= last then d else last)
            && (d <= last ==> r.year == start.year && r.month == start.month)
            && (d > last ==> (r.year, r.month) == NextMonth(start.year, start.month))
  {
    if d > DaysInMonth(start.year, start.month) {
      NextMonthNotShorter(start.year, start.month);
    }
  }

  /**
   * For every set day, however large or small: the Date constructor puts it
   * `day - 1` days after the first of the start month (counting back for
   * days below 1), and that is the result when the day does not exceed the
   * month's length; otherwise `setDate(lastDay)` moves to day `lastDay` of
   * the month the constructor landed in.
   */
  lemma ProjectionDayNumber(d: int, start: Date, today: Date)
    requires ValidDate(start) && d != 0
    ensures var r := ProjectedDate(Some(d), start, today);
            var last := DaysInMonth(start.year, start.month);
            var t := AddDays(start.year, start.month, d);
            && ValidDate(r)
            && DayNumber(t) == DayNumber(Date(start.year, start.month, 1)) + d - 1
            && (d <= last ==> r == t)
            && (d > last ==> DayNumber(r) == DayNumber(Date(t.year, t.month, 1)) + last - 1)
  {
    var last := DaysInMonth(start.year, start.month);
    var t := AddDays(start.year, start.month, d);
    AddDaysDayNumber(start.year, start.month, d);
    if last < d <= 31 {
      NextMonthNotShorter(start.year, start.month);
      OverflowLandsInNextMonth(start.year, start.month, d);
    } else if d > 31 {
      AddDaysDayNumber(t.year, t.month, last);
    }
  }

  /** The projection's calendar cases worked through on concrete dates. */
  lemma ProjectionExamples(today: Date)
    ensures ProjectedDate(Some(15), Date(2024, 4, 1), today) == Date(2024, 4, 15)
    ensures ProjectedDate(Some(31), Date(2024, 4, 1), today) == Date(2024, 5, 30)
    ensures ProjectedDate(Some(30), Date(2024, 2, 10), today) == Date(2024, 3, 29)
    ensures ProjectedDate(Some(29), Date(2023, 2, 10), today) == Date(2023, 3, 28)
    ensures ProjectedDate(Some(31), Date(2024, 12, 1), today) == Date(2024, 12, 31)
    ensures ProjectedDate(Some(100), Date(2024, 4, 1), today) == Date(2024, 7, 30)
    ensures ProjectedDate(Some(-5), Date(2024, 4, 1), today) == Date(2024, 3, 26)
    ensures ProjectedDate(None, Date(2024, 4, 1), today) == today
    ensures ProjectedDate(Some(0), Date(2024, 4, 1), today) == today
  {
  }

  // ---------------------------------------------------------------------
  // handleAddRecurring: templates to record specs
  // ---------------------------------------------------------------------

  /** The body of one record of the batch request. */
  datatype RecordSpec = RecordSpec(description: string, amount: int, kind: string, categoryId: int, date: Date)

  /** One template materialised: fields copied verbatim, the date projected onto the report's start month. */
  function FromTemplate(t: Template, start: Date, today: Date): RecordSpec
    requires ValidDate(start)
  {
    RecordSpec(t.description, t.amount, t.kind, t.categoryId, ProjectedDate(t.dayOfMonth, start, today))
  }

  /** `selectedRecurring.map(...)`: one record per selected template, in selection order. */
  function RecurringBatch(selected: seq<Template>, start: Date, today: Date): (batch: seq<RecordSpec>)
    requires ValidDate(start)
    ensures |batch| == |selected|
    ensures forall i :: 0 <= i < |selected| ==>
              && batch[i].description == selected[i].description
              && batch[i].amount == selected[i].amount
              && batch[i].kind == selected[i].kind
              && batch[i].categoryId == selected[i].categoryId
              && batch[i].date == ProjectedDate(selected[i].dayOfMonth, start, today)
  {
    if |selected| == 0 then []
    else [FromTemplate(selected[0], start, today)] + RecurringBatch(selected[1..], start, today)
  }

  /** The batch of a concatenation is the concatenation of the batches. */
  lemma {:induction false} BatchDistributes(a: seq<Template>, b: seq<Template>, start: Date, today: Date)
    requires ValidDate(start)
    ensures RecurringBatch(a + b, start, today) == RecurringBatch(a, start, today) + RecurringBatch(b, start, today)
  {
    if |a| > 0 {
      assert (a + b)[1..] == a[1..] + b;
      BatchDistributes(a[1..], b, start, today);
    } else {
      assert a + b == b;
    }
  }

  // ---------------------------------------------------------------------
  // handleRecurringToggle
  // ---------------------------------------------------------------------

  /** `prev.find(t => t.id === id)` finds something. */
  predicate IsSelected(prev: seq<Template>, id: nat) {
    exists i :: 0 <= i < |prev| && prev[i].id == id
  }

  /** `prev.filter(t => t.id !== id)` */
  function WithoutId(prev: seq<Template>, id: nat): (r: seq<Template>)
    ensures forall x :: x in r <==> x in prev && x.id != id
    ensures |r| <= |prev|
  {
    if |prev| == 0 then []
    else if prev[0].id == id then WithoutId(prev[1..], id)
    else [prev[0]] + WithoutId(prev[1..], id)
  }

  /** Filtering keeps the relative order: it distributes over concatenation. */
  lemma {:induction false} WithoutIdDistributes(a: seq<Template>, b: seq<Template>, id: nat)
    ensures WithoutId(a + b, id) == WithoutId(a, id) + WithoutId(b, id)
  {
    if |a| > 0 {
      assert (a + b)[0] == a[0] && (a + b)[1..] == a[1..] + b;
      WithoutIdDistributes(a[1..], b, id);
    } else {
      assert a + b == b;
    }
  }

  /** Filtering out an id nobody carries changes nothing. */
  lemma {:induction false} WithoutAbsentId(prev: seq<Template>, id: nat)
    requires !IsSelected(prev, id)
    ensures WithoutId(prev, id) == prev
  {
    if |prev| > 0 {
      assert !IsSelected(prev[1..], id) by {
        forall i | 0 <= i < |prev[1..]| ensures prev[1..][i].id != id {
          assert prev[1..][i] == prev[i + 1];
        }
      }
      WithoutAbsentId(prev[1..], id);
      assert prev == [prev[0]] + prev[1..];
    }
  }

  /** Selecting an absent template appends it; selecting a present one removes every entry with its id. */
  function Toggle(prev: seq<Template>, t: Template): (r: seq<Template>)
    ensures IsSelected(prev, t.id) ==> r == WithoutId(prev, t.id)
    ensures !IsSelected(prev, t.id) ==> r == prev + [t]
    ensures IsSelected(r, t.id) <==> !IsSelected(prev, t.id)
  {
    if IsSelected(prev, t.id) then
      var r := WithoutId(prev, t.id);
      assert forall i :: 0 <= i < |r| ==> r[i] in r;
      r
    else
      var r := prev + [t];
      assert r[|prev|].id == t.id;
      r
  }

  /** Selecting and then deselecting a template restores the selection exactly. */
  lemma ToggleTwiceRestores(prev: seq<Template>, t: Template)
    requires !IsSelected(prev, t.id)
    ensures Toggle(Toggle(prev, t), t) == prev
  {
    WithoutIdDistributes(prev, [t], t.id);
    WithoutAbsentId(prev, t.id);
    assert [t][1..] == [];
  }

  /** Toggling a template in adds its record at the end of the batch. */
  lemma ToggleExtendsBatch(prev: seq<Template>, t: Template, start: Date, today: Date)
    requires ValidDate(start) && !IsSelected(prev, t.id)
    ensures RecurringBatch(Toggle(prev, t), start, today)
            == RecurringBatch(prev, start, today) + [FromTemplate(t, start, today)]
  {
    BatchDistributes(prev, [t], start, today);
    assert [t][1..] == [];
  }

  // ---------------------------------------------------------------------
  // calculateCategoryTotals
  // ---------------------------------------------------------------------

  datatype Entry = Entry(category: string, amount: int)

  /** `{ income: {...}, expense: {...} }`, each an object in key insertion order. */
  datatype CategoryTotals = CategoryTotals(income: seq<Entry>, expense: seq<Entry>)

  predicate HasKey(a: seq<Entry>, k: string) {
    exists i :: 0 <= i < |a| && a[i].category == k
  }

  ghost predicate DistinctKeys(a: seq<Entry>) {
    forall i, j :: 0 <= i < j < |a| ==> a[i].category != a[j].category
  }

  /** `totals[k] || 0` */
  function Lookup(a: seq<Entry>, k: string): int {
    if |a| == 0 then 0 else if a[0].category == k then a[0].amount else Lookup(a[1..], k)
  }

  /** `if (!totals[k]) totals[k] = 0; totals[k] += v;` */
  function AddTo(a: seq<Entry>, k: string, v: int): seq<Entry> {
    if |a| == 0 then [Entry(k, v)]
    else if a[0].category == k then [Entry(k, a[0].amount + v)] + a[1..]
    else [a[0]] + AddTo(a[1..], k, v)
  }

  /** HasKey on a non-empty list: the head, or somewhere in the tail. */
  lemma HasKeyCons(a: seq<Entry>, k: string)
    requires |a| > 0
    ensures HasKey(a, k) <==> a[0].category == k || HasKey(a[1..], k)
  {
    if HasKey(a[1..], k) {
      var i :| 0 <= i < |a[1..]| && a[1..][i].category == k;
      assert a[i + 1].category == k;
    }
    if HasKey(a, k) && a[0].category != k {
      var i :| 0 <= i < |a| && a[i].category == k;
      assert a[1..][i - 1].category == k;
    }
  }

  /** Distinct keys on a non-empty list: the head is not repeated and the tail has distinct keys. */
  lemma DistinctCons(a: seq<Entry>)
    requires |a| > 0
    ensures DistinctKeys(a) <==> !HasKey(a[1..], a[0].category) && DistinctKeys(a[1..])
  {
    var tail := a[1..];
    if DistinctKeys(a) {
      forall i, j | 0 <= i < j < |tail| ensures tail[i].category != tail[j].category {
        assert tail[i] == a[i + 1] && tail[j] == a[j + 1];
      }
      forall i | 0 <= i < |tail| ensures tail[i].category != a[0].category {
        assert tail[i] == a[i + 1];
      }
    }
    if !HasKey(tail, a[0].category) && DistinctKeys(tail) {
      forall i, j | 0 <= i < j < |a| ensures a[i].category != a[j].category {
        assert a[j] == tail[j - 1];
        if i > 0 {
          assert a[i] == tail[i - 1];
        }
      }
    }
  }

  /** After adding to `k` the keys are the old ones plus `k`. */
  lemma {:induction false} AddToHasKey(a: seq<Entry>, k: string, v: int, k': string)
    ensures HasKey(AddTo(a, k, v), k') <==> HasKey(a, k') || k' == k
  {
    var r := AddTo(a, k, v);
    HasKeyCons(r, k');
    if |a| == 0 {
      assert r[1..] == [];
    } else {
      HasKeyCons(a, k');
      if a[0].category == k {
        assert r[1..] == a[1..];
      } else {
        assert r[1..] == AddTo(a[1..], k, v);
        AddToHasKey(a[1..], k, v, k');
      }
    }
  }

  /** Adding `v` to `k` raises the lookup of `k` by `v` and leaves every other key alone. */
  lemma {:induction false} AddToLookup(a: seq<Entry>, k: string, v: int, k': string)
    ensures Lookup(AddTo(a, k, v), k') == Lookup(a, k') + (if k' == k then v else 0)
  {
    if |a| > 0 {
      var r := AddTo(a, k, v);
      if a[0].category == k {
        assert r[1..] == a[1..];
      } else {
        assert r[1..] == AddTo(a[1..], k, v);
        AddToLookup(a[1..], k, v, k');
      }
    }
  }

  /** Adding never creates a second entry for a key. */
  lemma {:induction false} AddToDistinct(a: seq<Entry>, k: string, v: int)
    requires DistinctKeys(a)
    ensures DistinctKeys(AddTo(a, k, v))
  {
    if |a| > 0 {
      var r := AddTo(a, k, v);
      DistinctCons(a);
      DistinctCons(r);
      if a[0].category == k {
        assert r[1..] == a[1..];
      } else {
        assert r[1..] == AddTo(a[1..], k, v);
        AddToDistinct(a[1..], k, v);
        AddToHasKey(a[1..], k, v, a[0].category);
      }
    }
  }

  /** A key that is not there looks up as 0. */
  lemma {:induction false} LookupAbsent(a: seq<Entry>, k: string)
    requires !HasKey(a, k)
    ensures Lookup(a, k) == 0
  {
    if |a| > 0 {
      HasKeyCons(a, k);
      LookupAbsent(a[1..], k);
    }
  }

  /** The key a record row is filed under: its category name, or "null" when the join found none. */
  function CategoryKey(row: RecordRow): string {
    if row.categoryName.Some? then row.categoryName.value else "null"
  }

  /** Sum of the amounts of the rows of type `kind` filed under key `k`. */
  function CategorySum(rows: seq<RecordRow>, kind: string, k: string): int {
    if |rows| == 0 then 0
    else
      var last := rows[|rows| - 1];
      CategorySum(rows[..|rows| - 1], kind, k) + (if last.record.kind == kind && CategoryKey(last) == k then last.record.amount else 0)
  }

  /** Some row of type `kind` is filed under `k`. */
  predicate Filed(rows: seq<RecordRow>, kind: string, k: string) {
    exists j :: 0 <= j < |rows| && rows[j].record.kind == kind && CategoryKey(rows[j]) == k
  }

  predicate KnownKind(row: RecordRow) {
    row.record.kind == "income" || row.record.kind == "expense"
  }

  ghost predicate TotalsFor(t: CategoryTotals, rows: seq<RecordRow>) {
    && DistinctKeys(t.income) && DistinctKeys(t.expense)
    && (forall k :: Lookup(t.income, k) == CategorySum(rows, "income", k))
    && (forall k :: Lookup(t.expense, k) == CategorySum(rows, "expense", k))
    && (forall k :: HasKey(t.income, k) <==> Filed(rows, "income", k))
    && (forall k :: HasKey(t.expense, k) <==> Filed(rows, "expense", k))
  }

  lemma FiledStep(rows: seq<RecordRow>, i: nat, kind: string, k: string)
    requires i < |rows|
    ensures Filed(rows[..i + 1], kind, k) <==>
              Filed(rows[..i], kind, k) || (rows[i].record.kind == kind && CategoryKey(rows[i]) == k)
  {
    var p := rows[..i + 1];
    if Filed(rows[..i], kind, k) {
      var j :| 0 <= j < i && rows[..i][j].record.kind == kind && CategoryKey(rows[..i][j]) == k;
      assert p[j] == rows[..i][j];
    }
    if Filed(p, kind, k) && !(rows[i].record.kind == kind && CategoryKey(rows[i]) == k) {
      var j :| 0 <= j < i + 1 && p[j].record.kind == kind && CategoryKey(p[j]) == k;
      assert j < i && rows[..i][j] == p[j];
    }
    assert p[i] == rows[i];
  }

  /** Filing one more row of a known type into the totals of the rows before it. */
  function Accumulate(t: CategoryTotals, row: RecordRow): CategoryTotals {
    if row.record.kind == "income" then CategoryTotals(AddTo(t.income, CategoryKey(row), row.record.amount), t.expense)
    else CategoryTotals(t.income, AddTo(t.expense, CategoryKey(row), row.record.amount))
  }

  lemma AccumulateStep(t: CategoryTotals, rows: seq<RecordRow>, i: nat)
    requires i < |rows| && KnownKind(rows[i]) && TotalsFor(t, rows[..i])
    ensures TotalsFor(Accumulate(t, rows[i]), rows[..i + 1])
  {
    var row := rows[i];
    var k := CategoryKey(row);
    var t' := Accumulate(t, row);
    assert rows[..i + 1][..i] == rows[..i];
    AddToDistinct(t.income, k, row.record.amount);
    AddToDistinct(t.expense, k, row.record.amount);
    forall k' ensures Lookup(t'.income, k') == CategorySum(rows[..i + 1], "income", k')
                   && (HasKey(t'.income, k') <==> Filed(rows[..i + 1], "income", k'))
    {
      AddToLookup(t.income, k, row.record.amount, k');
      AddToHasKey(t.income, k, row.record.amount, k');
      FiledStep(rows, i, "income", k');
    }
    forall k' ensures Lookup(t'.expense, k') == CategorySum(rows[..i + 1], "expense", k')
                   && (HasKey(t'.expense, k') <==> Filed(rows[..i + 1], "expense", k'))
    {
      AddToLookup(t.expense, k, row.record.amount, k');
      AddToHasKey(t.expense, k, row.record.amount, k');
      FiledStep(rows, i, "expense", k');
    }
  }

  /**
   * The forEach over the report's rows. `totals[type]` exists only for
   * 'income' and 'expense'; a row of any other type makes `totals[type][...]`
   * throw, and the totals are never set (None). Otherwise each type's map
   * holds exactly the categories that have rows of that type, each with the
   * sum of their amounts.
   */
  method CalculateCategoryTotals(rows: seq<RecordRow>) returns (totals: Option<CategoryTotals>)
    ensures totals.None? <==> exists i :: 0 <= i < |rows| && !KnownKind(rows[i])
    ensures totals.Some? ==> TotalsFor(totals.value, rows)
  {
    var income: seq<Entry> := [];
    var expense: seq<Entry> := [];
    var i := 0;
    while i < |rows|
      invariant 0 <= i <= |rows|
      invariant forall j :: 0 <= j < i ==> KnownKind(rows[j])
      invariant TotalsFor(CategoryTotals(income, expense), rows[..i])
    {
      var row := rows[i];
      if !KnownKind(row) {
        return None;
      }
      AccumulateStep(CategoryTotals(income, expense), rows, i);
      var category := CategoryKey(row);
      if row.record.kind == "income" {
        income := AddTo(income, category, row.record.amount);
      } else {
        expense := AddTo(expense, category, row.record.amount);
      }
      i := i + 1;
    }
    assert rows[..i] == rows;
    totals := Some(CategoryTotals(income, expense));
  }

  // ---------------------------------------------------------------------
  // prepareChartData: one bar per category
  // ---------------------------------------------------------------------

  datatype Bar = Bar(category: string, amount: int, isIncome: bool)

  function Keys(a: seq<Entry>): (ks: seq<string>)
    ensures |ks| == |a| && forall i :: 0 <= i < |a| ==> ks[i] == a[i].category
  {
    seq(|a|, i requires 0 <= i < |a| => a[i].category)
  }

  /** `new Set([...Object.keys(income), ...Object.keys(expense)])`: income keys, then expense keys not already seen. */
  function ChartLabels(t: CategoryTotals): (labels: seq<string>)
    ensures forall k :: k in labels <==> HasKey(t.income, k) || HasKey(t.expense, k)
  {
    var inc := Keys(t.income);
    var exp := Keys(t.expense);
    assert forall k :: k in inc <==> HasKey(t.income, k) by {
      forall k ensures k in inc <==> HasKey(t.income, k) {
        if k in inc {
          var i :| 0 <= i < |inc| && inc[i] == k;
          assert t.income[i].category == k;
        }
      }
    }
    assert forall k :: k in exp <==> HasKey(t.expense, k) by {
      forall k ensures k in exp <==> HasKey(t.expense, k) {
        if k in exp {
          var i :| 0 <= i < |exp| && exp[i] == k;
          assert t.expense[i].category == k;
        }
      }
    }
    inc + NotIn(exp, inc)
  }

  function NotIn(ks: seq<string>, seen: seq<string>): (r: seq<string>)
    ensures forall k :: k in r <==> k in ks && k !in seen
  {
    if |ks| == 0 then []
    else if ks[0] in seen then NotIn(ks[1..], seen)
    else [ks[0]] + NotIn(ks[1..], seen)
  }

  /**
   * One bar per label. Its amount is the income total when that is nonzero
   * (`incomeAmount || expenseAmount`), otherwise the expense total; it is
   * drawn as income exactly when the income total is positive.
   */
  function ChartBars(t: CategoryTotals): (bars: seq<Bar>)
    ensures |bars| == |ChartLabels(t)|
    ensures forall i :: 0 <= i < |bars| ==>
              var c := ChartLabels(t)[i];
              var inc := Lookup(t.income, c);
              && bars[i].category == c
              && bars[i].amount == (if inc != 0 then inc else Lookup(t.expense, c))
              && bars[i].isIncome == (inc > 0)
  {
    var labels := ChartLabels(t);
    seq(|labels|, i requires 0 <= i < |labels| =>
      var inc := Lookup(t.income, labels[i]);
      Bar(labels[i], if inc != 0 then inc else Lookup(t.expense, labels[i]), inc > 0))
  }

  /**
   * Read against the report's rows: every category with a row gets a bar,
   * a category with positive income is drawn as income with its income
   * total, and a category with expenses only shows its expense total.
   */
  lemma ChartOfReport(rows: seq<RecordRow>, t: CategoryTotals, c: string)
    requires TotalsFor(t, rows)
    ensures c in ChartLabels(t) <==> Filed(rows, "income", c) || Filed(rows, "expense", c)
    ensures !Filed(rows, "income", c) ==> Lookup(t.income, c) == 0
  {
    if !Filed(rows, "income", c) {
      LookupAbsent(t.income, c);
    }
  }
}
