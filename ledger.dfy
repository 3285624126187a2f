/**
 * The aggregation the server performs in SQL when it reads reports
 * (app.js): per-report income and expense totals, the net amount, the
 * total balance and each member record's running balance, all derived from
 * the explicit report-record link rows. Also the API-key decision that
 * guards every `/api` route.
 */
module Ledger {
  import opened Wrappers
  import opened Calendar

  /** A finance_records row; `amount` is in cents and `kind` is the `type` column. */
  datatype Record = Record(
    id: nat,
    description: string,
    amount: int,
    kind: string,
    date: Date,
    categoryId: int,
    settled: bool)

  /** A report_records row. */
  datatype Link = Link(reportId: nat, recordId: nat)

  /** A reports row; the date range is descriptive only. */
  datatype Report = Report(
    id: nat,
    name: string,
    startDate: Date,
    endDate: Date,
    startingAmount: int)

  // ---------------------------------------------------------------------
  // Membership: the rows of `report_records rr JOIN finance_records f`
  // ---------------------------------------------------------------------

  /**
   * The member records of report `rid`, one per link row whose finance row
   * still exists, in link order. The report's start and end dates play no
   * part: membership is the link rows and nothing else.
   */
  function Members(links: seq<Link>, records: map<nat, Record>, rid: nat): (ms: seq<Record>)
    ensures |ms| <= |links|
  {
    if |links| == 0 then []
    else
      var l := links[|links| - 1];
      var front := Members(links[..|links| - 1], records, rid);
      if l.reportId == rid && l.recordId in records then front + [records[l.recordId]] else front
  }

  /** The number of link rows from report `rid` to record `id`. */
  function LinkCount(links: seq<Link>, rid: nat, id: nat): nat {
    if |links| == 0 then 0
    else LinkCount(links[..|links| - 1], rid, id) + (if links[|links| - 1] == Link(rid, id) then 1 else 0)
  }

  /** The number of times `r` occurs among a sequence of records. */
  function Occurrences(ms: seq<Record>, r: Record): nat {
    multiset(ms)[r]
  }

  /** Every stored record sits under its own id, as an auto-increment primary key gives. */
  ghost predicate WellKeyed(records: map<nat, Record>) {
    forall id :: id in records ==> records[id].id == id
  }

  /**
   * A stored record is a member exactly as often as there are link rows to
   * it; anything else, including the row a dangling link points at, never is.
   */
  lemma {:induction false} MembersAreLinkRows(links: seq<Link>, records: map<nat, Record>, rid: nat, r: Record)
    requires WellKeyed(records)
    ensures Occurrences(Members(links, records, rid), r)
            == if r.id in records && records[r.id] == r then LinkCount(links, rid, r.id) else 0
  {
    if |links| > 0 {
      var front := links[..|links| - 1];
      MembersAreLinkRows(front, records, rid, r);
    }
  }

  /** Every member is a stored record. */
  lemma {:induction false} MembersFromRecords(links: seq<Link>, records: map<nat, Record>, rid: nat)
    ensures forall r :: r in Members(links, records, rid) ==> r in records.Values
  {
    if |links| > 0 {
      MembersFromRecords(links[..|links| - 1], records, rid);
    }
  }

  // ---------------------------------------------------------------------
  // SUM(CASE ...) over the member rows
  // ---------------------------------------------------------------------

  /** SUM(w(f)) over the rows `ms`; COALESCE(..., 0) makes the empty sum 0. */
  function SumOf(ms: seq<Record>, w: Record -> int): int {
    if |ms| == 0 then 0 else SumOf(ms[..|ms| - 1], w) + w(ms[|ms| - 1])
  }

  /** CASE WHEN f.type = 'income' THEN f.amount ELSE 0 END */
  function IncomeAmount(r: Record): int {
    if r.kind == "income" then r.amount else 0
  }

  /** CASE WHEN f.type = 'expense' THEN f.amount ELSE 0 END */
  function ExpenseAmount(r: Record): int {
    if r.kind == "expense" then r.amount else 0
  }

  /** CASE WHEN f.type = 'income' THEN f.amount ELSE -f.amount END: every non-income type counts as an outflow. */
  function Signed(r: Record): int {
    if r.kind == "income" then r.amount else -r.amount
  }

  /** The amount of a record whose type is neither 'income' nor 'expense'. */
  function OtherAmount(r: Record): int {
    if r.kind != "income" && r.kind != "expense" then r.amount else 0
  }

  /** The signed amount of a record dated on or before `d`, and 0 for a later one. */
  function SignedUpTo(d: Date): Record -> int {
    (r: Record) => if DateLeq(r.date, d) then Signed(r) else 0
  }

  function TotalIncome(ms: seq<Record>): int { SumOf(ms, IncomeAmount) }

  function TotalExpense(ms: seq<Record>): int { SumOf(ms, ExpenseAmount) }

  function NetAmount(ms: seq<Record>): int { SumOf(ms, Signed) }

  function TotalBalance(startingAmount: int, ms: seq<Record>): int {
    startingAmount + NetAmount(ms)
  }

  /** The running_balance of a member dated `d`: every member dated on or before `d` counts, with no id tie-break. */
  function RunningBalance(startingAmount: int, ms: seq<Record>, d: Date): int {
    startingAmount + SumOf(ms, SignedUpTo(d))
  }

  // ---------------------------------------------------------------------
  // Laws of SumOf
  // ---------------------------------------------------------------------

  lemma {:induction false} SumOfAppend(a: seq<Record>, b: seq<Record>, w: Record -> int)
    ensures SumOf(a + b, w) == SumOf(a, w) + SumOf(b, w)
  {
    if |b| > 0 {
      var b' := b[..|b| - 1];
      assert (a + b)[..|a + b| - 1] == a + b';
      assert (a + b)[|a + b| - 1] == b[|b| - 1];
      SumOfAppend(a, b', w);
    } else {
      assert a + b == a;
    }
  }

  /** Sums over the same rows in any order agree: SQL SUM does not depend on row order. */
  lemma {:induction false} SumOfPermutation(a: seq<Record>, b: seq<Record>, w: Record -> int)
    requires multiset(a) == multiset(b)
    ensures SumOf(a, w) == SumOf(b, w)
    decreases |a|
  {
    if |a| > 0 {
      var x := a[|a| - 1];
      var a' := a[..|a| - 1];
      assert a == a' + [x];
      assert x in multiset(b);
      var k :| 0 <= k < |b| && b[k] == x;
      assert b == b[..k] + [x] + b[k + 1..];
      var b' := b[..k] + b[k + 1..];
      calc {
        multiset(b);
        multiset(b[..k] + [x] + b[k + 1..]);
        multiset(b[..k]) + multiset{x} + multiset(b[k + 1..]);
        multiset(b') + multiset{x};
      }
      assert multiset(a) == multiset(a') + multiset{x};
      assert multiset(a') == multiset(a) - multiset{x};
      assert multiset(b') == multiset(b) - multiset{x};
      SumOfPermutation(a', b', w);
      SumOfAppend(b[..k] + [x], b[k + 1..], w);
      SumOfAppend(b[..k], [x], w);
      SumOfAppend(b[..k], b[k + 1..], w);
      assert SumOf([x], w) == w(x) by {
        assert [x][..0] == [];
      }
    } else {
      assert |b| == |multiset(b)| == 0;
    }
  }

  /** Sums of two weightings agree when the weightings agree on every row. */
  lemma {:induction false} SumOfAgree(ms: seq<Record>, w1: Record -> int, w2: Record -> int)
    requires forall r :: r in ms ==> w1(r) == w2(r)
    ensures SumOf(ms, w1) == SumOf(ms, w2)
  {
    if |ms| > 0 {
      SumOfAgree(ms[..|ms| - 1], w1, w2);
    }
  }

  /** A sum of a difference of weightings is the difference of the sums. */
  lemma {:induction false} SumOfDifference(ms: seq<Record>, w: Record -> int, u: Record -> int, v: Record -> int)
    requires forall r :: r in ms ==> w(r) == u(r) - v(r)
    ensures SumOf(ms, w) == SumOf(ms, u) - SumOf(ms, v)
  {
    if |ms| > 0 {
      SumOfDifference(ms[..|ms| - 1], w, u, v);
    }
  }

  // ---------------------------------------------------------------------
  // What the report figures mean
  // ---------------------------------------------------------------------

  /** A report without members has zero totals and its starting amount as balance. */
  lemma EmptyReport(startingAmount: int)
    ensures TotalIncome([]) == 0 && TotalExpense([]) == 0 && NetAmount([]) == 0
    ensures TotalBalance(startingAmount, []) == startingAmount
  {
  }

  /** net_amount is income minus expense minus whatever carries another type. */
  lemma NetAmountSplit(ms: seq<Record>)
    ensures NetAmount(ms) == TotalIncome(ms) - TotalExpense(ms) - SumOf(ms, OtherAmount)
  {
    var nonIncome := (r: Record) => ExpenseAmount(r) + OtherAmount(r);
    SumOfDifference(ms, Signed, IncomeAmount, nonIncome);
    SumOfDifference(ms, ExpenseAmount, nonIncome, OtherAmount);
  }

  /** When every member is 'income' or 'expense', net_amount = total_income - total_expense. */
  lemma NetIsIncomeMinusExpense(ms: seq<Record>)
    requires forall r :: r in ms ==> r.kind == "income" || r.kind == "expense"
    ensures NetAmount(ms) == TotalIncome(ms) - TotalExpense(ms)
    ensures TotalBalance(0, ms) == TotalIncome(ms) - TotalExpense(ms)
  {
    NetAmountSplit(ms);
    SumOfAgree(ms, OtherAmount, (r: Record) => 0);
    SumOfZero(ms);
  }

  lemma {:induction false} SumOfZero(ms: seq<Record>)
    ensures SumOf(ms, (r: Record) => 0) == 0
  {
    if |ms| > 0 {
      SumOfZero(ms[..|ms| - 1]);
    }
  }

  /** The totals, the balance and every running balance do not depend on the order of the member rows. */
  lemma FiguresOrderIndependent(startingAmount: int, a: seq<Record>, b: seq<Record>, d: Date)
    requires multiset(a) == multiset(b)
    ensures TotalIncome(a) == TotalIncome(b) && TotalExpense(a) == TotalExpense(b)
    ensures NetAmount(a) == NetAmount(b) && TotalBalance(startingAmount, a) == TotalBalance(startingAmount, b)
    ensures RunningBalance(startingAmount, a, d) == RunningBalance(startingAmount, b, d)
  {
    SumOfPermutation(a, b, IncomeAmount);
    SumOfPermutation(a, b, ExpenseAmount);
    SumOfPermutation(a, b, Signed);
    SumOfPermutation(a, b, SignedUpTo(d));
  }

  /** A member dated no earlier than every other member shows the report's total_balance. */
  lemma LatestRunningBalanceIsTotalBalance(startingAmount: int, ms: seq<Record>, d: Date)
    requires forall g :: g in ms ==> DateLeq(g.date, d)
    ensures RunningBalance(startingAmount, ms, d) == TotalBalance(startingAmount, ms)
  {
    SumOfAgree(ms, SignedUpTo(d), Signed);
  }

  /** Members sorted by transaction date. */
  ghost predicate SortedByDate(ms: seq<Record>) {
    forall i, j :: 0 <= i < j < |ms| ==> DateLeq(ms[i].date, ms[j].date)
  }

  /**
   * On date-sorted members, the running balance of the last member of each
   * date is the starting amount plus the inclusive prefix sum up to it. The
   * earlier members of the same date show that same value, not their own
   * prefix sum, because the balance has no id tie-break.
   */
  lemma RunningBalanceIsPrefixSum(startingAmount: int, ms: seq<Record>, i: nat)
    requires SortedByDate(ms)
    requires i < |ms|
    requires i + 1 == |ms| || !DateLeq(ms[i + 1].date, ms[i].date)
    ensures RunningBalance(startingAmount, ms, ms[i].date) == startingAmount + NetAmount(ms[..i + 1])
  {
    var d := ms[i].date;
    var head, tail := ms[..i + 1], ms[i + 1..];
    assert ms == head + tail;
    SumOfAppend(head, tail, SignedUpTo(d));
    forall g | g in head ensures SignedUpTo(d)(g) == Signed(g) {
      var k :| 0 <= k < |head| && head[k] == g;
      assert ms[k] == g;
    }
    SumOfAgree(head, SignedUpTo(d), Signed);
    forall g | g in tail ensures SignedUpTo(d)(g) == 0 {
      var k :| 0 <= k < |tail| && tail[k] == g;
      assert ms[i + 1 + k] == g;
      assert DateLeq(ms[i + 1].date, g.date);
      if DateLeq(g.date, d) {
        DateLeqTransitive(ms[i + 1].date, g.date, d);
      }
    }
    SumOfAgree(tail, SignedUpTo(d), (r: Record) => 0);
    SumOfZero(tail);
  }

  /** Two members on the same day: both rows show the same balance, although their prefix sums differ. */
  lemma SameDayMembersShareBalance()
    ensures var day := Date(2024, 4, 1);
            var pay := Record(1, "pay", 10000, "income", day, 1, false);
            var rent := Record(2, "rent", 3000, "expense", day, 2, false);
            RunningBalance(0, [pay, rent], pay.date) == 7000
            && RunningBalance(0, [pay, rent], rent.date) == 7000
            && NetAmount([pay]) == 10000
  {
    var day := Date(2024, 4, 1);
    var pay := Record(1, "pay", 10000, "income", day, 1, false);
    var rent := Record(2, "rent", 3000, "expense", day, 2, false);
    var ms := [pay, rent];
    assert ms[..1] == [pay];
    assert [pay][..0] == [];
    assert SumOf([pay], SignedUpTo(day)) == 10000;
    assert SumOf(ms, SignedUpTo(day)) == 7000;
    assert SumOf([pay], Signed) == 10000;
  }

  // ---------------------------------------------------------------------
  // The rows the report queries return
  // ---------------------------------------------------------------------

  /** A row of the report list: r.* with its three aggregates. */
  datatype ReportSummary = ReportSummary(report: Report, totalIncome: int, totalExpense: int, netAmount: int)

  /** A member row of the report view: f.*, the joined category name (NULL if none) and running_balance. */
  datatype RecordRow = RecordRow(record: Record, categoryName: Option<string>, runningBalance: int)

  /** The single-report view: the summary, total_balance and the member rows. */
  datatype ReportView = ReportView(summary: ReportSummary, totalBalance: int, rows: seq<RecordRow>)

  function Summarize(report: Report, ms: seq<Record>): ReportSummary {
    ReportSummary(report, TotalIncome(ms), TotalExpense(ms), NetAmount(ms))
  }

  /** LEFT JOIN categories c ON f.category_id = c.id */
  function CategoryName(names: map<int, string>, categoryId: int): Option<string> {
    if categoryId in names then Some(names[categoryId]) else None
  }

  function View(report: Report, ms: seq<Record>, names: map<int, string>): ReportView {
    ReportView(
      Summarize(report, ms),
      TotalBalance(report.startingAmount, ms),
      seq(|ms|, i requires 0 <= i < |ms| =>
        RecordRow(ms[i], CategoryName(names, ms[i].categoryId), RunningBalance(report.startingAmount, ms, ms[i].date))))
  }

  /**
   * The view holds one row per member, total_balance is the starting amount
   * plus net_amount, and every row dated last shows total_balance.
   */
  lemma ViewConsistent(report: Report, ms: seq<Record>, names: map<int, string>)
    ensures var v := View(report, ms, names);
            && |v.rows| == |ms|
            && (forall i :: 0 <= i < |ms| ==> v.rows[i].record == ms[i])
            && v.totalBalance == report.startingAmount + v.summary.netAmount
            && forall i :: 0 <= i < |ms| && (forall g :: g in ms ==> DateLeq(g.date, ms[i].date)) ==>
                 v.rows[i].runningBalance == v.totalBalance
  {
    var v := View(report, ms, names);
    forall i | 0 <= i < |ms| && (forall g :: g in ms ==> DateLeq(g.date, ms[i].date))
      ensures v.rows[i].runningBalance == v.totalBalance
    {
      LatestRunningBalanceIsTotalBalance(report.startingAmount, ms, ms[i].date);
    }
  }

  // ---------------------------------------------------------------------
  // authenticateApiKey
  // ---------------------------------------------------------------------

  datatype AuthDecision = Reject(status: int, message: string) | Proceed

  /**
   * The X-API-Key check: a missing or empty header is refused with 401, a
   * header that differs from the configured key (or any header when no key
   * is configured) with 403, and a matching header lets the request through.
   */
  function Authenticate(header: Option<string>, configured: Option<string>): (d: AuthDecision)
    ensures d == Reject(401, "API Key is missing") <==> header == None || header == Some("")
    ensures d == Reject(403, "Invalid API Key") <==> header.Some? && header.value != "" && configured != header
    ensures d == Proceed <==> header.Some? && header.value != "" && configured == header
  {
    if header == None || header.value == "" then Reject(401, "API Key is missing")
    else if configured != header then Reject(403, "Invalid API Key")
    else Proceed
  }

  /** Whatever the header, a request proceeds only with the configured, non-empty key. */
  lemma OnlyConfiguredKeyProceeds(header: Option<string>, configured: Option<string>)
    requires Authenticate(header, configured) == Proceed
    ensures configured.Some? && configured.value != "" && header == configured
  {
  }
}
