/**
 * The rows the server keeps (categories, finance records, reports and the
 * report-record links) and the route handlers of app.js that change them or
 * read a report back. Auto-increment ids are the `next...Id` counters, and
 * store faults the handlers cannot see in advance are parameters.
 */
module Store {
  import opened Wrappers
  import opened Calendar
  import opened Ledger

  datatype Category = Category(id: nat, name: string, description: string)

  /** A record with its joined category name, as the add-record route returns it. */
  datatype CreatedRecord = CreatedRecord(record: Record, categoryName: Option<string>)

  class LedgerStore {
    var categories: map<nat, Category>
    var records: map<nat, Record>
    var reports: map<nat, Report>
    var links: seq<Link>
    var nextCategoryId: nat
    var nextRecordId: nat
    var nextReportId: nat

    /** Every row sits under its own id, every id is below its counter, and links point below the record counter. */
    ghost predicate Valid()
      reads this
    {
      && WellKeyed(records)
      && (forall id :: id in records ==> id < nextRecordId)
      && (forall id :: id in reports ==> reports[id].id == id && id < nextReportId)
      && (forall id :: id in categories ==> categories[id].id == id && id < nextCategoryId)
      && (forall i :: 0 <= i < |links| ==> links[i].recordId < nextRecordId)
    }

    /** The member records of report `rid`, re-derived from the current link rows. */
    function MembersOf(rid: nat): seq<Record>
      reads this
    {
      Members(links, records, rid)
    }

    function CategoryNames(): map<int, string>
      reads this
    {
      map id | id in categories :: categories[id].name
    }

    constructor ()
      ensures Valid()
      ensures categories == map[] && records == map[] && reports == map[] && links == []
    {
      categories, records, reports, links := map[], map[], map[], [];
      nextCategoryId, nextRecordId, nextReportId := 1, 1, 1;
    }

    /** POST /api/categories */
    method CreateCategory(name: string, description: string) returns (id: nat)
      requires Valid()
      modifies this
      ensures Valid()
      ensures id !in old(categories) && categories == old(categories)[id := Category(id, name, description)]
      ensures records == old(records) && reports == old(reports) && links == old(links)
    {
      id := nextCategoryId;
      categories := categories[id := Category(id, name, description)];
      nextCategoryId := nextCategoryId + 1;
    }

    /** Both INSERT statements for finance records: a fresh id, `settled` left at its default false. */
    method InsertRecord(description: string, amount: int, kind: string, date: Date, categoryId: int)
      returns (r: Record)
      requires Valid()
      modifies this`records, this`nextRecordId
      ensures Valid()
      ensures r == Record(old(nextRecordId), description, amount, kind, date, categoryId, false)
      ensures r.id !in old(records) && records == old(records)[r.id := r]
      ensures forall l :: l in links ==> l.recordId != r.id
    {
      r := Record(nextRecordId, description, amount, kind, date, categoryId, false);
      records := records[r.id := r];
      nextRecordId := nextRecordId + 1;
    }

    /** POST /api/finances: a standalone record, linked to no report. */
    method CreateRecord(description: string, amount: int, kind: string, date: Date, categoryId: int)
      returns (id: nat)
      requires Valid()
      modifies this
      ensures Valid()
      ensures id !in old(records)
      ensures records == old(records)[id := Record(id, description, amount, kind, date, categoryId, false)]
      ensures categories == old(categories) && reports == old(reports) && links == old(links)
      ensures forall rid :: MembersOf(rid) == old(MembersOf(rid))
    {
      var r := InsertRecord(description, amount, kind, date, categoryId);
      id := r.id;
      forall rid ensures MembersOf(rid) == old(MembersOf(rid)) {
        UnlinkedRecordInvisible(links, old(records), rid, r);
      }
    }

    /**
     * PUT /api/finances/:id: an unknown id is NotFound and changes nothing;
     * otherwise every column but `settled` is replaced.
     */
    method UpdateRecord(id: nat, description: string, amount: int, kind: string, date: Date, categoryId: int)
      returns (res: Result<()>)
      requires Valid()
      modifies this
      ensures Valid()
      ensures res == (if id in old(records) then Ok(()) else Err(NotFound))
      ensures records == if id in old(records)
                         then old(records)[id := Record(id, description, amount, kind, date, categoryId, old(records)[id].settled)]
                         else old(records)
      ensures categories == old(categories) && reports == old(reports) && links == old(links)
    {
      if id !in records {
        return Err(NotFound);
      }
      records := records[id := Record(id, description, amount, kind, date, categoryId, records[id].settled)];
      res := Ok(());
    }

    /**
     * DELETE /api/finances/:id: the row goes, its link rows stay behind and
     * simply stop contributing to every report.
     */
    method DeleteRecord(id: nat) returns (res: Result<()>)
      requires Valid()
      modifies this
      ensures Valid()
      ensures res == (if id in old(records) then Ok(()) else Err(NotFound))
      ensures records == old(records) - {id}
      ensures categories == old(categories) && reports == old(reports) && links == old(links)
      ensures forall rid :: MembersOf(rid) == WithoutRecord(old(MembersOf(rid)), id)
    {
      res := if id in records then Ok(()) else Err(NotFound);
      forall rid ensures Members(links, records - {id}, rid) == WithoutRecord(Members(links, records, rid), id) {
        DeleteDropsMember(links, records, rid, id);
      }
      records := records - {id};
    }

    /** PATCH /api/finances/:id/settled: only the `settled` column of that one record changes. */
    method SetSettled(id: nat, settled: bool) returns (res: Result<()>)
      requires Valid()
      modifies this
      ensures Valid()
      ensures res == (if id in old(records) then Ok(()) else Err(NotFound))
      ensures records == if id in old(records) then old(records)[id := old(records)[id].(settled := settled)] else old(records)
      ensures categories == old(categories) && reports == old(reports) && links == old(links)
    {
      if id !in records {
        return Err(NotFound);
      }
      records := records[id := records[id].(settled := settled)];
      res := Ok(());
    }

    /** POST /api/reports: `starting_amount || 0`, so a missing starting amount becomes 0. */
    method CreateReport(name: string, startDate: Date, endDate: Date, startingAmount: Option<int>)
      returns (report: Report)
      requires Valid()
      modifies this
      ensures Valid()
      ensures report.startingAmount == (if startingAmount.Some? then startingAmount.value else 0)
      ensures report == Report(report.id, name, startDate, endDate, report.startingAmount)
      ensures report.id !in old(reports) && reports == old(reports)[report.id := report]
      ensures categories == old(categories) && records == old(records) && links == old(links)
    {
      report := Report(nextReportId, name, startDate, endDate, if startingAmount.Some? then startingAmount.value else 0);
      reports := reports[report.id := report];
      nextReportId := nextReportId + 1;
    }

    /** PUT /api/reports/:id: name, dates and starting amount replaced; membership untouched. */
    method UpdateReport(id: nat, name: string, startDate: Date, endDate: Date, startingAmount: int)
      returns (res: Result<Report>)
      requires Valid()
      modifies this
      ensures Valid()
      ensures id !in old(reports) ==> res == Err(NotFound) && reports == old(reports)
      ensures id in old(reports) ==>
                res == Ok(Report(id, name, startDate, endDate, startingAmount)) && reports == old(reports)[id := res.value]
      ensures categories == old(categories) && records == old(records) && links == old(links)
    {
      if id !in reports {
        return Err(NotFound);
      }
      var report := Report(id, name, startDate, endDate, startingAmount);
      reports := reports[id := report];
      res := Ok(report);
    }

    /** DELETE /api/reports/:id */
    method DeleteReport(id: nat) returns (res: Result<()>)
      requires Valid()
      modifies this
      ensures Valid()
      ensures res == (if id in old(reports) then Ok(()) else Err(NotFound))
      ensures reports == old(reports) - {id}
      ensures categories == old(categories) && records == old(records) && links == old(links)
    {
      res := if id in reports then Ok(()) else Err(NotFound);
      reports := reports - {id};
    }

    /**
     * POST /api/reports/:id/records: insert the record, then insert its link.
     * The two steps are separate statements: when the record insert fails
     * nothing changes, and when the link insert fails the new record stays,
     * linked to no report. On success report `rid` gains exactly the new
     * record as its last member and every other report is unchanged.
     */
    method AddRecordToReport(rid: nat, amount: int, description: string, kind: string, categoryId: int, date: Date,
                             insertOk: bool, linkOk: bool)
      returns (res: Result<CreatedRecord>)
      requires Valid()
      modifies this
      ensures Valid()
      ensures categories == old(categories) && reports == old(reports)
      ensures !insertOk ==> res == Err(StoreError) && records == old(records) && links == old(links)
      ensures insertOk ==>
                var r := Record(old(nextRecordId), description, amount, kind, date, categoryId, false);
                && r.id !in old(records)
                && records == old(records)[r.id := r]
                && (linkOk ==> links == old(links) + [Link(rid, r.id)]
                               && res == Ok(CreatedRecord(r, CategoryName(CategoryNames(), categoryId)))
                               && MembersOf(rid) == old(MembersOf(rid)) + [r])
                && (!linkOk ==> links == old(links) && res == Err(StoreError))
      ensures forall other :: other != rid ==> MembersOf(other) == old(MembersOf(other))
    {
      if !insertOk {
        return Err(StoreError);
      }
      var r := InsertRecord(description, amount, kind, date, categoryId);
      forall other ensures Members(links, records, other) == old(Members(links, records, other)) {
        UnlinkedRecordInvisible(links, old(records), other, r);
      }
      if !linkOk {
        return Err(StoreError);
      }
      LinkAppendsMember(links, records, rid, r);
      forall other | other != rid ensures Members(links + [Link(rid, r.id)], records, other) == Members(links, records, other) {
        LinkElsewhereInvisible(links, records, rid, other, r.id);
      }
      links := links + [Link(rid, r.id)];
      res := Ok(CreatedRecord(r, CategoryName(CategoryNames(), categoryId)));
    }

    /** GET /api/reports/:id: NotFound for an unknown report, otherwise the view over its current members. */
    function GetReport(id: nat): (res: Result<ReportView>)
      reads this
      ensures res.Err? <==> id !in reports
      ensures res.Err? ==> res.error == NotFound
      ensures res.Ok? ==> res.value == View(reports[id], MembersOf(id), CategoryNames())
      ensures res.Ok? ==> && res.value.summary.report == reports[id]
                          && res.value.summary.totalIncome == TotalIncome(MembersOf(id))
                          && res.value.summary.totalExpense == TotalExpense(MembersOf(id))
                          && res.value.summary.netAmount == NetAmount(MembersOf(id))
                          && res.value.totalBalance == reports[id].startingAmount + res.value.summary.netAmount
                          && |res.value.rows| == |MembersOf(id)|
      ensures res.Ok? ==> forall i :: 0 <= i < |res.value.rows| ==>
                            var m := MembersOf(id)[i];
                            && res.value.rows[i].record == m
                            && res.value.rows[i].categoryName == CategoryName(CategoryNames(), m.categoryId)
                            && res.value.rows[i].runningBalance == RunningBalance(reports[id].startingAmount, MembersOf(id), m.date)
    {
      if id !in reports then Err(NotFound)
      else Ok(View(reports[id], MembersOf(id), CategoryNames()))
    }

    /** GET /api/reports: one summary per report (the created_at ordering is not modelled). */
    function ListReports(): (summaries: map<nat, ReportSummary>)
      reads this
      ensures summaries.Keys == reports.Keys
      ensures forall id :: id in summaries ==>
                && summaries[id].report == reports[id]
                && summaries[id].totalIncome == TotalIncome(MembersOf(id))
                && summaries[id].totalExpense == TotalExpense(MembersOf(id))
                && summaries[id].netAmount == TotalIncome(MembersOf(id)) - TotalExpense(MembersOf(id)) - SumOf(MembersOf(id), OtherAmount)
    {
      forall id | id in reports ensures NetAmount(MembersOf(id)) == TotalIncome(MembersOf(id)) - TotalExpense(MembersOf(id)) - SumOf(MembersOf(id), OtherAmount) {
        NetAmountSplit(MembersOf(id));
      }
      map id | id in reports :: Summarize(reports[id], MembersOf(id))
    }
  }

  // -----------------------------------------------------------------------
  // How the store operations move report membership
  // -----------------------------------------------------------------------

  /** The members with every copy of record `id` taken out. */
  function WithoutRecord(ms: seq<Record>, id: nat): (r: seq<Record>)
    ensures forall x :: x in r <==> x in ms && x.id != id
  {
    if |ms| == 0 then []
    else
      var front := WithoutRecord(ms[..|ms| - 1], id);
      if ms[|ms| - 1].id == id then front else front + [ms[|ms| - 1]]
  }

  /** A record no link points at does not show up in any report. */
  lemma {:induction false} UnlinkedRecordInvisible(links: seq<Link>, records: map<nat, Record>, rid: nat, r: Record)
    requires forall l :: l in links ==> l.recordId != r.id
    ensures Members(links, records[r.id := r], rid) == Members(links, records, rid)
  {
    if |links| > 0 {
      UnlinkedRecordInvisible(links[..|links| - 1], records, rid, r);
    }
  }

  /** Appending a link row from `rid` to a stored record appends that record to the report's members. */
  lemma LinkAppendsMember(links: seq<Link>, records: map<nat, Record>, rid: nat, r: Record)
    requires r.id in records && records[r.id] == r
    ensures Members(links + [Link(rid, r.id)], records, rid) == Members(links, records, rid) + [r]
  {
    assert (links + [Link(rid, r.id)])[..|links|] == links;
  }

  /** A link row of report `rid` does not change any other report. */
  lemma LinkElsewhereInvisible(links: seq<Link>, records: map<nat, Record>, rid: nat, other: nat, id: nat)
    requires other != rid
    ensures Members(links + [Link(rid, id)], records, other) == Members(links, records, other)
  {
    assert (links + [Link(rid, id)])[..|links|] == links;
  }

  /** Deleting a record removes it from every report's members and leaves the others in place. */
  lemma {:induction false} DeleteDropsMember(links: seq<Link>, records: map<nat, Record>, rid: nat, id: nat)
    requires WellKeyed(records)
    ensures Members(links, records - {id}, rid) == WithoutRecord(Members(links, records, rid), id)
  {
    if |links| > 0 {
      var front := links[..|links| - 1];
      DeleteDropsMember(front, records, rid, id);
      var ms := Members(front, records, rid);
      var l := links[|links| - 1];
      if l.reportId == rid && l.recordId in records {
        var ms' := ms + [records[l.recordId]];
        assert ms'[..|ms'| - 1] == ms;
      }
    }
  }

  /** A weighting that does not look at the `settled` column. */
  ghost predicate IgnoresSettled(w: Record -> int) {
    forall r: Record, b: bool :: w(r.(settled := b)) == w(r)
  }

  /** Flipping `settled` on a record leaves every sum over every report's members as it was. */
  lemma {:induction false} SettledLeavesSums(links: seq<Link>, records: map<nat, Record>, rid: nat, id: nat, b: bool,
                                             w: Record -> int)
    requires id in records && IgnoresSettled(w)
    ensures SumOf(Members(links, records[id := records[id].(settled := b)], rid), w)
            == SumOf(Members(links, records, rid), w)
  {
    if |links| > 0 {
      var front := links[..|links| - 1];
      SettledLeavesSums(front, records, rid, id, b, w);
      var records' := records[id := records[id].(settled := b)];
      var l := links[|links| - 1];
      var ms := Members(front, records, rid);
      var ms' := Members(front, records', rid);
      if l.reportId == rid && l.recordId in records {
        var a := ms + [records[l.recordId]];
        var a' := ms' + [records'[l.recordId]];
        assert a[..|a| - 1] == ms && a'[..|a'| - 1] == ms';
        assert w(records'[l.recordId]) == w(records[l.recordId]);
      }
    }
  }

  /** The settled patch moves none of a report's figures. */
  lemma SettledLeavesFigures(links: seq<Link>, records: map<nat, Record>, rid: nat, id: nat, b: bool,
                             startingAmount: int, d: Date)
    requires id in records
    ensures var before := Members(links, records, rid);
            var after := Members(links, records[id := records[id].(settled := b)], rid);
            && TotalIncome(after) == TotalIncome(before)
            && TotalExpense(after) == TotalExpense(before)
            && NetAmount(after) == NetAmount(before)
            && RunningBalance(startingAmount, after, d) == RunningBalance(startingAmount, before, d)
  {
    SettledLeavesSums(links, records, rid, id, b, IncomeAmount);
    SettledLeavesSums(links, records, rid, id, b, ExpenseAmount);
    SettledLeavesSums(links, records, rid, id, b, Signed);
    SettledLeavesSums(links, records, rid, id, b, SignedUpTo(d));
  }
}
