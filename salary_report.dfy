/**
 * The salary report (report.controller.js): the records of one calendar
 * month are summed per worker by the store's aggregation pipeline, joined
 * with the worker's details, ordered by worker code and turned into one
 * salary row per worker.
 */
module SalaryReport {
  import opened Sorting
  import opened Ledger
  import opened ReportQuery
  import opened ReportGroups
  import opened Reports

  /** The details of a worker that the `$lookup` joins in. */
  datatype Worker = Worker(name: string, workerCode: string, workerType: string)

  /** A month of a year; `month` counts from 0 as JavaScript's `Date` does. */
  datatype YearMonth = YearMonth(year: int, month: int)

  /** `new Date(year, …)` reads a year from 0 to 99 as 1900 plus that year. */
  function DateYear(year: int): (y: int)
    ensures 0 <= year <= 99 ==> y == 1900 + year
    ensures !(0 <= year <= 99) ==> y == year
  {
    if 0 <= year <= 99 then 1900 + year else year
  }

  /**
   * The month reported on: `month` (1-based) and `year` when supplied, the
   * current ones otherwise.  `new Date(year, month)` reads a two-digit year
   * as a year of the 1900s and carries a month outside 0..11 into the year.
   */
  function TargetMonth(month: Option<int>, year: Option<int>, now: YearMonth): (t: YearMonth)
    ensures 0 <= t.month < 12
    ensures 12 * t.year + t.month ==
              12 * DateYear(if year.Some? then year.value else now.year)
              + (if month.Some? then month.value - 1 else now.month)
    ensures month.Some? && 1 <= month.value <= 12 && year.Some? ==>
              t == YearMonth(DateYear(year.value), month.value - 1)
    ensures month.Some? && 1 <= month.value <= 12 && year.Some? && year.value >= 100 ==>
              t == YearMonth(year.value, month.value - 1)
  {
    var y := DateYear(if year.Some? then year.value else now.year);
    var m := if month.Some? then month.value - 1 else now.month;
    YearMonth(y + m / 12, m % 12)
  }

  /** The `$match` stage: a record dated within the month, both ends included. */
  predicate InMonth(e: Entry, monthStart: Timestamp, monthEnd: Timestamp)
  {
    e.date.Some? && monthStart <= e.date.value <= monthEnd
  }

  /** The records the `$match` stage passes on, in store order. */
  function InWindow(s: seq<Entry>, monthStart: Timestamp, monthEnd: Timestamp): seq<Entry>
  {
    if s == [] then []
    else if InMonth(s[0], monthStart, monthEnd) then [s[0]] + InWindow(s[1..], monthStart, monthEnd)
    else InWindow(s[1..], monthStart, monthEnd)
  }

  lemma {:induction false} InWindowMembers(s: seq<Entry>, monthStart: Timestamp, monthEnd: Timestamp)
    decreases |s|
    ensures forall e :: e in InWindow(s, monthStart, monthEnd) <==> e in s && InMonth(e, monthStart, monthEnd)
  {
    if s != [] {
      InWindowMembers(s[1..], monthStart, monthEnd);
      assert s == [s[0]] + s[1..];
    }
  }

  /** `$sum` of `$cond: [{ $eq: ['$shift', shift] }, '$metersProduced', 0]` */
  function ShiftMeters(s: seq<Entry>, shift: string): real
  {
    if s == [] then 0.0
    else (if s[0].shift == shift then s[0].metersProduced else 0.0) + ShiftMeters(s[1..], shift)
  }

  /**
   * Day and night meters make up all the meters when every record is of one
   * of the two shifts; a record of any other shift counts in neither.
   */
  lemma {:induction false} ShiftSplit(s: seq<Entry>)
    decreases |s|
    ensures (forall e :: e in s ==> e.shift == DayShift || e.shift == NightShift) ==>
              ShiftMeters(s, DayShift) + ShiftMeters(s, NightShift) == SumMeters(s)
  {
    if s != [] {
      assert forall e :: e in s[1..] ==> e in s;
      ShiftSplit(s[1..]);
    }
  }

  /** One `$group` document after `$project`: a worker's figures for the month. */
  datatype Summary = Summary(worker: Id, totalMeters: real, totalEarnings: real,
                             dayShiftMeters: real, nightShiftMeters: real, workingDays: nat)

  /**
   * The figures of worker `w` over the records `m` of the month;
   * `workingDays` is the size of the set of the record's `%Y-%m-%d` dates.
   */
  function SummaryOf(m: seq<Entry>, w: Id): (r: Summary)
    ensures r.worker == w
    ensures r.workingDays == 0 <==> forall e :: e in m && e.worker == w ==> e.date.None?
    ensures (forall e :: e in m && e.worker == w ==> e.shift == DayShift || e.shift == NightShift) ==>
              r.dayShiftMeters + r.nightShiftMeters == r.totalMeters
  {
    var own := Members(m, ByWorker, w);
    MembersMembers(m, ByWorker, w);
    ShiftSplit(own);
    ProductionDaysEmpty(own);
    Summary(w, SumMeters(own), SumEarnings(own), ShiftMeters(own, DayShift), ShiftMeters(own, NightShift),
            |ProductionDays(own)|)
  }

  /** A summary after `$lookup` and `$unwind`: with the worker's details. */
  datatype Joined = Joined(summary: Summary, worker: Worker)

  /** The `$unwind` of the `$lookup`: a group whose worker is not found is dropped. */
  function Looked(ks: seq<Id>, m: seq<Entry>, workers: map<Id, Worker>): seq<Joined>
  {
    if ks == [] then []
    else (if ks[0] in workers then [Joined(SummaryOf(m, ks[0]), workers[ks[0]])] else [])
         + Looked(ks[1..], m, workers)
  }

  lemma {:induction false} LookedMembers(ks: seq<Id>, m: seq<Entry>, workers: map<Id, Worker>)
    decreases |ks|
    ensures forall j :: j in Looked(ks, m, workers) <==>
              var w := j.summary.worker;
              w in ks && w in workers && j == Joined(SummaryOf(m, w), workers[w])
  {
    if ks != [] {
      LookedMembers(ks[1..], m, workers);
      assert ks == [ks[0]] + ks[1..];
    }
  }

  /** The ids of a list of joined summaries. */
  ghost predicate DistinctWorkers(js: seq<Joined>)
  {
    forall i, j :: 0 <= i < j < |js| ==> js[i].summary.worker != js[j].summary.worker
  }

  lemma {:induction false} LookedDistinct(ks: seq<Id>, m: seq<Entry>, workers: map<Id, Worker>)
    decreases |ks|
    requires forall i, j :: 0 <= i < j < |ks| ==> ks[i] != ks[j]
    ensures DistinctWorkers(Looked(ks, m, workers))
  {
    if ks != [] {
      var tail := ks[1..];
      assert forall i, j :: 0 <= i < j < |tail| ==> tail[i] != tail[j] by {
        forall i, j | 0 <= i < j < |tail| ensures tail[i] != tail[j] {
          assert tail[i] == ks[i + 1] && tail[j] == ks[j + 1];
        }
      }
      LookedDistinct(tail, m, workers);
      LookedMembers(tail, m, workers);
      forall k | 0 <= k < |tail| ensures tail[k] != ks[0] {
        assert tail[k] == ks[k + 1];
      }
      var rest := Looked(tail, m, workers);
      if ks[0] in workers {
        var j := Joined(SummaryOf(m, ks[0]), workers[ks[0]]);
        forall x | x in rest ensures x.summary.worker != j.summary.worker {
          assert x.summary.worker in tail;
        }
        DistinctWorkersCons(j, rest);
      } else {
        assert Looked(ks, m, workers) == [] + rest;
      }
    }
  }

  lemma DistinctWorkersCons(j: Joined, rest: seq<Joined>)
    requires DistinctWorkers(rest) && forall x :: x in rest ==> x.summary.worker != j.summary.worker
    ensures DistinctWorkers([j] + rest)
  {
    var l := [j] + rest;
    forall a, b | 0 <= a < b < |l| ensures l[a].summary.worker != l[b].summary.worker {
      if a == 0 {
        assert l[b] == rest[b - 1];
      } else {
        assert l[a] == rest[a - 1] && l[b] == rest[b - 1];
      }
    }
  }

  /** The `$sort` on `worker.workerCode`, ascending. */
  predicate CodeBefore(a: Joined, b: Joined)
  {
    StringLess(a.worker.workerCode, b.worker.workerCode)
  }

  /** Strings compared character by character; a proper prefix comes first. */
  predicate StringLess(a: string, b: string)
    decreases |a|
  {
    if a == [] then b != []
    else if b == [] then false
    else a[0] < b[0] || (a[0] == b[0] && StringLess(a[1..], b[1..]))
  }

  lemma {:induction false} StringLessIrreflexive(a: string)
    decreases |a|
    ensures !StringLess(a, a)
  {
    if a != [] {
      StringLessIrreflexive(a[1..]);
    }
  }

  lemma {:induction false} StringLessTransitive(a: string, b: string, c: string)
    decreases |a|
    requires StringLess(a, b) && StringLess(b, c)
    ensures StringLess(a, c)
  {
    if a != [] && a[0] == b[0] && b[0] == c[0] {
      StringLessTransitive(a[1..], b[1..], c[1..]);
    }
  }

  lemma CodeOrderIsStrict()
    ensures StrictOrder(CodeBefore)
  {
    forall a: Joined ensures !CodeBefore(a, a) {
      StringLessIrreflexive(a.worker.workerCode);
    }
    forall a: Joined, b: Joined, c: Joined | CodeBefore(a, b) && CodeBefore(b, c) ensures CodeBefore(a, c) {
      StringLessTransitive(a.worker.workerCode, b.worker.workerCode, c.worker.workerCode);
    }
  }

  /** What the aggregation pipeline returns for the month from `monthStart` to `monthEnd`. */
  function SalaryData(s: seq<Entry>, monthStart: Timestamp, monthEnd: Timestamp, workers: map<Id, Worker>)
    : (d: seq<Joined>)
    ensures Sorted(d, CodeBefore)
  {
    var m := InWindow(s, monthStart, monthEnd);
    CodeOrderIsStrict();
    InsertionSortSorted(Looked(Keys(m, ByWorker), m, workers), CodeBefore);
    InsertionSort(Looked(Keys(m, ByWorker), m, workers), CodeBefore)
  }

  /**
   * A document of the pipeline is the joined summary of a worker that
   * exists and has a record in the month, and each such worker has one.
   */
  lemma SalaryDataMembers(s: seq<Entry>, monthStart: Timestamp, monthEnd: Timestamp, workers: map<Id, Worker>,
                          j: Joined)
    ensures j in SalaryData(s, monthStart, monthEnd, workers) <==>
      var w := j.summary.worker;
      && w in workers
      && (exists e :: e in s && InMonth(e, monthStart, monthEnd) && e.worker == w)
      && j == Joined(SummaryOf(InWindow(s, monthStart, monthEnd), w), workers[w])
  {
    var m := InWindow(s, monthStart, monthEnd);
    var l := Looked(Keys(m, ByWorker), m, workers);
    LookedMembers(Keys(m, ByWorker), m, workers);
    KeysMembers(m, ByWorker);
    InWindowMembers(s, monthStart, monthEnd);
    assert j in SalaryData(s, monthStart, monthEnd, workers) <==> j in multiset(InsertionSort(l, CodeBefore));
    assert j in l <==> j in multiset(l);
  }

  /** The pipeline yields at most one document per worker. */
  lemma SalaryDataDistinct(s: seq<Entry>, monthStart: Timestamp, monthEnd: Timestamp, workers: map<Id, Worker>)
    ensures DistinctWorkers(SalaryData(s, monthStart, monthEnd, workers))
  {
    var m := InWindow(s, monthStart, monthEnd);
    var ks := Keys(m, ByWorker);
    var l := Looked(ks, m, workers);
    var d := SalaryData(s, monthStart, monthEnd, workers);
    KeysDistinct(m, ByWorker);
    LookedDistinct(ks, m, workers);
    SortDistinct(l, CodeBefore);
    LookedMembers(ks, m, workers);
    forall i, j | 0 <= i < j < |d| ensures d[i].summary.worker != d[j].summary.worker {
      assert d[i] in multiset(d) && d[j] in multiset(d);
      assert d[i] in l && d[j] in l;
    }
  }

  /** The client's worker fields of a row. */
  datatype WorkerRef = WorkerRef(id: Id, name: string, workerCode: string, workerType: string)

  /** One row of the salary report; `|| 0` leaves the numbers as they are. */
  datatype SalaryRow = SalaryRow(worker: WorkerRef, workingDays: nat, totalMeters: real,
                                 productionEarnings: real, totalSalary: real)

  function SalaryRowOf(j: Joined): SalaryRow
  {
    SalaryRow(WorkerRef(j.summary.worker, j.worker.name, j.worker.workerCode, j.worker.workerType),
              j.summary.workingDays, j.summary.totalMeters, j.summary.totalEarnings, j.summary.totalEarnings)
  }

  /** `getSalaryReport` for the month from `monthStart` to `monthEnd`. */
  function SalaryRows(s: seq<Entry>, monthStart: Timestamp, monthEnd: Timestamp, workers: map<Id, Worker>)
    : (rows: seq<SalaryRow>)
    ensures |rows| == |SalaryData(s, monthStart, monthEnd, workers)|
  {
    var d := SalaryData(s, monthStart, monthEnd, workers);
    seq(|d|, i requires 0 <= i < |d| => SalaryRowOf(d[i]))
  }

  /**
   * `getSalaryReport` for the `month` and `year` of the request;
   * `monthWindow` gives the first and last instant of a month in the
   * server's time zone.
   */
  function GetSalaryReport(s: seq<Entry>, workers: map<Id, Worker>, month: Option<int>, year: Option<int>,
                           now: YearMonth, monthWindow: YearMonth -> (Timestamp, Timestamp)): (rows: seq<SalaryRow>)
    ensures forall i :: 0 <= i < |rows| ==> rows[i].worker.id in workers
    ensures forall i, j :: 0 <= i < j < |rows| ==> rows[i].worker.id != rows[j].worker.id
    ensures forall i, j :: 0 <= i < j < |rows| ==> !StringLess(rows[j].worker.workerCode, rows[i].worker.workerCode)
  {
    var window := monthWindow(TargetMonth(month, year, now));
    SalaryRowsResolved(s, window.0, window.1, workers);
    SalaryRowsWorkers(s, window.0, window.1, workers, "");
    SalaryRowsByCode(s, window.0, window.1, workers);
    SalaryRows(s, window.0, window.1, workers)
  }

  /** The records of worker `w` in the month, in store order. */
  function WorkerMonth(s: seq<Entry>, monthStart: Timestamp, monthEnd: Timestamp, w: Id): seq<Entry>
  {
    Members(InWindow(s, monthStart, monthEnd), ByWorker, w)
  }

  lemma WorkerMonthMembers(s: seq<Entry>, monthStart: Timestamp, monthEnd: Timestamp, w: Id)
    ensures forall e :: e in WorkerMonth(s, monthStart, monthEnd, w) <==>
              e in s && InMonth(e, monthStart, monthEnd) && e.worker == w
  {
    InWindowMembers(s, monthStart, monthEnd);
    MembersMembers(InWindow(s, monthStart, monthEnd), ByWorker, w);
  }

  /** Workers that do not resolve get no row. */
  lemma SalaryRowsResolved(s: seq<Entry>, monthStart: Timestamp, monthEnd: Timestamp, workers: map<Id, Worker>)
    ensures var rows := SalaryRows(s, monthStart, monthEnd, workers);
      forall i :: 0 <= i < |rows| ==> rows[i].worker.id in workers
  {
    var rows := SalaryRows(s, monthStart, monthEnd, workers);
    forall i | 0 <= i < |rows| ensures rows[i].worker.id in workers {
      SalaryRowsWorkers(s, monthStart, monthEnd, workers, rows[i].worker.id);
    }
  }

  /** The rows are in ascending order of worker code. */
  lemma SalaryRowsByCode(s: seq<Entry>, monthStart: Timestamp, monthEnd: Timestamp, workers: map<Id, Worker>)
    ensures var rows := SalaryRows(s, monthStart, monthEnd, workers);
      forall i, j :: 0 <= i < j < |rows| ==> !StringLess(rows[j].worker.workerCode, rows[i].worker.workerCode)
  {
    var m := InWindow(s, monthStart, monthEnd);
    CodeOrderIsStrict();
    InsertionSortSorted(Looked(Keys(m, ByWorker), m, workers), CodeBefore);
  }

  /**
   * A worker has a row exactly when the worker exists and has a record in
   * the month, and no worker has two rows.
   */
  lemma SalaryRowsWorkers(s: seq<Entry>, monthStart: Timestamp, monthEnd: Timestamp, workers: map<Id, Worker>,
                          w: Id)
    ensures var rows := SalaryRows(s, monthStart, monthEnd, workers);
      (exists i :: 0 <= i < |rows| && rows[i].worker.id == w) <==>
        w in workers && exists e :: e in s && InMonth(e, monthStart, monthEnd) && e.worker == w
    ensures var rows := SalaryRows(s, monthStart, monthEnd, workers);
      forall i, j :: 0 <= i < j < |rows| ==> rows[i].worker.id != rows[j].worker.id
  {
    var d := SalaryData(s, monthStart, monthEnd, workers);
    var rows := SalaryRows(s, monthStart, monthEnd, workers);
    SalaryDataDistinct(s, monthStart, monthEnd, workers);
    if exists i :: 0 <= i < |rows| && rows[i].worker.id == w {
      var i :| 0 <= i < |rows| && rows[i].worker.id == w;
      SalaryDataMembers(s, monthStart, monthEnd, workers, d[i]);
    }
    if w in workers && exists e :: e in s && InMonth(e, monthStart, monthEnd) && e.worker == w {
      var j := Joined(SummaryOf(InWindow(s, monthStart, monthEnd), w), workers[w]);
      SalaryDataMembers(s, monthStart, monthEnd, workers, j);
      var i :| 0 <= i < |d| && d[i] == j;
      assert rows[i].worker.id == w;
    }
  }

  /**
   * Each row carries its worker's details and the figures of the worker's
   * records in the month: their meters, their earnings as both production
   * earnings and total salary, and the number of distinct days among them,
   * which is at least one, at most the number of records and at most the
   * number of calendar days the month spans.
   */
  lemma SalaryRowFigures(s: seq<Entry>, monthStart: Timestamp, monthEnd: Timestamp, workers: map<Id, Worker>,
                         i: int)
    requires 0 <= i < |SalaryRows(s, monthStart, monthEnd, workers)|
    ensures var r := SalaryRows(s, monthStart, monthEnd, workers)[i];
      var w := r.worker.id;
      var own := WorkerMonth(s, monthStart, monthEnd, w);
      && w in workers
      && r.worker == WorkerRef(w, workers[w].name, workers[w].workerCode, workers[w].workerType)
      && r.totalMeters == SumMeters(own)
      && r.productionEarnings == r.totalSalary == SumEarnings(own)
      && r.workingDays == |ProductionDays(own)|
      && 1 <= r.workingDays <= |own|
      && r.workingDays <= DayOf(monthEnd) - DayOf(monthStart) + 1
  {
    var d := SalaryData(s, monthStart, monthEnd, workers);
    SalaryDataMembers(s, monthStart, monthEnd, workers, d[i]);
    var w := d[i].summary.worker;
    var own := WorkerMonth(s, monthStart, monthEnd, w);
    WorkerMonthMembers(s, monthStart, monthEnd, w);
    ProductionDaysAtMost(own);
    ProductionDaysEmpty(own);
    ProductionDaysWithin(own, monthStart, monthEnd);
    var e :| e in s && InMonth(e, monthStart, monthEnd) && e.worker == w;
    assert e in own;
    DayOfMonotone(monthStart, monthEnd);
    IntervalBound(ProductionDays(own), DayOf(monthStart), DayOf(monthEnd));
  }
}
