/**
 * The data behind a PDF report (report.controller.js, `generatePDFReport`):
 * the rows the client posted, or, when it posted none, the rows the server
 * computes itself for the worker, machine or salary report.  Laying the rows
 * out on the page is not part of this model.
 */
module PdfReport {
  import opened Ledger
  import opened Store
  import opened ReportQuery
  import opened ReportGroups
  import opened Reports
  import opened SalaryReport

  /**
   * The `data` field of the request, as far as the fallback looks at it: a
   * falsy value (missing, null, ...), an array of some length, or anything
   * else.
   */
  datatype Posted = Falsy | List(length: nat) | OtherValue

  /** `!reportData || (Array.isArray(reportData) && reportData.length === 0)` */
  predicate NeedsFallback(d: Posted)
  {
    d.Falsy? || (d.List? && d.length == 0)
  }

  /**
   * The request body; "" and None stand for fields that are not supplied.
   * `month` and `year` are None for every falsy body value (a missing field,
   * "", or the number 0), as `month ? parseInt(month) - 1 : …` treats them.
   */
  datatype PdfRequest = PdfRequest(reportType: string, data: Posted,
                                   startDate: Option<Timestamp>, endDate: Option<Timestamp>,
                                   workerId: Id, machineId: Id, month: Option<int>, year: Option<int>)

  /** A group of the fallback worker or machine data: only meter and earning totals. */
  datatype BriefGroup = BriefGroup(key: Id, productions: seq<Entry>, meters: real, earnings: real)

  function Brief(g: Group): BriefGroup
  {
    BriefGroup(g.key, g.productions, g.totals.meters, g.totals.earnings)
  }

  function Briefs(gs: seq<Group>): (b: seq<BriefGroup>)
    ensures |b| == |gs|
    ensures forall i :: 0 <= i < |gs| ==> b[i].key == gs[i].key && b[i].productions == gs[i].productions
  {
    seq(|gs|, i requires 0 <= i < |gs| => Brief(gs[i]))
  }

  /** The fallback salary data: a worker's details and four of the pipeline's figures. */
  datatype Metrics = Metrics(totalMeters: real, dayShiftMeters: real, nightShiftMeters: real, totalEarnings: real)

  datatype MetricsRow = MetricsRow(worker: WorkerRef, metrics: Metrics)

  function MetricsRowOf(j: Joined): MetricsRow
  {
    MetricsRow(WorkerRef(j.summary.worker, j.worker.name, j.worker.workerCode, j.worker.workerType),
               Metrics(j.summary.totalMeters, j.summary.dayShiftMeters, j.summary.nightShiftMeters,
                       j.summary.totalEarnings))
  }

  function MetricsRows(d: seq<Joined>): (rows: seq<MetricsRow>)
    ensures |rows| == |d|
  {
    seq(|d|, i requires 0 <= i < |d| => MetricsRowOf(d[i]))
  }

  /** What the PDF is drawn from. */
  datatype ReportData =
    | AsPosted(posted: Posted)
    | WorkerGroups(groups: seq<BriefGroup>)
    | MachineGroups(groups: seq<BriefGroup>)
    | SalaryMetrics(rows: seq<MetricsRow>)

  /** The fallback's query: the id and the date range, never a shift. */
  function FallbackParams(id: Id, req: PdfRequest): (p: Params)
    ensures p.shift == "" && p.id == id && p.startDate == req.startDate && p.endDate == req.endDate
  {
    Params(id, req.startDate, req.endDate, "")
  }

  /**
   * The fallback grouping of the worker and machine branches: the groups of
   * the report, with only their meter and earning totals.
   */
  method BriefGroups(productions: seq<Entry>, kind: GroupBy, resolved: set<Id>)
    returns (r: Response<seq<BriefGroup>>)
    ensures r.ServerError? <==> exists e :: e in productions && Key(e, kind) !in resolved
    ensures r.Ok? ==> r.value == Briefs(Grouped(productions, kind))
  {
    var grouped := GroupRecords(productions, kind, resolved);
    if grouped.ServerError? {
      return ServerError;
    }
    return Ok(Briefs(grouped.value));
  }

  /**
   * The data of `generatePDFReport`: what the client posted, unless that is
   * falsy or an empty array and the report type is one the server computes.
   * `monthWindow` gives the first and last instant of a month in the
   * server's time zone.
   */
  method PdfData(store: ProductionStore, workers: map<Id, Worker>, machines: set<Id>, req: PdfRequest,
                 now: YearMonth, monthWindow: YearMonth -> (Timestamp, Timestamp))
    returns (r: Response<ReportData>)
    ensures !NeedsFallback(req.data) ==> r == Ok(AsPosted(req.data))
    ensures NeedsFallback(req.data) && req.reportType == "worker" ==>
      var recs := ReportRecords(store.records, ByWorker, FallbackParams(req.workerId, req));
      && (r.ServerError? <==> exists e :: e in recs && e.worker !in workers)
      && (r.Ok? ==> r.value == WorkerGroups(Briefs(Grouped(recs, ByWorker))))
    ensures NeedsFallback(req.data) && req.reportType == "machine" ==>
      var recs := ReportRecords(store.records, ByMachine, FallbackParams(req.machineId, req));
      && (r.ServerError? <==> exists e :: e in recs && e.machine !in machines)
      && (r.Ok? ==> r.value == MachineGroups(Briefs(Grouped(recs, ByMachine))))
    ensures NeedsFallback(req.data) && req.reportType == "salary" ==>
      var window := monthWindow(TargetMonth(req.month, req.year, now));
      r == Ok(SalaryMetrics(MetricsRows(SalaryData(store.records, window.0, window.1, workers))))
    ensures NeedsFallback(req.data) && req.reportType !in {"worker", "machine", "salary"} ==>
      r == Ok(AsPosted(req.data))
  {
    if !NeedsFallback(req.data) {
      return Ok(AsPosted(req.data));
    }
    if req.reportType == "worker" {
      var productions := ByDateDescending(Find(store.records, ByWorker, QueryOf(FallbackParams(req.workerId, req))));
      var groups := BriefGroups(productions, ByWorker, workers.Keys);
      r := if groups.Ok? then Ok(WorkerGroups(groups.value)) else ServerError;
    } else if req.reportType == "machine" {
      var productions := ByDateDescending(Find(store.records, ByMachine, QueryOf(FallbackParams(req.machineId, req))));
      var groups := BriefGroups(productions, ByMachine, machines);
      r := if groups.Ok? then Ok(MachineGroups(groups.value)) else ServerError;
    } else if req.reportType == "salary" {
      var window := monthWindow(TargetMonth(req.month, req.year, now));
      r := Ok(SalaryMetrics(MetricsRows(SalaryData(store.records, window.0, window.1, workers))));
    } else {
      r := Ok(AsPosted(req.data));
    }
  }

  /** The totals of a fallback group are the sums over its records. */
  lemma BriefTotals(s: seq<Entry>, kind: GroupBy, i: int)
    requires 0 <= i < |Briefs(Grouped(s, kind))|
    ensures var b := Briefs(Grouped(s, kind))[i];
      b.meters == SumMeters(b.productions) && b.earnings == SumEarnings(b.productions)
  {
    GroupTotals(s, kind, i);
  }

  /**
   * The fallback salary data lists the same workers in the same order as the
   * salary report for the same month, with the same meters and with the
   * report's salary as its earnings; its day and night meters are the
   * worker's meters in each of the two shifts.
   */
  lemma SalaryMetricsAgree(s: seq<Entry>, monthStart: Timestamp, monthEnd: Timestamp, workers: map<Id, Worker>,
                           i: int)
    requires 0 <= i < |SalaryRows(s, monthStart, monthEnd, workers)|
    ensures |MetricsRows(SalaryData(s, monthStart, monthEnd, workers))| == |SalaryRows(s, monthStart, monthEnd, workers)|
    ensures var m := MetricsRows(SalaryData(s, monthStart, monthEnd, workers))[i];
      var r := SalaryRows(s, monthStart, monthEnd, workers)[i];
      var own := WorkerMonth(s, monthStart, monthEnd, r.worker.id);
      && m.worker == r.worker
      && m.metrics.totalMeters == r.totalMeters
      && m.metrics.totalEarnings == r.totalSalary
      && m.metrics.dayShiftMeters == ShiftMeters(own, DayShift)
      && m.metrics.nightShiftMeters == ShiftMeters(own, NightShift)
  {
    var d := SalaryData(s, monthStart, monthEnd, workers);
    SalaryDataMembers(s, monthStart, monthEnd, workers, d[i]);
  }
}
