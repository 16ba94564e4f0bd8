/**
 * The filters of the worker and machine reports (report.controller.js): a
 * query is built from the request parameters, one condition per parameter
 * that was supplied, and the store returns the matching records newest
 * first.
 */
module ReportQuery {
  import opened Sorting
  import opened Ledger

  /** Which populated reference a report groups by. */
  datatype GroupBy = ByWorker | ByMachine

  function Key(e: Entry, kind: GroupBy): Id
  {
    match kind
    case ByWorker => e.worker
    case ByMachine => e.machine
  }

  /**
   * The request parameters: `id` is the worker (or machine) id and `shift`
   * the shift, each "" when not supplied; a date is None when not supplied.
   */
  datatype Params = Params(id: Id, startDate: Option<Timestamp>, endDate: Option<Timestamp>, shift: string)

  /** The query object: one optional condition per field. */
  datatype Query = Query(key: Option<Id>, dateRange: Option<(Timestamp, Timestamp)>, shift: Option<string>)

  /** The `query` object built field by field from the parameters. */
  function QueryOf(p: Params): (q: Query)
    ensures q.key.Some? <==> p.id != ""
    ensures q.dateRange.Some? <==> p.startDate.Some? && p.endDate.Some?
    ensures q.shift.Some? <==> p.shift != ""
  {
    Query(if p.id != "" then Some(p.id) else None,
          if p.startDate.Some? && p.endDate.Some? then Some((p.startDate.value, p.endDate.value)) else None,
          if p.shift != "" then Some(p.shift) else None)
  }

  /** A record satisfies every condition of the query; a date range excludes records without a date. */
  predicate Matches(e: Entry, kind: GroupBy, q: Query)
  {
    && (q.key.Some? ==> Key(e, kind) == q.key.value)
    && (q.dateRange.Some? ==>
          e.date.Some? && q.dateRange.value.0 <= e.date.value <= q.dateRange.value.1)
    && (q.shift.Some? ==> e.shift == q.shift.value)
  }

  /** `Production.find(query)`, in store order. */
  function Find(s: seq<Entry>, kind: GroupBy, q: Query): seq<Entry>
  {
    if s == [] then []
    else if Matches(s[0], kind, q) then [s[0]] + Find(s[1..], kind, q)
    else Find(s[1..], kind, q)
  }

  lemma {:induction false} FindMembers(s: seq<Entry>, kind: GroupBy, q: Query)
    decreases |s|
    ensures forall e :: e in Find(s, kind, q) <==> e in s && Matches(e, kind, q)
  {
    if s != [] {
      FindMembers(s[1..], kind, q);
      assert s == [s[0]] + s[1..];
    }
  }

  /**
   * The records a report reads: those of the store that satisfy the
   * conditions of the supplied parameters, and only those.  The date range is
   * inclusive on both ends and applies only when both dates are supplied.
   */
  lemma ReportRecordsMatch(s: seq<Entry>, kind: GroupBy, p: Params, e: Entry)
    ensures e in ByDateDescending(Find(s, kind, QueryOf(p))) <==>
      && e in s
      && (p.id != "" ==> Key(e, kind) == p.id)
      && (p.startDate.Some? && p.endDate.Some? ==>
            e.date.Some? && p.startDate.value <= e.date.value <= p.endDate.value)
      && (p.shift != "" ==> e.shift == p.shift)
  {
    var f := Find(s, kind, QueryOf(p));
    FindMembers(s, kind, QueryOf(p));
    assert e in ByDateDescending(f) <==> e in multiset(ByDateDescending(f));
    assert e in f <==> e in multiset(f);
  }

  /** The report's records come newest first; records of the same date keep store order. */
  lemma ReportRecordsNewestFirst(s: seq<Entry>, kind: GroupBy, q: Query)
    ensures Sorted(ByDateDescending(Find(s, kind, q)), LaterThan)
  {
    DateOrdersAreStrict();
    InsertionSortSorted(Find(s, kind, q), LaterThan);
  }

  /** `Math.ceil((end - start) / (1000 * 60 * 60 * 24)) + 1` */
  function DaysInRange(start: Timestamp, end: Timestamp): (n: int)
    ensures (n - 2) * MsPerDay < end - start <= (n - 1) * MsPerDay
  {
    -((start - end) / MsPerDay) + 1
  }

  /** Every calendar day from the start's to the end's is counted in the range. */
  lemma DaysInRangeCoversDays(start: Timestamp, end: Timestamp)
    requires start <= end
    ensures DayOf(end) - DayOf(start) + 1 <= DaysInRange(start, end)
  {
    var n := DaysInRange(start, end);
    assert DayOf(start) * MsPerDay <= start;
    assert end < (DayOf(end) + 1) * MsPerDay;
    assert (DayOf(end) - DayOf(start) - 1) * MsPerDay < end - start;
  }
}
