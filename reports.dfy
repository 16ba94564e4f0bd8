/**
 * The worker and machine reports (report.controller.js): the store is
 * queried with the request's filters, newest record first, and the records
 * are grouped by worker or by machine.  The machine report also rates each
 * machine's utilization: the share of the days in the requested range on
 * which it produced anything.
 */
module Reports {
  import opened Ledger
  import opened Store
  import opened ReportQuery
  import opened ReportGroups

  /** `Production.find(query).sort({ date: -1 })` */
  function ReportRecords(s: seq<Entry>, kind: GroupBy, p: Params): seq<Entry>
  {
    ByDateDescending(Find(s, kind, QueryOf(p)))
  }

  /**
   * `getWorkerReport`: the groups of the matching records by worker, or a
   * server error when a matching record's worker is not among `workers`.
   */
  method GetWorkerReport(store: ProductionStore, workers: set<Id>, p: Params)
    returns (r: Response<seq<Group>>)
    ensures r.ServerError? <==>
              exists e :: e in ReportRecords(store.records, ByWorker, p) && e.worker !in workers
    ensures r.Ok? ==> r.value == Grouped(ReportRecords(store.records, ByWorker, p), ByWorker)
  {
    var productions := ByDateDescending(Find(store.records, ByWorker, QueryOf(p)));
    r := GroupRecords(productions, ByWorker, workers);
  }

  // ---------------------------------------------------------------------------
  // Utilization

  /** The calendar days on which the records were produced (records without a date add none). */
  function ProductionDays(s: seq<Entry>): set<int>
  {
    if s == [] then {}
    else
      var e := s[|s| - 1];
      ProductionDays(s[..|s| - 1]) + DayOfRecord(e)
  }

  /** The day a record was produced on, if it has a date. */
  function DayOfRecord(e: Entry): set<int>
  {
    if e.date.Some? then {DayOf(e.date.value)} else {}
  }

  lemma ProductionDaysSnoc(s: seq<Entry>, e: Entry)
    ensures ProductionDays(s + [e]) == ProductionDays(s) + DayOfRecord(e)
  {
    assert (s + [e])[..|s + [e]| - 1] == s;
  }

  lemma {:induction false} ProductionDaysWithin(s: seq<Entry>, start: Timestamp, end: Timestamp)
    decreases |s|
    requires forall e :: e in s && e.date.Some? ==> start <= e.date.value <= end
    ensures forall d :: d in ProductionDays(s) ==> DayOf(start) <= d <= DayOf(end)
    ensures start > end ==> ProductionDays(s) == {}
  {
    if s != [] {
      var e := s[|s| - 1];
      assert e in s;
      forall x | x in s[..|s| - 1] ensures x in s {
        var k :| 0 <= k < |s| - 1 && s[..|s| - 1][k] == x;
        assert s[k] == x;
      }
      ProductionDaysWithin(s[..|s| - 1], start, end);
      if e.date.Some? {
        DayOfMonotone(start, e.date.value);
        DayOfMonotone(e.date.value, end);
      }
    }
  }

  /** A group has production days exactly when one of its records has a date. */
  lemma {:induction false} ProductionDaysEmpty(s: seq<Entry>)
    decreases |s|
    ensures ProductionDays(s) == {} <==> forall e :: e in s ==> e.date.None?
  {
    if s != [] {
      ProductionDaysEmpty(s[..|s| - 1]);
      assert s == s[..|s| - 1] + [s[|s| - 1]];
    }
  }

  /** No more production days than records. */
  lemma {:induction false} ProductionDaysAtMost(s: seq<Entry>)
    decreases |s|
    ensures |ProductionDays(s)| <= |s|
  {
    if s != [] {
      ProductionDaysAtMost(s[..|s| - 1]);
    }
  }

  lemma DayOfMonotone(a: Timestamp, b: Timestamp)
    requires a <= b
    ensures DayOf(a) <= DayOf(b)
  {
  }

  /** A set of integers between `lo` and `hi` has at most `hi - lo + 1` elements. */
  lemma {:induction false} IntervalBound(d: set<int>, lo: int, hi: int)
    decreases hi - lo
    requires forall x :: x in d ==> lo <= x <= hi
    ensures |d| <= if lo <= hi then hi - lo + 1 else 0
  {
    if lo > hi {
      assert forall x :: x !in d;
      assert d == {};
    } else {
      IntervalBound(d - {hi}, lo, hi - 1);
    }
  }

  /** `Number(x.toFixed(1))` for a non-negative `x`: rounded to tenths, halves up. */
  function RoundTenth(x: real): real
  {
    ((x * 10.0 + 0.5).Floor as real) / 10.0
  }

  /** Rounding to tenths moves a value by at most half a tenth, halves going up. */
  lemma RoundTenthClose(x: real)
    ensures x - 0.05 < RoundTenth(x) <= x + 0.05
  {
    var f := (x * 10.0 + 0.5).Floor;
    assert f as real <= x * 10.0 + 0.5 < f as real + 1.0;
  }

  /** Rounding keeps a percentage between 0 and 100, and 0 and 100 as they are. */
  lemma RoundTenthBounds(x: real)
    ensures 0.0 <= x <= 100.0 ==> 0.0 <= RoundTenth(x) <= 100.0
    ensures x == 0.0 ==> RoundTenth(x) == 0.0
    ensures x == 100.0 ==> RoundTenth(x) == 100.0
  {
    var f := (x * 10.0 + 0.5).Floor;
    assert f as real <= x * 10.0 + 0.5 < f as real + 1.0;
    if 0.0 <= x <= 100.0 {
      assert 0 <= f <= 1000;
    }
  }

  /** `(daysWithProd / totalDaysInRange) * 100` is a percentage when the days are at most the total. */
  lemma PercentBounds(daysWithProd: nat, totalDaysInRange: int)
    requires totalDaysInRange > 0
    ensures var pct := daysWithProd as real / totalDaysInRange as real * 100.0;
      && (daysWithProd <= totalDaysInRange ==> 0.0 <= pct <= 100.0)
      && (daysWithProd == 0 ==> pct == 0.0)
      && (daysWithProd == totalDaysInRange ==> pct == 100.0)
  {
    var d, t := daysWithProd as real, totalDaysInRange as real;
    var q := d / t;
    assert q * t == d;
    assert (q - 1.0) * t == d - t;
  }

  /**
   * A machine's utilization: with a positive number of days in the range,
   * the percentage of them with production, rounded to one decimal; without
   * one, 100 when the machine produced on some day and 0 otherwise.
   */
  function Utilization(daysWithProd: nat, totalDaysInRange: int): (u: real)
    ensures totalDaysInRange <= 0 ==> u == if daysWithProd > 0 then 100.0 else 0.0
    ensures totalDaysInRange > 0 && daysWithProd <= totalDaysInRange ==> 0.0 <= u <= 100.0
    ensures totalDaysInRange > 0 && daysWithProd == 0 ==> u == 0.0
    ensures totalDaysInRange > 0 && daysWithProd == totalDaysInRange ==> u == 100.0
  {
    if totalDaysInRange > 0 then
      var pct := daysWithProd as real / totalDaysInRange as real * 100.0;
      PercentBounds(daysWithProd, totalDaysInRange);
      RoundTenthBounds(pct);
      RoundTenth(pct)
    else if daysWithProd > 0 then 100.0
    else 0.0
  }

  /** `totalDaysInRange`: the days of the range when both dates are given, else 0. */
  function TotalDaysInRange(p: Params): (n: int)
    ensures !(p.startDate.Some? && p.endDate.Some?) ==> n == 0
    ensures p.startDate.Some? && p.endDate.Some? ==>
              (n - 2) * MsPerDay < p.endDate.value - p.startDate.value <= (n - 1) * MsPerDay
  {
    if p.startDate.Some? && p.endDate.Some? then DaysInRange(p.startDate.value, p.endDate.value) else 0
  }

  /** A group of the machine report, without its helper set of dates. */
  datatype MachineGroup = MachineGroup(key: Id, productions: seq<Entry>, totals: Totals, utilization: real)

  /** A machine group while it is being filled: the group and its `_dateSet`. */
  datatype DatedGroup = DatedGroup(group: Group, dateSet: set<int>)

  /** The machine groups of the records `s`, each with the days it produced on. */
  function DatedGrouped(s: seq<Entry>): (d: seq<DatedGroup>)
    ensures |d| == |Grouped(s, ByMachine)|
    ensures forall i :: 0 <= i < |d| ==> d[i].group == Grouped(s, ByMachine)[i]
  {
    var g := Grouped(s, ByMachine);
    seq(|g|, i requires 0 <= i < |g| => DatedGroup(g[i], ProductionDays(g[i].productions)))
  }

  /**
   * The dictionary of the machines' `_dateSet`s after the records `s`, built
   * one record at a time: the record's set, created empty if the machine is
   * new, gains the record's day.
   */
  function DatesMap(s: seq<Entry>): map<Id, set<int>>
  {
    if s == [] then map[]
    else
      var ds := DatesMap(s[..|s| - 1]);
      var e := s[|s| - 1];
      ds[e.machine := (if e.machine in ds then ds[e.machine] else {}) + DayOfRecord(e)]
  }

  lemma DatesMapSnoc(s: seq<Entry>, e: Entry)
    ensures var ds := DatesMap(s);
      DatesMap(s + [e]) == ds[e.machine := (if e.machine in ds then ds[e.machine] else {}) + DayOfRecord(e)]
  {
    assert (s + [e])[..|s + [e]| - 1] == s;
  }

  /** The dictionary holds a set for every machine seen: the days of that machine's records. */
  lemma {:induction false} DatesMapAt(s: seq<Entry>, k: Id)
    decreases |s|
    ensures k in DatesMap(s) <==> k in Keys(s, ByMachine)
    ensures k in DatesMap(s) ==> DatesMap(s)[k] == ProductionDays(Members(s, ByMachine, k))
  {
    if s != [] {
      var init, e := s[..|s| - 1], s[|s| - 1];
      DatesMapAt(init, k);
      DatesMapStep(init, e, k);
      assert s == init + [e];
    }
  }

  lemma DatesMapStep(s: seq<Entry>, e: Entry, k: Id)
    requires k in DatesMap(s) <==> k in Keys(s, ByMachine)
    requires k in DatesMap(s) ==> DatesMap(s)[k] == ProductionDays(Members(s, ByMachine, k))
    ensures k in DatesMap(s + [e]) <==> k in Keys(s + [e], ByMachine)
    ensures k in DatesMap(s + [e]) ==> DatesMap(s + [e])[k] == ProductionDays(Members(s + [e], ByMachine, k))
  {
    KeysSnoc(s, e, ByMachine);
    DatesMapSnoc(s, e);
    MembersSnoc(s, e, ByMachine, k);
    var ms := Members(s, ByMachine, k);
    if k == e.machine {
      if k !in DatesMap(s) {
        NewGroupEmpty(s, ByMachine, k);
      }
      ProductionDaysSnoc(ms, e);
    } else {
      assert ms + [] == ms;
    }
  }

  lemma DatedValues(s: seq<Entry>)
    ensures forall i :: 0 <= i < |Keys(s, ByMachine)| ==>
              Keys(s, ByMachine)[i] in GroupsMap(s, ByMachine) && Keys(s, ByMachine)[i] in DatesMap(s)
    ensures var gs, ds, order := GroupsMap(s, ByMachine), DatesMap(s), Keys(s, ByMachine);
      seq(|order|, i requires 0 <= i < |order| && order[i] in gs && order[i] in ds =>
                   DatedGroup(gs[order[i]], ds[order[i]])) == DatedGrouped(s)
  {
    GroupsMapValues(s, ByMachine);
    var order := Keys(s, ByMachine);
    forall i | 0 <= i < |order|
      ensures order[i] in DatesMap(s) && DatesMap(s)[order[i]] == DatedGrouped(s)[i].dateSet
    {
      assert order[i] in order;
      DatesMapAt(s, order[i]);
    }
  }

  /**
   * The body of the machine report's `forEach` for one record whose machine
   * resolves: the record goes into its machine's group, created with an
   * empty `_dateSet` the first time the machine is seen, and its day into
   * that set.
   */
  method TakeMachineRecord(ghost s: seq<Entry>, prod: Entry, groups: map<Id, Group>,
                           dateSets: map<Id, set<int>>, order: seq<Id>)
    returns (groups': map<Id, Group>, dateSets': map<Id, set<int>>, order': seq<Id>)
    requires groups == GroupsMap(s, ByMachine) && order == Keys(s, ByMachine) && dateSets == DatesMap(s)
    ensures groups' == GroupsMap(s + [prod], ByMachine) && order' == Keys(s + [prod], ByMachine)
    ensures dateSets' == DatesMap(s + [prod])
  {
    var id := prod.machine;
    GroupsMapSnoc(s, prod, ByMachine);
    GroupsMapAt(s, ByMachine, id);
    DatesMapSnoc(s, prod);
    DatesMapAt(s, id);
    KeysSnoc(s, prod, ByMachine);
    var g := Group(id, [], NoTotals);
    var days: set<int> := {};
    order' := order;
    if id in groups {
      g := groups[id];
      days := dateSets[id];
    } else {
      order' := order + [id];
    }
    groups' := groups[id := Group(id, g.productions + [prod], Add(g.totals, prod))];
    if prod.date.Some? {
      days := days + {DayOf(prod.date.value)};
    }
    assert days == (if id in dateSets then dateSets[id] else {}) + DayOfRecord(prod);
    dateSets' := dateSets[id := days];
  }

  /**
   * The `forEach` of the machine report: the groups of the records by
   * machine, each with the days it produced on, or a server error when a
   * record's machine does not resolve.
   */
  method GroupMachineRecords(productions: seq<Entry>, machines: set<Id>)
    returns (r: Response<seq<DatedGroup>>)
    ensures r.ServerError? <==> exists e :: e in productions && e.machine !in machines
    ensures r.Ok? ==> r.value == DatedGrouped(productions)
  {
    var groups: map<Id, Group> := map[];
    var dateSets: map<Id, set<int>> := map[];
    var order: seq<Id> := [];
    var k := 0;
    while k < |productions|
      invariant 0 <= k <= |productions|
      invariant groups == GroupsMap(productions[..k], ByMachine) && order == Keys(productions[..k], ByMachine)
      invariant dateSets == DatesMap(productions[..k])
      invariant forall e :: e in productions[..k] ==> e.machine in machines
    {
      var prod := productions[k];
      if prod.machine !in machines {
        assert prod in productions;
        return ServerError;
      }
      groups, dateSets, order := TakeMachineRecord(productions[..k], prod, groups, dateSets, order);
      assert productions[..k + 1] == productions[..k] + [prod];
      k := k + 1;
    }
    assert productions[..k] == productions;
    DatedValues(productions);
    r := Ok(seq(|order|, i requires 0 <= i < |order| && order[i] in groups && order[i] in dateSets =>
                           DatedGroup(groups[order[i]], dateSets[order[i]])));
  }

  // ---------------------------------------------------------------------------
  // The machine report

  /** The pass over the groups that sets each one's utilization and drops its `_dateSet`. */
  method UtilizationPass(groups: seq<DatedGroup>, totalDaysInRange: int) returns (out: seq<MachineGroup>)
    ensures |out| == |groups|
    ensures forall i :: 0 <= i < |groups| ==>
              out[i] == MachineGroup(groups[i].group.key, groups[i].group.productions, groups[i].group.totals,
                                     Utilization(|groups[i].dateSet|, totalDaysInRange))
  {
    out := [];
    for i := 0 to |groups|
      invariant |out| == i
      invariant forall j :: 0 <= j < i ==>
                  out[j] == MachineGroup(groups[j].group.key, groups[j].group.productions, groups[j].group.totals,
                                         Utilization(|groups[j].dateSet|, totalDaysInRange))
    {
      var g := groups[i];
      out := out + [MachineGroup(g.group.key, g.group.productions, g.group.totals,
                                 Utilization(|g.dateSet|, totalDaysInRange))];
    }
  }

  /** The row of the machine report for group `g`. */
  function MachineRow(g: Group, totalDaysInRange: int): (r: MachineGroup)
    ensures r.key == g.key && r.productions == g.productions && r.totals == g.totals
    ensures totalDaysInRange <= 0 ==>
              (r.utilization == 100.0 <==> exists e :: e in g.productions && e.date.Some?)
    ensures totalDaysInRange > 0 && |ProductionDays(g.productions)| <= totalDaysInRange ==>
              0.0 <= r.utilization <= 100.0
  {
    ProductionDaysEmpty(g.productions);
    MachineGroup(g.key, g.productions, g.totals, Utilization(|ProductionDays(g.productions)|, totalDaysInRange))
  }

  /**
   * Every machine's utilization lies between 0 and 100; without a date range
   * it is 100 exactly when the machine has a dated record.
   */
  lemma UtilizationBounds(s: seq<Entry>, p: Params, i: int)
    requires 0 <= i < |Grouped(ReportRecords(s, ByMachine, p), ByMachine)|
    ensures var g := Grouped(ReportRecords(s, ByMachine, p), ByMachine)[i];
      var u := MachineRow(g, TotalDaysInRange(p)).utilization;
      && 0.0 <= u <= 100.0
      && (TotalDaysInRange(p) <= 0 ==> (u == 100.0 <==> exists e :: e in g.productions && e.date.Some?))
  {
    var recs := ReportRecords(s, ByMachine, p);
    var g := Grouped(recs, ByMachine)[i];
    var days := ProductionDays(g.productions);
    ProductionDaysEmpty(g.productions);
    if p.startDate.Some? && p.endDate.Some? {
      var start, end := p.startDate.value, p.endDate.value;
      MembersMembers(recs, ByMachine, g.key);
      forall e | e in g.productions && e.date.Some? ensures start <= e.date.value <= end {
        ReportRecordsMatch(s, ByMachine, p, e);
      }
      ProductionDaysWithin(g.productions, start, end);
      if start <= end {
        DayOfMonotone(start, end);
        IntervalBound(days, DayOf(start), DayOf(end));
        DaysInRangeCoversDays(start, end);
      }
    }
  }

  /**
   * `getMachineReport`: the groups of the matching records by machine with
   * their utilization, or a server error when a matching record's machine is
   * not among `machines`.
   */
  method GetMachineReport(store: ProductionStore, machines: set<Id>, p: Params)
    returns (r: Response<seq<MachineGroup>>)
    ensures r.ServerError? <==>
              exists e :: e in ReportRecords(store.records, ByMachine, p) && e.machine !in machines
    ensures r.Ok? ==>
      var g := Grouped(ReportRecords(store.records, ByMachine, p), ByMachine);
      && |r.value| == |g|
      && (forall i :: 0 <= i < |g| ==> r.value[i] == MachineRow(g[i], TotalDaysInRange(p)))
      && (forall i :: 0 <= i < |g| ==> 0.0 <= r.value[i].utilization <= 100.0)
  {
    var productions := ByDateDescending(Find(store.records, ByMachine, QueryOf(p)));
    var grouped := GroupMachineRecords(productions, machines);
    if grouped.ServerError? {
      return ServerError;
    }
    var totalDaysInRange := 0;
    if p.startDate.Some? && p.endDate.Some? {
      totalDaysInRange := DaysInRange(p.startDate.value, p.endDate.value);
    }
    var rows := UtilizationPass(grouped.value, totalDaysInRange);
    forall i | 0 <= i < |rows| ensures 0.0 <= rows[i].utilization <= 100.0 {
      UtilizationBounds(store.records, p, i);
    }
    return Ok(rows);
  }
}
