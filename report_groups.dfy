/**
 * The grouping of the worker and machine reports (report.controller.js): the
 * report's records, newest first, are walked once; each goes into the group
 * of its worker (or machine), created the first time that id is seen, and
 * the group's totals are accumulated.  The groups are returned in the order
 * they were created, which for ids that are not array indices is the order
 * of `Object.values`.
 */
module ReportGroups {
  import opened Ledger
  import opened ReportQuery

  datatype Totals = Totals(meters: real, earnings: real, dayShiftMeters: real, nightShiftMeters: real)

  /** A group: the id it is keyed by, its records in report order, and their totals. */
  datatype Group = Group(key: Id, productions: seq<Entry>, totals: Totals)

  /**
   * A report either answers or fails with a server error, which is what a
   * record whose worker (or machine) does not resolve leads to: its populated
   * reference is null and reading its `_id` throws.
   */
  datatype Response<T> = Ok(value: T) | ServerError

  const NoTotals := Totals(0.0, 0.0, 0.0, 0.0)

  /** The totals once record `e` is added: any shift other than "Day" counts as night. */
  function Add(t: Totals, e: Entry): Totals
  {
    Totals(t.meters + e.metersProduced, t.earnings + e.earnings,
           if e.shift == DayShift then t.dayShiftMeters + e.metersProduced else t.dayShiftMeters,
           if e.shift == DayShift then t.nightShiftMeters else t.nightShiftMeters + e.metersProduced)
  }

  function TotalsOf(s: seq<Entry>): Totals
  {
    if s == [] then NoTotals else Add(TotalsOf(s[..|s| - 1]), s[|s| - 1])
  }

  /** The metre and earning totals are the sums over the records, and day plus night is all of it. */
  lemma {:induction false} TotalsAreSums(s: seq<Entry>)
    decreases |s|
    ensures TotalsOf(s).meters == SumMeters(s) && TotalsOf(s).earnings == SumEarnings(s)
    ensures TotalsOf(s).dayShiftMeters + TotalsOf(s).nightShiftMeters == TotalsOf(s).meters
  {
    if s != [] {
      TotalsAreSums(s[..|s| - 1]);
      SumsOfInit(s);
    }
  }

  /** The records of group `k`, in report order. */
  function Members(s: seq<Entry>, kind: GroupBy, k: Id): seq<Entry>
  {
    if s == [] then []
    else Members(s[..|s| - 1], kind, k) + if Key(s[|s| - 1], kind) == k then [s[|s| - 1]] else []
  }

  /** The group ids in the order their first record appears. */
  function Keys(s: seq<Entry>, kind: GroupBy): seq<Id>
  {
    if s == [] then []
    else
      var ks := Keys(s[..|s| - 1], kind);
      if Key(s[|s| - 1], kind) in ks then ks else ks + [Key(s[|s| - 1], kind)]
  }

  function GroupOf(s: seq<Entry>, kind: GroupBy, k: Id): Group
  {
    Group(k, Members(s, kind, k), TotalsOf(Members(s, kind, k)))
  }

  /** What the grouping produces for the records `s`. */
  function Grouped(s: seq<Entry>, kind: GroupBy): (g: seq<Group>)
    ensures |g| == |Keys(s, kind)|
  {
    seq(|Keys(s, kind)|, i requires 0 <= i < |Keys(s, kind)| => GroupOf(s, kind, Keys(s, kind)[i]))
  }

  lemma {:induction false} MembersMembers(s: seq<Entry>, kind: GroupBy, k: Id)
    decreases |s|
    ensures forall e :: e in Members(s, kind, k) <==> e in s && Key(e, kind) == k
  {
    if s != [] {
      MembersMembers(s[..|s| - 1], kind, k);
      assert s == s[..|s| - 1] + [s[|s| - 1]];
    }
  }

  lemma {:induction false} KeysMembers(s: seq<Entry>, kind: GroupBy)
    decreases |s|
    ensures forall k :: k in Keys(s, kind) <==> exists e :: e in s && Key(e, kind) == k
  {
    if s != [] {
      KeysMembers(s[..|s| - 1], kind);
      assert s == s[..|s| - 1] + [s[|s| - 1]];
    }
  }

  /** No id names two groups. */
  lemma {:induction false} KeysDistinct(s: seq<Entry>, kind: GroupBy)
    decreases |s|
    ensures forall i, j :: 0 <= i < j < |Keys(s, kind)| ==> Keys(s, kind)[i] != Keys(s, kind)[j]
  {
    if s != [] {
      KeysDistinct(s[..|s| - 1], kind);
    }
  }

  /**
   * Groups come in first-seen order: some record of an earlier group comes
   * before every record of a later group.
   */
  lemma {:induction false} KeysFirstSeen(s: seq<Entry>, kind: GroupBy, i: int, j: int)
    decreases |s|
    requires 0 <= i < j < |Keys(s, kind)|
    ensures exists a :: 0 <= a < |s| && Key(s[a], kind) == Keys(s, kind)[i] &&
              forall b :: 0 <= b <= a ==> Key(s[b], kind) != Keys(s, kind)[j]
  {
    var init := s[..|s| - 1];
    var ks := Keys(init, kind);
    if j < |ks| {
      KeysFirstSeen(init, kind, i, j);
      var a :| 0 <= a < |init| && Key(init[a], kind) == ks[i] &&
                forall b :: 0 <= b <= a ==> Key(init[b], kind) != ks[j];
      assert Key(s[a], kind) == Keys(s, kind)[i];
      assert forall b :: 0 <= b <= a ==> s[b] == init[b];
    } else {
      KeysMembers(init, kind);
      assert ks[i] in ks;
      var e :| e in init && Key(e, kind) == ks[i];
      var a :| 0 <= a < |init| && init[a] == e;
      assert forall b :: 0 <= b <= a ==> Key(init[b], kind) != Keys(s, kind)[j];
      assert s[a] == init[a];
    }
  }

  /**
   * Every record lands in exactly one group, the one keyed by its worker (or
   * machine) id.
   */
  lemma RecordInOneGroup(s: seq<Entry>, kind: GroupBy, e: Entry)
    requires e in s
    ensures exists i :: 0 <= i < |Grouped(s, kind)| && Grouped(s, kind)[i].key == Key(e, kind)
    ensures forall i :: 0 <= i < |Grouped(s, kind)| ==>
              (e in Grouped(s, kind)[i].productions <==> Grouped(s, kind)[i].key == Key(e, kind))
  {
    KeysMembers(s, kind);
    var ks := Keys(s, kind);
    assert Key(e, kind) in ks;
    var i :| 0 <= i < |ks| && ks[i] == Key(e, kind);
    assert Grouped(s, kind)[i].key == Key(e, kind);
    forall i | 0 <= i < |ks|
      ensures e in Grouped(s, kind)[i].productions <==> Grouped(s, kind)[i].key == Key(e, kind)
    {
      MembersMembers(s, kind, ks[i]);
    }
  }

  /** A group's totals are the sums over its records, and day plus night shift meters are all its meters. */
  lemma GroupTotals(s: seq<Entry>, kind: GroupBy, i: int)
    requires 0 <= i < |Grouped(s, kind)|
    ensures var g := Grouped(s, kind)[i];
      && g.totals.meters == SumMeters(g.productions)
      && g.totals.earnings == SumEarnings(g.productions)
      && g.totals.dayShiftMeters + g.totals.nightShiftMeters == g.totals.meters
  {
    TotalsAreSums(Grouped(s, kind)[i].productions);
  }

  /**
   * The dictionary of groups after the records `s`, built one record at a
   * time: the record's group, created empty if it is new, gets the record
   * appended and its totals updated.
   */
  function GroupsMap(s: seq<Entry>, kind: GroupBy): (m: map<Id, Group>)
    ensures forall k :: k in m ==> m[k].key == k && m[k].productions != []
  {
    if s == [] then map[]
    else
      var gs := GroupsMap(s[..|s| - 1], kind);
      var e := s[|s| - 1];
      var g := if Key(e, kind) in gs then gs[Key(e, kind)] else Group(Key(e, kind), [], NoTotals);
      gs[Key(e, kind) := Group(Key(e, kind), g.productions + [e], Add(g.totals, e))]
  }

  lemma KeysSnoc(s: seq<Entry>, e: Entry, kind: GroupBy)
    ensures Keys(s + [e], kind) ==
              if Key(e, kind) in Keys(s, kind) then Keys(s, kind) else Keys(s, kind) + [Key(e, kind)]
  {
    assert (s + [e])[..|s + [e]| - 1] == s;
  }

  lemma MembersSnoc(s: seq<Entry>, e: Entry, kind: GroupBy, k: Id)
    ensures Members(s + [e], kind, k) == Members(s, kind, k) + if Key(e, kind) == k then [e] else []
  {
    assert (s + [e])[..|s + [e]| - 1] == s;
  }

  lemma TotalsSnoc(s: seq<Entry>, e: Entry)
    ensures TotalsOf(s + [e]) == Add(TotalsOf(s), e)
  {
    assert (s + [e])[..|s + [e]| - 1] == s;
  }

  /** A group not yet created has no records. */
  lemma NewGroupEmpty(s: seq<Entry>, kind: GroupBy, k: Id)
    requires k !in Keys(s, kind)
    ensures Members(s, kind, k) == []
  {
    KeysMembers(s, kind);
    MembersMembers(s, kind, k);
  }

  /** `e` added to its own group `g`. */
  lemma GroupOfOwn(s: seq<Entry>, e: Entry, kind: GroupBy, g: Group)
    requires g == GroupOf(s, kind, Key(e, kind))
    ensures GroupOf(s + [e], kind, Key(e, kind)) == Group(Key(e, kind), g.productions + [e], Add(g.totals, e))
  {
    MembersSnoc(s, e, kind, Key(e, kind));
    TotalsSnoc(g.productions, e);
  }

  /** The other groups do not change when `e` is added. */
  lemma GroupOfOther(s: seq<Entry>, e: Entry, kind: GroupBy, k: Id)
    requires k != Key(e, kind)
    ensures GroupOf(s + [e], kind, k) == GroupOf(s, kind, k)
  {
    MembersSnoc(s, e, kind, k);
    assert Members(s, kind, k) + [] == Members(s, kind, k);
  }

  lemma GroupsMapSnoc(s: seq<Entry>, e: Entry, kind: GroupBy)
    ensures var id := Key(e, kind);
      var gs := GroupsMap(s, kind);
      var g := if id in gs then gs[id] else Group(id, [], NoTotals);
      GroupsMap(s + [e], kind) == gs[id := Group(id, g.productions + [e], Add(g.totals, e))]
  {
    assert (s + [e])[..|s + [e]| - 1] == s;
  }

  /** The dictionary holds a group for every id seen, and that group is `GroupOf` the id. */
  lemma {:induction false} GroupsMapAt(s: seq<Entry>, kind: GroupBy, k: Id)
    decreases |s|
    ensures k in GroupsMap(s, kind) <==> k in Keys(s, kind)
    ensures k in GroupsMap(s, kind) ==> GroupsMap(s, kind)[k] == GroupOf(s, kind, k)
  {
    if s != [] {
      var init, e := s[..|s| - 1], s[|s| - 1];
      assert s == init + [e];
      GroupsMapAt(init, kind, k);
      KeysSnoc(init, e, kind);
      GroupsMapSnoc(init, e, kind);
      if k == Key(e, kind) {
        if k !in GroupsMap(init, kind) {
          NewGroupEmpty(init, kind, k);
        }
        var gs := GroupsMap(init, kind);
        GroupOfOwn(init, e, kind, if k in gs then gs[k] else Group(k, [], NoTotals));
      } else {
        GroupOfOther(init, e, kind, k);
      }
    }
  }

  /** `Object.values` of the finished dictionary, in creation order, is the grouping of all the records. */
  lemma GroupsMapValues(s: seq<Entry>, kind: GroupBy)
    ensures forall i :: 0 <= i < |Keys(s, kind)| ==> Keys(s, kind)[i] in GroupsMap(s, kind)
    ensures var gs, order := GroupsMap(s, kind), Keys(s, kind);
      seq(|order|, i requires 0 <= i < |order| && order[i] in gs => gs[order[i]]) == Grouped(s, kind)
  {
    var gs, order := GroupsMap(s, kind), Keys(s, kind);
    forall i | 0 <= i < |order| ensures order[i] in gs && gs[order[i]] == GroupOf(s, kind, order[i]) {
      assert order[i] in order;
      GroupsMapAt(s, kind, order[i]);
    }
  }

  /**
   * The body of the `forEach` for one record: the record goes into the group
   * of its id, which is created, empty, the first time the id is seen.
   */
  method TakeRecord(ghost s: seq<Entry>, prod: Entry, kind: GroupBy, groups: map<Id, Group>, order: seq<Id>)
    returns (groups': map<Id, Group>, order': seq<Id>)
    requires groups == GroupsMap(s, kind) && order == Keys(s, kind)
    ensures groups' == GroupsMap(s + [prod], kind) && order' == Keys(s + [prod], kind)
  {
    var id := Key(prod, kind);
    GroupsMapSnoc(s, prod, kind);
    GroupsMapAt(s, kind, id);
    KeysSnoc(s, prod, kind);
    var g := Group(id, [], NoTotals);
    order' := order;
    if id in groups {
      g := groups[id];
    } else {
      order' := order + [id];
    }
    groups' := groups[id := Group(id, g.productions + [prod], Add(g.totals, prod))];
  }

  /**
   * The `forEach` that fills the groups dictionary, then `Object.values` of
   * it.  A record whose id does not resolve (is not in `resolved`) fails the
   * report.
   */
  method GroupRecords(productions: seq<Entry>, kind: GroupBy, resolved: set<Id>)
    returns (r: Response<seq<Group>>)
    ensures r.ServerError? <==> exists e :: e in productions && Key(e, kind) !in resolved
    ensures r.Ok? ==> r.value == Grouped(productions, kind)
  {
    var groups: map<Id, Group> := map[];
    var order: seq<Id> := [];
    var k := 0;
    while k < |productions|
      invariant 0 <= k <= |productions|
      invariant groups == GroupsMap(productions[..k], kind) && order == Keys(productions[..k], kind)
      invariant forall e :: e in productions[..k] ==> Key(e, kind) in resolved
    {
      var prod := productions[k];
      var id := Key(prod, kind);
      if id !in resolved {
        assert prod in productions;
        return ServerError;
      }
      groups, order := TakeRecord(productions[..k], prod, kind, groups, order);
      assert productions[..k + 1] == productions[..k] + [prod];
      k := k + 1;
    }
    assert productions[..k] == productions;
    GroupsMapValues(productions, kind);
    r := Ok(seq(|order|, i requires 0 <= i < |order| && order[i] in groups => groups[order[i]]));
  }
}
