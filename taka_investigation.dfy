/**
 * The lot investigation (investigate-taka-meters.js): a read-only pass that sums
 * each lot's records, flags lots whose stored total differs from that sum or
 * that are over target, and classifies the production records that have no
 * resolvable lot or point at a lot missing from the lot list.
 */
module TakaInvestigation {
  import opened Sorting
  import opened Ledger
  import opened Store
  import opened TakaEarnings

  /** The figures of a lot that the investigation compares. */
  datatype LotView = LotView(id: Id, targetMeters: real, totalMeters: real)

  function View(t: Taka): LotView
    reads t
  {
    LotView(t.id, t.targetMeters, t.totalMeters)
  }

  /** The verdict on one lot: `excess` is the amount over target, if the lot is over it. */
  datatype LotCheck = LotCheck(calculatedTotal: real, mismatch: bool, excess: Option<real>)

  function Check(l: LotView, calculatedTotal: real): (c: LotCheck)
    ensures c.calculatedTotal == calculatedTotal
    ensures c.mismatch <==> calculatedTotal != l.totalMeters
    ensures c.excess.Some? <==> l.targetMeters > 0.0 && calculatedTotal > l.targetMeters
    ensures c.excess.Some? ==> c.excess.value > 0.0 && l.targetMeters + c.excess.value == calculatedTotal
  {
    LotCheck(calculatedTotal, calculatedTotal != l.totalMeters,
             if l.targetMeters > 0.0 && calculatedTotal > l.targetMeters
             then Some(calculatedTotal - l.targetMeters) else None)
  }

  predicate Dated(e: Entry)
  {
    e.date.Some?
  }

  /**
   * The `forEach` over one lot's records in date order: the sum of their
   * meters, 0 for a lot without records, unless one of them has no date.
   */
  method CalculatedTotal(records: seq<Entry>) returns (r: Checked<real>)
    ensures r.MissingDate? <==> exists e :: e in records && !Dated(e)
    ensures r.Checked? ==> r.value == SumMeters(records)
  {
    var calculatedTotal := 0.0;
    var k := 0;
    while k < |records|
      invariant 0 <= k <= |records|
      invariant calculatedTotal == SumMeters(records[..k])
      invariant forall j :: 0 <= j < k ==> Dated(records[j])
    {
      var prod := records[k];
      if prod.date.None? {
        assert prod in records;
        return MissingDate;
      }
      assert records[..k + 1] == records[..k] + [prod];
      SumsOfSnoc(records[..k], prod);
      calculatedTotal := calculatedTotal + prod.metersProduced;
      k := k + 1;
    }
    assert records[..k] == records;
    forall e | e in records ensures Dated(e) {
      var j :| 0 <= j < |records| && records[j] == e;
    }
    return Checked(calculatedTotal);
  }

  /** The records of lot `id` in the order the investigation reads them add up to its booked meters. */
  lemma LotRecordsSum(s: seq<Entry>, id: Id)
    ensures SumMeters(ByDateAscending(OfTaka(s, id))) == BookedMeters(s, id)
  {
    SumsOfSorted(OfTaka(s, id), EarlierThan);
  }

  /** Lot `id` has a record without a date. */
  ghost predicate HasUndated(s: seq<Entry>, id: Id)
  {
    exists e :: e in s && e.taka == Some(id) && !Dated(e)
  }

  lemma LotRecordsUndated(s: seq<Entry>, id: Id)
    ensures (exists e :: e in ByDateAscending(OfTaka(s, id)) && !Dated(e)) <==> HasUndated(s, id)
  {
    OfTakaMembers(s, id);
    var rs := ByDateAscending(OfTaka(s, id));
    assert forall e :: e in rs <==> e in multiset(rs);
    assert forall e :: e in OfTaka(s, id) <==> e in multiset(OfTaka(s, id));
  }

  /**
   * `!prod.taka` after `populate('taka')`: a record without a lot, or whose
   * lot id is not among the ids the store can resolve (`resolvable`).
   */
  predicate Unlinked(e: Entry, resolvable: set<Id>)
  {
    e.taka.None? || e.taka.value !in resolvable
  }

  /** The orphan `filter`, in store order. */
  function Orphaned(s: seq<Entry>, resolvable: set<Id>): seq<Entry>
  {
    if s == [] then []
    else if Unlinked(s[0], resolvable) then [s[0]] + Orphaned(s[1..], resolvable)
    else Orphaned(s[1..], resolvable)
  }

  /** A record whose lot resolves but is not one of the lots the investigation listed. */
  predicate InvalidRef(e: Entry, resolvable: set<Id>, listed: set<Id>)
  {
    !Unlinked(e, resolvable) && e.taka.value !in listed
  }

  /** The `invalidTakaRefs` loop as a filter, in store order. */
  function InvalidRefs(s: seq<Entry>, resolvable: set<Id>, listed: set<Id>): (r: seq<Entry>)
    ensures |r| <= |s|
  {
    if s == [] then []
    else if InvalidRef(s[0], resolvable, listed) then [s[0]] + InvalidRefs(s[1..], resolvable, listed)
    else InvalidRefs(s[1..], resolvable, listed)
  }

  lemma {:induction false} InvalidRefsMembers(s: seq<Entry>, resolvable: set<Id>, listed: set<Id>)
    decreases |s|
    ensures forall e :: e in InvalidRefs(s, resolvable, listed) <==> e in s && InvalidRef(e, resolvable, listed)
  {
    if s != [] {
      InvalidRefsMembers(s[1..], resolvable, listed);
      assert s == [s[0]] + s[1..];
    }
  }

  /** Filtering one more record at the end extends the filter by that record, if it qualifies. */
  lemma {:induction false} InvalidRefsSnoc(s: seq<Entry>, x: Entry, resolvable: set<Id>, listed: set<Id>)
    decreases |s|
    ensures InvalidRefs(s + [x], resolvable, listed)
            == InvalidRefs(s, resolvable, listed) + (if InvalidRef(x, resolvable, listed) then [x] else [])
  {
    if s == [] {
      assert [x][1..] == [];
    } else {
      InvalidRefsSnoc(s[1..], x, resolvable, listed);
      assert (s + [x])[1..] == s[1..] + [x];
    }
  }

  lemma {:induction false} OrphanedMembers(s: seq<Entry>, resolvable: set<Id>)
    decreases |s|
    ensures forall e :: e in Orphaned(s, resolvable) <==> e in s && Unlinked(e, resolvable)
  {
    if s != [] {
      OrphanedMembers(s[1..], resolvable);
      assert s == [s[0]] + s[1..];
    }
  }

  /**
   * Every record is exactly one of: linked to a listed lot, orphaned, or an
   * invalid reference.
   */
  lemma Classification(e: Entry, resolvable: set<Id>, listed: set<Id>)
    ensures Unlinked(e, resolvable) ==> !InvalidRef(e, resolvable, listed)
    ensures !Unlinked(e, resolvable) && !InvalidRef(e, resolvable, listed) ==> e.taka.value in listed
  {
  }

  /**
   * When the lots listed are all the lots the store resolves, no record is
   * an invalid reference: a dangling lot id is an orphan instead.
   */
  lemma NoInvalidRefsWhenListedAll(s: seq<Entry>, resolvable: set<Id>, listed: set<Id>)
    requires resolvable <= listed
    ensures forall e :: e in s ==> !InvalidRef(e, resolvable, listed)
  {
  }

  /** What a completed investigation run reports. */
  datatype Findings = Findings(lots: seq<LotCheck>, orphaned: seq<Entry>, invalidRefs: seq<Entry>)

  function LotIds(takas: seq<Taka>): set<Id>
    reads set t | t in takas
  {
    set t | t in takas :: t.id
  }

  /** The loop that collects `invalidTakaRefs`, in store order. */
  method InvalidTakaRefs(allProduction: seq<Entry>, resolvable: set<Id>, listed: set<Id>)
    returns (invalid: seq<Entry>)
    ensures invalid == InvalidRefs(allProduction, resolvable, listed)
    ensures forall e :: e in invalid <==> e in allProduction && InvalidRef(e, resolvable, listed)
  {
    invalid := [];
    var k := 0;
    while k < |allProduction|
      invariant 0 <= k <= |allProduction|
      invariant invalid == InvalidRefs(allProduction[..k], resolvable, listed)
    {
      var prod := allProduction[k];
      assert allProduction[..k + 1] == allProduction[..k] + [prod];
      InvalidRefsSnoc(allProduction[..k], prod, resolvable, listed);
      if !Unlinked(prod, resolvable) && prod.taka.value !in listed {
        invalid := invalid + [prod];
      }
      k := k + 1;
    }
    assert allProduction[..k] == allProduction;
    InvalidRefsMembers(allProduction, resolvable, listed);
  }

  /**
   * The first loop of `investigateTakaMeters`: each lot in turn has its
   * records fetched in date order, totalled and compared with its booked
   * figure; an undated record ends the run.
   */
  method CheckLots(takas: seq<Taka>, store: ProductionStore) returns (r: Checked<seq<LotCheck>>)
    ensures r.MissingDate? <==> exists i :: 0 <= i < |takas| && HasUndated(store.records, takas[i].id)
    ensures r.Checked? ==>
      && |r.value| == |takas|
      && forall i :: 0 <= i < |takas| ==>
           r.value[i] == Check(View(takas[i]), BookedMeters(store.records, takas[i].id))
  {
    var checks: seq<LotCheck> := [];
    var i := 0;
    while i < |takas|
      invariant 0 <= i <= |takas| && |checks| == i
      invariant forall j :: 0 <= j < i ==> !HasUndated(store.records, takas[j].id)
      invariant forall j :: 0 <= j < i ==>
                  checks[j] == Check(View(takas[j]), BookedMeters(store.records, takas[j].id))
    {
      var taka := takas[i];
      var productionRecords := ByDateAscending(OfTaka(store.records, taka.id));
      var total := CalculatedTotal(productionRecords);
      LotRecordsUndated(store.records, taka.id);
      if total.MissingDate? {
        return MissingDate;
      }
      LotRecordsSum(store.records, taka.id);
      checks := checks + [Check(View(taka), total.value)];
      i := i + 1;
    }
    return Checked(checks);
  }

  /**
   * `investigateTakaMeters`: checks every lot in turn, then classifies the
   * whole production collection.  It changes nothing.
   */
  method InvestigateTakaMeters(takas: seq<Taka>, store: ProductionStore, resolvable: set<Id>)
    returns (r: Checked<Findings>)
    ensures r.MissingDate? <==> exists i :: 0 <= i < |takas| && HasUndated(store.records, takas[i].id)
    ensures r.Checked? ==>
      && |r.value.lots| == |takas|
      && (forall i :: 0 <= i < |takas| ==>
            r.value.lots[i] == Check(View(takas[i]), BookedMeters(store.records, takas[i].id)))
      && r.value.orphaned == Orphaned(store.records, resolvable)
      && r.value.invalidRefs == InvalidRefs(store.records, resolvable, LotIds(takas))
  {
    var checks := CheckLots(takas, store);
    if checks.MissingDate? {
      return MissingDate;
    }
    var orphanedRecords := Orphaned(store.records, resolvable);
    var invalid := InvalidTakaRefs(store.records, resolvable, LotIds(takas));
    return Checked(Findings(checks.value, orphanedRecords, invalid));
  }

  /** After the lot total recompute, the investigation flags no mismatch on any lot. */
  lemma NoMismatchAfterRecompute(t: LotView, s: seq<Entry>)
    requires t.totalMeters == SumMeters(OfTaka(s, t.id))
    ensures !Check(t, BookedMeters(s, t.id)).mismatch
  {
  }
}
