/**
 * The lot total recompute (fix-taka-earnings.js): every lot's total meters
 * become the sum of the meters booked against it and its total earnings that
 * sum at the lot's own rate.  Nothing else about a lot, and nothing in the
 * production collection, changes.
 */
module TakaEarnings {
  import opened Ledger
  import opened Store

  /**
   * `productionTotal[0]?.totalMeters || 0`: the meters booked against lot
   * `id`, which is 0 when the lot has no records.
   */
  function BookedMeters(s: seq<Entry>, id: Id): real
  {
    SumMeters(OfTaka(s, id))
  }

  /** The fields of a lot document that the recompute reads or writes. */
  datatype LotFigures = LotFigures(targetMeters: real, ratePerMeter: real,
                                   totalMeters: real, totalEarnings: real, status: Status)

  function Figures(t: Taka): LotFigures
    reads t
  {
    LotFigures(t.targetMeters, t.ratePerMeter, t.totalMeters, t.totalEarnings, t.status)
  }

  /** What the recompute writes for lot `id` whose figures were `f`. */
  function Recomputed(f: LotFigures, s: seq<Entry>, id: Id): (r: LotFigures)
    ensures r.totalMeters == SumMeters(OfTaka(s, id))
    ensures r.totalEarnings == r.totalMeters * f.ratePerMeter
    ensures r.(totalMeters := f.totalMeters, totalEarnings := f.totalEarnings) == f
  {
    var meters := BookedMeters(s, id);
    f.(totalMeters := meters, totalEarnings := Earned(meters, f.ratePerMeter))
  }

  /** A lot without records ends with no meters and no earnings. */
  lemma RecomputedWithoutRecords(f: LotFigures, s: seq<Entry>, id: Id)
    requires forall e :: e in s ==> e.taka != Some(id)
    ensures Recomputed(f, s, id).totalMeters == 0.0 && Recomputed(f, s, id).totalEarnings == 0.0
  {
    NoneOfTaka(s, id);
  }

  lemma {:induction false} NoneOfTaka(s: seq<Entry>, id: Id)
    decreases |s|
    requires forall e :: e in s ==> e.taka != Some(id)
    ensures OfTaka(s, id) == []
  {
    if s != [] {
      assert s[0] in s;
      NoneOfTaka(s[1..], id);
    }
  }

  /** A second recompute over the same records writes what the first one wrote. */
  lemma RecomputedIdempotent(f: LotFigures, s: seq<Entry>, id: Id)
    ensures Recomputed(Recomputed(f, s, id), s, id) == Recomputed(f, s, id)
  {
  }

  /**
   * `fixTakaEarnings`: the loop over all lots.  Lots are written one after
   * another; the same document listed twice is written twice with the same
   * figures.
   */
  method FixTakaEarnings(takas: seq<Taka>, store: ProductionStore) returns (updatedCount: nat)
    modifies set t | t in takas
    ensures updatedCount == |takas|
    ensures forall t :: t in takas ==>
      && t.totalMeters == SumMeters(OfTaka(store.records, t.id))
      && t.totalEarnings == t.totalMeters * t.ratePerMeter
      && t.targetMeters == old(t.targetMeters) && t.ratePerMeter == old(t.ratePerMeter)
      && t.status == old(t.status)
    ensures forall t :: t in takas ==> Recomputed(Figures(t), store.records, t.id) == Figures(t)
    ensures store.records == old(store.records)
  {
    updatedCount := 0;
    var i := 0;
    while i < |takas|
      invariant 0 <= i <= |takas| && updatedCount == i
      invariant forall t :: t in takas[..i] ==> Figures(t) == Recomputed(old(Figures(t)), store.records, t.id)
      invariant forall t :: t in takas && t !in takas[..i] ==> Figures(t) == old(Figures(t))
    {
      var taka := takas[i];
      var actualTotalMeters := BookedMeters(store.records, taka.id);
      var newEarnings := Earned(actualTotalMeters, taka.ratePerMeter);
      taka.totalMeters := actualTotalMeters;
      taka.totalEarnings := newEarnings;
      updatedCount := updatedCount + 1;
      assert takas[..i + 1] == takas[..i] + [taka];
      i := i + 1;
    }
    assert takas[..i] == takas;
  }
}
