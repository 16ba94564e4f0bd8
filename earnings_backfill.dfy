/**
 * The earnings backfill (fix-earnings.js): every production record whose
 * earnings are 0 gets the earnings its own meters earn at its own rate.
 * Records with nonzero earnings, and every other field, stay as they were.
 */
module EarningsBackfill {
  import opened Ledger
  import opened Store

  /** `Production.find({ earnings: 0 })`, in store order. */
  function ZeroEarnings(s: seq<Entry>): seq<Entry>
  {
    if s == [] then []
    else if s[0].earnings == 0.0 then [s[0]] + ZeroEarnings(s[1..])
    else ZeroEarnings(s[1..])
  }

  /** The query finds exactly the records with zero earnings. */
  lemma {:induction false} ZeroEarningsMembers(s: seq<Entry>)
    decreases |s|
    ensures forall e :: e in ZeroEarnings(s) <==> e in s && e.earnings == 0.0
  {
    if s != [] {
      ZeroEarningsMembers(s[1..]);
      assert s == [s[0]] + s[1..];
    }
  }

  /** What the backfill writes into record `e`. */
  function Fixed(e: Entry): Entry
  {
    e.(earnings := Earned(e.metersProduced, e.ratePerMeter))
  }

  /** The collection after the backfill, record by record in store order. */
  function Backfilled(s: seq<Entry>): (t: seq<Entry>)
    ensures |t| == |s|
    /* every record keeps all of its fields but its earnings */
    ensures forall i :: 0 <= i < |s| ==> t[i].(earnings := s[i].earnings) == s[i]
    /* nonzero earnings are left alone */
    ensures forall i :: 0 <= i < |s| && s[i].earnings != 0.0 ==> t[i] == s[i]
    /* zero earnings become meters times the record's own rate */
    ensures forall i :: 0 <= i < |s| && s[i].earnings == 0.0 ==>
              t[i].earnings == Earned(s[i].metersProduced, s[i].ratePerMeter)
  {
    if s == [] then []
    else [if s[0].earnings == 0.0 then Fixed(s[0]) else s[0]] + Backfilled(s[1..])
  }

  /** After the backfill a record has no earnings only when its meters times its rate is 0. */
  lemma BackfilledZeroOnlyIfNothingEarned(s: seq<Entry>, i: int)
    requires 0 <= i < |s|
    ensures Backfilled(s)[i].earnings == 0.0 ==>
              Earned(Backfilled(s)[i].metersProduced, Backfilled(s)[i].ratePerMeter) == 0.0
  {
    var t := Backfilled(s);
    assert t[i].metersProduced == s[i].metersProduced && t[i].ratePerMeter == s[i].ratePerMeter by {
      assert t[i].(earnings := s[i].earnings) == s[i];
    }
  }

  /** A second backfill finds nothing left to change. */
  lemma BackfilledIdempotent(s: seq<Entry>)
    ensures Backfilled(Backfilled(s)) == Backfilled(s)
  {
    var t := Backfilled(s);
    var u := Backfilled(t);
    forall i | 0 <= i < |s| ensures u[i] == t[i] {
      BackfilledZeroOnlyIfNothingEarned(s, i);
      if t[i].earnings == 0.0 {
        assert t[i].(earnings := s[i].earnings) == s[i];
        assert u[i].(earnings := t[i].earnings) == t[i];
      }
    }
  }

  /** The records of `s` whose ids are in `ids` replaced by their backfilled form. */
  ghost predicate FixedExactly(t: seq<Entry>, s: seq<Entry>, ids: set<Id>)
  {
    |t| == |s| && forall i :: 0 <= i < |s| ==> t[i] == if s[i].id in ids then Fixed(s[i]) else s[i]
  }

  /** Fixing the one more record `r`, which is in the store. */
  lemma FixedOneMore(t: seq<Entry>, s: seq<Entry>, ids: set<Id>, r: Entry)
    requires UniqueIds(s) && r in ZeroEarnings(s) && FixedExactly(t, s, ids)
    ensures FixedExactly(EarningsSet(t, r.id, Earned(r.metersProduced, r.ratePerMeter)), s, ids + {r.id})
  {
    ZeroEarningsMembers(s);
    UniqueIdsConsistent(s);
    var u := EarningsSet(t, r.id, Earned(r.metersProduced, r.ratePerMeter));
    forall i | 0 <= i < |s| ensures u[i] == if s[i].id in ids + {r.id} then Fixed(s[i]) else s[i] {
      if s[i].id == r.id {
        assert s[i] == r;
      }
    }
  }

  /** The ids of the zero-earnings records are the ids of the records the backfill must change. */
  lemma FixedAllIsBackfilled(t: seq<Entry>, s: seq<Entry>)
    requires UniqueIds(s) && FixedExactly(t, s, IdsOf(ZeroEarnings(s)))
    ensures t == Backfilled(s)
  {
    ZeroEarningsMembers(s);
    UniqueIdsConsistent(s);
    var b := Backfilled(s);
    forall i | 0 <= i < |s| ensures t[i] == b[i] {
      if s[i].id in IdsOf(ZeroEarnings(s)) {
        var r :| r in ZeroEarnings(s) && r.id == s[i].id;
        assert r == s[i];
      }
    }
  }

  /**
   * `fixEarningsData`: queries the zero-earnings records once, then writes
   * each one's earnings from its own meters and rate.
   */
  method FixEarningsData(store: ProductionStore) returns (fixedCount: nat)
    requires store.Valid()
    modifies store
    ensures store.Valid()
    ensures fixedCount == |ZeroEarnings(old(store.records))|
    ensures store.records == Backfilled(old(store.records))
  {
    ghost var s0 := store.records;
    var recordsToFix := ZeroEarnings(store.records);
    fixedCount := 0;
    var k := 0;
    while k < |recordsToFix|
      invariant 0 <= k <= |recordsToFix| && fixedCount == k
      invariant store.Valid()
      invariant FixedExactly(store.records, s0, IdsOf(recordsToFix[..k]))
    {
      var record := recordsToFix[k];
      var newEarnings := Earned(record.metersProduced, record.ratePerMeter);
      FixedOneMore(store.records, s0, IdsOf(recordsToFix[..k]), record);
      store.UpdateEarnings(record.id, newEarnings);
      fixedCount := fixedCount + 1;
      assert recordsToFix[..k + 1] == recordsToFix[..k] + [record];
      IdsOfSnoc(recordsToFix[..k], record);
      k := k + 1;
    }
    assert recordsToFix[..k] == recordsToFix;
    FixedAllIsBackfilled(store.records, s0);
  }
}
