/**
 * Lot reconciliation (looms/server/fix-taka-completions.js): every lot's
 * records are walked in date order; records that fit under the lot's target
 * are kept, the one that first overshoots is cut down so the total lands on
 * the target exactly, and every record after that point is deleted.  The
 * lot's totals and status are then rewritten.  Records without a lot are
 * deleted at the end.
 */
module TakaCompletions {
  import opened Sorting
  import opened Ledger
  import opened Store

  /**
   * A record cut down to `meters`; its earnings are recomputed at the lot's
   * rate, not at the record's own.
   */
  function Trim(r: Entry, meters: real, rate: real): (t: Entry)
    ensures t.metersProduced == meters && t.earnings == meters * rate
    ensures t.(metersProduced := r.metersProduced, earnings := r.earnings) == r
  {
    r.(metersProduced := meters, earnings := Earned(meters, rate))
  }

  /**
   * The walk's result: `completionIndex` is -1 when the target was never
   * reached, else the position of the record that reached it; `trimmed` is
   * the record that was cut down and saved, if any.
   */
  datatype Walk = Walk(kept: seq<Entry>, removed: seq<Entry>, cumulative: real,
                       completionIndex: int, trimmed: Option<Entry>)

  function Later(completionIndex: int): int
  {
    if completionIndex >= 0 then completionIndex + 1 else -1
  }

  /** The walk over `rs` once `cumulative` meters have been counted. */
  function Scan(rs: seq<Entry>, cumulative: real, target: real, rate: real): (w: Walk)
    decreases |rs|
    ensures -1 <= w.completionIndex < |rs|
    ensures w.trimmed.Some? ==> w.completionIndex >= 0
  {
    if rs == [] then Walk([], [], cumulative, -1, None)
    else
      var r := rs[0];
      var newTotal := cumulative + r.metersProduced;
      if newTotal <= target then
        if newTotal == target then Walk([r], rs[1..], newTotal, 0, None)
        else
          var w := Scan(rs[1..], newTotal, target, rate);
          Walk([r] + w.kept, w.removed, w.cumulative, Later(w.completionIndex), w.trimmed)
      else if cumulative < target then
        var t := Trim(r, target - cumulative, rate);
        Walk([t], rs[1..], target, 0, Some(t))
      else
        var w := Scan(rs[1..], cumulative, target, rate);
        Walk(w.kept, [r] + w.removed, w.cumulative, Later(w.completionIndex), w.trimmed)
  }

  /** Every record is either kept or removed. */
  lemma {:induction false} ScanSizes(rs: seq<Entry>, cumulative: real, target: real, rate: real)
    decreases |rs|
    ensures var w := Scan(rs, cumulative, target, rate);
      |w.kept| + |w.removed| == |rs|
  {
    if rs != [] {
      ScanSizes(rs[1..], cumulative + rs[0].metersProduced, target, rate);
      ScanSizes(rs[1..], cumulative, target, rate);
    }
  }

  /** `w` continued after `kept` and `removed` were collected from the first `i` records. */
  function After(kept: seq<Entry>, removed: seq<Entry>, i: nat, w: Walk): Walk
  {
    Walk(kept + w.kept, removed + w.removed, w.cumulative,
         if w.completionIndex >= 0 then w.completionIndex + i else -1, w.trimmed)
  }

  /** What reconciliation decides for one lot whose records, in date order, are `rs`. */
  datatype Outcome = Outcome(kept: seq<Entry>, removed: seq<Entry>, trimmed: Option<Entry>,
                             totalMeters: real, totalEarnings: real, status: Status)

  function ReconcileLot(rs: seq<Entry>, target: real, rate: real): (o: Outcome)
    ensures |o.kept| + |o.removed| == |rs|
    ensures o.totalEarnings == o.totalMeters * rate
    ensures rs == [] ==> o.kept == [] && o.removed == [] && o.trimmed == None && o.totalMeters == 0.0
  {
    if rs == [] then
      Outcome([], [], None, 0.0, 0.0, if target > 0.0 then Active else Completed)
    else
      var w := Scan(rs, 0.0, target, rate);
      ScanSizes(rs, 0.0, target, rate);
      Outcome(w.kept, w.removed, w.trimmed, w.cumulative, Earned(w.cumulative, rate),
              if w.cumulative >= target then Completed else Active)
  }

  /** `Production.find({ taka: id }).sort({ date: 1 })` */
  function LotRecords(s: seq<Entry>, id: Id): seq<Entry>
  {
    ByDateAscending(OfTaka(s, id))
  }

  function IdList(s: seq<Entry>): seq<Id>
  {
    if s == [] then [] else [s[0].id] + IdList(s[1..])
  }

  /** The store once the trimmed record is saved and the removed ones are deleted. */
  function Applied(s: seq<Entry>, o: Outcome): seq<Entry>
  {
    Without(if o.trimmed.Some? then Replaced(s, o.trimmed.value) else s, IdsOf(o.removed))
  }

  // ---------------------------------------------------------------------------
  // Properties of the walk

  lemma IdListConcat(a: seq<Entry>, b: seq<Entry>)
    ensures IdList(a + b) == IdList(a) + IdList(b)
  {
    if a != [] {
      assert (a + b)[1..] == a[1..] + b;
    } else {
      assert a + b == b;
    }
  }

  /** The records of `w` are those of `rs`, each once (counted by id). */
  ghost predicate IdsSplit(rs: seq<Entry>, w: Walk)
  {
    multiset(IdList(w.kept)) + multiset(IdList(w.removed)) == multiset(IdList(rs))
  }

  /** Kept and removed records together are the lot's records, each once (counted by id). */
  lemma {:induction false} ScanIds(rs: seq<Entry>, cumulative: real, target: real, rate: real)
    decreases |rs|
    ensures IdsSplit(rs, Scan(rs, cumulative, target, rate))
  {
    if rs != [] {
      var r := rs[0];
      var newTotal := cumulative + r.metersProduced;
      if newTotal < target {
        ScanIds(rs[1..], newTotal, target, rate);
        ScanIdsKeep(rs, cumulative, target, rate);
      } else if newTotal > target && cumulative >= target {
        ScanIds(rs[1..], cumulative, target, rate);
        ScanIdsRemove(rs, cumulative, target, rate);
      } else {
        ScanIdsStop(rs, cumulative, target, rate);
      }
    }
  }

  /** ScanIds for a record that ends the walk. */
  lemma ScanIdsStop(rs: seq<Entry>, cumulative: real, target: real, rate: real)
    requires rs != []
    requires cumulative + rs[0].metersProduced == target ||
             (cumulative + rs[0].metersProduced > target && cumulative < target)
    ensures IdsSplit(rs, Scan(rs, cumulative, target, rate))
  {
    var w := Scan(rs, cumulative, target, rate);
    assert IdList(rs) == [rs[0].id] + IdList(rs[1..]);
    assert w.removed == rs[1..];
    assert IdList(w.kept) == [rs[0].id];
  }

  /** ScanIds for a record the walk keeps and goes on after. */
  lemma ScanIdsKeep(rs: seq<Entry>, cumulative: real, target: real, rate: real)
    requires rs != []
    requires cumulative + rs[0].metersProduced < target
    requires IdsSplit(rs[1..], Scan(rs[1..], cumulative + rs[0].metersProduced, target, rate))
    ensures IdsSplit(rs, Scan(rs, cumulative, target, rate))
  {
    var r := rs[0];
    var w1 := Scan(rs[1..], cumulative + r.metersProduced, target, rate);
    assert Scan(rs, cumulative, target, rate).kept == [r] + w1.kept;
    assert Scan(rs, cumulative, target, rate).removed == w1.removed;
    IdsCons(rs);
    IdsCons([r] + w1.kept);
    assert ([r] + w1.kept)[1..] == w1.kept;
  }

  /** ScanIds for a record the walk removes. */
  lemma ScanIdsRemove(rs: seq<Entry>, cumulative: real, target: real, rate: real)
    requires rs != []
    requires cumulative + rs[0].metersProduced > target && cumulative >= target
    requires IdsSplit(rs[1..], Scan(rs[1..], cumulative, target, rate))
    ensures IdsSplit(rs, Scan(rs, cumulative, target, rate))
  {
    var r := rs[0];
    var w1 := Scan(rs[1..], cumulative, target, rate);
    assert Scan(rs, cumulative, target, rate).kept == w1.kept;
    assert Scan(rs, cumulative, target, rate).removed == [r] + w1.removed;
    IdsCons(rs);
    IdsCons([r] + w1.removed);
    assert ([r] + w1.removed)[1..] == w1.removed;
  }

  lemma IdsCons(s: seq<Entry>)
    requires s != []
    ensures multiset(IdList(s)) == multiset{s[0].id} + multiset(IdList(s[1..]))
  {
    assert IdList(s) == [s[0].id] + IdList(s[1..]);
  }

  /** With unique ids, no id is listed twice. */
  lemma {:induction false} UniqueIdCount(s: seq<Entry>, x: Id)
    decreases |s|
    requires UniqueIds(s)
    ensures multiset(IdList(s))[x] <= 1
  {
    if s != [] {
      assert UniqueIds(s[1..]) by {
        forall i, j | 0 <= i < j < |s[1..]| ensures s[1..][i].id != s[1..][j].id {
          assert s[1..][i] == s[i + 1] && s[1..][j] == s[j + 1];
        }
      }
      UniqueIdCount(s[1..], x);
      assert IdList(s) == [s[0].id] + IdList(s[1..]);
      if x == s[0].id {
        IdsOfListedBack(s[1..], x);
        assert x !in IdsOf(s[1..]) by {
          forall e | e in s[1..] ensures e.id != x {
            var k :| 0 <= k < |s[1..]| && s[1..][k] == e;
            assert s[k + 1] == e;
          }
        }
      }
    }
  }

  lemma {:induction false} IdsOfListedBack(s: seq<Entry>, x: Id)
    decreases |s|
    ensures x in multiset(IdList(s)) ==> x in IdsOf(s)
  {
    if s != [] {
      IdsOfListedBack(s[1..], x);
      assert IdList(s) == [s[0].id] + IdList(s[1..]);
      assert s[0] in s;
      if x in multiset(IdList(s[1..])) {
        var e :| e in s[1..] && e.id == x;
        assert e in s;
      }
    }
  }

  lemma {:induction false} IdsOfListed(s: seq<Entry>, x: Id)
    decreases |s|
    ensures x in IdsOf(s) ==> x in multiset(IdList(s))
  {
    if s != [] {
      IdsOfListed(s[1..], x);
      assert IdList(s) == [s[0].id] + IdList(s[1..]);
      if x in IdsOf(s) && x != s[0].id {
        var e :| e in s && e.id == x;
        assert e in s[1..];
      }
    }
  }

  /**
   * Removed records are unchanged records of the lot; every kept record is
   * unchanged except the trimmed one, a cut-down copy of one of the records.
   */
  lemma {:induction false} ScanProvenance(rs: seq<Entry>, cumulative: real, target: real, rate: real)
    decreases |rs|
    ensures var w := Scan(rs, cumulative, target, rate);
      && (forall e :: e in w.removed ==> e in rs)
      && (forall e :: e in w.kept ==> e in rs || w.trimmed == Some(e))
      && (w.trimmed.Some? ==> w.trimmed.value in w.kept)
      && (w.trimmed.Some? ==> exists o :: o in rs && w.trimmed.value == Trim(o, w.trimmed.value.metersProduced, rate))
  {
    if rs != [] {
      var r := rs[0];
      var newTotal := cumulative + r.metersProduced;
      if newTotal <= target {
        if newTotal != target {
          ScanProvenance(rs[1..], newTotal, target, rate);
          var w := Scan(rs[1..], newTotal, target, rate);
          if w.trimmed.Some? {
            var o :| o in rs[1..] && w.trimmed.value == Trim(o, w.trimmed.value.metersProduced, rate);
            assert o in rs;
          }
        }
      } else if cumulative < target {
        assert r in rs;
      } else {
        ScanProvenance(rs[1..], cumulative, target, rate);
        var w := Scan(rs[1..], cumulative, target, rate);
        if w.trimmed.Some? {
          var o :| o in rs[1..] && w.trimmed.value == Trim(o, w.trimmed.value.metersProduced, rate);
          assert o in rs;
        }
      }
    }
  }

  /** The lot's total is the sum of what is kept; it exceeds the target only if nothing is kept. */
  lemma {:induction false} ScanTotals(rs: seq<Entry>, cumulative: real, target: real, rate: real)
    decreases |rs|
    ensures var w := Scan(rs, cumulative, target, rate);
      && w.cumulative == cumulative + SumMeters(w.kept)
      && (w.kept == [] ==> w.cumulative == cumulative)
      && (w.kept != [] ==> w.cumulative <= target)
      && (w.completionIndex >= 0 ==> w.cumulative == target)
  {
    if rs != [] {
      var r := rs[0];
      var newTotal := cumulative + r.metersProduced;
      if newTotal <= target {
        if newTotal != target {
          ScanTotals(rs[1..], newTotal, target, rate);
          var w := Scan(rs[1..], newTotal, target, rate);
          assert ([r] + w.kept)[1..] == w.kept;
        }
      } else if cumulative >= target {
        ScanTotals(rs[1..], cumulative, target, rate);
      }
    }
  }

  /**
   * The walk `w` from `cumulative` reached the target at record `c`: every
   * earlier record is kept unchanged, the record at `c` is kept whole if it
   * lands exactly on the target and is otherwise trimmed to the remaining
   * meters (strictly fewer than it had, and more than none), and all later
   * records are removed.
   */
  ghost predicate HitAt(rs: seq<Entry>, cumulative: real, target: real, rate: real, w: Walk)
  {
    var c := w.completionIndex;
    && 0 <= c < |rs|
    && var before := cumulative + SumMeters(rs[..c]);
       && |w.kept| == c + 1
       && w.kept[..c] == rs[..c]
       && w.removed == rs[c + 1..]
       && w.cumulative == target
       && before < target
       && (if before + rs[c].metersProduced == target
           then w.kept[c] == rs[c] && w.trimmed == None
           else && w.kept[c] == Trim(rs[c], target - before, rate)
                && w.trimmed == Some(w.kept[c])
                && 0.0 < w.kept[c].metersProduced < rs[c].metersProduced)
  }

  /** Below the target the walk either keeps everything or reaches the target (HitAt). */
  lemma {:induction false} ScanBelowTarget(rs: seq<Entry>, cumulative: real, target: real, rate: real)
    decreases |rs|
    requires cumulative < target
    ensures var w := Scan(rs, cumulative, target, rate);
      && (w.completionIndex == -1 ==>
            w.kept == rs && w.removed == [] && w.trimmed == None && w.cumulative < target)
      && (w.completionIndex >= 0 ==> HitAt(rs, cumulative, target, rate, w))
  {
    if rs != [] {
      var r := rs[0];
      var newTotal := cumulative + r.metersProduced;
      if newTotal < target {
        ScanBelowTarget(rs[1..], newTotal, target, rate);
        var w1 := Scan(rs[1..], newTotal, target, rate);
        if w1.completionIndex == -1 {
          assert rs == [r] + rs[1..];
        } else {
          HitLater(rs, cumulative, target, rate);
        }
      } else {
        HitFirst(rs, cumulative, target, rate);
      }
    }
  }

  /** The first record reaches the target: HitAt at position 0. */
  lemma HitFirst(rs: seq<Entry>, cumulative: real, target: real, rate: real)
    requires rs != [] && cumulative < target <= cumulative + rs[0].metersProduced
    ensures var w := Scan(rs, cumulative, target, rate);
      w.completionIndex == 0 && HitAt(rs, cumulative, target, rate, w)
  {
    var r := rs[0];
    assert rs[..0] == [] && SumMeters(rs[..0]) == 0.0;
    if cumulative + r.metersProduced == target {
      assert Scan(rs, cumulative, target, rate) == Walk([r], rs[1..], target, 0, None);
    } else {
      var t := Trim(r, target - cumulative, rate);
      assert Scan(rs, cumulative, target, rate) == Walk([t], rs[1..], target, 0, Some(t));
    }
  }

  /** HitAt carries over a record kept before the target is reached. */
  lemma HitLater(rs: seq<Entry>, cumulative: real, target: real, rate: real)
    requires rs != [] && cumulative + rs[0].metersProduced < target
    requires var w1 := Scan(rs[1..], cumulative + rs[0].metersProduced, target, rate);
      w1.completionIndex >= 0 && HitAt(rs[1..], cumulative + rs[0].metersProduced, target, rate, w1)
    ensures HitAt(rs, cumulative, target, rate, Scan(rs, cumulative, target, rate))
  {
    var r := rs[0];
    var newTotal := cumulative + r.metersProduced;
    var w1 := Scan(rs[1..], newTotal, target, rate);
    var c1 := w1.completionIndex;
    var c := c1 + 1;
    var w := Scan(rs, cumulative, target, rate);
    assert w == Walk([r] + w1.kept, w1.removed, w1.cumulative, c, w1.trimmed);
    HitPrefix(rs, c1, w1.kept);
    assert SumMeters(rs[..c]) == r.metersProduced + SumMeters(rs[1..][..c1]) by {
      assert rs[..c][1..] == rs[1..][..c1];
    }
  }

  /** Sequence facts behind HitLater: one more record in front shifts every position by one. */
  lemma HitPrefix(rs: seq<Entry>, c1: nat, k1: seq<Entry>)
    requires c1 + 1 < |rs| && |k1| == c1 + 1
    ensures rs[..c1 + 1] == [rs[0]] + rs[1..][..c1] && rs[1..][c1 + 1..] == rs[c1 + 2..]
    ensures ([rs[0]] + k1)[..c1 + 1] == [rs[0]] + k1[..c1] && ([rs[0]] + k1)[c1 + 1] == k1[c1]
    ensures rs[c1 + 1] == rs[1..][c1]
  {
  }

  /** A second walk over what the first one kept keeps all of it, unchanged, and removes nothing. */
  lemma {:induction false} ScanIdempotent(rs: seq<Entry>, cumulative: real, target: real, rate: real)
    decreases |rs|
    ensures var w := Scan(rs, cumulative, target, rate);
      var again := Scan(w.kept, cumulative, target, rate);
      again.kept == w.kept && again.removed == [] && again.trimmed == None &&
      again.cumulative == w.cumulative
  {
    if rs != [] {
      var r := rs[0];
      var newTotal := cumulative + r.metersProduced;
      if newTotal <= target {
        if newTotal != target {
          ScanIdempotent(rs[1..], newTotal, target, rate);
          var w1 := Scan(rs[1..], newTotal, target, rate);
          assert ([r] + w1.kept)[1..] == w1.kept;
        }
      } else if cumulative >= target {
        ScanIdempotent(rs[1..], cumulative, target, rate);
      }
    }
  }

  /** The records once the trimmed record, if any, is saved over its original. */
  function SavingTrim(rs: seq<Entry>, trimmed: Option<Entry>): seq<Entry>
  {
    if trimmed.Some? then Replaced(rs, trimmed.value) else rs
  }

  lemma UniqueTail(rs: seq<Entry>)
    requires rs != [] && UniqueIds(rs)
    ensures UniqueIds(rs[1..])
    ensures forall e :: e in rs[1..] ==> e.id != rs[0].id
  {
    forall e | e in rs[1..] ensures e.id != rs[0].id {
      var k :| 0 <= k < |rs[1..]| && rs[1..][k] == e;
      assert rs[k + 1] == e;
    }
  }

  lemma {:induction false} WithoutAllIds(s: seq<Entry>, ids: set<Id>)
    decreases |s|
    requires forall e :: e in s ==> e.id in ids
    ensures Without(s, ids) == []
  {
    if s != [] {
      WithoutAllIds(s[1..], ids);
    }
  }

  lemma {:induction false} ReplacedNone(s: seq<Entry>, r: Entry)
    decreases |s|
    requires forall e :: e in s ==> e.id != r.id
    ensures Replaced(s, r) == s
  {
    if s != [] {
      ReplacedNone(s[1..], r);
    }
  }

  /** The walk's own bookkeeping: the walked records, with the trim saved and the removals deleted, are what it kept. */
  lemma {:induction false} ScanFilter(rs: seq<Entry>, cumulative: real, target: real, rate: real)
    decreases |rs|
    requires UniqueIds(rs)
    ensures var w := Scan(rs, cumulative, target, rate);
      Without(SavingTrim(rs, w.trimmed), IdsOf(w.removed)) == w.kept
  {
    if rs != [] {
      var r := rs[0];
      var newTotal := cumulative + r.metersProduced;
      UniqueTail(rs);
      if newTotal == target {
        ScanFilterHit(rs);
      } else if newTotal < target {
        ScanFilter(rs[1..], newTotal, target, rate);
        ScanFilterKeep(rs, newTotal, target, rate);
      } else if cumulative < target {
        ScanFilterTrim(rs, Trim(r, target - cumulative, rate));
      } else {
        ScanFilter(rs[1..], cumulative, target, rate);
        ScanFilterRemove(rs, cumulative, target, rate);
      }
    }
  }

  lemma ScanFilterHit(rs: seq<Entry>)
    requires rs != [] && UniqueIds(rs)
    ensures Without(rs, IdsOf(rs[1..])) == [rs[0]]
  {
    UniqueTail(rs);
    WithoutAllIds(rs[1..], IdsOf(rs[1..]));
  }

  lemma ScanFilterTrim(rs: seq<Entry>, t: Entry)
    requires rs != [] && UniqueIds(rs) && t.id == rs[0].id
    ensures Without(Replaced(rs, t), IdsOf(rs[1..])) == [t]
  {
    UniqueTail(rs);
    ReplacedNone(rs[1..], t);
    assert Replaced(rs, t) == [t] + rs[1..];
    WithoutAllIds(rs[1..], IdsOf(rs[1..]));
  }

  lemma ScanFilterKeep(rs: seq<Entry>, newTotal: real, target: real, rate: real)
    requires rs != [] && UniqueIds(rs)
    requires var w := Scan(rs[1..], newTotal, target, rate);
      Without(SavingTrim(rs[1..], w.trimmed), IdsOf(w.removed)) == w.kept
    ensures var w := Scan(rs[1..], newTotal, target, rate);
      Without(SavingTrim(rs, w.trimmed), IdsOf(w.removed)) == [rs[0]] + w.kept
  {
    var w := Scan(rs[1..], newTotal, target, rate);
    UniqueTail(rs);
    ScanProvenance(rs[1..], newTotal, target, rate);
    SavingTrimCons(rs, w.trimmed, rate);
    assert rs[0].id !in IdsOf(w.removed);
  }

  lemma IdsOfCons(e: Entry, s: seq<Entry>)
    ensures IdsOf([e] + s) == {e.id} + IdsOf(s)
  {
    assert forall x :: x in [e] + s <==> x == e || x in s;
  }

  lemma ScanFilterRemove(rs: seq<Entry>, cumulative: real, target: real, rate: real)
    requires rs != [] && UniqueIds(rs)
    requires var w := Scan(rs[1..], cumulative, target, rate);
      Without(SavingTrim(rs[1..], w.trimmed), IdsOf(w.removed)) == w.kept
    ensures var w := Scan(rs[1..], cumulative, target, rate);
      Without(SavingTrim(rs, w.trimmed), IdsOf([rs[0]] + w.removed)) == w.kept
  {
    var w := Scan(rs[1..], cumulative, target, rate);
    ScanProvenance(rs[1..], cumulative, target, rate);
    DropRemoved(rs, w.trimmed, w.removed, rate);
  }

  /** Deleting the first record along with `removed` is deleting `removed` from the rest. */
  lemma DropRemoved(rs: seq<Entry>, trimmed: Option<Entry>, removed: seq<Entry>, rate: real)
    requires rs != [] && UniqueIds(rs)
    requires trimmed.Some? ==> exists o :: o in rs[1..] && trimmed.value == Trim(o, trimmed.value.metersProduced, rate)
    ensures Without(SavingTrim(rs, trimmed), IdsOf([rs[0]] + removed))
         == Without(SavingTrim(rs[1..], trimmed), IdsOf(removed))
  {
    UniqueTail(rs);
    SavingTrimCons(rs, trimmed, rate);
    var rest := SavingTrim(rs[1..], trimmed);
    var ids := IdsOf([rs[0]] + removed);
    IdsOfCons(rs[0], removed);
    assert Without(SavingTrim(rs, trimmed), ids) == Without(rest, ids) by {
      assert SavingTrim(rs, trimmed) == [rs[0]] + rest;
    }
    assert forall e :: e in rest ==> e.id != rs[0].id by {
      if trimmed.Some? {
        ReplacedMembers(rs[1..], trimmed.value);
      }
    }
    WithoutSameIds(rest, {rs[0].id} + IdsOf(removed), IdsOf(removed));
  }

  /**
   * A trim made from one of the later records leaves the first record alone,
   * and keeps the id of the record it came from.
   */
  lemma SavingTrimCons(rs: seq<Entry>, trimmed: Option<Entry>, rate: real)
    requires rs != [] && (forall e :: e in rs[1..] ==> e.id != rs[0].id)
    requires trimmed.Some? ==> exists o :: o in rs[1..] && trimmed.value == Trim(o, trimmed.value.metersProduced, rate)
    ensures SavingTrim(rs, trimmed) == [rs[0]] + SavingTrim(rs[1..], trimmed)
    ensures trimmed.Some? ==> trimmed.value.id != rs[0].id
  {
    if trimmed.Some? {
      var o :| o in rs[1..] && trimmed.value == Trim(o, trimmed.value.metersProduced, rate);
      assert Replaced(rs, trimmed.value)[1..] == Replaced(rs[1..], trimmed.value);
    }
  }

  // ---------------------------------------------------------------------------
  // Properties of one lot's reconciliation

  /**
   * The lot's new figures: earnings are its meters at the lot's rate; the
   * meters are the sum of the kept records and never exceed a non-negative
   * target; the status is Completed exactly when the meters reach the target,
   * and for a lot without records exactly when the target is not positive.
   */
  lemma ReconcileLotTotals(rs: seq<Entry>, target: real, rate: real)
    ensures var o := ReconcileLot(rs, target, rate);
      && o.totalEarnings == o.totalMeters * rate
      && o.totalMeters == SumMeters(o.kept)
      && (o.kept == [] ==> o.totalMeters == 0.0)
      && (o.kept != [] || target >= 0.0 ==> o.totalMeters <= target)
      && (rs == [] ==> (o.status == Active <==> target > 0.0))
      && (rs != [] ==> (o.status == Completed <==> o.totalMeters >= target))
  {
    if rs != [] {
      ScanTotals(rs, 0.0, target, rate);
    }
  }

  /** Kept and removed records partition the lot's records by id; only the trimmed record is new. */
  lemma ReconcileLotPartition(rs: seq<Entry>, target: real, rate: real)
    ensures var o := ReconcileLot(rs, target, rate);
      && multiset(IdList(o.kept)) + multiset(IdList(o.removed)) == multiset(IdList(rs))
      && (forall e :: e in o.removed ==> e in rs)
      && (forall e :: e in o.kept ==> e in rs || o.trimmed == Some(e))
  {
    if rs != [] {
      ScanIds(rs, 0.0, target, rate);
      ScanProvenance(rs, 0.0, target, rate);
    }
  }

  /** With unique ids in the lot, no record is both kept and removed. */
  lemma ReconcileLotDisjoint(rs: seq<Entry>, target: real, rate: real)
    requires UniqueIds(rs)
    ensures var o := ReconcileLot(rs, target, rate);
      IdsOf(o.kept) !! IdsOf(o.removed)
  {
    var o := ReconcileLot(rs, target, rate);
    ReconcileLotPartition(rs, target, rate);
    forall x | x in IdsOf(o.kept) ensures x !in IdsOf(o.removed) {
      IdsOfListed(o.kept, x);
      IdsOfListed(o.removed, x);
      UniqueIdCount(rs, x);
    }
  }

  /**
   * For a positive target the kept records are a prefix of the lot's records
   * and the removed ones are exactly the rest; at most the last kept record
   * is trimmed, to the meters the earlier ones left below the target, which
   * are more than none and fewer than it had.
   */
  lemma ReconcileLotPrefix(rs: seq<Entry>, target: real, rate: real)
    requires target > 0.0 && rs != []
    ensures var o := ReconcileLot(rs, target, rate);
      var n := |o.kept|;
      && 0 < n <= |rs|
      && o.kept[..n - 1] == rs[..n - 1]
      && o.removed == rs[n..]
      && (o.trimmed == None ==> o.kept[n - 1] == rs[n - 1])
      && (o.trimmed.Some? ==>
            && o.trimmed.value == o.kept[n - 1]
            && o.kept[n - 1] == Trim(rs[n - 1], target - SumMeters(rs[..n - 1]), rate)
            && 0.0 < o.kept[n - 1].metersProduced < rs[n - 1].metersProduced
            && o.totalMeters == target)
  {
    ScanBelowTarget(rs, 0.0, target, rate);
    var w := Scan(rs, 0.0, target, rate);
    if w.completionIndex == -1 {
      assert rs[|rs|..] == [];
    }
  }

  /** Reconciling a lot again, over the records the first run kept, changes nothing. */
  lemma ReconcileLotIdempotent(rs: seq<Entry>, target: real, rate: real)
    ensures var o := ReconcileLot(rs, target, rate);
      var again := ReconcileLot(o.kept, target, rate);
      && again.kept == o.kept && again.removed == [] && again.trimmed == None
      && again.totalMeters == o.totalMeters && again.totalEarnings == o.totalEarnings
      && again.status == o.status
  {
    if rs != [] {
      var w := Scan(rs, 0.0, target, rate);
      var o := ReconcileLot(rs, target, rate);
      assert o.kept == w.kept && o.totalMeters == w.cumulative && o.totalEarnings == Earned(w.cumulative, rate);
      if w.kept == [] {
        NothingKept(rs, target, rate);
        assert o.totalMeters == 0.0 && o.status == Completed;
      } else {
        ScanIdempotent(rs, 0.0, target, rate);
        var again := Scan(w.kept, 0.0, target, rate);
        assert ReconcileLot(o.kept, target, rate).totalMeters == again.cumulative;
      }
    }
  }

  /** A walk over a non-empty lot keeps nothing only when the target is not positive. */
  lemma NothingKept(rs: seq<Entry>, target: real, rate: real)
    requires rs != [] && Scan(rs, 0.0, target, rate).kept == []
    ensures target <= 0.0 && Scan(rs, 0.0, target, rate).cumulative == 0.0
  {
    ScanTotals(rs, 0.0, target, rate);
    if target > 0.0 {
      ScanBelowTarget(rs, 0.0, target, rate);
    }
  }

  // ---------------------------------------------------------------------------
  // Effect on the store

  /** A record of lot `id`, as the lot query returns it, is a record of the store. */
  lemma LotRecordOfStore(s: seq<Entry>, id: Id, e: Entry)
    requires e in LotRecords(s, id)
    ensures e in s && e.taka == Some(id)
  {
    assert e in multiset(LotRecords(s, id));
    assert e in multiset(OfTaka(s, id));
    OfTakaMembers(s, id);
  }

  /** Reconciling lot `id` leaves the records of every other lot as they were, in order. */
  lemma AppliedKeepsOtherLots(s: seq<Entry>, id: Id, target: real, rate: real, k: Id)
    requires ConsistentIds(s) && k != id
    ensures var o := ReconcileLot(LotRecords(s, id), target, rate);
      OfTaka(Applied(s, o), k) == OfTaka(s, k)
  {
    var rs := LotRecords(s, id);
    var o := ReconcileLot(rs, target, rate);
    if rs != [] {
      ScanProvenance(rs, 0.0, target, rate);
    }
    assert forall r :: r in o.removed ==> r in s && r.taka == Some(id) by {
      forall r | r in o.removed ensures r in s && r.taka == Some(id) {
        LotRecordOfStore(s, id, r);
      }
    }
    var s1 := if o.trimmed.Some? then Replaced(s, o.trimmed.value) else s;
    if o.trimmed.Some? {
      var t := o.trimmed.value;
      assert t.taka == Some(id) && forall e :: e in s && e.id == t.id ==> e.taka == Some(id) by {
        var orig :| orig in rs && t == Trim(orig, t.metersProduced, rate);
        LotRecordOfStore(s, id, orig);
      }
      OfTakaReplaced(s, t, k);
      ReplacedMembers(s, t);
    }
    assert forall e :: e in s1 && e.taka == Some(k) ==> e.id !in IdsOf(o.removed);
    OfTakaWithout(s1, IdsOf(o.removed), k);
  }

  /**
   * One lot's pass (fix-taka-completions.js, the body of the loop over the
   * lots): the store and the lot end up as ReconcileLot decides for the lot's
   * records in date order.
   */
  method ReconcileTaka(taka: Taka, store: ProductionStore) returns (kept: seq<Entry>, removed: seq<Entry>)
    requires store.Valid()
    modifies taka, store
    ensures store.Valid()
    ensures var o := ReconcileLot(LotRecords(old(store.records), taka.id),
                                  old(taka.targetMeters), old(taka.ratePerMeter));
      && kept == o.kept && removed == o.removed
      && store.records == Applied(old(store.records), o)
      && taka.totalMeters == o.totalMeters && taka.totalEarnings == o.totalEarnings
      && taka.status == o.status
    ensures taka.targetMeters == old(taka.targetMeters) && taka.ratePerMeter == old(taka.ratePerMeter)
  {
    var records := LotRecords(store.records, taka.id);
    var target, rate := taka.targetMeters, taka.ratePerMeter;
    if |records| == 0 {
      taka.totalMeters := 0.0;
      taka.totalEarnings := 0.0;
      taka.status := if target > 0.0 then Active else Completed;
      assert IdsOf([]) == {};
      WithoutNothing(store.records);
      return [], [];
    }
    var cumulative;
    kept, removed, cumulative := WalkRecords(records, target, rate, store);
    DeleteRecords(store, removed);
    taka.totalMeters := cumulative;
    taka.totalEarnings := Earned(cumulative, rate);
    taka.status := if cumulative >= target then Completed else Active;
  }

  /**
   * The walk over one lot's records in date order (fix-taka-completions.js,
   * the loop over the records and the collection of the records after the
   * completion point); the trimmed record is saved as soon as it is cut down.
   */
  method WalkRecords(records: seq<Entry>, target: real, rate: real, store: ProductionStore)
    returns (kept: seq<Entry>, removed: seq<Entry>, cumulative: real)
    requires store.Valid()
    modifies store
    ensures store.Valid()
    ensures var w := Scan(records, 0.0, target, rate);
      && kept == w.kept && removed == w.removed && cumulative == w.cumulative
      && store.records == if w.trimmed.Some? then Replaced(old(store.records), w.trimmed.value)
                          else old(store.records)
  {
    var completionIndex;
    kept, removed, cumulative, completionIndex := WalkUntilTarget(records, target, rate, store);
    if completionIndex >= 0 {
      removed := AppendFrom(removed, records, completionIndex + 1);
    }
  }

  /**
   * The loop over the records up to the completion point, if any: the walk
   * so far, with the records after the completion point still to be added
   * to the removed ones.
   */
  method WalkUntilTarget(records: seq<Entry>, target: real, rate: real, store: ProductionStore)
    returns (kept: seq<Entry>, removed: seq<Entry>, cumulative: real, completionIndex: int)
    requires store.Valid()
    modifies store
    ensures store.Valid()
    ensures WalkedTo(records, target, rate, kept, removed, cumulative, completionIndex)
    ensures var w := Scan(records, 0.0, target, rate);
      store.records == if w.trimmed.Some? then Replaced(old(store.records), w.trimmed.value)
                       else old(store.records)
  {
    ghost var s0 := store.records;
    ghost var walk := Scan(records, 0.0, target, rate);
    cumulative := 0.0;
    completionIndex := -1;
    kept, removed := [], [];
    var i := 0;
    while i < |records|
      invariant 0 <= i <= |records|
      invariant store.records == s0
      invariant walk == After(kept, removed, i, Scan(records[i..], cumulative, target, rate))
    {
      var record := records[i];
      var newTotal := cumulative + record.metersProduced;
      if newTotal <= target {
        if newTotal == target {
          AfterHit(kept, removed, records, i, cumulative, target, rate);
          cumulative := newTotal;
          kept := kept + [record];
          completionIndex := i;
          StoppedAt(records, target, rate, kept, removed, i, None);
          return;
        }
        AfterKeep(kept, removed, records, i, cumulative, target, rate);
        cumulative := newTotal;
        kept := kept + [record];
      } else if cumulative < target {
        AfterTrim(kept, removed, records, i, cumulative, target, rate);
        var remaining := target - cumulative;
        var adjusted := Trim(record, remaining, rate);
        cumulative := target;
        kept := kept + [adjusted];
        completionIndex := i;
        StoppedAt(records, target, rate, kept, removed, i, Some(adjusted));
        store.Save(adjusted);
        return;
      } else {
        AfterRemove(kept, removed, records, i, cumulative, target, rate);
        removed := removed + [record];
      }
      i := i + 1;
    }
  }

  /** The walk stopped at position `c`: everything after it is left for removal. */
  lemma StoppedAt(records: seq<Entry>, target: real, rate: real, kept: seq<Entry>,
                  removed: seq<Entry>, c: nat, trimmed: Option<Entry>)
    requires c < |records|
    requires Scan(records, 0.0, target, rate) == Walk(kept, removed + records[c + 1..], target, c, trimmed)
    ensures WalkedTo(records, target, rate, kept, removed, target, c)
  {
  }

  /**
   * The walk up to the completion point: what was kept and counted, and the
   * removed records but for those after the completion point.
   */
  ghost predicate WalkedTo(records: seq<Entry>, target: real, rate: real, kept: seq<Entry>,
                           removed: seq<Entry>, cumulative: real, completionIndex: int)
  {
    var w := Scan(records, 0.0, target, rate);
    && completionIndex == w.completionIndex < |records|
    && kept == w.kept && cumulative == w.cumulative
    && removed + (if completionIndex >= 0 then records[completionIndex + 1..] else []) == w.removed
  }

  // One step of the walk at position `i`, one lemma per branch of the loop body.

  lemma AfterKeep(kept: seq<Entry>, removed: seq<Entry>, rs: seq<Entry>, i: nat,
                  cumulative: real, target: real, rate: real)
    requires i < |rs| && cumulative + rs[i].metersProduced < target
    ensures After(kept, removed, i, Scan(rs[i..], cumulative, target, rate))
         == After(kept + [rs[i]], removed, i + 1,
                  Scan(rs[i + 1..], cumulative + rs[i].metersProduced, target, rate))
  {
    assert rs[i..][1..] == rs[i + 1..];
  }

  lemma AfterHit(kept: seq<Entry>, removed: seq<Entry>, rs: seq<Entry>, i: nat,
                 cumulative: real, target: real, rate: real)
    requires i < |rs| && cumulative + rs[i].metersProduced == target
    ensures After(kept, removed, i, Scan(rs[i..], cumulative, target, rate))
         == Walk(kept + [rs[i]], removed + rs[i + 1..], target, i, None)
  {
    assert rs[i..][1..] == rs[i + 1..];
  }

  lemma AfterTrim(kept: seq<Entry>, removed: seq<Entry>, rs: seq<Entry>, i: nat,
                  cumulative: real, target: real, rate: real)
    requires i < |rs| && cumulative + rs[i].metersProduced > target && cumulative < target
    ensures var t := Trim(rs[i], target - cumulative, rate);
      After(kept, removed, i, Scan(rs[i..], cumulative, target, rate))
         == Walk(kept + [t], removed + rs[i + 1..], target, i, Some(t))
  {
    assert rs[i..][1..] == rs[i + 1..];
  }

  lemma AfterRemove(kept: seq<Entry>, removed: seq<Entry>, rs: seq<Entry>, i: nat,
                    cumulative: real, target: real, rate: real)
    requires i < |rs| && cumulative + rs[i].metersProduced > target && cumulative >= target
    ensures After(kept, removed, i, Scan(rs[i..], cumulative, target, rate))
         == After(kept, removed + [rs[i]], i + 1, Scan(rs[i + 1..], cumulative, target, rate))
  {
    assert rs[i..][1..] == rs[i + 1..];
  }

  /** `removed` followed by the records from position `from` on, pushed one by one. */
  method AppendFrom(removed: seq<Entry>, records: seq<Entry>, from: nat) returns (r: seq<Entry>)
    requires from <= |records|
    ensures r == removed + records[from..]
  {
    r := removed;
    var j := from;
    while j < |records|
      invariant from <= j <= |records|
      invariant r == removed + records[from..j]
    {
      r := r + [records[j]];
      j := j + 1;
    }
    assert records[from..j] == records[from..];
  }

  /** `Production.deleteOne` for each record in turn (fix-taka-completions.js, the removal loop). */
  method DeleteRecords(store: ProductionStore, removed: seq<Entry>)
    requires store.Valid()
    modifies store
    ensures store.Valid() && store.records == Without(old(store.records), IdsOf(removed))
  {
    ghost var saved := store.records;
    assert IdsOf(removed[..0]) == {};
    WithoutNothing(saved);
    var k := 0;
    while k < |removed|
      invariant 0 <= k <= |removed|
      invariant store.Valid() && store.records == Without(saved, IdsOf(removed[..k]))
    {
      store.DeleteOne(removed[k].id);
      WithoutTwice(saved, IdsOf(removed[..k]), {removed[k].id});
      assert IdsOf(removed[..k + 1]) == IdsOf(removed[..k]) + {removed[k].id} by {
        assert removed[..k + 1] == removed[..k] + [removed[k]];
      }
      k := k + 1;
    }
    assert removed[..k] == removed;
  }

  // ---------------------------------------------------------------------------
  // The whole run: every lot in turn, then the orphan purge

  /** A lot's id, target and rate as the run reads them. */
  datatype LotTerms = LotTerms(id: Id, target: real, rate: real)

  function Terms(takas: seq<Taka>): (r: seq<LotTerms>)
    reads set t | t in takas
    ensures |r| == |takas|
    ensures forall j :: 0 <= j < |takas| ==>
              r[j] == LotTerms(takas[j].id, takas[j].targetMeters, takas[j].ratePerMeter)
  {
    if takas == [] then []
    else [LotTerms(takas[0].id, takas[0].targetMeters, takas[0].ratePerMeter)] + Terms(takas[1..])
  }

  /** The store after lot `l` is reconciled. */
  function Step(s: seq<Entry>, l: LotTerms): seq<Entry>
  {
    Applied(s, ReconcileLot(LotRecords(s, l.id), l.target, l.rate))
  }

  /** The store after reconciling the first `n` lots one after another. */
  function ReconcileFirst(s: seq<Entry>, lots: seq<LotTerms>, n: nat): seq<Entry>
    requires n <= |lots|
  {
    if n == 0 then s else Step(ReconcileFirst(s, lots, n - 1), lots[n - 1])
  }

  lemma AppliedUnique(s: seq<Entry>, o: Outcome)
    requires UniqueIds(s)
    ensures UniqueIds(Applied(s, o))
  {
    if o.trimmed.Some? {
      ReplacedUnique(s, o.trimmed.value);
      WithoutUnique(Replaced(s, o.trimmed.value), IdsOf(o.removed));
    } else {
      WithoutUnique(s, IdsOf(o.removed));
    }
  }

  /** Reconciling lot `l` keeps the ids unique and leaves the records of every other lot as they were. */
  lemma StepKeepsOthers(s: seq<Entry>, l: LotTerms, k: Id)
    requires UniqueIds(s) && l.id != k
    ensures UniqueIds(Step(s, l)) && OfTaka(Step(s, l), k) == OfTaka(s, k)
  {
    UniqueIdsConsistent(s);
    AppliedKeepsOtherLots(s, l.id, l.target, l.rate, k);
    AppliedUnique(s, ReconcileLot(LotRecords(s, l.id), l.target, l.rate));
  }

  /**
   * After lot `l` is reconciled, the lot query returns exactly the records
   * ReconcileLot kept, in that order.
   */
  lemma StepLotRecords(s: seq<Entry>, l: LotTerms)
    requires UniqueIds(s)
    ensures LotRecords(Step(s, l), l.id) == ReconcileLot(LotRecords(s, l.id), l.target, l.rate).kept
  {
    var rs := LotRecords(s, l.id);
    var o := ReconcileLot(rs, l.target, l.rate);
    if rs == [] {
      assert IdsOf(o.removed) == {};
      WithoutNothing(s);
    } else {
      var ids := IdsOf(o.removed);
      var lot := OfTaka(s, l.id);
      OfTakaUnique(s, l.id);
      SortUnique(lot, EarlierThan);
      ScanFilter(rs, 0.0, l.target, l.rate);
      DateOrdersAreStrict();
      OfTakaWithoutCommutes(SavingTrim(s, o.trimmed), ids, l.id);
      WithoutSort(SavingTrim(lot, o.trimmed), ids, EarlierThan);
      if o.trimmed.Some? {
        StepLotRecordsTrimmed(s, l.id, o.trimmed.value, l.target, l.rate);
      }
    }
  }

  /** The trimmed record is saved over its original, a record of the lot with the same date. */
  lemma StepLotRecordsTrimmed(s: seq<Entry>, id: Id, t: Entry, target: real, rate: real)
    requires UniqueIds(s)
    requires ReconcileLot(LotRecords(s, id), target, rate).trimmed == Some(t)
    ensures OfTaka(Replaced(s, t), id) == Replaced(OfTaka(s, id), t)
    ensures Replaced(LotRecords(s, id), t) == ByDateAscending(Replaced(OfTaka(s, id), t))
  {
    var rs := LotRecords(s, id);
    ScanProvenance(rs, 0.0, target, rate);
    var orig :| orig in rs && t == Trim(orig, t.metersProduced, rate);
    LotRecordOfStore(s, id, orig);
    UniqueIdsConsistent(s);
    OfTakaReplacedCommutes(s, t, id);
    OfTakaMembers(s, id);
    ReplacedSort(OfTaka(s, id), t);
  }

  /** Reconciling a lot a second time changes neither the store nor the lot's figures. */
  lemma StepIdempotent(s: seq<Entry>, l: LotTerms)
    requires UniqueIds(s)
    ensures Step(Step(s, l), l) == Step(s, l)
    ensures var o := ReconcileLot(LotRecords(s, l.id), l.target, l.rate);
      var again := ReconcileLot(LotRecords(Step(s, l), l.id), l.target, l.rate);
      again.totalMeters == o.totalMeters && again.totalEarnings == o.totalEarnings && again.status == o.status
  {
    StepLotRecords(s, l);
    ReconcileLotIdempotent(LotRecords(s, l.id), l.target, l.rate);
    var s1 := Step(s, l);
    assert IdsOf([]) == {};
    WithoutNothing(s1);
  }

  /**
   * After lot `i` is reconciled, every later lot still has the records it had
   * when the run started, so each lot is reconciled over its original records.
   */
  lemma StepKeepsLater(s: seq<Entry>, s0: seq<Entry>, lots: seq<LotTerms>, i: nat)
    requires i < |lots| && UniqueIds(s) && DistinctLots(lots)
    requires LaterUntouched(s, s0, lots, i)
    ensures UniqueIds(Step(s, lots[i]))
    ensures LaterUntouched(Step(s, lots[i]), s0, lots, i + 1)
  {
    AppliedUnique(s, ReconcileLot(LotRecords(s, lots[i].id), lots[i].target, lots[i].rate));
    forall j | i < j < |lots| ensures OfTaka(Step(s, lots[i]), lots[j].id) == OfTaka(s0, lots[j].id) {
      StepKeepsOthers(s, lots[i], lots[j].id);
    }
  }

  /** `Production.find({ taka: null })`: the records without a lot, in store order. */
  function Orphans(s: seq<Entry>): (r: seq<Entry>)
    ensures forall e :: e in r <==> e in s && e.taka == None
  {
    if s == [] then []
    else if s[0].taka == None then [s[0]] + Orphans(s[1..])
    else Orphans(s[1..])
  }

  /** The records that have a lot, in store order. */
  function Assigned(s: seq<Entry>): (r: seq<Entry>)
    ensures forall e :: e in r <==> e in s && e.taka.Some?
  {
    if s == [] then []
    else if s[0].taka.Some? then [s[0]] + Assigned(s[1..])
    else Assigned(s[1..])
  }

  lemma {:induction false} WithoutSameIds(s: seq<Entry>, a: set<Id>, b: set<Id>)
    decreases |s|
    requires forall e :: e in s ==> (e.id in a <==> e.id in b)
    ensures Without(s, a) == Without(s, b)
  {
    if s != [] {
      WithoutSameIds(s[1..], a, b);
    }
  }

  /**
   * Deleting the orphans' ids removes exactly the records without a lot and
   * leaves every other record untouched and in order.
   */
  lemma {:induction false} PurgeKeepsAssigned(s: seq<Entry>)
    decreases |s|
    requires UniqueIds(s)
    ensures Without(s, IdsOf(Orphans(s))) == Assigned(s)
  {
    if s != [] {
      var rest := s[1..];
      assert UniqueIds(rest) by {
        forall i, j | 0 <= i < j < |rest| ensures rest[i].id != rest[j].id {
          assert rest[i] == s[i + 1] && rest[j] == s[j + 1];
        }
      }
      PurgeKeepsAssigned(rest);
      UniqueIdsConsistent(s);
      forall e | e in rest ensures e.id in IdsOf(Orphans(s)) <==> e.id in IdsOf(Orphans(rest)) {
        var k :| 0 <= k < |rest| && rest[k] == e;
        assert s[k + 1] == e && e.id != s[0].id;
        if e.id in IdsOf(Orphans(s)) {
          var o :| o in Orphans(s) && o.id == e.id;
          assert o in s && e in s;
        }
      }
      WithoutSameIds(rest, IdsOf(Orphans(s)), IdsOf(Orphans(rest)));
      if s[0].taka == None {
        assert s[0] in Orphans(s);
      } else {
        assert s[0].id !in IdsOf(Orphans(s));
      }
    }
  }

  /**
   * The orphans the purge gets through: those before the first one without a
   * date, whose `toDateString` throws and ends the run.
   */
  function UntilUndated(os: seq<Entry>): (r: seq<Entry>)
    ensures |r| <= |os| && r == os[..|r|]
    ensures forall i :: 0 <= i < |r| ==> r[i].date.Some?
    ensures |r| < |os| ==> os[|r|].date.None?
  {
    if os == [] || os[0].date.None? then []
    else [os[0]] + UntilUndated(os[1..])
  }

  /** Where the first `k` orphans are dated and the next is not (or there is none), the purge stops at `k`. */
  lemma {:induction false} UntilUndatedAt(os: seq<Entry>, k: nat)
    decreases k
    requires k <= |os| && (forall i :: 0 <= i < k ==> os[i].date.Some?)
    requires k == |os| || os[k].date.None?
    ensures UntilUndated(os) == os[..k]
  {
    if k > 0 {
      UntilUndatedAt(os[1..], k - 1);
      assert os[..k] == [os[0]] + os[1..][..k - 1];
    }
  }

  /** Deleting the ids of one more record of `os`. */
  lemma WithoutPrefixNext(s: seq<Entry>, os: seq<Entry>, k: nat)
    requires k < |os|
    ensures Without(Without(s, IdsOf(os[..k])), {os[k].id}) == Without(s, IdsOf(os[..k + 1]))
  {
    WithoutTwice(s, IdsOf(os[..k]), {os[k].id});
    assert os[..k + 1] == os[..k] + [os[k]];
    IdsOfSnoc(os[..k], os[k]);
  }

  lemma AllDated(os: seq<Entry>)
    requires forall i :: 0 <= i < |os| ==> os[i].date.Some?
    ensures forall e :: e in os ==> e.date.Some?
  {
    forall e | e in os ensures e.date.Some? {
      var i :| 0 <= i < |os| && os[i] == e;
    }
  }

  /**
   * The orphan purge (fix-taka-completions.js, after the loop over the lots):
   * each orphan in turn has its date printed and is deleted, until one
   * without a date ends the run; the orphans before it are gone.
   */
  method PurgeOrphans(store: ProductionStore) returns (r: Checked<seq<Entry>>)
    requires store.Valid()
    modifies store
    ensures store.Valid()
    ensures r.MissingDate? <==> exists e :: e in Orphans(old(store.records)) && e.date.None?
    ensures r.Checked? ==> r.value == Orphans(old(store.records))
    ensures store.records == Without(old(store.records), IdsOf(UntilUndated(Orphans(old(store.records)))))
    ensures r.Checked? ==> store.records == Assigned(old(store.records))
  {
    ghost var saved := store.records;
    var orphaned := Orphans(store.records);
    assert IdsOf(orphaned[..0]) == {};
    WithoutNothing(saved);
    var k := 0;
    while k < |orphaned|
      invariant 0 <= k <= |orphaned|
      invariant forall i :: 0 <= i < k ==> orphaned[i].date.Some?
      invariant store.Valid() && store.records == Without(saved, IdsOf(orphaned[..k]))
    {
      if orphaned[k].date.None? {
        PurgeStops(saved, k);
        return MissingDate;
      }
      assert forall i :: 0 <= i < k + 1 ==> orphaned[i].date.Some?;
      store.DeleteOne(orphaned[k].id);
      WithoutPrefixNext(saved, orphaned, k);
      k := k + 1;
    }
    assert orphaned[..k] == orphaned;
    PurgeCompletes(saved);
    return Checked(orphaned);
  }

  /** The purge meets an undated orphan at `k`: it has deleted exactly the orphans before it. */
  lemma PurgeStops(s: seq<Entry>, k: nat)
    requires k < |Orphans(s)| && Orphans(s)[k].date.None?
    requires forall i :: 0 <= i < k ==> Orphans(s)[i].date.Some?
    ensures UntilUndated(Orphans(s)) == Orphans(s)[..k]
    ensures exists e :: e in Orphans(s) && e.date.None?
  {
    UntilUndatedAt(Orphans(s), k);
    assert Orphans(s)[k] in Orphans(s);
  }

  /** Every orphan is dated: the purge deletes all of them and keeps the records of lots. */
  lemma PurgeCompletes(s: seq<Entry>)
    requires UniqueIds(s)
    requires forall i :: 0 <= i < |Orphans(s)| ==> Orphans(s)[i].date.Some?
    ensures UntilUndated(Orphans(s)) == Orphans(s)
    ensures !exists e :: e in Orphans(s) && e.date.None?
    ensures Without(s, IdsOf(Orphans(s))) == Assigned(s)
  {
    var os := Orphans(s);
    UntilUndatedAt(os, |os|);
    assert os[..|os|] == os;
    AllDated(os);
    PurgeKeepsAssigned(s);
  }

  /** Saving a record of a lot leaves the records without a lot as they were. */
  lemma {:induction false} OrphansReplaced(s: seq<Entry>, r: Entry)
    decreases |s|
    requires r.taka.Some?
    requires forall e :: e in s && e.id == r.id ==> e.taka.Some?
    ensures Orphans(Replaced(s, r)) == Orphans(s)
  {
    if s != [] {
      OrphansReplaced(s[1..], r);
    }
  }

  /** Deleting records of lots leaves the records without a lot as they were. */
  lemma {:induction false} OrphansWithout(s: seq<Entry>, ids: set<Id>)
    decreases |s|
    requires forall e :: e in s && e.taka == None ==> e.id !in ids
    ensures Orphans(Without(s, ids)) == Orphans(s)
  {
    if s != [] {
      OrphansWithout(s[1..], ids);
    }
  }

  /** Reconciling a lot neither deletes nor changes a record without a lot. */
  lemma AppliedKeepsOrphans(s: seq<Entry>, id: Id, target: real, rate: real)
    requires ConsistentIds(s)
    ensures var o := ReconcileLot(LotRecords(s, id), target, rate);
      Orphans(Applied(s, o)) == Orphans(s)
  {
    var rs := LotRecords(s, id);
    var o := ReconcileLot(rs, target, rate);
    if rs != [] {
      ScanProvenance(rs, 0.0, target, rate);
    }
    var s1 := if o.trimmed.Some? then Replaced(s, o.trimmed.value) else s;
    if o.trimmed.Some? {
      var t := o.trimmed.value;
      var orig :| orig in rs && t == Trim(orig, t.metersProduced, rate);
      LotRecordOfStore(s, id, orig);
      OrphansReplaced(s, t);
      ReplacedMembers(s, t);
    }
    forall e | e in s1 && e.taka == None ensures e.id !in IdsOf(o.removed) {
      if e.id in IdsOf(o.removed) {
        var r :| r in o.removed && r.id == e.id;
        LotRecordOfStore(s, id, r);
        assert false;
      }
    }
    OrphansWithout(s1, IdsOf(o.removed));
  }

  lemma StepKeepsOrphans(s: seq<Entry>, l: LotTerms)
    requires UniqueIds(s)
    ensures UniqueIds(Step(s, l)) && Orphans(Step(s, l)) == Orphans(s)
  {
    UniqueIdsConsistent(s);
    AppliedKeepsOrphans(s, l.id, l.target, l.rate);
    AppliedUnique(s, ReconcileLot(LotRecords(s, l.id), l.target, l.rate));
  }

  /** Lot `t` carries the figures ReconcileLot gives for its records in `s` and its terms `l`. */
  ghost predicate Settled(t: Taka, s: seq<Entry>, l: LotTerms)
    reads t
  {
    var o := ReconcileLot(LotRecords(s, t.id), l.target, l.rate);
    && t.totalMeters == o.totalMeters && t.totalEarnings == o.totalEarnings && t.status == o.status
    && t.targetMeters == l.target && t.ratePerMeter == l.rate
  }

  /**
   * The loop over the lots (fix-taka-completions.js): each lot is settled
   * against the records it had when the run started.
   */
  method ReconcileTakas(takas: seq<Taka>, store: ProductionStore)
    requires store.Valid()
    requires forall i, j :: 0 <= i < j < |takas| ==> takas[i].id != takas[j].id
    modifies store, set t | t in takas
    ensures store.Valid()
    ensures store.records == ReconcileFirst(old(store.records), old(Terms(takas)), |takas|)
    ensures SettledUpTo(takas, old(store.records), old(Terms(takas)), |takas|)
    ensures Orphans(store.records) == Orphans(old(store.records))
  {
    ghost var s0 := store.records;
    ghost var lots := Terms(takas);
    ProgressStart(takas, s0);
    var i := 0;
    while i < |takas|
      invariant 0 <= i <= |takas|
      invariant store.Valid() && store.records == ReconcileFirst(s0, lots, i)
      invariant Progress(takas, store.records, s0, lots, i)
      invariant Orphans(store.records) == Orphans(s0)
    {
      StepKeepsOrphans(store.records, lots[i]);
      SettleNext(takas, store, i, s0, lots);
      ReconcileFirstNext(s0, lots, i);
      i := i + 1;
    }
  }

  /** Before the loop no lot is settled and every lot has its original records and terms. */
  lemma ProgressStart(takas: seq<Taka>, s0: seq<Entry>)
    requires forall i, j :: 0 <= i < j < |takas| ==> takas[i].id != takas[j].id
    ensures Progress(takas, s0, s0, Terms(takas), 0)
  {
  }

  lemma ReconcileFirstNext(s0: seq<Entry>, lots: seq<LotTerms>, i: nat)
    requires i < |lots|
    ensures ReconcileFirst(s0, lots, i + 1) == Step(ReconcileFirst(s0, lots, i), lots[i])
  {
  }

  /**
   * Lots before `n` are settled against `s0`; lots from `n` on still carry
   * their terms and have in `s` the records they had in `s0`.
   */
  ghost predicate Progress(takas: seq<Taka>, s: seq<Entry>, s0: seq<Entry>, lots: seq<LotTerms>, n: nat)
    reads set t | t in takas
  {
    && n <= |takas| == |lots| && DistinctLots(lots)
    && LaterUntouched(s, s0, lots, n) && TermsFrom(takas, lots, n) && SettledUpTo(takas, s0, lots, n)
  }

  /** No two lots share an id. */
  ghost predicate DistinctLots(lots: seq<LotTerms>)
  {
    forall a, b :: 0 <= a < b < |lots| ==> lots[a].id != lots[b].id
  }

  /** The lots from position `n` on still have the records they had in `s0`. */
  ghost predicate LaterUntouched(s: seq<Entry>, s0: seq<Entry>, lots: seq<LotTerms>, n: nat)
  {
    forall j :: n <= j < |lots| ==> OfTaka(s, lots[j].id) == OfTaka(s0, lots[j].id)
  }

  /** The lots from position `n` on still carry the terms the run read. */
  ghost predicate TermsFrom(takas: seq<Taka>, lots: seq<LotTerms>, n: nat)
    reads set t | t in takas
  {
    && |takas| == |lots|
    && (forall j :: 0 <= j < |takas| ==> takas[j].id == lots[j].id)
    && (forall j :: n <= j < |takas| ==>
          takas[j].targetMeters == lots[j].target && takas[j].ratePerMeter == lots[j].rate)
  }

  /** The first `n` lots are settled. */
  ghost predicate SettledUpTo(takas: seq<Taka>, s0: seq<Entry>, lots: seq<LotTerms>, n: nat)
    reads set t | t in takas
  {
    && n <= |takas| <= |lots|
    && forall j {:trigger Settled(takas[j], s0, lots[j])} :: 0 <= j < n ==> Settled(takas[j], s0, lots[j])
  }

  /** The loop body of ReconcileTakas: lot `i` is settled and the store moves one lot on. */
  method SettleNext(takas: seq<Taka>, store: ProductionStore, i: nat, ghost s0: seq<Entry>, ghost lots: seq<LotTerms>)
    requires i < |takas| && store.Valid() && Progress(takas, store.records, s0, lots, i)
    modifies store, takas[i]
    ensures store.Valid() && store.records == Step(old(store.records), lots[i])
    ensures Progress(takas, store.records, s0, lots, i + 1)
  {
    ghost var before := store.records;
    StepKeepsLater(before, s0, lots, i);
    assert LotRecords(before, takas[i].id) == LotRecords(s0, takas[i].id);
    ghost var l := lots[i];
    var _, _ := ReconcileTaka(takas[i], store);
    forall j | 0 <= j < i ensures Settled(takas[j], s0, lots[j]) {
      assert takas[j] != takas[i] by {
        assert lots[j].id != lots[i].id;
      }
      assert old(Settled(takas[j], s0, lots[j]));
    }
  }

  /**
   * `fixTakaCompletions`: every lot, in the order the lot query returns
   * them, ends up as ReconcileLot decides for the records it had when the run
   * started; then the records without a lot are deleted, all of them unless
   * one has no date, in which case only those before it.
   */
  method FixTakaCompletions(takas: seq<Taka>, store: ProductionStore) returns (r: Checked<seq<Entry>>)
    requires store.Valid()
    requires forall i, j :: 0 <= i < j < |takas| ==> takas[i].id != takas[j].id
    modifies store, set t | t in takas
    ensures store.Valid()
    ensures forall j :: 0 <= j < |takas| ==> Settled(takas[j], old(store.records), old(Terms(takas))[j])
    ensures r.MissingDate? <==> exists e :: e in old(store.records) && e.taka == None && e.date.None?
    ensures store.records == Without(ReconcileFirst(old(store.records), old(Terms(takas)), |takas|),
                                     IdsOf(UntilUndated(Orphans(old(store.records)))))
    ensures r.Checked? ==>
      && r.value == Orphans(old(store.records))
      && store.records == Assigned(ReconcileFirst(old(store.records), old(Terms(takas)), |takas|))
      && forall e :: e in store.records ==> e.taka.Some?
  {
    ReconcileTakas(takas, store);
    r := PurgeOrphans(store);
  }
}
