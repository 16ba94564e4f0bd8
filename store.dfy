/**
 * The two collections the scripts work on: lot documents, each an object
 * whose fields the scripts assign and then save, and the production
 * collection, a sequence of records in the order the store holds them
 * (insertion order, which breaks ties between records of the same date).
 */
module Store {
  import opened Sorting
  import opened Ledger

  /** A lot document (a "taka"). */
  class Taka {
    const id: Id
    const takaNumber: string
    var targetMeters: real
    var ratePerMeter: real
    var totalMeters: real
    var totalEarnings: real
    var status: Status

    constructor (id: Id, takaNumber: string, targetMeters: real, ratePerMeter: real,
                 totalMeters: real, totalEarnings: real, status: Status)
      ensures this.id == id && this.takaNumber == takaNumber
      ensures this.targetMeters == targetMeters && this.ratePerMeter == ratePerMeter
      ensures this.totalMeters == totalMeters && this.totalEarnings == totalEarnings
      ensures this.status == status
    {
      this.id := id;
      this.takaNumber := takaNumber;
      this.targetMeters := targetMeters;
      this.ratePerMeter := ratePerMeter;
      this.totalMeters := totalMeters;
      this.totalEarnings := totalEarnings;
      this.status := status;
    }
  }

  /** The records after `r` is saved over the record with its id. */
  function Replaced(s: seq<Entry>, r: Entry): (t: seq<Entry>)
    ensures |t| == |s|
    ensures forall i :: 0 <= i < |s| ==> t[i] == if s[i].id == r.id then r else s[i]
  {
    if s == [] then []
    else [if s[0].id == r.id then r else s[0]] + Replaced(s[1..], r)
  }

  /** The records after every record whose id is in `ids` is deleted. */
  function Without(s: seq<Entry>, ids: set<Id>): seq<Entry>
  {
    if s == [] then []
    else if s[0].id in ids then Without(s[1..], ids)
    else [s[0]] + Without(s[1..], ids)
  }

  /** Saving `r` leaves `r` and the records with other ids. */
  lemma ReplacedMembers(s: seq<Entry>, r: Entry)
    ensures forall e :: e in Replaced(s, r) ==> e == r || (e in s && e.id != r.id)
  {
    var t := Replaced(s, r);
    forall e | e in t ensures e == r || (e in s && e.id != r.id) {
      var i :| 0 <= i < |t| && t[i] == e;
    }
  }

  /** Deleting the ids in `ids` leaves exactly the records with other ids. */
  lemma {:induction false} WithoutMembers(s: seq<Entry>, ids: set<Id>)
    decreases |s|
    ensures forall e :: e in Without(s, ids) <==> e in s && e.id !in ids
  {
    if s != [] {
      WithoutMembers(s[1..], ids);
      assert s == [s[0]] + s[1..];
    }
  }

  /** The records after `findByIdAndUpdate(id, { earnings })`. */
  function EarningsSet(s: seq<Entry>, id: Id, earnings: real): (t: seq<Entry>)
    ensures |t| == |s|
    ensures forall i :: 0 <= i < |s| ==>
              t[i] == if s[i].id == id then s[i].(earnings := earnings) else s[i]
  {
    if s == [] then []
    else [if s[0].id == id then s[0].(earnings := earnings) else s[0]] + EarningsSet(s[1..], id, earnings)
  }

  lemma {:induction false} WithoutNothing(s: seq<Entry>)
    decreases |s|
    ensures Without(s, {}) == s
  {
    if s != [] {
      WithoutNothing(s[1..]);
    }
  }

  /** Deleting one id after another is deleting them all at once. */
  lemma {:induction false} WithoutTwice(s: seq<Entry>, a: set<Id>, b: set<Id>)
    decreases |s|
    ensures Without(Without(s, a), b) == Without(s, a + b)
  {
    if s != [] {
      WithoutTwice(s[1..], a, b);
    }
  }

  /** Deleting records of other lots leaves lot `k`'s records as they were. */
  lemma {:induction false} OfTakaWithout(s: seq<Entry>, ids: set<Id>, k: Id)
    decreases |s|
    requires forall e :: e in s && e.taka == Some(k) ==> e.id !in ids
    ensures OfTaka(Without(s, ids), k) == OfTaka(s, k)
  {
    if s != [] {
      OfTakaWithout(s[1..], ids, k);
    }
  }

  /** Saving a record of another lot leaves lot `k`'s records as they were. */
  lemma {:induction false} OfTakaReplaced(s: seq<Entry>, r: Entry, k: Id)
    decreases |s|
    requires r.taka != Some(k)
    requires forall e :: e in s && e.id == r.id ==> e.taka != Some(k)
    ensures OfTaka(Replaced(s, r), k) == OfTaka(s, k)
  {
    if s != [] {
      OfTakaReplaced(s[1..], r, k);
    }
  }

  /** Deleting commutes with taking one lot's records. */
  lemma {:induction false} OfTakaWithoutCommutes(s: seq<Entry>, ids: set<Id>, k: Id)
    decreases |s|
    ensures OfTaka(Without(s, ids), k) == Without(OfTaka(s, k), ids)
  {
    if s != [] {
      OfTakaWithoutCommutes(s[1..], ids, k);
    }
  }

  /** Saving a record of lot `k` over one of its own commutes with taking the lot's records. */
  lemma {:induction false} OfTakaReplacedCommutes(s: seq<Entry>, r: Entry, k: Id)
    decreases |s|
    requires r.taka == Some(k)
    requires forall e :: e in s && e.id == r.id ==> e.taka == Some(k)
    ensures OfTaka(Replaced(s, r), k) == Replaced(OfTaka(s, k), r)
  {
    if s != [] {
      OfTakaReplacedCommutes(s[1..], r, k);
    }
  }

  lemma {:induction false} WithoutSnoc(s: seq<Entry>, x: Entry, ids: set<Id>)
    decreases |s|
    ensures Without(s + [x], ids) == Without(s, ids) + (if x.id in ids then [] else [x])
  {
    if s == [] {
      assert [x][1..] == [];
    } else {
      WithoutSnoc(s[1..], x, ids);
      assert (s + [x])[1..] == s[1..] + [x];
    }
  }

  /** Over a sorted sequence, deleting after an insertion is inserting after the deletion. */
  lemma {:induction false} WithoutInsert(t: seq<Entry>, e: Entry, ids: set<Id>, lt: (Entry, Entry) -> bool)
    decreases |t|
    requires StrictWeakOrder(lt) && Sorted(t, lt)
    ensures Without(Insert(t, e, lt), ids)
            == if e.id in ids then Without(t, ids) else Insert(Without(t, ids), e, lt)
  {
    if t == [] {
    } else if lt(e, t[0]) {
      assert ([e] + t)[1..] == t;
      if e.id !in ids {
        WithoutFirst(t, e, ids, lt);
      }
    } else {
      assert Sorted(t[1..], lt) by {
        forall i, j | 0 <= i < j < |t[1..]| ensures !lt(t[1..][j], t[1..][i]) {
          assert t[1..][i] == t[i + 1] && t[1..][j] == t[j + 1];
        }
      }
      WithoutInsert(t[1..], e, ids, lt);
      assert ([t[0]] + Insert(t[1..], e, lt))[1..] == Insert(t[1..], e, lt);
    }
  }

  /** What is left of sorted `t` after a deletion still comes after an `e` that precedes `t`'s first element. */
  lemma WithoutFirst(t: seq<Entry>, e: Entry, ids: set<Id>, lt: (Entry, Entry) -> bool)
    requires StrictWeakOrder(lt) && Sorted(t, lt) && t != [] && lt(e, t[0])
    ensures Insert(Without(t, ids), e, lt) == [e] + Without(t, ids)
  {
    var w := Without(t, ids);
    if w != [] {
      WithoutMembers(t, ids);
      assert w[0] in w;
      var j :| 0 <= j < |t| && t[j] == w[0];
      if j > 0 {
        assert !lt(t[j], t[0]);
        Between(e, t[j], t[0], lt);
      }
    }
  }

  /** Deleting commutes with the stable sort. */
  lemma {:induction false} WithoutSort(s: seq<Entry>, ids: set<Id>, lt: (Entry, Entry) -> bool)
    decreases |s|
    requires StrictWeakOrder(lt)
    ensures Without(InsertionSort(s, lt), ids) == InsertionSort(Without(s, ids), lt)
  {
    if s != [] {
      var init, last := s[..|s| - 1], s[|s| - 1];
      assert init + [last] == s;
      WithoutSort(init, ids, lt);
      InsertionSortSorted(init, lt);
      WithoutSortStep(InsertionSort(init, lt), init, last, ids, lt);
    }
  }

  lemma WithoutSortStep(sorted: seq<Entry>, init: seq<Entry>, last: Entry, ids: set<Id>,
                        lt: (Entry, Entry) -> bool)
    requires StrictWeakOrder(lt) && Sorted(sorted, lt)
    requires Without(sorted, ids) == InsertionSort(Without(init, ids), lt)
    ensures Without(Insert(sorted, last, lt), ids) == InsertionSort(Without(init + [last], ids), lt)
  {
    WithoutInsert(sorted, last, ids, lt);
    WithoutSnoc(init, last, ids);
    if last.id in ids {
      assert Without(init + [last], ids) == Without(init, ids) + [];
      assert Without(init, ids) + [] == Without(init, ids);
    } else {
      SortSnoc(Without(init, ids), last, lt);
    }
  }

  /** `e` after `r` is saved over the record with its id. */
  function Saved(e: Entry, r: Entry): Entry
  {
    if e.id == r.id then r else e
  }

  /** Every record with `r`'s id has `r`'s date. */
  ghost predicate SameDateAs(s: seq<Entry>, r: Entry)
  {
    forall x :: x in s && x.id == r.id ==> x.date == r.date
  }

  lemma ReplacedSnoc(s: seq<Entry>, x: Entry, r: Entry)
    ensures Replaced(s + [x], r) == Replaced(s, r) + [Saved(x, r)]
  {
  }

  /** Saving a record over one of the same date commutes with inserting into the date order. */
  lemma {:induction false} ReplacedInsert(u: seq<Entry>, e: Entry, r: Entry)
    decreases |u|
    requires SameDateAs(u, r) && (e.id == r.id ==> e.date == r.date)
    ensures Replaced(Insert(u, e, EarlierThan), r) == Insert(Replaced(u, r), Saved(e, r), EarlierThan)
  {
    if u != [] {
      assert Saved(u[0], r).date == u[0].date && Saved(e, r).date == e.date;
      assert Replaced(u, r) == [Saved(u[0], r)] + Replaced(u[1..], r);
    }
    if u != [] && !EarlierThan(e, u[0]) {
      assert SameDateAs(u[1..], r) by {
        forall x | x in u[1..] && x.id == r.id ensures x.date == r.date {
          assert x in u;
        }
      }
      ReplacedInsert(u[1..], e, r);
      assert Replaced(u, r)[1..] == Replaced(u[1..], r);
      assert ([u[0]] + Insert(u[1..], e, EarlierThan))[1..] == Insert(u[1..], e, EarlierThan);
    }
  }

  /** Saving a record over one of the same date commutes with the sort by date. */
  lemma {:induction false} ReplacedSort(s: seq<Entry>, r: Entry)
    decreases |s|
    requires SameDateAs(s, r)
    ensures Replaced(ByDateAscending(s), r) == ByDateAscending(Replaced(s, r))
  {
    if s != [] {
      var init, last := s[..|s| - 1], s[|s| - 1];
      assert init + [last] == s;
      assert SameDateAs(init, r) by {
        forall x | x in init && x.id == r.id ensures x.date == r.date {
          assert x in s;
        }
      }
      ReplacedSort(init, r);
      ReplacedSortStep(init, last, r);
    }
  }

  lemma ReplacedSortStep(init: seq<Entry>, last: Entry, r: Entry)
    requires SameDateAs(init, r) && (last.id == r.id ==> last.date == r.date)
    requires Replaced(ByDateAscending(init), r) == ByDateAscending(Replaced(init, r))
    ensures Replaced(Insert(ByDateAscending(init), last, EarlierThan), r)
            == ByDateAscending(Replaced(init + [last], r))
  {
    var sorted := ByDateAscending(init);
    assert SameDateAs(sorted, r) by {
      forall x | x in sorted && x.id == r.id ensures x.date == r.date {
        assert x in multiset(sorted);
        assert x in init;
      }
    }
    ReplacedInsert(sorted, last, r);
    ReplacedSnoc(init, last, r);
    SortSnoc(Replaced(init, r), Saved(last, r), EarlierThan);
  }

  lemma ReplacedUnique(s: seq<Entry>, r: Entry)
    requires UniqueIds(s)
    ensures UniqueIds(Replaced(s, r))
  {
  }

  lemma EarningsSetUnique(s: seq<Entry>, id: Id, earnings: real)
    requires UniqueIds(s)
    ensures UniqueIds(EarningsSet(s, id, earnings))
  {
  }

  lemma {:induction false} WithoutUnique(s: seq<Entry>, ids: set<Id>)
    decreases |s|
    requires UniqueIds(s)
    ensures UniqueIds(Without(s, ids))
  {
    if s != [] {
      assert UniqueIds(s[1..]) by {
        forall i, j | 0 <= i < j < |s[1..]| ensures s[1..][i].id != s[1..][j].id {
          assert s[1..][i] == s[i + 1] && s[1..][j] == s[j + 1];
        }
      }
      WithoutUnique(s[1..], ids);
      if s[0].id !in ids {
        WithoutMembers(s[1..], ids);
        forall x | x in Without(s[1..], ids) ensures x.id != s[0].id {
          var k :| 0 <= k < |s[1..]| && s[1..][k] == x;
          assert s[k + 1] == x;
        }
        UniqueIdsCons(s[0], Without(s[1..], ids));
      }
    }
  }

  /** The production collection. */
  class ProductionStore {
    var records: seq<Entry>

    ghost predicate Valid()
      reads this
    {
      UniqueIds(records)
    }

    constructor (records: seq<Entry>)
      requires UniqueIds(records)
      ensures Valid() && this.records == records
    {
      this.records := records;
    }

    /** `record.save()` */
    method Save(r: Entry)
      requires Valid()
      modifies this
      ensures Valid() && records == Replaced(old(records), r)
    {
      ReplacedUnique(records, r);
      records := Replaced(records, r);
    }

    /** `Production.deleteOne({ _id: id })` */
    method DeleteOne(id: Id)
      requires Valid()
      modifies this
      ensures Valid() && records == Without(old(records), {id})
    {
      WithoutUnique(records, {id});
      records := Without(records, {id});
    }

    /** `Production.findByIdAndUpdate(id, { earnings })` */
    method UpdateEarnings(id: Id, earnings: real)
      requires Valid()
      modifies this
      ensures Valid() && records == EarningsSet(old(records), id, earnings)
    {
      EarningsSetUnique(records, id, earnings);
      records := EarningsSet(records, id, earnings);
    }
  }
}
