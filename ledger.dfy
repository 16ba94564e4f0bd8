/**
 * The production ledger's records: a production entry ("production") is a
 * dated amount of meters woven by one worker on one machine during one shift,
 * booked against a lot ("taka").  Sums over entries and the date order in
 * which the store hands them out are defined here once for all the scripts
 * and reports.
 */
module Ledger {
  import opened Sorting

  type Id = string

  datatype Option<T> = None | Some(value: T)

  /**
   * A pass that prints record dates either completes or stops at the first
   * record without a date: `toDateString` throws on a missing date, and the
   * script ends in its `catch`.
   */
  datatype Checked<T> = Checked(value: T) | MissingDate

  /** A date as milliseconds since the Unix epoch, in UTC. */
  type Timestamp = int

  /** 1000 * 60 * 60 * 24 */
  const MsPerDay: int := 86400000

  /** The UTC calendar day of a timestamp, i.e. the YYYY-MM-DD part of its ISO form. */
  function DayOf(t: Timestamp): int
  {
    t / MsPerDay
  }

  const DayShift: string := "Day"
  const NightShift: string := "Night"

  /**
   * A production record.  `taka` is None when the record has no lot;
   * `date` is None when the record carries no date.
   */
  datatype Entry = Entry(
    id: Id,
    taka: Option<Id>,
    machine: Id,
    worker: Id,
    date: Option<Timestamp>,
    shift: string,
    metersProduced: real,
    ratePerMeter: real,
    earnings: real)

  datatype Status = Active | Completed

  /** What `meters` earn at `rate` per meter (exact; JavaScript multiplies doubles). */
  function Earned(meters: real, rate: real): real
  {
    meters * rate
  }

  function SumMeters(s: seq<Entry>): real
  {
    if s == [] then 0.0 else s[0].metersProduced + SumMeters(s[1..])
  }

  function SumEarnings(s: seq<Entry>): real
  {
    if s == [] then 0.0 else s[0].earnings + SumEarnings(s[1..])
  }

  lemma {:induction false} SumsOfConcat(a: seq<Entry>, b: seq<Entry>)
    decreases |a|
    ensures SumMeters(a + b) == SumMeters(a) + SumMeters(b)
    ensures SumEarnings(a + b) == SumEarnings(a) + SumEarnings(b)
  {
    if a != [] {
      assert (a + b)[1..] == a[1..] + b;
      SumsOfConcat(a[1..], b);
    } else {
      assert a + b == b;
    }
  }

  /** Summing one more entry at the end, as a loop over the entries does. */
  lemma SumsOfSnoc(s: seq<Entry>, e: Entry)
    ensures SumMeters(s + [e]) == SumMeters(s) + e.metersProduced
    ensures SumEarnings(s + [e]) == SumEarnings(s) + e.earnings
  {
    SumsOfConcat(s, [e]);
  }

  /** The records that reference lot `id`: the store query `{ taka: id }`, in store order. */
  function OfTaka(s: seq<Entry>, id: Id): seq<Entry>
  {
    if s == [] then []
    else if s[0].taka == Some(id) then [s[0]] + OfTaka(s[1..], id)
    else OfTaka(s[1..], id)
  }

  /** The query returns exactly the records that reference the lot. */
  lemma {:induction false} OfTakaMembers(s: seq<Entry>, id: Id)
    decreases |s|
    ensures forall e :: e in OfTaka(s, id) <==> e in s && e.taka == Some(id)
  {
    if s != [] {
      OfTakaMembers(s[1..], id);
      assert s == [s[0]] + s[1..];
    }
  }

  /** The ids of the records in `s`. */
  function IdsOf(s: seq<Entry>): set<Id>
  {
    set e | e in s :: e.id
  }

  lemma IdsOfSnoc(s: seq<Entry>, e: Entry)
    ensures IdsOf(s + [e]) == IdsOf(s) + {e.id}
  {
    assert forall x :: x in s + [e] <==> x in s || x == e;
  }

  /** Records with the same id are the same record (the store's unique `_id`). */
  ghost predicate ConsistentIds(s: seq<Entry>)
  {
    forall x, y :: x in s && y in s && x.id == y.id ==> x == y
  }

  /** No two records share an id (the store's unique `_id` index). */
  ghost predicate UniqueIds(s: seq<Entry>)
  {
    forall i, j :: 0 <= i < j < |s| ==> s[i].id != s[j].id
  }

  lemma UniqueIdsConsistent(s: seq<Entry>)
    requires UniqueIds(s)
    ensures ConsistentIds(s)
  {
    forall x, y | x in s && y in s && x.id == y.id ensures x == y {
      var i :| 0 <= i < |s| && s[i] == x;
      var j :| 0 <= j < |s| && s[j] == y;
      assert i == j;
    }
  }

  /** A record in front of records with other ids keeps the ids unique. */
  lemma UniqueIdsCons(e: Entry, s: seq<Entry>)
    requires UniqueIds(s) && forall x :: x in s ==> x.id != e.id
    ensures UniqueIds([e] + s)
  {
    var t := [e] + s;
    forall i, j | 0 <= i < j < |t| ensures t[i].id != t[j].id {
      if i == 0 {
        assert t[j] == s[j - 1];
      } else {
        assert t[i] == s[i - 1] && t[j] == s[j - 1];
      }
    }
  }

  lemma {:induction false} OfTakaUnique(s: seq<Entry>, id: Id)
    decreases |s|
    requires UniqueIds(s)
    ensures UniqueIds(OfTaka(s, id))
  {
    if s != [] {
      assert UniqueIds(s[1..]) by {
        forall i, j | 0 <= i < j < |s[1..]| ensures s[1..][i].id != s[1..][j].id {
          assert s[1..][i] == s[i + 1] && s[1..][j] == s[j + 1];
        }
      }
      OfTakaUnique(s[1..], id);
      if s[0].taka == Some(id) {
        OfTakaMembers(s[1..], id);
        forall x | x in OfTaka(s[1..], id) ensures x.id != s[0].id {
          var k :| 0 <= k < |s[1..]| && s[1..][k] == x;
          assert s[k + 1] == x;
        }
        UniqueIdsCons(s[0], OfTaka(s[1..], id));
      }
    }
  }

  lemma {:induction false} InsertUnique(t: seq<Entry>, e: Entry, lt: (Entry, Entry) -> bool)
    decreases |t|
    requires UniqueIds(t) && forall x :: x in t ==> x.id != e.id
    ensures UniqueIds(Insert(t, e, lt))
  {
    if t == [] {
    } else if lt(e, t[0]) {
      UniqueIdsCons(e, t);
    } else {
      assert UniqueIds(t[1..]) by {
        forall i, j | 0 <= i < j < |t[1..]| ensures t[1..][i].id != t[1..][j].id {
          assert t[1..][i] == t[i + 1] && t[1..][j] == t[j + 1];
        }
      }
      InsertUnique(t[1..], e, lt);
      var rest := Insert(t[1..], e, lt);
      forall x | x in rest ensures x.id != t[0].id {
        assert x in multiset(rest);
        if x != e {
          assert x in multiset(t[1..]);
          var k :| 0 <= k < |t[1..]| && t[1..][k] == x;
          assert t[k + 1] == x;
        }
      }
      UniqueIdsCons(t[0], rest);
    }
  }

  lemma {:induction false} SortUnique(s: seq<Entry>, lt: (Entry, Entry) -> bool)
    decreases |s|
    requires UniqueIds(s)
    ensures UniqueIds(InsertionSort(s, lt))
  {
    if s != [] {
      var init, last := s[..|s| - 1], s[|s| - 1];
      assert InsertionSort(s, lt) == Insert(InsertionSort(init, lt), last, lt);
      assert UniqueIds(init) by {
        forall i, j | 0 <= i < j < |init| ensures init[i].id != init[j].id {
          assert init[i] == s[i] && init[j] == s[j];
        }
      }
      SortUnique(init, lt);
      forall x | x in InsertionSort(init, lt) ensures x.id != last.id {
        assert x in multiset(InsertionSort(init, lt));
        assert x in multiset(init);
        var k :| 0 <= k < |init| && init[k] == x;
        assert s[k] == x;
      }
      InsertUnique(InsertionSort(init, lt), last, lt);
    }
  }

  /** `a` sorts strictly before `b` by date, missing dates first. */
  predicate DateBefore(a: Option<Timestamp>, b: Option<Timestamp>)
  {
    match a
    case None => b.Some?
    case Some(x) => b.Some? && x < b.value
  }

  predicate EarlierThan(a: Entry, b: Entry)
  {
    DateBefore(a.date, b.date)
  }

  predicate LaterThan(a: Entry, b: Entry)
  {
    DateBefore(b.date, a.date)
  }

  /** The store's `sort({ date: 1 })`; entries of the same date keep store order. */
  function ByDateAscending(s: seq<Entry>): seq<Entry>
  {
    InsertionSort(s, EarlierThan)
  }

  /** The store's `sort({ date: -1 })`; entries of the same date keep store order. */
  function ByDateDescending(s: seq<Entry>): seq<Entry>
  {
    InsertionSort(s, LaterThan)
  }

  lemma DateOrdersAreStrict()
    ensures StrictOrder(EarlierThan) && StrictOrder(LaterThan)
    ensures StrictWeakOrder(EarlierThan) && StrictWeakOrder(LaterThan)
  {
  }

  /**
   * Both date sorts are stable: the entries that share a date (or all lack
   * one) come out in store order.
   */
  lemma SameDateKeepsStoreOrder(s: seq<Entry>, e: Entry)
    ensures forall a, b :: Tie(a, b, EarlierThan) <==> a.date == b.date
    ensures forall a, b :: Tie(a, b, LaterThan) <==> a.date == b.date
    ensures Ties(ByDateAscending(s), e, EarlierThan) == Ties(s, e, EarlierThan)
    ensures Ties(ByDateDescending(s), e, LaterThan) == Ties(s, e, LaterThan)
  {
    DateOrdersAreStrict();
    SortStable(s, e, EarlierThan);
    SortStable(s, e, LaterThan);
  }

  lemma {:induction false} SumsOfInsert(t: seq<Entry>, e: Entry, lt: (Entry, Entry) -> bool)
    decreases |t|
    ensures SumMeters(Insert(t, e, lt)) == SumMeters(t) + e.metersProduced
    ensures SumEarnings(Insert(t, e, lt)) == SumEarnings(t) + e.earnings
  {
    if t != [] && !lt(e, t[0]) {
      SumsOfInsert(t[1..], e, lt);
      assert Insert(t, e, lt)[1..] == Insert(t[1..], e, lt);
    }
  }

  /** The sums split off the last entry. */
  lemma SumsOfInit(s: seq<Entry>)
    requires s != []
    ensures SumMeters(s) == SumMeters(s[..|s| - 1]) + s[|s| - 1].metersProduced
    ensures SumEarnings(s) == SumEarnings(s[..|s| - 1]) + s[|s| - 1].earnings
  {
    assert s == s[..|s| - 1] + [s[|s| - 1]];
    SumsOfSnoc(s[..|s| - 1], s[|s| - 1]);
  }

  /** Sorting does not change what the entries add up to. */
  lemma {:induction false} SumsOfSorted(s: seq<Entry>, lt: (Entry, Entry) -> bool)
    decreases |s|
    ensures SumMeters(InsertionSort(s, lt)) == SumMeters(s)
    ensures SumEarnings(InsertionSort(s, lt)) == SumEarnings(s)
  {
    if s != [] {
      var init := s[..|s| - 1];
      SumsOfSorted(init, lt);
      SumsOfInsert(InsertionSort(init, lt), s[|s| - 1], lt);
      SumsOfInit(s);
    }
  }
}
