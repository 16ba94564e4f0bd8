/**
 * A stable insertion sort over a strict order, standing for the record
 * store's `sort` stage: elements that the order does not separate keep the
 * order in which the store holds them.
 */
module Sorting {

  /** `lt` is a strict order: irreflexive and transitive. */
  ghost predicate StrictOrder<T(!new)>(lt: (T, T) -> bool)
  {
    && (forall a :: !lt(a, a))
    && (forall a, b, c :: lt(a, b) && lt(b, c) ==> lt(a, c))
  }

  /**
   * `lt` is a strict weak order: a strict order under which elements that
   * neither precedes form classes of equals.  Comparing dates, with a
   * missing date first, is one.
   */
  ghost predicate StrictWeakOrder<T(!new)>(lt: (T, T) -> bool)
  {
    && StrictOrder(lt)
    && (forall a, b, c :: Tie(a, b, lt) && Tie(b, c, lt) ==> Tie(a, c, lt))
  }

  /** No element is strictly smaller than one that comes before it. */
  ghost predicate Sorted<T>(s: seq<T>, lt: (T, T) -> bool)
  {
    forall i, j :: 0 <= i < j < |s| ==> !lt(s[j], s[i])
  }

  /** Puts `e` just before the first element of `t` that it strictly precedes. */
  function Insert<T>(t: seq<T>, e: T, lt: (T, T) -> bool): (r: seq<T>)
    ensures multiset(r) == multiset(t) + multiset{e}
  {
    if t == [] then [e]
    else if lt(e, t[0]) then [e] + t
    else
      assert t == [t[0]] + t[1..];
      [t[0]] + Insert(t[1..], e, lt)
  }

  /** Inserts the elements one at a time, first to last. */
  function InsertionSort<T>(s: seq<T>, lt: (T, T) -> bool): (r: seq<T>)
    ensures multiset(r) == multiset(s)
  {
    if s == [] then []
    else
      assert s == s[..|s| - 1] + [s[|s| - 1]];
      Insert(InsertionSort(s[..|s| - 1], lt), s[|s| - 1], lt)
  }

  /** Sorting one more element at the end inserts it into the sorted rest. */
  lemma SortSnoc<T>(t: seq<T>, x: T, lt: (T, T) -> bool)
    ensures InsertionSort(t + [x], lt) == Insert(InsertionSort(t, lt), x, lt)
  {
    var s := t + [x];
    assert s[..|s| - 1] == t;
  }

  lemma {:induction false} InsertSorted<T(!new)>(t: seq<T>, e: T, lt: (T, T) -> bool)
    decreases |t|
    requires StrictOrder(lt) && Sorted(t, lt)
    ensures Sorted(Insert(t, e, lt), lt)
  {
    if t == [] {
    } else if lt(e, t[0]) {
      var r := Insert(t, e, lt);
      forall i, j | 0 <= i < j < |r| ensures !lt(r[j], r[i]) {
        if i == 0 && j > 1 {
          assert !lt(t[j - 1], t[0]);
        }
      }
    } else {
      InsertSorted(t[1..], e, lt);
      var rest := Insert(t[1..], e, lt);
      var r := [t[0]] + rest;
      forall i, j | 0 <= i < j < |r| ensures !lt(r[j], r[i]) {
        if i == 0 {
          assert r[j] in multiset(rest);
          assert r[j] in multiset(t[1..]) || r[j] == e;
          if r[j] != e {
            var k :| 0 <= k < |t[1..]| && t[1..][k] == r[j];
            assert t[k + 1] == r[j];
          }
        } else {
          assert r[i] == rest[i - 1] && r[j] == rest[j - 1];
        }
      }
    }
  }

  /** The sort's result is ordered. */
  lemma {:induction false} InsertionSortSorted<T(!new)>(s: seq<T>, lt: (T, T) -> bool)
    decreases |s|
    requires StrictOrder(lt)
    ensures Sorted(InsertionSort(s, lt), lt)
  {
    if s != [] {
      InsertionSortSorted(s[..|s| - 1], lt);
      InsertSorted(InsertionSort(s[..|s| - 1], lt), s[|s| - 1], lt);
    }
  }

  /** `a` and `b` are equals under `lt`: neither precedes the other. */
  predicate Tie<T>(a: T, b: T, lt: (T, T) -> bool)
  {
    !lt(a, b) && !lt(b, a)
  }

  /** The elements of `s` that are equals of `e`, in the order `s` holds them. */
  function Ties<T>(s: seq<T>, e: T, lt: (T, T) -> bool): (r: seq<T>)
    ensures |r| <= |s|
  {
    if s == [] then []
    else if Tie(s[0], e, lt) then [s[0]] + Ties(s[1..], e, lt)
    else Ties(s[1..], e, lt)
  }

  lemma {:induction false} TiesSnoc<T>(s: seq<T>, x: T, e: T, lt: (T, T) -> bool)
    decreases |s|
    ensures Ties(s + [x], e, lt) == Ties(s, e, lt) + (if Tie(x, e, lt) then [x] else [])
  {
    if s == [] {
      assert [x][1..] == [];
    } else {
      TiesSnoc(s[1..], x, e, lt);
      assert (s + [x])[1..] == s[1..] + [x];
    }
  }

  lemma {:induction false} NoTies<T>(s: seq<T>, e: T, lt: (T, T) -> bool)
    decreases |s|
    requires forall i :: 0 <= i < |s| ==> !Tie(s[i], e, lt)
    ensures Ties(s, e, lt) == []
  {
    if s != [] {
      NoTies(s[1..], e, lt);
    }
  }

  lemma Between<T(!new)>(a: T, b: T, c: T, lt: (T, T) -> bool)
    requires StrictWeakOrder(lt) && lt(a, c)
    ensures lt(a, b) || lt(b, c)
  {
    if Tie(a, b, lt) {
      assert Tie(b, c, lt) ==> Tie(a, c, lt);
    }
  }

  /**
   * Inserting `x` into a sorted sequence puts it after every equal of it that
   * is already there.
   */
  lemma {:induction false} TiesInsert<T(!new)>(t: seq<T>, x: T, e: T, lt: (T, T) -> bool)
    decreases |t|
    requires StrictWeakOrder(lt) && Sorted(t, lt)
    ensures Ties(Insert(t, x, lt), e, lt) == Ties(t, e, lt) + (if Tie(x, e, lt) then [x] else [])
  {
    if t == [] {
      assert [x][1..] == [];
    } else if lt(x, t[0]) {
      assert ([x] + t)[1..] == t;
      if Tie(x, e, lt) {
        forall i | 0 <= i < |t| ensures !Tie(t[i], e, lt) {
          if i > 0 {
            assert !lt(t[i], t[0]);
            Between(x, t[i], t[0], lt);
          }
          Between(x, e, t[i], lt);
        }
        NoTies(t, e, lt);
      }
    } else {
      assert Sorted(t[1..], lt) by {
        forall i, j | 0 <= i < j < |t[1..]| ensures !lt(t[1..][j], t[1..][i]) {
          assert t[1..][i] == t[i + 1] && t[1..][j] == t[j + 1];
        }
      }
      TiesInsert(t[1..], x, e, lt);
      assert ([t[0]] + Insert(t[1..], x, lt))[1..] == Insert(t[1..], x, lt);
    }
  }

  /**
   * The sort is stable: the equals of any element come out in the order the
   * input holds them.
   */
  lemma {:induction false} SortStable<T(!new)>(s: seq<T>, e: T, lt: (T, T) -> bool)
    decreases |s|
    requires StrictWeakOrder(lt)
    ensures Ties(InsertionSort(s, lt), e, lt) == Ties(s, e, lt)
  {
    if s != [] {
      var init, last := s[..|s| - 1], s[|s| - 1];
      assert init + [last] == s;
      SortStable(init, e, lt);
      InsertionSortSorted(init, lt);
      StableStep(InsertionSort(init, lt), init, last, e, lt);
    }
  }

  lemma StableStep<T(!new)>(sorted: seq<T>, init: seq<T>, last: T, e: T, lt: (T, T) -> bool)
    requires StrictWeakOrder(lt) && Sorted(sorted, lt)
    requires Ties(sorted, e, lt) == Ties(init, e, lt)
    ensures Ties(Insert(sorted, last, lt), e, lt) == Ties(init + [last], e, lt)
  {
    TiesInsert(sorted, last, e, lt);
    TiesSnoc(init, last, e, lt);
  }

  /** No element occurs twice. */
  ghost predicate Distinct<T>(s: seq<T>)
  {
    forall i, j :: 0 <= i < j < |s| ==> s[i] != s[j]
  }

  lemma DistinctCons<T>(e: T, s: seq<T>)
    requires Distinct(s) && e !in s
    ensures Distinct([e] + s)
  {
    var t := [e] + s;
    forall i, j | 0 <= i < j < |t| ensures t[i] != t[j] {
      if i == 0 {
        assert t[j] == s[j - 1];
      } else {
        assert t[i] == s[i - 1] && t[j] == s[j - 1];
      }
    }
  }

  lemma {:induction false} InsertDistinct<T>(t: seq<T>, e: T, lt: (T, T) -> bool)
    decreases |t|
    requires Distinct(t) && e !in t
    ensures Distinct(Insert(t, e, lt))
  {
    if t == [] {
    } else if lt(e, t[0]) {
      DistinctCons(e, t);
    } else {
      assert Distinct(t[1..]) by {
        forall i, j | 0 <= i < j < |t[1..]| ensures t[1..][i] != t[1..][j] {
          assert t[1..][i] == t[i + 1] && t[1..][j] == t[j + 1];
        }
      }
      assert e !in t[1..];
      InsertDistinct(t[1..], e, lt);
      var rest := Insert(t[1..], e, lt);
      forall x | x in rest ensures x != t[0] {
        assert x in multiset(rest);
        if x != e {
          assert x in multiset(t[1..]);
          var k :| 0 <= k < |t[1..]| && t[1..][k] == x;
          assert t[k + 1] == x;
        }
      }
      DistinctCons(t[0], rest);
    }
  }

  /** Sorting never duplicates an element. */
  lemma {:induction false} SortDistinct<T>(s: seq<T>, lt: (T, T) -> bool)
    decreases |s|
    requires Distinct(s)
    ensures Distinct(InsertionSort(s, lt))
  {
    if s != [] {
      var init, last := s[..|s| - 1], s[|s| - 1];
      assert Distinct(init) by {
        forall i, j | 0 <= i < j < |init| ensures init[i] != init[j] {
          assert init[i] == s[i] && init[j] == s[j];
        }
      }
      SortDistinct(init, lt);
      forall x | x in InsertionSort(init, lt) ensures x != last {
        assert x in multiset(InsertionSort(init, lt));
        assert x in multiset(init);
        var k :| 0 <= k < |init| && init[k] == x;
        assert s[k] == x;
      }
      InsertDistinct(InsertionSort(init, lt), last, lt);
    }
  }
}
