/** The sorting and searching primitives of Python and numpy that the
    components rely on: a stable sort by key, and bisection. */
module StableSort {
  import opened Sequences

  /** A lexicographic sort key; unused places are left at zero. */
  datatype Key = Key(first: int, second: int, third: int) {
    predicate AtMost(other: Key) {
      || first < other.first
      || (first == other.first && second < other.second)
      || (first == other.first && second == other.second && third <= other.third)
    }
  }

  /** Puts `x` behind every trailing element it does not precede. */
  function Insert<T>(xs: seq<T>, x: T, key: T -> Key): seq<T> {
    if |xs| == 0 || key(Last(xs)).AtMost(key(x)) then xs + [x]
    else Insert(Init(xs), x, key) + [Last(xs)]
  }

  function SortBy<T>(xs: seq<T>, key: T -> Key): seq<T> {
    if |xs| == 0 then [] else Insert(SortBy(Init(xs), key), Last(xs), key)
  }

  ghost predicate Sorted<T>(xs: seq<T>, key: T -> Key) {
    forall i, j :: 0 <= i < j < |xs| ==> key(xs[i]).AtMost(key(xs[j]))
  }

  // ----- Order and contents

  lemma {:induction false} InsertContents<T>(xs: seq<T>, x: T, key: T -> Key)
    ensures multiset(Insert(xs, x, key)) == multiset(xs) + multiset{x}
    ensures |Insert(xs, x, key)| == |xs| + 1
  {
    if |xs| == 0 || key(Last(xs)).AtMost(key(x)) {
    } else {
      InsertContents(Init(xs), x, key);
      InitLast(xs);
    }
  }

  lemma {:induction false} InsertMember<T>(xs: seq<T>, x: T, key: T -> Key, y: T)
    ensures y in Insert(xs, x, key) <==> y == x || y in xs
  {
    InsertContents(xs, x, key);
    assert y in Insert(xs, x, key) <==> y in multiset(Insert(xs, x, key));
    assert y in xs <==> y in multiset(xs);
  }

  lemma {:induction false} InsertSorted<T>(xs: seq<T>, x: T, key: T -> Key)
    requires Sorted(xs, key)
    ensures Sorted(Insert(xs, x, key), key)
  {
    if |xs| == 0 || key(Last(xs)).AtMost(key(x)) {
    } else {
      InsertSorted(Init(xs), x, key);
      var r := Insert(Init(xs), x, key);
      forall i | 0 <= i < |r| ensures key(r[i]).AtMost(key(Last(xs))) {
        InsertMember(Init(xs), x, key, r[i]);
      }
    }
  }

  /** The sort orders its input and neither loses nor invents an element. */
  lemma {:induction false} SortSorts<T>(xs: seq<T>, key: T -> Key)
    ensures Sorted(SortBy(xs, key), key)
    ensures multiset(SortBy(xs, key)) == multiset(xs)
    ensures |SortBy(xs, key)| == |xs|
  {
    if |xs| > 0 {
      SortSorts(Init(xs), key);
      InsertSorted(SortBy(Init(xs), key), Last(xs), key);
      InsertContents(SortBy(Init(xs), key), Last(xs), key);
      InitLast(xs);
    }
  }

  lemma SortMember<T>(xs: seq<T>, key: T -> Key, x: T)
    ensures x in SortBy(xs, key) <==> x in xs
  {
    SortSorts(xs, key);
    assert x in SortBy(xs, key) <==> x in multiset(SortBy(xs, key));
    assert x in xs <==> x in multiset(xs);
  }

  lemma {:induction false} InsertDistinct<T>(xs: seq<T>, x: T, key: T -> Key)
    requires Distinct(xs) && x !in xs
    ensures Distinct(Insert(xs, x, key))
  {
    if |xs| == 0 || key(Last(xs)).AtMost(key(x)) {
    } else {
      InsertDistinct(Init(xs), x, key);
      InsertMember(Init(xs), x, key, Last(xs));
      InitLast(xs);
    }
  }

  lemma {:induction false} SortDistinct<T>(xs: seq<T>, key: T -> Key)
    requires Distinct(xs)
    ensures Distinct(SortBy(xs, key))
  {
    if |xs| > 0 {
      SortDistinct(Init(xs), key);
      SortMember(Init(xs), key, Last(xs));
      InsertDistinct(SortBy(Init(xs), key), Last(xs), key);
    }
  }

  // ----- Stability

  lemma {:induction false} InsertAtEnd<T>(xs: seq<T>, x: T, key: T -> Key)
    requires forall y :: y in xs ==> key(y).AtMost(key(x))
    ensures Insert(xs, x, key) == xs + [x]
  {
  }

  lemma {:induction false} FilterInsert<T>(xs: seq<T>, x: T, key: T -> Key, p: T -> bool)
    requires Sorted(xs, key)
    ensures Filter(Insert(xs, x, key), p)
         == if p(x) then Insert(Filter(xs, p), x, key) else Filter(xs, p)
  {
    if |xs| == 0 || key(Last(xs)).AtMost(key(x)) {
      InitAppend(xs, x);
      forall y | y in Filter(xs, p) ensures key(y).AtMost(key(x)) {
        FilterMember(xs, p, y);
      }
      InsertAtEnd(Filter(xs, p), x, key);
    } else {
      FilterInsert(Init(xs), x, key, p);
      InitAppend(Insert(Init(xs), x, key), Last(xs));
      var kept := Filter(Init(xs), p);
      if p(Last(xs)) {
        InitAppend(kept, Last(xs));
        assert Filter(xs, p) == kept + [Last(xs)];
      } else {
        assert Filter(xs, p) == kept;
      }
    }
  }

  /** Selecting before or after the sort gives the same list: elements with
      equal keys never overtake one another. */
  lemma {:induction false} SortFilter<T>(xs: seq<T>, key: T -> Key, p: T -> bool)
    ensures Filter(SortBy(xs, key), p) == SortBy(Filter(xs, p), key)
  {
    if |xs| > 0 {
      SortFilter(Init(xs), key, p);
      SortSorts(Init(xs), key);
      var sorted, kept, last := SortBy(Init(xs), key), Filter(Init(xs), p), Last(xs);
      FilterInsert(sorted, last, key, p);
      assert Filter(SortBy(xs, key), p) == if p(last) then Insert(SortBy(kept, key), last, key) else SortBy(kept, key);
      if p(last) {
        InitAppend(kept, last);
        assert Filter(xs, p) == kept + [last];
      } else {
        assert Filter(xs, p) == kept;
      }
    }
  }

  lemma {:induction false} SortOfSorted<T>(xs: seq<T>, key: T -> Key)
    requires Sorted(xs, key)
    ensures SortBy(xs, key) == xs
  {
    if |xs| > 0 {
      SortOfSorted(Init(xs), key);
      InitLast(xs);
    }
  }

  function WithKey<T>(key: T -> Key, k: Key): T -> bool {
    x => key(x) == k
  }

  /** Elements that share a key keep their original relative order. */
  lemma SortStable<T>(xs: seq<T>, key: T -> Key, k: Key)
    ensures Filter(SortBy(xs, key), WithKey(key, k)) == Filter(xs, WithKey(key, k))
  {
    var p := WithKey(key, k);
    SortFilter(xs, key, p);
    var f := Filter(xs, p);
    forall i, j | 0 <= i < j < |f| ensures key(f[i]).AtMost(key(f[j])) {
      FilterMember(xs, p, f[i]);
      FilterMember(xs, p, f[j]);
    }
    SortOfSorted(f, key);
  }

  lemma {:induction false} InsertMap<T, U>(xs: seq<T>, x: T, f: T -> U, key: T -> Key, key': U -> Key)
    requires forall y: T :: y in xs || y == x ==> key'(f(y)) == key(y)
    ensures Insert(Map(xs, f), f(x), key') == Map(Insert(xs, x, key), f)
  {
    if |xs| == 0 || key(Last(xs)).AtMost(key(x)) {
      InitAppend(xs, x);
    } else {
      InsertMap(Init(xs), x, f, key, key');
      InitAppend(Insert(Init(xs), x, key), Last(xs));
    }
  }

  /** Projecting before or after the sort gives the same list. */
  lemma {:induction false} SortMap<T, U>(xs: seq<T>, f: T -> U, key: T -> Key, key': U -> Key)
    requires forall y: T :: y in xs ==> key'(f(y)) == key(y)
    ensures SortBy(Map(xs, f), key') == Map(SortBy(xs, key), f)
  {
    if |xs| > 0 {
      SortMap(Init(xs), f, key, key');
      forall y | y in SortBy(Init(xs), key) ensures y in xs {
        SortMember(Init(xs), key, y);
      }
      InsertMap(SortBy(Init(xs), key), Last(xs), f, key, key');
    }
  }

  // ----- Uniqueness

  /** With keys that tell elements apart, a sorted list is determined by its contents. */
  lemma {:induction false} SortedUnique<T>(xs: seq<T>, ys: seq<T>, key: T -> Key)
    requires Sorted(xs, key) && Sorted(ys, key)
    requires multiset(xs) == multiset(ys)
    requires forall a, b :: a in xs && b in xs && key(a) == key(b) ==> a == b
    ensures xs == ys
  {
    assert |xs| == |multiset(xs)| && |ys| == |multiset(ys)|;
    if |xs| > 0 {
      SameLast(xs, ys, key);
      InitContents(xs);
      InitContents(ys);
      InitLast(xs);
      InitLast(ys);
      assert multiset(Init(xs)) == multiset(xs) - multiset{Last(xs)};
      SortedUnique(Init(xs), Init(ys), key);
    }
  }

  lemma InitContents<T>(xs: seq<T>)
    requires |xs| > 0
    ensures multiset(xs) == multiset(Init(xs)) + multiset{Last(xs)}
  {
    InitLast(xs);
  }

  lemma SameLast<T>(xs: seq<T>, ys: seq<T>, key: T -> Key)
    requires |xs| > 0 && |ys| > 0
    requires Sorted(xs, key) && Sorted(ys, key)
    requires multiset(xs) == multiset(ys)
    requires forall a, b :: a in xs && b in xs && key(a) == key(b) ==> a == b
    ensures Last(xs) == Last(ys)
  {
    var a, b := Last(xs), Last(ys);
    assert a in multiset(xs) && b in multiset(ys);
    var j :| 0 <= j < |ys| && ys[j] == a;
    var i :| 0 <= i < |xs| && xs[i] == b;
    assert j == |ys| - 1 || key(ys[j]).AtMost(key(b));
    assert i == |xs| - 1 || key(xs[i]).AtMost(key(a));
    assert b in xs;
  }

  /** Order and stability together determine the result: any sorted list that
      agrees with `xs` key by key is the stable sort of `xs`. */
  lemma {:induction false} StableSortUnique<T>(ys: seq<T>, xs: seq<T>, key: T -> Key)
    requires Sorted(ys, key)
    requires forall k :: Filter(ys, WithKey(key, k)) == Filter(xs, WithKey(key, k))
    ensures ys == SortBy(xs, key)
  {
    SortSorts(xs, key);
    forall k ensures Filter(SortBy(xs, key), WithKey(key, k)) == Filter(ys, WithKey(key, k)) {
      SortStable(xs, key, k);
    }
    SortedByClasses(ys, SortBy(xs, key), key);
  }

  lemma {:induction false} SortedByClasses<T>(xs: seq<T>, ys: seq<T>, key: T -> Key)
    requires Sorted(xs, key) && Sorted(ys, key)
    requires forall k :: Filter(ys, WithKey(key, k)) == Filter(xs, WithKey(key, k))
    ensures xs == ys
  {
    if |xs| == 0 {
      NoClasses(ys, key);
    } else if |ys| == 0 {
      NoClasses(xs, key);
    } else {
      SameLastKey(xs, ys, key);
      SameLastKey(ys, xs, key);
      var k0 := key(Last(xs));
      assert Filter(ys, WithKey(key, k0)) == Filter(xs, WithKey(key, k0));
      assert Last(xs) == Last(Filter(xs, WithKey(key, k0)));
      assert Last(ys) == Last(Filter(ys, WithKey(key, k0)));
      forall k ensures Filter(Init(ys), WithKey(key, k)) == Filter(Init(xs), WithKey(key, k)) {
        assert Filter(ys, WithKey(key, k)) == Filter(xs, WithKey(key, k));
        DropLast(xs, WithKey(key, k));
        DropLast(ys, WithKey(key, k));
      }
      SortedByClasses(Init(xs), Init(ys), key);
      InitLast(xs);
      InitLast(ys);
    }
  }

  lemma DropLast<T>(xs: seq<T>, p: T -> bool)
    requires |xs| > 0
    ensures p(Last(xs)) ==> |Filter(xs, p)| > 0 && Filter(Init(xs), p) == Init(Filter(xs, p))
    ensures !p(Last(xs)) ==> Filter(Init(xs), p) == Filter(xs, p)
  {
    InitAppend(Filter(Init(xs), p), Last(xs));
  }

  lemma NoClasses<T>(xs: seq<T>, key: T -> Key)
    requires forall k :: Filter(xs, WithKey(key, k)) == []
    ensures xs == []
  {
    if xs != [] {
      assert Filter(xs, WithKey(key, key(xs[0]))) == [];
      FilterMember(xs, WithKey(key, key(xs[0])), xs[0]);
    }
  }

  lemma SameLastKey<T>(xs: seq<T>, ys: seq<T>, key: T -> Key)
    requires |xs| > 0 && |ys| > 0 && Sorted(xs, key) && Sorted(ys, key)
    requires forall k :: Filter(ys, WithKey(key, k)) == Filter(xs, WithKey(key, k))
    ensures key(Last(xs)).AtMost(key(Last(ys)))
  {
    var k := key(Last(xs));
    var p := WithKey(key, k);
    FilterMember(xs, p, Last(xs));
    assert Filter(ys, p) == Filter(xs, p);
    var y := Filter(ys, p)[0];
    assert y in Filter(ys, p);
    FilterMember(ys, p, y);
    var i :| 0 <= i < |ys| && ys[i] == y;
    assert i == |ys| - 1 || key(ys[i]).AtMost(key(Last(ys)));
  }

  // ----- Bisection

  /** bisect.bisect_right / searchsorted(side="right"): halving search for the
      first place in [lo, hi) whose value exceeds `t`. */
  function BisectRight(xs: seq<int>, t: int, lo: nat, hi: nat): (r: nat)
    requires lo <= hi <= |xs|
    ensures lo <= r <= hi
    decreases hi - lo
  {
    if lo == hi then lo
    else
      var mid := (lo + hi) / 2;
      if t < xs[mid] then BisectRight(xs, t, lo, mid) else BisectRight(xs, t, mid + 1, hi)
  }

  /** searchsorted(side="left"): the first place in [lo, hi) whose value is at least `t`. */
  function BisectLeft(xs: seq<int>, t: int, lo: nat, hi: nat): (r: nat)
    requires lo <= hi <= |xs|
    ensures lo <= r <= hi
    decreases hi - lo
  {
    if lo == hi then lo
    else
      var mid := (lo + hi) / 2;
      if xs[mid] < t then BisectLeft(xs, t, mid + 1, hi) else BisectLeft(xs, t, lo, mid)
  }

  /** On an ascending array bisect_right counts the values at most `t`. */
  lemma {:induction false} BisectRightSplits(xs: seq<int>, t: int, lo: nat, hi: nat)
    requires lo <= hi <= |xs| && Ascending(xs)
    ensures forall i :: lo <= i < BisectRight(xs, t, lo, hi) ==> xs[i] <= t
    ensures forall i :: BisectRight(xs, t, lo, hi) <= i < hi ==> t < xs[i]
    decreases hi - lo
  {
    if lo < hi {
      var mid := (lo + hi) / 2;
      if t < xs[mid] {
        BisectRightSplits(xs, t, lo, mid);
      } else {
        BisectRightSplits(xs, t, mid + 1, hi);
      }
    }
  }

  /** On an ascending array searchsorted(left) counts the values below `t`. */
  lemma {:induction false} BisectLeftSplits(xs: seq<int>, t: int, lo: nat, hi: nat)
    requires lo <= hi <= |xs| && Ascending(xs)
    ensures forall i :: lo <= i < BisectLeft(xs, t, lo, hi) ==> xs[i] < t
    ensures forall i :: BisectLeft(xs, t, lo, hi) <= i < hi ==> t <= xs[i]
    decreases hi - lo
  {
    if lo < hi {
      var mid := (lo + hi) / 2;
      if xs[mid] < t {
        BisectLeftSplits(xs, t, mid + 1, hi);
      } else {
        BisectLeftSplits(xs, t, lo, mid);
      }
    }
  }
}
