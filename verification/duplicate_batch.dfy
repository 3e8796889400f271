/** The deduplication fixture: a version per row, computed as a rank within its
    key group by a sort and a running maximum. */
module DuplicateBatch {
  import opened Sequences
  import opened StableSort

  /** The natural key a key index stands for. */
  datatype NaturalKey = NaturalKey(product: int, seller: int, day: int, second: int)

  datatype Row = Row(key: NaturalKey, price: int, inStock: bool, version: int, ingested: int)

  const BASE_INGEST := 1751328000 // 2025-07-01, UTC, in epoch seconds

  // ----- Stable argsort

  ghost predicate Precedes(key: nat -> Key, i: nat, j: nat) {
    key(i).AtMost(key(j)) && (key(i) == key(j) ==> i < j)
  }

  /** np.lexsort: indices by key, equal keys in index order. */
  function ArgSort(n: nat, key: nat -> Key): seq<nat> {
    SortBy(Range(n), key)
  }

  ghost predicate StrictlyOrdered(order: seq<nat>, key: nat -> Key) {
    forall a, b :: 0 <= a < b < |order| ==> Precedes(key, order[a], order[b])
  }

  lemma {:induction false} InsertLargest(s: seq<nat>, x: nat, key: nat -> Key)
    requires StrictlyOrdered(s, key) && forall i: nat :: i in s ==> i < x
    ensures StrictlyOrdered(Insert(s, x, key), key)
  {
    hide Distinct;
    if |s| == 0 || key(Last(s)).AtMost(key(x)) {
      forall a | 0 <= a < |s| ensures Precedes(key, s[a], x) {
        assert s[a] in s;
        assert a == |s| - 1 || Precedes(key, s[a], Last(s));
      }
    } else {
      InitLast(s);
      forall i: nat | i in Init(s) ensures i < x {
        assert i in s;
      }
      InsertLargest(Init(s), x, key);
      var r := Insert(Init(s), x, key);
      forall a | 0 <= a < |r| ensures Precedes(key, r[a], Last(s)) {
        assert r[a] in r;
        InsertMember(Init(s), x, key, r[a]);
        if r[a] != x {
          var b :| 0 <= b < |s| - 1 && s[b] == r[a];
        }
      }
    }
  }

  lemma {:induction false} ArgSortOrders(n: nat, key: nat -> Key)
    ensures IsPermutation(ArgSort(n, key), n) && StrictlyOrdered(ArgSort(n, key), key)
  {
    hide SortBy;
    SortSorts(Range(n), key);
    SortDistinct(Range(n), key);
    forall a | 0 <= a < n ensures ArgSort(n, key)[a] < n {
      SortMember(Range(n), key, ArgSort(n, key)[a]);
    }
    ArgSortStrict(n, key);
  }

  lemma {:induction false} ArgSortStrict(n: nat, key: nat -> Key)
    ensures StrictlyOrdered(ArgSort(n, key), key)
  {
    if n > 0 {
      ArgSortStrict(n - 1, key);
      InitAppend(Range(n - 1), n - 1);
      var before := ArgSort(n - 1, key);
      forall i: nat | i in before ensures i < n - 1 {
        SortMember(Range(n - 1), key, i);
      }
      InsertLargest(before, n - 1, key);
    }
  }

  // ----- Rank within the group

  function IndexKey(rowKey: seq<int>, sequence: seq<int>): nat -> Key
    requires |rowKey| == |sequence|
  {
    (i: nat) => if i < |rowKey| then Key(rowKey[i], sequence[i], 0) else Key(0, 0, 0)
  }

  /** np.maximum.accumulate */
  function RunningMaximum(xs: seq<nat>): (r: seq<nat>)
    ensures |r| == |xs|
  {
    if |xs| == 0 then []
    else
      var before := RunningMaximum(Init(xs));
      before + [if |before| > 0 && Last(before) > Last(xs) then Last(before) else Last(xs)]
  }

  /** At every position it is the largest element so far. */
  lemma {:induction false} RunningMaximumIs(xs: seq<nat>, a: nat)
    requires a < |xs|
    ensures RunningMaximum(xs)[a] in xs[..a + 1]
    ensures forall c :: 0 <= c <= a ==> xs[c] <= RunningMaximum(xs)[a]
  {
    if a < |xs| - 1 {
      RunningMaximumIs(Init(xs), a);
      assert Init(xs)[..a + 1] == xs[..a + 1];
    } else if a > 0 {
      RunningMaximumIs(Init(xs), a - 1);
      assert Init(xs)[..a] == xs[..a];
      assert RunningMaximum(xs)[a] == xs[a] || RunningMaximum(xs)[a] in xs[..a];
      assert xs[..a + 1] == xs[..a] + [xs[a]];
    }
  }

  predicate StartsGroup(rowKey: seq<int>, order: seq<nat>, a: nat)
    requires Indexes(order, |rowKey|) && a < |order|
  {
    a == 0 || rowKey[order[a]] != rowKey[order[a - 1]]
  }

  /** np.where(group_start, np.arange(n), 0) */
  ghost function StartIndexes(rowKey: seq<int>, order: seq<nat>): seq<nat>
    requires Indexes(order, |rowKey|)
  {
    seq(|order|, a requires 0 <= a < |order| => if StartsGroup(rowKey, order, a) then a else 0)
  }

  /** The running maximum of the start indexes is the start of the group at hand. */
  lemma {:induction false} RunningMaximumIsGroupStart(rowKey: seq<int>, order: seq<nat>, a: nat)
    requires Indexes(order, |rowKey|) && a < |order|
    ensures RunningMaximum(StartIndexes(rowKey, order))[a] == GroupStart(rowKey, order, a)
  {
    var starts := StartIndexes(rowKey, order);
    RunningMaximumPrefix(starts, a);
    if a > 0 {
      RunningMaximumIsGroupStart(rowKey, order, a - 1);
    }
    hide RunningMaximum;
  }

  lemma {:induction false} RunningMaximumPrefix(xs: seq<nat>, a: nat)
    requires a < |xs|
    ensures RunningMaximum(xs)[a]
         == if a > 0 && RunningMaximum(xs)[a - 1] > xs[a] then RunningMaximum(xs)[a - 1] else xs[a]
  {
    if a < |xs| - 1 {
      RunningMaximumPrefix(Init(xs), a);
    }
  }

  /** The last position up to `a` at which a group starts. */
  function GroupStart(rowKey: seq<int>, order: seq<nat>, a: nat): (g: nat)
    requires Indexes(order, |rowKey|) && a < |order|
    ensures g <= a
  {
    if a == 0 then 0
    else if rowKey[order[a]] != rowKey[order[a - 1]] then a
    else GroupStart(rowKey, order, a - 1)
  }

  /** The rows of the same key that come earlier by (sequence, index). */
  ghost function Earlier(rowKey: seq<int>, sequence: seq<int>, i: nat): set<nat>
    requires |rowKey| == |sequence| && i < |rowKey|
  {
    set j: nat | j < |rowKey| && rowKey[j] == rowKey[i]
                 && (sequence[j] < sequence[i] || (sequence[j] == sequence[i] && j < i))
  }

  ghost function Rank(rowKey: seq<int>, sequence: seq<int>, i: nat): nat
    requires |rowKey| == |sequence| && i < |rowKey|
  {
    |Earlier(rowKey, sequence, i)| + 1
  }

  lemma {:induction false} GroupIsRun(rowKey: seq<int>, order: seq<nat>, a: nat)
    requires Indexes(order, |rowKey|) && a < |order|
    ensures var g := GroupStart(rowKey, order, a);
            && (forall c :: g <= c <= a ==> rowKey[order[c]] == rowKey[order[a]])
            && (g > 0 ==> rowKey[order[g - 1]] != rowKey[order[a]])
  {
    if a > 0 && rowKey[order[a]] == rowKey[order[a - 1]] {
      GroupIsRun(rowKey, order, a - 1);
    }
  }

  /** Where a row stands relative to another tells whether it is earlier in its group. */
  lemma PositionTells(rowKey: seq<int>, sequence: seq<int>, order: seq<nat>, a: nat, c: nat)
    requires |rowKey| == |sequence|
    requires IsPermutation(order, |rowKey|) && StrictlyOrdered(order, IndexKey(rowKey, sequence))
    requires a < |order| && c < |order|
    ensures order[c] in Earlier(rowKey, sequence, order[a]) <==> GroupStart(rowKey, order, a) <= c < a
  {
    var key, g := IndexKey(rowKey, sequence), GroupStart(rowKey, order, a);
    GroupIsRun(rowKey, order, a);
    if c > a {
      assert Precedes(key, order[a], order[c]);
    } else if g <= c < a {
      assert Precedes(key, order[c], order[a]);
    } else if c < g {
      assert c == g - 1 || Precedes(key, order[c], order[g - 1]);
      assert Precedes(key, order[g - 1], order[a]);
    }
  }

  lemma PositionInGroupIsRank(rowKey: seq<int>, sequence: seq<int>, order: seq<nat>, a: nat)
    requires |rowKey| == |sequence|
    requires IsPermutation(order, |rowKey|) && StrictlyOrdered(order, IndexKey(rowKey, sequence))
    requires a < |order|
    ensures a - GroupStart(rowKey, order, a) + 1 == Rank(rowKey, sequence, order[a])
  {
    hide StrictlyOrdered, GroupStart;
    var g, i := GroupStart(rowKey, order, a), order[a];
    var run := order[g..a];
    DistinctSize(run);
    forall j: nat ensures j in Earlier(rowKey, sequence, i) <==> j in Elements(run) {
      if j < |rowKey| {
        PermutationOnto(order, |rowKey|, j);
        var c :| 0 <= c < |order| && order[c] == j;
        PositionTells(rowKey, sequence, order, a, c);
        if g <= c < a {
          assert run[c - g] == j;
        }
      }
      if j in Elements(run) {
        var c :| 0 <= c < |run| && run[c] == j;
        PositionTells(rowKey, sequence, order, a, g + c);
      }
    }
    assert Earlier(rowKey, sequence, i) == Elements(run);
  }

  /** arange minus the running maximum of the start indexes, plus one, is the rank within the group. */
  lemma RunningMaximumIsRank(rowKey: seq<int>, sequence: seq<int>, order: seq<nat>, a: nat)
    requires |rowKey| == |sequence|
    requires IsPermutation(order, |rowKey|) && StrictlyOrdered(order, IndexKey(rowKey, sequence))
    requires a < |order|
    ensures a - RunningMaximum(StartIndexes(rowKey, order))[a] + 1 == Rank(rowKey, sequence, order[a])
  {
    RunningMaximumIsGroupStart(rowKey, order, a);
    PositionInGroupIsRank(rowKey, sequence, order, a);
  }

  /** `version[order] = ranks + 1` */
  method Versions(rowKey: seq<int>, sequence: seq<int>) returns (version: array<int>)
    requires |rowKey| == |sequence|
    ensures fresh(version) && version.Length == |rowKey|
    ensures forall i :: 0 <= i < |rowKey| ==> version[i] == Rank(rowKey, sequence, i)
  {
    hide Rank, StrictlyOrdered, ArgSort, RunningMaximum;
    var n := |rowKey|;
    version := new int[n](_ => 0);
    var order := ArgSort(n, IndexKey(rowKey, sequence));
    ArgSortOrders(n, IndexKey(rowKey, sequence));
    ghost var starts := StartIndexes(rowKey, order);
    var best: nat := 0;
    for a := 0 to n
      invariant a > 0 ==> best == RunningMaximum(starts)[a - 1]
      invariant forall c :: 0 <= c < a ==> version[order[c]] == Rank(rowKey, sequence, order[c])
    {
      var start := if StartsGroup(rowKey, order, a) then a else 0;
      RunningMaximumPrefix(starts, a);
      RunningMaximumIsRank(rowKey, sequence, order, a);
      if a == 0 || start >= best {
        best := start;
      }
      assert forall c :: 0 <= c < a ==> order[c] != order[a];
      version[order[a]] := a - best + 1;
    }
    forall i: nat | i < n ensures version[i] == Rank(rowKey, sequence, i) {
      PermutationOnto(order, n, i);
    }
  }

  // ----- The batch

  datatype Draws = Draws(keys: seq<NaturalKey>, rowKey: seq<nat>, sequence: seq<int>, price: seq<int>, inStock: seq<bool>)

  ghost predicate ValidDraws(d: Draws) {
    && |d.rowKey| == |d.sequence| == |d.price| == |d.inStock|
    && forall i :: 0 <= i < |d.rowKey| ==> d.rowKey[i] < |d.keys|
  }

  /** Row `i` before the final sort. */
  ghost function RowAt(d: Draws, i: nat): Row
    requires ValidDraws(d) && i < |d.rowKey|
  {
    var v := Rank(d.rowKey, d.sequence, i);
    Row(d.keys[d.rowKey[i]], d.price[i], d.inStock[i], v, BASE_INGEST + v)
  }

  ghost function Unsorted(d: Draws): seq<Row>
    requires ValidDraws(d)
  {
    seq(|d.rowKey|, i requires 0 <= i < |d.rowKey| => RowAt(d, i))
  }

  /** Every draw's key, price and stock flag is in one row, and a row is ingested its version's
      number of seconds after 2025-07-01. */
  ghost predicate CarriesDraws(d: Draws, rows: seq<Row>)
    requires ValidDraws(d)
  {
    && |rows| == |d.rowKey|
    && (forall r :: r in rows ==> r.ingested == 1751328000 + r.version)
    && exists order: seq<nat> :: IsPermutation(order, |rows|)
         && forall a :: 0 <= a < |rows| ==>
              && rows[a].key == d.keys[d.rowKey[order[a]]]
              && rows[a].price == d.price[order[a]] && rows[a].inStock == d.inStock[order[a]]
  }

  const NO_ROW := Row(NaturalKey(0, 0, 0, 0), 0, false, 0, 0)

  ghost function RowOf(d: Draws): nat -> Row
    requires ValidDraws(d)
  {
    (i: nat) => if i < |d.rowKey| then RowAt(d, i) else NO_ROW
  }

  ghost function IndexIngest(d: Draws): nat -> Key
    requires ValidDraws(d)
  {
    (i: nat) => ByIngest(RowOf(d)(i))
  }

  lemma BatchOrder(d: Draws) returns (order: seq<nat>)
    requires ValidDraws(d)
    ensures IsPermutation(order, |d.rowKey|)
    ensures SortBy(Unsorted(d), ByIngest) == Map(order, RowOf(d))
  {
    hide SortBy, Rank, StrictlyOrdered, Distinct, ArgSort;
    var n := |d.rowKey|;
    order := ArgSort(n, IndexIngest(d));
    ArgSortOrders(n, IndexIngest(d));
    assert Unsorted(d) == Map(Range(n), RowOf(d));
    SortMap(Range(n), RowOf(d), IndexIngest(d), ByIngest);
    ArgSortIs(n, IndexIngest(d));
  }

  lemma ArgSortIs(n: nat, key: nat -> Key)
    ensures ArgSort(n, key) == SortBy(Range(n), key)
  {
  }

  /** The sort moves the rows and leaves each as it was drawn. */
  lemma BatchCarriesDraws(d: Draws)
    requires ValidDraws(d)
    ensures CarriesDraws(d, SortBy(Unsorted(d), ByIngest))
  {
    hide SortBy, Rank, Distinct, Unsorted;
    var order := BatchOrder(d);
    var rows := SortBy(Unsorted(d), ByIngest);
    forall a | 0 <= a < |rows| ensures rows[a] == RowAt(d, order[a]) {
    }
  }

  function ByIngest(r: Row): Key {
    Key(r.ingested, 0, 0)
  }

  method BuildDuplicateBatch(d: Draws) returns (rows: seq<Row>)
    requires ValidDraws(d)
    ensures rows == SortBy(Unsorted(d), ByIngest)
    ensures CarriesDraws(d, rows)
  {
    var version := Versions(d.rowKey, d.sequence);
    rows := [];
    for i := 0 to |d.rowKey|
      invariant rows == Unsorted(d)[..i]
    {
      rows := rows + [Row(d.keys[d.rowKey[i]], d.price[i], d.inStock[i], version[i], BASE_INGEST + version[i])];
    }
    assert Unsorted(d)[..|d.rowKey|] == Unsorted(d);
    BatchCarriesDraws(d);
    rows := SortBy(rows, ByIngest);
  }

  // ----- The contract of the fixture

  /** Versions grow along (sequence, index) within a key, so they are distinct there. */
  lemma VersionsIncrease(rowKey: seq<int>, sequence: seq<int>, i: nat, j: nat)
    requires |rowKey| == |sequence| && i < |rowKey| && j < |rowKey|
    requires i in Earlier(rowKey, sequence, j)
    ensures Rank(rowKey, sequence, i) < Rank(rowKey, sequence, j)
  {
    var a, b := Earlier(rowKey, sequence, i), Earlier(rowKey, sequence, j);
    assert a <= b - {i};
    assert b == a + (b - a);
    assert |b| == |a| + |b - a|;
    assert i in b - a;
  }

  /** The versions of a key start at one and leave no gap. */
  lemma {:induction false} VersionsContiguous(rowKey: seq<int>, sequence: seq<int>, i: nat, v: nat)
    requires |rowKey| == |sequence| && i < |rowKey|
    requires 1 <= v <= Rank(rowKey, sequence, i)
    ensures exists j: nat :: j < |rowKey| && rowKey[j] == rowKey[i] && Rank(rowKey, sequence, j) == v
  {
    var key := IndexKey(rowKey, sequence);
    var order := ArgSort(|rowKey|, key);
    ArgSortOrders(|rowKey|, key);
    PermutationOnto(order, |rowKey|, i);
    var a :| 0 <= a < |order| && order[a] == i;
    PositionInGroupIsRank(rowKey, sequence, order, a);
    GroupIsRun(rowKey, order, a);
    var g := GroupStart(rowKey, order, a);
    var c := g + v - 1;
    SameGroupStart(rowKey, order, a, c);
    PositionInGroupIsRank(rowKey, sequence, order, c);
    assert rowKey[order[c]] == rowKey[i] && Rank(rowKey, sequence, order[c]) == v;
  }

  lemma {:induction false} SameGroupStart(rowKey: seq<int>, order: seq<nat>, a: nat, c: nat)
    requires Indexes(order, |rowKey|) && a < |order|
    requires GroupStart(rowKey, order, a) <= c <= a
    ensures GroupStart(rowKey, order, c) == GroupStart(rowKey, order, a)
  {
    if c < a {
      SameGroupStart(rowKey, order, a - 1, c);
    }
  }

  /** The promise of distinct versions per natural key is kept exactly when no
      two key indices in use stand for the same natural key. */
  lemma DistinctVersionsIff(d: Draws)
    requires ValidDraws(d)
    ensures (forall i, j :: 0 <= i < j < |d.rowKey| && d.keys[d.rowKey[i]] == d.keys[d.rowKey[j]]
                            ==> RowAt(d, i).version != RowAt(d, j).version)
       <==> (forall i, j :: 0 <= i < j < |d.rowKey| && d.rowKey[i] != d.rowKey[j]
                            ==> d.keys[d.rowKey[i]] != d.keys[d.rowKey[j]])
  {
    forall i, j | 0 <= i < j < |d.rowKey| && d.rowKey[i] == d.rowKey[j]
      ensures RowAt(d, i).version != RowAt(d, j).version
    {
      SameKeyDiffers(d, i, j);
    }
    forall i, j | 0 <= i < j < |d.rowKey| && d.rowKey[i] != d.rowKey[j] && d.keys[d.rowKey[i]] == d.keys[d.rowKey[j]]
      ensures exists a, b :: 0 <= a < b < |d.rowKey| && d.keys[d.rowKey[a]] == d.keys[d.rowKey[b]]
                && RowAt(d, a).version == RowAt(d, b).version
    {
      SharedKeyClashes(d, i, j);
    }
  }

  /** Two key indices drawn for one natural key: both of its rows get version one. */
  lemma KeysCanClash(k: NaturalKey, price: seq<int>, inStock: seq<bool>)
    requires |price| == |inStock| == 2
    ensures var d := Draws([k, k], [0, 1], [0, 0], price, inStock);
            && ValidDraws(d)
            && RowAt(d, 0).key == RowAt(d, 1).key == k && RowAt(d, 0).version == RowAt(d, 1).version == 1
  {
    var d := Draws([k, k], [0, 1], [0, 0], price, inStock);
    assert d.rowKey[0] == 0 && d.rowKey[1] == 1;
    assert Earlier(d.rowKey, d.sequence, 0) == {} && Earlier(d.rowKey, d.sequence, 1) == {};
  }

  lemma SameKeyDiffers(d: Draws, i: nat, j: nat)
    requires ValidDraws(d) && i < j < |d.rowKey| && d.rowKey[i] == d.rowKey[j]
    ensures Rank(d.rowKey, d.sequence, i) != Rank(d.rowKey, d.sequence, j)
  {
    if d.sequence[i] <= d.sequence[j] {
      VersionsIncrease(d.rowKey, d.sequence, i, j);
    } else {
      VersionsIncrease(d.rowKey, d.sequence, j, i);
    }
  }

  lemma SharedKeyClashes(d: Draws, i: nat, j: nat)
    requires ValidDraws(d) && i < j < |d.rowKey| && d.rowKey[i] != d.rowKey[j] && d.keys[d.rowKey[i]] == d.keys[d.rowKey[j]]
    ensures exists a, b :: 0 <= a < b < |d.rowKey| && d.keys[d.rowKey[a]] == d.keys[d.rowKey[b]]
                && RowAt(d, a).version == RowAt(d, b).version
  {
    VersionsContiguous(d.rowKey, d.sequence, i, 1);
    VersionsContiguous(d.rowKey, d.sequence, j, 1);
    var x: nat :| x < |d.rowKey| && d.rowKey[x] == d.rowKey[i] && Rank(d.rowKey, d.sequence, x) == 1;
    var y: nat :| y < |d.rowKey| && d.rowKey[y] == d.rowKey[j] && Rank(d.rowKey, d.sequence, y) == 1;
    assert x != y;
    var a, b := if x < y then x else y, if x < y then y else x;
    assert RowAt(d, a).version == RowAt(d, b).version;
  }

  function OfKey(k: NaturalKey): Row -> bool {
    (r: Row) => r.key == k
  }

  /** Keeping the last row written per natural key keeps a row of the highest version. */
  lemma LastWriteIsHighestVersion(d: Draws, k: NaturalKey)
    requires ValidDraws(d)
    ensures var written := Filter(SortBy(Unsorted(d), ByIngest), OfKey(k));
            written != [] ==> forall r :: r in Unsorted(d) && r.key == k ==> r.version <= Last(written).version
  {
    hide SortBy, Filter, Unsorted;
    SortFilter(Unsorted(d), ByIngest, OfKey(k));
    var chosen := Filter(Unsorted(d), OfKey(k));
    SortSorts(chosen, ByIngest);
    var written := SortBy(chosen, ByIngest);
    if written != [] {
      LastMember(d, chosen, written);
      forall r | r in Unsorted(d) && r.key == k ensures r.version <= Last(written).version {
        FilterMember(Unsorted(d), OfKey(k), r);
        SortMember(chosen, ByIngest, r);
        var i :| 0 <= i < |written| && written[i] == r;
        assert i == |written| - 1 || ByIngest(written[i]).AtMost(ByIngest(Last(written)));
        IngestFollowsVersion(d, r);
      }
    }
  }

  lemma LastMember(d: Draws, chosen: seq<Row>, written: seq<Row>)
    requires ValidDraws(d) && written != []
    requires written == SortBy(chosen, ByIngest) && exists k :: chosen == Filter(Unsorted(d), OfKey(k))
    ensures Last(written).ingested == BASE_INGEST + Last(written).version
  {
    var k :| chosen == Filter(Unsorted(d), OfKey(k));
    assert Last(written) in written;
    SortMember(chosen, ByIngest, Last(written));
    FilterMember(Unsorted(d), OfKey(k), Last(written));
    IngestFollowsVersion(d, Last(written));
  }

  lemma IngestFollowsVersion(d: Draws, r: Row)
    requires ValidDraws(d) && r in Unsorted(d)
    ensures r.ingested == BASE_INGEST + r.version
  {
    var j :| 0 <= j < |Unsorted(d)| && Unsorted(d)[j] == r;
  }

  /** With distinct natural keys that row is the only one of its version: a
      versioned merge and a last-write-wins load end with the same row. */
  lemma HighestVersionUnique(d: Draws, i: nat, j: nat)
    requires ValidDraws(d) && i < |d.rowKey| && j < |d.rowKey|
    requires forall a, b :: 0 <= a < b < |d.rowKey| && d.rowKey[a] != d.rowKey[b]
                            ==> d.keys[d.rowKey[a]] != d.keys[d.rowKey[b]]
    requires RowAt(d, i).key == RowAt(d, j).key && RowAt(d, i).version == RowAt(d, j).version
    ensures i == j
  {
    DistinctVersionsIff(d);
  }
}
