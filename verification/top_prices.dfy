/** The running top prices per source: a bounded buffer that must end with what
    a full sort of the whole stream would give. */
module TopPrices {
  import opened Sequences
  import opened StableSort

  const N_SOURCES := 20
  const TOP_N_PER_SOURCE := 3
  const BUFFER_LIMIT := 200

  datatype Row = Row(product: int, source: int, price: int, ok: bool)

  datatype Entry = Entry(price: int, product: int)

  /** Tuples compared in reverse: price, then product, both descending. */
  function EntryKey(e: Entry): Key {
    Key(-e.price, -e.product, 0)
  }

  /** The first entries of a full descending sort. */
  function TopOf(xs: seq<Entry>): seq<Entry> {
    Take(SortBy(xs, EntryKey), TOP_N_PER_SOURCE)
  }

  /** The entries of one source in stream order, successful rows only. */
  function Entries(rows: seq<Row>, source: int): seq<Entry> {
    Map(Filter(rows, Counts(source)), EntryOf)
  }

  function Counts(source: int): Row -> bool {
    (r: Row) => r.ok && r.source == source
  }

  function EntryOf(r: Row): Entry {
    Entry(r.price, r.product)
  }

  lemma EntriesAppend(rows: seq<Row>, r: Row, source: int)
    ensures Entries(rows + [r], source)
         == Entries(rows, source) + if r.ok && r.source == source then [EntryOf(r)] else []
  {
    FilterAppend(rows, [r], Counts(source));
    FilterOne(r, Counts(source));
    var kept := Filter(rows, Counts(source));
    if Counts(source)(r) {
      MapAppend(kept, r, EntryOf);
    } else {
      assert kept + [] == kept;
    }
  }

  /** The successful rows of a source with one price and product. */
  function Sold(source: int, price: int, product: int): Row -> bool {
    (r: Row) => r.ok && r.source == source && r.price == price && r.product == product
  }

  /** A source's entries are the prices and products of its successful rows, as often as these occur. */
  lemma {:induction false} EntriesAreRows(rows: seq<Row>, source: int, price: int, product: int)
    ensures multiset(Entries(rows, source))[Entry(price, product)] == |Filter(rows, Sold(source, price, product))|
  {
    if |rows| > 0 {
      var r := Last(rows);
      EntriesAreRows(Init(rows), source, price, product);
      InitLast(rows);
      EntriesAppend(Init(rows), r, source);
    } else {
      MapEmpty(EntryOf);
    }
  }

  // ----- Bounding the buffer loses nothing that can reach the top

  /** Insertion into a sorted list cannot bring back what the first `n` have cut off. */
  lemma {:induction false} InsertTake<T>(xs: seq<T>, x: T, key: T -> Key, n: nat)
    requires Sorted(xs, key)
    ensures Take(Insert(xs, x, key), n) == Take(Insert(Take(xs, n), x, key), n)
  {
    if |xs| > n {
      InsertContents(xs, x, key);
      if key(Last(xs)).AtMost(key(x)) {
        var cut := xs[..n];
        assert n > 0 ==> key(Last(cut)).AtMost(key(Last(xs)));
      } else {
        InsertTake(Init(xs), x, key, n);
        InsertContents(Init(xs), x, key);
        assert Take(Init(xs), n) == Take(xs, n);
      }
    }
  }

  lemma TopAppend(buffer: seq<Entry>, stream: seq<Entry>, e: Entry)
    requires TopOf(buffer) == TopOf(stream)
    ensures TopOf(buffer + [e]) == TopOf(stream + [e])
  {
    SortSorts(buffer, EntryKey);
    SortSorts(stream, EntryKey);
    InitAppend(buffer, e);
    InitAppend(stream, e);
    InsertTake(SortBy(buffer, EntryKey), e, EntryKey, TOP_N_PER_SOURCE);
    InsertTake(SortBy(stream, EntryKey), e, EntryKey, TOP_N_PER_SOURCE);
  }

  lemma TopOfTruncated(buffer: seq<Entry>, n: nat)
    requires n >= TOP_N_PER_SOURCE
    ensures TopOf(Take(SortBy(buffer, EntryKey), n)) == TopOf(buffer)
  {
    hide Insert;
    var sorted := SortBy(buffer, EntryKey);
    SortSorts(buffer, EntryKey);
    SortOfSorted(Take(sorted, n), EntryKey);
  }

  class GroundTruth {
    var top: map<int, seq<Entry>>
    ghost var stream: seq<Row>

    ghost predicate Valid()
      reads this
    {
      forall s :: 1 <= s <= N_SOURCES ==>
        s in top && |top[s]| <= BUFFER_LIMIT && TopOf(top[s]) == TopOf(Entries(stream, s))
    }

    constructor ()
      ensures Valid() && stream == []
    {
      top := map[];
      stream := [];
      new;
      for s := 1 to N_SOURCES + 1
        invariant stream == [] && forall i :: 1 <= i < s ==> i in top && top[i] == []
      {
        top := top[s := []];
      }
    }

    /** One chunk of generated rows. */
    method UpdateDedup(chunk: seq<Row>)
      requires Valid()
      requires forall r :: r in chunk ==> 1 <= r.source <= N_SOURCES
      modifies this
      ensures Valid() && stream == old(stream) + chunk
    {
      hide TopOf, Entries;
      for i := 0 to |chunk|
        invariant Valid() && stream == old(stream) + chunk[..i]
      {
        var r := chunk[i];
        assert r in chunk;
        assert chunk[..i + 1] == chunk[..i] + [r];
        ghost var before := stream;
        forall s: int
          ensures Entries(before + [r], s) == if r.ok && r.source == s then Entries(before, s) + [EntryOf(r)] else Entries(before, s)
        {
          EntriesAppend(before, r, s);
          assert Entries(before, s) + [] == Entries(before, s);
        }
        if r.ok {
          var heap := top[r.source];
          TopAppend(heap, Entries(before, r.source), EntryOf(r));
          heap := heap + [Entry(r.price, r.product)];
          if |heap| > BUFFER_LIMIT {
            TopOfTruncated(heap, TOP_N_PER_SOURCE * 4);
            heap := Take(SortBy(heap, EntryKey), TOP_N_PER_SOURCE * 4);
          }
          top := top[r.source := heap];
        }
        stream := stream + [r];
      }
      assert chunk[..|chunk|] == chunk;
    }

    /** However the stream was cut into chunks, the result is the top of a full sort of it. */
    method FinalizeTop() returns (out: map<int, seq<Entry>>)
      requires Valid()
      ensures forall s :: 1 <= s <= N_SOURCES ==> s in out && out[s] == TopOf(Entries(stream, s))
      ensures forall s :: 1 <= s <= 20 ==> s in out && TopOfRows(stream, s, out[s])
    {
      hide TopOf, Entries, TopOfRows;
      out := map s: int | 1 <= s <= N_SOURCES :: TopOf(top[s]);
      forall s | 1 <= s <= 20 ensures s in out && TopOfRows(stream, s, out[s]) {
        TopIsOfRows(stream, s);
      }
    }
  }

  // ----- What the top of a full sort is

  /** The top of a sort and what it leaves out make up the stream. */
  lemma TopAndRest(xs: seq<Entry>)
    ensures var sorted := SortBy(xs, EntryKey);
            var n := |TopOf(xs)|;
            && n == (if |xs| < TOP_N_PER_SOURCE then |xs| else TOP_N_PER_SOURCE) && n <= |sorted|
            && Sorted(sorted, EntryKey) && TopOf(xs) == sorted[..n]
            && multiset(xs) == multiset(sorted[..n]) + multiset(sorted[n..])
  {
    SortSorts(xs, EntryKey);
    var sorted, n := SortBy(xs, EntryKey), |TopOf(xs)|;
    hide SortBy, Sorted;
    assert |multiset(sorted)| == |multiset(xs)|;
    assert sorted == sorted[..n] + sorted[n..];
  }

  /** `a` comes no later than `b` in the ranking. */
  predicate Ranks(a: Entry, b: Entry) {
    b.price < a.price || (b.price == a.price && b.product <= a.product)
  }

  /** The top entries are part of the stream, and nothing left out beats any of them. */
  lemma TopIsLargest(xs: seq<Entry>)
    ensures |TopOf(xs)| == if |xs| < TOP_N_PER_SOURCE then |xs| else TOP_N_PER_SOURCE
    ensures multiset(TopOf(xs)) <= multiset(xs)
    ensures forall a, b :: a in TopOf(xs) && b in multiset(xs) - multiset(TopOf(xs)) ==> Ranks(a, b)
  {
    TopAndRest(xs);
    var sorted, n := SortBy(xs, EntryKey), |TopOf(xs)|;
    var rest := sorted[n..];
    hide SortBy, TopOf, Sorted;
    forall a, b | a in TopOf(xs) && b in multiset(xs) - multiset(TopOf(xs)) ensures Ranks(a, b) {
      assert b in multiset(rest);
      CutBelow(sorted, n, a, b);
    }
  }

  /** At most three entries in rank order, each of a successful row of the source, and no such
      row left out that ranks before any of them or that there was room for. */
  ghost predicate TopOfRows(rows: seq<Row>, source: int, top: seq<Entry>) {
    && |top| <= 3
    && (forall i, j :: 0 <= i < j < |top| ==> Ranks(top[i], top[j]))
    && forall price, product {:trigger Sold(source, price, product)} ::
         var left := |Filter(rows, Sold(source, price, product))| - multiset(top)[Entry(price, product)];
         && left >= 0
         && (left > 0 ==> |top| == 3 && forall a :: a in top ==> price < a.price || (price == a.price && product <= a.product))
  }

  lemma TopRanked(xs: seq<Entry>)
    ensures forall i, j :: 0 <= i < j < |TopOf(xs)| ==> Ranks(TopOf(xs)[i], TopOf(xs)[j])
  {
    TopAndRest(xs);
    var sorted := SortBy(xs, EntryKey);
    hide SortBy, TopOf;
    forall i, j | 0 <= i < j < |TopOf(xs)| ensures Ranks(TopOf(xs)[i], TopOf(xs)[j]) {
      assert EntryKey(sorted[i]).AtMost(EntryKey(sorted[j]));
    }
  }

  lemma TopIsOfRows(rows: seq<Row>, source: int)
    ensures TopOfRows(rows, source, TopOf(Entries(rows, source)))
  {
    var xs := Entries(rows, source);
    TopIsLargest(xs);
    TopRanked(xs);
    var top := TopOf(xs);
    hide TopOf, Entries, Filter, SortBy;
    forall price, product
      ensures var left := |Filter(rows, Sold(source, price, product))| - multiset(top)[Entry(price, product)];
              && left >= 0
              && (left > 0 ==> |top| == 3 && forall a :: a in top ==> price < a.price || (price == a.price && product <= a.product))
    {
      EntriesAreRows(rows, source, price, product);
      var b := Entry(price, product);
      if multiset(xs)[b] > multiset(top)[b] {
        assert b in multiset(xs) - multiset(top);
        if |top| < 3 {
          AllTaken(top, xs, b);
        }
      }
    }
  }

  lemma AllTaken(top: seq<Entry>, xs: seq<Entry>, b: Entry)
    requires multiset(top) <= multiset(xs) && |top| == |xs|
    ensures multiset(xs)[b] <= multiset(top)[b]
  {
    var rest := multiset(xs) - multiset(top);
    assert multiset(xs) == multiset(top) + rest;
    assert |rest| == 0;
    assert b !in rest;
  }

  lemma CutBelow(sorted: seq<Entry>, n: nat, a: Entry, b: Entry)
    requires Sorted(sorted, EntryKey) && n <= |sorted| && a in sorted[..n] && b in sorted[n..]
    ensures Ranks(a, b)
  {
    var i :| 0 <= i < n && sorted[i] == a;
    var j :| n <= j < |sorted| && sorted[j] == b;
    assert EntryKey(sorted[i]).AtMost(EntryKey(sorted[j]));
  }

  /** The result does not depend on the order of the stream. */
  lemma TopIgnoresOrder(xs: seq<Entry>, ys: seq<Entry>)
    requires multiset(xs) == multiset(ys)
    ensures TopOf(xs) == TopOf(ys)
  {
    SortSorts(xs, EntryKey);
    SortSorts(ys, EntryKey);
    hide SortBy, Sorted;
    SortedUnique(SortBy(xs, EntryKey), SortBy(ys, EntryKey), EntryKey);
  }
}
