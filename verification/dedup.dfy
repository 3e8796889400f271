/** Encoding and deduplication of the raw observations: a stable sort by
    (shop, product, event_time) followed by a comparison of neighbours. */
module Dedup {
  import opened Basics
  import opened Sequences
  import opened StableSort
  import opened EventLog
  import opened Entities

  /** One row of the parallel arrays; `sc` and `pc` index the code tables. */
  datatype Row = Row(sc: nat, pc: nat, time: int, arrival: int, price: int, currency: Currency)

  datatype Arrays = Arrays(shopCodes: seq<Code>, prodCodes: seq<Code>, rows: seq<Row>)

  datatype EmptyInput = EmptyInput

  function CodeKey(c: Code): Key { Key(c, 0, 0) }

  function RowKey(r: Row): Key { Key(r.sc, r.pc, r.time) }

  function ObservationKey(o: Observation): Key { Key(o.shop, o.product, o.time) }

  /** Drops each element whose key equals its predecessor's: the `is_new` mask. */
  function KeepNew<T>(xs: seq<T>, key: T -> Key): seq<T> {
    if |xs| == 0 then []
    else KeepNew(Init(xs), key) + if |xs| == 1 || key(Last(xs)) != key(xs[|xs| - 2]) then [Last(xs)] else []
  }

  ghost predicate StrictlySorted<T>(xs: seq<T>, key: T -> Key) {
    forall i, j :: 0 <= i < j < |xs| ==> !key(xs[j]).AtMost(key(xs[i]))
  }

  /** Each kept element is the first of its key, and every key is kept. */
  ghost predicate KeepsFirsts<T>(kept: seq<T>, xs: seq<T>, key: T -> Key) {
    && StrictlySorted(kept, key)
    && (forall d :: d in kept ==> IsFirst(d, xs, key))
    && (forall x :: x in xs ==> Covers(kept, key, key(x)))
  }

  /** `d` is the earliest element of `xs` with its key. */
  ghost predicate IsFirst<T>(d: T, xs: seq<T>, key: T -> Key) {
    Filter(xs, WithKey(key, key(d))) != [] && Filter(xs, WithKey(key, key(d)))[0] == d
  }

  ghost predicate Covers<T>(kept: seq<T>, key: T -> Key, k: Key) {
    exists i :: 0 <= i < |kept| && key(kept[i]) == k
  }

  lemma FirstIsMember<T>(d: T, xs: seq<T>, key: T -> Key)
    requires IsFirst(d, xs, key)
    ensures d in xs
  {
    FilterMember(xs, WithKey(key, key(d)), d);
    assert d in Filter(xs, WithKey(key, key(d)));
  }

  lemma {:induction false} KeepNewOfSorted<T(!new)>(xs: seq<T>, key: T -> Key)
    requires Sorted(xs, key)
    ensures KeepsFirsts(KeepNew(xs, key), xs, key)
    ensures xs != [] ==> KeepNew(xs, key) != [] && key(Last(KeepNew(xs, key))) == key(Last(xs))
  {
    if |xs| > 0 {
      KeepNewOfSorted(Init(xs), key);
      KeepNewStep(xs, KeepNew(Init(xs), key), key);
    }
  }

  lemma KeepNewStep<T(!new)>(xs: seq<T>, kept: seq<T>, key: T -> Key)
    requires |xs| > 0 && Sorted(xs, key)
    requires KeepsFirsts(kept, Init(xs), key)
    requires |xs| > 1 ==> kept != [] && key(Last(kept)) == key(xs[|xs| - 2])
    ensures var differs := |xs| == 1 || key(Last(xs)) != key(xs[|xs| - 2]);
            KeepsFirsts(kept + if differs then [Last(xs)] else [], xs, key)
  {
    hide Filter;
    var x := Last(xs);
    var differs := |xs| == 1 || key(x) != key(xs[|xs| - 2]);
    var all := kept + if differs then [x] else [];
    forall d | d in all ensures IsFirst(d, xs, key) {
      if d in kept {
        FirstExtends(d, xs, key);
      } else {
        NewIsFirst(xs, key);
      }
    }
    if differs {
      KeptBelow(xs, kept, key);
    }
    forall y | y in xs ensures Covers(all, key, key(y)) {
      if y in Init(xs) {
        var i :| 0 <= i < |kept| && key(kept[i]) == key(y);
        assert key(all[i]) == key(y);
      } else {
        InitLast(xs);
        assert key(Last(all)) == key(y);
      }
    }
  }

  lemma FirstExtends<T>(d: T, xs: seq<T>, key: T -> Key)
    requires |xs| > 0 && IsFirst(d, Init(xs), key)
    ensures IsFirst(d, xs, key)
  {
  }

  lemma NewIsFirst<T>(xs: seq<T>, key: T -> Key)
    requires |xs| > 0 && Sorted(xs, key)
    requires |xs| == 1 || key(Last(xs)) != key(xs[|xs| - 2])
    ensures IsFirst(Last(xs), xs, key)
  {
    forall y | y in Init(xs) ensures key(y) != key(Last(xs)) {
      NewKey(xs, key, y);
    }
    FilterNone(Init(xs), WithKey(key, key(Last(xs))));
  }

  lemma NewKey<T>(xs: seq<T>, key: T -> Key, y: T)
    requires |xs| > 1 && Sorted(xs, key) && key(Last(xs)) != key(xs[|xs| - 2])
    requires y in Init(xs)
    ensures key(y) != key(Last(xs))
  {
    var n := |xs|;
    var i :| 0 <= i < n - 1 && xs[i] == y;
    assert key(xs[n - 2]).AtMost(key(xs[n - 1]));
    assert i == n - 2 || key(xs[i]).AtMost(key(xs[n - 2]));
  }

  lemma KeptBelow<T(!new)>(xs: seq<T>, kept: seq<T>, key: T -> Key)
    requires |xs| > 0 && Sorted(xs, key)
    requires KeepsFirsts(kept, Init(xs), key)
    requires |xs| > 1 ==> key(Last(xs)) != key(xs[|xs| - 2])
    ensures StrictlySorted(kept + [Last(xs)], key)
  {
    var x := Last(xs);
    forall i | 0 <= i < |kept| ensures !key(x).AtMost(key(kept[i])) {
      var d := kept[i];
      assert d in kept;
      FirstIsMember(d, Init(xs), key);
      NewKey(xs, key, d);
      var j :| 0 <= j < |xs| - 1 && xs[j] == d;
      assert key(xs[j]).AtMost(key(x));
    }
  }

  /** Stable sort plus neighbour comparison keeps the first-arriving copy of each key. */
  lemma DedupKeepsFirstArrival<T(!new)>(xs: seq<T>, key: T -> Key)
    ensures KeepsFirsts(KeepNew(SortBy(xs, key), key), xs, key)
  {
    var sorted := SortBy(xs, key);
    SortSorts(xs, key);
    KeepNewOfSorted(sorted, key);
    var kept := KeepNew(sorted, key);
    forall d | d in kept ensures IsFirst(d, xs, key) {
      SortStable(xs, key, key(d));
    }
    forall x | x in xs ensures Covers(kept, key, key(x)) {
      SortMember(xs, key, x);
    }
  }

  ghost function KeySet<T>(xs: seq<T>, key: T -> Key): set<Key> {
    set x | x in xs :: key(x)
  }

  /** One kept row per distinct key. */
  lemma KeptCount<T(!new)>(xs: seq<T>, kept: seq<T>, key: T -> Key)
    requires KeepsFirsts(kept, xs, key)
    ensures |kept| == |KeySet(xs, key)|
  {
    var keys := Map(kept, key);
    forall i, j | 0 <= i < j < |keys| ensures keys[i] != keys[j] {
      assert !key(kept[j]).AtMost(key(kept[i]));
    }
    DistinctSize(keys);
    forall k ensures k in Elements(keys) <==> k in KeySet(xs, key) {
      if k in Elements(keys) {
        var i :| 0 <= i < |keys| && keys[i] == k;
        assert kept[i] in kept;
        FirstIsMember(kept[i], xs, key);
      }
      if k in KeySet(xs, key) {
        var x :| x in xs && key(x) == k;
        var i :| 0 <= i < |kept| && key(kept[i]) == key(x);
        assert keys[i] == k;
      }
    }
    assert Elements(keys) == KeySet(xs, key);
  }

  // ----- The code tables

  /** sorted(set(codes)) */
  function CodeTable(codes: seq<Code>): seq<Code> {
    KeepNew(SortBy(codes, CodeKey), CodeKey)
  }

  lemma CodeTableLists(codes: seq<Code>)
    ensures forall i, j :: 0 <= i < j < |CodeTable(codes)| ==> CodeTable(codes)[i] < CodeTable(codes)[j]
    ensures forall c :: c in CodeTable(codes) <==> c in codes
  {
    DedupKeepsFirstArrival(codes, CodeKey);
    var table := CodeTable(codes);
    forall i, j | 0 <= i < j < |table| ensures table[i] < table[j] {
      assert !CodeKey(table[j]).AtMost(CodeKey(table[i]));
    }
    forall c ensures c in table <==> c in codes {
      if c in table {
        FirstIsMember(c, codes, CodeKey);
      }
    }
  }

  /** Indices into a code table compare as the codes do. */
  lemma IndexFaithful(codes: seq<Code>, c: Code, d: Code)
    requires c in codes && d in codes
    ensures var table := CodeTable(codes);
            && c in table && d in table
            && (IndexOf(table, c) < IndexOf(table, d) <==> c < d)
  {
    CodeTableLists(codes);
    var table := CodeTable(codes);
    var i, j := IndexOf(table, c), IndexOf(table, d);
    assert table[i] == c && table[j] == d;
  }

  /** The dictionary {code: index} over a table; defined for listed codes. */
  function IndexOf(table: seq<Code>, c: Code): (i: nat)
    requires c in table
    ensures i < |table| && table[i] == c
  {
    if Last(table) == c then |table| - 1 else
      InitLast(table);
      IndexOf(Init(table), c)
  }

  function Encode(shops: seq<Code>, prods: seq<Code>, o: Observation): Row {
    Row(if o.shop in shops then IndexOf(shops, o.shop) else 0,
        if o.product in prods then IndexOf(prods, o.product) else 0,
        o.time, o.arrival, o.price, o.currency)
  }

  function Decode(shops: seq<Code>, prods: seq<Code>, r: Row): Observation
    requires r.sc < |shops| && r.pc < |prods|
  {
    Observation(shops[r.sc], prods[r.pc], r.time, r.arrival, r.price, r.currency)
  }

  function ShopOf(o: Observation): Code { o.shop }

  function ProductOf(o: Observation): Code { o.product }

  function Shops(raw: seq<Observation>): seq<Code> {
    CodeTable(Map(raw, ShopOf))
  }

  function Products(raw: seq<Observation>): seq<Code> {
    CodeTable(Map(raw, ProductOf))
  }

  /** build_observation_arrays; numpy raises on `is_new[0]` when there is no row. */
  function BuildObservationArrays(raw: seq<Observation>): Result<Arrays, EmptyInput> {
    if raw == [] then Err(EmptyInput)
    else
      var shops, prods := Shops(raw), Products(raw);
      var encoded := Map(raw, (o: Observation) => Encode(shops, prods, o));
      Ok(Arrays(shops, prods, KeepNew(SortBy(encoded, RowKey), RowKey)))
  }

  /** The elements flagged in the mask: flatnonzero, then indexing with it. */
  function Flagged<T>(xs: seq<T>, mask: seq<bool>): seq<T>
    requires |mask| == |xs|
  {
    if |xs| == 0 then []
    else Flagged(Init(xs), Init(mask)) + if Last(mask) then [Last(xs)] else []
  }

  ghost predicate NewAt<T>(xs: seq<T>, key: T -> Key, i: nat)
    requires i < |xs|
  {
    i == 0 || key(xs[i]) != key(xs[i - 1])
  }

  /** The mask that flags every element with a new key. */
  ghost predicate FlagsNew<T>(xs: seq<T>, key: T -> Key, mask: seq<bool>) {
    && |mask| == |xs|
    && forall i :: 0 <= i < |xs| ==> mask[i] == NewAt(xs, key, i)
  }

  lemma {:induction false} FlaggedIsKeepNew<T>(xs: seq<T>, key: T -> Key, mask: seq<bool>)
    requires FlagsNew(xs, key, mask)
    ensures Flagged(xs, mask) == KeepNew(xs, key)
  {
    if |xs| > 0 {
      var n := |xs| - 1;
      assert mask[n] == NewAt(xs, key, n);
      forall i | 0 <= i < n ensures Init(mask)[i] == NewAt(Init(xs), key, i) {
        assert mask[i] == NewAt(xs, key, i);
      }
      FlaggedIsKeepNew(Init(xs), key, Init(mask));
    }
  }

  /** `is_new`, filled in place: the first row, then every row that differs from the one before. */
  method FlagNew(rows: seq<Row>, isNew: array<bool>)
    requires isNew.Length == |rows| > 0
    modifies isNew
    ensures FlagsNew(rows, RowKey, isNew[..])
  {
    isNew[0] := true;
    for i := 1 to |rows|
      invariant forall j :: 0 <= j < i ==> isNew[j] == NewAt(rows, RowKey, j)
    {
      var a, b := rows[i - 1], rows[i];
      isNew[i] := a.sc != b.sc || a.pc != b.pc || a.time != b.time;
      assert isNew[i] == NewAt(rows, RowKey, i);
    }
  }

  /** The same arrays, built the way the engine does it: encode, lexsort, mask, index. */
  method BuildArrays(raw: seq<Observation>) returns (r: Result<Arrays, EmptyInput>)
    ensures r == BuildObservationArrays(raw)
  {
    if |raw| == 0 {
      return Err(EmptyInput);
    }
    hide CodeTable, SortBy, KeepNew, Flagged;
    var shops, prods := Shops(raw), Products(raw);
    var encoded := Map(raw, (o: Observation) => Encode(shops, prods, o));
    var rows := SortBy(encoded, RowKey);
    SortLength(encoded, RowKey);
    var isNew := new bool[|rows|];
    FlagNew(rows, isNew);
    FlaggedIsKeepNew(rows, RowKey, isNew[..]);
    return Ok(Arrays(shops, prods, Flagged(rows, isNew[..])));
  }

  lemma SortLength<T>(xs: seq<T>, key: T -> Key)
    ensures |SortBy(xs, key)| == |xs|
  {
    SortSorts(xs, key);
    hide SortBy;
    assert |multiset(SortBy(xs, key))| == |multiset(xs)|;
  }

  ghost predicate InTables(a: Arrays) {
    forall r :: r in a.rows ==> r.sc < |a.shopCodes| && r.pc < |a.prodCodes|
  }

  ghost function Decoded(a: Arrays): seq<Observation>
    requires InTables(a)
  {
    seq(|a.rows|, i requires 0 <= i < |a.rows| => Decode(a.shopCodes, a.prodCodes, a.rows[i]))
  }

  /** Encoding is undone by the tables and preserves the order of keys. */
  lemma EncodeFaithful(raw: seq<Observation>, a: Observation, b: Observation)
    requires a in raw && b in raw
    ensures var s, p := Shops(raw), Products(raw);
            var x, y := Encode(s, p, a), Encode(s, p, b);
            && x.sc < |s| && x.pc < |p|
            && Decode(s, p, x) == a
            && (RowKey(x).AtMost(RowKey(y)) <==> ObservationKey(a).AtMost(ObservationKey(b)))
  {
    var shops, prods := Map(raw, ShopOf), Map(raw, ProductOf);
    var i :| 0 <= i < |raw| && raw[i] == a;
    var j :| 0 <= j < |raw| && raw[j] == b;
    assert shops[i] == a.shop && shops[j] == b.shop && prods[i] == a.product && prods[j] == b.product;
    IndexFaithful(shops, a.shop, b.shop);
    IndexFaithful(shops, b.shop, a.shop);
    IndexFaithful(prods, a.product, b.product);
    IndexFaithful(prods, b.product, a.product);
    hide CodeTable, Map;
  }

  /** The arrays, read back through the tables, hold the first-arriving copy of
      every (shop, product, event_time), in strictly ascending key order, one
      row per distinct key; only an empty input fails. */
  lemma BuildDeduplicates(raw: seq<Observation>)
    ensures BuildObservationArrays(raw).Err? <==> raw == []
    ensures raw != [] ==>
              var a := BuildObservationArrays(raw).value;
              && InTables(a) && a.rows != []
              && StrictlySorted(a.rows, RowKey)
              && KeepsFirsts(Decoded(a), raw, ObservationKey)
              && |a.rows| == |KeySet(raw, ObservationKey)|
  {
    if raw != [] {
      hide SortBy, Filter, CodeTable;
      var a := BuildObservationArrays(raw).value;
      var shops, prods := Shops(raw), Products(raw);
      var encode := (o: Observation) => Encode(shops, prods, o);
      var encoded := Map(raw, encode);
      DedupKeepsFirstArrival(encoded, RowKey);
      forall r | r in a.rows ensures exists o :: o in raw && r == encode(o) {
        RowComesFrom(raw, encoded, encode, r);
      }
      forall r | r in a.rows ensures r.sc < |shops| && r.pc < |prods| {
        var o :| o in raw && r == encode(o);
        EncodeFaithful(raw, o, o);
      }
      DecodedKeepsFirsts(raw, a, encode);
      KeptCount(raw, Decoded(a), ObservationKey);
      assert encoded[0] in encoded;
    }
  }

  lemma RowComesFrom(raw: seq<Observation>, encoded: seq<Row>, encode: Observation -> Row, r: Row)
    requires encoded == Map(raw, encode)
    requires KeepsFirsts(KeepNew(SortBy(encoded, RowKey), RowKey), encoded, RowKey)
    requires r in KeepNew(SortBy(encoded, RowKey), RowKey)
    ensures exists o :: o in raw && r == encode(o)
  {
    FirstIsMember(r, encoded, RowKey);
    var i :| 0 <= i < |encoded| && encoded[i] == r;
    assert raw[i] in raw;
  }

  lemma DecodedKeepsFirsts(raw: seq<Observation>, a: Arrays, encode: Observation -> Row)
    requires a.shopCodes == Shops(raw) && a.prodCodes == Products(raw)
    requires forall o :: encode(o) == Encode(a.shopCodes, a.prodCodes, o)
    requires InTables(a)
    requires KeepsFirsts(a.rows, Map(raw, encode), RowKey)
    requires forall r :: r in a.rows ==> exists o :: o in raw && r == encode(o)
    ensures KeepsFirsts(Decoded(a), raw, ObservationKey)
  {
    hide Filter, Shops, Products, Encode, Decode;
    var out := Decoded(a);
    forall i | 0 <= i < |out| ensures out[i] in raw && encode(out[i]) == a.rows[i] {
      assert a.rows[i] in a.rows;
      var o :| o in raw && a.rows[i] == encode(o);
      EncodeFaithful(raw, o, o);
    }
    forall i, j | 0 <= i < j < |out| ensures !ObservationKey(out[j]).AtMost(ObservationKey(out[i])) {
      EncodeFaithful(raw, out[j], out[i]);
      assert !RowKey(a.rows[j]).AtMost(RowKey(a.rows[i]));
    }
    forall d | d in out ensures IsFirst(d, raw, ObservationKey) {
      var i :| 0 <= i < |out| && out[i] == d;
      assert a.rows[i] in a.rows;
      DecodedFirst(raw, a, encode, d, a.rows[i]);
    }
    forall x | x in raw ensures Covers(out, ObservationKey, ObservationKey(x)) {
      var j :| 0 <= j < |raw| && raw[j] == x;
      assert Map(raw, encode)[j] == encode(x);
      var i :| 0 <= i < |a.rows| && RowKey(a.rows[i]) == RowKey(encode(x));
      EncodeFaithful(raw, out[i], x);
      EncodeFaithful(raw, x, out[i]);
    }
  }

  lemma DecodedFirst(raw: seq<Observation>, a: Arrays, encode: Observation -> Row, d: Observation, r: Row)
    requires a.shopCodes == Shops(raw) && a.prodCodes == Products(raw)
    requires forall o :: encode(o) == Encode(a.shopCodes, a.prodCodes, o)
    requires d in raw && encode(d) == r
    requires IsFirst(r, Map(raw, encode), RowKey)
    ensures IsFirst(d, raw, ObservationKey)
  {
    forall o | o in raw
      ensures WithKey(ObservationKey, ObservationKey(d))(o) == WithKey(RowKey, RowKey(r))(encode(o))
    {
      EncodeFaithful(raw, o, d);
      EncodeFaithful(raw, d, o);
    }
    FilterMap(raw, encode, WithKey(ObservationKey, ObservationKey(d)), WithKey(RowKey, RowKey(r)));
    var same := Filter(raw, WithKey(ObservationKey, ObservationKey(d)));
    assert encode(same[0]) == r;
    assert same[0] in same;
    FilterMember(raw, WithKey(ObservationKey, ObservationKey(d)), same[0]);
    EncodeFaithful(raw, same[0], d);
    EncodeFaithful(raw, d, d);
  }
}
