/** The validator's comparison of two result sets: a greedy multiset match of
    rows whose numbers may differ by a tolerance. */
module RowCompare {
  import opened Basics
  import opened Sequences
  import opened StableSort

  datatype Value = Null | Bool(b: bool) | Num(x: real) | Text(s: string)

  type Row = seq<Value>

  const TOLERANCE := 0.001

  /** Numbers within the tolerance; otherwise Python's ==, for which True is 1. */
  predicate ValuesEqual(a: Value, b: Value) {
    match (a, b)
    case (Num(x), Num(y)) => AbsReal(x - y) <= TOLERANCE
    case (Bool(p), Num(y)) => y == if p then 1.0 else 0.0
    case (Num(x), Bool(q)) => x == if q then 1.0 else 0.0
    case _ => a == b
  }

  predicate RowsEqual(g: Row, e: Row) {
    |g| == |e| && forall i :: 0 <= i < |g| ==> ValuesEqual(g[i], e[i])
  }

  // ----- The greedy match

  /** The first remaining row equal to `g`, or the length if there is none. */
  function FirstMatch(g: Row, rem: seq<Row>): (j: nat)
    ensures j <= |rem|
    ensures j < |rem| ==> RowsEqual(g, rem[j])
    ensures forall i :: 0 <= i < j ==> !RowsEqual(g, rem[i])
  {
    if |rem| == 0 || RowsEqual(g, rem[0]) then 0 else FirstMatch(g, rem[1..]) + 1
  }

  function Without<T>(xs: seq<T>, j: nat): seq<T>
    requires j < |xs|
  {
    xs[..j] + xs[j + 1..]
  }

  datatype Leftovers = Leftovers(got: seq<Row>, expected: seq<Row>)

  function Greedy(gs: seq<Row>, rem: seq<Row>): Leftovers {
    if |gs| == 0 then Leftovers([], rem)
    else
      var j := FirstMatch(gs[0], rem);
      if j < |rem| then Greedy(gs[1..], Without(rem, j))
      else Prepend([gs[0]], Greedy(gs[1..], rem))
  }

  /** Success and the rows reported as present on one side only. */
  function CompareSpec(got: seq<Row>, expected: seq<Row>, sortKey: Row -> Key): (bool, Leftovers) {
    if |got| != |expected| then (false, Leftovers(got, expected))
    else
      var left := Greedy(SortBy(got, sortKey), SortBy(expected, sortKey));
      (left == Leftovers([], []), left)
  }

  /** The inner scan over the remaining indices. */
  method FirstRemaining(g: Row, es: seq<Row>, remaining: seq<nat>) returns (j: nat)
    requires Indexes(remaining, |es|)
    ensures j == FirstMatch(g, Gather(es, remaining))
  {
    j := 0;
    while j < |remaining| && !RowsEqual(g, es[remaining[j]])
      invariant j <= |remaining|
      invariant forall i :: 0 <= i < j ==> !RowsEqual(g, Gather(es, remaining)[i])
    {
      j := j + 1;
    }
  }

  /** The outer loop, over the sorted rows. */
  method GreedyMatch(gs: seq<Row>, es: seq<Row>) returns (unmatched: seq<Row>, remaining: seq<nat>)
    ensures Indexes(remaining, |es|)
    ensures Greedy(gs, es) == Leftovers(unmatched, Gather(es, remaining))
  {
    hide Greedy, Prepend, FirstMatch, RowsEqual;
    remaining := Range(|es|);
    unmatched := [];
    assert Gather(es, remaining) == es;
    assert gs[0..] == gs;
    PrependNothing(Greedy(gs, es));
    for k := 0 to |gs|
      invariant Indexes(remaining, |es|)
      invariant Greedy(gs, es) == Prepend(unmatched, Greedy(gs[k..], Gather(es, remaining)))
    {
      ghost var rem := Gather(es, remaining);
      assert gs[k..] == [gs[k]] + gs[k + 1..];
      GreedyStep(gs[k], gs[k + 1..], rem);
      var j := FirstRemaining(gs[k], es, remaining);
      if j == |remaining| {
        PrependAssoc(unmatched, [gs[k]], Greedy(gs[k + 1..], rem));
        unmatched := unmatched + [gs[k]];
      } else {
        assert Gather(es, Without(remaining, j)) == Without(rem, j);
        remaining := Without(remaining, j);
      }
    }
    GreedyEnd(unmatched, Gather(es, remaining));
    assert gs[|gs|..] == [];
  }

  lemma GreedyStep(g: Row, gs: seq<Row>, rem: seq<Row>)
    ensures var j := FirstMatch(g, rem);
            Greedy([g] + gs, rem)
            == if j < |rem| then Greedy(gs, Without(rem, j)) else Prepend([g], Greedy(gs, rem))
  {
    assert ([g] + gs)[1..] == gs;
  }

  lemma GreedyEnd(unmatched: seq<Row>, rem: seq<Row>)
    ensures Prepend(unmatched, Greedy([], rem)) == Leftovers(unmatched, rem)
  {
    assert unmatched + [] == unmatched;
  }

  lemma PrependNothing(left: Leftovers)
    ensures Prepend([], left) == left
  {
    assert [] + left.got == left.got;
  }

  function Prepend(rows: seq<Row>, left: Leftovers): Leftovers {
    left.(got := rows + left.got)
  }

  lemma PrependAssoc(a: seq<Row>, b: seq<Row>, left: Leftovers)
    ensures Prepend(a, Prepend(b, left)) == Prepend(a + b, left)
  {
    assert a + (b + left.got) == a + b + left.got;
  }

  method RowsAt(es: seq<Row>, remaining: seq<nat>) returns (rows: seq<Row>)
    requires Indexes(remaining, |es|)
    ensures rows == Gather(es, remaining)
  {
    rows := [];
    for i := 0 to |remaining|
      invariant rows == Gather(es, remaining)[..i]
    {
      rows := rows + [es[remaining[i]]];
    }
    assert Gather(es, remaining)[..|remaining|] == Gather(es, remaining);
  }

  /** compare_rows; `sortKey` stands for the JSON text rows are ordered by. */
  method CompareRows(got: seq<Row>, expected: seq<Row>, sortKey: Row -> Key) returns (ok: bool, left: Leftovers)
    ensures (ok, left) == CompareSpec(got, expected, sortKey)
  {
    if |got| != |expected| {
      return false, Leftovers(got, expected);
    }
    hide SortBy, Greedy;
    var es := SortBy(expected, sortKey);
    var unmatched, remaining := GreedyMatch(SortBy(got, sortKey), es);
    if unmatched == [] && remaining == [] {
      return true, Leftovers([], []);
    }
    var unmatchedExpected := RowsAt(es, remaining);
    return false, Leftovers(unmatched, unmatchedExpected);
  }

  // ----- Soundness: every row is paired with an equal one or reported

  datatype Pair = Pair(got: Row, expected: Row)

  function GotOf(p: Pair): Row { p.got }

  function ExpectedOf(p: Pair): Row { p.expected }

  ghost predicate AllEqual(pairs: seq<Pair>) {
    forall p :: p in pairs ==> RowsEqual(p.got, p.expected)
  }

  /** The pairs and the leftovers together are exactly the two row lists. */
  ghost predicate Accounts(pairs: seq<Pair>, got: seq<Row>, expected: seq<Row>, left: Leftovers) {
    && AllEqual(pairs)
    && multiset(got) == multiset(Map(pairs, GotOf)) + multiset(left.got)
    && multiset(expected) == multiset(Map(pairs, ExpectedOf)) + multiset(left.expected)
  }

  lemma AddPair(pairs: seq<Pair>, p: Pair, gs: seq<Row>, es: seq<Row>, left: Leftovers)
    requires Accounts(pairs, gs, es, left) && RowsEqual(p.got, p.expected)
    ensures Accounts(pairs + [p], [p.got] + gs, es + [p.expected], left)
  {
    MapAppend(pairs, p, GotOf);
    MapAppend(pairs, p, ExpectedOf);
  }

  lemma WithoutContents<T>(xs: seq<T>, j: nat)
    requires j < |xs|
    ensures multiset(xs) == multiset(Without(xs, j)) + multiset{xs[j]}
  {
    assert xs == xs[..j] + [xs[j]] + xs[j + 1..];
  }

  lemma {:induction false} GreedyAccounts(gs: seq<Row>, rem: seq<Row>) returns (pairs: seq<Pair>)
    ensures Accounts(pairs, gs, rem, Greedy(gs, rem))
  {
    if |gs| == 0 {
      pairs := [];
      MapEmpty(GotOf);
      MapEmpty(ExpectedOf);
    } else {
      var g, j := gs[0], FirstMatch(gs[0], rem);
      assert gs == [g] + gs[1..];
      if j < |rem| {
        var rest := GreedyAccounts(gs[1..], Without(rem, j));
        var p := Pair(g, rem[j]);
        AddPair(rest, p, gs[1..], Without(rem, j), Greedy(gs[1..], Without(rem, j)));
        WithoutContents(rem, j);
        pairs := rest + [p];
      } else {
        pairs := GreedyAccounts(gs[1..], rem);
      }
    }
  }

  /** `pairs` is a bijection between the two lists that pairs equal rows. */
  ghost predicate Matches(pairs: seq<Pair>, got: seq<Row>, expected: seq<Row>) {
    Accounts(pairs, got, expected, Leftovers([], []))
  }

  /** On equal row counts nothing is lost: each row is paired with an equal one
      or reported; success is a complete pairing. */
  lemma CompareAccounts(got: seq<Row>, expected: seq<Row>, sortKey: Row -> Key) returns (pairs: seq<Pair>)
    requires |got| == |expected|
    ensures Accounts(pairs, got, expected, CompareSpec(got, expected, sortKey).1)
    ensures CompareSpec(got, expected, sortKey).0 ==> Matches(pairs, got, expected)
  {
    SortSorts(got, sortKey);
    SortSorts(expected, sortKey);
    pairs := GreedyAccounts(SortBy(got, sortKey), SortBy(expected, sortKey));
  }

  // ----- Completeness where row equality is an equivalence

  ghost predicate Transitive(rows: seq<Row>) {
    forall a, b, c :: a in rows && b in rows && c in rows && RowsEqual(a, b) && RowsEqual(b, c) ==> RowsEqual(a, c)
  }

  lemma EqualRowsSymmetric(a: Row, b: Row)
    ensures RowsEqual(a, b) <==> RowsEqual(b, a)
    ensures RowsEqual(a, a)
  {
  }

  function Like(r: Row): Row -> bool {
    (x: Row) => RowsEqual(x, r)
  }

  ghost function CountLike(rows: seq<Row>, r: Row): nat {
    |Filter(rows, Like(r))|
  }

  lemma CountAppend(a: seq<Row>, b: seq<Row>, r: Row)
    ensures CountLike(a + b, r) == CountLike(a, r) + CountLike(b, r)
  {
    FilterAppend(a, b, Like(r));
  }

  lemma CountOne(x: Row, r: Row)
    ensures CountLike([x], r) == if RowsEqual(x, r) then 1 else 0
  {
    FilterOne(x, Like(r));
  }

  lemma CountWithout(rows: seq<Row>, j: nat, r: Row)
    requires j < |rows|
    ensures CountLike(rows, r) == CountLike(Without(rows, j), r) + if RowsEqual(rows[j], r) then 1 else 0
  {
    hide CountLike;
    assert rows == rows[..j] + ([rows[j]] + rows[j + 1..]);
    CountAppend(rows[..j], [rows[j]] + rows[j + 1..], r);
    CountAppend([rows[j]], rows[j + 1..], r);
    CountOne(rows[j], r);
    CountAppend(rows[..j], rows[j + 1..], r);
  }

  /** How many rows are like `r` does not depend on their order. */
  lemma {:induction false} CountIgnoresOrder(a: seq<Row>, b: seq<Row>, r: Row)
    requires multiset(a) == multiset(b)
    ensures CountLike(a, r) == CountLike(b, r)
    decreases |a|
  {
    assert |a| == |multiset(a)| && |b| == |multiset(b)|;
    if |a| > 0 {
      assert a[0] in multiset(b);
      var j :| 0 <= j < |b| && b[j] == a[0];
      WithoutContents(a, 0);
      WithoutContents(b, j);
      assert multiset(Without(a, 0)) == multiset(a) - multiset{a[0]};
      CountIgnoresOrder(Without(a, 0), Without(b, j), r);
      CountWithout(a, 0, r);
      CountWithout(b, j, r);
    }
  }

  /** Both lists have the same number of rows of every kind. */
  ghost predicate SameCounts(rows: seq<Row>, a: seq<Row>, b: seq<Row>) {
    forall r :: r in rows ==> CountLike(a, r) == CountLike(b, r)
  }

  lemma SomeLike(rows: seq<Row>, g: Row)
    requires CountLike(rows, g) > 0
    ensures FirstMatch(g, rows) < |rows|
  {
    var x := Filter(rows, Like(g))[0];
    assert x in Filter(rows, Like(g));
    FilterMember(rows, Like(g), x);
    var i :| 0 <= i < |rows| && rows[i] == x;
    EqualRowsSymmetric(x, g);
    assert RowsEqual(g, rows[i]);
  }

  lemma {:induction false} GreedySucceeds(universe: seq<Row>, gs: seq<Row>, rem: seq<Row>)
    requires Transitive(universe) && |gs| == |rem|
    requires forall r :: r in gs || r in rem ==> r in universe
    requires SameCounts(universe, gs, rem)
    ensures Greedy(gs, rem) == Leftovers([], [])
    decreases |gs|
  {
    if |gs| > 0 {
      var g := gs[0];
      assert gs == [g] + gs[1..] && g in gs;
      forall r ensures CountLike(gs, r) == CountLike(gs[1..], r) + if RowsEqual(g, r) then 1 else 0 {
        CountAppend([g], gs[1..], r);
        CountOne(g, r);
      }
      hide CountLike;
      EqualRowsSymmetric(g, g);
      assert CountLike(rem, g) > 0;
      SomeLike(rem, g);
      var j := FirstMatch(g, rem);
      var e := rem[j];
      assert e in rem;
      forall r | r in universe ensures CountLike(gs[1..], r) == CountLike(Without(rem, j), r) {
        CountWithout(rem, j, r);
        EqualRowsSymmetric(g, e);
        assert RowsEqual(g, r) <==> RowsEqual(e, r);
      }
      GreedySucceeds(universe, gs[1..], Without(rem, j));
    }
  }

  lemma {:induction false} PairsSameCount(universe: seq<Row>, pairs: seq<Pair>, r: Row)
    requires Transitive(universe) && AllEqual(pairs) && r in universe
    requires forall p :: p in pairs ==> p.got in universe && p.expected in universe
    ensures CountLike(Map(pairs, GotOf), r) == CountLike(Map(pairs, ExpectedOf), r)
  {
    if |pairs| > 0 {
      InitLast(pairs);
      var p := Last(pairs);
      PairsSameCount(universe, Init(pairs), r);
      CountAppend(Map(Init(pairs), GotOf), [p.got], r);
      CountAppend(Map(Init(pairs), ExpectedOf), [p.expected], r);
      CountOne(p.got, r);
      CountOne(p.expected, r);
      EqualRowsSymmetric(p.got, p.expected);
      hide CountLike;
    }
  }

  lemma MatchedSameCounts(got: seq<Row>, expected: seq<Row>, pairs: seq<Pair>)
    requires Transitive(got + expected) && Matches(pairs, got, expected)
    ensures SameCounts(got + expected, got, expected)
  {
    var universe := got + expected;
    forall p | p in pairs ensures p.got in universe && p.expected in universe {
      var i :| 0 <= i < |pairs| && pairs[i] == p;
      assert Map(pairs, GotOf)[i] in multiset(got) && Map(pairs, ExpectedOf)[i] in multiset(expected);
    }
    forall r | r in universe ensures CountLike(got, r) == CountLike(expected, r) {
      CountIgnoresOrder(got, Map(pairs, GotOf), r);
      CountIgnoresOrder(expected, Map(pairs, ExpectedOf), r);
      PairsSameCount(universe, pairs, r);
    }
  }

  /** Where equality of the rows at hand is transitive, the greedy match succeeds
      exactly when a complete pairing exists, and exactly when both sides have
      as many rows of every kind: the sort order has no say. */
  lemma CompleteWhereTransitive(got: seq<Row>, expected: seq<Row>, sortKey: Row -> Key)
    requires Transitive(got + expected)
    ensures CompareSpec(got, expected, sortKey).0 <==> exists pairs :: Matches(pairs, got, expected)
    ensures CompareSpec(got, expected, sortKey).0
       <==> |got| == |expected| && SameCounts(got + expected, got, expected)
  {
    hide CountLike, SortBy, Greedy, Map;
    if |got| == |expected| && SameCounts(got + expected, got, expected) {
      SortedSucceeds(got, expected, sortKey);
    }
    if CompareSpec(got, expected, sortKey).0 {
      var pairs := CompareAccounts(got, expected, sortKey);
    }
    forall pairs | Matches(pairs, got, expected)
      ensures |got| == |expected| && SameCounts(got + expected, got, expected)
    {
      MatchedSameLength(got, expected, pairs);
      MatchedSameCounts(got, expected, pairs);
    }
  }

  lemma MatchedSameLength(got: seq<Row>, expected: seq<Row>, pairs: seq<Pair>)
    requires Matches(pairs, got, expected)
    ensures |got| == |expected|
  {
    assert |multiset(got)| == |multiset(Map(pairs, GotOf))| == |pairs|;
    assert |multiset(expected)| == |multiset(Map(pairs, ExpectedOf))| == |pairs|;
  }

  lemma SortedSucceeds(got: seq<Row>, expected: seq<Row>, sortKey: Row -> Key)
    requires Transitive(got + expected) && |got| == |expected|
    requires SameCounts(got + expected, got, expected)
    ensures CompareSpec(got, expected, sortKey).0
  {
    hide CountLike, SortBy;
    var gs, es := SortBy(got, sortKey), SortBy(expected, sortKey);
    SortSorts(got, sortKey);
    SortSorts(expected, sortKey);
    forall r ensures r in gs || r in es <==> r in got + expected {
      SortMember(got, sortKey, r);
      SortMember(expected, sortKey, r);
    }
    forall r | r in got + expected ensures CountLike(gs, r) == CountLike(es, r) {
      CountIgnoresOrder(gs, got, r);
      CountIgnoresOrder(es, expected, r);
    }
    GreedySucceeds(got + expected, gs, es);
  }

  /** Numbers in the same column are equal or further apart than the tolerance. */
  ghost predicate Spaced(rows: seq<Row>) {
    forall a: Row, b: Row, i :: a in rows && b in rows && 0 <= i < |a| && i < |b| ==>
      (a[i].Num? && b[i].Num? && ValuesEqual(a[i], b[i]) ==> a[i] == b[i])
  }

  /** Without near-equal numbers row equality is transitive. */
  lemma SpacedIsTransitive(rows: seq<Row>)
    requires Spaced(rows)
    ensures Transitive(rows)
  {
    forall a, b, c | a in rows && b in rows && c in rows && RowsEqual(a, b) && RowsEqual(b, c)
      ensures RowsEqual(a, c)
    {
      forall i | 0 <= i < |a| ensures ValuesEqual(a[i], c[i]) {
        assert ValuesEqual(a[i], b[i]) && ValuesEqual(b[i], c[i]);
      }
    }
  }

  // ----- Near-equal numbers can defeat the greedy match

  lemma FirstMatchZero(g: Row, rem: seq<Row>)
    requires |rem| > 0 && RowsEqual(g, rem[0])
    ensures FirstMatch(g, rem) == 0
  {
  }

  lemma OneRow(g: Row, e: Row)
    requires !RowsEqual(g, e)
    ensures Greedy([g], [e]) == Leftovers([g], [e])
  {
    hide RowsEqual;
    assert [e][0] == e && [e][1..] == [] && [g][1..] == [];
    assert FirstMatch(g, []) == 0;
    assert FirstMatch(g, [e]) == 1;
  }

  lemma TwoRows(g1: Row, g2: Row, e1: Row, e2: Row)
    requires RowsEqual(g1, e1) && !RowsEqual(g2, e2)
    ensures Greedy([g1, g2], [e1, e2]) == Leftovers([g2], [e2])
  {
    OneRow(g2, e2);
    FirstMatchZero(g1, [e1, e2]);
    hide RowsEqual, FirstMatch;
    assert Without([e1, e2], 0) == [e2];
    assert [g1, g2][1..] == [g2];
  }

  lemma PairSorted(a: Row, b: Row, sortKey: Row -> Key)
    requires sortKey(a).AtMost(sortKey(b))
    ensures SortBy([a, b], sortKey) == [a, b]
  {
    SortOfSorted([a, b], sortKey);
  }

  lemma TwoPairs(p: Pair, q: Pair)
    ensures Map([p, q], GotOf) == [p.got, q.got] && Map([p, q], ExpectedOf) == [p.expected, q.expected]
  {
  }

  lemma SwappedContents(a: Row, b: Row)
    ensures multiset([a, b]) == multiset([b, a])
  {
  }

  lemma Crosswise(g1: Row, g2: Row, e1: Row, e2: Row)
    requires RowsEqual(g1, e2) && RowsEqual(g2, e1)
    ensures Matches([Pair(g1, e2), Pair(g2, e1)], [g1, g2], [e1, e2])
  {
    TwoPairs(Pair(g1, e2), Pair(g2, e1));
    SwappedContents(e1, e2);
    hide RowsEqual, Map;
  }

  /** Two rows that can only be paired crosswise are rejected when the first of each side match. */
  lemma CrosswiseIsMissed(g1: Row, g2: Row, e1: Row, e2: Row, sortKey: Row -> Key)
    requires RowsEqual(g1, e1) && RowsEqual(g1, e2) && RowsEqual(g2, e1) && !RowsEqual(g2, e2)
    requires sortKey(g1).AtMost(sortKey(g2)) && sortKey(e1).AtMost(sortKey(e2))
    ensures CompareSpec([g1, g2], [e1, e2], sortKey) == (false, Leftovers([g2], [e2]))
    ensures Matches([Pair(g1, e2), Pair(g2, e1)], [g1, g2], [e1, e2])
  {
    PairSorted(g1, g2, sortKey);
    PairSorted(e1, e2, sortKey);
    TwoRows(g1, g2, e1, e2);
    Crosswise(g1, g2, e1, e2);
    hide SortBy, Greedy, Matches, RowsEqual;
  }

  const G1: Row := [Num(10.0001)]
  const G2: Row := [Num(9.9995)]
  const E1: Row := [Num(10.0002)]
  const E2: Row := [Num(10.0009)]

  lemma OneNumber(x: real, y: real)
    ensures RowsEqual([Num(x)], [Num(y)]) <==> AbsReal(x - y) <= TOLERANCE
  {
    assert RowsEqual([Num(x)], [Num(y)]) <==> ValuesEqual([Num(x)][0], [Num(y)][0]);
  }

  /** The JSON text "[10.0001]" comes before "[9.9995]", and "[10.0002]" before
      "[10.0009]".  In any such order the comparison fails on rows that can be paired. */
  lemma GreedyCanMiss(sortKey: Row -> Key)
    requires sortKey(G1).AtMost(sortKey(G2)) && sortKey(E1).AtMost(sortKey(E2))
    ensures !CompareSpec([G1, G2], [E1, E2], sortKey).0
    ensures Matches([Pair(G1, E2), Pair(G2, E1)], [G1, G2], [E1, E2])
  {
    OneNumber(10.0001, 10.0002);
    OneNumber(10.0001, 10.0009);
    OneNumber(9.9995, 10.0002);
    OneNumber(9.9995, 10.0009);
    hide RowsEqual, CompareSpec, Matches;
    CrosswiseIsMissed(G1, G2, E1, E2, sortKey);
  }
}
