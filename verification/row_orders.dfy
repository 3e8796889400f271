/** When the greedy comparison succeeds in every order of the two sides. */
module RowOrders {
  import opened Sequences
  import opened StableSort
  import opened RowCompare

  ghost predicate Aligned(gs: seq<Row>, es: seq<Row>) {
    |gs| == |es| && forall i :: 0 <= i < |gs| ==> RowsEqual(gs[i], es[i])
  }

  ghost predicate SameRows(a: seq<Row>, b: seq<Row>) {
    multiset(a) == multiset(b)
  }

  /** `gs` and `es`, reordered so that equal rows stand opposite each other. */
  ghost predicate Pairing(g: seq<Row>, e: seq<Row>, gs: seq<Row>, es: seq<Row>) {
    SameRows(g, gs) && SameRows(e, es) && Aligned(g, e)
  }

  lemma MatchesArePairings(pairs: seq<Pair>, got: seq<Row>, expected: seq<Row>)
    ensures Matches(pairs, got, expected) <==> Pairing(Map(pairs, GotOf), Map(pairs, ExpectedOf), got, expected)
  {
    var g, e := Map(pairs, GotOf), Map(pairs, ExpectedOf);
    if Aligned(g, e) {
      forall p | p in pairs ensures RowsEqual(p.got, p.expected) {
        var i :| 0 <= i < |pairs| && pairs[i] == p;
        assert RowsEqual(g[i], e[i]);
      }
    }
    assert AllEqual(pairs) ==> forall i :: 0 <= i < |pairs| ==> pairs[i] in pairs;
  }

  /** No two rows of each side of which all but one combination are equal. */
  ghost predicate NoCrosswise(gs: seq<Row>, es: seq<Row>) {
    forall g1, g2, e1, e2 | g1 in gs && g2 in gs && e1 in es && e2 in es ::
      RowsEqual(g1, e1) && RowsEqual(g1, e2) && RowsEqual(g2, e1) ==> RowsEqual(g2, e2)
  }

  lemma TransitiveNoCrosswise(got: seq<Row>, expected: seq<Row>)
    requires Transitive(got + expected)
    ensures NoCrosswise(got, expected)
  {
    hide RowsEqual;
    var all := got + expected;
    forall g1, g2, e1, e2 | g1 in got && g2 in got && e1 in expected && e2 in expected
      && RowsEqual(g1, e1) && RowsEqual(g1, e2) && RowsEqual(g2, e1) ensures RowsEqual(g2, e2)
    {
      EqualRowsSymmetric(g1, e1);
      assert g1 in all && g2 in all && e1 in all && e2 in all;
      assert RowsEqual(e1, e2);
    }
  }

  // ----- Without a crosswise pattern every order succeeds

  lemma InEither(a: seq<Row>, b: seq<Row>, r: Row)
    requires SameRows(a, b)
    ensures r in a <==> r in b
  {
    assert r in a <==> r in multiset(a);
    assert r in b <==> r in multiset(b);
  }

  lemma WithoutSame(a: seq<Row>, b: seq<Row>, i: nat, j: nat)
    requires SameRows(a, b) && i < |a| && j < |b| && a[i] == b[j]
    ensures SameRows(Without(a, i), Without(b, j))
  {
    WithoutContents(a, i);
    WithoutContents(b, j);
    hide Without;
    assert multiset(Without(a, i)) == multiset(a) - multiset{a[i]};
  }

  /** Taking the greedy choice out of a pairing leaves a pairing: the row that loses its
      partner takes the partner of the row that got it. */
  lemma Exchange(g: seq<Row>, e: seq<Row>, gs: seq<Row>, es: seq<Row>, j: nat) returns (g': seq<Row>, e': seq<Row>)
    requires Pairing(g, e, gs, es) && NoCrosswise(gs, es) && |gs| > 0 && j < |es| && RowsEqual(gs[0], es[j])
    ensures Pairing(g', e', gs[1..], Without(es, j))
  {
    hide RowsEqual;
    InEither(g, gs, gs[0]);
    InEither(e, es, es[j]);
    var k :| 0 <= k < |g| && g[k] == gs[0];
    var i :| 0 <= i < |e| && e[i] == es[j];
    InEither(g, gs, g[i]);
    InEither(e, es, e[k]);
    var swapped := e[i := e[k]][k := e[i]];
    Swapped(e, i, k);
    g', e' := Without(g, k), Without(swapped, k);
    assert gs[1..] == Without(gs, 0);
    WithoutSame(g, gs, k, 0);
    WithoutSame(swapped, es, k, j);
    assert RowsEqual(g[k], e[i]) && RowsEqual(g[k], e[k]) && RowsEqual(g[i], e[i]);
    hide Without, SameRows, NoCrosswise;
    assert Aligned(g, swapped);
    AlignedWithout(g, swapped, k);
  }

  lemma Swapped(e: seq<Row>, i: nat, k: nat)
    requires i < |e| && k < |e|
    ensures SameRows(e[i := e[k]][k := e[i]], e)
  {
  }

  lemma NoCrosswiseWithin(gs: seq<Row>, es: seq<Row>, gs': seq<Row>, es': seq<Row>)
    requires NoCrosswise(gs, es)
    requires (forall g :: g in gs' ==> g in gs) && (forall e :: e in es' ==> e in es)
    ensures NoCrosswise(gs', es')
  {
    hide RowsEqual;
  }

  lemma PairedRowMatches(g: seq<Row>, e: seq<Row>, gs: seq<Row>, es: seq<Row>)
    requires Pairing(g, e, gs, es) && |gs| > 0
    ensures FirstMatch(gs[0], es) < |es|
  {
    InEither(g, gs, gs[0]);
    var k :| 0 <= k < |g| && g[k] == gs[0];
    InEither(e, es, e[k]);
    assert e[k] in es;
    var i :| 0 <= i < |es| && es[i] == e[k];
    hide RowsEqual;
  }

  lemma {:induction false} EveryOrderSucceeds(g: seq<Row>, e: seq<Row>, gs: seq<Row>, es: seq<Row>)
    requires Pairing(g, e, gs, es) && NoCrosswise(gs, es)
    ensures Greedy(gs, es) == Leftovers([], [])
    decreases |gs|
  {
    hide RowsEqual, NoCrosswise;
    if |gs| == 0 {
      assert |multiset(e)| == |multiset(es)| && |multiset(g)| == |multiset(gs)|;
    } else {
      PairedRowMatches(g, e, gs, es);
      var j := FirstMatch(gs[0], es);
      var g', e' := Exchange(g, e, gs, es, j);
      NoCrosswiseWithin(gs, es, gs[1..], Without(es, j));
      EveryOrderSucceeds(g', e', gs[1..], Without(es, j));
    }
  }

  // ----- With one, some order fails

  lemma {:induction false} AlignedThenStuck(gs: seq<Row>, es: seq<Row>, g: Row, e: Row)
    requires Aligned(gs, es) && !RowsEqual(g, e)
    ensures Greedy(gs + [g], es + [e]) == Leftovers([g], [e])
    decreases |gs|
  {
    hide RowsEqual;
    if |gs| == 0 {
      OneRow(g, e);
      assert gs + [g] == [g] && es + [e] == [e];
    } else {
      var all, rem := gs + [g], es + [e];
      FirstMatchZero(all[0], rem);
      assert all[1..] == gs[1..] + [g] && Without(rem, 0) == es[1..] + [e];
      AlignedThenStuck(gs[1..], es[1..], g, e);
      hide FirstMatch, Without;
    }
  }

  lemma FrontContents(rows: seq<Row>, i: nat)
    requires i < |rows|
    ensures SameRows([rows[i]] + Without(rows, i), rows)
  {
    WithoutContents(rows, i);
    hide Without;
  }

  lemma AlignedWithout(g: seq<Row>, e: seq<Row>, i: nat)
    requires Aligned(g, e) && i < |g|
    ensures Aligned(Without(g, i), Without(e, i))
  {
    hide RowsEqual;
  }

  lemma StaysAfter(rows: seq<Row>, i: nat, r: Row)
    requires i < |rows| && r in rows && rows[i] != r
    ensures r in Without(rows, i)
  {
    WithoutContents(rows, i);
    hide Without;
    assert r in multiset(rows);
    assert r in multiset(Without(rows, i));
  }

  /** Two orders that begin with the aligned rows of a pairing and end with a row each that do not match. */
  lemma Stuck(g: seq<Row>, e: seq<Row>, a: Row, b: Row, c: Row, x: Row, y: Row, z: Row)
    requires Aligned(g, e) && RowsEqual(a, x) && RowsEqual(b, y) && !RowsEqual(c, z)
    ensures Greedy(g + [a, b] + [c], e + [x, y] + [z]) == Leftovers([c], [z])
  {
    hide RowsEqual;
    assert Aligned(g + [a, b], e + [x, y]);
    AlignedThenStuck(g + [a, b], e + [x, y], c, z);
  }

  /** `rows` consists of `rest` and three rows more. */
  ghost predicate Three(rows: seq<Row>, rest: seq<Row>, a: Row, b: Row, c: Row) {
    multiset(rows) == multiset(rest) + multiset{a} + multiset{b} + multiset{c}
  }

  lemma ThreeRows(rows: seq<Row>, rest: seq<Row>, a: Row, b: Row, c: Row)
    requires Three(rows, rest, a, b, c)
    ensures SameRows(rest + [a, b] + [c], rows)
  {
    assert rest + [a, b] + [c] == rest + [a] + [b] + [c];
  }

  lemma ThreeSwapped(rows: seq<Row>, rest: seq<Row>, a: Row, b: Row, c: Row)
    requires Three(rows, rest, a, b, c)
    ensures Three(rows, rest, a, c, b) && Three(rows, rest, b, a, c)
  {
  }

  /** From a crosswise pattern: some order of each side on which the greedy match fails. */
  lemma SomeOrderFails(got: seq<Row>, expected: seq<Row>, g1: Row, g2: Row, e1: Row, e2: Row)
    returns (gs: seq<Row>, es: seq<Row>)
    requires g1 in got && g2 in got && e1 in expected && e2 in expected
    requires RowsEqual(g1, e1) && RowsEqual(g1, e2) && RowsEqual(g2, e1) && !RowsEqual(g2, e2)
    ensures SameRows(gs, got) && SameRows(es, expected) && Greedy(gs, es) != Leftovers([], [])
  {
    var a :| 0 <= a < |got| && got[a] == g1;
    var b :| 0 <= b < |expected| && expected[b] == e1;
    var restG, restE := Without(got, a), Without(expected, b);
    FrontContents(got, a);
    FrontContents(expected, b);
    gs, es := [g1] + restG, [e1] + restE;
    FirstMatchZero(g1, es);
    assert gs[1..] == restG && Without(es, 0) == restE;
    if Greedy(gs, es) == Leftovers([], []) {
      assert Greedy(restG, restE) == Leftovers([], []);
      var pairs := GreedyAccounts(restG, restE);
      MatchesArePairings(pairs, restG, restE);
      StaysAfter(got, a, g2);
      StaysAfter(expected, b, e2);
      WithoutContents(got, a);
      WithoutContents(expected, b);
      hide Greedy, Without, Map, Matches, RowsEqual;
      gs, es := Rearranged(got, expected, Map(pairs, GotOf), Map(pairs, ExpectedOf), restG, restE, g1, g2, e1, e2);
    }
  }

  /** The rows besides g1 and e1 paired up: exchange partners so that one row of each side is left over. */
  lemma Rearranged(got: seq<Row>, expected: seq<Row>, g: seq<Row>, e: seq<Row>, restG: seq<Row>, restE: seq<Row>,
                   g1: Row, g2: Row, e1: Row, e2: Row)
    returns (gs: seq<Row>, es: seq<Row>)
    requires Pairing(g, e, restG, restE) && g2 in restG && e2 in restE
    requires multiset(got) == multiset(restG) + multiset{g1} && multiset(expected) == multiset(restE) + multiset{e1}
    requires RowsEqual(g1, e1) && RowsEqual(g1, e2) && RowsEqual(g2, e1) && !RowsEqual(g2, e2)
    ensures SameRows(gs, got) && SameRows(es, expected) && Greedy(gs, es) != Leftovers([], [])
  {
    hide RowsEqual, Greedy;
    InEither(g, restG, g2);
    InEither(e, restE, e2);
    var i :| 0 <= i < |g| && g[i] == g2;
    var e3 := e[i];
    StaysAfter(e, i, e2);
    AlignedWithout(g, e, i);
    var h, f := Without(g, i), Without(e, i);
    var k :| 0 <= k < |f| && f[k] == e2;
    var g3 := h[k];
    AlignedWithout(h, f, k);
    var r, s := Without(h, k), Without(f, k);
    TakenOut(got, g1, restG, g, i, k);
    TakenOut(expected, e1, restE, e, i, k);
    hide Without, Aligned, Pairing, SameRows, Three;
    gs, es := LastTwoUnmatched(got, expected, r, s, g1, g2, g3, e1, e2, e3);
  }

  lemma TakenOut(rows: seq<Row>, a: Row, rest: seq<Row>, g: seq<Row>, i: nat, k: nat)
    requires multiset(rows) == multiset(rest) + multiset{a} && SameRows(g, rest)
    requires i < |g| && k < |Without(g, i)|
    ensures Three(rows, Without(Without(g, i), k), a, g[i], Without(g, i)[k])
  {
    WithoutContents(g, i);
    WithoutContents(Without(g, i), k);
    hide Without;
  }

  lemma LastTwoUnmatched(got: seq<Row>, expected: seq<Row>, r: seq<Row>, s: seq<Row>,
                         g1: Row, g2: Row, g3: Row, e1: Row, e2: Row, e3: Row)
    returns (gs: seq<Row>, es: seq<Row>)
    requires Aligned(r, s) && Three(got, r, g1, g2, g3) && Three(expected, s, e1, e3, e2)
    requires RowsEqual(g1, e1) && RowsEqual(g1, e2) && RowsEqual(g2, e1) && !RowsEqual(g2, e2)
    ensures SameRows(gs, got) && SameRows(es, expected) && Greedy(gs, es) != Leftovers([], [])
  {
    hide RowsEqual, Greedy, Aligned, SameRows, Three;
    if RowsEqual(g3, e3) {
      gs, es := r + [g1, g3] + [g2], s + [e1, e3] + [e2];
      ThreeSwapped(got, r, g1, g2, g3);
      ThreeRows(got, r, g1, g3, g2);
      ThreeRows(expected, s, e1, e3, e2);
      Stuck(r, s, g1, g3, g2, e1, e3, e2);
    } else {
      gs, es := r + [g2, g1] + [g3], s + [e1, e2] + [e3];
      ThreeSwapped(got, r, g1, g2, g3);
      ThreeRows(got, r, g2, g1, g3);
      ThreeSwapped(expected, s, e1, e3, e2);
      ThreeRows(expected, s, e1, e2, e3);
      Stuck(r, s, g2, g1, g3, e1, e2, e3);
    }
  }

  /** Of two lists that can be paired, every order of each side is accepted exactly if
      no two rows of each side match crosswise but for one combination. */
  lemma EveryOrderSucceedsIff(got: seq<Row>, expected: seq<Row>, pairs: seq<Pair>)
    requires Matches(pairs, got, expected)
    ensures NoCrosswise(got, expected)
       <==> forall gs, es :: SameRows(gs, got) && SameRows(es, expected) ==> Greedy(gs, es) == Leftovers([], [])
  {
    MatchesArePairings(pairs, got, expected);
    var g, e := Map(pairs, GotOf), Map(pairs, ExpectedOf);
    hide RowsEqual, Greedy, Matches, Map;
    if NoCrosswise(got, expected) {
      forall gs, es | SameRows(gs, got) && SameRows(es, expected) ensures Greedy(gs, es) == Leftovers([], []) {
        SameNoCrosswise(got, expected, gs, es);
        EveryOrderSucceeds(g, e, gs, es);
      }
    } else {
      var g1, g2, e1, e2 :| g1 in got && g2 in got && e1 in expected && e2 in expected
        && RowsEqual(g1, e1) && RowsEqual(g1, e2) && RowsEqual(g2, e1) && !RowsEqual(g2, e2);
      var gs, es := SomeOrderFails(got, expected, g1, g2, e1, e2);
    }
  }

  lemma SameNoCrosswise(got: seq<Row>, expected: seq<Row>, gs: seq<Row>, es: seq<Row>)
    requires NoCrosswise(got, expected) && SameRows(gs, got) && SameRows(es, expected)
    ensures NoCrosswise(gs, es)
  {
    forall r ensures r in gs <==> r in got {
      InEither(gs, got, r);
    }
    forall r ensures r in es <==> r in expected {
      InEither(es, expected, r);
    }
    NoCrosswiseWithin(got, expected, gs, es);
  }

  /** Without a crosswise pattern the comparison accepts exactly the lists that can be
      paired, under every sort key: near-equal numbers alone do no harm. */
  lemma CompleteWithoutCrosswise(got: seq<Row>, expected: seq<Row>, sortKey: Row -> Key)
    requires NoCrosswise(got, expected)
    ensures CompareSpec(got, expected, sortKey).0 <==> exists pairs :: Matches(pairs, got, expected)
  {
    hide SortBy, Greedy, Map, Matches, NoCrosswise;
    if CompareSpec(got, expected, sortKey).0 {
      var pairs := CompareAccounts(got, expected, sortKey);
    }
    if pairs :| Matches(pairs, got, expected) {
      MatchedSameLength(got, expected, pairs);
      EveryOrderSucceedsIff(got, expected, pairs);
      SortSorts(got, sortKey);
      SortSorts(expected, sortKey);
      assert SameRows(SortBy(got, sortKey), got) && SameRows(SortBy(expected, sortKey), expected);
    }
  }
}
