/** What the comparison of two result sets accepts, cell by cell. */
module RowMeaning {
  import opened Sequences
  import opened StableSort
  import opened RowCompare

  /** The cells a correct answer may differ in: numbers by a thousandth, nothing else.
      True and false count as one and zero next to a number. */
  ghost predicate CellsAgree(a: Value, b: Value) {
    && (a.Null? <==> b.Null?)
    && (a.Text? <==> b.Text?)
    && (a.Text? && b.Text? ==> a.s == b.s)
    && (a.Num? && b.Num? ==> b.x - 0.001 <= a.x <= b.x + 0.001)
    && (a.Bool? && b.Bool? ==> a.b == b.b)
    && (a.Bool? && b.Num? ==> b.x == if a.b then 1.0 else 0.0)
    && (a.Num? && b.Bool? ==> a.x == if b.b then 1.0 else 0.0)
  }

  ghost predicate RowsAgree(a: Row, b: Row) {
    |a| == |b| && forall i :: 0 <= i < |a| ==> CellsAgree(a[i], b[i])
  }

  lemma EqualIsAgreeing(a: Row, b: Row)
    ensures RowsEqual(a, b) <==> RowsAgree(a, b)
  {
    forall i | 0 <= i < |a| && i < |b| ensures ValuesEqual(a[i], b[i]) <==> CellsAgree(a[i], b[i]) {
      CellEqualIsAgreeing(a[i], b[i]);
    }
  }

  lemma CellEqualIsAgreeing(a: Value, b: Value)
    ensures ValuesEqual(a, b) <==> CellsAgree(a, b)
  {
  }

  /** A success pairs every row with one that agrees in every cell. */
  lemma SuccessMeans(got: seq<Row>, expected: seq<Row>, sortKey: Row -> Key) returns (pairs: seq<Pair>)
    requires CompareSpec(got, expected, sortKey).0
    ensures multiset(got) == multiset(Map(pairs, GotOf)) && multiset(expected) == multiset(Map(pairs, ExpectedOf))
    ensures forall p :: p in pairs ==> RowsAgree(p.got, p.expected)
  {
    pairs := CompareAccounts(got, expected, sortKey);
    hide CompareSpec, Map;
    forall p | p in pairs ensures RowsAgree(p.got, p.expected) {
      EqualIsAgreeing(p.got, p.expected);
    }
  }

  /** A failure on equally many rows reports rows of each side that agree with none left on the other. */
  lemma FailureMeans(got: seq<Row>, expected: seq<Row>, sortKey: Row -> Key)
    requires |got| == |expected|
    ensures var left := CompareSpec(got, expected, sortKey).1;
            && |left.got| == |left.expected|
            && (CompareSpec(got, expected, sortKey).0 <==> left.got == [])
            && forall g, e :: g in left.got && e in left.expected ==> !RowsAgree(g, e)
  {
    var gs, es := SortBy(got, sortKey), SortBy(expected, sortKey);
    SortSorts(got, sortKey);
    SortSorts(expected, sortKey);
    assert |multiset(gs)| == |multiset(got)| && |multiset(es)| == |multiset(expected)|;
    hide SortBy;
    LeftoversDiffer(gs, es);
    var left := Greedy(gs, es);
    hide Greedy;
    forall g, e | g in left.got && e in left.expected ensures !RowsAgree(g, e) {
      EqualIsAgreeing(g, e);
    }
  }

  lemma {:induction false} LeftoversDiffer(gs: seq<Row>, rem: seq<Row>)
    ensures var left := Greedy(gs, rem);
            && |rem| - |left.expected| == |gs| - |left.got|
            && (forall e :: e in left.expected ==> e in rem)
            && forall g, e :: g in left.got && e in left.expected ==> !RowsEqual(g, e)
    decreases |gs|
  {
    hide RowsEqual;
    if |gs| > 0 {
      var j := FirstMatch(gs[0], rem);
      if j < |rem| {
        LeftoversDiffer(gs[1..], Without(rem, j));
      } else {
        LeftoversDiffer(gs[1..], rem);
        hide FirstMatch;
        forall e | e in Greedy(gs, rem).expected ensures !RowsEqual(gs[0], e) {
          var i :| 0 <= i < |rem| && rem[i] == e;
        }
      }
    }
  }

  // ----- Rows without numbers

  ghost predicate Plain(rows: seq<Row>) {
    forall r: Row, i :: r in rows && 0 <= i < |r| ==> r[i].Text? || r[i].Null?
  }

  lemma PlainAgreeIff(rows: seq<Row>, a: Row, b: Row)
    requires Plain(rows) && a in rows && b in rows
    ensures RowsEqual(a, b) <==> a == b
  {
    EqualIsAgreeing(a, b);
    if RowsAgree(a, b) {
      forall i | 0 <= i < |a| ensures a[i] == b[i] {
        assert CellsAgree(a[i], b[i]);
      }
    }
  }

  /** A list paired with itself. */
  lemma {:induction false} SelfPaired(rows: seq<Row>) returns (pairs: seq<Pair>)
    ensures Map(pairs, GotOf) == rows && Map(pairs, ExpectedOf) == rows && AllEqual(pairs)
  {
    pairs := seq(|rows|, i requires 0 <= i < |rows| => Pair(rows[i], rows[i]));
    forall p | p in pairs ensures RowsEqual(p.got, p.expected) {
      EqualRowsSymmetric(p.got, p.expected);
    }
  }

  lemma PlainTransitive(rows: seq<Row>)
    requires Plain(rows)
    ensures Transitive(rows)
  {
    forall a, b, c | a in rows && b in rows && c in rows && RowsEqual(a, b) && RowsEqual(b, c) ensures RowsEqual(a, c) {
      PlainAgreeIff(rows, a, b);
      PlainAgreeIff(rows, b, c);
    }
  }

  lemma {:induction false} PlainPairsSame(rows: seq<Row>, pairs: seq<Pair>)
    requires Plain(rows) && AllEqual(pairs)
    requires forall p :: p in pairs ==> p.got in rows && p.expected in rows
    ensures Map(pairs, GotOf) == Map(pairs, ExpectedOf)
  {
    forall i | 0 <= i < |pairs| ensures pairs[i].got == pairs[i].expected {
      assert pairs[i] in pairs;
      PlainAgreeIff(rows, pairs[i].got, pairs[i].expected);
    }
  }

  /** Texts and nulls: accepted, under every sort key, exactly if both sides are the same rows as often. */
  lemma PlainComparesMultisets(got: seq<Row>, expected: seq<Row>, sortKey: Row -> Key)
    requires Plain(got) && Plain(expected)
    ensures CompareSpec(got, expected, sortKey).0 <==> multiset(got) == multiset(expected)
  {
    hide CompareSpec, RowsEqual, Map, Transitive, SameCounts, Matches;
    PlainTransitive(got + expected);
    CompleteWhereTransitive(got, expected, sortKey);
    if multiset(got) == multiset(expected) {
      var pairs := SameRowsMatch(got, expected);
    }
    if pairs :| Matches(pairs, got, expected) {
      PlainMatchIsSame(got, expected, pairs);
    }
  }

  lemma SameRowsMatch(got: seq<Row>, expected: seq<Row>) returns (pairs: seq<Pair>)
    requires multiset(got) == multiset(expected)
    ensures Matches(pairs, got, expected)
  {
    pairs := SelfPaired(got);
    hide Map;
  }

  lemma PlainMatchIsSame(got: seq<Row>, expected: seq<Row>, pairs: seq<Pair>)
    requires Plain(got) && Plain(expected) && Matches(pairs, got, expected)
    ensures multiset(got) == multiset(expected)
  {
    PairedRowsAmong(pairs, got, expected);
    hide Map;
    PlainPairsSame(got + expected, pairs);
  }

  lemma PairedRowsAmong(pairs: seq<Pair>, got: seq<Row>, expected: seq<Row>)
    requires Matches(pairs, got, expected)
    ensures forall p :: p in pairs ==> p.got in got + expected && p.expected in got + expected
  {
    forall p | p in pairs ensures p.got in got + expected && p.expected in got + expected {
      var i :| 0 <= i < |pairs| && pairs[i] == p;
      assert Map(pairs, GotOf)[i] in multiset(got) && Map(pairs, ExpectedOf)[i] in multiset(expected);
    }
  }

  // ----- The expected rows themselves

  lemma {:induction false} SameListPasses(rows: seq<Row>)
    ensures Greedy(rows, rows) == Leftovers([], [])
    decreases |rows|
  {
    if |rows| > 0 {
      EqualRowsSymmetric(rows[0], rows[0]);
      FirstMatchZero(rows[0], rows);
      assert Without(rows, 0) == rows[1..];
      SameListPasses(rows[1..]);
      hide RowsEqual, FirstMatch, Without;
    }
  }

  /** The exact answer passes in any order, whatever near-equal numbers it holds, if the
      sort key tells its rows apart. */
  lemma ExactAnswerPasses(got: seq<Row>, expected: seq<Row>, sortKey: Row -> Key)
    requires multiset(got) == multiset(expected)
    requires forall a, b :: a in got && b in got && sortKey(a) == sortKey(b) ==> a == b
    ensures CompareSpec(got, expected, sortKey).0
  {
    var gs, es := SortBy(got, sortKey), SortBy(expected, sortKey);
    SortSorts(got, sortKey);
    SortSorts(expected, sortKey);
    assert |multiset(got)| == |multiset(expected)|;
    hide SortBy;
    forall a, b | a in gs && b in gs && sortKey(a) == sortKey(b) ensures a == b {
      assert a in multiset(gs) && b in multiset(gs);
      assert a in got && b in got;
    }
    SortedUnique(gs, es, sortKey);
    SameListPasses(gs);
    hide Greedy;
  }
}
