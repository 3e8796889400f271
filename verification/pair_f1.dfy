/** Precision, recall and F1 of sets and of clusterings. */
module PairF1 {
  import opened Sequences

  datatype Scores = Scores(precision: real, recall: real, f1: real)

  datatype LengthMismatch = LengthMismatch

  const PERFECT := Scores(1.0, 1.0, 1.0)

  /** The common tail of both metrics: guarded ratios and their harmonic mean. */
  function Score(tp: nat, predPos: nat, goldPos: nat): Scores {
    var precision := if predPos > 0 then tp as real / predPos as real else 0.0;
    var recall := if goldPos > 0 then tp as real / goldPos as real else 0.0;
    Scores(precision, recall,
           if precision + recall != 0.0 then 2.0 * precision * recall / (precision + recall) else 0.0)
  }

  // ----- The harmonic mean

  lemma HarmonicMean(t: real, a: real, b: real)
    requires t > 0.0 && a > 0.0 && b > 0.0
    ensures t / a + t / b > 0.0
    ensures 2.0 * (t / a) * (t / b) / (t / a + t / b) == 2.0 * t / (a + b)
  {
    var p, r := t / a, t / b;
    assert p * a == t && r * b == t && p > 0.0 && r > 0.0;
    var f, s := 2.0 * p * r / (p + r), a + b;
    assert f * (p + r) == 2.0 * p * r;
    assert (p * r) * s == (p * a) * r + (r * b) * p == t * (p + r);
    assert f * ((p * r) * s) == f * (t * (p + r)) == t * (f * (p + r)) == t * (2.0 * p * r);
    Cancel(p * r, f * s, 2.0 * t);
    assert f * s == 2.0 * t;
    Quotient(f, s, 2.0 * t);
  }

  lemma Cancel(c: real, x: real, y: real)
    requires c > 0.0
    ensures c * x == c * y ==> x == y
  {
  }

  lemma Quotient(f: real, s: real, y: real)
    requires s > 0.0 && f * s == y
    ensures f == y / s
  {
  }

  /** Whenever something is positive, F1 is twice the agreement over all positives. */
  lemma ScoreIsDice(tp: nat, predPos: nat, goldPos: nat)
    requires tp <= predPos && tp <= goldPos && predPos + goldPos > 0
    ensures Score(tp, predPos, goldPos).f1 == 2.0 * tp as real / (predPos + goldPos) as real
  {
    if tp > 0 {
      HarmonicMean(tp as real, predPos as real, goldPos as real);
    } else {
      assert predPos > 0 ==> 0.0 / predPos as real == 0.0;
      assert goldPos > 0 ==> 0.0 / goldPos as real == 0.0;
    }
  }

  /** A perfect F1 means that every positive is common to both sides. */
  lemma PerfectScoreIff(tp: nat, predPos: nat, goldPos: nat)
    requires tp <= predPos && tp <= goldPos && predPos + goldPos > 0
    ensures Score(tp, predPos, goldPos).f1 == 1.0 <==> tp == predPos == goldPos
  {
    ScoreIsDice(tp, predPos, goldPos);
    var num, den := 2.0 * tp as real, (predPos + goldPos) as real;
    if num / den == 1.0 {
      assert num == den;
    } else if tp == predPos == goldPos {
      assert num == den;
    }
  }

  // ----- Sets

  function PrfFromSets<T(==)>(pred: set<T>, gold: set<T>): Scores {
    if pred == {} && gold == {} then PERFECT else Score(|pred * gold|, |pred|, |gold|)
  }

  /** Set F1 is one exactly for equal sets, and 2|P*G|/(|P|+|G|) unless both are empty. */
  lemma SetScores<T>(pred: set<T>, gold: set<T>)
    ensures PrfFromSets(pred, gold).f1 == 1.0 <==> pred == gold
    ensures |pred| + |gold| > 0 ==>
              PrfFromSets(pred, gold).f1 == 2.0 * |pred * gold| as real / (|pred| + |gold|) as real
  {
    SubsetSize(pred * gold, pred);
    SubsetSize(pred * gold, gold);
    if pred == {} && gold == {} {
    } else {
      assert |pred| + |gold| > 0;
      ScoreIsDice(|pred * gold|, |pred|, |gold|);
      PerfectScoreIff(|pred * gold|, |pred|, |gold|);
      assert pred * gold == pred && pred * gold == gold ==> pred == gold;
      hide Score;
    }
  }

  /** Precision is the share of `common` in the predicted ones, recall that in the gold ones. */
  ghost predicate Shares(s: Scores, common: nat, predicted: nat, gold: nat) {
    s.precision * predicted as real == common as real && s.recall * gold as real == common as real
  }

  lemma ScoreRatios(tp: nat, predPos: nat, goldPos: nat)
    requires tp <= predPos && tp <= goldPos
    ensures var s := Score(tp, predPos, goldPos);
            && Shares(s, tp, predPos, goldPos)
            && (s.precision == 1.0 <==> predPos > 0 && tp == predPos)
            && (s.recall == 1.0 <==> goldPos > 0 && tp == goldPos)
  {
    RatioOf(tp, predPos);
    RatioOf(tp, goldPos);
    assert predPos == 0 ==> tp == 0;
    assert goldPos == 0 ==> tp == 0;
  }

  lemma RatioOf(tp: nat, n: nat)
    requires tp <= n
    ensures n > 0 ==> (tp as real / n as real) * n as real == tp as real
    ensures n > 0 ==> (tp as real / n as real == 1.0 <==> tp == n)
  {
    if n > 0 {
      var q := tp as real / n as real;
      assert q * n as real == tp as real;
    }
  }

  /** Precision is the share of the predictions that are right, recall the share of the
      right ones that are predicted: one exactly if the one side is within the other. */
  lemma PrecisionAndRecall<T>(pred: set<T>, gold: set<T>)
    ensures pred == {} && gold == {} ==> PrfFromSets(pred, gold) == Scores(1.0, 1.0, 1.0)
    ensures pred != {} || gold != {} ==>
              var s := PrfFromSets(pred, gold);
              && Shares(s, |pred * gold|, |pred|, |gold|)
              && (s.precision == 1.0 <==> pred != {} && pred <= gold)
              && (s.recall == 1.0 <==> gold != {} && gold <= pred)
              && (pred == {} ==> s.precision == 0.0) && (gold == {} ==> s.recall == 0.0)
  {
    var both := pred * gold;
    SubsetSize(both, pred);
    SubsetSize(both, gold);
    ScoreRatios(|both|, |pred|, |gold|);
    hide Shares;
    assert both == pred <==> pred <= gold;
    assert both == gold <==> gold <= pred;
  }

  // ----- Pairs of items

  /** Same-cluster test of two items under a labelling. */
  function Same(labels: seq<int>): (nat, nat) -> bool {
    (i: nat, j: nat) => i < |labels| && j < |labels| && labels[i] == labels[j]
  }

  function And(p: (nat, nat) -> bool, q: (nat, nat) -> bool): (nat, nat) -> bool {
    (i: nat, j: nat) => p(i, j) && q(i, j)
  }

  /** The items before `m` paired with `j`. */
  function Column(p: (nat, nat) -> bool, j: nat, m: nat): nat {
    if m == 0 then 0 else Column(p, j, m - 1) + if p(m - 1, j) then 1 else 0
  }

  /** The sum over the strict upper triangle of an n by n matrix. */
  function Pairs(p: (nat, nat) -> bool, n: nat): nat {
    if n == 0 then 0 else Pairs(p, n - 1) + Column(p, n - 1, n - 1)
  }

  function PairScores(pred: seq<int>, gold: seq<int>): Result<Scores, LengthMismatch> {
    if |pred| != |gold| then Err(LengthMismatch)
    else if |pred| < 2 then Ok(PERFECT)
    else
      var n := |pred|;
      var tp, predPos, goldPos := Pairs(And(Same(pred), Same(gold)), n), Pairs(Same(pred), n), Pairs(Same(gold), n);
      if predPos == 0 && goldPos == 0 then Ok(PERFECT) else Ok(Score(tp, predPos, goldPos))
  }

  lemma {:induction false} ColumnWeaker(p: (nat, nat) -> bool, q: (nat, nat) -> bool, j: nat, m: nat)
    requires forall i: nat :: i < m && p(i, j) ==> q(i, j)
    ensures Column(p, j, m) <= Column(q, j, m)
    ensures Column(p, j, m) == Column(q, j, m) <==> forall i: nat :: i < m ==> p(i, j) == q(i, j)
  {
    if m > 0 {
      ColumnWeaker(p, q, j, m - 1);
    }
  }

  /** Counting fewer pairs: at most as many, and as many only if none is missing. */
  lemma {:induction false} PairsWeaker(p: (nat, nat) -> bool, q: (nat, nat) -> bool, n: nat)
    requires forall i: nat, j: nat :: i < j < n && p(i, j) ==> q(i, j)
    ensures Pairs(p, n) <= Pairs(q, n)
    ensures Pairs(p, n) == Pairs(q, n) <==> forall i: nat, j: nat :: i < j < n ==> p(i, j) == q(i, j)
  {
    if n > 0 {
      PairsWeaker(p, q, n - 1);
      ColumnWeaker(p, q, n - 1, n - 1);
    }
  }

  lemma PairsAgree(p: (nat, nat) -> bool, q: (nat, nat) -> bool, n: nat)
    requires forall i: nat, j: nat :: i < j < n ==> p(i, j) == q(i, j)
    ensures Pairs(p, n) == Pairs(q, n)
  {
    PairsWeaker(p, q, n);
  }

  lemma CommonPairs(pred: seq<int>, gold: seq<int>, n: nat)
    ensures Pairs(And(Same(pred), Same(gold)), n) <= Pairs(Same(pred), n)
    ensures Pairs(And(Same(pred), Same(gold)), n) <= Pairs(Same(gold), n)
  {
    PairsWeaker(And(Same(pred), Same(gold)), Same(pred), n);
    PairsWeaker(And(Same(pred), Same(gold)), Same(gold), n);
  }

  /** Pairwise F1 is 2*tp / (pred_pos + gbeforepos) as soon as some pair is positive. */
  lemma PairF1IsDice(pred: seq<int>, gold: seq<int>)
    requires |pred| == |gold| >= 2
    requires Pairs(Same(pred), |pred|) + Pairs(Same(gold), |pred|) > 0
    ensures PairScores(pred, gold).value.f1
         == 2.0 * Pairs(And(Same(pred), Same(gold)), |pred|) as real
            / (Pairs(Same(pred), |pred|) + Pairs(Same(gold), |pred|)) as real
  {
    hide Score, Pairs;
    CommonPairs(pred, gold, |pred|);
    ScoreIsDice(Pairs(And(Same(pred), Same(gold)), |pred|), Pairs(Same(pred), |pred|), Pairs(Same(gold), |pred|));
  }

  /** Exchanging the arguments exchanges precision and recall and keeps F1. */
  lemma SwapArguments(pred: seq<int>, gold: seq<int>)
    requires |pred| == |gold|
    ensures var a, b := PairScores(pred, gold).value, PairScores(gold, pred).value;
            a.precision == b.recall && a.recall == b.precision && a.f1 == b.f1
  {
    var n := |pred|;
    PairsAgree(And(Same(pred), Same(gold)), And(Same(gold), Same(pred)), n);
    var tp, x, y := Pairs(And(Same(pred), Same(gold)), n), Pairs(Same(pred), n), Pairs(Same(gold), n);
    var s := Score(tp, x, y);
    assert 2.0 * s.precision * s.recall == 2.0 * s.recall * s.precision;
    hide Pairs;
  }

  ghost predicate InjectiveOn(f: int -> int, labels: seq<int>) {
    forall i, j :: 0 <= i < |labels| && 0 <= j < |labels| && f(labels[i]) == f(labels[j]) ==> labels[i] == labels[j]
  }

  /** Cluster names do not matter: any injective renaming of either side changes nothing. */
  lemma RelabelInvariant(pred: seq<int>, gold: seq<int>, f: int -> int, g: int -> int)
    requires InjectiveOn(f, pred) && InjectiveOn(g, gold)
    ensures PairScores(Map(pred, f), Map(gold, g)) == PairScores(pred, gold)
  {
    if |pred| == |gold| {
      var n := |pred|;
      PairsAgree(Same(Map(pred, f)), Same(pred), n);
      PairsAgree(Same(Map(gold, g)), Same(gold), n);
      PairsAgree(And(Same(Map(pred, f)), Same(Map(gold, g))), And(Same(pred), Same(gold)), n);
      hide Pairs, Score, Map;
    }
  }

  /** The two labellings put the same items together. */
  ghost predicate SamePartition(pred: seq<int>, gold: seq<int>)
    requires |pred| == |gold|
  {
    forall i, j :: 0 <= i < j < |pred| ==> (pred[i] == pred[j] <==> gold[i] == gold[j])
  }

  /** F1 is one exactly when both labellings induce the same partition. */
  lemma PerfectIffSamePartition(pred: seq<int>, gold: seq<int>)
    requires |pred| == |gold|
    ensures PairScores(pred, gold).value.f1 == 1.0 <==> SamePartition(pred, gold)
  {
    var n := |pred|;
    if n >= 2 {
      var both := And(Same(pred), Same(gold));
      PairsWeaker(both, Same(pred), n);
      PairsWeaker(both, Same(gold), n);
      PartitionAsPairs(pred, gold);
      if Pairs(Same(pred), n) + Pairs(Same(gold), n) > 0 {
        PerfectScoreIff(Pairs(both, n), Pairs(Same(pred), n), Pairs(Same(gold), n));
      }
      hide Pairs, Score;
    }
  }

  lemma PartitionAsPairs(pred: seq<int>, gold: seq<int>)
    requires |pred| == |gold|
    ensures SamePartition(pred, gold) <==>
            && (forall i: nat, j: nat :: i < j < |pred| ==> And(Same(pred), Same(gold))(i, j) == Same(pred)(i, j))
            && (forall i: nat, j: nat :: i < j < |pred| ==> And(Same(pred), Same(gold))(i, j) == Same(gold)(i, j))
  {
    if (forall i: nat, j: nat :: i < j < |pred| ==> And(Same(pred), Same(gold))(i, j) == Same(pred)(i, j))
      && (forall i: nat, j: nat :: i < j < |pred| ==> And(Same(pred), Same(gold))(i, j) == Same(gold)(i, j))
    {
      forall i, j | 0 <= i < j < |pred| ensures pred[i] == pred[j] <==> gold[i] == gold[j] {
        assert And(Same(pred), Same(gold))(i, j) == Same(pred)(i, j) == Same(gold)(i, j);
      }
    }
  }

  // ----- Positive pairs and cluster sizes

  function Size(labels: seq<int>, c: int, n: nat): nat
    requires n <= |labels|
  {
    if n == 0 then 0 else Size(labels, c, n - 1) + if labels[n - 1] == c then 1 else 0
  }

  /** size * (size - 1) / 2 over the listed clusters, counting the first `n` items. */
  function ClusterPairs(labels: seq<int>, ids: seq<int>, n: nat): nat
    requires n <= |labels|
  {
    if |ids| == 0 then 0
    else
      var size := Size(labels, Last(ids), n);
      ClusterPairs(labels, Init(ids), n) + size * (size - 1) / 2
  }

  lemma {:induction false} ColumnIsSize(labels: seq<int>, j: nat, m: nat)
    requires m <= j < |labels|
    ensures Column(Same(labels), j, m) == Size(labels, labels[j], m)
  {
    if m > 0 {
      ColumnIsSize(labels, j, m - 1);
    }
  }

  lemma ChooseTwo(size: nat)
    ensures (size + 1) * size / 2 == size * (size - 1) / 2 + size
  {
    assert (size + 1) * size == size * (size - 1) + 2 * size;
  }

  /** One more item of cluster c pairs with each earlier item of c. */
  lemma {:induction false} ClusterPairsStep(labels: seq<int>, ids: seq<int>, n: nat)
    requires n < |labels| && Distinct(ids)
    ensures ClusterPairs(labels, ids, n + 1)
         == ClusterPairs(labels, ids, n) + if labels[n] in ids then Size(labels, labels[n], n) else 0
  {
    if |ids| > 0 {
      InitLast(ids);
      ClusterPairsStep(labels, Init(ids), n);
      if Last(ids) == labels[n] {
        ChooseTwo(Size(labels, labels[n], n));
      }
    }
  }

  lemma {:induction false} NoItemsNoPairs(labels: seq<int>, ids: seq<int>)
    ensures ClusterPairs(labels, ids, 0) == 0
  {
    if |ids| > 0 {
      NoItemsNoPairs(labels, Init(ids));
    }
  }

  /** The positive pairs of a labelling are the pairs inside its clusters. */
  lemma {:induction false} PositivesAreClusterPairs(labels: seq<int>, ids: seq<int>, n: nat)
    requires n <= |labels| && Distinct(ids)
    requires forall i :: 0 <= i < |labels| ==> labels[i] in ids
    ensures Pairs(Same(labels), n) == ClusterPairs(labels, ids, n)
  {
    if n == 0 {
      NoItemsNoPairs(labels, ids);
    } else {
      PositivesAreClusterPairs(labels, ids, n - 1);
      ClusterPairsStep(labels, ids, n - 1);
      ColumnIsSize(labels, n - 1, n - 1);
    }
  }

  // ----- Pair scores as set scores

  /** The pairs of positions with the same label. */
  ghost function Positives(labels: seq<int>): set<(nat, nat)> {
    set i: nat, j: nat | i < j < |labels| && labels[i] == labels[j] :: (i, j)
  }

  ghost function PairSet(p: (nat, nat) -> bool, n: nat): set<(nat, nat)> {
    set i: nat, j: nat | i < j < n && p(i, j) :: (i, j)
  }

  ghost function ColumnSet(p: (nat, nat) -> bool, j: nat, m: nat): set<(nat, nat)> {
    set i: nat | i < m && p(i, j) :: (i, j)
  }

  lemma {:induction false} ColumnCounts(p: (nat, nat) -> bool, j: nat, m: nat)
    ensures |ColumnSet(p, j, m)| == Column(p, j, m)
  {
    if m == 0 {
      assert ColumnSet(p, j, 0) == {};
    } else {
      ColumnCounts(p, j, m - 1);
      var n: nat := m - 1;
      assert ColumnSet(p, j, m) == ColumnSet(p, j, n) + if p(n, j) then {(n, j)} else {};
      assert (n, j) !in ColumnSet(p, j, n);
    }
  }

  lemma {:induction false} PairsCount(p: (nat, nat) -> bool, n: nat)
    ensures |PairSet(p, n)| == Pairs(p, n)
  {
    if n == 0 {
      assert PairSet(p, 0) == {};
    } else {
      var m: nat := n - 1;
      PairsCount(p, m);
      ColumnCounts(p, m, m);
      var before, added := PairSet(p, m), ColumnSet(p, m, m);
      assert PairSet(p, n) == before + added;
      assert before * added == {};
    }
  }

  /** Pairwise scores are the set scores of the same-cluster pairs. */
  lemma PairScoresAreSetScores(pred: seq<int>, gold: seq<int>)
    ensures |pred| != |gold| ==> PairScores(pred, gold).Err?
    ensures |pred| == |gold| ==> PairScores(pred, gold) == Ok(PrfFromSets(Positives(pred), Positives(gold)))
  {
    if |pred| == |gold| {
      var n := |pred|;
      PairsCount(Same(pred), n);
      PairsCount(Same(gold), n);
      PairsCount(And(Same(pred), Same(gold)), n);
      assert PairSet(Same(pred), n) == Positives(pred);
      assert PairSet(Same(gold), n) == Positives(gold);
      assert PairSet(And(Same(pred), Same(gold)), n) == Positives(pred) * Positives(gold);
      hide Score, Pairs;
      if n < 2 {
        assert Positives(pred) == {} && Positives(gold) == {};
      }
    }
  }

  /** Items that are together in `pred` are together in `gold`. */
  ghost predicate Refines(pred: seq<int>, gold: seq<int>)
    requires |pred| == |gold|
  {
    forall i, j :: 0 <= i < j < |pred| && pred[i] == pred[j] ==> gold[i] == gold[j]
  }

  ghost predicate SomeTogether(labels: seq<int>) {
    exists i, j :: 0 <= i < j < |labels| && labels[i] == labels[j]
  }

  lemma WithinIffRefines(pred: seq<int>, gold: seq<int>)
    requires |pred| == |gold|
    ensures Positives(pred) <= Positives(gold) <==> Refines(pred, gold)
    ensures Positives(pred) != {} <==> SomeTogether(pred)
  {
    if Positives(pred) <= Positives(gold) {
      forall i: nat, j: nat | i < j < |pred| && pred[i] == pred[j] ensures gold[i] == gold[j] {
        assert (i, j) in Positives(pred);
      }
    }
    if i: nat, j: nat :| i < j < |pred| && pred[i] == pred[j] {
      assert (i, j) in Positives(pred);
    }
  }

  /** Once some pair is positive, precision is one exactly if the predicted clusters put some
      items together and only such as belong together, recall exactly the other way round. */
  lemma PairPrecisionAndRecall(pred: seq<int>, gold: seq<int>)
    requires |pred| == |gold| && (SomeTogether(pred) || SomeTogether(gold))
    ensures var s := PairScores(pred, gold).value;
            && Shares(s, |Positives(pred) * Positives(gold)|, |Positives(pred)|, |Positives(gold)|)
            && (s.precision == 1.0 <==> SomeTogether(pred) && Refines(pred, gold))
            && (s.recall == 1.0 <==> SomeTogether(gold) && Refines(gold, pred))
  {
    PairScoresAreSetScores(pred, gold);
    WithinIffRefines(pred, gold);
    WithinIffRefines(gold, pred);
    PrecisionAndRecall(Positives(pred), Positives(gold));
    hide PairScores, PrfFromSets, Positives, Refines, SomeTogether, Shares;
  }
}
