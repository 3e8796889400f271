/** Accuracy and macro-averaged F1 over parallel lists of labels. */
module LabelF1 {
  import opened Sequences
  import opened PairF1

  /** The positions that carry a label. */
  function Items(xs: seq<int>, tag: int): set<nat> {
    set i: nat | i < |xs| && xs[i] == tag
  }

  function F1Of(preds: seq<int>, golds: seq<int>, tag: int): real {
    PrfFromSets(Items(preds, tag), Items(golds, tag)).f1
  }

  function SumReal(xs: seq<real>): real {
    if |xs| == 0 then 0.0 else SumReal(Init(xs)) + Last(xs)
  }

  function Mean(xs: seq<real>): real {
    if |xs| == 0 then 0.0 else SumReal(xs) / |xs| as real
  }

  function LabelScores(preds: seq<int>, golds: seq<int>, labels: seq<int>): (f1s: seq<real>)
    ensures |f1s| == |labels| && forall i :: 0 <= i < |labels| ==> f1s[i] == F1Of(preds, golds, labels[i])
  {
    if |labels| == 0 then [] else LabelScores(preds, golds, Init(labels)) + [F1Of(preds, golds, Last(labels))]
  }

  /** The list of per-label scores, appended label by label, and its mean. */
  method MacroF1(preds: seq<int>, golds: seq<int>, labels: seq<int>) returns (r: Result<real, LengthMismatch>)
    ensures r == if |preds| != |golds| then Err(LengthMismatch) else Ok(Mean(LabelScores(preds, golds, labels)))
  {
    if |preds| != |golds| {
      return Err(LengthMismatch);
    }
    var f1s: seq<real> := [];
    for k := 0 to |labels|
      invariant f1s == LabelScores(preds, golds, labels[..k])
    {
      InitAppend(labels[..k], labels[k]);
      assert labels[..k + 1] == labels[..k] + [labels[k]];
      f1s := f1s + [F1Of(preds, golds, labels[k])];
    }
    assert labels[..|labels|] == labels;
    return Ok(Mean(f1s));
  }

  lemma QuotientBounds(t: real, d: real, q: real)
    requires d > 0.0 && 0.0 <= t <= d && q * d == t
    ensures 0.0 <= q <= 1.0 && (q == 1.0 <==> t == d)
  {
    assert q < 0.0 ==> q * d < 0.0;
    assert q > 1.0 ==> (q - 1.0) * d > 0.0;
  }

  lemma UnitQuotient(t: real, n: nat)
    requires n > 0 && 0.0 <= t <= n as real
    ensures 0.0 <= t / n as real <= 1.0
    ensures t / n as real == 1.0 <==> t == n as real
  {
    var d := n as real;
    QuotientBounds(t, d, t / d);
  }

  lemma LabelInUnit(preds: seq<int>, golds: seq<int>, tag: int)
    ensures 0.0 <= F1Of(preds, golds, tag) <= 1.0
  {
    var p, g := Items(preds, tag), Items(golds, tag);
    SetScores(p, g);
    if |p| + |g| > 0 {
      assert |p * g| <= |p| && |p * g| <= |g| by {
        SubsetSize(p * g, p);
        SubsetSize(p * g, g);
      }
      hide PrfFromSets, Items;
      TwiceWithin(|p * g|, |p|, |g|);
    }
  }

  lemma TwiceWithin(t: nat, a: nat, b: nat)
    requires t <= a && t <= b && a + b > 0
    ensures 0.0 <= 2.0 * t as real / (a + b) as real <= 1.0
  {
    UnitQuotient(2.0 * t as real, a + b);
  }

  lemma {:induction false} SumWithin(xs: seq<real>)
    requires forall i :: 0 <= i < |xs| ==> 0.0 <= xs[i] <= 1.0
    ensures 0.0 <= SumReal(xs) <= |xs| as real
    ensures SumReal(xs) == |xs| as real <==> forall i :: 0 <= i < |xs| ==> xs[i] == 1.0
  {
    if |xs| > 0 {
      SumWithin(Init(xs));
      InitLast(xs);
    }
  }

  /** Macro F1 lies in [0, 1] and is one exactly when every listed label is put on
      the same items by both sides. */
  lemma MacroPerfectIff(preds: seq<int>, golds: seq<int>, labels: seq<int>)
    requires labels != []
    ensures var m := Mean(LabelScores(preds, golds, labels));
            && 0.0 <= m <= 1.0
            && (m == 1.0 <==> forall l :: l in labels ==> Items(preds, l) == Items(golds, l))
  {
    var f1s := LabelScores(preds, golds, labels);
    forall i | 0 <= i < |labels|
      ensures 0.0 <= f1s[i] <= 1.0 && (f1s[i] == 1.0 <==> Items(preds, labels[i]) == Items(golds, labels[i]))
    {
      LabelInUnit(preds, golds, labels[i]);
      SetScores(Items(preds, labels[i]), Items(golds, labels[i]));
    }
    SumWithin(f1s);
    UnitQuotient(SumReal(f1s), |f1s|);
    hide PrfFromSets, Items, LabelScores;
  }

  /** zip(preds, golds) agreements over the number of items */
  function Accuracy(preds: seq<int>, golds: seq<int>): Result<real, LengthMismatch> {
    if |preds| != |golds| then Err(LengthMismatch)
    else if |preds| == 0 then Ok(0.0)
    else Ok(Agreements(preds, golds) as real / |preds| as real)
  }

  function Agreements(preds: seq<int>, golds: seq<int>): nat
    requires |preds| == |golds|
  {
    if |preds| == 0 then 0
    else Agreements(Init(preds), Init(golds)) + if Last(preds) == Last(golds) then 1 else 0
  }

  lemma {:induction false} AgreementsWithin(preds: seq<int>, golds: seq<int>)
    requires |preds| == |golds|
    ensures Agreements(preds, golds) <= |preds|
    ensures Agreements(preds, golds) == |preds| <==> preds == golds
  {
    if |preds| > 0 {
      AgreementsWithin(Init(preds), Init(golds));
      InitLast(preds);
      InitLast(golds);
    }
  }

  /** Every label that occurs on either side is scored. */
  ghost predicate Listed(preds: seq<int>, golds: seq<int>, labels: seq<int>) {
    (forall x :: x in preds ==> x in labels) && (forall x :: x in golds ==> x in labels)
  }

  lemma SameItemsSameLists(preds: seq<int>, golds: seq<int>, labels: seq<int>)
    requires |preds| == |golds| && Listed(preds, golds, labels)
    requires forall l :: l in labels ==> Items(preds, l) == Items(golds, l)
    ensures preds == golds
  {
    forall i: nat | i < |preds| ensures preds[i] == golds[i] {
      assert preds[i] in preds;
      assert i in Items(preds, preds[i]);
      assert i in Items(golds, preds[i]);
    }
  }

  lemma PerfectAccuracy(preds: seq<int>, golds: seq<int>)
    requires |preds| == |golds| > 0
    ensures Accuracy(preds, golds) == Ok(1.0) <==> preds == golds
  {
    AgreementsWithin(preds, golds);
    hide Agreements;
    UnitQuotient(Agreements(preds, golds) as real, |preds|);
  }

  /** When every occurring label is listed, macro F1, accuracy and equality of the
      two lists say "perfect" together. */
  lemma PerfectTogether(preds: seq<int>, golds: seq<int>, labels: seq<int>)
    requires |preds| == |golds| > 0 && Listed(preds, golds, labels)
    ensures Mean(LabelScores(preds, golds, labels)) == 1.0 <==> preds == golds
    ensures Accuracy(preds, golds) == Ok(1.0) <==> preds == golds
  {
    var x := preds[0];
    assert x in preds;
    assert x in labels;
    assert labels != [];
    MacroPerfectIff(preds, golds, labels);
    PerfectAccuracy(preds, golds);
    hide Mean, LabelScores, Items;
    if forall l :: l in labels ==> Items(preds, l) == Items(golds, l) {
      SameItemsSameLists(preds, golds, labels);
    }
  }

  /** The positions at which the two lists agree. */
  ghost function AgreeingAt(preds: seq<int>, golds: seq<int>): set<nat>
    requires |preds| == |golds|
  {
    set i: nat | i < |preds| && preds[i] == golds[i]
  }

  lemma {:induction false} AgreementsCount(preds: seq<int>, golds: seq<int>)
    requires |preds| == |golds|
    ensures Agreements(preds, golds) == |AgreeingAt(preds, golds)|
  {
    if |preds| == 0 {
      assert AgreeingAt(preds, golds) == {};
    } else {
      var n: nat := |preds| - 1;
      AgreementsCount(Init(preds), Init(golds));
      assert AgreeingAt(preds, golds) == AgreeingAt(Init(preds), Init(golds)) + if preds[n] == golds[n] then {n} else {};
    }
  }

  /** Accuracy is the share of positions that agree, nothing for no items. */
  lemma AccuracyIsShare(preds: seq<int>, golds: seq<int>)
    ensures |preds| != |golds| ==> Accuracy(preds, golds).Err?
    ensures |preds| == |golds| ==>
              && Accuracy(preds, golds).Ok?
              && Accuracy(preds, golds).value * |preds| as real == |AgreeingAt(preds, golds)| as real
              && (|preds| == 0 ==> Accuracy(preds, golds).value == 0.0)
  {
    if |preds| == |golds| {
      AgreementsCount(preds, golds);
      if |preds| > 0 {
        var n := |AgreeingAt(preds, golds)|;
        assert (n as real / |preds| as real) * |preds| as real == n as real;
      }
    }
    hide Agreements;
  }

  /** `f` is twice the common items over all items, or one if there are none. */
  ghost predicate LabelShare(f: real, p: set<nat>, g: set<nat>) {
    if p == {} && g == {} then f == 1.0 else f * (|p| + |g|) as real == 2.0 * |p * g| as real
  }

  /** The mean times the number of labels is the sum of the labels' scores, each twice the
      items the label has in both lists over those it has in either. */
  lemma MacroIsMean(preds: seq<int>, golds: seq<int>, labels: seq<int>)
    ensures var f1s := LabelScores(preds, golds, labels);
            && Mean(f1s) * |labels| as real == SumReal(f1s)
            && forall k :: 0 <= k < |labels| ==> LabelShare(f1s[k], Items(preds, labels[k]), Items(golds, labels[k]))
  {
    var f1s := LabelScores(preds, golds, labels);
    MeanTimes(f1s);
    hide LabelShare, Mean, SumReal;
    forall k | 0 <= k < |labels| ensures LabelShare(f1s[k], Items(preds, labels[k]), Items(golds, labels[k])) {
      F1IsLabelShare(Items(preds, labels[k]), Items(golds, labels[k]));
    }
  }

  lemma F1IsLabelShare(p: set<nat>, g: set<nat>)
    ensures LabelShare(PrfFromSets(p, g).f1, p, g)
  {
    SetScores(p, g);
    hide PrfFromSets;
    if |p| + |g| > 0 {
      var d, t := (|p| + |g|) as real, 2.0 * |p * g| as real;
      assert (t / d) * d == t;
    }
  }

  lemma MeanTimes(xs: seq<real>)
    ensures Mean(xs) * |xs| as real == SumReal(xs)
  {
    if |xs| > 0 {
      var d, t := |xs| as real, SumReal(xs);
      assert (t / d) * d == t;
    }
  }

  lemma SameZeros()
    ensures Items([0, 1], 0) == Items([0, 2], 0)
  {
    var a, b := [0, 1], [0, 2];
    assert Items(a, 0) == {0} && Items(b, 0) == {0};
  }

  /** A label that is not listed escapes the score: with only label 0 listed, two
      lists that agree on 0 alone are still perfect. */
  lemma UnlistedEscapes()
    ensures Mean(LabelScores([0, 1], [0, 2], [0])) == 1.0 && Accuracy([0, 1], [0, 2]) != Ok(1.0)
  {
    hide Mean, LabelScores, PrfFromSets, Accuracy, Items;
    var a, b, only := [0, 1], [0, 2], [0];
    assert a[1] != b[1] && only != [] && only[0] == 0;
    SameZeros();
    MacroPerfectIff(a, b, only);
    PerfectAccuracy(a, b);
  }
}
