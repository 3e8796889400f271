/** The old/recent split of orders with their items and payments, and the order
    totals computed by one segmented sum. */
module OrderSplit {
  import opened Sequences
  import opened StableSort

  function EpochKey(t: int): Key { Key(t, 0, 0) }

  /** np.sort of the sampled creation times */
  function OrderEpochs(sampled: seq<int>): seq<int> {
    SortBy(sampled, EpochKey)
  }

  function Total(counts: seq<nat>): nat {
    if |counts| == 0 then 0 else Total(Init(counts)) + Last(counts)
  }

  /** np.repeat(np.arange(1, n + 1), counts): the order id of every item */
  function ItemOrders(counts: seq<nat>): (r: seq<int>)
    ensures |r| == Total(counts)
  {
    if |counts| == 0 then [] else ItemOrders(Init(counts)) + seq(Last(counts), _ => |counts|)
  }

  /** np.concatenate(([0], np.cumsum(counts)[:-1])), element `o` */
  function Offset(counts: seq<nat>, o: nat): nat
    requires o <= |counts|
  {
    Total(counts[..o])
  }

  /** np.add.reduceat at the offsets: a non-increasing pair of offsets yields the
      single element there, an offset past the end is an IndexError. */
  function ReduceAt(amounts: seq<int>, counts: seq<nat>): Option<seq<int>> {
    if forall o :: 0 <= o < |counts| ==> Offset(counts, o) < |amounts| then
      Some(seq(|counts|, o requires 0 <= o < |counts| =>
        var from := Offset(counts, o);
        var to := if o + 1 < |counts| then Offset(counts, o + 1) else |amounts|;
        if from < to <= |amounts| then Sum(amounts[from..to]) else if from < |amounts| then amounts[from] else 0))
    else None
  }

  /** np.arange(1, n + 1)[paid_mask] */
  function PaidOrders(paid: seq<bool>): seq<int> {
    if |paid| == 0 then [] else PaidOrders(Init(paid)) + if Last(paid) then [|paid|] else []
  }

  function SearchSorted(xs: seq<int>, t: int): (r: nat)
    ensures r <= |xs|
  {
    BisectLeft(xs, t, 0, |xs|)
  }

  function SplitOrders(epochs: seq<int>, cutoff: int): (r: nat)
    ensures r <= |epochs|
  {
    SearchSorted(epochs, cutoff)
  }

  function SplitRows(orderIds: seq<int>, orderSplit: nat): (r: nat)
    ensures r <= |orderIds|
  {
    SearchSorted(orderIds, orderSplit + 1)
  }

  // ----- Sorted columns

  lemma EpochsAscending(sampled: seq<int>)
    ensures Ascending(OrderEpochs(sampled)) && |OrderEpochs(sampled)| == |sampled|
    ensures multiset(OrderEpochs(sampled)) == multiset(sampled)
  {
    SortSorts(sampled, EpochKey);
    var s := OrderEpochs(sampled);
    forall i, j | 0 <= i < j < |s| ensures s[i] <= s[j] {
      assert EpochKey(s[i]).AtMost(EpochKey(s[j]));
    }
  }

  lemma {:induction false} ItemOrdersRange(counts: seq<nat>)
    ensures Ascending(ItemOrders(counts))
    ensures forall k :: 0 <= k < |ItemOrders(counts)| ==> 1 <= ItemOrders(counts)[k] <= |counts|
  {
    if |counts| > 0 {
      ItemOrdersRange(Init(counts));
      var before := ItemOrders(Init(counts));
      forall i, j | 0 <= i < j < |ItemOrders(counts)| ensures ItemOrders(counts)[i] <= ItemOrders(counts)[j] {
        assert i < |before| ==> before[i] <= |counts|;
      }
    }
  }

  lemma {:induction false} PaidOrdersRange(paid: seq<bool>)
    ensures Ascending(PaidOrders(paid))
    ensures forall k :: 0 <= k < |PaidOrders(paid)| ==> 1 <= PaidOrders(paid)[k] <= |paid| && paid[PaidOrders(paid)[k] - 1]
  {
    if |paid| > 0 {
      PaidOrdersRange(Init(paid));
    }
  }

  /** Exactly the paid orders have a payment, each of them one. */
  lemma {:induction false} PaidOrdersIff(paid: seq<bool>)
    ensures forall i, j :: 0 <= i < j < |PaidOrders(paid)| ==> PaidOrders(paid)[i] < PaidOrders(paid)[j]
    ensures forall o :: 0 <= o < |paid| ==> (o + 1 in PaidOrders(paid) <==> paid[o])
  {
    if |paid| > 0 {
      var n, before := |paid| - 1, PaidOrders(Init(paid));
      PaidOrdersIff(Init(paid));
      PaidOrdersRange(Init(paid));
      forall o | 0 <= o < |paid| ensures o + 1 in PaidOrders(paid) <==> paid[o] {
        if o < n {
          assert o + 1 in before <==> Init(paid)[o];
        } else {
          assert forall k :: 0 <= k < |before| ==> before[k] != o + 1;
        }
      }
    }
  }

  lemma SearchSortedSplits(xs: seq<int>, t: int, k: nat)
    requires Ascending(xs) && k < |xs|
    ensures k < SearchSorted(xs, t) <==> xs[k] < t
  {
    BisectLeftSplits(xs, t, 0, |xs|);
  }

  // ----- References survive the split

  /** Old orders are exactly those created before the cutoff. */
  lemma OldOrdersIff(sampled: seq<int>, cutoff: int, o: nat)
    requires o < |sampled|
    ensures |OrderEpochs(sampled)| == |sampled| && multiset(OrderEpochs(sampled)) == multiset(sampled)
    ensures o < SplitOrders(OrderEpochs(sampled), cutoff) <==> OrderEpochs(sampled)[o] < cutoff
  {
    EpochsAscending(sampled);
    SearchSortedSplits(OrderEpochs(sampled), cutoff, o);
  }

  /** Every item lands on the side of its order. */
  lemma ItemsFollowOrders(sampled: seq<int>, cutoff: int, counts: seq<nat>, k: nat)
    requires |counts| == |sampled| && k < |ItemOrders(counts)|
    ensures |OrderEpochs(sampled)| == |sampled|
    ensures var epochs := OrderEpochs(sampled);
            && 1 <= ItemOrders(counts)[k] <= |epochs|
            && (k < SplitRows(ItemOrders(counts), SplitOrders(epochs, cutoff))
                <==> epochs[ItemOrders(counts)[k] - 1] < cutoff)
  {
    EpochsAscending(sampled);
    ItemOrdersRange(counts);
    var epochs := OrderEpochs(sampled);
    SearchSortedSplits(ItemOrders(counts), SplitOrders(epochs, cutoff) + 1, k);
    OldOrdersIff(sampled, cutoff, ItemOrders(counts)[k] - 1);
  }

  /** Every payment lands on the side of its order; exactly the paid orders have one, and only one. */
  lemma PaymentsFollowOrders(sampled: seq<int>, cutoff: int, paid: seq<bool>, k: nat)
    requires |paid| == |sampled| && k < |PaidOrders(paid)|
    ensures |OrderEpochs(sampled)| == |sampled|
    ensures var epochs := OrderEpochs(sampled);
            && 1 <= PaidOrders(paid)[k] <= |epochs| && paid[PaidOrders(paid)[k] - 1]
            && (k < SplitRows(PaidOrders(paid), SplitOrders(epochs, cutoff))
                <==> epochs[PaidOrders(paid)[k] - 1] < cutoff)
    ensures forall i, j :: 0 <= i < j < |PaidOrders(paid)| ==> PaidOrders(paid)[i] < PaidOrders(paid)[j]
    ensures forall o :: 0 <= o < |paid| ==> (o + 1 in PaidOrders(paid) <==> paid[o])
  {
    EpochsAscending(sampled);
    PaidOrdersRange(paid);
    PaidOrdersIff(paid);
    var epochs := OrderEpochs(sampled);
    SearchSortedSplits(PaidOrders(paid), SplitOrders(epochs, cutoff) + 1, k);
    OldOrdersIff(sampled, cutoff, PaidOrders(paid)[k] - 1);
  }

  // ----- Segments

  lemma OffsetStep(counts: seq<nat>, o: nat)
    requires o < |counts|
    ensures Offset(counts, o + 1) == Offset(counts, o) + counts[o]
  {
    assert counts[..o + 1] == counts[..o] + [counts[o]];
    InitAppend(counts[..o], counts[o]);
  }

  lemma {:induction false} OffsetMonotone(counts: seq<nat>, o: nat, p: nat)
    requires o <= p <= |counts|
    ensures Offset(counts, o) <= Offset(counts, p)
    ensures Offset(counts, |counts|) == Total(counts)
  {
    assert counts[..|counts|] == counts;
    if o < p {
      OffsetMonotone(counts, o, p - 1);
      OffsetStep(counts, p - 1);
    }
  }

  /** The items of order `o` are exactly the segment [Offset(o), Offset(o + 1)). */
  lemma {:induction false} SegmentOf(counts: seq<nat>, o: nat, k: nat)
    requires o < |counts| && k < |ItemOrders(counts)|
    ensures ItemOrders(counts)[k] == o + 1 <==> Offset(counts, o) <= k < Offset(counts, o + 1)
  {
    var init, n := Init(counts), |counts| - 1;
    ItemOrdersRange(init);
    assert counts[..n] == init && counts[..|counts|] == counts;
    if k < |ItemOrders(init)| {
      if o < n {
        SegmentOf(init, o, k);
        assert init[..o] == counts[..o] && init[..o + 1] == counts[..o + 1];
      }
    } else {
      OffsetMonotone(counts, o + 1, |counts|);
      if o < n {
        OffsetMonotone(counts, o + 1, n);
      }
    }
  }

  /** The sum of the items that name order `id`, among the first `n`. */
  function OwnTotal(amounts: seq<int>, itemOrders: seq<int>, id: int, n: nat): int
    requires n <= |amounts| && n <= |itemOrders|
  {
    if n == 0 then 0
    else OwnTotal(amounts, itemOrders, id, n - 1) + if itemOrders[n - 1] == id then amounts[n - 1] else 0
  }

  /** The amounts of order `o`'s items, in order. */
  function Segment(amounts: seq<int>, counts: seq<nat>, o: nat): seq<int>
    requires |amounts| == Total(counts) && o < |counts|
  {
    OffsetStep(counts, o);
    OffsetMonotone(counts, o + 1, |counts|);
    amounts[Offset(counts, o)..Offset(counts, o + 1)]
  }

  lemma {:induction false} OwnTotalSum(amounts: seq<int>, ids: seq<int>, id: int, from: nat, to: nat, n: nat)
    requires from <= to <= |amounts| == |ids| && n <= |amounts|
    requires forall k :: 0 <= k < |ids| ==> (ids[k] == id <==> from <= k < to)
    ensures OwnTotal(amounts, ids, id, n)
         == if n <= from then 0 else Sum(amounts[from..if n < to then n else to])
  {
    if n > 0 {
      OwnTotalSum(amounts, ids, id, from, to, n - 1);
      if from < n <= to {
        assert amounts[from..n] == amounts[from..n - 1] + [amounts[n - 1]];
        InitAppend(amounts[from..n - 1], amounts[n - 1]);
      }
    }
  }

  lemma OwnTotalIsSegment(amounts: seq<int>, counts: seq<nat>, o: nat)
    requires |amounts| == Total(counts) && o < |counts|
    ensures OwnTotal(amounts, ItemOrders(counts), o + 1, |amounts|) == Sum(Segment(amounts, counts, o))
  {
    hide Offset, ItemOrders;
    OffsetStep(counts, o);
    OffsetMonotone(counts, o + 1, |counts|);
    var from, to := Offset(counts, o), Offset(counts, o + 1);
    forall k | 0 <= k < |amounts| ensures ItemOrders(counts)[k] == o + 1 <==> from <= k < to {
      SegmentOf(counts, o, k);
    }
    OwnTotalSum(amounts, ItemOrders(counts), o + 1, from, to, |amounts|);
    if from == to {
      assert amounts[from..to] == [];
    }
  }

  // ----- Totals

  ghost predicate TotalsAreOwn(amounts: seq<int>, counts: seq<nat>)
    requires |amounts| == Total(counts)
  {
    var totals := ReduceAt(amounts, counts);
    && totals.Some?
    && forall o :: 0 <= o < |counts| ==>
         totals.value[o] == OwnTotal(amounts, ItemOrders(counts), o + 1, |amounts|)
  }

  /** A segment that is not empty is summed; an empty one yields its neighbour's amount. */
  lemma ReduceAtSegment(amounts: seq<int>, counts: seq<nat>, o: nat)
    requires |amounts| == Total(counts) && o < |counts| && ReduceAt(amounts, counts).Some?
    ensures Offset(counts, o) < |amounts|
    ensures ReduceAt(amounts, counts).value[o]
         == if counts[o] > 0 then Sum(Segment(amounts, counts, o)) else amounts[Offset(counts, o)]
  {
    hide Offset, Sum, Total;
    OffsetStep(counts, o);
    OffsetMonotone(counts, o + 1, |counts|);
  }

  lemma TotalOfOrder(amounts: seq<int>, counts: seq<nat>, o: nat)
    requires |amounts| == Total(counts) && o < |counts| && ReduceAt(amounts, counts).Some?
    ensures Offset(counts, o) < |amounts|
    ensures counts[o] > 0 ==> ReduceAt(amounts, counts).value[o] == OwnTotal(amounts, ItemOrders(counts), o + 1, |amounts|)
    ensures counts[o] == 0 ==> OwnTotal(amounts, ItemOrders(counts), o + 1, |amounts|) == 0
    ensures counts[o] == 0 ==> ReduceAt(amounts, counts).value[o] == amounts[Offset(counts, o)]
  {
    hide Offset, ReduceAt, ItemOrders, OwnTotal;
    ReduceAtSegment(amounts, counts, o);
    OwnTotalIsSegment(amounts, counts, o);
    OffsetStep(counts, o);
    if counts[o] == 0 {
      assert Segment(amounts, counts, o) == [];
    }
  }

  lemma {:induction false} PositiveOffsets(counts: seq<nat>, o: nat)
    requires o < |counts| && counts[o] > 0
    ensures Offset(counts, o) < Total(counts)
  {
    OffsetStep(counts, o);
    OffsetMonotone(counts, o + 1, |counts|);
  }

  /** With positive amounts the segmented sums are the orders' own totals exactly
      when every order has at least one item. */
  lemma TotalsAreOwnIff(amounts: seq<int>, counts: seq<nat>)
    requires |amounts| == Total(counts)
    requires forall k :: 0 <= k < |amounts| ==> amounts[k] > 0
    ensures TotalsAreOwn(amounts, counts) <==> forall o :: 0 <= o < |counts| ==> counts[o] >= 1
  {
    hide Offset, OwnTotal, ItemOrders;
    if forall o :: 0 <= o < |counts| ==> counts[o] >= 1 {
      forall o | 0 <= o < |counts| ensures Offset(counts, o) < |amounts| {
        PositiveOffsets(counts, o);
      }
      forall o | 0 <= o < |counts|
        ensures ReduceAt(amounts, counts).value[o] == OwnTotal(amounts, ItemOrders(counts), o + 1, |amounts|)
      {
        TotalOfOrder(amounts, counts, o);
      }
    } else if ReduceAt(amounts, counts).Some? {
      var o :| 0 <= o < |counts| && counts[o] == 0;
      TotalOfOrder(amounts, counts, o);
    }
  }

  lemma {:induction false} SegmentsSum(amounts: seq<int>, counts: seq<nat>, totals: seq<int>, o: nat)
    requires |amounts| == Total(counts) && |totals| == |counts| && o <= |counts|
    requires forall p :: 0 <= p < |counts| ==> totals[p] == Sum(Segment(amounts, counts, p))
    ensures Offset(counts, o) <= |amounts|
    ensures Sum(totals[..o]) == Sum(amounts[..Offset(counts, o)])
  {
    OffsetMonotone(counts, o, |counts|);
    if o > 0 {
      SegmentsSum(amounts, counts, totals, o - 1);
      SegmentJoins(amounts, counts, o - 1);
      assert totals[..o] == totals[..o - 1] + [totals[o - 1]];
      InitAppend(totals[..o - 1], totals[o - 1]);
    } else {
      assert counts[..0] == [] && totals[..0] == [];
    }
  }

  lemma SegmentJoins(amounts: seq<int>, counts: seq<nat>, o: nat)
    requires |amounts| == Total(counts) && o < |counts|
    ensures Offset(counts, o) <= Offset(counts, o + 1) <= |amounts|
    ensures Sum(amounts[..Offset(counts, o + 1)]) == Sum(amounts[..Offset(counts, o)]) + Sum(Segment(amounts, counts, o))
  {
    hide Offset;
    OffsetStep(counts, o);
    OffsetMonotone(counts, o + 1, |counts|);
    var from, to := Offset(counts, o), Offset(counts, o + 1);
    assert amounts[..to] == amounts[..from] + amounts[from..to];
    SumAppend(amounts[..from], amounts[from..to]);
  }

  /** No money is lost between items and orders. */
  lemma GrandTotalConserved(amounts: seq<int>, counts: seq<nat>)
    requires |amounts| == Total(counts)
    requires forall o :: 0 <= o < |counts| ==> counts[o] >= 1
    ensures ReduceAt(amounts, counts).Some? && Sum(ReduceAt(amounts, counts).value) == Sum(amounts)
  {
    hide Offset, Segment;
    forall o | 0 <= o < |counts| ensures Offset(counts, o) < |amounts| {
      PositiveOffsets(counts, o);
    }
    var totals := ReduceAt(amounts, counts).value;
    forall p | 0 <= p < |counts| ensures totals[p] == Sum(Segment(amounts, counts, p)) {
      ReduceAtSegment(amounts, counts, p);
    }
    SegmentsSum(amounts, counts, totals, |counts|);
    OffsetMonotone(counts, 0, |counts|);
    assert totals[..|counts|] == totals && amounts[..|amounts|] == amounts;
  }
}
