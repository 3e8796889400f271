/** What the event generator draws before it emits anything: shops, products, their
    listings, and the delists and relists of some of them.  Times are in microseconds. */
module Catalog {
  import opened Basics
  import opened Sequences
  import opened EventLog

  const SECOND := 1_000_000
  const HOUR := 3600 * SECOND
  const DAY := 86400 * SECOND
  const T0 := 1704067200 * SECOND
  const T1 := 1767225600 * SECOND

  datatype Shop = Shop(code: Code, name: Text, country: Text, tier: Text, registered: int)

  datatype Product = Product(code: Code, title: Text, brand: Text, category: Text, birth: int)

  datatype Listing = Listing(s: nat, p: nat, discovered: int, delist: Option<int>, relist: Option<int>)

  datatype World = World(shops: seq<Shop>, products: seq<Product>, listings: seq<Listing>)

  /** lo + rng.random() * span for the draw `x`; every value of the range has a draw. */
  function Pick(lo: int, span: int, x: nat): int {
    if span > 0 then lo + x % span else lo
  }

  /** round(t) to whole seconds, half to even. */
  function RoundSecond(t: int): int {
    var q, r := t / SECOND, t % SECOND;
    if 2 * r < SECOND || (2 * r == SECOND && q % 2 == 0) then q else q + 1
  }

  /** The rounding yields the one nearest second, the even one of two equally near. */
  lemma RoundSecondIsNearest(t: int, s: int)
    ensures s == RoundSecond(t)
       <==> -500_000 <= t - 1_000_000 * s <= 500_000 && ((t - 1_000_000 * s == 500_000 || t - 1_000_000 * s == -500_000) ==> s % 2 == 0)
  {
  }

  lemma RoundMonotone(a: int, b: int)
    ensures a <= b ==> RoundSecond(a) <= RoundSecond(b)
    ensures a + 2 * SECOND <= b ==> RoundSecond(a) < RoundSecond(b)
    ensures a - SECOND <= RoundSecond(a) * SECOND <= a + SECOND
    ensures a % SECOND == 0 ==> RoundSecond(a) * SECOND == a
  {
  }

  // ----- Listings

  ghost predicate DistinctCodes(w: World) {
    && (forall i, j :: 0 <= i < j < |w.shops| ==> w.shops[i].code != w.shops[j].code)
    && (forall i, j :: 0 <= i < j < |w.products| ==> w.products[i].code != w.products[j].code)
  }

  ghost predicate DistinctListings(listings: seq<Listing>) {
    forall i, j :: 0 <= i < j < |listings| ==> (listings[i].s, listings[i].p) != (listings[j].s, listings[j].p)
  }

  ghost predicate ListingFresh(w: World, l: Listing) {
    && l.s < |w.shops| && l.p < |w.products|
    && w.shops[l.s].registered + DAY <= l.discovered <= T1 - 30 * DAY
    && w.products[l.p].birth <= l.discovered
  }

  /** One shop drawn for a product, and the waiting time drawn with it. */
  datatype ListingDraw = ListingDraw(s: nat, wait: nat)

  /** The listing that a draw for product `p` stands for, if its discovery is not too late. */
  function ListingAt(shops: seq<Shop>, products: seq<Product>, p: nat, u: ListingDraw): Option<Listing>
    requires p < |products| && u.s < |shops|
  {
    var disc := Max(products[p].birth, shops[u.s].registered + 1 * DAY) + u.wait;
    if disc > T1 - 30 * DAY then None else Some(Listing(u.s, p, disc, None, None))
  }

  /** A listing is discovered the drawn waiting time after the later of its product's birth
      and the day after its shop's registration. */
  lemma DiscoveredWhen(shops: seq<Shop>, products: seq<Product>, p: nat, u: ListingDraw)
    requires p < |products| && u.s < |shops|
    ensures var l := ListingAt(shops, products, p, u);
            var a, b := products[p].birth + u.wait, shops[u.s].registered + 86400 * SECOND + u.wait;
            && (l.Some? <==> a <= T1 - 30 * DAY && b <= T1 - 30 * DAY)
            && (l.Some? ==> l.value.s == u.s && l.value.p == p
                            && a <= l.value.discovered && b <= l.value.discovered && l.value.discovered in {a, b})
  {
  }

  ghost predicate ShopsDrawn(shops: seq<Shop>, us: seq<ListingDraw>) {
    && (forall k :: 0 <= k < |us| ==> us[k].s < |shops|)
    && (forall j, k :: 0 <= j < k < |us| ==> us[j].s != us[k].s)
  }

  /** Per product, shops drawn without replacement. */
  ghost predicate ListingsDrawn(shops: seq<Shop>, products: seq<Product>, drawn: seq<seq<ListingDraw>>) {
    && |drawn| == |products|
    && forall p :: 0 <= p < |drawn| ==> ShopsDrawn(shops, drawn[p])
  }

  /** The listings of the first `k` draws for product `p`. */
  ghost function ProductListings(shops: seq<Shop>, products: seq<Product>, p: nat, us: seq<ListingDraw>, k: nat): seq<Listing>
    requires p < |products| && k <= |us| && ShopsDrawn(shops, us)
  {
    if k == 0 then []
    else
      var l := ListingAt(shops, products, p, us[k - 1]);
      ProductListings(shops, products, p, us, k - 1) + if l.Some? then [l.value] else []
  }

  /** The listings of the first `n` products. */
  ghost function ListingsOf(shops: seq<Shop>, products: seq<Product>, drawn: seq<seq<ListingDraw>>, n: nat): seq<Listing>
    requires ListingsDrawn(shops, products, drawn) && n <= |products|
  {
    if n == 0 then []
    else ListingsOf(shops, products, drawn, n - 1)
         + ProductListings(shops, products, n - 1, drawn[n - 1], |drawn[n - 1]|)
  }

  /** For each product, shops drawn without replacement; a discovery too late in the span is skipped. */
  method BuildListings(shops: seq<Shop>, products: seq<Product>, drawn: seq<seq<ListingDraw>>) returns (listings: seq<Listing>)
    requires ListingsDrawn(shops, products, drawn)
    ensures listings == ListingsOf(shops, products, drawn, |products|)
  {
    listings := [];
    for p := 0 to |products|
      invariant listings == ListingsOf(shops, products, drawn, p)
    {
      ghost var before := listings;
      for k := 0 to |drawn[p]|
        invariant listings == before + ProductListings(shops, products, p, drawn[p], k)
      {
        var l := ListingAt(shops, products, p, drawn[p][k]);
        if l.Some? {
          listings := listings + [l.value];
        }
      }
    }
  }

  lemma {:induction false} ProductListingsAre(shops: seq<Shop>, products: seq<Product>, p: nat, us: seq<ListingDraw>, k: nat, l: Listing)
    requires p < |products| && k <= |us| && ShopsDrawn(shops, us)
    ensures l in ProductListings(shops, products, p, us, k)
       <==> exists j :: 0 <= j < k && ListingAt(shops, products, p, us[j]) == Some(l)
  {
    if k > 0 {
      ProductListingsAre(shops, products, p, us, k - 1, l);
    }
  }

  /** A listing exists exactly if it is what one of the draws stands for. */
  lemma {:induction false} ListingsAreDrawn(shops: seq<Shop>, products: seq<Product>, drawn: seq<seq<ListingDraw>>, n: nat, l: Listing)
    requires ListingsDrawn(shops, products, drawn) && n <= |products|
    ensures l in ListingsOf(shops, products, drawn, n)
       <==> exists p, k :: 0 <= p < n && 0 <= k < |drawn[p]| && ListingAt(shops, products, p, drawn[p][k]) == Some(l)
  {
    if n > 0 {
      ListingsAreDrawn(shops, products, drawn, n - 1, l);
      ProductListingsAre(shops, products, n - 1, drawn[n - 1], |drawn[n - 1]|, l);
    }
  }

  lemma {:induction false} ProductListingsDistinct(shops: seq<Shop>, products: seq<Product>, p: nat, us: seq<ListingDraw>, k: nat)
    requires p < |products| && k <= |us| && ShopsDrawn(shops, us)
    ensures DistinctListings(ProductListings(shops, products, p, us, k))
  {
    if k > 0 {
      ProductListingsDistinct(shops, products, p, us, k - 1);
      var had := ProductListings(shops, products, p, us, k - 1);
      forall i | 0 <= i < |had| ensures had[i].s != us[k - 1].s {
        ProductListingsAre(shops, products, p, us, k - 1, had[i]);
      }
    }
  }

  lemma {:induction false} ListingsDistinct(shops: seq<Shop>, products: seq<Product>, drawn: seq<seq<ListingDraw>>, n: nat)
    requires ListingsDrawn(shops, products, drawn) && n <= |products|
    ensures DistinctListings(ListingsOf(shops, products, drawn, n))
  {
    if n > 0 {
      ListingsDistinct(shops, products, drawn, n - 1);
      ProductListingsDistinct(shops, products, n - 1, drawn[n - 1], |drawn[n - 1]|);
      var had := ListingsOf(shops, products, drawn, n - 1);
      var more := ProductListings(shops, products, n - 1, drawn[n - 1], |drawn[n - 1]|);
      forall i | 0 <= i < |had| ensures had[i].p < n - 1 {
        ListingsAreDrawn(shops, products, drawn, n - 1, had[i]);
      }
      forall i | 0 <= i < |more| ensures more[i].p == n - 1 {
        ProductListingsAre(shops, products, n - 1, drawn[n - 1], |drawn[n - 1]|, more[i]);
      }
    }
  }

  predicate New(l: Listing) {
    l.delist.None? && l.relist.None?
  }

  /** Every listing keeps its distance to the shop, the product and the end, and has no lifecycle yet. */
  lemma ListingsFresh(shops: seq<Shop>, products: seq<Product>, drawn: seq<seq<ListingDraw>>, l: Listing)
    requires ListingsDrawn(shops, products, drawn) && l in ListingsOf(shops, products, drawn, |products|)
    ensures ListingFresh(World(shops, products, []), l) && New(l)
  {
    ListingsAreDrawn(shops, products, drawn, |products|, l);
  }

  // ----- Delist and relist

  ghost predicate LifecycleOrdered(l: Listing) {
    && (l.delist.Some? ==> l.discovered + 30 * DAY <= l.delist.value <= T1 - 20 * DAY)
    && (l.relist.Some? ==> l.delist.Some? && l.delist.value + 10 * DAY <= l.relist.value < T1 - 5 * DAY)
  }

  /** A delist can be scheduled at all. */
  predicate Delistable(l: Listing) {
    l.discovered + 30 * DAY <= T1 - 20 * DAY
  }

  /** The earliest delist is before day 580: the listing can be one of the recovered ones. */
  predicate Early(l: Listing) {
    l.discovered + 30 * DAY < T0 + 580 * DAY
  }

  /** The earliest delist is from day 580 on and before day 700: it can only be churned. */
  predicate Middling(l: Listing) {
    T0 + 580 * DAY <= l.discovered + 30 * DAY < T0 + 700 * DAY
  }

  /** Delisted for good at a time written as one in 2025. */
  predicate Churns(l: Listing) {
    l.delist.Some? && l.relist.None? && YEAR_FROM <= RoundSecond(l.delist.value) < YEAR_TO
  }

  /** How many listings have been recovered and churned by force. */
  datatype Forced = Forced(recovered: nat, churned: nat)

  /** The draws for one chosen listing: the delist, whether and when it relists. */
  datatype LifeDraw = LifeDraw(at: nat, again: bool, wait: nat)

  function NextLife(l: Listing, f: Forced, u: LifeDraw): (Listing, Forced) {
    var lo := l.discovered + 30 * DAY;
    var from := Max(lo, T0 + 400 * DAY);
    if lo > T1 - 20 * DAY then (l, f)
    else if f.recovered < 5 && from < T0 + 580 * DAY then
      var d := Pick(from, T0 + 580 * DAY - from, u.at);
      (l.(delist := Some(d), relist := Some(Pick(d + 10 * DAY, 40 * DAY, u.wait))), f.(recovered := f.recovered + 1))
    else if f.churned < 4 && from < T0 + 700 * DAY then
      (l.(delist := Some(Pick(from, T0 + 700 * DAY - from, u.at))), f.(churned := f.churned + 1))
    else
      var d := Pick(lo, T1 - 20 * DAY - lo, u.at);
      var r := Pick(d + 10 * DAY, 65 * DAY, u.wait);
      (l.(delist := Some(d), relist := if u.again && r < T1 - 5 * DAY then Some(r) else l.relist), f)
  }

  /** One chosen listing: skipped, recovered (the first five that can), churned (the
      next four that can), or delisted at random and maybe relisted. */
  method DrawLifecycle(listing: Listing, forcedRecover: nat, forcedChurn: nat, u: LifeDraw)
    returns (li: Listing, recovered: nat, churned: nat)
    ensures (li, Forced(recovered, churned)) == NextLife(listing, Forced(forcedRecover, forcedChurn), u)
  {
    li, recovered, churned := listing, forcedRecover, forcedChurn;
    var lo := li.discovered + 30 * DAY;
    if lo > T1 - 20 * DAY {
      return;
    }
    if recovered < 5 {
      var dLo, dHi := Max(lo, T0 + 400 * DAY), T0 + 580 * DAY;
      if dLo < dHi {
        var d := Pick(dLo, dHi - dLo, u.at);
        li := li.(delist := Some(d), relist := Some(Pick(d + 10 * DAY, 40 * DAY, u.wait)));
        recovered := recovered + 1;
        return;
      }
    }
    if churned < 4 {
      var dLo, dHi := Max(lo, T0 + 400 * DAY), T0 + 700 * DAY;
      if dLo < dHi {
        li := li.(delist := Some(Pick(dLo, dHi - dLo, u.at)));
        churned := churned + 1;
        return;
      }
    }
    var d := Pick(lo, T1 - 20 * DAY - lo, u.at);
    li := li.(delist := Some(d));
    if u.again {
      var r := Pick(d + 10 * DAY, 65 * DAY, u.wait);
      if r < T1 - 5 * DAY {
        li := li.(relist := Some(r));
      }
    }
  }

  lemma PickInRange(lo: int, span: int, x: nat)
    ensures span > 0 ==> lo <= Pick(lo, span, x) < lo + span
    ensures span <= 0 ==> Pick(lo, span, x) == lo
  {
  }

  /** What the draws can do to a listing: the delist comes exactly if there is room;
      an early listing is recovered while fewer than five are, and after that an early
      or middling one is churned while fewer than four are. */
  lemma LifeOfOne(l: Listing, f: Forced, u: LifeDraw)
    requires New(l)
    ensures var (li, g) := NextLife(l, f, u);
            && li == l.(delist := li.delist, relist := li.relist) && LifecycleOrdered(li)
            && (li.delist.Some? <==> Delistable(l))
            && (Early(l) && f.recovered < 5 ==> g == f.(recovered := f.recovered + 1) && li.relist.Some?)
            && ((Early(l) && f.recovered >= 5) || Middling(l) ==>
                  if f.churned < 4 then g == f.(churned := f.churned + 1) && Churns(li) else g == f)
            && (!Early(l) && !Middling(l) ==> g == f)
  {
    var lo := l.discovered + 30 * DAY;
    var from := Max(lo, T0 + 400 * DAY);
    PickInRange(from, T0 + 580 * DAY - from, u.at);
    PickInRange(from, T0 + 700 * DAY - from, u.at);
    PickInRange(Pick(from, T0 + 580 * DAY - from, u.at) + 10 * DAY, 40 * DAY, u.wait);
    var d := Pick(lo, T1 - 20 * DAY - lo, u.at);
    PickInRange(lo, T1 - 20 * DAY - lo, u.at);
    PickInRange(d + 10 * DAY, 65 * DAY, u.wait);
    hide Pick;
  }

  /** Who is delisted and who by force, in days: all but those within 50 days of the end;
      five that can go before day 580 are recovered, and of the others four that can go before
      day 700 are churned. */
  lemma WhoIsForced(l: Listing, f: Forced, u: LifeDraw)
    requires New(l)
    ensures var (li, g) := NextLife(l, f, u);
            && (li.delist.None? <==> l.discovered + 50 * DAY > T1)
            && g.recovered == f.recovered + (if f.recovered < 5 && l.discovered < T0 + 550 * DAY then 1 else 0)
            && g.churned == f.churned + (if f.churned < 4 && l.discovered < T0 + 670 * DAY
                                            && (f.recovered >= 5 || l.discovered >= T0 + 550 * DAY) then 1 else 0)
  {
    hide Pick;
  }

  /** What can be drawn for a listing: these times and no others. */
  ghost predicate CanGet(l: Listing, f: Forced, delist: int, relist: Option<int>) {
    exists u: LifeDraw :: Gets(l, f, u, delist, relist)
  }

  ghost predicate Gets(l: Listing, f: Forced, u: LifeDraw, delist: int, relist: Option<int>) {
    NextLife(l, f, u).0 == l.(delist := Some(delist), relist := relist)
  }

  lemma PickReaches(lo: int, span: int, x: nat)
    requires x < span
    ensures Pick(lo, span, x) == lo + x
  {
  }

  ghost predicate RecoverTimes(l: Listing, delist: int, relist: Option<int>) {
    && l.discovered + 30 * DAY <= delist && T0 + 400 * DAY <= delist < T0 + 580 * DAY
    && relist.Some? && delist + 10 * DAY <= relist.value < delist + 50 * DAY
  }

  lemma RecoverWithin(l: Listing, f: Forced, u: LifeDraw, delist: int, relist: Option<int>)
    requires Early(l) && f.recovered < 5 && Gets(l, f, u, delist, relist)
    ensures RecoverTimes(l, delist, relist)
  {
    var from := Max(l.discovered + 30 * DAY, T0 + 400 * DAY);
    PickInRange(from, T0 + 580 * DAY - from, u.at);
    PickInRange(delist + 10 * DAY, 40 * DAY, u.wait);
    hide Pick;
  }

  lemma RecoverReached(l: Listing, f: Forced, delist: int, relist: Option<int>)
    requires Early(l) && f.recovered < 5 && RecoverTimes(l, delist, relist)
    ensures CanGet(l, f, delist, relist)
  {
    var from := Max(l.discovered + 30 * DAY, T0 + 400 * DAY);
    var u := LifeDraw(delist - from, false, relist.value - delist - 10 * DAY);
    PickReaches(from, T0 + 580 * DAY - from, u.at);
    PickReaches(delist + 10 * DAY, 40 * DAY, u.wait);
    hide Pick;
    assert Gets(l, f, u, delist, relist);
  }

  /** A recovered listing goes from day 400 on and before day 580, and is back after ten to fifty days. */
  lemma RecoveredAre(l: Listing, f: Forced, delist: int, relist: Option<int>)
    requires Early(l) && f.recovered < 5
    ensures CanGet(l, f, delist, relist) <==>
              && l.discovered + 30 * DAY <= delist && T0 + 400 * DAY <= delist < T0 + 580 * DAY
              && relist.Some? && delist + 10 * DAY <= relist.value < delist + 50 * DAY
  {
    hide Gets;
    if CanGet(l, f, delist, relist) {
      var u :| Gets(l, f, u, delist, relist);
      RecoverWithin(l, f, u, delist, relist);
    }
    if RecoverTimes(l, delist, relist) {
      RecoverReached(l, f, delist, relist);
    }
  }

  lemma ChurnWithin(l: Listing, f: Forced, u: LifeDraw, delist: int, relist: Option<int>)
    requires New(l) && f.churned < 4 && (Middling(l) || (Early(l) && f.recovered >= 5))
    requires Gets(l, f, u, delist, relist)
    ensures l.discovered + 30 * DAY <= delist && T0 + 400 * DAY <= delist < T0 + 700 * DAY && relist.None?
  {
    var from := Max(l.discovered + 30 * DAY, T0 + 400 * DAY);
    PickInRange(from, T0 + 700 * DAY - from, u.at);
    hide Pick;
  }

  /** A churned listing goes from day 400 on and before day 700, for good. */
  lemma ChurnedAre(l: Listing, f: Forced, delist: int, relist: Option<int>)
    requires New(l) && f.churned < 4 && (Middling(l) || (Early(l) && f.recovered >= 5))
    ensures CanGet(l, f, delist, relist) <==>
              l.discovered + 30 * DAY <= delist && T0 + 400 * DAY <= delist < T0 + 700 * DAY && relist.None?
  {
    var from := Max(l.discovered + 30 * DAY, T0 + 400 * DAY);
    if from <= delist < T0 + 700 * DAY && relist.None? {
      var u := LifeDraw(delist - from, false, 0);
      PickReaches(from, T0 + 700 * DAY - from, u.at);
      hide Pick;
      assert Gets(l, f, u, delist, relist);
    }
    hide Gets;
    if CanGet(l, f, delist, relist) {
      var u :| Gets(l, f, u, delist, relist);
      ChurnWithin(l, f, u, delist, relist);
    }
  }

  /** Not one of the forced ones. */
  predicate FreeDraw(l: Listing, f: Forced) {
    Delistable(l) && (Early(l) ==> f.recovered >= 5 && f.churned >= 4) && (Middling(l) ==> f.churned >= 4)
  }

  ghost predicate FreeTimes(l: Listing, delist: int, relist: Option<int>) {
    && l.discovered + 30 * DAY <= delist && (delist < T1 - 20 * DAY || delist == l.discovered + 30 * DAY)
    && (relist.Some? ==> delist + 10 * DAY <= relist.value < delist + 75 * DAY && relist.value < T1 - 5 * DAY)
  }

  lemma FreeWithin(l: Listing, f: Forced, u: LifeDraw, delist: int, relist: Option<int>)
    requires New(l) && FreeDraw(l, f) && Gets(l, f, u, delist, relist)
    ensures FreeTimes(l, delist, relist)
  {
    var lo := l.discovered + 30 * DAY;
    PickInRange(lo, T1 - 20 * DAY - lo, u.at);
    PickInRange(delist + 10 * DAY, 65 * DAY, u.wait);
    hide Pick;
  }

  lemma FreeReached(l: Listing, f: Forced, delist: int, relist: Option<int>)
    requires New(l) && FreeDraw(l, f) && FreeTimes(l, delist, relist)
    ensures CanGet(l, f, delist, relist)
  {
    var lo := l.discovered + 30 * DAY;
    var u := LifeDraw(delist - lo, relist.Some?, if relist.Some? then relist.value - delist - 10 * DAY else 0);
    if delist < T1 - 20 * DAY {
      PickReaches(lo, T1 - 20 * DAY - lo, u.at);
    } else {
      PickInRange(lo, T1 - 20 * DAY - lo, u.at);
    }
    PickReaches(delist + 10 * DAY, 65 * DAY, u.wait);
    hide Pick;
    assert Gets(l, f, u, delist, relist);
  }

  /** Any other listing with room goes up to 20 days before the end, for good or for ten to
      75 days, but never back in the last five days. */
  lemma FreelyDrawnAre(l: Listing, f: Forced, delist: int, relist: Option<int>)
    requires New(l) && FreeDraw(l, f)
    ensures CanGet(l, f, delist, relist) <==>
              && l.discovered + 30 * DAY <= delist && (delist < T1 - 20 * DAY || delist == l.discovered + 30 * DAY)
              && (relist.Some? ==> delist + 10 * DAY <= relist.value < delist + 75 * DAY && relist.value < T1 - 5 * DAY)
  {
    hide Gets, FreeDraw;
    if CanGet(l, f, delist, relist) {
      var u :| Gets(l, f, u, delist, relist);
      FreeWithin(l, f, u, delist, relist);
    }
    if FreeTimes(l, delist, relist) {
      FreeReached(l, f, delist, relist);
    }
  }

  ghost predicate Chosen(listings: seq<Listing>, chosen: seq<nat>) {
    Indexes(chosen, |listings|)
  }

  /** The listings and counters after the first `n` chosen ones. */
  ghost function Lives(listings: seq<Listing>, chosen: seq<nat>, us: seq<LifeDraw>, n: nat): (r: (seq<Listing>, Forced))
    requires Chosen(listings, chosen) && |us| == |chosen| && n <= |chosen|
    ensures |r.0| == |listings|
  {
    if n == 0 then (listings, Forced(0, 0))
    else
      var (before, f) := Lives(listings, chosen, us, n - 1);
      var (li, g) := NextLife(before[chosen[n - 1]], f, us[n - 1]);
      (before[chosen[n - 1] := li], g)
  }

  /** Delists some of the chosen listings and relists some of those, in place. */
  method AssignLifecycle(listings: array<Listing>, chosen: seq<nat>, us: seq<LifeDraw>)
    requires Chosen(listings[..], chosen) && |us| == |chosen|
    modifies listings
    ensures listings[..] == Lives(old(listings[..]), chosen, us, |chosen|).0
  {
    ghost var start := listings[..];
    var forcedRecover, forcedChurn: nat := 0, 0;
    hide NextLife;
    for j := 0 to |chosen|
      invariant (listings[..], Forced(forcedRecover, forcedChurn)) == Lives(start, chosen, us, j)
    {
      var c := chosen[j];
      var li;
      li, forcedRecover, forcedChurn := DrawLifecycle(listings[c], forcedRecover, forcedChurn, us[j]);
      listings[c] := li;
    }
  }

  // ----- What the lifecycle draws can do to all listings

  ghost function EarlyCount(listings: seq<Listing>, chosen: seq<nat>, n: nat): nat
    requires Chosen(listings, chosen) && n <= |chosen|
  {
    if n == 0 then 0
    else EarlyCount(listings, chosen, n - 1) + if Early(listings[chosen[n - 1]]) then 1 else 0
  }

  ghost function MiddlingCount(listings: seq<Listing>, chosen: seq<nat>, n: nat): nat
    requires Chosen(listings, chosen) && n <= |chosen|
  {
    if n == 0 then 0
    else MiddlingCount(listings, chosen, n - 1) + if Middling(listings[chosen[n - 1]]) then 1 else 0
  }

  /** How many of the chosen listings have been candidates for a forced churn. */
  ghost function ChurnCandidates(listings: seq<Listing>, chosen: seq<nat>, n: nat): int
    requires Chosen(listings, chosen) && n <= |chosen|
  {
    Max(EarlyCount(listings, chosen, n) - 5, 0) + MiddlingCount(listings, chosen, n)
  }

  /** Listing `i` after the first `n` chosen ones have had their draws. */
  ghost predicate LivedAt(listings: seq<Listing>, chosen: seq<nat>, after: seq<Listing>, n: nat, i: nat)
    requires n <= |chosen| && i < |listings| == |after|
  {
    var l, li := listings[i], after[i];
    && li == l.(delist := li.delist, relist := li.relist) && LifecycleOrdered(li)
    && (li.delist.Some? <==> i in chosen[..n] && Delistable(l))
    && (i !in chosen[..n] ==> li == l)
  }

  /** Every draw delists exactly the chosen listings with room, and changes nothing else. */
  lemma {:induction false} LivesKept(listings: seq<Listing>, chosen: seq<nat>, us: seq<LifeDraw>, n: nat, i: nat)
    requires Chosen(listings, chosen) && Distinct(chosen) && |us| == |chosen| && n <= |chosen|
    requires i < |listings| && forall j :: 0 <= j < |listings| ==> New(listings[j])
    ensures LivedAt(listings, chosen, Lives(listings, chosen, us, n).0, n, i)
  {
    if n > 0 {
      var (before, f) := Lives(listings, chosen, us, n - 1);
      var c := chosen[n - 1];
      LivesKept(listings, chosen, us, n - 1, i);
      assert chosen[..n] == chosen[..n - 1] + [c];
      assert c !in chosen[..n - 1];
      LifeOfOne(listings[c], f, us[n - 1]);
      hide NextLife, Delistable, LifecycleOrdered;
    }
  }

  lemma ChosenUntouched(listings: seq<Listing>, chosen: seq<nat>, us: seq<LifeDraw>, n: nat)
    requires Chosen(listings, chosen) && Distinct(chosen) && |us| == |chosen| && n < |chosen|
    requires forall j :: 0 <= j < |listings| ==> New(listings[j])
    ensures Lives(listings, chosen, us, n).0[chosen[n]] == listings[chosen[n]]
  {
    LivesKept(listings, chosen, us, n, chosen[n]);
    hide Lives;
    assert chosen[n] !in chosen[..n];
  }

  /** Every draw forces as many recoveries and churns as there are candidates, up to five and four. */
  lemma {:induction false} ForcedAre(listings: seq<Listing>, chosen: seq<nat>, us: seq<LifeDraw>, n: nat)
    requires Chosen(listings, chosen) && Distinct(chosen) && |us| == |chosen| && n <= |chosen|
    requires forall j :: 0 <= j < |listings| ==> New(listings[j])
    ensures var f := Lives(listings, chosen, us, n).1;
            && f.recovered == Min(EarlyCount(listings, chosen, n), 5)
            && f.churned == Min(ChurnCandidates(listings, chosen, n), 4)
  {
    if n > 0 {
      ForcedAre(listings, chosen, us, n - 1);
      ChosenUntouched(listings, chosen, us, n - 1);
      LifeOfOne(listings[chosen[n - 1]], Lives(listings, chosen, us, n - 1).1, us[n - 1]);
      hide NextLife, Churns, Delistable, LifecycleOrdered;
    }
  }

  ghost predicate SomeChurns(listings: seq<Listing>) {
    exists i :: 0 <= i < |listings| && Churns(listings[i])
  }

  lemma {:induction false} ForcedChurns(listings: seq<Listing>, chosen: seq<nat>, us: seq<LifeDraw>, n: nat)
    requires Chosen(listings, chosen) && Distinct(chosen) && |us| == |chosen| && n <= |chosen|
    requires forall j :: 0 <= j < |listings| ==> New(listings[j])
    ensures Lives(listings, chosen, us, n).1.churned > 0 ==> SomeChurns(Lives(listings, chosen, us, n).0)
  {
    if n > 0 {
      var (before, f) := Lives(listings, chosen, us, n - 1);
      var c := chosen[n - 1];
      ForcedChurns(listings, chosen, us, n - 1);
      ChosenUntouched(listings, chosen, us, n - 1);
      LifeOfOne(listings[c], f, us[n - 1]);
      hide NextLife, Churns, LifecycleOrdered;
      var (after, g) := Lives(listings, chosen, us, n);
      if f.churned > 0 {
        var i :| 0 <= i < |before| && Churns(before[i]);
        assert i != c;
        assert after[i] == before[i];
      } else if g.churned > 0 {
        assert Churns(after[c]);
      }
    }
  }

  // ----- When a churn is certain

  /** Six early listings among the chosen, or one whose earliest delist is from day 580 on and before day 700. */
  ghost predicate ForcesChurn(listings: seq<Listing>, chosen: seq<nat>)
    requires Chosen(listings, chosen)
  {
    EarlyCount(listings, chosen, |chosen|) >= 6 || exists j :: 0 <= j < |chosen| && Middling(listings[chosen[j]])
  }

  lemma {:induction false} MiddlingExists(listings: seq<Listing>, chosen: seq<nat>, n: nat)
    requires Chosen(listings, chosen) && n <= |chosen|
    ensures MiddlingCount(listings, chosen, n) > 0 <==> exists j :: 0 <= j < n && Middling(listings[chosen[j]])
  {
    if n > 0 {
      MiddlingExists(listings, chosen, n - 1);
    }
  }

  lemma {:induction false} CandidatesGrow(listings: seq<Listing>, chosen: seq<nat>, m: nat, n: nat)
    requires Chosen(listings, chosen) && m <= n <= |chosen|
    ensures EarlyCount(listings, chosen, m) <= EarlyCount(listings, chosen, n)
    ensures ChurnCandidates(listings, chosen, m) <= ChurnCandidates(listings, chosen, n)
  {
    if m < n {
      CandidatesGrow(listings, chosen, m, n - 1);
    }
  }

  /** The draw that relists whatever it can: as early as possible. */
  const RELIST := LifeDraw(0, true, 0)

  ghost predicate NoneGone(listings: seq<Listing>) {
    forall i :: 0 <= i < |listings| ==> (listings[i].delist.Some? ==> listings[i].relist.Some?)
  }

  lemma RelistsOne(l: Listing, f: Forced)
    requires New(l) && !Middling(l) && (Early(l) ==> f.recovered < 5)
    ensures var li := NextLife(l, f, RELIST).0; li.delist.Some? ==> li.relist.Some?
  {
  }

  /** Without a candidate for a forced churn, that draw relists every delisted listing. */
  lemma {:induction false} AllRelisted(listings: seq<Listing>, chosen: seq<nat>, us: seq<LifeDraw>, n: nat)
    requires Chosen(listings, chosen) && Distinct(chosen) && |us| == |chosen| && n <= |chosen|
    requires forall j :: 0 <= j < |listings| ==> New(listings[j])
    requires forall j :: 0 <= j < |us| ==> us[j] == RELIST
    requires ChurnCandidates(listings, chosen, |chosen|) == 0
    ensures NoneGone(Lives(listings, chosen, us, n).0)
  {
    if n > 0 {
      AllRelisted(listings, chosen, us, n - 1);
      ForcedAre(listings, chosen, us, n - 1);
      ChosenUntouched(listings, chosen, us, n - 1);
      CandidatesGrow(listings, chosen, n, |chosen|);
      var l, f := listings[chosen[n - 1]], Lives(listings, chosen, us, n - 1).1;
      RelistsOne(l, f);
      hide NextLife;
    }
  }

  /** Some chosen listing is delisted for good in 2025 whatever the lifecycle draws, exactly
      if six early listings or one middling listing are among the chosen ones. */
  lemma ChurnForcedIff(listings: seq<Listing>, chosen: seq<nat>)
    requires Chosen(listings, chosen) && Distinct(chosen)
    requires forall j :: 0 <= j < |listings| ==> New(listings[j])
    ensures ForcesChurn(listings, chosen)
       <==> forall us: seq<LifeDraw> :: |us| == |chosen| ==> SomeChurns(Lives(listings, chosen, us, |chosen|).0)
  {
    hide Lives, EarlyCount, MiddlingCount, SomeChurns, NoneGone;
    MiddlingExists(listings, chosen, |chosen|);
    forall us: seq<LifeDraw> | |us| == |chosen| && ForcesChurn(listings, chosen)
      ensures SomeChurns(Lives(listings, chosen, us, |chosen|).0)
    {
      ForcedAre(listings, chosen, us, |chosen|);
      ForcedChurns(listings, chosen, us, |chosen|);
    }
    if !ForcesChurn(listings, chosen) {
      var us := seq(|chosen|, _ => RELIST);
      AllRelisted(listings, chosen, us, |chosen|);
      NoneGoneNoChurn(Lives(listings, chosen, us, |chosen|).0);
    }
  }

  lemma NoneGoneNoChurn(listings: seq<Listing>)
    requires NoneGone(listings)
    ensures !SomeChurns(listings)
  {
  }

  /** Only early and fewer than six of them: then no draw at all churns a listing. */
  lemma {:induction false} NeverChurns(listings: seq<Listing>, chosen: seq<nat>, us: seq<LifeDraw>, n: nat)
    requires Chosen(listings, chosen) && Distinct(chosen) && |us| == |chosen| && n <= |chosen|
    requires forall j :: 0 <= j < |listings| ==> New(listings[j])
    requires forall j :: 0 <= j < |chosen| ==> Early(listings[chosen[j]]) || !Delistable(listings[chosen[j]])
    requires EarlyCount(listings, chosen, |chosen|) <= 5
    ensures NoneGone(Lives(listings, chosen, us, n).0)
  {
    if n > 0 {
      NeverChurns(listings, chosen, us, n - 1);
      ForcedAre(listings, chosen, us, n - 1);
      ChosenUntouched(listings, chosen, us, n - 1);
      CandidatesGrow(listings, chosen, n, |chosen|);
      var l, f := listings[chosen[n - 1]], Lives(listings, chosen, us, n - 1).1;
      LifeOfOne(l, f, us[n - 1]);
      hide NextLife, LifecycleOrdered, Churns;
    }
  }

  // ----- The whole world

  ghost predicate WorldOk(w: World) {
    && DistinctCodes(w)
    && DistinctListings(w.listings)
    && forall l :: l in w.listings ==> ListingFresh(w, l) && LifecycleOrdered(l)
  }

  /** Shops and products as built, and all draws made on the way to the listings. */
  datatype WorldDraws = WorldDraws(shops: seq<Shop>, products: seq<Product>, drawn: seq<seq<ListingDraw>>,
                                   order: nat -> seq<nat>, life: nat -> LifeDraw)

  ghost predicate Drawable(d: WorldDraws) {
    && DistinctCodes(World(d.shops, d.products, []))
    && ListingsDrawn(d.shops, d.products, d.drawn)
    && forall n :: IsPermutation(d.order(n), n)
  }

  /** n_delist = max(10, int(0.15 * n)), cut off where the permutation ends. */
  function DelistCount(n: nat): (r: nat)
    ensures r <= n
  {
    Min(n, Max(10, 15 * n / 100))
  }

  /** Ten listings, or all if there are fewer, or 15 % if that is more. */
  lemma DelistCountIs(n: nat)
    ensures n <= 10 ==> DelistCount(n) == n
    ensures n > 10 ==> DelistCount(n) >= 10 && 100 * DelistCount(n) > 15 * n - 100
    ensures DelistCount(n) > 10 ==> 100 * DelistCount(n) <= 15 * n
  {
  }

  ghost function NewListings(d: WorldDraws): seq<Listing>
    requires Drawable(d)
  {
    ListingsOf(d.shops, d.products, d.drawn, |d.products|)
  }

  ghost function ChosenOf(d: WorldDraws): (chosen: seq<nat>)
    requires Drawable(d)
    ensures Chosen(NewListings(d), chosen) && Distinct(chosen)
  {
    var n := |NewListings(d)|;
    assert IsPermutation(d.order(n), n);
    d.order(n)[..DelistCount(n)]
  }

  ghost function LifeDraws(d: WorldDraws): seq<LifeDraw>
    requires Drawable(d)
  {
    seq(|ChosenOf(d)|, j requires j >= 0 => d.life(j))
  }

  ghost function WorldOf(d: WorldDraws): World
    requires Drawable(d)
  {
    World(d.shops, d.products, Lives(NewListings(d), ChosenOf(d), LifeDraws(d), |ChosenOf(d)|).0)
  }

  lemma WorldOfOk(d: WorldDraws)
    requires Drawable(d)
    ensures WorldOk(WorldOf(d))
  {
    var was, w := NewListings(d), WorldOf(d);
    NewListingsNew(d);
    forall i | 0 <= i < |was| ensures LivedAt(was, ChosenOf(d), w.listings, |ChosenOf(d)|, i) {
      LivesKept(was, ChosenOf(d), LifeDraws(d), |ChosenOf(d)|, i);
    }
    assert w.shops == d.shops && w.products == d.products && |w.listings| == |was| && DistinctCodes(w);
    hide WorldOf, NewListings, ChosenOf, Drawable, LifecycleOrdered, DistinctCodes;
    forall i, j | 0 <= i < j < |w.listings| ensures (w.listings[i].s, w.listings[i].p) != (w.listings[j].s, w.listings[j].p) {
      assert LivedAt(was, ChosenOf(d), w.listings, |ChosenOf(d)|, i);
      assert LivedAt(was, ChosenOf(d), w.listings, |ChosenOf(d)|, j);
      assert (was[i].s, was[i].p) != (was[j].s, was[j].p);
    }
    forall l | l in w.listings ensures ListingFresh(w, l) && LifecycleOrdered(l) {
      var i :| 0 <= i < |w.listings| && w.listings[i] == l;
      assert LivedAt(was, ChosenOf(d), w.listings, |ChosenOf(d)|, i) && was[i] in was;
    }
  }

  lemma NewListingsNew(d: WorldDraws)
    requires Drawable(d)
    ensures DistinctListings(NewListings(d))
    ensures forall l :: l in NewListings(d) ==> ListingFresh(World(d.shops, d.products, []), l) && New(l)
    ensures forall i :: 0 <= i < |NewListings(d)| ==> New(NewListings(d)[i])
  {
    ListingsDistinct(d.shops, d.products, d.drawn, |d.products|);
    hide ListingsOf;
    forall l | l in NewListings(d) ensures ListingFresh(World(d.shops, d.products, []), l) && New(l) {
      ListingsFresh(d.shops, d.products, d.drawn, l);
    }
    forall i | 0 <= i < |NewListings(d)| ensures New(NewListings(d)[i]) {
      assert NewListings(d)[i] in NewListings(d);
    }
  }

  /** build_listings and assign_lifecycle: the listings drawn, their lives drawn on top. */
  method BuildWorld(d: WorldDraws) returns (w: World)
    requires Drawable(d)
    ensures w == WorldOf(d) && WorldOk(w)
  {
    var built := BuildListings(d.shops, d.products, d.drawn);
    var n := |built|;
    assert IsPermutation(d.order(n), n);
    var chosen := d.order(n)[..DelistCount(n)];
    var us := seq(|chosen|, j requires j >= 0 => d.life(j));
    var listings := new Listing[n](i requires 0 <= i < n => built[i]);
    assert listings[..] == built == NewListings(d) && chosen == ChosenOf(d) && us == LifeDraws(d);
    AssignLifecycle(listings, chosen, us);
    w := World(d.shops, d.products, listings[..]);
    WorldOfOk(d);
  }

  /** The world of `d` with these lifecycle draws instead has a churned listing. */
  ghost predicate ChurnsWith(d: WorldDraws, life: nat -> LifeDraw)
    requires Drawable(d)
  {
    Drawable(d.(life := life)) && SomeChurns(WorldOf(d.(life := life)).listings)
  }

  lemma OtherLives(d: WorldDraws, life: nat -> LifeDraw, us: seq<LifeDraw>)
    requires Drawable(d) && |us| == |ChosenOf(d)| && forall j :: 0 <= j < |us| ==> us[j] == life(j)
    ensures ChurnsWith(d, life) <==> SomeChurns(Lives(NewListings(d), ChosenOf(d), us, |ChosenOf(d)|).0)
  {
    var e := d.(life := life);
    assert Drawable(e) && NewListings(e) == NewListings(d) && ChosenOf(e) == ChosenOf(d);
    assert LifeDraws(e) == us;
    hide Lives, SomeChurns;
  }

  lemma AlwaysChurns(d: WorldDraws, life: nat -> LifeDraw)
    requires Drawable(d) && ForcesChurn(NewListings(d), ChosenOf(d))
    ensures ChurnsWith(d, life)
  {
    NewListingsNew(d);
    var was, chosen := NewListings(d), ChosenOf(d);
    var us := seq(|chosen|, j requires j >= 0 => life(j));
    hide NewListings, ChosenOf, Lives, ForcesChurn, SomeChurns, ChurnsWith, Drawable;
    ChurnForcedIff(was, chosen);
    OtherLives(d, life, us);
  }

  lemma MayNotChurn(d: WorldDraws) returns (life: nat -> LifeDraw)
    requires Drawable(d) && !ForcesChurn(NewListings(d), ChosenOf(d))
    ensures !ChurnsWith(d, life)
  {
    NewListingsNew(d);
    var was, chosen := NewListings(d), ChosenOf(d);
    hide NewListings, ChosenOf, Lives, SomeChurns, ChurnsWith, Drawable;
    life := (j: nat) => RELIST;
    var us := seq(|chosen|, _ => RELIST);
    MiddlingExists(was, chosen, |chosen|);
    AllRelisted(was, chosen, us, |chosen|);
    NoneGoneNoChurn(Lives(was, chosen, us, |chosen|).0);
    OtherLives(d, life, us);
  }

  /** Whatever the lifecycle draws the built world has a listing delisted for good in 2025,
      exactly if its chosen listings force one. */
  lemma WorldChurnsIff(d: WorldDraws)
    requires Drawable(d)
    ensures ForcesChurn(NewListings(d), ChosenOf(d)) <==> forall life: nat -> LifeDraw :: ChurnsWith(d, life)
  {
    hide *;
    if ForcesChurn(NewListings(d), ChosenOf(d)) {
      forall life: nat -> LifeDraw ensures ChurnsWith(d, life) {
        AlwaysChurns(d, life);
      }
    } else {
      var life := MayNotChurn(d);
    }
  }

  // ----- A world the generator can draw without a churn

  /** Ten shops and sixty products, the smallest world generated; one product is
      discovered at once in five shops, every other discovery is too late. */
  function FiveEarly(order: nat -> seq<nat>, life: nat -> LifeDraw): WorldDraws {
    WorldDraws(seq(10, i requires i >= 0 => Shop(i + 1, "shop", "US", "gold", T0)),
               seq(60, i requires i >= 0 => Product(i + 1, "title", "brand", "toys", T0)),
               seq(60, p requires p >= 0 => EarlyDraws(p)), order, life)
  }

  function EarlyDraws(p: nat): seq<ListingDraw> {
    if p == 0 then seq(5, k requires k >= 0 => ListingDraw(k, 0))
    else seq(2, k requires k >= 0 => ListingDraw(k, 800 * DAY))
  }

  lemma {:induction false} EarlyProduct(d: WorldDraws, k: nat)
    requires d == FiveEarly(d.order, d.life) && ListingsDrawn(d.shops, d.products, d.drawn) && k <= 5
    ensures ProductListings(d.shops, d.products, 0, d.drawn[0], k)
         == seq(k, i requires i >= 0 => Listing(i, 0, T0 + DAY, None, None))
  {
    if k > 0 {
      EarlyProduct(d, k - 1);
      assert d.drawn[0][k - 1] == ListingDraw(k - 1, 0);
    }
  }

  lemma LateProduct(d: WorldDraws, p: nat)
    requires d == FiveEarly(d.order, d.life) && ListingsDrawn(d.shops, d.products, d.drawn) && 0 < p < 60
    ensures ProductListings(d.shops, d.products, p, d.drawn[p], |d.drawn[p]|) == []
  {
    var us := d.drawn[p];
    assert us == [ListingDraw(0, 800 * DAY), ListingDraw(1, 800 * DAY)];
    assert ListingAt(d.shops, d.products, p, us[0]) == None && ListingAt(d.shops, d.products, p, us[1]) == None;
    assert ProductListings(d.shops, d.products, p, us, 1) == [];
  }

  lemma {:induction false} FiveListings(d: WorldDraws, n: nat)
    requires d == FiveEarly(d.order, d.life) && ListingsDrawn(d.shops, d.products, d.drawn) && 0 < n <= 60
    ensures ListingsOf(d.shops, d.products, d.drawn, n) == seq(5, i requires i >= 0 => Listing(i, 0, T0 + DAY, None, None))
  {
    hide ProductListings;
    if n == 1 {
      EarlyProduct(d, 5);
      assert ListingsOf(d.shops, d.products, d.drawn, 0) == [];
    } else {
      FiveListings(d, n - 1);
      LateProduct(d, n - 1);
    }
  }

  lemma FiveEarlyDrawable(order: nat -> seq<nat>, life: nat -> LifeDraw)
    requires forall n :: IsPermutation(order(n), n)
    ensures Drawable(FiveEarly(order, life))
  {
  }

  /** In that world every lifecycle draw relists whatever it delists: no listing churns. */
  lemma FiveEarlyNeverChurns(order: nat -> seq<nat>, life: nat -> LifeDraw)
    requires forall n :: IsPermutation(order(n), n)
    ensures Drawable(FiveEarly(order, life)) && !SomeChurns(WorldOf(FiveEarly(order, life)).listings)
    ensures var ls := WorldOf(FiveEarly(order, life)).listings;
            |ls| == 5 && forall i :: 0 <= i < 5 ==>
              ls[i].discovered == T0 + DAY && LifecycleOrdered(ls[i]) && ls[i].delist.Some? && ls[i].relist.Some?
  {
    var d := FiveEarly(order, life);
    FiveEarlyDrawable(order, life);
    FiveListings(d, 60);
    NewListingsNew(d);
    hide FiveEarly, ListingsOf;
    var was, chosen, us := NewListings(d), ChosenOf(d), LifeDraws(d);
    assert |was| == 5 && DelistCount(5) == 5 && |chosen| == 5;
    assert IsPermutation(order(5), 5) && chosen == order(5);
    hide NewListings, ChosenOf, LifeDraws, Drawable;
    AtMostAll(was, chosen, 5);
    NeverChurns(was, chosen, us, 5);
    NoneGoneNoChurn(Lives(was, chosen, us, 5).0);
    forall i | 0 <= i < 5
      ensures var li := Lives(was, chosen, us, 5).0[i];
              li.delist.Some? && li.discovered == T0 + DAY && LifecycleOrdered(li)
    {
      LivesKept(was, chosen, us, 5, i);
      PermutationOnto(chosen, 5, i);
      assert chosen[..5] == chosen;
    }
  }

  lemma {:induction false} AtMostAll(listings: seq<Listing>, chosen: seq<nat>, n: nat)
    requires Chosen(listings, chosen) && n <= |chosen|
    ensures EarlyCount(listings, chosen, n) <= n
  {
    if n > 0 {
      AtMostAll(listings, chosen, n - 1);
    }
  }
}
