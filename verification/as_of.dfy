/** As-of lookup by bisection over sorted breakpoints, and why it returns what
    the fold of the event log returns. */
module AsOf {
  import opened Sequences
  import opened StableSort
  import opened EventLog

  datatype Stamp = Stamp(time: int, value: Text)

  datatype Discovery = Discovery(time: int, title: Text, brand: Text, category: Text)

  datatype Patch = Patch(time: int, field: Field, value: Text)

  /** Parallel lists: `values[i]` holds from `times[i]` onward. */
  datatype Breakpoints = Breakpoints(times: seq<int>, values: seq<Text>)

  function StampKey(s: Stamp): Key { Key(s.time, 0, 0) }

  function DiscoveryKey(d: Discovery): Key { Key(d.time, 0, 0) }

  function PatchKey(p: Patch): Key { Key(p.time, 0, 0) }

  function Unzip(stamps: seq<Stamp>): Breakpoints {
    Breakpoints(Map(stamps, (s: Stamp) => s.time), Map(stamps, (s: Stamp) => s.value))
  }

  /** Python list indexing: a negative index counts from the end. */
  function PythonIndex<T>(xs: seq<T>, i: int): T
    requires -|xs| <= i < |xs|
  {
    if i < 0 then xs[|xs| + i] else xs[i]
  }

  function Place(bp: Breakpoints, t: int): (i: int)
    ensures -1 <= i < |bp.times|
  {
    BisectRight(bp.times, t, 0, |bp.times|) - 1
  }

  /** The scalar lookup: nothing before the first breakpoint. */
  function Asof(bp: Breakpoints, t: int): Option<Text>
    requires |bp.times| == |bp.values|
  {
    var i := Place(bp, t);
    if i >= 0 then Some(bp.values[i]) else None
  }

  /** The grouped lookup: no test for -1. */
  function Enriched(bp: Breakpoints, t: int): Text
    requires |bp.times| == |bp.values| > 0
  {
    PythonIndex(bp.values, Place(bp, t))
  }

  // ----- The lists gathered from the log

  predicate SetsTier(e: Event, shop: Code) {
    (e.ShopRegistered? || e.ShopTierChanged?) && e.shop == shop
  }

  function TierStamp(e: Event): Stamp {
    Stamp(e.time, if e.ShopRegistered? then e.tier else if e.ShopTierChanged? then e.newTier else "")
  }

  predicate SetsName(e: Event, shop: Code) {
    (e.ShopRegistered? || e.ShopRenamed?) && e.shop == shop
  }

  function NameStamp(e: Event): Stamp {
    Stamp(e.time, if e.ShopRegistered? then e.name else if e.ShopRenamed? then e.newName else "")
  }

  function DiscoveryOf(e: Event): Discovery {
    if e.ProductDiscovered? then Discovery(e.time, e.title, e.brand, e.category)
    else Discovery(e.time, "", "", "")
  }

  function PatchOf(e: Event, f: Field): Patch {
    Patch(e.time, f, if e.ProductAttrsChanged? && f in e.changes then e.changes[f] else "")
  }

  function TierSetters(shop: Code): Event -> bool { (e: Event) => SetsTier(e, shop) }

  function NameSetters(shop: Code): Event -> bool { (e: Event) => SetsName(e, shop) }

  function DiscoveriesOf(product: Code): Event -> bool { (e: Event) => IsDiscovery(e, product) }

  function FieldSetters(product: Code, f: Field): Event -> bool { (e: Event) => SetsField(e, product, f) }

  function PatchesTo(f: Field): Event -> Patch { (e: Event) => PatchOf(e, f) }

  function TierStamps(log: seq<Event>, shop: Code): seq<Stamp> {
    Map(Filter(log, TierSetters(shop)), TierStamp)
  }

  function NameStamps(log: seq<Event>, shop: Code): seq<Stamp> {
    Map(Filter(log, NameSetters(shop)), NameStamp)
  }

  function Discoveries(log: seq<Event>, product: Code): seq<Discovery> {
    Map(Filter(log, DiscoveriesOf(product)), DiscoveryOf)
  }

  function Patches(log: seq<Event>, product: Code, f: Field): seq<Patch> {
    Map(Filter(log, FieldSetters(product, f)), PatchesTo(f))
  }

  function Initially(d: Discovery, f: Field): Stamp {
    Stamp(d.time, match f case Title => d.title case Brand => d.brand case Category => d.category)
  }

  function PatchStamp(p: Patch): Stamp {
    Stamp(p.time, p.value)
  }

  /** First discovery, then that field's patches in time order. */
  function FieldStamps(log: seq<Event>, product: Code, f: Field): seq<Stamp>
    requires |Discoveries(log, product)| > 0
  {
    SortSorts(Discoveries(log, product), DiscoveryKey);
    [Initially(SortBy(Discoveries(log, product), DiscoveryKey)[0], f)]
      + Map(SortBy(Patches(log, product, f), PatchKey), PatchStamp)
  }

  // ----- Bisection selects the stamps up to t

  function StampedUpTo(t: int): Stamp -> bool {
    (s: Stamp) => s.time <= t
  }

  ghost predicate InTimeOrder(stamps: seq<Stamp>) {
    forall i, j :: 0 <= i < j < |stamps| ==> stamps[i].time <= stamps[j].time
  }

  lemma {:induction false} PrefixIsFilter(stamps: seq<Stamp>, t: int, k: nat)
    requires k <= |stamps|
    requires forall i :: 0 <= i < k ==> stamps[i].time <= t
    requires forall i :: k <= i < |stamps| ==> t < stamps[i].time
    ensures Filter(stamps, StampedUpTo(t)) == stamps[..k]
  {
    var p := StampedUpTo(t);
    assert stamps == stamps[..k] + stamps[k..];
    FilterAppend(stamps[..k], stamps[k..], p);
    FilterAll(stamps[..k], p);
    FilterNone(stamps[k..], p);
  }

  lemma TimesAscend(stamps: seq<Stamp>)
    requires InTimeOrder(stamps)
    ensures |Unzip(stamps).times| == |stamps| && Ascending(Unzip(stamps).times)
    ensures forall i :: 0 <= i < |stamps| ==> Unzip(stamps).times[i] == stamps[i].time
  {
  }

  lemma PlaceBounds(stamps: seq<Stamp>, t: int)
    requires InTimeOrder(stamps)
    ensures var k := Place(Unzip(stamps), t) + 1;
            && 0 <= k <= |stamps|
            && (forall i :: 0 <= i < k ==> stamps[i].time <= t)
            && (forall i :: k <= i < |stamps| ==> t < stamps[i].time)
  {
    TimesAscend(stamps);
    var times := Unzip(stamps).times;
    var k := Place(Unzip(stamps), t) + 1;
    BisectRightSplits(times, t, 0, |times|);
    hide BisectRight, Unzip, Place, InTimeOrder, Ascending;
    forall i | 0 <= i < |stamps|
      ensures i < k ==> stamps[i].time <= t
      ensures k <= i ==> t < stamps[i].time
    {
      assert times[i] == stamps[i].time;
    }
  }

  /** Bisection puts the stamps up to `t` before its place, all others after it. */
  lemma PlaceSplits(stamps: seq<Stamp>, t: int)
    requires InTimeOrder(stamps)
    ensures var k := Place(Unzip(stamps), t) + 1;
            && 0 <= k <= |stamps|
            && Filter(stamps, StampedUpTo(t)) == stamps[..k]
            && (k == 0 <==> stamps == [] || t < stamps[0].time)
  {
    PlaceBounds(stamps, t);
    PrefixIsFilter(stamps, t, Place(Unzip(stamps), t) + 1);
    hide BisectRight, Filter, Unzip, Place, InTimeOrder;
  }

  /** The selected breakpoint is the last stamp not after `t`; with no such
      stamp the grouped lookup returns the newest value instead of nothing. */
  lemma LookupIsLastStamp(stamps: seq<Stamp>, t: int)
    requires InTimeOrder(stamps) && |stamps| > 0
    ensures var upTo := Filter(stamps, StampedUpTo(t));
            var bp := Unzip(stamps);
            && Place(bp, t) == |upTo| - 1
            && (upTo == [] <==> t < stamps[0].time)
            && (upTo != [] ==> Enriched(bp, t) == Last(upTo).value)
            && (upTo == [] ==> Enriched(bp, t) == Last(stamps).value)
            && Asof(bp, t) == if upTo == [] then None else Some(Last(upTo).value)
  {
    PlaceSplits(stamps, t);
    hide Filter, Place, InTimeOrder;
  }

  lemma SortedInTimeOrder(stamps: seq<Stamp>)
    ensures InTimeOrder(SortBy(stamps, StampKey))
    ensures |SortBy(stamps, StampKey)| == |stamps|
  {
    SortSorts(stamps, StampKey);
    var s := SortBy(stamps, StampKey);
    forall i, j | 0 <= i < j < |s| ensures s[i].time <= s[j].time {
      assert StampKey(s[i]).AtMost(StampKey(s[j]));
    }
  }

  /** Stamps of the selected log events, sorted and cut at t, are the stamps of
      the history restricted to those events. */
  lemma StampsOfHistory(log: seq<Event>, concerns: Event -> bool, sets: Event -> bool,
                        stamp: Event -> Stamp, t: int)
    requires forall e: Event :: stamp(e).time == e.time
    requires forall e: Event :: sets(e) ==> concerns(e)
    ensures Filter(SortBy(Map(Filter(log, sets), stamp), StampKey), StampedUpTo(t))
         == Map(Filter(History(log, concerns, t), sets), stamp)
  {
    var chosen := Filter(log, sets);
    SortMap(chosen, stamp, ByTime, StampKey);
    FilterMap(SortBy(chosen, ByTime), stamp, UpTo(t), StampedUpTo(t));
    SetHistory(log, concerns, sets, t);
  }

  lemma SetHistory(log: seq<Event>, concerns: Event -> bool, sets: Event -> bool, t: int)
    requires forall e: Event :: sets(e) ==> concerns(e)
    ensures Filter(SortBy(Filter(log, sets), ByTime), UpTo(t)) == Filter(History(log, concerns, t), sets)
  {
    SortFilter(Filter(log, sets), ByTime, UpTo(t));
    FilterFilter(log, sets, UpTo(t));
    SortFilter(Filter(log, Both(concerns, UpTo(t))), ByTime, sets);
    FilterFilter(log, Both(concerns, UpTo(t)), sets);
    FilterAgree(log, Both(sets, UpTo(t)), Both(Both(concerns, UpTo(t)), sets));
  }

  // ----- Shops

  lemma {:induction false} ShopFold(history: seq<Event>, shop: Code)
    requires forall e :: e in history ==> ConcernsShop(e, shop)
    ensures ShopAfter(history).Some? <==> exists e :: e in history && IsRegistration(e, shop)
    ensures ShopAfter(history).Some? ==>
              var tiers, names := Filter(history, TierSetters(shop)), Filter(history, NameSetters(shop));
              && tiers != [] && ShopAfter(history).value.tier == TierStamp(Last(tiers)).value
              && names != [] && ShopAfter(history).value.name == NameStamp(Last(names)).value
  {
    if |history| > 0 {
      ShopFold(Init(history), shop);
      InitLast(history);
      assert ConcernsShop(Last(history), shop);
      assert IsRegistration(Last(history), shop) ==> Last(history) in history;
      forall e | e in history && IsRegistration(e, shop)
        ensures e == Last(history) || (e in Init(history) && IsRegistration(e, shop))
      {
      }
    }
  }

  lemma {:induction false} ShopFoldCountry(history: seq<Event>, shop: Code, country: Text)
    requires forall e :: e in history && IsRegistration(e, shop) ==> e.country == country
    requires forall e :: e in history ==> ConcernsShop(e, shop)
    ensures ShopAfter(history).Some? ==> ShopAfter(history).value.country == country
  {
    if |history| > 0 {
      ShopFoldCountry(Init(history), shop, country);
      InitLast(history);
      assert Last(history) in history && ConcernsShop(Last(history), shop);
    }
  }

  lemma HistoryOfShop(log: seq<Event>, shop: Code, t: int)
    ensures ShopAsOf(log, shop, t).Some? <==> RegisteredBy(log, shop, t)
  {
    var h := History(log, OfShop(shop), t);
    forall e ensures e in h <==> e in log && ConcernsShop(e, shop) && e.time <= t {
      HistoryMember(log, OfShop(shop), t, e);
    }
    ShopFold(h, shop);
  }

  /** The tier written by the grouped lookup is the folded tier exactly from the
      shop's registration on, for any log at all. */
  lemma TierLookupIsFold(log: seq<Event>, shop: Code, t: int)
    requires TierStamps(log, shop) != []
    ensures SortBy(TierStamps(log, shop), StampKey) != []
    ensures RegisteredBy(log, shop, t) <==>
            && ShopAsOf(log, shop, t).Some?
            && ShopAsOf(log, shop, t).value.tier
               == Enriched(Unzip(SortBy(TierStamps(log, shop), StampKey)), t)
  {
    var stamps := SortBy(TierStamps(log, shop), StampKey);
    SortedInTimeOrder(TierStamps(log, shop));
    LookupIsLastStamp(stamps, t);
    StampsOfHistory(log, OfShop(shop), TierSetters(shop), TierStamp, t);
    var h := History(log, OfShop(shop), t);
    forall e | e in h ensures ConcernsShop(e, shop) {
      HistoryMember(log, OfShop(shop), t, e);
    }
    ShopFold(h, shop);
    HistoryOfShop(log, shop, t);
  }

  lemma NameLookupIsFold(log: seq<Event>, shop: Code, t: int)
    requires NameStamps(log, shop) != []
    ensures RegisteredBy(log, shop, t) <==>
            && ShopAsOf(log, shop, t).Some?
            && Asof(Unzip(SortBy(NameStamps(log, shop), StampKey)), t)
               == Some(ShopAsOf(log, shop, t).value.name)
  {
    hide History, Enriched, SortBy, Filter;
    var stamps := SortBy(NameStamps(log, shop), StampKey);
    SortedInTimeOrder(NameStamps(log, shop));
    LookupIsLastStamp(stamps, t);
    StampsOfHistory(log, OfShop(shop), NameSetters(shop), NameStamp, t);
    var h := History(log, OfShop(shop), t);
    forall e | e in h ensures ConcernsShop(e, shop) {
      HistoryMember(log, OfShop(shop), t, e);
    }
    ShopFold(h, shop);
    HistoryOfShop(log, shop, t);
  }

  lemma NamedInOrder(log: seq<Event>, shop: Code, e: Event)
    ensures var named := SortBy(Filter(log, NameSetters(shop)), ByTime);
            && (e in named <==> e in log && SetsName(e, shop))
            && (e in named ==> named[0].time <= e.time)
  {
    var setters := Filter(log, NameSetters(shop));
    var named := SortBy(setters, ByTime);
    SortMember(setters, ByTime, e);
    FilterMember(log, NameSetters(shop), e);
    SortSorts(setters, ByTime);
    hide SortBy, Filter;
    if e in named {
      var i :| 0 <= i < |named| && named[i] == e;
      assert i == 0 || ByTime(named[0]).AtMost(ByTime(named[i]));
    }
  }

  lemma FirstName(log: seq<Event>, shop: Code)
    requires NameStamps(log, shop) != []
    ensures var named, stamps := SortBy(Filter(log, NameSetters(shop)), ByTime), SortBy(NameStamps(log, shop), StampKey);
            named != [] && stamps != [] && stamps[0].time == named[0].time
  {
    var setters := Filter(log, NameSetters(shop));
    SortMap(setters, NameStamp, ByTime, StampKey);
    SortSorts(setters, ByTime);
    hide SortBy, Filter;
    assert |multiset(setters)| > 0;
  }

  /** `asof` has no name for a shop exactly before all its name events, a rename included. */
  lemma NameNoneIff(log: seq<Event>, shop: Code, t: int)
    requires NameStamps(log, shop) != []
    ensures Asof(Unzip(SortBy(NameStamps(log, shop), StampKey)), t).None?
       <==> forall e :: e in log && SetsName(e, shop) ==> t < e.time
  {
    SortedInTimeOrder(NameStamps(log, shop));
    LookupIsLastStamp(SortBy(NameStamps(log, shop), StampKey), t);
    FirstName(log, shop);
    var named := SortBy(Filter(log, NameSetters(shop)), ByTime);
    hide SortBy, Filter, Asof, NameStamps;
    forall e ensures e in named <==> e in log && SetsName(e, shop)
             ensures e in named ==> named[0].time <= e.time
    {
      NamedInOrder(log, shop, e);
    }
    assert named[0] in named;
  }

  // ----- Products

  function FieldOf(p: ProductState, f: Field): Text {
    match f case Title => p.title case Brand => p.brand case Category => p.category
  }

  /** Before the product is discovered the field has not been changed. */
  ghost predicate DiscoveredFirst(history: seq<Event>, product: Code, f: Field) {
    var touched := Filter(history, Touching(product, f));
    touched == [] || touched[0].ProductDiscovered?
  }

  lemma DiscoveredBefore(history: seq<Event>, product: Code, f: Field)
    requires history != [] && DiscoveredFirst(history, product, f)
    ensures DiscoveredFirst(Init(history), product, f)
    ensures SetsField(Last(history), product, f) ==> Filter(Init(history), DiscoveriesOf(product)) != []
  {
    var before := Filter(Init(history), Touching(product, f));
    if before != [] {
      assert Filter(history, Touching(product, f))[0] == before[0];
      FilterMember(Init(history), Touching(product, f), before[0]);
      FilterMember(Init(history), DiscoveriesOf(product), before[0]);
    }
  }

  lemma {:induction false} ProductFold(history: seq<Event>, product: Code, f: Field)
    requires forall e :: e in history ==> ConcernsProduct(e, product)
    requires DiscoveredFirst(history, product, f)
    ensures ProductAfter(history).Some? <==> Filter(history, DiscoveriesOf(product)) != []
    ensures ProductAfter(history).Some? ==>
              var found, patches := Filter(history, DiscoveriesOf(product)), Filter(history, FieldSetters(product, f));
              FieldOf(ProductAfter(history).value, f)
                == if patches == [] then Initially(DiscoveryOf(found[0]), f).value
                   else PatchOf(Last(patches), f).value
    ensures ProductAfter(history).None? ==> Filter(history, FieldSetters(product, f)) == []
  {
    if |history| > 0 {
      var before, last := Init(history), Last(history);
      InitLast(history);
      assert ConcernsProduct(last, product);
      DiscoveredBefore(history, product, f);
      ProductFold(before, product, f);
      ProductFoldStep(history, product, f);
      hide ProductAfter, DiscoveredFirst, Filter;
    }
  }

  lemma ProductFoldStep(history: seq<Event>, product: Code, f: Field)
    requires history != [] && ConcernsProduct(Last(history), product)
    requires SetsField(Last(history), product, f) ==> ProductAfter(Init(history)).Some?
    ensures var before, last := Init(history), Last(history);
            && Filter(history, DiscoveriesOf(product))
               == Filter(before, DiscoveriesOf(product)) + (if last.ProductDiscovered? then [last] else [])
            && Filter(history, FieldSetters(product, f))
               == Filter(before, FieldSetters(product, f)) + (if SetsField(last, product, f) then [last] else [])
            && (ProductAfter(history).Some? <==> last.ProductDiscovered? || ProductAfter(before).Some?)
            && (ProductAfter(history).Some? ==>
                  FieldOf(ProductAfter(history).value, f)
                  == if SetsField(last, product, f) then PatchOf(last, f).value
                     else if ProductAfter(before).None? then Initially(DiscoveryOf(last), f).value
                     else FieldOf(ProductAfter(before).value, f))
  {
  }

  /** If a discovery leads, every history keeps to that. */
  lemma HistoryDiscoveredFirst(log: seq<Event>, product: Code, f: Field, t: int)
    requires DiscoveryLeads(log, product, f)
    ensures DiscoveredFirst(History(log, OfProduct(product), t), product, f)
    ensures forall e :: e in History(log, OfProduct(product), t) ==> ConcernsProduct(e, product)
  {
    var touched := SortBy(Filter(log, Touching(product, f)), ByTime);
    SetHistory(log, OfProduct(product), Touching(product, f), t);
    SortSorts(Filter(log, Touching(product, f)), ByTime);
    if touched != [] {
      HeadUpTo(touched, t);
    }
    hide History, SortBy;
    forall e | e in History(log, OfProduct(product), t) ensures ConcernsProduct(e, product) {
      HistoryMember(log, OfProduct(product), t, e);
    }
  }

  /** The first discovery by time is the first one in every history that has any. */
  lemma FirstDiscovery(log: seq<Event>, product: Code, t: int)
    requires Discoveries(log, product) != []
    ensures var first := SortBy(Discoveries(log, product), DiscoveryKey);
            var found := Filter(History(log, OfProduct(product), t), DiscoveriesOf(product));
            && first != []
            && (found != [] <==> first[0].time <= t)
            && (found != [] ==> DiscoveryOf(found[0]) == first[0])
  {
    var chosen := Filter(log, DiscoveriesOf(product));
    SortSorts(chosen, ByTime);
    SortMap(chosen, DiscoveryOf, ByTime, DiscoveryKey);
    SetHistory(log, OfProduct(product), DiscoveriesOf(product), t);
    HeadUpTo(SortBy(chosen, ByTime), t);
  }

  lemma HeadUpTo(sorted: seq<Event>, t: int)
    requires Sorted(sorted, ByTime) && sorted != []
    ensures Filter(sorted, UpTo(t)) != [] <==> sorted[0].time <= t
    ensures Filter(sorted, UpTo(t)) != [] ==> Filter(sorted, UpTo(t))[0] == sorted[0]
  {
    if sorted[0].time <= t {
      FilterHead(sorted, UpTo(t));
    } else {
      forall e | e in sorted ensures e.time > t {
        var i :| 0 <= i < |sorted| && sorted[i] == e;
        assert i == 0 || ByTime(sorted[0]).AtMost(ByTime(sorted[i]));
      }
      FilterNone(sorted, UpTo(t));
    }
  }

  function PatchedStamp(f: Field): Event -> Stamp {
    (e: Event) => PatchStamp(PatchOf(e, f))
  }

  lemma PatchStampsOfHistory(log: seq<Event>, product: Code, f: Field, t: int)
    ensures var later := Map(SortBy(Patches(log, product, f), PatchKey), PatchStamp);
            && InTimeOrder(later)
            && Filter(later, StampedUpTo(t))
               == Map(Filter(History(log, OfProduct(product), t), FieldSetters(product, f)), PatchedStamp(f))
  {
    var patches := Patches(log, product, f);
    SortMap(patches, PatchStamp, PatchKey, StampKey);
    MapMap(Filter(log, FieldSetters(product, f)), PatchesTo(f), PatchStamp);
    assert Map(patches, PatchStamp) == Map(Filter(log, FieldSetters(product, f)), PatchedStamp(f));
    SortedInTimeOrder(Map(patches, PatchStamp));
    StampsOfHistory(log, OfProduct(product), FieldSetters(product, f), PatchedStamp(f), t);
  }

  lemma FieldStampsInOrder(log: seq<Event>, product: Code, f: Field)
    requires DiscoveryLeads(log, product, f) && Discoveries(log, product) != []
    ensures InTimeOrder(FieldStamps(log, product, f))
  {
    var stamps := FieldStamps(log, product, f);
    PatchStampsOfHistory(log, product, f, 0);
    var later := stamps[1..];
    assert later == Map(SortBy(Patches(log, product, f), PatchKey), PatchStamp);
    forall i | 0 <= i < |later| ensures stamps[0].time <= later[i].time {
      PatchAfterFirst(log, product, f, SortBy(Patches(log, product, f), PatchKey)[i]);
    }
  }

  lemma PatchAfterFirst(log: seq<Event>, product: Code, f: Field, patch: Patch)
    requires DiscoveryLeads(log, product, f)
    requires patch in SortBy(Patches(log, product, f), PatchKey)
    ensures SortBy(Discoveries(log, product), DiscoveryKey) != []
    ensures SortBy(Discoveries(log, product), DiscoveryKey)[0].time <= patch.time
  {
    var touched := SortBy(Filter(log, Touching(product, f)), ByTime);
    hide SortBy, Filter, Discoveries;
    SortMember(Patches(log, product, f), PatchKey, patch);
    var setters := Filter(log, FieldSetters(product, f));
    var k :| 0 <= k < |setters| && PatchOf(setters[k], f) == patch;
    FilterMember(log, FieldSetters(product, f), setters[k]);
    TouchingSorted(log, product, f, setters[k]);
    TouchingSorted(log, product, f, touched[0]);
    FirstIsEarliest(log, product, touched[0]);
  }

  lemma FirstIsEarliest(log: seq<Event>, product: Code, d: Event)
    requires d in log && IsDiscovery(d, product)
    ensures Discoveries(log, product) != []
    ensures SortBy(Discoveries(log, product), DiscoveryKey) != []
    ensures SortBy(Discoveries(log, product), DiscoveryKey)[0].time <= d.time
  {
    var all := Discoveries(log, product);
    var found := Filter(log, DiscoveriesOf(product));
    FilterMember(log, DiscoveriesOf(product), d);
    var i :| 0 <= i < |found| && found[i] == d;
    assert all[i] == DiscoveryOf(d);
    SortSorts(all, DiscoveryKey);
    SortMember(all, DiscoveryKey, all[i]);
    var sorted := SortBy(all, DiscoveryKey);
    var j :| 0 <= j < |sorted| && sorted[j] == all[i];
    assert j == 0 || DiscoveryKey(sorted[0]).AtMost(DiscoveryKey(sorted[j]));
  }

  /** The folded attribute in terms of what the history holds. */
  lemma FieldFolded(log: seq<Event>, product: Code, f: Field, t: int)
    requires DiscoveryLeads(log, product, f) && Discoveries(log, product) != []
    ensures DiscoveredBy(log, product, t) <==> ProductAsOf(log, product, t).Some?
    ensures SortBy(Discoveries(log, product), DiscoveryKey) != []
    ensures var first := SortBy(Discoveries(log, product), DiscoveryKey)[0];
            var patches := Filter(History(log, OfProduct(product), t), FieldSetters(product, f));
            && (DiscoveredBy(log, product, t) <==> first.time <= t)
            && (DiscoveredBy(log, product, t) ==>
                  FieldOf(ProductAsOf(log, product, t).value, f)
                  == if patches == [] then Initially(first, f).value else PatchOf(Last(patches), f).value)
  {
    var h := History(log, OfProduct(product), t);
    HistoryDiscoveredFirst(log, product, f, t);
    ProductFold(h, product, f);
    FirstDiscovery(log, product, t);
    DiscoveredInHistory(log, product, t);
    hide History, Filter, Discoveries, ProductAfter, SortBy, DiscoveredFirst, DiscoveryLeads;
  }

  lemma LastPatched(first: Stamp, patches: seq<Event>, f: Field)
    ensures Last([first] + Map(patches, PatchedStamp(f))).value
         == if patches == [] then first.value else PatchOf(Last(patches), f).value
  {
    assert patches != [] ==> Last(Map(patches, PatchedStamp(f))) == PatchedStamp(f)(Last(patches));
  }

  /** The looked-up attribute in the same terms, from the first discovery on. */
  lemma FieldLookedUp(log: seq<Event>, product: Code, f: Field, t: int)
    requires DiscoveryLeads(log, product, f) && Discoveries(log, product) != []
    ensures SortBy(Discoveries(log, product), DiscoveryKey) != []
    ensures var first := SortBy(Discoveries(log, product), DiscoveryKey)[0];
            var patches := Filter(History(log, OfProduct(product), t), FieldSetters(product, f));
            first.time <= t ==>
              Enriched(Unzip(FieldStamps(log, product, f)), t)
              == if patches == [] then Initially(first, f).value else PatchOf(Last(patches), f).value
  {
    var stamps := FieldStamps(log, product, f);
    FieldStampsInOrder(log, product, f);
    LookupIsLastStamp(stamps, t);
    FieldStampsUpTo(log, product, f, t);
    LastPatched(stamps[0], Filter(History(log, OfProduct(product), t), FieldSetters(product, f)), f);
    hide History, Enriched, Filter, FieldStamps, Discoveries, SortBy, DiscoveryLeads, InTimeOrder, Map, Place, Asof;
  }

  /** The attribute written by the grouped lookup is the folded attribute exactly from
      the first discovery on; changes of other attributes may come earlier. */
  lemma FieldLookupIsFold(log: seq<Event>, product: Code, f: Field, t: int)
    requires DiscoveryLeads(log, product, f) && Discoveries(log, product) != []
    ensures DiscoveredBy(log, product, t) <==>
            && ProductAsOf(log, product, t).Some?
            && FieldOf(ProductAsOf(log, product, t).value, f)
               == Enriched(Unzip(FieldStamps(log, product, f)), t)
  {
    FieldFolded(log, product, f, t);
    FieldLookedUp(log, product, f, t);
    hide History, Enriched, Filter, FieldStamps, Discoveries, SortBy, DiscoveryLeads, ProductAsOf, DiscoveredBy;
  }

  lemma FieldStampsUpTo(log: seq<Event>, product: Code, f: Field, t: int)
    requires Discoveries(log, product) != []
    ensures SortBy(Discoveries(log, product), DiscoveryKey) != []
    ensures var stamps := FieldStamps(log, product, f);
            var patches := Filter(History(log, OfProduct(product), t), FieldSetters(product, f));
            && stamps[0] == Initially(SortBy(Discoveries(log, product), DiscoveryKey)[0], f)
            && Filter(stamps, StampedUpTo(t))
               == (if stamps[0].time <= t then [stamps[0]] else []) + Map(patches, PatchedStamp(f))
  {
    SortSorts(Discoveries(log, product), DiscoveryKey);
    var stamps := FieldStamps(log, product, f);
    PatchStampsOfHistory(log, product, f, t);
    var later := stamps[1..];
    assert stamps == [stamps[0]] + later;
    FilterAppend([stamps[0]], later, StampedUpTo(t));
    InitAppend([], stamps[0]);
  }

  lemma DiscoveredInHistory(log: seq<Event>, product: Code, t: int)
    ensures DiscoveredBy(log, product, t)
       <==> Filter(History(log, OfProduct(product), t), DiscoveriesOf(product)) != []
  {
    var h := History(log, OfProduct(product), t);
    var found := Filter(h, DiscoveriesOf(product));
    forall e ensures e in found <==> e in log && IsDiscovery(e, product) && e.time <= t {
      FilterMember(h, DiscoveriesOf(product), e);
      HistoryMember(log, OfProduct(product), t, e);
    }
    if found != [] {
      assert found[0] in found;
    }
  }

  const EARLY_CHANGE := ProductAttrsChanged(0, 0, 1, map[Brand := "new"])
  const LATE_DISCOVERY := ProductDiscovered(10, 20, 1, 1, "title", "old", "toys")

  lemma EarlyDiscoveries()
    ensures Discoveries([EARLY_CHANGE, LATE_DISCOVERY], 1) == [DiscoveryOf(LATE_DISCOVERY)]
  {
    var log := [EARLY_CHANGE, LATE_DISCOVERY];
    FilterAppend([EARLY_CHANGE], [LATE_DISCOVERY], DiscoveriesOf(1));
    FilterNone([EARLY_CHANGE], DiscoveriesOf(1));
    FilterAll([LATE_DISCOVERY], DiscoveriesOf(1));
    assert log == [EARLY_CHANGE] + [LATE_DISCOVERY];
  }

  lemma EarlyPatches()
    ensures Patches([EARLY_CHANGE, LATE_DISCOVERY], 1, Brand) == [PatchOf(EARLY_CHANGE, Brand)]
  {
    var log := [EARLY_CHANGE, LATE_DISCOVERY];
    FilterAppend([EARLY_CHANGE], [LATE_DISCOVERY], FieldSetters(1, Brand));
    FilterNone([LATE_DISCOVERY], FieldSetters(1, Brand));
    FilterAll([EARLY_CHANGE], FieldSetters(1, Brand));
    assert log == [EARLY_CHANGE] + [LATE_DISCOVERY];
  }

  lemma EarlyPatchStamps()
    ensures Discoveries([EARLY_CHANGE, LATE_DISCOVERY], 1) != []
    ensures FieldStamps([EARLY_CHANGE, LATE_DISCOVERY], 1, Brand)
         == [Initially(DiscoveryOf(LATE_DISCOVERY), Brand), PatchStamp(PatchOf(EARLY_CHANGE, Brand))]
  {
    EarlyDiscoveries();
    EarlyPatches();
    SortOfSorted([DiscoveryOf(LATE_DISCOVERY)], DiscoveryKey);
    SortOfSorted([PatchOf(EARLY_CHANGE, Brand)], PatchKey);
  }

  lemma EarlyPatchFold()
    ensures ProductAsOf([EARLY_CHANGE, LATE_DISCOVERY], 1, 10) == Some(ProductState("title", "old", "toys"))
  {
    var log := [EARLY_CHANGE, LATE_DISCOVERY];
    assert Init(log) == [EARLY_CHANGE] && Init([EARLY_CHANGE]) == [];
    FilterAll(log, Both(OfProduct(1), UpTo(10)));
    SortOfSorted(log, ByTime);
    assert ProductAfter([EARLY_CHANGE]) == None;
  }

  lemma EarlyChangeLeads()
    ensures !DiscoveryLeads([EARLY_CHANGE, LATE_DISCOVERY], 1, Brand)
  {
    var log := [EARLY_CHANGE, LATE_DISCOVERY];
    FilterAll(log, Touching(1, Brand));
    SortOfSorted(log, ByTime);
    hide SortBy, Filter;
  }

  /** Without that guarantee the lookup is wrong: a brand change stamped before
      the discovery leaves unsorted breakpoints and wins over the discovery. */
  lemma EarlyPatchBreaksLookup()
    ensures var log := [EARLY_CHANGE, LATE_DISCOVERY];
            && !DiscoveryLeads(log, 1, Brand) && !PatchesFollowDiscovery(log)
            && Discoveries(log, 1) != []
            && DiscoveredBy(log, 1, 10)
            && ProductAsOf(log, 1, 10) == Some(ProductState("title", "old", "toys"))
            && Enriched(Unzip(FieldStamps(log, 1, Brand)), 10) == "new"
  {
    var log := [EARLY_CHANGE, LATE_DISCOVERY];
    EarlyPatchStamps();
    EarlyPatchFold();
    EarlyChangeLeads();
    hide SortBy, Filter, ProductAsOf, FieldStamps, DiscoveryLeads;
    assert EARLY_CHANGE in log && LATE_DISCOVERY in log;
    LatePlace(FieldStamps(log, 1, Brand));
  }

  lemma LatePlace(stamps: seq<Stamp>)
    requires |stamps| == 2 && stamps[0].time == 10 && stamps[1].time == 0
    ensures Place(Unzip(stamps), 10) == 1
  {
    var times := Unzip(stamps).times;
    assert BisectRight(times, 10, 0, 2) == BisectRight(times, 10, 2, 2);
  }
}
