/** From the generator to the reference answers: whatever is drawn, the file it
    writes meets the guarantees the ground-truth engine relies on. */
module Pipeline {
  import opened Sequences
  import opened StableSort
  import opened EventLog
  import Catalog
  import EventStream
  import Entities
  import Dedup
  import GroundTruth
  import Lifecycle

  /** The lines of the file for given generated sides. */
  ghost function File(admin: seq<Event>, obs: seq<Event>): seq<Event> {
    Map(EventStream.Merged(admin, obs), EventStream.Stamped)
  }

  lemma FileMember(admin: seq<Event>, obs: seq<Event>, x: Event)
    requires x in admin || x in obs
    ensures EventStream.Stamped(x) in File(admin, obs)
  {
    EventStream.MergedMember(admin, obs, x);
    var m := EventStream.Merged(admin, obs);
    var i :| 0 <= i < |m| && m[i] == x;
    assert File(admin, obs)[i] == EventStream.Stamped(x);
  }

  lemma FileOrigin(admin: seq<Event>, obs: seq<Event>, y: Event) returns (x: Event)
    requires y in File(admin, obs)
    ensures (x in admin || x in obs) && EventStream.Stamped(x) == y
  {
    var m := EventStream.Merged(admin, obs);
    var i :| 0 <= i < |m| && File(admin, obs)[i] == y;
    x := m[i];
    assert x in m;
    EventStream.MergedMember(admin, obs, x);
  }

  ghost predicate BothSides(w: Catalog.World, admin: seq<Event>, obs: seq<Event>) {
    && Catalog.WorldOk(w)
    && EventStream.Generated(w, admin) && EventStream.AdminComplete(w, admin)
    && EventStream.Generated(w, obs) && EventStream.NoConflict(obs)
    && (forall e :: e in admin ==> !e.PriceObserved?)
    && (forall e :: e in obs ==> e.PriceObserved?)
  }

  lemma ListingDiscovered(w: Catalog.World, admin: seq<Event>, obs: seq<Event>, k: int, shop: Code, product: Code, t: int)
    requires BothSides(w, admin, obs)
    requires EventStream.IsListing(w, k, shop, product)
    requires w.listings[k].discovered <= t
    ensures DiscoveredBy(File(admin, obs), product, Catalog.RoundSecond(t))
    ensures RegisteredBy(File(admin, obs), shop, Catalog.RoundSecond(t))
    ensures w.listings[k].discovered + 2 * Catalog.SECOND <= t ==>
              DiscoveredBy(File(admin, obs), product, Catalog.RoundSecond(t) - 1)
  {
    hide Map, EventStream.Merged, EventStream.Generated, EventStream.NoConflict;
    assert EventStream.DiscoveryEmitted(w, admin, k);
    var d :| d in admin && d.ProductDiscovered? && EventStream.IsListing(w, k, d.shop, d.product)
      && d.time == w.listings[k].discovered;
    FileMember(admin, obs, d);
    Catalog.RoundMonotone(d.time, t);
    assert IsDiscovery(EventStream.Stamped(d), product);
    var s := w.listings[k].s;
    assert w.listings[k] in w.listings;
    assert EventStream.RegistrationEmitted(w, admin, s);
    var r :| r in admin && r.ShopRegistered? && EventStream.KnownShop(w, r.shop, s) && r.time == w.shops[s].registered;
    FileMember(admin, obs, r);
    Catalog.RoundMonotone(r.time, t);
    assert IsRegistration(EventStream.Stamped(r), shop);
  }

  lemma FilePatches(w: Catalog.World, admin: seq<Event>, obs: seq<Event>)
    requires BothSides(w, admin, obs)
    ensures PatchesFollowDiscovery(File(admin, obs))
  {
    hide File, DiscoveryLeads;
    forall y | y in File(admin, obs) && y.ProductAttrsChanged?
      ensures DiscoveredBy(File(admin, obs), y.product, y.time - 1)
    {
      var x := FileOrigin(admin, obs, y);
      assert EventStream.Sourced(w, x);
      var k, shop :| EventStream.IsListing(w, k, shop, x.product)
        && w.listings[k].discovered + 30 * Catalog.DAY <= x.time;
      ListingDiscovered(w, admin, obs, k, shop, x.product, x.time);
    }
    forall y, f | y in File(admin, obs) && y.ProductAttrsChanged? && f in y.changes
      ensures DiscoveryLeads(File(admin, obs), y.product, f)
    {
      EarlierDiscoveryLeads(File(admin, obs), y.product, f);
    }
  }

  lemma FileGrounded(w: Catalog.World, admin: seq<Event>, obs: seq<Event>)
    requires BothSides(w, admin, obs)
    ensures ObservationsGrounded(File(admin, obs))
  {
    hide File;
    forall y | y in File(admin, obs) && y.PriceObserved?
      ensures RegisteredBy(File(admin, obs), y.shop, y.time) && DiscoveredBy(File(admin, obs), y.product, y.time)
    {
      var x := FileOrigin(admin, obs, y);
      assert EventStream.Sourced(w, x);
      var k :| EventStream.IsListing(w, k, x.shop, x.product) && EventStream.Observable(w.listings[k], x.time);
      ListingDiscovered(w, admin, obs, k, x.shop, x.product, x.time);
    }
  }

  lemma FileRegisteredOnce(w: Catalog.World, admin: seq<Event>, obs: seq<Event>)
    requires BothSides(w, admin, obs)
    ensures RegisteredOnce(File(admin, obs))
  {
    forall s ensures |Filter(File(admin, obs), RegistrationsOf(s))| <= 1 {
      RegistrationsSurvive(admin, obs, s);
      assert |Filter(admin, RegistrationsOf(s))| <= 1;
    }
  }

  lemma RegistrationsSurvive(admin: seq<Event>, obs: seq<Event>, s: Code)
    requires forall e :: e in obs ==> e.PriceObserved?
    ensures |Filter(File(admin, obs), RegistrationsOf(s))| == |Filter(admin, RegistrationsOf(s))|
  {
    hide Filter, SortBy, Map;
    var p := RegistrationsOf(s);
    var m := EventStream.Merged(admin, obs);
    FilterMap(m, EventStream.Stamped, p, p);
    var a := SortBy(admin, EventStream.ByArrival);
    EventStream.KeepSide(a, obs, p);
    FilterNone(obs, p);
    SortFilter(admin, EventStream.ByArrival, p);
    SortSorts(Filter(admin, p), EventStream.ByArrival);
    assert Filter(a, p) + [] == Filter(a, p);
    SortSorts(Filter(a, p), EventStream.ByArrival);
  }

  /** Every shop is registered in the file exactly once. */
  lemma FileRegistersEach(w: Catalog.World, admin: seq<Event>, obs: seq<Event>, s: nat)
    requires BothSides(w, admin, obs) && s < |w.shops|
    ensures |Filter(File(admin, obs), RegistrationsOf(w.shops[s].code))| == 1
  {
    var shop := w.shops[s].code;
    FileRegisteredOnce(w, admin, obs);
    assert EventStream.RegistrationEmitted(w, admin, s);
    var r :| r in admin && r.ShopRegistered? && EventStream.KnownShop(w, r.shop, s) && r.time == w.shops[s].registered;
    FileMember(admin, obs, r);
    FilterMember(File(admin, obs), RegistrationsOf(shop), EventStream.Stamped(r));
    hide File, Filter;
    assert |Filter(File(admin, obs), RegistrationsOf(shop))| <= 1;
  }

  /** Every generated file meets every guarantee the engine needs. */
  lemma FileWellformed(w: Catalog.World, admin: seq<Event>, obs: seq<Event>)
    requires BothSides(w, admin, obs)
    ensures Wellformed(File(admin, obs))
    ensures EventStream.NoConflict(File(admin, obs))
  {
    hide File, EventStream.Merged, EventStream.NoConflict, PatchesFollowDiscovery, ObservationsGrounded, RegisteredOnce;
    FileRegisteredOnce(w, admin, obs);
    FilePatches(w, admin, obs);
    FileGrounded(w, admin, obs);
    forall y | y in File(admin, obs) ensures !y.Unknown? {
      var x := FileOrigin(admin, obs, y);
      assert EventStream.Sourced(w, x);
    }
    FileConflictFree(w, admin, obs);
  }

  lemma FileConflictFree(w: Catalog.World, admin: seq<Event>, obs: seq<Event>)
    requires BothSides(w, admin, obs)
    ensures EventStream.NoConflict(File(admin, obs))
  {
    hide File, EventStream.Merged;
    forall a, b | a in File(admin, obs) && b in File(admin, obs) && a.PriceObserved? && b.PriceObserved?
      && a.shop == b.shop && a.product == b.product && a.time == b.time
      ensures a.price == b.price && a.currency == b.currency
    {
      var x := FileOrigin(admin, obs, a);
      var y := FileOrigin(admin, obs, b);
      Catalog.RoundMonotone(x.time, x.time);
      Catalog.RoundMonotone(y.time, y.time);
      assert EventStream.Timely(x) && EventStream.Timely(y);
    }
  }

  // ----- The churn question has an answer

  lemma {:induction false} ListingEventsMember(w: Catalog.World, n: nat, k: nat, e: Event)
    requires Shaped(w)
    requires k < n <= |w.listings| && e in EventStream.EventsOfListing(w, w.listings[k])
    ensures e in EventStream.ListingEvents(w, n)
  {
    hide EventStream.EventsOfListing;
    if k < n - 1 {
      ListingEventsMember(w, n - 1, k, e);
    }
  }

  lemma MapMember(events: seq<Event>, p: Event -> bool, f: Event -> Event, y: Event) returns (x: Event)
    requires y in Map(Filter(events, p), f)
    ensures x in events && f(x) == y
  {
    var kept := Filter(events, p);
    var i :| 0 <= i < |kept| && Map(kept, f)[i] == y;
    x := kept[i];
    FilterMember(events, p, x);
  }

  /** The delist of a listing is among the admin events. */
  lemma DelistEmitted(w: Catalog.World, admin: seq<Event>, k: nat) returns (e: Event)
    requires Shaped(w)
    requires k < |w.listings| && w.listings[k].delist.Some? && EventStream.AdminMade(w, admin)
    ensures e in admin && e.ProductDelisted? && e.time == w.listings[k].delist.value
    ensures e.shop == w.shops[w.listings[k].s].code && e.product == w.products[w.listings[k].p].code
  {
    var li := w.listings[k];
    var bare := ProductDelisted(li.delist.value, 0, w.shops[li.s].code, w.products[li.p].code);
    assert bare in EventStream.EventsOfListing(w, li);
    ListingEventsMember(w, |w.listings|, k, bare);
    hide EventStream.ListingEvents, EventStream.EventsOfListing, Filter, Map;
    e := MapMember(admin, EventStream.OfListing, EventStream.Bare, bare);
  }

  lemma RelistEmitted(w: Catalog.World, admin: seq<Event>, k: nat) returns (e: Event)
    requires Shaped(w) && EventStream.AdminMade(w, admin)
    requires k < |w.listings| && w.listings[k].delist.Some? && w.listings[k].relist.Some?
    ensures e in admin && e.ProductRelisted? && e.time == w.listings[k].relist.value
    ensures e.shop == w.shops[w.listings[k].s].code && e.product == w.products[w.listings[k].p].code
  {
    var li := w.listings[k];
    var bare := ProductRelisted(li.relist.value, 0, w.shops[li.s].code, w.products[li.p].code);
    assert bare in EventStream.EventsOfListing(w, li);
    ListingEventsMember(w, |w.listings|, k, bare);
    hide EventStream.ListingEvents, EventStream.EventsOfListing, Filter, Map;
    e := MapMember(admin, EventStream.OfListing, EventStream.Bare, bare);
  }

  /** A lifecycle event in the file is the delist or the relist of its listing, in whole seconds. */
  lemma LifecycleOrigin(w: Catalog.World, admin: seq<Event>, obs: seq<Event>, y: Event) returns (k: nat)
    requires BothSides(w, admin, obs) && y in File(admin, obs) && (y.ProductDelisted? || y.ProductRelisted?)
    ensures EventStream.IsListing(w, k, y.shop, y.product)
    ensures y.ProductDelisted? ==> w.listings[k].delist.Some? && y.time == Catalog.RoundSecond(w.listings[k].delist.value)
    ensures y.ProductRelisted? ==> w.listings[k].relist.Some? && y.time == Catalog.RoundSecond(w.listings[k].relist.value)
  {
    hide File, EventStream.AdminComplete, EventStream.NoConflict;
    var x := FileOrigin(admin, obs, y);
    assert EventStream.Sourced(w, x);
    if y.ProductDelisted? {
      var j :| EventStream.IsListing(w, j, x.shop, x.product) && w.listings[j].delist == Some(x.time);
      k := j;
    } else {
      var j :| EventStream.IsListing(w, j, x.shop, x.product) && w.listings[j].relist == Some(x.time);
      k := j;
    }
  }

  /** The events of a listing's lifecycle in the file, in stable event_time order. */
  lemma HistoryOf(log: seq<Event>, l: (Code, Code), e: Event)
    ensures var h := Lifecycle.LifecycleOf(log, l);
            && (e in h <==> e in log && ConcernsListing(e, l.0, l.1))
            && (e in h ==> h != [] && Last(h) in h && e.time <= Last(h).time)
  {
    var mine := Filter(log, Entities.OnListing(l.0, l.1));
    var h := SortBy(mine, ByTime);
    SortMember(mine, ByTime, e);
    FilterMember(log, Entities.OnListing(l.0, l.1), e);
    SortSorts(mine, ByTime);
    hide SortBy, Filter;
    if e in h {
      var i :| 0 <= i < |h| && h[i] == e;
      assert i == |h| - 1 || ByTime(h[i]).AtMost(ByTime(h[|h| - 1]));
    }
  }

  /** The listing that was delisted for good in 2025, as the question reports it. */
  ghost predicate ChurnedListing(w: Catalog.World, l: (Code, Code), t: int) {
    exists k :: EventStream.IsListing(w, k, l.0, l.1) && Catalog.Churns(w.listings[k])
                && t == Catalog.RoundSecond(w.listings[k].delist.value)
  }

  lemma SameListingSame(w: Catalog.World, j: int, k: int, shop: Code, product: Code)
    requires Catalog.WorldOk(w) && EventStream.IsListing(w, j, shop, product) && EventStream.IsListing(w, k, shop, product)
    ensures j == k
  {
    EventStream.ListingUnique(w, j, k, shop, product);
  }

  lemma OrderedLives(w: Catalog.World, k: int)
    requires Catalog.WorldOk(w) && 0 <= k < |w.listings|
    ensures Catalog.LifecycleOrdered(w.listings[k])
    ensures var li := w.listings[k];
            li.delist.Some? && li.relist.Some? ==> Catalog.RoundSecond(li.delist.value) < Catalog.RoundSecond(li.relist.value)
  {
    assert w.listings[k] in w.listings;
    var li := w.listings[k];
    if li.delist.Some? && li.relist.Some? {
      Catalog.RoundMonotone(li.delist.value, li.relist.value);
    }
  }

  /** A listing the generator churns is churned in the file. */
  lemma ChurnIsAnswered(w: Catalog.World, admin: seq<Event>, obs: seq<Event>, l: (Code, Code), k: nat)
    requires BothSides(w, admin, obs) && Shaped(w) && EventStream.AdminMade(w, admin)
    requires EventStream.IsListing(w, k, l.0, l.1) && Catalog.Churns(w.listings[k])
    ensures Lifecycle.ChurnedAt(File(admin, obs), l, Catalog.RoundSecond(w.listings[k].delist.value))
  {
    var log := File(admin, obs);
    var e := DelistEmitted(w, admin, k);
    FileMember(admin, obs, e);
    HistoryOf(log, l, EventStream.Stamped(e));
    var h := Lifecycle.LifecycleOf(log, l);
    var y := Last(h);
    HistoryOf(log, l, y);
    hide File, EventStream.AdminMade, Lifecycle.LifecycleOf, EventStream.Generated, Catalog.WorldOk;
    var j := LifecycleOrigin(w, admin, obs, y);
    SameListingSame(w, j, k, l.0, l.1);
  }

  /** A listing churned in the file is one the generator churned. */
  lemma AnswerIsChurn(w: Catalog.World, admin: seq<Event>, obs: seq<Event>, l: (Code, Code), t: int)
    requires BothSides(w, admin, obs) && Shaped(w) && EventStream.AdminMade(w, admin)
    requires Lifecycle.ChurnedAt(File(admin, obs), l, t)
    ensures ChurnedListing(w, l, t)
  {
    var log := File(admin, obs);
    var h := Lifecycle.LifecycleOf(log, l);
    var y := Last(h);
    HistoryOf(log, l, y);
    hide File, EventStream.AdminMade, Lifecycle.LifecycleOf, EventStream.Generated, Catalog.WorldOk;
    var k := LifecycleOrigin(w, admin, obs, y);
    OrderedLives(w, k);
    if w.listings[k].relist.Some? {
      var r := RelistEmitted(w, admin, k);
      FileMember(admin, obs, r);
      HistoryOf(log, l, EventStream.Stamped(r));
    }
    hide Catalog.RoundSecond, Catalog.LifecycleOrdered;
    assert Catalog.Churns(w.listings[k]);
  }

  // ----- From the draws to the answers

  ghost predicate Shaped(w: Catalog.World) {
    forall i :: 0 <= i < |w.listings| ==> w.listings[i].s < |w.shops| && w.listings[i].p < |w.products|
  }

  /** A file that the generator can write for this world. */
  ghost predicate FileOf(w: Catalog.World, file: seq<Event>) {
    && Shaped(w)
    && exists admin, obs :: BothSides(w, admin, obs) && EventStream.AdminMade(w, admin) && file == File(admin, obs)
  }

  /** In every file of a world the churned listings are exactly those the generator churned. */
  lemma ChurnedIff(w: Catalog.World, file: seq<Event>, l: (Code, Code), t: int)
    requires FileOf(w, file)
    ensures Lifecycle.ChurnedAt(file, l, t) <==> ChurnedListing(w, l, t)
  {
    var admin, obs :| BothSides(w, admin, obs) && EventStream.AdminMade(w, admin) && file == File(admin, obs);
    hide BothSides, EventStream.AdminMade, File, Lifecycle.ChurnedAt, Catalog.Churns, Shaped;
    if Lifecycle.ChurnedAt(file, l, t) {
      AnswerIsChurn(w, admin, obs, l, t);
    }
    if ChurnedListing(w, l, t) {
      var k :| EventStream.IsListing(w, k, l.0, l.1) && Catalog.Churns(w.listings[k])
               && t == Catalog.RoundSecond(w.listings[k].delist.value);
      ChurnIsAnswered(w, admin, obs, l, k);
    }
  }

  /** A file has a churned listing exactly if its world has one. */
  lemma FileChurnsIff(w: Catalog.World, file: seq<Event>)
    requires FileOf(w, file)
    ensures (exists l, t :: Lifecycle.ChurnedAt(file, l, t)) <==> Catalog.SomeChurns(w.listings)
  {
    assert Shaped(w);
    hide FileOf, Lifecycle.ChurnedAt, Catalog.Churns;
    if l, t :| Lifecycle.ChurnedAt(file, l, t) {
      ChurnedIff(w, file, l, t);
    }
    if Catalog.SomeChurns(w.listings) {
      var k :| 0 <= k < |w.listings| && Catalog.Churns(w.listings[k]);
      var l := (w.shops[w.listings[k].s].code, w.products[w.listings[k].p].code);
      assert EventStream.IsListing(w, k, l.0, l.1);
      ChurnedIff(w, file, l, Catalog.RoundSecond(w.listings[k].delist.value));
    }
  }

  /** Every file the generator can write for the five early listings leaves the churn
      question without a row, whatever else is drawn. */
  lemma FiveEarlyHasNoAnswer(order: nat -> seq<nat>, life: nat -> Catalog.LifeDraw, file: seq<Event>, l: (Code, Code), t: int)
    requires forall n :: IsPermutation(order(n), n)
    requires Catalog.Drawable(Catalog.FiveEarly(order, life))
    requires FileOf(Catalog.WorldOf(Catalog.FiveEarly(order, life)), file)
    ensures !Lifecycle.ChurnedAt(file, l, t)
  {
    Catalog.FiveEarlyNeverChurns(order, life);
    hide *;
    FileChurnsIff(Catalog.WorldOf(Catalog.FiveEarly(order, life)), file);
  }

  /** Everything drawn on the way to a file. */
  datatype StreamDraws = StreamDraws(world: Catalog.WorldDraws, targets: seq<nat>, offsets: nat -> seq<nat>)

  /** The observation times drawn for every listing. */
  ghost function TimesOf(w: Catalog.World, d: StreamDraws): seq<seq<int>> {
    seq(|w.listings|, k requires 0 <= k < |w.listings| => EventStream.TimesAt(w.listings[k], d.offsets(k)))
  }

  lemma TimesAreDrawn(w: Catalog.World, d: StreamDraws)
    ensures var times := TimesOf(w, d);
            |times| == |w.listings| && forall k :: 0 <= k < |times| ==> EventStream.Drawn(w.listings[k], times[k])
  {
    hide EventStream.Drawn, EventStream.TimesAt;
    var times := TimesOf(w, d);
    forall k | 0 <= k < |times| ensures EventStream.Drawn(w.listings[k], times[k]) {
      EventStream.TimesDrawn(w.listings[k], d.offsets(k));
    }
  }

  method DrawTimes(w: Catalog.World, d: StreamDraws) returns (times: seq<seq<int>>)
    ensures times == TimesOf(w, d)
  {
    hide EventStream.TimesAt;
    times := seq(|w.listings|, k requires 0 <= k < |w.listings| => EventStream.TimesAt(w.listings[k], d.offsets(k)));
  }

  /** Generate and write: a file, unless no listing can be observed at all. */
  method GenerateFile(d: StreamDraws) returns (w: Catalog.World, r: Result<seq<Event>, EventStream.NoChunks>)
    requires Catalog.Drawable(d.world)
    ensures w == Catalog.WorldOf(d.world) && |TimesOf(w, d)| == |w.listings|
    ensures r.Err? <==> EventStream.NothingToObserve(w, TimesOf(w, d))
    ensures r.Ok? ==> FileOf(w, r.value) && Entities.Observations(r.value) != []
    ensures r.Ok? ==> Wellformed(r.value) && EventStream.NoConflict(r.value)
  {
    hide Catalog.WorldOf, Catalog.WorldOk, Catalog.Drawable, EventStream.Merged, EventStream.Generated, EventStream.AdminComplete;
    hide EventStream.NoConflict, EventStream.NothingToObserve, EventStream.ObservedExactly, Map, Wellformed;
    hide Entities.Observations, EventStream.AdminMade, EventStream.Drawn, TimesOf, FileOf, Sorted;
    w := Catalog.BuildWorld(d.world);
    var admin, _ := EventStream.BuildAdminEvents(w, d.targets);
    var times := DrawTimes(w, d);
    TimesAreDrawn(w, d);
    var obs := EventStream.BuildObservations(w, times);
    if obs.Err? {
      return w, Err(EventStream.NoChunks);
    }
    var file := EventStream.WriteEvents(admin, obs.value);
    Written(w, admin, obs.value);
    return w, Ok(file);
  }

  lemma Written(w: Catalog.World, admin: seq<Event>, obs: seq<Event>)
    requires BothSides(w, admin, obs) && Shaped(w) && EventStream.AdminMade(w, admin) && obs != []
    ensures FileOf(w, File(admin, obs)) && Entities.Observations(File(admin, obs)) != []
    ensures Wellformed(File(admin, obs)) && EventStream.NoConflict(File(admin, obs))
  {
    FileWellformed(w, admin, obs);
    assert obs[0] in obs && obs[0].PriceObserved?;
    hide File, Wellformed, EventStream.AdminMade, BothSides, EventStream.NoConflict, Entities.Observations;
    SomethingObserved(admin, obs);
  }

  lemma SomethingObserved(admin: seq<Event>, obs: seq<Event>)
    requires obs != [] && obs[0].PriceObserved?
    ensures Entities.Observations(File(admin, obs)) != []
  {
    var log := File(admin, obs);
    FileMember(admin, obs, obs[0]);
    hide File, Filter;
    var y := EventStream.Stamped(obs[0]);
    assert y in log && y.PriceObserved?;
    hide EventStream.Stamped;
    ObservedEvent(log, y);
  }

  lemma ObservedEvent(log: seq<Event>, y: Event)
    requires y in log && y.PriceObserved?
    ensures Entities.Observations(log) != []
  {
    FilterMember(log, Entities.IsObservation, y);
    hide Filter;
  }

  /** Generate, write, parse, deduplicate, enrich: for every draw that observes anything, the
      answer engine attaches to each distinct observation what folding the file gives. */
  method GenerateAndEnrich(d: StreamDraws)
    returns (w: Catalog.World, r: Result<(seq<Event>, Dedup.Arrays, GroundTruth.Enrichment), EventStream.NoChunks>)
    requires Catalog.Drawable(d.world)
    ensures w == Catalog.WorldOf(d.world) && |TimesOf(w, d)| == |w.listings|
    ensures r.Err? <==> EventStream.NothingToObserve(w, TimesOf(w, d))
    ensures r.Ok? ==>
              && FileOf(w, r.value.0) && Wellformed(r.value.0) && EventStream.NoConflict(r.value.0)
              && Dedup.InTables(r.value.1)
              && Dedup.KeepsFirsts(Dedup.Decoded(r.value.1), Entities.Observations(r.value.0), Dedup.ObservationKey)
              && GroundTruth.HoldsFirstLines(r.value.0, r.value.1)
              && GroundTruth.FoldsThroughout(r.value.0, r.value.1, r.value.2)
  {
    hide GroundTruth.HoldsFirstLines;
    hide FileOf, Wellformed, EventStream.NoConflict, Entities.Observations, GroundTruth.FoldsThroughout, Dedup.KeepsFirsts;
    var file;
    w, file := GenerateFile(d);
    if file.Err? {
      return w, Err(EventStream.NoChunks);
    }
    var a, e := GroundTruth.ComputeAsOf(file.value);
    return w, Ok((file.value, a, e));
  }

  datatype ChurnFailure = NothingObserved | NoRows

  /** Generate, write, parse, ask the churn question by itself: its rows are exactly the
      listings the generator churned, and there are none exactly if it churned none. */
  method GenerateAndAskChurn(d: StreamDraws)
    returns (w: Catalog.World, r: Result<seq<Lifecycle.Churn>, ChurnFailure>)
    requires Catalog.Drawable(d.world)
    ensures w == Catalog.WorldOf(d.world) && |TimesOf(w, d)| == |w.listings|
    ensures r == Err(NothingObserved) <==> EventStream.NothingToObserve(w, TimesOf(w, d))
    ensures r == Err(NoRows) <==> !EventStream.NothingToObserve(w, TimesOf(w, d)) && !Catalog.SomeChurns(w.listings)
    ensures r.Ok? ==> forall c :: c in r.value <==> ChurnedListing(w, (c.shop, c.product), c.delisted)
    ensures Catalog.ForcesChurn(Catalog.NewListings(d.world), Catalog.ChosenOf(d.world)) ==> r != Err(NoRows)
  {
    var file;
    w, file := GenerateFile(d);
    if file.Err? {
      return w, Err(NothingObserved);
    }
    assert forall e :: e in file.value ==> !e.Unknown?;
    ForcedWorldChurns(d.world);
    hide FileOf, Wellformed, EventStream.NoConflict, Lifecycle.ChurnedAt, ChurnedListing, Catalog.SomeChurns, Catalog.WorldOf;
    hide EventStream.NothingToObserve, Catalog.ForcesChurn, TimesOf;
    FileChurnsIff(w, file.value);
    var parsed := Entities.ParseEvents(file.value);
    var rows := Lifecycle.ChurnRows(parsed.value.0, file.value);
    forall c: Lifecycle.Churn
      ensures Lifecycle.ChurnedAt(file.value, (c.shop, c.product), c.delisted)
         <==> ChurnedListing(w, (c.shop, c.product), c.delisted)
    {
      ChurnedIff(w, file.value, (c.shop, c.product), c.delisted);
    }
    if rows.Err? {
      return w, Err(NoRows);
    }
    return w, Ok(rows.value);
  }

  lemma ForcedWorldChurns(d: Catalog.WorldDraws)
    requires Catalog.Drawable(d)
    ensures Catalog.ForcesChurn(Catalog.NewListings(d), Catalog.ChosenOf(d)) ==> Catalog.SomeChurns(Catalog.WorldOf(d).listings)
  {
    hide Catalog.ForcesChurn, Catalog.SomeChurns, Catalog.WorldOf, Catalog.Drawable, Catalog.NewListings, Catalog.ChosenOf;
    if Catalog.ForcesChurn(Catalog.NewListings(d), Catalog.ChosenOf(d)) {
      Catalog.AlwaysChurns(d, d.life);
      assert d.(life := d.life) == d;
    }
  }

  /** Five early listings, each observed from its first moment on: the churn question, asked
      by itself, collects no row. */
  method AskFiveEarly(order: nat -> seq<nat>, life: nat -> Catalog.LifeDraw, targets: seq<nat>)
    returns (r: Result<seq<Lifecycle.Churn>, ChurnFailure>)
    requires forall n :: IsPermutation(order(n), n)
    ensures r == Err(NoRows)
  {
    var d := StreamDraws(Catalog.FiveEarly(order, life), targets, (k: nat) => [0, 0, 0]);
    Catalog.FiveEarlyDrawable(order, life);
    Catalog.FiveEarlyNeverChurns(order, life);
    FirstMomentObserved(d);
    hide *;
    var w;
    w, r := GenerateAndAskChurn(d);
  }

  lemma FirstMomentObserved(d: StreamDraws)
    requires Catalog.Drawable(d.world) && |Catalog.WorldOf(d.world).listings| > 0
    requires var li := Catalog.WorldOf(d.world).listings[0];
             li.discovered == Catalog.T0 + Catalog.DAY && Catalog.LifecycleOrdered(li)
    requires |d.offsets(0)| > 0 && d.offsets(0)[0] == 0
    ensures var w := Catalog.WorldOf(d.world);
            |TimesOf(w, d)| == |w.listings| && !EventStream.NothingToObserve(w, TimesOf(w, d))
  {
    var w := Catalog.WorldOf(d.world);
    hide Catalog.WorldOf, Catalog.Drawable, Catalog.RoundSecond;
    var li, times := w.listings[0], TimesOf(w, d)[0];
    assert times[0] == li.discovered + 6 * Catalog.HOUR;
    assert times[0] in times && !EventStream.Masked(li, times[0]);
    assert Catalog.RoundSecond(times[0]) in EventStream.SecondsOf(li, times);
  }
}
