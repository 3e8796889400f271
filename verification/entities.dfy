/** One pass over the stream that files every admin event under its entity, and
    the finalising step that turns the files into sorted breakpoints. */
module Entities {
  import opened Basics
  import opened Sequences
  import opened StableSort
  import opened EventLog
  import opened AsOf

  type Listing = (Code, Code)

  datatype Transition = Transition(time: int, relisted: bool)

  datatype Observation = Observation(shop: Code, product: Code, time: int, arrival: int,
                                     price: int, currency: Currency)

  datatype ParseError = UnknownEventType

  function TransitionKey(t: Transition): Key { Key(t.time, 0, 0) }

  /** dict.get(k, []) */
  function Lookup<K, V>(m: map<K, seq<V>>, k: K): seq<V> {
    if k in m then m[k] else []
  }

  /** dict.setdefault(k, []).append(v) */
  function Push<K, V>(m: map<K, seq<V>>, k: K, v: V): map<K, seq<V>> {
    m[k := Lookup(m, k) + [v]]
  }

  function OnListing(shop: Code, product: Code): Event -> bool {
    (e: Event) => ConcernsListing(e, shop, product)
  }

  function TransitionOf(e: Event): Transition {
    Transition(e.time, e.ProductRelisted?)
  }

  function Transitions(log: seq<Event>, l: Listing): seq<Transition> {
    Map(Filter(log, OnListing(l.0, l.1)), TransitionOf)
  }

  function DiscoveriesOn(l: Listing): Event -> bool {
    (e: Event) => e.ProductDiscovered? && e.shop == l.0 && e.product == l.1
  }

  function WithField(f: Field): Patch -> bool {
    (p: Patch) => p.field == f
  }

  predicate IsObservation(e: Event) {
    e.PriceObserved?
  }

  function ObservationOf(e: Event): Observation {
    if e.PriceObserved? then Observation(e.shop, e.product, e.time, e.arrival, e.price, e.currency)
    else Observation(0, 0, 0, 0, 0, USD)
  }

  function Observations(log: seq<Event>): seq<Observation> {
    Map(Filter(log, IsObservation), ObservationOf)
  }

  // ----- What each dictionary holds after a prefix of the stream

  ghost predicate FilesTiers(m: map<Code, seq<Stamp>>, log: seq<Event>) {
    forall s :: Lookup(m, s) == TierStamps(log, s) && (s in m ==> m[s] != [])
  }

  ghost predicate FilesNames(m: map<Code, seq<Stamp>>, log: seq<Event>) {
    forall s :: Lookup(m, s) == NameStamps(log, s) && (s in m ==> m[s] != [])
  }

  ghost predicate FilesDiscoveries(m: map<Code, seq<Discovery>>, log: seq<Event>) {
    forall p :: Lookup(m, p) == Discoveries(log, p) && (p in m ==> m[p] != [])
  }

  ghost predicate FilesTransitions(m: map<Listing, seq<Transition>>, log: seq<Event>) {
    forall l :: Lookup(m, l) == Transitions(log, l) && (l in m ==> m[l] != [])
  }

  ghost predicate FilesPatches(m: map<Code, seq<Patch>>, log: seq<Event>) {
    forall p, f :: Filter(Lookup(m, p), WithField(f)) == Patches(log, p, f)
  }

  ghost predicate FilesCountries(m: map<Code, Text>, log: seq<Event>) {
    forall s :: var all := Filter(log, RegistrationsOf(s));
      (s in m <==> all != []) && (s in m ==> all[|all| - 1].ShopRegistered? && m[s] == all[|all| - 1].country)
  }

  ghost predicate FilesDiscovered(m: map<Listing, int>, log: seq<Event>) {
    forall l :: EarliestDiscovery(m, l, Filter(log, DiscoveriesOn(l)))
  }

  lemma {:induction false} SelectStep<U>(log: seq<Event>, e: Event, p: Event -> bool, stamp: Event -> U)
    ensures Map(Filter(log + [e], p), stamp)
         == Map(Filter(log, p), stamp) + if p(e) then [stamp(e)] else []
  {
    InitAppend(log, e);
    InitAppend(Filter(log, p), e);
  }

  lemma {:induction false} FilterStep(log: seq<Event>, e: Event, p: Event -> bool)
    ensures Filter(log + [e], p) == Filter(log, p) + if p(e) then [e] else []
  {
    InitAppend(log, e);
  }

  // ----- Effect of one more event on every file

  function TierFile(m: map<Code, seq<Stamp>>, e: Event): map<Code, seq<Stamp>> {
    if e.ShopRegistered? || e.ShopTierChanged? then Push(m, e.shop, TierStamp(e)) else m
  }

  function NameFile(m: map<Code, seq<Stamp>>, e: Event): map<Code, seq<Stamp>> {
    if e.ShopRegistered? || e.ShopRenamed? then Push(m, e.shop, NameStamp(e)) else m
  }

  function DiscoveryFile(m: map<Code, seq<Discovery>>, e: Event): map<Code, seq<Discovery>> {
    if e.ProductDiscovered? then Push(m, e.product, DiscoveryOf(e)) else m
  }

  function TransitionFile(m: map<Listing, seq<Transition>>, e: Event): map<Listing, seq<Transition>> {
    if e.ProductDelisted? || e.ProductRelisted? then Push(m, (e.shop, e.product), TransitionOf(e)) else m
  }

  function CountryFile(m: map<Code, Text>, e: Event): map<Code, Text> {
    if e.ShopRegistered? then m[e.shop := e.country] else m
  }

  function DiscoveredFile(m: map<Listing, int>, e: Event): map<Listing, int> {
    if e.ProductDiscovered? && ((e.shop, e.product) !in m || e.time < m[(e.shop, e.product)])
    then m[(e.shop, e.product) := e.time] else m
  }

  lemma TierStep(m: map<Code, seq<Stamp>>, log: seq<Event>, e: Event)
    requires FilesTiers(m, log)
    ensures FilesTiers(TierFile(m, e), log + [e])
  {
    var m' := TierFile(m, e);
    forall s ensures Lookup(m', s) == TierStamps(log + [e], s) && (s in m' ==> m'[s] != []) {
      assert Lookup(m, s) == TierStamps(log, s);
      SelectStep(log, e, TierSetters(s), TierStamp);
    }
  }

  lemma NameStep(m: map<Code, seq<Stamp>>, log: seq<Event>, e: Event)
    requires FilesNames(m, log)
    ensures FilesNames(NameFile(m, e), log + [e])
  {
    var m' := NameFile(m, e);
    forall s ensures Lookup(m', s) == NameStamps(log + [e], s) && (s in m' ==> m'[s] != []) {
      assert Lookup(m, s) == NameStamps(log, s);
      SelectStep(log, e, NameSetters(s), NameStamp);
    }
  }

  lemma DiscoveryStep(m: map<Code, seq<Discovery>>, log: seq<Event>, e: Event)
    requires FilesDiscoveries(m, log)
    ensures FilesDiscoveries(DiscoveryFile(m, e), log + [e])
  {
    var m' := DiscoveryFile(m, e);
    forall p ensures Lookup(m', p) == Discoveries(log + [e], p) && (p in m' ==> m'[p] != []) {
      assert Lookup(m, p) == Discoveries(log, p);
      SelectStep(log, e, DiscoveriesOf(p), DiscoveryOf);
    }
  }

  lemma TransitionStep(m: map<Listing, seq<Transition>>, log: seq<Event>, e: Event)
    requires FilesTransitions(m, log)
    ensures FilesTransitions(TransitionFile(m, e), log + [e])
  {
    var m' := TransitionFile(m, e);
    forall l ensures Lookup(m', l) == Transitions(log + [e], l) && (l in m' ==> m'[l] != []) {
      assert Lookup(m, l) == Transitions(log, l);
      SelectStep(log, e, OnListing(l.0, l.1), TransitionOf);
    }
  }

  lemma CountryStep(m: map<Code, Text>, log: seq<Event>, e: Event)
    requires FilesCountries(m, log)
    ensures FilesCountries(CountryFile(m, e), log + [e])
  {
    forall s ensures Filter(log + [e], RegistrationsOf(s))
                  == Filter(log, RegistrationsOf(s)) + if IsRegistration(e, s) then [e] else [] {
      FilterStep(log, e, RegistrationsOf(s));
    }
  }

  ghost predicate EarliestDiscovery(m: map<Listing, int>, l: Listing, all: seq<Event>) {
    && (l in m <==> all != [])
    && (l in m ==> (exists e :: e in all && e.time == m[l]) && forall e :: e in all ==> m[l] <= e.time)
  }

  lemma DiscoveredStep(m: map<Listing, int>, log: seq<Event>, e: Event)
    requires FilesDiscovered(m, log)
    ensures FilesDiscovered(DiscoveredFile(m, e), log + [e])
  {
    var m' := DiscoveredFile(m, e);
    forall l ensures EarliestDiscovery(m', l, Filter(log + [e], DiscoveriesOn(l))) {
      FilterStep(log, e, DiscoveriesOn(l));
      assert EarliestDiscovery(m, l, Filter(log, DiscoveriesOn(l)));
      DiscoveredPoint(m, l, Filter(log, DiscoveriesOn(l)), e);
    }
  }

  lemma DiscoveredPoint(m: map<Listing, int>, l: Listing, before: seq<Event>, e: Event)
    requires EarliestDiscovery(m, l, before)
    ensures EarliestDiscovery(DiscoveredFile(m, e), l, before + if DiscoveriesOn(l)(e) then [e] else [])
  {
    var m' := DiscoveredFile(m, e);
    if DiscoveriesOn(l)(e) {
      var after := before + [e];
      assert e in after;
      if l in m && m[l] <= e.time {
        var x :| x in before && x.time == m[l];
        assert x in after;
      }
    } else {
      assert before + [] == before;
    }
  }

  lemma {:induction false} PatchFilterStep(ps: seq<Patch>, p: Patch, f: Field)
    ensures Filter(ps + [p], WithField(f)) == Filter(ps, WithField(f)) + if p.field == f then [p] else []
  {
    InitAppend(ps, p);
  }

  ghost predicate FiledPatches(m: map<Code, seq<Patch>>, m': map<Code, seq<Patch>>, e: Event) {
    forall p, f :: Filter(Lookup(m', p), WithField(f))
                == Filter(Lookup(m, p), WithField(f)) + if SetsField(e, p, f) then [PatchOf(e, f)] else []
  }

  /** The fields not in `left` have been filed. */
  ghost predicate FiledBut(m: map<Code, seq<Patch>>, m': map<Code, seq<Patch>>, e: Event, left: set<Field>)
    requires e.ProductAttrsChanged?
  {
    forall p, f :: Filter(Lookup(m', p), WithField(f))
                == Filter(Lookup(m, p), WithField(f)) + if SetsField(e, p, f) && f !in left then [PatchOf(e, f)] else []
  }

  lemma NothingFiled(m: map<Code, seq<Patch>>, e: Event)
    requires e.ProductAttrsChanged?
    ensures FiledBut(m, m, e, e.changes.Keys)
  {
  }

  lemma FiledAt(m: map<Code, seq<Patch>>, m': map<Code, seq<Patch>>, e: Event, left: set<Field>, p: Code, f: Field)
    requires e.ProductAttrsChanged? && FiledBut(m, m', e, left)
    ensures Filter(Lookup(m', p), WithField(f))
         == Filter(Lookup(m, p), WithField(f)) + if SetsField(e, p, f) && f !in left then [PatchOf(e, f)] else []
  {
  }

  lemma FieldFiled(m: map<Code, seq<Patch>>, m': map<Code, seq<Patch>>, e: Event, left: set<Field>, field: Field)
    requires e.ProductAttrsChanged? && field in left && left <= e.changes.Keys && FiledBut(m, m', e, left)
    ensures FiledBut(m, Push(m', e.product, PatchOf(e, field)), e, left - {field})
  {
    var r := Push(m', e.product, PatchOf(e, field));
    forall p, f
      ensures Filter(Lookup(r, p), WithField(f))
           == Filter(Lookup(m, p), WithField(f)) + if SetsField(e, p, f) && f !in left - {field} then [PatchOf(e, f)] else []
    {
      hide Filter, FiledBut;
      FiledAt(m, m', e, left, p, f);
      if p == e.product {
        PatchFilterStep(Lookup(m', p), PatchOf(e, field), f);
      }
    }
  }

  lemma AllFiled(m: map<Code, seq<Patch>>, m': map<Code, seq<Patch>>, e: Event)
    requires e.ProductAttrsChanged? && FiledBut(m, m', e, {})
    ensures FiledPatches(m, m', e)
  {
  }

  /** The ordering of `changes.items()` does not matter: field by field the file is the same. */
  lemma PatchesStep(m: map<Code, seq<Patch>>, m': map<Code, seq<Patch>>, log: seq<Event>, e: Event)
    requires FilesPatches(m, log)
    requires FiledPatches(m, m', e)
    ensures FilesPatches(m', log + [e])
  {
    forall p, f ensures Filter(Lookup(m', p), WithField(f)) == Patches(log + [e], p, f) {
      assert Filter(Lookup(m, p), WithField(f)) == Patches(log, p, f);
      assert Filter(Lookup(m', p), WithField(f))
          == Filter(Lookup(m, p), WithField(f)) + if SetsField(e, p, f) then [PatchOf(e, f)] else [];
      SelectStep(log, e, FieldSetters(p, f), PatchesTo(f));
    }
  }

  // ----- Finalising

  /** First discovery, then the patches of attribute `f` in the given order. */
  function Trail(first: Discovery, patches: seq<Patch>, f: Field): seq<Stamp> {
    [Initially(first, f)] + Map(Filter(patches, WithField(f)), PatchStamp)
  }

  function FieldBreakpoints(found: seq<Discovery>, patches: seq<Patch>, f: Field): Breakpoints
    requires found != []
  {
    Unzip(Trail(found[0], patches, f))
  }

  lemma TrailStep(first: Discovery, patches: seq<Patch>, p: Patch, f: Field)
    ensures Trail(first, patches + [p], f)
         == Trail(first, patches, f) + if p.field == f then [PatchStamp(p)] else []
  {
    hide Filter, Map;
    PatchFilterStep(patches, p, f);
    MapAppend(Filter(patches, WithField(f)), p, PatchStamp);
    assert Filter(patches, WithField(f)) + [] == Filter(patches, WithField(f));
  }

  lemma FieldBreakpointsMeaning(log: seq<Event>, product: Code, patches: seq<Patch>, f: Field)
    requires Discoveries(log, product) != []
    requires Filter(patches, WithField(f)) == Patches(log, product, f)
    ensures SortBy(Discoveries(log, product), DiscoveryKey) != []
    ensures FieldBreakpoints(SortBy(Discoveries(log, product), DiscoveryKey), SortBy(patches, PatchKey), f)
         == Unzip(FieldStamps(log, product, f))
  {
    SortSorts(Discoveries(log, product), DiscoveryKey);
    SortFilter(patches, PatchKey, WithField(f));
  }

  ghost predicate TableOf(log: seq<Event>, product: Code, f: Field, bp: Breakpoints) {
    Discoveries(log, product) != [] && bp == Unzip(FieldStamps(log, product, f))
  }

  lemma FiledKeys(m: map<Code, seq<Discovery>>, log: seq<Event>)
    requires FilesDiscoveries(m, log)
    ensures forall p :: p in m <==> Discoveries(log, p) != []
  {
    forall p ensures p in m <==> Discoveries(log, p) != [] {
      assert Lookup(m, p) == Discoveries(log, p);
    }
  }

  lemma EmptySort<V>(key: V -> Key)
    ensures SortBy([], key) == []
  {
  }

  ghost predicate FieldTables(m: map<Code, Breakpoints>, log: seq<Event>, f: Field) {
    && (forall p :: p in m <==> Discoveries(log, p) != [])
    && (forall p :: p in m ==> TableOf(log, p, f, m[p]))
  }

  lemma TablesComplete(m: map<Code, Breakpoints>, log: seq<Event>, f: Field)
    requires forall p :: p in m <==> Discoveries(log, p) != []
    requires forall p :: p in m ==> TableOf(log, p, f, m[p])
    ensures FieldTables(m, log, f)
  {
  }

  ghost predicate TierTables(m: map<Code, Breakpoints>, log: seq<Event>) {
    && (forall s :: s in m <==> TierStamps(log, s) != [])
    && (forall s :: s in m ==> m[s] == Unzip(SortBy(TierStamps(log, s), StampKey)))
  }

  ghost predicate NameTables(m: map<Code, Breakpoints>, log: seq<Event>) {
    && (forall s :: s in m <==> NameStamps(log, s) != [])
    && (forall s :: s in m ==> m[s] == Unzip(SortBy(NameStamps(log, s), StampKey)))
  }

  ghost predicate SortedTransitions(m: map<Listing, seq<Transition>>, log: seq<Event>) {
    forall l :: Lookup(m, l) == SortBy(Transitions(log, l), TransitionKey)
  }

  lemma ProductTables(found: map<Code, seq<Discovery>>, patches: map<Code, seq<Patch>>, log: seq<Event>, pc: Code)
    requires FilesDiscoveries(found, log) && FilesPatches(patches, log) && pc in found
    ensures var disc, raw := SortBy(found[pc], DiscoveryKey), SortBy(Lookup(patches, pc), PatchKey);
            && disc != []
            && TableOf(log, pc, Category, FieldBreakpoints(disc, raw, Category))
            && TableOf(log, pc, Brand, FieldBreakpoints(disc, raw, Brand))
  {
    assert Lookup(found, pc) == Discoveries(log, pc);
    assert Filter(Lookup(patches, pc), WithField(Category)) == Patches(log, pc, Category);
    assert Filter(Lookup(patches, pc), WithField(Brand)) == Patches(log, pc, Brand);
    FieldBreakpointsMeaning(log, pc, Lookup(patches, pc), Category);
    FieldBreakpointsMeaning(log, pc, Lookup(patches, pc), Brand);
  }

  class Entities {
    var shopCountry: map<Code, Text>
    var shopTierBp: map<Code, Breakpoints>
    var shopNameBp: map<Code, Breakpoints>
    var shopTierRaw: map<Code, seq<Stamp>>
    var shopNameRaw: map<Code, seq<Stamp>>
    var prodDiscEvents: map<Code, seq<Discovery>>
    var prodCategoryBp: map<Code, Breakpoints>
    var prodBrandBp: map<Code, Breakpoints>
    var prodAttrRaw: map<Code, seq<Patch>>
    var listingDiscovered: map<Listing, int>
    var listingLifecycle: map<Listing, seq<Transition>>

    /** The raw files are exactly what `log` says, in log order. */
    ghost predicate Gathered(log: seq<Event>)
      reads this
    {
      && FilesTiers(shopTierRaw, log)
      && FilesNames(shopNameRaw, log)
      && FilesDiscoveries(prodDiscEvents, log)
      && FilesTransitions(listingLifecycle, log)
      && FilesPatches(prodAttrRaw, log)
      && FilesCountries(shopCountry, log)
      && FilesDiscovered(listingDiscovered, log)
    }

    /** Every breakpoint table is the sorted file of its entity. */
    ghost predicate Finalized(log: seq<Event>)
      reads this
    {
      && FilesCountries(shopCountry, log)
      && FilesDiscovered(listingDiscovered, log)
      && TierTables(shopTierBp, log)
      && NameTables(shopNameBp, log)
      && FieldTables(prodCategoryBp, log, Category)
      && FieldTables(prodBrandBp, log, Brand)
      && SortedTransitions(listingLifecycle, log)
    }

    constructor ()
      ensures Gathered([])
    {
      shopCountry, shopTierBp, shopNameBp := map[], map[], map[];
      shopTierRaw, shopNameRaw := map[], map[];
      prodDiscEvents, prodCategoryBp, prodBrandBp, prodAttrRaw := map[], map[], map[], map[];
      listingDiscovered, listingLifecycle := map[], map[];
    }

    /** The dispatch on event_type inside the reading loop: one admin event goes to
        the files it concerns and leaves every other file alone; an unknown type fails. */
    method Absorb(e: Event) returns (known: bool)
      requires !e.PriceObserved?
      modifies this
      ensures known <==> !e.Unknown?
      ensures shopTierRaw == TierFile(old(shopTierRaw), e)
      ensures shopNameRaw == NameFile(old(shopNameRaw), e)
      ensures prodDiscEvents == DiscoveryFile(old(prodDiscEvents), e)
      ensures listingLifecycle == TransitionFile(old(listingLifecycle), e)
      ensures shopCountry == CountryFile(old(shopCountry), e)
      ensures listingDiscovered == DiscoveredFile(old(listingDiscovered), e)
      ensures FiledPatches(old(prodAttrRaw), prodAttrRaw, e)
      ensures unchanged(`shopTierBp, `shopNameBp, `prodCategoryBp, `prodBrandBp)
    {
      hide Filter;
      known := true;
      match e
      case Unknown(_, _) =>
        known := false;
      case ShopRegistered(t, _, sc, name, country, tier) =>
        shopCountry := shopCountry[sc := country];
        shopTierRaw := Push(shopTierRaw, sc, Stamp(t, tier));
        shopNameRaw := Push(shopNameRaw, sc, Stamp(t, name));
      case ShopRenamed(t, _, sc, newName) =>
        shopNameRaw := Push(shopNameRaw, sc, Stamp(t, newName));
      case ShopTierChanged(t, _, sc, newTier) =>
        shopTierRaw := Push(shopTierRaw, sc, Stamp(t, newTier));
      case ProductDiscovered(t, _, sc, pc, title, brand, category) =>
        if (sc, pc) !in listingDiscovered || t < listingDiscovered[(sc, pc)] {
          listingDiscovered := listingDiscovered[(sc, pc) := t];
        }
        prodDiscEvents := Push(prodDiscEvents, pc, Discovery(t, title, brand, category));
      case ProductAttrsChanged(t, _, pc, changes) =>
        prodAttrRaw := FilePatches(prodAttrRaw, e);
      case ProductDelisted(t, _, sc, pc) =>
        listingLifecycle := Push(listingLifecycle, (sc, pc), Transition(t, false));
      case ProductRelisted(t, _, sc, pc) =>
        listingLifecycle := Push(listingLifecycle, (sc, pc), Transition(t, true));
    }

    /** Absorbing an event keeps the files faithful to the longer log. */
    method AbsorbNext(e: Event, ghost log: seq<Event>) returns (known: bool)
      requires !e.PriceObserved?
      requires Gathered(log)
      modifies this
      ensures known <==> !e.Unknown?
      ensures Gathered(log + [e])
    {
      TierStep(shopTierRaw, log, e);
      NameStep(shopNameRaw, log, e);
      DiscoveryStep(prodDiscEvents, log, e);
      TransitionStep(listingLifecycle, log, e);
      CountryStep(shopCountry, log, e);
      DiscoveredStep(listingDiscovered, log, e);
      ghost var patches := prodAttrRaw;
      known := Absorb(e);
      PatchesStep(patches, prodAttrRaw, log, e);
    }

    /** `for field, val in changes.items()`: one patch per changed field. */
    static method FilePatches(raw: map<Code, seq<Patch>>, e: Event) returns (r: map<Code, seq<Patch>>)
      requires e.ProductAttrsChanged?
      ensures FiledPatches(raw, r, e)
    {
      hide Filter, FiledPatches, FiledBut, Push;
      r := raw;
      var left := e.changes.Keys;
      NothingFiled(raw, e);
      while left != {}
        invariant left <= e.changes.Keys
        invariant FiledBut(raw, r, e, left)
        decreases left
      {
        var field := AnyOf(left);
        FieldFiled(raw, r, e, left, field);
        r := Push(r, e.product, Patch(e.time, field, e.changes[field]));
        left := left - {field};
      }
      AllFiled(raw, r, e);
    }

    method Finalize(ghost log: seq<Event>)
      requires Gathered(log)
      modifies this
      ensures Finalized(log)
    {
      hide FilesTiers, FilesNames, FilesDiscoveries, FilesTransitions, FilesPatches, FilesCountries, FilesDiscovered;
      hide TierTables, NameTables, FieldTables, SortedTransitions;
      FinalizeShops(log);
      FinalizeProducts(log);
      FinalizeListings(log);
    }

    method FinalizeShops(ghost log: seq<Event>)
      requires FilesTiers(shopTierRaw, log) && FilesNames(shopNameRaw, log)
      modifies `shopTierRaw, `shopTierBp, `shopNameRaw, `shopNameBp
      ensures TierTables(shopTierBp, log) && NameTables(shopNameBp, log)
    {
      ghost var rawTiers, rawNames := shopTierRaw, shopNameRaw;
      var tiers, tierTables := SortStamps(shopTierRaw);
      var names, nameTables := SortStamps(shopNameRaw);
      shopTierRaw, shopTierBp, shopNameRaw, shopNameBp := tiers, tierTables, names, nameTables;
      forall s ensures s in tierTables <==> TierStamps(log, s) != []
               ensures s in tierTables ==> tierTables[s] == Unzip(SortBy(TierStamps(log, s), StampKey)) {
        assert Lookup(rawTiers, s) == TierStamps(log, s);
      }
      forall s ensures s in nameTables <==> NameStamps(log, s) != []
               ensures s in nameTables ==> nameTables[s] == Unzip(SortBy(NameStamps(log, s), StampKey)) {
        assert Lookup(rawNames, s) == NameStamps(log, s);
      }
    }

    method FinalizeListings(ghost log: seq<Event>)
      requires FilesTransitions(listingLifecycle, log)
      modifies `listingLifecycle
      ensures listingLifecycle.Keys == old(listingLifecycle).Keys
      ensures SortedTransitions(listingLifecycle, log)
    {
      assert forall l :: Lookup(listingLifecycle, l) == Transitions(log, l);
      listingLifecycle := SortLists(listingLifecycle, TransitionKey);
    }

    method FinalizeProducts(ghost log: seq<Event>)
      requires FilesDiscoveries(prodDiscEvents, log) && FilesPatches(prodAttrRaw, log)
      modifies `prodDiscEvents, `prodAttrRaw, `prodCategoryBp, `prodBrandBp
      ensures FieldTables(prodCategoryBp, log, Category) && FieldTables(prodBrandBp, log, Brand)
    {
      hide FilesPatches, FilesDiscoveries, TableOf, FieldBreakpoints, Discoveries, SortBy, Filter, Map, FieldTables;
      ghost var found, patches := prodDiscEvents, prodAttrRaw;
      EmptySort(PatchKey);
      prodDiscEvents := SortLists(prodDiscEvents, DiscoveryKey);
      prodAttrRaw := SortLists(prodAttrRaw, PatchKey);
      prodCategoryBp, prodBrandBp := map[], map[];
      ghost var sortedFound, sortedPatches := prodDiscEvents, prodAttrRaw;
      var left := prodDiscEvents.Keys;
      while left != {}
        invariant prodDiscEvents == sortedFound && prodAttrRaw == sortedPatches
        invariant left <= prodDiscEvents.Keys
        invariant prodCategoryBp.Keys == prodBrandBp.Keys == prodDiscEvents.Keys - left
        invariant forall p :: p in prodCategoryBp ==> TableOf(log, p, Category, prodCategoryBp[p])
        invariant forall p :: p in prodBrandBp ==> TableOf(log, p, Brand, prodBrandBp[p])
        decreases left
      {
        var pc := AnyOf(left);
        ProductTables(found, patches, log, pc);
        var category, brand := AttributeTables(prodDiscEvents[pc], Lookup(prodAttrRaw, pc));
        prodCategoryBp := prodCategoryBp[pc := category];
        prodBrandBp := prodBrandBp[pc := brand];
        left := left - {pc};
      }
      FiledKeys(found, log);
      TablesComplete(prodCategoryBp, log, Category);
      TablesComplete(prodBrandBp, log, Brand);
    }

    static method AttributeTables(found: seq<Discovery>, patches: seq<Patch>)
      returns (category: Breakpoints, brand: Breakpoints)
      requires found != []
      ensures category == FieldBreakpoints(found, patches, Category)
      ensures brand == FieldBreakpoints(found, patches, Brand)
    {
      var first := found[0];
      var categories, brands := [Stamp(first.time, first.category)], [Stamp(first.time, first.brand)];
      for i := 0 to |patches|
        invariant categories == Trail(first, patches[..i], Category)
        invariant brands == Trail(first, patches[..i], Brand)
      {
        var p := patches[i];
        assert patches[..i + 1] == patches[..i] + [p];
        TrailStep(first, patches[..i], p, Category);
        TrailStep(first, patches[..i], p, Brand);
        if p.field == Category {
          categories := categories + [Stamp(p.time, p.value)];
        } else if p.field == Brand {
          brands := brands + [Stamp(p.time, p.value)];
        }
      }
      assert patches[..|patches|] == patches;
      category, brand := Unzip(categories), Unzip(brands);
    }

    /** Sorts every list of a dictionary in place. */
    static method SortLists<K, V>(m: map<K, seq<V>>, key: V -> Key) returns (r: map<K, seq<V>>)
      ensures r.Keys == m.Keys
      ensures forall k :: k in m ==> r[k] == SortBy(m[k], key)
    {
      r := m;
      var left := m.Keys;
      while left != {}
        invariant left <= m.Keys && r.Keys == m.Keys
        invariant forall k :: k in m ==> r[k] == if k in left then m[k] else SortBy(m[k], key)
        decreases left
      {
        var k := AnyOf(left);
        r := r[k := SortBy(m[k], key)];
        left := left - {k};
      }
    }

    static method SortStamps(m: map<Code, seq<Stamp>>) returns (sorted: map<Code, seq<Stamp>>, tables: map<Code, Breakpoints>)
      ensures sorted.Keys == tables.Keys == m.Keys
      ensures forall k :: k in m ==> sorted[k] == SortBy(m[k], StampKey) && tables[k] == Unzip(sorted[k])
    {
      sorted, tables := m, map[];
      var left := m.Keys;
      while left != {}
        invariant left <= m.Keys && sorted.Keys == m.Keys && tables.Keys == m.Keys - left
        invariant forall k :: k in m ==> sorted[k] == if k in left then m[k] else SortBy(m[k], StampKey)
        invariant forall k :: k in tables ==> tables[k] == Unzip(sorted[k])
        decreases left
      {
        var k := AnyOf(left);
        sorted := sorted[k := SortBy(m[k], StampKey)];
        tables := tables[k := Unzip(sorted[k])];
        left := left - {k};
      }
    }
  }

  /** `raw` copies the price lines of the log, field by field and in their order. */
  ghost predicate Transcribes(raw: seq<Observation>, log: seq<Event>) {
    if |log| == 0 then raw == []
    else
      match Last(log)
      case PriceObserved(time, arrival, shop, product, price, currency) =>
        && raw != []
        && Last(raw).shop == shop && Last(raw).product == product && Last(raw).time == time
        && Last(raw).arrival == arrival && Last(raw).price == price && Last(raw).currency == currency
        && Transcribes(Init(raw), Init(log))
      case _ => Transcribes(raw, Init(log))
  }

  lemma ObservationsNext(log: seq<Event>)
    requires |log| > 0
    ensures Observations(log)
         == Observations(Init(log)) + if Last(log).PriceObserved? then [ObservationOf(Last(log))] else []
  {
    InitLast(log);
    SelectStep(Init(log), Last(log), IsObservation, ObservationOf);
  }

  lemma TranscribesNext(raw: seq<Observation>, log: seq<Event>)
    requires |log| > 0 && Transcribes(raw, Init(log))
    ensures Transcribes(raw + (if Last(log).PriceObserved? then [ObservationOf(Last(log))] else []), log)
  {
    if Last(log).PriceObserved? {
      InitAppend(raw, ObservationOf(Last(log)));
    } else {
      assert raw + [] == raw;
    }
  }

  lemma {:induction false} ObservationsTranscribe(log: seq<Event>)
    ensures Transcribes(Observations(log), log)
  {
    if |log| > 0 {
      ObservationsTranscribe(Init(log));
      ObservationsNext(log);
      TranscribesNext(Observations(Init(log)), log);
    }
    hide Observations;
  }

  /** Reads the whole stream; an unknown event_type aborts the pass. */
  method ParseEvents(log: seq<Event>) returns (r: Result<(Entities, seq<Observation>), ParseError>)
    ensures r.Err? <==> exists e :: e in log && e.Unknown?
    ensures r.Ok? ==> fresh(r.value.0) && r.value.0.Finalized(log) && r.value.1 == Observations(log)
    ensures r.Ok? ==> Transcribes(r.value.1, log)
  {
    ObservationsTranscribe(log);
    hide FilesTiers, FilesNames, FilesDiscoveries, FilesTransitions, FilesPatches, FilesCountries, FilesDiscovered;
    hide TierTables, NameTables, FieldTables, SortedTransitions;
    var ent := new Entities();
    var raw: seq<Observation> := [];
    for i := 0 to |log|
      invariant fresh(ent)
      invariant forall j :: 0 <= j < i ==> !log[j].Unknown?
      invariant ent.Gathered(log[..i])
      invariant raw == Observations(log[..i])
    {
      var e := log[i];
      ghost var before := log[..i];
      assert log[..i + 1] == before + [e];
      SelectStep(before, e, IsObservation, ObservationOf);
      match e
      case PriceObserved(t, arrival, sc, pc, price, currency) =>
        raw := raw + [Observation(sc, pc, t, arrival, price, currency)];
        ObservationGathers(ent, before, e);
      case _ =>
        assert e in log;
        var known := ent.AbsorbNext(e, before);
        if !known {
          return Err(UnknownEventType);
        }
    }
    assert log[..|log|] == log;
    ent.Finalize(log);
    return Ok((ent, raw));
  }

  lemma ObservationGathers(ent: Entities, log: seq<Event>, e: Event)
    requires ent.Gathered(log) && e.PriceObserved?
    ensures ent.Gathered(log + [e])
  {
    hide FilesTiers, FilesNames, FilesDiscoveries, FilesTransitions, FilesPatches, FilesCountries, FilesDiscovered, Filter;
    TierStep(ent.shopTierRaw, log, e);
    NameStep(ent.shopNameRaw, log, e);
    DiscoveryStep(ent.prodDiscEvents, log, e);
    TransitionStep(ent.listingLifecycle, log, e);
    CountryStep(ent.shopCountry, log, e);
    DiscoveredStep(ent.listingDiscovered, log, e);
    PatchesStep(ent.prodAttrRaw, ent.prodAttrRaw, log, e);
  }
}
