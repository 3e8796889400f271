/** The PriceWatch event stream and the meaning the question battery gives it:
    the state of an entity at time t is the fold of its admin events with
    event_time <= t, taken in stable event_time order. */
module EventLog {
  import opened Basics
  import opened Sequences
  import opened StableSort

  /** Shop and product codes, numbered in the order of their strings. */
  type Code = int

  type Text = string

  datatype Field = Title | Brand | Category

  /** One line of the stream; `time` is event_time and `arrival` is ingested_at, in whole seconds. */
  datatype Event =
    | ShopRegistered(time: int, arrival: int, shop: Code, name: Text, country: Text, tier: Text)
    | ShopRenamed(time: int, arrival: int, shop: Code, newName: Text)
    | ShopTierChanged(time: int, arrival: int, shop: Code, newTier: Text)
    | ProductDiscovered(time: int, arrival: int, shop: Code, product: Code,
                        title: Text, brand: Text, category: Text)
    | ProductAttrsChanged(time: int, arrival: int, product: Code, changes: map<Field, Text>)
    | ProductDelisted(time: int, arrival: int, shop: Code, product: Code)
    | ProductRelisted(time: int, arrival: int, shop: Code, product: Code)
    | PriceObserved(time: int, arrival: int, shop: Code, product: Code, price: int, currency: Currency)
    | Unknown(time: int, arrival: int)

  /** 2025-01-01 and 2026-01-01, UTC, in epoch seconds. */
  const YEAR_FROM := 1735689600
  const YEAR_TO := 1767225600

  function ByTime(e: Event): Key {
    Key(e.time, 0, 0)
  }

  function UpTo(t: int): Event -> bool {
    (e: Event) => e.time <= t
  }

  /** The events singled out by `concerns` up to time `t`, in stable event_time order. */
  ghost function History(log: seq<Event>, concerns: Event -> bool, t: int): seq<Event> {
    SortBy(Filter(log, Both(concerns, UpTo(t))), ByTime)
  }

  // ----- Shops

  datatype ShopState = ShopState(name: Text, country: Text, tier: Text)

  predicate ConcernsShop(e: Event, shop: Code) {
    (e.ShopRegistered? || e.ShopRenamed? || e.ShopTierChanged?) && e.shop == shop
  }

  ghost function ShopAfter(history: seq<Event>): Option<ShopState> {
    if |history| == 0 then None
    else
      var before := ShopAfter(Init(history));
      match Last(history)
      case ShopRegistered(_, _, _, name, country, tier) => Some(ShopState(name, country, tier))
      case ShopRenamed(_, _, _, newName) =>
        if before.Some? then Some(before.value.(name := newName)) else None
      case ShopTierChanged(_, _, _, newTier) =>
        if before.Some? then Some(before.value.(tier := newTier)) else None
      case _ => before
  }

  function OfShop(shop: Code): Event -> bool {
    (e: Event) => ConcernsShop(e, shop)
  }

  ghost function ShopAsOf(log: seq<Event>, shop: Code, t: int): Option<ShopState> {
    ShopAfter(History(log, OfShop(shop), t))
  }

  /** A shop is known from its first registration on. */
  lemma {:induction false} ShopKnownIff(history: seq<Event>)
    requires forall e :: e in history ==> e.ShopRegistered? || e.ShopRenamed? || e.ShopTierChanged?
    ensures ShopAfter(history).Some? <==> exists e :: e in history && e.ShopRegistered?
  {
    if |history| > 0 {
      InitLast(history);
      ShopKnownIff(Init(history));
      assert Last(history) in history;
    }
  }

  /** The name is the one last registered or taken, the country the one last registered, and
      the tier the one last registered or moved to. */
  lemma {:induction false} ShopIsLatest(history: seq<Event>, i: nat)
    requires i < |history| && ShopAfter(history).Some?
    ensures var s, e := ShopAfter(history).value, history[i];
            && (e.ShopRenamed? && (forall j :: i < j < |history| ==> history[j].ShopTierChanged?) ==> s.name == e.newName)
            && (e.ShopTierChanged? && (forall j :: i < j < |history| ==> history[j].ShopRenamed?) ==> s.tier == e.newTier)
            && (e.ShopRegistered? && (forall j :: i < j < |history| ==> history[j].ShopTierChanged?) ==> s.name == e.name)
            && (e.ShopRegistered? && (forall j :: i < j < |history| ==> history[j].ShopRenamed?) ==> s.tier == e.tier)
            && (e.ShopRegistered? && (forall j :: i < j < |history| ==> history[j].ShopRenamed? || history[j].ShopTierChanged?)
                ==> s.country == e.country)
  {
    if i < |history| - 1 && (Last(history).ShopRenamed? || Last(history).ShopTierChanged?) {
      assert forall j :: 0 <= j < |history| - 1 ==> Init(history)[j] == history[j];
      ShopIsLatest(Init(history), i);
    }
  }

  // ----- Products

  datatype ProductState = ProductState(title: Text, brand: Text, category: Text)

  predicate ConcernsProduct(e: Event, product: Code) {
    (e.ProductDiscovered? || e.ProductAttrsChanged?) && e.product == product
  }

  function Patched(changes: map<Field, Text>, f: Field, current: Text): Text {
    if f in changes then changes[f] else current
  }

  /** The first discovery fixes the attributes, later discoveries are ignored, changes patch. */
  ghost function ProductAfter(history: seq<Event>): Option<ProductState> {
    if |history| == 0 then None
    else
      var before := ProductAfter(Init(history));
      match Last(history)
      case ProductDiscovered(_, _, _, _, title, brand, category) =>
        if before.Some? then before else Some(ProductState(title, brand, category))
      case ProductAttrsChanged(_, _, _, changes) =>
        if before.Some? then
          Some(ProductState(
                 Patched(changes, Title, before.value.title),
                 Patched(changes, Brand, before.value.brand),
                 Patched(changes, Category, before.value.category)))
        else None
      case _ => before
  }

  predicate Changes(e: Event, f: Field) {
    e.ProductAttrsChanged? && f in e.changes
  }

  /** With `d` the first discovery: a field has the value of the last change after it that
      names the field, and without such a change the value first discovered. */
  lemma {:induction false} FieldIsLatest(history: seq<Event>, f: Field, d: nat, i: nat)
    requires d <= i < |history| && history[d].ProductDiscovered?
    requires forall j :: 0 <= j < d ==> !history[j].ProductDiscovered?
    requires forall j :: d <= j < |history| ==> history[j].ProductDiscovered? || history[j].ProductAttrsChanged?
    requires i == d || Changes(history[i], f)
    requires forall j :: i < j < |history| ==> !Changes(history[j], f)
    ensures ProductAfter(history).Some?
    ensures var now, e := ProductAfter(history).value, history[i];
            match f
            case Title => now.title == if i == d then e.title else e.changes[Title]
            case Brand => now.brand == if i == d then e.brand else e.changes[Brand]
            case Category => now.category == if i == d then e.category else e.changes[Category]
  {
    if d == |history| - 1 {
      NoneDiscovered(Init(history));
    } else if i < |history| - 1 {
      FieldIsLatest(Init(history), f, d, i);
    } else {
      StaysDiscovered(Init(history), d);
    }
  }

  lemma {:induction false} NoneDiscovered(history: seq<Event>)
    requires forall j :: 0 <= j < |history| ==> !history[j].ProductDiscovered?
    ensures ProductAfter(history).None?
  {
    if |history| > 0 {
      NoneDiscovered(Init(history));
    }
  }

  lemma {:induction false} StaysDiscovered(history: seq<Event>, d: nat)
    requires d < |history| && history[d].ProductDiscovered?
    ensures ProductAfter(history).Some?
  {
    if d < |history| - 1 {
      StaysDiscovered(Init(history), d);
    }
  }

  function OfProduct(product: Code): Event -> bool {
    (e: Event) => ConcernsProduct(e, product)
  }

  ghost function ProductAsOf(log: seq<Event>, product: Code, t: int): Option<ProductState> {
    ProductAfter(History(log, OfProduct(product), t))
  }

  // ----- Listings

  predicate ConcernsListing(e: Event, shop: Code, product: Code) {
    (e.ProductDelisted? || e.ProductRelisted?) && e.shop == shop && e.product == product
  }

  /** A discovered listing is active until a delist and active again after a relist. */
  ghost predicate ActiveAfter(history: seq<Event>) {
    if |history| == 0 then true
    else
      match Last(history)
      case ProductDelisted(_, _, _, _) => false
      case ProductRelisted(_, _, _, _) => true
      case _ => ActiveAfter(Init(history))
  }

  // ----- What a consumer of the stream may rely on

  predicate IsDiscovery(e: Event, product: Code) {
    e.ProductDiscovered? && e.product == product
  }

  predicate IsRegistration(e: Event, shop: Code) {
    e.ShopRegistered? && e.shop == shop
  }

  ghost predicate RegisteredBy(log: seq<Event>, shop: Code, t: int) {
    exists e :: e in log && IsRegistration(e, shop) && e.time <= t
  }

  ghost predicate DiscoveredBy(log: seq<Event>, product: Code, t: int) {
    exists e :: e in log && IsDiscovery(e, product) && e.time <= t
  }

  predicate SetsField(e: Event, product: Code, f: Field) {
    e.ProductAttrsChanged? && e.product == product && f in e.changes
  }

  /** The discoveries of the product and the changes of the field. */
  function Touching(product: Code, f: Field): Event -> bool {
    (e: Event) => IsDiscovery(e, product) || SetsField(e, product, f)
  }

  /** In stable event_time order no change of the product's field precedes its first discovery. */
  ghost predicate DiscoveryLeads(log: seq<Event>, product: Code, f: Field) {
    var touched := SortBy(Filter(log, Touching(product, f)), ByTime);
    touched == [] || touched[0].ProductDiscovered?
  }

  /** No product changes before it is first seen anywhere. */
  ghost predicate PatchesFollowDiscovery(log: seq<Event>) {
    forall e, f :: e in log && e.ProductAttrsChanged? && f in e.changes ==> DiscoveryLeads(log, e.product, f)
  }

  function RegistrationsOf(shop: Code): Event -> bool {
    (e: Event) => IsRegistration(e, shop)
  }

  ghost predicate RegisteredOnce(log: seq<Event>) {
    forall s :: |Filter(log, RegistrationsOf(s))| <= 1
  }

  /** Every observation is of a registered shop and a product already discovered. */
  ghost predicate ObservationsGrounded(log: seq<Event>) {
    forall e :: e in log && e.PriceObserved? ==>
      RegisteredBy(log, e.shop, e.time) && DiscoveredBy(log, e.product, e.time)
  }

  ghost predicate Wellformed(log: seq<Event>) {
    && (forall e :: e in log ==> !e.Unknown?)
    && RegisteredOnce(log)
    && PatchesFollowDiscovery(log)
    && ObservationsGrounded(log)
  }

  lemma HistoryMember(log: seq<Event>, concerns: Event -> bool, t: int, e: Event)
    ensures e in History(log, concerns, t) <==> e in log && concerns(e) && e.time <= t
  {
    var p := Both(concerns, UpTo(t));
    SortMember(Filter(log, p), ByTime, e);
    FilterMember(log, p, e);
  }

  /** The discoveries and changes of a field in stable event_time order. */
  lemma TouchingSorted(log: seq<Event>, product: Code, f: Field, e: Event)
    ensures var touched := SortBy(Filter(log, Touching(product, f)), ByTime);
            && (e in touched <==> e in log && Touching(product, f)(e))
            && (e in touched ==> touched != [] && touched[0] in touched && touched[0].time <= e.time)
  {
    var mine := Filter(log, Touching(product, f));
    var touched := SortBy(mine, ByTime);
    SortMember(mine, ByTime, e);
    FilterMember(log, Touching(product, f), e);
    SortSorts(mine, ByTime);
    if e in touched {
      var i :| 0 <= i < |touched| && touched[i] == e;
      assert i == 0 || ByTime(touched[0]).AtMost(ByTime(touched[i]));
    }
  }

  /** A field without changes, or with a guarantee about them, is led by a discovery. */
  lemma LedByDiscovery(log: seq<Event>, product: Code, f: Field)
    requires PatchesFollowDiscovery(log)
    ensures DiscoveryLeads(log, product, f)
  {
    var touched := SortBy(Filter(log, Touching(product, f)), ByTime);
    if touched != [] {
      TouchingSorted(log, product, f, touched[0]);
      hide SortBy, Filter;
    }
  }

  /** A discovery at least a second before every change leads. */
  lemma EarlierDiscoveryLeads(log: seq<Event>, product: Code, f: Field)
    requires forall e :: e in log && e.ProductAttrsChanged? && e.product == product ==> DiscoveredBy(log, product, e.time - 1)
    ensures DiscoveryLeads(log, product, f)
  {
    var touched := SortBy(Filter(log, Touching(product, f)), ByTime);
    if touched != [] && !touched[0].ProductDiscovered? {
      TouchingSorted(log, product, f, touched[0]);
      var d :| d in log && IsDiscovery(d, product) && d.time <= touched[0].time - 1;
      TouchingSorted(log, product, f, d);
      assert false;
    }
  }
}
