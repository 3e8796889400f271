/** The generator of the event stream.  Random draws are arbitrary values in
    the range they are drawn from, so each result holds for every draw.  Times
    are in microseconds until they are written. */
module EventStream {
  import opened Basics
  import opened Sequences
  import opened StableSort
  import opened EventLog
  import opened Catalog
  import opened ShopChanges

  /** lo + rng.random() * span */
  method Uniform(lo: int, span: int) returns (x: int)
    requires span >= 0
    ensures lo <= x && if span == 0 then x == lo else x < lo + span
  {
    if span == 0 {
      x := lo;
    } else {
      x :| lo <= x < lo + span;
    }
  }

  method Coin() returns (heads: bool)
  {
    heads :| true;
  }

  // ----- Where an event comes from, and when it arrives

  ghost predicate IsListing(w: World, k: int, shop: Code, product: Code) {
    && 0 <= k < |w.listings| && w.listings[k].s < |w.shops| && w.listings[k].p < |w.products|
    && w.shops[w.listings[k].s].code == shop && w.products[w.listings[k].p].code == product
  }

  ghost predicate KnownShop(w: World, shop: Code, i: int) {
    0 <= i < |w.shops| && w.shops[i].code == shop
  }

  /** Up to rounding: from 6 hours after discovery, and not between a delist and 6 hours after its relist. */
  predicate Observable(l: Listing, t: int) {
    && l.discovered + 6 * HOUR - SECOND <= t
    && (l.delist.Some? && l.delist.value + SECOND < t ==>
          l.relist.Some? && l.relist.value + 6 * HOUR - SECOND <= t)
  }

  /** The entity and the time an event was generated from. */
  ghost predicate Sourced(w: World, e: Event) {
    match e
    case ShopRegistered(t, _, shop, _, _, _) => exists i :: KnownShop(w, shop, i) && w.shops[i].registered == t
    case ShopRenamed(t, _, shop, _) => exists i, n: nat :: KnownShop(w, shop, i) && MayRename(n, w.shops[i].registered, t)
    case ShopTierChanged(t, _, shop, _) => exists i, n: nat :: KnownShop(w, shop, i) && MayTier(n, w.shops[i].registered, t)
    case ProductDiscovered(t, _, shop, product, _, _, _) =>
      exists k :: IsListing(w, k, shop, product) && w.listings[k].discovered == t
    case ProductAttrsChanged(t, _, product, _) =>
      exists k, shop :: IsListing(w, k, shop, product) && w.listings[k].discovered + 30 * DAY <= t
    case ProductDelisted(t, _, shop, product) =>
      exists k :: IsListing(w, k, shop, product) && w.listings[k].delist == Some(t)
    case ProductRelisted(t, _, shop, product) =>
      exists k :: IsListing(w, k, shop, product) && w.listings[k].relist == Some(t)
    case PriceObserved(t, _, shop, product, _, _) =>
      exists k :: IsListing(w, k, shop, product) && Observable(w.listings[k], t)
    case Unknown(_, _) => false
  }

  /** Arrival delays: discoveries at most 121 s, other admin events at most 301 s. */
  predicate Timely(e: Event) {
    match e
    case PriceObserved(_, _, _, _, _, _) => e.time + 2 * SECOND <= e.arrival && e.time % SECOND == 0
    case ProductDiscovered(_, _, _, _, _, _, _) => e.time + SECOND <= e.arrival < e.time + 121 * SECOND
    case _ => e.time + SECOND <= e.arrival < e.time + 301 * SECOND
  }

  ghost predicate Generated(w: World, events: seq<Event>) {
    forall e :: e in events ==> Sourced(w, e) && Timely(e)
  }

  ghost predicate LaterAdmin(events: seq<Event>) {
    forall e :: e in events ==> !e.ShopRegistered? && !e.PriceObserved?
  }

  /** Two changes of the same kind to the same shop or product. */
  predicate SameChange(a: Event, b: Event) {
    || (a.ShopRenamed? && b.ShopRenamed? && a.shop == b.shop)
    || (a.ShopTierChanged? && b.ShopTierChanged? && a.shop == b.shop)
    || (a.ProductAttrsChanged? && b.ProductAttrsChanged? && a.product == b.product)
  }

  /** Such changes are emitted in time order and far apart. */
  ghost predicate Spaced(events: seq<Event>) {
    forall i, j :: 0 <= i < j < |events| && SameChange(events[i], events[j]) ==> events[i].time + 40 * DAY <= events[j].time
  }

  lemma SpacedAppend(xs: seq<Event>, ys: seq<Event>)
    requires Spaced(xs) && Spaced(ys)
    requires forall x, y :: x in xs && y in ys ==> !SameChange(x, y)
    ensures Spaced(xs + ys)
  {
    var all := xs + ys;
    forall i, j | 0 <= i < |xs| && |xs| <= j < |all| ensures !SameChange(all[i], all[j]) {
      assert all[i] in xs && all[j] in ys;
    }
  }

  /** Neither a registration nor a listing's event is a change of a shop or product. */
  ghost predicate NoChanges(events: seq<Event>) {
    forall e :: e in events ==> !e.ShopRenamed? && !e.ShopTierChanged? && !e.ProductAttrsChanged?
  }

  lemma AdminSpaced(regs: seq<Event>, changes: seq<Event>, lifecycle: seq<Event>)
    requires NoChanges(regs) && NoChanges(lifecycle) && Spaced(changes)
    ensures Spaced(regs + changes + lifecycle)
  {
    NoChangeSpaced(regs);
    NoChangeSpaced(lifecycle);
    hide Spaced;
    SpacedAppend(regs, changes);
    SpacedAppend(regs + changes, lifecycle);
  }

  lemma NoChangeSpaced(events: seq<Event>)
    requires NoChanges(events)
    ensures Spaced(events)
  {
    forall i, j | 0 <= i < j < |events| ensures !SameChange(events[i], events[j]) {
      assert events[i] in events;
    }
  }

  /** Changes of one kind, none of them to a shop from the `s`-th on. */
  ghost predicate ShopsDone(w: World, events: seq<Event>, s: nat, renames: bool) {
    && Spaced(events)
    && (forall e :: e in events ==> if renames then e.ShopRenamed? else e.ShopTierChanged?)
    && (forall e, j :: e in events && s <= j < |w.shops| ==> ShopCode(e) != w.shops[j].code)
  }

  function ShopCode(e: Event): Code {
    match e
    case ShopRenamed(_, _, shop, _) => shop
    case ShopTierChanged(_, _, shop, _) => shop
    case _ => 0
  }

  lemma ShopsDoneNext(w: World, events: seq<Event>, more: seq<Event>, s: nat, renames: bool)
    requires DistinctCodes(w) && s < |w.shops| && ShopsDone(w, events, s, renames) && Spaced(more)
    requires forall e :: e in more ==> (if renames then e.ShopRenamed? else e.ShopTierChanged?) && ShopCode(e) == w.shops[s].code
    ensures ShopsDone(w, events + more, s + 1, renames)
  {
    SpacedAppend(events, more);
    hide Spaced;
  }

  /** Attribute changes, none of them to a product targeted from the `j`-th on. */
  ghost predicate TargetsDone(w: World, events: seq<Event>, targets: seq<nat>, j: nat)
    requires forall i :: 0 <= i < |targets| ==> targets[i] < |w.products|
  {
    && Spaced(events)
    && (forall e :: e in events ==> e.ProductAttrsChanged?)
    && (forall e, i :: e in events && j <= i < |targets| ==> e.product != w.products[targets[i]].code)
  }

  lemma TargetsDoneNext(w: World, events: seq<Event>, more: seq<Event>, targets: seq<nat>, j: nat)
    requires forall i :: 0 <= i < |targets| ==> targets[i] < |w.products|
    requires DistinctCodes(w) && Distinct(targets) && j < |targets| && TargetsDone(w, events, targets, j) && Spaced(more)
    requires forall e :: e in more ==> e.ProductAttrsChanged? && e.product == w.products[targets[j]].code
    ensures TargetsDone(w, events + more, targets, j + 1)
  {
    SpacedAppend(events, more);
    hide Spaced;
    forall e, i | e in more && j + 1 <= i < |targets| ensures e.product != w.products[targets[i]].code {
      assert targets[i] in targets && targets[j] in targets && targets[i] != targets[j];
    }
  }

  /** emit: ing = t + 1 + rng.random() * max_delay */
  method Delayed(t: int, maxDelay: int) returns (arrival: int)
    requires maxDelay > 0
    ensures t + SECOND <= arrival < t + SECOND + maxDelay
  {
    arrival := Uniform(t + SECOND, maxDelay);
  }

  // ----- Admin events

  /** An event but for its drawn arrival. */
  function Bare(e: Event): Event {
    e.(arrival := 0)
  }

  function RegistrationOf(shop: Shop): Event {
    ShopRegistered(shop.registered, 0, shop.code, shop.name, shop.country, shop.tier)
  }

  method EmitRegistrations(w: World) returns (events: seq<Event>)
    ensures |events| == |w.shops| && Generated(w, events)
    ensures forall i :: 0 <= i < |events| ==> events[i].ShopRegistered? && Bare(events[i]) == RegistrationOf(w.shops[i])
  {
    events := [];
    for i := 0 to |w.shops|
      invariant |events| == i && Generated(w, events)
      invariant forall j :: 0 <= j < i ==> events[j].ShopRegistered? && Bare(events[j]) == RegistrationOf(w.shops[j])
    {
      var shop := w.shops[i];
      var arrival := Delayed(shop.registered, 300 * SECOND);
      assert KnownShop(w, shop.code, i);
      events := events + [ShopRegistered(shop.registered, arrival, shop.code, shop.name, shop.country, shop.tier)];
    }
  }

  function RenameSuffix(i: nat): Text {
    match i % 4 case 0 => " Group" case 1 => " Online" case 2 => " Direct" case _ => " Plus"
  }

  /** The `i`-th renamed shop gets its suffix at the time for the drawn offset, unless that is out of the span. */
  method RenameShop(w: World, s: nat, i: nat) returns (u: int, events: seq<Event>)
    requires s < |w.shops|
    ensures Generated(w, events) && Spaced(events)
    ensures 0 <= u < RenameSpan(i, w.shops[s].registered)
    ensures match RenameTime(i, w.shops[s].registered, u)
            case None => events == []
            case Some(t) => |events| == 1 && events[0].ShopRenamed?
                            && Bare(events[0]) == ShopRenamed(t, 0, w.shops[s].code, w.shops[s].name + RenameSuffix(i))
  {
    var shop := w.shops[s];
    u := Uniform(0, RenameSpan(i, shop.registered));
    var t := RenameTime(i, shop.registered, u);
    events := [];
    if t.Some? {
      var arrival := Delayed(t.value, 300 * SECOND);
      assert KnownShop(w, shop.code, s) && MayRename(i, shop.registered, t.value);
      events := [ShopRenamed(t.value, arrival, shop.code, shop.name + RenameSuffix(i))];
    }
  }

  /** `e` renames shop `s`, the `i`-th renamed one, at the time for the drawn offset `u`. */
  predicate IsRename(w: World, s: nat, i: nat, u: int, e: Event) {
    && e.ShopRenamed? && s < |w.shops|
    && RenameTime(i, w.shops[s].registered, u) == Some(e.time)
    && e.shop == w.shops[s].code
    && e.newName == w.shops[s].name + (if i % 4 == 0 then " Group" else if i % 4 == 1 then " Online"
                                       else if i % 4 == 2 then " Direct" else " Plus")
  }

  /** The chosen shops, in their order. */
  ghost predicate InOrder(w: World, chosen: seq<nat>, us: seq<int>) {
    && |us| == |chosen|
    && (forall i :: 0 <= i < |chosen| ==> chosen[i] < |w.shops|)
    && (forall i, j :: 0 <= i < j < |chosen| ==> chosen[i] < chosen[j])
  }

  ghost predicate RenameShown(w: World, events: seq<Event>, s: nat, i: nat, u: int) {
    s < |w.shops| && (RenameTime(i, w.shops[s].registered, u).None? || exists e :: e in events && IsRename(w, s, i, u, e))
  }

  /** Each chosen shop is renamed, unless its time is out of the span, and no other. */
  ghost predicate RenamesShown(w: World, events: seq<Event>, chosen: seq<nat>, us: seq<int>) {
    && InOrder(w, chosen, us)
    && (forall i :: 0 <= i < |chosen| ==> RenameShown(w, events, chosen[i], i, us[i]))
    && (forall e :: e in events && e.ShopRenamed? ==> IsSomeRename(w, chosen, us, e))
  }

  ghost predicate IsSomeRename(w: World, chosen: seq<nat>, us: seq<int>, e: Event) {
    exists i :: 0 <= i < |chosen| == |us| && IsRename(w, chosen[i], i, us[i], e)
  }

  lemma SomeRenameStays(w: World, chosen: seq<nat>, us: seq<int>, s: nat, u: int, e: Event)
    requires |us| == |chosen| && (IsSomeRename(w, chosen, us, e) || IsRename(w, s, |chosen|, u, e))
    ensures IsSomeRename(w, chosen + [s], us + [u], e)
  {
    hide IsRename;
    var i := |chosen|;
    if !IsRename(w, s, i, u, e) {
      i :| 0 <= i < |chosen| && IsRename(w, chosen[i], i, us[i], e);
    }
    assert IsRename(w, (chosen + [s])[i], i, (us + [u])[i], e);
  }

  lemma RenameStays(w: World, events: seq<Event>, more: seq<Event>, s: nat, i: nat, u: int)
    requires RenameShown(w, events, s, i, u) || RenameShown(w, more, s, i, u)
    ensures RenameShown(w, events + more, s, i, u)
  {
    if RenameTime(i, w.shops[s].registered, u).Some? {
      var e :| (e in events || e in more) && IsRename(w, s, i, u, e);
      assert e in events + more;
    }
  }

  lemma InOrderNext(w: World, chosen: seq<nat>, us: seq<int>, s: nat, u: int)
    requires InOrder(w, chosen, us) && s < |w.shops| && forall c :: c in chosen ==> c < s
    ensures InOrder(w, chosen + [s], us + [u])
  {
    forall i | 0 <= i < |chosen| ensures chosen[i] < s {
      assert chosen[i] in chosen;
    }
  }

  lemma RenamesNext(w: World, events: seq<Event>, chosen: seq<nat>, us: seq<int>, more: seq<Event>, s: nat, u: int)
    requires RenamesShown(w, events, chosen, us) && s < |w.shops| && forall c :: c in chosen ==> c < s
    requires RenameShown(w, more, s, |chosen|, u) && forall e :: e in more ==> IsRename(w, s, |chosen|, u, e)
    ensures RenamesShown(w, events + more, chosen + [s], us + [u])
  {
    InOrderNext(w, chosen, us, s, u);
    OrderSizes(w, chosen, us);
    hide IsRename, IsSomeRename, RenameShown, InOrder, RenameTime;
    var next, vs := chosen + [s], us + [u];
    forall i | 0 <= i < |next| ensures RenameShown(w, events + more, next[i], i, vs[i]) {
      RenameStays(w, events, more, next[i], i, vs[i]);
    }
    forall e | e in events + more && e.ShopRenamed? ensures IsSomeRename(w, next, vs, e) {
      SomeRenameStays(w, chosen, us, s, u, e);
    }
  }

  lemma OrderSizes(w: World, chosen: seq<nat>, us: seq<int>)
    requires InOrder(w, chosen, us)
    ensures |us| == |chosen|
  {
  }

  method EmitRenames(w: World) returns (events: seq<Event>, ghost chosen: seq<nat>, ghost us: seq<int>)
    requires DistinctCodes(w)
    ensures Generated(w, events) && LaterAdmin(events)
    ensures Spaced(events) && forall e :: e in events ==> e.ShopRenamed?
    ensures RenamesShown(w, events, chosen, us)
  {
    hide Sourced, Timely, Spaced, RenamesShown, RenameTime;
    events := [];
    var renamed: nat := 0;
    chosen, us := [], [];
    NoChangeSpaced(events);
    assert RenamesShown(w, [], [], []) by {
      NoRenames(w);
    }
    for s := 0 to |w.shops|
      invariant Generated(w, events) && ShopsDone(w, events, s, true)
      invariant RenamesShown(w, events, chosen, us) && |chosen| == renamed
      invariant forall c :: c in chosen ==> c < s
    {
      var heads := Coin();
      var more: seq<Event> := [];
      NoChangeSpaced(more);
      if heads {
        var u;
        u, more := RenameShop(w, s, renamed);
        RenameIsShown(w, more, s, renamed, u);
        RenamesNext(w, events, chosen, us, more, s, u);
        chosen, us := chosen + [s], us + [u];
        renamed := renamed + 1;
      }
      ShopsDoneNext(w, events, more, s, true);
      assert events + [] == events;
      events := events + more;
    }
  }

  lemma NoRenames(w: World)
    ensures RenamesShown(w, [], [], [])
  {
  }

  lemma RenameIsShown(w: World, more: seq<Event>, s: nat, i: nat, u: int)
    requires s < |w.shops|
    requires match RenameTime(i, w.shops[s].registered, u)
             case None => more == []
             case Some(t) => |more| == 1 && more[0].ShopRenamed?
                             && Bare(more[0]) == ShopRenamed(t, 0, w.shops[s].code, w.shops[s].name + RenameSuffix(i))
    ensures RenameShown(w, more, s, i, u) && forall e :: e in more ==> IsRename(w, s, i, u, e)
  {
    hide RenameTime;
    if more != [] {
      var x := Bare(more[0]);
      assert more[0].time == x.time && more[0].shop == x.shop && more[0].newName == x.newName;
      assert IsRename(w, s, i, u, more[0]);
    }
  }

  const TIERS: set<Text> := {"bronze", "silver", "gold"}

  method OtherTier(tier: Text) returns (other: Text)
    ensures other in TIERS && other != tier
  {
    assert tier != "bronze" ==> "bronze" in TIERS - {tier};
    assert tier == "bronze" ==> "silver" != tier && "silver" in TIERS - {tier};
    other :| other in TIERS - {tier};
  }

  /** The `i`-th tiered shop moves to another tier, and maybe on to yet another one at least 60 days later. */
  method ChangeTier(w: World, s: nat, i: nat) returns (u: int, events: seq<Event>)
    requires s < |w.shops|
    ensures Generated(w, events) && Spaced(events)
    ensures forall e :: e in events ==> e.ShopTierChanged? && e.shop == w.shops[s].code && e.newTier in TIERS
    ensures 0 <= u < TierSpan(i, w.shops[s].registered)
    ensures match TierTime(i, w.shops[s].registered, u)
            case None => events == []
            case Some(t) => 1 <= |events| <= 2 && events[0].ShopTierChanged?
                            && events[0].time == t && events[0].newTier != w.shops[s].tier
    ensures |events| == 2 ==> events[1].ShopTierChanged? && events[1].newTier != events[0].newTier
                              && events[0].time + 60 * DAY <= events[1].time < T1 - 5 * DAY
  {
    var shop := w.shops[s];
    u := Uniform(0, TierSpan(i, shop.registered));
    var t := TierTime(i, shop.registered, u);
    events := [];
    if t.Some? {
      var newTier := OtherTier(shop.tier);
      var arrival := Delayed(t.value, 300 * SECOND);
      assert KnownShop(w, shop.code, s) && MayTierFirst(i, shop.registered, t.value);
      assert MayTier(i, shop.registered, t.value);
      events := [ShopTierChanged(t.value, arrival, shop.code, newTier)];
      var again := Coin();
      if again {
        var t2 := Uniform(t.value + 60 * DAY, 200 * DAY);
        if t2 < T1 - 5 * DAY {
          assert MayTierAgain(t.value, t2) && MayTier(i, shop.registered, t2);
          var final := OtherTier(newTier);
          arrival := Delayed(t2, 300 * SECOND);
          events := events + [ShopTierChanged(t2, arrival, shop.code, final)];
        }
      }
    }
  }

  /** `e` is the first tier change of shop `s`, the `i`-th tiered one, at the time for the drawn offset `u`. */
  predicate IsMove(w: World, s: nat, i: nat, u: int, e: Event) {
    && e.ShopTierChanged? && s < |w.shops|
    && TierTime(i, w.shops[s].registered, u) == Some(e.time)
    && e.shop == w.shops[s].code
    && e.newTier != w.shops[s].tier && e.newTier in {"bronze", "silver", "gold"}
  }

  /** `e` moves on from `first`, 60 days later or more. */
  predicate MovesOn(first: Event, e: Event) {
    && first.ShopTierChanged? && e.ShopTierChanged? && e.shop == first.shop
    && first.time + 60 * DAY <= e.time
    && e.newTier != first.newTier && e.newTier in {"bronze", "silver", "gold"}
  }

  ghost predicate MoveShown(w: World, events: seq<Event>, s: nat, i: nat, u: int) {
    s < |w.shops| && (TierTime(i, w.shops[s].registered, u).None? || exists e :: e in events && IsMove(w, s, i, u, e))
  }

  ghost predicate IsSomeMove(w: World, events: seq<Event>, s: nat, i: nat, u: int, e: Event) {
    IsMove(w, s, i, u, e) || exists f :: f in events && IsMove(w, s, i, u, f) && MovesOn(f, e)
  }

  /** Each chosen shop changes its tier, unless its time is out of the span, maybe once more, and no other. */
  ghost predicate MovesShown(w: World, events: seq<Event>, chosen: seq<nat>, us: seq<int>) {
    && InOrder(w, chosen, us)
    && (forall i :: 0 <= i < |chosen| ==> MoveShown(w, events, chosen[i], i, us[i]))
    && (forall e :: e in events && e.ShopTierChanged? ==>
          exists i :: 0 <= i < |chosen| && IsSomeMove(w, events, chosen[i], i, us[i], e))
  }

  lemma MoveStays(w: World, events: seq<Event>, more: seq<Event>, s: nat, i: nat, u: int)
    requires MoveShown(w, events, s, i, u) || MoveShown(w, more, s, i, u)
    ensures MoveShown(w, events + more, s, i, u)
  {
    if TierTime(i, w.shops[s].registered, u).Some? {
      var e :| (e in events || e in more) && IsMove(w, s, i, u, e);
      assert e in events + more;
    }
  }

  lemma SomeMoveStays(w: World, events: seq<Event>, more: seq<Event>, s: nat, i: nat, u: int, e: Event)
    requires IsSomeMove(w, events, s, i, u, e) || IsSomeMove(w, more, s, i, u, e)
    ensures IsSomeMove(w, events + more, s, i, u, e)
  {
    hide IsMove, MovesOn;
    if !IsMove(w, s, i, u, e) {
      var f :| (f in events || f in more) && IsMove(w, s, i, u, f) && MovesOn(f, e);
      assert f in events + more;
    }
  }

  lemma MovesNext(w: World, events: seq<Event>, chosen: seq<nat>, us: seq<int>, more: seq<Event>, s: nat, u: int)
    requires MovesShown(w, events, chosen, us) && s < |w.shops| && forall c :: c in chosen ==> c < s
    requires MoveShown(w, more, s, |chosen|, u) && forall e :: e in more ==> IsSomeMove(w, more, s, |chosen|, u, e)
    ensures MovesShown(w, events + more, chosen + [s], us + [u])
  {
    InOrderNext(w, chosen, us, s, u);
    OrderSizes(w, chosen, us);
    hide IsSomeMove, MoveShown, InOrder;
    var next, vs := chosen + [s], us + [u];
    forall i | 0 <= i < |next| ensures MoveShown(w, events + more, next[i], i, vs[i]) {
      MoveStays(w, events, more, next[i], i, vs[i]);
    }
    forall e | e in events + more && e.ShopTierChanged?
      ensures exists i :: 0 <= i < |next| && IsSomeMove(w, events + more, next[i], i, vs[i], e)
    {
      var i := |chosen|;
      if e !in more {
        i :| 0 <= i < |chosen| && IsSomeMove(w, events, chosen[i], i, us[i], e);
      }
      SomeMoveStays(w, events, more, next[i], i, vs[i], e);
    }
  }

  method EmitTierChanges(w: World) returns (events: seq<Event>, ghost chosen: seq<nat>, ghost us: seq<int>)
    requires DistinctCodes(w)
    ensures Generated(w, events) && LaterAdmin(events)
    ensures Spaced(events) && forall e :: e in events ==> e.ShopTierChanged?
    ensures MovesShown(w, events, chosen, us)
  {
    hide Sourced, Timely, Spaced, MovesShown, TierTime;
    events := [];
    var tiered: nat := 0;
    chosen, us := [], [];
    NoChangeSpaced(events);
    assert MovesShown(w, [], [], []) by {
      NoMoves(w);
    }
    for s := 0 to |w.shops|
      invariant Generated(w, events) && ShopsDone(w, events, s, false)
      invariant MovesShown(w, events, chosen, us) && |chosen| == tiered
      invariant forall c :: c in chosen ==> c < s
    {
      var heads := Coin();
      var more: seq<Event> := [];
      NoChangeSpaced(more);
      if heads {
        var u;
        u, more := ChangeTier(w, s, tiered);
        MovesAreShown(w, more, s, tiered, u);
        MovesNext(w, events, chosen, us, more, s, u);
        chosen, us := chosen + [s], us + [u];
        tiered := tiered + 1;
      }
      ShopsDoneNext(w, events, more, s, false);
      assert events + [] == events;
      events := events + more;
    }
  }

  lemma NoMoves(w: World)
    ensures MovesShown(w, [], [], [])
  {
  }

  lemma MovesAreShown(w: World, more: seq<Event>, s: nat, i: nat, u: int)
    requires s < |w.shops|
    requires forall e :: e in more ==> e.ShopTierChanged? && e.shop == w.shops[s].code && e.newTier in TIERS
    requires match TierTime(i, w.shops[s].registered, u)
             case None => more == []
             case Some(t) => 1 <= |more| <= 2 && more[0].ShopTierChanged?
                             && more[0].time == t && more[0].newTier != w.shops[s].tier
    requires |more| == 2 ==> more[1].ShopTierChanged? && more[1].newTier != more[0].newTier
                             && more[0].time + 60 * DAY <= more[1].time
    ensures MoveShown(w, more, s, i, u) && forall e :: e in more ==> IsSomeMove(w, more, s, i, u, e)
  {
    hide TierTime;
    if more != [] {
      assert more[0] in more && IsMove(w, s, i, u, more[0]);
      forall e | e in more ensures IsSomeMove(w, more, s, i, u, e) {
        if e != more[0] {
          assert e == more[1] && MovesOn(more[0], e);
        }
      }
    }
  }

  /** `first` holds the earliest discovery of each product among the listings. */
  ghost predicate Earliest(listings: seq<Listing>, first: map<nat, int>) {
    && (forall p :: p in first ==> exists k :: 0 <= k < |listings| && listings[k].p == p && listings[k].discovered == first[p])
    && (forall k :: 0 <= k < |listings| ==> listings[k].p in first && first[listings[k].p] <= listings[k].discovered)
  }

  lemma EarliestNext(listings: seq<Listing>, first: map<nat, int>, li: Listing)
    requires Earliest(listings, first)
    ensures Earliest(listings + [li],
                     if li.p !in first || li.discovered < first[li.p] then first[li.p := li.discovered] else first)
  {
    var all := listings + [li];
    var next := if li.p !in first || li.discovered < first[li.p] then first[li.p := li.discovered] else first;
    forall p | p in next ensures exists k :: 0 <= k < |all| && all[k].p == p && all[k].discovered == next[p] {
      if p == li.p && next != first {
        assert all[|listings|] == li;
      } else {
        var k :| 0 <= k < |listings| && listings[k].p == p && listings[k].discovered == first[p];
        assert all[k] == listings[k];
      }
    }
  }

  /** The dictionary's keys in the order they came in. */
  ghost predicate KeysOf(listings: seq<Listing>, first: map<nat, int>, keys: seq<nat>) {
    keys == Unique(Map(listings, ProductIndex)) && forall p :: p in keys <==> p in first
  }

  lemma KeysNext(listings: seq<Listing>, first: map<nat, int>, keys: seq<nat>, li: Listing, t: int)
    requires KeysOf(listings, first, keys)
    ensures KeysOf(listings + [li], first[li.p := t], if li.p in first then keys else keys + [li.p])
    ensures li.p in first ==> KeysOf(listings + [li], first, keys)
  {
    MapAppend(listings, li, ProductIndex);
    UniqueNext(Map(listings, ProductIndex), li.p);
    hide Map, Unique;
  }

  /** first_disc: the earliest discovery of each listed product, and the order its keys came in. */
  method FirstDiscoveries(w: World) returns (first: map<nat, int>, keys: seq<nat>)
    ensures Earliest(w.listings, first) && KeysOf(w.listings, first, keys)
  {
    first, keys := map[], [];
    hide Earliest, KeysOf;
    assert Earliest([], map[]) && KeysOf([], map[], []) by {
      NothingFirst();
    }
    for i := 0 to |w.listings|
      invariant Earliest(w.listings[..i], first) && KeysOf(w.listings[..i], first, keys)
    {
      var li := w.listings[i];
      assert w.listings[..i + 1] == w.listings[..i] + [li];
      EarliestNext(w.listings[..i], first, li);
      KeysNext(w.listings[..i], first, keys, li, li.discovered);
      if li.p !in first {
        keys := keys + [li.p];
      }
      if li.p !in first || li.discovered < first[li.p] {
        first := first[li.p := li.discovered];
      }
    }
    assert w.listings[..|w.listings|] == w.listings;
  }

  lemma NothingFirst()
    ensures Earliest([], map[]) && KeysOf([], map[], [])
  {
  }

  function ProductIndex(l: Listing): nat { l.p }

  function FieldNow(prod: Product, f: Field): Text {
    match f case Title => prod.title case Brand => prod.brand case Category => prod.category
  }

  /** The drawn time of a product's first change: the first three within a window of
      their own, from August 2024 to April 2025, the others up to 20 days before the end. */
  ghost predicate ChangeDrawn(j: nat, lo: int, t: int) {
    if j < 3 then
      var from := if lo < T0 + 213 * DAY then T0 + 213 * DAY else lo;
      from <= t && (t < T0 + 480 * DAY || t < from + DAY)
    else
      lo <= t && (t < T1 - 20 * DAY || t < lo + DAY)
  }

  /** The changes of the `j`-th targeted product, from `lo` on: the drawn one, unless it is too
      late, and maybe a revised title at least 40 days after it. */
  method ChangeProduct(w: World, j: nat, prod: Product, lo: int, ghost k: int) returns (t: int, events: seq<Event>)
    requires exists shop :: IsListing(w, k, shop, prod.code) && w.listings[k].discovered + 30 * DAY <= lo
    ensures Generated(w, events) && Spaced(events)
    ensures forall e :: e in events ==> e.ProductAttrsChanged? && e.product == prod.code
    ensures ChangeDrawn(j, lo, t) && |events| <= 2 && (events == [] <==> t >= T1 - 5 * DAY)
    ensures events != [] ==>
              && IsChange(prod, j, t, events[0])
              && (forall e :: e in events ==> t <= e.time)
    ensures |events| == 2 ==>
              && t + 40 * DAY <= events[1].time < t + 340 * DAY && events[1].time < T1 - 10 * DAY
              && events[1].changes == map[Title := prod.title + " (rev. Z)"]
  {
    var kind;
    if j < 3 {
      var from := Max(lo, T0 + 213 * DAY);
      t := Uniform(from, Max(DAY, T0 + 480 * DAY - from));
      kind := Brand;
    } else {
      t := Uniform(lo, Max(DAY, T1 - 20 * DAY - lo));
      kind :| true;
    }
    if t >= T1 - 5 * DAY {
      return t, [];
    }
    var value := OtherValue(FieldNow(prod, kind));
    var arrival := Delayed(t, 300 * SECOND);
    events := [ProductAttrsChanged(t, arrival, prod.code, map[kind := value])];
    assert events[0].changes.Keys == {kind};
    var again := Coin();
    if again {
      var t2 := Uniform(t + 40 * DAY, 300 * DAY);
      if t2 < T1 - 10 * DAY {
        arrival := Delayed(t2, 300 * SECOND);
        events := events + [ProductAttrsChanged(t2, arrival, prod.code, map[Title := prod.title + " (rev. Z)"])];
      }
    }
  }

  method OtherValue(now: Text) returns (value: Text)
    ensures value != now
  {
    value :| true;
    if value == now {
      value := now + "'";
      assert |value| != |now|;
    }
  }

  /** `e` gives the product another value for one field; the first three get another brand. */
  ghost predicate IsChange(prod: Product, j: nat, t: int, e: Event) {
    && e.ProductAttrsChanged? && e.product == prod.code && e.time == t
    && exists f :: e.changes.Keys == {f} && e.changes[f] != FieldNow(prod, f) && (j < 3 ==> f == Brand)
  }

  /** The change drawn for target `j` has been emitted, unless it is too late. */
  ghost predicate ChangeEmitted(w: World, events: seq<Event>, target: nat, j: nat, t: int)
    requires target < |w.products|
  {
    t < T1 - 5 * DAY ==> exists e :: e in events && IsChange(w.products[target], j, t, e)
  }

  lemma ChangeStaysEmitted(w: World, events: seq<Event>, more: seq<Event>, target: nat, j: nat, t: int)
    requires target < |w.products| && (ChangeEmitted(w, events, target, j, t) || ChangeEmitted(w, more, target, j, t))
    ensures ChangeEmitted(w, events + more, target, j, t)
  {
    hide IsChange;
    if t < T1 - 5 * DAY {
      var e :| (e in events || e in more) && IsChange(w.products[target], j, t, e);
      assert e in events + more;
    }
  }

  /** The targets are products with a discovery. */
  ghost predicate Targeted(w: World, targets: seq<nat>, first: map<nat, int>) {
    forall j :: 0 <= j < |targets| ==> targets[j] < |w.products| && targets[j] in first
  }

  lemma TargetsListed(w: World, targets: seq<nat>, first: map<nat, int>)
    requires forall l :: l in w.listings ==> ListingFresh(w, l)
    requires Earliest(w.listings, first) && forall p :: p in targets ==> p in first
    ensures Targeted(w, targets, first)
  {
    forall j | 0 <= j < |targets| ensures targets[j] < |w.products| && targets[j] in first {
      var p := targets[j];
      assert p in targets;
      var k :| 0 <= k < |w.listings| && w.listings[k].p == p && w.listings[k].discovered == first[p];
      assert w.listings[k] in w.listings;
    }
  }

  /** Attribute changes of the targeted products: the drawn change of each, at least 30 days
      after its first discovery, and what follows from it. */
  method EmitAttrChanges(w: World, targets: seq<nat>, first: map<nat, int>) returns (events: seq<Event>, ts: seq<int>)
    requires forall l :: l in w.listings ==> ListingFresh(w, l)
    requires forall p :: p in targets ==> p in first
    requires Earliest(w.listings, first)
    requires DistinctCodes(w) && Distinct(targets)
    ensures Generated(w, events) && LaterAdmin(events)
    ensures Spaced(events) && forall e :: e in events ==> e.ProductAttrsChanged?
    ensures Targeted(w, targets, first) && |ts| == |targets|
    ensures ChangesDone(w, events, targets, first, ts, |targets|)
  {
    hide Sourced, Timely, Spaced, ChangesDone;
    TargetsListed(w, targets, first);
    events, ts := [], [];
    NoChangeSpaced(events);
    assert ChangesDone(w, [], targets, first, [], 0) by {
      NoChangesDone(w, targets, first);
    }
    for j := 0 to |targets|
      invariant Generated(w, events) && TargetsDone(w, events, targets, j)
      invariant |ts| == j && ChangesDone(w, events, targets, first, ts, j)
    {
      assert targets[j] in targets;
      ghost var k :| 0 <= k < |w.listings| && w.listings[k].p == targets[j] && w.listings[k].discovered == first[targets[j]];
      assert w.listings[k] in w.listings;
      var prod := w.products[targets[j]];
      assert IsListing(w, k, w.shops[w.listings[k].s].code, prod.code);
      var t, more := ChangeProduct(w, j, prod, first[targets[j]] + 30 * DAY, k);
      FirstIsEmitted(w, more, targets[j], j, t);
      TargetsDoneNext(w, events, more, targets, j);
      ChangesDoneNext(w, events, more, targets, first, ts, j, t);
      events, ts := events + more, ts + [t];
    }
  }

  /** The first `n` targets have changed, each at a time drawn for it, and nothing else has. */
  ghost predicate ChangesDone(w: World, events: seq<Event>, targets: seq<nat>, first: map<nat, int>, ts: seq<int>, n: nat) {
    && Targeted(w, targets, first) && n == |ts| <= |targets|
    && (forall j :: 0 <= j < n ==>
          ChangeDrawn(j, first[targets[j]] + 30 * DAY, ts[j]) && ChangeEmitted(w, events, targets[j], j, ts[j]))
    && (forall e :: e in events && e.ProductAttrsChanged? ==>
          exists j :: 0 <= j < n && e.product == w.products[targets[j]].code && ts[j] <= e.time)
  }

  lemma NoChangesDone(w: World, targets: seq<nat>, first: map<nat, int>)
    requires Targeted(w, targets, first)
    ensures ChangesDone(w, [], targets, first, [], 0)
  {
  }

  lemma ChangesDoneNext(w: World, events: seq<Event>, more: seq<Event>, targets: seq<nat>, first: map<nat, int>,
                        ts: seq<int>, j: nat, t: int)
    requires ChangesDone(w, events, targets, first, ts, j) && j < |targets| && targets[j] in first && targets[j] < |w.products|
    requires ChangeDrawn(j, first[targets[j]] + 30 * DAY, t) && ChangeEmitted(w, more, targets[j], j, t)
    requires forall e :: e in more ==> e.ProductAttrsChanged? && e.product == w.products[targets[j]].code && t <= e.time
    ensures ChangesDone(w, events + more, targets, first, ts + [t], j + 1)
  {
    hide ChangeEmitted, ChangeDrawn;
    var us := ts + [t];
    forall i | 0 <= i < j + 1 ensures ChangeEmitted(w, events + more, targets[i], i, us[i]) {
      ChangeStaysEmitted(w, events, more, targets[i], i, us[i]);
    }
    forall e | e in events + more && e.ProductAttrsChanged?
      ensures exists i :: 0 <= i < j + 1 && e.product == w.products[targets[i]].code && us[i] <= e.time
    {
      if e in more {
        assert us[j] == t;
      } else {
        var i :| 0 <= i < j && e.product == w.products[targets[i]].code && ts[i] <= e.time;
        assert us[i] == ts[i];
      }
    }
  }

  lemma FirstIsEmitted(w: World, events: seq<Event>, target: nat, j: nat, t: int)
    requires target < |w.products| && (events == [] <==> t >= T1 - 5 * DAY)
    requires events != [] ==> IsChange(w.products[target], j, t, events[0])
    ensures ChangeEmitted(w, events, target, j, t)
  {
    if events != [] {
      assert events[0] in events;
    }
  }

  ghost predicate DiscoveryEmitted(w: World, events: seq<Event>, k: int) {
    exists e :: e in events && e.ProductDiscovered? && IsListing(w, k, e.shop, e.product)
      && e.time == w.listings[k].discovered
  }

  /** What the life of one listing puts into the stream, arrivals apart. */
  function EventsOfListing(w: World, li: Listing): seq<Event>
    requires li.s < |w.shops| && li.p < |w.products|
  {
    var shop, prod := w.shops[li.s].code, w.products[li.p];
    [ProductDiscovered(li.discovered, 0, shop, prod.code, prod.title, prod.brand, prod.category)]
    + (if li.delist.Some? then [ProductDelisted(li.delist.value, 0, shop, prod.code)] else [])
    + (if li.delist.Some? && li.relist.Some? then [ProductRelisted(li.relist.value, 0, shop, prod.code)] else [])
  }

  ghost function ListingEvents(w: World, n: nat): seq<Event>
    requires n <= |w.listings| && forall i :: 0 <= i < |w.listings| ==> w.listings[i].s < |w.shops| && w.listings[i].p < |w.products|
  {
    if n == 0 then [] else ListingEvents(w, n - 1) + EventsOfListing(w, w.listings[n - 1])
  }

  predicate OfListing(e: Event) {
    e.ProductDiscovered? || e.ProductDelisted? || e.ProductRelisted?
  }

  lemma ListingSourced(w: World, k: nat, e: Event)
    requires k < |w.listings| && ListingFresh(w, w.listings[k])
    requires var li := w.listings[k];
             && OfListing(e) && e.shop == w.shops[li.s].code && e.product == w.products[li.p].code
             && (e.ProductDiscovered? ==> e.time == li.discovered)
             && (e.ProductDelisted? ==> li.delist == Some(e.time))
             && (e.ProductRelisted? ==> li.relist == Some(e.time))
    ensures Sourced(w, e)
  {
    assert IsListing(w, k, e.shop, e.product);
  }

  function Discovery(li: Listing, shop: Code, prod: Product, arrival: int): Event {
    ProductDiscovered(li.discovered, arrival, shop, prod.code, prod.title, prod.brand, prod.category)
  }

  /** Whatever the arrivals: these are the listing's events. */
  lemma OneEvent(w: World, li: Listing, a: int)
    requires li.s < |w.shops| && li.p < |w.products| && li.delist.None?
    ensures Map([Discovery(li, w.shops[li.s].code, w.products[li.p], a)], Bare) == EventsOfListing(w, li)
  {
  }

  lemma TwoEvents(w: World, li: Listing, a: int, b: int)
    requires li.s < |w.shops| && li.p < |w.products| && li.delist.Some? && li.relist.None?
    ensures var shop, prod := w.shops[li.s].code, w.products[li.p];
            Map([Discovery(li, shop, prod, a), ProductDelisted(li.delist.value, b, shop, prod.code)], Bare)
            == EventsOfListing(w, li)
  {
    var shop, prod := w.shops[li.s].code, w.products[li.p];
    var first, second := Discovery(li, shop, prod, a), ProductDelisted(li.delist.value, b, shop, prod.code);
    var r := Map([first, second], Bare);
    assert r == [Bare(first), Bare(second)];
  }

  lemma ThreeEvents(w: World, li: Listing, a: int, b: int, c: int)
    requires li.s < |w.shops| && li.p < |w.products| && li.delist.Some? && li.relist.Some?
    ensures var shop, prod := w.shops[li.s].code, w.products[li.p];
            Map([Discovery(li, shop, prod, a), ProductDelisted(li.delist.value, b, shop, prod.code),
                 ProductRelisted(li.relist.value, c, shop, prod.code)], Bare)
            == EventsOfListing(w, li)
  {
    var shop, prod := w.shops[li.s].code, w.products[li.p];
    var first, second := Discovery(li, shop, prod, a), ProductDelisted(li.delist.value, b, shop, prod.code);
    var third := ProductRelisted(li.relist.value, c, shop, prod.code);
    var r := Map([first, second, third], Bare);
    assert r == [Bare(first), Bare(second), Bare(third)];
  }

  method EmitListing(w: World, k: nat) returns (events: seq<Event>)
    requires k < |w.listings| && ListingFresh(w, w.listings[k])
    ensures Generated(w, events) && Map(events, Bare) == EventsOfListing(w, w.listings[k])
    ensures forall e :: e in events ==> OfListing(e)
    ensures DiscoveryEmitted(w, events, k)
  {
    hide Sourced, EventsOfListing, Map, DiscoveryEmitted;
    var li := w.listings[k];
    var prod, shop := w.products[li.p], w.shops[li.s].code;
    var a := Delayed(li.discovered, 120 * SECOND);
    var discovery := Discovery(li, shop, prod, a);
    ListingSourced(w, k, discovery);
    events := [discovery];
    if li.delist.None? {
      OneEvent(w, li, a);
    } else {
      var b := Delayed(li.delist.value, 300 * SECOND);
      var delist := ProductDelisted(li.delist.value, b, shop, prod.code);
      ListingSourced(w, k, delist);
      events := [discovery, delist];
      if li.relist.None? {
        TwoEvents(w, li, a, b);
      } else {
        var c := Delayed(li.relist.value, 300 * SECOND);
        var relist := ProductRelisted(li.relist.value, c, shop, prod.code);
        ListingSourced(w, k, relist);
        events := [discovery, delist, relist];
        ThreeEvents(w, li, a, b, c);
      }
    }
    FirstDiscovers(w, k, events);
  }

  lemma FirstDiscovers(w: World, k: nat, events: seq<Event>)
    requires k < |w.listings| && events != [] && events[0].ProductDiscovered?
    requires var li := w.listings[k];
             && li.s < |w.shops| && li.p < |w.products|
             && events[0].shop == w.shops[li.s].code && events[0].product == w.products[li.p].code
             && events[0].time == li.discovered
    ensures DiscoveryEmitted(w, events, k)
  {
    assert events[0] in events && IsListing(w, k, events[0].shop, events[0].product);
  }

  lemma EmittedMore(w: World, events: seq<Event>, more: seq<Event>, k: int)
    requires DiscoveryEmitted(w, events, k) || DiscoveryEmitted(w, more, k)
    ensures DiscoveryEmitted(w, events + more, k)
  {
    var e :| (e in events || e in more) && e.ProductDiscovered? && IsListing(w, k, e.shop, e.product)
      && e.time == w.listings[k].discovered;
    assert e in events + more;
  }

  /** Discovery, delist and relist of every listing, in the listings' order and nothing else. */
  method EmitListingEvents(w: World) returns (events: seq<Event>)
    requires forall l :: l in w.listings ==> ListingFresh(w, l)
    ensures Generated(w, events) && LaterAdmin(events) && NoChanges(events)
    ensures forall i :: 0 <= i < |w.listings| ==> w.listings[i].s < |w.shops| && w.listings[i].p < |w.products|
    ensures Map(events, Bare) == ListingEvents(w, |w.listings|)
    ensures forall e :: e in events ==> OfListing(e)
    ensures forall k :: 0 <= k < |w.listings| ==> DiscoveryEmitted(w, events, k)
  {
    hide Sourced, Timely, DiscoveryEmitted, EventsOfListing;
    forall i | 0 <= i < |w.listings| ensures ListingFresh(w, w.listings[i]) {
      assert w.listings[i] in w.listings;
    }
    events := [];
    for k := 0 to |w.listings|
      invariant Generated(w, events)
      invariant forall e :: e in events ==> OfListing(e)
      invariant Map(events, Bare) == ListingEvents(w, k)
      invariant forall j :: 0 <= j < k ==> DiscoveryEmitted(w, events, j)
    {
      var more := EmitListing(w, k);
      MapConcat(events, more, Bare);
      forall j | 0 <= j < k + 1 ensures DiscoveryEmitted(w, events + more, j) {
        EmittedMore(w, events, more, j);
      }
      events := events + more;
    }
  }

  function EarlyIn(first: map<nat, int>): nat -> bool {
    (p: nat) => p in first && first[p] < T0 + 120 * DAY
  }

  function ListedIn(first: map<nat, int>): nat -> bool {
    (p: nat) => p in first
  }

  /** Four early products, then all listed ones in the drawn order, cut off at the limit. */
  function Candidates(first: map<nat, int>, keys: seq<nat>, order: seq<nat>, limit: nat): seq<nat> {
    Take(Take(Filter(keys, EarlyIn(first)), 4) + Filter(order, ListedIn(first)), limit)
  }

  lemma CandidatesListed(first: map<nat, int>, keys: seq<nat>, order: seq<nat>, limit: nat)
    ensures |Candidates(first, keys, order, limit)| <= limit
    ensures forall p :: p in Candidates(first, keys, order, limit) ==> p in first
  {
    var a, b := Filter(keys, EarlyIn(first)), Filter(order, ListedIn(first));
    forall p | p in Candidates(first, keys, order, limit) ensures p in first {
      assert p in a || p in b;
      FilterMember(keys, EarlyIn(first), p);
      FilterMember(order, ListedIn(first), p);
    }
  }

  /** Product indices to change.  The cut comes before repetitions are dropped, so there
      may be fewer than the limit although more are listed. */
  method AttrTargets(first: map<nat, int>, keys: seq<nat>, order: seq<nat>, limit: nat) returns (targets: seq<nat>)
    ensures targets == Unique(Candidates(first, keys, order, limit))
    ensures |targets| <= limit && Distinct(targets)
    ensures forall p :: p in targets ==> p in first
  {
    var candidates := Candidates(first, keys, order, limit);
    CandidatesListed(first, keys, order, limit);
    hide Candidates;
    targets := [];
    for i := 0 to |candidates|
      invariant targets == Unique(candidates[..i])
    {
      assert candidates[..i + 1] == candidates[..i] + [candidates[i]];
      UniqueNext(candidates[..i], candidates[i]);
      UniqueIs(candidates[..i]);
      if candidates[i] !in targets {
        targets := targets + [candidates[i]];
      }
    }
    assert candidates[..|candidates|] == candidates;
    UniqueIs(candidates);
  }

  function NotIn(xs: seq<nat>): nat -> bool {
    (p: nat) => p !in xs
  }

  lemma {:induction false} FilterDistinct(xs: seq<nat>, p: nat -> bool)
    requires Distinct(xs)
    ensures Distinct(Filter(xs, p))
  {
    if |xs| > 0 {
      FilterDistinct(Init(xs), p);
      var kept, last := Filter(Init(xs), p), Last(xs);
      forall i | 0 <= i < |kept| ensures kept[i] != last {
        FilterMember(Init(xs), p, kept[i]);
      }
    }
  }

  lemma {:induction false} UniqueOfDistinct(xs: seq<nat>)
    requires Distinct(xs)
    ensures Unique(xs) == xs
  {
    if |xs| > 0 {
      UniqueOfDistinct(Init(xs));
      InitLast(xs);
    }
  }

  /** Of two lists without repetitions, put end to end, the second loses what the first has. */
  lemma {:induction false} UniqueOfBoth(xs: seq<nat>, ys: seq<nat>)
    requires Distinct(xs) && Distinct(ys)
    ensures Unique(xs + ys) == xs + Filter(ys, NotIn(xs))
  {
    if |ys| == 0 {
      assert xs + ys == xs;
      UniqueOfDistinct(xs);
    } else {
      UniqueOfBoth(xs, Init(ys));
      assert xs + ys == (xs + Init(ys)) + [Last(ys)];
      UniqueNext(xs + Init(ys), Last(ys));
      FilterMember(Init(ys), NotIn(xs), Last(ys));
    }
  }

  lemma {:induction false} FilterKeepsAllIff(xs: seq<nat>, p: nat -> bool)
    ensures |Filter(xs, p)| <= |xs|
    ensures |Filter(xs, p)| == |xs| <==> forall x :: x in xs ==> p(x)
  {
    if |xs| > 0 {
      FilterKeepsAllIff(Init(xs), p);
      InitLast(xs);
    }
  }

  lemma TakeDistinct(xs: seq<nat>, n: nat)
    requires Distinct(xs)
    ensures Distinct(Take(xs, n))
  {
  }

  /** The early products that come first. */
  function FirstEarly(first: map<nat, int>, keys: seq<nat>): seq<nat> {
    Take(Filter(keys, EarlyIn(first)), 4)
  }

  lemma {:induction false} AmongFirst(xs: seq<nat>, p: nat -> bool, i: nat, n: nat)
    requires Distinct(xs) && i < |xs|
    ensures xs[i] in Take(Filter(xs, p), n) <==> p(xs[i]) && |Filter(xs[..i], p)| < n
  {
    var front, back := xs[..i], xs[i + 1..];
    assert xs == front + ([xs[i]] + back);
    assert xs[i] !in front && xs[i] !in back;
    hide Distinct, Filter, Take;
    FilterAppend(front, [xs[i]] + back, p);
    FilterAppend([xs[i]], back, p);
    FilterOne(xs[i], p);
    FilterMember(front, p, xs[i]);
    FilterMember(back, p, xs[i]);
    InTheMiddle(Filter(front, p), if p(xs[i]) then [xs[i]] else [], Filter(back, p), xs[i], n);
  }

  lemma InTheMiddle(front: seq<nat>, middle: seq<nat>, back: seq<nat>, x: nat, n: nat)
    requires x !in front && x !in back && (middle == [] || middle == [x])
    ensures x in Take(front + (middle + back), n) <==> middle == [x] && |front| < n
  {
    var all := front + (middle + back);
    if middle == [x] {
      assert all[|front|] == x;
      assert |front| < n ==> Take(all, n)[|front|] == x;
    } else {
      assert x !in all;
    }
  }

  /** A product is among the early ones if it is discovered in the first 120 days and fewer
      than four such products come before it. */
  lemma EarlyAre(first: map<nat, int>, keys: seq<nat>, i: nat)
    requires Distinct(keys) && i < |keys|
    ensures keys[i] in FirstEarly(first, keys)
       <==> && keys[i] in first && first[keys[i]] < (1704067200 + 120 * 86400) * 1_000_000
            && |Filter(keys[..i], (p: nat) => p in first && first[p] < (1704067200 + 120 * 86400) * 1_000_000)| < 4
  {
    var early := (p: nat) => p in first && first[p] < (1704067200 + 120 * 86400) * 1_000_000;
    AmongFirst(keys, EarlyIn(first), i, 4);
    FilterAgree(keys[..i], early, EarlyIn(first));
    hide Filter;
  }

  lemma CandidatesAre(first: map<nat, int>, keys: seq<nat>, order: seq<nat>, limit: nat)
    requires limit >= 4
    ensures var early := FirstEarly(first, keys);
            |early| <= 4 && Candidates(first, keys, order, limit) == early + Take(Filter(order, ListedIn(first)), limit - |early|)
  {
    hide Filter;
  }

  lemma EarlyDistinct(first: map<nat, int>, keys: seq<nat>)
    requires Distinct(keys)
    ensures Distinct(FirstEarly(first, keys))
  {
    hide Filter, Take, Distinct;
    FilterDistinct(keys, EarlyIn(first));
    TakeDistinct(Filter(keys, EarlyIn(first)), 4);
  }

  /** The targets are the early products and, of the listed ones that still fit under the
      limit, those that are not among these. */
  lemma TargetsAre(first: map<nat, int>, keys: seq<nat>, order: seq<nat>, limit: nat)
    requires Distinct(keys) && Distinct(order) && limit >= 4
    ensures var early := FirstEarly(first, keys);
            var fitting := Take(Filter(order, ListedIn(first)), limit - |early|);
            Unique(Candidates(first, keys, order, limit)) == early + Filter(fitting, NotIn(early))
  {
    hide Filter, Candidates, Take, FirstEarly, Unique, Distinct, NotIn, ListedIn;
    CandidatesAre(first, keys, order, limit);
    var early, listed := FirstEarly(first, keys), Filter(order, ListedIn(first));
    EarlyDistinct(first, keys);
    FilterDistinct(order, ListedIn(first));
    TakeDistinct(listed, limit - |early|);
    UniqueOfBoth(early, Take(listed, limit - |early|));
  }

  /** With as many listed products as the limit, that many are changed exactly if none of the
      early ones is among the first of the order that still fit. */
  lemma FullTargetsIff(first: map<nat, int>, keys: seq<nat>, order: seq<nat>, limit: nat)
    requires Distinct(keys) && Distinct(order) && limit >= 4 && |Filter(order, ListedIn(first))| >= limit
    ensures var early := FirstEarly(first, keys);
            && |early| <= 4
            && (|Unique(Candidates(first, keys, order, limit))| == limit
                <==> forall p :: p in early ==> p !in Filter(order, ListedIn(first))[..limit - |early|])
  {
    var early, listed := FirstEarly(first, keys), Filter(order, ListedIn(first));
    TargetsAre(first, keys, order, limit);
    var fitting := listed[..limit - |early|];
    assert Take(listed, limit - |early|) == fitting;
    FilterKeepsAllIff(fitting, NotIn(early));
    hide Filter, Candidates, FirstEarly;
  }

  /** The listings of one product in one shop, all discovered on the first day. */
  function NineListings(n: nat): seq<Listing> {
    seq(n, p requires p >= 0 => Listing(0, p, T0 + DAY, None, None))
  }

  lemma {:induction false} KeysOfNine(n: nat)
    ensures Unique(Map(NineListings(n), ProductIndex)) == Range(n)
  {
    assert Map(NineListings(n), ProductIndex) == Range(n);
    UniqueOfDistinct(Range(n));
  }

  const NINE_FIRST: map<nat, int> := map p: nat | p < 9 :: T0 + DAY

  lemma NineAreFirst()
    ensures Earliest(NineListings(9), NINE_FIRST) && KeysOf(NineListings(9), NINE_FIRST, Range(9))
  {
    KeysOfNine(9);
    NineEarliest();
    hide Map, Unique, Earliest;
    var nine, first := Range(9), NINE_FIRST;
    forall p: nat ensures p in nine <==> p in first {
      if p in first {
        assert nine[p] == p;
      }
    }
  }

  lemma NineEarliest()
    ensures Earliest(NineListings(9), NINE_FIRST)
  {
    var ls, first := NineListings(9), NINE_FIRST;
    forall p: nat | p in first ensures exists k :: 0 <= k < |ls| && ls[k].p == p && ls[k].discovered == first[p] {
      assert ls[p].p == p;
    }
  }

  /** When all listed products are early and the drawn order begins with them, only the
      first four of them are changed. */
  lemma OnlyEarlyTargets(first: map<nat, int>, keys: seq<nat>, order: seq<nat>, limit: nat)
    requires Distinct(order) && keys <= order && 4 <= limit <= 8 <= |keys|
    requires forall p :: p in keys ==> EarlyIn(first)(p)
    ensures Unique(Candidates(first, keys, order, limit)) == keys[..4]
  {
    var four, fitting := keys[..4], keys[..limit - 4];
    KeysFit(first, keys, order, limit);
    PrefixDistinct(keys, order);
    TargetsAre(first, keys, order, limit);
    hide Filter, Candidates, Unique, FirstEarly, Take, Distinct, EarlyIn;
    FilterNone(fitting, NotIn(four));
    assert four + [] == four;
  }

  lemma PrefixDistinct(keys: seq<nat>, order: seq<nat>)
    requires Distinct(order) && keys <= order
    ensures Distinct(keys)
  {
  }

  lemma KeysFit(first: map<nat, int>, keys: seq<nat>, order: seq<nat>, limit: nat)
    requires keys <= order && 4 <= limit <= 8 <= |keys|
    requires forall p :: p in keys ==> EarlyIn(first)(p)
    ensures FirstEarly(first, keys) == keys[..4]
    ensures Take(Filter(order, ListedIn(first)), limit - 4) == keys[..limit - 4]
  {
    var rest := order[|keys|..];
    FilterAll(keys, EarlyIn(first));
    FilterAll(keys, ListedIn(first));
    assert order == keys + rest;
    FilterAppend(keys, rest, ListedIn(first));
    hide Filter;
  }

  /** Nine listed products and a limit of eight, the smallest there is: when the drawn order
      begins with the early four, only these four are changed. */
  lemma FewerTargetsThanListed(order: seq<nat>)
    requires Distinct(order) && Range(9) <= order
    ensures Earliest(NineListings(9), NINE_FIRST) && KeysOf(NineListings(9), NINE_FIRST, Range(9))
    ensures |Unique(Candidates(NINE_FIRST, Range(9), order, 8))| == 4
  {
    NineAreFirst();
    var nine := Range(9);
    forall p | p in nine ensures EarlyIn(NINE_FIRST)(p) {
    }
    hide Candidates, Range, Unique, Earliest, KeysOf;
    OnlyEarlyTargets(NINE_FIRST, nine, order, 8);
  }

  lemma {:induction false} AtMostOne<T>(xs: seq<T>, p: T -> bool)
    requires forall i, j :: 0 <= i < j < |xs| && p(xs[i]) ==> !p(xs[j])
    ensures |Filter(xs, p)| <= 1
  {
    if |xs| > 0 {
      AtMostOne(Init(xs), p);
      if p(Last(xs)) {
        FilterNone(Init(xs), p);
      }
    }
  }

  lemma RegistrationsUnique(w: World, regs: seq<Event>, rest: seq<Event>)
    requires DistinctCodes(w) && |regs| == |w.shops| && LaterAdmin(rest)
    requires forall i :: 0 <= i < |regs| ==> regs[i].ShopRegistered? && Bare(regs[i]) == RegistrationOf(w.shops[i])
    ensures RegisteredOnce(regs + rest)
  {
    forall s ensures |Filter(regs + rest, RegistrationsOf(s))| <= 1 {
      FilterAppend(regs, rest, RegistrationsOf(s));
      FilterNone(rest, RegistrationsOf(s));
      AtMostOne(regs, RegistrationsOf(s));
    }
  }

  ghost predicate RegistrationEmitted(w: World, events: seq<Event>, i: int) {
    exists e :: e in events && e.ShopRegistered? && KnownShop(w, e.shop, i) && e.time == w.shops[i].registered
  }

  /** The admin side is complete: one registration per shop, one discovery per listing. */
  ghost predicate AdminComplete(w: World, events: seq<Event>) {
    && RegisteredOnce(events)
    && (forall i :: 0 <= i < |w.shops| ==> RegistrationEmitted(w, events, i))
    && (forall k :: 0 <= k < |w.listings| ==> DiscoveryEmitted(w, events, k))
  }

  predicate RegistersShop(e: Event) { e.ShopRegistered? }

  /** Arrivals apart, the registrations are the shops' and the listing events the listings', each in its order. */
  ghost predicate AdminMade(w: World, events: seq<Event>)
    requires forall i :: 0 <= i < |w.listings| ==> w.listings[i].s < |w.shops| && w.listings[i].p < |w.products|
  {
    && Map(Filter(events, RegistersShop), Bare) == Map(w.shops, RegistrationOf)
    && Map(Filter(events, OfListing), Bare) == ListingEvents(w, |w.listings|)
  }

  /** Every shop is registered under its own code, name, country and tier when it registers. */
  ghost predicate ShopShown(w: World, events: seq<Event>, i: nat)
    requires i < |w.shops|
  {
    var shop := w.shops[i];
    exists e :: e in events && e.ShopRegistered? && e.time == shop.registered
                && e.shop == shop.code && e.name == shop.name && e.country == shop.country && e.tier == shop.tier
  }

  /** Every listing is discovered with its product's attributes, delisted, and after that
      relisted, each at its time. */
  ghost predicate ListingShown(w: World, events: seq<Event>, k: nat)
    requires k < |w.listings| && w.listings[k].s < |w.shops| && w.listings[k].p < |w.products|
  {
    var li := w.listings[k];
    var shop, prod := w.shops[li.s].code, w.products[li.p];
    && (exists e :: e in events && e.ProductDiscovered? && e.time == li.discovered && e.shop == shop && e.product == prod.code
                    && e.title == prod.title && e.brand == prod.brand && e.category == prod.category)
    && (li.delist.Some? ==>
          exists e :: e in events && e.ProductDelisted? && e.time == li.delist.value && e.shop == shop && e.product == prod.code)
    && (li.delist.Some? && li.relist.Some? ==>
          exists e :: e in events && e.ProductRelisted? && e.time == li.relist.value && e.shop == shop && e.product == prod.code)
  }

  ghost predicate WorldShown(w: World, events: seq<Event>)
    requires forall i :: 0 <= i < |w.listings| ==> w.listings[i].s < |w.shops| && w.listings[i].p < |w.products|
  {
    && (forall i :: 0 <= i < |w.shops| ==> ShopShown(w, events, i))
    && (forall k :: 0 <= k < |w.listings| ==> ListingShown(w, events, k))
  }

  lemma EmittedAs(events: seq<Event>, p: Event -> bool, x: Event) returns (e: Event)
    requires x in Map(Filter(events, p), Bare)
    ensures e in events && Bare(e) == x
  {
    var kept := Filter(events, p);
    var i :| 0 <= i < |kept| && Bare(kept[i]) == x;
    e := kept[i];
    FilterMember(events, p, e);
  }

  lemma {:induction false} ListingEventsHave(w: World, n: nat, k: nat, x: Event)
    requires n <= |w.listings| && forall i :: 0 <= i < |w.listings| ==> w.listings[i].s < |w.shops| && w.listings[i].p < |w.products|
    requires k < n && x in EventsOfListing(w, w.listings[k])
    ensures x in ListingEvents(w, n)
  {
    hide EventsOfListing;
    if k < n - 1 {
      ListingEventsHave(w, n - 1, k, x);
    }
  }

  /** What is made of the world shows all of it. */
  lemma MadeShows(w: World, events: seq<Event>)
    requires forall i :: 0 <= i < |w.listings| ==> w.listings[i].s < |w.shops| && w.listings[i].p < |w.products|
    requires AdminMade(w, events)
    ensures WorldShown(w, events)
  {
    hide Filter, AdminMade, ShopShown, ListingShown;
    forall i | 0 <= i < |w.shops| ensures ShopShown(w, events, i) {
      ShopMade(w, events, i);
    }
    forall k | 0 <= k < |w.listings| ensures ListingShown(w, events, k) {
      ListingMade(w, events, k);
    }
  }

  lemma ShopMade(w: World, events: seq<Event>, i: nat)
    requires forall i :: 0 <= i < |w.listings| ==> w.listings[i].s < |w.shops| && w.listings[i].p < |w.products|
    requires AdminMade(w, events) && i < |w.shops|
    ensures ShopShown(w, events, i)
  {
    var x := RegistrationOf(w.shops[i]);
    assert Map(w.shops, RegistrationOf)[i] == x;
    hide Filter, Map;
    var e := EmittedAs(events, RegistersShop, x);
    assert e.shop == x.shop && e.name == x.name && e.country == x.country && e.tier == x.tier && e.time == x.time;
  }

  lemma ListingMade(w: World, events: seq<Event>, k: nat)
    requires forall i :: 0 <= i < |w.listings| ==> w.listings[i].s < |w.shops| && w.listings[i].p < |w.products|
    requires AdminMade(w, events) && k < |w.listings|
    ensures ListingShown(w, events, k)
  {
    var li, all := w.listings[k], EventsOfListing(w, w.listings[k]);
    hide Filter, Map, ListingEvents;
    ListingEventsHave(w, |w.listings|, k, all[0]);
    var e := EmittedAs(events, OfListing, all[0]);
    assert e.time == all[0].time && e.shop == all[0].shop && e.product == all[0].product
           && e.title == all[0].title && e.brand == all[0].brand && e.category == all[0].category;
    if li.delist.Some? {
      ListingEventsHave(w, |w.listings|, k, all[1]);
      e := EmittedAs(events, OfListing, all[1]);
      assert e.time == all[1].time && e.shop == all[1].shop && e.product == all[1].product;
      if li.relist.Some? {
        ListingEventsHave(w, |w.listings|, k, all[2]);
        e := EmittedAs(events, OfListing, all[2]);
        assert e.time == all[2].time && e.shop == all[2].shop && e.product == all[2].product;
      }
    }
  }

  lemma FilterParts(a: seq<Event>, b: seq<Event>, c: seq<Event>, p: Event -> bool)
    ensures Filter(a + b + c, p) == Filter(a, p) + Filter(b, p) + Filter(c, p)
  {
    FilterAppend(a + b, c, p);
    FilterAppend(a, b, p);
  }

  lemma MadeOfParts(w: World, regs: seq<Event>, changes: seq<Event>, lifecycle: seq<Event>)
    requires forall i :: 0 <= i < |w.listings| ==> w.listings[i].s < |w.shops| && w.listings[i].p < |w.products|
    requires |regs| == |w.shops|
    requires forall i :: 0 <= i < |regs| ==> regs[i].ShopRegistered? && Bare(regs[i]) == RegistrationOf(w.shops[i])
    requires forall e :: e in changes ==> !RegistersShop(e) && !OfListing(e)
    requires Map(lifecycle, Bare) == ListingEvents(w, |w.listings|) && forall e :: e in lifecycle ==> OfListing(e)
    ensures AdminMade(w, regs + changes + lifecycle)
  {
    hide ListingEvents, Filter, Map;
    FilterParts(regs, changes, lifecycle, RegistersShop);
    FilterParts(regs, changes, lifecycle, OfListing);
    FilterAll(regs, RegistersShop);
    FilterNone(changes, RegistersShop);
    FilterNone(lifecycle, RegistersShop);
    FilterNone(regs, OfListing);
    FilterNone(changes, OfListing);
    FilterAll(lifecycle, OfListing);
    SameMaps(w, regs);
    assert regs + [] + [] == regs && [] + [] + lifecycle == lifecycle;
  }

  lemma SameMaps(w: World, regs: seq<Event>)
    requires |regs| == |w.shops| && forall i :: 0 <= i < |regs| ==> Bare(regs[i]) == RegistrationOf(w.shops[i])
    ensures Map(regs, Bare) == Map(w.shops, RegistrationOf)
  {
  }

  lemma AdminCompletes(w: World, regs: seq<Event>, rest: seq<Event>)
    requires DistinctCodes(w) && |regs| == |w.shops| && LaterAdmin(rest)
    requires forall i :: 0 <= i < |regs| ==> regs[i].ShopRegistered? && Bare(regs[i]) == RegistrationOf(w.shops[i])
    requires forall k :: 0 <= k < |w.listings| ==> DiscoveryEmitted(w, rest, k)
    ensures AdminComplete(w, regs + rest)
  {
    hide RegisteredOnce, DiscoveryEmitted;
    RegistrationsUnique(w, regs, rest);
    forall i | 0 <= i < |w.shops| ensures RegistrationEmitted(w, regs + rest, i) {
      assert regs[i] in regs + rest && KnownShop(w, regs[i].shop, i);
    }
    forall k | 0 <= k < |w.listings| ensures DiscoveryEmitted(w, regs + rest, k) {
      EmittedMore(w, regs, rest, k);
    }
  }

  lemma ShapeOfWorld(w: World)
    requires WorldOk(w)
    ensures forall i :: 0 <= i < |w.listings| ==> w.listings[i].s < |w.shops| && w.listings[i].p < |w.products|
  {
    forall i | 0 <= i < |w.listings| ensures ListingFresh(w, w.listings[i]) {
      assert w.listings[i] in w.listings;
    }
  }

  /** What is drawn for the changes: the shops renamed and tiered with their offsets, the
      earliest discoveries, and the times of the product changes. */
  datatype Choices = Choices(renamed: seq<nat>, renameOffsets: seq<int>, tiered: seq<nat>, tierOffsets: seq<int>,
                             first: map<nat, int>, keys: seq<nat>, times: seq<int>)

  /** The changes are those of the shops drawn and of a tenth of the products, or eight. */
  ghost predicate ChangesShown(w: World, order: seq<nat>, events: seq<Event>, c: Choices) {
    && RenamesShown(w, events, c.renamed, c.renameOffsets)
    && MovesShown(w, events, c.tiered, c.tierOffsets)
    && Earliest(w.listings, c.first) && KeysOf(w.listings, c.first, c.keys)
    && var targets := Unique(Candidates(c.first, c.keys, order, if |w.products| < 80 then 8 else |w.products| / 10));
       ChangesDone(w, events, targets, c.first, c.times, |targets|)
  }

  /** Events of other kinds around them leave the changes what they are. */
  lemma RenamesAround(w: World, before: seq<Event>, events: seq<Event>, behind: seq<Event>, chosen: seq<nat>, us: seq<int>)
    requires RenamesShown(w, events, chosen, us)
    requires forall e :: e in before || e in behind ==> !e.ShopRenamed?
    ensures RenamesShown(w, before + events + behind, chosen, us)
  {
    OrderSizes(w, chosen, us);
    hide IsSomeRename, RenameShown, InOrder;
    forall i | 0 <= i < |chosen| ensures RenameShown(w, before + events + behind, chosen[i], i, us[i]) {
      RenameStays(w, before, events, chosen[i], i, us[i]);
      RenameStays(w, before + events, behind, chosen[i], i, us[i]);
    }
  }

  lemma MovesAround(w: World, before: seq<Event>, events: seq<Event>, behind: seq<Event>, chosen: seq<nat>, us: seq<int>)
    requires MovesShown(w, events, chosen, us)
    requires forall e :: e in before || e in behind ==> !e.ShopTierChanged?
    ensures MovesShown(w, before + events + behind, chosen, us)
  {
    OrderSizes(w, chosen, us);
    hide IsSomeMove, MoveShown, InOrder;
    var all := before + events + behind;
    forall i | 0 <= i < |chosen| ensures MoveShown(w, all, chosen[i], i, us[i]) {
      MoveStays(w, before, events, chosen[i], i, us[i]);
      MoveStays(w, before + events, behind, chosen[i], i, us[i]);
    }
    forall e | e in all && e.ShopTierChanged?
      ensures exists i :: 0 <= i < |chosen| && IsSomeMove(w, all, chosen[i], i, us[i], e)
    {
      var i :| 0 <= i < |chosen| && IsSomeMove(w, events, chosen[i], i, us[i], e);
      SomeMoveStays(w, before, events, chosen[i], i, us[i], e);
      SomeMoveStays(w, before + events, behind, chosen[i], i, us[i], e);
    }
  }

  lemma ChangesAround(w: World, before: seq<Event>, events: seq<Event>, behind: seq<Event>,
                      targets: seq<nat>, first: map<nat, int>, ts: seq<int>, n: nat)
    requires ChangesDone(w, events, targets, first, ts, n)
    requires forall e :: e in before || e in behind ==> !e.ProductAttrsChanged?
    ensures ChangesDone(w, before + events + behind, targets, first, ts, n)
  {
    hide ChangeEmitted, ChangeDrawn;
    forall j | 0 <= j < n ensures ChangeEmitted(w, before + events + behind, targets[j], j, ts[j]) {
      ChangeStaysEmitted(w, before, events, targets[j], j, ts[j]);
      ChangeStaysEmitted(w, before + events, behind, targets[j], j, ts[j]);
    }
  }

  lemma ShownAround(w: World, order: seq<nat>, before: seq<Event>, events: seq<Event>, behind: seq<Event>, c: Choices)
    requires ChangesShown(w, order, events, c)
    requires forall e :: e in before || e in behind ==> e.ShopRegistered? || OfListing(e)
    ensures ChangesShown(w, order, before + events + behind, c)
  {
    hide RenamesShown, MovesShown, ChangesDone, Earliest, KeysOf, Unique, Candidates;
    RenamesAround(w, before, events, behind, c.renamed, c.renameOffsets);
    MovesAround(w, before, events, behind, c.tiered, c.tierOffsets);
    var targets := Unique(Candidates(c.first, c.keys, order, if |w.products| < 80 then 8 else |w.products| / 10));
    ChangesAround(w, before, events, behind, targets, c.first, c.times, |targets|);
  }

  /** Renames, tier changes and attribute changes, in this order. */
  method BuildChanges(w: World, order: seq<nat>) returns (changes: seq<Event>, ghost c: Choices)
    requires WorldOk(w)
    ensures Generated(w, changes) && LaterAdmin(changes) && Spaced(changes)
    ensures forall e :: e in changes ==> e.ShopRenamed? || e.ShopTierChanged? || e.ProductAttrsChanged?
    ensures ChangesShown(w, order, changes, c)
  {
    hide Sourced, Timely, Spaced, ListingFresh, LifecycleOrdered, RenamesShown, MovesShown, ChangesDone, Candidates, Unique;
    hide Earliest, KeysOf, Targeted, Distinct;
    ghost var c1, u1, c2, u2;
    var renames, tierChanges;
    renames, c1, u1 := EmitRenames(w);
    tierChanges, c2, u2 := EmitTierChanges(w);
    forall l | l in w.listings ensures ListingFresh(w, l) {
    }
    var first, keys := FirstDiscoveries(w);
    var targets := AttrTargets(first, keys, order, Max(8, |w.products| / 10));
    var attrs, ts := EmitAttrChanges(w, targets, first);
    SpacedAppend(renames, tierChanges);
    SpacedAppend(renames + tierChanges, attrs);
    changes := renames + tierChanges + attrs;
    c := Choices(c1, u1, c2, u2, first, keys, ts);
    RenamesAround(w, [], renames, tierChanges + attrs, c1, u1);
    MovesAround(w, renames, tierChanges, attrs, c2, u2);
    ChangesAround(w, renames + tierChanges, attrs, [], targets, first, ts, |targets|);
    assert [] + renames + (tierChanges + attrs) == changes && renames + tierChanges + attrs + [] == changes;
  }

  method BuildAdminEvents(w: World, order: seq<nat>) returns (events: seq<Event>, ghost c: Choices)
    requires WorldOk(w)
    ensures Generated(w, events) && AdminComplete(w, events) && Spaced(events)
    ensures forall e :: e in events ==> !e.PriceObserved?
    ensures forall i :: 0 <= i < |w.listings| ==> w.listings[i].s < |w.shops| && w.listings[i].p < |w.products|
    ensures AdminMade(w, events) && WorldShown(w, events) && ChangesShown(w, order, events, c)
  {
    hide Sourced, Timely, Spaced, DiscoveryEmitted, AdminComplete, AdminMade, WorldShown, ChangesShown, ListingFresh, LifecycleOrdered;
    ShapeOfWorld(w);
    var regs := EmitRegistrations(w);
    var changes;
    changes, c := BuildChanges(w, order);
    var lifecycle := EmitListingEvents(w);
    events := regs + changes + lifecycle;
    assert events == regs + (changes + lifecycle);
    AdminSpaced(regs, changes, lifecycle);
    MadeOfParts(w, regs, changes, lifecycle);
    MadeShows(w, events);
    ShownAround(w, order, regs, changes, lifecycle, c);
    forall k | 0 <= k < |w.listings| ensures DiscoveryEmitted(w, changes + lifecycle, k) {
      EmittedMore(w, changes, lifecycle, k);
    }
    AdminCompletes(w, regs, changes + lifecycle);
  }

  // ----- Observations

  function ByArrival(e: Event): Key {
    Key(e.arrival, 0, 0)
  }

  /** Copies of one observation agree on price and currency. */
  ghost predicate NoConflict(events: seq<Event>) {
    forall a, b :: a in events && b in events && a.PriceObserved? && b.PriceObserved?
      && a.shop == b.shop && a.product == b.product && a.time == b.time
      ==> a.price == b.price && a.currency == b.currency
  }

  ghost predicate FromListing(w: World, k: int, e: Event) {
    e.PriceObserved? && IsListing(w, k, e.shop, e.product)
  }

  predicate Masked(li: Listing, t: int) {
    li.delist.Some? && li.delist.value <= t < (if li.relist.Some? then li.relist.value else T1) + 6 * HOUR
  }

  /** The listing is on sale: not delisted, not yet, or relisted at least six hours ago. */
  predicate OnSale(li: Listing, t: int) {
    || li.delist.None?
    || t < li.delist.value
    || (li.relist.Some? && li.relist.value + 21600 * SECOND <= t)
  }

  /** Every time in the observable span is masked exactly while the listing is not on sale. */
  lemma MaskedIffOffSale(li: Listing, t: int)
    requires t < T1 - HOUR
    ensures Masked(li, t) <==> !OnSale(li, t)
  {
  }

  /** The seconds of the drawn times that fall outside the listing's delisted span. */
  ghost function SecondsOf(li: Listing, times: seq<int>): set<int> {
    if li.discovered + 6 * HOUR >= T1 - HOUR then {} else set t | t in times && !Masked(li, t) :: RoundSecond(t)
  }

  /** lo + rng.random(n) * (T1 - HOUR - lo) */
  ghost predicate Drawn(li: Listing, times: seq<int>) {
    li.discovered + 6 * HOUR < T1 - HOUR ==> forall t :: t in times ==> li.discovered + 6 * HOUR <= t < T1 - HOUR
  }

  /** The times for drawn offsets into the listing's observable span. */
  function TimesAt(li: Listing, offsets: seq<nat>): (times: seq<int>)
    ensures |times| == |offsets|
  {
    var lo := li.discovered + 6 * HOUR;
    seq(|offsets|, i requires 0 <= i < |offsets| => Pick(lo, T1 - HOUR - lo, offsets[i]))
  }

  /** Every time from six hours after the discovery to an hour before the end can be drawn, and no other. */
  lemma TimesReach(li: Listing, t: int)
    requires li.discovered + 7 * HOUR < T1
    ensures (exists x: nat :: TimesAt(li, [x]) == [t]) <==> li.discovered + 6 * HOUR <= t < T1 - HOUR
  {
    var lo := li.discovered + 6 * HOUR;
    if lo <= t < T1 - HOUR {
      PickReaches(lo, T1 - HOUR - lo, t - lo);
      assert TimesAt(li, [t - lo]) == [t];
    }
    if x: nat :| TimesAt(li, [x]) == [t] {
      PickInRange(lo, T1 - HOUR - lo, x);
      assert TimesAt(li, [x])[0] == t;
    }
  }

  lemma TimesDrawn(li: Listing, offsets: seq<nat>)
    ensures Drawn(li, TimesAt(li, offsets))
  {
  }

  /** The distinct whole seconds at which listing `k` is observed: np.unique(np.round(times)) after the mask. */
  method ObservedSeconds(w: World, k: nat, times: seq<int>) returns (seconds: set<int>)
    requires k < |w.listings| && Drawn(w.listings[k], times)
    ensures seconds == SecondsOf(w.listings[k], times)
    ensures forall t :: t in seconds ==> Observable(w.listings[k], t * SECOND)
  {
    var li := w.listings[k];
    seconds := {};
    if li.discovered + 6 * HOUR >= T1 - HOUR {
      return;
    }
    for i := 0 to |times|
      invariant seconds == SecondsOf(li, times[..i])
      invariant forall t :: t in seconds ==> Observable(li, t * SECOND)
    {
      var t := times[i];
      assert t in times;
      RoundMonotone(t, t);
      SecondsNext(li, times, i);
      if !Masked(li, t) {
        seconds := seconds + {RoundSecond(t)};
      }
    }
    assert times[..|times|] == times;
  }

  lemma SecondsNext(li: Listing, times: seq<int>, i: nat)
    requires i < |times| && li.discovered + 6 * HOUR < T1 - HOUR
    ensures SecondsOf(li, times[..i + 1])
         == SecondsOf(li, times[..i]) + if Masked(li, times[i]) then {} else {RoundSecond(times[i])}
  {
    hide Masked, RoundSecond;
    assert times[..i + 1] == times[..i] + [times[i]];
  }

  lemma ListingUnique(w: World, j: int, k: int, shop: Code, product: Code)
    requires DistinctCodes(w) && DistinctListings(w.listings)
    requires IsListing(w, j, shop, product) && IsListing(w, k, shop, product)
    ensures j == k
  {
    SameCodeSameIndex(w, w.listings[j], w.listings[k]);
  }

  lemma SameCodeSameIndex(w: World, a: Listing, b: Listing)
    requires DistinctCodes(w)
    requires a.s < |w.shops| && b.s < |w.shops| && w.shops[a.s].code == w.shops[b.s].code
    requires a.p < |w.products| && b.p < |w.products| && w.products[a.p].code == w.products[b.p].code
    ensures a.s == b.s && a.p == b.p
  {
  }

  ghost predicate ObservedAt(w: World, k: int, events: seq<Event>, second: int) {
    exists e :: e in events && FromListing(w, k, e) && e.time == second * SECOND
  }

  /** One observation for each of the listing's seconds. */
  method ObserveListing(w: World, k: nat, times: seq<int>) returns (events: seq<Event>)
    requires k < |w.listings| && ListingFresh(w, w.listings[k]) && Drawn(w.listings[k], times)
    ensures Generated(w, events) && NoConflict(events)
    ensures |events| == |SecondsOf(w.listings[k], times)|
    ensures forall t :: t in SecondsOf(w.listings[k], times) ==> ObservedAt(w, k, events, t)
    ensures forall e :: e in events ==> FromListing(w, k, e) && RoundSecond(e.time) in SecondsOf(w.listings[k], times)
  {
    hide SecondsOf, RoundSecond, Masked, NoConflict, Sourced, Timely, ObservedAt, IsListing, Drawn;
    events := [];
    var left := ObservedSeconds(w, k, times);
    ghost var all := left;
    NoneConflict();
    var shop, product := w.shops[w.listings[k].s].code, w.products[w.listings[k].p].code;
    while left != {}
      invariant left <= all && |events| == |all| - |left|
      invariant Generated(w, events) && NoConflict(events)
      invariant forall t :: t in all - left ==> ObservedAt(w, k, events, t)
      invariant forall e :: e in events ==> FromListing(w, k, e) && RoundSecond(e.time) in all
      invariant forall t, e :: t in left && e in events ==> e.time != t * SECOND
      decreases left
    {
      var t := AnyOf(left);
      var price :| price >= 50;
      var currency: Currency :| true;
      var delay :| delay >= 2 * SECOND;
      ghost var had := events;
      var e := PriceObserved(t * SECOND, t * SECOND + delay, shop, product, price, currency);
      NewObservation(w, k, e, t);
      NewConflictFree(events, e);
      events := events + [e];
      ObservedMore(w, k, had, e, t, all - left);
      left := left - {t};
    }
    assert all - left == all;
  }

  lemma NewConflictFree(events: seq<Event>, e: Event)
    requires NoConflict(events) && forall x :: x in events ==> x.time != e.time
    ensures NoConflict(events + [e])
  {
  }

  lemma NewObservation(w: World, k: nat, e: Event, t: int)
    requires k < |w.listings| && ListingFresh(w, w.listings[k]) && Observable(w.listings[k], t * SECOND)
    requires e.PriceObserved? && e.time == t * SECOND && e.arrival >= e.time + 2 * SECOND
    requires e.shop == w.shops[w.listings[k].s].code && e.product == w.products[w.listings[k].p].code
    ensures Sourced(w, e) && Timely(e) && FromListing(w, k, e) && RoundSecond(e.time) == t
  {
    assert IsListing(w, k, e.shop, e.product);
    RoundMonotone(t * SECOND, t * SECOND);
  }

  lemma ObservedMore(w: World, k: nat, events: seq<Event>, e: Event, t: int, done: set<int>)
    requires forall s :: s in done ==> ObservedAt(w, k, events, s)
    requires FromListing(w, k, e) && e.time == t * SECOND
    ensures forall s :: s in done + {t} ==> ObservedAt(w, k, events + [e], s)
  {
    forall s | s in done + {t} ensures ObservedAt(w, k, events + [e], s) {
      if s in done {
        assert ObservedAt(w, k, events, s);
        var x :| x in events && FromListing(w, k, x) && x.time == s * SECOND;
        assert x in events + [e];
      } else {
        assert e in events + [e];
      }
    }
  }

  lemma ConflictFreeUnion(w: World, k: nat, before: seq<Event>, more: seq<Event>)
    requires DistinctCodes(w) && DistinctListings(w.listings)
    requires NoConflict(before) && NoConflict(more)
    requires forall e :: e in before ==> exists j :: 0 <= j < k && FromListing(w, j, e)
    requires forall e :: e in more ==> FromListing(w, k, e)
    ensures NoConflict(before + more)
  {
    forall a, b | a in before && b in more && a.shop == b.shop && a.product == b.product
      ensures false
    {
      var j :| 0 <= j < k && FromListing(w, j, a);
      ListingUnique(w, j, k, a.shop, a.product);
    }
  }

  /** The same observation, arriving a minute to an hour later. */
  ghost predicate CopyOf(copy: Event, e: Event) {
    && e.PriceObserved? && copy.PriceObserved?
    && Bare(copy) == Bare(e) && e.arrival + 60 * SECOND <= copy.arrival < e.arrival + 3600 * SECOND
  }

  ghost predicate CopiedFrom(copy: Event, events: seq<Event>) {
    exists e :: e in events && CopyOf(copy, e)
  }

  /** About one in a hundred observations arrives a second time, a minute to an hour later. */
  method DuplicateSome(w: World, events: seq<Event>) returns (copies: seq<Event>)
    requires Generated(w, events)
    requires forall e :: e in events ==> e.PriceObserved?
    ensures Generated(w, copies) && |copies| <= |events|
    ensures forall e :: e in copies ==> CopiedFrom(e, events)
  {
    hide Sourced, Timely, CopiedFrom;
    copies := [];
    for i := 0 to |events|
      invariant Generated(w, copies) && |copies| <= i
      invariant forall e :: e in copies ==> CopiedFrom(e, events)
    {
      var again := Coin();
      if again {
        var e := events[i];
        assert e in events;
        var extra := Uniform(60 * SECOND, 3540 * SECOND);
        var copy := PriceObserved(e.time, e.arrival + extra, e.shop, e.product, e.price, e.currency);
        CopyGenerated(w, events, e, copy);
        copies := copies + [copy];
      }
    }
  }

  lemma CopyGenerated(w: World, events: seq<Event>, e: Event, copy: Event)
    requires e in events && Sourced(w, e) && Timely(e) && CopyOf(copy, e)
    ensures Sourced(w, copy) && Timely(copy) && CopiedFrom(copy, events)
  {
    SourcedIgnoresArrival(w, e, copy);
  }

  lemma CopiesConflictFree(events: seq<Event>, copies: seq<Event>)
    requires NoConflict(events) && forall e :: e in copies ==> CopiedFrom(e, events)
    ensures NoConflict(events + copies)
  {
    forall a, b | a in events + copies && b in events + copies && a.PriceObserved? && b.PriceObserved?
      && a.shop == b.shop && a.product == b.product && a.time == b.time
      ensures a.price == b.price && a.currency == b.currency
    {
      var x, y := Original(events, copies, a), Original(events, copies, b);
      assert x in events && y in events;
    }
  }

  /** The first arrival that an event is, or is a copy of. */
  ghost function Original(events: seq<Event>, copies: seq<Event>, e: Event): (x: Event)
    requires e in events + copies && forall c :: c in copies ==> CopiedFrom(c, events)
    ensures x in events && Bare(x) == Bare(e)
  {
    if e in events then e else
      assert e in copies && CopiedFrom(e, events);
      var x :| x in events && CopyOf(e, x);
      x
  }

  lemma SourcedIgnoresArrival(w: World, e: Event, copy: Event)
    requires Sourced(w, e) && Timely(e) && e.PriceObserved? && copy.PriceObserved?
    requires copy.time == e.time && copy.shop == e.shop && copy.product == e.product && copy.arrival >= e.arrival
    ensures Sourced(w, copy) && Timely(copy)
  {
    var k :| IsListing(w, k, e.shop, e.product) && Observable(w.listings[k], e.time);
  }

  /** `e` is an observation of one of the first `n` listings at one of its seconds. */
  ghost predicate Stems(w: World, times: seq<seq<int>>, n: nat, e: Event)
    requires n <= |w.listings| == |times|
  {
    exists j :: 0 <= j < n && FromListing(w, j, e) && RoundSecond(e.time) in SecondsOf(w.listings[j], times[j])
  }

  /** The observations are those of the drawn seconds, for every listing and second. */
  ghost predicate ObservedExactly(w: World, times: seq<seq<int>>, obs: seq<Event>)
    requires |w.listings| == |times|
  {
    forall k, t :: 0 <= k < |w.listings| ==> (ObservedAt(w, k, obs, t) <==> t in SecondsOf(w.listings[k], times[k]))
  }

  /** A listing is observed at a second exactly if one of its drawn times, on sale, rounds to it;
      one discovered too late has no observable span. */
  ghost predicate ObservedOnSale(w: World, times: seq<seq<int>>, obs: seq<Event>)
    requires |w.listings| == |times|
  {
    forall k, second :: 0 <= k < |w.listings| ==>
      (ObservedAt(w, k, obs, second)
       <==> w.listings[k].discovered + 25200 * SECOND < T1 && SecondOnSale(w.listings[k], times[k], second))
  }

  ghost predicate SecondOnSale(li: Listing, times: seq<int>, second: int) {
    exists t :: t in times && OnSale(li, t) && RoundSecond(t) == second
  }

  lemma SecondsOnSale(li: Listing, times: seq<int>, second: int)
    requires Drawn(li, times)
    ensures second in SecondsOf(li, times) <==> li.discovered + 25200 * SECOND < T1 && SecondOnSale(li, times, second)
  {
    hide RoundSecond;
    if li.discovered + 25200 * SECOND < T1 {
      forall t | t in times ensures Masked(li, t) <==> !OnSale(li, t) {
        MaskedIffOffSale(li, t);
      }
      hide Masked, OnSale;
    }
  }

  lemma ObservedExactlyOnSale(w: World, times: seq<seq<int>>, obs: seq<Event>)
    requires |w.listings| == |times| && ObservedExactly(w, times, obs)
    requires forall k :: 0 <= k < |times| ==> Drawn(w.listings[k], times[k])
    ensures ObservedOnSale(w, times, obs)
  {
    hide SecondsOf, SecondOnSale, ObservedAt, Drawn;
    forall k, second | 0 <= k < |w.listings|
      ensures ObservedAt(w, k, obs, second)
         <==> w.listings[k].discovered + 25200 * SECOND < T1 && SecondOnSale(w.listings[k], times[k], second)
    {
      SecondsOnSale(w.listings[k], times[k], second);
    }
  }

  ghost predicate ObservedBelow(w: World, times: seq<seq<int>>, n: nat, obs: seq<Event>)
    requires n <= |w.listings| == |times|
  {
    forall k, t :: 0 <= k < n && t in SecondsOf(w.listings[k], times[k]) ==> ObservedAt(w, k, obs, t)
  }

  lemma ObservedWithMore(w: World, k: int, events: seq<Event>, more: seq<Event>, t: int)
    requires ObservedAt(w, k, events, t) && forall e :: e in events ==> e in more
    ensures ObservedAt(w, k, more, t)
  {
    var e :| e in events && FromListing(w, k, e) && e.time == t * SECOND;
    assert e in more;
  }

  lemma ObservedBelowNext(w: World, times: seq<seq<int>>, n: nat, events: seq<Event>, more: seq<Event>)
    requires n < |w.listings| == |times| && ObservedBelow(w, times, n, events)
    requires forall t :: t in SecondsOf(w.listings[n], times[n]) ==> ObservedAt(w, n, more, t)
    ensures ObservedBelow(w, times, n + 1, events + more)
  {
    hide ObservedAt, SecondsOf;
    forall k, t | 0 <= k < n + 1 && t in SecondsOf(w.listings[k], times[k]) ensures ObservedAt(w, k, events + more, t) {
      if k < n {
        ObservedWithMore(w, k, events, events + more, t);
      } else {
        ObservedWithMore(w, k, more, events + more, t);
      }
    }
  }

  lemma StemsNext(w: World, times: seq<seq<int>>, n: nat, events: seq<Event>, more: seq<Event>)
    requires n < |w.listings| == |times|
    requires forall e :: e in events ==> Stems(w, times, n, e)
    requires forall e :: e in more ==> FromListing(w, n, e) && RoundSecond(e.time) in SecondsOf(w.listings[n], times[n])
    ensures forall e :: e in events + more ==> Stems(w, times, n + 1, e)
  {
    hide SecondsOf, RoundSecond, FromListing;
    forall e | e in events ensures Stems(w, times, n + 1, e) {
      assert Stems(w, times, n, e);
    }
  }

  lemma ObservedStems(w: World, times: seq<seq<int>>, e: Event, k: int, t: int)
    requires WorldOk(w) && |w.listings| == |times| && Stems(w, times, |w.listings|, e)
    requires 0 <= k < |w.listings| && FromListing(w, k, e) && e.time == t * SECOND
    ensures t in SecondsOf(w.listings[k], times[k])
  {
    hide SecondsOf, RoundSecond;
    var j :| 0 <= j < |w.listings| && FromListing(w, j, e) && RoundSecond(e.time) in SecondsOf(w.listings[j], times[j]);
    ListingUnique(w, j, k, e.shop, e.product);
    hide IsListing, WorldOk;
    RoundMonotone(e.time, e.time);
    assert RoundSecond(e.time) == t;
  }

  lemma StemsExactly(w: World, times: seq<seq<int>>, obs: seq<Event>)
    requires WorldOk(w) && |w.listings| == |times|
    requires ObservedBelow(w, times, |w.listings|, obs)
    requires forall e :: e in obs ==> Stems(w, times, |w.listings|, e)
    ensures ObservedExactly(w, times, obs)
  {
    hide SecondsOf, Stems, WorldOk, FromListing;
    forall k, t | 0 <= k < |w.listings| && ObservedAt(w, k, obs, t) ensures t in SecondsOf(w.listings[k], times[k]) {
      var e :| e in obs && FromListing(w, k, e) && e.time == t * SECOND;
      ObservedStems(w, times, e, k, t);
    }
    hide ObservedAt;
  }

  lemma CopyStems(w: World, times: seq<seq<int>>, e: Event, copy: Event)
    requires |w.listings| == |times| && Stems(w, times, |w.listings|, e) && Bare(copy) == Bare(e)
    ensures Stems(w, times, |w.listings|, copy)
  {
    hide SecondsOf, RoundSecond;
    var j :| 0 <= j < |w.listings| && FromListing(w, j, e) && RoundSecond(e.time) in SecondsOf(w.listings[j], times[j]);
    assert FromListing(w, j, copy);
  }

  datatype NoChunks = NoChunks

  /** No listing has a second at which it is observed. */
  ghost predicate NothingToObserve(w: World, times: seq<seq<int>>)
    requires |w.listings| == |times|
  {
    forall k, t :: 0 <= k < |w.listings| ==> t !in SecondsOf(w.listings[k], times[k])
  }

  lemma EmptyIff(w: World, times: seq<seq<int>>, events: seq<Event>)
    requires |w.listings| == |times|
    requires ObservedBelow(w, times, |w.listings|, events)
    requires forall e :: e in events ==> Stems(w, times, |w.listings|, e)
    ensures events == [] <==> NothingToObserve(w, times)
  {
    hide SecondsOf;
    if events != [] {
      assert Stems(w, times, |w.listings|, events[0]);
    } else {
      forall k, t | 0 <= k < |w.listings| ensures t !in SecondsOf(w.listings[k], times[k]) {
        assert !ObservedAt(w, k, events, t);
      }
    }
  }

  /** Observations of every listing at exactly its drawn seconds, some arriving twice, by
      arrival; with none at all, there is nothing to concatenate. */
  method BuildObservations(w: World, times: seq<seq<int>>) returns (r: Result<seq<Event>, NoChunks>)
    requires WorldOk(w) && |times| == |w.listings|
    requires forall k :: 0 <= k < |times| ==> Drawn(w.listings[k], times[k])
    ensures r.Err? <==> NothingToObserve(w, times)
    ensures r.Ok? ==>
              && r.value != []
              && Generated(w, r.value) && NoConflict(r.value) && Sorted(r.value, ByArrival)
              && ObservedExactly(w, times, r.value) && ObservedOnSale(w, times, r.value)
              && forall e :: e in r.value ==> e.PriceObserved?
  {
    hide Sourced, Timely, NoConflict, SecondsOf, RoundSecond, Masked, Drawn, Stems, ObservedBelow, ObservedAt, ObservedExactly;
    hide NothingToObserve, ObservedOnSale;
    var events: seq<Event> := [];
    NoneConflict();
    NoneObserved(w, times);
    for k := 0 to |w.listings|
      invariant Generated(w, events) && NoConflict(events)
      invariant forall e :: e in events ==> Stems(w, times, k, e)
      invariant ObservedBelow(w, times, k, events)
    {
      assert w.listings[k] in w.listings;
      var more := ObserveListing(w, k, times[k]);
      StemsAreOf(w, times, k, events);
      ConflictFreeUnion(w, k, events, more);
      StemsNext(w, times, k, events, more);
      ObservedBelowNext(w, times, k, events, more);
      events := events + more;
    }
    EmptyIff(w, times, events);
    if events == [] {
      return Err(NoChunks);
    }
    StemsAreOf(w, times, |w.listings|, events);
    var copies := DuplicateSome(w, events);
    CopiesConflictFree(events, copies);
    var all := events + copies;
    var obs := SortBy(all, ByArrival);
    SortSorts(all, ByArrival);
    SortKeepsConflictFree(all);
    forall e | e in obs ensures e in all {
      SortMember(all, ByArrival, e);
    }
    SortMember(all, ByArrival, all[0]);
    DuplicatesStem(w, times, events, copies, obs);
    ObservedExactlyOnSale(w, times, obs);
    return Ok(obs);
  }

  lemma NoneObserved(w: World, times: seq<seq<int>>)
    requires |w.listings| == |times|
    ensures ObservedBelow(w, times, 0, [])
  {
  }

  lemma StemsAreOf(w: World, times: seq<seq<int>>, n: nat, events: seq<Event>)
    requires n <= |w.listings| == |times| && forall e :: e in events ==> Stems(w, times, n, e)
    ensures forall e :: e in events ==> e.PriceObserved? && exists j :: 0 <= j < n && FromListing(w, j, e)
  {
    forall e | e in events ensures e.PriceObserved? && exists j :: 0 <= j < n && FromListing(w, j, e) {
      assert Stems(w, times, n, e);
    }
  }

  lemma DuplicatesStem(w: World, times: seq<seq<int>>, events: seq<Event>, copies: seq<Event>, obs: seq<Event>)
    requires WorldOk(w) && |w.listings| == |times| && obs == SortBy(events + copies, ByArrival)
    requires forall e :: e in events ==> Stems(w, times, |w.listings|, e)
    requires ObservedBelow(w, times, |w.listings|, events)
    requires forall e :: e in copies ==> CopiedFrom(e, events)
    ensures ObservedExactly(w, times, obs)
  {
    hide Stems, ObservedAt, SecondsOf, SortBy, ObservedExactly, WorldOk, Bare;
    forall e | e in obs ensures Stems(w, times, |w.listings|, e) {
      SortMember(events + copies, ByArrival, e);
      CopyStems(w, times, Original(events, copies, e), e);
    }
    forall e | e in events ensures e in obs {
      assert e in events + copies;
      SortMember(events + copies, ByArrival, e);
    }
    forall k, t | 0 <= k < |w.listings| && t in SecondsOf(w.listings[k], times[k]) ensures ObservedAt(w, k, obs, t) {
      ObservedWithMore(w, k, events, obs, t);
    }
    StemsExactly(w, times, obs);
  }

  lemma NoneConflict()
    ensures NoConflict([])
  {
  }

  lemma SortKeepsConflictFree(events: seq<Event>)
    requires NoConflict(events)
    ensures NoConflict(SortBy(events, ByArrival))
  {
    forall e | e in SortBy(events, ByArrival) ensures e in events {
      SortMember(events, ByArrival, e);
    }
  }

  // ----- Writing the file

  /** A record as written: both times rounded to whole seconds. */
  function Stamped(e: Event): Event {
    e.(time := RoundSecond(e.time), arrival := RoundSecond(e.arrival))
  }

  /** A record is written with each time at the nearest whole second, and otherwise as it is. */
  lemma StampedIsNearest(e: Event, r: Event)
    ensures r == Stamped(e)
       <==> r.(time := e.time, arrival := e.arrival) == e && Nearest(e.time, r.time) && Nearest(e.arrival, r.arrival)
  {
    NearestIsRounded(e.time, r.time);
    NearestIsRounded(e.arrival, r.arrival);
    hide RoundSecond, Nearest;
    if r.(time := e.time, arrival := e.arrival) == e {
      assert e.(time := r.time, arrival := r.arrival) == r;
    }
  }

  /** `s` is the second nearest to `t`, of two equally near the even one. */
  predicate Nearest(t: int, s: int) {
    && -500_000 <= t - 1_000_000 * s <= 500_000
    && (t - 1_000_000 * s == 500_000 || t - 1_000_000 * s == -500_000 ==> s % 2 == 0)
  }

  lemma NearestIsRounded(t: int, s: int)
    ensures Nearest(t, s) <==> s == RoundSecond(t)
  {
    RoundSecondIsNearest(t, s);
  }

  /** Arrival order of both sides together; the admin side comes first on ties. */
  ghost function Merged(admin: seq<Event>, obs: seq<Event>): seq<Event> {
    SortBy(SortBy(admin, ByArrival) + obs, ByArrival)
  }

  /** The two-cursor merge is the stable sort of the two sides put end to end. */
  method WriteEvents(admin: seq<Event>, obs: seq<Event>) returns (file: seq<Event>)
    requires Sorted(obs, ByArrival)
    ensures file == Map(Merged(admin, obs), Stamped)
  {
    hide SortBy, MergedSoFar, Map, Sorted, Stamped;
    var a := SortBy(admin, ByArrival);
    SortSorts(admin, ByArrival);
    var ai, oi := 0, 0;
    file := [];
    MapEmpty(Stamped);
    ghost var out: seq<Event> := [];
    NothingTaken(a, obs);
    while ai < |a| || oi < |obs|
      invariant 0 <= ai <= |a| && 0 <= oi <= |obs|
      invariant MergedSoFar(a, obs, ai, oi, out)
      invariant file == Map(out, Stamped)
      decreases |a| - ai + |obs| - oi
    {
      var takeAdmin := oi >= |obs| || (ai < |a| && a[ai].arrival <= obs[oi].arrival);
      MapAppend(out, if takeAdmin then a[ai] else obs[oi], Stamped);
      if takeAdmin {
        TakeAdmin(a, obs, ai, oi, out);
        out := out + [a[ai]];
        file := file + [Stamped(a[ai])];
        ai := ai + 1;
      } else {
        TakeObservation(a, obs, ai, oi, out);
        out := out + [obs[oi]];
        file := file + [Stamped(obs[oi])];
        oi := oi + 1;
      }
    }
    MergeDone(a, obs, out);
  }

  lemma MergeDone(a: seq<Event>, obs: seq<Event>, out: seq<Event>)
    requires MergedSoFar(a, obs, |a|, |obs|, out)
    ensures out == SortBy(a + obs, ByArrival)
  {
    hide Filter, SortBy;
    assert a[..|a|] == a && obs[..|obs|] == obs;
    StableSortUnique(out, a + obs, ByArrival);
  }

  ghost predicate MergedSoFar(a: seq<Event>, obs: seq<Event>, ai: nat, oi: nat, out: seq<Event>) {
    && ai <= |a| && oi <= |obs|
    && Sorted(a, ByArrival) && Sorted(obs, ByArrival) && Sorted(out, ByArrival)
    && (forall e :: e in out ==> e in a[..ai] || e in obs[..oi])
    && (ai < |a| ==> forall e :: e in a[..ai] ==> e.arrival <= a[ai].arrival)
    && (ai < |a| ==> forall e :: e in obs[..oi] ==> e.arrival < a[ai].arrival)
    && (oi < |obs| ==> forall e :: e in a[..ai] || e in obs[..oi] ==> e.arrival <= obs[oi].arrival)
    && (forall k :: Filter(out, WithKey(ByArrival, k)) == Filter(a[..ai] + obs[..oi], WithKey(ByArrival, k)))
  }

  lemma NothingTaken(a: seq<Event>, obs: seq<Event>)
    requires Sorted(a, ByArrival) && Sorted(obs, ByArrival)
    ensures MergedSoFar(a, obs, 0, 0, [])
  {
    assert a[..0] + obs[..0] == [];
  }

  lemma TakeAdmin(a: seq<Event>, obs: seq<Event>, ai: nat, oi: nat, out: seq<Event>)
    requires MergedSoFar(a, obs, ai, oi, out) && ai < |a|
    requires oi < |obs| ==> a[ai].arrival <= obs[oi].arrival
    ensures MergedSoFar(a, obs, ai + 1, oi, out + [a[ai]])
  {
    hide Filter;
    var x := a[ai];
    assert a[..ai + 1] == a[..ai] + [x];
    forall k ensures Filter(out + [x], WithKey(ByArrival, k)) == Filter(a[..ai + 1] + obs[..oi], WithKey(ByArrival, k)) {
      var p := WithKey(ByArrival, k);
      assert Filter(out, p) == Filter(a[..ai] + obs[..oi], p);
      FilterAppend(out, [x], p);
      FilterAppend(a[..ai], obs[..oi], p);
      FilterAppend(a[..ai + 1], obs[..oi], p);
      FilterAppend(a[..ai], [x], p);
      if p(x) {
        forall e | e in obs[..oi] ensures !p(e) {
          assert e.arrival < x.arrival && ByArrival(e).first < ByArrival(x).first;
        }
        FilterNone(obs[..oi], p);
      }
      FilterOne(x, p);
    }
    TakeSorted(out, x);
    forall e | e in a[..ai + 1] ensures ai + 1 < |a| ==> e.arrival <= a[ai + 1].arrival {
      var i :| 0 <= i < ai + 1 && a[i] == e;
      assert ai + 1 < |a| ==> ByArrival(a[i]).AtMost(ByArrival(a[ai + 1]));
    }
    assert ai + 1 < |a| ==> ByArrival(a[ai]).AtMost(ByArrival(a[ai + 1]));
  }

  lemma TakeObservation(a: seq<Event>, obs: seq<Event>, ai: nat, oi: nat, out: seq<Event>)
    requires MergedSoFar(a, obs, ai, oi, out) && oi < |obs|
    requires ai < |a| ==> obs[oi].arrival < a[ai].arrival
    ensures MergedSoFar(a, obs, ai, oi + 1, out + [obs[oi]])
  {
    hide Filter;
    var x := obs[oi];
    assert obs[..oi + 1] == obs[..oi] + [x];
    forall k ensures Filter(out + [x], WithKey(ByArrival, k)) == Filter(a[..ai] + obs[..oi + 1], WithKey(ByArrival, k)) {
      var p := WithKey(ByArrival, k);
      assert Filter(out, p) == Filter(a[..ai] + obs[..oi], p);
      FilterAppend(out, [x], p);
      assert a[..ai] + obs[..oi + 1] == (a[..ai] + obs[..oi]) + [x];
      FilterAppend(a[..ai] + obs[..oi], [x], p);
    }
    TakeSorted(out, x);
    forall e | e in a[..ai] || e in obs[..oi + 1] ensures oi + 1 < |obs| ==> e.arrival <= obs[oi + 1].arrival {
      assert oi + 1 < |obs| ==> ByArrival(obs[oi]).AtMost(ByArrival(obs[oi + 1]));
    }
  }

  lemma TakeSorted(out: seq<Event>, x: Event)
    requires Sorted(out, ByArrival)
    requires forall e :: e in out ==> e.arrival <= x.arrival
    ensures Sorted(out + [x], ByArrival)
  {
  }

  /** Both sides survive the merge whole and in order: the file interleaves them. */
  lemma MergeInterleaves(admin: seq<Event>, obs: seq<Event>, isObs: Event -> bool, isAdmin: Event -> bool)
    requires Sorted(obs, ByArrival)
    requires forall e :: e in obs ==> isObs(e) && !isAdmin(e)
    requires forall e :: e in admin ==> isAdmin(e) && !isObs(e)
    ensures Sorted(Merged(admin, obs), ByArrival)
    ensures Filter(Merged(admin, obs), isObs) == obs
    ensures Filter(Merged(admin, obs), isAdmin) == SortBy(admin, ByArrival)
  {
    hide SortBy, Filter;
    var a := SortBy(admin, ByArrival);
    SortSorts(admin, ByArrival);
    SortSorts(a + obs, ByArrival);
    forall e | e in a ensures isAdmin(e) && !isObs(e) {
      SortMember(admin, ByArrival, e);
    }
    KeepSide(a, obs, isObs);
    FilterNone(a, isObs);
    FilterAll(obs, isObs);
    assert [] + obs == obs;
    KeepSide(a, obs, isAdmin);
    FilterAll(a, isAdmin);
    FilterNone(obs, isAdmin);
    assert a + [] == a;
    SortOfSorted(obs, ByArrival);
    SortOfSorted(a, ByArrival);
  }

  lemma KeepSide(a: seq<Event>, obs: seq<Event>, p: Event -> bool)
    ensures Filter(SortBy(a + obs, ByArrival), p) == SortBy(Filter(a, p) + Filter(obs, p), ByArrival)
  {
    SortFilter(a + obs, ByArrival, p);
    FilterAppend(a, obs, p);
  }

  /** Among events that arrive together the admin side is written first. */
  lemma MergeTies(admin: seq<Event>, obs: seq<Event>, k: Key)
    ensures Filter(Merged(admin, obs), WithKey(ByArrival, k))
         == Filter(admin, WithKey(ByArrival, k)) + Filter(obs, WithKey(ByArrival, k))
  {
    var a := SortBy(admin, ByArrival);
    SortStable(a + obs, ByArrival, k);
    FilterAppend(a, obs, WithKey(ByArrival, k));
    SortStable(admin, ByArrival, k);
  }

  lemma MergedMember(admin: seq<Event>, obs: seq<Event>, e: Event)
    ensures e in Merged(admin, obs) <==> e in admin || e in obs
  {
    SortMember(SortBy(admin, ByArrival) + obs, ByArrival, e);
    SortMember(admin, ByArrival, e);
  }

  // ----- Arrival order

  predicate SameListing(a: Event, b: Event) {
    && (a.ProductDiscovered? || a.ProductDelisted? || a.ProductRelisted? || a.PriceObserved?)
    && (b.ProductDiscovered? || b.ProductDelisted? || b.ProductRelisted? || b.PriceObserved?)
    && a.shop == b.shop && a.product == b.product
  }

  /** The orders the generator keeps: registration before anything of the shop's
      listings, and before its changes unless it is at risk; discovery before
      observations and delist; delist before relist. */
  predicate MustPrecede(a: Event, b: Event) {
    || (a.ShopRegistered?
        && (b.ProductDiscovered? || b.ProductDelisted? || b.ProductRelisted? || b.PriceObserved?) && a.shop == b.shop)
    || (a.ShopRegistered? && (b.ShopRenamed? || b.ShopTierChanged?) && a.shop == b.shop && !AtRisk(a.time))
    || (a.ProductDiscovered? && (b.PriceObserved? || b.ProductDelisted? || b.ProductRelisted?) && SameListing(a, b))
    || (a.ProductDelisted? && b.ProductRelisted? && SameListing(a, b))
  }

  /** The time an event of listing `k` may have. */
  lemma ListingEventTime(w: World, e: Event, k: int)
    requires WorldOk(w) && Sourced(w, e)
    requires e.ProductDiscovered? || e.ProductDelisted? || e.ProductRelisted? || e.PriceObserved?
    requires IsListing(w, k, e.shop, e.product)
    ensures e.ProductDiscovered? ==> e.time == w.listings[k].discovered
    ensures e.ProductDelisted? ==> w.listings[k].delist == Some(e.time)
    ensures e.ProductRelisted? ==> w.listings[k].relist == Some(e.time)
    ensures e.PriceObserved? ==> Observable(w.listings[k], e.time)
    ensures w.listings[k].discovered <= e.time
  {
    var j :| IsListing(w, j, e.shop, e.product)
      && (e.ProductDiscovered? ==> e.time == w.listings[j].discovered)
      && (e.ProductDelisted? ==> w.listings[j].delist == Some(e.time))
      && (e.ProductRelisted? ==> w.listings[j].relist == Some(e.time))
      && (e.PriceObserved? ==> Observable(w.listings[j], e.time));
    ListingUnique(w, j, k, e.shop, e.product);
    assert w.listings[j] in w.listings;
  }

  lemma ListingOf(w: World, e: Event) returns (k: int)
    requires WorldOk(w) && Sourced(w, e)
    requires e.ProductDiscovered? || e.ProductDelisted? || e.ProductRelisted? || e.PriceObserved?
    ensures IsListing(w, k, e.shop, e.product) && w.listings[k] in w.listings
  {
    k :| IsListing(w, k, e.shop, e.product);
    assert w.listings[k] in w.listings;
  }

  lemma SameShop(w: World, shop: Code, i: int, j: int)
    requires DistinctCodes(w) && KnownShop(w, shop, i) && KnownShop(w, shop, j)
    ensures i == j
  {
  }

  /** A change of a shop arrives after its registration unless that is at risk. */
  lemma RegistrationBeforeChange(w: World, a: Event, b: Event)
    requires DistinctCodes(w) && Sourced(w, a) && Timely(a) && Sourced(w, b) && Timely(b)
    requires a.ShopRegistered? && (b.ShopRenamed? || b.ShopTierChanged?) && a.shop == b.shop && !AtRisk(a.time)
    ensures a.arrival < b.arrival
  {
    var r :| KnownShop(w, a.shop, r) && w.shops[r].registered == a.time;
    hide AtRisk, DistinctCodes;
    assert MayArrive(a.time, a.arrival) && MayArrive(b.time, b.arrival);
    if b.ShopRenamed? {
      var s, n: nat :| KnownShop(w, b.shop, s) && MayRename(n, w.shops[s].registered, b.time);
      SameShop(w, a.shop, r, s);
      hide MayRename, MayArrive;
      RenameFollowsIff(n, a.time);
    } else {
      var s, n: nat :| KnownShop(w, b.shop, s) && MayTier(n, w.shops[s].registered, b.time);
      SameShop(w, a.shop, r, s);
      hide MayTier, MayArrive;
      TierFollowsIff(n, a.time);
    }
  }

  /** Every such order holds strictly in arrival time, whatever was drawn. */
  lemma PromisedArrivalOrder(w: World, a: Event, b: Event)
    requires WorldOk(w) && Sourced(w, a) && Timely(a) && Sourced(w, b) && Timely(b)
    requires MustPrecede(a, b)
    ensures a.arrival < b.arrival
  {
    if b.ShopRenamed? || b.ShopTierChanged? {
      RegistrationBeforeChange(w, a, b);
    } else {
      ListingArrivalOrder(w, a, b);
    }
  }

  lemma ListingArrivalOrder(w: World, a: Event, b: Event)
    requires WorldOk(w) && Sourced(w, a) && Timely(a) && Sourced(w, b) && Timely(b)
    requires MustPrecede(a, b) && !b.ShopRenamed? && !b.ShopTierChanged?
    ensures a.arrival < b.arrival
  {
    var k := ListingOf(w, b);
    ListingEventTime(w, b, k);
    assert ListingFresh(w, w.listings[k]) && LifecycleOrdered(w.listings[k]);
    if a.ShopRegistered? {
      var i :| KnownShop(w, a.shop, i) && w.shops[i].registered == a.time;
      assert i == w.listings[k].s;
    } else {
      ListingEventTime(w, a, k);
    }
  }

  /** In the written order an event never stands at or after one it must precede. */
  lemma PromisedFileOrder(w: World, admin: seq<Event>, obs: seq<Event>, i: nat, j: nat)
    requires WorldOk(w) && Generated(w, admin) && Generated(w, obs)
    requires i < |Merged(admin, obs)| && j < |Merged(admin, obs)|
    requires MustPrecede(Merged(admin, obs)[i], Merged(admin, obs)[j])
    ensures i < j
  {
    var m := Merged(admin, obs);
    SortSorts(SortBy(admin, ByArrival) + obs, ByArrival);
    assert m[i] in m && m[j] in m;
    MergedMember(admin, obs, m[i]);
    MergedMember(admin, obs, m[j]);
    if j < i {
      assert ByArrival(m[j]).AtMost(ByArrival(m[i]));
    }
    PromisedArrivalOrder(w, m[i], m[j]);
  }

  /** Changes of one kind to one entity arrive in event_time order. */
  lemma ChangesArriveInOrder(w: World, admin: seq<Event>, a: Event, b: Event)
    requires Generated(w, admin) && Spaced(admin) && a in admin && b in admin
    requires SameChange(a, b) && a.time < b.time
    ensures a.arrival < b.arrival
  {
    var i :| 0 <= i < |admin| && admin[i] == a;
    var j :| 0 <= j < |admin| && admin[j] == b;
    assert j < i ==> SameChange(admin[j], admin[i]);
    assert Timely(a) && Timely(b);
  }

  /** A rename and a tier change of one shop stem from two positions; if the shop
      registered late enough for these, they arrive in event_time order. */
  lemma ShopChangesInOrder(w: World, a: Event, b: Event) returns (s: int, i: nat, j: nat)
    requires DistinctCodes(w) && Sourced(w, a) && Timely(a) && Sourced(w, b) && Timely(b)
    requires a.ShopRenamed? && b.ShopTierChanged? && a.shop == b.shop
    ensures KnownShop(w, a.shop, s)
    ensures MayRename(i, w.shops[s].registered, a.time) && MayTier(j, w.shops[s].registered, b.time)
    ensures Registrable(w.shops[s].registered) && w.shops[s].registered >= OrderLimit(i, j) ==>
              (a.time < b.time ==> a.arrival < b.arrival) && (b.time < a.time ==> b.arrival < a.arrival)
  {
    var r;
    s, i :| KnownShop(w, a.shop, s) && MayRename(i, w.shops[s].registered, a.time);
    r, j :| KnownShop(w, b.shop, r) && MayTier(j, w.shops[r].registered, b.time);
    SameShop(w, a.shop, r, s);
    hide DistinctCodes, KnownShop;
    assert MayArrive(a.time, a.arrival) && MayArrive(b.time, b.arrival);
    hide MayRename, MayTier, MayArrive, OrderLimit, Registrable;
    if Registrable(w.shops[s].registered) {
      ChangesKeepOrderIff(i, j, w.shops[s].registered);
    }
  }
}
