/** When a shop's rename and tier changes happen, and when they can arrive out of
    the order of their event times. */
module ShopChanges {
  import opened Basics
  import opened Sequences
  import opened Catalog

  /** The clamp of the first renames and tier changes. */
  const DAY250 := T0 + 250 * DAY

  /** The rename time of the `i`-th renamed shop, for the drawn offset `u`;
      the first two are clamped to day 250. */
  function RenameTime(i: nat, registered: int, u: int): Option<int> {
    var lo := registered + 60 * DAY;
    var t := if i < 2 then Min(Max(lo, T0 + 70 * DAY) + u, DAY250) else lo + u;
    if t >= T1 - 5 * DAY || t <= registered then None else Some(t)
  }

  function RenameSpan(i: nat, registered: int): int {
    if i < 2 then 120 * DAY else Max(DAY, T1 - 30 * DAY - (registered + 60 * DAY))
  }

  /** The time of the `i`-th tiered shop's first change; the first three are clamped. */
  function TierTime(i: nat, registered: int, u: int): Option<int> {
    var lo := registered + 45 * DAY;
    var t := if i < 3 then Min(Max(lo, T0 + 60 * DAY) + u, DAY250) else lo + u;
    if t >= T1 - 5 * DAY || t <= registered then None else Some(t)
  }

  function TierSpan(i: nat, registered: int): int {
    if i < 3 then 130 * DAY else Max(DAY, T1 - 30 * DAY - (registered + 45 * DAY))
  }

  /** A shop registered then can be renamed at `t` as the `i`-th renamed one. */
  ghost predicate MayRename(i: nat, registered: int, t: int) {
    exists u :: 0 <= u < RenameSpan(i, registered) && RenameTime(i, registered, u) == Some(t)
  }

  ghost predicate MayTierFirst(i: nat, registered: int, t: int) {
    exists u :: 0 <= u < TierSpan(i, registered) && TierTime(i, registered, u) == Some(t)
  }

  /** A second tier change `t'` can follow a first one at `t`. */
  predicate MayTierAgain(t: int, t': int) {
    t + 60 * DAY <= t' < t + 260 * DAY && t' < T1 - 5 * DAY
  }

  /** A shop registered then can change its tier at `t` as the `i`-th tiered one. */
  ghost predicate MayTier(i: nat, registered: int, t: int) {
    MayTierFirst(i, registered, t) || exists t1 :: MayTierFirst(i, registered, t1) && MayTierAgain(t1, t)
  }

  /** `arrival` is a possible arrival of an admin event that happens at `t`. */
  ghost predicate MayArrive(t: int, arrival: int) {
    t + SECOND <= arrival < t + 301 * SECOND
  }

  /** Of two admin events the later one is certain to arrive later exactly if it
      happens at least 300 seconds after the other. */
  lemma ArrivesLaterIff(t: int, t': int)
    ensures t' - t >= 300 * SECOND <==> forall a, b :: MayArrive(t, a) && MayArrive(t', b) ==> a < b
  {
    if t' - t < 300 * SECOND {
      assert MayArrive(t, t + 301 * SECOND - 1) && MayArrive(t', t' + SECOND);
    }
  }

  // ----- The possible times, as intervals

  /** The earliest and the latest rename that can be drawn, if any can. */
  function Renames(i: nat, registered: int): Option<(int, int)> {
    var lo := registered + 60 * DAY;
    if i < 2 then
      var from := Max(lo, T0 + 70 * DAY);
      if registered >= DAY250 then None else Some((Min(from, DAY250), Min(from + 120 * DAY - 1, DAY250)))
    else if lo >= T1 - 5 * DAY then None
    else Some((lo, Min(lo + RenameSpan(i, registered) - 1, T1 - 5 * DAY - 1)))
  }

  function FirstTiers(i: nat, registered: int): Option<(int, int)> {
    var lo := registered + 45 * DAY;
    if i < 3 then
      var from := Max(lo, T0 + 60 * DAY);
      if registered >= DAY250 then None else Some((Min(from, DAY250), Min(from + 130 * DAY - 1, DAY250)))
    else if lo >= T1 - 5 * DAY then None
    else Some((lo, Min(lo + TierSpan(i, registered) - 1, T1 - 5 * DAY - 1)))
  }

  predicate Within(t: int, bounds: Option<(int, int)>) {
    bounds.Some? && bounds.value.0 <= t <= bounds.value.1
  }

  /** The renames that can be drawn are exactly the times of the interval. */
  lemma RenamesAre(i: nat, registered: int, t: int)
    ensures MayRename(i, registered, t) <==> Within(t, Renames(i, registered))
  {
    if Within(t, Renames(i, registered)) {
      var from := if i < 2 then Max(registered + 60 * DAY, T0 + 70 * DAY) else registered + 60 * DAY;
      var u := Max(t - from, 0);
      assert RenameTime(i, registered, u) == Some(t);
    }
  }

  lemma FirstTiersAre(i: nat, registered: int, t: int)
    ensures MayTierFirst(i, registered, t) <==> Within(t, FirstTiers(i, registered))
  {
    if Within(t, FirstTiers(i, registered)) {
      var from := if i < 3 then Max(registered + 45 * DAY, T0 + 60 * DAY) else registered + 45 * DAY;
      var u := Max(t - from, 0);
      assert TierTime(i, registered, u) == Some(t);
    }
  }

  // ----- Registration before the changes

  /** Registered less than 300 seconds before the clamp. */
  predicate AtRisk(registered: int) {
    DAY250 - 300 * SECOND < registered < DAY250
  }

  /** Every rename that can be drawn arrives after the registration, exactly unless
      the shop is one of the first two renamed and registered within 300 seconds before day 250. */
  lemma RenameFollowsIff(i: nat, registered: int)
    ensures !(i < 2 && AtRisk(registered))
       <==> forall t, a, b :: MayRename(i, registered, t) && MayArrive(registered, a) && MayArrive(t, b) ==> a < b
  {
    forall t, a, b | MayRename(i, registered, t) && MayArrive(registered, a) && MayArrive(t, b) && !(i < 2 && AtRisk(registered))
      ensures a < b
    {
      RenamesAre(i, registered, t);
    }
    if i < 2 && AtRisk(registered) {
      RenamesAre(i, registered, DAY250);
      ArrivesLaterIff(registered, DAY250);
    }
  }

  /** The same for tier changes, first and second, and the first three tiered shops. */
  lemma TierFollowsIff(i: nat, registered: int)
    ensures !(i < 3 && AtRisk(registered))
       <==> forall t, a, b :: MayTier(i, registered, t) && MayArrive(registered, a) && MayArrive(t, b) ==> a < b
  {
    forall t, a, b | MayTier(i, registered, t) && MayArrive(registered, a) && MayArrive(t, b) && !(i < 3 && AtRisk(registered))
      ensures a < b
    {
      TierAfter(i, registered, t);
    }
    if i < 3 && AtRisk(registered) {
      FirstTiersAre(i, registered, DAY250);
      ArrivesLaterIff(registered, DAY250);
      assert MayTier(i, registered, DAY250);
    }
  }

  lemma TierAfter(i: nat, registered: int, t: int)
    requires MayTier(i, registered, t) && !(i < 3 && AtRisk(registered))
    ensures t >= registered + 300 * SECOND
  {
    if MayTierFirst(i, registered, t) {
      FirstTiersAre(i, registered, t);
    } else {
      var t1 :| MayTierFirst(i, registered, t1) && MayTierAgain(t1, t);
      FirstTiersAre(i, registered, t1);
    }
  }

  // ----- Renames against tier changes

  /** The range of registration times: build_shops. */
  predicate Registrable(registered: int) {
    T0 <= registered < T0 + 430 * DAY
  }

  /** From this registration time on the rename of a shop and its tier changes keep their order. */
  function OrderLimit(i: nat, j: nat): int {
    if i < 2 then (if j < 3 then T0 + 205 * DAY else T0 + 205 * DAY + 300 * SECOND)
    else if j < 3 then DAY250 else T0 + 430 * DAY
  }

  /** Whatever is drawn, the later of the two changes arrives later. */
  ghost predicate KeepsOrder(t: int, t': int) {
    forall a, b :: MayArrive(t, a) && MayArrive(t', b) ==> (t < t' ==> a < b) && (t' < t ==> b < a)
  }

  lemma KeepsOrderIff(t: int, t': int)
    ensures KeepsOrder(t, t') <==> t == t' || t' - t >= 300 * SECOND || t - t' >= 300 * SECOND
  {
    ArrivesLaterIff(t, t');
    ArrivesLaterIff(t', t);
  }

  /** A rename and a tier change of a shop registered late enough for its positions are far apart. */
  lemma FarApart(i: nat, j: nat, registered: int, t: int, t': int)
    requires Registrable(registered) && registered >= OrderLimit(i, j)
    requires MayRename(i, registered, t) && MayTier(j, registered, t')
    ensures KeepsOrder(t, t')
  {
    KeepsOrderIff(t, t');
    RenamesAre(i, registered, t);
    if MayTierFirst(j, registered, t') {
      FirstTiersAre(j, registered, t');
    } else {
      var t1 :| MayTierFirst(j, registered, t1) && MayTierAgain(t1, t');
      FirstTiersAre(j, registered, t1);
    }
  }

  /** A rename and a tier change that can be drawn together within 300 seconds. */
  lemma Close(i: nat, j: nat, registered: int) returns (t: int, t': int)
    requires Registrable(registered) && registered < OrderLimit(i, j)
    ensures MayRename(i, registered, t) && MayTier(j, registered, t') && !KeepsOrder(t, t')
  {
    t := Renames(i, registered).value.0;
    var from := FirstTiers(j, registered).value.0;
    if i >= 2 && j < 3 && registered >= T0 + 190 * DAY {
      t' := DAY250 + 200 * DAY;
      t := t' + 1;
      FirstTiersAre(j, registered, DAY250);
      assert MayTierFirst(j, registered, DAY250) && MayTierAgain(DAY250, t');
    } else {
      t' := if i >= 2 then t + 1 else if registered < T0 + 205 * DAY then t - 1 else Max(from, t + 1);
      FirstTiersAre(j, registered, t');
    }
    RenamesAre(i, registered, t);
    KeepsOrderIff(t, t');
  }

  /** The rename of a shop and its tier changes are certain to arrive in event_time
      order exactly if the shop registered late enough for its two positions. */
  lemma ChangesKeepOrderIff(i: nat, j: nat, registered: int)
    requires Registrable(registered)
    ensures registered >= OrderLimit(i, j)
       <==> forall t, t' :: MayRename(i, registered, t) && MayTier(j, registered, t') ==> KeepsOrder(t, t')
  {
    hide MayRename, MayTier, KeepsOrder, OrderLimit;
    if registered >= OrderLimit(i, j) {
      forall t, t' | MayRename(i, registered, t) && MayTier(j, registered, t') ensures KeepsOrder(t, t') {
        FarApart(i, j, registered, t, t');
      }
    } else {
      var t, t' := Close(i, j, registered);
    }
  }

  // ----- Concrete failures

  /** A rename can reach the file before its shop's registration: one microsecond
      before day 250 is a possible registration time. */
  lemma RenameCanPrecedeRegistration()
    ensures var registered := DAY250 - 1;
            && Registrable(registered)
            && (forall u :: 0 <= u < RenameSpan(0, registered) ==> RenameTime(0, registered, u) == Some(DAY250))
            && exists a, b :: MayArrive(registered, a) && MayArrive(DAY250, b) && b < a
  {
    assert MayArrive(DAY250 - 1, DAY250 - 1 + 300 * SECOND) && MayArrive(DAY250, DAY250 + SECOND);
  }

  /** The rename and the tier change of a shop registered at the start can be drawn
      within a microsecond, and then arrive the other way round. */
  lemma RenameAndTierChangeCanSwap()
    ensures var t, t' := T0 + 70 * DAY, T0 + 70 * DAY + 1;
            && RenameTime(0, T0, 0) == Some(t) && TierTime(0, T0, 10 * DAY + 1) == Some(t')
            && 10 * DAY + 1 < TierSpan(0, T0) && t < t'
            && exists a, b :: MayArrive(t, a) && MayArrive(t', b) && b < a
  {
    var t := T0 + 70 * DAY;
    assert MayArrive(t, t + 300 * SECOND) && MayArrive(t + 1, t + 1 + SECOND);
  }
}
