/** Questions q01 and q12: which listings are active at the end of the stream,
    and which were delisted in 2025 for good. */
module Lifecycle {
  import opened Sequences
  import opened StableSort
  import opened EventLog
  import opened Entities

  datatype Churn = Churn(shop: Code, product: Code, delisted: int)

  function ChurnKey(c: Churn): Key { Key(c.shop, c.product, 0) }

  /** The delists and relists of a listing, in stable event_time order. */
  ghost function LifecycleOf(log: seq<Event>, l: Listing): seq<Event> {
    SortBy(Filter(log, OnListing(l.0, l.1)), ByTime)
  }

  ghost predicate IsActive(log: seq<Event>, l: Listing) {
    ActiveAfter(LifecycleOf(log, l))
  }

  /** The most recent transition is a delist that falls in 2025. */
  ghost predicate ChurnedAt(log: seq<Event>, l: Listing, t: int) {
    var h := LifecycleOf(log, l);
    h != [] && Last(h).ProductDelisted? && Last(h).time == t && YEAR_FROM <= t < YEAR_TO
  }

  lemma TransitionsMirrorLifecycle(log: seq<Event>, l: Listing)
    ensures var h, evs := LifecycleOf(log, l), SortBy(Transitions(log, l), TransitionKey);
            && |h| == |evs|
            && (evs != [] ==> Last(evs) == TransitionOf(Last(h)) && ConcernsListing(Last(h), l.0, l.1))
            && (IsActive(log, l) <==> evs == [] || Last(evs).relisted)
  {
    var chosen := Filter(log, OnListing(l.0, l.1));
    SortMap(chosen, TransitionOf, ByTime, TransitionKey);
    var h := SortBy(chosen, ByTime);
    if h != [] {
      SortMember(chosen, ByTime, Last(h));
      FilterMember(log, OnListing(l.0, l.1), Last(h));
    }
  }

  /** The two folds over one listing's sorted transitions. */
  method Replay(evs: seq<Transition>) returns (active: bool, lastDelist: Option<int>)
    ensures active <==> evs == [] || Last(evs).relisted
    ensures !active ==> lastDelist == Some(Last(evs).time)
    ensures lastDelist.Some? <==> exists e :: e in evs && !e.relisted
  {
    active, lastDelist := true, None;
    for i := 0 to |evs|
      invariant active <==> i == 0 || evs[i - 1].relisted
      invariant !active ==> lastDelist == Some(evs[i - 1].time)
      invariant lastDelist.Some? <==> exists j :: 0 <= j < i && !evs[j].relisted
    {
      if !evs[i].relisted {
        active, lastDelist := false, Some(evs[i].time);
      } else {
        active := true;
      }
    }
  }

  ghost function ActiveOf(log: seq<Event>, listings: set<Listing>, shop: Code): set<Listing> {
    set l | l in listings && l.0 == shop && IsActive(log, l)
  }

  lemma ActiveOfAdd(log: seq<Event>, listings: set<Listing>, l: Listing, shop: Code)
    requires l !in listings
    ensures |ActiveOf(log, listings + {l}, shop)|
         == |ActiveOf(log, listings, shop)| + if l.0 == shop && IsActive(log, l) then 1 else 0
  {
    hide IsActive;
    if l.0 == shop && IsActive(log, l) {
      assert ActiveOf(log, listings + {l}, shop) == ActiveOf(log, listings, shop) + {l};
    } else {
      assert ActiveOf(log, listings + {l}, shop) == ActiveOf(log, listings, shop);
    }
  }

  /** q01: per shop, the number of discovered listings whose fold is active; no zero rows. */
  method CountActive(ent: Entities, ghost log: seq<Event>) returns (counts: map<Code, nat>)
    requires ent.Finalized(log)
    ensures forall s :: s in counts <==> ActiveOf(log, ent.listingDiscovered.Keys, s) != {}
    ensures forall s :: s in counts ==> counts[s] == |ActiveOf(log, ent.listingDiscovered.Keys, s)|
  {
    hide IsActive, ActiveOf, Transitions, SortBy, TierTables, NameTables, FieldTables, FilesCountries, FilesDiscovered;
    counts := map[];
    var left := ent.listingDiscovered.Keys;
    ghost var done: set<Listing> := {};
    NoneActive(log);
    while left != {}
      invariant done !! left && done + left == ent.listingDiscovered.Keys
      invariant forall s :: s in counts <==> |ActiveOf(log, done, s)| != 0
      invariant forall s :: s in counts ==> counts[s] == |ActiveOf(log, done, s)|
      decreases left
    {
      var l := AnyOf(left);
      var active, _ := Replay(Lookup(ent.listingLifecycle, l));
      TransitionsMirrorLifecycle(log, l);
      forall s
        ensures |ActiveOf(log, done + {l}, s)|
             == |ActiveOf(log, done, s)| + if l.0 == s && IsActive(log, l) then 1 else 0
      {
        ActiveOfAdd(log, done, l, s);
      }
      if active {
        counts := counts[l.0 := (if l.0 in counts then counts[l.0] else 0) + 1];
      }
      left, done := left - {l}, done + {l};
    }
    assert done == ent.listingDiscovered.Keys;
  }

  lemma NoneActive(log: seq<Event>)
    ensures forall s :: |ActiveOf(log, {}, s)| == 0
  {
    forall s ensures |ActiveOf(log, {}, s)| == 0 {
      assert ActiveOf(log, {}, s) == {};
    }
  }

  datatype NoRows = NoRows

  /** q12: one row each for exactly the listings whose last transition is a delist in 2025,
      by (shop, product); the question insists on having some. */
  method ChurnRows(ent: Entities, ghost log: seq<Event>) returns (r: Result<seq<Churn>, NoRows>)
    requires ent.Finalized(log)
    ensures r.Err? <==> forall l, t :: !ChurnedAt(log, l, t)
    ensures r.Ok? ==> Sorted(r.value, ChurnKey) && Distinct(r.value)
    ensures r.Ok? ==> forall c :: c in r.value <==> ChurnedAt(log, (c.shop, c.product), c.delisted)
    ensures r.Ok? ==> forall c :: c in r.value ==> 1735689600 <= c.delisted < 1767225600
  {
    hide SortBy, ChurnedAt, Sorted, Distinct;
    var found := FindChurned(ent, log);
    var rows := SortBy(found, ChurnKey);
    WithinYear(log);
    SortSorts(found, ChurnKey);
    SortDistinct(found, ChurnKey);
    assert multiset(rows) == multiset(found);
    forall c ensures c in rows <==> c in found {
      SortMember(found, ChurnKey, c);
    }
    if rows == [] {
      forall l: Listing, t ensures !ChurnedAt(log, l, t) {
        assert Churn(l.0, l.1, t) !in rows;
      }
      return Err(NoRows);
    }
    assert rows[0] in rows && ChurnedAt(log, (rows[0].shop, rows[0].product), rows[0].delisted);
    return Ok(rows);
  }

  lemma WithinYear(log: seq<Event>)
    ensures forall l, t :: ChurnedAt(log, l, t) ==> 1735689600 <= t < 1767225600
  {
  }

  method FindChurned(ent: Entities, ghost log: seq<Event>) returns (found: seq<Churn>)
    requires ent.Finalized(log)
    ensures Distinct(found)
    ensures forall r :: r in found <==> ChurnedAt(log, (r.shop, r.product), r.delisted)
  {
    hide ChurnedAt, Transitions, SortBy, LifecycleOf, TierTables, NameTables, FieldTables, FilesCountries, FilesDiscovered;
    found := [];
    var left := ent.listingLifecycle.Keys;
    while left != {}
      invariant left <= ent.listingLifecycle.Keys && Distinct(found)
      invariant forall r :: r in found <==>
                  && (r.shop, r.product) in ent.listingLifecycle.Keys - left
                  && ChurnedAt(log, (r.shop, r.product), r.delisted)
      decreases left
    {
      var l := AnyOf(left);
      var active, lastDelist := Replay(Lookup(ent.listingLifecycle, l));
      ReplayDecides(log, l, active, lastDelist);
      if !active && lastDelist.Some? && YEAR_FROM <= lastDelist.value < YEAR_TO {
        found := found + [Churn(l.0, l.1, lastDelist.value)];
      }
      left := left - {l};
    }
    forall r: Churn ensures r in found <==> ChurnedAt(log, (r.shop, r.product), r.delisted) {
      if ChurnedAt(log, (r.shop, r.product), r.delisted) {
        UnfiledNotChurned(ent, log, (r.shop, r.product), r.delisted);
      }
    }
  }

  lemma ReplayDecides(log: seq<Event>, l: Listing, active: bool, lastDelist: Option<int>)
    requires var evs := SortBy(Transitions(log, l), TransitionKey);
             && (active <==> evs == [] || Last(evs).relisted)
             && (!active ==> lastDelist == Some(Last(evs).time))
    ensures forall t :: ChurnedAt(log, l, t) <==> !active && lastDelist == Some(t) && YEAR_FROM <= t < YEAR_TO
  {
    TransitionsMirrorLifecycle(log, l);
  }

  lemma UnfiledNotChurned(ent: Entities, log: seq<Event>, l: Listing, t: int)
    requires ent.Finalized(log) && ChurnedAt(log, l, t)
    ensures l in ent.listingLifecycle
  {
    TransitionsMirrorLifecycle(log, l);
    assert Lookup(ent.listingLifecycle, l) == SortBy(Transitions(log, l), TransitionKey);
  }
}
