/** Per-listing enrichment of the deduplicated observations, and the headline
    result: the whole pipeline returns what folding the log returns. */
module GroundTruth {
  import opened Basics
  import opened Sequences
  import opened StableSort
  import opened EventLog
  import opened AsOf
  import opened Entities
  import opened Dedup

  datatype EnrichError = MissingKey | NoRows

  datatype Enrichment = Enrichment(tier: seq<Text>, category: seq<Text>, brand: seq<Text>,
                                   country: seq<Text>, drops: map<Code, seq<int>>)

  /** Static FX table in hundredths; prices in cents make this exact in 1/10000 dollar. */
  function Usd(r: Row): int {
    r.price * match r.currency case USD => 100 case EUR => 108 case GBP => 127
  }

  predicate SameListing(a: Row, b: Row) {
    a.sc == b.sc && a.pc == b.pc
  }

  /** The `pair_start` mask. */
  predicate StartsListing(rows: seq<Row>, i: nat)
    requires i < |rows|
  {
    i == 0 || !SameListing(rows[i], rows[i - 1])
  }

  /** np.flatnonzero(pair_start), for the first `n` rows. */
  function Starts(rows: seq<Row>, n: nat): seq<nat>
    requires n <= |rows|
  {
    if n == 0 then []
    else Starts(rows, n - 1) + if StartsListing(rows, n - 1) then [n - 1] else []
  }

  /** Where slice `k` ends: the next start, or the end of the array. */
  function EndOf(rows: seq<Row>, k: nat): nat
    requires k < |Starts(rows, |rows|)|
  {
    if k + 1 < |Starts(rows, |rows|)| then Starts(rows, |rows|)[k + 1] else |rows|
  }

  lemma {:induction false} StartsAre(rows: seq<Row>, n: nat)
    requires n <= |rows|
    ensures forall k :: 0 <= k < |Starts(rows, n)| ==> Starts(rows, n)[k] < n && StartsListing(rows, Starts(rows, n)[k])
    ensures forall k, l :: 0 <= k < l < |Starts(rows, n)| ==> Starts(rows, n)[k] < Starts(rows, n)[l]
    ensures forall i: nat :: i < n && StartsListing(rows, i) ==> i in Starts(rows, n)
    ensures n > 0 ==> |Starts(rows, n)| > 0 && Starts(rows, n)[0] == 0
  {
    if n > 0 {
      StartsAre(rows, n - 1);
      var before := Starts(rows, n - 1);
      assert Starts(rows, n) == if StartsListing(rows, n - 1) then before + [n - 1] else before;
      assert n == 1 ==> before == [] && StartsListing(rows, 0);
      hide Starts, StartsListing;
      if StartsListing(rows, n - 1) {
        assert (before + [n - 1])[|before|] == n - 1;
      }
    }
  }

  lemma NoStartBetween(rows: seq<Row>, k: nat, i: nat)
    requires k < |Starts(rows, |rows|)|
    requires Starts(rows, |rows|)[k] < i < EndOf(rows, k) <= |rows|
    ensures !StartsListing(rows, i)
  {
    StartsAre(rows, |rows|);
    var starts := Starts(rows, |rows|);
    forall l | 0 <= l < |starts| ensures starts[l] != i {
      if l <= k {
        assert l == k || starts[l] < starts[k];
      } else {
        assert l == k + 1 || starts[k + 1] < starts[l];
      }
    }
  }

  lemma {:induction false} RunIsOneListing(rows: seq<Row>, k: nat, i: nat)
    requires k < |Starts(rows, |rows|)|
    requires Starts(rows, |rows|)[k] <= i < EndOf(rows, k) <= |rows|
    ensures SameListing(rows[i], rows[Starts(rows, |rows|)[k]])
    decreases i
  {
    if i > Starts(rows, |rows|)[k] {
      NoStartBetween(rows, k, i);
      RunIsOneListing(rows, k, i - 1);
    }
  }

  /** The slices are adjacent, cover all rows, hold one listing each, and on
      sorted rows no listing occurs in two slices. */
  lemma SlicesPartition(rows: seq<Row>, k: nat)
    requires k < |Starts(rows, |rows|)|
    ensures var start, end := Starts(rows, |rows|)[k], EndOf(rows, k);
            && start < end <= |rows|
            && (k == 0 ==> start == 0)
            && (k > 0 ==> EndOf(rows, k - 1) == start)
            && (k == |Starts(rows, |rows|)| - 1 ==> end == |rows|)
            && (forall i :: start <= i < end ==> SameListing(rows[i], rows[start]))
            && (Sorted(rows, RowKey) ==> forall i :: 0 <= i < |rows| && SameListing(rows[i], rows[start]) ==> start <= i < end)
  {
    StartsAre(rows, |rows|);
    var start, end := Starts(rows, |rows|)[k], EndOf(rows, k);
    forall i | start <= i < end ensures SameListing(rows[i], rows[start]) {
      RunIsOneListing(rows, k, i);
    }
    if Sorted(rows, RowKey) {
      forall i | 0 <= i < |rows| && SameListing(rows[i], rows[start]) ensures start <= i < end {
        if i < start {
          OutsideRun(rows, i, start, start);
        } else if i >= end {
          assert end == Starts(rows, |rows|)[k + 1];
          OutsideRun(rows, start, i, end);
        }
      }
    }
  }

  lemma OutsideRun(rows: seq<Row>, a: nat, b: nat, start: nat)
    requires Sorted(rows, RowKey)
    requires a < start <= b < |rows| && StartsListing(rows, start)
    ensures !SameListing(rows[a], rows[b])
  {
    assert RowKey(rows[start - 1]).AtMost(RowKey(rows[start]));
    assert a == start - 1 || RowKey(rows[a]).AtMost(RowKey(rows[start - 1]));
    assert b == start || RowKey(rows[start]).AtMost(RowKey(rows[b]));
  }

  // ----- Price drops

  /** A price at most 80% of the previous one of the same listing. */
  predicate IsDrop(rows: seq<Row>, i: nat)
    requires i < |rows|
  {
    i > 0 && SameListing(rows[i], rows[i - 1]) && 10 * Usd(rows[i]) <= 8 * Usd(rows[i - 1])
  }

  /** The drop times of one product among the first `n` rows. */
  function DropTimes(a: Arrays, product: Code, n: nat): seq<int>
    requires n <= |a.rows|
  {
    if n == 0 then []
    else DropTimes(a, product, n - 1)
         + if IsDrop(a.rows, n - 1) && a.rows[n - 1].pc < |a.prodCodes| && a.prodCodes[a.rows[n - 1].pc] == product
           then [a.rows[n - 1].time] else []
  }

  ghost predicate DropsFiled(a: Arrays, drops: map<Code, seq<int>>, n: nat) {
    n <= |a.rows| && forall p :: Lookup(drops, p) == DropTimes(a, p, n)
  }

  lemma NoDrops(a: Arrays)
    ensures DropsFiled(a, map[], 0)
  {
  }

  // ----- The pass over the slices

  /** The finalised dictionaries as one value. */
  datatype Tables = Tables(tier: map<Code, Breakpoints>, category: map<Code, Breakpoints>,
                           brand: map<Code, Breakpoints>, country: map<Code, Text>)

  ghost function TablesOf(ent: Entities): Tables
    reads ent
  {
    Tables(ent.shopTierBp, ent.prodCategoryBp, ent.prodBrandBp, ent.shopCountry)
  }

  ghost predicate Usable(m: map<Code, Breakpoints>) {
    forall c :: c in m ==> |m[c].times| == |m[c].values| > 0
  }

  ghost predicate TablesUsable(tb: Tables) {
    Usable(tb.tier) && Usable(tb.category) && Usable(tb.brand)
  }

  ghost predicate Resolved(tb: Tables, a: Arrays, i: nat)
    requires InTables(a) && i < |a.rows|
  {
    assert a.rows[i] in a.rows;
    var sc, pc := a.shopCodes[a.rows[i].sc], a.prodCodes[a.rows[i].pc];
    sc in tb.tier && sc in tb.country && pc in tb.category && pc in tb.brand
  }

  /** Row `i` carries the looked-up attributes of its own shop, product and time. */
  ghost predicate RowEnriched(tb: Tables, a: Arrays, i: nat, tier: Text, category: Text, brand: Text, country: Text)
    requires InTables(a) && i < |a.rows| && TablesUsable(tb)
  {
    assert a.rows[i] in a.rows;
    var sc, pc, t := a.shopCodes[a.rows[i].sc], a.prodCodes[a.rows[i].pc], a.rows[i].time;
    && Resolved(tb, a, i)
    && tier == Enriched(tb.tier[sc], t)
    && category == Enriched(tb.category[pc], t)
    && brand == Enriched(tb.brand[pc], t)
    && country == tb.country[sc]
  }

  ghost predicate AllEnriched(tb: Tables, a: Arrays, n: nat, tier: seq<Text>, category: seq<Text>,
                              brand: seq<Text>, country: seq<Text>)
    requires InTables(a) && TablesUsable(tb)
  {
    && n <= |a.rows|
    && |tier| == |category| == |brand| == |country| == |a.rows|
    && forall i :: 0 <= i < n ==> RowEnriched(tb, a, i, tier[i], category[i], brand[i], country[i])
  }

  method EnrichAndGroupByListing(ent: Entities, a: Arrays) returns (r: Result<Enrichment, EnrichError>)
    requires InTables(a) && TablesUsable(TablesOf(ent))
    ensures r.Err? <==> a.rows == [] || exists i :: 0 <= i < |a.rows| && !Resolved(TablesOf(ent), a, i)
    ensures r.Ok? ==> AllEnriched(TablesOf(ent), a, |a.rows|, r.value.tier, r.value.category, r.value.brand, r.value.country)
    ensures r.Ok? ==> DropsFiled(a, r.value.drops, |a.rows|)
  {
    hide Enriched, DropsFiled, Starts, Sorted, AllEnriched, RowEnriched, Written, Filled;
    var rows, n := a.rows, |a.rows|;
    if n == 0 {
      return Err(NoRows);
    }
    ghost var tb := TablesOf(ent);
    var tier, category := new Text[n](_ => ""), new Text[n](_ => "");
    var brand, country := new Text[n](_ => ""), new Text[n](_ => "");
    var drops: map<Code, seq<int>> := map[];
    var starts := Starts(rows, n);
    StartsAre(rows, n);
    var done := 0;
    NoDrops(a);
    NoneEnriched(tb, a, tier[..], category[..], brand[..], country[..]);
    for k := 0 to |starts|
      invariant done == if k < |starts| then starts[k] else n
      invariant done <= n && tb == TablesOf(ent)
      invariant AllEnriched(tb, a, done, tier[..], category[..], brand[..], country[..])
      invariant DropsFiled(a, drops, done)
    {
      var start, end := starts[k], if k + 1 < |starts| then starts[k + 1] else n;
      SlicesPartition(rows, k);
      assert rows[start] in rows;
      var sc, pc := a.shopCodes[rows[start].sc], a.prodCodes[rows[start].pc];
      if sc !in ent.shopTierBp || sc !in ent.shopCountry || pc !in ent.prodCategoryBp || pc !in ent.prodBrandBp {
        assert !Resolved(tb, a, start);
        return Err(MissingKey);
      }
      ghost var tier0, category0, brand0, country0 := tier[..], category[..], brand[..], country[..];
      drops := EnrichSlice(a, pc, start, end, ent.shopTierBp[sc], ent.prodCategoryBp[pc], ent.prodBrandBp[pc],
                           ent.shopCountry[sc], tier, category, brand, country, drops);
      SliceEnriched(tb, a, start, end, tier0, category0, brand0, country0, tier[..], category[..], brand[..], country[..]);
      done := end;
    }
    EnrichedResolved(tb, a, tier[..], category[..], brand[..], country[..]);
    return Ok(Enrichment(tier[..], category[..], brand[..], country[..], drops));
  }

  /** `after` holds the looked-up values on [start, end) and is `before` elsewhere. */
  ghost predicate Written(rows: seq<Row>, bp: Breakpoints, start: nat, end: nat, before: seq<Text>, after: seq<Text>)
    requires start <= end <= |rows| && |bp.times| == |bp.values| > 0
  {
    && |before| == |after| == |rows|
    && forall i :: 0 <= i < |rows| ==>
         after[i] == if start <= i < end then Enriched(bp, rows[i].time) else before[i]
  }

  ghost predicate Filled(home: Text, start: nat, end: nat, before: seq<Text>, after: seq<Text>) {
    && |before| == |after|
    && forall i :: 0 <= i < |after| ==> after[i] == if start <= i < end then home else before[i]
  }

  lemma NoneEnriched(tb: Tables, a: Arrays, tier: seq<Text>, category: seq<Text>, brand: seq<Text>, country: seq<Text>)
    requires InTables(a) && TablesUsable(tb)
    requires |tier| == |category| == |brand| == |country| == |a.rows|
    ensures AllEnriched(tb, a, 0, tier, category, brand, country)
  {
  }

  lemma EnrichedResolved(tb: Tables, a: Arrays, tier: seq<Text>, category: seq<Text>, brand: seq<Text>, country: seq<Text>)
    requires InTables(a) && TablesUsable(tb)
    requires AllEnriched(tb, a, |a.rows|, tier, category, brand, country)
    ensures forall i :: 0 <= i < |a.rows| ==> Resolved(tb, a, i)
  {
    forall i | 0 <= i < |a.rows| ensures Resolved(tb, a, i) {
      assert RowEnriched(tb, a, i, tier[i], category[i], brand[i], country[i]);
    }
  }

  lemma SliceEnriched(tb: Tables, a: Arrays, start: nat, end: nat,
                      tier0: seq<Text>, category0: seq<Text>, brand0: seq<Text>, country0: seq<Text>,
                      tier: seq<Text>, category: seq<Text>, brand: seq<Text>, country: seq<Text>)
    requires InTables(a) && TablesUsable(tb)
    requires start < end <= |a.rows|
    requires AllEnriched(tb, a, start, tier0, category0, brand0, country0)
    requires forall i :: start <= i < end ==> SameListing(a.rows[i], a.rows[start])
    requires Resolved(tb, a, start)
    requires a.rows[start] in a.rows
    requires var sc, pc := a.shopCodes[a.rows[start].sc], a.prodCodes[a.rows[start].pc];
             && Written(a.rows, tb.tier[sc], start, end, tier0, tier)
             && Written(a.rows, tb.category[pc], start, end, category0, category)
             && Written(a.rows, tb.brand[pc], start, end, brand0, brand)
             && Filled(tb.country[sc], start, end, country0, country)
    ensures AllEnriched(tb, a, end, tier, category, brand, country)
  {
    hide Enriched;
    forall i | 0 <= i < end ensures RowEnriched(tb, a, i, tier[i], category[i], brand[i], country[i]) {
      if i < start {
        assert RowEnriched(tb, a, i, tier0[i], category0[i], brand0[i], country0[i]);
      } else {
        assert SameListing(a.rows[i], a.rows[start]);
      }
    }
  }

  /** The body of the loop over slices: rows [start, end) all belong to one listing. */
  method EnrichSlice(a: Arrays, pc: Code, start: nat, end: nat, tt: Breakpoints, ct: Breakpoints, bt: Breakpoints,
                     home: Text, tier: array<Text>, category: array<Text>, brand: array<Text>, country: array<Text>,
                     drops0: map<Code, seq<int>>) returns (drops: map<Code, seq<int>>)
    requires start < end <= |a.rows| && StartsListing(a.rows, start)
    requires forall i :: start <= i < end ==> SameListing(a.rows[i], a.rows[start])
    requires a.rows[start].pc < |a.prodCodes| && pc == a.prodCodes[a.rows[start].pc]
    requires |tt.times| == |tt.values| > 0 && |ct.times| == |ct.values| > 0 && |bt.times| == |bt.values| > 0
    requires tier != category && tier != brand && tier != country
    requires category != brand && category != country && brand != country
    requires tier.Length == category.Length == brand.Length == country.Length == |a.rows|
    requires DropsFiled(a, drops0, start)
    modifies tier, category, brand, country
    ensures Written(a.rows, tt, start, end, old(tier[..]), tier[..])
    ensures Written(a.rows, ct, start, end, old(category[..]), category[..])
    ensures Written(a.rows, bt, start, end, old(brand[..]), brand[..])
    ensures Filled(home, start, end, old(country[..]), country[..])
    ensures DropsFiled(a, drops, end)
  {
    hide Enriched, DropTimes;
    var rows := a.rows;
    WriteSlice(rows, tt, start, end, tier);
    forall i | start <= i < end {
      country[i] := home;
    }
    WriteSlice(rows, ct, start, end, category);
    WriteSlice(rows, bt, start, end, brand);
    drops := SliceDrops(a, pc, start, end, drops0);
  }

  /** `drop_mask` over consecutive prices of the slice. */
  method SliceDrops(a: Arrays, pc: Code, start: nat, end: nat, drops0: map<Code, seq<int>>)
    returns (drops: map<Code, seq<int>>)
    requires start < end <= |a.rows| && StartsListing(a.rows, start)
    requires forall i :: start <= i < end ==> SameListing(a.rows[i], a.rows[start])
    requires a.rows[start].pc < |a.prodCodes| && pc == a.prodCodes[a.rows[start].pc]
    requires DropsFiled(a, drops0, start)
    ensures DropsFiled(a, drops, end)
  {
    hide DropTimes;
    drops := drops0;
    for j := start to end
      invariant DropsFiled(a, drops, j)
    {
      DropStep(a, start, j, pc, drops);
      if j > start && 10 * Usd(a.rows[j]) <= 8 * Usd(a.rows[j - 1]) {
        drops := Push(drops, pc, a.rows[j].time);
      }
    }
  }

  /** `out[start:end] = [values[i] for i in searchsorted(...) - 1]` */
  method WriteSlice(rows: seq<Row>, bp: Breakpoints, start: nat, end: nat, out: array<Text>)
    requires start <= end <= |rows| == out.Length && |bp.times| == |bp.values| > 0
    modifies out
    ensures Written(rows, bp, start, end, old(out[..]), out[..])
  {
    hide Enriched;
    for j := start to end
      invariant forall i :: 0 <= i < |rows| ==>
                  out[i] == if start <= i < j then Enriched(bp, rows[i].time) else old(out[i])
    {
      out[j] := Enriched(bp, rows[j].time);
    }
  }

  lemma DropStep(a: Arrays, start: nat, j: nat, pc: Code, drops: map<Code, seq<int>>)
    requires start <= j < |a.rows| && StartsListing(a.rows, start)
    requires SameListing(a.rows[j], a.rows[start]) && (j > start ==> SameListing(a.rows[j - 1], a.rows[start]))
    requires a.rows[start].pc < |a.prodCodes| && pc == a.prodCodes[a.rows[start].pc]
    requires DropsFiled(a, drops, j)
    ensures var drop := j > start && 10 * Usd(a.rows[j]) <= 8 * Usd(a.rows[j - 1]);
            var drops' := if drop then Push(drops, pc, a.rows[j].time) else drops;
            DropsFiled(a, drops', j + 1)
  {
    DropOfListing(a.rows, start, j);
    var drop := j > start && 10 * Usd(a.rows[j]) <= 8 * Usd(a.rows[j - 1]);
    var drops' := if drop then Push(drops, pc, a.rows[j].time) else drops;
    hide IsDrop;
    forall p ensures Lookup(drops', p) == DropTimes(a, p, j + 1) {
      assert Lookup(drops, p) == DropTimes(a, p, j);
    }
  }

  /** Inside a slice a drop is a drop against the row before; a slice never starts with one. */
  lemma DropOfListing(rows: seq<Row>, start: nat, j: nat)
    requires start <= j < |rows| && StartsListing(rows, start)
    requires SameListing(rows[j], rows[start]) && (j > start ==> SameListing(rows[j - 1], rows[start]))
    ensures IsDrop(rows, j) <==> j > start && 10 * Usd(rows[j]) <= 8 * Usd(rows[j - 1])
  {
  }

  // ----- Agreement with the fold of the log

  /** What the battery means by the attributes of one observation. */
  ghost predicate AsFolded(log: seq<Event>, o: Observation, tier: Text, category: Text, brand: Text, country: Text) {
    var shop, product := ShopAsOf(log, o.shop, o.time), ProductAsOf(log, o.product, o.time);
    && shop.Some? && shop.value.tier == tier && shop.value.country == country
    && product.Some? && product.value.category == category && product.value.brand == brand
  }

  lemma FinalizedUsable(ent: Entities, log: seq<Event>)
    requires ent.Finalized(log)
    ensures TablesUsable(TablesOf(ent))
  {
    forall s | s in ent.shopTierBp ensures |ent.shopTierBp[s].times| == |ent.shopTierBp[s].values| > 0 {
      SortedInTimeOrder(TierStamps(log, s));
    }
    FieldTablesUsable(ent.prodCategoryBp, log, Category);
    FieldTablesUsable(ent.prodBrandBp, log, Brand);
  }

  lemma FieldTablesUsable(m: map<Code, Breakpoints>, log: seq<Event>, f: Field)
    requires FieldTables(m, log, f)
    ensures Usable(m)
  {
    forall p | p in m ensures |m[p].times| == |m[p].values| > 0 {
      assert TableOf(log, p, f, m[p]);
    }
  }

  /** The country filed for a shop that registers once is the registered one. */
  lemma CountryIsFold(ent: Entities, log: seq<Event>, shop: Code, t: int)
    requires ent.Finalized(log) && RegisteredOnce(log) && RegisteredBy(log, shop, t)
    ensures shop in ent.shopCountry
    ensures ShopAsOf(log, shop, t).Some? && ShopAsOf(log, shop, t).value.country == ent.shopCountry[shop]
  {
    hide History, SortBy, ShopAfter, TierTables, NameTables, FieldTables, SortedTransitions, FilesDiscovered;
    var all := Filter(log, RegistrationsOf(shop));
    var e :| e in log && IsRegistration(e, shop) && e.time <= t;
    FilterMember(log, RegistrationsOf(shop), e);
    var last := Last(all);
    assert last in all;
    FilterMember(log, RegistrationsOf(shop), last);
    var h := History(log, OfShop(shop), t);
    assert |all| == 1;
    forall x | x in h
      ensures ConcernsShop(x, shop)
      ensures IsRegistration(x, shop) ==> x.country == last.country
    {
      HistoryMember(log, OfShop(shop), t, x);
      FilterMember(log, RegistrationsOf(shop), x);
    }
    ShopFoldCountry(h, shop, last.country);
    HistoryOfShop(log, shop, t);
  }

  lemma RegisteredHasTier(log: seq<Event>, shop: Code, t: int)
    requires RegisteredBy(log, shop, t)
    ensures TierStamps(log, shop) != []
  {
    var e :| e in log && IsRegistration(e, shop) && e.time <= t;
    FilterMember(log, TierSetters(shop), e);
  }

  lemma DiscoveredHasTable(log: seq<Event>, product: Code, t: int)
    requires DiscoveredBy(log, product, t)
    ensures Discoveries(log, product) != []
  {
    var e :| e in log && IsDiscovery(e, product) && e.time <= t;
    FirstIsEarliest(log, product, e);
  }

  /** On a log that meets the stream's guarantees every looked-up row is the folded one. */
  lemma LookupIsFold(ent: Entities, log: seq<Event>, o: Observation)
    requires ent.Finalized(log) && TablesUsable(TablesOf(ent))
    requires RegisteredOnce(log) && PatchesFollowDiscovery(log)
    requires RegisteredBy(log, o.shop, o.time) && DiscoveredBy(log, o.product, o.time)
    ensures o.shop in ent.shopTierBp && o.shop in ent.shopCountry
    ensures o.product in ent.prodCategoryBp && o.product in ent.prodBrandBp
    ensures AsFolded(log, o, Enriched(ent.shopTierBp[o.shop], o.time),
                     Enriched(ent.prodCategoryBp[o.product], o.time),
                     Enriched(ent.prodBrandBp[o.product], o.time), ent.shopCountry[o.shop])
  {
    hide Enriched, ShopAsOf, ProductAsOf, TierStamps, Discoveries, FieldStamps, SortBy;
    RegisteredHasTier(log, o.shop, o.time);
    DiscoveredHasTable(log, o.product, o.time);
    TierLookupIsFold(log, o.shop, o.time);
    CountryIsFold(ent, log, o.shop, o.time);
    LedByDiscovery(log, o.product, Category);
    LedByDiscovery(log, o.product, Brand);
    FieldLookupIsFold(log, o.product, Category, o.time);
    FieldLookupIsFold(log, o.product, Brand, o.time);
    assert TableOf(log, o.product, Category, ent.prodCategoryBp[o.product]);
    assert TableOf(log, o.product, Brand, ent.prodBrandBp[o.product]);
  }

  /** A deduplicated row stands for an observation of the log, which is grounded. */
  lemma RowGrounded(log: seq<Event>, a: Arrays, i: nat)
    requires ObservationsGrounded(log)
    requires InTables(a) && i < |a.rows| && KeepsFirsts(Decoded(a), Observations(log), ObservationKey)
    ensures RegisteredBy(log, Decoded(a)[i].shop, Decoded(a)[i].time)
    ensures DiscoveredBy(log, Decoded(a)[i].product, Decoded(a)[i].time)
  {
    var o := Decoded(a)[i];
    var raw := Observations(log);
    assert o in Decoded(a);
    FirstIsMember(o, raw, ObservationKey);
    var events := Filter(log, IsObservation);
    var j :| 0 <= j < |raw| && raw[j] == o;
    assert ObservationOf(events[j]) == o && events[j] in events;
    FilterMember(log, IsObservation, events[j]);
  }

  predicate SameMoment(e: Event, shop: Code, product: Code, time: int) {
    e.PriceObserved? && e.shop == shop && e.product == product && e.time == time
  }

  /** This price line stands in the log, before all others of its shop, product and time. */
  ghost predicate FirstLine(log: seq<Event>, shop: Code, product: Code, time: int, arrival: int, price: int, currency: Currency) {
    exists k :: 0 <= k < |log| && log[k] == PriceObserved(time, arrival, shop, product, price, currency)
      && forall j :: 0 <= j < k ==> !SameMoment(log[j], shop, product, time)
  }

  /** Row by row the arrays hold the first price line of its shop, product and time, and
      every price line of the log has its row. */
  ghost predicate HoldsFirstLines(log: seq<Event>, a: Arrays) {
    && (forall i :: 0 <= i < |a.rows| ==>
          && a.rows[i].sc < |a.shopCodes| && a.rows[i].pc < |a.prodCodes|
          && FirstLine(log, a.shopCodes[a.rows[i].sc], a.prodCodes[a.rows[i].pc], a.rows[i].time,
                       a.rows[i].arrival, a.rows[i].price, a.rows[i].currency))
    && (forall e :: e in log && e.PriceObserved? ==> HasRow(a, e.shop, e.product, e.time))
    && InRowOrder(a)
  }

  /** Rows go by shop, within a shop by product, and within a listing by time. */
  ghost predicate InRowOrder(a: Arrays) {
    && (forall r :: r in a.rows ==> r.sc < |a.shopCodes| && r.pc < |a.prodCodes|)
    && forall i, j :: 0 <= i < j < |a.rows| ==>
         var r, s := a.rows[i], a.rows[j];
         || a.shopCodes[r.sc] < a.shopCodes[s.sc]
         || (a.shopCodes[r.sc] == a.shopCodes[s.sc] && a.prodCodes[r.pc] < a.prodCodes[s.pc])
         || (a.shopCodes[r.sc] == a.shopCodes[s.sc] && a.prodCodes[r.pc] == a.prodCodes[s.pc] && r.time < s.time)
  }

  lemma RowsInOrder(a: Arrays)
    requires InTables(a) && StrictlySorted(Decoded(a), ObservationKey)
    ensures InRowOrder(a)
  {
    var kept := Decoded(a);
    forall i, j | 0 <= i < j < |a.rows|
      ensures !ObservationKey(kept[j]).AtMost(ObservationKey(kept[i]))
      ensures a.rows[i] in a.rows && a.rows[j] in a.rows
    {
    }
  }

  ghost predicate HasRow(a: Arrays, shop: Code, product: Code, time: int) {
    exists i :: 0 <= i < |a.rows| && a.rows[i].sc < |a.shopCodes| && a.rows[i].pc < |a.prodCodes|
      && a.shopCodes[a.rows[i].sc] == shop && a.prodCodes[a.rows[i].pc] == product && a.rows[i].time == time
  }

  function LineOf(o: Observation): Event {
    PriceObserved(o.time, o.arrival, o.shop, o.product, o.price, o.currency)
  }

  /** The first transcribed observation of its key is the first such line of the log. */
  lemma {:induction false} FirstObservationIsFirstLine(log: seq<Event>, raw: seq<Observation>, o: Observation)
    requires Transcribes(raw, log) && IsFirst(o, raw, ObservationKey)
    ensures FirstLine(log, o.shop, o.product, o.time, o.arrival, o.price, o.currency)
    decreases |log|
  {
    if |log| > 0 {
      var last := Last(log);
      InitLast(log);
      if !last.PriceObserved? {
        FirstObservationIsFirstLine(Init(log), raw, o);
        FirstLineLonger(log, o);
      } else if IsFirst(o, Init(raw), ObservationKey) {
        FirstObservationIsFirstLine(Init(log), Init(raw), o);
        FirstLineLonger(log, o);
      } else {
        OnlyLastIsFirst(raw, o);
        NoEarlierLine(Init(log), Init(raw), o);
        assert log[|log| - 1] == LineOf(o);
      }
    }
  }

  lemma FirstLineLonger(log: seq<Event>, o: Observation)
    requires |log| > 0 && FirstLine(Init(log), o.shop, o.product, o.time, o.arrival, o.price, o.currency)
    ensures FirstLine(log, o.shop, o.product, o.time, o.arrival, o.price, o.currency)
  {
    var k :| 0 <= k < |Init(log)| && Init(log)[k] == LineOf(o)
      && forall j :: 0 <= j < k ==> !SameMoment(Init(log)[j], o.shop, o.product, o.time);
    hide SameMoment;
    forall j | 0 <= j < k ensures !SameMoment(log[j], o.shop, o.product, o.time) {
      assert log[j] == Init(log)[j];
    }
    assert log[k] == LineOf(o);
  }

  lemma OnlyLastIsFirst(raw: seq<Observation>, o: Observation)
    requires raw != [] && IsFirst(o, raw, ObservationKey) && !IsFirst(o, Init(raw), ObservationKey)
    ensures o == Last(raw)
    ensures forall x :: x in Init(raw) ==> ObservationKey(x) != ObservationKey(o)
  {
    var same := WithKey(ObservationKey, ObservationKey(o));
    assert Filter(raw, same) == Filter(Init(raw), same) + if same(Last(raw)) then [Last(raw)] else [];
    forall x | x in Init(raw) ensures ObservationKey(x) != ObservationKey(o) {
      FilterMember(Init(raw), same, x);
    }
  }

  lemma {:induction false} NoEarlierLine(log: seq<Event>, raw: seq<Observation>, o: Observation)
    requires Transcribes(raw, log)
    requires forall x :: x in raw ==> ObservationKey(x) != ObservationKey(o)
    ensures forall j :: 0 <= j < |log| ==> !SameMoment(log[j], o.shop, o.product, o.time)
    decreases |log|
  {
    if |log| > 0 {
      var last := Last(log);
      InitLast(log);
      if last.PriceObserved? {
        assert Last(raw) in raw;
        NoEarlierLine(Init(log), Init(raw), o);
      } else {
        NoEarlierLine(Init(log), raw, o);
      }
    }
  }

  lemma {:induction false} LineIsTranscribed(log: seq<Event>, raw: seq<Observation>, e: Event)
    requires Transcribes(raw, log) && e in log && e.PriceObserved?
    ensures exists o :: o in raw && o.shop == e.shop && o.product == e.product && o.time == e.time
    decreases |log|
  {
    if |log| > 0 {
      InitLast(log);
      if e == Last(log) {
        assert Last(raw) in raw;
      } else if Last(log).PriceObserved? {
        LineIsTranscribed(Init(log), Init(raw), e);
        var o :| o in Init(raw) && o.shop == e.shop && o.product == e.product && o.time == e.time;
        assert o in raw;
      } else {
        LineIsTranscribed(Init(log), raw, e);
      }
    }
  }

  /** The deduplicated arrays of a transcribed log hold its first price lines. */
  lemma ArraysHoldFirstLines(log: seq<Event>, raw: seq<Observation>, a: Arrays)
    requires Transcribes(raw, log) && InTables(a) && KeepsFirsts(Decoded(a), raw, ObservationKey)
    ensures HoldsFirstLines(log, a)
  {
    var kept := Decoded(a);
    RowsInOrder(a);
    hide Transcribes, FirstLine, InRowOrder, StrictlySorted;
    forall i | 0 <= i < |a.rows|
      ensures a.rows[i].sc < |a.shopCodes| && a.rows[i].pc < |a.prodCodes|
      ensures FirstLine(log, a.shopCodes[a.rows[i].sc], a.prodCodes[a.rows[i].pc], a.rows[i].time,
                        a.rows[i].arrival, a.rows[i].price, a.rows[i].currency)
    {
      assert a.rows[i] in a.rows;
      assert kept[i] in kept && kept[i].price == a.rows[i].price && kept[i].arrival == a.rows[i].arrival;
      hide IsFirst;
      FirstObservationIsFirstLine(log, raw, kept[i]);
    }
    forall e | e in log && e.PriceObserved? ensures HasRow(a, e.shop, e.product, e.time) {
      LineIsTranscribed(log, raw, e);
      var o :| o in raw && o.shop == e.shop && o.product == e.product && o.time == e.time;
      assert Covers(kept, ObservationKey, ObservationKey(o));
      var i :| 0 <= i < |kept| && ObservationKey(kept[i]) == ObservationKey(o);
      assert a.rows[i] in a.rows;
    }
  }

  /** A dollar, a euro and a pound in dollars. */
  lemma DollarValue(r: Row)
    ensures r.currency == USD ==> Usd(r) == 100 * r.price
    ensures r.currency == EUR ==> Usd(r) == 108 * r.price
    ensures r.currency == GBP ==> Usd(r) == 127 * r.price
  {
  }

  /** Consecutive rows of one listing, the later at most four fifths of the earlier in dollars. */
  ghost predicate FellAt(a: Arrays, product: Code, i: nat)
    requires i < |a.rows|
  {
    && i > 0 && a.rows[i].sc == a.rows[i - 1].sc && a.rows[i].pc == a.rows[i - 1].pc
    && a.rows[i].pc < |a.prodCodes| && a.prodCodes[a.rows[i].pc] == product
    && 5 * Usd(a.rows[i]) <= 4 * Usd(a.rows[i - 1])
  }

  lemma {:induction false} DropTimesAre(a: Arrays, product: Code, n: nat, t: int)
    requires n <= |a.rows|
    ensures t in DropTimes(a, product, n) <==> exists i: nat :: i < n && a.rows[i].time == t && FellAt(a, product, i)
  {
    if n > 0 {
      DropTimesAre(a, product, n - 1, t);
      assert FellAt(a, product, n - 1)
        <==> IsDrop(a.rows, n - 1) && a.rows[n - 1].pc < |a.prodCodes| && a.prodCodes[a.rows[n - 1].pc] == product;
    }
  }

  ghost predicate FoldsThroughout(log: seq<Event>, a: Arrays, e: Enrichment)
    requires InTables(a)
  {
    && |e.tier| == |e.category| == |e.brand| == |e.country| == |a.rows|
    && forall i :: 0 <= i < |a.rows| ==>
         AsFolded(log, Decoded(a)[i], e.tier[i], e.category[i], e.brand[i], e.country[i])
  }

  /** Parse, deduplicate, enrich.  On every stream that meets the guarantees
      and observes something, the pipeline succeeds and each distinct
      observation, in its first-arriving copy, carries the price of its line and the attributes
      that folding its shop's and product's events up to its time gives. */
  method ComputeAsOf(log: seq<Event>) returns (a: Arrays, e: Enrichment)
    requires Wellformed(log) && Observations(log) != []
    ensures InTables(a) && HoldsFirstLines(log, a)
    ensures KeepsFirsts(Decoded(a), Observations(log), ObservationKey)
    ensures |a.rows| == |KeySet(Observations(log), ObservationKey)|
    ensures FoldsThroughout(log, a, e)
    ensures DropsFiled(a, e.drops, |a.rows|)
  {
    hide KeepsFirsts, BuildObservationArrays, Observations, DropTimes, HoldsFirstLines, Transcribes;
    var parsed := ParseEvents(log);
    var ent, raw := parsed.value.0, parsed.value.1;
    BuildDeduplicates(raw);
    var built := BuildArrays(raw);
    a := built.value;
    ArraysHoldFirstLines(log, raw, a);
    FinalizedUsable(ent, log);
    forall i | 0 <= i < |a.rows|
      ensures Resolved(TablesOf(ent), a, i)
      ensures var sc, pc, t := a.shopCodes[a.rows[i].sc], a.prodCodes[a.rows[i].pc], a.rows[i].time;
              AsFolded(log, Decoded(a)[i], Enriched(ent.shopTierBp[sc], t), Enriched(ent.prodCategoryBp[pc], t),
                       Enriched(ent.prodBrandBp[pc], t), ent.shopCountry[sc])
    {
      assert a.rows[i] in a.rows;
      RowGrounded(log, a, i);
      LookupIsFold(ent, log, Decoded(a)[i]);
    }
    var enriched := EnrichAndGroupByListing(ent, a);
    e := enriched.value;
  }
}
