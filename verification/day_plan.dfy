/** The daily price dumps: how many lines of each kind a day gets, the lists
    built to those counts, and the books kept about them. */
module DayPlan {
  import opened Basics
  import opened Sequences
  import opened DuplicateLines

  // ----- Rounding

  /** Python's round() of num/den: to the nearest integer, ties to the even one. */
  function RoundHalfEven(num: int, den: int): int
    requires den > 0
  {
    var q, twice := num / den, 2 * (num % den);
    if twice < den || (twice == den && q % 2 == 0) then q else q + 1
  }

  /** A nearest integer to num/den, even if two are equally near. */
  ghost predicate NearestEven(num: int, den: int, r: int) {
    2 * Abs(num - den * r) <= den && (2 * Abs(num - den * r) == den ==> r % 2 == 0)
  }

  /** Rounding yields the one integer with that property. */
  lemma RoundsToNearestEven(num: int, den: int, r: int)
    requires den > 0
    ensures r == RoundHalfEven(num, den) <==> NearestEven(num, den, r)
  {
    var q, rest := num / den, num % den;
    assert num == den * q + rest;
    Multiples(den, rest, r - q);
    assert den * (r - q) == den * r - den * q;
    assert num - den * r == rest - den * (r - q);
  }

  lemma RoundError(num: int, den: int)
    requires den > 0
    ensures -den <= 2 * (num - den * RoundHalfEven(num, den)) <= den
  {
    RoundsToNearestEven(num, den, RoundHalfEven(num, den));
  }

  lemma Multiples(den: int, rest: int, k: int)
    requires 0 <= rest < den
    ensures k >= 2 ==> den * k - rest > den
    ensures k <= -1 ==> rest - den * k >= den
  {
    if k >= 2 {
      assert den * k >= den * 2;
    } else if k <= -1 {
      assert den * -k >= den;
    }
  }

  // ----- The counts of one day

  const N_DAYS := 14
  const N_CATEGORIES := 12
  const MIN_LINES := 100

  datatype Plan = Plan(total: int, malformed: int, duplicates: int, invalid: int, valid: int, late: int, prompt: int)

  /** 0.4 % malformed, 2 % duplicates, 1 % of the rest invalid, 3 % of the valid late. */
  function PlanOf(total: int, day: nat): Plan {
    var malformed := RoundHalfEven(total * 4, 1000);
    var duplicates := RoundHalfEven(total * 2, 100);
    var base := total - malformed - duplicates;
    var invalid := RoundHalfEven(base, 100);
    var valid := base - invalid;
    var late := if day > 0 then RoundHalfEven(valid * 3, 100) else 0;
    Plan(total, malformed, duplicates, invalid, valid, late, valid - late)
  }

  /** The counts of a day are all feasible and add up to its total; valid records
      exist from the first line on, late ones from the seventeenth valid record on. */
  lemma PlanFeasible(total: int, day: nat)
    requires total >= 0
    ensures var p := PlanOf(total, day);
            && p.malformed >= 0 && p.duplicates >= 0 && p.invalid >= 0 && 0 <= p.late <= p.valid
            && p.malformed + p.duplicates + p.invalid + p.prompt + p.late == total
            && (p.prompt > 0 <==> total > 0)
            && (p.late > 0 <==> day > 0 && p.valid >= 17)
            && (total >= MIN_LINES ==> p.valid >= 96 && p.duplicates >= 2)
  {
    hide RoundHalfEven;
    RoundError(total * 4, 1000);
    RoundError(total * 2, 100);
    var p := PlanOf(total, day);
    RoundError(p.invalid + p.valid, 100);
    RoundError(p.valid * 3, 100);
  }

  // ----- Invalid records

  datatype Reason = MissingUrl | BadPrice | UnknownCurrency | BadTimestamp

  /** Each reason with its share in tenths. */
  const SHARES: seq<(Reason, nat)> := [(MissingUrl, 3), (BadPrice, 3), (UnknownCurrency, 2), (BadTimestamp, 2)]

  const REASONS: seq<Reason> := [MissingUrl, BadPrice, UnknownCurrency, BadTimestamp]

  /** The rounded shares, the last reason taking what is left. */
  function ReasonCounts(n: nat): (counts: seq<int>)
    ensures |counts| == |REASONS|
  {
    var a, b, c := RoundHalfEven(n * 3, 10), RoundHalfEven(n * 3, 10), RoundHalfEven(n * 2, 10);
    [a, b, c, n - a - b - c]
  }

  /** The buckets are non-negative, sum to `n`, and stray from their shares by at
      most half a record, the last one by at most one and a half. */
  lemma BucketsShareOut(n: nat)
    ensures var counts := ReasonCounts(n);
            && (forall i :: 0 <= i < 4 ==> counts[i] >= 0)
            && Sum(counts) == n
            && (forall i :: 0 <= i < 4 ==> Abs(10 * counts[i] - n * SHARES[i].1) <= if i < 3 then 5 else 15)
  {
    hide RoundHalfEven;
    RoundError(n * 3, 10);
    RoundError(n * 2, 10);
    var a, c := RoundHalfEven(n * 3, 10), RoundHalfEven(n * 2, 10);
    SumOfFour(a, a, c, n - a - a - c);
  }

  lemma SumOfFour(a: int, b: int, c: int, d: int)
    ensures Sum([a, b, c, d]) == a + b + c + d
  {
    assert Init([a, b, c, d]) == [a, b, c] && Init([a, b, c]) == [a, b] && Init([a, b]) == [a];
    assert Sum([a]) == a;
    assert Sum([a, b]) == a + b;
    assert Sum([a, b, c]) == a + b + c;
  }

  datatype Money = Money(currency: Currency, cents: int)

  datatype PriceField = Number(cents: int) | Text

  datatype Record = Record(source: int, product: int, category: int, price: PriceField, currency: Currency)

  datatype Pair = Pair(source: int, product: int, category: int)

  /** A line of the dump; only malformed ones do not parse. */
  datatype Line = ValidLine(rec: Record) | InvalidLine(reason: Reason, content: string) | MalformedLine(text: string)

  function OfReason(reason: Reason): Line -> bool {
    (l: Line) => l.InvalidLine? && l.reason == reason
  }

  predicate IsInvalid(l: Line) { l.InvalidLine? }

  predicate IsMalformed(l: Line) { l.MalformedLine? }

  predicate Parses(l: Line) { !l.MalformedLine? }

  ghost function CountOf<T>(xs: seq<T>, p: T -> bool): nat {
    |Filter(xs, p)|
  }

  lemma CountAppend<T>(xs: seq<T>, ys: seq<T>, p: T -> bool)
    ensures CountOf(xs + ys, p) == CountOf(xs, p) + CountOf(ys, p)
  {
    FilterAppend(xs, ys, p);
  }

  lemma CountOne<T>(xs: seq<T>, x: T, p: T -> bool)
    ensures CountOf(xs + [x], p) == CountOf(xs, p) + if p(x) then 1 else 0
  {
    FilterAppend(xs, [x], p);
    FilterOne(x, p);
  }

  lemma TakeOut<T>(xs: seq<T>, j: nat)
    requires j < |xs|
    ensures multiset(xs[..j] + xs[j + 1..]) == multiset(xs) - multiset{xs[j]}
  {
    assert xs == xs[..j] + [xs[j]] + xs[j + 1..];
  }

  lemma CountTakeOut<T>(xs: seq<T>, j: nat, p: T -> bool)
    requires j < |xs|
    ensures CountOf(xs, p) == CountOf(xs[..j] + xs[j + 1..], p) + if p(xs[j]) then 1 else 0
  {
    hide CountOf;
    assert xs == xs[..j] + [xs[j]] + xs[j + 1..];
    CountAppend(xs[..j] + [xs[j]], xs[j + 1..], p);
    CountOne(xs[..j], xs[j], p);
    CountAppend(xs[..j], xs[j + 1..], p);
  }

  /** How many elements qualify does not depend on their order. */
  lemma {:induction false} CountPermuted<T>(xs: seq<T>, ys: seq<T>, p: T -> bool)
    requires multiset(xs) == multiset(ys)
    ensures CountOf(xs, p) == CountOf(ys, p)
    decreases |xs|
  {
    assert |multiset(xs)| == |multiset(ys)|;
    if |xs| > 0 {
      var n := |xs| - 1;
      assert xs[n] in multiset(ys);
      var j :| 0 <= j < |ys| && ys[j] == xs[n];
      hide CountOf;
      TakeOut(xs, n);
      TakeOut(ys, j);
      CountTakeOut(xs, n, p);
      CountTakeOut(ys, j, p);
      CountPermuted(xs[..n] + xs[n + 1..], ys[..j] + ys[j + 1..], p);
    }
  }

  /** Lines of exactly `counts` per reason and of nothing else. */
  ghost predicate Bucketed(lines: seq<Line>, counts: seq<int>) {
    && |counts| == |REASONS|
    && (forall l :: l in lines ==> l.InvalidLine?)
    && (forall i :: 0 <= i < |REASONS| ==> CountOf(lines, OfReason(REASONS[i])) == counts[i])
  }

  lemma BucketNext(lines: seq<Line>, k: nat, content: string, counts: seq<int>)
    requires k < |REASONS| && Bucketed(lines, counts)
    ensures Bucketed(lines + [InvalidLine(REASONS[k], content)], counts[k := counts[k] + 1])
  {
    var line := InvalidLine(REASONS[k], content);
    forall i | 0 <= i < |REASONS|
      ensures CountOf(lines + [line], OfReason(REASONS[i])) == counts[i] + if i == k then 1 else 0
    {
      CountOne(lines, line, OfReason(REASONS[i]));
    }
  }

  method ShareOut(n: nat) returns (counts: seq<int>)
    ensures counts == ReasonCounts(n)
  {
    counts := [];
    var dealt := 0;
    for i := 0 to |SHARES|
      invariant counts == ReasonCounts(n)[..i]
      invariant i < |SHARES| ==> dealt == Sum(counts)
    {
      assert Init(counts + [RoundHalfEven(n * SHARES[i].1, 10)]) == counts;
      if i < |SHARES| - 1 {
        var c := RoundHalfEven(n * SHARES[i].1, 10);
        counts := counts + [c];
        dealt := dealt + c;
      } else {
        BucketsShareOut(n);
        InitAppend(counts, n - dealt);
        assert Init(ReasonCounts(n)) == counts;
        counts := counts + [n - dealt];
      }
    }
  }

  /** The counts of the first `k` reasons, zero for the others. */
  ghost function Started(counts: seq<int>, k: nat): (r: seq<int>)
    ensures |r| == |counts|
  {
    seq(|counts|, i requires 0 <= i < |counts| => if i < k then counts[i] else 0)
  }

  /** The lines of one reason, appended to those of the reasons before it. */
  method AppendReason(lines: seq<Line>, k: nat, cnt: nat, content: (Reason, nat) -> string, ghost counts: seq<int>)
    returns (more: seq<Line>)
    requires k < |REASONS| == |counts| && Bucketed(lines, counts)
    ensures Bucketed(more, counts[k := counts[k] + cnt]) && |more| == |lines| + cnt
  {
    more := lines;
    hide CountOf, Bucketed;
    assert counts[k := counts[k] + 0] == counts;
    for i := 0 to cnt
      invariant Bucketed(more, counts[k := counts[k] + i])
      invariant |more| == |lines| + i
    {
      var line := InvalidLine(REASONS[k], content(REASONS[k], i));
      ghost var now := counts[k := counts[k] + i];
      BucketNext(more, k, line.content, now);
      assert now[k := now[k] + 1] == counts[k := counts[k] + (i + 1)];
      more := more + [line];
    }
  }

  lemma NothingBucketed()
    ensures Bucketed([], [0, 0, 0, 0])
  {
  }

  lemma StartedSteps(counts: seq<int>, k: nat)
    requires k < |counts| == 4
    ensures Started(counts, 0) == [0, 0, 0, 0] && Started(counts, 4) == counts
    ensures Started(counts, k)[k := Started(counts, k)[k] + counts[k]] == Started(counts, k + 1)
    ensures Sum(counts[..0]) == 0 && Sum(counts[..k + 1]) == Sum(counts[..k]) + counts[k] && counts[..4] == counts
  {
    assert Init(counts[..k + 1]) == counts[..k];
  }

  /** The invalid lines of a day with the count of each reason, in the reasons' order. */
  method GenerateInvalid(n: nat, content: (Reason, nat) -> string) returns (lines: seq<Line>, counts: seq<int>)
    ensures counts == ReasonCounts(n)
    ensures |lines| == n && Bucketed(lines, counts)
  {
    hide RoundHalfEven, ReasonCounts, CountOf, Bucketed, Started, Sum;
    lines := [];
    BucketsShareOut(n);
    NothingBucketed();
    counts := ReasonsOf(n);
    StartedSteps(counts, 0);
    if n > 0 {
      for k := 0 to |REASONS|
        invariant Bucketed(lines, Started(counts, k))
        invariant |lines| == Sum(counts[..k])
      {
        StartedSteps(counts, k);
        lines := AppendReason(lines, k, counts[k], content, Started(counts, k));
      }
    }
  }

  /** The counts alone: no share is computed for an empty day. */
  method ReasonsOf(n: nat) returns (counts: seq<int>)
    ensures |counts| == 4 && counts == ReasonCounts(n) && (n == 0 ==> counts == [0, 0, 0, 0])
  {
    if n == 0 {
      counts := [0, 0, 0, 0];
    } else {
      counts := ShareOut(n);
    }
  }

  // ----- Valid records and their books

  /** What is drawn for one valid record. */
  datatype Draw = Draw(pair: Pair, currency: Currency, cents: int)

  /** On the days of the string drift the price is a text. */
  function RecordOf(d: Draw, asText: bool): Record {
    Record(d.pair.source, d.pair.product, d.pair.category, if asText then Text else Number(d.cents), d.currency)
  }

  /** All draws of a day. Values in a stated range are taken modulo its size, so
      every value in the range can be drawn. */
  datatype Draws = Draws(t: int, prompt: nat -> Draw, pick: nat -> nat, late: nat -> Money,
                         content: (Reason, nat) -> string, order: nat -> seq<nat>, copy: nat -> nat,
                         noise: nat -> string, position: nat -> nat)

  ghost predicate InRange(d: Draws) {
    && (forall i :: 0 <= d.prompt(i).pair.category < N_CATEGORIES)
    && (forall n :: IsPermutation(d.order(n), n))
  }

  function LateDraw(d: Draws, prev: seq<Pair>, i: nat): Draw
    requires |prev| > 0
  {
    Draw(prev[d.pick(i) % |prev|], d.late(i).currency, d.late(i).cents)
  }

  ghost function PromptDraws(d: Draws, n: nat): (r: seq<Draw>)
    ensures |r| == n
  {
    seq(n, i requires i >= 0 => d.prompt(i))
  }

  /** Late repeats of yesterday's pairs; without a yesterday there is nothing to repeat. */
  ghost function LateDraws(d: Draws, n: nat, prev: seq<Pair>): (r: seq<Draw>)
    ensures |r| == if |prev| == 0 then 0 else n
  {
    if |prev| == 0 then [] else seq(n, i requires i >= 0 => LateDraw(d, prev, i))
  }

  /** The valid draws in list order. */
  ghost function ValidDraws(d: Draws, p: Plan, prev: seq<Pair>): seq<Draw>
    requires p.prompt >= 0 && p.late >= 0
  {
    PromptDraws(d, p.prompt) + LateDraws(d, p.late, prev)
  }

  datatype Stats = Stats(count: nat, cents: int)

  const NO_STATS: map<Currency, Stats> := map[USD := Stats(0, 0), EUR := Stats(0, 0), GBP := Stats(0, 0)]

  function InCurrency(c: Currency): Money -> bool {
    (x: Money) => x.currency == c
  }

  function CentsOf(x: Money): int { x.cents }

  ghost function StatsOf(prices: seq<Money>, c: Currency): Stats {
    Stats(CountOf(prices, InCurrency(c)), CentsIn(prices, c))
  }

  ghost function CentsIn(prices: seq<Money>, c: Currency): int {
    Sum(Map(Filter(prices, InCurrency(c)), CentsOf))
  }

  ghost predicate Booked(stats: map<Currency, Stats>, prices: seq<Money>) {
    forall c: Currency :: c in stats && stats[c] == StatsOf(prices, c)
  }

  lemma CentsNext(prices: seq<Money>, x: Money, c: Currency)
    ensures CentsIn(prices + [x], c) == CentsIn(prices, c) + if x.currency == c then x.cents else 0
  {
    FilterAppend(prices, [x], InCurrency(c));
    FilterOne(x, InCurrency(c));
    var kept := Filter(prices, InCurrency(c));
    hide Filter;
    if x.currency == c {
      MapAppend(kept, x, CentsOf);
      InitAppend(Map(kept, CentsOf), x.cents);
    } else {
      assert kept + [] == kept;
    }
  }

  lemma StatsNext(prices: seq<Money>, x: Money, c: Currency)
    ensures StatsOf(prices + [x], c)
         == var had := StatsOf(prices, c);
            if x.currency == c then Stats(had.count + 1, had.cents + x.cents) else had
  {
    hide CentsIn, CountOf;
    CountOne(prices, x, InCurrency(c));
    CentsNext(prices, x, c);
  }

  lemma BookNext(stats: map<Currency, Stats>, prices: seq<Money>, x: Money)
    requires Booked(stats, prices)
    ensures Booked(stats[x.currency := Stats(stats[x.currency].count + 1, stats[x.currency].cents + x.cents)], prices + [x])
  {
    hide StatsOf;
    forall c: Currency ensures StatsOf(prices + [x], c)
         == (if x.currency == c then Stats(stats[c].count + 1, stats[c].cents + x.cents) else stats[c])
    {
      StatsNext(prices, x, c);
    }
  }

  lemma NothingBooked()
    ensures Booked(NO_STATS, [])
  {
    forall c: Currency ensures c in NO_STATS && NO_STATS[c] == StatsOf([], c) {
      assert c == USD || c == EUR || c == GBP;
    }
  }

  method BookPrices(prices: seq<Money>) returns (stats: map<Currency, Stats>)
    ensures Booked(stats, prices)
  {
    stats := NO_STATS;
    NothingBooked();
    for i := 0 to |prices|
      invariant Booked(stats, prices[..i])
    {
      BookNext(stats, prices[..i], prices[i]);
      assert prices[..i + 1] == prices[..i] + [prices[i]];
      stats := stats[prices[i].currency := Stats(stats[prices[i].currency].count + 1, stats[prices[i].currency].cents + prices[i].cents)];
    }
    assert prices[..|prices|] == prices;
  }

  /** The currencies share out the records and the money between them. */
  lemma {:induction false} BooksConserve(stats: map<Currency, Stats>, prices: seq<Money>)
    requires Booked(stats, prices)
    ensures stats[USD].count + stats[EUR].count + stats[GBP].count == |prices|
    ensures stats[USD].cents + stats[EUR].cents + stats[GBP].cents == Sum(Map(prices, CentsOf))
  {
    hide StatsOf;
    ConserveAll(prices);
  }

  lemma {:induction false} ConserveAll(prices: seq<Money>)
    ensures StatsOf(prices, USD).count + StatsOf(prices, EUR).count + StatsOf(prices, GBP).count == |prices|
    ensures StatsOf(prices, USD).cents + StatsOf(prices, EUR).cents + StatsOf(prices, GBP).cents == Sum(Map(prices, CentsOf))
  {
    if |prices| > 0 {
      var xs, x := Init(prices), Last(prices);
      InitLast(prices);
      ConserveAll(xs);
      StatsNext(xs, x, USD);
      StatsNext(xs, x, EUR);
      StatsNext(xs, x, GBP);
      MapAppend(xs, x, CentsOf);
      InitAppend(Map(xs, CentsOf), x.cents);
      hide StatsOf;
    }
  }

  // ----- One day

  function PairOf(d: Draw): Pair { d.pair }

  function PriceOf(d: Draw): Money { Money(d.currency, d.cents) }

  function Recorder(asText: bool): Draw -> Record {
    (d: Draw) => RecordOf(d, asText)
  }

  function ValidLineOf(d: Draw, asText: bool): Line {
    ValidLine(RecordOf(d, asText))
  }

  function AsLine(asText: bool): Draw -> Line {
    (d: Draw) => ValidLineOf(d, asText)
  }

  /** Three parallel lists hold the records, the pairs and the prices of the draws. */
  ghost predicate Listed(recs: seq<Record>, pairs: seq<Pair>, prices: seq<Money>, draws: seq<Draw>, asText: bool) {
    recs == Map(draws, Recorder(asText)) && pairs == Map(draws, PairOf) && prices == Map(draws, PriceOf)
  }

  lemma ListNext(recs: seq<Record>, pairs: seq<Pair>, prices: seq<Money>, draws: seq<Draw>, i: nat, asText: bool)
    requires i < |draws| && Listed(recs, pairs, prices, draws[..i], asText)
    ensures Listed(recs + [RecordOf(draws[i], asText)], pairs + [PairOf(draws[i])], prices + [PriceOf(draws[i])],
                   draws[..i + 1], asText)
  {
    assert draws[..i + 1] == draws[..i] + [draws[i]];
    MapAppend(draws[..i], draws[i], Recorder(asText));
    MapAppend(draws[..i], draws[i], PairOf);
    MapAppend(draws[..i], draws[i], PriceOf);
  }

  lemma NothingListed(draws: seq<Draw>, asText: bool)
    ensures Listed([], [], [], draws[..0], asText)
  {
  }

  method GeneratePrompt(n: nat, d: Draws, asText: bool)
    returns (recs: seq<Record>, pairs: seq<Pair>, prices: seq<Money>)
    ensures Listed(recs, pairs, prices, PromptDraws(d, n), asText)
  {
    hide Listed, RecordOf, Map;
    recs, pairs, prices := [], [], [];
    ghost var draws := PromptDraws(d, n);
    NothingListed(draws, asText);
    for i := 0 to n
      invariant Listed(recs, pairs, prices, draws[..i], asText)
    {
      var x := d.prompt(i);
      ListNext(recs, pairs, prices, draws, i, asText);
      recs, pairs, prices := recs + [RecordOf(x, asText)], pairs + [PairOf(x)], prices + [PriceOf(x)];
    }
    assert draws[..n] == draws;
  }

  method GenerateLate(n: nat, d: Draws, prev: seq<Pair>, asText: bool)
    returns (recs: seq<Record>, pairs: seq<Pair>, prices: seq<Money>)
    ensures Listed(recs, pairs, prices, LateDraws(d, n, prev), asText)
  {
    hide Listed, RecordOf, Map, LateDraw;
    recs, pairs, prices := [], [], [];
    ghost var draws := LateDraws(d, n, prev);
    NothingListed(draws, asText);
    if n == 0 || |prev| == 0 {
      assert draws[..0] == draws;
      return;
    }
    for i := 0 to n
      invariant Listed(recs, pairs, prices, draws[..i], asText)
    {
      var x := LateDraw(d, prev, i);
      ListNext(recs, pairs, prices, draws, i, asText);
      recs, pairs, prices := recs + [RecordOf(x, asText)], pairs + [PairOf(x)], prices + [PriceOf(x)];
    }
    assert draws[..n] == draws;
  }

  lemma ListBoth(recs: seq<Record>, pairs: seq<Pair>, prices: seq<Money>, draws: seq<Draw>,
                 recs': seq<Record>, pairs': seq<Pair>, prices': seq<Money>, draws': seq<Draw>, asText: bool)
    requires Listed(recs, pairs, prices, draws, asText) && Listed(recs', pairs', prices', draws', asText)
    ensures Listed(recs + recs', pairs + pairs', prices + prices', draws + draws', asText)
  {
    MapConcat(draws, draws', Recorder(asText));
    MapConcat(draws, draws', PairOf);
    MapConcat(draws, draws', PriceOf);
  }

  /** The parallel lists of a day's valid records. */
  method GenerateValid(d: Draws, p: Plan, prev: seq<Pair>, asText: bool)
    returns (recs: seq<Record>, pairs: seq<Pair>, prices: seq<Money>)
    requires p.prompt >= 0 && p.late >= 0
    ensures Listed(recs, pairs, prices, ValidDraws(d, p, prev), asText)
  {
    hide Listed, Map;
    recs, pairs, prices := GeneratePrompt(p.prompt, d, asText);
    var lateRecs, latePairs, latePrices := GenerateLate(p.late, d, prev, asText);
    ListBoth(recs, pairs, prices, PromptDraws(d, p.prompt),
             lateRecs, latePairs, latePrices, LateDraws(d, p.late, prev), asText);
    recs, pairs, prices := recs + lateRecs, pairs + latePairs, prices + latePrices;
  }

  datatype DayFile = DayFile(base: seq<Line>, copies: seq<Line>, malformed: seq<Line>, lines: seq<Line>)

  datatype Report = Report(total: nat, malformed: int, parseable: int, duplicates: int,
                           invalid: int, reasons: seq<int>, valid: int, late: int)

  /** Valid and invalid lines in a drawn order. */
  method Shuffle(lines: seq<Line>, order: seq<nat>) returns (base: seq<Line>)
    requires IsPermutation(order, |lines|)
    ensures multiset(base) == multiset(lines) && |base| == |lines|
  {
    base := seq(|lines|, i requires 0 <= i < |lines| => lines[order[i]]);
    GatherContents(lines, order);
    assert base == Gather(lines, order);
  }

  method CopyLines(base: seq<Line>, n: nat, pick: nat -> nat) returns (copies: seq<Line>)
    ensures |copies| == if |base| == 0 then 0 else n
    ensures forall l :: l in copies ==> l in base
  {
    copies := [];
    if n > 0 && |base| > 0 {
      copies := seq(n, i requires i >= 0 => base[pick(i) % |base|]);
    }
  }

  method GenerateMalformed(n: nat, noise: nat -> string) returns (lines: seq<Line>)
    ensures |lines| == n && forall l :: l in lines ==> l.MalformedLine?
  {
    lines := [];
    for i := 0 to n
      invariant |lines| == i && forall l :: l in lines ==> l.MalformedLine?
    {
      lines := lines + [MalformedLine(noise(i))];
    }
  }

  lemma SpliceContents<T>(xs: seq<T>, at: nat, x: T)
    requires at <= |xs|
    ensures multiset(Splice(xs, at, x)) == multiset(xs) + multiset{x}
  {
    assert xs == xs[..at] + xs[at..];
  }

  method InsertAnywhere(lines: seq<Line>, extra: seq<Line>, position: nat -> nat) returns (all: seq<Line>)
    ensures multiset(all) == multiset(lines) + multiset(extra) && |all| == |lines| + |extra|
  {
    all := lines;
    for i := 0 to |extra|
      invariant multiset(all) == multiset(lines) + multiset(extra[..i]) && |all| == |lines| + i
    {
      var at := position(i) % (|all| + 1);
      SpliceContents(all, at, extra[i]);
      assert extra[..i + 1] == extra[..i] + [extra[i]];
      hide Splice;
      all := Splice(all, at, extra[i]);
    }
    assert extra[..|extra|] == extra;
  }

  /** The lists of a day as the plan wants them, except that the valid ones are as
      many as were drawn. */
  ghost predicate Built(file: DayFile, p: Plan, valid: seq<Line>)
    requires p.invalid >= 0
  {
    && multiset(file.lines) == multiset(file.base) + multiset(file.copies) + multiset(file.malformed)
    && |file.lines| == |file.base| + |file.copies| + |file.malformed|
    && (exists invalid :: Bucketed(invalid, ReasonCounts(p.invalid)) && |invalid| == p.invalid
                          && multiset(file.base) == multiset(valid) + multiset(invalid)
                          && |file.base| == |valid| + |invalid|)
    && |file.copies| == (if |file.base| == 0 then 0 else p.duplicates)
    && (forall l :: l in file.copies ==> l in file.base)
    && |file.malformed| == p.malformed
    && (forall l :: l in file.malformed ==> l.MalformedLine?)
  }

  function ReportOf(file: DayFile, p: Plan): Report
    requires p.invalid >= 0
  {
    Report(|file.lines|, p.malformed, |file.lines| - p.malformed, p.duplicates,
           p.invalid, ReasonCounts(p.invalid), p.valid, p.late)
  }

  function LinesWanted(d: Draws): nat {
    if d.t < MIN_LINES then MIN_LINES else d.t
  }

  method BuildFile(d: Draws, p: Plan, valid: seq<Line>) returns (file: DayFile, reasons: seq<int>)
    requires InRange(d) && p.invalid >= 0 && p.duplicates >= 0 && p.malformed >= 0
    ensures Built(file, p, valid) && reasons == ReasonCounts(p.invalid)
  {
    hide ReasonCounts, Bucketed;
    var invalid;
    invalid, reasons := GenerateInvalid(p.invalid, d.content);
    var base := Shuffle(valid + invalid, d.order(|valid + invalid|));
    var copies := CopyLines(base, p.duplicates, d.copy);
    var malformed := GenerateMalformed(p.malformed, d.noise);
    var all := InsertAnywhere(base, copies, d.position);
    all := InsertAnywhere(all, malformed, i requires i >= 0 => d.position(|copies| + i));
    file := DayFile(base, copies, malformed, all);
  }

  method GenerateDay(day: nat, d: Draws, prev: seq<Pair>, asText: bool)
    returns (file: DayFile, report: Report, pairs: seq<Pair>, mart: map<Currency, Stats>, perCurrency: map<Currency, Stats>)
    requires InRange(d)
    ensures var p := PlanOf(LinesWanted(d), day);
            && p.prompt >= 0 && p.late >= 0 && p.invalid >= 0
            && var draws := ValidDraws(d, p, prev);
               && Built(file, p, Map(draws, AsLine(asText)))
               && report == ReportOf(file, p)
               && pairs == Map(draws, PairOf)
               && Booked(perCurrency, Map(draws, PriceOf))
               && MartOf(mart, perCurrency, asText)
  {
    var p := PlanOf(LinesWanted(d), day);
    PlanFeasible(LinesWanted(d), day);
    hide PlanOf, Built, Booked, ValidDraws, ReasonCounts;
    var recs, prices;
    recs, pairs, prices := GenerateValid(d, p, prev, asText);
    ghost var draws := ValidDraws(d, p, prev);
    mart := BookMart(recs, asText, draws);
    perCurrency := BookPrices(prices);
    MartAgrees(mart, perCurrency, draws, asText);
    var valid := LinesOf(recs, asText, draws);
    var reasons;
    file, reasons := BuildFile(d, p, valid);
    report := Report(|file.lines|, p.malformed, |file.lines| - p.malformed, p.duplicates,
                     p.invalid, reasons, p.valid, p.late);
  }

  method LinesOf(recs: seq<Record>, asText: bool, ghost draws: seq<Draw>) returns (lines: seq<Line>)
    requires recs == Map(draws, Recorder(asText))
    ensures lines == Map(draws, AsLine(asText))
  {
    lines := seq(|recs|, i requires 0 <= i < |recs| => ValidLine(recs[i]));
  }

  // ----- The second set of books, read back from the lines

  function MartPriceOf(d: Draw, asText: bool): Money {
    Money(d.currency, if asText then 0 else d.cents)
  }

  function MartPricer(asText: bool): Draw -> Money {
    (d: Draw) => MartPriceOf(d, asText)
  }

  lemma MartNext(stats: map<Currency, Stats>, draws: seq<Draw>, i: nat, asText: bool)
    requires i < |draws| && Booked(stats, Map(draws[..i], MartPricer(asText)))
    ensures var x := MartPriceOf(draws[i], asText);
            x.currency in stats
            && Booked(stats[x.currency := Stats(stats[x.currency].count + 1, stats[x.currency].cents + x.cents)],
                      Map(draws[..i + 1], MartPricer(asText)))
  {
    assert draws[..i + 1] == draws[..i] + [draws[i]];
    MapAppend(draws[..i], draws[i], MartPricer(asText));
    BookNext(stats, Map(draws[..i], MartPricer(asText)), MartPriceOf(draws[i], asText));
    hide StatsOf;
  }

  lemma NothingMarted(draws: seq<Draw>, asText: bool)
    ensures Booked(NO_STATS, Map(draws[..0], MartPricer(asText)))
  {
    NothingBooked();
    MapEmpty(MartPricer(asText));
  }

  /** Counts per currency; the sums only grow where the price is a number. */
  method BookMart(recs: seq<Record>, asText: bool, ghost draws: seq<Draw>) returns (stats: map<Currency, Stats>)
    requires recs == Map(draws, Recorder(asText))
    ensures Booked(stats, Map(draws, MartPricer(asText)))
  {
    stats := NO_STATS;
    NothingMarted(draws, asText);
    hide Booked;
    for i := 0 to |recs|
      invariant Booked(stats, Map(draws[..i], MartPricer(asText)))
    {
      MartNext(stats, draws, i, asText);
      var rec := recs[i];
      var had := stats[rec.currency];
      stats := stats[rec.currency := Stats(had.count + 1, had.cents + if asText then 0 else rec.price.cents)];
    }
    assert draws[..|recs|] == draws;
  }

  lemma BookedAt(stats: map<Currency, Stats>, prices: seq<Money>, c: Currency)
    requires Booked(stats, prices)
    ensures c in stats && stats[c] == StatsOf(prices, c)
  {
  }

  /** The two sets of books agree on every count, and on the sums where prices are numbers. */
  ghost predicate MartOf(mart: map<Currency, Stats>, perCurrency: map<Currency, Stats>, asText: bool) {
    forall c: Currency ::
      && c in mart && c in perCurrency
      && mart[c] == if asText then Stats(perCurrency[c].count, 0) else perCurrency[c]
  }

  lemma MartAgrees(mart: map<Currency, Stats>, perCurrency: map<Currency, Stats>, draws: seq<Draw>, asText: bool)
    requires Booked(mart, Map(draws, MartPricer(asText))) && Booked(perCurrency, Map(draws, PriceOf))
    ensures MartOf(mart, perCurrency, asText)
  {
    forall c: Currency
      ensures c in mart && c in perCurrency
      ensures mart[c] == if asText then Stats(perCurrency[c].count, 0) else perCurrency[c]
    {
      BookedAt(mart, Map(draws, MartPricer(asText)), c);
      BookedAt(perCurrency, Map(draws, PriceOf), c);
      SameBooks(draws, asText, c);
    }
  }

  lemma {:induction false} SameBooks(draws: seq<Draw>, asText: bool, c: Currency)
    ensures StatsOf(Map(draws, MartPricer(asText)), c)
         == var all := StatsOf(Map(draws, PriceOf), c);
            if asText then Stats(all.count, 0) else all
  {
    if |draws| > 0 {
      var xs, x := Init(draws), Last(draws);
      InitLast(draws);
      SameBooks(xs, asText, c);
      MapAppend(xs, x, MartPricer(asText));
      MapAppend(xs, x, PriceOf);
      StatsNext(Map(xs, MartPricer(asText)), MartPriceOf(x, asText), c);
      StatsNext(Map(xs, PriceOf), PriceOf(x), c);
      hide StatsOf;
    }
  }

  // ----- What the report says is true of the file

  lemma AllCount<T>(xs: seq<T>, p: T -> bool)
    requires forall x :: x in xs ==> p(x)
    ensures CountOf(xs, p) == |xs|
  {
    FilterAll(xs, p);
  }

  lemma NoneCount<T>(xs: seq<T>, p: T -> bool)
    requires forall x :: x in xs ==> !p(x)
    ensures CountOf(xs, p) == 0
  {
    FilterNone(xs, p);
  }

  lemma BuiltCounts(file: DayFile, p: Plan, valid: seq<Line>, q: Line -> bool)
    requires p.invalid >= 0 && Built(file, p, valid)
    ensures CountOf(file.lines, q) == CountOf(file.base, q) + CountOf(file.copies, q) + CountOf(file.malformed, q)
  {
    hide CountOf, Bucketed, ReasonCounts;
    CountAppend(file.base, file.copies, q);
    CountAppend(file.base + file.copies, file.malformed, q);
    CountPermuted(file.lines, file.base + file.copies + file.malformed, q);
  }

  predicate IsValid(l: Line) { l.ValidLine? }

  lemma BaseCounts(file: DayFile, p: Plan, valid: seq<Line>, i: nat)
    requires p.invalid >= 0 && Built(file, p, valid) && i < |REASONS|
    requires forall l :: l in valid ==> l.ValidLine?
    ensures CountOf(file.base, IsValid) == |valid| && CountOf(file.base, IsInvalid) == p.invalid
    ensures CountOf(file.base, OfReason(REASONS[i])) == ReasonCounts(p.invalid)[i]
    ensures forall l :: l in file.base ==> !l.MalformedLine?
  {
    hide CountOf, ReasonCounts;
    var invalid: seq<Line> :| Bucketed(invalid, ReasonCounts(p.invalid)) && |invalid| == p.invalid
                   && multiset(file.base) == multiset(valid) + multiset(invalid)
                   && |file.base| == |valid| + |invalid|;
    BaseCount(file.base, valid, invalid, IsValid);
    BaseCount(file.base, valid, invalid, IsInvalid);
    BaseCount(file.base, valid, invalid, OfReason(REASONS[i]));
    AllCount(valid, IsValid);
    NoneCount(invalid, IsValid);
    NoneCount(valid, IsInvalid);
    AllCount(invalid, IsInvalid);
    NoneCount(valid, OfReason(REASONS[i]));
    forall l | l in file.base ensures !l.MalformedLine? {
      assert l in multiset(file.base);
      assert l in multiset(valid) || l in multiset(invalid);
      assert l in valid || l in invalid;
    }
  }

  lemma BaseCount(base: seq<Line>, valid: seq<Line>, invalid: seq<Line>, q: Line -> bool)
    requires multiset(base) == multiset(valid) + multiset(invalid)
    ensures CountOf(base, q) == CountOf(valid, q) + CountOf(invalid, q)
  {
    hide CountOf;
    CountAppend(valid, invalid, q);
    CountPermuted(base, valid + invalid, q);
  }

  lemma KindCounts(file: DayFile, p: Plan, valid: seq<Line>)
    requires p.invalid >= 0 && Built(file, p, valid)
    requires forall l :: l in valid ==> l.ValidLine?
    ensures CountOf(file.lines, IsMalformed) == |file.malformed|
    ensures CountOf(file.lines, Parses) == |file.base| + |file.copies|
  {
    BaseCounts(file, p, valid, 0);
    BuiltCounts(file, p, valid, IsMalformed);
    BuiltCounts(file, p, valid, Parses);
    hide CountOf, ReasonCounts;
    NoneCount(file.base, IsMalformed);
    NoneCount(file.copies, IsMalformed);
    AllCount(file.malformed, IsMalformed);
    AllCount(file.base, Parses);
    AllCount(file.copies, Parses);
    NoneCount(file.malformed, Parses);
  }

  /** Every figure of the report is what a count over the lines gives. */
  ghost predicate Truthful(file: DayFile, r: Report) {
    && r.total == |file.lines| == r.valid + r.invalid + r.duplicates + r.malformed
    && r.malformed == CountOf(file.lines, IsMalformed)
    && r.parseable == CountOf(file.lines, Parses) == r.valid + r.invalid + r.duplicates
    && r.valid == CountOf(file.base, IsValid)
    && r.invalid == CountOf(file.base, IsInvalid) == Sum(r.reasons)
    && |r.reasons| == |REASONS|
    && (forall i :: 0 <= i < |REASONS| ==> r.reasons[i] == CountOf(file.base, OfReason(REASONS[i])))
    && r.duplicates == |file.copies|
    && (forall l :: l in file.copies ==> l in file.base)
    && 0 <= r.late <= r.valid
  }

  lemma ReasonsCounted(file: DayFile, p: Plan, valid: seq<Line>)
    requires p.invalid >= 0 && Built(file, p, valid)
    requires forall l :: l in valid ==> l.ValidLine?
    ensures forall i :: 0 <= i < |REASONS| ==> ReasonCounts(p.invalid)[i] == CountOf(file.base, OfReason(REASONS[i]))
    ensures Sum(ReasonCounts(p.invalid)) == p.invalid
  {
    hide CountOf, Built, ReasonCounts;
    forall i | 0 <= i < |REASONS| ensures ReasonCounts(p.invalid)[i] == CountOf(file.base, OfReason(REASONS[i])) {
      BaseCounts(file, p, valid, i);
    }
    BucketsShareOut(p.invalid);
  }

  /** The report of a file built around some valid lines is true exactly when there
      are as many of them as planned. */
  lemma TruthfulIffAllValid(file: DayFile, total: nat, day: nat, valid: seq<Line>)
    requires var p := PlanOf(total, day); p.invalid >= 0 && Built(file, p, valid)
    requires forall l :: l in valid ==> l.ValidLine?
    requires valid != []
    ensures Truthful(file, ReportOf(file, PlanOf(total, day))) <==> |valid| == PlanOf(total, day).valid
  {
    var p := PlanOf(total, day);
    PlanFeasible(total, day);
    BaseCounts(file, p, valid, 0);
    KindCounts(file, p, valid);
    ReasonsCounted(file, p, valid);
    assert |file.base| == |valid| + p.invalid && |file.copies| == p.duplicates && |file.malformed| == p.malformed;
    assert |file.lines| == |file.base| + |file.copies| + |file.malformed|;
    hide PlanOf, CountOf, ReasonCounts, Sum, Built;
  }

  /** The report of a day is true of its file exactly when the day needs no late
      records or has a day before it with records to repeat. */
  lemma ReportTruthfulIff(day: nat, d: Draws, prev: seq<Pair>, asText: bool, file: DayFile)
    requires var p := PlanOf(LinesWanted(d), day);
             && p.prompt >= 0 && p.late >= 0 && p.invalid >= 0
             && Built(file, p, Map(ValidDraws(d, p, prev), AsLine(asText)))
    ensures var p := PlanOf(LinesWanted(d), day);
            && (Truthful(file, ReportOf(file, p)) <==> p.late == 0 || prev != [])
            && (Truthful(file, ReportOf(file, p)) ==> |file.lines| == LinesWanted(d))
  {
    var p := PlanOf(LinesWanted(d), day);
    var valid := Map(ValidDraws(d, p, prev), AsLine(asText));
    PlanFeasible(LinesWanted(d), day);
    hide PlanOf, Truthful, Built;
    TruthfulIffAllValid(file, LinesWanted(d), day, valid);
    TruthfulTotal(file, LinesWanted(d), day);
  }

  lemma TruthfulTotal(file: DayFile, total: nat, day: nat)
    requires PlanOf(total, day).invalid >= 0
    ensures Truthful(file, ReportOf(file, PlanOf(total, day))) ==> |file.lines| == total
  {
    hide CountOf, ReasonCounts, Sum, RoundHalfEven;
    PlanFeasible(total, day);
  }

  // ----- The whole run

  const TEXT_FROM := 11

  function InCategory(c: int): Pair -> bool {
    (x: Pair) => x.category == c
  }

  /** Every pair is counted under its category, and nowhere else. */
  ghost predicate Counted(counts: seq<int>, pairs: seq<Pair>) {
    && |counts| == N_CATEGORIES
    && (forall c :: 0 <= c < N_CATEGORIES ==> counts[c] == CountOf(pairs, InCategory(c)))
    && Sum(counts) == |pairs|
  }

  /** The pairs of all days, one day after another. */
  ghost function Joined(dayPairs: seq<seq<Pair>>): seq<Pair> {
    if |dayPairs| == 0 then [] else Joined(Init(dayPairs)) + Last(dayPairs)
  }

  ghost predicate Categorised(pairs: seq<Pair>) {
    forall x :: x in pairs ==> 0 <= x.category < N_CATEGORIES
  }

  lemma CountedNext(counts: seq<int>, pairs: seq<Pair>, x: Pair)
    requires Counted(counts, pairs) && 0 <= x.category < N_CATEGORIES
    ensures Counted(counts[x.category := counts[x.category] + 1], pairs + [x])
  {
    SumUpdate(counts, x.category, counts[x.category] + 1);
    forall c | 0 <= c < N_CATEGORIES
      ensures CountOf(pairs + [x], InCategory(c)) == CountOf(pairs, InCategory(c)) + if c == x.category then 1 else 0
    {
      CountOne(pairs, x, InCategory(c));
    }
    hide CountOf, Sum;
  }

  method CountCategories(counts: seq<int>, pairs: seq<Pair>, ghost earlier: seq<Pair>) returns (more: seq<int>)
    requires Counted(counts, earlier) && Categorised(pairs)
    ensures Counted(more, earlier + pairs)
  {
    more := counts;
    assert earlier + pairs[..0] == earlier;
    hide Counted;
    for i := 0 to |pairs|
      invariant Counted(more, earlier + pairs[..i]) && |more| == N_CATEGORIES
    {
      var x := pairs[i];
      assert x in pairs;
      CountedNext(more, earlier + pairs[..i], x);
      assert earlier + pairs[..i + 1] == earlier + pairs[..i] + [x];
      more := more[x.category := more[x.category] + 1];
    }
    assert pairs[..|pairs|] == pairs;
  }

  lemma NothingCounted()
    ensures Counted(seq(N_CATEGORIES, _ => 0), [])
  {
    SumZero(seq(N_CATEGORIES, _ => 0));
  }

  lemma {:induction false} SumZero(xs: seq<int>)
    requires forall i :: 0 <= i < |xs| ==> xs[i] == 0
    ensures Sum(xs) == 0
  {
    if |xs| > 0 {
      SumZero(Init(xs));
    }
  }

  /** The last `late` pairs of a day are pairs of the day before. */
  ghost predicate LateFrom(pairs: seq<Pair>, late: int, prev: seq<Pair>) {
    && 0 <= late <= |pairs|
    && forall i :: |pairs| - late <= i < |pairs| ==> pairs[i] in prev
  }

  lemma PairsOfDay(d: Draws, p: Plan, prev: seq<Pair>)
    requires InRange(d) && Categorised(prev) && p.prompt >= 0 && p.late >= 0
    requires p.late == 0 || prev != []
    ensures var pairs := Map(ValidDraws(d, p, prev), PairOf);
            Categorised(pairs) && |pairs| == p.prompt + p.late && LateFrom(pairs, p.late, prev)
  {
    var draws := ValidDraws(d, p, prev);
    var pairs := Map(draws, PairOf);
    assert |draws| == p.prompt + p.late;
    hide ValidDraws, InRange, Map;
    forall i | 0 <= i < |draws|
      ensures pairs[i] == draws[i].pair && 0 <= pairs[i].category < N_CATEGORIES && (i >= p.prompt ==> pairs[i] in prev)
    {
      PairOfDay(d, p, prev, i);
    }
  }

  lemma PairOfDay(d: Draws, p: Plan, prev: seq<Pair>, i: nat)
    requires InRange(d) && Categorised(prev) && p.prompt >= 0 && p.late >= 0 && i < |ValidDraws(d, p, prev)|
    ensures var x := ValidDraws(d, p, prev)[i];
            0 <= x.pair.category < N_CATEGORIES && (i >= p.prompt ==> x.pair in prev)
  {
    var draws := ValidDraws(d, p, prev);
    if i < p.prompt {
      assert draws[i] == d.prompt(i);
    } else {
      assert draws[i] == LateDraw(d, prev, i - p.prompt);
    }
  }

  function ValidIn(r: Report): int { r.valid }

  function ValidOf(c: int): Line -> bool {
    (l: Line) => l.ValidLine? && l.rec.category == c
  }

  /** The pairs are of the categories of the valid lines, as often as these occur. */
  ghost predicate PairsOfLines(file: DayFile, pairs: seq<Pair>) {
    forall c :: CountOf(pairs, InCategory(c)) == CountOf(file.base, ValidOf(c))
  }

  lemma {:induction false} SameCategories(draws: seq<Draw>, asText: bool, c: int)
    ensures CountOf(Map(draws, PairOf), InCategory(c)) == CountOf(Map(draws, AsLine(asText)), ValidOf(c))
  {
    if |draws| > 0 {
      InitLast(draws);
      SameCategories(Init(draws), asText, c);
      MapAppend(Init(draws), Last(draws), PairOf);
      MapAppend(Init(draws), Last(draws), AsLine(asText));
      CountOne(Map(Init(draws), PairOf), PairOf(Last(draws)), InCategory(c));
      CountOne(Map(Init(draws), AsLine(asText)), ValidLineOf(Last(draws), asText), ValidOf(c));
      hide CountOf;
    }
  }

  lemma PairsAreOfLines(file: DayFile, p: Plan, draws: seq<Draw>, asText: bool)
    requires p.invalid >= 0 && Built(file, p, Map(draws, AsLine(asText)))
    ensures PairsOfLines(file, Map(draws, PairOf))
  {
    var valid := Map(draws, AsLine(asText));
    var invalid: seq<Line> :| Bucketed(invalid, ReasonCounts(p.invalid)) && |invalid| == p.invalid
                   && multiset(file.base) == multiset(valid) + multiset(invalid)
                   && |file.base| == |valid| + |invalid|;
    assert forall l: Line :: l in invalid ==> l.InvalidLine?;
    hide CountOf, ReasonCounts, Bucketed, Built, Map;
    forall c ensures CountOf(Map(draws, PairOf), InCategory(c)) == CountOf(file.base, ValidOf(c)) {
      SameCategories(draws, asText, c);
      BaseCount(file.base, valid, invalid, ValidOf(c));
      NoneCount(invalid, ValidOf(c));
    }
  }

  /** 0.4 % of the lines are malformed and 2 % duplicates, 1 % of the other records are
      invalid, and from the second day on 3 % of the valid ones late: each count within
      half a record of its share. Of the invalid records 30 % have no URL, 30 % a bad price
      and 20 % an unknown currency, again within a half, and the rest a bad time. */
  ghost predicate AtRates(file: DayFile, r: Report, day: nat) {
    && -500 <= 1000 * r.malformed - 4 * r.total <= 500
    && -50 <= 100 * r.duplicates - 2 * r.total <= 50
    && -50 <= 100 * r.invalid - (r.valid + r.invalid) <= 50
    && (day == 0 ==> r.late == 0)
    && (day > 0 ==> -50 <= 100 * r.late - 3 * r.valid <= 50)
    && -5 <= 10 * CountOf(file.base, OfReason(MissingUrl)) - 3 * r.invalid <= 5
    && -5 <= 10 * CountOf(file.base, OfReason(BadPrice)) - 3 * r.invalid <= 5
    && -5 <= 10 * CountOf(file.base, OfReason(UnknownCurrency)) - 2 * r.invalid <= 5
    && -15 <= 10 * CountOf(file.base, OfReason(BadTimestamp)) - 2 * r.invalid <= 15
  }

  /** The planned counts are the rates' shares of the lines, rounded. */
  lemma PlanRates(total: int, day: nat)
    ensures var p := PlanOf(total, day);
            && -500 <= 1000 * p.malformed - 4 * total <= 500
            && -50 <= 100 * p.duplicates - 2 * total <= 50
            && -50 <= 100 * p.invalid - (p.valid + p.invalid) <= 50
            && (day == 0 ==> p.late == 0)
            && (day > 0 ==> -50 <= 100 * p.late - 3 * p.valid <= 50)
  {
    hide RoundHalfEven;
    var p := PlanOf(total, day);
    RoundError(total * 4, 1000);
    RoundError(total * 2, 100);
    RoundError(p.invalid + p.valid, 100);
    RoundError(p.valid * 3, 100);
  }

  /** So are the counts of the reasons. */
  lemma ReasonRates(n: nat)
    ensures var c := ReasonCounts(n);
            && -5 <= 10 * c[0] - 3 * n <= 5
            && -5 <= 10 * c[1] - 3 * n <= 5
            && -5 <= 10 * c[2] - 2 * n <= 5
            && -15 <= 10 * c[3] - 2 * n <= 15
  {
    BucketsShareOut(n);
    hide ReasonCounts, Sum;
    var c := ReasonCounts(n);
    assert SHARES[0].1 == 3 && SHARES[1].1 == 3 && SHARES[2].1 == 2 && SHARES[3].1 == 2;
    assert Abs(10 * c[0] - n * 3) <= 5 && Abs(10 * c[1] - n * 3) <= 5;
    assert Abs(10 * c[2] - n * 2) <= 5 && Abs(10 * c[3] - n * 2) <= 15;
  }

  lemma ReasonsOfReport(file: DayFile, r: Report)
    requires Truthful(file, r)
    ensures r.reasons[0] == CountOf(file.base, OfReason(MissingUrl))
    ensures r.reasons[1] == CountOf(file.base, OfReason(BadPrice))
    ensures r.reasons[2] == CountOf(file.base, OfReason(UnknownCurrency))
    ensures r.reasons[3] == CountOf(file.base, OfReason(BadTimestamp))
  {
    hide CountOf;
    assert REASONS[0] == MissingUrl && REASONS[1] == BadPrice && REASONS[2] == UnknownCurrency && REASONS[3] == BadTimestamp;
  }

  /** Truthful reports with the planned figures meet the rates. */
  lemma RatesMet(file: DayFile, total: nat, day: nat)
    requires PlanOf(total, day).invalid >= 0
    requires Truthful(file, ReportOf(file, PlanOf(total, day)))
    ensures AtRates(file, ReportOf(file, PlanOf(total, day)), day)
  {
    hide PlanOf, ReasonCounts, CountOf, Truthful;
    TruthfulTotal(file, total, day);
    PlanRates(total, day);
    var p := PlanOf(total, day);
    ReasonRates(p.invalid);
    ReasonsOfReport(file, ReportOf(file, p));
  }

  predicate Shows(l: Line, pair: Pair, currency: Currency, cents: int, day: nat) {
    && l.ValidLine?
    && l.rec.source == pair.source && l.rec.product == pair.product && l.rec.category == pair.category
    && l.rec.currency == currency
    && l.rec.price == if day >= 11 then Text else Number(cents)
  }

  /** The valid lines show what was drawn, the late ones last and each of a pair of the day
      before; the price is a text from the twelfth day on. */
  ghost predicate LinesDrawn(d: Draws, day: nat, prev: seq<Pair>, late: int, valid: seq<Line>, pairs: seq<Pair>) {
    && |valid| == |pairs| && 0 <= late <= |valid| && (late > 0 ==> prev != [])
    && forall i :: 0 <= i < |valid| ==>
         var j := i - (|valid| - late);
         if j < 0 then
           Shows(valid[i], d.prompt(i).pair, d.prompt(i).currency, d.prompt(i).cents, day)
           && pairs[i] == d.prompt(i).pair
         else
           Shows(valid[i], prev[d.pick(j) % |prev|], d.late(j).currency, d.late(j).cents, day)
           && pairs[i] == prev[d.pick(j) % |prev|]
  }

  lemma DrawnLines(d: Draws, day: nat, prev: seq<Pair>, p: Plan)
    requires p.prompt >= 0 && p.late >= 0 && (p.late == 0 || prev != [])
    ensures var draws := ValidDraws(d, p, prev);
            LinesDrawn(d, day, prev, p.late, Map(draws, AsLine(day >= TEXT_FROM)), Map(draws, PairOf))
  {
    var draws := ValidDraws(d, p, prev);
    var n := |draws|;
    assert n == p.prompt + p.late;
    forall i | 0 <= i < n
      ensures i < p.prompt ==> draws[i] == d.prompt(i)
      ensures i >= p.prompt ==> prev != []
                                && draws[i].pair == prev[d.pick(i - p.prompt) % |prev|]
                                && draws[i].currency == d.late(i - p.prompt).currency
                                && draws[i].cents == d.late(i - p.prompt).cents
    {
      if i < p.prompt {
        assert draws[i] == PromptDraws(d, p.prompt)[i];
      } else {
        assert draws[i] == LateDraws(d, p.late, prev)[i - p.prompt];
      }
    }
  }

  /** The file holds exactly these valid lines. */
  ghost predicate HoldsValid(file: DayFile, valid: seq<Line>) {
    forall l: Line :: l.ValidLine? ==> multiset(file.base)[l] == multiset(valid)[l]
  }

  lemma BuiltHoldsValid(file: DayFile, p: Plan, valid: seq<Line>)
    requires p.invalid >= 0 && Built(file, p, valid)
    ensures HoldsValid(file, valid)
  {
    var invalid: seq<Line> :| Bucketed(invalid, ReasonCounts(p.invalid)) && |invalid| == p.invalid
                   && multiset(file.base) == multiset(valid) + multiset(invalid)
                   && |file.base| == |valid| + |invalid|;
    hide ReasonCounts, CountOf;
    forall l: Line | l.ValidLine? ensures multiset(invalid)[l] == 0 {
      assert l !in invalid;
    }
  }

  function LineIn(c: Currency): Line -> bool {
    (l: Line) => l.ValidLine? && l.rec.currency == c
  }

  function LineCents(l: Line): int {
    if l.ValidLine? && l.rec.price.Number? then l.rec.price.cents else 0
  }

  /** The books of a day count its lines under the currency each shows, and add up the
      prices shown as numbers. */
  ghost predicate BooksOfLines(mart: map<Currency, Stats>, valid: seq<Line>) {
    forall c: Currency :: c in mart && mart[c] == LineStats(valid, c)
  }

  ghost function LineStats(valid: seq<Line>, c: Currency): Stats {
    Stats(CountOf(valid, LineIn(c)), Sum(Map(Filter(valid, LineIn(c)), LineCents)))
  }

  lemma LineStatsNext(valid: seq<Line>, l: Line, c: Currency)
    ensures LineStats(valid + [l], c)
         == var had := LineStats(valid, c);
            if LineIn(c)(l) then Stats(had.count + 1, had.cents + LineCents(l)) else had
  {
    CountOne(valid, l, LineIn(c));
    FilterAppend(valid, [l], LineIn(c));
    FilterOne(l, LineIn(c));
    var kept := Filter(valid, LineIn(c));
    hide Filter, CountOf;
    if LineIn(c)(l) {
      MapAppend(kept, l, LineCents);
      InitAppend(Map(kept, LineCents), LineCents(l));
    } else {
      assert kept + [] == kept;
    }
  }

  lemma {:induction false} LineBooks(draws: seq<Draw>, asText: bool, c: Currency)
    ensures LineStats(Map(draws, AsLine(asText)), c)
         == var all := StatsOf(Map(draws, PriceOf), c);
            if asText then Stats(all.count, 0) else all
  {
    if |draws| > 0 {
      var xs, x := Init(draws), Last(draws);
      InitLast(draws);
      LineBooks(xs, asText, c);
      MapAppend(xs, x, AsLine(asText));
      MapAppend(xs, x, PriceOf);
      LineStatsNext(Map(xs, AsLine(asText)), ValidLineOf(x, asText), c);
      StatsNext(Map(xs, PriceOf), PriceOf(x), c);
      hide StatsOf, LineStats;
    }
  }

  lemma MartIsOfLines(mart: map<Currency, Stats>, perCurrency: map<Currency, Stats>, draws: seq<Draw>, asText: bool)
    requires Booked(perCurrency, Map(draws, PriceOf)) && MartOf(mart, perCurrency, asText)
    ensures BooksOfLines(mart, Map(draws, AsLine(asText)))
  {
    hide StatsOf, LineStats, Map;
    forall c: Currency ensures c in mart && mart[c] == LineStats(Map(draws, AsLine(asText)), c) {
      LineBooks(draws, asText, c);
      BookedAt(perCurrency, Map(draws, PriceOf), c);
    }
  }

  /** A day's report is true of its file, which has the lines wanted and meets the rates, its
      late records repeat pairs of the day before, and its pairs are those of the valid lines. */
  ghost predicate DayDone(d: Draws, file: DayFile, report: Report, pairs: seq<Pair>, day: nat, prev: seq<Pair>) {
    && Truthful(file, report)
    && report.total == (if d.t < 100 then 100 else d.t)
    && AtRates(file, report, day)
    && LateFrom(pairs, report.late, prev)
    && (day > 0 ==> report.late > 0)
    && PairsOfLines(file, pairs)
  }

  /** The pairs that day `day` can repeat. */
  ghost function Yesterday(dayPairs: seq<seq<Pair>>, day: nat): seq<Pair>
    requires day <= |dayPairs|
  {
    if day == 0 then [] else dayPairs[day - 1]
  }

  ghost predicate DaysDone(draws: seq<Draws>, files: seq<DayFile>, reports: seq<Report>, dayPairs: seq<seq<Pair>>, n: nat) {
    && |files| == |reports| == |dayPairs| == n <= |draws|
    && forall day :: 0 <= day < n ==>
         DayDone(draws[day], files[day], reports[day], dayPairs[day], day, Yesterday(dayPairs, day))
  }

  lemma SameYesterday(dayPairs: seq<seq<Pair>>, pairs: seq<Pair>, day: nat)
    requires day <= |dayPairs|
    ensures Yesterday(dayPairs + [pairs], day) == Yesterday(dayPairs, day)
  {
  }

  lemma ValidNext(reports: seq<Report>, report: Report)
    ensures Sum(Map(reports + [report], ValidIn)) == Sum(Map(reports, ValidIn)) + report.valid
  {
    MapAppend(reports, report, ValidIn);
    InitAppend(Map(reports, ValidIn), report.valid);
  }

  lemma DaysNext(draws: seq<Draws>, files: seq<DayFile>, reports: seq<Report>, dayPairs: seq<seq<Pair>>, n: nat,
                 file: DayFile, report: Report, pairs: seq<Pair>)
    requires n < |draws| && DaysDone(draws, files, reports, dayPairs, n)
    requires DayDone(draws[n], file, report, pairs, n, Yesterday(dayPairs, n))
    ensures DaysDone(draws, files + [file], reports + [report], dayPairs + [pairs], n + 1)
  {
    hide DayDone, Yesterday;
    var f, r, p := files + [file], reports + [report], dayPairs + [pairs];
    forall day | 0 <= day < n + 1
      ensures DayDone(draws[day], f[day], r[day], p[day], day, Yesterday(p, day))
    {
      SameYesterday(dayPairs, pairs, day);
      if day < n {
        assert DayDone(draws[day], files[day], reports[day], dayPairs[day], day, Yesterday(dayPairs, day));
      }
    }
  }

  lemma NoDaysDone(draws: seq<Draws>)
    ensures DaysDone(draws, [], [], [], 0) && Sum(Map([], ValidIn)) == 0 && Categorised([])
  {
  }

  ghost predicate Covers(stats: map<Currency, Stats>, n: int) {
    && USD in stats && EUR in stats && GBP in stats
    && stats[USD].count + stats[EUR].count + stats[GBP].count == n
  }

  lemma {:induction false} BooksCover(mart: map<Currency, Stats>, perCurrency: map<Currency, Stats>, asText: bool, draws: seq<Draw>)
    requires Booked(perCurrency, Map(draws, PriceOf)) && MartOf(mart, perCurrency, asText)
    ensures Covers(perCurrency, |draws|) && Covers(mart, |draws|)
  {
    BooksConserve(perCurrency, Map(draws, PriceOf));
    hide Booked;
  }

  /** One day after another: the report is true, both sets of currency books cover exactly
      the valid records it reports, the file's valid lines show what was drawn, and the
      second set of books is what these lines add up to. */
  method RunDay(day: nat, d: Draws, prev: seq<Pair>)
    returns (file: DayFile, report: Report, pairs: seq<Pair>, mart: map<Currency, Stats>, perCurrency: map<Currency, Stats>,
             ghost valid: seq<Line>)
    requires InRange(d) && Categorised(prev) && (day > 0 ==> prev != [])
    ensures DayDone(d, file, report, pairs, day, prev)
    ensures Categorised(pairs) && pairs != [] && |pairs| == report.valid
    ensures Covers(mart, report.valid) && Covers(perCurrency, report.valid)
    ensures MartOf(mart, perCurrency, day >= 11)
    ensures HoldsValid(file, valid) && LinesDrawn(d, day, prev, report.late, valid, pairs)
    ensures BooksOfLines(mart, valid)
  {
    hide DayDone, Categorised, InRange, Built, PlanOf, ValidDraws, Booked, MartOf, Covers, HoldsValid, LinesDrawn, BooksOfLines;
    file, report, pairs, mart, perCurrency := GenerateDay(day, d, prev, day >= TEXT_FROM);
    DayTruthful(day, d, prev, day >= TEXT_FROM, file, report, pairs);
    ghost var p := PlanOf(LinesWanted(d), day);
    ghost var draws := ValidDraws(d, p, prev);
    BooksCover(mart, perCurrency, day >= TEXT_FROM, draws);
    valid := Map(draws, AsLine(day >= TEXT_FROM));
    BuiltHoldsValid(file, p, valid);
    PlanRates(LinesWanted(d), day);
    DrawnLines(d, day, prev, p);
    MartIsOfLines(mart, perCurrency, draws, day >= TEXT_FROM);
  }

  /** Fourteen days, each repeating late some pairs of the one before: every report
      is true of its file, and over the run each valid record is counted under its own
      category exactly once. */
  method Generate(draws: seq<Draws>)
    returns (files: seq<DayFile>, reports: seq<Report>, dayPairs: seq<seq<Pair>>, perCategory: seq<int>)
    requires |draws| == N_DAYS && forall day :: 0 <= day < N_DAYS ==> InRange(draws[day])
    ensures DaysDone(draws, files, reports, dayPairs, N_DAYS)
    ensures Counted(perCategory, Joined(dayPairs))
    ensures Sum(perCategory) == |Joined(dayPairs)| == Sum(Map(reports, ValidIn))
  {
    hide Counted, Categorised, DayDone, DaysDone, Map, Sum, InRange, Covers, MartOf, HoldsValid, LinesDrawn, BooksOfLines;
    files, reports, dayPairs := [], [], [];
    perCategory := seq(N_CATEGORIES, _ => 0);
    var prev: seq<Pair> := [];
    ghost var all: seq<Pair> := [];
    NothingCounted();
    NoDaysDone(draws);
    for day := 0 to N_DAYS
      invariant DaysDone(draws, files, reports, dayPairs, day) && |dayPairs| == day
      invariant prev == Yesterday(dayPairs, day)
      invariant Categorised(prev) && (day > 0 ==> prev != [])
      invariant all == Joined(dayPairs)
      invariant Counted(perCategory, all) && |all| == Sum(Map(reports, ValidIn))
    {
      var file, report, pairs, mart, perCurrency, _ := RunDay(day, draws[day], prev);
      DaysNext(draws, files, reports, dayPairs, day, file, report, pairs);
      ValidNext(reports, report);
      perCategory := CountCategories(perCategory, pairs, all);
      InitAppend(dayPairs, pairs);
      all := all + pairs;
      files, reports, dayPairs := files + [file], reports + [report], dayPairs + [pairs];
      prev := pairs;
    }
    CountedSum(perCategory, all);
  }

  lemma CountedSum(counts: seq<int>, pairs: seq<Pair>)
    requires Counted(counts, pairs)
    ensures Sum(counts) == |pairs|
  {
  }

  lemma DayTruthful(day: nat, d: Draws, prev: seq<Pair>, asText: bool, file: DayFile, report: Report, pairs: seq<Pair>)
    requires InRange(d) && Categorised(prev) && (day > 0 ==> prev != [])
    requires var p := PlanOf(LinesWanted(d), day);
             && p.prompt >= 0 && p.late >= 0 && p.invalid >= 0
             && Built(file, p, Map(ValidDraws(d, p, prev), AsLine(asText)))
             && report == ReportOf(file, p)
             && pairs == Map(ValidDraws(d, p, prev), PairOf)
    ensures DayDone(d, file, report, pairs, day, prev)
    ensures Categorised(pairs) && pairs != [] && |pairs| == report.valid
  {
    hide PlanOf, Built, Truthful, InRange, Categorised, ValidDraws, LateFrom, PairsOfLines, AtRates, Map, AsLine;
    var p := PlanOf(LinesWanted(d), day);
    PlanFeasible(LinesWanted(d), day);
    PlanRates(LinesWanted(d), day);
    PromptAndLate(LinesWanted(d), day);
    PairsOfDay(d, p, prev);
    PairsAreOfLines(file, p, ValidDraws(d, p, prev), asText);
    ReportTruthfulIff(day, d, prev, asText, file);
    RatesMet(file, LinesWanted(d), day);
  }

  lemma PromptAndLate(total: int, day: nat)
    ensures PlanOf(total, day).prompt + PlanOf(total, day).late == PlanOf(total, day).valid
  {
  }
}
