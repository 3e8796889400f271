/** The load driver in count mode: workers that share one remaining-count, and
    the report computed from the collected latencies. */
module LoadDriver {
  import opened Basics
  import opened Sequences

  // ----- Percentiles

  ghost predicate Rising(xs: seq<real>) {
    forall i, j :: 0 <= i < j < |xs| ==> xs[i] <= xs[j]
  }

  function Floor(x: real): int {
    x.Floor
  }

  function Ceiling(x: real): int {
    -Floor(-x)
  }

  /** The fractional position of percentile `p` among `n` sorted values. */
  function Position(n: nat, p: real): real {
    (n - 1) as real * (p / 100.0)
  }

  lemma PositionInRange(n: nat, p: real)
    requires n > 0 && 0.0 <= p <= 100.0
    ensures 0.0 <= Position(n, p) <= (n - 1) as real
    ensures 0 <= Floor(Position(n, p)) <= Ceiling(Position(n, p)) <= n - 1
  {
    var share := p / 100.0;
    assert 0.0 <= share <= 1.0;
    Scale((n - 1) as real, 0.0, share);
    Scale((n - 1) as real, share, 1.0);
    var k := Position(n, p);
    assert -((n - 1) as real) <= -k;
  }

  lemma PositionMonotone(n: nat, p: real, q: real)
    requires n > 0 && p <= q
    ensures Position(n, p) <= Position(n, q)
  {
    var t, u := p / 100.0, q / 100.0;
    assert t <= u;
    Scale((n - 1) as real, t, u);
  }

  lemma Scale(a: real, t: real, u: real)
    requires 0.0 <= a && t <= u
    ensures a * t <= a * u
  {
  }

  /** Linear interpolation between the neighbours of position `k`. */
  function Interpolate(vals: seq<real>, k: real): real
    requires 0 <= Floor(k) <= Ceiling(k) < |vals|
  {
    var f, c := Floor(k), Ceiling(k);
    if f == c then vals[f] else vals[f] * (c as real - k) + vals[c] * (k - f as real)
  }

  /** Callers ask for percentages; the latencies may be none at all. */
  function Percentile(vals: seq<real>, p: real): real
    requires 0.0 <= p <= 100.0
  {
    if |vals| == 0 then 0.0
    else
      PositionInRange(|vals|, p);
      Interpolate(vals, Position(|vals|, p))
  }

  function Blend(a: real, b: real, t: real): real {
    a * (1.0 - t) + b * t
  }

  lemma SegmentBetween(a: real, b: real, t: real)
    requires a <= b && 0.0 <= t <= 1.0
    ensures a <= Blend(a, b, t) <= b
  {
    Scale(b - a, 0.0, t);
    Scale(b - a, t, 1.0);
    assert Blend(a, b, t) == a + (b - a) * t;
  }

  lemma InterpolateIsBlend(vals: seq<real>, k: real)
    requires 0 <= Floor(k) < Ceiling(k) < |vals|
    ensures Ceiling(k) == Floor(k) + 1 && 0.0 <= k - Floor(k) as real <= 1.0
    ensures Interpolate(vals, k) == Blend(vals[Floor(k)], vals[Ceiling(k)], k - Floor(k) as real)
  {
    assert Ceiling(k) as real - k == 1.0 - (k - Floor(k) as real);
  }

  /** The interpolated value separates the samples below its position from those above. */
  lemma InterpolateSeparates(vals: seq<real>, k: real)
    requires Rising(vals) && 0 <= Floor(k) <= Ceiling(k) < |vals|
    ensures forall i :: 0 <= i <= Floor(k) ==> vals[i] <= Interpolate(vals, k)
    ensures forall i :: Ceiling(k) <= i < |vals| ==> Interpolate(vals, k) <= vals[i]
  {
    var f, c := Floor(k), Ceiling(k);
    if f < c {
      InterpolateIsBlend(vals, k);
      SegmentBetween(vals[f], vals[c], k - f as real);
      hide Blend, Interpolate;
    }
  }

  lemma SegmentMonotone(a: real, b: real, t: real, u: real)
    requires a <= b && t <= u
    ensures Blend(a, b, t) <= Blend(a, b, u)
  {
    Scale(b - a, t, u);
    assert Blend(a, b, t) == a + (b - a) * t;
    assert Blend(a, b, u) == a + (b - a) * u;
  }

  lemma InterpolateMonotone(vals: seq<real>, k: real, l: real)
    requires Rising(vals) && k <= l
    requires 0 <= Floor(k) <= Ceiling(k) < |vals| && 0 <= Floor(l) <= Ceiling(l) < |vals|
    ensures Interpolate(vals, k) <= Interpolate(vals, l)
  {
    var f, c := Floor(k), Ceiling(k);
    InterpolateSeparates(vals, k);
    InterpolateSeparates(vals, l);
    if f < c && Floor(l) < c {
      assert Floor(l) == f && Ceiling(l) == c == f + 1;
      InterpolateIsBlend(vals, k);
      InterpolateIsBlend(vals, l);
      SegmentMonotone(vals[f], vals[c], k - f as real, l - f as real);
      hide Blend, Interpolate;
    } else {
      assert c <= Floor(l);
      assert vals[c] <= Interpolate(vals, l);
    }
  }

  /** A percentile splits the sample at its position: what lies at or before it is
      no larger, what lies at or after it no smaller; so it is between the extremes. */
  lemma PercentileSeparates(vals: seq<real>, p: real)
    requires Rising(vals) && vals != [] && 0.0 <= p <= 100.0
    ensures forall i :: 0 <= i <= Floor(Position(|vals|, p)) < |vals| ==> vals[i] <= Percentile(vals, p)
    ensures forall i :: 0 <= Ceiling(Position(|vals|, p)) <= i < |vals| ==> Percentile(vals, p) <= vals[i]
    ensures vals[0] <= Percentile(vals, p) <= Last(vals)
  {
    PositionInRange(|vals|, p);
    InterpolateSeparates(vals, Position(|vals|, p));
  }

  lemma PercentileMonotone(vals: seq<real>, p: real, q: real)
    requires Rising(vals) && 0.0 <= p <= q <= 100.0
    ensures Percentile(vals, p) <= Percentile(vals, q)
  {
    if vals != [] {
      PositionInRange(|vals|, p);
      PositionInRange(|vals|, q);
      PositionMonotone(|vals|, p, q);
      hide Interpolate, Position;
      InterpolateMonotone(vals, Position(|vals|, p), Position(|vals|, q));
    }
  }

  /** `v` is the `pct`-th percentile of the rising sample: with a hundred steps from one
      value to the next, it lies `pct * (n - 1)` steps from the first on the line through them. */
  ghost predicate IsPercentile(vals: seq<real>, pct: nat, v: real) {
    if |vals| == 0 then v == 0.0
    else
      var k, steps := pct * (|vals| - 1) / 100, pct * (|vals| - 1) % 100;
      k < |vals| && if steps == 0 then v == vals[k]
                    else k + 1 < |vals| && 100.0 * (v - vals[k]) == steps as real * (vals[k + 1] - vals[k])
  }

  lemma PositionInSteps(n: nat, pct: nat)
    requires n > 0 && pct <= 100
    ensures var k, steps := pct * (n - 1) / 100, pct * (n - 1) % 100;
            && 100.0 * Position(n, pct as real) == 100.0 * k as real + steps as real
            && Floor(Position(n, pct as real)) == k
            && Ceiling(Position(n, pct as real)) == if steps == 0 then k else k + 1
  {
    var k, steps := pct * (n - 1) / 100, pct * (n - 1) % 100;
    var x := Position(n, pct as real);
    assert 100.0 * x == (n - 1) as real * pct as real;
    assert ((n - 1) * pct) as real == (n - 1) as real * pct as real;
    assert pct * (n - 1) == 100 * k + steps;
    assert 100.0 * x == 100.0 * k as real + steps as real;
    assert k as real <= x < k as real + 1.0;
  }

  /** The computed percentile is that value. */
  lemma PercentileIs(vals: seq<real>, pct: nat)
    requires pct <= 100
    ensures IsPercentile(vals, pct, Percentile(vals, pct as real))
  {
    if |vals| > 0 {
      var x := Position(|vals|, pct as real);
      PositionInRange(|vals|, pct as real);
      PositionInSteps(|vals|, pct);
      hide Position;
      if Floor(x) < Ceiling(x) {
        InterpolateIsBlend(vals, x);
        BlendSteps(vals[Floor(x)], vals[Ceiling(x)], x - Floor(x) as real);
      }
    }
  }

  lemma BlendSteps(a: real, b: real, t: real)
    ensures 100.0 * (Blend(a, b, t) - a) == (100.0 * t) * (b - a)
  {
  }

  // ----- Sorting the latencies

  function InsertReal(xs: seq<real>, x: real): seq<real> {
    if |xs| == 0 || Last(xs) <= x then xs + [x] else InsertReal(Init(xs), x) + [Last(xs)]
  }

  function SortReals(xs: seq<real>): seq<real> {
    if |xs| == 0 then [] else InsertReal(SortReals(Init(xs)), Last(xs))
  }

  lemma {:induction false} InsertRealContents(xs: seq<real>, x: real)
    ensures multiset(InsertReal(xs, x)) == multiset(xs) + multiset{x}
  {
    if |xs| > 0 && Last(xs) > x {
      InitLast(xs);
      InsertRealContents(Init(xs), x);
    }
  }

  lemma {:induction false} InsertRealSorts(xs: seq<real>, x: real)
    requires Rising(xs)
    ensures Rising(InsertReal(xs, x))
  {
    if |xs| > 0 && Last(xs) > x {
      InsertRealSorts(Init(xs), x);
      InsertRealContents(Init(xs), x);
      var inner, last := InsertReal(Init(xs), x), Last(xs);
      assert InsertReal(xs, x) == inner + [last];
      hide InsertReal;
      forall i | 0 <= i < |inner| ensures inner[i] <= last {
        assert inner[i] in multiset(inner);
      }
    }
  }

  lemma {:induction false} SortRealsSorts(xs: seq<real>)
    ensures Rising(SortReals(xs)) && multiset(SortReals(xs)) == multiset(xs)
    ensures |SortReals(xs)| == |xs|
  {
    if |xs| > 0 {
      InitLast(xs);
      SortRealsSorts(Init(xs));
      InsertRealSorts(SortReals(Init(xs)), Last(xs));
      InsertRealContents(SortReals(Init(xs)), Last(xs));
      assert |multiset(SortReals(xs))| == |multiset(xs)|;
    }
  }

  lemma RisingLast(xs: seq<real>, ys: seq<real>)
    requires Rising(xs) && Rising(ys) && xs != [] && ys != [] && multiset(xs) == multiset(ys)
    ensures Last(xs) == Last(ys)
  {
    assert Last(xs) in multiset(ys) && Last(ys) in multiset(xs);
    var i :| 0 <= i < |xs| && xs[i] == Last(ys);
    var j :| 0 <= j < |ys| && ys[j] == Last(xs);
  }

  /** There is only one way to sort. */
  lemma {:induction false} RisingUnique(xs: seq<real>, ys: seq<real>)
    requires Rising(xs) && Rising(ys) && multiset(xs) == multiset(ys)
    ensures xs == ys
    decreases |xs|
  {
    assert |multiset(xs)| == |multiset(ys)|;
    if |xs| > 0 {
      RisingLast(xs, ys);
      InitLast(xs);
      InitLast(ys);
      assert multiset(Init(xs)) == multiset(xs) - multiset{Last(xs)};
      RisingUnique(Init(xs), Init(ys));
    }
  }

  // ----- The driver

  datatype LoadResult = LoadResult(total: nat, ok: nat, errors: nat, rps: real,
                                   p50: real, p95: real, p99: real, elapsed: real)

  /** What the workers share. */
  datatype DriverState = DriverState(remaining: int, ok: nat, errors: nat, latencies: seq<real>)

  /** One check of the shared count: claim a request, or stop. */
  function AfterClaim(d: DriverState): DriverState {
    if d.remaining <= 0 then d else d.(remaining := d.remaining - 1)
  }

  /** One request coming back; an exception arrives here as a failure. */
  function AfterRequest(d: DriverState, success: bool, latency: real): DriverState {
    d.(latencies := d.latencies + [latency],
       ok := d.ok + if success then 1 else 0,
       errors := d.errors + if success then 0 else 1)
  }

  function Rate(total: nat, elapsed: real): real {
    if elapsed > 0.0 then total as real / elapsed else 0.0
  }

  function ReportOf(d: DriverState, elapsed: real): LoadResult {
    var sample := SortReals(d.latencies);
    LoadResult(|sample|, d.ok, d.errors, Rate(|sample|, elapsed),
               Percentile(sample, 50.0), Percentile(sample, 95.0), Percentile(sample, 99.0), elapsed)
  }

  class Driver {
    var remaining: int
    var ok: nat
    var errors: nat
    var latencies: seq<real>

    function View(): DriverState
      reads this
    {
      DriverState(remaining, ok, errors, latencies)
    }

    constructor (requests: int)
      ensures View() == DriverState(requests, 0, 0, [])
    {
      remaining, ok, errors, latencies := requests, 0, 0, [];
    }

    method Claim() returns (go: bool)
      modifies this
      ensures View() == AfterClaim(old(View()))
      ensures go <==> old(remaining) > 0
    {
      if remaining <= 0 {
        return false;
      }
      remaining := remaining - 1;
      return true;
    }

    method Finish(success: bool, latency: real)
      modifies this
      ensures View() == AfterRequest(old(View()), success, latency)
    {
      latencies := latencies + [latency];
      if success {
        ok := ok + 1;
      } else {
        errors := errors + 1;
      }
    }

    /** Sorts the sample in place and reports. */
    method Report(elapsed: real) returns (r: LoadResult)
      modifies this
      ensures View() == old(View()).(latencies := SortReals(old(latencies)))
      ensures r == ReportOf(old(View()), elapsed)
      ensures Reports(r, old(latencies), elapsed)
    {
      SortRealsSorts(latencies);
      ReportIsOfLatencies(View(), elapsed);
      hide Reports, Percentile, SortReals;
      latencies := SortReals(latencies);
      var total := |latencies|;
      var rps := if elapsed > 0.0 then total as real / elapsed else 0.0;
      r := LoadResult(total, ok, errors, rps, Percentile(latencies, 50.0),
                      Percentile(latencies, 95.0), Percentile(latencies, 99.0), elapsed);
    }
  }

  // ----- Runs of many workers

  /** Where a worker stands: about to look at the count, awaiting a reply, or returned. */
  datatype Phase = Looking | Waiting | Returned

  datatype Step =
    | Look(worker: nat)
    | Reply(worker: nat, success: bool, latency: real)

  datatype System = System(driver: DriverState, phases: seq<Phase>)

  predicate Enabled(s: System, step: Step) {
    && step.worker < |s.phases|
    && s.phases[step.worker] == if step.Look? then Looking else Waiting
  }

  function Next(s: System, step: Step): System
    requires Enabled(s, step)
  {
    match step
    case Look(w) =>
      System(AfterClaim(s.driver), s.phases[w := if s.driver.remaining > 0 then Waiting else Returned])
    case Reply(w, success, latency) =>
      System(AfterRequest(s.driver, success, latency), s.phases[w := Looking])
  }

  function Boot(requests: int, workers: nat): System {
    System(DriverState(requests, 0, 0, []), seq(workers, i => Looking))
  }

  /** The state after the steps, or None when one of them was not possible. */
  ghost function Run(requests: int, workers: nat, steps: seq<Step>): Option<System> {
    if |steps| == 0 then Some(Boot(requests, workers))
    else
      var before := Run(requests, workers, Init(steps));
      if before.Some? && Enabled(before.value, Last(steps)) then Some(Next(before.value, Last(steps))) else None
  }

  ghost predicate Complete(s: System) {
    forall w :: 0 <= w < |s.phases| ==> s.phases[w] == Returned
  }

  ghost function Count(s: System, phase: Phase): nat {
    multiset(s.phases)[phase]
  }

  /** How many steps are still to come: two for each request not yet claimed, one
      for each reply awaited, one for each worker yet to return. */
  ghost function StepsLeft(s: System): int {
    2 * Max(s.driver.remaining, 0) + Count(s, Waiting) + |s.phases| - Count(s, Returned)
  }

  /** Every claimed request is either awaited or measured, and measured once. */
  ghost predicate Accounted(requests: int, workers: nat, taken: nat, s: System) {
    && |s.phases| == workers
    && s.driver.remaining + Count(s, Waiting) + |s.driver.latencies| == requests
    && (s.driver.remaining >= 0 || s.driver.remaining == requests)
    && (Count(s, Returned) > 0 ==> s.driver.remaining <= 0)
    && s.driver.ok + s.driver.errors == |s.driver.latencies|
    && taken + StepsLeft(s) == 2 * Max(requests, 0) + workers
  }

  lemma CountMoved(phases: seq<Phase>, w: nat, phase: Phase)
    requires w < |phases|
    ensures multiset(phases[w := phase]) == multiset(phases) - multiset{phases[w]} + multiset{phase}
  {
  }

  lemma Moved(s: System, step: Step)
    requires Enabled(s, step)
    ensures var w := step.worker; var to := Next(s, step).phases[w];
            && |Next(s, step).phases| == |s.phases|
            && multiset(s.phases)[s.phases[w]] > 0
            && multiset(Next(s, step).phases) == multiset(s.phases) - multiset{s.phases[w]} + multiset{to}
  {
    assert s.phases[step.worker] in multiset(s.phases);
    CountMoved(s.phases, step.worker, Next(s, step).phases[step.worker]);
  }

  lemma AccountedStep(requests: int, workers: nat, taken: nat, s: System, step: Step)
    requires Accounted(requests, workers, taken, s) && Enabled(s, step)
    ensures Accounted(requests, workers, taken + 1, Next(s, step))
  {
    hide Accounted, Next;
    if step.Look? {
      AccountedLook(requests, workers, taken, s, step);
    } else {
      AccountedReply(requests, workers, taken, s, step);
    }
  }

  lemma AccountedLook(requests: int, workers: nat, taken: nat, s: System, step: Step)
    requires Accounted(requests, workers, taken, s) && Enabled(s, step) && step.Look?
    ensures Accounted(requests, workers, taken + 1, Next(s, step))
  {
    Moved(s, step);
  }

  lemma AccountedReply(requests: int, workers: nat, taken: nat, s: System, step: Step)
    requires Accounted(requests, workers, taken, s) && Enabled(s, step) && step.Reply?
    ensures Accounted(requests, workers, taken + 1, Next(s, step))
  {
    Moved(s, step);
  }

  lemma {:induction false} AllLooking(phases: seq<Phase>)
    requires forall i :: 0 <= i < |phases| ==> phases[i] == Looking
    ensures multiset(phases)[Waiting] == 0 && multiset(phases)[Returned] == 0
  {
    assert Waiting !in phases && Returned !in phases;
  }

  /** On every interleaving the requests are accounted for. */
  lemma {:induction false} EveryRunAccounted(requests: int, workers: nat, steps: seq<Step>)
    requires Run(requests, workers, steps).Some?
    ensures Accounted(requests, workers, |steps|, Run(requests, workers, steps).value)
  {
    if |steps| == 0 {
      AllLooking(Boot(requests, workers).phases);
    } else {
      EveryRunAccounted(requests, workers, Init(steps));
      AccountedStep(requests, workers, |steps| - 1, Run(requests, workers, Init(steps)).value, Last(steps));
    }
  }

  lemma {:induction false} AllReturned(s: System)
    requires Complete(s)
    ensures Count(s, Waiting) == 0 && Count(s, Returned) == |s.phases|
    decreases |s.phases|
  {
    if |s.phases| > 0 {
      AllReturned(System(s.driver, Init(s.phases)));
      InitLast(s.phases);
    }
  }

  /** A run that is not complete can go on: no worker waits for another. */
  lemma NeverStuck(requests: int, workers: nat, steps: seq<Step>)
    requires Run(requests, workers, steps).Some? && !Complete(Run(requests, workers, steps).value)
    ensures exists step :: Run(requests, workers, steps + [step]).Some?
  {
    var s := Run(requests, workers, steps).value;
    var w: nat :| w < |s.phases| && s.phases[w] != Returned;
    var step := if s.phases[w] == Looking then Look(w) else Reply(w, true, 0.0);
    InitAppend(steps, step);
    assert Run(requests, workers, steps + [step]).Some?;
  }

  /** Every run is complete exactly when it has taken two steps for each request and
      one for each worker, and no run is longer. */
  lemma CompleteAfterExactly(requests: int, workers: nat, steps: seq<Step>)
    requires Run(requests, workers, steps).Some?
    ensures |steps| <= 2 * Max(requests, 0) + workers
    ensures Complete(Run(requests, workers, steps).value) <==> workers == 0 || |steps| == 2 * Max(requests, 0) + workers
  {
    EveryRunAccounted(requests, workers, steps);
    var s := Run(requests, workers, steps).value;
    hide Run;
    assert |multiset(s.phases)| == workers;
    if Complete(s) {
      AllReturned(s);
    } else if StepsLeft(s) == 0 {
      CountWithin(s);
      var w: nat :| w < |s.phases| && s.phases[w] != Returned;
      FewerReturned(s, w);
      assert false;
    }
    CountWithin(s);
  }

  lemma {:induction false} CountWithin(s: System)
    ensures Count(s, Returned) <= |s.phases|
    decreases |s.phases|
  {
    if |s.phases| > 0 {
      CountWithin(System(s.driver, Init(s.phases)));
      InitLast(s.phases);
    }
  }

  lemma FewerReturned(s: System, w: nat)
    requires w < |s.phases| && s.phases[w] != Returned
    ensures Count(s, Returned) < |s.phases|
  {
    var all := System(s.driver, s.phases[w := Returned]);
    CountMoved(s.phases, w, Returned);
    CountWithin(all);
  }

  /** Every complete interleaving issues exactly the requests asked for, each of them
      counted once as a success or an error; with no worker nothing is issued. */
  lemma CompleteRunIssuesAll(requests: int, workers: nat, steps: seq<Step>)
    requires Run(requests, workers, steps).Some? && Complete(Run(requests, workers, steps).value)
    ensures var d := Run(requests, workers, steps).value.driver;
            && |d.latencies| == d.ok + d.errors == (if workers == 0 then 0 else Max(requests, 0))
            && d.remaining == (if workers == 0 then requests else if requests < 0 then requests else 0)
  {
    EveryRunAccounted(requests, workers, steps);
    var s := Run(requests, workers, steps).value;
    AllReturned(s);
    if workers == 0 {
      NoWorkerNoStep(requests, steps);
    }
  }

  lemma NoWorkerNoStep(requests: int, steps: seq<Step>)
    requires Run(requests, 0, steps).Some?
    ensures steps == []
  {
    if |steps| > 0 {
      EveryRunAccounted(requests, 0, Init(steps));
    }
  }

  /** The replies of a run, in the order they came back. */
  predicate IsReply(step: Step) {
    step.Reply?
  }

  predicate Succeeded(step: Step) {
    step.Reply? && step.success
  }

  function LatencyOf(step: Step): real {
    if step.Reply? then step.latency else 0.0
  }

  /** The sample is exactly the replies' latencies, and `ok` counts exactly the
      successful ones, whichever worker they came back to. */
  lemma {:induction false} SampleIsReplies(requests: int, workers: nat, steps: seq<Step>)
    requires Run(requests, workers, steps).Some?
    ensures var d := Run(requests, workers, steps).value.driver;
            && d.latencies == Map(Filter(steps, IsReply), LatencyOf)
            && d.ok == |Filter(steps, Succeeded)|
  {
    if |steps| > 0 {
      SampleIsReplies(requests, workers, Init(steps));
      var replies := Filter(Init(steps), IsReply);
      if Last(steps).Reply? {
        MapAppend(replies, Last(steps), LatencyOf);
      } else {
        assert Filter(steps, IsReply) == replies;
      }
    }
  }

  /** Some measured latency is at most `low` and some is at least `high`. */
  ghost predicate Spans(latencies: seq<real>, low: real, high: real) {
    && (exists x :: x in latencies && x <= low)
    && (exists x :: x in latencies && high <= x)
  }

  lemma PercentilesSpanned(latencies: seq<real>)
    ensures var sample := SortReals(latencies);
            && Percentile(sample, 50.0) <= Percentile(sample, 95.0) <= Percentile(sample, 99.0)
            && (latencies != [] ==> Spans(latencies, Percentile(sample, 50.0), Percentile(sample, 99.0)))
  {
    hide Percentile, SortReals;
    SortRealsSorts(latencies);
    var sample := SortReals(latencies);
    PercentileMonotone(sample, 50.0, 95.0);
    PercentileMonotone(sample, 95.0, 99.0);
    if sample != [] {
      PercentileSeparates(sample, 50.0);
      PercentileSeparates(sample, 99.0);
      assert sample[0] in multiset(latencies) && Last(sample) in multiset(latencies);
      assert sample[0] in latencies && Last(sample) in latencies;
    }
  }

  /** What the report says of the measured latencies: their number, the requests a second,
      and three percentiles of them in rising order. */
  ghost predicate Reports(r: LoadResult, latencies: seq<real>, elapsed: real) {
    && r.total == |latencies|
    && r.elapsed == elapsed
    && (if elapsed > 0.0 then r.rps * elapsed == r.total as real else r.rps == 0.0)
    && forall sample :: Rising(sample) && multiset(sample) == multiset(latencies) ==>
         IsPercentile(sample, 50, r.p50) && IsPercentile(sample, 95, r.p95) && IsPercentile(sample, 99, r.p99)
  }

  lemma RateTimesElapsed(total: nat, elapsed: real)
    ensures if elapsed > 0.0 then Rate(total, elapsed) * elapsed == total as real else Rate(total, elapsed) == 0.0
  {
  }

  /** Every report is one of the latencies collected. */
  lemma ReportIsOfLatencies(d: DriverState, elapsed: real)
    ensures Reports(ReportOf(d, elapsed), d.latencies, elapsed)
  {
    SortRealsSorts(d.latencies);
    hide SortReals, Percentile, Rate, IsPercentile;
    var sorted := SortReals(d.latencies);
    RateTimesElapsed(|sorted|, elapsed);
    PercentileIs(sorted, 50);
    PercentileIs(sorted, 95);
    PercentileIs(sorted, 99);
    forall sample | Rising(sample) && multiset(sample) == multiset(d.latencies) ensures sample == sorted {
      RisingUnique(sample, sorted);
    }
  }

  /** The report of a complete run: every request counted once, its figures those of the
      latencies, and the percentiles in order within the sample. */
  lemma ReportMeaning(requests: int, workers: nat, steps: seq<Step>, elapsed: real)
    requires Run(requests, workers, steps).Some? && Complete(Run(requests, workers, steps).value)
    ensures var d := Run(requests, workers, steps).value.driver;
            var r := ReportOf(d, elapsed);
            && r.total == r.ok + r.errors == (if workers == 0 then 0 else Max(requests, 0))
            && Reports(r, d.latencies, elapsed)
            && r.p50 <= r.p95 <= r.p99
            && (r.total > 0 ==> Spans(d.latencies, r.p50, r.p99))
  {
    CompleteRunIssuesAll(requests, workers, steps);
    var d := Run(requests, workers, steps).value.driver;
    hide Run, Percentile, SortReals, Spans, Complete;
    SortRealsSorts(d.latencies);
    PercentilesSpanned(d.latencies);
    ReportIsOfLatencies(d, elapsed);
    hide Rate, Reports;
  }

  /** The report does not depend on timing: two complete runs whose replies are the
      same up to order report the same. */
  lemma ReportIgnoresInterleaving(requests: int, workers: nat, steps: seq<Step>, other: seq<Step>, elapsed: real)
    requires Run(requests, workers, steps).Some? && Run(requests, workers, other).Some?
    requires multiset(Map(Filter(steps, IsReply), LatencyOf)) == multiset(Map(Filter(other, IsReply), LatencyOf))
    requires |Filter(steps, Succeeded)| == |Filter(other, Succeeded)|
    ensures ReportOf(Run(requests, workers, steps).value.driver, elapsed)
         == ReportOf(Run(requests, workers, other).value.driver, elapsed)
  {
    SampleIsReplies(requests, workers, steps);
    SampleIsReplies(requests, workers, other);
    EveryRunAccounted(requests, workers, steps);
    EveryRunAccounted(requests, workers, other);
    var d, e := Run(requests, workers, steps).value.driver, Run(requests, workers, other).value.driver;
    hide Run, Percentile, SortReals, Filter, Map;
    SortRealsSorts(d.latencies);
    SortRealsSorts(e.latencies);
    RisingUnique(SortReals(d.latencies), SortReals(e.latencies));
    assert |multiset(d.latencies)| == |multiset(e.latencies)|;
  }
}
