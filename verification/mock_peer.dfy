/** The mock slow peer: a concurrency gate, a sliding-window rate check and an
    in-flight counter, as the atomic steps between two awaits. */
module MockPeer {
  import opened Sequences

  /** Knobs of the peer; times are seconds on the monotonic clock. */
  datatype Config = Config(maxConcurrency: Option<int>, ratePerSec: Option<real>, errorRate: real)

  /** Everything a handler shares with the others. */
  datatype PeerState = PeerState(inFlight: int, arrivals: seq<real>,
                                 totalRequests: nat, maxObserved: int, errorResponses: nat, throttled: nat)

  datatype Outcome = Throttled | Suspended

  datatype Reply = Served | InjectedError | Raised

  const START := PeerState(0, [], 0, 0, 0, 0)

  /** Pops from the left while older than the cutoff. */
  function DropOld(arrivals: seq<real>, cutoff: real): seq<real> {
    if |arrivals| > 0 && arrivals[0] < cutoff then DropOld(arrivals[1..], cutoff) else arrivals
  }

  predicate GateShut(cfg: Config, p: PeerState) {
    cfg.maxConcurrency.Some? && p.inFlight + 1 > cfg.maxConcurrency.value
  }

  /** The window after checking in at `now`. */
  function Window(p: PeerState, now: real): seq<real> {
    DropOld(p.arrivals, now - 1.0) + [now]
  }

  predicate RateExceeded(cfg: Config, p: PeerState, now: real) {
    cfg.ratePerSec.Some? && |Window(p, now)| as real > cfg.ratePerSec.value
  }

  /** From arrival to the first await, or to an immediate 429. */
  function AfterArrive(cfg: Config, p: PeerState, now: real): PeerState {
    if GateShut(cfg, p) then p.(totalRequests := p.totalRequests + 1, throttled := p.throttled + 1)
    else
      var peak := if p.inFlight + 1 > p.maxObserved then p.inFlight + 1 else p.maxObserved;
      var window := if cfg.ratePerSec.Some? then Window(p, now) else p.arrivals;
      if RateExceeded(cfg, p, now) then
        p.(totalRequests := p.totalRequests + 1, maxObserved := peak, arrivals := window, throttled := p.throttled + 1)
      else
        p.(totalRequests := p.totalRequests + 1, maxObserved := peak, arrivals := window, inFlight := p.inFlight + 1)
  }

  function ArriveOutcome(cfg: Config, p: PeerState, now: real): Outcome {
    if GateShut(cfg, p) || RateExceeded(cfg, p, now) then Throttled else Suspended
  }

  predicate Injects(cfg: Config, roll: real) {
    cfg.errorRate > 0.0 && roll < cfg.errorRate
  }

  /** From the end of the sleep to the reply; the counter drops whatever happens. */
  function AfterResume(cfg: Config, p: PeerState, roll: real): PeerState {
    p.(inFlight := p.inFlight - 1,
       errorResponses := p.errorResponses + if Injects(cfg, roll) then 1 else 0)
  }

  function ResumeReply(cfg: Config, roll: real, encodable: bool): Reply {
    if Injects(cfg, roll) then InjectedError else if encodable then Served else Raised
  }

  class Peer {
    const cfg: Config
    var inFlight: int
    var arrivals: seq<real>
    var totalRequests: nat
    var maxObserved: int
    var errorResponses: nat
    var throttled: nat

    function View(): PeerState
      reads this
    {
      PeerState(inFlight, arrivals, totalRequests, maxObserved, errorResponses, throttled)
    }

    constructor (cfg: Config)
      ensures this.cfg == cfg && View() == START
    {
      this.cfg := cfg;
      inFlight, arrivals, totalRequests, maxObserved, errorResponses, throttled := 0, [], 0, 0, 0, 0;
    }

    method Arrive(now: real) returns (r: Outcome)
      modifies this
      ensures View() == AfterArrive(cfg, old(View()), now)
      ensures r == ArriveOutcome(cfg, old(View()), now)
    {
      totalRequests := totalRequests + 1;
      if cfg.maxConcurrency.Some? && inFlight + 1 > cfg.maxConcurrency.value {
        throttled := throttled + 1;
        return Throttled;
      }
      inFlight := inFlight + 1;
      if inFlight > maxObserved {
        maxObserved := inFlight;
      }
      if cfg.ratePerSec.Some? {
        var cutoff := now - 1.0;
        ghost var kept := DropOld(arrivals, cutoff);
        ghost var rest := (inFlight, totalRequests, maxObserved, errorResponses, throttled);
        while |arrivals| > 0 && arrivals[0] < cutoff
          invariant DropOld(arrivals, cutoff) == kept
          invariant rest == (inFlight, totalRequests, maxObserved, errorResponses, throttled)
          decreases |arrivals|
        {
          arrivals := arrivals[1..];
        }
        arrivals := arrivals + [now];
        if |arrivals| as real > cfg.ratePerSec.value {
          throttled := throttled + 1;
          inFlight := inFlight - 1;
          return Throttled;
        }
      }
      return Suspended;
    }

    method Resume(roll: real, encodable: bool) returns (r: Reply)
      modifies this
      ensures View() == AfterResume(cfg, old(View()), roll)
      ensures r == ResumeReply(cfg, roll, encodable)
    {
      if cfg.errorRate > 0.0 && roll < cfg.errorRate {
        errorResponses := errorResponses + 1;
        r := InjectedError;
      } else {
        r := if encodable then Served else Raised;
      }
      inFlight := inFlight - 1;
    }

    /** A cancelled handler leaves through `finally` only. */
    method Cancel()
      modifies this
      ensures View() == old(View()).(inFlight := old(inFlight) - 1)
    {
      inFlight := inFlight - 1;
    }
  }

  // ----- Runs of many handlers

  datatype Step =
    | Arrive(id: nat, now: real)
    | Resume(id: nat, roll: real, encodable: bool)
    | Cancel(id: nat)

  /** One passage of the rate check. */
  datatype Check = Check(time: real, accepted: bool)

  /** The peer together with what an observer records about the handlers. */
  datatype System = System(peer: PeerState, suspended: set<nat>, clock: Option<real>,
                           checks: seq<Check>, served: nat, raised: nat, cancelled: nat)

  const BOOT := System(START, {}, None, [], 0, 0, 0)

  /** Arrivals read a non-decreasing clock; only a suspended handler can wake or be cancelled. */
  predicate Enabled(s: System, step: Step) {
    match step
    case Arrive(id, now) => id !in s.suspended && (s.clock.Some? ==> s.clock.value <= now)
    case Resume(id, _, _) => id in s.suspended
    case Cancel(id) => id in s.suspended
  }

  function Next(cfg: Config, s: System, step: Step): System {
    match step
    case Arrive(id, now) =>
      var outcome := ArriveOutcome(cfg, s.peer, now);
      s.(peer := AfterArrive(cfg, s.peer, now),
         suspended := s.suspended + if outcome == Suspended then {id} else {},
         clock := Some(now),
         checks := if cfg.ratePerSec.Some? && !GateShut(cfg, s.peer)
                   then s.checks + [Check(now, outcome == Suspended)] else s.checks)
    case Resume(id, roll, encodable) =>
      var reply := ResumeReply(cfg, roll, encodable);
      s.(peer := AfterResume(cfg, s.peer, roll),
         suspended := s.suspended - {id},
         served := s.served + if reply == Served then 1 else 0,
         raised := s.raised + if reply == Raised then 1 else 0)
    case Cancel(id) =>
      s.(peer := s.peer.(inFlight := s.peer.inFlight - 1),
         suspended := s.suspended - {id},
         cancelled := s.cancelled + 1)
  }

  ghost predicate Legal(cfg: Config, steps: seq<Step>) {
    |steps| == 0 || (Legal(cfg, Init(steps)) && Enabled(Run(cfg, Init(steps)), Last(steps)))
  }

  ghost function Run(cfg: Config, steps: seq<Step>): System {
    if |steps| == 0 then BOOT else Next(cfg, Run(cfg, Init(steps)), Last(steps))
  }

  // ----- Counters

  ghost predicate Counted(cfg: Config, s: System) {
    && s.peer.inFlight == |s.suspended|
    && s.peer.inFlight <= s.peer.maxObserved
    && (cfg.maxConcurrency.Some? && cfg.maxConcurrency.value >= 0 ==> s.peer.maxObserved <= cfg.maxConcurrency.value)
    && s.peer.totalRequests
       == s.peer.throttled + s.peer.errorResponses + s.served + s.raised + s.cancelled + s.peer.inFlight
  }

  lemma CountedArrive(cfg: Config, s: System, id: nat, now: real)
    requires Counted(cfg, s) && Enabled(s, Arrive(id, now))
    ensures Counted(cfg, Next(cfg, s, Arrive(id, now)))
  {
    hide RateExceeded, Window;
    assert |s.suspended + {id}| == |s.suspended| + 1;
    assert s.suspended + {} == s.suspended;
  }

  lemma CountedLeave(cfg: Config, s: System, step: Step)
    requires Counted(cfg, s) && Enabled(s, step) && !step.Arrive?
    ensures Counted(cfg, Next(cfg, s, step))
  {
    hide Injects, RateExceeded, Window, GateShut, ArriveOutcome, AfterArrive;
    assert |s.suspended - {step.id}| == |s.suspended| - 1;
  }

  lemma CountedStep(cfg: Config, s: System, step: Step)
    requires Counted(cfg, s) && Enabled(s, step)
    ensures Counted(cfg, Next(cfg, s, step))
  {
    hide Counted, Next;
    if step.Arrive? {
      CountedArrive(cfg, s, step.id, step.now);
    } else {
      CountedLeave(cfg, s, step);
    }
  }

  /** On every interleaving the counters add up and the peak respects the cap. */
  lemma {:induction false} EveryRunCounted(cfg: Config, steps: seq<Step>)
    requires Legal(cfg, steps)
    ensures Counted(cfg, Run(cfg, steps))
  {
    if |steps| > 0 {
      EveryRunCounted(cfg, Init(steps));
      CountedStep(cfg, Run(cfg, Init(steps)), Last(steps));
    }
  }

  /** The documented bound on the peak holds exactly for caps that are not negative. */
  lemma PeakWithinCapIff(cfg: Config, steps: seq<Step>)
    requires Legal(cfg, steps) && cfg.maxConcurrency.Some?
    ensures Run(cfg, steps).peer.maxObserved <= cfg.maxConcurrency.value <==> cfg.maxConcurrency.value >= 0
  {
    EveryRunCounted(cfg, steps);
  }

  /** Step `n` is an arrival that passes the concurrency gate. */
  ghost predicate Passes(cfg: Config, steps: seq<Step>, n: nat)
    requires n < |steps|
  {
    steps[n].Arrive? && !GateShut(cfg, Run(cfg, steps[..n]).peer)
  }

  /** In flight once step `n` has passed the gate, itself included. */
  ghost function InFlightAt(cfg: Config, steps: seq<Step>, n: nat): nat
    requires n < |steps|
  {
    |Run(cfg, steps[..n]).suspended| + 1
  }

  /** No arrival that passed the gate met more than the peak, and one met exactly that. */
  ghost predicate PeakOf(cfg: Config, steps: seq<Step>, peak: int) {
    && (forall n :: 0 <= n < |steps| && Passes(cfg, steps, n) ==> InFlightAt(cfg, steps, n) <= peak)
    && (peak == 0 || exists n :: 0 <= n < |steps| && Passes(cfg, steps, n) && InFlightAt(cfg, steps, n) == peak)
  }

  lemma PeakBefore(cfg: Config, steps: seq<Step>, n: nat)
    requires n < |steps| - 1
    ensures Passes(cfg, Init(steps), n) <==> Passes(cfg, steps, n)
    ensures InFlightAt(cfg, Init(steps), n) == InFlightAt(cfg, steps, n)
  {
    assert Init(steps)[..n] == steps[..n];
  }

  lemma PeakStep(cfg: Config, steps: seq<Step>, peak: int)
    requires |steps| > 0 && PeakOf(cfg, Init(steps), peak) && peak >= 0
    ensures var n := |steps| - 1;
            PeakOf(cfg, steps, if Passes(cfg, steps, n) && InFlightAt(cfg, steps, n) > peak then InFlightAt(cfg, steps, n) else peak)
  {
    hide Passes, InFlightAt;
    var last := |steps| - 1;
    forall n: nat | n < last
      ensures Passes(cfg, Init(steps), n) <==> Passes(cfg, steps, n)
      ensures InFlightAt(cfg, Init(steps), n) == InFlightAt(cfg, steps, n)
    {
      PeakBefore(cfg, steps, n);
    }
    if !(Passes(cfg, steps, last) && InFlightAt(cfg, steps, last) > peak) && peak > 0 {
      var n :| 0 <= n < last && Passes(cfg, Init(steps), n) && InFlightAt(cfg, Init(steps), n) == peak;
      assert Passes(cfg, steps, n) && InFlightAt(cfg, steps, n) == peak;
    }
  }

  lemma PeakMoves(cfg: Config, steps: seq<Step>)
    requires Legal(cfg, steps) && |steps| > 0
    ensures var n, before := |steps| - 1, Run(cfg, Init(steps)).peer.maxObserved;
            Run(cfg, steps).peer.maxObserved
              == if Passes(cfg, steps, n) && InFlightAt(cfg, steps, n) > before then InFlightAt(cfg, steps, n) else before
  {
    EveryRunCounted(cfg, Init(steps));
    assert steps[..|steps| - 1] == Init(steps);
    hide RateExceeded, Window, Injects, Legal;
  }

  /** On every run the recorded peak is attained: it is the largest number in flight right
      after the gate, whether or not the rate check then turned the request away. */
  lemma {:induction false} EveryPeakAttained(cfg: Config, steps: seq<Step>)
    requires Legal(cfg, steps)
    ensures PeakOf(cfg, steps, Run(cfg, steps).peer.maxObserved)
  {
    if |steps| > 0 {
      EveryPeakAttained(cfg, Init(steps));
      EveryRunCounted(cfg, Init(steps));
      PeakMoves(cfg, steps);
      PeakStep(cfg, steps, Run(cfg, Init(steps)).peer.maxObserved);
      hide Run, Legal, PeakOf, Passes;
    }
  }

  // ----- What the counters count

  predicate Arrives(step: Step) {
    step.Arrive?
  }

  predicate Cancels(step: Step) {
    step.Cancel?
  }

  /** A handler that wakes up with a roll below the rate. */
  function RollsBelow(rate: real): Step -> bool {
    (step: Step) => step.Resume? && step.roll < rate
  }

  function RollsAbove(rate: real, encodable: bool): Step -> bool {
    (step: Step) => step.Resume? && step.roll >= rate && step.encodable == encodable
  }

  predicate Resumes(step: Step) {
    step.Resume?
  }

  /** rng.random() */
  ghost predicate RollsInUnit(steps: seq<Step>) {
    forall step :: step in steps && step.Resume? ==> 0.0 <= step.roll < 1.0
  }

  ghost function CountOf(steps: seq<Step>, p: Step -> bool): nat {
    |Filter(steps, p)|
  }

  lemma CountNext(steps: seq<Step>, p: Step -> bool)
    requires |steps| > 0
    ensures CountOf(steps, p) == CountOf(Init(steps), p) + if p(Last(steps)) then 1 else 0
  {
  }

  /** On every run the injected errors are the wake-ups with a roll below the rate; of the
      others the encodable ones are served and the rest raise. */
  lemma {:induction false} CountersAre(cfg: Config, steps: seq<Step>)
    requires Legal(cfg, steps) && RollsInUnit(steps)
    ensures var s := Run(cfg, steps);
            && s.peer.errorResponses == CountOf(steps, RollsBelow(cfg.errorRate))
            && s.served == CountOf(steps, RollsAbove(cfg.errorRate, true))
            && s.raised == CountOf(steps, RollsAbove(cfg.errorRate, false))
            && s.cancelled == CountOf(steps, Cancels)
            && s.peer.totalRequests == CountOf(steps, Arrives)
  {
    if |steps| > 0 {
      assert forall step :: step in Init(steps) ==> step in steps;
      assert Last(steps) in steps;
      CountersAre(cfg, Init(steps));
      CountNext(steps, RollsBelow(cfg.errorRate));
      CountNext(steps, RollsAbove(cfg.errorRate, true));
      CountNext(steps, RollsAbove(cfg.errorRate, false));
      CountNext(steps, Cancels);
      CountNext(steps, Arrives);
      hide CountOf, GateShut, RateExceeded, Window;
    }
  }

  lemma {:induction false} CountFewer(steps: seq<Step>, p: Step -> bool, q: Step -> bool)
    requires forall step :: step in steps && p(step) ==> q(step)
    ensures CountOf(steps, p) <= CountOf(steps, q)
  {
    if |steps| > 0 {
      assert forall step :: step in Init(steps) ==> step in steps;
      CountFewer(Init(steps), p, q);
      CountNext(steps, p);
      CountNext(steps, q);
      hide CountOf;
    }
  }

  lemma CountNone(steps: seq<Step>, p: Step -> bool)
    requires forall step :: step in steps ==> !p(step)
    ensures CountOf(steps, p) == 0
  {
    FilterNone(steps, p);
  }

  /** What the error rate has no part in. */
  ghost predicate SameButErrors(s: System, t: System) {
    && s.suspended == t.suspended && s.clock == t.clock && s.cancelled == t.cancelled && s.checks == t.checks
    && s.peer.(errorResponses := 0) == t.peer.(errorResponses := 0)
  }

  lemma {:induction false} RateLeavesRest(cfg: Config, rate: real, steps: seq<Step>)
    requires Legal(cfg, steps)
    ensures Legal(cfg.(errorRate := rate), steps)
    ensures SameButErrors(Run(cfg, steps), Run(cfg.(errorRate := rate), steps))
  {
    if |steps| > 0 {
      RateLeavesRest(cfg, rate, Init(steps));
      var s, t, step := Run(cfg, Init(steps)), Run(cfg.(errorRate := rate), Init(steps)), Last(steps);
      if step.Arrive? {
        assert GateShut(cfg, s.peer) == GateShut(cfg.(errorRate := rate), t.peer);
        assert RateExceeded(cfg, s.peer, step.now) == RateExceeded(cfg.(errorRate := rate), t.peer, step.now);
        hide GateShut, RateExceeded;
      }
    }
  }

  /** Rate zero injects no error, rate one turns every wake-up into one, and on the same
      steps a larger rate never injects fewer. */
  lemma ErrorsGrowWithRate(cfg: Config, rate: real, steps: seq<Step>)
    requires Legal(cfg, steps) && RollsInUnit(steps) && cfg.errorRate <= rate
    ensures Legal(cfg.(errorRate := rate), steps)
    ensures Run(cfg, steps).peer.errorResponses <= Run(cfg.(errorRate := rate), steps).peer.errorResponses
    ensures cfg.errorRate <= 0.0 ==> Run(cfg, steps).peer.errorResponses == 0
    ensures cfg.errorRate >= 1.0 ==> Run(cfg, steps).peer.errorResponses == CountOf(steps, Resumes)
  {
    RateLeavesRest(cfg, rate, steps);
    CountersAre(cfg, steps);
    CountersAre(cfg.(errorRate := rate), steps);
    CountFewer(steps, RollsBelow(cfg.errorRate), RollsBelow(rate));
    if cfg.errorRate <= 0.0 {
      CountNone(steps, RollsBelow(cfg.errorRate));
    }
    if cfg.errorRate >= 1.0 {
      CountFewer(steps, RollsBelow(cfg.errorRate), Resumes);
      CountFewer(steps, Resumes, RollsBelow(cfg.errorRate));
    }
    hide Run, Legal, CountOf;
  }

  /** The reply of one wake-up. */
  lemma ReplyIs(cfg: Config, roll: real, encodable: bool)
    requires 0.0 <= roll < 1.0
    ensures ResumeReply(cfg, roll, encodable) == InjectedError <==> roll < cfg.errorRate
    ensures ResumeReply(cfg, roll, encodable) == Served <==> roll >= cfg.errorRate && encodable
  {
  }

  // ----- Rejected requests in flight

  /** Step `n` has been counted as in flight when the rate check turns it away. */
  ghost predicate CountsRejected(cfg: Config, steps: seq<Step>, n: nat)
    requires n < |steps|
  {
    Passes(cfg, steps, n) && RateExceeded(cfg, Run(cfg, steps[..n]).peer, steps[n].now)
  }

  /** No request answered with 429 is ever counted as in flight. */
  ghost predicate NeverCountsRejected(cfg: Config) {
    forall steps, n :: Legal(cfg, steps) && 0 <= n < |steps| ==> !CountsRejected(cfg, steps, n)
  }

  lemma {:induction false} LegalPrefix(cfg: Config, steps: seq<Step>, n: nat)
    requires Legal(cfg, steps) && n <= |steps|
    ensures Legal(cfg, steps[..n])
    decreases |steps|
  {
    if n == |steps| {
      assert steps[..n] == steps;
    } else {
      LegalPrefix(cfg, Init(steps), n);
      assert Init(steps)[..n] == steps[..n];
    }
  }

  /** A request arrives and is cancelled, `k` times over, all in one instant. */
  ghost function Bursts(k: nat): seq<Step> {
    if k == 0 then [] else Bursts(k - 1) + [Arrive(0, 0.0)] + [Cancel(0)]
  }

  ghost predicate Quiet(cfg: Config, s: System, k: nat) {
    && s.suspended == {} && s.peer.inFlight == 0
    && s.peer.arrivals == seq(k, _ => 0.0)
    && (s.clock.Some? ==> s.clock.value == 0.0)
  }

  lemma BurstWindow(p: PeerState, k: nat)
    requires p.arrivals == seq(k, _ => 0.0)
    ensures Window(p, 0.0) == seq(k + 1, _ => 0.0)
  {
    assert DropOld(p.arrivals, -1.0) == p.arrivals;
  }

  /** While the rate lasts every such request passes both checks and leaves nothing behind but its check-in. */
  lemma {:induction false} BurstsRun(cfg: Config, k: nat)
    requires cfg.ratePerSec.Some? && (cfg.maxConcurrency.Some? ==> cfg.maxConcurrency.value >= 1)
    requires k > 0 ==> k as real <= cfg.ratePerSec.value
    ensures Legal(cfg, Bursts(k)) && Quiet(cfg, Run(cfg, Bursts(k)), k)
  {
    if k > 0 {
      var before := Bursts(k - 1);
      BurstsRun(cfg, k - 1);
      BurstWindow(Run(cfg, before).peer, k - 1);
      var arrived := before + [Arrive(0, 0.0)];
      InitAppend(before, Arrive(0, 0.0));
      InitAppend(arrived, Cancel(0));
      var s := Run(cfg, before);
      var t := Next(cfg, s, Arrive(0, 0.0));
      assert !GateShut(cfg, s.peer) && !RateExceeded(cfg, s.peer, 0.0);
      assert t.suspended == {0} && t.peer.inFlight == 1;
      assert Run(cfg, arrived) == t && Legal(cfg, arrived);
      assert {0} - {0} == {};
    }
  }

  /** A rate and room for one request: after as many bursts as the rate allows, the next
      request of the instant is counted as in flight and then turned away. */
  lemma BurstIsCounted(cfg: Config) returns (steps: seq<Step>, n: nat)
    requires cfg.ratePerSec.Some? && (cfg.maxConcurrency.Some? ==> cfg.maxConcurrency.value >= 1)
    ensures Legal(cfg, steps) && n < |steps| && CountsRejected(cfg, steps, n)
  {
    var k: nat := if cfg.ratePerSec.value < 0.0 then 0 else cfg.ratePerSec.value.Floor;
    BurstsRun(cfg, k);
    BurstWindow(Run(cfg, Bursts(k)).peer, k);
    n := |Bursts(k)|;
    steps := Bursts(k) + [Arrive(0, 0.0)];
    InitAppend(Bursts(k), Arrive(0, 0.0));
    assert steps[..n] == Bursts(k);
    hide Run, Window;
  }

  /** The documented promise that a request answered with 429 never increments the in-flight
      counter holds on every run exactly for a peer without a rate, or without room for any request. */
  lemma NeverCountsRejectedIff(cfg: Config)
    ensures NeverCountsRejected(cfg)
       <==> cfg.ratePerSec.None? || (cfg.maxConcurrency.Some? && cfg.maxConcurrency.value <= 0)
  {
    if cfg.ratePerSec.None? || (cfg.maxConcurrency.Some? && cfg.maxConcurrency.value <= 0) {
      forall steps, n | Legal(cfg, steps) && 0 <= n < |steps| ensures !CountsRejected(cfg, steps, n) {
        LegalPrefix(cfg, steps, n);
        EveryRunCounted(cfg, steps[..n]);
        hide Run, Legal;
      }
    } else {
      var steps, n := BurstIsCounted(cfg);
      hide CountsRejected, Legal;
    }
  }

  /** Such a request can set the recorded peak: at a rate of one per second the second
      request of an instant raises it to two, with only one handler ever suspended. */
  lemma RejectionRaisesPeak()
    ensures var cfg, steps := Config(None, Some(1.0), 0.0), [Arrive(0, 0.0), Arrive(1, 0.0)];
            && Legal(cfg, steps) && CountsRejected(cfg, steps, 1)
            && Run(cfg, steps).suspended == {0} && Run(cfg, steps).peer.maxObserved == 2
  {
    var cfg, first := Config(None, Some(1.0), 0.0), [Arrive(0, 0.0)];
    var steps := [Arrive(0, 0.0), Arrive(1, 0.0)];
    assert Init(first) == [] && Last(first) == Arrive(0, 0.0);
    assert Init(steps) == first && steps[..1] == first && Last(steps) == Arrive(1, 0.0);
    FirstOfTwo(cfg);
    var s := Run(cfg, first);
    BurstWindow(s.peer, 1);
    hide Window, Run, Legal, Passes;
    assert Run(cfg, steps) == Next(cfg, s, Arrive(1, 0.0)) && Legal(cfg, steps) && Passes(cfg, steps, 1) by {
      SecondOfTwo(cfg);
    }
    assert RateExceeded(cfg, s.peer, 0.0);
  }

  lemma FirstOfTwo(cfg: Config)
    requires cfg == Config(None, Some(1.0), 0.0)
    ensures Legal(cfg, [Arrive(0, 0.0)])
    ensures var s := Run(cfg, [Arrive(0, 0.0)]);
            s.suspended == {0} && s.peer.inFlight == 1 && s.peer.maxObserved == 1
            && s.peer.arrivals == seq(1, _ => 0.0) && s.clock == Some(0.0)
  {
    var first := [Arrive(0, 0.0)];
    assert Init(first) == [] && Last(first) == Arrive(0, 0.0);
    BurstWindow(START, 0);
    hide Window;
  }

  lemma SecondOfTwo(cfg: Config)
    requires cfg == Config(None, Some(1.0), 0.0)
    ensures var first, steps := [Arrive(0, 0.0)], [Arrive(0, 0.0), Arrive(1, 0.0)];
            Run(cfg, steps) == Next(cfg, Run(cfg, first), Arrive(1, 0.0)) && Legal(cfg, steps) && Passes(cfg, steps, 1)
  {
    var first, steps := [Arrive(0, 0.0)], [Arrive(0, 0.0), Arrive(1, 0.0)];
    assert Init(steps) == first && steps[..1] == first && Last(steps) == Arrive(1, 0.0);
    FirstOfTwo(cfg);
    hide Window, RateExceeded;
  }

  // ----- The sliding window

  function Since(t: real): Check -> bool {
    (c: Check) => c.time >= t
  }

  function TimeOf(c: Check): real {
    c.time
  }

  ghost predicate Chronological(checks: seq<Check>) {
    forall i, j :: 0 <= i < j < |checks| ==> checks[i].time <= checks[j].time
  }

  /** The checks of the second that ends with the latest one. */
  ghost function Recent(checks: seq<Check>): seq<Check> {
    if |checks| == 0 then [] else Filter(checks, Since(Last(checks).time - 1.0))
  }

  /** Each accepted check saw at most `rate` checks in the second ending with it. */
  ghost predicate AdmittedWithin(checks: seq<Check>, rate: real) {
    forall i :: 0 <= i < |checks| && checks[i].accepted ==> |Recent(checks[..i + 1])| as real <= rate
  }

  ghost predicate Windowed(cfg: Config, s: System) {
    && Chronological(s.checks)
    && (s.checks != [] ==> s.clock.Some? && Last(s.checks).time <= s.clock.value)
    && s.peer.arrivals == Map(Recent(s.checks), TimeOf)
    && (cfg.ratePerSec.Some? ==> AdmittedWithin(s.checks, cfg.ratePerSec.value))
    && (cfg.ratePerSec.None? ==> s.checks == [])
  }

  lemma {:induction false} DropOldFilters(checks: seq<Check>, cutoff: real)
    requires Chronological(checks)
    ensures DropOld(Map(checks, TimeOf), cutoff) == Map(Filter(checks, Since(cutoff)), TimeOf)
    decreases |checks|
  {
    var times := Map(checks, TimeOf);
    if |checks| == 0 {
    } else if checks[0].time < cutoff {
      var rest := checks[1..];
      DropOldFilters(rest, cutoff);
      assert times[1..] == Map(rest, TimeOf);
      assert checks == [checks[0]] + rest;
      FilterAppend([checks[0]], rest, Since(cutoff));
      FilterOne(checks[0], Since(cutoff));
    } else {
      FilterAll(checks, Since(cutoff));
    }
  }

  /** A later cutoff applied to the recent checks is that cutoff applied to all. */
  lemma RecentAgain(checks: seq<Check>, cutoff: real)
    requires checks != [] ==> Last(checks).time - 1.0 <= cutoff
    ensures Filter(Recent(checks), Since(cutoff)) == Filter(checks, Since(cutoff))
  {
    if checks != [] {
      var earlier := Since(Last(checks).time - 1.0);
      FilterFilter(checks, earlier, Since(cutoff));
      FilterAgree(checks, Both(earlier, Since(cutoff)), Since(cutoff));
    }
  }

  lemma {:induction false} FilterChronological(checks: seq<Check>, p: Check -> bool)
    requires Chronological(checks)
    ensures Chronological(Filter(checks, p))
  {
    if |checks| > 0 {
      FilterChronological(Init(checks), p);
      var kept := Filter(Init(checks), p);
      forall i | 0 <= i < |kept| ensures kept[i].time <= Last(checks).time {
        assert kept[i] in kept;
        FilterMember(Init(checks), p, kept[i]);
      }
    }
  }

  /** Checking in updates the window to the last second, this check included. */
  lemma CheckIn(checks: seq<Check>, arrivals: seq<real>, c: Check)
    requires Chronological(checks) && arrivals == Map(Recent(checks), TimeOf)
    requires checks != [] ==> Last(checks).time <= c.time
    ensures DropOld(arrivals, c.time - 1.0) + [c.time] == Map(Recent(checks + [c]), TimeOf)
    ensures |Recent(checks + [c])| == |DropOld(arrivals, c.time - 1.0)| + 1
  {
    hide Filter, Recent, DropOld, Map, Chronological;
    var cutoff := c.time - 1.0;
    RecentChronological(checks);
    DropOldFilters(Recent(checks), cutoff);
    RecentAgain(checks, cutoff);
    RecentNext(checks, c);
    MapAppend(Filter(checks, Since(cutoff)), c, TimeOf);
  }

  lemma RecentChronological(checks: seq<Check>)
    requires Chronological(checks)
    ensures Chronological(Recent(checks))
  {
    if checks != [] {
      FilterChronological(checks, Since(Last(checks).time - 1.0));
    }
  }

  lemma RecentNext(checks: seq<Check>, c: Check)
    ensures Recent(checks + [c]) == Filter(checks, Since(c.time - 1.0)) + [c]
  {
    FilterAppend(checks, [c], Since(c.time - 1.0));
    FilterOne(c, Since(c.time - 1.0));
    InitAppend(checks, c);
    hide Filter;
  }

  lemma AdmitNext(checks: seq<Check>, c: Check, rate: real)
    requires AdmittedWithin(checks, rate)
    requires c.accepted ==> |Recent(checks + [c])| as real <= rate
    ensures AdmittedWithin(checks + [c], rate)
  {
    var all := checks + [c];
    forall i | 0 <= i < |all| && all[i].accepted ensures |Recent(all[..i + 1])| as real <= rate {
      if i < |checks| {
        assert all[..i + 1] == checks[..i + 1];
      } else {
        assert all[..i + 1] == all;
      }
    }
  }

  /** A step that does not reach the rate check leaves the window alone. */
  lemma WindowUntouched(cfg: Config, s: System, step: Step)
    requires Windowed(cfg, s) && Enabled(s, step)
    requires !(step.Arrive? && cfg.ratePerSec.Some? && !GateShut(cfg, s.peer))
    ensures Windowed(cfg, Next(cfg, s, step))
  {
    hide Recent, Window, AdmittedWithin, Map, Chronological, Injects;
  }

  lemma WindowedArrive(cfg: Config, s: System, step: Step)
    requires Windowed(cfg, s) && Enabled(s, step)
    requires step.Arrive? && cfg.ratePerSec.Some? && !GateShut(cfg, s.peer)
    ensures Windowed(cfg, Next(cfg, s, step))
  {
    var c := Check(step.now, ArriveOutcome(cfg, s.peer, step.now) == Suspended);
    CheckIn(s.checks, s.peer.arrivals, c);
    AdmitNext(s.checks, c, cfg.ratePerSec.value);
    InitAppend(s.checks, c);
    CheckedIn(cfg, s, step, c);
    hide Recent, DropOld, AdmittedWithin, Map, Next, GateShut, Window;
  }

  /** What a check-in changes. */
  lemma CheckedIn(cfg: Config, s: System, step: Step, c: Check)
    requires step.Arrive? && cfg.ratePerSec.Some? && !GateShut(cfg, s.peer)
    requires c == Check(step.now, ArriveOutcome(cfg, s.peer, step.now) == Suspended)
    ensures var next := Next(cfg, s, step);
            && next.checks == s.checks + [c] && next.clock == Some(step.now)
            && next.peer.arrivals == Window(s.peer, step.now)
            && Window(s.peer, step.now) == DropOld(s.peer.arrivals, step.now - 1.0) + [step.now]
            && (c.accepted ==> |Window(s.peer, step.now)| as real <= cfg.ratePerSec.value)
  {
    hide DropOld;
  }

  lemma WindowedStep(cfg: Config, s: System, step: Step)
    requires Windowed(cfg, s) && Enabled(s, step)
    ensures Windowed(cfg, Next(cfg, s, step))
  {
    hide Windowed, Next, Enabled;
    if step.Arrive? && cfg.ratePerSec.Some? && !GateShut(cfg, s.peer) {
      WindowedArrive(cfg, s, step);
    } else {
      WindowUntouched(cfg, s, step);
    }
  }

  lemma NothingWindowed(cfg: Config)
    ensures Windowed(cfg, BOOT)
  {
  }

  /** On every run the deque holds exactly the checks, accepted or not, of the
      second ending at the latest check. */
  lemma {:induction false} EveryRunWindowed(cfg: Config, steps: seq<Step>)
    requires Legal(cfg, steps)
    ensures Windowed(cfg, Run(cfg, steps))
  {
    if |steps| == 0 {
      NothingWindowed(cfg);
    } else {
      EveryRunWindowed(cfg, Init(steps));
      WindowedStep(cfg, Run(cfg, Init(steps)), Last(steps));
    }
  }

  function AcceptedIn(a: real): Check -> bool {
    (c: Check) => c.accepted && a <= c.time <= a + 1.0
  }

  lemma {:induction false} FilterWeaker<T>(xs: seq<T>, p: T -> bool, q: T -> bool)
    requires forall x :: x in xs && p(x) ==> q(x)
    ensures |Filter(xs, p)| <= |Filter(xs, q)|
  {
    if |xs| > 0 {
      FilterWeaker(Init(xs), p, q);
      InitLast(xs);
    }
  }

  lemma LastInInterval(checks: seq<Check>, rate: real, a: real)
    requires checks != [] && Chronological(checks) && AdmittedWithin(checks, rate)
    requires AcceptedIn(a)(Last(checks))
    ensures |Filter(checks, AcceptedIn(a))| as real <= rate
  {
    hide Filter;
    assert checks[..|checks|] == checks;
    assert checks[|checks| - 1].accepted;
    FilterWeaker(checks, AcceptedIn(a), Since(Last(checks).time - 1.0));
  }

  lemma {:induction false} IntervalBound(checks: seq<Check>, rate: real, a: real)
    requires Chronological(checks) && AdmittedWithin(checks, rate)
    ensures var n := |Filter(checks, AcceptedIn(a))|; n == 0 || n as real <= rate
  {
    if |checks| > 0 {
      var before, c := Init(checks), Last(checks);
      forall i | 0 <= i < |before| && before[i].accepted ensures |Recent(before[..i + 1])| as real <= rate {
        assert before[..i + 1] == checks[..i + 1];
      }
      IntervalBound(before, rate, a);
      if AcceptedIn(a)(c) {
        LastInInterval(checks, rate, a);
      }
    }
  }

  /** Rate safety: on every run with a non-decreasing clock, no closed interval
      of one second admits more than `rate_per_sec` requests. */
  lemma RateSafety(cfg: Config, steps: seq<Step>, a: real)
    requires Legal(cfg, steps) && cfg.ratePerSec.Some?
    ensures var n := |Filter(Run(cfg, steps).checks, AcceptedIn(a))|;
            n == 0 || n as real <= cfg.ratePerSec.value
  {
    EveryRunWindowed(cfg, steps);
    IntervalBound(Run(cfg, steps).checks, cfg.ratePerSec.value, a);
  }

  lemma WindowSize(cfg: Config, s: System, now: real)
    requires Windowed(cfg, s) && (s.clock.Some? ==> s.clock.value <= now)
    ensures |Window(s.peer, now)| == |Filter(s.checks, Since(now - 1.0))| + 1
  {
    hide Filter, Recent, DropOld, Map, AdmittedWithin;
    CheckIn(s.checks, s.peer.arrivals, Check(now, true));
    RecentNext(s.checks, Check(now, true));
  }

  /** A check is turned away exactly when it, together with the checks of the
      second before it, exceeds the rate. */
  lemma RejectedIff(cfg: Config, steps: seq<Step>, now: real)
    requires Legal(cfg, steps) && cfg.ratePerSec.Some?
    requires Run(cfg, steps).clock.Some? ==> Run(cfg, steps).clock.value <= now
    ensures RateExceeded(cfg, Run(cfg, steps).peer, now)
       <==> (|Filter(Run(cfg, steps).checks, Since(now - 1.0))| + 1) as real > cfg.ratePerSec.value
  {
    EveryRunWindowed(cfg, steps);
    WindowSize(cfg, Run(cfg, steps), now);
    hide Run, Window, Filter, Windowed;
  }

  /** The checks of the second before `now`, as the documentation counts them. */
  ghost function Reached(cfg: Config, steps: seq<Step>, now: real): nat {
    |Filter(Run(cfg, steps).checks, Since(now - 1.0))|
  }

  /** The code and the documented rule, "more than the rate have already reached this check",
      agree except where the request itself is the one too many. */
  lemma DocumentedRateIff(cfg: Config, steps: seq<Step>, now: real)
    requires Legal(cfg, steps) && cfg.ratePerSec.Some?
    requires Run(cfg, steps).clock.Some? ==> Run(cfg, steps).clock.value <= now
    ensures var documented := Reached(cfg, steps, now) as real > cfg.ratePerSec.value;
            (RateExceeded(cfg, Run(cfg, steps).peer, now) <==> documented)
            <==> !(Reached(cfg, steps, now) as real <= cfg.ratePerSec.value < (Reached(cfg, steps, now) + 1) as real)
  {
    RejectedIff(cfg, steps, now);
    hide RateExceeded, Run, Legal, Filter;
  }

  /** At a rate of one per second the second request of a moment is turned away, although
      only one, not more than one, has reached the check before. */
  lemma SecondRequestRejected()
    ensures var cfg, steps := Config(None, Some(1.0), 0.0), [Arrive(0, 0.0)];
            && Legal(cfg, steps) && RateExceeded(cfg, Run(cfg, steps).peer, 0.0)
            && Reached(cfg, steps, 0.0) == 1
  {
    var cfg, steps := Config(None, Some(1.0), 0.0), [Arrive(0, 0.0)];
    assert Init(steps) == [] && Last(steps) == Arrive(0, 0.0);
    assert Window(START, 0.0) == [0.0];
    var checks := Run(cfg, steps).checks;
    assert checks == [Check(0.0, true)];
    FilterOne(Check(0.0, true), Since(-1.0));
    RejectedIff(cfg, steps, 0.0);
  }

  /** A request is turned away exactly if the cap's number of handlers is suspended, or it
      exceeds the rate together with the checks of the second before it. */
  lemma ThrottledIff(cfg: Config, steps: seq<Step>, now: real)
    requires Legal(cfg, steps)
    requires Run(cfg, steps).clock.Some? ==> Run(cfg, steps).clock.value <= now
    ensures ArriveOutcome(cfg, Run(cfg, steps).peer, now) == Throttled
       <==> || (cfg.maxConcurrency.Some? && |Run(cfg, steps).suspended| >= cfg.maxConcurrency.value)
            || (cfg.ratePerSec.Some? && (Reached(cfg, steps, now) + 1) as real > cfg.ratePerSec.value)
  {
    EveryRunCounted(cfg, steps);
    if cfg.ratePerSec.Some? {
      RejectedIff(cfg, steps, now);
    }
    hide Run, Legal, Window, Filter;
  }
}
