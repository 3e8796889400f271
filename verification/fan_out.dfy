/** Threads that each make a fixed number of calls and write every outcome into
    a result slot of their own. */
module FanOut {
  import opened Sequences

  /** One call coming back to its worker with a value or a captured exception. */
  datatype Step<T, E> = Step(worker: nat, outcome: Result<T, E>)

  datatype Failure<E> = NoWorkers | Raised(error: E)

  /** The two slot lists and how many calls each worker has made. */
  datatype Slots<T, E> = Slots(results: seq<Option<T>>, errors: seq<Option<E>>, made: seq<nat>)

  function SlotOf(per: nat, worker: nat, call: nat): nat {
    worker * per + call
  }

  lemma SlotInRange(workers: nat, per: nat, worker: nat, call: nat)
    requires worker < workers && call < per
    ensures SlotOf(per, worker, call) < workers * per
  {
    assert (worker + 1) * per <= workers * per;
  }

  lemma SlotsOrdered(per: nat, w: nat, c: nat, v: nat, d: nat)
    requires c < per && d < per && w < v
    ensures SlotOf(per, w, c) < SlotOf(per, v, d)
  {
    assert (w + 1) * per <= v * per;
  }

  /** Slots follow (worker, call) order, so no two calls share one. */
  lemma SlotOrder(per: nat, w: nat, c: nat, v: nat, d: nat)
    requires c < per && d < per
    ensures SlotOf(per, w, c) < SlotOf(per, v, d) <==> w < v || (w == v && c < d)
    ensures SlotOf(per, w, c) == SlotOf(per, v, d) <==> w == v && c == d
  {
    if w < v {
      SlotsOrdered(per, w, c, v, d);
    } else if v < w {
      SlotsOrdered(per, v, d, w, c);
    }
  }

  /** Every slot belongs to some call. */
  lemma SlotOwner(workers: nat, per: nat, slot: nat) returns (worker: nat, call: nat)
    requires slot < workers * per
    ensures worker < workers && call < per && SlotOf(per, worker, call) == slot
  {
    worker, call := slot / per, slot % per;
    assert worker * per < workers * per;
  }

  // ----- The slot lists, as the threads write them

  function Write<A>(slots: seq<Option<A>>, slot: nat, value: Option<A>): seq<Option<A>>
    requires slot < |slots|
  {
    if value.Some? then slots[slot := value] else slots
  }

  function ValueOf<T, E>(r: Result<T, E>): Option<T> {
    if r.Ok? then Some(r.value) else None
  }

  function ErrorOf<T, E>(r: Result<T, E>): Option<E> {
    if r.Err? then Some(r.error) else None
  }

  /** The first captured error in slot order. */
  function FirstError<E>(errors: seq<Option<E>>): Option<E> {
    if |errors| == 0 then None
    else if FirstError(Init(errors)).Some? then FirstError(Init(errors))
    else Last(errors)
  }

  function Gathered<T, E>(results: seq<Option<T>>, errors: seq<Option<E>>): Result<seq<Option<T>>, Failure<E>> {
    if FirstError(errors).Some? then Err(Raised(FirstError(errors).value)) else Ok(results)
  }

  lemma {:induction false} FirstErrorPrefix<E>(errors: seq<Option<E>>, n: nat)
    requires n <= |errors| && FirstError(errors[..n]).Some?
    ensures FirstError(errors) == FirstError(errors[..n])
    decreases |errors|
  {
    if n < |errors| {
      assert Init(errors)[..n] == errors[..n];
      FirstErrorPrefix(Init(errors), n);
    } else {
      assert errors[..n] == errors;
    }
  }

  class Board<T, E> {
    const perWorker: nat
    const results: array<Option<T>>
    const errors: array<Option<E>>

    ghost predicate Valid()
      reads this
    {
      (results as object) != errors && results.Length == errors.Length
    }

    constructor (workers: nat, perWorker: nat)
      ensures Valid() && this.perWorker == perWorker
      ensures fresh(results) && fresh(errors)
      ensures results[..] == seq(workers * perWorker, i => None)
      ensures errors[..] == seq(workers * perWorker, i => None)
    {
      this.perWorker := perWorker;
      results := new Option<T>[workers * perWorker](_ => None);
      errors := new Option<E>[workers * perWorker](_ => None);
    }

    /** The end of one call inside a worker's loop. */
    method Finish(worker: nat, call: nat, outcome: Result<T, E>)
      requires Valid() && SlotOf(perWorker, worker, call) < results.Length
      modifies results, errors
      ensures results[..] == Write(old(results[..]), SlotOf(perWorker, worker, call), ValueOf(outcome))
      ensures errors[..] == Write(old(errors[..]), SlotOf(perWorker, worker, call), ErrorOf(outcome))
    {
      var slot := worker * perWorker + call;
      match outcome {
        case Ok(value) => results[slot] := Some(value);
        case Err(error) => errors[slot] := Some(error);
      }
    }

    /** After the pool has shut down: the first error is raised again. */
    method Gather() returns (r: Result<seq<Option<T>>, Failure<E>>)
      ensures r == Gathered(results[..], errors[..])
    {
      for i := 0 to errors.Length
        invariant FirstError(errors[..i]).None?
      {
        assert Init(errors[..i + 1]) == errors[..i];
        if errors[i].Some? {
          FirstErrorPrefix(errors[..], i + 1);
          assert errors[..][..i + 1] == errors[..i + 1];
          return Err(Raised(errors[i].value));
        }
      }
      assert errors[..errors.Length] == errors[..];
      return Ok(results[..]);
    }
  }

  // ----- Thread schedules

  ghost predicate Shaped<T, E>(workers: nat, per: nat, s: Slots<T, E>) {
    && |s.results| == |s.errors| == workers * per
    && |s.made| == workers
  }

  function Blank<T, E>(workers: nat, per: nat): (s: Slots<T, E>)
    ensures Shaped(workers, per, s)
  {
    Slots(seq(workers * per, i => None), seq(workers * per, i => None), seq(workers, i => 0))
  }

  predicate Enabled<T, E>(per: nat, s: Slots<T, E>, step: Step<T, E>) {
    step.worker < |s.made| && s.made[step.worker] < per
  }

  /** A worker makes its calls in order, each into the slot of its own number. */
  function Next<T, E>(workers: nat, per: nat, s: Slots<T, E>, step: Step<T, E>): (t: Slots<T, E>)
    requires Shaped(workers, per, s) && Enabled(per, s, step)
    ensures Shaped(workers, per, t)
  {
    var w := step.worker;
    var c := s.made[w];
    SlotInRange(workers, per, w, c);
    Slots(Write(s.results, SlotOf(per, w, c), ValueOf(step.outcome)),
          Write(s.errors, SlotOf(per, w, c), ErrorOf(step.outcome)),
          s.made[w := c + 1])
  }

  /** The state after a schedule, or None when a worker was asked for a call too many. */
  ghost function Run<T, E>(workers: nat, per: nat, steps: seq<Step<T, E>>): (s: Option<Slots<T, E>>)
    ensures s.Some? ==> Shaped(workers, per, s.value)
  {
    if |steps| == 0 then Some(Blank(workers, per))
    else
      var before := Run(workers, per, Init(steps));
      if before.Some? && Enabled(per, before.value, Last(steps))
      then Some(Next(workers, per, before.value, Last(steps))) else None
  }

  ghost predicate Complete<T, E>(per: nat, s: Slots<T, E>) {
    forall w :: 0 <= w < |s.made| ==> s.made[w] == per
  }

  function OfWorker<T, E>(w: nat): Step<T, E> -> bool {
    (step: Step<T, E>) => step.worker == w
  }

  function OutcomeOf<T, E>(step: Step<T, E>): Result<T, E> {
    step.outcome
  }

  /** What worker `w` got back, call by call. */
  ghost function Outcomes<T, E>(steps: seq<Step<T, E>>, w: nat): seq<Result<T, E>> {
    Map(Filter(steps, OfWorker(w)), OutcomeOf)
  }

  lemma OutcomesNext<T, E>(steps: seq<Step<T, E>>, w: nat)
    requires |steps| > 0
    ensures Outcomes(steps, w) == Outcomes(Init(steps), w) + if Last(steps).worker == w then [Last(steps).outcome] else []
  {
    var kept := Filter(Init(steps), OfWorker(w));
    if Last(steps).worker == w {
      MapAppend(kept, Last(steps), OutcomeOf);
    } else {
      assert Filter(steps, OfWorker(w)) == kept;
    }
  }

  /** The slot of call `c` of worker `w` holds that call's outcome once it is made, and nothing before. */
  ghost predicate Holds<T, E>(per: nat, s: Slots<T, E>, outcomes: seq<Result<T, E>>, w: nat, c: nat)
    requires SlotOf(per, w, c) < |s.results| == |s.errors|
  {
    var slot := SlotOf(per, w, c);
    if c < |outcomes| then s.results[slot] == ValueOf(outcomes[c]) && s.errors[slot] == ErrorOf(outcomes[c])
    else s.results[slot] == None && s.errors[slot] == None
  }

  lemma HoldsNext<T, E>(workers: nat, per: nat, steps: seq<Step<T, E>>, w: nat, c: nat)
    requires |steps| > 0 && w < workers && c < per && SlotOf(per, w, c) < workers * per
    requires Run(workers, per, steps).Some?
    requires forall v: nat :: v < workers ==> Run(workers, per, Init(steps)).value.made[v] == |Outcomes(Init(steps), v)|
    requires Holds(per, Run(workers, per, Init(steps)).value, Outcomes(Init(steps), w), w, c)
    ensures Holds(per, Run(workers, per, steps).value, Outcomes(steps, w), w, c)
  {
    var s, step := Run(workers, per, Init(steps)).value, Last(steps);
    OutcomesNext(steps, w);
    SlotOrder(per, step.worker, s.made[step.worker], w, c);
    hide Run, Outcomes, SlotOf;
  }

  /** On every schedule each call's outcome is in the call's own slot and stays there. */
  lemma {:induction false} EveryCallInItsSlot<T, E>(workers: nat, per: nat, steps: seq<Step<T, E>>, w: nat)
    requires Run(workers, per, steps).Some? && w < workers
    ensures Run(workers, per, steps).value.made[w] == |Outcomes(steps, w)| <= per
    ensures forall c: nat {:trigger SlotOf(per, w, c)} :: c < per ==>
      SlotOf(per, w, c) < workers * per && Holds(per, Run(workers, per, steps).value, Outcomes(steps, w), w, c)
  {
    if |steps| > 0 {
      forall v: nat | v < workers
        ensures Run(workers, per, Init(steps)).value.made[v] == |Outcomes(Init(steps), v)|
      {
        EveryCallInItsSlot(workers, per, Init(steps), v);
      }
      EveryCallInItsSlot(workers, per, Init(steps), w);
      OutcomesNext(steps, w);
    }
    forall c: nat | c < per
      ensures SlotOf(per, w, c) < workers * per && Holds(per, Run(workers, per, steps).value, Outcomes(steps, w), w, c)
    {
      SlotInRange(workers, per, w, c);
      if |steps| > 0 {
        HoldsNext(workers, per, steps, w, c);
      }
    }
  }

  /** A write never meets a slot that is already taken. */
  lemma WrittenOnce<T, E>(workers: nat, per: nat, steps: seq<Step<T, E>>, step: Step<T, E>)
    requires Run(workers, per, steps).Some? && Enabled(per, Run(workers, per, steps).value, step)
    ensures var s := Run(workers, per, steps).value;
            var slot := SlotOf(per, step.worker, s.made[step.worker]);
            slot < workers * per && s.results[slot] == None && s.errors[slot] == None
  {
    EveryCallInItsSlot(workers, per, steps, step.worker);
    hide Run, Outcomes;
    var c := Run(workers, per, steps).value.made[step.worker];
    assert SlotOf(per, step.worker, c) < workers * per;
  }

  /** A complete schedule has made every call exactly once. */
  lemma {:induction false} ScheduleLength<T, E>(workers: nat, per: nat, steps: seq<Step<T, E>>)
    requires Run(workers, per, steps).Some?
    ensures Sum(Run(workers, per, steps).value.made) == |steps|
    ensures Complete(per, Run(workers, per, steps).value) ==> |steps| == workers * per
  {
    if |steps| == 0 {
      SumConstant(Blank<T, E>(workers, per).made, 0);
    } else {
      ScheduleLength(workers, per, Init(steps));
      var made := Run(workers, per, Init(steps)).value.made;
      SumUpdate(made, Last(steps).worker, made[Last(steps).worker] + 1);
    }
    if Complete(per, Run(workers, per, steps).value) {
      SumConstant(Run(workers, per, steps).value.made, per);
    }
  }

  lemma {:induction false} SumConstant(xs: seq<nat>, k: nat)
    requires forall i :: 0 <= i < |xs| ==> xs[i] == k
    ensures Sum(xs) == |xs| * k
  {
    if |xs| > 0 {
      SumConstant(Init(xs), k);
    }
  }

  // ----- What the caller sees

  /** `n_workers` and `per_worker` as given: the pool refuses fewer than one worker. */
  ghost function RunConcurrently<T, E>(workers: int, per: int, steps: seq<Step<T, E>>): Option<Result<seq<Option<T>>, Failure<E>>> {
    if workers <= 0 then Some(Err(NoWorkers))
    else
      var calls := if per < 0 then 0 else per;
      var end := Run(workers, calls, steps);
      if end.Some? && Complete(calls, end.value) then Some(Gathered(end.value.results, end.value.errors)) else None
  }

  lemma {:induction false} FirstErrorAt<E>(errors: seq<Option<E>>, k: nat)
    requires k < |errors| && errors[k].Some? && forall i :: 0 <= i < k ==> errors[i].None?
    ensures FirstError(errors) == errors[k]
  {
    NoErrors(errors[..k]);
    InitAppend(errors[..k], errors[k]);
    assert errors[..k + 1] == errors[..k] + [errors[k]];
    FirstErrorPrefix(errors, k + 1);
  }

  lemma {:induction false} NoErrors<E>(errors: seq<Option<E>>)
    requires forall i :: 0 <= i < |errors| ==> errors[i].None?
    ensures FirstError(errors) == None
  {
    if |errors| > 0 {
      NoErrors(Init(errors));
    }
  }

  /** Call `c` of worker `w` came back with an exception. */
  ghost predicate Fails<T, E>(steps: seq<Step<T, E>>, w: nat, c: nat) {
    c < |Outcomes(steps, w)| && Outcomes(steps, w)[c].Err?
  }

  lemma SlotContent<T, E>(workers: nat, per: nat, steps: seq<Step<T, E>>, w: nat, c: nat)
    requires Run(workers, per, steps).Some? && Complete(per, Run(workers, per, steps).value)
    requires w < workers && c < per
    ensures |Outcomes(steps, w)| == per && SlotOf(per, w, c) < workers * per
    ensures Run(workers, per, steps).value.results[SlotOf(per, w, c)] == ValueOf(Outcomes(steps, w)[c])
    ensures Run(workers, per, steps).value.errors[SlotOf(per, w, c)] == ErrorOf(Outcomes(steps, w)[c])
  {
    EveryCallInItsSlot(workers, per, steps, w);
    assert SlotOf(per, w, c) < workers * per;
    hide Run, Outcomes;
  }

  /** Nothing fails before call `c` of worker `w`. */
  ghost predicate NoneBefore<T, E>(workers: nat, per: nat, steps: seq<Step<T, E>>, w: nat, c: nat) {
    forall v: nat, d: nat :: v < workers && d < per && (v < w || (v == w && d < c)) ==> !Fails(steps, v, d)
  }

  /** The list has the value of call `c` of worker `w` in its place. */
  ghost predicate Delivered<T, E>(per: nat, steps: seq<Step<T, E>>, values: seq<Option<T>>, w: nat, c: nat) {
    && SlotOf(per, w, c) < |values| && c < |Outcomes(steps, w)| && Outcomes(steps, w)[c].Ok?
    && values[SlotOf(per, w, c)] == Some(Outcomes(steps, w)[c].value)
  }

  lemma NoErrorBefore<T, E>(workers: nat, per: nat, steps: seq<Step<T, E>>, w: nat, c: nat, slot: nat)
    requires Run(workers, per, steps).Some? && Complete(per, Run(workers, per, steps).value)
    requires NoneBefore(workers, per, steps, w, c) && w <= workers && slot < workers * per
    requires w < workers ==> c < per && slot < SlotOf(per, w, c)
    ensures Run(workers, per, steps).value.errors[slot] == None
  {
    hide Run, Complete, Outcomes, Fails;
    var v, d := SlotOwner(workers, per, slot);
    SlotContent(workers, per, steps, v, d);
    if w < workers {
      SlotOrder(per, v, d, w, c);
    }
    hide SlotOf;
    assert !Fails(steps, v, d);
    NotFailed(steps, v, d);
  }

  lemma NotFailed<T, E>(steps: seq<Step<T, E>>, w: nat, c: nat)
    requires !Fails(steps, w, c) && c < |Outcomes(steps, w)|
    ensures Outcomes(steps, w)[c].Ok? && ErrorOf(Outcomes(steps, w)[c]) == None
  {
  }

  lemma DeliveredAt<T, E>(workers: nat, per: nat, steps: seq<Step<T, E>>, w: nat, c: nat)
    requires Run(workers, per, steps).Some? && Complete(per, Run(workers, per, steps).value)
    requires w < workers && c < per && !Fails(steps, w, c)
    ensures Delivered(per, steps, Run(workers, per, steps).value.results, w, c)
  {
    hide Run, Complete, Outcomes, Fails, SlotOf;
    SlotContent(workers, per, steps, w, c);
    NotFailed(steps, w, c);
  }

  /** Without a failure the caller gets every value at the place of its (worker, call). */
  lemma AllValuesInOrder<T, E>(workers: nat, per: nat, steps: seq<Step<T, E>>)
    requires workers > 0 && RunConcurrently(workers, per, steps).Some?
    requires NoneBefore(workers, per, steps, workers, 0)
    ensures var r := RunConcurrently(workers, per, steps).value;
            && r.Ok? && |r.value| == workers * per
            && forall w: nat, c: nat :: w < workers && c < per ==> Delivered(per, steps, r.value, w, c)
  {
    var s := Run(workers, per, steps).value;
    hide Run, Complete, Outcomes, Fails, NoneBefore, Delivered;
    forall slot: nat | slot < workers * per ensures s.errors[slot] == None {
      NoErrorBefore(workers, per, steps, workers, 0, slot);
    }
    NoErrors(s.errors);
    forall w: nat, c: nat | w < workers && c < per ensures Delivered(per, steps, s.results, w, c) {
      NoneFails(workers, per, steps, w, c);
      DeliveredAt(workers, per, steps, w, c);
    }
  }

  lemma NoneFails<T, E>(workers: nat, per: nat, steps: seq<Step<T, E>>, w: nat, c: nat)
    requires NoneBefore(workers, per, steps, workers, 0) && w < workers && c < per
    ensures !Fails(steps, w, c)
  {
  }

  /** With a failure the caller gets the error of the least failing (worker, call),
      however late it happened. */
  lemma FirstFailureRaised<T, E>(workers: nat, per: nat, steps: seq<Step<T, E>>, w: nat, c: nat)
    requires RunConcurrently(workers, per, steps).Some? && w < workers && c < per
    requires Fails(steps, w, c) && NoneBefore(workers, per, steps, w, c)
    ensures RunConcurrently(workers, per, steps).value == Err(Raised(Outcomes(steps, w)[c].error))
  {
    var s := Run(workers, per, steps).value;
    SlotContent(workers, per, steps, w, c);
    hide Run, Complete, Outcomes, NoneBefore;
    var first := SlotOf(per, w, c);
    forall slot: nat | slot < first ensures s.errors[slot] == None {
      NoErrorBefore(workers, per, steps, w, c, slot);
    }
    FirstErrorAt(s.errors, first);
  }

  /** Timing does not matter: two complete schedules in which every worker got the
      same outcomes call by call give the caller the same answer. */
  lemma TimingIrrelevant<T, E>(workers: int, per: int, steps: seq<Step<T, E>>, other: seq<Step<T, E>>)
    requires RunConcurrently(workers, per, steps).Some? && RunConcurrently(workers, per, other).Some?
    requires forall w: nat :: w < workers ==> Outcomes(steps, w) == Outcomes(other, w)
    ensures RunConcurrently(workers, per, steps) == RunConcurrently(workers, per, other)
  {
    if workers > 0 {
      var calls := if per < 0 then 0 else per;
      var s, t := Run(workers, calls, steps).value, Run(workers, calls, other).value;
      hide Run, Outcomes;
      forall slot: nat | slot < workers * calls
        ensures s.results[slot] == t.results[slot] && s.errors[slot] == t.errors[slot]
      {
        var w, c := SlotOwner(workers, calls, slot);
        SlotContent(workers, calls, steps, w, c);
        SlotContent(workers, calls, other, w, c);
      }
      assert s.results == t.results && s.errors == t.errors;
    }
  }
}
