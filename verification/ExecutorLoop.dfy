/**
 * The executor's main loop around one claim pass (worker/executor.py): the ramp's capacity, the pass
 * budget, load shedding and the drain, with hot reloads and finishing executions in between.
 */
module ExecutorLoop {
  import opened Basics
  import opened ClaimAdmission
  import opened ClaimSafety
  import opened ClaimShaping
  import R = RampUp

  /** What the loop carries: the claim ledger, the ramp, and since when claiming is paused. */
  datatype Executor = Executor(ledger: Ledger, ramp: R.Carried)

  /** The hot-read inputs of one pass, the load factor, and what the Host does. */
  datatype Inputs = Inputs(
    now: real, claimEnabled: bool, uploadDepth: int, backlog: Option<int>, factor: Option<real>, batchLimit: int,
    host: nat -> Answer)

  datatype Event =
    | Pass(inputs: Inputs)
    | Reload(controls: R.Controls)
    | Finish(remaining: PerPool)

  function RampEvent(i: Inputs): R.Event {
    R.Pass(i.now, i.claimEnabled)
  }

  /** The capacity of the pass is the ramp's view, or the target without one. */
  function Effective(x: Executor, i: Inputs, target: int): int {
    R.Used(x.ramp, RampEvent(i), target)
  }

  function ControlsOf(x: Executor, i: Inputs, target: int, codeTarget: int): Controls {
    Controls(Effective(x, i, target), target, codeTarget, i.claimEnabled, i.uploadDepth, i.backlog)
  }

  function Claims(x: Executor, i: Inputs, target: int, codeTarget: int): Outcome
    requires ProperFactor(i.factor)
  {
    ClaimSafety.Pass(x.ledger, ControlsOf(x, i, target, codeTarget), i.factor, i.batchLimit, i.host)
  }

  predicate Proper(e: Event) {
    match e
    case Pass(i) => i.factor.Some? ==> 0.0 <= i.factor.value <= 1.0
    case _ => true
  }

  function Next(x: Executor, e: Event, target: int, codeTarget: int): Executor
    requires Proper(e)
  {
    match e
    case Pass(i) => Executor(Claims(x, i, target, codeTarget).ledger, R.Next(x.ramp, RampEvent(i), target))
    case Reload(controls) => x.(ramp := R.Next(x.ramp, R.Reload(controls), target))
    case Finish(remaining) => x.(ledger := x.ledger.(active := remaining))
  }

  /** One pass of the loop on the objects it works with. */
  method ClaimPass(
    ramp: R.RampUpState, ctx: ClaimRunContext, pausedSince: Option<real>, i: Inputs, target: int, codeTarget: int)
    returns (paused: Option<real>, claimed: bool, raised: bool)
    requires ctx.Valid() && Proper(Pass(i))
    modifies ramp, ctx
    ensures ctx.Valid()
    ensures Executor(ctx.View(), R.Carried(ramp.View(), paused)) ==
            Next(Executor(old(ctx.View()), R.Carried(old(ramp.View()), pausedSince)), Pass(i), target, codeTarget)
  {
    ghost var x := Executor(ctx.View(), R.Carried(ramp.View(), pausedSince));
    var effective;
    effective, paused := RampPass(ramp, pausedSince, target, i.now, i.claimEnabled);
    var c := Controls(effective, target, codeTarget, i.claimEnabled, i.uploadDepth, i.backlog);
    assert c == ControlsOf(x, i, target, codeTarget);
    var budget, declared := ctx.PassBudgets(c);
    assert ctx.View() == Lifted(x.ledger, c);
    BudgetIsBounded(x.ledger, c, i.factor);
    budget := Shed(budget, i.factor);
    var left;
    left, claimed, raised := ctx.DrainBudget(budget, declared, i.batchLimit, i.host);
  }

  /** `ramp_pass`, and the capacity it gives. */
  method RampPass(ramp: R.RampUpState, pausedSince: Option<real>, target: int, now: real, claimEnabled: bool)
    returns (effective: int, paused: Option<real>)
    modifies ramp
    ensures effective == R.Used(R.Carried(old(ramp.View()), pausedSince), R.Pass(now, claimEnabled), target)
    ensures R.Carried(ramp.View(), paused) ==
            R.Next(R.Carried(old(ramp.View()), pausedSince), R.Pass(now, claimEnabled), target)
  {
    if !ramp.active {
      return target, pausedSince;
    }
    if !claimEnabled {
      var view := ramp.ObserveAt(target, now, false, 0.0);
      return view.effective, if pausedSince.None? then Some(now) else pausedSince;
    }
    var view := ramp.ObserveAt(target, now, true, if pausedSince.None? then 0.0 else now - pausedSince.value);
    return view.effective, None;
  }

  // ----- Containment over whole runs of the loop -----

  /** The ramp climbs towards the target, and the ledger is contained by the capacity it has reached. */
  ghost predicate Steady(x: Executor, target: int, codeTarget: int) {
    R.Climbing(x.ramp.ramp, target) && Contained(x.ledger, R.Reached(x.ramp.ramp, target), codeTarget)
  }

  /** Reloads keep the ramp enabled, Hosts grant one by declaration, executions only finish. */
  ghost predicate Allowed(x: Executor, e: Event, target: int, codeTarget: int) {
    && Proper(e)
    && match e
       case Pass(i) => AllByDeclaration(Claims(x, i, target, codeTarget).rounds)
       case Reload(controls) => controls.enabled && controls.Validated()
       case Finish(remaining) =>
         remaining.agent <= x.ledger.active.agent && remaining.code <= x.ledger.active.code
  }

  ghost predicate AllowedRun(x: Executor, events: seq<Event>, target: int, codeTarget: int)
    decreases events
  {
    events != [] ==>
      && Allowed(x, events[0], target, codeTarget)
      && AllowedRun(Next(x, events[0], target, codeTarget), events[1..], target, codeTarget)
  }

  /** A pass works with the capacity that the ramp has reached after it, no less than before. */
  lemma PassGoesUp(s: R.Carried, now: real, claimEnabled: bool, target: nat)
    requires R.Climbing(s.ramp, target)
    ensures var used, s' := R.Used(s, R.Pass(now, claimEnabled), target), R.Next(s, R.Pass(now, claimEnabled), target);
            && R.Reached(s.ramp, target) <= used <= target
            && R.Climbing(s'.ramp, target) && R.Reached(s'.ramp, target) == used
  {
  }

  lemma ReloadKeepsReached(s: R.Carried, controls: R.Controls, target: nat)
    requires R.Climbing(s.ramp, target) && controls.enabled && controls.Validated()
    ensures var s' := R.Next(s, R.Reload(controls), target);
            R.Climbing(s'.ramp, target) && R.Reached(s'.ramp, target) == R.Reached(s.ramp, target)
  {
  }

  /** At every round of every pass, and in between, the pools are contained by the capacity then in force. */
  ghost predicate ContainedThroughout(x: Executor, events: seq<Event>, target: int, codeTarget: int)
    requires AllowedRun(x, events, target, codeTarget)
    decreases events
  {
    && Contained(x.ledger, R.Reached(x.ramp.ramp, target), codeTarget)
    && (events != [] ==>
          && (events[0].Pass? ==>
                AllContained(Claims(x, events[0].inputs, target, codeTarget).rounds,
                             Effective(x, events[0].inputs, target), codeTarget))
          && ContainedThroughout(Next(x, events[0], target, codeTarget), events[1..], target, codeTarget))
  }

  lemma StepStaysSteady(x: Executor, e: Event, target: nat, codeTarget: int)
    requires Steady(x, target, codeTarget) && Allowed(x, e, target, codeTarget)
    ensures Steady(Next(x, e, target, codeTarget), target, codeTarget)
    ensures e.Pass? ==>
              AllContained(Claims(x, e.inputs, target, codeTarget).rounds, Effective(x, e.inputs, target), codeTarget)
  {
    match e
    case Pass(i) =>
      PassGoesUp(x.ramp, i.now, i.claimEnabled, target);
      ContainedPass(x.ledger, ControlsOf(x, i, target, codeTarget), i.factor, i.batchLimit, i.host);
    case Reload(controls) => ReloadKeepsReached(x.ramp, controls, target);
    case Finish(_) =>
  }

  /**
   * The loop as it is: against a Host that ignores the requested limits, agents exceed the capacity
   * that the ramp has reached by one at most and only into deferral, and code never exceeds its target;
   * whatever the clock, the pauses, the load, the upload queue and the reloads do.
   */
  lemma {:induction false} LoopIsContained(x: Executor, events: seq<Event>, target: nat, codeTarget: int)
    requires Steady(x, target, codeTarget) && AllowedRun(x, events, target, codeTarget)
    ensures ContainedThroughout(x, events, target, codeTarget)
    decreases events
  {
    if events != [] {
      StepStaysSteady(x, events[0], target, codeTarget);
      LoopIsContained(Next(x, events[0], target, codeTarget), events[1..], target, codeTarget);
    }
  }

  function Start(controls: R.Controls): Executor {
    Executor(Ledger(PerPool(0, 0), {}, false), R.Carried(R.Ramp(controls, None, 0.0, controls.enabled, None), None))
  }

  /** From a cold start. */
  lemma ColdStartIsContained(controls: R.Controls, events: seq<Event>, target: nat, codeTarget: nat)
    requires controls.enabled && controls.Validated() && AllowedRun(Start(controls), events, target, codeTarget)
    ensures ContainedThroughout(Start(controls), events, target, codeTarget)
  {
    LoopIsContained(Start(controls), events, target, codeTarget);
  }

  /**
   * The other bound: a claiming pass under no load, with the upload queue at or below both soft marks and
   * a Host that gives what it is asked for, fills both pools, agents up to the capacity of the ramp.
   */
  lemma PassFillsTheRamp(x: Executor, i: Inputs, target: int, codeTarget: int)
    requires i.claimEnabled && i.factor.None? && i.batchLimit > 0 && forall r: nat :: !i.host(r).Stop?
    requires Uncongested(i.uploadDepth, Effective(x, i, target), i.backlog)
    requires Uncongested(i.uploadDepth, Max(codeTarget, 1), i.backlog)
    requires AllFill(Claims(x, i, target, codeTarget).rounds)
    ensures var after := Next(x, Pass(i), target, codeTarget);
            && after.ledger.active.agent == Max(x.ledger.active.agent, Effective(x, i, target))
            && after.ledger.active.code == Max(x.ledger.active.code, codeTarget)
  {
    FilledPass(x.ledger, ControlsOf(x, i, target, codeTarget), i.batchLimit, i.host);
  }
}
