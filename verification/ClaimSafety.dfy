/** What the claim loop guarantees over whole passes and whole runs. */
module ClaimSafety {
  import opened Basics
  import opened ClaimShaping
  import opened ClaimAdmission

  // ----- One pass, load shedding and back-pressure included -----

  function Shed(budget: PerPool, factor: Option<real>): PerPool {
    if factor.None? then budget
    else PerPool(ShedValue(budget.agent, factor.value), ShedValue(budget.code, factor.value))
  }

  /** A load factor as `LoadBudgetFactor` yields it. */
  ghost predicate ProperFactor(factor: Option<real>) {
    factor.Some? ==> 0.0 <= factor.value <= 1.0
  }

  /** What a pool may still take before it reaches its capacity. */
  function Room(l: Ledger, c: Controls): PerPool {
    PerPool(Max(0, c.effective - l.active.agent), Max(0, c.codeTarget - l.active.code))
  }

  lemma BudgetIsBounded(l: Ledger, c: Controls, factor: Option<real>)
    requires ProperFactor(factor)
    ensures 0 <= Shed(PassBudget(l, c), factor).agent <= Room(l, c).agent
    ensures 0 <= Shed(PassBudget(l, c), factor).code <= Room(l, c).code
    ensures Agent in StillDeferred(l, c) ==> Shed(PassBudget(l, c), factor).agent == 0
    ensures Code in StillDeferred(l, c) ==> Shed(PassBudget(l, c), factor).code == 0
  {
    AvailabilityIsBounded(Base(l, c).agent, c.uploadDepth, c.effective, c.backlog);
    AvailabilityIsBounded(Base(l, c).code, c.uploadDepth, Max(c.codeTarget, 1), c.backlog);
    if factor.Some? {
      ShedIsBounded(PassBudget(l, c).agent, factor.value);
      ShedIsBounded(PassBudget(l, c).code, factor.value);
    }
  }

  /** The budget a pass drains. */
  function Granted(l: Ledger, c: Controls, factor: Option<real>): (budget: PerPool)
    requires ProperFactor(factor)
    ensures 0 <= budget.agent <= Room(l, c).agent && 0 <= budget.code <= Room(l, c).code
  {
    BudgetIsBounded(l, c, factor);
    Shed(PassBudget(l, c), factor)
  }

  /** Each pool's budget is shed by the load factor, if there is one, and is what `pass_budget` gives otherwise. */
  lemma GrantIsShed(l: Ledger, c: Controls, factor: Option<real>, kind: Pool)
    requires ProperFactor(factor)
    ensures var given, granted := PassBudget(l, c).At(kind), Granted(l, c, factor).At(kind);
            if factor.Some? then ShedLaw(given, factor.value, granted) else granted == given
  {
    if factor.Some? {
      ShedIs(PassBudget(l, c).At(kind), factor.value);
    }
  }

  /** The ledger once `pass_budget` has lifted the deferrals it lifts. */
  function Lifted(l: Ledger, c: Controls): Ledger {
    l.(deferred := StillDeferred(l, c))
  }

  /** One executor pass: budget, shed, drain. */
  function Pass(l: Ledger, c: Controls, factor: Option<real>, batchLimit: int, host: nat -> Answer): Outcome
    requires ProperFactor(factor)
  {
    Drain(Lifted(l, c), Granted(l, c, factor), Declared(l, c), batchLimit, host, 0)
  }

  /**
   * The budgets, declarations and deferrals of a pass, in full. A pool's budget is what back-pressure
   * leaves of its room, if claiming is on; a deferral is lifted exactly when that is positive; a pool
   * still deferred declares no more than is active, any other its target.
   */
  lemma PassBudgetIs(l: Ledger, c: Controls)
    ensures var budget, held := PassBudget(l, c), StillDeferred(l, c);
            && AvailabilityLaw(if c.claimEnabled then Max(0, c.effective - l.active.agent) else 0, c.uploadDepth,
                               c.effective, c.backlog, budget.agent)
            && AvailabilityLaw(if c.claimEnabled then Max(0, c.codeTarget - l.active.code) else 0, c.uploadDepth,
                               Max(c.codeTarget, 1), c.backlog, budget.code)
            && (Agent in held <==> Agent in l.deferred && budget.agent == 0)
            && (Code in held <==> Code in l.deferred && budget.code == 0)
            && Declared(l, c) == PerPool(
                 if Agent in held then Min(l.active.agent, c.agentTarget) else c.agentTarget,
                 if Code in held then Min(l.active.code, c.codeTarget) else c.codeTarget)
  {
    AvailabilityIs(Base(l, c).agent, c.uploadDepth, c.effective, c.backlog);
    AvailabilityIs(Base(l, c).code, c.uploadDepth, Max(c.codeTarget, 1), c.backlog);
    AvailabilityIsBounded(Base(l, c).agent, c.uploadDepth, c.effective, c.backlog);
    AvailabilityIsBounded(Base(l, c).code, c.uploadDepth, Max(c.codeTarget, 1), c.backlog);
  }

  /** The upload queue is at or below the soft mark of a pool of this capacity. */
  predicate Uncongested(depth: int, capacity: int, backlog: Option<int>) {
    var hard := if backlog.Some? then backlog.value else 2 * capacity;
    depth <= hard / 2 && depth < hard
  }

  /** With claiming on and the queue at or below the soft mark, a pool with room is not held and gets all of it. */
  lemma RoomIsGranted(l: Ledger, c: Controls)
    requires c.claimEnabled
    ensures Uncongested(c.uploadDepth, c.effective, c.backlog) ==>
              PassBudget(l, c).agent == Room(l, c).agent
              && (l.active.agent < c.effective ==> Agent !in StillDeferred(l, c))
    ensures Uncongested(c.uploadDepth, Max(c.codeTarget, 1), c.backlog) ==>
              PassBudget(l, c).code == Room(l, c).code
              && (l.active.code < c.codeTarget ==> Code !in StillDeferred(l, c))
  {
    PassBudgetIs(l, c);
  }

  // ----- A Host that gives what is asked for -----

  /** The answer fills the request within the limits of both pools, and every claim gets its thread. */
  ghost predicate Fills(round: Round) {
    && Respects(round) && round.answer.Claims?
    && |round.answer.kinds| == round.request.limit && round.answer.spawned >= |round.answer.kinds|
  }

  ghost predicate AllFill(rounds: seq<Round>) {
    forall i :: 0 <= i < |rounds| ==> Fills(rounds[i])
  }

  /** One filled round spends what it runs, stays within both budgets and gets somewhere. */
  lemma FilledRound(l: Ledger, budget: PerPool, request: Request, kinds: seq<Pool>, spawned: nat, batchLimit: int)
    requires budget.agent >= 0 && budget.code >= 0 && (budget.agent > 0 || budget.code > 0) && batchLimit > 0
    requires request == BatchRequest(budget, batchLimit) && |kinds| == request.limit && spawned >= |kinds|
    requires Count(kinds, Agent) <= request.agentLimit && Count(kinds, Code) <= request.codeLimit
    ensures var (l', budget', raised) := SubmitBatch(l, budget, kinds, spawned);
            && kinds != [] && !raised && OverClaimed(budget') == {} && l'.deferred == l.deferred
            && budget'.agent >= 0 && budget'.code >= 0 && Left(budget') < Left(budget)
            && l'.active.agent + budget'.agent == l.active.agent + budget.agent
            && l'.active.code + budget'.code == l.active.code + budget.code
  {
    var (l', budget', raised) := SubmitBatch(l, budget, kinds, spawned);
    SubmitSpends(l, budget, kinds, spawned);
    assert budget'.At(Agent) >= 0 && budget'.At(Code) >= 0;
    assert l'.active.At(Agent) + budget'.At(Agent) == l.active.At(Agent) + budget.At(Agent);
    assert l'.active.At(Code) + budget'.At(Code) == l.active.At(Code) + budget.At(Code);
    Progress(l, budget, kinds, spawned);
  }

  /** A round after which the loop goes on. */
  lemma DrainGoesOn(l: Ledger, budget: PerPool, declared: PerPool, batchLimit: int, host: nat -> Answer, r: nat)
    requires budget.agent >= 0 && budget.code >= 0 && (budget.agent > 0 || budget.code > 0)
    requires host(r).Claims? && host(r).kinds != []
    requires var (_, budget', raised) := SubmitBatch(l, budget, host(r).kinds, host(r).spawned);
             !raised && OverClaimed(budget') == {} && budget'.agent >= 0 && budget'.code >= 0
             && Left(budget') < Left(budget)
    ensures var (l', budget', _) := SubmitBatch(l, budget, host(r).kinds, host(r).spawned);
            var o, rest := Drain(l, budget, declared, batchLimit, host, r),
                Drain(l', budget', declared, batchLimit, host, r + 1);
            && o.ledger == rest.ledger && o.budget == rest.budget && o.raised == rest.raised
            && o.rounds != [] && o.rounds == [o.rounds[0]] + rest.rounds
  {
  }

  lemma {:induction false} FilledDrain(
    l: Ledger, budget: PerPool, declared: PerPool, batchLimit: int, host: nat -> Answer, r: nat)
    requires budget.agent >= 0 && budget.code >= 0 && batchLimit > 0
    requires forall i: nat :: !host(i).Stop?
    requires AllFill(Drain(l, budget, declared, batchLimit, host, r).rounds)
    ensures var o := Drain(l, budget, declared, batchLimit, host, r);
            && o.budget == PerPool(0, 0) && !o.raised && o.ledger.deferred == l.deferred
            && o.ledger.active == PerPool(l.active.agent + budget.agent, l.active.code + budget.code)
    decreases Left(budget)
  {
    var rounds := Drain(l, budget, declared, batchLimit, host, r).rounds;
    if budget.agent > 0 || budget.code > 0 {
      assert Fills(rounds[0]);
      FilledRound(l, budget, rounds[0].request, host(r).kinds, host(r).spawned, if l.laneProbe then 1 else batchLimit);
      var (l', budget', _) := SubmitBatch(l, budget, host(r).kinds, host(r).spawned);
      DrainGoesOn(l, budget, declared, batchLimit, host, r);
      RestFills(rounds, Drain(l', budget', declared, batchLimit, host, r + 1).rounds);
      FilledDrain(l', budget', declared, batchLimit, host, r + 1);
    }
  }

  lemma RestFills(rounds: seq<Round>, rest: seq<Round>)
    requires AllFill(rounds) && rounds != [] && rounds == [rounds[0]] + rest
    ensures AllFill(rest)
  {
    forall i | 0 <= i < |rest| ensures Fills(rest[i]) {
      assert rest[i] == rounds[i + 1];
    }
  }

  /**
   * The other bound: with claiming on, an unloaded machine, the upload queue at or below both soft
   * marks, and a Host that gives what it is asked for, one pass fills both pools to their capacity.
   */
  lemma FilledPass(l: Ledger, c: Controls, batchLimit: int, host: nat -> Answer)
    requires c.claimEnabled && batchLimit > 0 && forall i: nat :: !host(i).Stop?
    requires Uncongested(c.uploadDepth, c.effective, c.backlog)
    requires Uncongested(c.uploadDepth, Max(c.codeTarget, 1), c.backlog)
    requires AllFill(Pass(l, c, None, batchLimit, host).rounds)
    ensures var o := Pass(l, c, None, batchLimit, host);
            && o.ledger.active.agent == Max(l.active.agent, c.effective)
            && o.ledger.active.code == Max(l.active.code, c.codeTarget)
            && o.budget == PerPool(0, 0) && !o.raised
  {
    RoomIsGranted(l, c);
    FilledDrain(Lifted(l, c), Granted(l, c, None), Declared(l, c), batchLimit, host, 0);
  }

  // ----- Hosts that respect the limits they are sent -----

  ghost predicate Respects(round: Round) {
    round.answer.Claims? ==>
      && |round.answer.kinds| <= round.request.limit
      && Count(round.answer.kinds, Agent) <= round.request.agentLimit
      && Count(round.answer.kinds, Code) <= round.request.codeLimit
  }

  ghost predicate AllRespect(rounds: seq<Round>) {
    forall i :: 0 <= i < |rounds| ==> Respects(rounds[i])
  }

  lemma {:induction false} RespectfulDrain(
    l: Ledger, budget: PerPool, declared: PerPool, batchLimit: int, host: nat -> Answer, r: nat)
    requires budget.agent >= 0 && budget.code >= 0
    requires AllRespect(Drain(l, budget, declared, batchLimit, host, r).rounds)
    ensures var o := Drain(l, budget, declared, batchLimit, host, r);
            && o.ledger.deferred == l.deferred
            && forall kind :: 0 <= o.budget.At(kind) <= budget.At(kind)
                           && o.ledger.active.At(kind) + o.budget.At(kind) <= l.active.At(kind) + budget.At(kind)
    decreases Left(budget)
  {
    var o := Drain(l, budget, declared, batchLimit, host, r);
    if o.rounds != [] && host(r).Claims? && host(r).kinds != [] {
      assert Respects(o.rounds[0]);
      var kinds, spawned := host(r).kinds, host(r).spawned;
      var (l', budget', raised) := SubmitBatch(l, budget, kinds, spawned);
      SubmitSpends(l, budget, kinds, spawned);
      assert budget'.At(Agent) >= 0 && budget'.At(Code) >= 0;
      if !raised {
        Progress(l, budget, kinds, spawned);
        var rest := Drain(l', budget', declared, batchLimit, host, r + 1);
        assert o.rounds == [o.rounds[0]] + rest.rounds;
        forall i | 0 <= i < |rest.rounds| ensures Respects(rest.rounds[i]) {
          assert rest.rounds[i] == o.rounds[i + 1];
        }
        assert AllRespect(rest.rounds);
        RespectfulDrain(l', budget', declared, batchLimit, host, r + 1);
      }
    }
  }

  /** No budget spent below nothing, no pool newly deferred, none taken past its capacity. */
  predicate Respected(l: Ledger, c: Controls, o: Outcome) {
    && o.budget.agent >= 0 && o.budget.code >= 0
    && o.ledger.deferred == StillDeferred(l, c)
    && o.ledger.active.agent <= Max(l.active.agent, c.effective)
    && o.ledger.active.code <= Max(l.active.code, c.codeTarget)
  }

  /**
   * Against a Host that respects the requested limits, a pass drives no pool's budget negative,
   * defers no pool, and leaves each pool at or below what it was or its capacity, whichever is more.
   */
  lemma RespectfulPass(l: Ledger, c: Controls, factor: Option<real>, batchLimit: int, host: nat -> Answer)
    requires ProperFactor(factor)
    requires AllRespect(Pass(l, c, factor, batchLimit, host).rounds)
    ensures Respected(l, c, Pass(l, c, factor, batchLimit, host))
  {
    var budget := Granted(l, c, factor);
    RespectfulDrain(Lifted(l, c), budget, Declared(l, c), batchLimit, host, 0);
    var o := Pass(l, c, factor, batchLimit, host);
    assert o.budget.At(Agent) >= 0 && o.budget.At(Code) >= 0;
    assert o.ledger.active.At(Agent) <= l.active.At(Agent) + budget.At(Agent);
    assert o.ledger.active.At(Code) <= l.active.At(Code) + budget.At(Code);
  }

  /**
   * The same under load: the factor that the load average gives is one of these, and it stalls no
   * pool that had a budget.
   */
  lemma LoadedPass(
    l: Ledger, c: Controls, load1: real, cores: int, factor: Option<real>, batchLimit: int, host: nat -> Answer)
    requires factor == Some(LoadBudgetFactor(load1, cores))
    requires AllRespect(Pass(l, c, factor, batchLimit, host).rounds)
    ensures ProperFactor(factor) && Respected(l, c, Pass(l, c, factor, batchLimit, host))
    ensures forall kind :: Granted(l, c, factor).At(kind) > 0 <==> PassBudget(l, c).At(kind) > 0
  {
    RespectfulPass(l, c, factor, batchLimit, host);
    ShedIsBounded(PassBudget(l, c).agent, factor.value);
    ShedIsBounded(PassBudget(l, c).code, factor.value);
  }

  // ----- The lane breaker -----

  /** Executions delivered in a round that never got a lane thread. */
  function Dropped(round: Round): nat {
    if round.answer.Claims? && round.answer.spawned < |round.answer.kinds|
    then |round.answer.kinds| - round.answer.spawned else 0
  }

  function TotalDropped(rounds: seq<Round>): nat {
    if rounds == [] then 0 else Dropped(rounds[0]) + TotalDropped(rounds[1..])
  }

  /** How many executions the Host delivered. */
  function Delivered(rounds: seq<Round>): nat {
    if rounds == [] then 0
    else (if rounds[0].answer.Claims? then |rounds[0].answer.kinds| else 0) + Delivered(rounds[1..])
  }

  function Running(l: Ledger): int {
    l.active.agent + l.active.code
  }

  /** Of one batch, what does not get a lane thread is dropped and the rest runs. */
  lemma BatchIsRunOrDropped(l: Ledger, budget: PerPool, kinds: seq<Pool>, spawned: nat)
    ensures Running(SubmitBatch(l, budget, kinds, spawned).0) == Running(l) + Min(spawned, |kinds|)
  {
    SubmitIs(l, budget, kinds, spawned, Agent);
    SubmitIs(l, budget, kinds, spawned, Code);
    CountsAddUp(kinds[..Min(spawned, |kinds|)]);
    var after := SubmitBatch(l, budget, kinds, spawned).0;
    assert after.active.At(Agent) == after.active.agent && after.active.At(Code) == after.active.code;
  }

  /** Every execution the Host delivers in a pass runs or is counted as dropped, whatever the Host does. */
  lemma {:induction false} DeliveredIsRunOrDropped(
    l: Ledger, budget: PerPool, declared: PerPool, batchLimit: int, host: nat -> Answer, r: nat)
    requires budget.agent >= 0 && budget.code >= 0
    ensures var o := Drain(l, budget, declared, batchLimit, host, r);
            Running(o.ledger) == Running(l) + Delivered(o.rounds) - TotalDropped(o.rounds)
    decreases Left(budget)
  {
    var o := Drain(l, budget, declared, batchLimit, host, r);
    if o.rounds != [] && host(r).Claims? && host(r).kinds != [] {
      BatchIsRunOrDropped(l, budget, host(r).kinds, host(r).spawned);
      var (l', budget', raised) := SubmitBatch(l, budget, host(r).kinds, host(r).spawned);
      if !raised && OverClaimed(budget') == {} {
        Progress(l, budget, host(r).kinds, host(r).spawned);
        assert Agent !in OverClaimed(budget') && Code !in OverClaimed(budget');
        DeliveredIsRunOrDropped(l', budget', declared, batchLimit, host, r + 1);
        assert o.rounds[1..] == Drain(l', budget', declared, batchLimit, host, r + 1).rounds;
        SubmitSpends(l, budget, host(r).kinds, host(r).spawned);
      } else {
        assert o.rounds[1..] == [];
        SubmitSpends(l, budget, host(r).kinds, host(r).spawned);
      }
    } else if o.rounds != [] {
      assert o.rounds[1..] == [];
    }
  }

  ghost predicate NothingSpawned(round: Round) {
    round.answer.Claims? ==> round.answer.spawned == 0
  }

  /** After a spawn failure, a pass in which no submit succeeds drops at most one execution. */
  lemma ProbingPassDropsOne(
    l: Ledger, c: Controls, factor: Option<real>, batchLimit: int, host: nat -> Answer)
    requires ProperFactor(factor) && l.laneProbe
    requires AllRespect(Pass(l, c, factor, batchLimit, host).rounds)
    requires forall round :: round in Pass(l, c, factor, batchLimit, host).rounds ==> NothingSpawned(round)
    ensures TotalDropped(Pass(l, c, factor, batchLimit, host).rounds) <= 1
    ensures Pass(l, c, factor, batchLimit, host).ledger.laneProbe
  {
    var o := Pass(l, c, factor, batchLimit, host);
    if o.rounds != [] {
      assert Respects(o.rounds[0]) && NothingSpawned(o.rounds[0]);
      assert o.rounds[0].request.limit <= 1;
      assert o.rounds[1..] == [];
    }
  }

  // ----- Hosts that ignore the limits -----

  /**
   * A Host that predates batches: one claim per call, whatever the requested limits, granted only
   * while the pool's active count, of which the Worker's is a lower bound, is below the declaration.
   */
  ghost predicate OneByDeclaration(round: Round) {
    round.answer.Claims? ==>
      && |round.answer.kinds| <= 1
      && forall kind :: kind in round.answer.kinds ==> round.before.active.At(kind) < round.declared.At(kind)
  }

  /** Agents overshoot by one at most, and only into deferral; code never overshoots. */
  ghost predicate Contained(l: Ledger, effective: int, codeTarget: int) {
    && l.active.agent <= effective + 1
    && (l.active.agent > effective ==> Agent in l.deferred)
    && l.active.code <= codeTarget
  }

  /** The loop invariant of `Drain` against such a Host. */
  ghost predicate Draining(l: Ledger, budget: PerPool, declared: PerPool, effective: int, codeTarget: int) {
    && Contained(l, effective, codeTarget)
    && budget.agent >= 0 && budget.code >= 0
    && declared.code <= codeTarget
    && (Agent in l.deferred ==> declared.agent <= l.active.agent)
    && (Code in l.deferred ==> declared.code <= l.active.code)
    && (Agent !in l.deferred ==> l.active.agent + budget.agent <= Max(effective, l.active.agent))
  }

  ghost predicate AllByDeclaration(rounds: seq<Round>) {
    forall i :: 0 <= i < |rounds| ==> OneByDeclaration(rounds[i])
  }

  ghost predicate AllContained(rounds: seq<Round>, effective: int, codeTarget: int) {
    forall i :: 0 <= i < |rounds| ==> Contained(rounds[i].before, effective, codeTarget)
  }

  lemma SubmitOne(l: Ledger, budget: PerPool, kind: Pool, spawned: nat)
    ensures SubmitBatch(l, budget, [kind], spawned) ==
            if spawned == 0 then (l.(laneProbe := true), budget.Spend(kind), true)
            else (l.(active := l.active.Add(kind), laneProbe := false), budget.Spend(kind), false)
  {
    assert [kind][1..] == [];
  }

  /** One granted claim: either the pool still has budget left, or it overshoots into deferral. */
  lemma GrantKeepsContained(
    l: Ledger, budget: PerPool, declared: PerPool, effective: int, codeTarget: int, kind: Pool, spawned: nat)
    requires Draining(l, budget, declared, effective, codeTarget) && l.active.At(kind) < declared.At(kind)
    ensures kind !in l.deferred
    ensures var (l', budget', raised) := SubmitBatch(l, budget, [kind], spawned);
            && l'.deferred == l.deferred
            && (forall k :: k != kind ==> l'.active.At(k) == l.active.At(k))
            && (raised ==> Contained(l', effective, codeTarget))
            && (!raised && OverClaimed(budget') == {} ==> Draining(l', budget', declared, effective, codeTarget))
            && Contained(l'.(deferred := l'.deferred + OverClaimed(budget')), effective, codeTarget)
  {
    SubmitOne(l, budget, kind, spawned);
    var (_, budget', _) := SubmitBatch(l, budget, [kind], spawned);
    assert OverClaimed(budget') == if budget.At(kind) == 0 then {kind} else {};
  }

  /** One unfolding of the loop for a Host that grants one claim per call. */
  lemma DrainOne(
    l: Ledger, budget: PerPool, declared: PerPool, batchLimit: int, host: nat -> Answer, r: nat, kind: Pool)
    requires budget.agent >= 0 && budget.code >= 0 && (budget.agent > 0 || budget.code > 0)
    requires host(r).Claims? && host(r).kinds == [kind]
    ensures var (l', budget', raised) := SubmitBatch(l, budget, [kind], host(r).spawned);
            var o := Drain(l, budget, declared, batchLimit, host, r);
            && o.rounds != [] && o.rounds[0].before == l
            && (raised ==> o.ledger == l' && |o.rounds| == 1)
            && (!raised && OverClaimed(budget') != {} ==>
                  o.ledger == l'.(deferred := l'.deferred + OverClaimed(budget')) && |o.rounds| == 1)
            && (!raised && OverClaimed(budget') == {} ==>
                  && budget'.agent >= 0 && budget'.code >= 0 && Left(budget') < Left(budget)
                  && o.ledger == Drain(l', budget', declared, batchLimit, host, r + 1).ledger
                  && o.rounds[1..] == Drain(l', budget', declared, batchLimit, host, r + 1).rounds)
  {
    var (l', budget', raised) := SubmitBatch(l, budget, [kind], host(r).spawned);
    Progress(l, budget, [kind], host(r).spawned);
    if !raised && OverClaimed(budget') == {} {
      assert Agent !in OverClaimed(budget') && Code !in OverClaimed(budget');
    }
  }

  lemma RestByDeclaration(rounds: seq<Round>)
    requires rounds != [] && AllByDeclaration(rounds)
    ensures AllByDeclaration(rounds[1..])
  {
    forall i | 0 <= i < |rounds[1..]| ensures OneByDeclaration(rounds[1..][i]) {
      assert rounds[1..][i] == rounds[i + 1];
    }
  }

  lemma FirstAndRestContained(rounds: seq<Round>, effective: int, codeTarget: int)
    requires rounds != [] && Contained(rounds[0].before, effective, codeTarget)
    requires AllContained(rounds[1..], effective, codeTarget)
    ensures AllContained(rounds, effective, codeTarget)
  {
    assert forall i :: 0 < i < |rounds| ==> rounds[i] == rounds[1..][i - 1];
  }

  lemma {:induction false} ContainedDrain(
    l: Ledger, budget: PerPool, declared: PerPool, batchLimit: int, host: nat -> Answer, r: nat,
    effective: int, codeTarget: int)
    requires Draining(l, budget, declared, effective, codeTarget)
    requires AllByDeclaration(Drain(l, budget, declared, batchLimit, host, r).rounds)
    ensures var o := Drain(l, budget, declared, batchLimit, host, r);
            && Contained(o.ledger, effective, codeTarget)
            && AllContained(o.rounds, effective, codeTarget)
            && (forall kind :: kind in l.deferred ==>
                kind in o.ledger.deferred && o.ledger.active.At(kind) <= l.active.At(kind))
    decreases Left(budget)
  {
    var rounds := Drain(l, budget, declared, batchLimit, host, r).rounds;
    if rounds != [] && host(r).Claims? && host(r).kinds != [] {
      assert OneByDeclaration(rounds[0]);
      var kind, spawned := host(r).kinds[0], host(r).spawned;
      assert host(r).kinds == [kind] && kind in host(r).kinds;
      GrantKeepsContained(l, budget, declared, effective, codeTarget, kind, spawned);
      DrainOne(l, budget, declared, batchLimit, host, r, kind);
      var (l', budget', raised) := SubmitBatch(l, budget, [kind], spawned);
      if !raised && OverClaimed(budget') == {} {
        RestByDeclaration(rounds);
        ContainedDrain(l', budget', declared, batchLimit, host, r + 1, effective, codeTarget);
        FirstAndRestContained(rounds, effective, codeTarget);
      }
    }
  }

  /** A pass from a contained ledger stays contained at every round, and feeds no held pool. */
  lemma ContainedPass(l: Ledger, c: Controls, factor: Option<real>, batchLimit: int, host: nat -> Answer)
    requires ProperFactor(factor) && Contained(l, c.effective, c.codeTarget)
    requires AllByDeclaration(Pass(l, c, factor, batchLimit, host).rounds)
    ensures var o := Pass(l, c, factor, batchLimit, host);
            && Contained(o.ledger, c.effective, c.codeTarget)
            && AllContained(o.rounds, c.effective, c.codeTarget)
            && (forall kind :: kind in l.deferred && Avail(l, c).At(kind) <= 0 ==>
                  kind in o.ledger.deferred && o.ledger.active.At(kind) <= l.active.At(kind))
  {
    BudgetIsBounded(l, c, factor);
    HeldPools(l, c);
    ContainedDrain(Lifted(l, c), Granted(l, c, factor), Declared(l, c), batchLimit, host, 0, c.effective, c.codeTarget);
  }

  /** A pool at or above its capacity has nothing available, so its deferral stands and its gate stays shut. */
  lemma HeldPools(l: Ledger, c: Controls)
    ensures l.active.agent >= c.effective && Agent in l.deferred ==> Agent in StillDeferred(l, c)
    ensures l.active.code >= c.codeTarget && Code in l.deferred ==> Code in StillDeferred(l, c)
    ensures Agent in StillDeferred(l, c) ==> Declared(l, c).agent <= l.active.agent
    ensures Code in StillDeferred(l, c) ==> Declared(l, c).code <= l.active.code
    ensures Declared(l, c).code <= c.codeTarget
  {
    AvailabilityIsBounded(Base(l, c).agent, c.uploadDepth, c.effective, c.backlog);
    AvailabilityIsBounded(Base(l, c).code, c.uploadDepth, Max(c.codeTarget, 1), c.backlog);
  }

  // ----- Whole runs -----

  /** A pass, or executions finishing between passes. */
  datatype Step =
    | Claim(controls: Controls, factor: Option<real>, batchLimit: int, host: nat -> Answer)
    | Finish(remaining: PerPool)

  function After(l: Ledger, step: Step): Ledger
    requires step.Claim? ==> ProperFactor(step.factor)
  {
    match step
    case Claim(c, factor, batchLimit, host) => Pass(l, c, factor, batchLimit, host).ledger
    case Finish(remaining) => l.(active := remaining)
  }

  /** The effective capacity a step runs under; finishing executions does not change it. */
  function EffectiveAfter(effective: int, step: Step): int {
    if step.Claim? then step.controls.effective else effective
  }

  /** Fixed code target, effective capacity never decreasing, Hosts that grant one by declaration. */
  ghost predicate Allowed(l: Ledger, step: Step, effective: int, codeTarget: int) {
    match step
    case Claim(c, factor, batchLimit, host) =>
      && ProperFactor(factor)
      && effective <= c.effective && c.codeTarget == codeTarget
      && AllByDeclaration(Pass(l, c, factor, batchLimit, host).rounds)
    case Finish(remaining) => remaining.agent <= l.active.agent && remaining.code <= l.active.code
  }

  ghost predicate AllowedRun(l: Ledger, steps: seq<Step>, effective: int, codeTarget: int)
    decreases steps
  {
    steps != [] ==>
      && Allowed(l, steps[0], effective, codeTarget)
      && AllowedRun(After(l, steps[0]), steps[1..], EffectiveAfter(effective, steps[0]), codeTarget)
  }

  function LedgerAfter(l: Ledger, steps: seq<Step>): Ledger
    requires forall s :: s in steps && s.Claim? ==> ProperFactor(s.factor)
    decreases steps
  {
    if steps == [] then l else LedgerAfter(After(l, steps[0]), steps[1..])
  }

  function FinalEffective(effective: int, steps: seq<Step>): int
    decreases steps
  {
    if steps == [] then effective else FinalEffective(EffectiveAfter(effective, steps[0]), steps[1..])
  }

  /**
   * Over-claim containment: in every run against limit-ignoring Hosts, agent executions never exceed
   * the effective capacity by more than one and code executions never exceed their target.
   */
  lemma {:induction false} OverClaimContainment(l: Ledger, steps: seq<Step>, effective: int, codeTarget: int)
    requires Contained(l, effective, codeTarget) && AllowedRun(l, steps, effective, codeTarget)
    requires forall s :: s in steps && s.Claim? ==> ProperFactor(s.factor)
    ensures Contained(LedgerAfter(l, steps), FinalEffective(effective, steps), codeTarget)
    decreases steps
  {
    if steps != [] {
      var step := steps[0];
      var e' := EffectiveAfter(effective, step);
      assert Contained(After(l, step), e', codeTarget) by {
        if step.Claim? {
          ContainedPass(l, step.controls, step.factor, step.batchLimit, step.host);
        }
      }
      OverClaimContainment(After(l, step), steps[1..], e', codeTarget);
    }
  }
}
