/** Transfer and load shaping of one pool's claim budget (worker/transfer_controls.py, worker/load_shedding.py). */
module ClaimShaping {
  import opened Basics

  /** Upload back-pressure: all of `base` up to the soft mark, linear to nothing at the hard mark. */
  function ClaimAvailability(base: int, depth: int, workerCapacity: int, backlogLimit: Option<int>): int {
    var hard := if backlogLimit.None? then 2 * workerCapacity else backlogLimit.value;
    var soft := Min(hard / 2, hard - 1);
    if depth >= hard then 0
    else if depth <= soft then base
    else base * (hard - depth) / (hard - soft)
  }

  /**
   * What back-pressure leaves of `base`: all of it up to half the hard mark, nothing from the hard
   * mark on, and in between the share of `base` that `depth` is short of the hard mark, rounded down.
   */
  ghost predicate AvailabilityLaw(base: nat, depth: int, workerCapacity: int, backlogLimit: Option<int>, r: int) {
    var hard := if backlogLimit.Some? then backlogLimit.value else workerCapacity + workerCapacity;
    && (hard <= depth ==> r == 0)
    && (depth < hard && depth <= hard / 2 ==> r == base)
    && (hard / 2 < depth < hard ==>
          r * (hard - hard / 2) <= base * (hard - depth) < (r + 1) * (hard - hard / 2))
  }

  lemma FloorDivision(a: int, d: int)
    requires d > 0
    ensures a / d * d <= a < (a / d + 1) * d
  {
  }

  lemma AvailabilityIs(base: nat, depth: int, workerCapacity: int, backlogLimit: Option<int>)
    ensures AvailabilityLaw(base, depth, workerCapacity, backlogLimit,
                            ClaimAvailability(base, depth, workerCapacity, backlogLimit))
  {
    var hard := if backlogLimit.None? then 2 * workerCapacity else backlogLimit.value;
    if hard / 2 < depth < hard {
      assert hard / 2 <= hard - 1;
      FloorDivision(base * (hard - depth), hard - hard / 2);
    }
  }

  lemma ScaledDown(base: nat, part: nat, whole: nat)
    requires part <= whole && whole > 0
    ensures 0 <= base * part / whole <= base
  {
    assert base * part <= base * whole;
    assert base * whole / whole == base;
    DivMonotone(base * part, base * whole, whole);
  }

  lemma MulMonotone(x: nat, y: nat, d: nat)
    requires x <= y
    ensures x * d <= y * d
  {
  }

  lemma DivMonotone(a: nat, b: nat, d: nat)
    requires a <= b && d > 0
    ensures a / d <= b / d
  {
    var qa, qb := a / d, b / d;
    assert qa * d <= a && b < qb * d + d;
    if qa > qb {
      MulMonotone(qb + 1, qa, d);
    }
  }

  /** Back-pressure never adds to a budget and never turns it negative. */
  lemma AvailabilityIsBounded(base: nat, depth: int, workerCapacity: int, backlogLimit: Option<int>)
    ensures 0 <= ClaimAvailability(base, depth, workerCapacity, backlogLimit) <= base
  {
    var hard := if backlogLimit.None? then 2 * workerCapacity else backlogLimit.value;
    var soft := Min(hard / 2, hard - 1);
    if soft < depth < hard {
      ScaledDown(base, hard - depth, hard - soft);
    }
  }

  /** A longer upload queue never makes more available. */
  lemma AvailabilityDecays(base: nat, depth: int, deeper: int, workerCapacity: int, backlogLimit: Option<int>)
    requires depth <= deeper
    ensures ClaimAvailability(base, deeper, workerCapacity, backlogLimit)
         <= ClaimAvailability(base, depth, workerCapacity, backlogLimit)
  {
    var hard := if backlogLimit.None? then 2 * workerCapacity else backlogLimit.value;
    var soft := Min(hard / 2, hard - 1);
    if soft < depth && deeper < hard {
      DivMonotone(base * (hard - deeper), base * (hard - depth), hard - soft);
    } else if deeper >= hard || depth <= soft {
      AvailabilityIsBounded(base, deeper, workerCapacity, backlogLimit);
      AvailabilityIsBounded(base, depth, workerCapacity, backlogLimit);
    }
  }

  const LOAD_FLOOR_RATIO := 3.0
  const LOAD_FLOOR_FACTOR := 0.25

  /** 1.0 up to one runnable process per core, linear to the floor at three. */
  function LoadBudgetFactor(load1: real, cores: int): (factor: real)
    ensures LOAD_FLOOR_FACTOR <= factor <= 1.0
  {
    if cores <= 0 then 1.0
    else
      var ratio := load1 / cores as real;
      if ratio <= 1.0 then 1.0
      else
        var decayed := 1.0 - (1.0 - LOAD_FLOOR_FACTOR) * (ratio - 1.0) / (LOAD_FLOOR_RATIO - 1.0);
        if decayed > LOAD_FLOOR_FACTOR then decayed else LOAD_FLOOR_FACTOR
  }

  function Ceil(x: real): int {
    -(-x).Floor
  }

  function ShedValue(value: int, factor: real): int {
    if value <= 0 then value else Max(1, Ceil(value as real * factor))
  }

  /** No decay up to one runnable process per core, then a straight line to the floor at three per core. */
  lemma LoadFactorIs(load1: real, cores: int)
    ensures var factor, n := LoadBudgetFactor(load1, cores), cores as real;
            && (cores <= 0 || load1 <= n ==> factor == 1.0)
            && (cores > 0 && n <= load1 <= 3.0 * n ==> (1.0 - factor) * 2.0 * n == 0.75 * (load1 - n))
            && (cores > 0 && 3.0 * n <= load1 ==> factor == 0.25)
  {
    if cores > 0 {
      var n := cores as real;
      RatioAbove(load1, n, 1.0);
      RatioAbove(load1, n, 3.0);
      assert load1 / n * n == load1;
      if n <= load1 <= 3.0 * n {
        assert LoadBudgetFactor(load1, cores) == 1.0 - 0.375 * (load1 / n - 1.0);
      }
    }
  }

  lemma RatioAbove(load: real, n: real, bound: real)
    requires n > 0.0
    ensures load / n > bound <==> load > bound * n
    ensures load / n == bound <==> load == bound * n
  {
    var ratio := load / n;
    assert ratio * n == load;
    if ratio > bound {
      ScaledUp(bound, ratio, n);
    } else if ratio < bound {
      ScaledUp(ratio, bound, n);
    }
  }

  lemma ScaledUp(x: real, y: real, n: real)
    requires n > 0.0 && x < y
    ensures x * n < y * n
  {
  }

  /** The least whole number not below the product, and at least one; nothing to shed is left alone. */
  ghost predicate ShedLaw(value: int, factor: real, r: int) {
    && (value <= 0 ==> r == value)
    && (value > 0 ==>
          && 1 <= r && value as real * factor <= r as real
          && (r > 1 ==> (r - 1) as real < value as real * factor))
  }

  lemma ShedIs(value: int, factor: real)
    ensures ShedLaw(value, factor, ShedValue(value, factor))
  {
  }

  /** Shedding slows a pool down but neither stalls it nor adds to it. */
  lemma ShedIsBounded(value: int, factor: real)
    requires 0.0 <= factor <= 1.0
    ensures ShedValue(value, factor) <= value
    ensures value > 0 <==> ShedValue(value, factor) > 0
  {
    if value > 0 {
      assert value as real * factor <= value as real;
    }
  }
}

/** The claim pass: budgets, declared capacity, over-claim inhibition, and the batch rounds. */
module ClaimAdmission {
  import opened Basics
  import opened ClaimShaping

  datatype Pool = Agent | Code

  /** One number per pool. */
  datatype PerPool = PerPool(agent: int, code: int) {
    function At(kind: Pool): int {
      if kind.Agent? then agent else code
    }

    function Spend(kind: Pool): PerPool {
      if kind.Agent? then this.(agent := agent - 1) else this.(code := code - 1)
    }

    function Add(kind: Pool): PerPool {
      if kind.Agent? then this.(agent := agent + 1) else this.(code := code + 1)
    }
  }

  /** What the claim loop keeps across passes: running executions, deferred pools, the breaker. */
  datatype Ledger = Ledger(active: PerPool, deferred: set<Pool>, laneProbe: bool)

  /** The hot-read inputs of one pass. */
  datatype Controls = Controls(
    effective: int, agentTarget: int, codeTarget: int, claimEnabled: bool, uploadDepth: int, backlog: Option<int>)

  function Base(l: Ledger, c: Controls): PerPool {
    if c.claimEnabled
    then PerPool(Max(0, c.effective - l.active.agent), Max(0, c.codeTarget - l.active.code))
    else PerPool(0, 0)
  }

  function Avail(l: Ledger, c: Controls): PerPool {
    PerPool(
      ClaimAvailability(Base(l, c).agent, c.uploadDepth, c.effective, c.backlog),
      ClaimAvailability(Base(l, c).code, c.uploadDepth, Max(c.codeTarget, 1), c.backlog))
  }

  /** Deferral ends exactly when the pool's own availability turns positive. */
  function StillDeferred(l: Ledger, c: Controls): set<Pool> {
    set kind | kind in l.deferred && Avail(l, c).At(kind) <= 0
  }

  function PassBudget(l: Ledger, c: Controls): PerPool {
    var held := StillDeferred(l, c);
    PerPool(if Agent in held then 0 else Avail(l, c).agent, if Code in held then 0 else Avail(l, c).code)
  }

  /** The capacity declared to the Host: a held pool's gate is shut at its active count. */
  function Declared(l: Ledger, c: Controls): PerPool {
    var held := StillDeferred(l, c);
    PerPool(
      if Agent in held then Min(l.active.agent, c.agentTarget) else c.agentTarget,
      if Code in held then Min(l.active.code, c.codeTarget) else c.codeTarget)
  }

  datatype Request = Request(limit: int, agentLimit: int, codeLimit: int)

  function BatchRequest(budget: PerPool, batchLimit: int): Request {
    var agent := Min(Max(budget.agent, 0), batchLimit);
    var code := Min(Max(budget.code, 0), batchLimit);
    Request(Min(agent + code, batchLimit), agent, code)
  }

  /** Each pool asks for all it may still take, and the batch for all of both, up to the batch limit. */
  lemma RequestIsGreatest(budget: PerPool, batchLimit: nat, n: nat)
    ensures var r := BatchRequest(budget, batchLimit);
            && 0 <= r.agentLimit <= batchLimit && 0 <= r.codeLimit <= batchLimit
            && 0 <= r.limit <= batchLimit && r.limit <= r.agentLimit + r.codeLimit
            && (r.agentLimit > 0 ==> r.agentLimit <= budget.agent) && (r.codeLimit > 0 ==> r.codeLimit <= budget.code)
            && (n <= budget.agent && n <= batchLimit ==> n <= r.agentLimit)
            && (n <= budget.code && n <= batchLimit ==> n <= r.codeLimit)
            && (n <= r.agentLimit + r.codeLimit && n <= batchLimit ==> n <= r.limit)
  {
  }

  /**
   * What the environment does in one round: the stop flag is found set, the call to the Host
   * raises, or claims arrive and the first `spawned` of them get a lane thread.
   */
  datatype Answer = Stop | Unavailable | Claims(kinds: seq<Pool>, spawned: nat)

  /** One round as it happened: the state it started from, what was asked, what came back. */
  datatype Round = Round(before: Ledger, budget: PerPool, declared: PerPool, request: Request, answer: Answer)

  datatype Outcome = Outcome(ledger: Ledger, budget: PerPool, claimed: bool, raised: bool, rounds: seq<Round>)

  /** The submit loop of one batch; a failed spawn trips the breaker and drops the rest. */
  function SubmitBatch(l: Ledger, budget: PerPool, kinds: seq<Pool>, spawned: nat): (Ledger, PerPool, bool)
    decreases kinds
  {
    if kinds == [] then (l, budget, false)
    else if spawned == 0 then (l.(laneProbe := true), budget.Spend(kinds[0]), true)
    else SubmitBatch(l.(active := l.active.Add(kinds[0]), laneProbe := false), budget.Spend(kinds[0]), kinds[1..],
        spawned - 1)
  }

  function OverClaimed(budget: PerPool): set<Pool> {
    set kind | kind in {Agent, Code} && budget.At(kind) < 0
  }

  function Left(budget: PerPool): nat {
    Max(budget.agent, 0) + Max(budget.code, 0)
  }

  function Count(kinds: seq<Pool>, kind: Pool): nat {
    if kinds == [] then 0 else (if kinds[0] == kind then 1 else 0) + Count(kinds[1..], kind)
  }

  lemma {:induction false} SubmitSpends(l: Ledger, budget: PerPool, kinds: seq<Pool>, spawned: nat)
    ensures var (l', budget', raised) := SubmitBatch(l, budget, kinds, spawned);
            && l'.deferred == l.deferred
            && (raised <==> spawned < |kinds|)
            && (forall kind :: budget.At(kind) - Count(kinds, kind) <= budget'.At(kind) <= budget.At(kind))
            && (forall kind ::
                  l.active.At(kind) <= l'.active.At(kind) <= l.active.At(kind) + budget.At(kind) - budget'.At(kind))
            && (!raised ==> forall kind :: budget'.At(kind) == budget.At(kind) - Count(kinds, kind)
                                        && l'.active.At(kind) == l.active.At(kind) + Count(kinds, kind))
            && (kinds != [] && !raised ==> !l'.laneProbe)
    decreases kinds
  {
    if kinds != [] && spawned > 0 {
      SubmitSpends(l.(active := l.active.Add(kinds[0]), laneProbe := false), budget.Spend(kinds[0]), kinds[1..],
          spawned - 1);
    }
  }

  /** The claims before the failed one run; they and the failed one are paid for. */
  lemma {:induction false} SubmitIs(l: Ledger, budget: PerPool, kinds: seq<Pool>, spawned: nat, kind: Pool)
    ensures var (l', budget', raised) := SubmitBatch(l, budget, kinds, spawned);
            && l'.active.At(kind) == l.active.At(kind) + Count(kinds[..Min(spawned, |kinds|)], kind)
            && budget'.At(kind) == budget.At(kind) - Count(kinds[..Min(spawned + 1, |kinds|)], kind)
            && l'.laneProbe == if kinds == [] then l.laneProbe else spawned < |kinds|
    decreases kinds
  {
    if kinds != [] {
      CountCons(kinds, Min(spawned + 1, |kinds|), kind);
      if spawned > 0 {
        CountCons(kinds, Min(spawned, |kinds|), kind);
        SubmitIs(l.(active := l.active.Add(kinds[0]), laneProbe := false), budget.Spend(kinds[0]), kinds[1..],
            spawned - 1, kind);
      }
    }
  }

  lemma CountCons(kinds: seq<Pool>, n: nat, kind: Pool)
    requires 0 < n <= |kinds|
    ensures Count(kinds[..n], kind) == (if kinds[0] == kind then 1 else 0) + Count(kinds[1..][..n - 1], kind)
  {
    assert kinds[..n][1..] == kinds[1..][..n - 1];
  }

  lemma {:induction false} CountsAddUp(kinds: seq<Pool>)
    ensures Count(kinds, Agent) + Count(kinds, Code) == |kinds|
  {
    if kinds != [] {
      CountsAddUp(kinds[1..]);
    }
  }

  lemma Progress(l: Ledger, budget: PerPool, kinds: seq<Pool>, spawned: nat)
    requires kinds != [] && budget.agent >= 0 && budget.code >= 0
    ensures var (_, budget', raised) := SubmitBatch(l, budget, kinds, spawned);
            raised || OverClaimed(budget') != {} || Left(budget') < Left(budget)
  {
    var (_, budget', raised) := SubmitBatch(l, budget, kinds, spawned);
    SubmitSpends(l, budget, kinds, spawned);
    CountsAddUp(kinds);
    if !raised && budget'.agent < 0 {
      assert Agent in OverClaimed(budget');
    }
    if !raised && budget'.code < 0 {
      assert Code in OverClaimed(budget');
    }
  }

  /**
   * The inner claim loop, for ANY Host: it stops when both budgets are spent, nothing came, a pool
   * was over-claimed, or something raised. `host(r)` is what the environment does in round `r`.
   */
  function Drain(l: Ledger, budget: PerPool, declared: PerPool, batchLimit: int, host: nat -> Answer, r: nat): Outcome
    requires budget.agent >= 0 && budget.code >= 0
    decreases Left(budget)
  {
    if (budget.agent <= 0 && budget.code <= 0) || host(r).Stop? then Outcome(l, budget, false, false, [])
    else
      var request := BatchRequest(budget, if l.laneProbe then 1 else batchLimit);
      var round := Round(l, budget, declared, request, host(r));
      if host(r).Unavailable? then Outcome(l, budget, false, true, [round])
      else if host(r).kinds == [] then Outcome(l, budget, false, false, [round])
      else
        var (l', budget', raised) := SubmitBatch(l, budget, host(r).kinds, host(r).spawned);
        if raised then Outcome(l', budget', false, true, [round])
        else if OverClaimed(budget') != {} then
          Outcome(l'.(deferred := l'.deferred + OverClaimed(budget')), budget', true, false, [round])
        else
          Progress(l, budget, host(r).kinds, host(r).spawned);
          assert Agent !in OverClaimed(budget') && Code !in OverClaimed(budget');
          var rest := Drain(l', budget', declared, batchLimit, host, r + 1);
          rest.(claimed := !rest.raised, rounds := [round] + rest.rounds)
  }

  function OfKind(kinds: map<nat, Pool>, kind: Pool): set<nat> {
    set future | future in kinds && kinds[future] == kind
  }

  function CountOf(kinds: map<nat, Pool>, kind: Pool): nat {
    |OfKind(kinds, kind)|
  }

  lemma CountOfAdded(kinds: map<nat, Pool>, future: nat, kind: Pool)
    requires future !in kinds
    ensures forall k :: CountOf(kinds[future := kind], k) == CountOf(kinds, k) + if k == kind then 1 else 0
  {
    forall k ensures CountOf(kinds[future := kind], k) == CountOf(kinds, k) + if k == kind then 1 else 0 {
      OfKindAdded(kinds, future, kind, k);
    }
  }

  lemma OfKindAdded(kinds: map<nat, Pool>, future: nat, kind: Pool, k: Pool)
    requires future !in kinds
    ensures OfKind(kinds[future := kind], k) == OfKind(kinds, k) + if k == kind then {future} else {}
    ensures future !in OfKind(kinds, k)
  {
    var more := kinds[future := kind];
    forall f: nat ensures f in OfKind(more, k) <==> f in OfKind(kinds, k) || (k == kind && f == future) {
      if f != future && f in kinds {
        assert more[f] == kinds[f];
      }
    }
  }

  lemma CountOfSplits(kinds: map<nat, Pool>)
    ensures CountOf(kinds, Agent) + CountOf(kinds, Code) == |kinds.Keys|
  {
    assert OfKind(kinds, Agent) + OfKind(kinds, Code) == kinds.Keys && OfKind(kinds, Agent) !! OfKind(kinds, Code);
  }

  lemma Restricted(kinds: map<nat, Pool>, gone: set<nat>, kind: Pool)
    ensures CountOf(kinds - gone, kind) <= CountOf(kinds, kind)
  {
    var after, before := OfKind(kinds - gone, kind), OfKind(kinds, kind);
    assert before == after + (before - after);
  }

  /** The claim loop's in-place state (worker/claim_batch.py, `ClaimRunContext`). */
  class ClaimRunContext {
    var active: set<nat>
    var activeKinds: map<nat, Pool>
    var poolDeferred: set<Pool>
    var laneProbe: bool
    var nextFuture: nat

    ghost predicate Valid()
      reads this
    {
      && active == activeKinds.Keys
      && forall future :: future in active ==> future < nextFuture
    }

    ghost function View(): Ledger
      reads this
    {
      Ledger(PerPool(CountOf(activeKinds, Agent), CountOf(activeKinds, Code)), poolDeferred, laneProbe)
    }

    constructor ()
      ensures Valid() && View() == Ledger(PerPool(0, 0), {}, false)
    {
      active, activeKinds, poolDeferred, laneProbe, nextFuture := {}, map[], {}, false, 0;
      new;
      assert OfKind(activeKinds, Agent) == {} && OfKind(activeKinds, Code) == {};
    }

    /** worker/executor_reap.py: finished futures leave both containers; deferral is untouched. */
    method ReapCompleted(done: set<nat>)
      requires Valid()
      modifies this
      ensures Valid() && poolDeferred == old(poolDeferred) && laneProbe == old(laneProbe)
      ensures activeKinds == old(activeKinds) - done
      ensures forall kind :: View().active.At(kind) <= old(View()).active.At(kind)
    {
      active := active - done;
      activeKinds := activeKinds - done;
      Restricted(old(activeKinds), done, Agent);
      Restricted(old(activeKinds), done, Code);
    }

    /** worker/claim_budget.py, `pass_budget`. */
    method PassBudgets(c: Controls) returns (budget: PerPool, declared: PerPool)
      requires Valid()
      modifies this`poolDeferred
      ensures Valid() && poolDeferred == StillDeferred(old(View()), c)
      ensures budget == PassBudget(old(View()), c) && declared == Declared(old(View()), c)
    {
      var agentActive := CountOf(activeKinds, Agent);
      var agentBase := if c.claimEnabled then Max(0, c.effective - agentActive) else 0;
      var codeActive := |active| - agentActive;
      CountOfSplits(activeKinds);
      var codeBase := if c.claimEnabled then Max(0, c.codeTarget - codeActive) else 0;
      var agentAvail := ClaimAvailability(agentBase, c.uploadDepth, c.effective, c.backlog);
      var codeAvail := ClaimAvailability(codeBase, c.uploadDepth, Max(c.codeTarget, 1), c.backlog);
      if agentAvail > 0 {
        poolDeferred := poolDeferred - {Agent};
      }
      if codeAvail > 0 {
        poolDeferred := poolDeferred - {Code};
      }
      var agentHeld, codeHeld := Agent in poolDeferred, Code in poolDeferred;
      budget := PerPool(if agentHeld then 0 else agentAvail, if codeHeld then 0 else codeAvail);
      declared := PerPool(
        if agentHeld then Min(agentActive, c.agentTarget) else c.agentTarget,
        if codeHeld then Min(codeActive, c.codeTarget) else c.codeTarget);
    }

    /** The submit closure: the budget pays first, then the lane runs it or fails to spawn. */
    method SubmitClaim(kind: Pool, budget: PerPool, laneHasThread: bool) returns (left: PerPool, raised: bool)
      requires Valid()
      modifies this`active, this`activeKinds, this`nextFuture
      ensures Valid() && left == budget.Spend(kind) && raised == !laneHasThread
      ensures View() == if raised then old(View()) else old(View()).(active := old(View()).active.Add(kind))
    {
      left := budget.Spend(kind);
      raised := !laneHasThread;
      if laneHasThread {
        CountOfAdded(activeKinds, nextFuture, kind);
        active := active + {nextFuture};
        activeKinds := activeKinds[nextFuture := kind];
        nextFuture := nextFuture + 1;
      }
    }

    /** Submit every delivered claim; a spawn failure trips the breaker and abandons the rest. */
    method SubmitAll(kinds: seq<Pool>, spawned: nat, budget: PerPool) returns (left: PerPool, raised: bool)
      requires Valid()
      modifies this
      ensures Valid() && (View(), left, raised) == SubmitBatch(old(View()), budget, kinds, spawned)
    {
      left := budget;
      for k := 0 to |kinds|
        invariant Valid() && k <= spawned
        invariant SubmitBatch(View(), left, kinds[k..], spawned - k) == SubmitBatch(old(View()), budget, kinds, spawned)
      {
        assert kinds[k..][0] == kinds[k] && kinds[k..][1..] == kinds[k + 1..];
        left, raised := SubmitClaim(kinds[k], left, k < spawned);
        if raised {
          laneProbe := true;
          return;
        }
        laneProbe := false;
      }
      raised := false;
    }

    /** worker/claim_batch.py, `drain_budget` with `claim_batch_pass` inlined round by round. */
    method DrainBudget(budget: PerPool, declared: PerPool, batchLimit: int, host: nat -> Answer)
      returns (left: PerPool, claimed: bool, raised: bool)
      requires Valid() && budget.agent >= 0 && budget.code >= 0
      modifies this
      ensures Valid()
      ensures var o := Drain(old(View()), budget, declared, batchLimit, host, 0);
              View() == o.ledger && left == o.budget && raised == o.raised && (!raised ==> claimed == o.claimed)
    {
      left, claimed, raised := budget, false, false;
      var r := 0;
      ghost var all := Drain(View(), budget, declared, batchLimit, host, 0);
      while left.agent > 0 || left.code > 0
        invariant Valid() && left.agent >= 0 && left.code >= 0 && !raised
        invariant var rest := Drain(View(), left, declared, batchLimit, host, r);
                  && rest.ledger == all.ledger && rest.budget == all.budget && rest.raised == all.raised
                  && (!all.raised ==> all.claimed == (claimed || rest.claimed))
        decreases Left(left)
      {
        var answer := host(r);
        if answer.Stop? {
          break;
        }
        if answer.Unavailable? {
          raised := true;
          return;
        }
        if answer.kinds == [] {
          break;
        }
        Progress(View(), left, answer.kinds, answer.spawned);
        left, raised := SubmitAll(answer.kinds, answer.spawned, left);
        if raised {
          return;
        }
        claimed := true;
        var over := OverClaimed(left);
        if over != {} {
          poolDeferred := poolDeferred + over;
          return;
        }
        assert Agent !in over && Code !in over;
        r := r + 1;
      }
    }
  }
}
