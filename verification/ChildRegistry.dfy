/**
 * The supervisor's own children and their registry (worker/zombie_reaper.py, `ManagedChildren`), with
 * spawns, exits, owner waits and adoptions going on around it.
 */
module ChildRegistry {
  import opened Basics
  import opened ProcessTable

  /**
   * A spawned child. The code sees its pid and return code; `start` says which process it is, and
   * `taken` whether its owner's wait has taken its exit status, which the return code shows only later.
   */
  datatype Popen = Popen(pid: int, start: nat, taken: bool, returncode: Option<int>)

  /** Children by object identity, and which of them are registered, oldest first. */
  datatype Registry = Registry(popens: map<nat, Popen>, procs: seq<nat>)

  /** The registered children whose exit status still belongs to their owners. */
  function Owed(r: Registry): set<(int, nat)> {
    set i | 0 <= i < |r.procs| && r.procs[i] in r.popens && !r.popens[r.procs[i]].taken ::
      (r.popens[r.procs[i]].pid, r.popens[r.procs[i]].start)
  }

  function Pids(r: Registry): set<int> {
    set i | 0 <= i < |r.procs| && r.procs[i] in r.popens :: r.popens[r.procs[i]].pid
  }

  predicate Truthful(r: Registry) {
    && (forall i :: 0 <= i < |r.procs| ==> r.procs[i] in r.popens)
    && (forall h :: h in r.popens && r.popens[h].returncode.Some? ==> r.popens[h].taken)
  }

  /** Every status that is owed can still be waited for: the process is in the table. */
  predicate Waitable(os: Os, owed: set<(int, nat)>) {
    forall x :: x in owed ==> Present(os, x.0, x.1)
  }

  // ----- What goes on around the registry -----

  datatype Event =
    | Elsewhere(step: Step)
    | OwnerWaits(h: nat)
    | OwnerLearns(h: nat, code: int)
    | Register(h: nat, child: int, start: nat)
    | Drop(h: nat)

  /**
   * Only a process's parent can wait for it, and in this process only its owner waits for a
   * registered child, the scan apart. Spawning and forgetting take the lock; an owner forgets a child
   * it has waited.
   */
  predicate Allowed(os: Os, r: Registry, self: int, locked: bool, e: Event) {
    match e
    case Elsewhere(step) => Enabled(os, step) && (step.Reap? ==> (step.pid, os.procs[step.pid].start) !in Owed(r))
    case OwnerWaits(h) =>
      h in r.popens && !r.popens[h].taken && ZombieChild(os, r.popens[h].pid, self)
      && os.procs[r.popens[h].pid].start == r.popens[h].start
    case OwnerLearns(h, _) => h in r.popens && r.popens[h].taken && r.popens[h].returncode.None?
    case Register(h, child, start) => !locked && h !in r.popens && Enabled(os, Fork(self, child, start))
    case Drop(h) => !locked && h in r.popens && r.popens[h].taken
  }

  function Happened(os: Os, r: Registry, self: int, locked: bool, e: Event): (Os, Registry)
    requires Allowed(os, r, self, locked, e)
  {
    match e
    case Elsewhere(step) => (Apply(os, step), r)
    case OwnerWaits(h) => (Apply(os, Reap(r.popens[h].pid)), r.(popens := Took(r.popens, r.popens[h])))
    case OwnerLearns(h, code) => (os, r.(popens := r.popens[h := r.popens[h].(returncode := Some(code))]))
    case Register(h, child, start) =>
      (Apply(os, Fork(self, child, start)), Registry(r.popens[h := Popen(child, start, false, None)], r.procs + [h]))
    case Drop(h) => (os, r.(procs := Without(r.procs, h)))
  }

  /** That process's status is taken, through whichever object it was waited. */
  function Took(popens: map<nat, Popen>, p: Popen): map<nat, Popen> {
    map h | h in popens ::
      if popens[h].pid == p.pid && popens[h].start == p.start then popens[h].(taken := true) else popens[h]
  }

  function Without(procs: seq<nat>, proc: nat): (r: seq<nat>)
    ensures forall h :: h in r <==> h in procs && h != proc
  {
    if procs == [] then []
    else
      var rest := Without(procs[..|procs| - 1], proc);
      var last := procs[|procs| - 1];
      assert procs == procs[..|procs| - 1] + [last];
      if last == proc then rest else rest + [last]
  }

  /** Children keep their identity, taken statuses stay taken, and under the lock none comes or goes. */
  predicate Evolved(r: Registry, r': Registry, locked: bool) {
    && (locked ==> r'.procs == r.procs)
    && forall h :: h in r.popens ==> h in r'.popens && SameChild(r.popens[h], r'.popens[h])
  }

  predicate SameChild(p: Popen, p': Popen) {
    && p'.pid == p.pid && p'.start == p.start && (p.taken ==> p'.taken)
    && (p.returncode.Some? ==> p'.returncode == p.returncode)
  }

  lemma EvolvedTwice(a: Registry, b: Registry, c: Registry, locked: bool)
    requires Evolved(a, b, locked) && Evolved(b, c, locked)
    ensures Evolved(a, c, locked)
  {
    forall h | h in a.popens ensures h in c.popens && SameChild(a.popens[h], c.popens[h]) {
      assert h in b.popens;
    }
  }

  lemma StepLeavesOthers(os: Os, step: Step, pid: int, start: nat)
    requires Enabled(os, step) && Present(os, pid, start) && !(step.Reap? && step.pid == pid)
    ensures Present(Apply(os, step), pid, start)
  {
  }

  lemma OwedIn(r: Registry, i: nat)
    requires i < |r.procs| && r.procs[i] in r.popens && !r.popens[r.procs[i]].taken
    ensures (r.popens[r.procs[i]].pid, r.popens[r.procs[i]].start) in Owed(r)
  {
  }

  /**
   * Whatever happens around the registry, every status that is owed stays waitable, and the contract
   * of `Interleave` holds of it; so it holds of any number of such events.
   */
  lemma EventKeepsOwed(os: Os, r: Registry, self: int, locked: bool, e: Event)
    requires Truthful(r) && Waitable(os, Owed(r)) && Allowed(os, r, self, locked, e)
    ensures var (os', r') := Happened(os, r, self, locked, e);
            && Truthful(r') && Waitable(os', Owed(r')) && Evolved(r, r', locked)
            && (os' == os || Next(os, os'))
  {
    var (os', r') := Happened(os, r, self, locked, e);
    match e {
      case Elsewhere(step) =>
        forall x | x in Owed(r') ensures Present(os', x.0, x.1) {
          StepLeavesOthers(os, step, x.0, x.1);
        }
      case OwnerWaits(h) => OwnerTakes(os, r, h);
      case OwnerLearns(h, _) => SameOwed(r, r');
      case Register(h, child, start) => OneMoreOwed(os, r, self, h, child, start);
      case Drop(h) => DropKeepsOwed(r, h);
    }
  }

  lemma OwnerTakes(os: Os, r: Registry, h: nat)
    requires Truthful(r) && Waitable(os, Owed(r)) && h in r.popens && Enabled(os, Reap(r.popens[h].pid))
    requires os.procs[r.popens[h].pid].start == r.popens[h].start
    ensures var r' := r.(popens := Took(r.popens, r.popens[h]));
            && Truthful(r') && Waitable(Apply(os, Reap(r.popens[h].pid)), Owed(r')) && Evolved(r, r', true)
  {
    var p := r.popens[h];
    var r' := r.(popens := Took(r.popens, p));
    forall x | x in Owed(r') ensures Present(Apply(os, Reap(p.pid)), x.0, x.1) {
      var i :| 0 <= i < |r'.procs| && r'.procs[i] in r'.popens && !r'.popens[r'.procs[i]].taken
               && x == (r'.popens[r'.procs[i]].pid, r'.popens[r'.procs[i]].start);
      assert r'.popens[r'.procs[i]] == r.popens[r.procs[i]];
      OwedIn(r, i);
    }
  }

  lemma SameOwed(r: Registry, r': Registry)
    requires r'.procs == r.procs && r'.popens.Keys == r.popens.Keys
    requires forall h :: h in r.popens ==>
               SameChild(r.popens[h], r'.popens[h]) && r'.popens[h].taken == r.popens[h].taken
    ensures Owed(r') == Owed(r)
  {
  }

  lemma OneMoreOwed(os: Os, r: Registry, self: int, h: nat, child: int, start: nat)
    requires Truthful(r) && Waitable(os, Owed(r)) && h !in r.popens && Enabled(os, Fork(self, child, start))
    ensures var r' := Registry(r.popens[h := Popen(child, start, false, None)], r.procs + [h]);
            && Truthful(r') && Waitable(Apply(os, Fork(self, child, start)), Owed(r')) && Evolved(r, r', false)
            && Owed(r') == Owed(r) + {(child, start)}
  {
    var r' := Registry(r.popens[h := Popen(child, start, false, None)], r.procs + [h]);
    assert forall i :: 0 <= i < |r.procs| ==>
           r'.procs[i] == r.procs[i] && r'.popens[r'.procs[i]] == r.popens[r.procs[i]];
    assert r'.procs[|r.procs|] == h;
    forall x ensures x in Owed(r') <==> x in Owed(r) || x == (child, start) {
      if x in Owed(r) {
        var i :| 0 <= i < |r.procs| && r.procs[i] in r.popens && !r.popens[r.procs[i]].taken
                 && x == (r.popens[r.procs[i]].pid, r.popens[r.procs[i]].start);
        OwedIn(r', i);
      }
      OwedIn(r', |r.procs|);
    }
    forall x | x in Owed(r') ensures Present(Apply(os, Fork(self, child, start)), x.0, x.1) {
      if x in Owed(r) {
        StepLeavesOthers(os, Fork(self, child, start), x.0, x.1);
      }
    }
  }

  lemma OwedWithin(r: Registry, procs: seq<nat>, x: (int, nat))
    requires x in Owed(r) && forall h :: h in r.procs && h in r.popens && !r.popens[h].taken ==> h in procs
    ensures x in Owed(r.(procs := procs))
  {
    var i :| 0 <= i < |r.procs| && r.procs[i] in r.popens && !r.popens[r.procs[i]].taken
             && x == (r.popens[r.procs[i]].pid, r.popens[r.procs[i]].start);
    assert r.procs[i] in procs;
    var j :| 0 <= j < |procs| && procs[j] == r.procs[i];
    OwedIn(r.(procs := procs), j);
  }

  /** Leaving out children whose status is taken leaves what is owed. */
  lemma FewerSameOwed(r: Registry, procs: seq<nat>)
    requires Truthful(r) && forall h :: h in procs ==> h in r.procs
    requires forall h :: h in r.procs && !r.popens[h].taken ==> h in procs
    ensures Truthful(r.(procs := procs)) && Owed(r.(procs := procs)) == Owed(r)
  {
    var r' := r.(procs := procs);
    forall i | 0 <= i < |procs| ensures procs[i] in r.popens {
      assert procs[i] in r.procs;
    }
    forall x | x in Owed(r) ensures x in Owed(r') {
      OwedWithin(r, procs, x);
    }
    forall x | x in Owed(r') ensures x in Owed(r) {
      OwedWithin(r', r.procs, x);
      assert r'.(procs := r.procs) == r;
    }
  }

  lemma DropKeepsOwed(r: Registry, h: nat)
    requires Truthful(r) && h in r.popens && r.popens[h].taken
    ensures var r' := r.(procs := Without(r.procs, h));
            Truthful(r') && Owed(r') == Owed(r) && Evolved(r, r', false)
  {
    FewerSameOwed(r, Without(r.procs, h));
  }

  /** The registered children not known to be waited. */
  function Unwaited(procs: seq<nat>, popens: map<nat, Popen>): (r: seq<nat>)
    requires forall i :: 0 <= i < |procs| ==> procs[i] in popens
    ensures forall h :: h in r <==> h in procs && popens[h].returncode.None?
  {
    if procs == [] then []
    else
      var rest := Unwaited(procs[..|procs| - 1], popens);
      var last := procs[|procs| - 1];
      assert procs == procs[..|procs| - 1] + [last];
      if popens[last].returncode.None? then rest + [last] else rest
  }

  // ----- The registry -----

  class ManagedChildren {
    const self: int
    var popens: map<nat, Popen>
    var procs: seq<nat>
    /** Held by a scan. */
    var locked: bool
    /** What was owed at every instant of the process table. */
    ghost var owed: seq<set<(int, nat)>>
    /** How many exit statuses scans have taken. */
    ghost var takes: nat

    ghost function View(): Registry
      reads this
    {
      Registry(popens, procs)
    }

    ghost predicate Valid(k: Kernel)
      reads this, k
    {
      && k.Valid() && Truthful(View())
      && |owed| == |k.hist| && owed[|owed| - 1] == Owed(View())
      && forall t :: 0 <= t < |owed| ==> Waitable(k.hist[t], owed[t])
    }

    /** No registered child has this pid. */
    ghost predicate Unshielded(pid: int)
      reads this
    {
      pid !in Pids(View())
    }

    constructor (k: Kernel, self: int)
      requires k.Valid()
      ensures Valid(k) && this.self == self && procs == [] && !locked && takes == 0
    {
      this.self, popens, procs, locked := self, map[], [], false;
      owed, takes := seq(|k.hist|, i => {}), 0;
    }

    /** Any number of events by anyone; the contract is all a caller may rely on. */
    method Interleave(k: Kernel)
      requires Valid(k)
      modifies `popens, `procs, `owed, k
      ensures Valid(k) && old(k.hist) <= k.hist && old(owed) <= owed && Evolved(old(View()), View(), locked)
    {
    }

    /** Read /proc/<pid>/stat at some later instant. */
    method ReadStat(k: Kernel, pid: int) returns (stat: Option<Proc>)
      requires Valid(k)
      modifies `popens, `procs, `owed, k
      ensures Valid(k) && old(k.hist) <= k.hist && old(owed) <= owed && Evolved(old(View()), View(), locked)
      ensures stat == if pid in k.os.procs then Some(k.os.procs[pid]) else None
    {
      Interleave(k);
      stat := if pid in k.os.procs then Some(k.os.procs[pid]) else None;
    }

    /**
     * The scan's wait at some later instant. Under the lock an unshielded pid stays unshielded, so
     * what is taken is not owed, and everything owed stays waitable.
     */
    method WaitPid(k: Kernel, pid: int) returns (taken: Option<nat>)
      requires Valid(k) && locked && Unshielded(pid)
      modifies `popens, `procs, `owed, `takes, k
      ensures takes == old(takes) + if taken.Some? then 1 else 0
      ensures Valid(k) && old(k.hist) <= k.hist && old(owed) <= owed && Evolved(old(View()), View(), locked)
      ensures taken.None? ==> !ZombieChild(k.os, pid, self)
      ensures taken.Some? ==>
                && |old(k.hist)| < |k.hist| && ZombieChild(k.hist[|k.hist| - 2], pid, self)
                && k.hist[|k.hist| - 2].procs[pid].start == taken.value
                && k.os == Apply(k.hist[|k.hist| - 2], Reap(pid)) && (pid, taken.value) !in owed[|k.hist| - 2]
    {
      ghost var before := View();
      Interleave(k);
      StillUnshielded(before, View());
      ghost var os, hist, now := k.os, k.hist, Owed(View());
      taken := k.WaitPid(self, pid);
      if taken.Some? {
        NotAmongOwed(View(), pid, taken.value);
        forall x | x in now ensures Present(k.os, x.0, x.1) {
          NotAmongOwed(View(), pid, x.1);
          StepLeavesOthers(os, Reap(pid), x.0, x.1);
        }
        owed, takes := owed + [now], takes + 1;
      }
    }

    /** Wait for the lock; spawns and forgets may finish meanwhile. */
    method Acquire(k: Kernel)
      requires Valid(k) && !locked
      modifies `popens, `procs, `owed, `locked, k
      ensures Valid(k) && locked && old(k.hist) <= k.hist && old(owed) <= owed && Evolved(old(View()), View(), false)
    {
      Interleave(k);
      locked := true;
    }

    method Release(k: Kernel)
      requires Valid(k) && locked
      modifies `locked
      ensures Valid(k) && !locked
    {
      locked := false;
    }

    /** Create and register a child under the lock: no scan sees it unregistered. */
    method Spawn(k: Kernel, child: int, start: nat, h: nat)
      requires Valid(k) && !locked && h !in popens && Enabled(k.os, Fork(self, child, start))
      modifies `popens, `procs, `owed, k
      ensures Valid(k) && procs == old(procs) + [h] && popens == old(popens)[h := Popen(child, start, false, None)]
      ensures k.hist == old(k.hist) + [k.os] && k.os == Apply(old(k.os), Fork(self, child, start))
      ensures owed == old(owed) + [old(owed)[|old(owed)| - 1] + {(child, start)}]
    {
      OneMoreOwed(k.os, View(), self, h, child, start);
      k.Do(Fork(self, child, start));
      popens, procs := popens[h := Popen(child, start, false, None)], procs + [h];
      owed := owed + [Owed(View())];
    }

    /** Drop a child its owner has waited. */
    method Forget(k: Kernel, h: nat)
      requires Valid(k) && !locked && h in popens && popens[h].taken
      modifies `procs
      ensures Valid(k) && procs == Without(old(procs), h)
    {
      DropKeepsOwed(View(), h);
      var kept: seq<nat> := [];
      for i := 0 to |procs|
        invariant kept == Without(procs[..i], h)
        modifies {}
      {
        assert procs[..i + 1][..i] == procs[..i];
        if procs[i] != h {
          kept := kept + [procs[i]];
        }
      }
      assert procs[..|procs|] == procs;
      procs := kept;
    }

    /** Drop who is known to have been waited and shield the pids of the rest. */
    method PidsLocked(k: Kernel) returns (pids: set<int>)
      requires Valid(k) && locked
      modifies `procs
      ensures Valid(k) && procs == Unwaited(old(procs), popens) && pids == Pids(View())
      ensures forall pid :: pid in pids <==>
                exists h :: h in old(procs) && h in popens && popens[h].returncode.None? && popens[h].pid == pid
    {
      var kept: seq<nat> := [];
      for i := 0 to |procs|
        invariant kept == Unwaited(procs[..i], popens)
        modifies {}
      {
        assert procs[..i + 1][..i] == procs[..i];
        if popens[procs[i]].returncode.None? {
          kept := kept + [procs[i]];
        }
      }
      assert procs[..|procs|] == procs;
      FewerSameOwed(View(), kept);
      procs := kept;
      pids := set i | 0 <= i < |procs| && procs[i] in popens :: popens[procs[i]].pid;
      forall h | h in old(procs) && h in popens && popens[h].returncode.None? ensures popens[h].pid in pids {
        assert h in procs;
      }
    }
  }

  lemma StillUnshielded(r: Registry, r': Registry)
    requires Truthful(r) && Evolved(r, r', true)
    ensures Pids(r') == Pids(r)
  {
  }

  lemma NotAmongOwed(r: Registry, pid: int, start: nat)
    requires pid !in Pids(r)
    ensures (pid, start) !in Owed(r)
  {
  }
}
