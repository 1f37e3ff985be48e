/**
 * The process table as the reapers see it through /proc: forks, group changes, exits, reaps, and
 * pids and pgids that are recycled. Every group has a ghost incarnation number, so that a recycled
 * pgid can be told from the group it used to name.
 */
module ProcessTable {
  import opened Basics

  /** One entry. A zombie keeps its pid, start time, group and session but has an empty command line. */
  datatype Proc = Proc(start: nat, ppid: int, pgid: int, sid: int, zombie: bool, markers: set<string>)

  /**
   * `incarnation[g]` numbers the life of group `g`; `used` holds every (pid, start) ever issued and
   * `left` every membership that was given up.
   */
  datatype Os = Os(
    procs: map<int, Proc>,
    incarnation: map<int, nat>,
    used: set<(int, nat)>,
    left: set<(int, nat, int)>,
    nextIncarnation: nat)

  predicate Member(os: Os, pid: int, start: nat, g: int) {
    pid in os.procs && os.procs[pid].start == start && os.procs[pid].pgid == g
  }

  predicate Populated(os: Os, g: int) {
    exists pid :: pid in os.procs && os.procs[pid].pgid == g
  }

  predicate Present(os: Os, pid: int, start: nat) {
    pid in os.procs && os.procs[pid].start == start
  }

  predicate ZombieChild(os: Os, pid: int, parent: int) {
    pid in os.procs && os.procs[pid].zombie && os.procs[pid].ppid == parent
  }

  predicate Alive(os: Os, pid: int) {
    pid in os.procs && !os.procs[pid].zombie
  }

  datatype Step =
    | Fork(parent: int, child: int, start: nat)
    | NewGroup(pid: int, session: bool)
    | JoinGroup(pid: int, g: int)
    | Exec(pid: int, markers: set<string>)
    | Exit(pid: int)
    | Adopt(pid: int, ppid: int)
    | Reap(pid: int)

  /**
   * The kernel's side of the bargain: (pid, start) is never reused, a pgid is not reissued while it
   * has members, a process that leaves a group does not rejoin it, a zombie only waits to be reaped,
   * and a child is adopted only when its parent is gone.
   */
  predicate Enabled(os: Os, step: Step) {
    match step
    case Fork(parent, child, start) =>
      parent in os.procs && !os.procs[parent].zombie && child !in os.procs && (child, start) !in os.used
      && !Populated(os, child)
    case NewGroup(pid, _) =>
      pid in os.procs && !os.procs[pid].zombie && !Populated(os, pid) && (pid, os.procs[pid].start, pid) !in os.left
    case JoinGroup(pid, g) =>
      && pid in os.procs && !os.procs[pid].zombie && os.procs[pid].pgid != g && Populated(os, g)
      && (pid, os.procs[pid].start, g) !in os.left
    case Exec(pid, _) => pid in os.procs && !os.procs[pid].zombie
    case Exit(pid) => pid in os.procs
    case Adopt(pid, _) => pid in os.procs && !Alive(os, os.procs[pid].ppid)
    case Reap(pid) => pid in os.procs && os.procs[pid].zombie
  }

  function Apply(os: Os, step: Step): Os
    requires Enabled(os, step)
  {
    match step
    case Fork(parent, child, start) =>
      os.(procs := os.procs[child := os.procs[parent].(start := start, ppid := parent, zombie := false)],
          used := os.used + {(child, start)})
    case NewGroup(pid, session) =>
      var p := os.procs[pid];
      os.(procs := os.procs[pid := p.(pgid := pid, sid := if session then pid else p.sid)],
          incarnation := os.incarnation[pid := os.nextIncarnation],
          nextIncarnation := os.nextIncarnation + 1,
          left := os.left + {(pid, p.start, p.pgid)})
    case JoinGroup(pid, g) =>
      var p := os.procs[pid];
      os.(procs := os.procs[pid := p.(pgid := g)], left := os.left + {(pid, p.start, p.pgid)})
    case Exec(pid, markers) => os.(procs := os.procs[pid := os.procs[pid].(markers := markers)])
    case Exit(pid) => os.(procs := os.procs[pid := os.procs[pid].(zombie := true, markers := {})])
    case Adopt(pid, ppid) => os.(procs := os.procs[pid := os.procs[pid].(ppid := ppid)])
    case Reap(pid) => os.(procs := os.procs - {pid})
  }

  ghost predicate Next(os: Os, os': Os) {
    exists step :: Enabled(os, step) && os' == Apply(os, step)
  }

  /** Live entries have been issued, are where they last moved to, and belong to a numbered group. */
  ghost predicate Consistent(os: Os) {
    && (forall pid :: pid in os.procs ==> (pid, os.procs[pid].start) in os.used)
    && (forall pid :: pid in os.procs ==> (pid, os.procs[pid].start, os.procs[pid].pgid) !in os.left)
    && (forall pid :: pid in os.procs ==> os.procs[pid].pgid in os.incarnation)
    && (forall g :: g in os.incarnation ==> os.incarnation[g] < os.nextIncarnation)
    && (forall pid, start, g :: (pid, start, g) in os.left ==> (pid, start) in os.used)
  }

  ghost predicate Linked(hist: seq<Os>, i: int) {
    0 < i < |hist| ==> Next(hist[i - 1], hist[i])
  }

  /** A history of the process table. */
  ghost predicate Trace(hist: seq<Os>) {
    hist != [] && Consistent(hist[0]) && forall i :: Linked(hist, i)
  }

  lemma NextKeepsConsistent(os: Os, os': Os)
    requires Consistent(os) && Next(os, os')
    ensures Consistent(os')
  {
    var step :| Enabled(os, step) && os' == Apply(os, step);
    if step.JoinGroup? {
      var pid :| pid in os.procs && os.procs[pid].pgid == step.g;
      assert step.g in os.incarnation;
    }
  }

  lemma {:induction false} TraceConsistent(hist: seq<Os>, i: nat)
    requires Trace(hist) && i < |hist|
    ensures Consistent(hist[i])
  {
    if i > 0 {
      TraceConsistent(hist, i - 1);
      assert Linked(hist, i);
      NextKeepsConsistent(hist[i - 1], hist[i]);
    }
  }

  /** A membership that has ended: the process was reaped or has moved on. */
  ghost predicate Ended(os: Os, pid: int, start: nat, g: int) {
    && (pid, start) in os.used
    && ((pid, start, g) in os.left || !(pid in os.procs && os.procs[pid].start == start))
  }

  lemma EndedForever(os: Os, os': Os, pid: int, start: nat, g: int)
    requires Consistent(os) && Next(os, os') && Ended(os, pid, start, g)
    ensures Ended(os', pid, start, g) && !Member(os', pid, start, g)
  {
    NextKeepsConsistent(os, os');
  }

  lemma MemberOrEnded(os: Os, os': Os, pid: int, start: nat, g: int)
    requires Consistent(os) && Next(os, os') && Member(os, pid, start, g)
    ensures Member(os', pid, start, g) || Ended(os', pid, start, g)
  {
  }

  lemma {:induction false} EndedUpTo(hist: seq<Os>, i: nat, j: nat, pid: int, start: nat, g: int)
    requires Trace(hist) && i <= j < |hist| && Ended(hist[i], pid, start, g)
    ensures Ended(hist[j], pid, start, g) && (i < j ==> !Member(hist[j], pid, start, g))
  {
    if i < j {
      EndedUpTo(hist, i, j - 1, pid, start, g);
      TraceConsistent(hist, j - 1);
      assert Linked(hist, j);
      EndedForever(hist[j - 1], hist[j], pid, start, g);
    }
  }

  /** A member seen at two instants was a member at every instant in between. */
  lemma {:induction false} MembershipIsConvex(hist: seq<Os>, i: nat, k: nat, j: nat, pid: int, start: nat, g: int)
    requires Trace(hist) && i <= k <= j < |hist|
    requires Member(hist[i], pid, start, g) && Member(hist[j], pid, start, g)
    ensures Member(hist[k], pid, start, g)
    decreases k
  {
    if i < k {
      MembershipIsConvex(hist, i, k - 1, j, pid, start, g);
      TraceConsistent(hist, k - 1);
      assert Linked(hist, k);
      MemberOrEnded(hist[k - 1], hist[k], pid, start, g);
      if Ended(hist[k], pid, start, g) {
        TraceConsistent(hist, k);
        EndedUpTo(hist, k, j, pid, start, g);
      }
    }
  }

  lemma MemberHoldsIncarnation(os: Os, os': Os, pid: int, start: nat, g: int)
    requires Consistent(os) && Next(os, os') && Member(os, pid, start, g)
    ensures g in os.incarnation && g in os'.incarnation && os'.incarnation[g] == os.incarnation[g]
  {
    var step :| Enabled(os, step) && os' == Apply(os, step);
    assert Populated(os, g);
  }

  /** While one member stays, the pgid keeps naming the same incarnation. */
  lemma {:induction false} IncarnationIsPinned(hist: seq<Os>, i: nat, j: nat, pid: int, start: nat, g: int)
    requires Trace(hist) && i <= j < |hist|
    requires Member(hist[i], pid, start, g) && Member(hist[j], pid, start, g)
    ensures g in hist[i].incarnation && g in hist[j].incarnation
    ensures hist[j].incarnation[g] == hist[i].incarnation[g]
  {
    TraceConsistent(hist, i);
    if i < j {
      MembershipIsConvex(hist, i, j - 1, j, pid, start, g);
      IncarnationIsPinned(hist, i, j - 1, pid, start, g);
      TraceConsistent(hist, j - 1);
      assert Linked(hist, j);
      MemberHoldsIncarnation(hist[j - 1], hist[j], pid, start, g);
    }
  }

  ghost predicate NeverEmpty(hist: seq<Os>, i: int, j: int, g: int) {
    forall t :: 0 <= t < |hist| && i <= t <= j ==> Populated(hist[t], g)
  }

  lemma PopulatedKeepsIncarnation(os: Os, os': Os, g: int)
    requires Consistent(os) && Next(os, os') && Populated(os, g)
    ensures g in os.incarnation && g in os'.incarnation && os'.incarnation[g] == os.incarnation[g]
  {
    var pid :| pid in os.procs && os.procs[pid].pgid == g;
  }

  lemma {:induction false} NeverEmptyKeepsIncarnation(hist: seq<Os>, i: nat, j: nat, g: int)
    requires Trace(hist) && i <= j < |hist| && NeverEmpty(hist, i, j, g)
    ensures g in hist[i].incarnation && g in hist[j].incarnation && hist[j].incarnation[g] == hist[i].incarnation[g]
  {
    TraceConsistent(hist, i);
    if i < j {
      NeverEmptyKeepsIncarnation(hist, i, j - 1, g);
      TraceConsistent(hist, j - 1);
      assert Linked(hist, j);
      PopulatedKeepsIncarnation(hist[j - 1], hist[j], g);
    } else {
      assert Populated(hist[i], g);
    }
  }

  /** A pgid with members was either never empty since, or was issued again with a later number. */
  ghost predicate Reissued(os: Os, g: int, bound: nat) {
    bound <= os.nextIncarnation && (Populated(os, g) ==> g in os.incarnation && os.incarnation[g] >= bound)
  }

  lemma ReissuedStep(os: Os, os': Os, g: int, bound: nat)
    requires Consistent(os) && Next(os, os') && Reissued(os, g, bound)
    ensures Reissued(os', g, bound)
  {
    var step :| Enabled(os, step) && os' == Apply(os, step);
    if Populated(os', g) && !(step.NewGroup? && step.pid == g) {
      var pid :| pid in os'.procs && os'.procs[pid].pgid == g;
      if step.Fork? && step.child == pid {
        assert os.procs[step.parent].pgid == g;
      }
      assert Populated(os, g);
    }
  }

  lemma {:induction false} ReissuedUpTo(hist: seq<Os>, i: nat, j: nat, g: int)
    requires Trace(hist) && i <= j < |hist| && !Populated(hist[i], g)
    ensures Reissued(hist[j], g, hist[i].nextIncarnation)
  {
    if i < j {
      ReissuedUpTo(hist, i, j - 1, g);
      TraceConsistent(hist, j - 1);
      assert Linked(hist, j);
      ReissuedStep(hist[j - 1], hist[j], g, hist[i].nextIncarnation);
    }
  }

  lemma {:induction false} NumbersGrow(hist: seq<Os>, i: nat, j: nat)
    requires Trace(hist) && i <= j < |hist|
    ensures hist[i].nextIncarnation <= hist[j].nextIncarnation
  {
    if i < j {
      NumbersGrow(hist, i, j - 1);
      assert Linked(hist, j);
    }
  }

  /** A pgid that has members now names the group it named earlier exactly if that group was never empty in between. */
  lemma SameGroupIff(hist: seq<Os>, i: nat, j: nat, g: int)
    requires Trace(hist) && i <= j < |hist| && Populated(hist[i], g) && Populated(hist[j], g)
    ensures g in hist[i].incarnation && g in hist[j].incarnation
    ensures hist[j].incarnation[g] == hist[i].incarnation[g] <==> NeverEmpty(hist, i, j, g)
  {
    TraceConsistent(hist, i);
    TraceConsistent(hist, j);
    if NeverEmpty(hist, i, j, g) {
      NeverEmptyKeepsIncarnation(hist, i, j, g);
    } else {
      var t :| 0 <= t < |hist| && i <= t <= j && !Populated(hist[t], g);
      ReissuedUpTo(hist, t, j, g);
      NumbersGrow(hist, i, t);
    }
  }

  /** The kernel behind /proc: its current table and everything it has been. */
  class Kernel {
    var os: Os
    var hist: seq<Os>

    ghost predicate Valid()
      reads this
    {
      Trace(hist) && os == hist[|hist| - 1]
    }

    /** The current instant. */
    function Now(): int
      reads this
    {
      |hist| - 1
    }

    /** Any number of steps by anyone; the contract is all a caller may rely on. */
    method Interleave()
      requires Valid()
      modifies this
      ensures Valid() && old(hist) <= hist
    {
    }

    /** Read /proc/<pid>/stat and cmdline at some later instant. */
    method ReadStat(pid: int) returns (stat: Option<Proc>)
      requires Valid()
      modifies this
      ensures Valid() && old(hist) <= hist
      ensures stat == if pid in os.procs then Some(os.procs[pid]) else None
    {
      Interleave();
      stat := if pid in os.procs then Some(os.procs[pid]) else None;
    }

    /** One step, by whoever takes it. */
    method Do(step: Step)
      requires Valid() && Enabled(os, step)
      modifies this
      ensures Valid() && hist == old(hist) + [os] && os == Apply(old(os), step)
    {
      ghost var seen := hist;
      os := Apply(os, step);
      hist := hist + [os];
      assert Next(seen[|seen| - 1], os);
      assert forall i :: Linked(seen, i) ==> Linked(hist, i);
    }

    /**
     * waitpid(pid, WNOHANG) by `parent`, at this instant: takes the status of a zombie child, if that is what is
     * there.
     */
    method WaitPid(parent: int, pid: int) returns (taken: Option<nat>)
      requires Valid()
      modifies this
      ensures Valid() && taken == if ZombieChild(old(os), pid, parent) then Some(old(os).procs[pid].start) else None
      ensures taken.Some? ==> os == Apply(old(os), Reap(pid)) && hist == old(hist) + [os]
      ensures taken.None? ==> os == old(os) && hist == old(hist)
    {
      taken := None;
      if ZombieChild(os, pid, parent) {
        taken := Some(os.procs[pid].start);
        Do(Reap(pid));
      }
    }

    /** List /proc at some later instant. */
    method ListPids() returns (pids: set<int>)
      requires Valid()
      modifies this
      ensures Valid() && old(hist) <= hist
      ensures pids == os.procs.Keys
    {
      Interleave();
      pids := os.procs.Keys;
    }
  }
}
