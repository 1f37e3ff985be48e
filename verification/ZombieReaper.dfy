/** Reaping adopted zombies as PID 1 (worker/zombie_reaper.py), with the process table changing between all reads. */
module ZombieReaper {
  import opened Basics
  import opened ProcessTable
  import opened ChildRegistry

  // ----- Zombies wait to be reaped -----

  /** A zombie child of `parent`, of session `sid`. */
  predicate IsZombie(os: Os, pid: int, start: nat, parent: int, sid: int) {
    ZombieChild(os, pid, parent) && os.procs[pid].start == start && os.procs[pid].sid == sid
  }

  lemma ZombieOrGone(os: Os, os': Os, pid: int, start: nat, parent: int, sid: int)
    requires Next(os, os') && IsZombie(os, pid, start, parent, sid) && Alive(os, parent)
    ensures IsZombie(os', pid, start, parent, sid) || pid !in os'.procs
  {
  }

  lemma GoneStep(os: Os, os': Os, pid: int, start: nat)
    requires Consistent(os) && Next(os, os') && (pid, start) in os.used && !Present(os, pid, start)
    ensures (pid, start) in os'.used && !Present(os', pid, start)
  {
  }

  lemma {:induction false} GoneForever(hist: seq<Os>, i: nat, j: nat, pid: int, start: nat)
    requires Trace(hist) && i <= j < |hist| && (pid, start) in hist[i].used && !Present(hist[i], pid, start)
    ensures (pid, start) in hist[j].used && !Present(hist[j], pid, start)
  {
    if i < j {
      GoneForever(hist, i, j - 1, pid, start);
      TraceConsistent(hist, j - 1);
      assert Linked(hist, j);
      GoneStep(hist[j - 1], hist[j], pid, start);
    }
  }

  ghost predicate AliveSince(hist: seq<Os>, from: int, pid: int) {
    forall t :: from <= t < |hist| && 0 <= t ==> Alive(hist[t], pid)
  }

  lemma IssuedOnceSeen(hist: seq<Os>, i: nat, pid: int, start: nat)
    requires Trace(hist) && i < |hist| && Present(hist[i], pid, start)
    ensures (pid, start) in hist[i].used
  {
    TraceConsistent(hist, i);
  }

  /** While its parent lives, a zombie stays exactly as it is until it is reaped, and then never returns. */
  lemma {:induction false} ZombieStays(hist: seq<Os>, i: nat, j: nat, pid: int, start: nat, parent: int, sid: int)
    requires Trace(hist) && i <= j < |hist| && AliveSince(hist, i, parent)
    requires IsZombie(hist[i], pid, start, parent, sid)
    ensures IsZombie(hist[j], pid, start, parent, sid) || !Present(hist[j], pid, start)
  {
    if i < j {
      ZombieStays(hist, i, j - 1, pid, start, parent, sid);
      assert Linked(hist, j);
      if IsZombie(hist[j - 1], pid, start, parent, sid) {
        ZombieOrGone(hist[j - 1], hist[j], pid, start, parent, sid);
      } else {
        IssuedOnceSeen(hist, i, pid, start);
        GoneInBetween(hist, i, j - 1, pid, start);
      }
    }
  }

  lemma {:induction false} UsedStays(hist: seq<Os>, i: nat, j: nat, pid: int, start: nat)
    requires Trace(hist) && i <= j < |hist| && (pid, start) in hist[i].used
    ensures (pid, start) in hist[j].used
  {
    if i < j {
      UsedStays(hist, i, j - 1, pid, start);
      assert Linked(hist, j);
    }
  }

  lemma GoneInBetween(hist: seq<Os>, i: nat, j: nat, pid: int, start: nat)
    requires Trace(hist) && i <= j < |hist| - 1 && (pid, start) in hist[i].used && !Present(hist[j], pid, start)
    ensures !Present(hist[j + 1], pid, start)
  {
    UsedStays(hist, i, j, pid, start);
    GoneForever(hist, j, j + 1, pid, start);
  }

  ghost predicate NeverAbsent(hist: seq<Os>, i: int, j: int, pid: int) {
    forall t :: 0 <= t < |hist| && i <= t <= j ==> pid in hist[t].procs
  }

  lemma ZombieEntryStays(os: Os, os': Os, pid: int)
    requires Next(os, os') && pid in os.procs && os.procs[pid].zombie && pid in os'.procs
    ensures os'.procs[pid].zombie && os'.procs[pid].start == os.procs[pid].start
  {
  }

  lemma {:induction false} NotReapedInBetween(hist: seq<Os>, i: nat, j: nat, pid: int)
    requires Trace(hist) && i <= j < |hist| && pid in hist[i].procs && hist[i].procs[pid].zombie
    requires NeverAbsent(hist, i, j, pid)
    ensures hist[j].procs[pid].zombie && hist[j].procs[pid].start == hist[i].procs[pid].start
  {
    if i < j {
      NotReapedInBetween(hist, i, j - 1, pid);
      assert Linked(hist, j);
      ZombieEntryStays(hist[j - 1], hist[j], pid);
    }
  }

  /**
   * The process found under a zombie's pid later on is that same zombie exactly when nobody reaped
   * it in between.
   */
  lemma SameUnlessReaped(hist: seq<Os>, i: nat, j: nat, pid: int)
    requires Trace(hist) && i <= j < |hist| && pid in hist[i].procs && hist[i].procs[pid].zombie && pid in hist[j].procs
    ensures hist[j].procs[pid].start == hist[i].procs[pid].start <==> NeverAbsent(hist, i, j, pid)
  {
    if NeverAbsent(hist, i, j, pid) {
      NotReapedInBetween(hist, i, j, pid);
    } else {
      var t :| 0 <= t < |hist| && i <= t <= j && pid !in hist[t].procs;
      var start := hist[i].procs[pid].start;
      IssuedOnceSeen(hist, i, pid, start);
      UsedStays(hist, i, t, pid, start);
      GoneForever(hist, t, j, pid, start);
    }
  }

  // ----- The scan -----

  /**
   * One wait: the zombie it was decided on, the instant of the re-read just before, and the process
   * whose exit status was taken.
   */
  datatype Wait = Wait(pid: int, judged: nat, judgedAt: int, taken: nat, takenAt: int)

  ghost predicate ZombieAt(hist: seq<Os>, t: int, pid: int, start: nat, self: int) {
    0 <= t < |hist| && ZombieChild(hist[t], pid, self) && hist[t].procs[pid].start == start
  }

  /** Every remembered process has been seen as a zombie child, at or after instant `from`. */
  ghost predicate SeenSince(hist: seq<Os>, from: int, keys: set<(int, nat)>, self: int) {
    forall pid: int, start: nat :: (pid, start) in keys ==> exists t :: from <= t && ZombieAt(hist, t, pid, start, self)
  }

  lemma SeenExtends(hist: seq<Os>, hist': seq<Os>, from: int, keys: set<(int, nat)>, self: int)
    requires hist <= hist' && SeenSince(hist, from, keys, self)
    ensures SeenSince(hist', from, keys, self)
  {
    forall pid: int, start: nat | (pid, start) in keys
      ensures exists t :: from <= t && ZombieAt(hist', t, pid, start, self) {
      var t :| from <= t && ZombieAt(hist, t, pid, start, self);
      assert ZombieAt(hist', t, pid, start, self);
    }
  }

  /**
   * The wait was decided on a zombie child that is of a foreign session or was seen lingering at
   * the previous scan, and it took a zombie child under that pid.
   */
  ghost predicate Justified(hist: seq<Os>, w: Wait, self: int, ownSid: int, lingering: set<(int, nat)>) {
    && 0 <= w.judgedAt <= w.takenAt < |hist|
    && ZombieAt(hist, w.judgedAt, w.pid, w.judged, self)
    && ZombieAt(hist, w.takenAt, w.pid, w.taken, self)
    && ((w.pid, w.judged) in lingering || ForeignSometime(hist, w.pid, w.judged, self, ownSid))
  }

  ghost predicate ForeignSometime(hist: seq<Os>, pid: int, start: nat, self: int, ownSid: int) {
    exists t :: ZombieAt(hist, t, pid, start, self) && hist[t].procs[pid].sid != ownSid
  }

  ghost predicate AllJustified(hist: seq<Os>, waits: seq<Wait>, self: int, ownSid: int, lingering: set<(int, nat)>) {
    forall i :: 0 <= i < |waits| ==> Justified(hist, waits[i], self, ownSid, lingering)
  }

  /** The process whose status was taken was not, at that instant, a registered child its owner had not waited. */
  ghost predicate NotOwed(owed: seq<set<(int, nat)>>, w: Wait) {
    0 <= w.takenAt < |owed| && (w.pid, w.taken) !in owed[w.takenAt]
  }

  ghost predicate NoneOwed(owed: seq<set<(int, nat)>>, waits: seq<Wait>) {
    forall i :: 0 <= i < |waits| ==> NotOwed(owed, waits[i])
  }

  lemma JustifiedExtends(hist: seq<Os>, hist': seq<Os>, w: Wait, self: int, ownSid: int, lingering: set<(int, nat)>)
    requires hist <= hist' && Justified(hist, w, self, ownSid, lingering)
    ensures Justified(hist', w, self, ownSid, lingering)
  {
    if ForeignSometime(hist, w.pid, w.judged, self, ownSid) {
      var t :| ZombieAt(hist, t, w.pid, w.judged, self) && hist[t].procs[w.pid].sid != ownSid;
      assert ZombieAt(hist', t, w.pid, w.judged, self);
    }
  }

  /** If a wait took what it was decided on, and exactly if nobody else reaped that zombie meanwhile. */
  lemma TakesTheJudgedUnlessReaped(hist: seq<Os>, w: Wait, self: int, ownSid: int, lingering: set<(int, nat)>)
    requires Trace(hist) && Justified(hist, w, self, ownSid, lingering)
    ensures w.taken == w.judged <==> NeverAbsent(hist, w.judgedAt, w.takenAt, w.pid)
  {
    SameUnlessReaped(hist, w.judgedAt, w.takenAt, w.pid);
  }

  /**
   * Of the zombie children of instant `from` with one of these pids none is still there, but for
   * same-session ones among `keys`.
   */
  ghost predicate Cleared(hist: seq<Os>, from: int, self: int, ownSid: int, pids: iset<int>, keys: set<(int, nat)>)
    requires 0 <= from < |hist|
  {
    forall pid: int, start: nat, sid: int :: pid in pids && IsZombie(hist[from], pid, start, self, sid) ==>
      !Present(hist[|hist| - 1], pid, start) || (sid == ownSid && (pid, start) in keys)
  }

  lemma ClearedStays(
    hist: seq<Os>, hist': seq<Os>, from: int, self: int, ownSid: int, pids: iset<int>, keys: set<(int, nat)>)
    requires Trace(hist') && hist <= hist' && 0 <= from < |hist| && Cleared(hist, from, self, ownSid, pids, keys)
    ensures Cleared(hist', from, self, ownSid, pids, keys)
  {
    forall pid: int, start: nat, sid: int | pid in pids && IsZombie(hist'[from], pid, start, self, sid)
      ensures !Present(hist'[|hist'| - 1], pid, start) || (sid == ownSid && (pid, start) in keys)
    {
      if !Present(hist[|hist| - 1], pid, start) {
        IssuedOnceSeen(hist', from, pid, start);
        UsedStays(hist', from, |hist| - 1, pid, start);
        GoneForever(hist', |hist| - 1, |hist'| - 1, pid, start);
      }
    }
  }

  ghost function Outside(pids: set<int>): iset<int> {
    iset p: int | p !in pids
  }

  function ChildrenOf(os: Os, parent: int): set<int> {
    set pid | pid in os.procs && os.procs[pid].ppid == parent
  }

  datatype Verdict = Nothing | Linger(start: nat) | Waited(wait: Wait)

  /** What the scan remembers of this child. */
  function Keys(pid: int, verdict: Verdict): set<(int, nat)> {
    if verdict.Linger? then {(pid, verdict.start)} else {}
  }

  function Remembered(seen: set<(int, nat)>, pid: int, verdict: Verdict): set<(int, nat)> {
    if verdict.Linger? then seen + {(pid, verdict.start)} else seen
  }

  function Grown(waits: seq<Wait>, verdict: Verdict): seq<Wait> {
    if verdict.Waited? then waits + [verdict.wait] else waits
  }

  /**
   * Where a scan stands that has `left` to consider: what it remembers it has seen, every wait so far
   * was decided as it should be and took nothing owed, and elsewhere no zombie is left behind.
   */
  ghost predicate Progress(
    hist: seq<Os>, owed: seq<set<(int, nat)>>, from: nat, begun: int, self: int, ownSid: int,
    lingering: set<(int, nat)>, left: set<int>, seen: set<(int, nat)>, waits: seq<Wait>)
    requires from < |hist|
  {
    && SeenSince(hist, begun, seen, self) && seen !! lingering
    && AllJustified(hist, waits, self, ownSid, lingering) && NoneOwed(owed, waits)
    && (AliveSince(hist, from, self) ==> Cleared(hist, from, self, ownSid, Outside(left), seen))
  }

  // ----- One scan after another -----

  /**
   * One scan: the start of the last one before it that could read its own entry, its own start, its
   * waits, and whether it could.
   */
  datatype Round = Round(last: Option<int>, begun: int, ownSid: int, waits: seq<Wait>, scanned: bool)

  ghost predicate ZombieBetween(hist: seq<Os>, last: Option<int>, begun: int, pid: int, start: nat, self: int) {
    last.Some? && exists t :: last.value <= t <= begun && ZombieAt(hist, t, pid, start, self)
  }

  /** The wait was decided on a foreign zombie child, or on one already seen by the scan before. */
  ghost predicate Due(hist: seq<Os>, w: Wait, self: int, ownSid: int, last: Option<int>, begun: int) {
    && 0 <= w.judgedAt <= w.takenAt < |hist|
    && ZombieAt(hist, w.judgedAt, w.pid, w.judged, self) && ZombieAt(hist, w.takenAt, w.pid, w.taken, self)
    && (ForeignSometime(hist, w.pid, w.judged, self, ownSid) || ZombieBetween(hist, last, begun, w.pid, w.judged, self))
  }

  ghost predicate RoundOk(hist: seq<Os>, owed: seq<set<(int, nat)>>, r: Round, self: int) {
    forall i :: 0 <= i < |r.waits| ==>
        Due(hist, r.waits[i], self, r.ownSid, r.last, r.begun) && NotOwed(owed, r.waits[i])
  }

  function LastScan(rounds: seq<Round>): Option<int> {
    if rounds == [] then None
    else
      var r := rounds[|rounds| - 1];
      if r.scanned then Some(r.begun) else r.last
  }

  ghost predicate Successive(rounds: seq<Round>) {
    forall i :: 0 <= i < |rounds| ==> rounds[i].last == LastScan(rounds[..i])
  }

  function TotalWaits(rounds: seq<Round>): nat {
    if rounds == [] then 0 else TotalWaits(rounds[..|rounds| - 1]) + |rounds[|rounds| - 1].waits|
  }

  lemma RoundsSnoc(rounds: seq<Round>, r: Round)
    requires Successive(rounds) && r.last == LastScan(rounds)
    ensures Successive(rounds + [r]) && TotalWaits(rounds + [r]) == TotalWaits(rounds) + |r.waits|
    ensures LastScan(rounds + [r]) == if r.scanned then Some(r.begun) else r.last
  {
    var more := rounds + [r];
    assert more[..|rounds|] == rounds;
    assert forall i :: 0 <= i < |rounds| ==> more[..i] == rounds[..i];
  }

  /** What is remembered has been seen as a zombie child since the last scan began; nothing without one. */
  ghost predicate Remembers(hist: seq<Os>, last: Option<int>, lingering: set<(int, nat)>, self: int) {
    if last.None? then lingering == {} else SeenSince(hist, last.value, lingering, self)
  }

  lemma RemembersStill(hist: seq<Os>, hist': seq<Os>, last: Option<int>, lingering: set<(int, nat)>, self: int)
    requires hist <= hist' && Remembers(hist, last, lingering, self)
    ensures Remembers(hist', last, lingering, self)
  {
    if last.Some? {
      SeenExtends(hist, hist', last.value, lingering, self);
    }
  }

  lemma ForeignStill(hist: seq<Os>, hist': seq<Os>, pid: int, start: nat, self: int, ownSid: int)
    requires hist <= hist' && ForeignSometime(hist, pid, start, self, ownSid)
    ensures ForeignSometime(hist', pid, start, self, ownSid)
  {
    var t :| ZombieAt(hist, t, pid, start, self) && hist[t].procs[pid].sid != ownSid;
    assert ZombieAt(hist', t, pid, start, self);
  }

  lemma DueStill(hist: seq<Os>, hist': seq<Os>, w: Wait, self: int, ownSid: int, last: Option<int>, begun: int)
    requires hist <= hist' && Due(hist, w, self, ownSid, last, begun)
    ensures Due(hist', w, self, ownSid, last, begun)
  {
    if ForeignSometime(hist, w.pid, w.judged, self, ownSid) {
      ForeignStill(hist, hist', w.pid, w.judged, self, ownSid);
    } else {
      var t :| last.value <= t <= begun && ZombieAt(hist, t, w.pid, w.judged, self);
      assert ZombieAt(hist', t, w.pid, w.judged, self);
    }
  }

  lemma RoundStands(
    hist: seq<Os>, hist': seq<Os>, owed: seq<set<(int, nat)>>, owed': seq<set<(int, nat)>>, r: Round, self: int)
    requires hist <= hist' && owed <= owed' && RoundOk(hist, owed, r, self)
    ensures RoundOk(hist', owed', r, self)
  {
    forall i | 0 <= i < |r.waits|
      ensures Due(hist', r.waits[i], self, r.ownSid, r.last, r.begun) && NotOwed(owed', r.waits[i])
    {
      DueStill(hist, hist', r.waits[i], self, r.ownSid, r.last, r.begun);
    }
  }

  lemma DueFromJustified(
    seen: seq<Os>, hist: seq<Os>, w: Wait, self: int, ownSid: int, lingering: set<(int, nat)>, last: Option<int>,
    begun: int)
    requires seen <= hist && begun == |seen| - 1 && Remembers(seen, last, lingering, self)
    requires Justified(hist, w, self, ownSid, lingering)
    ensures Due(hist, w, self, ownSid, last, begun)
  {
    if (w.pid, w.judged) in lingering {
      var t :| last.value <= t && ZombieAt(seen, t, w.pid, w.judged, self);
      assert ZombieAt(hist, t, w.pid, w.judged, self);
    }
  }

  lemma AllDueFromJustified(
    seen: seq<Os>, hist: seq<Os>, waits: seq<Wait>, self: int, ownSid: int, lingering: set<(int, nat)>,
    last: Option<int>, begun: int)
    requires seen <= hist && begun == |seen| - 1 && Remembers(seen, last, lingering, self)
    requires AllJustified(hist, waits, self, ownSid, lingering)
    ensures forall i :: 0 <= i < |waits| ==> Due(hist, waits[i], self, ownSid, last, begun)
  {
    forall i | 0 <= i < |waits| ensures Due(hist, waits[i], self, ownSid, last, begun) {
      DueFromJustified(seen, hist, waits[i], self, ownSid, lingering, last, begun);
    }
  }

  class ZombieReaper {
    const managed: ManagedChildren
    const self: int
    var lingering: set<(int, nat)>

    constructor (managed: ManagedChildren)
      ensures this.managed == managed && this.self == managed.self && lingering == {}
    {
      this.managed, this.self, lingering := managed, managed.self, {};
    }

    /** What everyone else may have done since: the registry evolves, under the lock without new entries. */
    twostate predicate Undisturbed(k: Kernel)
      reads this, managed, k
    {
      && managed.Valid(k) && managed.self == self && old(k.hist) <= k.hist && old(managed.owed) <= managed.owed
      && managed.locked == old(managed.locked)
      && Evolved(old(managed.View()), managed.View(), managed.locked)
    }

    /** Re-read right before the wait: still the very zombie child that was judged. */
    method SameZombie(k: Kernel, pid: int, start: nat) returns (same: bool)
      requires managed.Valid(k) && managed.self == self
      modifies k, managed
      ensures Undisturbed(k)
      ensures managed.takes == old(managed.takes)
      ensures same <==> ZombieAt(k.hist, k.Now(), pid, start, self)
    {
      var now := managed.ReadStat(k, pid);
      same := now.Some? && now.value.zombie && now.value.ppid == self && now.value.start == start;
    }

    /** One unshielded child of the scan: judge it, re-read it, wait for it. */
    method Consider(k: Kernel, pid: int, ownSid: int) returns (verdict: Verdict)
      requires managed.Valid(k) && managed.self == self && managed.locked && managed.Unshielded(pid)
      modifies k, managed
      ensures Undisturbed(k)
      ensures managed.takes == old(managed.takes) + if verdict.Waited? then 1 else 0
      ensures verdict.Linger? ==>
                && (pid, verdict.start) !in lingering
                && exists t ::
                     old(k.Now()) <= t && ZombieAt(k.hist, t, pid, verdict.start, self)
                     && k.hist[t].procs[pid].sid == ownSid
      ensures verdict.Waited? ==>
                && verdict.wait.pid == pid && Justified(k.hist, verdict.wait, self, ownSid, lingering)
                && NotOwed(managed.owed, verdict.wait)
      ensures AliveSince(k.hist, old(k.Now()), self) ==>
                Cleared(k.hist, old(k.Now()), self, ownSid, iset{pid}, Keys(pid, verdict))
    {
      ghost var from := k.Now();
      var stat := managed.ReadStat(k, pid);
      ghost var read := k.Now();
      verdict := Nothing;
      if stat.Some? && stat.value.zombie && stat.value.ppid == self {
        if stat.value.sid == ownSid && (pid, stat.value.start) !in lingering {
          verdict := Linger(stat.value.start);
          assert ZombieAt(k.hist, k.Now(), pid, stat.value.start, self);
        } else {
          verdict := WaitIfSame(k, pid, stat.value.start, stat.value.sid, ownSid);
        }
      }
      if AliveSince(k.hist, from, self) {
        ClearedByNow(k.hist, from, read, self, ownSid, pid, verdict);
      }
    }

    /** The re-read and the wait, with anything happening in between. */
    method WaitIfSame(k: Kernel, pid: int, start: nat, ghost sid: int, ghost ownSid: int) returns (verdict: Verdict)
      requires managed.Valid(k) && managed.self == self && managed.locked && managed.Unshielded(pid)
      requires ZombieAt(k.hist, k.Now(), pid, start, self)
      requires k.os.procs[pid].sid == sid && (sid == ownSid ==> (pid, start) in lingering)
      modifies k, managed
      ensures Undisturbed(k) && !verdict.Linger?
      ensures managed.takes == old(managed.takes) + if verdict.Waited? then 1 else 0
      ensures verdict.Waited? ==>
                && verdict.wait.pid == pid && Justified(k.hist, verdict.wait, self, ownSid, lingering)
                && NotOwed(managed.owed, verdict.wait)
      ensures !ZombieAt(k.hist, k.Now(), pid, start, self)
    {
      ghost var at := k.Now();
      var same := SameZombie(k, pid, start);
      if !same {
        return Nothing;
      }
      var judged := k.Now();
      var taken := managed.WaitPid(k, pid);
      if taken.None? {
        return Nothing;
      }
      var w := Wait(pid, start, judged, taken.value, k.Now() - 1);
      assert ZombieAt(k.hist, at, pid, start, self);
      return Waited(w);
    }

    /**
     * One scan. Before it has the lock, children are spawned, registered and forgotten; all along
     * processes come and go, and owners wait for their children. `waits` is every status the scan
     * took, and their number is returned. No wait takes the status of a
     * process that at that instant was a registered child its owner had not waited; every wait is
     * decided on a foreign-session zombie child, or on one that was already a zombie at the previous
     * scan; and while this process lives, no unshielded zombie child that was there at the start is
     * left, but for same-session ones this scan has seen for the first time and remembers.
     */
    method ScanOnce(k: Kernel)
      returns (
        reaped: nat, ghost waits: seq<Wait>, ghost ownSid: int, ghost from: nat, ghost shielded: set<int>,
        ghost scanned: bool)
      requires managed.Valid(k) && managed.self == self && !managed.locked
      modifies this, k, managed
      ensures managed.takes == old(managed.takes) + |waits|
      ensures managed.Valid(k) && !managed.locked && old(k.hist) <= k.hist && old(managed.owed) <= managed.owed
      ensures Evolved(old(managed.View()), managed.View(), false)
      ensures scanned ==> SeenSince(k.hist, old(k.Now()), lingering, self)
      ensures !scanned ==> lingering == old(lingering) && waits == []
      ensures reaped == |waits| && from < |k.hist|
      ensures AllJustified(k.hist, waits, self, ownSid, old(lingering)) && NoneOwed(managed.owed, waits)
      ensures Alive(k.hist[from], self) && AliveSince(k.hist, from, self) ==>
                && ownSid == k.hist[from].procs[self].sid && shielded == Pids(managed.View())
                && Cleared(k.hist, from, self, ownSid, Outside(shielded), lingering) && lingering !! old(lingering)
    {
      var own := managed.ReadStat(k, self);
      reaped, waits, ownSid, from, shielded, scanned := 0, [], 0, k.Now(), {}, false;
      if own.None? {
        return;
      }
      ownSid, scanned := own.value.sid, true;
      reaped, waits, shielded := ScanLocked(k, own.value.sid, from);
    }

    /**
     * The scans of the background thread, with anything going on between them. Every wait is decided on
     * a foreign-session zombie child, or on one that was a zombie child already between the start of
     * the scan before and the start of this one; none takes what is owed to an owner.
     */
    method Run(k: Kernel, scans: nat) returns (reaped: nat, ghost rounds: seq<Round>)
      requires managed.Valid(k) && managed.self == self && !managed.locked && lingering == {}
      modifies this, k, managed
      ensures managed.takes == old(managed.takes) + reaped
      ensures managed.Valid(k) && !managed.locked && |rounds| == scans && reaped == TotalWaits(rounds)
      ensures Successive(rounds) && forall i :: 0 <= i < |rounds| ==> RoundOk(k.hist, managed.owed, rounds[i], self)
    {
      reaped, rounds := 0, [];
      ghost var last: Option<int> := None;
      for i := 0 to scans
        invariant managed.Valid(k) && managed.self == self && !managed.locked
        invariant |rounds| == i && reaped == TotalWaits(rounds) && last == LastScan(rounds)
        invariant managed.takes == old(managed.takes) + reaped
        invariant Remembers(k.hist, last, lingering, self)
        invariant Successive(rounds) && forall j :: 0 <= j < i ==> RoundOk(k.hist, managed.owed, rounds[j], self)
      {
        ghost var r, known;
        ghost var before, owedBefore := k.hist, managed.owed;
        var n;
        n, r, known := NextScan(k, last);
        forall j | 0 <= j < i ensures RoundOk(k.hist, managed.owed, rounds[j], self) {
          RoundStands(before, k.hist, owedBefore, managed.owed, rounds[j], self);
        }
        RoundsSnoc(rounds, r);
        reaped, rounds, last := reaped + n, rounds + [r], known;
      }
    }

    method NextScan(k: Kernel, ghost last: Option<int>) returns (reaped: nat, ghost r: Round, ghost known: Option<int>)
      requires managed.Valid(k) && managed.self == self && !managed.locked && Remembers(k.hist, last, lingering, self)
      modifies this, k, managed
      ensures managed.takes == old(managed.takes) + reaped
      ensures managed.Valid(k) && !managed.locked && old(k.hist) <= k.hist && old(managed.owed) <= managed.owed
      ensures r.last == last && reaped == |r.waits| && RoundOk(k.hist, managed.owed, r, self)
      ensures known == (if r.scanned then Some(r.begun) else last) && Remembers(k.hist, known, lingering, self)
    {
      ghost var start := k.hist;
      managed.Interleave(k);
      ghost var seen, begun, remembered := k.hist, k.Now(), lingering;
      RemembersStill(start, seen, last, lingering, self);
      ghost var waits, ownSid, from, shielded, scanned;
      reaped, waits, ownSid, from, shielded, scanned := ScanOnce(k);
      r, known := Round(last, begun, ownSid, waits, scanned), if scanned then Some(begun) else last;
      AllDueFromJustified(seen, k.hist, waits, self, ownSid, remembered, last, begun);
      if !scanned {
        RemembersStill(seen, k.hist, last, lingering, self);
      }
    }

    /** The scan proper, from taking the lock to giving it back. */
    method ScanLocked(k: Kernel, ownSid: int, ghost from: nat)
      returns (reaped: nat, ghost waits: seq<Wait>, ghost shielded: set<int>)
      requires managed.Valid(k) && managed.self == self && !managed.locked && from < |k.hist|
      modifies this, k, managed
      ensures managed.takes == old(managed.takes) + |waits|
      ensures managed.Valid(k) && !managed.locked && old(k.hist) <= k.hist && old(managed.owed) <= managed.owed
      ensures Evolved(old(managed.View()), managed.View(), false)
      ensures reaped == |waits| && shielded == Pids(managed.View())
      ensures Progress(k.hist, managed.owed, from, old(k.Now()), self, ownSid, old(lingering), shielded, lingering,
              waits)
    {
      var pids := TakeShield(k);
      shielded := pids;
      ghost var begun, view := k.Now(), managed.View();
      var children := ListChildren(k, ownSid, from);
      assert old(k.hist) <= k.hist && old(managed.owed) <= managed.owed;
      StillUnshielded(view, managed.View());
      reaped, waits := ScanChildren(k, ownSid, children, pids, from, begun);
      managed.Release(k);
    }

    method TakeShield(k: Kernel) returns (pids: set<int>)
      requires managed.Valid(k) && managed.self == self && !managed.locked
      modifies k, managed
      ensures managed.takes == old(managed.takes)
      ensures managed.Valid(k) && managed.locked && old(k.hist) <= k.hist && old(managed.owed) <= managed.owed
      ensures Evolved(old(managed.View()), managed.View(), false) && pids == Pids(managed.View())
    {
      managed.Acquire(k);
      pids := managed.PidsLocked(k);
    }

    method ScanChildren(
      k: Kernel, ownSid: int, children: set<int>, shielded: set<int>, ghost from: nat, ghost begun: int)
      returns (reaped: nat, ghost waits: seq<Wait>)
      requires managed.Valid(k) && managed.self == self && managed.locked && shielded == Pids(managed.View())
      requires from < |k.hist| && begun <= k.Now()
      requires Progress(k.hist, managed.owed, from, begun, self, ownSid, lingering, children, {}, [])
      modifies this, k, managed
      ensures managed.takes == old(managed.takes) + |waits|
      ensures Undisturbed(k) && shielded == Pids(managed.View()) && reaped == |waits|
      ensures Progress(k.hist, managed.owed, from, begun, self, ownSid, old(lingering), shielded, lingering, waits)
    {
      ghost var view := managed.View();
      var todo := children - shielded;
      var seen: set<(int, nat)> := {};
      reaped, waits := 0, [];
      MoreLeft(k.hist, managed.owed, from, begun, self, ownSid, lingering, children, todo + shielded);
      while todo != {}
        invariant Undisturbed(k) && shielded == Pids(managed.View()) && lingering == old(lingering)
        invariant reaped == |waits| && todo !! shielded && managed.takes == old(managed.takes) + |waits|
        invariant Progress(k.hist, managed.owed, from, begun, self, ownSid, lingering, todo + shielded, seen, waits)
        decreases todo
      {
        var pid := PickOne(todo);
        ghost var viewBefore := managed.View();
        var verdict := Turn(k, pid, ownSid, from, begun, todo + shielded, seen, waits);
        EvolvedTwice(view, viewBefore, managed.View(), true);
        match verdict {
          case Nothing =>
          case Linger(start) => seen := seen + {(pid, start)};
          case Waited(w) => reaped, waits := reaped + 1, waits + [w];
        }
        OneLess(todo, shielded, pid);
        todo := todo - {pid};
      }
      lingering := seen;
      assert todo + shielded == shielded;
    }

    /** One child considered, and where the scan stands then. */
    method Turn(
      k: Kernel, pid: int, ownSid: int, ghost from: nat, ghost begun: int, ghost left: set<int>,
      ghost seen: set<(int, nat)>, ghost waits: seq<Wait>)
      returns (verdict: Verdict)
      requires managed.Valid(k) && managed.self == self && managed.locked && managed.Unshielded(pid)
      requires from < |k.hist| && begun <= k.Now()
      requires Progress(k.hist, managed.owed, from, begun, self, ownSid, lingering, left, seen, waits)
      modifies k, managed
      ensures Undisturbed(k) && Pids(managed.View()) == old(Pids(managed.View()))
      ensures managed.takes == old(managed.takes) + if verdict.Waited? then 1 else 0
      ensures Progress(k.hist, managed.owed, from, begun, self, ownSid, lingering, left - {pid},
                       Remembered(seen, pid, verdict), Grown(waits, verdict))
    {
      ghost var before, owedBefore, view := k.hist, managed.owed, managed.View();
      verdict := Consider(k, pid, ownSid);
      StillUnshielded(view, managed.View());
      ProgressMade(before, k.hist, owedBefore, managed.owed, from, begun, self, ownSid, lingering, left, seen, waits,
                   pid, verdict);
    }

    /** The children at one later instant. */
    method ListChildren(k: Kernel, ghost ownSid: int, ghost from: nat) returns (pids: set<int>)
      requires managed.Valid(k) && managed.self == self && from < |k.hist|
      modifies k, managed
      ensures Undisturbed(k)
      ensures managed.takes == old(managed.takes)
      ensures pids == ChildrenOf(k.os, self)
      ensures Progress(k.hist, managed.owed, from, old(k.Now()), self, ownSid, lingering, pids, {}, [])
    {
      managed.Interleave(k);
      pids := ChildrenOf(k.os, self);
      if AliveSince(k.hist, from, self) {
        NotListedMeansGone(k.hist, from, self, ownSid, pids);
      }
    }
  }

  lemma MoreLeft(
    hist: seq<Os>, owed: seq<set<(int, nat)>>, from: nat, begun: int, self: int, ownSid: int,
    lingering: set<(int, nat)>, left: set<int>, more: set<int>)
    requires from < |hist| && left <= more && Progress(hist, owed, from, begun, self, ownSid, lingering, left, {}, [])
    ensures Progress(hist, owed, from, begun, self, ownSid, lingering, more, {}, [])
  {
  }

  lemma OneLess(todo: set<int>, shielded: set<int>, pid: int)
    requires pid in todo && todo !! shielded
    ensures todo - {pid} + shielded == todo + shielded - {pid}
  {
  }

  /** What one child of the scan adds to the waits so far. */
  lemma TurnTaken(
    hist: seq<Os>, hist': seq<Os>, owed: seq<set<(int, nat)>>, owed': seq<set<(int, nat)>>, waits: seq<Wait>,
    verdict: Verdict, self: int, ownSid: int, lingering: set<(int, nat)>)
    requires hist <= hist' && owed <= owed' && AllJustified(hist, waits, self, ownSid, lingering)
             && NoneOwed(owed, waits)
    requires verdict.Waited? ==> Justified(hist', verdict.wait, self, ownSid, lingering) && NotOwed(owed', verdict.wait)
    ensures AllJustified(hist', waits, self, ownSid, lingering) && NoneOwed(owed', waits)
    ensures verdict.Waited? ==>
              AllJustified(hist', waits + [verdict.wait], self, ownSid, lingering)
              && NoneOwed(owed', waits + [verdict.wait])
  {
    forall i | 0 <= i < |waits| ensures Justified(hist', waits[i], self, ownSid, lingering) {
      JustifiedExtends(hist, hist', waits[i], self, ownSid, lingering);
    }
    assert forall i :: 0 <= i < |waits| ==> NotOwed(owed, waits[i]);
  }

  lemma SeenOneMore(hist: seq<Os>, from: int, keys: set<(int, nat)>, self: int, pid: int, start: nat, t: int)
    requires SeenSince(hist, from, keys, self) && from <= t && ZombieAt(hist, t, pid, start, self)
    ensures SeenSince(hist, from, keys + {(pid, start)}, self)
  {
  }

  lemma OneFewerLeft(
    hist: seq<Os>, from: nat, self: int, ownSid: int, left: set<int>, pid: int, keys: set<(int, nat)>)
    requires from < |hist| && Cleared(hist, from, self, ownSid, Outside(left) + iset{pid}, keys)
    ensures Cleared(hist, from, self, ownSid, Outside(left - {pid}), keys)
  {
  }

  /** One child considered: the scan's standing for one fewer. */
  lemma ProgressMade(
    hist: seq<Os>, hist': seq<Os>, owed: seq<set<(int, nat)>>, owed': seq<set<(int, nat)>>, from: nat, begun: int,
    self: int, ownSid: int, lingering: set<(int, nat)>, left: set<int>, seen: set<(int, nat)>, waits: seq<Wait>,
    pid: int, verdict: Verdict)
    requires Trace(hist') && hist <= hist' && owed <= owed' && from < |hist| && begun < |hist|
    requires Progress(hist, owed, from, begun, self, ownSid, lingering, left, seen, waits)
    requires verdict.Linger? ==>
               && (pid, verdict.start) !in lingering
               && exists t :: |hist| - 1 <= t && ZombieAt(hist', t, pid, verdict.start, self)
    requires verdict.Waited? ==> Justified(hist', verdict.wait, self, ownSid, lingering) && NotOwed(owed', verdict.wait)
    requires AliveSince(hist', |hist| - 1, self) ==>
               Cleared(hist', |hist| - 1, self, ownSid, iset{pid}, Keys(pid, verdict))
    ensures Progress(hist', owed', from, begun, self, ownSid, lingering, left - {pid},
                     Remembered(seen, pid, verdict), Grown(waits, verdict))
  {
    SeenExtends(hist, hist', begun, seen, self);
    if verdict.Linger? {
      var t :| |hist| - 1 <= t && ZombieAt(hist', t, pid, verdict.start, self);
      SeenOneMore(hist', begun, seen, self, pid, verdict.start, t);
    }
    TurnTaken(hist, hist', owed, owed', waits, verdict, self, ownSid, lingering);
    if AliveSince(hist', from, self) {
      assert AliveSince(hist, from, self);
      ClearedMore(hist, hist', from, self, ownSid, Outside(left), seen, pid, verdict);
      assert seen + Keys(pid, verdict) == Remembered(seen, pid, verdict);
      OneFewerLeft(hist', from, self, ownSid, left, pid, seen + Keys(pid, verdict));
    }
  }

  lemma NotListedMeansGone(hist: seq<Os>, from: nat, self: int, ownSid: int, pids: set<int>)
    requires Trace(hist) && from < |hist| && AliveSince(hist, from, self)
    requires pids == ChildrenOf(hist[|hist| - 1], self)
    ensures Cleared(hist, from, self, ownSid, Outside(pids), {})
  {
    forall pid: int, start: nat, sid: int | pid !in pids && IsZombie(hist[from], pid, start, self, sid)
      ensures !Present(hist[|hist| - 1], pid, start)
    {
      ZombieStays(hist, from, |hist| - 1, pid, start, self, sid);
    }
  }

  /** A zombie that has been found gone is gone for good. */
  lemma GoneFromThenOn(hist: seq<Os>, from: nat, read: nat, pid: int, start: nat)
    requires Trace(hist) && from <= read < |hist| && Present(hist[from], pid, start) && !Present(hist[read], pid, start)
    ensures !Present(hist[|hist| - 1], pid, start)
  {
    IssuedOnceSeen(hist, from, pid, start);
    UsedStays(hist, from, read, pid, start);
    GoneForever(hist, read, |hist| - 1, pid, start);
  }

  /** After a child was considered at `read`, its zombie of instant `from` is gone or remembered. */
  lemma ClearedByNow(hist: seq<Os>, from: nat, read: nat, self: int, ownSid: int, pid: int, verdict: Verdict)
    requires Trace(hist) && from <= read < |hist| && AliveSince(hist, from, self)
    requires verdict.Linger? ==>
               pid in hist[read].procs && hist[read].procs[pid].sid == ownSid
               && hist[read].procs[pid].start == verdict.start
    requires !verdict.Linger? && ZombieChild(hist[read], pid, self) ==>
               !ZombieAt(hist, |hist| - 1, pid, hist[read].procs[pid].start, self)
    ensures Cleared(hist, from, self, ownSid, iset{pid}, Keys(pid, verdict))
  {
    forall start: nat, sid: int | IsZombie(hist[from], pid, start, self, sid)
      ensures !Present(hist[|hist| - 1], pid, start) || (sid == ownSid && (pid, start) in Keys(pid, verdict))
    {
      ZombieStays(hist, from, read, pid, start, self, sid);
      ZombieStays(hist, from, |hist| - 1, pid, start, self, sid);
      if !Present(hist[read], pid, start) {
        GoneFromThenOn(hist, from, read, pid, start);
      }
    }
  }

  lemma ClearedMore(
    hist: seq<Os>, hist': seq<Os>, from: nat, self: int, ownSid: int, done: iset<int>, keys: set<(int, nat)>, pid: int,
    verdict: Verdict)
    requires Trace(hist') && hist <= hist' && from < |hist| && AliveSince(hist', from, self)
    requires Cleared(hist, from, self, ownSid, done, keys)
    requires Cleared(hist', |hist| - 1, self, ownSid, iset{pid}, Keys(pid, verdict))
    ensures Cleared(hist', from, self, ownSid, done + iset{pid}, keys + Keys(pid, verdict))
  {
    ClearedStays(hist, hist', from, self, ownSid, done, keys);
    forall start: nat, sid: int | IsZombie(hist'[from], pid, start, self, sid)
      ensures !Present(hist'[|hist'| - 1], pid, start) || (sid == ownSid && (pid, start) in Keys(pid, verdict))
    {
      ZombieStays(hist', from, |hist| - 1, pid, start, self, sid);
      if !Present(hist'[|hist| - 1], pid, start) {
        GoneFromThenOn(hist', from, |hist| - 1, pid, start);
      }
    }
  }

  /**
   * The gap that is left: a lingering probe that its owner waits between the re-read and the wait,
   * and whose pid goes to a second probe that exits at once. The late wait takes the second one's
   * status.
   */
  lemma LateWaitCanTakeRecycledPid() returns (hist: seq<Os>, w: Wait)
    ensures Trace(hist) && Justified(hist, w, 1, 1, {(w.pid, w.judged)}) && w.taken != w.judged
  {
    var init := Proc(0, 0, 1, 1, false, {});
    var probe := Proc(1, 1, 1, 1, true, {});
    var used := {(1, 0), (2, 1)};
    var lingers := Os(map[1 := init, 2 := probe], map[1 := 0], used, {}, 1);
    var waited := Apply(lingers, Reap(2));
    var forked := Apply(waited, Fork(1, 2, 2));
    var exited := Apply(forked, Exit(2));
    hist := [lingers, waited, forked, exited];
    w := Wait(2, 1, 0, 2, 3);
    assert Next(lingers, waited) && Next(waited, forked) && Next(forked, exited);
    assert forall i :: Linked(hist, i);
  }
}
