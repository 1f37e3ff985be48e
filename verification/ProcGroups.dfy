/** Process-group identity under pid and pgid reuse (worker/proc_groups.py). */
module ProcGroups {
  import opened Basics
  import opened ProcessTable

  // ----- The incremental index -----

  /** `pid` is absent, or the same process in the same group, at every instant of `[a..b]`. */
  ghost predicate Stable(hist: seq<Os>, a: int, b: int, pid: int)
    requires 0 <= a <= b < |hist|
  {
    forall t :: a <= t <= b ==> SameAs(hist[a], hist[t], pid)
  }

  ghost predicate SameAs(os: Os, os': Os, pid: int) {
    && (pid in os.procs <==> pid in os'.procs)
    && (pid in os.procs ==> os.procs[pid].pgid == os'.procs[pid].pgid && os.procs[pid].start == os'.procs[pid].start)
  }

  /** What a full scan of `os` would record for `pid`. */
  ghost predicate Reflects(identityOf: map<int, (int, nat)>, os: Os, pid: int) {
    && (pid in identityOf <==> pid in os.procs)
    && (pid in identityOf ==> identityOf[pid] == (os.procs[pid].pgid, os.procs[pid].start))
  }

  class MemberIndex {
    var identityOf: map<int, (int, nat)>
    var byPgid: map<int, set<int>>

    /** The two maps say the same thing. */
    ghost predicate Valid()
      reads this
    {
      && (forall pid :: pid in identityOf ==> identityOf[pid].0 in byPgid && pid in byPgid[identityOf[pid].0])
      && (forall g, pid :: g in byPgid && pid in byPgid[g] ==> pid in identityOf && identityOf[pid].0 == g)
    }

    constructor (k: Kernel)
      requires k.Valid()
      modifies k
      ensures Valid() && k.Valid() && old(k.hist) <= k.hist
      ensures forall pid :: Stable(k.hist, old(k.Now()), k.Now(), pid) ==> Reflects(identityOf, k.os, pid)
    {
      identityOf, byPgid := map[], map[];
      new;
      Refresh(k);
    }

    method Forget(pid: int)
      requires Valid()
      modifies this
      ensures Valid() && identityOf == old(identityOf) - {pid}
    {
      if pid in identityOf {
        var g := identityOf[pid].0;
        byPgid := byPgid[g := byPgid[g] - {pid}];
        identityOf := identityOf - {pid};
      } else {
        assert identityOf - {pid} == identityOf;
      }
    }

    /** Re-list /proc and re-read every live pid's stat; the reads are separate instants. */
    method Refresh(k: Kernel)
      requires Valid() && k.Valid()
      modifies this, k
      ensures Valid() && k.Valid() && old(k.hist) <= k.hist
      ensures forall pid :: Stable(k.hist, old(k.Now()), k.Now(), pid) ==> Reflects(identityOf, k.os, pid)
    {
      ghost var a := k.Now();
      var live := k.ListPids();
      ghost var listed := k.Now();
      ForgetAllBut(live);
      var todo := live;
      while todo != {}
        invariant Valid() && k.Valid() && old(k.hist) <= k.hist && 0 <= a <= listed <= k.Now()
        invariant k.hist[listed].procs.Keys == live && todo <= live
        invariant forall pid :: pid !in todo && Stable(k.hist, a, k.Now(), pid) ==> Reflects(identityOf, k.hist[a], pid)
        decreases todo
      {
        ghost var before := k.Now();
        var pid := PickOne(todo);
        var stat := k.ReadStat(pid);
        assert SameAs(k.hist[a], k.hist[k.Now()], pid) <== Stable(k.hist, a, k.Now(), pid);
        var known := identityOf;
        if stat.None? || pid !in identityOf || identityOf[pid] != (stat.value.pgid, stat.value.start) {
          Forget(pid);
          if stat.Some? {
            Record(pid, stat.value.pgid, stat.value.start);
          }
        }
        todo := todo - {pid};
        forall p | p !in todo && Stable(k.hist, a, k.Now(), p) ensures Reflects(identityOf, k.hist[a], p) {
          assert p != pid ==> Stable(k.hist, a, before, p) && (p in identityOf <==> p in known);
        }
      }
    }

    method ForgetAllBut(live: set<int>)
      requires Valid()
      modifies this
      ensures Valid() && identityOf.Keys <= live
    {
      var gone := identityOf.Keys - live;
      while gone != {}
        invariant Valid() && identityOf.Keys <= live + gone
        decreases gone
      {
        var pid := PickOne(gone);
        Forget(pid);
        gone := gone - {pid};
      }
    }

    method Record(pid: int, g: int, start: nat)
      requires Valid() && pid !in identityOf
      modifies this
      ensures Valid() && identityOf == old(identityOf)[pid := (g, start)]
    {
      identityOf := identityOf[pid := (g, start)];
      byPgid := byPgid[g := (if g in byPgid then byPgid[g] else {}) + {pid}];
    }

    /**
     * Refresh, then the members of `g`: for every pid that stood still meanwhile, exactly what a
     * full scan of the current table would say.
     */
    method MembersOf(k: Kernel, g: int) returns (pids: set<int>)
      requires Valid() && k.Valid()
      modifies this, k
      ensures Valid() && k.Valid() && old(k.hist) <= k.hist
      ensures forall pid :: Stable(k.hist, old(k.Now()), k.Now(), pid) ==>
                (pid in pids <==> pid in k.os.procs && k.os.procs[pid].pgid == g)
    {
      Refresh(k);
      pids := if g in byPgid then byPgid[g] else {};
    }
  }

  // ----- Verified groups -----

  datatype GroupIdentity = GroupIdentity(pgid: int, marker: string, members: set<(int, nat)>)

  /** At instant `t` the process was a member of incarnation `inc` of the group. */
  ghost predicate MemberOf(os: Os, pid: int, start: nat, g: int, inc: nat) {
    Member(os, pid, start, g) && g in os.incarnation && os.incarnation[g] == inc
  }

  /** Every pinned process has been a member of incarnation `inc`. */
  ghost predicate PinnedTo(hist: seq<Os>, id: GroupIdentity, inc: nat) {
    forall pid: int, start: nat :: (pid, start) in id.members ==>
      exists t :: 0 <= t < |hist| && MemberOf(hist[t], pid, start, id.pgid, inc)
  }

  ghost predicate SomeMember(os: Os, id: GroupIdentity) {
    exists pid: int, start: nat :: (pid, start) in id.members && Member(os, pid, start, id.pgid)
  }

  lemma PinnedToExtends(hist: seq<Os>, hist': seq<Os>, id: GroupIdentity, inc: nat)
    requires PinnedTo(hist, id, inc) && hist <= hist'
    ensures PinnedTo(hist', id, inc)
  {
    forall pid: int, start: nat | (pid, start) in id.members
      ensures exists t :: 0 <= t < |hist'| && MemberOf(hist'[t], pid, start, id.pgid, inc)
    {
      var t :| 0 <= t < |hist| && MemberOf(hist[t], pid, start, id.pgid, inc);
      assert MemberOf(hist'[t], pid, start, id.pgid, inc);
    }
  }

  /** A pinned process that is still in the group proves the pgid still names its incarnation. */
  lemma PinnedMemberProves(hist: seq<Os>, id: GroupIdentity, inc: nat, pid: int, start: nat)
    requires Trace(hist) && PinnedTo(hist, id, inc) && (pid, start) in id.members
    requires Member(hist[|hist| - 1], pid, start, id.pgid)
    ensures MemberOf(hist[|hist| - 1], pid, start, id.pgid, inc)
  {
    var t :| 0 <= t < |hist| && MemberOf(hist[t], pid, start, id.pgid, inc);
    IncarnationIsPinned(hist, t, |hist| - 1, pid, start, id.pgid);
  }

  /** Pinned processes found missing stay missing. */
  lemma MissingStaysMissing(seen: seq<Os>, hist: seq<Os>, id: GroupIdentity, inc: nat, pid: int, start: nat)
    requires Trace(hist) && seen != [] && seen <= hist
    requires PinnedTo(seen, id, inc) && (pid, start) in id.members
    requires !Member(seen[|seen| - 1], pid, start, id.pgid)
    ensures !Member(hist[|hist| - 1], pid, start, id.pgid)
  {
    if Member(hist[|hist| - 1], pid, start, id.pgid) {
      var t :| 0 <= t < |seen| && MemberOf(seen[t], pid, start, id.pgid, inc);
      MembershipIsConvex(hist, t, |seen| - 1, |hist| - 1, pid, start, id.pgid);
    }
  }

  /** None of these pinned processes is in the group any more. */
  ghost predicate Gone(os: Os, members: set<(int, nat)>, g: int) {
    forall pid: int, start: nat :: (pid, start) in members ==> !Member(os, pid, start, g)
  }

  lemma GoneStaysGone(seen: seq<Os>, hist: seq<Os>, id: GroupIdentity, inc: nat, checked: set<(int, nat)>)
    requires Trace(hist) && seen != [] && seen <= hist && PinnedTo(seen, id, inc)
    requires checked <= id.members && Gone(seen[|seen| - 1], checked, id.pgid)
    ensures Gone(hist[|hist| - 1], checked, id.pgid)
  {
    forall pid: int, start: nat | (pid, start) in checked ensures !Member(hist[|hist| - 1], pid, start, id.pgid) {
      MissingStaysMissing(seen, hist, id, inc, pid, start);
    }
  }

  /**
   * Verify that a live process of the group carries the marker and pin every candidate member. The
   * scan is one step: no process changes between its reads.
   */
  method IdentifyGroup(k: Kernel, g: int, marker: string, candidates: set<int>)
    returns (r: Option<GroupIdentity>, ghost inc: nat)
    requires k.Valid()
    ensures r.Some? <==>
              exists pid ::
                  pid in candidates && pid in k.os.procs && k.os.procs[pid].pgid == g
                  && marker in k.os.procs[pid].markers
    ensures r.Some? ==>
              && r.value.pgid == g && r.value.marker == marker
              && g in k.os.incarnation && inc == k.os.incarnation[g]
              && PinnedTo(k.hist, r.value, inc)
              && forall pid: int, start: nat ::
                  (pid, start) in r.value.members <==> pid in candidates && Member(k.os, pid, start, g)
  {
    var pinned: set<(int, nat)> := {};
    var verified := false;
    var todo := candidates;
    while todo != {}
      invariant todo <= candidates
      invariant forall pid: int, start: nat :: (pid, start) in pinned <==>
                pid in candidates - todo && Member(k.os, pid, start, g)
      invariant verified <==>
                  exists pid ::
                      pid in candidates - todo && pid in k.os.procs && k.os.procs[pid].pgid == g
                      && marker in k.os.procs[pid].markers
      decreases todo
    {
      var pid := PickOne(todo);
      todo := todo - {pid};
      if pid in k.os.procs && k.os.procs[pid].pgid == g {
        pinned := pinned + {(pid, k.os.procs[pid].start)};
        verified := verified || marker in k.os.procs[pid].markers;
      }
    }
    assert candidates - todo == candidates;
    if !verified {
      return None, 0;
    }
    TraceConsistent(k.hist, |k.hist| - 1);
    inc := k.os.incarnation[g];
    assert forall pid: int, start: nat :: (pid, start) in pinned ==> MemberOf(k.hist[|k.hist| - 1], pid, start, g, inc);
    r := Some(GroupIdentity(g, marker, pinned));
  }

  /** One read of `still_owned`: is this pinned process still in the group? */
  method StillMember(k: Kernel, id: GroupIdentity, ghost inc: nat, m: (int, nat), ghost checked: set<(int, nat)>)
    returns (there: bool)
    requires k.Valid() && PinnedTo(k.hist, id, inc) && m in id.members
    requires checked <= id.members && Gone(k.os, checked, id.pgid)
    modifies k
    ensures k.Valid() && old(k.hist) <= k.hist && PinnedTo(k.hist, id, inc)
    ensures Gone(k.os, checked, id.pgid)
    ensures there <==> Member(k.os, m.0, m.1, id.pgid)
    ensures there ==> id.pgid in k.os.incarnation && k.os.incarnation[id.pgid] == inc
  {
    ghost var seen := k.hist;
    var stat := k.ReadStat(m.0);
    PinnedToExtends(seen, k.hist, id, inc);
    GoneStaysGone(seen, k.hist, id, inc, checked);
    there := stat.Some? && stat.value.start == m.1 && stat.value.pgid == id.pgid;
    if there {
      PinnedMemberProves(k.hist, id, inc, m.0, m.1);
    }
  }

  /** Re-prove that the pgid still names the verified group, with steps between all reads. */
  method StillOwned(k: Kernel, id: GroupIdentity, ghost inc: nat) returns (owned: bool)
    requires k.Valid() && PinnedTo(k.hist, id, inc)
    modifies k
    ensures k.Valid() && old(k.hist) <= k.hist && PinnedTo(k.hist, id, inc)
    ensures owned <==> SomeMember(k.os, id)
    ensures owned ==> id.pgid in k.os.incarnation && k.os.incarnation[id.pgid] == inc
  {
    var todo := id.members;
    while todo != {}
      invariant todo <= id.members && k.Valid() && old(k.hist) <= k.hist && PinnedTo(k.hist, id, inc)
      invariant Gone(k.os, id.members - todo, id.pgid)
      decreases todo
    {
      var m := PickOne(todo);
      var there := StillMember(k, id, inc, m, id.members - todo);
      if there {
        return true;
      }
      todo := todo - {m};
    }
    return false;
  }

  /** What `RefreshIdentity` has read so far: members of the group at some instant since `from`. */
  ghost predicate ReadSince(hist: seq<Os>, from: nat, current: set<(int, nat)>, g: int) {
    forall pid: int, start: nat :: (pid, start) in current ==>
        exists t :: from <= t < |hist| && Member(hist[t], pid, start, g)
  }

  /** Ownership proven after the reads covers every read in between. */
  lemma ReadsAreOurs(first: seq<Os>, hist: seq<Os>, id: GroupIdentity, inc: nat, current: set<(int, nat)>)
    requires Trace(hist) && first <= hist && PinnedTo(first, id, inc)
    requires first != [] && ReadSince(hist, |first| - 1, current, id.pgid) && SomeMember(hist[|hist| - 1], id)
    ensures PinnedTo(hist, id.(members := id.members + current), inc)
  {
    var p: int, s: nat :| (p, s) in id.members && Member(hist[|hist| - 1], p, s, id.pgid);
    var since :| 0 <= since < |first| && MemberOf(first[since], p, s, id.pgid, inc);
    forall pid: int, start: nat | (pid, start) in id.members + current
      ensures exists t :: 0 <= t < |hist| && MemberOf(hist[t], pid, start, id.pgid, inc)
    {
      if (pid, start) in id.members {
        var t :| 0 <= t < |first| && MemberOf(first[t], pid, start, id.pgid, inc);
        assert MemberOf(hist[t], pid, start, id.pgid, inc);
      } else {
        var t :| |first| - 1 <= t < |hist| && Member(hist[t], pid, start, id.pgid);
        MembershipIsConvex(hist, since, t, |hist| - 1, p, s, id.pgid);
        IncarnationIsPinned(hist, since, t, p, s, id.pgid);
        assert MemberOf(hist[t], pid, start, id.pgid, inc);
      }
    }
  }

  /**
   * Re-pin the group to its current members: the reads come first, the ownership proof after, with
   * steps in between. All pins of the result belong to the verified incarnation, and every candidate
   * that was a member throughout is among them.
   */
  method RefreshIdentity(k: Kernel, id: GroupIdentity, candidates: set<int>, ghost inc: nat)
    returns (r: Option<GroupIdentity>)
    requires k.Valid() && PinnedTo(k.hist, id, inc)
    modifies k
    ensures k.Valid() && old(k.hist) <= k.hist && PinnedTo(k.hist, id, inc)
    ensures r.Some? <==> SomeMember(k.os, id)
    ensures r.Some? ==>
              && r.value.pgid == id.pgid && r.value.marker == id.marker && id.members <= r.value.members
              && PinnedTo(k.hist, r.value, inc)
              && id.pgid in k.os.incarnation && k.os.incarnation[id.pgid] == inc
              && forall pid: int, start: nat ::
                  pid in candidates && Member(old(k.os), pid, start, id.pgid) && Member(k.os, pid, start, id.pgid) ==>
                    (pid, start) in r.value.members
  {
    ghost var from := |k.hist| - 1;
    ghost var first := k.hist;
    var current: set<(int, nat)> := {};
    var todo := candidates;
    while todo != {}
      invariant todo <= candidates && k.Valid() && old(k.hist) <= k.hist && PinnedTo(k.hist, id, inc)
      invariant ReadSince(k.hist, from, current, id.pgid)
      invariant forall pid: int, start: nat ::
          pid in candidates - todo && Member(old(k.os), pid, start, id.pgid) && Member(k.os, pid, start, id.pgid) ==>
            (pid, start) in current
      decreases todo
    {
      var pid := PickOne(todo);
      ghost var seen := k.hist;
      ghost var known := current;
      var stat := k.ReadStat(pid);
      PinnedToExtends(seen, k.hist, id, inc);
      if stat.Some? && stat.value.pgid == id.pgid {
        current := current + {(pid, stat.value.start)};
      }
      todo := todo - {pid};
      assert ReadSince(k.hist, from, current, id.pgid) by {
        ReadOneMore(seen, k.hist, from, known, current, pid, id.pgid);
      }
      forall p: int, s: nat | p in candidates - todo && Member(old(k.os), p, s, id.pgid) && Member(k.os, p, s, id.pgid)
        ensures (p, s) in current
      {
        if p != pid {
          MembershipIsConvex(k.hist, from, |seen| - 1, |k.hist| - 1, p, s, id.pgid);
        }
      }
    }
    ghost var read := k.hist;
    var owned := StillOwned(k, id, inc);
    if !owned {
      return None;
    }
    r := Some(id.(members := id.members + current));
    assert ReadSince(k.hist, from, current, id.pgid) by {
      ReadStays(read, k.hist, from, current, id.pgid);
    }
    ReadsAreOurs(first, k.hist, id, inc, current);
    forall p: int, s: nat | p in candidates && Member(old(k.os), p, s, id.pgid) && Member(k.os, p, s, id.pgid)
      ensures (p, s) in r.value.members
    {
      MembershipIsConvex(k.hist, from, |read| - 1, |k.hist| - 1, p, s, id.pgid);
    }
  }

  lemma ReadStays(hist: seq<Os>, hist': seq<Os>, from: nat, current: set<(int, nat)>, g: int)
    requires hist <= hist' && ReadSince(hist, from, current, g)
    ensures ReadSince(hist', from, current, g)
  {
    forall pid: int, start: nat | (pid, start) in current
      ensures exists t :: from <= t < |hist'| && Member(hist'[t], pid, start, g)
    {
      var t :| from <= t < |hist| && Member(hist[t], pid, start, g);
      assert Member(hist'[t], pid, start, g);
    }
  }

  lemma ReadOneMore(
    hist: seq<Os>, hist': seq<Os>, from: nat, known: set<(int, nat)>, current: set<(int, nat)>, pid: int, g: int)
    requires hist <= hist' && from < |hist'| && ReadSince(hist, from, known, g)
    requires forall p: int, s: nat :: (p, s) in current && (p, s) !in known ==> Member(hist'[|hist'| - 1], p, s, g)
    ensures ReadSince(hist', from, current, g)
  {
    ReadStays(hist, hist', from, known, g);
    forall p: int, s: nat | (p, s) in current ensures exists t :: from <= t < |hist'| && Member(hist'[t], p, s, g) {
      if (p, s) !in known {
        assert Member(hist'[|hist'| - 1], p, s, g);
      }
    }
  }
}
