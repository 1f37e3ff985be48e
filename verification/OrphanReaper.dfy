/** Two-phase TERM/KILL of orphaned execution groups (worker/orphan_reaper.py). */
module OrphanReaper {
  import opened Basics
  import opened ProcessTable
  import opened ProcGroups

  datatype Signal = SIGTERM | SIGKILL

  /** A recorded pgid file: the execution's marker and the parsed content, if it parses. */
  datatype Record = Record(marker: string, pgid: Option<int>)

  /** A record whose group was verified. `inc` is the incarnation verification pinned it to. */
  datatype Target = Target(record: nat, identity: GroupIdentity)

  /** A signal, the instant of the ownership proof before it, and the later instant it is sent. */
  datatype Sent = Sent(pgid: int, signal: Signal, provedAt: int, sentAt: int)

  /** Incarnation `inc` of the group has had a live member carrying the marker. */
  ghost predicate WasMarked(hist: seq<Os>, g: int, marker: string, inc: nat) {
    exists t, pid :: 0 <= t < |hist| && MarkedMember(hist[t], pid, g, marker, inc)
  }

  ghost predicate MarkedMember(os: Os, pid: int, g: int, marker: string, inc: nat) {
    && pid in os.procs && os.procs[pid].pgid == g && marker in os.procs[pid].markers
    && g in os.incarnation && os.incarnation[g] == inc
  }

  /** A verified target: its pins and its marker belong to one incarnation. */
  ghost predicate Verified(hist: seq<Os>, target: Target, inc: nat, records: seq<Record>, ownGroup: int) {
    && target.record < |records| && records[target.record].pgid == Some(target.identity.pgid)
    && target.identity.marker == records[target.record].marker
    && target.identity.pgid > 1 && target.identity.pgid != ownGroup
    && PinnedTo(hist, target.identity, inc)
    && WasMarked(hist, target.identity.pgid, target.identity.marker, inc)
  }

  ghost predicate AllVerified(
    hist: seq<Os>, targets: seq<Target>, incs: seq<nat>, records: seq<Record>, ownGroup: int)
  {
    |incs| == |targets| && forall i :: 0 <= i < |targets| ==> Verified(hist, targets[i], incs[i], records, ownGroup)
  }

  lemma VerifiedExtends(
    hist: seq<Os>, hist': seq<Os>, targets: seq<Target>, incs: seq<nat>, records: seq<Record>, ownGroup: int)
    requires hist <= hist' && AllVerified(hist, targets, incs, records, ownGroup)
    ensures AllVerified(hist', targets, incs, records, ownGroup)
  {
    forall i | 0 <= i < |targets| ensures Verified(hist', targets[i], incs[i], records, ownGroup) {
      var id := targets[i].identity;
      PinnedToExtends(hist, hist', id, incs[i]);
      var t, pid :| 0 <= t < |hist| && MarkedMember(hist[t], pid, id.pgid, id.marker, incs[i]);
      assert MarkedMember(hist'[t], pid, id.pgid, id.marker, incs[i]);
    }
  }

  /** At the proof before the signal the pgid denoted the target's incarnation, and the group had members. */
  ghost predicate Proved(hist: seq<Os>, s: Sent, target: Target, inc: nat) {
    && s.pgid == target.identity.pgid && 0 <= s.provedAt <= s.sentAt < |hist|
    && Populated(hist[s.provedAt], s.pgid)
    && s.pgid in hist[s.provedAt].incarnation && hist[s.provedAt].incarnation[s.pgid] == inc
  }

  /** Every signal has its proof for some verified target. */
  ghost predicate AllProved(hist: seq<Os>, sent: seq<Sent>, targets: seq<Target>, incs: seq<nat>) {
    && |incs| == |targets|
    && forall j :: 0 <= j < |sent| ==> ProvedForOne(hist, sent[j], targets, incs)
  }

  ghost predicate ProvedForOne(hist: seq<Os>, s: Sent, targets: seq<Target>, incs: seq<nat>)
    requires |incs| == |targets|
  {
    exists i :: 0 <= i < |targets| && Proved(hist, s, targets[i], incs[i])
  }

  ghost predicate AllAre(sent: seq<Sent>, signal: Signal) {
    forall s :: s in sent ==> s.signal == signal
  }

  lemma ProvedExtends(hist: seq<Os>, hist': seq<Os>, sent: seq<Sent>, targets: seq<Target>, incs: seq<nat>)
    requires hist <= hist' && AllProved(hist, sent, targets, incs)
    ensures AllProved(hist', sent, targets, incs)
  {
    forall j | 0 <= j < |sent| ensures ProvedForOne(hist', sent[j], targets, incs) {
      assert ProvedForOne(hist, sent[j], targets, incs);
      var i :| 0 <= i < |targets| && Proved(hist, sent[j], targets[i], incs[i]);
      assert Proved(hist', sent[j], targets[i], incs[i]);
    }
  }

  lemma ProvedSnoc(
    hist: seq<Os>, sent: seq<Sent>, targets: seq<Target>, incs: seq<nat>, s: Sent, i: nat)
    requires AllProved(hist, sent, targets, incs) && i < |targets| && Proved(hist, s, targets[i], incs[i])
    ensures AllProved(hist, sent + [s], targets, incs)
  {
    forall j | 0 <= j < |sent + [s]| ensures ProvedForOne(hist, (sent + [s])[j], targets, incs) {
      if j < |sent| {
        assert ProvedForOne(hist, sent[j], targets, incs);
      }
    }
  }

  lemma MemberPopulates(os: Os, id: GroupIdentity)
    requires SomeMember(os, id)
    ensures Populated(os, id.pgid)
  {
    var pid: int, start: nat :| (pid, start) in id.members && Member(os, pid, start, id.pgid);
    assert pid in os.procs;
  }

  /**
   * What a signal does at the instant it is sent, however late after its proof: if anything is in the
   * group then, it is the proved incarnation exactly if the group was never empty in between.
   */
  lemma SignalHitsProvedIff(hist: seq<Os>, s: Sent, target: Target, inc: nat)
    requires Trace(hist) && Proved(hist, s, target, inc) && Populated(hist[s.sentAt], s.pgid)
    ensures s.pgid in hist[s.sentAt].incarnation
    ensures hist[s.sentAt].incarnation[s.pgid] == inc <==> NeverEmpty(hist, s.provedAt, s.sentAt, s.pgid)
  {
    SameGroupIff(hist, s.provedAt, s.sentAt, s.pgid);
  }

  /** The gap that is left: the group empties after the proof, and its pgid is taken before the signal. */
  lemma LateSignalCanHitRecycledGroup() returns (hist: seq<Os>, s: Sent, target: Target, inc: nat)
    ensures Trace(hist) && PinnedTo(hist[..1], target.identity, inc) && SomeMember(hist[0], target.identity)
    ensures Proved(hist, s, target, inc) && Populated(hist[s.sentAt], s.pgid)
    ensures s.pgid in hist[s.sentAt].incarnation && hist[s.sentAt].incarnation[s.pgid] != inc
  {
    var init, agent := Proc(0, 0, 1, 1, false, {}), Proc(1, 1, 5, 5, false, {"m"});
    var running := Os(map[1 := init, 5 := agent], map[1 := 0, 5 := 1], {(1, 0), (5, 1)}, {}, 2);
    var exited := Apply(running, Exit(5));
    var reaped := Apply(exited, Reap(5));
    assert !Populated(reaped, 5);
    var forked := Apply(reaped, Fork(1, 5, 2));
    assert !Populated(forked, 5);
    var taken := Apply(forked, NewGroup(5, true));
    hist := [running, exited, reaped, forked, taken];
    target, inc := Target(0, GroupIdentity(5, "m", {(5, 1)})), 1;
    s := Sent(5, SIGKILL, 0, 4);
    assert Next(running, exited) && Next(exited, reaped) && Next(reaped, forked) && Next(forked, taken);
    assert forall i :: Linked(hist, i);
    assert hist[..1][0] == running && MemberOf(running, 5, 1, 5, 1);
    assert Member(running, 5, 1, 5);
    assert 5 in running.procs && 5 in taken.procs;
  }

  /** Torn content, 0, 1, -1 and the reaper's own group are never signalled. */
  predicate Usable(record: Record, ownGroup: int) {
    record.pgid.Some? && record.pgid.value > 1 && record.pgid.value != ownGroup
  }

  function Candidates(members: map<int, set<int>>, g: int): set<int> {
    if g in members then members[g] else {}
  }

  ghost predicate Listed(members: map<int, set<int>>, g: int, pid: int) {
    g in members && pid in members[g]
  }

  /** No process listed for the group is in it with the marker. */
  ghost predicate NoneMarked(os: Os, members: map<int, set<int>>, g: int, marker: string) {
    forall pid :: Listed(members, g, pid) && pid in os.procs && os.procs[pid].pgid == g ==>
                    marker !in os.procs[pid].markers
  }

  /** At some instant since `from` no process listed for the recorded group was in it with the record's marker. */
  ghost predicate Unverifiable(hist: seq<Os>, from: int, record: Record, members: map<int, set<int>>) {
    && record.pgid.Some?
    && exists t :: 0 <= from <= t < |hist| && NoneMarked(hist[t], members, record.pgid.value, record.marker)
  }

  ghost predicate AllUnverifiable(
    hist: seq<Os>, from: int, discarded: set<nat>, records: seq<Record>, members: map<int, set<int>>)
  {
    forall i: nat :: i in discarded ==> i < |records| && Unverifiable(hist, from, records[i], members)
  }

  lemma UnverifiableExtends(
    hist: seq<Os>, hist': seq<Os>, from: int, discarded: set<nat>, records: seq<Record>, members: map<int, set<int>>)
    requires hist <= hist' && AllUnverifiable(hist, from, discarded, records, members)
    ensures AllUnverifiable(hist', from, discarded, records, members)
  {
    forall i: nat | i in discarded ensures Unverifiable(hist', from, records[i], members) {
      assert Unverifiable(hist, from, records[i], members);
      var t :| 0 <= from <= t < |hist| && NoneMarked(hist[t], members, records[i].pgid.value, records[i].marker);
      assert NoneMarked(hist'[t], members, records[i].pgid.value, records[i].marker);
    }
  }

  /** A listed process that was in the group at `from`, and still is, is pinned. */
  ghost predicate PinsStayers(hist: seq<Os>, from: int, t: Target, members: map<int, set<int>>) {
    && 0 <= from < |hist|
    && forall pid: int, start: nat ::
         Listed(members, t.identity.pgid, pid)
         && Member(hist[from], pid, start, t.identity.pgid) && Member(hist[|hist| - 1], pid, start, t.identity.pgid)
         ==> (pid, start) in t.identity.members
  }

  ghost predicate AllPinStayers(hist: seq<Os>, from: int, targets: seq<Target>, members: map<int, set<int>>) {
    forall i :: 0 <= i < |targets| ==> PinsStayers(hist, from, targets[i], members)
  }

  lemma PinsStayersLater(hist: seq<Os>, hist': seq<Os>, from: int, t: Target, members: map<int, set<int>>)
    requires Trace(hist') && hist <= hist' && PinsStayers(hist, from, t, members)
    ensures PinsStayers(hist', from, t, members)
  {
    var g := t.identity.pgid;
    forall pid: int, start: nat | Listed(members, g, pid)
        && Member(hist'[from], pid, start, g) && Member(hist'[|hist'| - 1], pid, start, g)
      ensures (pid, start) in t.identity.members
    {
      MembershipIsConvex(hist', from, |hist| - 1, |hist'| - 1, pid, start, g);
    }
  }

  lemma AllPinStayersLater(
    hist: seq<Os>, hist': seq<Os>, from: int, targets: seq<Target>, members: map<int, set<int>>)
    requires Trace(hist') && hist <= hist' && AllPinStayers(hist, from, targets, members)
    ensures AllPinStayers(hist', from, targets, members)
  {
    forall i | 0 <= i < |targets| ensures PinsStayers(hist', from, targets[i], members) {
      PinsStayersLater(hist, hist', from, targets[i], members);
    }
  }

  function Recorded(targets: seq<Target>): set<nat> {
    set i | 0 <= i < |targets| :: targets[i].record
  }

  /** Verify one usable record live: its group, pinned, or nothing. */
  method VerifyRecord(k: Kernel, record: Record, i: nat, members: map<int, set<int>>, ghost from: int,
      ghost records: seq<Record>, ghost ownGroup: int)
    returns (target: Option<Target>, ghost inc: nat)
    requires k.Valid() && i < |records| && record == records[i] && Usable(record, ownGroup)
    requires 0 <= from < |k.hist|
    modifies k
    ensures k.Valid() && old(k.hist) <= k.hist
    ensures target.Some? ==> target.value.record == i && Verified(k.hist, target.value, inc, records, ownGroup)
    ensures target.Some? ==> PinsStayers(k.hist, from, target.value, members)
    ensures target.None? ==> Unverifiable(k.hist, from, record, members)
  {
    var g := record.pgid.value;
    var candidates := Candidates(members, g);
    k.Interleave();
    var identity: Option<GroupIdentity>;
    identity, inc := IdentifyGroup(k, g, record.marker, candidates);
    if identity.None? {
      assert NoneMarked(k.hist[|k.hist| - 1], members, g, record.marker);
      return None, 0;
    }
    target := Some(Target(i, identity.value));
    var pid :| pid in k.os.procs && k.os.procs[pid].pgid == g && record.marker in k.os.procs[pid].markers;
    assert MarkedMember(k.hist[|k.hist| - 1], pid, g, record.marker, inc);
  }

  /**
   * Verify each record live. Torn content, 0, 1, -1 and the reaper's own group are skipped; a record
   * whose group cannot be verified is discarded; of a verified group every listed process that stays
   * in it is pinned.
   */
  method CollectTargets(k: Kernel, records: seq<Record>, members: map<int, set<int>>, ownGroup: int)
    returns (targets: seq<Target>, discarded: set<nat>, ghost incs: seq<nat>)
    requires k.Valid()
    modifies k
    ensures k.Valid() && old(k.hist) <= k.hist
    ensures AllVerified(k.hist, targets, incs, records, ownGroup)
    ensures AllPinStayers(k.hist, old(k.Now()), targets, members)
    ensures AllUnverifiable(k.hist, old(k.Now()), discarded, records, members)
    ensures forall i: nat :: i in discarded || i in Recorded(targets) <==>
              i < |records| && records[i].pgid.Some? && records[i].pgid.value > 1 && records[i].pgid.value != ownGroup
    ensures discarded !! Recorded(targets)
  {
    ghost var from := k.Now();
    targets, discarded, incs := [], {}, [];
    for i := 0 to |records|
      invariant k.Valid() && old(k.hist) <= k.hist
      invariant AllVerified(k.hist, targets, incs, records, ownGroup)
      invariant AllPinStayers(k.hist, from, targets, members)
      invariant AllUnverifiable(k.hist, from, discarded, records, members)
      invariant discarded + Recorded(targets) == set j: nat | j < i && Usable(records[j], ownGroup)
      invariant discarded !! Recorded(targets)
    {
      if Usable(records[i], ownGroup) {
        ghost var seen := k.hist;
        var target, inc := VerifyRecord(k, records[i], i, members, from, records, ownGroup);
        VerifiedExtends(seen, k.hist, targets, incs, records, ownGroup);
        AllPinStayersLater(seen, k.hist, from, targets, members);
        UnverifiableExtends(seen, k.hist, from, discarded, records, members);
        if target.None? {
          discarded := discarded + {i};
        } else {
          RecordedSnoc(targets, target.value);
          targets, incs := targets + [target.value], incs + [inc];
        }
      }
    }
  }

  lemma RecordedSnoc(targets: seq<Target>, t: Target)
    ensures Recorded(targets + [t]) == Recorded(targets) + {t.record}
  {
    var all := targets + [t];
    forall r: nat | r in Recorded(targets) + {t.record} ensures r in Recorded(all) {
      if r in Recorded(targets) {
        var i :| 0 <= i < |targets| && targets[i].record == r;
        assert all[i].record == r;
      } else {
        assert all[|targets|].record == r;
      }
    }
  }

  /** `r` keeps the pins of `t`, and the two name the same group. */
  ghost predicate Repinned(t: Target, r: Target) {
    && r.record == t.record && r.identity.pgid == t.identity.pgid && r.identity.marker == t.identity.marker
    && t.identity.members <= r.identity.members
  }

  /** A process in the group when its own refresh began, and still there now, is pinned. */
  ghost predicate PinsCurrent(hist: seq<Os>, r: Target, asOf: int) {
    && 0 <= asOf < |hist|
    && forall pid: int, start: nat ::
         (Member(hist[asOf], pid, start, r.identity.pgid) && Member(hist[|hist| - 1], pid, start, r.identity.pgid))
         ==> (pid, start) in r.identity.members
  }

  /** What became of one target in the TERM phase: whether it got its signal, and when its refresh began. */
  datatype Attempt = Attempt(termed: bool, begun: int)

  /** Such a signal was sent to the group, proved at or after `since`. */
  ghost predicate Signalled(hist: seq<Os>, sent: seq<Sent>, g: int, signal: Signal, since: int) {
    exists s :: s in sent && IsSignal(hist, s, g, signal, since)
  }

  ghost predicate IsSignal(hist: seq<Os>, s: Sent, g: int, signal: Signal, since: int) {
    s.pgid == g && s.signal == signal && since <= s.provedAt <= s.sentAt < |hist|
  }

  lemma SignalledLater(hist: seq<Os>, hist': seq<Os>, sent: seq<Sent>, sent': seq<Sent>, g: int, signal: Signal,
      since: int)
    requires hist <= hist' && sent <= sent' && Signalled(hist, sent, g, signal, since)
    ensures Signalled(hist', sent', g, signal, since)
  {
    var s :| s in sent && IsSignal(hist, s, g, signal, since);
    assert s in sent' && IsSignal(hist', s, g, signal, since);
  }

  ghost predicate NobodyLeft(hist: seq<Os>, r: Target) {
    hist != [] && Gone(hist[|hist| - 1], r.identity.members, r.identity.pgid)
  }

  /** The target after its turn: signalled and re-pinned, or without a pinned member. */
  ghost predicate TermOutcome(hist: seq<Os>, from: int, t: Target, r: Target, a: Attempt, sent: seq<Sent>) {
    && Repinned(t, r) && from <= a.begun
    && if a.termed
       then PinsCurrent(hist, r, a.begun) && Signalled(hist, sent, r.identity.pgid, SIGTERM, a.begun)
       else NobodyLeft(hist, r)
  }

  ghost predicate TermDone(
    hist: seq<Os>, from: int, targets: seq<Target>, refreshed: seq<Target>, attempts: seq<Attempt>, sent: seq<Sent>)
  {
    && |refreshed| == |attempts| <= |targets|
    && forall i :: 0 <= i < |refreshed| ==> TermOutcome(hist, from, targets[i], refreshed[i], attempts[i], sent)
  }

  lemma PinsCurrentLater(hist: seq<Os>, hist': seq<Os>, r: Target, asOf: int)
    requires Trace(hist') && hist != [] && hist <= hist' && PinsCurrent(hist, r, asOf)
    ensures PinsCurrent(hist', r, asOf)
  {
    forall pid: int, start: nat
      | Member(hist'[asOf], pid, start, r.identity.pgid) && Member(hist'[|hist'| - 1], pid, start, r.identity.pgid)
      ensures (pid, start) in r.identity.members
    {
      MembershipIsConvex(hist', asOf, |hist| - 1, |hist'| - 1, pid, start, r.identity.pgid);
    }
  }

  lemma TermOutcomeLater(
    hist: seq<Os>, hist': seq<Os>, from: int, t: Target, r: Target, a: Attempt, sent: seq<Sent>, sent': seq<Sent>,
    inc: nat)
    requires Trace(hist') && hist != [] && hist <= hist' && sent <= sent'
    requires TermOutcome(hist, from, t, r, a, sent) && PinnedTo(hist, r.identity, inc)
    ensures TermOutcome(hist', from, t, r, a, sent')
  {
    if a.termed {
      PinsCurrentLater(hist, hist', r, a.begun);
      SignalledLater(hist, hist', sent, sent', r.identity.pgid, SIGTERM, a.begun);
    } else {
      GoneStaysGone(hist, hist', r.identity, inc, r.identity.members);
    }
  }

  lemma TermDoneLater(
    hist: seq<Os>, hist': seq<Os>, from: int, targets: seq<Target>, refreshed: seq<Target>, incs: seq<nat>,
    attempts: seq<Attempt>, sent: seq<Sent>, sent': seq<Sent>, records: seq<Record>, ownGroup: int)
    requires Trace(hist') && hist != [] && hist <= hist' && sent <= sent'
    requires TermDone(hist, from, targets, refreshed, attempts, sent)
    requires AllVerified(hist, refreshed, incs, records, ownGroup)
    ensures TermDone(hist', from, targets, refreshed, attempts, sent')
  {
    forall i | 0 <= i < |refreshed|
      ensures TermOutcome(hist', from, targets[i], refreshed[i], attempts[i], sent')
    {
      assert Verified(hist, refreshed[i], incs[i], records, ownGroup);
      TermOutcomeLater(hist, hist', from, targets[i], refreshed[i], attempts[i], sent, sent', incs[i]);
    }
  }

  lemma TermDoneSnoc(
    hist: seq<Os>, from: int, targets: seq<Target>, refreshed: seq<Target>, attempts: seq<Attempt>, sent: seq<Sent>,
    r: Target, a: Attempt)
    requires TermDone(hist, from, targets, refreshed, attempts, sent) && |refreshed| < |targets|
    requires TermOutcome(hist, from, targets[|refreshed|], r, a, sent)
    ensures TermDone(hist, from, targets, refreshed + [r], attempts + [a], sent)
  {
  }

  lemma StandsStill(hist: seq<Os>, a: nat, b: nat, pid: int, start: nat, g: int)
    requires Trace(hist) && a <= b < |hist| && Member(hist[a], pid, start, g) && Member(hist[b], pid, start, g)
    ensures Stable(hist, a, b, pid)
  {
    forall t | a <= t <= b ensures SameAs(hist[a], hist[t], pid) {
      MembershipIsConvex(hist, a, t, b, pid, start, g);
    }
  }

  /** The kill itself, some instants after the proof that precedes it. */
  method Send(k: Kernel, g: int, signal: Signal) returns (s: Sent)
    requires k.Valid()
    modifies k
    ensures k.Valid() && old(k.hist) <= k.hist
    ensures s == Sent(g, signal, old(k.Now()), k.Now())
  {
    var proved := k.Now();
    k.Interleave();
    s := Sent(g, signal, proved, k.Now());
  }

  /** List the group's current members, re-pin, and prove ownership. */
  method Repin(k: Kernel, index: MemberIndex, t: Target, ghost inc: nat) returns (current: Option<GroupIdentity>)
    requires k.Valid() && index.Valid() && PinnedTo(k.hist, t.identity, inc)
    modifies k, index
    ensures k.Valid() && index.Valid() && old(k.hist) <= k.hist
    ensures current.None? ==> NobodyLeft(k.hist, t)
    ensures current.Some? ==>
              var r := Target(t.record, current.value);
              && Repinned(t, r) && PinnedTo(k.hist, r.identity, inc) && PinsCurrent(k.hist, r, old(k.Now()))
              && Populated(k.os, r.identity.pgid)
              && r.identity.pgid in k.os.incarnation && k.os.incarnation[r.identity.pgid] == inc
  {
    ghost var a := k.Now();
    ghost var first := k.hist;
    var g := t.identity.pgid;
    var candidates := index.MembersOf(k, g);
    ghost var listed := k.Now();
    PinnedToExtends(first, k.hist, t.identity, inc);
    current := RefreshIdentity(k, t.identity, candidates, inc);
    if current.Some? {
      MemberPopulates(k.os, t.identity);
      forall pid: int, start: nat | Member(k.hist[a], pid, start, g) && Member(k.os, pid, start, g)
        ensures (pid, start) in current.value.members
      {
        MembershipIsConvex(k.hist, a, listed, |k.hist| - 1, pid, start, g);
        StandsStill(k.hist, a, listed, pid, start, g);
      }
    }
  }

  /**
   * One group of the TERM phase: re-pin, prove ownership, signal. Without the proof nothing is sent
   * and the old pins stand.
   */
  method TermGroup(k: Kernel, index: MemberIndex, t: Target, ghost inc: nat)
    returns (r: Target, sent: seq<Sent>, ghost a: Attempt)
    requires k.Valid() && index.Valid() && PinnedTo(k.hist, t.identity, inc)
    modifies k, index
    ensures k.Valid() && index.Valid() && old(k.hist) <= k.hist && a.begun == old(k.Now())
    ensures PinnedTo(k.hist, r.identity, inc) && TermOutcome(k.hist, old(k.Now()), t, r, a, sent)
    ensures |sent| <= 1 && GroupsOf(sent) == if a.termed then [t.identity.pgid] else []
    ensures forall s :: s in sent ==> s.signal == SIGTERM && Proved(k.hist, s, t, inc)
  {
    a := Attempt(false, k.Now());
    ghost var first := k.hist;
    var current := Repin(k, index, t, inc);
    if current.None? {
      PinnedToExtends(first, k.hist, t.identity, inc);
      return t, [], a;
    }
    r := Target(t.record, current.value);
    ghost var proved := k.hist;
    var s := Send(k, r.identity.pgid, SIGTERM);
    PinnedToExtends(proved, k.hist, r.identity, inc);
    PinsCurrentLater(proved, k.hist, r, a.begun);
    sent, a := [s], Attempt(true, a.begun);
    assert s in sent && IsSignal(k.hist, s, r.identity.pgid, SIGTERM, a.begun);
  }

  lemma VerifiedSnoc(
    hist: seq<Os>, targets: seq<Target>, refreshed: seq<Target>, incs: seq<nat>, r: Target, records: seq<Record>,
    ownGroup: int)
    requires AllVerified(hist, targets, incs, records, ownGroup) && |refreshed| < |targets|
    requires AllVerified(hist, refreshed, incs[..|refreshed|], records, ownGroup)
    requires Repinned(targets[|refreshed|], r) && PinnedTo(hist, r.identity, incs[|refreshed|])
    ensures AllVerified(hist, refreshed + [r], incs[..|refreshed| + 1], records, ownGroup)
  {
    var n := |refreshed|;
    assert incs[..n + 1] == incs[..n] + [incs[n]];
    assert Verified(hist, targets[n], incs[n], records, ownGroup);
    assert Verified(hist, r, incs[n], records, ownGroup);
    forall i | 0 <= i < n + 1 ensures Verified(hist, (refreshed + [r])[i], incs[..n + 1][i], records, ownGroup) {
      if i < n {
        assert Verified(hist, refreshed[i], incs[..n][i], records, ownGroup);
      }
    }
  }

  /** What one turn of either phase adds to the signals already sent. */
  lemma ProvedGrows(
    hist: seq<Os>, hist': seq<Os>, sent: seq<Sent>, more: seq<Sent>, targets: seq<Target>, incs: seq<nat>,
    signal: Signal, i: nat)
    requires hist <= hist' && AllProved(hist, sent, targets, incs) && AllAre(sent, signal) && i < |targets|
    requires |more| <= 1 && forall s :: s in more ==> s.signal == signal && Proved(hist', s, targets[i], incs[i])
    ensures AllProved(hist', sent + more, targets, incs) && AllAre(sent + more, signal)
  {
    ProvedExtends(hist, hist', sent, targets, incs);
    if more == [] {
      assert sent + more == sent;
    } else {
      assert more == [more[0]];
      ProvedSnoc(hist', sent, targets, incs, more[0], i);
    }
  }

  function GroupsOf(sent: seq<Sent>): seq<int> {
    seq(|sent|, i requires 0 <= i < |sent| => sent[i].pgid)
  }

  /** The groups whose attempt ended in a TERM, in the order of the targets. */
  function TermedGroups(targets: seq<Target>, attempts: seq<Attempt>): seq<int>
    requires |attempts| <= |targets|
  {
    if attempts == [] then []
    else
      var n := |attempts| - 1;
      TermedGroups(targets, attempts[..n]) + if attempts[n].termed then [targets[n].identity.pgid] else []
  }

  lemma GroupsOfJoined(sent: seq<Sent>, more: seq<Sent>)
    ensures GroupsOf(sent + more) == GroupsOf(sent) + GroupsOf(more)
  {
  }

  lemma TermedGroupsSnoc(targets: seq<Target>, attempts: seq<Attempt>, a: Attempt)
    requires |attempts| < |targets|
    ensures TermedGroups(targets, attempts + [a]) ==
            TermedGroups(targets, attempts) + if a.termed then [targets[|attempts|].identity.pgid] else []
  {
    assert (attempts + [a])[..|attempts|] == attempts;
  }

  /** Exactly the targets marked as termed got a TERM, one each. */
  ghost predicate Accounted(targets: seq<Target>, attempts: seq<Attempt>, termed: seq<Sent>)
    requires |attempts| <= |targets|
  {
    GroupsOf(termed) == TermedGroups(targets, attempts)
  }

  lemma AccountedSnoc(targets: seq<Target>, attempts: seq<Attempt>, a: Attempt, sent: seq<Sent>, more: seq<Sent>)
    requires |attempts| < |targets| && Accounted(targets, attempts, sent)
    requires GroupsOf(more) == if a.termed then [targets[|attempts|].identity.pgid] else []
    ensures Accounted(targets, attempts + [a], sent + more)
  {
    GroupsOfJoined(sent, more);
    TermedGroupsSnoc(targets, attempts, a);
  }

  /** The TERM phase. */
  method TermGroups(
    k: Kernel, targets: seq<Target>, ghost incs: seq<nat>, ghost records: seq<Record>, ghost ownGroup: int)
    returns (refreshed: seq<Target>, sent: seq<Sent>, ghost attempts: seq<Attempt>)
    requires k.Valid() && AllVerified(k.hist, targets, incs, records, ownGroup)
    modifies k
    ensures k.Valid() && old(k.hist) <= k.hist && |refreshed| == |targets|
    ensures AllVerified(k.hist, refreshed, incs, records, ownGroup)
    ensures AllProved(k.hist, sent, targets, incs) && AllAre(sent, SIGTERM)
    ensures TermDone(k.hist, old(k.Now()), targets, refreshed, attempts, sent)
    ensures |attempts| == |targets| && Accounted(targets, attempts, sent)
  {
    ghost var first := k.hist;
    var index := new MemberIndex(k);
    VerifiedExtends(first, k.hist, targets, incs, records, ownGroup);
    refreshed, sent, attempts := [], [], [];
    for i := 0 to |targets|
      invariant k.Valid() && index.Valid() && old(k.hist) <= k.hist && |refreshed| == i
      invariant AllVerified(k.hist, targets, incs, records, ownGroup)
      invariant AllVerified(k.hist, refreshed, incs[..i], records, ownGroup)
      invariant AllProved(k.hist, sent, targets, incs) && AllAre(sent, SIGTERM)
      invariant TermDone(k.hist, old(k.Now()), targets, refreshed, attempts, sent)
      invariant |attempts| == i && Accounted(targets, attempts, sent)
    {
      ghost var seen := k.hist;
      assert Verified(k.hist, targets[i], incs[i], records, ownGroup);
      var r, more, a := TermGroup(k, index, targets[i], incs[i]);
      VerifiedExtends(seen, k.hist, targets, incs, records, ownGroup);
      ProvedGrows(seen, k.hist, sent, more, targets, incs, SIGTERM, i);
      TermTurn(seen, k.hist, old(k.Now()), targets, refreshed, incs, attempts, sent, more, r, a, records, ownGroup);
      AccountedSnoc(targets, attempts, a, sent, more);
      refreshed, attempts, sent := refreshed + [r], attempts + [a], sent + more;
    }
    assert incs[..|targets|] == incs;
  }

  /** One turn of the TERM phase on top of the turns before it. */
  lemma TermTurn(
    hist: seq<Os>, hist': seq<Os>, from: int, targets: seq<Target>, refreshed: seq<Target>, incs: seq<nat>,
    attempts: seq<Attempt>, sent: seq<Sent>, more: seq<Sent>, r: Target, a: Attempt, records: seq<Record>,
    ownGroup: int)
    requires Trace(hist') && hist != [] && hist <= hist' && |refreshed| < |targets| && from <= |hist| - 1
    requires AllVerified(hist', targets, incs, records, ownGroup)
    requires AllVerified(hist, refreshed, incs[..|refreshed|], records, ownGroup)
    requires TermDone(hist, from, targets, refreshed, attempts, sent)
    requires PinnedTo(hist', r.identity, incs[|refreshed|])
    requires TermOutcome(hist', |hist| - 1, targets[|refreshed|], r, a, more)
    ensures AllVerified(hist', refreshed + [r], incs[..|refreshed| + 1], records, ownGroup)
    ensures TermDone(hist', from, targets, refreshed + [r], attempts + [a], sent + more)
  {
    var n := |refreshed|;
    VerifiedExtends(hist, hist', refreshed, incs[..n], records, ownGroup);
    VerifiedSnoc(hist', targets, refreshed, incs, r, records, ownGroup);
    TermDoneLater(hist, hist', from, targets, refreshed, incs[..n], attempts, sent, sent + more, records, ownGroup);
    OutcomeStands(hist', from, |hist| - 1, targets[n], r, a, sent, more);
    TermDoneSnoc(hist', from, targets, refreshed, attempts, sent + more, r, a);
  }

  lemma OutcomeStands(hist: seq<Os>, from: int, turn: int, t: Target, r: Target, a: Attempt, sent: seq<Sent>,
      more: seq<Sent>)
    requires from <= turn && TermOutcome(hist, turn, t, r, a, more)
    ensures TermOutcome(hist, from, t, r, a, sent + more)
  {
    if a.termed {
      var s :| s in more && IsSignal(hist, s, r.identity.pgid, SIGTERM, a.begun);
      assert s in sent + more;
    }
  }

  /** Of the first `n` targets, each was killed since `from` or has no pinned member left. */
  ghost predicate KillDone(hist: seq<Os>, from: int, targets: seq<Target>, n: int, sent: seq<Sent>)
    requires n <= |targets|
  {
    forall i :: 0 <= i < n ==> KillOutcome(hist, from, targets[i], sent)
  }

  ghost predicate KillOutcome(hist: seq<Os>, from: int, t: Target, sent: seq<Sent>) {
    Signalled(hist, sent, t.identity.pgid, SIGKILL, from) || NobodyLeft(hist, t)
  }

  lemma KillDoneLater(
    hist: seq<Os>, hist': seq<Os>, from: int, targets: seq<Target>, incs: seq<nat>, n: nat, sent: seq<Sent>,
    sent': seq<Sent>, records: seq<Record>, ownGroup: int)
    requires Trace(hist') && hist != [] && hist <= hist' && sent <= sent' && n <= |targets|
    requires AllVerified(hist, targets, incs, records, ownGroup) && KillDone(hist, from, targets, n, sent)
    ensures KillDone(hist', from, targets, n, sent')
  {
    forall i | 0 <= i < n ensures KillOutcome(hist', from, targets[i], sent') {
      assert Verified(hist, targets[i], incs[i], records, ownGroup);
      if NobodyLeft(hist, targets[i]) {
        GoneStaysGone(hist, hist', targets[i].identity, incs[i], targets[i].identity.members);
      } else {
        SignalledLater(hist, hist', sent, sent', targets[i].identity.pgid, SIGKILL, from);
      }
    }
  }

  /** One group of the KILL phase: the ownership proof, then the signal. */
  method KillGroup(k: Kernel, t: Target, ghost inc: nat) returns (sent: seq<Sent>)
    requires k.Valid() && PinnedTo(k.hist, t.identity, inc)
    modifies k
    ensures k.Valid() && old(k.hist) <= k.hist && |sent| <= 1
    ensures KillOutcome(k.hist, old(k.Now()), t, sent)
    ensures forall s :: s in sent ==> s.signal == SIGKILL && Proved(k.hist, s, t, inc)
  {
    var owned := StillOwned(k, t.identity, inc);
    if !owned {
      return [];
    }
    MemberPopulates(k.os, t.identity);
    ghost var from := |old(k.hist)| - 1;
    var s := Send(k, t.identity.pgid, SIGKILL);
    sent := [s];
    assert s in sent && IsSignal(k.hist, s, t.identity.pgid, SIGKILL, from);
  }

  lemma KillTurn(hist: seq<Os>, from: int, turn: int, targets: seq<Target>, n: nat, sent: seq<Sent>, more: seq<Sent>)
    requires from <= turn && n < |targets| && KillDone(hist, from, targets, n, sent + more)
    requires KillOutcome(hist, turn, targets[n], more)
    ensures KillDone(hist, from, targets, n + 1, sent + more)
  {
    if !NobodyLeft(hist, targets[n]) {
      var s :| s in more && IsSignal(hist, s, targets[n].identity.pgid, SIGKILL, turn);
      assert s in sent + more && IsSignal(hist, s, targets[n].identity.pgid, SIGKILL, from);
    }
  }

  /** The KILL phase: prove each group live, then signal it. */
  method SignalGroups(
    k: Kernel, targets: seq<Target>, ghost incs: seq<nat>, ghost records: seq<Record>, ghost ownGroup: int)
    returns (sent: seq<Sent>)
    requires k.Valid() && AllVerified(k.hist, targets, incs, records, ownGroup)
    modifies k
    ensures k.Valid() && old(k.hist) <= k.hist
    ensures AllProved(k.hist, sent, targets, incs) && AllAre(sent, SIGKILL)
    ensures KillDone(k.hist, old(k.Now()), targets, |targets|, sent)
  {
    sent := [];
    for i := 0 to |targets|
      invariant k.Valid() && old(k.hist) <= k.hist
      invariant AllVerified(k.hist, targets, incs, records, ownGroup)
      invariant AllProved(k.hist, sent, targets, incs) && AllAre(sent, SIGKILL)
      invariant KillDone(k.hist, old(k.Now()), targets, i, sent)
    {
      ghost var seen := k.hist;
      assert Verified(k.hist, targets[i], incs[i], records, ownGroup);
      var more := KillGroup(k, targets[i], incs[i]);
      ProvedGrows(seen, k.hist, sent, more, targets, incs, SIGKILL, i);
      KillDoneLater(seen, k.hist, old(k.Now()), targets, incs, i, sent, sent + more, records, ownGroup);
      KillTurn(k.hist, old(k.Now()), |seen| - 1, targets, i, sent, more);
      VerifiedExtends(seen, k.hist, targets, incs, records, ownGroup);
      sent := sent + more;
    }
  }

  /** The signal was sent while this process was in the group. */
  ghost predicate Delivered(hist: seq<Os>, s: Sent, g: int, signal: Signal, pid: int, start: nat) {
    s.pgid == g && s.signal == signal && 0 <= s.sentAt < |hist| && Member(hist[s.sentAt], pid, start, g)
  }

  /** Whoever was in the group at `asOf`, and is still there, has been sent the signal while in it. */
  ghost predicate Reaches(hist: seq<Os>, g: int, asOf: int, signal: Signal, sent: seq<Sent>) {
    && 0 <= asOf < |hist|
    && forall pid: int, start: nat :: Member(hist[asOf], pid, start, g) && Member(hist[|hist| - 1], pid, start, g) ==>
         DeliveredOnce(hist, sent, g, signal, pid, start)
  }

  ghost predicate DeliveredOnce(hist: seq<Os>, sent: seq<Sent>, g: int, signal: Signal, pid: int, start: nat) {
    exists s :: s in sent && Delivered(hist, s, g, signal, pid, start)
  }

  lemma SignalReaches(hist: seq<Os>, sent: seq<Sent>, g: int, asOf: int, signal: Signal, pid: int, start: nat)
    requires Trace(hist) && 0 <= asOf < |hist| && Signalled(hist, sent, g, signal, asOf)
    requires Member(hist[asOf], pid, start, g) && Member(hist[|hist| - 1], pid, start, g)
    ensures DeliveredOnce(hist, sent, g, signal, pid, start)
  {
    var s :| s in sent && IsSignal(hist, s, g, signal, asOf);
    MembershipIsConvex(hist, asOf, s.sentAt, |hist| - 1, pid, start, g);
    assert Delivered(hist, s, g, signal, pid, start);
  }

  /**
   * What the pass owes one target: a TERM, and then the KILL for everyone who was in the group when
   * its refresh began and is still there, whatever became of the processes first pinned; or nobody
   * first pinned is left, and nothing is owed.
   */
  ghost predicate Reached(hist: seq<Os>, from: int, t: Target, a: Attempt, termed: seq<Sent>, killed: seq<Sent>) {
    && from <= a.begun
    && if a.termed
       then && Signalled(hist, termed, t.identity.pgid, SIGTERM, a.begun)
            && Reaches(hist, t.identity.pgid, a.begun, SIGTERM, termed)
            && Reaches(hist, t.identity.pgid, a.begun, SIGKILL, killed)
       else NobodyLeft(hist, t)
  }

  lemma SurvivorsAreKilled(hist: seq<Os>, from: int, r: Target, begun: int, killed: seq<Sent>)
    requires Trace(hist) && PinsCurrent(hist, r, begun) && begun <= from && KillOutcome(hist, from, r, killed)
    ensures Reaches(hist, r.identity.pgid, begun, SIGKILL, killed)
  {
    var g := r.identity.pgid;
    forall pid: int, start: nat | Member(hist[begun], pid, start, g) && Member(hist[|hist| - 1], pid, start, g)
      ensures DeliveredOnce(hist, killed, g, SIGKILL, pid, start)
    {
      var s :| s in killed && IsSignal(hist, s, g, SIGKILL, from);
      assert IsSignal(hist, s, g, SIGKILL, begun);
      SignalReaches(hist, killed, g, begun, SIGKILL, pid, start);
    }
  }

  lemma Outcome(
    hist: seq<Os>, hist': seq<Os>, from: int, t: Target, r: Target, inc: nat, a: Attempt, termed: seq<Sent>,
    killed: seq<Sent>, killFrom: int)
    requires Trace(hist') && hist != [] && hist <= hist' && PinnedTo(hist, r.identity, inc)
    requires TermOutcome(hist, from, t, r, a, termed) && |hist| - 1 <= killFrom
             && KillOutcome(hist', killFrom, r, killed)
    ensures Reached(hist', from, t, a, termed, killed)
  {
    TermOutcomeLater(hist, hist', from, t, r, a, termed, termed, inc);
    if a.termed {
      SurvivorsAreKilled(hist', killFrom, r, a.begun, killed);
      var g := t.identity.pgid;
      forall pid: int, start: nat | Member(hist'[a.begun], pid, start, g) && Member(hist'[|hist'| - 1], pid, start, g)
        ensures DeliveredOnce(hist', termed, g, SIGTERM, pid, start)
      {
        SignalReaches(hist', termed, g, a.begun, SIGTERM, pid, start);
      }
    }
  }

  ghost predicate AllReached(
    hist: seq<Os>, from: int, targets: seq<Target>, attempts: seq<Attempt>, termed: seq<Sent>, killed: seq<Sent>)
  {
    && |attempts| == |targets|
    && forall i :: 0 <= i < |targets| ==> Reached(hist, from, targets[i], attempts[i], termed, killed)
  }

  lemma Outcomes(
    hist: seq<Os>, hist': seq<Os>, from: int, targets: seq<Target>, refreshed: seq<Target>, incs: seq<nat>,
    attempts: seq<Attempt>, termed: seq<Sent>, killed: seq<Sent>, killFrom: int, records: seq<Record>, ownGroup: int)
    requires Trace(hist') && hist != [] && hist <= hist' && |refreshed| == |targets| && |hist| - 1 <= killFrom
    requires AllVerified(hist, refreshed, incs, records, ownGroup)
    requires TermDone(hist, from, targets, refreshed, attempts, termed)
    requires KillDone(hist', killFrom, refreshed, |refreshed|, killed)
    ensures AllReached(hist', from, targets, attempts, termed, killed)
  {
    forall i | 0 <= i < |targets| ensures Reached(hist', from, targets[i], attempts[i], termed, killed) {
      assert Verified(hist, refreshed[i], incs[i], records, ownGroup);
      Outcome(hist, hist', from, targets[i], refreshed[i], incs[i], attempts[i], termed, killed, killFrom);
    }
  }

  lemma TargetsOfRepinned(
    hist: seq<Os>, sent: seq<Sent>, targets: seq<Target>, refreshed: seq<Target>, incs: seq<nat>)
    requires |refreshed| == |targets| && forall i :: 0 <= i < |targets| ==> Repinned(targets[i], refreshed[i])
    requires AllProved(hist, sent, refreshed, incs)
    ensures AllProved(hist, sent, targets, incs)
  {
    forall j | 0 <= j < |sent| ensures ProvedForOne(hist, sent[j], targets, incs) {
      assert ProvedForOne(hist, sent[j], refreshed, incs);
      var i :| 0 <= i < |refreshed| && Proved(hist, sent[j], refreshed[i], incs[i]);
      assert Proved(hist, sent[j], targets[i], incs[i]);
    }
  }

  /** TERM, wait, KILL. */
  method TermThenKill(
    k: Kernel, targets: seq<Target>, ghost incs: seq<nat>, ghost records: seq<Record>, ghost ownGroup: int)
    returns (termed: seq<Sent>, killed: seq<Sent>, ghost attempts: seq<Attempt>)
    requires k.Valid() && AllVerified(k.hist, targets, incs, records, ownGroup)
    modifies k
    ensures k.Valid() && old(k.hist) <= k.hist
    ensures AllVerified(k.hist, targets, incs, records, ownGroup)
    ensures AllProved(k.hist, termed, targets, incs) && AllAre(termed, SIGTERM)
    ensures AllProved(k.hist, killed, targets, incs) && AllAre(killed, SIGKILL)
    ensures AllReached(k.hist, old(k.Now()), targets, attempts, termed, killed)
    ensures |attempts| == |targets| && Accounted(targets, attempts, termed)
  {
    ghost var first := k.hist;
    var refreshed: seq<Target>;
    refreshed, termed, attempts := TermGroups(k, targets, incs, records, ownGroup);
    ghost var afterTerm := k.hist;
    k.Interleave();
    ghost var killFrom := k.Now();
    VerifiedExtends(afterTerm, k.hist, refreshed, incs, records, ownGroup);
    killed := SignalGroups(k, refreshed, incs, records, ownGroup);
    VerifiedExtends(first, k.hist, targets, incs, records, ownGroup);
    TargetsOfRepinned(k.hist, killed, targets, refreshed, incs);
    ProvedExtends(afterTerm, k.hist, termed, targets, incs);
    Outcomes(afterTerm, k.hist, |first| - 1, targets, refreshed, incs, attempts, termed, killed, killFrom, records,
        ownGroup);
  }

  /** The process has been in the group, with the marker, at every instant since `from`. */
  ghost predicate CarriesThroughout(hist: seq<Os>, from: int, pid: int, start: nat, g: int, marker: string) {
    && 0 <= from < |hist|
    && forall t :: from <= t < |hist| ==> Member(hist[t], pid, start, g) && marker in hist[t].procs[pid].markers
  }

  /** Record `i` may be signalled, and a process listed for its group has held its marker throughout. */
  ghost predicate Held(hist: seq<Os>, from: int, records: seq<Record>, members: map<int, set<int>>, ownGroup: int,
      i: nat)
  {
    && i < |records| && records[i].pgid.Some? && records[i].pgid.value > 1 && records[i].pgid.value != ownGroup
    && exists pid: int, start: nat :: Listed(members, records[i].pgid.value, pid)
         && CarriesThroughout(hist, from, pid, start, records[i].pgid.value, records[i].marker)
  }

  /** Whoever was in the group at `from`, and still is, has been sent both signals while in it. */
  ghost predicate BothReach(hist: seq<Os>, from: int, g: int, termed: seq<Sent>, killed: seq<Sent>) {
    Reaches(hist, g, from, SIGTERM, termed) && Reaches(hist, g, from, SIGKILL, killed)
  }

  /** Record `i` is a target that got its TERM, and both signals reach its group. */
  ghost predicate Served(hist: seq<Os>, from: int, records: seq<Record>, targets: seq<Target>,
      attempts: seq<Attempt>, termed: seq<Sent>, killed: seq<Sent>, i: nat)
    requires i < |records| && records[i].pgid.Some? && |attempts| == |targets|
  {
    exists j :: 0 <= j < |targets| && targets[j].record == i && attempts[j].termed
      && BothReach(hist, from, records[i].pgid.value, termed, killed)
  }

  /** No orphan is spared whose marker the pass could see throughout. */
  ghost predicate AllServed(hist: seq<Os>, from: int, records: seq<Record>, members: map<int, set<int>>,
      ownGroup: int, targets: seq<Target>, attempts: seq<Attempt>, termed: seq<Sent>, killed: seq<Sent>)
  {
    && |attempts| == |targets|
    && forall i: nat :: Held(hist, from, records, members, ownGroup, i) ==>
         Served(hist, from, records, targets, attempts, termed, killed, i)
  }

  lemma HeldIsVerifiable(hist: seq<Os>, from: int, records: seq<Record>, members: map<int, set<int>>, ownGroup: int,
      i: nat)
    requires Held(hist, from, records, members, ownGroup, i)
    ensures !Unverifiable(hist, from, records[i], members)
  {
    var g, marker := records[i].pgid.value, records[i].marker;
    var pid: int, start: nat :| Listed(members, g, pid) && CarriesThroughout(hist, from, pid, start, g, marker);
    forall t | from <= t < |hist| ensures !NoneMarked(hist[t], members, g, marker) {
      assert Member(hist[t], pid, start, g);
    }
  }

  lemma ReachesSince(hist: seq<Os>, g: int, from: int, asOf: int, signal: Signal, sent: seq<Sent>)
    requires Trace(hist) && 0 <= from <= asOf && Reaches(hist, g, asOf, signal, sent)
    ensures Reaches(hist, g, from, signal, sent)
  {
    forall pid: int, start: nat | Member(hist[from], pid, start, g) && Member(hist[|hist| - 1], pid, start, g)
      ensures DeliveredOnce(hist, sent, g, signal, pid, start)
    {
      MembershipIsConvex(hist, from, asOf, |hist| - 1, pid, start, g);
    }
  }

  /** A target whose marker was held throughout got its TERM, for a process it pinned has stayed. */
  lemma HeldTargetIsReached(hist: seq<Os>, from: int, later: int, t: Target, a: Attempt, marker: string,
      members: map<int, set<int>>, termed: seq<Sent>, killed: seq<Sent>)
    requires Trace(hist) && PinsStayers(hist, from, t, members) && from <= later
    requires Reached(hist, later, t, a, termed, killed)
    requires exists pid: int, start: nat :: Listed(members, t.identity.pgid, pid)
               && CarriesThroughout(hist, from, pid, start, t.identity.pgid, marker)
    ensures a.termed && BothReach(hist, from, t.identity.pgid, termed, killed)
  {
    var g := t.identity.pgid;
    var pid: int, start: nat :| Listed(members, g, pid) && CarriesThroughout(hist, from, pid, start, g, marker);
    assert Member(hist[from], pid, start, g) && Member(hist[|hist| - 1], pid, start, g);
    assert (pid, start) in t.identity.members;
    ReachesSince(hist, g, from, a.begun, SIGTERM, termed);
    ReachesSince(hist, g, from, a.begun, SIGKILL, killed);
  }

  lemma HeldIsServed(hist: seq<Os>, from: int, later: int, records: seq<Record>, members: map<int, set<int>>,
      ownGroup: int, targets: seq<Target>, incs: seq<nat>, discarded: set<nat>, attempts: seq<Attempt>,
      termed: seq<Sent>, killed: seq<Sent>, i: nat)
    requires Trace(hist) && from <= later && AllVerified(hist, targets, incs, records, ownGroup)
    requires AllPinStayers(hist, from, targets, members) && AllUnverifiable(hist, from, discarded, records, members)
    requires AllReached(hist, later, targets, attempts, termed, killed)
    requires Held(hist, from, records, members, ownGroup, i) && (i in discarded || i in Recorded(targets))
    ensures Served(hist, from, records, targets, attempts, termed, killed, i)
  {
    HeldIsVerifiable(hist, from, records, members, ownGroup, i);
    assert i !in discarded;
    var j :| 0 <= j < |targets| && targets[j].record == i;
    assert Verified(hist, targets[j], incs[j], records, ownGroup);
    assert PinsStayers(hist, from, targets[j], members);
    assert Reached(hist, later, targets[j], attempts[j], termed, killed);
    HeldTargetIsReached(hist, from, later, targets[j], attempts[j], records[i].marker, members, termed, killed);
  }

  /** The records of the targets go with those discarded before. */
  method Unlink(targets: seq<Target>, discarded: set<nat>) returns (unlinked: set<nat>)
    ensures unlinked == discarded + Recorded(targets)
  {
    unlinked := discarded;
    for i := 0 to |targets|
      invariant unlinked == discarded + Recorded(targets[..i])
    {
      assert targets[..i + 1] == targets[..i] + [targets[i]];
      RecordedSnoc(targets[..i], targets[i]);
      unlinked := unlinked + {targets[i].record};
    }
    assert targets[..|targets|] == targets;
  }

  /**
   * The whole pass, with the process table changing between all reads and signals. Every TERM and
   * every KILL is preceded by a proof that the pgid denotes the incarnation in which the record's
   * marker was seen; it is never the reaper's own group. `attempts` says which targets got a TERM, one
   * each and no other; the group of one that did is killed as long as any process that was in it when
   * its refresh began, in this pass, is still in it, even if every process first verified has gone;
   * such a process was in the group at both signals. No orphan is spared: a record whose marker some
   * listed process of the group held throughout is a target, and both signals reach its group.
   */
  method ReapOrphanedAgents(k: Kernel, records: seq<Record>, members: map<int, set<int>>, ownGroup: int)
    returns (
      termed: seq<Sent>, killed: seq<Sent>, unlinked: set<nat>,
      ghost targets: seq<Target>, ghost incs: seq<nat>, ghost attempts: seq<Attempt>)
    requires k.Valid()
    modifies k
    ensures k.Valid() && old(k.hist) <= k.hist
    ensures AllVerified(k.hist, targets, incs, records, ownGroup)
    ensures AllProved(k.hist, termed, targets, incs) && AllAre(termed, SIGTERM)
    ensures AllProved(k.hist, killed, targets, incs) && AllAre(killed, SIGKILL)
    ensures AllReached(k.hist, old(k.Now()), targets, attempts, termed, killed)
    ensures AllServed(k.hist, old(k.Now()), records, members, ownGroup, targets, attempts, termed, killed)
    ensures |attempts| == |targets| && Accounted(targets, attempts, termed)
    ensures forall i: nat :: i in unlinked <==>
              i < |records| && records[i].pgid.Some? && records[i].pgid.value > 1 && records[i].pgid.value != ownGroup
    ensures AllUnverifiable(k.hist, old(k.Now()), unlinked - Recorded(targets), records, members)
  {
    ghost var from := k.Now();
    var collected, discarded, verified := CollectTargets(k, records, members, ownGroup);
    targets, incs, unlinked := collected, verified, discarded;
    termed, killed, attempts := [], [], [];
    ghost var seen := k.hist;
    if collected != [] {
      termed, killed, attempts := TermThenKill(k, collected, incs, records, ownGroup);
      unlinked := Unlink(collected, discarded);
    }
    UnverifiableExtends(seen, k.hist, from, discarded, records, members);
    AllPinStayersLater(seen, k.hist, from, targets, members);
    forall i: nat | Held(k.hist, from, records, members, ownGroup, i)
      ensures Served(k.hist, from, records, targets, attempts, termed, killed, i)
    {
      HeldIsServed(k.hist, from, |seen| - 1, records, members, ownGroup, targets, incs, discarded, attempts, termed,
          killed, i);
    }
  }
}
