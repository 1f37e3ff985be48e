/** Merging the verdicts of one sharded beat (worker/relay_shards.py, `beat_sharded` after admission). */
module ShardVerdicts {
  import opened ShardAdmission

  /** What one admitted shard's request came back with. */
  datatype Answer =
    | Fails(unauthorized: bool)
    | EndpointMissing
    | Verdict(lost: set<string>, settled: set<string>, cancelled: seq<string>)

  /** The outcome of the round; at most one of the three carries anything. */
  datatype ShardedBeat =
    | Learned(lost: seq<Lease>, settled: seq<string>, cancelled: seq<string>)
    | Nothing
    | Degraded
    | Unauthorized

  function Flagged(chunk: Shard, ids: set<string>): seq<Lease> {
    if chunk == [] then []
    else
      var rest := Flagged(chunk[..|chunk| - 1], ids);
      if chunk[|chunk| - 1].executionId in ids then rest + [chunk[|chunk| - 1]] else rest
  }

  function Ids(chunk: Shard): seq<string> {
    seq(|chunk|, i requires 0 <= i < |chunk| => chunk[i].executionId)
  }

  lemma {:induction false} FlaggedHolds(chunk: Shard, ids: set<string>)
    ensures forall l :: l in Flagged(chunk, ids) <==> l in chunk && l.executionId in ids
  {
    if chunk != [] {
      FlaggedHolds(chunk[..|chunk| - 1], ids);
      assert chunk == chunk[..|chunk| - 1] + [chunk[|chunk| - 1]];
    }
  }

  /** Each flagged lease as often as the shard holds it. */
  lemma {:induction false} FlaggedCounts(chunk: Shard, ids: set<string>, l: Lease)
    ensures multiset(Flagged(chunk, ids))[l] == if l.executionId in ids then multiset(chunk)[l] else 0
  {
    if chunk != [] {
      FlaggedCounts(chunk[..|chunk| - 1], ids, l);
      assert chunk == chunk[..|chunk| - 1] + [chunk[|chunk| - 1]];
    }
  }

  /** One shard's part of the merged lists. */
  datatype Part = Part(lost: seq<Lease>, settled: seq<string>, cancelled: seq<string>)

  function PartOf(chunk: Shard, answer: Answer): Part {
    match answer
    case Verdict(lost, settled, cancelled) => Part(Flagged(chunk, lost), Ids(Flagged(chunk, settled)), cancelled)
    case _ => Part([], [], [])
  }

  function Plus(a: Part, b: Part): Part {
    Part(a.lost + b.lost, a.settled + b.settled, a.cancelled + b.cancelled)
  }

  /** A shard whose request returned before the shared deadline. */
  datatype Beat = Beat(chunk: Shard, answer: Answer)

  /** The parts in completion order. */
  function Merged(done: seq<Beat>): Part {
    if done == [] then Part([], [], [])
    else
      var last := done[|done| - 1];
      Plus(Merged(done[..|done| - 1]), PartOf(last.chunk, last.answer))
  }

  function Failures(done: seq<Beat>): nat {
    if done == [] then 0
    else Failures(done[..|done| - 1]) + if done[|done| - 1].answer.Verdict? then 0 else 1
  }

  predicate SomeMissing(done: seq<Beat>) {
    exists i :: 0 <= i < |done| && done[i].answer.EndpointMissing?
  }

  predicate SomeUnauthorized(done: seq<Beat>) {
    exists i :: 0 <= i < |done| && done[i].answer.Fails? && done[i].answer.unauthorized
  }

  /**
   * The shards that return before the shared deadline, in completion order; skipped shards and
   * failures count, stragglers do not.
   */
  method Merge(total: nat, skipped: nat, done: seq<Beat>) returns (r: ShardedBeat)
    ensures r.Degraded? <==> SomeMissing(done)
    ensures r.Unauthorized? <==> !SomeMissing(done) && SomeUnauthorized(done)
    ensures r.Nothing? <==> !SomeMissing(done) && !SomeUnauthorized(done) && skipped + Failures(done) == total
    ensures r.Learned? ==> Part(r.lost, r.settled, r.cancelled) == Merged(done)
  {
    var failures, missing, unauthorized := skipped, false, false;
    var lost: seq<Lease>, settled: seq<string>, cancelled: seq<string> := [], [], [];
    for k := 0 to |done|
      invariant failures == skipped + Failures(done[..k])
      invariant missing <==> exists i :: 0 <= i < k && done[i].answer.EndpointMissing?
      invariant unauthorized <==> exists i :: 0 <= i < k && done[i].answer.Fails? && done[i].answer.unauthorized
      invariant Part(lost, settled, cancelled) == Merged(done[..k])
    {
      assert done[..k + 1][..k] == done[..k];
      match done[k].answer {
        case Fails(denied) =>
          failures, unauthorized := failures + 1, unauthorized || denied;
        case EndpointMissing =>
          failures, missing := failures + 1, true;
        case Verdict(lostIds, settledIds, cancelledIds) =>
          lost := lost + Flagged(done[k].chunk, lostIds);
          settled := settled + Ids(Flagged(done[k].chunk, settledIds));
          cancelled := cancelled + cancelledIds;
      }
    }
    assert done[..|done|] == done;
    if missing {
      return Degraded;
    }
    if unauthorized {
      return Unauthorized;
    }
    if failures == total {
      return Nothing;
    }
    r := Learned(lost, settled, cancelled);
  }

  /** A lease is reported lost exactly if a shard that holds it answered in time and named it. */
  lemma {:induction false} LostIff(done: seq<Beat>, lease: Lease)
    ensures lease in Merged(done).lost <==>
            exists i :: 0 <= i < |done| && NamesLost(done[i], lease)
  {
    if done != [] {
      var init, last := done[..|done| - 1], done[|done| - 1];
      LostIff(init, lease);
      if last.answer.Verdict? {
        FlaggedHolds(last.chunk, last.answer.lost);
      }
      assert forall i :: 0 <= i < |init| ==> init[i] == done[i];
    }
  }

  /** An execution is reported settled exactly if a shard that holds a lease of it answered in time and named it. */
  lemma {:induction false} SettledIff(done: seq<Beat>, id: string)
    ensures id in Merged(done).settled <==> exists i :: 0 <= i < |done| && NamesSettled(done[i], id)
  {
    if done != [] {
      var init, last := done[..|done| - 1], done[|done| - 1];
      SettledIff(init, id);
      if last.answer.Verdict? {
        SettledOfOne(last.chunk, last.answer.settled, id);
      }
      assert forall i :: 0 <= i < |init| ==> init[i] == done[i];
    }
  }

  predicate NamesSettled(beat: Beat, id: string) {
    && beat.answer.Verdict? && id in beat.answer.settled
    && exists k :: 0 <= k < |beat.chunk| && beat.chunk[k].executionId == id
  }

  lemma SettledOfOne(chunk: Shard, settled: set<string>, id: string)
    ensures id in Ids(Flagged(chunk, settled)) <==>
            id in settled && exists k :: 0 <= k < |chunk| && chunk[k].executionId == id
  {
    var flagged := Flagged(chunk, settled);
    FlaggedHolds(chunk, settled);
    if id in Ids(flagged) {
      var k :| 0 <= k < |flagged| && Ids(flagged)[k] == id;
      assert flagged[k] in chunk;
    }
    if id in settled {
      if k :| 0 <= k < |chunk| && chunk[k].executionId == id {
        var j :| 0 <= j < |flagged| && flagged[j] == chunk[k];
        assert Ids(flagged)[j] == id;
      }
    }
  }

  /** A cancellation is passed on exactly if some shard answered in time with it. */
  lemma {:induction false} CancelledIff(done: seq<Beat>, id: string)
    ensures id in Merged(done).cancelled <==>
            exists i :: 0 <= i < |done| && done[i].answer.Verdict? && id in done[i].answer.cancelled
  {
    if done != [] {
      var init, last := done[..|done| - 1], done[|done| - 1];
      CancelledIff(init, id);
      assert forall i :: 0 <= i < |init| ==> init[i] == done[i];
    }
  }

  /** How many shards came back without a verdict. */
  lemma {:induction false} FailuresAre(done: seq<Beat>)
    ensures Failures(done) == |set i | 0 <= i < |done| && !done[i].answer.Verdict?|
  {
    var failed := set i | 0 <= i < |done| && !done[i].answer.Verdict?;
    if done == [] {
      assert failed == {};
    } else {
      var n := |done| - 1;
      var init := done[..n];
      FailuresAre(init);
      var before := set i | 0 <= i < |init| && !init[i].answer.Verdict?;
      assert failed == before + if done[n].answer.Verdict? then {} else {n};
    }
  }

  predicate NamesLost(beat: Beat, lease: Lease) {
    beat.answer.Verdict? && lease in beat.chunk && lease.executionId in beat.answer.lost
  }

  lemma {:induction false} MergedConcat(a: seq<Beat>, b: seq<Beat>)
    ensures Merged(a + b) == Plus(Merged(a), Merged(b))
  {
    if b == [] {
      assert a + b == a;
    } else {
      var init := b[..|b| - 1];
      assert (a + b)[..|a + b| - 1] == a + init;
      MergedConcat(a, init);
      PlusAssociates(Merged(a), Merged(init), PartOf(b[|b| - 1].chunk, b[|b| - 1].answer));
    }
  }

  lemma PlusAssociates(a: Part, b: Part, c: Part)
    ensures Plus(Plus(a, b), c) == Plus(a, Plus(b, c))
  {
  }

  ghost predicate SameVerdicts(a: Part, b: Part) {
    multiset(a.lost) == multiset(b.lost) && multiset(a.settled) == multiset(b.settled)
    && multiset(a.cancelled) == multiset(b.cancelled)
  }

  /** The order in which the shards complete does not change what the round reports. */
  lemma {:induction false} CompletionOrderIsImmaterial(done: seq<Beat>, done': seq<Beat>)
    requires multiset(done) == multiset(done')
    ensures SameVerdicts(Merged(done), Merged(done'))
    decreases |done|
  {
    assert |done| == |multiset(done)| == |multiset(done')| == |done'|;
    if done != [] {
      var init, last := done[..|done| - 1], done[|done| - 1];
      assert done == init + [last];
      assert last in multiset(done');
      var k :| 0 <= k < |done'| && done'[k] == last;
      var a, b := done'[..k], done'[k + 1..];
      TakenOut(done', k);
      TakenOut(done, |done| - 1);
      assert init + done[|done|..] == init;
      CompletionOrderIsImmaterial(init, a + b);
      MovedToTheEnd(a, last, b);
    }
  }

  lemma TakenOut(s: seq<Beat>, k: nat)
    requires k < |s|
    ensures s == s[..k] + [s[k]] + s[k + 1..]
    ensures multiset(s[..k] + s[k + 1..]) == multiset(s) - multiset{s[k]}
  {
    assert s == s[..k] + [s[k]] + s[k + 1..];
  }

  lemma MovedToTheEnd(a: seq<Beat>, last: Beat, b: seq<Beat>)
    ensures SameVerdicts(Merged(a + [last] + b), Plus(Merged(a + b), PartOf(last.chunk, last.answer)))
  {
    MergedConcat(a, b);
    assert (a + [last])[..|a|] == a;
    MergedConcat(a + [last], b);
  }

  /** When every shard that was started is still out at the deadline, the round reports empty verdicts, not none. */
  method OnlyStragglers(total: nat, skipped: nat) returns (r: ShardedBeat)
    requires skipped < total
    ensures r == Learned([], [], [])
  {
    r := Merge(total, skipped, []);
  }
}
