/**
 * Cross-tick admission of heartbeat shards (worker/relay_thread_limiter.py, worker/relay_shards.py):
 * a semaphore shared by all ticks and a rotation cursor keyed by lease identity.
 */
module ShardAdmission {

  datatype Lease = Lease(executionId: string, leaseId: string)

  type Shard = seq<Lease>

  const RELAY_BEAT_SHARD: nat := 64

  function Chunks(leases: seq<Lease>): seq<Shard> {
    if leases == [] then []
    else if |leases| <= RELAY_BEAT_SHARD then [leases]
    else [leases[..RELAY_BEAT_SHARD]] + Chunks(leases[RELAY_BEAT_SHARD..])
  }

  function Flat(shards: seq<Shard>): seq<Lease> {
    if shards == [] then [] else shards[0] + Flat(shards[1..])
  }

  function Rotated<T>(s: seq<T>, r: nat): seq<T>
    requires r <= |s|
  {
    s[r..] + s[..r]
  }

  /** The index of the shard that holds `lease`; of the last one, should several do. */
  function ShardOf(lease: Lease, shards: seq<Shard>): (i: int)
    ensures -1 <= i < |shards|
    ensures i != -1 ==> lease in shards[i]
    ensures i == -1 ==> forall j :: 0 <= j < |shards| ==> lease !in shards[j]
    ensures forall j :: i < j < |shards| ==> lease !in shards[j]
  {
    if shards == [] then -1
    else if lease in shards[|shards| - 1] then |shards| - 1
    else ShardOf(lease, shards[..|shards| - 1])
  }

  /** The first anchor that still has a shard. */
  function FirstLive(anchors: seq<Lease>, shards: seq<Shard>): (i: nat)
    ensures i <= |anchors|
    ensures i < |anchors| ==> ShardOf(anchors[i], shards) != -1
    ensures forall j :: 0 <= j < i ==> ShardOf(anchors[j], shards) == -1
  {
    if anchors == [] || ShardOf(anchors[0], shards) != -1 then 0
    else 1 + FirstLive(anchors[1..], shards)
  }

  /** The shard index the next tick starts from. */
  function Rotation(anchors: seq<Lease>, shards: seq<Shard>): (r: nat)
    ensures shards == [] ==> r == 0
    ensures shards != [] ==> r < |shards|
  {
    var i := FirstLive(anchors, shards);
    if |shards| < 2 || i == |anchors| then 0 else ShardOf(anchors[i], shards)
  }

  /** The order in which one tick visits the shards of a snapshot. */
  function AdmissionOrder(leases: seq<Lease>, anchors: seq<Lease>): seq<Shard> {
    var shards := Chunks(leases);
    Rotated(shards, Rotation(anchors, shards))
  }

  /** The leases of the shards that were not started, in admission order. */
  function Skipped(order: seq<Shard>, started: seq<bool>): seq<Lease>
    requires |started| == |order|
  {
    if order == [] then []
    else
      var last := |order| - 1;
      Skipped(order[..last], started[..last]) + (if started[last] then [] else order[last])
  }

  /**
   * The cursor after a tick that got through `started` of its shards: all of them, or those before a
   * thread that could not be started. A snapshot of at most one shard does not consume the old anchors.
   */
  function AnchorsAfter(leases: seq<Lease>, anchors: seq<Lease>, started: seq<bool>): seq<Lease>
    requires |started| <= |Chunks(leases)|
  {
    (if |Chunks(leases)| > 1 then [] else anchors) + Skipped(AdmissionOrder(leases, anchors)[..|started|], started)
  }

  /** The request threads that one tick starts carry these leases. */
  ghost predicate Admitted(lease: Lease, leases: seq<Lease>, anchors: seq<Lease>, started: seq<bool>)
    requires |started| <= |Chunks(leases)|
  {
    exists j :: 0 <= j < |started| && started[j] && lease in AdmissionOrder(leases, anchors)[j]
  }

  lemma ShardOfSnoc(lease: Lease, shards: seq<Shard>, i: nat)
    requires i < |shards|
    ensures ShardOf(lease, shards[..i + 1]) == if lease in shards[i] then i else ShardOf(lease, shards[..i])
  {
    assert shards[..i + 1][..i] == shards[..i];
  }

  lemma {:induction false} FirstLiveIs(anchors: seq<Lease>, shards: seq<Shard>, i: nat)
    requires i <= |anchors|
    requires forall j :: 0 <= j < i ==> ShardOf(anchors[j], shards) == -1
    requires i < |anchors| ==> ShardOf(anchors[i], shards) != -1
    ensures FirstLive(anchors, shards) == i
  {
    if i > 0 {
      forall j | 0 <= j < i - 1 ensures ShardOf(anchors[1..][j], shards) == -1 {
        assert anchors[1..][j] == anchors[j + 1];
      }
      FirstLiveIs(anchors[1..], shards, i - 1);
    }
  }

  lemma SkippedSnoc(order: seq<Shard>, k: nat, started: seq<bool>, admitted: bool)
    requires |started| == k < |order|
    ensures Skipped(order[..k + 1], started + [admitted]) ==
            Skipped(order[..k], started) + (if admitted then [] else order[k])
  {
    assert order[..k + 1][..k] == order[..k];
    assert (started + [admitted])[..k] == started;
  }

  /** A request thread runs, no slot is free, or the thread could not be started and that is raised. */
  datatype Admission = Started | Full | Failed

  /** How many of a tick's shards got a request thread. */
  function StartedCount(started: seq<bool>): (n: nat)
    ensures n <= |started|
  {
    if started == [] then 0
    else StartedCount(started[..|started| - 1]) + (if started[|started| - 1] then 1 else 0)
  }

  /** The `k`-th shard was started, or at least `free` shards before it were. */
  ghost predicate StartedOrSpent(started: seq<bool>, k: nat, free: nat) {
    k < |started| && StartedCount(started[..k]) < free ==> started[k]
  }

  /** A shard is skipped only after as many were started as `free`. */
  ghost predicate StartsWhileFree(started: seq<bool>, free: nat) {
    forall k: nat :: StartedOrSpent(started, k, free)
  }

  lemma StartsWhileFreeSnoc(started: seq<bool>, free: nat, admitted: bool)
    requires StartsWhileFree(started, free) && (StartedCount(started) < free ==> admitted)
    ensures StartsWhileFree(started + [admitted], free)
    ensures StartedCount(started + [admitted]) == StartedCount(started) + (if admitted then 1 else 0)
  {
    var all := started + [admitted];
    assert all[..|started|] == started;
    forall k: nat ensures StartedOrSpent(all, k, free) {
      assert k < |started| ==> all[..k] == started[..k] && StartedOrSpent(started, k, free);
    }
  }

  /** With at least as many free slots as shards tried, none is skipped. */
  lemma EnoughSlots(started: seq<bool>, free: nat)
    requires StartsWhileFree(started, free) && |started| <= free
    ensures forall k :: 0 <= k < |started| ==> started[k]
  {
    forall k | 0 <= k < |started| ensures started[k] {
      assert StartedOrSpent(started, k, free);
    }
  }

  class ShardThreadLimiter {
    const maxInflight: nat
    var free: nat
    var skippedAnchors: seq<Lease>
    ghost var launched: nat
    ghost var exited: nat

    /** Each slot is free or held by one request thread that was started and has not exited. */
    ghost predicate Valid()
      reads this
    {
      exited <= launched && free + (launched - exited) == maxInflight
    }

    constructor (maxInflight: nat)
      ensures Valid() && free == maxInflight && this.maxInflight == maxInflight && skippedAnchors == []
      ensures launched == exited == 0
    {
      this.maxInflight := maxInflight;
      free := maxInflight;
      skippedAnchors := [];
      launched, exited := 0, 0;
    }

    method NoteSkip(shard: Shard)
      modifies this`skippedAnchors
      ensures skippedAnchors == old(skippedAnchors) + shard
    {
      skippedAnchors := skippedAnchors + shard;
    }

    /** Resolve the first live skipped lease in the fresh snapshot; anchors are consumed once. */
    method TakeRotation(shards: seq<Shard>) returns (rotation: nat)
      modifies this`skippedAnchors
      ensures skippedAnchors == [] && rotation == Rotation(old(skippedAnchors), shards)
    {
      var anchors := skippedAnchors;
      skippedAnchors := [];
      if anchors == [] || |shards| < 2 {
        return 0;
      }
      var shardByLease := IndexShards(shards);
      for i := 0 to |anchors|
        invariant forall j :: 0 <= j < i ==> ShardOf(anchors[j], shards) == -1
      {
        if anchors[i] in shardByLease {
          FirstLiveIs(anchors, shards, i);
          return shardByLease[anchors[i]];
        }
      }
      FirstLiveIs(anchors, shards, |anchors|);
      return 0;
    }

    /**
     * Non-blocking acquire; the slot is given back by `Exit`, or at once if the thread cannot be
     * started. `spawns` says whether it can.
     */
    method Start(spawns: bool) returns (outcome: Admission)
      requires Valid()
      modifies this`free, this`launched
      ensures Valid() && outcome == if old(free) == 0 then Full else if spawns then Started else Failed
      ensures free == if outcome.Started? then old(free) - 1 else old(free)
      ensures launched == if outcome.Started? then old(launched) + 1 else old(launched)
    {
      if free == 0 {
        return Full;
      }
      free := free - 1;
      if !spawns {
        free := free + 1;
        return Failed;
      }
      launched := launched + 1;
      outcome := Started;
    }

    /** Any number of request threads, of this tick or of earlier ones, really exit. */
    method Exit()
      requires Valid()
      modifies this`free, this`exited
      ensures Valid() && free >= old(free)
    {
      var returned: nat :| returned <= maxInflight - free;
      free := free + returned;
      exited := exited + returned;
    }
  }

  /** The lookup table of `take_rotation`. */
  method IndexShards(shards: seq<Shard>) returns (shardByLease: map<Lease, nat>)
    ensures forall lease :: lease in shardByLease <==> ShardOf(lease, shards) != -1
    ensures forall lease :: lease in shardByLease ==> shardByLease[lease] == ShardOf(lease, shards)
  {
    shardByLease := map[];
    for i := 0 to |shards|
      invariant forall lease :: lease in shardByLease <==> ShardOf(lease, shards[..i]) != -1
      invariant forall lease :: lease in shardByLease ==> shardByLease[lease] == ShardOf(lease, shards[..i])
    {
      forall lease: Lease {
        ShardOfSnoc(lease, shards, i);
      }
      shardByLease := shardByLease + (map lease | lease in shards[i] :: i);
    }
    assert shards[..|shards|] == shards;
  }

  /** One shard's turn: request threads may exit first, and a shard without a slot is noted. */
  method TryShard(shard: Shard, limiter: ShardThreadLimiter, spawns: bool) returns (outcome: Admission)
    requires limiter.Valid()
    modifies limiter
    ensures limiter.Valid()
    ensures limiter.skippedAnchors == old(limiter.skippedAnchors) + (if outcome.Full? then shard else [])
    ensures outcome.Full? ==> old(limiter.free) == 0
    ensures outcome.Started? ==> spawns
    ensures outcome.Failed? ==> !spawns
    ensures limiter.free >= old(limiter.free) - (if outcome.Started? then 1 else 0)
    ensures limiter.launched == old(limiter.launched) + (if outcome.Started? then 1 else 0)
  {
    limiter.Exit();
    outcome := limiter.Start(spawns);
    if outcome.Full? {
      limiter.NoteSkip(shard);
    }
  }

  /**
   * The start loop of `beat_sharded`; request threads may exit at any moment, and a thread that
   * cannot be started ends the tick. `spawns(k)` says whether the `k`-th can. A shard is skipped only
   * when every slot that was free at the start has been taken by a shard before it.
   */
  method StartShards(order: seq<Shard>, limiter: ShardThreadLimiter, spawns: nat -> bool)
    returns (started: seq<bool>, raised: bool)
    requires limiter.Valid()
    modifies limiter
    ensures limiter.Valid() && |started| <= |order| && (raised <==> |started| < |order|)
    ensures raised ==> !spawns(|started|)
    ensures limiter.skippedAnchors == old(limiter.skippedAnchors) + Skipped(order[..|started|], started)
    ensures StartsWhileFree(started, old(limiter.free))
    ensures limiter.launched == old(limiter.launched) + StartedCount(started)
    ensures forall k :: 0 <= k < |started| && started[k] ==> spawns(k)
  {
    started := [];
    ghost var skipped: seq<Lease> := [];
    ghost var count := 0;
    for k := 0 to |order|
      invariant limiter.Valid() && |started| == k
      invariant skipped == Skipped(order[..k], started)
      invariant limiter.skippedAnchors == old(limiter.skippedAnchors) + skipped
      invariant StartsWhileFree(started, old(limiter.free))
      invariant count == StartedCount(started)
      invariant limiter.free + count >= old(limiter.free)
      invariant limiter.launched == old(limiter.launched) + count
      invariant forall i :: 0 <= i < k && started[i] ==> spawns(i)
    {
      var outcome := TryShard(order[k], limiter, spawns(k));
      if outcome.Failed? {
        return started, true;
      }
      SkippedSnoc(order, k, started, outcome.Started?);
      StartsWhileFreeSnoc(started, old(limiter.free), outcome.Started?);
      skipped := skipped + (if outcome.Started? then [] else order[k]);
      count := count + (if outcome.Started? then 1 else 0);
      started := started + [outcome.Started?];
    }
    raised := false;
  }

  /**
   * The admission half of `beat_sharded`: chunk the snapshot, rotate to the cursor, and start what
   * the semaphore lets start.
   */
  method AdmitShards(leases: seq<Lease>, limiter: ShardThreadLimiter, spawns: nat -> bool)
    returns (started: seq<bool>, raised: bool)
    requires limiter.Valid()
    modifies limiter
    ensures limiter.Valid()
    ensures |started| <= |Chunks(leases)| && (raised <==> |started| < |Chunks(leases)|)
    ensures raised ==> !spawns(|started|)
    ensures limiter.skippedAnchors == AnchorsAfter(leases, old(limiter.skippedAnchors), started)
    ensures StartsWhileFree(started, old(limiter.free))
    ensures limiter.launched == old(limiter.launched) + StartedCount(started)
    ensures forall k :: 0 <= k < |started| && started[k] ==> spawns(k)
  {
    var shards := Chunks(leases);
    if |shards| > 1 {
      var rotation := limiter.TakeRotation(shards);
      shards := shards[rotation..] + shards[..rotation];
    }
    assert shards == AdmissionOrder(leases, old(limiter.skippedAnchors));
    started, raised := StartShards(shards, limiter, spawns);
  }
}
