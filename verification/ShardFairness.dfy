/**
 * Starvation becomes round-robin delay (worker/relay_shards.py, `beat_sharded`): a lease that stays
 * in the snapshot is admitted within as many ticks as the snapshot has leases, although every tick
 * re-chunks what pruning left and any start but the first may find no slot. A tick may even be cut
 * short by a thread that cannot be started, as long as a lease it had skipped stays in the snapshot.
 */
module ShardFairness {
  import opened ShardAdmission

  ghost predicate Distinct<T>(s: seq<T>) {
    forall i, j :: 0 <= i < j < |s| ==> s[i] != s[j]
  }

  function Pos<T(==)>(s: seq<T>, x: T): (i: nat)
    requires x in s
    ensures i < |s| && s[i] == x
    ensures x !in s[..i]
  {
    if s[0] == x then 0 else
      assert s == [s[0]] + s[1..];
      var i := 1 + Pos(s[1..], x);
      assert s[..i] == [s[0]] + s[1..][..i - 1];
      i
  }

  lemma PosOfIndex<T>(s: seq<T>, i: nat)
    requires Distinct(s) && i < |s|
    ensures Pos(s, s[i]) == i
  {
  }

  lemma PosAppend<T>(a: seq<T>, b: seq<T>, x: T)
    requires Distinct(a + b) && x in a + b
    ensures x in a ==> x !in b && Pos(a + b, x) == Pos(a, x)
    ensures x !in a ==> x in b && Pos(a + b, x) == |a| + Pos(b, x)
  {
    if x in a {
      assert (a + b)[Pos(a, x)] == x;
      if x in b {
        assert (a + b)[|a| + Pos(b, x)] == x;
      }
    } else {
      assert (a + b)[|a| + Pos(b, x)] == x;
    }
  }

  lemma DistinctParts<T>(a: seq<T>, b: seq<T>)
    requires Distinct(a + b)
    ensures Distinct(a) && Distinct(b)
  {
    forall i, j | 0 <= i < j < |a| ensures a[i] != a[j] {
      assert (a + b)[i] != (a + b)[j];
    }
    forall i, j | 0 <= i < j < |b| ensures b[i] != b[j] {
      assert (a + b)[|a| + i] != (a + b)[|a| + j];
    }
  }

  /** `s` is what is left of `l` after pruning: same order, no duplicates. */
  ghost predicate PrunedFrom<T>(s: seq<T>, l: seq<T>) {
    && (forall x :: x in s ==> x in l)
    && (forall i, j :: 0 <= i < j < |s| ==> Pos(l, s[i]) < Pos(l, s[j]))
  }

  // ----- Chunks and rotation keep the leases -----

  lemma {:induction false} FlatAppend(a: seq<Shard>, b: seq<Shard>)
    ensures Flat(a + b) == Flat(a) + Flat(b)
  {
    if a == [] {
      assert a + b == b;
    } else {
      assert (a + b)[1..] == a[1..] + b;
      FlatAppend(a[1..], b);
    }
  }

  lemma {:induction false} FlatChunks(leases: seq<Lease>)
    ensures Flat(Chunks(leases)) == leases
    ensures leases != [] <==> Chunks(leases) != []
    ensures forall shard :: shard in Chunks(leases) ==> 1 <= |shard| <= RELAY_BEAT_SHARD
  {
    if |leases| > RELAY_BEAT_SHARD {
      FlatChunks(leases[RELAY_BEAT_SHARD..]);
    } else if leases != [] {
      assert Flat([leases]) == leases + Flat([]);
    }
  }

  /** Every chunk but the last is full, and the `i`-th starts where `i` full ones end. */
  lemma {:induction false} ChunksAt(leases: seq<Lease>, i: nat)
    requires i < |Chunks(leases)|
    ensures RELAY_BEAT_SHARD * i < |leases|
    ensures i < |Chunks(leases)| - 1 <==> RELAY_BEAT_SHARD * (i + 1) < |leases|
    ensures var end := if i < |Chunks(leases)| - 1 then RELAY_BEAT_SHARD * (i + 1) else |leases|;
            Chunks(leases)[i] == leases[RELAY_BEAT_SHARD * i..end]
  {
    if |leases| > RELAY_BEAT_SHARD && i > 0 {
      var rest := leases[RELAY_BEAT_SHARD..];
      assert Chunks(leases)[i] == Chunks(rest)[i - 1];
      ChunksAt(rest, i - 1);
      var end := if i < |Chunks(leases)| - 1 then RELAY_BEAT_SHARD * i else |rest|;
      assert rest[RELAY_BEAT_SHARD * (i - 1)..end] == leases[RELAY_BEAT_SHARD * i..end + RELAY_BEAT_SHARD];
    } else if |leases| > RELAY_BEAT_SHARD {
      FlatChunks(leases[RELAY_BEAT_SHARD..]);
    }
  }

  lemma {:induction false} InFlat(shards: seq<Shard>, x: Lease)
    ensures x in Flat(shards) <==> exists j :: 0 <= j < |shards| && x in shards[j]
  {
    if shards != [] {
      InFlat(shards[1..], x);
      if x in Flat(shards[1..]) {
        var j :| 0 <= j < |shards| - 1 && x in shards[1..][j];
        assert x in shards[j + 1];
      }
      if j :| 0 <= j < |shards| && x in shards[j] && j > 0 {
        assert x in shards[1..][j - 1];
      }
    }
  }

  /** One tick visits the snapshot rotated at some lease. */
  lemma OrderIsRotation(leases: seq<Lease>, anchors: seq<Lease>) returns (k: nat)
    ensures k <= |leases| && Flat(AdmissionOrder(leases, anchors)) == Rotated(leases, k)
  {
    var shards := Chunks(leases);
    var r := Rotation(anchors, shards);
    FlatChunks(leases);
    assert shards == shards[..r] + shards[r..];
    FlatAppend(shards[..r], shards[r..]);
    FlatAppend(shards[r..], shards[..r]);
    k := |Flat(shards[..r])|;
  }

  lemma RotatedDistinct<T>(l: seq<T>, k: nat)
    requires Distinct(l) && k <= |l|
    ensures Distinct(Rotated(l, k))
    ensures forall x :: x in l <==> x in Rotated(l, k)
  {
    assert l == l[..k] + l[k..];
    var r := Rotated(l, k);
    forall i, j | 0 <= i < j < |r| ensures r[i] != r[j] {
      var p, q := (if i < |l| - k then i + k else i - (|l| - k)), (if j < |l| - k then j + k else j - (|l| - k));
      assert r[i] == l[p] && r[j] == l[q];
    }
  }

  lemma PosRotated<T>(l: seq<T>, k: nat, x: T)
    requires Distinct(l) && k <= |l| && x in l
    ensures x in Rotated(l, k)
    ensures Pos(Rotated(l, k), x) == if Pos(l, x) >= k then Pos(l, x) - k else Pos(l, x) + |l| - k
  {
    RotatedDistinct(l, k);
    RotatedAt(l, k, Pos(l, x));
    PosOfIndex(Rotated(l, k), RotatedIndex(|l|, k, Pos(l, x)));
  }

  function RotatedIndex(n: nat, k: nat, p: nat): nat
    requires k <= n && p < n
  {
    if p >= k then p - k else p + n - k
  }

  lemma RotatedAt<T>(l: seq<T>, k: nat, p: nat)
    requires k <= |l| && p < |l|
    ensures RotatedIndex(|l|, k, p) < |Rotated(l, k)| && Rotated(l, k)[RotatedIndex(|l|, k, p)] == l[p]
  {
  }

  // ----- What a tick skips -----

  lemma {:induction false} SkippedHolds(order: seq<Shard>, started: seq<bool>, x: Lease)
    requires |started| == |order|
    ensures x in Skipped(order, started) <==> exists j :: 0 <= j < |order| && !started[j] && x in order[j]
  {
    if order != [] {
      var last := |order| - 1;
      SkippedHolds(order[..last], started[..last], x);
      assert forall j :: 0 <= j < last ==> order[..last][j] == order[j] && started[..last][j] == started[j];
    }
  }

  /** The skipped leases keep the admission order. */
  lemma {:induction false} SkippedInOrder(order: seq<Shard>, started: seq<bool>)
    requires |started| == |order| && Distinct(Flat(order))
    ensures PrunedFrom(Skipped(order, started), Flat(order))
  {
    if order != [] {
      var last := |order| - 1;
      var front, shard, before := Flat(order[..last]), order[last], Skipped(order[..last], started[..last]);
      assert order == order[..last] + [shard];
      FlatAppend(order[..last], [shard]);
      assert Flat([shard]) == shard + Flat([]) == shard;
      DistinctParts(front, shard);
      SkippedInOrder(order[..last], started[..last]);
      AppendInOrder(before, front, shard, started[last]);
    }
  }

  lemma AppendInOrder(before: seq<Lease>, front: seq<Lease>, shard: Shard, admitted: bool)
    requires PrunedFrom(before, front) && Distinct(front + shard)
    ensures PrunedFrom(before + (if admitted then [] else shard), front + shard)
  {
    var s := before + (if admitted then [] else shard);
    DistinctParts(front, shard);
    forall i, j | 0 <= i < j < |s| ensures Pos(front + shard, s[i]) < Pos(front + shard, s[j]) {
      PosAppend(front, shard, s[i]);
      PosAppend(front, shard, s[j]);
      if i >= |before| {
        PosOfIndex(shard, i - |before|);
        PosOfIndex(shard, j - |before|);
      } else if j >= |before| {
        PosOfIndex(shard, j - |before|);
      }
    }
  }

  // ----- The measure: the leases cyclically between the cursor and the target -----

  ghost predicate Between(a: int, p: int, b: int) {
    if a <= b then a < p <= b else p > a || p <= b
  }

  /** The leases after `h`, up to and including `t`, in cyclic snapshot order. */
  ghost function Arc(l: seq<Lease>, h: Lease, t: Lease): set<Lease>
    requires h in l && t in l
  {
    set x | x in l && Between(Pos(l, h), Pos(l, x), Pos(l, t))
  }

  /** The lease the next tick's rotation is resolved to. */
  ghost function Head(leases: seq<Lease>, anchors: seq<Lease>): (h: Lease)
    requires leases != []
    ensures h in leases
  {
    var shards := Chunks(leases);
    var i := FirstLive(anchors, shards);
    if i == |anchors| then leases[0] else
      assert anchors[i] in leases by {
        FlatChunks(leases);
        InFlat(shards, anchors[i]);
      }
      anchors[i]
  }

  /** The cursor's lease is in the first shard the tick visits. */
  lemma HeadIsVisitedFirst(leases: seq<Lease>, anchors: seq<Lease>)
    requires Distinct(leases) && |Chunks(leases)| > 1
    ensures Head(leases, anchors) in AdmissionOrder(leases, anchors)[0]
  {
    var shards := Chunks(leases);
    assert AdmissionOrder(leases, anchors)[0] == shards[Rotation(anchors, shards)];
    if FirstLive(anchors, shards) == |anchors| {
      assert shards[0] == leases[..RELAY_BEAT_SHARD];
    }
  }

  /** Ticks left, at most, until `t` is in the first shard. */
  ghost function Delay(leases: seq<Lease>, anchors: seq<Lease>, t: Lease): nat
    requires t in leases
  {
    if |Chunks(leases)| <= 1 then 0 else |Arc(leases, Head(leases, anchors), t)|
  }

  /** In a rotation that starts at or before `h`, the arc is a plain interval. */
  lemma ArcInRotation(l: seq<Lease>, k: nat, h: Lease, t: Lease, x: Lease)
    requires Distinct(l) && k <= |l| && h in l && t in l && x in l
    requires h in Rotated(l, k) && t in Rotated(l, k) && x in Rotated(l, k)
    requires Pos(Rotated(l, k), h) <= Pos(Rotated(l, k), t)
    ensures x in Arc(l, h, t) <==> Pos(Rotated(l, k), h) < Pos(Rotated(l, k), x) <= Pos(Rotated(l, k), t)
  {
    PosRotated(l, k, h);
    PosRotated(l, k, t);
    PosRotated(l, k, x);
  }

  /** Pruning keeps the relative order of what stays. */
  lemma PrunedPositions(s: seq<Lease>, l: seq<Lease>, x: Lease, y: Lease)
    requires PrunedFrom(s, l) && x in s && y in s
    ensures Pos(s, x) < Pos(s, y) <==> Pos(l, x) < Pos(l, y)
    ensures Pos(s, x) == Pos(s, y) <==> Pos(l, x) == Pos(l, y)
  {
    assert s[Pos(s, x)] == x && s[Pos(s, y)] == y;
  }

  lemma PrunedArc(s: seq<Lease>, l: seq<Lease>, h: Lease, t: Lease)
    requires PrunedFrom(s, l) && h in s && t in s
    ensures Arc(s, h, t) <= Arc(l, h, t)
  {
    forall x | x in Arc(s, h, t) ensures x in Arc(l, h, t) {
      PrunedPositions(s, l, h, x);
      PrunedPositions(s, l, x, t);
      PrunedPositions(s, l, t, h);
      PrunedPositions(s, l, t, x);
      PrunedPositions(s, l, h, t);
    }
  }

  // ----- One tick -----

  lemma OrderHolds(leases: seq<Lease>, anchors: seq<Lease>)
    requires Distinct(leases)
    ensures Distinct(Flat(AdmissionOrder(leases, anchors)))
    ensures forall x :: x in leases <==> x in Flat(AdmissionOrder(leases, anchors))
  {
    var k := OrderIsRotation(leases, anchors);
    RotatedDistinct(leases, k);
  }

  lemma FlatSplits(order: seq<Shard>, n: nat)
    requires n <= |order|
    ensures Flat(order) == Flat(order[..n]) + Flat(order[n..])
  {
    assert order == order[..n] + order[n..];
    FlatAppend(order[..n], order[n..]);
  }

  /** The rotation that a tick visits, cut after the first `n` shards. */
  lemma OrderSplits(leases: seq<Lease>, anchors: seq<Lease>, n: nat)
    requires Distinct(leases) && n <= |Chunks(leases)|
    ensures var order := AdmissionOrder(leases, anchors);
            && Flat(order) == Flat(order[..n]) + Flat(order[n..]) && Distinct(Flat(order))
            && forall x :: x in leases <==> x in Flat(order)
  {
    OrderHolds(leases, anchors);
    FlatSplits(AdmissionOrder(leases, anchors), n);
  }

  lemma BeyondFirst(order: seq<Shard>, i: nat, x: Lease)
    requires Distinct(Flat(order)) && 0 < i < |order| && x in order[i]
    ensures x in Flat(order) && Pos(Flat(order), x) >= |order[0]|
  {
    assert order[1..][i - 1] == order[i];
    InFlat(order[1..], x);
    PosAppend(order[0], Flat(order[1..]), x);
  }

  /** The leases the tick has noted by the time it ends. */
  function Noted(leases: seq<Lease>, anchors: seq<Lease>, started: seq<bool>): seq<Lease>
    requires |started| <= |Chunks(leases)|
  {
    Skipped(AdmissionOrder(leases, anchors)[..|started|], started)
  }

  /** The tick's first shard is started. */
  predicate StartsFirst(leases: seq<Lease>, started: seq<bool>) {
    |started| <= |Chunks(leases)| && (leases != [] ==> started != [] && started[0])
  }

  lemma NotedBeyondFirst(leases: seq<Lease>, anchors: seq<Lease>, started: seq<bool>, x: Lease)
    requires Distinct(leases) && StartsFirst(leases, started) && x in Noted(leases, anchors, started)
    ensures var order := AdmissionOrder(leases, anchors);
            order != [] && x in Flat(order) && Pos(Flat(order), x) >= |order[0]|
  {
    var order := AdmissionOrder(leases, anchors);
    FlatChunks(leases);
    OrderSplits(leases, anchors, |started|);
    SkippedHolds(order[..|started|], started, x);
    var i :| 0 <= i < |started| && !started[i] && x in order[..|started|][i];
    BeyondFirst(order, i, x);
  }

  /** Where in the admission order a lease is that the tick has not admitted. */
  lemma NotInFirst(leases: seq<Lease>, anchors: seq<Lease>, started: seq<bool>, t: Lease) returns (j: nat)
    requires Distinct(leases) && StartsFirst(leases, started) && t in leases
    requires !Admitted(t, leases, anchors, started)
    ensures 0 < j < |Chunks(leases)| && t in AdmissionOrder(leases, anchors)[j] && (j < |started| ==> !started[j])
  {
    var order := AdmissionOrder(leases, anchors);
    OrderSplits(leases, anchors, 0);
    InFlat(order, t);
    j :| 0 <= j < |order| && t in order[j];
  }

  /** A lease the tick has not admitted was noted, or lies in the shards it did not get to. */
  /** A tick that finds a free slot for each of its shards and can start every thread admits all leases. */
  lemma EnoughSlotsAdmitAll(leases: seq<Lease>, anchors: seq<Lease>, started: seq<bool>, free: nat)
    requires StartsWhileFree(started, free) && |started| == |Chunks(leases)| <= free
    ensures forall lease :: lease in leases ==> Admitted(lease, leases, anchors, started)
  {
    EnoughSlots(started, free);
    var k := OrderIsRotation(leases, anchors);
    assert leases == leases[..k] + leases[k..];
    forall lease | lease in leases ensures Admitted(lease, leases, anchors, started) {
      InFlat(AdmissionOrder(leases, anchors), lease);
    }
  }

  lemma NotAdmitted(leases: seq<Lease>, anchors: seq<Lease>, started: seq<bool>, t: Lease)
    requires Distinct(leases) && StartsFirst(leases, started) && t in leases
    requires !Admitted(t, leases, anchors, started)
    ensures var order := AdmissionOrder(leases, anchors);
            && |Chunks(leases)| > 1 && t in Flat(order) && Pos(Flat(order), t) >= |order[0]|
            && (t in Noted(leases, anchors, started) || t in Flat(order[|started|..]))
  {
    var order, n := AdmissionOrder(leases, anchors), |started|;
    var j := NotInFirst(leases, anchors, started, t);
    OrderSplits(leases, anchors, n);
    BeyondFirst(order, j, t);
    if j < n {
      assert order[..n][j] == order[j];
      SkippedHolds(order[..n], started, t);
    } else {
      assert order[n..][j - n] == order[j];
      InFlat(order[n..], t);
    }
  }

  /** Some anchor is still in the snapshot. */
  ghost predicate Remembered(next: seq<Lease>, anchors: seq<Lease>) {
    exists x :: x in anchors && x in next
  }

  /** The rotation is resolved to an anchor exactly if one is still in the snapshot. */
  lemma FirstLiveIff(next: seq<Lease>, anchors: seq<Lease>)
    ensures FirstLive(anchors, Chunks(next)) < |anchors| <==> Remembered(next, anchors)
  {
    var shards, i := Chunks(next), FirstLive(anchors, Chunks(next));
    FlatChunks(next);
    if i < |anchors| {
      InFlat(shards, anchors[i]);
    }
    if x :| x in anchors && x in next {
      InFlat(shards, x);
      assert anchors[Pos(anchors, x)] == x;
    }
  }

  /** A noted lease comes before all that the tick did not get to. */
  lemma NotedBeforeRest(noted: seq<Lease>, front: seq<Lease>, back: seq<Lease>, h: Lease, t: Lease)
    requires PrunedFrom(noted, front) && Distinct(front + back) && h in noted && t in back
    ensures h in front + back && t in front + back && Pos(front + back, h) <= Pos(front + back, t)
  {
    PosAppend(front, back, h);
    PosAppend(front, back, t);
  }

  lemma NotedInOrder(noted: seq<Lease>, front: seq<Lease>, back: seq<Lease>, i: nat, j: nat)
    requires PrunedFrom(noted, front) && Distinct(front + back) && i <= j < |noted|
    ensures noted[i] in front + back && noted[j] in front + back
    ensures Pos(front + back, noted[i]) <= Pos(front + back, noted[j])
  {
    PosAppend(front, back, noted[i]);
    PosAppend(front, back, noted[j]);
  }

  lemma LiveNoLater(noted: seq<Lease>, next: seq<Lease>, t: Lease)
    requires t in noted && t in next
    ensures FirstLive(noted, Chunks(next)) <= Pos(noted, t)
  {
    FlatChunks(next);
    InFlat(Chunks(next), t);
  }

  /** The next cursor is a noted lease, no later in the rotation than the one not admitted. */
  lemma NextHead(noted: seq<Lease>, front: seq<Lease>, back: seq<Lease>, next: seq<Lease>, t: Lease)
    requires PrunedFrom(noted, front) && Distinct(front + back) && next != [] && Remembered(next, noted)
    requires t in next && (t in noted || t in back)
    ensures var h := Head(next, noted);
            h in noted && h in front + back && t in front + back && Pos(front + back, h) <= Pos(front + back, t)
  {
    var i := FirstLive(noted, Chunks(next));
    FirstLiveIff(next, noted);
    assert Head(next, noted) == noted[i];
    if t in noted {
      LiveNoLater(noted, next, t);
      NotedInOrder(noted, front, back, i, Pos(noted, t));
    } else {
      NotedBeforeRest(noted, front, back, noted[i], t);
    }
  }

  lemma ProperSubsetIsSmaller<T>(a: set<T>, b: set<T>)
    requires a < b
    ensures |a| < |b|
  {
    var x :| x in b && x !in a;
    SubsetIsNoLarger(a, b - {x});
  }

  lemma {:induction false} SubsetIsNoLarger<T>(a: set<T>, b: set<T>)
    requires a <= b
    ensures |a| <= |b|
  {
    if x :| x in a {
      SubsetIsNoLarger(a - {x}, b - {x});
    }
  }

  ghost function Elements<T>(s: seq<T>): set<T> {
    set x | x in s
  }

  /** Appending leases can lengthen an arc by no more than those leases. */
  lemma AppendedArc(l: seq<Lease>, newcomers: seq<Lease>, h: Lease, t: Lease)
    requires Distinct(l + newcomers) && h in l && t in l
    ensures Arc(l + newcomers, h, t) <= Arc(l, h, t) + Elements(newcomers)
  {
    forall x | x in Arc(l + newcomers, h, t) ensures x in Arc(l, h, t) + Elements(newcomers) {
      PosAppend(l, newcomers, h);
      PosAppend(l, newcomers, t);
      PosAppend(l, newcomers, x);
    }
  }

  /** Moving the cursor forward within the rotation shrinks the arc. */
  lemma CloserCursor(leases: seq<Lease>, k: nat, h: Lease, h': Lease, t: Lease)
    requires Distinct(leases) && k <= |leases| && h in leases && h' in leases && t in leases
    requires h in Rotated(leases, k) && h' in Rotated(leases, k) && t in Rotated(leases, k)
    requires Pos(Rotated(leases, k), h) < Pos(Rotated(leases, k), h') <= Pos(Rotated(leases, k), t)
    ensures Arc(leases, h', t) < Arc(leases, h, t)
  {
    forall x | x in Arc(leases, h', t) ensures x in Arc(leases, h, t) {
      PosRotated(leases, k, x);
      ArcInRotation(leases, k, h', t, x);
      ArcInRotation(leases, k, h, t, x);
    }
    ArcInRotation(leases, k, h, t, h');
    assert h' !in Arc(leases, h', t);
  }

  /** The cursor, and everything skipped, in the coordinates of the tick's rotation. */
  lemma HeadBeforeSkipped(leases: seq<Lease>, anchors: seq<Lease>, x: Lease)
    requires Distinct(leases) && |Chunks(leases)| > 1
    requires x in Flat(AdmissionOrder(leases, anchors))
    requires Pos(Flat(AdmissionOrder(leases, anchors)), x) >= |AdmissionOrder(leases, anchors)[0]|
    ensures var h, flat := Head(leases, anchors), Flat(AdmissionOrder(leases, anchors));
            h in flat && Pos(flat, h) < Pos(flat, x)
  {
    var order := AdmissionOrder(leases, anchors);
    var k := OrderIsRotation(leases, anchors);
    RotatedDistinct(leases, k);
    HeadIsVisitedFirst(leases, anchors);
    assert Flat(order) == order[0] + Flat(order[1..]);
    PosAppend(order[0], Flat(order[1..]), Head(leases, anchors));
  }

  lemma NotAdmittedIsInArc(leases: seq<Lease>, anchors: seq<Lease>, started: seq<bool>, t: Lease)
    requires Distinct(leases) && StartsFirst(leases, started) && t in leases
    requires !Admitted(t, leases, anchors, started)
    ensures t in Arc(leases, Head(leases, anchors), t)
  {
    var k := OrderIsRotation(leases, anchors);
    NotAdmitted(leases, anchors, started, t);
    HeadBeforeSkipped(leases, anchors, t);
    ArcInRotation(leases, k, Head(leases, anchors), t, t);
  }

  lemma NextHeadIsCloser(leases: seq<Lease>, anchors: seq<Lease>, started: seq<bool>, next: seq<Lease>, t: Lease)
    requires Distinct(leases) && StartsFirst(leases, started) && t in leases && t in next
    requires !Admitted(t, leases, anchors, started) && Remembered(next, Noted(leases, anchors, started))
    ensures var h := Head(next, Noted(leases, anchors, started));
            h in leases && Arc(leases, h, t) < Arc(leases, Head(leases, anchors), t)
  {
    var order, n, noted := AdmissionOrder(leases, anchors), |started|, Noted(leases, anchors, started);
    var k := OrderIsRotation(leases, anchors);
    NotAdmitted(leases, anchors, started, t);
    OrderSplits(leases, anchors, n);
    DistinctParts(Flat(order[..n]), Flat(order[n..]));
    SkippedInOrder(order[..n], started);
    NextHead(noted, Flat(order[..n]), Flat(order[n..]), next, t);
    NotedBeyondFirst(leases, anchors, started, Head(next, noted));
    HeadBeforeSkipped(leases, anchors, Head(next, noted));
    CloserCursor(leases, k, Head(leases, anchors), Head(next, noted), t);
  }

  /**
   * A tick that does not admit the target brings the cursor strictly closer to it, not counting leases
   * appended since, if a lease it has noted is still in the snapshot.
   */
  lemma TickProgress(
    leases: seq<Lease>, anchors: seq<Lease>, started: seq<bool>, newcomers: seq<Lease>, next: seq<Lease>, t: Lease)
    requires Distinct(leases + newcomers) && t in leases && PrunedFrom(next, leases + newcomers) && t in next
    requires StartsFirst(leases, started) && !Admitted(t, leases, anchors, started)
    requires Remembered(next, AnchorsAfter(leases, anchors, started))
    ensures Delay(next, AnchorsAfter(leases, anchors, started), t) < Delay(leases, anchors, t) + |newcomers|
  {
    var noted := Noted(leases, anchors, started);
    var h := Head(next, noted);
    DistinctParts(leases, newcomers);
    NotAdmitted(leases, anchors, started, t);
    assert AnchorsAfter(leases, anchors, started) == noted;
    NotAdmittedIsInArc(leases, anchors, started, t);
    NextHeadIsCloser(leases, anchors, started, next, t);
    PrunedArc(next, leases + newcomers, h, t);
    AppendedArc(leases, newcomers, h, t);
    var closer := Arc(leases, h, t);
    ProperSubsetIsSmaller(closer, Arc(leases, Head(leases, anchors), t));
    SubsetIsNoLarger(Arc(next, h, t), closer + Elements(newcomers));
    ElementsAreFew(newcomers);
    UnionIsSmall(closer, Elements(newcomers));
  }

  /** A tick that gets through all its shards has noted every lease it did not admit. */
  lemma WholeTickRemembers(
    leases: seq<Lease>, anchors: seq<Lease>, started: seq<bool>, next: seq<Lease>, t: Lease)
    requires Distinct(leases) && StartsFirst(leases, started) && t in leases && t in next
    requires |started| == |Chunks(leases)| && !Admitted(t, leases, anchors, started)
    ensures Remembered(next, AnchorsAfter(leases, anchors, started))
  {
    NotAdmitted(leases, anchors, started, t);
    assert t in AnchorsAfter(leases, anchors, started);
  }

  /**
   * However a tick of several shards ends, the next one starts from a lease that it had noted exactly
   * if one is still in the snapshot; otherwise the cursor is forgotten and it starts from the head.
   */
  lemma CursorForgottenIff(leases: seq<Lease>, anchors: seq<Lease>, started: seq<bool>, next: seq<Lease>)
    requires |started| <= |Chunks(leases)| && |Chunks(leases)| > 1 && next != []
    ensures var after := AnchorsAfter(leases, anchors, started);
            && (FirstLive(after, Chunks(next)) < |after| <==> Remembered(next, Noted(leases, anchors, started)))
            && (Remembered(next, Noted(leases, anchors, started)) ==>
                Head(next, after) in Noted(leases, anchors, started))
            && (!Remembered(next, Noted(leases, anchors, started)) ==>
                  Head(next, after) == next[0] && Rotation(after, Chunks(next)) == 0)
  {
    var after := AnchorsAfter(leases, anchors, started);
    assert after == Noted(leases, anchors, started);
    FirstLiveIff(next, after);
  }

  lemma UnionIsSmall<T>(a: set<T>, b: set<T>)
    ensures |a + b| <= |a| + |b|
  {
    assert a + b == a + (b - a);
    assert |a + (b - a)| == |a| + |b - a|;
    SubsetIsNoLarger(b - a, b);
  }

  lemma {:induction false} ElementsAreFew<T>(s: seq<T>)
    ensures |Elements(s)| <= |s|
  {
    if s != [] {
      ElementsAreFew(s[1..]);
      assert Elements(s) == {s[0]} + Elements(s[1..]);
    }
  }

  // ----- Whole runs -----

  /**
   * One tick: its snapshot, the anchors it finds, which shards it started until it was through or a
   * thread could not be started, and the leases appended after it.
   */
  datatype Tick = Tick(leases: seq<Lease>, anchors: seq<Lease>, started: seq<bool>, newcomers: seq<Lease>)

  /** Leases are distinct, and the tick starts its first shard. */
  ghost predicate TickOk(tick: Tick) {
    Distinct(tick.leases + tick.newcomers) && StartsFirst(tick.leases, tick.started)
  }

  /** Leases are appended, then any are pruned; the anchors are what the tick before left. */
  ghost predicate Follows(next: Tick, tick: Tick)
    requires TickOk(tick)
  {
    && PrunedFrom(next.leases, tick.leases + tick.newcomers)
    && next.anchors == AnchorsAfter(tick.leases, tick.anchors, tick.started)
  }

  ghost predicate Linked(ticks: seq<Tick>, i: int) {
    0 <= i < |ticks| - 1 ==> TickOk(ticks[i]) && Follows(ticks[i + 1], ticks[i])
  }

  ghost predicate Run(ticks: seq<Tick>) {
    && (forall i :: 0 <= i < |ticks| ==> TickOk(ticks[i]))
    && (forall i :: Linked(ticks, i))
  }

  ghost predicate AdmittedIn(tick: Tick, t: Lease)
    requires TickOk(tick)
  {
    Admitted(t, tick.leases, tick.anchors, tick.started)
  }

  /** Tick `i` got through its shards, or one of the leases that it noted is in the next snapshot. */
  ghost predicate KeepsCursor(ticks: seq<Tick>, i: int) {
    0 <= i < |ticks| - 1 ==> Ended(ticks[i]) || Remembered(ticks[i + 1].leases, ticks[i + 1].anchors)
  }

  predicate Ended(tick: Tick) {
    |tick.started| == |Chunks(tick.leases)|
  }

  /** No tick's end loses the cursor. */
  ghost predicate CursorKept(ticks: seq<Tick>) {
    forall i :: KeepsCursor(ticks, i)
  }

  /** How many leases were appended between tick 0 and tick `n`. */
  function Appended(ticks: seq<Tick>, n: nat): nat
    requires n <= |ticks|
  {
    if n == 0 then 0 else Appended(ticks, n - 1) + |ticks[n - 1].newcomers|
  }

  /** One tick of a run that does not admit the target. */
  lemma StepProgress(tick: Tick, next: Tick, t: Lease)
    requires TickOk(tick) && Follows(next, tick) && (Ended(tick) || Remembered(next.leases, next.anchors))
    requires t in tick.leases && t in next.leases && !AdmittedIn(tick, t)
    ensures Delay(next.leases, next.anchors, t) < Delay(tick.leases, tick.anchors, t) + |tick.newcomers|
  {
    DistinctParts(tick.leases, tick.newcomers);
    if Ended(tick) {
      WholeTickRemembers(tick.leases, tick.anchors, tick.started, next.leases, t);
    }
    TickProgress(tick.leases, tick.anchors, tick.started, tick.newcomers, next.leases, t);
  }

  ghost function DelayOf(tick: Tick, t: Lease): nat
    requires t in tick.leases
  {
    Delay(tick.leases, tick.anchors, t)
  }

  ghost predicate Stays(ticks: seq<Tick>, t: Lease) {
    forall i :: 0 <= i < |ticks| ==> t in ticks[i].leases
  }

  ghost predicate NotAdmittedBefore(ticks: seq<Tick>, t: Lease, n: nat)
    requires Run(ticks) && n <= |ticks|
  {
    forall i :: 0 <= i < n ==> !AdmittedIn(ticks[i], t)
  }

  lemma ProgressAt(ticks: seq<Tick>, t: Lease, n: nat)
    requires Run(ticks) && CursorKept(ticks) && 0 < n < |ticks| && Stays(ticks, t) && NotAdmittedBefore(ticks, t, n)
    ensures DelayOf(ticks[n], t) < DelayOf(ticks[n - 1], t) + |ticks[n - 1].newcomers|
  {
    assert Linked(ticks, n - 1) && KeepsCursor(ticks, n - 1);
    StepProgress(ticks[n - 1], ticks[n], t);
  }

  predicate ShrinksAt(ticks: seq<Tick>, delays: seq<int>, i: int) {
    0 < i < |delays| <= |ticks| ==> delays[i] < delays[i - 1] + |ticks[i - 1].newcomers|
  }

  lemma {:induction false} Telescope(ticks: seq<Tick>, delays: seq<int>, n: nat)
    requires n < |delays| <= |ticks| && forall i :: ShrinksAt(ticks, delays, i)
    ensures delays[n] + n <= delays[0] + Appended(ticks, n)
  {
    if n > 0 {
      Telescope(ticks, delays, n - 1);
      assert ShrinksAt(ticks, delays, n);
    }
  }

  ghost function Delays(ticks: seq<Tick>, t: Lease): seq<int>
    requires Stays(ticks, t)
  {
    seq(|ticks|, i requires 0 <= i < |ticks| => DelayOf(ticks[i], t))
  }

  lemma DelaysAt(ticks: seq<Tick>, t: Lease, i: nat)
    requires Stays(ticks, t) && i < |ticks|
    ensures |Delays(ticks, t)| == |ticks| && Delays(ticks, t)[i] == DelayOf(ticks[i], t)
  {
  }

  lemma Shrinks(ticks: seq<Tick>, delays: seq<int>, i: nat, before: int, after: int)
    requires 0 < i < |delays| <= |ticks| && delays[i - 1] == before && delays[i] == after
    requires after < before + |ticks[i - 1].newcomers|
    ensures ShrinksAt(ticks, delays, i)
  {
  }

  lemma NotAdmittedEarlier(ticks: seq<Tick>, t: Lease, n: nat, i: nat)
    requires Run(ticks) && i <= n <= |ticks| && NotAdmittedBefore(ticks, t, n)
    ensures NotAdmittedBefore(ticks, t, i)
  {
  }

  lemma DelaysShrinkAt(ticks: seq<Tick>, t: Lease, n: nat, i: int)
    requires Run(ticks) && CursorKept(ticks) && n < |ticks| && Stays(ticks, t) && NotAdmittedBefore(ticks, t, n)
    ensures ShrinksAt(ticks, Delays(ticks, t)[..n + 1], i)
  {
    if 0 < i <= n {
      NotAdmittedEarlier(ticks, t, n, i);
      ProgressAt(ticks, t, i);
      DelaysAt(ticks, t, i - 1);
      DelaysAt(ticks, t, i);
      Shrinks(ticks, Delays(ticks, t)[..n + 1], i, DelayOf(ticks[i - 1], t), DelayOf(ticks[i], t));
    }
  }

  lemma DelayShrinks(ticks: seq<Tick>, t: Lease, n: nat)
    requires Run(ticks) && CursorKept(ticks) && n < |ticks| && Stays(ticks, t) && NotAdmittedBefore(ticks, t, n)
    ensures DelayOf(ticks[n], t) + n <= DelayOf(ticks[0], t) + Appended(ticks, n)
  {
    var delays := Delays(ticks, t)[..n + 1];
    forall i ensures ShrinksAt(ticks, delays, i) {
      DelaysShrinkAt(ticks, t, n, i);
    }
    Telescope(ticks, delays, n);
  }

  lemma DelayIsBounded(leases: seq<Lease>, anchors: seq<Lease>, t: Lease)
    requires t in leases
    ensures Delay(leases, anchors, t) < |leases|
  {
    if |Chunks(leases)| > 1 {
      var h := Head(leases, anchors);
      assert h in Elements(leases) && h !in Arc(leases, h, t);
      assert Arc(leases, h, t) < Elements(leases);
      ProperSubsetIsSmaller(Arc(leases, h, t), Elements(leases));
      ElementsAreFew(leases);
    }
  }

  lemma NotAdmittedHasDelay(leases: seq<Lease>, anchors: seq<Lease>, started: seq<bool>, t: Lease)
    requires Distinct(leases) && t in leases && StartsFirst(leases, started) && !Admitted(t, leases, anchors, started)
    ensures Delay(leases, anchors, t) > 0
  {
    NotAdmitted(leases, anchors, started, t);
    NotAdmittedIsInArc(leases, anchors, started, t);
  }

  /** With no delay left the target is in the first shard, which is started. */
  lemma NoDelayIsAdmitted(leases: seq<Lease>, anchors: seq<Lease>, started: seq<bool>, t: Lease)
    requires Distinct(leases) && t in leases && Delay(leases, anchors, t) == 0 && StartsFirst(leases, started)
    ensures Admitted(t, leases, anchors, started)
  {
    if !Admitted(t, leases, anchors, started) {
      NotAdmittedHasDelay(leases, anchors, started, t);
    }
  }

  lemma NoDelayIn(tick: Tick, t: Lease)
    requires TickOk(tick) && t in tick.leases && DelayOf(tick, t) == 0
    ensures AdmittedIn(tick, t)
  {
    DistinctParts(tick.leases, tick.newcomers);
    NoDelayIsAdmitted(tick.leases, tick.anchors, tick.started, t);
  }

  lemma AdmittedAtLast(ticks: seq<Tick>, t: Lease, n: nat)
    requires Run(ticks) && CursorKept(ticks) && 0 < n <= |ticks| && Stays(ticks, t)
    requires n >= |ticks[0].leases| + Appended(ticks, n - 1) && NotAdmittedBefore(ticks, t, n - 1)
    ensures AdmittedIn(ticks[n - 1], t)
  {
    DelayShrinks(ticks, t, n - 1);
    DelayIsBounded(ticks[0].leases, ticks[0].anchors, t);
    NoDelayIn(ticks[n - 1], t);
  }

  /**
   * Starvation freedom. Whatever cursor earlier ticks left, however slots come and go, and even if
   * ticks are cut short without losing the cursor, a lease that stays in the snapshot is admitted
   * within as many ticks as the first snapshot has leases, plus one for every lease appended meanwhile.
   */
  lemma NoStarvation(ticks: seq<Tick>, t: Lease, n: nat)
    requires Run(ticks) && CursorKept(ticks) && 0 < n <= |ticks|
    requires n >= |ticks[0].leases| + Appended(ticks, n - 1)
    requires Stays(ticks, t)
    ensures exists i :: 0 <= i < n && AdmittedIn(ticks[i], t)
  {
    if NotAdmittedBefore(ticks, t, n - 1) {
      AdmittedAtLast(ticks, t, n);
    }
  }

  /** Without newcomers: at most |snapshot| ticks. */
  lemma NoStarvationWithoutNewcomers(ticks: seq<Tick>, t: Lease)
    requires Run(ticks) && CursorKept(ticks) && ticks != [] && |ticks| >= |ticks[0].leases|
    requires Stays(ticks, t) && forall i :: 0 <= i < |ticks| ==> ticks[i].newcomers == []
    ensures exists i :: 0 <= i < |ticks[0].leases| && AdmittedIn(ticks[i], t)
  {
    NothingAppended(ticks, |ticks[0].leases| - 1);
    NoStarvation(ticks, t, |ticks[0].leases|);
  }

  lemma {:induction false} NothingAppended(ticks: seq<Tick>, n: nat)
    requires n <= |ticks| && forall i :: 0 <= i < |ticks| ==> ticks[i].newcomers == []
    ensures Appended(ticks, n) == 0
  {
    if n > 0 {
      NothingAppended(ticks, n - 1);
    }
  }

  // ----- Ticks that are cut short and lose the cursor -----

  function OnlyFirst(n: nat): seq<bool>
    requires n > 0
  {
    [true] + seq(n - 1, _ => false)
  }

  /** All shards but the first. */
  function AllButFirst(leases: seq<Lease>): seq<Lease>
    requires Chunks(leases) != []
  {
    Flat(Chunks(leases)[1..])
  }

  /** A tick that finds one slot, and one that starts its first shard before a thread cannot be started. */
  function OneSlot(leases: seq<Lease>): Tick
    requires leases != []
  {
    FlatChunks(leases);
    Tick(leases, [], OnlyFirst(|Chunks(leases)|), [])
  }

  function CutShort(leases: seq<Lease>): Tick
    requires leases != []
  {
    FlatChunks(leases);
    Tick(leases, AllButFirst(leases), [true], [])
  }

  function Alternate(leases: seq<Lease>, i: nat): Tick
    requires leases != []
  {
    if i % 2 == 0 then OneSlot(leases) else CutShort(leases)
  }

  function Alternating(leases: seq<Lease>, n: nat): seq<Tick>
    requires leases != []
  {
    seq(n, i requires 0 <= i => Alternate(leases, i))
  }

  lemma NothingPruned(l: seq<Lease>)
    requires Distinct(l)
    ensures PrunedFrom(l, l)
  {
    forall i, j | 0 <= i < j < |l| ensures Pos(l, l[i]) < Pos(l, l[j]) {
      PosOfIndex(l, i);
      PosOfIndex(l, j);
    }
  }

  lemma {:induction false} OnlyFirstSkipsTheRest(shards: seq<Shard>)
    requires shards != []
    ensures Skipped(shards, OnlyFirst(|shards|)) == Flat(shards[1..])
  {
    var last := |shards| - 1;
    var one := OnlyFirst(|shards|);
    if last == 0 {
      assert Skipped(shards[..0], one[..0]) == [];
    } else {
      assert one[..last] == OnlyFirst(last);
      OnlyFirstSkipsTheRest(shards[..last]);
      assert shards[..last][1..] + [shards[last]] == shards[1..];
      FlatAppend(shards[..last][1..], [shards[last]]);
      assert Flat([shards[last]]) == shards[last] + Flat([]) == shards[last];
    }
  }

  /** After a tick that finds one slot, all shards but the first are noted. */
  lemma AfterOneSlot(leases: seq<Lease>)
    requires |Chunks(leases)| > 1
    ensures AdmissionOrder(leases, []) == Chunks(leases)
    ensures AnchorsAfter(leases, [], OnlyFirst(|Chunks(leases)|)) == AllButFirst(leases)
  {
    var shards := Chunks(leases);
    assert AdmissionOrder(leases, []) == shards && shards[..|shards|] == shards;
    OnlyFirstSkipsTheRest(shards);
  }

  /** A tick whose second thread cannot be started notes nothing. */
  lemma AfterFirstOnly(leases: seq<Lease>, anchors: seq<Lease>)
    requires |Chunks(leases)| > 1
    ensures AnchorsAfter(leases, anchors, [true]) == []
  {
    var first := AdmissionOrder(leases, anchors)[..1];
    assert Skipped(first, [true]) == Skipped(first[..0], [true][..0]) + [];
    assert Skipped(first[..0], [true][..0]) == [];
  }

  /** A shard that holds the lease is the only one, for distinct leases. */
  lemma OneShard(a: seq<Shard>, b: seq<Shard>, i: nat, j: nat, x: Lease)
    requires Distinct(Flat(a) + Flat(b)) && i < |a| && j < |b| && x in a[i]
    ensures x !in b[j]
  {
    InFlat(a, x);
    InFlat(b, x);
    PosAppend(Flat(a), Flat(b), x);
  }

  lemma SecondShardOf(shards: seq<Shard>, x: Lease)
    requires |shards| > 1 && Distinct(Flat(shards)) && x in shards[1]
    ensures ShardOf(x, shards) == 1
  {
    var j := ShardOf(x, shards);
    if j > 1 {
      assert shards == shards[..2] + shards[2..];
      FlatAppend(shards[..2], shards[2..]);
      OneShard(shards[..2], shards[2..], 1, j - 2, x);
    }
  }

  /** The next tick's first shard is the second. */
  lemma SecondIsNext(leases: seq<Lease>)
    requires Distinct(leases) && |Chunks(leases)| > 1
    ensures AdmissionOrder(leases, AllButFirst(leases))[0] == Chunks(leases)[1]
  {
    var shards, anchors := Chunks(leases), AllButFirst(leases);
    FlatChunks(leases);
    assert shards[1] in shards && shards[1..][0] == shards[1];
    assert anchors[0] == shards[1][0];
    SecondShardOf(shards, anchors[0]);
    assert FirstLive(anchors, shards) == 0;
  }

  lemma SameSnapshot(next: Tick, tick: Tick)
    requires TickOk(tick) && next.leases == tick.leases && tick.newcomers == []
    requires next.anchors == AnchorsAfter(tick.leases, tick.anchors, tick.started)
    ensures Follows(next, tick)
  {
    assert tick.leases + [] == tick.leases;
    NothingPruned(tick.leases);
  }

  lemma BothOk(leases: seq<Lease>)
    requires Distinct(leases) && |Chunks(leases)| > 1
    ensures leases != [] && TickOk(OneSlot(leases)) && TickOk(CutShort(leases))
  {
    assert leases + [] == leases;
  }

  lemma BothFollow(leases: seq<Lease>)
    requires Distinct(leases) && |Chunks(leases)| > 1
    ensures leases != [] && TickOk(OneSlot(leases)) && TickOk(CutShort(leases))
    ensures Follows(CutShort(leases), OneSlot(leases)) && Follows(OneSlot(leases), CutShort(leases))
  {
    BothOk(leases);
    AfterOneSlot(leases);
    SameSnapshot(CutShort(leases), OneSlot(leases));
    AfterFirstOnly(leases, AllButFirst(leases));
    SameSnapshot(OneSlot(leases), CutShort(leases));
  }

  lemma Alternates(leases: seq<Lease>, n: nat, i: nat)
    requires leases != [] && i < n - 1
    ensures var ticks := Alternating(leases, n);
            (ticks[i] == OneSlot(leases) && ticks[i + 1] == CutShort(leases))
            || (ticks[i] == CutShort(leases) && ticks[i + 1] == OneSlot(leases))
  {
  }

  lemma EitherTick(leases: seq<Lease>, n: nat, i: nat)
    requires leases != [] && i < n
    ensures Alternating(leases, n)[i] in [OneSlot(leases), CutShort(leases)]
  {
  }

  lemma AlternatingRuns(leases: seq<Lease>, n: nat)
    requires Distinct(leases) && |Chunks(leases)| > 1
    ensures leases != [] && Run(Alternating(leases, n))
  {
    BothFollow(leases);
    var ticks := Alternating(leases, n);
    forall i | 0 <= i < n ensures TickOk(ticks[i]) {
      EitherTick(leases, n, i);
    }
    forall i ensures Linked(ticks, i) {
      if 0 <= i < n - 1 {
        Alternates(leases, n, i);
      }
    }
  }

  lemma OnlyTheFirstAdmitted(tick: Tick, t: Lease)
    requires TickOk(tick) && AdmittedIn(tick, t) && forall j :: 0 < j < |tick.started| ==> !tick.started[j]
    ensures t in AdmissionOrder(tick.leases, tick.anchors)[0]
  {
  }

  /**
   * A thread that cannot be started ends the tick after the anchors were consumed. So the cursor has
   * to be kept: for every length there is a run, each of whose ticks starts its first shard, that
   * admits nothing from the third shard on.
   */
  lemma FailedStartsStarve(leases: seq<Lease>, t: Lease, n: nat) returns (ticks: seq<Tick>)
    requires Distinct(leases) && |Chunks(leases)| > 2 && t in leases
    requires t !in Chunks(leases)[0] && t !in Chunks(leases)[1]
    ensures Run(ticks) && |ticks| == n
    ensures forall i :: 0 <= i < n ==> ticks[i].newcomers == [] && ticks[i].leases == leases
    ensures forall i :: 0 <= i < n ==> !AdmittedIn(ticks[i], t)
  {
    ticks := Alternating(leases, n);
    AlternatingRuns(leases, n);
    NeitherAdmits(leases, t);
    forall i | 0 <= i < n ensures !AdmittedIn(ticks[i], t) && ticks[i].newcomers == [] && ticks[i].leases == leases {
      EitherTick(leases, n, i);
    }
  }

  lemma NeitherAdmits(leases: seq<Lease>, t: Lease)
    requires Distinct(leases) && |Chunks(leases)| > 1
    requires t !in Chunks(leases)[0] && t !in Chunks(leases)[1]
    ensures leases != [] && TickOk(OneSlot(leases)) && TickOk(CutShort(leases))
    ensures !AdmittedIn(OneSlot(leases), t) && !AdmittedIn(CutShort(leases), t)
  {
    BothOk(leases);
    AfterOneSlot(leases);
    SecondIsNext(leases);
    if AdmittedIn(OneSlot(leases), t) {
      OnlyTheFirstAdmitted(OneSlot(leases), t);
    }
    if AdmittedIn(CutShort(leases), t) {
      OnlyTheFirstAdmitted(CutShort(leases), t);
    }
  }
}
