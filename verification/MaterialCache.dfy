/**
 * `materialize_stream` and `assemble_bundle_tree` as written, each system call one step of the cache
 * machine, with anyone else's steps before it.
 */
module MaterialCache {
  import opened Basics
  import opened BundleTrees
  import opened CacheMachine
  import opened CacheSafety

  function Flatten(chunks: seq<Bytes>): Bytes {
    if chunks == [] then [] else Flatten(chunks[..|chunks| - 1]) + chunks[|chunks| - 1]
  }

  lemma FlattenOneMore(chunks: seq<Bytes>, k: nat)
    requires k < |chunks|
    ensures Flatten(chunks[..k + 1]) == Flatten(chunks[..k]) + chunks[k]
  {
    assert chunks[..k + 1][..k] == chunks[..k];
  }

  /** A number not taken: an inode, or a nonce. */
  method Unused(taken: set<nat>) returns (n: nat)
    ensures n !in taken
  {
    n := 0;
    var below: set<nat> := {};
    while n in taken
      invariant below <= taken && forall j :: j in below <==> 0 <= j < n
      decreases taken - below
    {
      below := below + {n};
      n := n + 1;
    }
  }

  /** The call as its owner knows it: only the torn mark may have been set by others. */
  ghost predicate SameCall(c: Call, c': Call) {
    c' == if c.Build? && c'.Build? then c.(torn := c'.torn) else c
  }

  /** One of call `p`'s own steps. */
  predicate OwnStep(step: Step, p: nat) {
    match step
    case EvictFile(_) => false
    case EvictTree(_, nonce) => nonce == p
    case RemoveMember(_, _) => false
    case RemoveEmpty(_) => false
    case _ => step.p == p
  }

  /** What a call may rely on while it does nothing: its own record, and that nobody makes its part. */
  ghost predicate CallKept(s: State, s': State, p: nat) {
    && (p in s.calls ==> p in s'.calls && SameCall(s.calls[p], s'.calls[p]))
    && (p !in s.issued ==> p !in s'.issued)
    && (p in s.issued && p !in s.calls ==> p in s'.issued && p !in s'.calls)
    && (p in s.issued && p !in s.calls && Part(p) !in s.fs ==> Part(p) !in s'.fs)
    && CopyKept(s, s', p)
  }

  /** Nobody else writes the file a copy reads, or the one it writes. */
  ghost predicate CopyKept(s: State, s': State, p: nat) {
    IsBuild(s, p) && s.calls[p].build.Copying? ==>
      SameBytes(s, s', s.calls[p].build.src) && SameBytes(s, s', s.calls[p].build.dst)
  }

  ghost predicate SameBytes(s: State, s': State, i: Inode) {
    i in s.bytes ==> i in s'.bytes && s'.bytes[i] == s.bytes[i]
  }

  /** Every step but its own leaves a call that much, and so does any number of them. */
  lemma OthersKeepCall(w: World, s: State, step: Step, s': State, p: nat)
    requires Stepped(w, s, step, s') && !OwnStep(step, p)
    ensures CallKept(s, s', p)
  {
    if Part(p) !in s.fs {
      OthersKeepPart(w, s, step, s', p);
    }
    OthersKeepCopy(w, s, step, s', p);
    OthersKeepRecord(w, s, step, s', p);
  }

  lemma OthersKeepRecord(w: World, s: State, step: Step, s': State, p: nat)
    requires Takes(w, s, step, s') && CallsKnown(s) && !OwnStep(step, p)
    ensures p in s.calls ==> p in s'.calls && SameCall(s.calls[p], s'.calls[p])
    ensures p !in s.issued ==> p !in s'.issued
    ensures p in s.issued && p !in s.calls ==> p in s'.issued && p !in s'.calls
  {
  }

  lemma OthersKeepCopy(w: World, s: State, step: Step, s': State, p: nat)
    requires Stepped(w, s, step, s') && !OwnStep(step, p)
    ensures CopyKept(s, s', p)
  {
    if IsBuild(s, p) && s.calls[p].build.Copying? {
      StepIsFresh(w, s, step, s');
      var c := s.calls[p].build;
      assert Writes(s.calls[p], c.dst);
      assert !StepWrites(s, step, c.src) && !StepWrites(s, step, c.dst);
      if c.src in s.bytes {
        OnlyTheWriterWrites(w, s, step, s', c.src);
      }
      if c.dst in s.bytes {
        OnlyTheWriterWrites(w, s, step, s', c.dst);
      }
    }
  }

  lemma OthersKeepPart(w: World, s: State, step: Step, s': State, p: nat)
    requires Takes(w, s, step, s') && !OwnStep(step, p) && Part(p) !in s.fs
    ensures Part(p) !in s'.fs
  {
  }

  /** The address whose entry a step removes. */
  function Removed(step: Step): multiset<Address> {
    match step
    case EvictFile(Final(a)) => multiset{a}
    case EvictTree(Final(a), _) => multiset{a}
    case RemoveMember(Final(a), _) => multiset{a}
    case RemoveEmpty(Final(a)) => multiset{a}
    case _ => multiset{}
  }

  /** Whatever takes the entry at an address away is counted. */
  lemma RemovalIsCounted(w: World, s: State, step: Step, s': State, a: Address)
    requires Takes(w, s, step, s') && Final(a) in s.fs && Final(a) !in s'.fs
    ensures Removed(step)[a] == 1
  {
  }

  /** None of these entries has been removed any more often. */
  ghost predicate Spared(before: multiset<Address>, after: multiset<Address>, kept: set<Address>) {
    forall a :: a in kept ==> after[a] == before[a]
  }

  ghost predicate FileAt(s: State, address: Address, data: Bytes) {
    && HasFile(s, Final(address)) && s.fs[Final(address)].inode in s.bytes
    && s.bytes[s.fs[Final(address)].inode] == data
  }

  /** A file is at its address and hashes to it. */
  ghost predicate HashedAt(w: World, s: State, address: Address) {
    && HasFile(s, Final(address)) && s.fs[Final(address)].inode in s.bytes
    && DigestOk(w, address, s.bytes[s.fs[Final(address)].inode])
  }

  lemma HashedNow(w: World, s: State, address: Address)
    requires Inv(w, s) && HasFile(s, Final(address))
    ensures HashedAt(w, s, address)
  {
  }

  // ----- What can go wrong -----

  /** Which operations of a download go through; per chunk where it is per chunk. */
  datatype FetchFaults = FetchFaults(opens: bool, receives: nat -> bool, renames: bool, removes: bool)

  /** What became of one entry an eviction pass picked: left, renamed aside only, or deleted. */
  datatype Removal = Left | Aside | Deleted

  /** Which operations of an assembly go through, per manifest line where it is per line. */
  datatype BuildFaults = BuildFaults(
    makes: nat -> bool, links: nat -> bool, opens: nat -> bool, closes: nat -> bool, renames: bool, removes: bool)

  ghost predicate AllReceived(receives: nat -> bool, n: nat) {
    forall k: nat :: k < n ==> receives(k)
  }

  /** An operation fails, or the stream is not what was declared. */
  ghost predicate FetchRefused(
    w: World, address: Address, stream: seq<Bytes>, size: Option<nat>, faults: FetchFaults)
  {
    || !faults.opens || !faults.renames || !faults.removes || !AllReceived(faults.receives, |stream|)
    || !AsDeclared(w, address, size, Flatten(stream))
  }

  /** The bytes hash to a content address and have the declared size. */
  ghost predicate AsDeclared(w: World, address: Address, size: Option<nat>, data: Bytes) {
    (address.Hash? ==> w.sha(data) == address.digest) && (size.Some? ==> |data| == size.value)
  }

  /** The part file of a download is gone, or its address is taken by a directory. */
  ghost predicate FetchHindered(s: State, p: nat, a: Address) {
    (p in s.calls && Part(p) !in s.fs) || HasTree(s, Final(a))
  }

  ghost predicate FetchHinderedSince(hist: seq<State>, from: int, p: nat, a: Address) {
    exists t :: 0 <= from <= t < |hist| && FetchHindered(hist[t], p, a)
  }

  /** Making the line's directory fails, its path is refused, or both linking and copying fail. */
  ghost predicate LineFails(faults: BuildFaults, manifest: seq<Line>, k: nat)
    requires k < |manifest|
  {
    !faults.makes(k) || !SafePath(manifest[k].rel) || CannotPlace(faults, k)
  }

  ghost predicate CannotPlace(faults: BuildFaults, k: nat) {
    !faults.links(k) && !(faults.opens(k) && faults.closes(k))
  }

  ghost predicate BuildRefused(digest: string -> string, manifest: seq<Line>, faults: BuildFaults) {
    || BundleHash(digest, manifest).None? || !faults.renames
    || exists k: nat :: k < |manifest| && LineFails(faults, manifest, k)
  }

  /** A member is not cached, the part directory is gone or was torn, or the address is taken by a file. */
  ghost predicate Hindered(s: State, p: nat, a: Address, manifest: seq<Line>) {
    || (exists k: nat :: k < |manifest| && !HasFile(s, Final(manifest[k].member)))
    || (IsBuild(s, p) && (s.calls[p].done > 0 || !s.calls[p].build.Idle?) && (s.calls[p].torn || !HasTree(s, Part(p))))
    || HasFile(s, Final(a))
  }

  ghost predicate HinderedSince(hist: seq<State>, from: int, p: nat, a: Address, manifest: seq<Line>) {
    exists t :: 0 <= from <= t < |hist| && Hindered(hist[t], p, a, manifest)
  }

  /** The entry was gone at some instant. */
  ghost predicate Cleared(hist: seq<State>, from: int, name: Name) {
    exists t :: 0 <= from <= t < |hist| && name !in hist[t].fs
  }

  /** A directory has been there at every instant. */
  ghost predicate ThereThroughout(hist: seq<State>, from: int, name: Name) {
    forall t :: 0 <= from <= t < |hist| ==> HasTree(hist[t], name)
  }

  lemma FetchHinderedLater(hist: seq<State>, hist': seq<State>, from: int, from': int, p: nat, a: Address)
    requires hist <= hist' && 0 <= from' <= from && FetchHinderedSince(hist, from, p, a)
    ensures FetchHinderedSince(hist', from', p, a)
  {
    var t :| from <= t < |hist| && FetchHindered(hist[t], p, a);
    assert FetchHindered(hist'[t], p, a);
  }

  lemma HinderedLater(hist: seq<State>, hist': seq<State>, from: int, from': int, p: nat, a: Address,
      manifest: seq<Line>)
    requires hist <= hist' && 0 <= from' <= from && HinderedSince(hist, from, p, a, manifest)
    ensures HinderedSince(hist', from', p, a, manifest)
  {
    var t :| from <= t < |hist| && Hindered(hist[t], p, a, manifest);
    assert Hindered(hist'[t], p, a, manifest);
  }

  /** A hindrance before `at`, at it, or after it is one in all. */
  lemma HinderedAround(before: seq<State>, hist: seq<State>, from: int, p: nat, a: Address, manifest: seq<Line>)
    requires before != [] && before <= hist && 0 <= from < |before|
    ensures Hindered(before[|before| - 1], p, a, manifest) ==> HinderedSince(hist, from, p, a, manifest)
    ensures HinderedSince(before, from, p, a, manifest) ==> HinderedSince(hist, from, p, a, manifest)
    ensures HinderedSince(hist, |before| - 1, p, a, manifest) ==> HinderedSince(hist, from, p, a, manifest)
  {
    if Hindered(before[|before| - 1], p, a, manifest) {
      assert Hindered(hist[|before| - 1], p, a, manifest);
    }
    if HinderedSince(before, from, p, a, manifest) {
      HinderedLater(before, hist, from, from, p, a, manifest);
    }
    if HinderedSince(hist, |before| - 1, p, a, manifest) {
      HinderedLater(hist, hist, |before| - 1, from, p, a, manifest);
    }
  }

  lemma ClearedLater(hist: seq<State>, hist': seq<State>, from: int, from': int, name: Name)
    requires hist <= hist' && 0 <= from' <= from && Cleared(hist, from, name)
    ensures Cleared(hist', from', name)
  {
    var t :| from <= t < |hist| && name !in hist[t].fs;
    assert name !in hist'[t].fs;
  }

  predicate Pinned(name: Name, kept: set<Address>) {
    name.Final? && name.address in kept
  }

  /** Of the first `n` entries that an eviction pass picked, each is pinned, could not be removed, or was gone. */
  ghost predicate EvictedUpto(
    hist: seq<State>, from: int, queue: seq<Name>, kept: set<Address>, evicts: nat -> Removal, n: int)
  {
    forall k: nat :: k < n && k < |queue| ==>
      (queue[k].Final? && queue[k].address in kept) || evicts(k).Left? || Cleared(hist, from, queue[k])
  }

  ghost predicate Evicted(
    hist: seq<State>, from: int, queue: seq<Name>, kept: set<Address>, evicts: nat -> Removal)
  {
    EvictedUpto(hist, from, queue, kept, evicts, |queue|)
  }

  lemma EvictedMore(hist: seq<State>, hist': seq<State>, from: int, queue: seq<Name>, kept: set<Address>,
      evicts: nat -> Removal, k: nat)
    requires hist <= hist' && 0 <= from < |hist| && k < |queue|
    requires EvictedUpto(hist, from, queue, kept, evicts, k)
    requires Pinned(queue[k], kept) || evicts(k).Left?
             || exists since :: from <= since && Cleared(hist', since, queue[k])
    ensures EvictedUpto(hist', from, queue, kept, evicts, k + 1)
  {
    forall j: nat | j < k + 1
      ensures Pinned(queue[j], kept) || evicts(j).Left? || Cleared(hist', from, queue[j])
    {
      if j < k {
        if Cleared(hist, from, queue[j]) {
          ClearedLater(hist, hist', from, from, queue[j]);
        }
      } else if since :| from <= since && Cleared(hist', since, queue[k]) {
        ClearedLater(hist', hist', since, from, queue[k]);
      }
    }
  }

  lemma EvictedLater(hist: seq<State>, from: int, from': int, queue: seq<Name>, kept: set<Address>,
      evicts: nat -> Removal)
    requires 0 <= from' <= from && Evicted(hist, from, queue, kept, evicts)
    ensures Evicted(hist, from', queue, kept, evicts)
  {
    forall k: nat | k < |queue|
      ensures Pinned(queue[k], kept) || evicts(k).Left? || Cleared(hist, from', queue[k])
    {
      if Cleared(hist, from, queue[k]) {
        ClearedLater(hist, hist, from, from', queue[k]);
      }
    }
  }

  /** A fresh line has no link yet, and the part is a directory. */
  lemma LineIsNew(w: World, s: State, p: nat)
    requires Inv(w, s) && IsBuild(s, p) && !s.calls[p].build.Copying? && s.calls[p].done < |s.calls[p].manifest|
    ensures !HasFile(s, Part(p))
    ensures HasTree(s, Part(p)) ==> s.calls[p].manifest[s.calls[p].done].rel !in s.fs[Part(p)].links
  {
    assert ShapeOk(w, s.calls[p]) && PartOk(s, p);
  }

  /** The call is still at work on its manifest. */
  ghost predicate SameJob(s: State, s': State, p: nat) {
    && IsBuild(s, p) && IsBuild(s', p)
    && s'.calls[p].manifest == s.calls[p].manifest && s'.calls[p].address == s.calls[p].address
  }

  /** One more member is in place. */
  ghost predicate Placed(s: State, s': State, p: nat) {
    SameJob(s, s', p) && s'.calls[p].build.Idle? && s'.calls[p].done == s.calls[p].done + 1
  }

  /** The call is where it was. */
  ghost predicate SamePlace(s: State, s': State, p: nat) {
    && SameJob(s, s', p) && s'.calls[p].build == s.calls[p].build && s'.calls[p].done == s.calls[p].done
    && (s.calls[p].build.Copying? && CopiedWhole(s, p) ==> CopiedWhole(s', p))
  }

  lemma OpenOrHindered(w: World, s: State, p: nat, i: Inode)
    requires Inv(w, s) && AtMember(s, p) && i !in s.bytes
    ensures Enabled(w, s, CopyOpen(p, i)) || Hindered(s, p, s.calls[p].address, s.calls[p].manifest)
  {
    LineIsNew(w, s, p);
  }

  lemma CloseOrHindered(w: World, s: State, p: nat)
    requires Inv(w, s) && IsBuild(s, p) && s.calls[p].build.Copying? && CopiedWhole(s, p)
    ensures Enabled(w, s, CopyDone(p)) || Hindered(s, p, s.calls[p].address, s.calls[p].manifest)
  {
    assert ShapeOk(w, s.calls[p]);
    if !s.calls[p].torn && HasTree(s, Part(p)) {
      CopiedLineIsThere(w, s, p);
    }
  }

  /** Nothing of the source is left to copy. */
  ghost predicate CopiedWhole(s: State, p: nat)
    requires IsBuild(s, p) && s.calls[p].build.Copying?
  {
    var c := s.calls[p].build;
    c.src in s.bytes && c.dst in s.bytes && |s.bytes[c.dst]| == |s.bytes[c.src]|
  }

  /** The line being copied is in an untorn part directory. */
  lemma CopiedLineIsThere(w: World, s: State, p: nat)
    requires Inv(w, s) && IsBuild(s, p) && s.calls[p].build.Copying? && !s.calls[p].torn && HasTree(s, Part(p))
    ensures s.calls[p].done < |s.calls[p].manifest|
    ensures s.calls[p].manifest[s.calls[p].done].rel in s.fs[Part(p)].links
  {
    assert ShapeOk(w, s.calls[p]) && PartOk(s, p);
    assert s.calls[p].manifest[s.calls[p].done].rel in Paths(s.calls[p].manifest, s.calls[p].done + 1);
  }

  lemma AddressedIsNonempty(digest: string -> string, manifest: seq<Line>)
    requires BundleHash(digest, manifest).Some?
    ensures manifest != []
  {
  }

  class Cache {
    const sha: Bytes -> string
    const digest: string -> string
    const w: World := HashWorld(sha, digest)
    var s: State
    /** Every state there has been, the present one last. */
    ghost var hist: seq<State>
    /** The entries that steps taken here, and not by anyone else, have removed. */
    ghost var removed: multiset<Address>

    ghost predicate Valid()
      reads this
    {
      Inv(w, s) && hist != [] && hist[|hist| - 1] == s
    }

    /** Any steps of other calls and evictors; the contract is all a caller may rely on. */
    method Interleave(p: nat)
      requires Valid()
      modifies this
      ensures Valid() && old(hist) <= hist && removed == old(removed) && CallKept(old(s), s, p)
    {
    }

    method Do(step: Step)
      requires Valid() && Enabled(w, s, step) && Proper(step)
      modifies this
      ensures Valid() && s == Apply(w, old(s), step)
      ensures hist == old(hist) + [s] && removed == old(removed) + Removed(step)
    {
      StepKeepsInv(w, s, step, Apply(w, s, step));
      s := Apply(w, s, step);
      hist, removed := hist + [s], removed + Removed(step);
    }

    /** Clean up a download that did not land; `removes` says whether the part file can be unlinked. */
    method Discard(p: nat, removes: bool) returns (gone: bool)
      requires Valid() && p in s.calls && s.calls[p].Fetch?
      modifies this
      ensures Valid() && old(hist) <= hist && removed == old(removed) && p !in s.calls && p in s.issued
      ensures (removes ==> gone) && (gone <==> Part(p) !in s.fs)
      ensures forall name :: name != Part(p) ==>
                (name in s.fs <==> name in old(s.fs)) && (name in s.fs ==> s.fs[name] == old(s.fs)[name])
    {
      assert p in s.issued && FetchOk(w, s, p);
      gone := removes || !HasFile(s, Part(p));
      if removes && HasFile(s, Part(p)) {
        Do(EvictFile(Part(p)));
      }
      Do(Depart(p));
    }

    /** The next chunk of the stream, unless reading or writing it fails. */
    method ReceiveNext(p: nat, chunk: Bytes, receives: bool)
      requires Valid() && IsFetch(s, p, Streaming)
      modifies this
      ensures Valid() && old(hist) <= hist && removed == old(removed) && IsFetch(s, p, Streaming)
      ensures s.calls[p].address == old(s.calls[p].address) && s.calls[p].size == old(s.calls[p].size)
      ensures s.calls[p].received == old(s.calls[p].received) + if receives then chunk else []
    {
      Interleave(p);
      if receives {
        assert FetchOk(w, s, p);
        Do(Receive(p, chunk));
      } else {
        assert s.calls[p].received + [] == s.calls[p].received;
      }
    }

    /** Stream the bytes into a part file, counting and hashing them on the way. */
    method Download(p: nat, address: Address, stream: seq<Bytes>, size: Option<nat>, receives: nat -> bool)
      returns (whole: bool)
      requires Valid() && p !in s.issued
      modifies this
      ensures Valid() && old(hist) <= hist && removed == old(removed) && IsFetch(s, p, Streaming)
      ensures s.calls[p].address == address && s.calls[p].size == size
      ensures whole <==> AllReceived(receives, |stream|)
      ensures whole ==> s.calls[p].received == Flatten(stream)
    {
      var i := Unused(s.bytes.Keys);
      Do(StartFetch(p, address, size, i));
      whole := ReceiveAll(p, address, stream, size, receives);
    }

    method ReceiveAll(p: nat, address: Address, stream: seq<Bytes>, size: Option<nat>, receives: nat -> bool)
      returns (whole: bool)
      requires Valid() && IsFetch(s, p, Streaming)
      requires s.calls[p].received == [] && s.calls[p].address == address && s.calls[p].size == size
      modifies this
      ensures Valid() && old(hist) <= hist && removed == old(removed) && IsFetch(s, p, Streaming)
      ensures s.calls[p].address == address && s.calls[p].size == size
      ensures whole <==> AllReceived(receives, |stream|)
      ensures whole ==> s.calls[p].received == Flatten(stream)
    {
      for k := 0 to |stream|
        invariant Valid() && old(hist) <= hist && removed == old(removed) && IsFetch(s, p, Streaming)
        invariant s.calls[p].address == address && s.calls[p].size == size
        invariant s.calls[p].received == Flatten(stream[..k])
        invariant AllReceived(receives, k)
      {
        ReceiveNext(p, stream[k], receives(k));
        if !receives(k) {
          whole := false;
          return;
        }
        FlattenOneMore(stream, k);
      }
      assert stream[..|stream|] == stream;
      whole := true;
    }

    /** The digest matched: land the part file unless someone else's is already there. */
    method CheckAndLand(p: nat, faults: FetchFaults) returns (ok: bool, landed: bool)
      requires Valid() && IsFetch(s, p, Streaming) && Enabled(w, s, Check(p))
      modifies this
      ensures Valid() && old(hist) <= hist && removed == old(removed) && p !in s.calls && p in s.issued
      ensures ok || faults.removes ==> Part(p) !in s.fs
      ensures ok ==> HasFile(s, Final(old(s.calls[p].address)))
      ensures landed ==> faults.renames
      ensures landed ==> ok && FileAt(s, old(s.calls[p].address), old(s.calls[p].received))
      ensures ok || !faults.renames || !faults.removes
              || FetchHinderedSince(hist, |old(hist)| - 1, p, old(s.calls[p].address))
    {
      Do(Check(p));
      Interleave(p);
      if HasFile(s, Final(s.calls[p].address)) {
        ok := Discard(p, faults.removes);
        return ok, false;
      }
      ok := LandChecked(p, faults);
      landed := ok;
    }

    method LandChecked(p: nat, faults: FetchFaults) returns (ok: bool)
      requires Valid() && IsFetch(s, p, Checked) && !HasFile(s, Final(s.calls[p].address))
      modifies this
      ensures Valid() && old(hist) <= hist && removed == old(removed) && p !in s.calls && p in s.issued
      ensures ok || faults.removes ==> Part(p) !in s.fs
      ensures ok ==> faults.renames
      ensures ok ==> FileAt(s, old(s.calls[p].address), old(s.calls[p].received))
      ensures ok || !faults.renames || FetchHinderedSince(hist, |old(hist)| - 1, p, old(s.calls[p].address))
    {
      Do(Recheck(p));
      Interleave(p);
      ok := LandMissing(p, faults);
    }

    /** The rename. */
    method LandMissing(p: nat, faults: FetchFaults) returns (ok: bool)
      requires Valid() && IsFetch(s, p, Missing)
      modifies this
      ensures Valid() && old(hist) <= hist && removed == old(removed) && p !in s.calls && p in s.issued
      ensures ok || faults.removes ==> Part(p) !in s.fs
      ensures ok ==> FileAt(s, old(s.calls[p].address), old(s.calls[p].received))
      ensures ok <==> faults.renames && !FetchHindered(old(s), p, old(s.calls[p].address))
    {
      assert p in s.issued && FetchOk(w, s, p);
      ok := faults.renames && Enabled(w, s, Land(p));
      if ok {
        Do(Land(p));
      } else {
        var gone := Discard(p, faults.removes);
      }
    }

    /** Everything up to the rename. */
    method DownloadAndLand(p: nat, address: Address, stream: seq<Bytes>, size: Option<nat>, faults: FetchFaults)
      returns (ok: bool, landed: bool)
      requires Valid() && p !in s.issued
      modifies this
      ensures Valid() && old(hist) <= hist && removed == old(removed) && p !in s.calls && (ok ==> p in s.issued)
      ensures ok || faults.removes ==> Part(p) !in s.fs
      ensures ok ==> HashedAt(w, s, address)
      ensures landed ==> ok && AsDeclared(w, address, size, Flatten(stream))
      ensures landed ==> FileAt(s, address, Flatten(stream))
      ensures ok ==> faults.opens && AllReceived(faults.receives, |stream|)
      ensures ok ==> AsDeclared(w, address, size, Flatten(stream)) && (landed ==> faults.renames)
      ensures ok || FetchRefused(w, address, stream, size, faults)
              || FetchHinderedSince(hist, |old(hist)| - 1, p, address)
    {
      if !faults.opens {
        return false, false;
      }
      var whole := Download(p, address, stream, size, faults.receives);
      var received := s.calls[p].received;
      if !whole || !DigestOk(w, address, received) || (size.Some? && |received| != size.value) {
        var gone := Discard(p, faults.removes);
        return false, false;
      }
      ghost var seen := hist;
      ok, landed := CheckAndLand(p, faults);
      if FetchHinderedSince(hist, |seen| - 1, p, address) {
        FetchHinderedLater(hist, hist, |seen| - 1, |old(hist)| - 1, p, address);
      }
    }

    /**
     * Download on a miss and rename into place, then make room. On success there is an instant of the
     * call at which the file at its address hashes to it, and, if this call landed it, is the stream,
     * of the declared size; a file that is there throughout is never downloaded again. It fails only if
     * an operation fails, the stream is not what was declared, or at some instant the part file is gone
     * or the address taken by a directory. No step of the call removes that file or a pinned entry. A
     * part file is left behind only on a failure, and then only if it cannot be unlinked. `queue` is
     * what the eviction pass picks to go, pins included; whatever can be removed is gone at some instant.
     */
    method MaterializeStream(
      p: nat, address: Address, stream: seq<Bytes>, size: Option<nat>, pin: set<Address>, queue: seq<Name>,
      faults: FetchFaults, evicts: nat -> Removal)
      returns (ok: bool, landed: bool, ghost hit: bool, ghost at: int)
      requires Valid() && p !in s.issued
      modifies this
      ensures Valid() && p !in s.calls && old(hist) <= hist && (ok || faults.removes ==> Part(p) !in s.fs)
      ensures ok ==> |old(hist)| - 1 <= at < |hist| && HashedAt(w, hist[at], address)
      ensures landed ==> ok && AsDeclared(w, address, size, Flatten(stream))
      ensures landed ==> FileAt(hist[at], address, Flatten(stream))
      ensures (forall t :: |old(hist)| - 1 <= t < |hist| ==> HasFile(hist[t], Final(address))) ==> hit
      ensures hit ==> ok && !landed
      ensures ok && !hit ==> faults.opens && AllReceived(faults.receives, |stream|)
      ensures ok && !hit ==> AsDeclared(w, address, size, Flatten(stream)) && (landed ==> faults.renames)
      ensures ok || FetchRefused(w, address, stream, size, faults)
              || FetchHinderedSince(hist, |old(hist)| - 1, p, address)
      ensures Spared(old(removed), removed, pin + {address})
      ensures ok && !hit ==> Evicted(hist, |old(hist)| - 1, queue, pin + {address}, evicts)
    {
      at, hit := 0, false;
      Interleave(p);
      ghost var first := hist;
      assert first[|first| - 1] == s;
      if HasFile(s, Final(address)) {
        at, hit := |hist| - 1, true;
        HashedNow(w, s, address);
        return true, false, hit, at;
      }
      ok, landed, at := FetchAndEvict(p, address, stream, size, pin, queue, faults, evicts);
      assert hist[|first| - 1] == first[|first| - 1];
      if FetchHinderedSince(hist, |first| - 1, p, address) {
        FetchHinderedLater(hist, hist, |first| - 1, |old(hist)| - 1, p, address);
      }
      if ok {
        EvictedLater(hist, |first| - 1, |old(hist)| - 1, queue, pin + {address}, evicts);
      }
    }

    /** The miss. */
    method FetchAndEvict(
      p: nat, address: Address, stream: seq<Bytes>, size: Option<nat>, pin: set<Address>, queue: seq<Name>,
      faults: FetchFaults, evicts: nat -> Removal)
      returns (ok: bool, landed: bool, ghost at: int)
      requires Valid() && p !in s.issued
      modifies this
      ensures Valid() && p !in s.calls && old(hist) <= hist && (ok || faults.removes ==> Part(p) !in s.fs)
      ensures ok ==> |old(hist)| - 1 <= at < |hist| && HashedAt(w, hist[at], address)
      ensures landed ==> ok && AsDeclared(w, address, size, Flatten(stream))
      ensures landed ==> FileAt(hist[at], address, Flatten(stream))
      ensures ok ==> faults.opens && AllReceived(faults.receives, |stream|)
      ensures ok ==> AsDeclared(w, address, size, Flatten(stream)) && (landed ==> faults.renames)
      ensures ok || FetchRefused(w, address, stream, size, faults)
              || FetchHinderedSince(hist, |old(hist)| - 1, p, address)
      ensures Spared(old(removed), removed, pin + {address})
      ensures ok ==> Evicted(hist, |old(hist)| - 1, queue, pin + {address}, evicts)
    {
      ok, landed := DownloadAndLand(p, address, stream, size, faults);
      at := |hist| - 1;
      if ok {
        ghost var seen, now := hist, s;
        EvictUnpinned(p, queue, pin + {address}, evicts);
        assert hist[at] == seen[at] == now;
        EvictedLater(hist, |seen| - 1, |old(hist)| - 1, queue, pin + {address}, evicts);
      }
    }

    /** One pass down a queue of names, pins left out. */
    method EvictUnpinned(p: nat, queue: seq<Name>, kept: set<Address>, evicts: nat -> Removal)
      requires Valid() && p !in s.calls && p in s.issued && Part(p) !in s.fs
      modifies this
      ensures Valid() && p !in s.calls && p in s.issued && Part(p) !in s.fs
      ensures old(hist) <= hist && Spared(old(removed), removed, kept)
      ensures Evicted(hist, |old(hist)| - 1, queue, kept, evicts)
    {
      for k := 0 to |queue|
        invariant Valid() && p !in s.calls && p in s.issued && Part(p) !in s.fs
        invariant old(hist) <= hist && Spared(old(removed), removed, kept)
        invariant EvictedUpto(hist, |old(hist)| - 1, queue, kept, evicts, k)
      {
        ghost var seen := hist;
        if !Pinned(queue[k], kept) {
          Interleave(p);
          if !evicts(k).Left? {
            ghost var nonce := RemoveEntry(p, queue[k], kept, evicts(k));
          }
        }
        EvictedMore(seen, hist, |old(hist)| - 1, queue, kept, evicts, k);
      }
    }

    /** Unlink a file; rename a tree aside and delete it there, as far as that goes. */
    method RemoveEntry(p: nat, name: Name, kept: set<Address>, goes: Removal)
      returns (ghost nonce: nat)
      requires Valid() && p !in s.calls && p in s.issued && Part(p) !in s.fs && !Pinned(name, kept)
      modifies this
      ensures Valid() && p !in s.calls && p in s.issued && Part(p) !in s.fs
      ensures old(hist) <= hist && Spared(old(removed), removed, kept)
      ensures Cleared(hist, |old(hist)| - 1, name)
      ensures HasFile(old(s), name) ==> |old(hist)| < |hist| && hist[|old(hist)|] == Apply(w, old(s), EvictFile(name))
      ensures HasTree(old(s), name) ==>
                && nonce !in old(s).issued && |old(hist)| < |hist|
                && hist[|old(hist)|] == Apply(w, old(s), EvictTree(name, nonce))
                && (goes.Deleted? ==> !HasTree(s, Trash(nonce)))
    {
      ghost var before := hist;
      if !HasFile(s, name) && !HasTree(s, name) {
        assert name !in hist[|hist| - 1].fs;
        nonce := 0;
        return;
      }
      var trash := Unused(s.issued);
      nonce := trash;
      SetAside(p, name, kept, trash);
      ghost var aside := hist;
      assert name !in aside[|aside| - 1].fs && Cleared(aside, |before| - 1, name);
      Interleave(p);
      if goes.Deleted? {
        DeleteTrash(p, trash);
      }
      assert hist[|before|] == aside[|before|];
      ClearedLater(aside, hist, |before| - 1, |before| - 1, name);
    }

    /** The entry is no longer under its name. */
    method SetAside(p: nat, name: Name, kept: set<Address>, nonce: nat)
      requires Valid() && p !in s.calls && p in s.issued && Part(p) !in s.fs && !Pinned(name, kept)
      requires name in s.fs && nonce !in s.issued
      modifies this
      ensures Valid() && p !in s.calls && p in s.issued && Part(p) !in s.fs
      ensures hist == old(hist) + [s] && Spared(old(removed), removed, kept) && name !in s.fs
      ensures s == Apply(w, old(s), if HasFile(old(s), name) then EvictFile(name) else EvictTree(name, nonce))
    {
      if HasFile(s, name) {
        Do(EvictFile(name));
      } else {
        Do(EvictTree(name, nonce));
      }
    }

    method DeleteTrash(p: nat, nonce: nat)
      requires Valid() && p !in s.calls && p in s.issued && Part(p) !in s.fs
      modifies this
      ensures Valid() && p !in s.calls && p in s.issued && Part(p) !in s.fs
      ensures old(hist) <= hist && removed == old(removed) && !HasTree(s, Trash(nonce))
    {
      var trash := Trash(nonce);
      while HasTree(s, trash) && s.fs[trash].links != map[]
        invariant Valid() && p !in s.calls && p in s.issued && Part(p) !in s.fs
        invariant old(hist) <= hist && removed == old(removed)
        decreases if HasTree(s, trash) then |s.fs[trash].links| else 0
      {
        var links := s.fs[trash].links;
        var rel := PickOne(links.Keys);
        Do(RemoveMember(trash, rel));
        assert s.fs[trash].links.Keys == links.Keys - {rel};
      }
      if HasTree(s, trash) {
        Do(RemoveEmpty(trash));
      }
    }

    /** Link the next member into the part directory, or copy it where the link fails. */
    method PlaceMember(p: nat, faults: BuildFaults) returns (placed: bool)
      requires Valid() && IsBuild(s, p) && s.calls[p].build.Idle? && s.calls[p].done < |s.calls[p].manifest|
      modifies this
      ensures Valid() && old(hist) <= hist && SameJob(old(s), s, p)
      ensures placed ==> s.calls[p].build.Idle? && s.calls[p].done == old(s.calls[p].done) + 1
      ensures placed || LineFails(faults, old(s.calls[p].manifest), old(s.calls[p].done))
              || HinderedSince(hist, |old(hist)| - 1, p, old(s.calls[p].address), old(s.calls[p].manifest))
    {
      ghost var a, manifest := s.calls[p].address, s.calls[p].manifest;
      placed := MakeRoom(p, faults.makes);
      if placed {
        ghost var made := hist;
        placed := LinkOrCopy(p, faults);
        HinderedAround(made, hist, |old(hist)| - 1, p, a, manifest);
      }
    }

    method LinkOrCopy(p: nat, faults: BuildFaults) returns (placed: bool)
      requires Valid() && AtMember(s, p)
      modifies this
      ensures Valid() && old(hist) <= hist && SameJob(old(s), s, p)
      ensures placed ==> Placed(old(s), s, p)
      ensures placed || CannotPlace(faults, old(s.calls[p].done))
              || HinderedSince(hist, |old(hist)| - 1, p, old(s.calls[p].address), old(s.calls[p].manifest))
    {
      ghost var a, manifest := s.calls[p].address, s.calls[p].manifest;
      placed := TryLink(p, faults.links);
      if !placed {
        ghost var tried := hist;
        placed := CopyMember(p, faults);
        HinderedAround(tried, hist, |old(hist)| - 1, p, a, manifest);
      }
    }

    /** Anyone else's steps while an assembly is in progress. */
    method Wait(p: nat)
      requires Valid() && IsBuild(s, p)
      modifies this
      ensures Valid() && old(hist) <= hist && SamePlace(old(s), s, p)
    {
      Interleave(p);
    }

    /** Make the directory the next member goes into. */
    method MakeRoom(p: nat, makes: nat -> bool) returns (made: bool)
      requires Valid() && IsBuild(s, p) && s.calls[p].build.Idle? && s.calls[p].done < |s.calls[p].manifest|
      modifies this
      ensures Valid() && old(hist) <= hist && SameJob(old(s), s, p) && s.calls[p].done == old(s.calls[p].done)
      ensures made ==> AtMember(s, p)
      ensures made <==> makes(old(s.calls[p].done)) && SafePath(old(s.calls[p].manifest[s.calls[p].done].rel))
    {
      Wait(p);
      made := MakeRoomNow(p, makes);
    }

    method MakeRoomNow(p: nat, makes: nat -> bool) returns (made: bool)
      requires Valid() && IsBuild(s, p) && s.calls[p].build.Idle? && s.calls[p].done < |s.calls[p].manifest|
      modifies this
      ensures Valid() && old(hist) <= hist && SameJob(old(s), s, p) && s.calls[p].done == old(s.calls[p].done)
      ensures made ==> AtMember(s, p)
      ensures made <==> makes(old(s.calls[p].done)) && SafePath(old(s.calls[p].manifest[s.calls[p].done].rel))
    {
      LineIsNew(w, s, p);
      made := makes(s.calls[p].done) && Enabled(w, s, MakeParent(p));
      if made {
        Do(MakeParent(p));
      }
    }

    /** The hard link; where it fails although it may be made, something is in the way. */
    method TryLink(p: nat, links: nat -> bool) returns (linked: bool)
      requires Valid() && AtMember(s, p)
      modifies this
      ensures Valid() && old(hist) <= hist && SameJob(old(s), s, p)
      ensures if linked then Placed(old(s), s, p) else SamePlace(old(s), s, p)
      ensures linked || !links(old(s.calls[p].done))
              || Hindered(s, p, old(s.calls[p].address), old(s.calls[p].manifest))
    {
      Wait(p);
      linked := LinkNow(p, links);
    }

    method LinkNow(p: nat, links: nat -> bool) returns (linked: bool)
      requires Valid() && AtMember(s, p)
      modifies this
      ensures Valid() && old(hist) <= hist && SameJob(old(s), s, p)
      ensures if linked then Placed(old(s), s, p) else s == old(s)
      ensures linked || !links(s.calls[p].done) || Hindered(s, p, s.calls[p].address, s.calls[p].manifest)
    {
      LineIsNew(w, s, p);
      linked := links(s.calls[p].done) && Enabled(w, s, Link(p));
      if linked {
        Do(Link(p));
      }
    }

    method CopyMember(p: nat, faults: BuildFaults) returns (placed: bool)
      requires Valid() && AtMember(s, p)
      modifies this
      ensures Valid() && old(hist) <= hist && SameJob(old(s), s, p)
      ensures placed ==> Placed(old(s), s, p)
      ensures placed || !(faults.opens(old(s.calls[p].done)) && faults.closes(old(s.calls[p].done)))
              || HinderedSince(hist, |old(hist)| - 1, p, old(s.calls[p].address), old(s.calls[p].manifest))
    {
      ghost var a, manifest, before := s.calls[p].address, s.calls[p].manifest, hist;
      placed := OpenCopy(p, faults.opens);
      if placed {
        ghost var copying := hist;
        placed := FinishCopy(p, faults.closes);
        HinderedAround(copying, hist, |before| - 1, p, a, manifest);
      } else {
        HinderedAround(before, hist, |before| - 1, p, a, manifest);
      }
    }

    /** Open the member and the new file it is copied to. */
    method OpenCopy(p: nat, opens: nat -> bool) returns (open: bool)
      requires Valid() && AtMember(s, p)
      modifies this
      ensures Valid() && old(hist) <= hist && SameJob(old(s), s, p) && s.calls[p].done == old(s.calls[p].done)
      ensures if open then s.calls[p].build.Copying? else s == old(s)
      ensures open || !opens(s.calls[p].done) || Hindered(s, p, s.calls[p].address, s.calls[p].manifest)
    {
      var i := Unused(s.bytes.Keys);
      OpenOrHindered(w, s, p, i);
      open := opens(s.calls[p].done) && Enabled(w, s, CopyOpen(p, i));
      if open {
        Do(CopyOpen(p, i));
      }
    }

    /** Copy the bytes over, and close the copy. */
    method FinishCopy(p: nat, closes: nat -> bool) returns (placed: bool)
      requires Valid() && IsBuild(s, p) && s.calls[p].build.Copying?
      modifies this
      ensures Valid() && old(hist) <= hist && SameJob(old(s), s, p)
      ensures placed ==> Placed(old(s), s, p)
      ensures placed || !closes(old(s.calls[p].done))
              || HinderedSince(hist, |old(hist)| - 1, p, old(s.calls[p].address), old(s.calls[p].manifest))
    {
      ghost var a, manifest, before := s.calls[p].address, s.calls[p].manifest, hist;
      Wait(p);
      FillCopy(p);
      ghost var filled := hist;
      placed := CloseCopy(p, closes);
      HinderedAround(filled, hist, |before| - 1, p, a, manifest);
    }

    /** Copy the bytes over. */
    method FillCopy(p: nat)
      requires Valid() && IsBuild(s, p) && s.calls[p].build.Copying?
      modifies this
      ensures Valid() && old(hist) <= hist && SameJob(old(s), s, p) && s.calls[p].done == old(s.calls[p].done)
      ensures s.calls[p].build.Copying? && CopiedWhole(s, p)
    {
      assert ShapeOk(w, s.calls[p]) && CopyOk(w, s, p);
      var c := s.calls[p].build;
      assert !Writes(s.calls[p], c.src);
      Do(CopyChunk(p, |s.bytes[c.src]| - |s.bytes[c.dst]|));
      Wait(p);
    }

    /** The line is placed once the copy holds all bytes. */
    method CloseCopy(p: nat, closes: nat -> bool) returns (placed: bool)
      requires Valid() && IsBuild(s, p) && s.calls[p].build.Copying? && CopiedWhole(s, p)
      modifies this
      ensures Valid() && old(hist) <= hist && SameJob(old(s), s, p)
      ensures if placed then Placed(old(s), s, p) else s == old(s)
      ensures placed || !closes(s.calls[p].done) || Hindered(old(s), p, s.calls[p].address, s.calls[p].manifest)
    {
      CloseOrHindered(w, s, p);
      placed := closes(s.calls[p].done) && Enabled(w, s, CopyDone(p));
      if placed {
        Do(CopyDone(p));
      }
    }

    /** Delete a dead call's part directory, file by file, as far as that goes. */
    method ClearTree(p: nat, removes: bool)
      requires Valid() && p !in s.calls && !HasFile(s, Part(p))
      modifies this
      ensures Valid() && old(hist) <= hist && s.calls == old(s.calls) && (removes ==> Part(p) !in s.fs)
      ensures s.fs - {Part(p)} == old(s.fs) - {Part(p)}
    {
      while HasTree(s, Part(p)) && s.fs[Part(p)].links != map[]
        invariant Valid() && old(hist) <= hist && s.calls == old(s.calls) && !HasFile(s, Part(p))
        invariant s.fs - {Part(p)} == old(s.fs) - {Part(p)}
        decreases if HasTree(s, Part(p)) then |s.fs[Part(p)].links| else 0
      {
        var stuck: bool := *;
        if stuck && !removes {
          return;
        }
        RemoveOne(p);
      }
      if removes && HasTree(s, Part(p)) {
        Do(RemoveEmpty(Part(p)));
      }
    }

    method RemoveOne(p: nat)
      requires Valid() && p !in s.calls && HasTree(s, Part(p)) && s.fs[Part(p)].links != map[]
      modifies this
      ensures Valid() && old(hist) <= hist && s.calls == old(s.calls) && HasTree(s, Part(p))
      ensures s.fs - {Part(p)} == old(s.fs) - {Part(p)}
      ensures |s.fs[Part(p)].links| < |old(s.fs)[Part(p)].links|
    {
      var rel := PickOne(s.fs[Part(p)].links.Keys);
      Do(RemoveMember(Part(p), rel));
      assert s.fs[Part(p)].links.Keys == old(s.fs)[Part(p)].links.Keys - {rel};
    }

    /** Forget a failed or beaten assembly. */
    method DiscardTree(p: nat, removes: bool)
      requires Valid() && IsBuild(s, p)
      modifies this
      ensures Valid() && old(hist) <= hist && p !in s.calls && (removes ==> Part(p) !in s.fs)
      ensures s.fs - {Part(p)} == old(s.fs) - {Part(p)}
    {
      assert ShapeOk(w, s.calls[p]) && PartOk(s, p);
      Do(Depart(p));
      ClearTree(p, removes);
    }

    /** Place every member, in manifest order. */
    method PlaceAll(p: nat, manifest: seq<Line>, ghost a: Address, faults: BuildFaults) returns (placed: bool)
      requires Valid() && p !in s.issued && Distinct(manifest) && w.bundle(manifest) == Some(a)
      modifies this
      ensures Valid() && old(hist) <= hist
      ensures IsBuild(s, p) && s.calls[p].manifest == manifest && s.calls[p].address == a
      ensures placed ==> s.calls[p].build.Idle? && s.calls[p].done == |manifest|
      ensures placed || BuildRefused(digest, manifest, faults)
              || HinderedSince(hist, |old(hist)| - 1, p, a, manifest)
    {
      Do(StartBuild(p, manifest));
      for k := 0 to |manifest|
        invariant Valid() && old(hist) <= hist && IsBuild(s, p) && s.calls[p].build.Idle? && s.calls[p].done == k
        invariant s.calls[p].manifest == manifest && s.calls[p].address == a
      {
        ghost var before := hist;
        placed := PlaceMember(p, faults);
        if !placed {
          HinderedAround(before, hist, |old(hist)| - 1, p, a, manifest);
          return;
        }
      }
      placed := true;
    }

    /**
     * Assemble a bundle from its cached members, if its manifest has an address. On success the
     * directory there holds this manifest's members, each with its own bytes, and all of them unless
     * it was torn. It fails only if the manifest, a path or an operation does, or if at some instant a
     * member is not cached, the part directory is gone or torn, or a file is at the address. A part
     * directory is left behind only if it cannot be deleted.
     */
    method AssembleBundleTree(p: nat, manifest: seq<Line>, faults: BuildFaults) returns (ok: bool, a: Address)
      requires Valid() && p !in s.issued && Distinct(manifest)
      modifies this
      ensures Valid() && old(hist) <= hist && p !in s.calls && (faults.removes ==> Part(p) !in s.fs)
      ensures BundleHash(digest, manifest).Some? ==> a == BundleHash(digest, manifest).value
      ensures ok ==> BundleHash(digest, manifest) == Some(a) && HasTree(s, Final(a)) && LandingOk(w, s, a)
      ensures ok ==> Serves(w, digest, s, a, manifest)
      ensures ok || BuildRefused(digest, manifest, faults) || HinderedSince(hist, |old(hist)| - 1, p, a, manifest)
      ensures BundleHash(digest, manifest).Some? && ThereThroughout(hist, |old(hist)| - 1, Final(a)) ==> ok
    {
      var address := BundleHash(digest, manifest);
      Interleave(p);
      if address.None? {
        return false, Hash("");
      }
      a := address.value;
      ghost var before := hist;
      ok := HasTree(s, Final(a));
      if !ok {
        ok := BuildTree(p, manifest, a, faults);
        HinderedAround(before, hist, |old(hist)| - 1, p, a, manifest);
      }
      if ok {
        LandingServes(sha, digest, s, a, manifest);
      }
      assert hist[|before| - 1] == before[|before| - 1];
    }

    method BuildTree(p: nat, manifest: seq<Line>, a: Address, faults: BuildFaults) returns (ok: bool)
      requires Valid() && p !in s.issued && Distinct(manifest) && BundleHash(digest, manifest) == Some(a)
      modifies this
      ensures Valid() && old(hist) <= hist && p !in s.calls && (faults.removes ==> Part(p) !in s.fs)
      ensures ok ==> HasTree(s, Final(a)) && LandingOk(w, s, a)
      ensures ok || BuildRefused(digest, manifest, faults) || HinderedSince(hist, |old(hist)| - 1, p, a, manifest)
    {
      ok := PlaceAll(p, manifest, a, faults);
      ghost var placed := hist;
      if ok {
        AddressedIsNonempty(digest, manifest);
        ok := LandOrYield(p, faults);
      } else {
        DiscardTree(p, faults.removes);
      }
      HinderedAround(placed, hist, |old(hist)| - 1, p, a, manifest);
    }

    /** Rename into place, or find that another assembler has. */
    method LandOrYield(p: nat, faults: BuildFaults) returns (ok: bool)
      requires Valid() && IsBuild(s, p) && s.calls[p].build.Idle? && s.calls[p].done == |s.calls[p].manifest| > 0
      modifies this
      ensures Valid() && old(hist) <= hist && p !in s.calls && (faults.removes ==> Part(p) !in s.fs)
      ensures ok ==> HasTree(s, Final(old(s.calls[p].address))) && LandingOk(w, s, old(s.calls[p].address))
      ensures ok || !faults.renames
              || HinderedSince(hist, |old(hist)| - 1, p, old(s.calls[p].address), old(s.calls[p].manifest))
    {
      ghost var first, a, manifest := hist, s.calls[p].address, s.calls[p].manifest;
      Interleave(p);
      ghost var before := hist;
      ok := LandNow(p, faults);
      HinderedAround(before, hist, |first| - 1, p, a, manifest);
    }

    method LandNow(p: nat, faults: BuildFaults) returns (ok: bool)
      requires Valid() && IsBuild(s, p) && s.calls[p].build.Idle? && s.calls[p].done == |s.calls[p].manifest| > 0
      modifies this
      ensures Valid() && old(hist) <= hist && p !in s.calls && (faults.removes ==> Part(p) !in s.fs)
      ensures ok ==> HasTree(s, Final(old(s.calls[p].address))) && LandingOk(w, s, old(s.calls[p].address))
      ensures ok || !faults.renames
              || Hindered(old(s), p, old(s.calls[p].address), old(s.calls[p].manifest))
    {
      var a := s.calls[p].address;
      if faults.renames && Enabled(w, s, LandTree(p)) {
        Do(LandTree(p));
        return true;
      }
      ok := HasTree(s, Final(a));
      DiscardTree(p, faults.removes);
      assert Final(a) in s.fs - {Part(p)} <==> Final(a) in s.fs;
    }
  }
}
