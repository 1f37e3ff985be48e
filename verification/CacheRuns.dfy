/** Safety of the material cache over whole runs. */
module CacheRuns {
  import opened Basics
  import opened CacheMachine
  import opened CacheSafety

  lemma {:induction false} RunKeepsInv(w: World, s: State, steps: seq<Step>)
    requires Inv(w, s) && Runs(w, s, steps) && AllProper(steps)
    ensures Inv(w, After(w, s, steps))
    decreases |steps|
  {
    if steps != [] {
      var init := steps[..|steps| - 1];
      RunKeepsInv(w, s, init);
      assert Proper(steps[|steps| - 1]);
      StepKeepsInv(w, After(w, s, init), steps[|steps| - 1], After(w, s, steps));
    }
  }

  /**
   * Any number of materializers, assemblers and evictors, killed at any point: a regular file at a
   * content-hash address has bytes hashing to it.
   */
  lemma CachedFilesHash(w: World, steps: seq<Step>, digest: string)
    requires Runs(w, EMPTY, steps) && AllProper(steps)
    requires HasFile(After(w, EMPTY, steps), Final(Hash(digest)))
    ensures var s := After(w, EMPTY, steps);
            var i := s.fs[Final(Hash(digest))].inode;
            i in s.bytes && w.sha(s.bytes[i]) == digest
  {
    RunKeepsInv(w, EMPTY, steps);
    var s := After(w, EMPTY, steps);
    assert DigestOk(w, Hash(digest), s.bytes[s.fs[Final(Hash(digest))].inode]);
  }

  /**
   * A directory at a bundle address was assembled from a manifest with that address, every file in it
   * hashes to its member's address, and it holds exactly the manifest's paths if and only if no
   * eviction pass picked the part directory between the first link and the last.
   */
  lemma BundleCompleteUnlessTorn(w: World, steps: seq<Step>, a: Address)
    requires Runs(w, EMPTY, steps) && AllProper(steps)
    requires HasTree(After(w, EMPTY, steps), Final(a))
    ensures var s := After(w, EMPTY, steps);
            && a in s.landed && w.bundle(s.landed[a].manifest) == Some(a)
            && MembersHash(w, s.bytes, s.landed[a].manifest, |s.landed[a].manifest|, s.fs[Final(a)].links)
            && (Complete(w, s.bytes, s.landed[a].manifest, s.fs[Final(a)].links) <==> !s.landed[a].torn)
  {
    RunKeepsInv(w, EMPTY, steps);
    assert LandingOk(w, After(w, EMPTY, steps), a);
  }

  /** No eviction pass in the run picked a live, part-filled part directory. */
  predicate NeverTears(w: World, steps: seq<Step>)
    requires Runs(w, EMPTY, steps)
    decreases |steps|
  {
    steps == [] ||
    var init := steps[..|steps| - 1];
    NeverTears(w, init) && !Tears(After(w, EMPTY, init), steps[|steps| - 1])
  }

  ghost predicate Untorn(s: State) {
    && (forall p :: IsBuild(s, p) ==> !s.calls[p].torn)
    && (forall a :: a in s.landed ==> !s.landed[a].torn)
  }

  lemma UntornStep(w: World, s: State, step: Step)
    requires Untorn(s) && Enabled(w, s, step) && !Tears(s, step)
    ensures Untorn(Apply(w, s, step))
  {
    var s' := Apply(w, s, step);
    forall p | IsBuild(s', p) ensures !s'.calls[p].torn {
      if p in s.calls && s.calls[p].Build? {
        assert IsBuild(s, p);
      }
    }
  }

  lemma {:induction false} UntornRun(w: World, steps: seq<Step>)
    requires Runs(w, EMPTY, steps) && NeverTears(w, steps)
    ensures Untorn(After(w, EMPTY, steps))
    decreases |steps|
  {
    if steps != [] {
      var init := steps[..|steps| - 1];
      UntornRun(w, init);
      UntornStep(w, After(w, EMPTY, init), steps[|steps| - 1]);
    }
  }

  /** Under that assumption every directory at a bundle address is complete, always. */
  lemma BundlesAreComplete(w: World, steps: seq<Step>, a: Address)
    requires Runs(w, EMPTY, steps) && AllProper(steps) && NeverTears(w, steps)
    requires HasTree(After(w, EMPTY, steps), Final(a))
    ensures var s := After(w, EMPTY, steps);
            && a in s.landed && w.bundle(s.landed[a].manifest) == Some(a)
            && Complete(w, s.bytes, s.landed[a].manifest, s.fs[Final(a)].links)
  {
    BundleCompleteUnlessTorn(w, steps, a);
    UntornRun(w, steps);
  }
}
