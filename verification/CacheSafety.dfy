/** What every interleaving of materializers, assemblers and evictors keeps. */
module CacheSafety {
  import opened Basics
  import opened CacheMachine

  /** The call is the only writer of this inode. */
  predicate Writes(c: Call, i: Inode) {
    match c
    case Fetch(_, _, inode, _, _) => inode == i
    case Build(_, _, _, build, _) => build.Copying? && build.dst == i
  }

  // ----- The invariant, clause by clause -----

  ghost predicate NamesKnown(s: State) {
    && (forall name :: name in s.fs && s.fs[name].File? ==> s.fs[name].inode in s.bytes)
    && (forall name, rel :: name in s.fs && s.fs[name].Tree? && rel in s.fs[name].links ==>
        s.fs[name].links[rel] in s.bytes)
  }

  ghost predicate CallsKnown(s: State) {
    && (forall p :: p in s.calls ==> p in s.issued)
    && (forall p :: Part(p) in s.fs ==> p in s.issued)
    && (forall p, i :: p in s.calls && Writes(s.calls[p], i) ==> i in s.bytes)
  }

  ghost predicate OneWriter(s: State) {
    forall p, q, i :: p in s.calls && q in s.calls && Writes(s.calls[p], i) && Writes(s.calls[q], i) ==> p == q
  }

  /** A file being downloaded is visible under its own part name only. */
  ghost predicate FilesSealed(s: State) {
    forall name, p ::
      name in s.fs && s.fs[name].File? && p in s.calls && Writes(s.calls[p], s.fs[name].inode) ==>
        name.Trash? || (s.calls[p].Fetch? && name == Part(p))
  }

  /** A file being copied is visible in its own part directory only, at the line being copied. */
  ghost predicate TreesSealed(s: State) {
    forall name, rel, p ::
      name in s.fs && s.fs[name].Tree? && rel in s.fs[name].links && p in s.calls
      && Writes(s.calls[p], s.fs[name].links[rel]) ==>
        name.Trash? || (name == Part(p) && AtLine(s.calls[p], rel))
  }

  predicate AtLine(c: Call, rel: string) {
    c.Build? && c.done < |c.manifest| && rel == c.manifest[c.done].rel
  }

  ghost predicate FetchOk(w: World, s: State, p: nat)
    requires p in s.calls && s.calls[p].Fetch?
  {
    var c := s.calls[p];
    && c.inode in s.bytes && s.bytes[c.inode] == c.received
    && (!c.fetch.Streaming? ==> DigestOk(w, c.address, c.received))
    && (Part(p) in s.fs ==> s.fs[Part(p)] == File(c.inode))
  }

  ghost predicate FetchesOk(w: World, s: State) {
    forall p :: p in s.calls && s.calls[p].Fetch? ==> FetchOk(w, s, p)
  }

  /** Every regular file at a content-hash address hashes to it. */
  ghost predicate FilesHash(w: World, s: State) {
    forall a :: Final(a) in s.fs && s.fs[Final(a)].File? && s.fs[Final(a)].inode in s.bytes ==>
      DigestOk(w, a, s.bytes[s.fs[Final(a)].inode])
  }

  /** Those of the first `n` members that the tree holds have their own bytes. */
  ghost predicate MembersHash(
    w: World, bytes: map<Inode, Bytes>, manifest: seq<Line>, n: nat, links: map<string, Inode>)
    requires n <= |manifest|
  {
    forall i :: 0 <= i < n && manifest[i].rel in links && links[manifest[i].rel] in bytes ==>
      DigestOk(w, manifest[i].member, bytes[links[manifest[i].rel]])
  }

  function Paths(manifest: seq<Line>, n: nat): set<string>
    requires n <= |manifest|
  {
    set i | 0 <= i < n :: manifest[i].rel
  }

  /** How many lines have a link in the part directory. */
  function Linked(c: Call): nat
    requires c.Build?
  {
    if c.build.Copying? then c.done + 1 else c.done
  }

  predicate ShapeOk(w: World, c: Call)
    requires c.Build?
  {
    && w.bundle(c.manifest) == Some(c.address) && Distinct(c.manifest)
    && c.done <= |c.manifest| && (c.build.Idle? || c.done < |c.manifest|)
    && (c.torn ==> 0 < c.done)
  }

  ghost predicate ShapesOk(w: World, s: State) {
    forall p :: IsBuild(s, p) ==> ShapeOk(w, s.calls[p])
  }

  /** The part directory holds all links made so far, or was torn and lacks the first. */
  ghost predicate PartOk(s: State, p: nat)
    requires IsBuild(s, p) && s.calls[p].done <= |s.calls[p].manifest| && Linked(s.calls[p]) <= |s.calls[p].manifest|
    requires s.calls[p].torn ==> 0 < s.calls[p].done
  {
    var c := s.calls[p];
    && (Part(p) in s.fs ==> s.fs[Part(p)].Tree?)
    && (Part(p) in s.fs && !c.torn ==> s.fs[Part(p)].links.Keys == Paths(c.manifest, Linked(c)))
    && (Part(p) in s.fs && c.torn ==>
          s.fs[Part(p)].links.Keys <= Paths(c.manifest, Linked(c)) - {c.manifest[0].rel})
    && (Part(p) !in s.fs && !c.torn ==> c.done == 0 || c.done == |c.manifest|)
  }

  ghost predicate PartsOk(w: World, s: State)
    requires ShapesOk(w, s)
  {
    forall p :: IsBuild(s, p) ==> PartOk(s, p)
  }

  /** Links already made have the right bytes; the copy in progress is a prefix of a sealed source. */
  ghost predicate ContentOk(w: World, s: State, p: nat)
    requires IsBuild(s, p) && s.calls[p].done <= |s.calls[p].manifest|
  {
    var c := s.calls[p];
    HasTree(s, Part(p)) ==> MembersHash(w, s.bytes, c.manifest, c.done, s.fs[Part(p)].links)
  }

  ghost predicate CopyOk(w: World, s: State, p: nat)
    requires IsBuild(s, p) && ShapeOk(w, s.calls[p])
  {
    var c := s.calls[p];
    c.build.Copying? ==>
      var src, dst := c.build.src, c.build.dst;
      && src in s.bytes && dst in s.bytes && s.bytes[dst] <= s.bytes[src]
      && DigestOk(w, c.manifest[c.done].member, s.bytes[src])
      && (HasTree(s, Part(p)) && c.manifest[c.done].rel in s.fs[Part(p)].links ==>
            s.fs[Part(p)].links[c.manifest[c.done].rel] == dst)
  }

  ghost predicate SourcesSealed(s: State) {
    forall p, q :: IsBuild(s, p) && s.calls[p].build.Copying? && q in s.calls ==>
        !Writes(s.calls[q], s.calls[p].build.src)
  }

  ghost predicate BuildsOk(w: World, s: State)
    requires ShapesOk(w, s)
  {
    forall p :: IsBuild(s, p) ==> ContentOk(w, s, p) && CopyOk(w, s, p)
  }

  /** A tree with exactly the manifest's paths, each with its own bytes. */
  ghost predicate Complete(w: World, bytes: map<Inode, Bytes>, manifest: seq<Line>, links: map<string, Inode>) {
    links.Keys == Paths(manifest, |manifest|) && MembersHash(w, bytes, manifest, |manifest|, links)
  }

  ghost predicate LandingOk(w: World, s: State, a: Address)
    requires HasTree(s, Final(a))
  {
    var links := s.fs[Final(a)].links;
    && a in s.landed && w.bundle(s.landed[a].manifest) == Some(a)
    && MembersHash(w, s.bytes, s.landed[a].manifest, |s.landed[a].manifest|, links)
    && (links.Keys == Paths(s.landed[a].manifest, |s.landed[a].manifest|) <==> !s.landed[a].torn)
  }

  ghost predicate LandingsOk(w: World, s: State) {
    forall a :: HasTree(s, Final(a)) ==> LandingOk(w, s, a)
  }

  ghost predicate Inv(w: World, s: State) {
    && NamesKnown(s) && CallsKnown(s) && OneWriter(s) && FilesSealed(s) && TreesSealed(s) && SourcesSealed(s)
    && FetchesOk(w, s) && FilesHash(w, s) && ShapesOk(w, s) && PartsOk(w, s) && BuildsOk(w, s) && LandingsOk(w, s)
  }

  predicate Takes(w: World, s: State, step: Step, s': State) {
    Enabled(w, s, step) && s' == Apply(w, s, step)
  }

  ghost predicate Stepped(w: World, s: State, step: Step, s': State) {
    Inv(w, s) && Proper(step) && Takes(w, s, step, s')
  }

  // ----- What one step can change -----

  /** With distinct paths a copy never writes through an existing link. */
  lemma CopyIsFresh(w: World, s: State, step: Step, s': State)
    requires Stepped(w, s, step, s') && step.CopyOpen?
    ensures s.calls[step.p].manifest[s.calls[step.p].done].rel !in s.fs[Part(step.p)].links
  {
    assert ShapeOk(w, s.calls[step.p]) && PartOk(s, step.p);
  }

  predicate TakesFresh(w: World, s: State, step: Step, s': State) {
    && Takes(w, s, step, s')
    && (step.CopyOpen? ==> s.calls[step.p].manifest[s.calls[step.p].done].rel !in s.fs[Part(step.p)].links)
  }

  lemma StepIsFresh(w: World, s: State, step: Step, s': State)
    requires Stepped(w, s, step, s')
    ensures TakesFresh(w, s, step, s')
  {
    if step.CopyOpen? {
      CopyIsFresh(w, s, step, s');
    }
  }

  /** The file the step writes to. */
  predicate StepWrites(s: State, step: Step, i: Inode) {
    && (step.Receive? || step.CopyChunk?) && step.p in s.calls && Writes(s.calls[step.p], i)
  }

  lemma OnlyTheWriterWrites(w: World, s: State, step: Step, s': State, i: Inode)
    requires TakesFresh(w, s, step, s') && i in s.bytes && !StepWrites(s, step, i)
    ensures i in s'.bytes && s'.bytes[i] == s.bytes[i]
  {
  }

  /** Who writes an old file was writing it already, at the same line. */
  ghost predicate WritersOld(s: State, s': State) {
    forall p, i :: p in s'.calls && i in s.bytes && Writes(s'.calls[p], i) ==>
      p in s.calls && Writes(s.calls[p], i) && SameLine(s.calls[p], s'.calls[p])
  }

  predicate SameLine(c: Call, c': Call) {
    c.Build? == c'.Build? && (c.Build? ==> c.done == c'.done && c.manifest == c'.manifest)
  }

  lemma WriterStays(w: World, s: State, step: Step, s': State, p: nat, i: Inode)
    requires TakesFresh(w, s, step, s') && p in s'.calls && i in s.bytes && Writes(s'.calls[p], i)
    ensures p in s.calls && Writes(s.calls[p], i) && SameLine(s.calls[p], s'.calls[p])
  {
  }

  lemma WritersStay(w: World, s: State, step: Step, s': State)
    requires TakesFresh(w, s, step, s')
    ensures WritersOld(s, s')
  {
    forall p, i | p in s'.calls && i in s.bytes && Writes(s'.calls[p], i)
      ensures p in s.calls && Writes(s.calls[p], i) && SameLine(s.calls[p], s'.calls[p])
    {
      WriterStays(w, s, step, s', p, i);
    }
  }

  ghost predicate Sealed(s: State, i: Inode) {
    i in s.bytes && forall p :: p in s.calls ==> !Writes(s.calls[p], i)
  }

  /** A file nobody writes keeps its bytes, and nobody starts to write it. */
  ghost predicate SealedKept(s: State, s': State) {
    forall i :: Sealed(s, i) ==> Sealed(s', i) && s'.bytes[i] == s.bytes[i]
  }

  lemma SealedStay(s: State, s': State, i: Inode)
    requires Sealed(s, i) && WritersOld(s, s') && i in s'.bytes
    ensures Sealed(s', i)
  {
  }

  lemma SealedStays(w: World, s: State, step: Step, s': State)
    requires TakesFresh(w, s, step, s')
    ensures SealedKept(s, s')
  {
    WritersStay(w, s, step, s');
    forall i | Sealed(s, i) ensures Sealed(s', i) && s'.bytes[i] == s.bytes[i] {
      assert !StepWrites(s, step, i);
      OnlyTheWriterWrites(w, s, step, s', i);
      SealedStay(s, s', i);
    }
  }

  lemma PartsTyped(w: World, s: State)
    requires Inv(w, s)
    ensures forall p :: p in s.calls && s.calls[p].Fetch? && Part(p) in s.fs ==> s.fs[Part(p)] == File(s.calls[p].inode)
    ensures forall p :: p in s.calls && s.calls[p].Build? && Part(p) in s.fs ==> s.fs[Part(p)].Tree?
  {
    forall p | p in s.calls && s.calls[p].Build? && Part(p) in s.fs ensures s.fs[Part(p)].Tree? {
      assert IsBuild(s, p);
      assert PartOk(s, p);
    }
    forall p | p in s.calls && s.calls[p].Fetch? && Part(p) in s.fs ensures s.fs[Part(p)] == File(s.calls[p].inode) {
      assert FetchOk(w, s, p);
    }
  }

  predicate Unchanged(s: State, s': State, name: Name) {
    name in s.fs && name in s'.fs && s'.fs[name] == s.fs[name]
  }

  /** The entry was call `p`'s part, renamed into place, and the call is over. */
  predicate LandedFrom(s: State, s': State, p: nat, name: Name) {
    && p in s.calls && p !in s'.calls && name == Final(s.calls[p].address)
    && Part(p) in s.fs && name in s'.fs && s'.fs[name] == s.fs[Part(p)]
    && (s.calls[p].Fetch? ==> !s.calls[p].fetch.Streaming?)
    && (s.calls[p].Build? ==> s.calls[p].build.Idle? && s.calls[p].done == |s.calls[p].manifest|)
  }

  /** Where a regular file can come from. */
  ghost predicate FileOrigins(s: State, s': State) {
    forall name :: HasFile(s', name) ==>
      || Unchanged(s, s', name) || name.Trash? || NewDownload(s, s', name)
      || exists p :: LandedFrom(s, s', p, name)
  }

  predicate NewDownload(s: State, s': State, name: Name)
    requires HasFile(s', name)
  {
    name.Part? && s'.fs[name].inode !in s.bytes && name.owner in s'.calls
    && Writes(s'.calls[name.owner], s'.fs[name].inode)
    && s'.calls[name.owner].Fetch?
  }

  lemma FilesComeFrom(w: World, s: State, step: Step, s': State)
    requires Stepped(w, s, step, s')
    ensures FileOrigins(s, s')
  {
    PartsTyped(w, s);
    forall name | HasFile(s', name)
      ensures Unchanged(s, s', name) || name.Trash? || NewDownload(s, s', name)
              || exists p :: LandedFrom(s, s', p, name)
    {
      FileComesFrom(w, s, step, s', name);
    }
  }

  lemma FileComesFrom(w: World, s: State, step: Step, s': State, name: Name)
    requires Takes(w, s, step, s') && HasFile(s', name)
    requires step.LandTree? && Part(step.p) in s.fs ==> s.fs[Part(step.p)].Tree?
    ensures Unchanged(s, s', name) || name.Trash? || NewDownload(s, s', name) || exists p :: LandedFrom(s, s', p, name)
  {
    if step.Land? && name == Final(s.calls[step.p].address) {
      assert LandedFrom(s, s', step.p, name);
    }
  }

  /** Where a link of a tree can come from. */
  ghost predicate LinkOrigins(s: State, s': State) {
    forall name, rel :: HasTree(s', name) && rel in s'.fs[name].links ==> LinkOrigin(s, s', name, rel)
  }

  ghost predicate LinkOrigin(s: State, s': State, name: Name, rel: string)
    requires HasTree(s', name) && rel in s'.fs[name].links
  {
    || name.Trash?
    || (HasTree(s, name) && rel in s.fs[name].links && s'.fs[name].links[rel] == s.fs[name].links[rel])
    || Sealed(s, s'.fs[name].links[rel])
    || NewCopy(s, s', name, rel)
    || exists p :: LandedFrom(s, s', p, name)
  }

  predicate NewCopy(s: State, s': State, name: Name, rel: string)
    requires HasTree(s', name) && rel in s'.fs[name].links
  {
    var i := s'.fs[name].links[rel];
    && name.Part? && i !in s.bytes && name.owner in s'.calls
    && Writes(s'.calls[name.owner], i) && AtLine(s'.calls[name.owner], rel)
  }

  lemma FinalFileSealed(w: World, s: State, a: Address)
    requires Inv(w, s) && HasFile(s, Final(a))
    ensures Sealed(s, s.fs[Final(a)].inode)
  {
    var i := s.fs[Final(a)].inode;
    assert i in s.bytes;
    forall p | p in s.calls ensures !Writes(s.calls[p], i) {
    }
  }

  lemma LinksComeFrom(w: World, s: State, step: Step, s': State)
    requires Stepped(w, s, step, s')
    ensures LinkOrigins(s, s')
  {
    StepIsFresh(w, s, step, s');
    PartsTyped(w, s);
    if step.Link? {
      FinalFileSealed(w, s, s.calls[step.p].manifest[s.calls[step.p].done].member);
    }
    forall name, rel | HasTree(s', name) && rel in s'.fs[name].links ensures LinkOrigin(s, s', name, rel) {
      LinkComesFrom(w, s, step, s', name, rel);
    }
  }

  lemma LinkComesFrom(w: World, s: State, step: Step, s': State, name: Name, rel: string)
    requires TakesFresh(w, s, step, s') && HasTree(s', name) && rel in s'.fs[name].links
    requires step.Land? && Part(step.p) in s.fs ==> s.fs[Part(step.p)].File?
    requires step.Link? ==> Sealed(s, s.fs[Final(s.calls[step.p].manifest[s.calls[step.p].done].member)].inode)
    ensures LinkOrigin(s, s', name, rel)
  {
    if step.LandTree? && name == Final(s.calls[step.p].address) {
      assert LandedFrom(s, s', step.p, name);
    }
  }

  // ----- Every step keeps the invariant -----

  lemma KeepsFileNames(w: World, s: State, step: Step, s': State)
    requires Takes(w, s, step, s') && NamesKnown(s) && CallsKnown(s)
    ensures forall name :: name in s'.fs && s'.fs[name].File? ==> s'.fs[name].inode in s'.bytes
  {
  }

  lemma KeepsTreeNames(w: World, s: State, step: Step, s': State)
    requires Takes(w, s, step, s') && NamesKnown(s)
    ensures forall name, rel :: name in s'.fs && s'.fs[name].Tree? && rel in s'.fs[name].links ==>
        s'.fs[name].links[rel] in s'.bytes
  {
  }

  lemma KeepsNames(w: World, s: State, step: Step, s': State)
    requires Stepped(w, s, step, s')
    ensures NamesKnown(s')
  {
    KeepsFileNames(w, s, step, s');
    KeepsTreeNames(w, s, step, s');
  }

  lemma KeepsIssued(w: World, s: State, step: Step, s': State)
    requires Takes(w, s, step, s') && CallsKnown(s)
    ensures forall p :: p in s'.calls ==> p in s'.issued
    ensures forall p :: Part(p) in s'.fs ==> p in s'.issued
  {
  }

  lemma KeepsWritten(w: World, s: State, step: Step, s': State)
    requires Takes(w, s, step, s') && CallsKnown(s) && NamesKnown(s)
    ensures forall p, i :: p in s'.calls && Writes(s'.calls[p], i) ==> i in s'.bytes
  {
  }

  lemma KeepsCalls(w: World, s: State, step: Step, s': State)
    requires Stepped(w, s, step, s')
    ensures CallsKnown(s')
  {
    KeepsIssued(w, s, step, s');
    KeepsWritten(w, s, step, s');
  }

  lemma NewWriter(w: World, s: State, step: Step, s': State, p: nat, i: Inode)
    requires Takes(w, s, step, s') && p in s'.calls && Writes(s'.calls[p], i) && i !in s.bytes
    requires p in s.calls && Writes(s.calls[p], i) ==> i in s.bytes
    ensures (step.StartFetch? || step.CopyOpen?) && p == step.p
  {
  }

  lemma KeepsOneWriter(w: World, s: State, step: Step, s': State)
    requires TakesFresh(w, s, step, s') && CallsKnown(s) && OneWriter(s)
    ensures OneWriter(s')
  {
    WritersStay(w, s, step, s');
    forall p, q, i | p in s'.calls && q in s'.calls && Writes(s'.calls[p], i) && Writes(s'.calls[q], i) ensures p == q {
      if i !in s.bytes {
        NewWriter(w, s, step, s', p, i);
        NewWriter(w, s, step, s', q, i);
      }
    }
  }

  lemma FilesStaySealed(s: State, s': State)
    requires NamesKnown(s) && FilesSealed(s) && OneWriter(s) && OneWriter(s') && WritersOld(s, s') && FileOrigins(s, s')
    requires forall p :: p in s.calls && s.calls[p].Fetch? && Part(p) in s.fs ==>
             s.fs[Part(p)] == File(s.calls[p].inode)
    requires forall p :: p in s.calls && s.calls[p].Build? && Part(p) in s.fs ==> s.fs[Part(p)].Tree?
    ensures FilesSealed(s')
  {
    forall name, p | HasFile(s', name) && p in s'.calls && Writes(s'.calls[p], s'.fs[name].inode)
      ensures name.Trash? || (s'.calls[p].Fetch? && name == Part(p))
    {
      var i := s'.fs[name].inode;
      if Unchanged(s, s', name) {
        assert i in s.bytes;
      } else if !name.Trash? && !NewDownload(s, s', name) {
        var q :| LandedFrom(s, s', q, name);
        assert s.fs[Part(q)] == File(i) && i in s.bytes;
        assert Writes(s.calls[q], i);
      }
    }
  }

  lemma KeepsFilesSealed(w: World, s: State, step: Step, s': State)
    requires Stepped(w, s, step, s') && OneWriter(s')
    ensures FilesSealed(s')
  {
    StepIsFresh(w, s, step, s');
    WritersStay(w, s, step, s');
    FilesComeFrom(w, s, step, s');
    assert FilesSealed(s') by {
      PartsTyped(w, s);
      FilesStaySealed(s, s');
    }
  }

  lemma TreesStaySealed(s: State, s': State)
    requires NamesKnown(s) && TreesSealed(s) && OneWriter(s') && WritersOld(s, s') && LinkOrigins(s, s')
    requires SealedKept(s, s')
    ensures TreesSealed(s')
  {
    forall name, rel, p
      | name in s'.fs && s'.fs[name].Tree? && rel in s'.fs[name].links && p in s'.calls
        && Writes(s'.calls[p], s'.fs[name].links[rel])
      ensures name.Trash? || (name == Part(p) && AtLine(s'.calls[p], rel))
    {
      if !name.Trash? {
        assert HasTree(s', name) && LinkOrigin(s, s', name, rel);
        LinkStaysSealed(s, s', name, rel, p);
      }
    }
  }

  lemma LandedLinkHasNoWriter(s: State, s': State, q: nat, name: Name, rel: string, p: nat)
    requires NamesKnown(s) && TreesSealed(s) && WritersOld(s, s') && LandedFrom(s, s', q, name)
    requires HasTree(s', name) && rel in s'.fs[name].links && p in s'.calls
    ensures !Writes(s'.calls[p], s'.fs[name].links[rel])
  {
    assert HasTree(s, Part(q)) && rel in s.fs[Part(q)].links;
    assert s.fs[Part(q)].links[rel] in s.bytes;
  }

  lemma LinkStaysSealed(s: State, s': State, name: Name, rel: string, p: nat)
    requires NamesKnown(s) && TreesSealed(s) && OneWriter(s') && WritersOld(s, s') && SealedKept(s, s')
    requires HasTree(s', name) && rel in s'.fs[name].links && p in s'.calls
             && Writes(s'.calls[p], s'.fs[name].links[rel])
    requires !name.Trash? && LinkOrigin(s, s', name, rel)
    ensures name == Part(p) && AtLine(s'.calls[p], rel)
  {
    var i := s'.fs[name].links[rel];
    if NewCopy(s, s', name, rel) {
      assert p == name.owner;
    } else if HasTree(s, name) && rel in s.fs[name].links && s.fs[name].links[rel] == i {
      assert Writes(s.calls[p], i);
    } else if !Sealed(s, i) {
      var q :| LandedFrom(s, s', q, name);
      LandedLinkHasNoWriter(s, s', q, name, rel, p);
    }
  }

  lemma KeepsTreesSealed(w: World, s: State, step: Step, s': State)
    requires Stepped(w, s, step, s') && OneWriter(s')
    ensures TreesSealed(s')
  {
    StepIsFresh(w, s, step, s');
    WritersStay(w, s, step, s');
    SealedStays(w, s, step, s');
    LinksComeFrom(w, s, step, s');
    TreesStaySealed(s, s');
  }

  lemma CopierComesFrom(w: World, s: State, step: Step, s': State, p: nat)
    requires Takes(w, s, step, s') && IsBuild(s', p) && s'.calls[p].build.Copying?
    ensures (step.CopyOpen? && step.p == p && s'.calls[p].build.src ==
        s.fs[Final(s.calls[p].manifest[s.calls[p].done].member)].inode)
         || (IsBuild(s, p) && s.calls[p].build.Copying? && s.calls[p].build.src == s'.calls[p].build.src)
  {
  }

  lemma KeepsSourcesSealed(w: World, s: State, step: Step, s': State)
    requires Stepped(w, s, step, s')
    ensures SourcesSealed(s')
  {
    StepIsFresh(w, s, step, s');
    SealedStays(w, s, step, s');
    forall p | IsBuild(s', p) && s'.calls[p].build.Copying? ensures Sealed(s', s'.calls[p].build.src) {
      CopierComesFrom(w, s, step, s', p);
      if step.CopyOpen? && step.p == p {
        FinalFileSealed(w, s, s.calls[p].manifest[s.calls[p].done].member);
      } else {
        assert CopyOk(w, s, p);
        assert Sealed(s, s.calls[p].build.src);
      }
    }
  }

  lemma KeepsFetches(w: World, s: State, step: Step, s': State)
    requires Stepped(w, s, step, s')
    ensures FetchesOk(w, s')
  {
    StepIsFresh(w, s, step, s');
    forall p | p in s'.calls && s'.calls[p].Fetch? ensures FetchOk(w, s', p) {
      if p in s.calls {
        assert p in s.issued && FetchOk(w, s, p);
        FetchedBytes(w, s, step, s', p);
        FetchPart(w, s, step, s', p);
      } else {
        FetchStarts(w, s, step, s', p);
      }
    }
  }

  lemma FetchStarts(w: World, s: State, step: Step, s': State, p: nat)
    requires Takes(w, s, step, s') && p !in s.calls && p in s'.calls && s'.calls[p].Fetch?
    ensures FetchOk(w, s', p)
  {
  }

  lemma FetchedBytes(w: World, s: State, step: Step, s': State, p: nat)
    requires TakesFresh(w, s, step, s') && OneWriter(s) && p in s.issued
    requires p in s.calls && s.calls[p].Fetch? && p in s'.calls && s'.calls[p].Fetch? && FetchOk(w, s, p)
    ensures s'.calls[p].inode in s'.bytes && s'.bytes[s'.calls[p].inode] == s'.calls[p].received
  {
    var i := s.calls[p].inode;
    assert Writes(s.calls[p], i);
    if StepWrites(s, step, i) {
      assert step.p == p;
    } else {
      OnlyTheWriterWrites(w, s, step, s', i);
      SameReceived(w, s, step, s', p);
    }
  }

  lemma SameReceived(w: World, s: State, step: Step, s': State, p: nat)
    requires Takes(w, s, step, s') && p in s.issued
    requires p in s.calls && s.calls[p].Fetch? && p in s'.calls && s'.calls[p].Fetch?
    requires !StepWrites(s, step, s.calls[p].inode)
    ensures s'.calls[p].inode == s.calls[p].inode && s'.calls[p].received == s.calls[p].received
  {
  }

  lemma FetchPart(w: World, s: State, step: Step, s': State, p: nat)
    requires Takes(w, s, step, s') && p in s.issued
    requires p in s.calls && s.calls[p].Fetch? && p in s'.calls && s'.calls[p].Fetch? && FetchOk(w, s, p)
    ensures s'.calls[p].inode == s.calls[p].inode && s'.calls[p].address == s.calls[p].address
    ensures !s'.calls[p].fetch.Streaming? ==> DigestOk(w, s'.calls[p].address, s'.calls[p].received)
    ensures Part(p) in s'.fs ==> s'.fs[Part(p)] == File(s'.calls[p].inode)
  {
    FetchChecked(w, s, step, s', p);
    FetchPartFile(w, s, step, s', p);
  }

  lemma FetchChecked(w: World, s: State, step: Step, s': State, p: nat)
    requires Takes(w, s, step, s') && p in s.issued
    requires p in s.calls && s.calls[p].Fetch? && p in s'.calls && s'.calls[p].Fetch?
    requires !s.calls[p].fetch.Streaming? ==> DigestOk(w, s.calls[p].address, s.calls[p].received)
    ensures s'.calls[p].inode == s.calls[p].inode && s'.calls[p].address == s.calls[p].address
    ensures !s'.calls[p].fetch.Streaming? ==> DigestOk(w, s'.calls[p].address, s'.calls[p].received)
  {
  }

  lemma FetchPartFile(w: World, s: State, step: Step, s': State, p: nat)
    requires Takes(w, s, step, s') && p in s.issued
    requires p in s.calls && s.calls[p].Fetch? && p in s'.calls && s'.calls[p].Fetch?
    requires Part(p) in s.fs ==> s.fs[Part(p)] == File(s.calls[p].inode)
    ensures Part(p) in s'.fs ==> s'.fs[Part(p)] == File(s.calls[p].inode)
  {
  }

  lemma FilesStayHashed(w: World, s: State, s': State)
    requires Inv(w, s) && SealedKept(s, s') && FileOrigins(s, s') && WritersOld(s, s')
    requires forall p, i :: p in s.calls && p !in s'.calls && Writes(s.calls[p], i) && s.calls[p].Fetch? ==>
               i in s.bytes && i in s'.bytes && s'.bytes[i] == s.bytes[i]
    ensures FilesHash(w, s')
  {
    forall a | HasFile(s', Final(a)) && s'.fs[Final(a)].inode in s'.bytes
      ensures DigestOk(w, a, s'.bytes[s'.fs[Final(a)].inode])
    {
      var name := Final(a);
      if Unchanged(s, s', name) {
        FinalFileSealed(w, s, a);
      } else {
        var p :| LandedFrom(s, s', p, name);
        PartsTyped(w, s);
        assert FetchOk(w, s, p);
        assert Writes(s.calls[p], s.calls[p].inode);
      }
    }
  }

  lemma LandedFetchKeepsBytes(w: World, s: State, step: Step, s': State, p: nat, i: Inode)
    requires TakesFresh(w, s, step, s') && CallsKnown(s)
    requires p in s.calls && p !in s'.calls && s.calls[p].Fetch? && Writes(s.calls[p], i)
    ensures i in s.bytes && i in s'.bytes && s'.bytes[i] == s.bytes[i]
  {
    assert step.Land? || step.LandTree? || step.Depart?;
  }

  lemma KeepsFilesHash(w: World, s: State, step: Step, s': State)
    requires Stepped(w, s, step, s')
    ensures FilesHash(w, s')
  {
    StepIsFresh(w, s, step, s');
    SealedStays(w, s, step, s');
    WritersStay(w, s, step, s');
    FilesComeFrom(w, s, step, s');
    forall p, i | p in s.calls && p !in s'.calls && Writes(s.calls[p], i) && s.calls[p].Fetch?
      ensures i in s.bytes && i in s'.bytes && s'.bytes[i] == s.bytes[i]
    {
      LandedFetchKeepsBytes(w, s, step, s', p, i);
    }
    FilesStayHashed(w, s, s');
  }

  lemma ShapeStays(w: World, s: State, step: Step, s': State, p: nat)
    requires Takes(w, s, step, s') && Proper(step) && IsBuild(s', p) && (IsBuild(s, p) ==> ShapeOk(w, s.calls[p]))
    ensures ShapeOk(w, s'.calls[p])
  {
  }

  lemma KeepsShapes(w: World, s: State, step: Step, s': State)
    requires Takes(w, s, step, s') && Proper(step) && ShapesOk(w, s)
    ensures ShapesOk(w, s')
  {
    forall p | IsBuild(s', p) ensures ShapeOk(w, s'.calls[p]) {
      ShapeStays(w, s, step, s', p);
    }
  }

  lemma PathsStep(manifest: seq<Line>, n: nat)
    requires n < |manifest|
    ensures Paths(manifest, n + 1) == Paths(manifest, n) + {manifest[n].rel}
  {
    assert forall i :: 0 <= i < n + 1 ==> i < n || manifest[i].rel == manifest[n].rel;
    assert manifest[n].rel in Paths(manifest, n + 1);
  }

  lemma BuildIsNew(w: World, s: State, step: Step, s': State, p: nat)
    requires Takes(w, s, step, s') && (Part(p) in s.fs ==> p in s.issued) && !IsBuild(s, p) && IsBuild(s', p)
    ensures Part(p) !in s'.fs && !s'.calls[p].build.Copying? && s'.calls[p].done == 0 && !s'.calls[p].torn
  {
  }

  lemma KeepsParts(w: World, s: State, step: Step, s': State)
    requires Takes(w, s, step, s') && CallsKnown(s) && ShapesOk(w, s) && PartsOk(w, s) && ShapesOk(w, s')
    ensures PartsOk(w, s')
  {
    forall p | IsBuild(s', p) ensures PartOk(s', p) {
      assert ShapeOk(w, s'.calls[p]);
      if IsBuild(s, p) {
        assert ShapeOk(w, s.calls[p]) && PartOk(s, p);
        PartStays(w, s, step, s', p);
      } else {
        BuildIsNew(w, s, step, s', p);
      }
    }
  }

  /** The step is one of the call's own, or hits its part directory. */
  predicate Touches(step: Step, p: nat) {
    match step
    case EvictFile(name) => name == Part(p)
    case EvictTree(name, _) => name == Part(p)
    case RemoveMember(name, _) => name == Part(p)
    case RemoveEmpty(name) => name == Part(p)
    case _ => step.p == p
  }

  lemma UntouchedStays(w: World, s: State, step: Step, s': State, p: nat)
    requires Takes(w, s, step, s') && IsBuild(s, p) && !Touches(step, p)
    ensures IsBuild(s', p) && s'.calls[p] == s.calls[p]
    ensures Part(p) in s'.fs <==> Part(p) in s.fs
    ensures Part(p) in s.fs ==> s'.fs[Part(p)] == s.fs[Part(p)]
  {
  }

  /** The part directory is hit from outside the call. */
  lemma PartHit(w: World, s: State, step: Step, s': State, p: nat)
    requires Takes(w, s, step, s') && IsBuild(s, p) && Touches(step, p)
    requires step.EvictFile? || step.EvictTree? || step.RemoveMember? || step.RemoveEmpty?
    requires ShapeOk(w, s.calls[p]) && PartOk(s, p)
    ensures IsBuild(s', p) && ShapeOk(w, s'.calls[p]) && PartOk(s', p)
  {
    if step.RemoveEmpty? {
      assert 0 < s.calls[p].done ==> s.calls[p].manifest[0].rel in Paths(s.calls[p].manifest, Linked(s.calls[p]));
    }
  }

  lemma PartAdvances(w: World, s: State, step: Step, s': State, p: nat)
    requires Takes(w, s, step, s') && p in s.issued && IsBuild(s, p) && IsBuild(s', p) && Touches(step, p)
    requires !step.EvictFile? && !step.EvictTree? && !step.RemoveMember? && !step.RemoveEmpty?
    requires ShapeOk(w, s.calls[p]) && ShapeOk(w, s'.calls[p]) && PartOk(s, p)
    requires step.Link? || step.CopyOpen? ==>
               var c := s.calls[p];
               Paths(c.manifest, c.done + 1) == Paths(c.manifest, c.done) + {c.manifest[c.done].rel}
    ensures PartOk(s', p)
  {
  }

  lemma PartStays(w: World, s: State, step: Step, s': State, p: nat)
    requires Takes(w, s, step, s') && CallsKnown(s) && IsBuild(s, p) && IsBuild(s', p)
    requires ShapeOk(w, s.calls[p]) && ShapeOk(w, s'.calls[p]) && PartOk(s, p)
    ensures PartOk(s', p)
  {
    if !Touches(step, p) {
      UntouchedStays(w, s, step, s', p);
    } else if step.EvictFile? || step.EvictTree? || step.RemoveMember? || step.RemoveEmpty? {
      PartHit(w, s, step, s', p);
    } else {
      if step.Link? || step.CopyOpen? {
        PathsStep(s.calls[p].manifest, s.calls[p].done);
      }
      PartAdvances(w, s, step, s', p);
    }
  }

  /** Links already made are not being written. */
  lemma MadeLinkIsSealed(w: World, s: State, p: nat, i: nat)
    requires Inv(w, s) && IsBuild(s, p) && HasTree(s, Part(p)) && ShapeOk(w, s.calls[p]) && i < s.calls[p].done
    requires s.calls[p].manifest[i].rel in s.fs[Part(p)].links
    ensures Sealed(s, s.fs[Part(p)].links[s.calls[p].manifest[i].rel])
  {
    var c := s.calls[p];
    var rel := c.manifest[i].rel;
    assert s.fs[Part(p)].links[rel] in s.bytes;
    forall q | q in s.calls ensures !Writes(s.calls[q], s.fs[Part(p)].links[rel]) {
      assert c.done < |c.manifest| ==> rel != c.manifest[c.done].rel;
    }
  }

  lemma ContentStays(w: World, s: State, step: Step, s': State, p: nat)
    requires Stepped(w, s, step, s') && IsBuild(s, p) && !Touches(step, p) && SealedKept(s, s')
    requires ShapeOk(w, s.calls[p]) && ContentOk(w, s, p)
    ensures IsBuild(s', p) && s'.calls[p] == s.calls[p] && ContentOk(w, s', p)
  {
    UntouchedStays(w, s, step, s', p);
    if HasTree(s', Part(p)) {
      LinksStayHashed(w, s, s', p);
    }
  }

  /** The links made so far keep their bytes. */
  lemma LinksStayHashed(w: World, s: State, s': State, p: nat)
    requires Inv(w, s) && IsBuild(s, p) && SealedKept(s, s')
    requires ShapeOk(w, s.calls[p]) && ContentOk(w, s, p) && HasTree(s, Part(p))
    ensures MembersHash(w, s'.bytes, s.calls[p].manifest, s.calls[p].done, s.fs[Part(p)].links)
  {
    var c := s.calls[p];
    var links := s.fs[Part(p)].links;
    forall i | 0 <= i < c.done && c.manifest[i].rel in links && links[c.manifest[i].rel] in s'.bytes
      ensures DigestOk(w, c.manifest[i].member, s'.bytes[links[c.manifest[i].rel]])
    {
      MadeLinkIsSealed(w, s, p, i);
    }
  }

  lemma MembersHashGrows(
    w: World, bytes: map<Inode, Bytes>, manifest: seq<Line>, n: nat, links: map<string, Inode>,
    links': map<string, Inode>)
    requires n < |manifest| && Distinct(manifest) && MembersHash(w, bytes, manifest, n, links)
    requires manifest[n].rel in links' && links'[manifest[n].rel] in bytes
    requires DigestOk(w, manifest[n].member, bytes[links'[manifest[n].rel]])
    requires links' - {manifest[n].rel} == links - {manifest[n].rel}
    ensures MembersHash(w, bytes, manifest, n + 1, links')
  {
    forall i | 0 <= i < n + 1 && manifest[i].rel in links' && links'[manifest[i].rel] in bytes
      ensures DigestOk(w, manifest[i].member, bytes[links'[manifest[i].rel]])
    {
      if i < n {
        assert manifest[i].rel in links' - {manifest[n].rel};
        assert links[manifest[i].rel] == links'[manifest[i].rel];
      }
    }
  }

  lemma ContentAfterLink(w: World, s: State, step: Step, s': State)
    requires Stepped(w, s, step, s') && step.Link? && SealedKept(s, s')
    requires ShapeOk(w, s.calls[step.p]) && ContentOk(w, s, step.p)
    ensures IsBuild(s', step.p) && s'.calls[step.p].done <= |s'.calls[step.p].manifest| && ContentOk(w, s', step.p)
  {
    var p := step.p;
    var c := s.calls[p];
    var line := c.manifest[c.done];
    LinksStayHashed(w, s, s', p);
    FinalFileSealed(w, s, line.member);
    assert DigestOk(w, line.member, s.bytes[s.fs[Final(line.member)].inode]);
    var links, links' := s.fs[Part(p)].links, s'.fs[Part(p)].links;
    assert links' == links[line.rel := s.fs[Final(line.member)].inode];
    assert links' - {line.rel} == links - {line.rel};
    MembersHashGrows(w, s'.bytes, c.manifest, c.done, links, links');
  }

  lemma ContentAfterCopy(w: World, s: State, step: Step, s': State)
    requires Stepped(w, s, step, s') && step.CopyDone?
    requires ShapeOk(w, s.calls[step.p]) && ContentOk(w, s, step.p) && CopyOk(w, s, step.p)
    ensures IsBuild(s', step.p) && s'.calls[step.p].done <= |s'.calls[step.p].manifest| && ContentOk(w, s', step.p)
  {
    var c := s.calls[step.p];
    assert s.bytes[c.build.dst] == s.bytes[c.build.src];
    MembersHashGrows(w, s.bytes, c.manifest, c.done, s.fs[Part(step.p)].links, s.fs[Part(step.p)].links);
  }

  lemma ContentAfterOpen(w: World, s: State, step: Step, s': State)
    requires Stepped(w, s, step, s') && step.CopyOpen? && SealedKept(s, s')
    requires ShapeOk(w, s.calls[step.p]) && ContentOk(w, s, step.p)
    ensures IsBuild(s', step.p) && s'.calls[step.p].done <= |s'.calls[step.p].manifest| && ContentOk(w, s', step.p)
  {
    var p := step.p;
    var c := s.calls[p];
    CopyIsFresh(w, s, step, s');
    LinksStayHashed(w, s, s', p);
    var links, links' := s.fs[Part(p)].links, s'.fs[Part(p)].links;
    assert links' == links[c.manifest[c.done].rel := step.inode];
    assert forall i :: 0 <= i < c.done ==> c.manifest[i].rel != c.manifest[c.done].rel;
  }

  lemma ContentOtherwise(w: World, s: State, step: Step, s': State, p: nat)
    requires Stepped(w, s, step, s') && IsBuild(s, p) && IsBuild(s', p) && Touches(step, p) && SealedKept(s, s')
    requires !step.Link? && !step.CopyDone? && !step.CopyOpen?
    requires ShapeOk(w, s.calls[p]) && ContentOk(w, s, p)
    ensures s'.calls[p].done <= |s'.calls[p].manifest| && ContentOk(w, s', p)
  {
    OtherwiseFewerLinks(w, s, step, s', p);
    if HasTree(s', Part(p)) && s'.fs[Part(p)] != Tree(map[]) {
      LinksStayHashed(w, s, s', p);
    }
  }

  lemma OtherwiseFewerLinks(w: World, s: State, step: Step, s': State, p: nat)
    requires Stepped(w, s, step, s') && IsBuild(s, p) && IsBuild(s', p) && Touches(step, p)
    requires !step.Link? && !step.CopyDone? && !step.CopyOpen?
    ensures s'.calls[p].done == s.calls[p].done && s'.calls[p].manifest == s.calls[p].manifest
    ensures HasTree(s', Part(p)) ==>
            s'.fs[Part(p)] == Tree(map[]) || (HasTree(s, Part(p)) && s'.fs[Part(p)] == s.fs[Part(p)])
  {
  }

  lemma ContentGrows(w: World, s: State, step: Step, s': State, p: nat)
    requires Stepped(w, s, step, s') && IsBuild(s, p) && IsBuild(s', p) && Touches(step, p) && SealedKept(s, s')
    requires ShapeOk(w, s.calls[p]) && ContentOk(w, s, p) && CopyOk(w, s, p)
    ensures s'.calls[p].done <= |s'.calls[p].manifest| && ContentOk(w, s', p)
  {
    if step.Link? {
      ContentAfterLink(w, s, step, s');
    } else if step.CopyDone? {
      ContentAfterCopy(w, s, step, s');
    } else if step.CopyOpen? {
      ContentAfterOpen(w, s, step, s');
    } else {
      ContentOtherwise(w, s, step, s', p);
    }
  }

  lemma CopyStays(w: World, s: State, step: Step, s': State, p: nat)
    requires Stepped(w, s, step, s') && IsBuild(s, p) && !Touches(step, p) && SealedKept(s, s')
    requires ShapeOk(w, s.calls[p]) && CopyOk(w, s, p)
    ensures IsBuild(s', p) && s'.calls[p] == s.calls[p] && CopyOk(w, s', p)
  {
    UntouchedStays(w, s, step, s', p);
    if s.calls[p].build.Copying? {
      assert Sealed(s, s.calls[p].build.src);
      assert Writes(s.calls[p], s.calls[p].build.dst);
      StepIsFresh(w, s, step, s');
      OnlyTheWriterWrites(w, s, step, s', s.calls[p].build.dst);
    }
  }

  lemma CopyGrows(w: World, s: State, step: Step, s': State, p: nat)
    requires Stepped(w, s, step, s') && IsBuild(s, p) && IsBuild(s', p) && Touches(step, p)
    requires ShapeOk(w, s.calls[p]) && ShapeOk(w, s'.calls[p]) && CopyOk(w, s, p)
    ensures CopyOk(w, s', p)
  {
    if step.CopyOpen? {
      CopyIsFresh(w, s, step, s');
      var member := s.calls[p].manifest[s.calls[p].done].member;
      assert DigestOk(w, member, s.bytes[s.fs[Final(member)].inode]);
    } else if step.CopyChunk? {
      var c := s.calls[p].build;
      assert Writes(s.calls[p], c.dst) && Sealed(s, c.src);
    }
  }

  lemma KeepsBuilds(w: World, s: State, step: Step, s': State)
    requires Stepped(w, s, step, s') && ShapesOk(w, s')
    ensures BuildsOk(w, s')
  {
    StepIsFresh(w, s, step, s');
    SealedStays(w, s, step, s');
    forall p | IsBuild(s', p) ensures ContentOk(w, s', p) && CopyOk(w, s', p) {
      assert ShapeOk(w, s'.calls[p]);
      if !IsBuild(s, p) {
        assert Part(p) in s.fs ==> p in s.issued;
        BuildIsNew(w, s, step, s', p);
      } else {
        assert ShapeOk(w, s.calls[p]) && ContentOk(w, s, p) && CopyOk(w, s, p);
        if Touches(step, p) {
          ContentGrows(w, s, step, s', p);
          CopyGrows(w, s, step, s', p);
        } else {
          ContentStays(w, s, step, s', p);
          CopyStays(w, s, step, s', p);
        }
      }
    }
  }

  lemma KeepsLandings(w: World, s: State, step: Step, s': State)
    requires Stepped(w, s, step, s')
    ensures LandingsOk(w, s')
  {
    StepIsFresh(w, s, step, s');
    SealedStays(w, s, step, s');
    forall a | HasTree(s', Final(a)) ensures LandingOk(w, s', a) {
      if step.LandTree? && s.calls[step.p].address == a {
        TreeLands(w, s, step, s');
      } else {
        TreeStays(w, s, step, s', a);
      }
    }
  }

  lemma TreeLands(w: World, s: State, step: Step, s': State)
    requires Stepped(w, s, step, s') && step.LandTree? && SealedKept(s, s')
    requires HasTree(s', Final(s.calls[step.p].address))
    ensures LandingOk(w, s', s.calls[step.p].address)
  {
    var p := step.p;
    var c := s.calls[p];
    assert ShapeOk(w, c) && PartOk(s, p) && ContentOk(w, s, p);
    LinksStayHashed(w, s, s', p);
    if c.torn {
      assert c.manifest[0].rel in Paths(c.manifest, |c.manifest|);
    }
  }

  lemma TreeStays(w: World, s: State, step: Step, s': State, a: Address)
    requires Stepped(w, s, step, s') && HasTree(s', Final(a)) && SealedKept(s, s')
    requires !(step.LandTree? && s.calls[step.p].address == a)
    ensures LandingOk(w, s', a)
  {
    PartsTyped(w, s);
    SameTree(w, s, step, s', a);
    assert LandingOk(w, s, a);
    FinalLinksSealed(s, a);
    LandedTreeKeepsBytes(w, s, s', a);
  }

  lemma FinalLinksSealed(s: State, a: Address)
    requires NamesKnown(s) && TreesSealed(s) && HasTree(s, Final(a))
    ensures forall rel :: rel in s.fs[Final(a)].links ==> Sealed(s, s.fs[Final(a)].links[rel])
  {
  }

  lemma LandedTreeKeepsBytes(w: World, s: State, s': State, a: Address)
    requires SealedKept(s, s') && HasTree(s, Final(a)) && LandingOk(w, s, a)
    requires forall rel :: rel in s.fs[Final(a)].links ==> Sealed(s, s.fs[Final(a)].links[rel])
    requires HasTree(s', Final(a)) && s'.fs[Final(a)] == s.fs[Final(a)]
    requires a in s'.landed && s'.landed[a] == s.landed[a]
    ensures LandingOk(w, s', a)
  {
    var links := s.fs[Final(a)].links;
    var m := s.landed[a].manifest;
    forall i | 0 <= i < |m| && m[i].rel in links && links[m[i].rel] in s'.bytes
      ensures DigestOk(w, m[i].member, s'.bytes[links[m[i].rel]])
    {
      assert Sealed(s, links[m[i].rel]);
    }
  }

  lemma SameTree(w: World, s: State, step: Step, s': State, a: Address)
    requires Takes(w, s, step, s') && HasTree(s', Final(a))
    requires step.Land? && Part(step.p) in s.fs ==> s.fs[Part(step.p)].File?
    requires !(step.LandTree? && s.calls[step.p].address == a)
    ensures HasTree(s, Final(a)) && s'.fs[Final(a)] == s.fs[Final(a)]
    ensures a in s.landed ==> a in s'.landed && s'.landed[a] == s.landed[a]
  {
  }

  lemma StepKeepsInv(w: World, s: State, step: Step, s': State)
    requires Stepped(w, s, step, s')
    ensures Inv(w, s')
  {
    StepIsFresh(w, s, step, s');
    KeepsNames(w, s, step, s');
    KeepsCalls(w, s, step, s');
    KeepsOneWriter(w, s, step, s');
    KeepsFilesSealed(w, s, step, s');
    KeepsTreesSealed(w, s, step, s');
    KeepsSourcesSealed(w, s, step, s');
    KeepsFetches(w, s, step, s');
    KeepsFilesHash(w, s, step, s');
    KeepsShapes(w, s, step, s');
    KeepsParts(w, s, step, s');
    KeepsBuilds(w, s, step, s');
    KeepsLandings(w, s, step, s');
  }
}
