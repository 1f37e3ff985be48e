/**
 * The material cache directory as a file system of inodes, with any number of materializers, bundle
 * assemblers and evictors interleaved one system call at a time (shared/material_cache.py,
 * shared/material_bundle.py).
 */
module CacheMachine {
  import opened Basics

  type Bytes = seq<int>
  type Inode = nat

  /** Content-hash addresses and bundle addresses share one name space; upload ids are never digests. */
  datatype Address = Hash(digest: string) | Upload(id: string, generation: Option<int>)

  /** One manifest line: the member's address and its path in the tree. */
  datatype Line = Line(member: Address, rel: string)

  /** The hash of a file's bytes, the address of a manifest if it is accepted, and the paths that are. */
  datatype World = World(sha: Bytes -> string, bundle: seq<Line> -> Option<Address>, safe: string -> bool)

  /** Children of the shard directories. Part and trash names carry a fresh nonce. */
  datatype Name = Final(address: Address) | Part(owner: nat) | Trash(nonce: nat)

  /** A regular file, or a directory tree flattened to the paths of its files. */
  datatype Entry = File(inode: Inode) | Tree(links: map<string, Inode>)

  datatype FetchStage = Streaming | Checked | Missing

  datatype BuildStage = Idle | ParentMade | Copying(src: Inode, dst: Inode)

  /** One call in progress; a call that has returned, failed or was killed is no longer here. */
  datatype Call =
    | Fetch(address: Address, size: Option<nat>, inode: Inode, received: Bytes, fetch: FetchStage)
    | Build(address: Address, manifest: seq<Line>, done: nat, build: BuildStage, torn: bool)

  datatype Landing = Landing(manifest: seq<Line>, torn: bool)

  /** `issued` holds the nonces ever drawn; `landed` what the last tree at an address was built from. */
  datatype State = State(
    bytes: map<Inode, Bytes>,
    fs: map<Name, Entry>,
    calls: map<nat, Call>,
    issued: set<nat>,
    landed: map<Address, Landing>)

  datatype Step =
    | StartFetch(p: nat, address: Address, size: Option<nat>, inode: Inode)
    | Receive(p: nat, chunk: Bytes)
    | Check(p: nat)
    | Recheck(p: nat)
    | Land(p: nat)
    | StartBuild(p: nat, manifest: seq<Line>)
    | MakeParent(p: nat)
    | Link(p: nat)
    | CopyOpen(p: nat, inode: Inode)
    | CopyChunk(p: nat, n: nat)
    | CopyDone(p: nat)
    | LandTree(p: nat)
    | Depart(p: nat)
    | EvictFile(name: Name)
    | EvictTree(name: Name, nonce: nat)
    | RemoveMember(name: Name, rel: string)
    | RemoveEmpty(name: Name)

  predicate IsFetch(s: State, p: nat, stage: FetchStage) {
    p in s.calls && s.calls[p].Fetch? && s.calls[p].fetch == stage
  }

  predicate IsBuild(s: State, p: nat) {
    p in s.calls && s.calls[p].Build?
  }

  predicate HasTree(s: State, name: Name) {
    name in s.fs && s.fs[name].Tree?
  }

  predicate HasFile(s: State, name: Name) {
    name in s.fs && s.fs[name].File?
  }

  /** The call is at a member line, with its part directory's parent made. */
  predicate AtMember(s: State, p: nat) {
    IsBuild(s, p) && s.calls[p].build.ParentMade? && s.calls[p].done < |s.calls[p].manifest|
  }

  predicate DigestOk(w: World, address: Address, data: Bytes) {
    address.Hash? ==> w.sha(data) == address.digest
  }

  /** When the system call behind a step succeeds. Any call may instead fail or be killed: `Depart`. */
  predicate Enabled(w: World, s: State, step: Step) {
    match step
    case StartFetch(p, _, _, i) => p !in s.issued && i !in s.bytes
    case Receive(p, _) => IsFetch(s, p, Streaming) && s.calls[p].inode in s.bytes
    case Check(p) =>
      IsFetch(s, p, Streaming) && DigestOk(w, s.calls[p].address, s.calls[p].received)
      && (s.calls[p].size.Some? ==> |s.calls[p].received| == s.calls[p].size.value)
    case Recheck(p) => IsFetch(s, p, Checked) && !HasFile(s, Final(s.calls[p].address))
    case Land(p) => IsFetch(s, p, Missing) && HasFile(s, Part(p)) && !HasTree(s, Final(s.calls[p].address))
    case StartBuild(p, manifest) => p !in s.issued && w.bundle(manifest).Some?
    case MakeParent(p) =>
      IsBuild(s, p) && s.calls[p].build.Idle? && s.calls[p].done < |s.calls[p].manifest| && !HasFile(s, Part(p))
      && w.safe(s.calls[p].manifest[s.calls[p].done].rel)
    case Link(p) =>
      AtMember(s, p) && HasTree(s, Part(p))
      && var line := s.calls[p].manifest[s.calls[p].done];
      HasFile(s, Final(line.member)) && line.rel !in s.fs[Part(p)].links
    case CopyOpen(p, i) =>
      AtMember(s, p) && HasTree(s, Part(p)) && i !in s.bytes
      && var line := s.calls[p].manifest[s.calls[p].done];
      HasFile(s, Final(line.member))
      && (line.rel in s.fs[Part(p)].links ==> s.fs[Part(p)].links[line.rel] != s.fs[Final(line.member)].inode)
    case CopyChunk(p, n) =>
      IsBuild(s, p) && s.calls[p].build.Copying?
      && var c := s.calls[p].build;
      c.src in s.bytes && c.dst in s.bytes && |s.bytes[c.dst]| + n <= |s.bytes[c.src]|
    case CopyDone(p) =>
      IsBuild(s, p) && s.calls[p].build.Copying? && s.calls[p].done < |s.calls[p].manifest|
      && var c := s.calls[p].build;
      c.src in s.bytes && c.dst in s.bytes && |s.bytes[c.src]| <= |s.bytes[c.dst]|
      && HasTree(s, Part(p)) && s.calls[p].manifest[s.calls[p].done].rel in s.fs[Part(p)].links
    case LandTree(p) =>
      IsBuild(s, p) && s.calls[p].build.Idle? && s.calls[p].done == |s.calls[p].manifest| && HasTree(s, Part(p))
      && var final := Final(s.calls[p].address);
      (final in s.fs ==> s.fs[final] == Tree(map[]))
    case Depart(p) => p in s.calls
    case EvictFile(name) => HasFile(s, name)
    case EvictTree(name, nonce) => name in s.fs && nonce !in s.issued
    case RemoveMember(name, rel) =>
      HasTree(s, name) && rel in s.fs[name].links && (name.Trash? || (name.Part? && name.owner !in s.calls))
    case RemoveEmpty(name) => name in s.fs && s.fs[name] == Tree(map[])
  }

  /** An eviction pass picks the part directory of a call that has linked some members but not all. */
  predicate Tears(s: State, step: Step) {
    && step.EvictTree? && step.name.Part? && IsBuild(s, step.name.owner)
    && 0 < s.calls[step.name.owner].done < |s.calls[step.name.owner].manifest|
  }

  function Copied(s: State, p: nat, inode: Inode): Inode
    requires AtMember(s, p) && HasTree(s, Part(p))
  {
    var rel := s.calls[p].manifest[s.calls[p].done].rel;
    if rel in s.fs[Part(p)].links then s.fs[Part(p)].links[rel] else inode
  }

  function Apply(w: World, s: State, step: Step): State
    requires Enabled(w, s, step)
  {
    match step
    case StartFetch(p, address, size, i) =>
      s.(bytes := s.bytes[i := []], fs := s.fs[Part(p) := File(i)], issued := s.issued + {p},
         calls := s.calls[p := Fetch(address, size, i, [], Streaming)])
    case Receive(p, chunk) =>
      var c := s.calls[p];
      s.(bytes := s.bytes[c.inode := s.bytes[c.inode] + chunk],
         calls := s.calls[p := c.(received := c.received + chunk)])
    case Check(p) => s.(calls := s.calls[p := s.calls[p].(fetch := Checked)])
    case Recheck(p) => s.(calls := s.calls[p := s.calls[p].(fetch := Missing)])
    case Land(p) =>
      s.(fs := s.fs[Final(s.calls[p].address) := s.fs[Part(p)]] - {Part(p)}, calls := s.calls - {p})
    case StartBuild(p, manifest) =>
      s.(issued := s.issued + {p}, calls := s.calls[p := Build(w.bundle(manifest).value, manifest, 0, Idle, false)])
    case MakeParent(p) =>
      s.(fs := if Part(p) in s.fs then s.fs else s.fs[Part(p) := Tree(map[])],
         calls := s.calls[p := s.calls[p].(build := ParentMade)])
    case Link(p) =>
      var c := s.calls[p];
      var line := c.manifest[c.done];
      s.(fs := s.fs[Part(p) := Tree(s.fs[Part(p)].links[line.rel := s.fs[Final(line.member)].inode])],
         calls := s.calls[p := c.(done := c.done + 1, build := Idle)])
    case CopyOpen(p, i) =>
      var c := s.calls[p];
      var line := c.manifest[c.done];
      var dst := Copied(s, p, i);
      s.(bytes := s.bytes[dst := []],
         fs := s.fs[Part(p) := Tree(s.fs[Part(p)].links[line.rel := dst])],
         calls := s.calls[p := c.(build := Copying(s.fs[Final(line.member)].inode, dst))])
    case CopyChunk(p, n) =>
      var c := s.calls[p].build;
      var at := |s.bytes[c.dst]|;
      s.(bytes := s.bytes[c.dst := s.bytes[c.dst] + s.bytes[c.src][at..at + n]])
    case CopyDone(p) => s.(calls := s.calls[p := s.calls[p].(done := s.calls[p].done + 1, build := Idle)])
    case LandTree(p) =>
      var c := s.calls[p];
      s.(fs := s.fs[Final(c.address) := s.fs[Part(p)]] - {Part(p)}, calls := s.calls - {p},
         landed := s.landed[c.address := Landing(c.manifest, c.torn)])
    case Depart(p) => s.(calls := s.calls - {p})
    case EvictFile(name) => s.(fs := s.fs - {name})
    case EvictTree(name, nonce) =>
      s.(fs := s.fs[Trash(nonce) := s.fs[name]] - {name}, issued := s.issued + {nonce},
         calls := if Tears(s, step) then s.calls[name.owner := s.calls[name.owner].(torn := true)] else s.calls)
    case RemoveMember(name, rel) => s.(fs := s.fs[name := Tree(s.fs[name].links - {rel})])
    case RemoveEmpty(name) => s.(fs := s.fs - {name})
  }

  const EMPTY := State(map[], map[], map[], {}, map[])

  /** A run of the machine from `s`: the state it ends in, if every step succeeds. */
  predicate Runs(w: World, s: State, steps: seq<Step>)
    decreases |steps|, 0
  {
    steps == [] ||
    var init := steps[..|steps| - 1];
    Runs(w, s, init) && Enabled(w, After(w, s, init), steps[|steps| - 1])
  }

  function After(w: World, s: State, steps: seq<Step>): State
    requires Runs(w, s, steps)
    decreases |steps|, 1
  {
    if steps == [] then s else Apply(w, After(w, s, steps[..|steps| - 1]), steps[|steps| - 1])
  }

  predicate Distinct(manifest: seq<Line>) {
    forall i, j :: 0 <= i < j < |manifest| ==> manifest[i].rel != manifest[j].rel
  }

  /** Bundle creation rejects manifests with a repeated path. */
  predicate Proper(step: Step) {
    step.StartBuild? ==> Distinct(step.manifest)
  }

  predicate AllProper(steps: seq<Step>) {
    forall i :: 0 <= i < |steps| ==> Proper(steps[i])
  }
}
