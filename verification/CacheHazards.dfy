/**
 * Runs of the material cache from empty that show both assumptions of its safety are needed, for
 * every manifest that breaks one.
 */
module CacheHazards {
  import opened Basics
  import opened CacheMachine
  import opened CacheRuns
  import opened CacheSafety

  // ----- Joining runs -----

  /** These steps lead from `s` to `s'`, and create proper bundles only. */
  predicate Leads(w: World, s: State, steps: seq<Step>, s': State) {
    Runs(w, s, steps) && After(w, s, steps) == s'
  }

  lemma LeadsNowhere(w: World, s: State)
    ensures Leads(w, s, [], s)
  {
  }

  lemma LeadsOn(w: World, s: State, steps: seq<Step>, s1: State, step: Step)
    requires Leads(w, s, steps, s1) && Enabled(w, s1, step)
    ensures Leads(w, s, steps + [step], Apply(w, s1, step))
  {
    var all := steps + [step];
    assert all[..|all| - 1] == steps;
  }

  lemma {:induction false} LeadsFurther(w: World, s: State, before: seq<Step>, s1: State, after: seq<Step>, s2: State)
    requires Leads(w, s, before, s1) && Leads(w, s1, after, s2)
    ensures Leads(w, s, before + after, s2)
    decreases |after|
  {
    if after == [] {
      assert before + after == before;
    } else {
      var init := after[..|after| - 1];
      LeadsFurther(w, s, before, s1, init, After(w, s1, init));
      LeadsOn(w, s, before + init, After(w, s1, init), after[|after| - 1]);
      assert before + init + [after[|after| - 1]] == before + after;
    }
  }

  lemma LeadsKeepsInv(w: World, s: State, steps: seq<Step>, s': State)
    requires Inv(w, s) && Leads(w, s, steps, s') && AllProper(steps)
    ensures Inv(w, s')
  {
    RunKeepsInv(w, s, steps);
  }

  lemma {:induction false} NatNotIn(used: set<nat>) returns (n: nat)
    ensures n !in used && forall m :: m in used ==> m < n
  {
    if used == {} {
      n := 0;
    } else {
      var m :| m in used;
      n := NatNotIn(used - {m});
      assert forall x :: x in used ==> x == m || x in used - {m};
      if n <= m {
        n := m + 1;
      }
    }
  }

  // ----- A cache holding the members -----

  predicate Holds(s: State, a: Address, data: Bytes) {
    HasFile(s, Final(a)) && s.fs[Final(a)].inode in s.bytes && s.bytes[s.fs[Final(a)].inode] == data
  }

  function Fetched(s: State, p: nat, a: Address, i: Inode, data: Bytes): State {
    s.(bytes := s.bytes[i := data], fs := (s.fs - {Part(p)})[Final(a) := File(i)], issued := s.issued + {p},
       calls := s.calls - {p})
  }

  function Downloaded(s: State, p: nat, a: Address, i: Inode, data: Bytes): State {
    s.(bytes := s.bytes[i := data], fs := s.fs[Part(p) := File(i)], issued := s.issued + {p},
       calls := s.calls[p := Fetch(a, None, i, data, Streaming)])
  }

  lemma Download(w: World, s: State, p: nat, a: Address, i: Inode, data: Bytes) returns (steps: seq<Step>)
    requires p !in s.issued && i !in s.bytes
    ensures Leads(w, s, steps, Downloaded(s, p, a, i, data)) && AllProper(steps)
  {
    var start := StartFetch(p, a, None, i);
    LeadsNowhere(w, s);
    LeadsOn(w, s, [], s, start);
    var s1 := Apply(w, s, start);
    LeadsOn(w, s, [] + [start], s1, Receive(p, data));
    assert [] + data == data;
    assert Apply(w, s1, Receive(p, data)) == Downloaded(s, p, a, i, data);
    steps := [] + [start] + [Receive(p, data)];
  }

  lemma CheckAndLand(w: World, s: State, p: nat) returns (steps: seq<Step>)
    requires IsFetch(s, p, Streaming) && s.calls[p].size.None? && HasFile(s, Part(p))
    requires DigestOk(w, s.calls[p].address, s.calls[p].received) && Final(s.calls[p].address) !in s.fs
    ensures AllProper(steps)
    ensures Leads(w, s, steps,
                  s.(fs := s.fs[Final(s.calls[p].address) := s.fs[Part(p)]] - {Part(p)}, calls := s.calls - {p}))
  {
    var c := s.calls[p];
    LeadsNowhere(w, s);
    LeadsOn(w, s, [], s, Check(p));
    var s1 := Apply(w, s, Check(p));
    LeadsOn(w, s, [] + [Check(p)], s1, Recheck(p));
    var s2 := Apply(w, s1, Recheck(p));
    LeadsOn(w, s, [] + [Check(p)] + [Recheck(p)], s2, Land(p));
    steps := [] + [Check(p)] + [Recheck(p)] + [Land(p)];
    assert s.calls[p := c.(fetch := Checked)][p := c.(fetch := Missing)] - {p} == s.calls - {p};
  }

  lemma FetchFile(w: World, s: State, p: nat, a: Address, i: Inode, data: Bytes) returns (steps: seq<Step>)
    requires p !in s.issued && i !in s.bytes && Final(a) !in s.fs && DigestOk(w, a, data)
    ensures Leads(w, s, steps, Fetched(s, p, a, i, data)) && AllProper(steps)
  {
    var before := Download(w, s, p, a, i, data);
    var s1 := Downloaded(s, p, a, i, data);
    var after := CheckAndLand(w, s1, p);
    steps := before + after;
    assert s.fs[Part(p) := File(i)][Final(a) := File(i)] - {Part(p)} == (s.fs - {Part(p)})[Final(a) := File(i)];
    assert s1.calls - {p} == s.calls - {p};
    LeadsFurther(w, s, before, s1, after, Fetched(s, p, a, i, data));
  }

  function Finals(addresses: seq<Address>): set<Name> {
    set i | 0 <= i < |addresses| :: Final(addresses[i])
  }

  /** Nothing is going on, and the cache holds exactly these files. */
  ghost predicate Stocked(s: State, addresses: seq<Address>, content: Address -> Bytes) {
    && s.calls == map[] && s.landed == map[] && s.fs.Keys == Finals(addresses)
    && forall i :: 0 <= i < |addresses| ==> Holds(s, addresses[i], content(addresses[i]))
  }

  lemma StockOne(
    w: World, s: State, addresses: seq<Address>, a: Address, content: Address -> Bytes)
    returns (steps: seq<Step>, s': State)
    requires Stocked(s, addresses, content) && DigestOk(w, a, content(a))
    ensures Leads(w, s, steps, s') && AllProper(steps) && Stocked(s', addresses + [a], content)
  {
    var all := addresses + [a];
    assert Finals(all) == Finals(addresses) + {Final(a)} by {
      assert all[|addresses|] == a && forall i :: 0 <= i < |addresses| ==> all[i] == addresses[i];
    }
    if Final(a) in s.fs {
      var i :| 0 <= i < |addresses| && Final(a) == Final(addresses[i]);
      LeadsNowhere(w, s);
      steps, s' := [], s;
    } else {
      var p := NatNotIn(s.issued);
      var i := NatNotIn(s.bytes.Keys);
      steps := FetchFile(w, s, p, a, i, content(a));
      s' := Fetched(s, p, a, i, content(a));
      assert Part(p) !in s.fs;
    }
  }

  lemma {:induction false} Stock(w: World, addresses: seq<Address>, content: Address -> Bytes)
    returns (steps: seq<Step>, s: State)
    requires forall i :: 0 <= i < |addresses| ==> DigestOk(w, addresses[i], content(addresses[i]))
    ensures Leads(w, EMPTY, steps, s) && AllProper(steps) && Stocked(s, addresses, content)
  {
    if addresses == [] {
      LeadsNowhere(w, EMPTY);
      steps, s := [], EMPTY;
    } else {
      var init, a := addresses[..|addresses| - 1], addresses[|addresses| - 1];
      var before, s1 := Stock(w, init, content);
      var after, s2 := StockOne(w, s1, init, a, content);
      assert init + [a] == addresses;
      LeadsFurther(w, EMPTY, before, s1, after, s2);
      steps, s := before + after, s2;
    }
  }

  function Members(manifest: seq<Line>): seq<Address> {
    seq(|manifest|, i requires 0 <= i < |manifest| => manifest[i].member)
  }

  /**
   * A manifest that can be built: accepted, with safe paths, of members that exist, whose own address is none of
   * theirs.
   */
  ghost predicate Buildable(w: World, manifest: seq<Line>, content: Address -> Bytes) {
    && w.bundle(manifest).Some? && w.bundle(manifest).value !in Members(manifest)
    && forall i :: 0 <= i < |manifest| ==>
         w.safe(manifest[i].rel) && DigestOk(w, manifest[i].member, content(manifest[i].member))
  }

  // ----- Any tear lands a partial tree -----

  /** The rest of the members are cached, and nothing is at the bundle's address yet. */
  ghost predicate CanFinish(w: World, s: State, p: nat) {
    && IsBuild(s, p) && s.calls[p].build.Idle? && s.calls[p].done <= |s.calls[p].manifest|
    && Final(s.calls[p].address) !in s.fs && !HasFile(s, Part(p))
    && (Part(p) in s.fs || s.calls[p].done < |s.calls[p].manifest|)
    && forall i :: s.calls[p].done <= i < |s.calls[p].manifest| ==>
         HasFile(s, Final(s.calls[p].manifest[i].member)) && w.safe(s.calls[p].manifest[i].rel)
  }

  lemma PathIsNew(w: World, s: State, p: nat)
    requires Inv(w, s) && IsBuild(s, p) && s.calls[p].build.Idle? && s.calls[p].done < |s.calls[p].manifest|
    ensures HasTree(s, Part(p)) ==> s.calls[p].manifest[s.calls[p].done].rel !in s.fs[Part(p)].links
  {
    assert ShapeOk(w, s.calls[p]) && PartOk(s, p);
  }

  lemma MakeOne(w: World, s: State, p: nat) returns (s': State)
    requires CanFinish(w, s, p) && s.calls[p].done < |s.calls[p].manifest|
    ensures Leads(w, s, [MakeParent(p)], s')
    ensures s' == s.(fs := if Part(p) in s.fs then s.fs else s.fs[Part(p) := Tree(map[])],
                     calls := s.calls[p := s.calls[p].(build := ParentMade)])
  {
    LeadsNowhere(w, s);
    LeadsOn(w, s, [], s, MakeParent(p));
    assert [] + [MakeParent(p)] == [MakeParent(p)];
    s' := Apply(w, s, MakeParent(p));
  }

  /** One more member linked. */
  lemma LinkOne(w: World, s: State, p: nat) returns (s': State)
    requires CanFinish(w, s, p) && s.calls[p].done < |s.calls[p].manifest|
    requires HasTree(s, Part(p)) ==> s.calls[p].manifest[s.calls[p].done].rel !in s.fs[Part(p)].links
    ensures Leads(w, s, [MakeParent(p), Link(p)], s')
    ensures CanFinish(w, s', p) && s'.calls[p] == s.calls[p].(done := s.calls[p].done + 1) && Part(p) in s'.fs
  {
    var s1 := MakeOne(w, s, p);
    LeadsOn(w, s, [MakeParent(p)], s1, Link(p));
    assert [MakeParent(p)] + [Link(p)] == [MakeParent(p), Link(p)];
    s' := Apply(w, s1, Link(p));
  }

  lemma LandIt(w: World, s: State, p: nat) returns (s': State)
    requires CanFinish(w, s, p) && s.calls[p].done == |s.calls[p].manifest|
    ensures Leads(w, s, [LandTree(p)], s') && HasTree(s', Final(s.calls[p].address))
    ensures s.calls[p].address in s'.landed
            && s'.landed[s.calls[p].address] == Landing(s.calls[p].manifest, s.calls[p].torn)
  {
    LeadsNowhere(w, s);
    LeadsOn(w, s, [], s, LandTree(p));
    assert [] + [LandTree(p)] == [LandTree(p)];
    s' := Apply(w, s, LandTree(p));
  }

  lemma {:induction false} FinishTree(w: World, s: State, p: nat) returns (steps: seq<Step>, s': State)
    requires Inv(w, s) && CanFinish(w, s, p)
    ensures Leads(w, s, steps, s') && AllProper(steps) && HasTree(s', Final(s.calls[p].address))
    ensures s.calls[p].address in s'.landed
            && s'.landed[s.calls[p].address] == Landing(s.calls[p].manifest, s.calls[p].torn)
    decreases |s.calls[p].manifest| - s.calls[p].done
  {
    if s.calls[p].done == |s.calls[p].manifest| {
      s' := LandIt(w, s, p);
      steps := [LandTree(p)];
    } else {
      PathIsNew(w, s, p);
      var one := [MakeParent(p), Link(p)];
      var s1 := LinkOne(w, s, p);
      LeadsKeepsInv(w, s, one, s1);
      var rest, s2 := FinishTree(w, s1, p);
      LeadsFurther(w, s, one, s1, rest, s2);
      steps, s' := one + rest, s2;
    }
  }

  /**
   * Every live assembler between its first link and its last can be made to land a partial tree: one
   * eviction of its part directory is enough, because the missing parents are made again.
   */
  lemma TearingLandsPartialTree(w: World, s: State, p: nat, nonce: nat) returns (steps: seq<Step>, s': State)
    requires Inv(w, s) && CanFinish(w, s, p) && 0 < s.calls[p].done < |s.calls[p].manifest|
    requires Part(p) in s.fs && nonce !in s.issued
    ensures Leads(w, s, steps, s') && AllProper(steps) && HasTree(s', Final(s.calls[p].address))
    ensures !Complete(w, s'.bytes, s.calls[p].manifest, s'.fs[Final(s.calls[p].address)].links)
  {
    var evict := EvictTree(Part(p), nonce);
    var s1 := TearIt(w, s, p, nonce);
    LeadsKeepsInv(w, s, [evict], s1);
    var rest, s2 := FinishTree(w, s1, p);
    LeadsFurther(w, s, [evict], s1, rest, s2);
    steps, s' := [evict] + rest, s2;
    LeadsKeepsInv(w, s1, rest, s2);
    assert LandingOk(w, s', s.calls[p].address);
  }

  lemma TearIt(w: World, s: State, p: nat, nonce: nat) returns (s': State)
    requires CanFinish(w, s, p) && 0 < s.calls[p].done < |s.calls[p].manifest|
    requires Part(p) in s.fs && nonce !in s.issued
    ensures Leads(w, s, [EvictTree(Part(p), nonce)], s')
    ensures CanFinish(w, s', p) && s'.calls[p] == s.calls[p].(torn := true)
  {
    var evict := EvictTree(Part(p), nonce);
    LeadsNowhere(w, s);
    LeadsOn(w, s, [], s, evict);
    assert [] + [evict] == [evict];
    s' := Apply(w, s, evict);
  }

  lemma StartOne(w: World, s: State, p: nat, manifest: seq<Line>) returns (s': State)
    requires p !in s.issued && w.bundle(manifest).Some?
    ensures Leads(w, s, [StartBuild(p, manifest)], s')
    ensures s' == s.(issued := s.issued + {p},
            calls := s.calls[p := Build(w.bundle(manifest).value, manifest, 0, Idle, false)])
  {
    LeadsNowhere(w, s);
    LeadsOn(w, s, [], s, StartBuild(p, manifest));
    assert [] + [StartBuild(p, manifest)] == [StartBuild(p, manifest)];
    s' := Apply(w, s, StartBuild(p, manifest));
  }

  lemma InvOfEmpty(w: World)
    ensures Inv(w, EMPTY)
  {
  }

  /** From an empty cache, an assembler of any bundle of two or more members gets to where a tear hits. */
  lemma ReachFirstLink(w: World, manifest: seq<Line>, content: Address -> Bytes)
    returns (steps: seq<Step>, s: State, p: nat)
    requires |manifest| > 1 && Distinct(manifest) && Buildable(w, manifest, content)
    ensures Leads(w, EMPTY, steps, s) && AllProper(steps) && Inv(w, s) && CanFinish(w, s, p) && Part(p) in s.fs
    ensures s.calls[p] == Build(w.bundle(manifest).value, manifest, 1, Idle, false)
  {
    var stock, s0 := Stock(w, Members(manifest), content);
    p := NatNotIn(s0.issued);
    var s1 := StartOne(w, s0, p, manifest);
    LeadsFurther(w, EMPTY, stock, s0, [StartBuild(p, manifest)], s1);
    assert CanFinish(w, s1, p) by {
      StockedCanFinish(w, s0, manifest, content);
    }
    assert Part(p) !in s0.fs;
    s := LinkOne(w, s1, p);
    LeadsFurther(w, EMPTY, stock + [StartBuild(p, manifest)], s1, [MakeParent(p), Link(p)], s);
    steps := stock + [StartBuild(p, manifest)] + [MakeParent(p), Link(p)];
    InvOfEmpty(w);
    LeadsKeepsInv(w, EMPTY, steps, s);
  }

  lemma StockedCanFinish(w: World, s: State, manifest: seq<Line>, content: Address -> Bytes)
    requires Stocked(s, Members(manifest), content) && Buildable(w, manifest, content)
    ensures Final(w.bundle(manifest).value) !in s.fs && forall p :: Part(p) !in s.fs
    ensures forall i :: 0 <= i < |manifest| ==> HasFile(s, Final(manifest[i].member)) && w.safe(manifest[i].rel)
  {
    forall i | 0 <= i < |manifest| ensures HasFile(s, Final(manifest[i].member)) {
      assert Holds(s, Members(manifest)[i], content(Members(manifest)[i]));
    }
  }

  /** So every bundle of two or more members can land partial. */
  lemma EveryBundleCanLandPartial(w: World, manifest: seq<Line>, content: Address -> Bytes) returns (steps: seq<Step>)
    requires |manifest| > 1 && Distinct(manifest) && Buildable(w, manifest, content)
    ensures Runs(w, EMPTY, steps) && AllProper(steps)
    ensures var s := After(w, EMPTY, steps); var final := Final(w.bundle(manifest).value);
            HasTree(s, final) && !Complete(w, s.bytes, manifest, s.fs[final].links)
  {
    var before, s, p := ReachFirstLink(w, manifest, content);
    var nonce := NatNotIn(s.issued);
    var after, s' := TearingLandsPartialTree(w, s, p, nonce);
    LeadsFurther(w, EMPTY, before, s, after, s');
    steps := before + after;
  }

  // ----- Any repeated path corrupts a tree -----

  function LinkTo(s: State, line: Line): map<string, Inode>
    requires HasFile(s, Final(line.member))
  {
    map[line.rel := s.fs[Final(line.member)].inode]
  }

  /** The one-member bundle of this line landed. */
  function Landed(s: State, p: nat, line: Line, a: Address): State
    requires HasFile(s, Final(line.member))
  {
    s.(fs := s.fs[Final(a) := Tree(LinkTo(s, line))], issued := s.issued + {p},
       landed := s.landed[a := Landing([line], false)])
  }

  lemma LandSingle(w: World, s: State, p: nat, line: Line, a: Address) returns (steps: seq<Step>)
    requires s.calls == map[] && p !in s.issued && Part(p) !in s.fs && Final(a) !in s.fs
    requires HasFile(s, Final(line.member)) && w.bundle([line]) == Some(a) && w.safe(line.rel)
    ensures Leads(w, s, steps, Landed(s, p, line, a)) && AllProper(steps)
  {
    var s1 := StartOne(w, s, p, [line]);
    var s2 := LinkFirst(w, s1, p, line);
    LeadsFurther(w, s, [StartBuild(p, [line])], s1, [MakeParent(p), Link(p)], s2);
    LeadsOn(w, s, [StartBuild(p, [line])] + [MakeParent(p), Link(p)], s2, LandTree(p));
    steps := [StartBuild(p, [line])] + [MakeParent(p), Link(p)] + [LandTree(p)];
    assert Apply(w, s2, LandTree(p)) == Landed(s, p, line, a) by {
      assert s.fs[Part(p) := Tree(LinkTo(s, line))][Final(a) := Tree(LinkTo(s, line))] - {Part(p)}
          == s.fs[Final(a) := Tree(LinkTo(s, line))];
      assert s2.calls - {p} == map[];
    }
  }

  lemma LinkFirst(w: World, s: State, p: nat, line: Line) returns (s': State)
    requires CanFinish(w, s, p) && Part(p) !in s.fs && s.calls[p].done == 0 && s.calls[p].manifest == [line]
    requires HasFile(s, Final(line.member))
    ensures Leads(w, s, [MakeParent(p), Link(p)], s')
    ensures s' == s.(fs := s.fs[Part(p) := Tree(LinkTo(s, line))], calls := s.calls[p := s.calls[p].(done := 1)])
  {
    var s1 := MakeOne(w, s, p);
    LeadsOn(w, s, [MakeParent(p)], s1, Link(p));
    assert [MakeParent(p)] + [Link(p)] == [MakeParent(p), Link(p)];
    s' := Apply(w, s1, Link(p));
    assert map[][line.rel := s.fs[Final(line.member)].inode] == LinkTo(s, line);
    assert s'.fs == s.fs[Part(p) := Tree(LinkTo(s, line))];
  }

  /** The assembler has linked the first `n` members and done nothing else since `s`. */
  ghost predicate HasLinked(s: State, s': State, p: nat, a: Address, manifest: seq<Line>, n: nat) {
    && n <= |manifest| && s'.bytes == s.bytes && s'.landed == s.landed && s'.issued == s.issued + {p}
    && s'.calls == map[p := Build(a, manifest, n, Idle, false)]
    && s'.fs - {Part(p)} == s.fs && (n == 0 ==> Part(p) !in s'.fs)
    && (n > 0 ==> HasTree(s', Part(p)) && s'.fs[Part(p)].links.Keys == Paths(manifest, n))
    && (n > 0 ==> forall k :: 0 <= k < n ==> LinkIs(s, s'.fs[Part(p)].links, manifest[k]))
  }

  predicate LinkIs(s: State, links: map<string, Inode>, line: Line) {
    && HasFile(s, Final(line.member)) && line.rel in links
    && links[line.rel] == s.fs[Final(line.member)].inode
  }

  lemma LinkNext(w: World, s: State, s1: State, p: nat, a: Address, manifest: seq<Line>, n: nat) returns (s': State)
    requires HasLinked(s, s1, p, a, manifest, n) && n < |manifest| && w.safe(manifest[n].rel)
    requires HasFile(s, Final(manifest[n].member)) && manifest[n].rel !in Paths(manifest, n)
    ensures Leads(w, s1, [MakeParent(p), Link(p)], s') && HasLinked(s, s', p, a, manifest, n + 1)
  {
    LeadsNowhere(w, s1);
    LeadsOn(w, s1, [], s1, MakeParent(p));
    assert [] + [MakeParent(p)] == [MakeParent(p)];
    var s2 := Apply(w, s1, MakeParent(p));
    assert Final(manifest[n].member) in s1.fs - {Part(p)};
    LeadsOn(w, s1, [MakeParent(p)], s2, Link(p));
    assert [MakeParent(p)] + [Link(p)] == [MakeParent(p), Link(p)];
    s' := Apply(w, s2, Link(p));
    NextLinked(w, s, s1, s', p, a, manifest, n);
  }

  lemma NextLinked(w: World, s: State, s1: State, s': State, p: nat, a: Address, manifest: seq<Line>, n: nat)
    requires HasLinked(s, s1, p, a, manifest, n) && n < |manifest| && HasFile(s, Final(manifest[n].member))
    requires manifest[n].rel !in Paths(manifest, n)
    requires var before := if Part(p) in s1.fs then s1.fs[Part(p)].links else map[];
             s' == s1.(fs := s1.fs[Part(p) := Tree(before[manifest[n].rel := s.fs[Final(manifest[n].member)].inode])],
                       calls := s1.calls[p := Build(a, manifest, n + 1, Idle, false)])
    ensures HasLinked(s, s', p, a, manifest, n + 1)
  {
    PathsStep(manifest, n);
    assert s'.fs - {Part(p)} == s1.fs - {Part(p)};
    forall k | 0 <= k < n + 1 ensures LinkIs(s, s'.fs[Part(p)].links, manifest[k]) {
      if k < n {
        assert manifest[k].rel in Paths(manifest, n) && LinkIs(s, s1.fs[Part(p)].links, manifest[k]);
      }
    }
  }

  /** No improper bundle is created but this one. */
  predicate AlmostProper(steps: seq<Step>, manifest: seq<Line>) {
    forall i :: 0 <= i < |steps| ==> Proper(steps[i]) || (steps[i].StartBuild? && steps[i].manifest == manifest)
  }

  lemma NewPath(manifest: seq<Line>, n: nat)
    requires n < |manifest| && Distinct(manifest[..n + 1])
    ensures manifest[n].rel !in Paths(manifest, n) && Distinct(manifest[..n])
  {
    assert forall i :: 0 <= i < n + 1 ==> manifest[..n + 1][i] == manifest[i];
    assert forall i :: 0 <= i < n ==> manifest[..n][i] == manifest[i];
  }

  lemma {:induction false} LinkUpTo(w: World, s: State, p: nat, manifest: seq<Line>, n: nat)
    returns (steps: seq<Step>, s': State)
    requires s.calls == map[] && p !in s.issued && Part(p) !in s.fs && w.bundle(manifest).Some?
    requires n <= |manifest| && Distinct(manifest[..n])
    requires forall i :: 0 <= i < |manifest| ==> HasFile(s, Final(manifest[i].member)) && w.safe(manifest[i].rel)
    ensures Leads(w, s, steps, s') && HasLinked(s, s', p, w.bundle(manifest).value, manifest, n)
    ensures AlmostProper(steps, manifest)
  {
    if n == 0 {
      s' := StartOne(w, s, p, manifest);
      steps := [StartBuild(p, manifest)];
      assert s'.fs - {Part(p)} == s.fs;
    } else {
      NewPath(manifest, n - 1);
      var before, s1 := LinkUpTo(w, s, p, manifest, n - 1);
      s' := LinkNext(w, s, s1, p, w.bundle(manifest).value, manifest, n - 1);
      LeadsFurther(w, s, before, s1, [MakeParent(p), Link(p)], s');
      steps := before + [MakeParent(p), Link(p)];
    }
  }

  /** The next member is evicted and fetched again, and then copied: the copy writes through the link that is there. */
  lemma OverwriteLink(w: World, s: State, p: nat, data: Bytes, x: Inode) returns (steps: seq<Step>, s': State)
    requires IsBuild(s, p) && s.calls[p].build.Idle? && s.calls[p].done < |s.calls[p].manifest| && s.calls.Keys == {p}
    requires HasTree(s, Part(p)) && x in s.bytes
    requires var line := s.calls[p].manifest[s.calls[p].done];
             && HasFile(s, Final(line.member)) && w.safe(line.rel) && DigestOk(w, line.member, data)
             && line.rel in s.fs[Part(p)].links && s.fs[Part(p)].links[line.rel] == x
    requires forall q :: Part(q) in s.fs ==> q == p
    ensures Leads(w, s, steps, s') && AllProper(steps) && s'.landed == s.landed && x in s'.bytes && s'.bytes[x] == []
    ensures var member := s.calls[p].manifest[s.calls[p].done].member;
            forall b :: b != member && Final(b) in s.fs ==> Final(b) in s'.fs && s'.fs[Final(b)] == s.fs[Final(b)]
  {
    var line := s.calls[p].manifest[s.calls[p].done];
    var again, s2 := FetchAgain(w, s, p, line.member, data);
    LeadsOn(w, s, again, s2, MakeParent(p));
    var s3 := Apply(w, s2, MakeParent(p));
    var z := NatNotIn(s3.bytes.Keys);
    LeadsOn(w, s, again + [MakeParent(p)], s3, CopyOpen(p, z));
    steps := again + [MakeParent(p)] + [CopyOpen(p, z)];
    s' := Apply(w, s3, CopyOpen(p, z));
  }

  lemma FetchAgain(w: World, s: State, p: nat, a: Address, data: Bytes) returns (steps: seq<Step>, s': State)
    requires HasFile(s, Final(a)) && DigestOk(w, a, data) && p in s.calls && s.calls.Keys == {p}
    requires forall q :: Part(q) in s.fs ==> q == p
    ensures Leads(w, s, steps, s') && AllProper(steps) && s'.landed == s.landed && s'.calls == s.calls
    ensures HasFile(s', Final(a)) && s'.fs[Final(a)].inode !in s.bytes
    ensures forall name :: name != Final(a) ==>
              (name in s'.fs <==> name in s.fs) && (name in s'.fs ==> s'.fs[name] == s.fs[name])
    ensures forall i :: i in s.bytes ==> i in s'.bytes
  {
    LeadsNowhere(w, s);
    LeadsOn(w, s, [], s, EvictFile(Final(a)));
    assert [] + [EvictFile(Final(a))] == [EvictFile(Final(a))];
    var s1 := Apply(w, s, EvictFile(Final(a)));
    var q := NatNotIn(s.issued + {p});
    var i := NatNotIn(s.bytes.Keys);
    var fetch := FetchFile(w, s1, q, a, i, data);
    s' := Fetched(s1, q, a, i, data);
    LeadsFurther(w, s, [EvictFile(Final(a))], s1, fetch, s');
    steps := [EvictFile(Final(a))] + fetch;
    assert s1.fs - {Part(q)} == s1.fs;
    assert s.calls - {q} == s.calls;
  }

  lemma {:induction false} FirstRepeat(manifest: seq<Line>) returns (i: nat, j: nat)
    requires !Distinct(manifest)
    ensures i < j < |manifest| && manifest[i].rel == manifest[j].rel && Distinct(manifest[..j])
  {
    j := |manifest| - 1;
    if Distinct(manifest[..j]) {
      assert forall a :: 0 <= a < j ==> manifest[..j][a] == manifest[a];
      var k, l :| 0 <= k < l < |manifest| && manifest[k].rel == manifest[l].rel;
      assert l == j;
      i := k;
    } else {
      i, j := FirstRepeat(manifest[..j]);
      assert manifest[..|manifest| - 1][..j] == manifest[..j];
    }
  }

  /** All members are content-addressed files that are not empty, and each line makes a bundle of its own. */
  ghost predicate Separable(w: World, manifest: seq<Line>) {
    forall i :: 0 <= i < |manifest| ==>
      && !DigestOk(w, manifest[i].member, [])
      && w.bundle([manifest[i]]).Some? && w.bundle([manifest[i]]).value !in Members(manifest)
  }

  /**
   * The cache holds the members and a one-member bundle landed of the line; the assembler has placed all before its
   * repeat.
   */
  lemma ReachRepeat(w: World, manifest: seq<Line>, content: Address -> Bytes, i: nat, j: nat)
    returns (steps: seq<Step>, s: State, p: nat, x: Inode)
    requires i < j < |manifest| && manifest[i].rel == manifest[j].rel && Distinct(manifest[..j])
    requires Buildable(w, manifest, content) && Separable(w, manifest)
    ensures Leads(w, EMPTY, steps, s) && AlmostProper(steps, manifest) && s.calls.Keys == {p} && IsBuild(s, p)
    ensures s.calls[p] == Build(w.bundle(manifest).value, manifest, j, Idle, false)
    ensures HasTree(s, Part(p)) && LinkedTo(s.fs[Part(p)].links, manifest[i].rel, x) && x in s.bytes
    ensures forall q :: Part(q) in s.fs ==> q == p
    ensures Final(manifest[i].member) in s.fs && s.fs[Final(manifest[i].member)] == File(x)
    ensures HasFile(s, Final(manifest[j].member))
    ensures var a := w.bundle([manifest[i]]).value;
            && Final(a) in s.fs && s.fs[Final(a)] == Tree(map[manifest[i].rel := x])
            && a in s.landed && s.landed[a] == Landing([manifest[i]], false)
  {
    var line, a := manifest[i], w.bundle([manifest[i]]).value;
    var stock, s0 := Stock(w, Members(manifest), content);
    StockedCanFinish(w, s0, manifest, content);
    assert Holds(s0, Members(manifest)[i], content(Members(manifest)[i]));
    x := s0.fs[Final(line.member)].inode;
    var p0 := NatNotIn(s0.issued);
    var single := LandSingle(w, s0, p0, line, a);
    var s1 := Landed(s0, p0, line, a);
    LeadsFurther(w, EMPTY, stock, s0, single, s1);
    AllStillCached(w, s0, s1, manifest, p0, line, a);
    p := NatNotIn(s1.issued);
    var build, s2 := LinkUpTo(w, s1, p, manifest, j);
    LeadsFurther(w, EMPTY, stock + single, s1, build, s2);
    steps, s := stock + single + build, s2;
    StillThere(s1, s2, p, w.bundle(manifest).value, manifest, j);
    assert LinkIs(s1, s2.fs[Part(p)].links, manifest[i]);
  }

  predicate LinkedTo(links: map<string, Inode>, rel: string, x: Inode) {
    rel in links && links[rel] == x
  }

  lemma AllStillCached(w: World, s: State, s': State, manifest: seq<Line>, p: nat, line: Line, a: Address)
    requires HasFile(s, Final(line.member)) && s' == Landed(s, p, line, a) && a !in Members(manifest)
    requires forall k :: 0 <= k < |manifest| ==> HasFile(s, Final(manifest[k].member))
    ensures forall k :: 0 <= k < |manifest| ==>
              HasFile(s', Final(manifest[k].member))
              && s'.fs[Final(manifest[k].member)] == s.fs[Final(manifest[k].member)]
  {
    assert forall k :: 0 <= k < |manifest| ==> Members(manifest)[k] == manifest[k].member;
  }

  lemma StillThere(s: State, s': State, p: nat, a: Address, manifest: seq<Line>, n: nat)
    requires HasLinked(s, s', p, a, manifest, n)
    ensures forall b :: Final(b) in s.fs ==> Final(b) in s'.fs && s'.fs[Final(b)] == s.fs[Final(b)]
    ensures (forall q :: Part(q) !in s.fs) ==> forall q :: Part(q) in s'.fs ==> q == p
  {
    forall b | Final(b) in s.fs ensures Final(b) in s'.fs && s'.fs[Final(b)] == s.fs[Final(b)] {
      assert Final(b) in s'.fs - {Part(p)};
    }
    forall q | q != p && Part(q) in s'.fs ensures Part(q) in s.fs {
      assert Part(q) in s'.fs - {Part(p)};
    }
  }

  /**
   * With a repeated path the second link fails, and the copy that replaces it writes through the
   * first. For every manifest with one there is a run, with no other improper bundle in it, after
   * which a landed tree holds a file that does not hash to its member's address; and if the two lines
   * with the path differ in their member, so does the cached file.
   */
  lemma RepeatedPathCorruptsTree(w: World, manifest: seq<Line>, content: Address -> Bytes)
    returns (steps: seq<Step>, i: nat, j: nat, a: Address)
    requires !Distinct(manifest) && Buildable(w, manifest, content) && Separable(w, manifest)
    ensures Runs(w, EMPTY, steps) && AlmostProper(steps, manifest)
    ensures i < j < |manifest| && manifest[i].rel == manifest[j].rel
    ensures var s := After(w, EMPTY, steps);
            && HasTree(s, Final(a)) && a in s.landed && !s.landed[a].torn
            && !MembersHash(w, s.bytes, s.landed[a].manifest, |s.landed[a].manifest|, s.fs[Final(a)].links)
            && (manifest[i].member != manifest[j].member ==> !FilesHash(w, s))
  {
    i, j := FirstRepeat(manifest);
    var line := manifest[i];
    a := w.bundle([line]).value;
    var before, s, p, x := ReachRepeat(w, manifest, content, i, j);
    assert Members(manifest)[j] == manifest[j].member;
    var after, s' := OverwriteLink(w, s, p, content(manifest[j].member), x);
    LeadsFurther(w, EMPTY, before, s, after, s');
    steps := before + after;
    assert !DigestOk(w, line.member, s'.bytes[x]);
    assert [line][0].rel in s'.fs[Final(a)].links && s'.fs[Final(a)].links[[line][0].rel] == x;
    if line.member != manifest[j].member {
      assert s'.fs[Final(line.member)] == File(x);
    }
  }
}
