/** What every interleaving of prewarm invocations keeps. */
module PrewarmSafety {
  import opened Basics
  import opened PrewarmMachine

  /** The staging directory of an invocation that is still running. */
  predicate Live(s: State, name: Name) {
    name.Owned? && name.pid in s.calls && s.calls[name.pid].nonce == name.nonce
  }

  predicate Issued(s: State, name: Name) {
    name.Owned? ==> name.nonce in s.issued && s.issued[name.nonce] == name.pid
  }

  ghost predicate CallsOk(s: State) {
    forall pid :: pid in s.calls ==> pid in s.alive && Issued(s, Own(s, pid))
  }

  ghost predicate NamesOk(s: State) {
    && (forall name :: name in s.staging ==> Issued(s, name))
    && (forall name :: name in s.copies ==> name.Owned? && Issued(s, name))
  }

  /** A sweep only ever works on a name whose invocation is over. */
  ghost predicate SweepsOk(s: State) {
    forall pid :: SweepsDir(s, pid) ==>
      var name := s.calls[pid].stage.removing.value;
      Issued(s, name) && !Live(s, name)
  }

  /** The files copied so far, each with the base's content. */
  predicate CopiedBut(base: Option<Files>, node: Node, left: set<string>) {
    base.Some? && node == Dir(base.value - left) && left <= base.value.Keys
  }

  ghost predicate CloneOk(s: State, pid: nat)
    requires pid in s.calls
  {
    var own := Own(s, pid);
    match s.calls[pid].stage
    case Sweeping(_) => own !in s.staging && own !in s.copies
    case Ready => own !in s.staging && own !in s.copies
    case Cloning =>
      own in s.copies && s.base.Some?
      && if s.copies[own].made then own in s.staging && CopiedBut(s.base, s.staging[own], s.copies[own].left)
         else own !in s.staging && s.copies[own].left == s.base.value.Keys
    case Cloned => own !in s.copies && own in s.staging && CopiedBut(s.base, s.staging[own], {})
    case Leaving(_) => own !in s.copies
  }

  ghost predicate ClonesOk(s: State) {
    forall pid :: pid in s.calls ==> CloneOk(s, pid)
  }

  /** A cache that came from a clone has every file of the base. */
  ghost predicate FinalOk(s: State) {
    s.cloned ==>
      && s.base.Some? && s.final.Some? && s.final.value.Dir?
      && forall file :: file in s.base.value ==>
           file in s.final.value.files && s.final.value.files[file] == s.base.value[file]
  }

  ghost predicate StatusOk(s: State) {
    && (forall pid :: At(s, pid, Leaving(Prewarmed)) ==> s.calls[pid].nonce in s.landed)
    && (forall nonce :: (nonce, Prewarmed) in s.returned ==> nonce in s.landed)
  }

  ghost predicate Inv(s: State) {
    CallsOk(s) && NamesOk(s) && SweepsOk(s) && ClonesOk(s) && FinalOk(s) && StatusOk(s)
  }

  predicate Takes(s: State, step: Step, s': State) {
    Enabled(s, step) && s' == Apply(s, step)
  }

  ghost predicate Stepped(s: State, step: Step, s': State) {
    Inv(s) && Takes(s, step, s')
  }

  // ----- Every step keeps the invariant -----

  lemma IssuedStays(s: State, step: Step, s': State, name: Name)
    requires Takes(s, step, s') && Issued(s, name)
    ensures Issued(s', name)
  {
  }

  lemma NonceStays(s: State, step: Step, s': State, pid: nat)
    requires Takes(s, step, s') && pid in s.calls && pid in s'.calls
    ensures s'.calls[pid].nonce == s.calls[pid].nonce
  {
  }

  lemma NewCallIsIssued(s: State, step: Step, s': State, pid: nat)
    requires Takes(s, step, s') && pid !in s.calls && pid in s'.calls
    ensures Issued(s', Own(s', pid))
  {
  }

  lemma OwnIsIssued(s: State, step: Step, s': State, pid: nat)
    requires Takes(s, step, s') && pid in s'.calls
    requires pid in s.calls ==> Issued(s, Own(s, pid))
    ensures Issued(s', Own(s', pid))
  {
    if pid in s.calls {
      NonceStays(s, step, s', pid);
      IssuedStays(s, step, s', Own(s, pid));
    } else {
      NewCallIsIssued(s, step, s', pid);
    }
  }

  lemma CallersLive(s: State, step: Step, s': State)
    requires Takes(s, step, s') && forall pid :: pid in s.calls ==> pid in s.alive
    ensures forall pid :: pid in s'.calls ==> pid in s'.alive
  {
  }

  lemma KeepsCalls(s: State, step: Step, s': State)
    requires Stepped(s, step, s')
    ensures CallsOk(s')
  {
    CallersLive(s, step, s');
    forall pid | pid in s'.calls ensures pid in s'.alive && Issued(s', Own(s', pid)) {
      OwnIsIssued(s, step, s', pid);
    }
  }

  lemma StagingComesFrom(s: State, step: Step, s': State, name: Name)
    requires Takes(s, step, s') && name in s'.staging
    ensures name in s.staging || name in s.copies || !name.Owned?
  {
  }

  lemma CopiesComeFrom(s: State, step: Step, s': State, name: Name)
    requires Takes(s, step, s') && name in s'.copies
    ensures name in s.copies || (step.StartCopy? && step.pid in s.calls && name == Own(s, step.pid))
  {
  }

  lemma KeepsNames(s: State, step: Step, s': State)
    requires Stepped(s, step, s')
    ensures NamesOk(s')
  {
    forall name | name in s'.staging ensures Issued(s', name) {
      StagingComesFrom(s, step, s', name);
      IssuedStays(s, step, s', name);
    }
    forall name | name in s'.copies ensures name.Owned? && Issued(s', name) {
      CopiesComeFrom(s, step, s', name);
      IssuedStays(s, step, s', name);
    }
  }

  lemma NewCallIsFresh(s: State, step: Step, s': State, pid: nat)
    requires Takes(s, step, s') && pid !in s.calls && pid in s'.calls
    ensures s'.calls[pid].nonce !in s.issued
  {
  }

  /** A name that was issued and whose invocation is over stays so. */
  lemma OverStaysOver(s: State, step: Step, s': State, name: Name)
    requires Takes(s, step, s') && Issued(s, name)
    ensures Live(s', name) ==> Live(s, name)
  {
    if Live(s', name) {
      if name.pid in s.calls {
        NonceStays(s, step, s', name.pid);
      } else {
        NewCallIsFresh(s, step, s', name.pid);
      }
    }
  }

  lemma SweepersComeFrom(s: State, step: Step, s': State, pid: nat)
    requires Takes(s, step, s') && SweepsDir(s', pid)
    ensures var name := s'.calls[pid].stage.removing.value;
            step == Judge(pid, name) || (SweepsDir(s, pid) && s.calls[pid].stage.removing.value == name)
  {
  }

  /** What a sweep judges stale is no running invocation's. */
  lemma JudgedIsOver(s: State, pid: nat, name: Name)
    requires Inv(s) && Enabled(s, Judge(pid, name))
    ensures Issued(s, name) && !Live(s, name)
  {
    assert CloneOk(s, pid);
  }

  lemma KeepsSweeps(s: State, step: Step, s': State)
    requires Stepped(s, step, s')
    ensures SweepsOk(s')
  {
    forall pid | SweepsDir(s', pid)
      ensures Issued(s', s'.calls[pid].stage.removing.value) && !Live(s', s'.calls[pid].stage.removing.value)
    {
      var name := s'.calls[pid].stage.removing.value;
      SweepersComeFrom(s, step, s', pid);
      if step == Judge(pid, name) {
        JudgedIsOver(s, pid, name);
      }
      IssuedStays(s, step, s', name);
      OverStaysOver(s, step, s', name);
    }
  }

  /** The step is taken by this invocation or by its cp child. */
  predicate IsOwn(s: State, step: Step, pid: nat)
    requires pid in s.calls
  {
    match step
    case CopyMkdir(name) => name == Own(s, pid)
    case CopyFile(name, _) => name == Own(s, pid)
    case CopyFails(name) => name == Own(s, pid)
    case CopyExits(name) => name == Own(s, pid)
    case OutsideCreate(_) => false
    case OutsideAdd(_, _) => false
    case OutsideRemove => false
    case OutsideLeftover(_, _) => false
    case _ => step.pid == pid
  }

  lemma OthersLeaveCallAlone(s: State, step: Step, s': State, pid: nat)
    requires Takes(s, step, s') && pid in s.calls && !IsOwn(s, step, pid)
    ensures pid in s'.calls && s'.calls[pid] == s.calls[pid]
  {
  }

  lemma OthersLeaveCopyAlone(s: State, step: Step, s': State, pid: nat)
    requires Takes(s, step, s') && pid in s.calls && !IsOwn(s, step, pid)
    ensures Own(s, pid) in s'.copies <==> Own(s, pid) in s.copies
    ensures Own(s, pid) in s.copies ==> s'.copies[Own(s, pid)] == s.copies[Own(s, pid)]
  {
  }

  /** The staging entry the step changes. */
  function Target(s: State, step: Step): Option<Name>
    requires Enabled(s, step)
  {
    match step
    case SweepFile(pid, _) => s.calls[pid].stage.removing
    case SweepNode(pid) => s.calls[pid].stage.removing
    case CopyMkdir(name) => Some(name)
    case CopyFile(name, _) => Some(name)
    case Land(pid) => Some(Own(s, pid))
    case CleanFile(pid, _) => Some(Own(s, pid))
    case CleanNode(pid) => Some(Own(s, pid))
    case OutsideLeftover(name, _) => Some(name)
    case _ => None
  }

  lemma OnlyTheTargetChanges(s: State, step: Step, s': State, name: Name)
    requires Takes(s, step, s') && Target(s, step) != Some(name)
    ensures name in s'.staging <==> name in s.staging
    ensures name in s.staging ==> s'.staging[name] == s.staging[name]
  {
  }

  lemma OthersAimElsewhere(s: State, step: Step, pid: nat)
    requires Enabled(s, step) && SweepsOk(s) && pid in s.calls && !IsOwn(s, step, pid)
    ensures Target(s, step) != Some(Own(s, pid))
  {
    assert Live(s, Own(s, pid));
  }

  /**
   * No step of anyone else - sweeps that judged a pid dead before it was reused included - changes
   * the staging directory of a running invocation, its clone or its progress.
   */
  lemma OthersLeaveStagingAlone(s: State, step: Step, s': State, pid: nat)
    requires Stepped(s, step, s') && pid in s.calls && !IsOwn(s, step, pid)
    ensures pid in s'.calls && s'.calls[pid] == s.calls[pid]
    ensures Own(s, pid) in s'.staging <==> Own(s, pid) in s.staging
    ensures Own(s, pid) in s.staging ==> s'.staging[Own(s, pid)] == s.staging[Own(s, pid)]
    ensures Own(s, pid) in s'.copies <==> Own(s, pid) in s.copies
    ensures Own(s, pid) in s.copies ==> s'.copies[Own(s, pid)] == s.copies[Own(s, pid)]
  {
    OthersLeaveCallAlone(s, step, s', pid);
    OthersLeaveCopyAlone(s, step, s', pid);
    OthersAimElsewhere(s, step, pid);
    OnlyTheTargetChanges(s, step, s', Own(s, pid));
  }

  lemma BaseStays(s: State, step: Step, s': State)
    requires Takes(s, step, s')
    ensures s'.base == s.base
  {
  }

  predicate IsSweep(step: Step) {
    step.Judge? || step.SweepFile? || step.SweepNode? || step.SweepNext?
  }

  predicate IsCopy(step: Step) {
    step.CopyMkdir? || step.CopyFile? || step.CopyFails? || step.CopyExits?
  }

  lemma OwnSweepKeepsClone(s: State, step: Step, s': State, pid: nat)
    requires Takes(s, step, s') && SweepsOk(s) && IsSweep(step) && step.pid == pid && CloneOk(s, pid)
    ensures CloneOk(s', pid)
  {
    assert Live(s, Own(s, pid));
    assert Target(s, step) != Some(Own(s, pid));
    OnlyTheTargetChanges(s, step, s', Own(s, pid));
  }

  lemma OwnCopyKeepsClone(s: State, step: Step, s': State, pid: nat)
    requires Takes(s, step, s') && pid in s.calls && IsCopy(step) && step.name == Own(s, pid) && CloneOk(s, pid)
    ensures pid in s'.calls && CloneOk(s', pid)
  {
    if step.CopyFile? {
      assert s'.staging[step.name] == Dir(s.base.value - s'.copies[step.name].left);
    }
  }

  lemma OwnMoveKeepsClone(s: State, step: Step, s': State, pid: nat)
    requires Takes(s, step, s') && pid in s.alive && pid in s.calls && pid in s'.calls
    requires IsOwn(s, step, pid) && !IsSweep(step) && !IsCopy(step) && CloneOk(s, pid)
    ensures CloneOk(s', pid)
  {
  }

  lemma OwnStepKeepsClone(s: State, step: Step, s': State, pid: nat)
    requires Takes(s, step, s') && CallsOk(s) && SweepsOk(s) && pid in s.calls && pid in s'.calls
    requires IsOwn(s, step, pid) && CloneOk(s, pid)
    ensures CloneOk(s', pid)
  {
    if IsSweep(step) {
      OwnSweepKeepsClone(s, step, s', pid);
    } else if IsCopy(step) {
      OwnCopyKeepsClone(s, step, s', pid);
    } else {
      assert pid in s.alive;
      OwnMoveKeepsClone(s, step, s', pid);
    }
  }

  lemma NewCallHasNoClone(s: State, step: Step, s': State, pid: nat)
    requires Takes(s, step, s') && NamesOk(s) && pid !in s.calls && pid in s'.calls
    ensures CloneOk(s', pid)
  {
  }

  lemma KeepsClones(s: State, step: Step, s': State)
    requires Stepped(s, step, s')
    ensures ClonesOk(s')
  {
    forall pid | pid in s'.calls ensures CloneOk(s', pid) {
      if pid !in s.calls {
        NewCallHasNoClone(s, step, s', pid);
      } else if IsOwn(s, step, pid) {
        OwnStepKeepsClone(s, step, s', pid);
      } else {
        OthersLeaveStagingAlone(s, step, s', pid);
        BaseStays(s, step, s');
        assert CloneOk(s, pid);
      }
    }
  }

  lemma CacheStays(s: State, step: Step, s': State)
    requires Takes(s, step, s') && FinalOk(s) && !step.Land?
    ensures FinalOk(s')
  {
  }

  lemma KeepsFinal(s: State, step: Step, s': State)
    requires Takes(s, step, s') && FinalOk(s) && ClonesOk(s)
    ensures FinalOk(s')
  {
    if step.Land? {
      assert CloneOk(s, step.pid);
    } else {
      CacheStays(s, step, s');
    }
  }

  lemma KeepsStatus(s: State, step: Step, s': State)
    requires Takes(s, step, s') && StatusOk(s)
    ensures StatusOk(s')
  {
  }

  lemma StepKeepsInv(s: State, step: Step, s': State)
    requires Stepped(s, step, s')
    ensures Inv(s')
  {
    KeepsCalls(s, step, s');
    KeepsNames(s, step, s');
    KeepsSweeps(s, step, s');
    KeepsClones(s, step, s');
    KeepsFinal(s, step, s');
    KeepsStatus(s, step, s');
  }

  // ----- Whole runs -----

  lemma {:induction false} RunKeepsInv(s: State, steps: seq<Step>)
    requires Inv(s) && Runs(s, steps)
    ensures Inv(After(s, steps))
    decreases |steps|
  {
    if steps != [] {
      var init := steps[..|steps| - 1];
      RunKeepsInv(s, init);
      StepKeepsInv(After(s, init), steps[|steps| - 1], After(s, steps));
    }
  }

  /** Once a clone has become the .uv-cache, every file of the base is in it for as long as it stays. */
  lemma CacheIsNeverPartial(start: State, steps: seq<Step>, file: string)
    requires Initial(start) && Runs(start, steps) && After(start, steps).cloned
    requires After(start, steps).base.Some? && file in After(start, steps).base.value
    ensures var s := After(start, steps);
            s.final.Some? && s.final.value.Dir? && file in s.final.value.files
            && s.final.value.files[file] == s.base.value[file]
  {
    RunKeepsInv(start, steps);
  }

  /** A landing renames a complete clone, exactly the base, over nothing or an empty directory. */
  lemma LandingIsComplete(s: State, pid: nat)
    requires Inv(s) && Enabled(s, Land(pid))
    ensures s.base.Some? && Apply(s, Land(pid)).final == Some(Dir(s.base.value))
    ensures s.final.None? || s.final == Some(Dir(map[]))
  {
    assert CloneOk(s, pid);
    assert s.base.value - {} == s.base.value;
  }

  predicate IsOutside(step: Step) {
    step.OutsideCreate? || step.OutsideAdd? || step.OutsideRemove? || step.OutsideLeftover?
  }

  /** A .uv-cache with anything in it is never replaced or changed by an invocation. */
  lemma NonemptyCacheIsKept(s: State, step: Step)
    requires Enabled(s, step) && Occupied(s.final) && !IsOutside(step)
    ensures Apply(s, step).final == s.final
  {
  }

  /** Step `k` of the run is the landing of this nonce's clone, and the clone is exactly the base. */
  ghost predicate LandedAt(start: State, steps: seq<Step>, k: nat, nonce: nat) {
    && k < |steps| && Runs(start, steps[..k]) && steps[k].Land?
    && var s := After(start, steps[..k]);
    && Enabled(s, steps[k]) && s.calls[steps[k].pid].nonce == nonce
    && s.base.Some? && Apply(s, steps[k]).final == Some(Dir(s.base.value))
  }

  lemma NewLanding(s: State, step: Step, nonce: nat)
    requires Enabled(s, step) && nonce !in s.landed && nonce in Apply(s, step).landed
    ensures step.Land? && s.calls[step.pid].nonce == nonce
  {
  }

  lemma {:induction false} LandedSometime(start: State, steps: seq<Step>, nonce: nat) returns (k: nat)
    requires Initial(start) && Runs(start, steps) && nonce in After(start, steps).landed
    ensures LandedAt(start, steps, k, nonce)
    decreases |steps|
  {
    var init, last := steps[..|steps| - 1], steps[|steps| - 1];
    if nonce in After(start, init).landed {
      k := LandedSometime(start, init, nonce);
      assert steps[..k] == init[..k];
    } else {
      k := |init|;
      RunKeepsInv(start, init);
      NewLanding(After(start, init), last, nonce);
      LandingIsComplete(After(start, init), last.pid);
    }
  }

  /** "prewarmed" is returned only by an invocation whose complete clone landed. */
  lemma PrewarmedMeansLanded(start: State, steps: seq<Step>, nonce: nat) returns (k: nat)
    requires Initial(start) && Runs(start, steps) && (nonce, Prewarmed) in After(start, steps).returned
    ensures LandedAt(start, steps, k, nonce)
  {
    RunKeepsInv(start, steps);
    k := LandedSometime(start, steps, nonce);
  }

  // ----- Why the nonce is needed -----

  lemma RunOne(s: State, steps: seq<Step>, step: Step)
    requires Runs(s, steps) && Enabled(After(s, steps), step)
    ensures Runs(s, steps + [step]) && After(s, steps + [step]) == Apply(After(s, steps), step)
  {
    var all := steps + [step];
    assert all[..|all| - 1] == steps;
  }

  /**
   * Were names drawn from the pid alone, a sweeper that judged a pid dead before it was reused would
   * hold the live directory's name: it deletes a copied file, cp still exits 0, and a partial clone lands.
   */
  lemma ReusedNameLandsPartialClone(s: State, sweeper: nat, reuser: nat, file: string) returns (steps: seq<Step>)
    requires s.base.Some? && s.base.value.Keys == {file} && s.final.None?
    requires sweeper != reuser && At(s, reuser, Sweeping(None)) && Own(s, reuser) !in s.staging
    requires At(s, sweeper, Sweeping(Some(Own(s, reuser))))
    ensures Runs(s, steps) && After(s, steps).cloned && !FinalOk(After(s, steps))
  {
    var own := Own(s, reuser);
    var copying := CopyWhileSwept(s, sweeper, reuser, file);
    RunOne(s, copying, CopyExits(own));
    RunOne(s, copying + [CopyExits(own)], Land(reuser));
    steps := copying + [CopyExits(own)] + [Land(reuser)];
  }

  lemma CopyWhileSwept(s: State, sweeper: nat, reuser: nat, file: string) returns (steps: seq<Step>)
    requires s.base.Some? && s.base.value.Keys == {file} && s.final.None?
    requires sweeper != reuser && At(s, reuser, Sweeping(None)) && Own(s, reuser) !in s.staging
    requires At(s, sweeper, Sweeping(Some(Own(s, reuser))))
    ensures Runs(s, steps)
    ensures var s' := After(s, steps); var own := Own(s, reuser);
            && s'.base == s.base && s'.final.None? && At(s', reuser, Cloning) && Own(s', reuser) == own
            && own in s'.staging && s'.staging[own] == Dir(map[]) && own in s'.copies
            && s'.copies[own] == Copy({}, true)
  {
    var own := Own(s, reuser);
    var started := StartCopying(s, reuser);
    RunOne(s, started, CopyFile(own, file));
    RunOne(s, started + [CopyFile(own, file)], SweepFile(sweeper, file));
    steps := started + [CopyFile(own, file)] + [SweepFile(sweeper, file)];
    assert s.base.value.Keys - {file} == {};
  }

  /** The reuser's clone begins: its own directory is there, still empty. */
  lemma StartCopying(s: State, pid: nat) returns (steps: seq<Step>)
    requires s.base.Some? && s.final.None? && At(s, pid, Sweeping(None)) && Own(s, pid) !in s.staging
    ensures Runs(s, steps)
    ensures var own := Own(s, pid);
            After(s, steps) == Moved(s, pid, Cloning).(
              staging := s.staging[own := Dir(map[])], copies := s.copies[own := Copy(s.base.value.Keys, true)])
  {
    var own := Own(s, pid);
    var one := [Pass(pid)];
    var two := one + [StartCopy(pid)];
    assert Runs(s, []);
    RunOne(s, [], Pass(pid));
    assert [] + one == one;
    RunOne(s, one, StartCopy(pid));
    RunOne(s, two, CopyMkdir(own));
    steps := two + [CopyMkdir(own)];
    assert s.calls[pid := s.calls[pid].(stage := Ready)][pid := s.calls[pid].(stage := Cloning)] ==
           s.calls[pid := s.calls[pid].(stage := Cloning)];
  }
}
