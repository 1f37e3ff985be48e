/**
 * `prewarm` as written, each file-system operation one step of the protocol, with anyone else's
 * steps before it.
 */
module UvCachePrewarm {
  import opened Basics
  import opened PrewarmMachine
  import opened PrewarmSafety

  /** At this instant this invocation's clone is renamed into place, and the .uv-cache is the whole base. */
  ghost predicate LandsWhole(hist: seq<State>, t: int, pid: nat, nonce: nat) {
    && 0 < t < |hist| && Enabled(hist[t - 1], Land(pid)) && hist[t - 1].calls[pid].nonce == nonce
    && hist[t] == Apply(hist[t - 1], Land(pid))
    && hist[t].base.Some? && hist[t].final == Some(Dir(hist[t].base.value))
  }

  ghost predicate LandsSince(hist: seq<State>, from: int, pid: nat, nonce: nat) {
    exists t :: from <= t && LandsWhole(hist, t, pid, nonce)
  }

  lemma LandsStill(hist: seq<State>, hist': seq<State>, from: int, pid: nat, nonce: nat)
    requires hist <= hist' && LandsSince(hist, from, pid, nonce)
    ensures LandsSince(hist', from, pid, nonce)
  {
    var t :| from <= t && LandsWhole(hist, t, pid, nonce);
    assert LandsWhole(hist', t, pid, nonce);
  }

  /** At this instant the name is gone, or it is another process's, and that one lives. */
  ghost predicate SweptAt(hist: seq<State>, t: int, pid: nat, name: Name) {
    && 0 <= t < |hist|
    && (name in hist[t].staging ==> !name.Fixed? && name.pid != pid && name.pid in hist[t].alive)
  }

  ghost predicate SweptSince(hist: seq<State>, from: int, pid: nat, name: Name) {
    exists t :: from <= t && SweptAt(hist, t, pid, name)
  }

  lemma SweptStill(hist: seq<State>, hist': seq<State>, from: int, pid: nat, name: Name)
    requires hist <= hist' && SweptSince(hist, from, pid, name)
    ensures SweptSince(hist', from, pid, name)
  {
    var t :| from <= t && SweptAt(hist, t, pid, name);
    assert SweptAt(hist', t, pid, name);
  }

  // ----- What a status stands for -----

  ghost predicate AbsentAt(s: State) {
    s.final.None?
  }

  /** A directory with something in it, over which no directory can be renamed. */
  ghost predicate FullDirAt(s: State) {
    s.final.Some? && s.final.value.Dir? && s.final.value.files != map[]
  }

  ghost predicate NotDirAt(s: State) {
    s.final.Some? && s.final.value.NotDir?
  }

  ghost predicate ExistedSince(hist: seq<State>, from: int) {
    exists t :: 0 <= from <= t < |hist| && !AbsentAt(hist[t])
  }

  ghost predicate FullDirSince(hist: seq<State>, from: int) {
    exists t :: 0 <= from <= t < |hist| && FullDirAt(hist[t])
  }

  ghost predicate NotDirSince(hist: seq<State>, from: int) {
    exists t :: 0 <= from <= t < |hist| && NotDirAt(hist[t])
  }

  /**
   * Why an invocation ended as it did. `clones` says whether cp comes through, and `renames` whether a
   * rename over a free place does. Nothing is skipped or fails without its reason.
   */
  ghost predicate Justified(
    hist: seq<State>, from: int, pid: nat, nonce: nat, base: Option<Files>, clones: bool, renames: bool, status: Status)
  {
    match status
    case Prewarmed => clones && renames && base.Some? && LandsSince(hist, from + 1, pid, nonce)
    case SkippedExisting => ExistedSince(hist, from)
    case SkippedNoBase => base.None?
    case FailedClone => !clones
    case SkippedConcurrent => FullDirSince(hist, from)
    case FailedLanding => !renames || NotDirSince(hist, from)
    case _ => false
  }

  lemma JustifiedLater(
    hist: seq<State>, hist': seq<State>, from: int, from': int, pid: nat, nonce: nat, base: Option<Files>,
    clones: bool, renames: bool, status: Status)
    requires hist <= hist' && 0 <= from' <= from && Justified(hist, from, pid, nonce, base, clones, renames, status)
    ensures Justified(hist', from', pid, nonce, base, clones, renames, status)
  {
    match status
    case Prewarmed =>
      LandsStill(hist, hist', from + 1, pid, nonce);
      var t :| from + 1 <= t && LandsWhole(hist', t, pid, nonce);
    case SkippedExisting =>
      var t :| from <= t < |hist| && !AbsentAt(hist[t]);
      assert !AbsentAt(hist'[t]);
    case SkippedConcurrent =>
      var t :| from <= t < |hist| && FullDirAt(hist[t]);
      assert FullDirAt(hist'[t]);
    case FailedLanding =>
      if NotDirSince(hist, from) {
        var t :| from <= t < |hist| && NotDirAt(hist[t]);
        assert NotDirAt(hist'[t]);
      }
    case _ =>
  }

  class Worktree {
    var s: State
    /** Every state there has been, the present one last. */
    ghost var hist: seq<State>

    ghost predicate Valid()
      reads this
    {
      Inv(s) && hist != [] && hist[|hist| - 1] == s
    }

    /** The invocation is where it was, and its staging and cp child are as it left them. */
    twostate predicate Undisturbed(pid: nat)
      reads this
    {
      && old(hist) <= hist && s.base == old(s).base && old(s).landed <= s.landed
      && (pid in old(s).calls ==>
        && pid in s.calls && s.calls[pid] == old(s).calls[pid]
        && var own := Own(s, pid);
        && (own in s.staging <==> own in old(s).staging) && (own in s.staging ==> s.staging[own] == old(s).staging[own])
        && (own in s.copies <==> own in old(s).copies) && (own in s.copies ==> s.copies[own] == old(s).copies[own]))
    }

    /** Any steps of anyone else; the contract is all a caller may rely on. */
    method Interleave(pid: nat)
      requires Valid()
      modifies this
      ensures Valid() && Undisturbed(pid)
    {
    }

    method Do(step: Step)
      requires Valid() && Enabled(s, step)
      modifies this
      ensures Valid() && s == Apply(old(s), step) && hist == old(hist) + [s]
    {
      StepKeepsInv(s, step, Apply(s, step));
      s := Apply(s, step);
      hist := hist + [s];
    }

    /**
     * `_remove_path` on a leftover judged stale; whatever is there by then goes, or as much of it as can
     * be removed. `removes` says of each name whether it can.
     */
    method RemoveStale(pid: nat, name: Name, removes: Name -> bool)
      requires Valid() && At(s, pid, Sweeping(Some(name)))
      modifies this
      ensures s.base == old(s).base
      ensures Valid() && old(hist) <= hist && At(s, pid, Sweeping(Some(name))) && s.calls == old(s).calls
      ensures removes(name) ==> name !in s.staging
    {
      while name in s.staging && s.staging[name].Dir? && s.staging[name].files != map[]
        invariant Valid() && old(hist) <= hist && At(s, pid, Sweeping(Some(name))) && s.calls == old(s).calls
        invariant s.base == old(s).base
        decreases if name in s.staging && s.staging[name].Dir? then |s.staging[name].files| else 0
      {
        var stuck: bool := *;
        if stuck && !removes(name) {
          return;
        }
        var files := s.staging[name].files;
        var file := PickOne(files.Keys);
        Do(SweepFile(pid, file));
        assert s.staging[name].files.Keys == files.Keys - {file};
      }
      if removes(name) && name in s.staging {
        Do(SweepNode(pid));
      }
    }

    /** One entry of the glob: judge it and remove it if it is stale. */
    method SweepOne(pid: nat, name: Name, removes: Name -> bool)
      requires Valid() && At(s, pid, Sweeping(None))
      modifies this
      ensures s.base == old(s).base
      ensures Valid() && old(hist) <= hist && At(s, pid, Sweeping(None))
              && s.calls[pid].nonce == old(s).calls[pid].nonce
      ensures removes(name) ==> SweptAt(hist, |hist| - 1, pid, name)
    {
      Interleave(pid);
      if name in s.staging && Stale(s, pid, name) {
        Sweep(pid, name, removes);
      }
    }

    method Sweep(pid: nat, name: Name, removes: Name -> bool)
      requires Valid() && At(s, pid, Sweeping(None)) && name in s.staging && Stale(s, pid, name)
      modifies this
      ensures s.base == old(s).base
      ensures Valid() && old(hist) <= hist && At(s, pid, Sweeping(None))
              && s.calls[pid].nonce == old(s).calls[pid].nonce
      ensures removes(name) ==> name !in s.staging
    {
      Do(Judge(pid, name));
      Interleave(pid);
      RemoveStale(pid, name, removes);
      Do(SweepNext(pid));
    }

    /**
     * Remove what earlier invocations left: the fixed name, our own pid's, and dead pids'. Every name
     * that is there when they are listed and can be removed is, at some later instant, gone or not stale.
     */
    method SweepLeftovers(pid: nat, removes: Name -> bool) returns (ghost listed: int)
      requires Valid() && At(s, pid, Sweeping(None))
      modifies this
      ensures s.base == old(s).base
      ensures Valid() && old(hist) <= hist && At(s, pid, Sweeping(None))
              && s.calls[pid].nonce == old(s).calls[pid].nonce
      ensures |old(hist)| - 1 <= listed < |hist|
      ensures forall name :: name in hist[listed].staging && removes(name) ==> SweptSince(hist, listed, pid, name)
    {
      Interleave(pid);
      var todo := s.staging.Keys;
      listed := |hist| - 1;
      ghost var names := todo;
      while todo != {}
        invariant Valid() && old(hist) <= hist && At(s, pid, Sweeping(None))
                  && s.calls[pid].nonce == old(s).calls[pid].nonce
        invariant s.base == old(s).base
        invariant |old(hist)| - 1 <= listed < |hist| && hist[listed].staging.Keys == names && todo <= names
        invariant forall name :: name in names - todo && removes(name) ==> SweptSince(hist, listed, pid, name)
        decreases todo
      {
        var name := PickOne(todo);
        ghost var before := hist;
        todo := todo - {name};
        SweepOne(pid, name, removes);
        assert listed <= |hist| - 1 && (removes(name) ==> SweptAt(hist, |hist| - 1, pid, name));
        forall other | other in names - todo && removes(other) ensures SweptSince(hist, listed, pid, other) {
          if other != name {
            SweptStill(before, hist, listed, pid, other);
          }
        }
      }
    }

    method CleanOne(pid: nat)
      requires Valid() && pid in s.calls && s.calls[pid].stage.Leaving?
      requires Own(s, pid) in s.staging && s.staging[Own(s, pid)].Dir? && s.staging[Own(s, pid)].files != map[]
      modifies this
      ensures Valid() && old(hist) <= hist && old(s).landed <= s.landed
      ensures pid in s.calls && s.calls[pid] == old(s).calls[pid]
      ensures Own(s, pid) in s.staging && s.staging[Own(s, pid)].Dir?
      ensures |s.staging[Own(s, pid)].files| < |old(s).staging[Own(old(s), pid)].files|
    {
      var files := s.staging[Own(s, pid)].files;
      var file := PickOne(files.Keys);
      Do(CleanFile(pid, file));
      assert s.staging[Own(s, pid)].files.Keys == files.Keys - {file};
      Interleave(pid);
    }

    /** The `finally` clause: only our own staging directory, as much of it as can be removed. */
    method CleanOwn(pid: nat, removes: Name -> bool)
      requires Valid() && pid in s.calls && s.calls[pid].stage.Leaving?
      modifies this
      ensures Valid() && old(hist) <= hist && old(s).landed <= s.landed
      ensures pid in s.calls && s.calls[pid] == old(s).calls[pid]
      ensures removes(Own(s, pid)) ==> Own(s, pid) !in s.staging
    {
      Interleave(pid);
      var own := Own(s, pid);
      while own in s.staging && s.staging[own].Dir? && s.staging[own].files != map[]
        invariant Valid() && old(hist) <= hist && old(s).landed <= s.landed
        invariant pid in s.calls && s.calls[pid] == old(s).calls[pid]
        decreases if own in s.staging && s.staging[own].Dir? then |s.staging[own].files| else 0
      {
        var stuck: bool := *;
        if stuck && !removes(own) {
          return;
        }
        CleanOne(pid);
      }
      if removes(own) && own in s.staging {
        Do(CleanNode(pid));
      }
    }

    /** One file of the clone; others may act first. */
    method CopyOne(pid: nat)
      requires Valid() && At(s, pid, Cloning) && s.copies[Own(s, pid)].made && s.copies[Own(s, pid)].left != {}
      modifies this
      ensures s.base == old(s).base
      ensures Valid() && old(hist) <= hist && At(s, pid, Cloning) && s.calls[pid] == old(s).calls[pid]
      ensures s.copies[Own(s, pid)].made
      ensures |s.copies[Own(s, pid)].left| < |old(s).copies[Own(old(s), pid)].left|
    {
      Interleave(pid);
      var own := Own(s, pid);
      assert CloneOk(s, pid);
      var left := s.copies[own].left;
      var file := PickOne(left);
      Do(CopyFile(own, file));
      assert s.copies[own].left == left - {file};
    }

    /** Run cp to its end; unless it comes through it may fail at any point. */
    method RunCopy(pid: nat, clones: bool)
      requires Valid() && At(s, pid, Ready) && s.base.Some?
      modifies this
      ensures Valid() && old(hist) <= hist && s.base == old(s).base
      ensures pid in s.calls && s.calls[pid].nonce == old(s).calls[pid].nonce
      ensures s.calls[pid].stage == if clones then Cloned else Leaving(FailedClone)
    {
      StartClone(pid);
      CopyAll(pid, clones);
      EndClone(pid, clones);
    }

    /** Start cp, which makes its target directory. */
    method StartClone(pid: nat)
      requires Valid() && At(s, pid, Ready) && s.base.Some?
      modifies this
      ensures Valid() && old(hist) <= hist && s.base == old(s).base
      ensures At(s, pid, Cloning) && s.calls[pid].nonce == old(s).calls[pid].nonce
      ensures Own(s, pid) in s.copies && s.copies[Own(s, pid)].made
    {
      Do(StartCopy(pid));
      Interleave(pid);
      assert CloneOk(s, pid);
      Do(CopyMkdir(Own(s, pid)));
    }

    /** The child's exit status. */
    method EndClone(pid: nat, clones: bool)
      requires Valid() && At(s, pid, Cloning) && Own(s, pid) in s.copies
      requires clones ==> s.copies[Own(s, pid)] == Copy({}, true)
      modifies this
      ensures Valid() && old(hist) <= hist && s.base == old(s).base
      ensures pid in s.calls && s.calls[pid].nonce == old(s).calls[pid].nonce
      ensures s.calls[pid].stage == if clones then Cloned else Leaving(FailedClone)
    {
      if !clones {
        Do(CopyFails(Own(s, pid)));
      } else {
        Do(CopyExits(Own(s, pid)));
      }
    }

    /** File by file, to the end or to where it fails. */
    method CopyAll(pid: nat, clones: bool)
      requires Valid() && At(s, pid, Cloning) && Own(s, pid) in s.copies && s.copies[Own(s, pid)].made
      modifies this
      ensures Valid() && old(hist) <= hist && s.base == old(s).base
      ensures At(s, pid, Cloning) && s.calls[pid] == old(s).calls[pid]
      ensures Own(s, pid) in s.copies && (clones ==> s.copies[Own(s, pid)] == Copy({}, true))
    {
      while s.copies[Own(s, pid)].left != {}
        invariant Valid() && old(hist) <= hist && s.base == old(s).base
        invariant At(s, pid, Cloning) && s.calls[pid] == old(s).calls[pid]
        invariant Own(s, pid) in s.copies && s.copies[Own(s, pid)].made
        decreases |s.copies[Own(s, pid)].left|
      {
        var stops: bool := *;
        if stops && !clones {
          return;
        }
        CopyOne(pid);
        assert CloneOk(s, pid);
      }
    }

    /** After the sweep: skip, or clone and rename into place. */
    method CloneAndLand(pid: nat, clones: bool, renames: bool)
      requires Valid() && At(s, pid, Sweeping(None))
      modifies this
      ensures Valid() && old(hist) <= hist && s.base == old(s).base
      ensures pid in s.calls && s.calls[pid].nonce == old(s).calls[pid].nonce && s.calls[pid].stage.Leaving?
      ensures Justified(hist, |old(hist)| - 1, pid, s.calls[pid].nonce, s.base, clones, renames,
                        s.calls[pid].stage.status)
    {
      Interleave(pid);
      ghost var looked := hist;
      if s.final.Some? || s.base.None? {
        SkipNow(pid);
        assert hist[|looked| - 1] == looked[|looked| - 1];
        return;
      }
      assert CloneOk(s, pid);
      Do(Pass(pid));
      CloneThenRename(pid, clones, renames);
      JustifiedLater(hist, hist, |looked|, |old(hist)| - 1, pid, s.calls[pid].nonce, s.base, clones, renames,
          s.calls[pid].stage.status);
    }

    method SkipNow(pid: nat)
      requires Valid() && At(s, pid, Sweeping(None)) && (s.final.Some? || s.base.None?)
      modifies this
      ensures Valid() && hist == old(hist) + [s] && s.base == old(s).base
      ensures pid in s.calls && s.calls[pid].nonce == old(s).calls[pid].nonce
      ensures s.calls[pid].stage == Leaving(if old(s).final.Some? then SkippedExisting else SkippedNoBase)
    {
      if s.final.Some? {
        Do(Skip(pid, SkippedExisting));
      } else {
        Do(Skip(pid, SkippedNoBase));
      }
    }

    method CloneThenRename(pid: nat, clones: bool, renames: bool)
      requires Valid() && At(s, pid, Ready) && s.base.Some?
      modifies this
      ensures Valid() && old(hist) <= hist && s.base == old(s).base
      ensures pid in s.calls && s.calls[pid].nonce == old(s).calls[pid].nonce && s.calls[pid].stage.Leaving?
      ensures Justified(hist, |old(hist)| - 1, pid, s.calls[pid].nonce, s.base, clones, renames,
                        s.calls[pid].stage.status)
    {
      RunCopy(pid, clones);
      if clones {
        ghost var cloned := hist;
        RenameIntoPlace(pid, renames);
        JustifiedLater(hist, hist, |cloned| - 1, |old(hist)| - 1, pid, s.calls[pid].nonce, s.base, clones, renames,
            s.calls[pid].stage.status);
      }
    }

    /** The rename: over nothing or an empty directory it lands if it comes through. */
    method RenameIntoPlace(pid: nat, renames: bool)
      requires Valid() && At(s, pid, Cloned)
      modifies this
      ensures Valid() && old(hist) <= hist && s.base == old(s).base
      ensures pid in s.calls && s.calls[pid].nonce == old(s).calls[pid].nonce && s.calls[pid].stage.Leaving?
      ensures Justified(hist, |old(hist)| - 1, pid, s.calls[pid].nonce, s.base, true, renames,
                        s.calls[pid].stage.status)
    {
      Interleave(pid);
      ghost var looked := hist;
      LandOrRefuse(pid, renames);
      JustifiedLater(hist, hist, |looked| - 1, |old(hist)| - 1, pid, s.calls[pid].nonce, s.base, true, renames,
          s.calls[pid].stage.status);
    }

    method LandOrRefuse(pid: nat, renames: bool)
      requires Valid() && At(s, pid, Cloned)
      modifies this
      ensures Valid() && hist == old(hist) + [s] && s.base == old(s).base
      ensures pid in s.calls && s.calls[pid].nonce == old(s).calls[pid].nonce && s.calls[pid].stage.Leaving?
      ensures Justified(hist, |old(hist)| - 1, pid, s.calls[pid].nonce, s.base, true, renames,
                        s.calls[pid].stage.status)
    {
      ghost var looked := hist;
      if !renames || Occupied(s.final) {
        Do(Refuse(pid));
        assert FullDirAt(looked[|looked| - 1]) ==> FullDirAt(hist[|looked| - 1]);
        assert NotDirAt(looked[|looked| - 1]) ==> NotDirAt(hist[|looked| - 1]);
      } else {
        LandFree(pid);
      }
    }

    method LandFree(pid: nat)
      requires Valid() && At(s, pid, Cloned) && !Occupied(s.final)
      modifies this
      ensures Valid() && hist == old(hist) + [s] && s.base == old(s).base && s.base.Some?
      ensures pid in s.calls && s.calls[pid] == Call(old(s).calls[pid].nonce, Leaving(Prewarmed))
      ensures LandsSince(hist, |old(hist)|, pid, s.calls[pid].nonce)
    {
      assert CloneOk(s, pid);
      LandingIsComplete(s, pid);
      Do(Land(pid));
      assert LandsWhole(hist, |hist| - 1, pid, s.calls[pid].nonce);
    }

    /**
     * One invocation that is not killed, with anyone else's steps in between. "prewarmed" means that
     * at some instant of it its own complete clone became the .uv-cache, and any other status has its
     * reason: a place that is free is landed on. Its staging directory is gone whatever the status, if
     * it can be removed.
     */
    method Prewarm(pid: nat, nonce: nat, removes: Name -> bool, clones: bool, renames: bool) returns (status: Status)
      requires Valid() && pid in s.alive && pid !in s.calls && nonce !in s.issued
      modifies this
      ensures Valid() && old(hist) <= hist && pid !in s.calls
      ensures removes(Owned(pid, nonce)) ==> Owned(pid, nonce) !in s.staging
      ensures (nonce, status) in s.returned
      ensures status == Prewarmed ==> nonce in s.landed && LandsSince(hist, |old(hist)|, pid, nonce)
      ensures Justified(hist, |old(hist)| - 1, pid, nonce, old(s).base, clones, renames, status)
    {
      ghost var from := |hist| - 1;
      Do(Begin(pid, nonce));
      ghost var listed := SweepLeftovers(pid, removes);
      ghost var swept := hist;
      CloneAndLand(pid, clones, renames);
      ghost var base := s.base;
      JustifiedLater(hist, hist, |swept| - 1, from, pid, nonce, base, clones, renames, s.calls[pid].stage.status);
      status := Leave(pid, removes, from, base, clones, renames);
    }

    /** Clean up and return the status. */
    method Leave(pid: nat, removes: Name -> bool, ghost from: nat, ghost base: Option<Files>, ghost clones: bool,
        ghost renames: bool)
      returns (status: Status)
      requires Valid() && pid in s.calls && s.calls[pid].stage.Leaving?
      requires Justified(hist, from, pid, s.calls[pid].nonce, base, clones, renames, s.calls[pid].stage.status)
      modifies this
      ensures Valid() && old(hist) <= hist && pid !in s.calls
      ensures status == old(s).calls[pid].stage.status && (old(s).calls[pid].nonce, status) in s.returned
      ensures var own := Own(old(s), pid); removes(own) ==> own !in s.staging
      ensures Justified(hist, from, pid, old(s).calls[pid].nonce, base, clones, renames, status)
    {
      ghost var landed, nonce := hist, s.calls[pid].nonce;
      CleanOwn(pid, removes);
      status := s.calls[pid].stage.status;
      Do(Return(pid));
      JustifiedLater(landed, hist, from, from, pid, nonce, base, clones, renames, status);
    }
  }
}
