/**
 * The landing protocol of the per-worktree .uv-cache (scripts/uv_cache_prewarm.py): concurrent
 * invocations, their cp children, kills at any point, pid reuse, sweeps and outside cache creators,
 * one file-system step at a time.
 */
module PrewarmMachine {
  import opened Basics

  type Files = map<string, int>

  /** A directory with its files, or anything that is not a directory. */
  datatype Node = Dir(files: Files) | NotDir

  /** Staging names: pid and nonce, the old form without a nonce, and the first version's fixed name. */
  datatype Name = Owned(pid: nat, nonce: nat) | OldForm(pid: nat) | Fixed

  datatype Status =
    | Prewarmed | SkippedExisting | SkippedNoBase | SkippedConcurrent
    | FailedStagingDirty | FailedClone | FailedLanding | Terminated

  datatype Stage =
    | Sweeping(removing: Option<Name>)
    | Ready
    | Cloning
    | Cloned
    | Leaving(status: Status)

  datatype Call = Call(nonce: nat, stage: Stage)

  /** A cp child: the files it still has to copy, and whether it has made its target directory. */
  datatype Copy = Copy(left: set<string>, made: bool)

  /**
   * `issued` maps every nonce ever drawn to the pid that drew it; `landed` holds the nonces whose
   * clone was renamed into place; `cloned` says the present .uv-cache came from one of them.
   */
  datatype State = State(
    base: Option<Files>,
    final: Option<Node>,
    cloned: bool,
    staging: map<Name, Node>,
    alive: set<nat>,
    calls: map<nat, Call>,
    copies: map<Name, Copy>,
    issued: map<nat, nat>,
    landed: set<nat>,
    returned: set<(nat, Status)>)

  datatype Step =
    | Spawn(pid: nat)
    | Die(pid: nat)
    | Begin(pid: nat, nonce: nat)
    | Judge(pid: nat, name: Name)
    | SweepFile(pid: nat, file: string)
    | SweepNode(pid: nat)
    | SweepNext(pid: nat)
    | Skip(pid: nat, status: Status)
    | Pass(pid: nat)
    | StartCopy(pid: nat)
    | CopyMkdir(name: Name)
    | CopyFile(name: Name, file: string)
    | CopyFails(name: Name)
    | CopyExits(name: Name)
    | Land(pid: nat)
    | Refuse(pid: nat)
    | Terminate(pid: nat)
    | CleanFile(pid: nat, file: string)
    | CleanNode(pid: nat)
    | Return(pid: nat)
    | OutsideCreate(node: Node)
    | OutsideAdd(file: string, content: int)
    | OutsideRemove
    | OutsideLeftover(name: Name, node: Node)

  predicate At(s: State, pid: nat, stage: Stage) {
    pid in s.calls && s.calls[pid].stage == stage
  }

  function Own(s: State, pid: nat): Name
    requires pid in s.calls
  {
    Owned(pid, s.calls[pid].nonce)
  }

  predicate SweepsDir(s: State, pid: nat) {
    pid in s.calls && s.calls[pid].stage.Sweeping? && s.calls[pid].stage.removing.Some?
  }

  /** The sweep's verdict: the fixed name, our own pid, or a pid that is not alive. */
  predicate Stale(s: State, pid: nat, name: Name) {
    name.Fixed? || name.pid == pid || name.pid !in s.alive
  }

  predicate Occupied(final: Option<Node>) {
    final.Some? && (final.value.NotDir? || final.value.files != map[])
  }

  /** Only a nonempty directory makes rename fail with EEXIST or ENOTEMPTY. */
  function Refusal(s: State): Status {
    if s.final.Some? && s.final.value.Dir? && s.final.value.files != map[] then SkippedConcurrent else FailedLanding
  }

  predicate IsDirWith(staging: map<Name, Node>, name: Name, file: string) {
    name in staging && staging[name].Dir? && file in staging[name].files
  }

  predicate Removable(staging: map<Name, Node>, name: Name) {
    name in staging && (staging[name].NotDir? || staging[name].files == map[])
  }

  predicate Enabled(s: State, step: Step) {
    match step
    case Spawn(pid) => pid !in s.alive
    case Die(pid) => pid in s.alive
    case Begin(pid, nonce) => pid in s.alive && pid !in s.calls && nonce !in s.issued
    case Judge(pid, name) => At(s, pid, Sweeping(None)) && name in s.staging && Stale(s, pid, name)
    case SweepFile(pid, file) => SweepsDir(s, pid) && IsDirWith(s.staging, s.calls[pid].stage.removing.value, file)
    case SweepNode(pid) => SweepsDir(s, pid) && Removable(s.staging, s.calls[pid].stage.removing.value)
    case SweepNext(pid) => SweepsDir(s, pid)
    case Skip(pid, status) =>
      At(s, pid, Sweeping(None))
      && (if s.final.Some? then status == SkippedExisting
          else if s.base.None? then status == SkippedNoBase
          else Own(s, pid) in s.staging && status == FailedStagingDirty)
    case Pass(pid) => At(s, pid, Sweeping(None)) && s.final.None? && s.base.Some? && Own(s, pid) !in s.staging
    case StartCopy(pid) => At(s, pid, Ready) && s.base.Some?
    case CopyMkdir(name) => name in s.copies && !s.copies[name].made && name !in s.staging
    case CopyFile(name, file) =>
      name in s.copies && s.copies[name].made && file in s.copies[name].left && s.base.Some? && file in s.base.value
      && name in s.staging && s.staging[name].Dir?
    case CopyFails(name) => name in s.copies
    case CopyExits(name) => name in s.copies && s.copies[name] == Copy({}, true)
    case Land(pid) =>
      At(s, pid, Cloned) && Own(s, pid) in s.staging && s.staging[Own(s, pid)].Dir? && !Occupied(s.final)
    case Refuse(pid) => At(s, pid, Cloned)
    case Terminate(pid) => pid in s.calls && !s.calls[pid].stage.Leaving?
    case CleanFile(pid, file) => pid in s.calls && s.calls[pid].stage.Leaving?
        && IsDirWith(s.staging, Own(s, pid), file)
    case CleanNode(pid) => pid in s.calls && s.calls[pid].stage.Leaving? && Removable(s.staging, Own(s, pid))
    case Return(pid) => pid in s.calls && s.calls[pid].stage.Leaving?
    case OutsideCreate(_) => s.final.None?
    case OutsideAdd(file, _) => s.final.Some? && s.final.value.Dir? && file !in s.final.value.files
    case OutsideRemove => true
    case OutsideLeftover(name, _) => name !in s.staging && !name.Owned?
  }

  function Moved(s: State, pid: nat, stage: Stage): State
    requires pid in s.calls
  {
    s.(calls := s.calls[pid := s.calls[pid].(stage := stage)])
  }

  function WithoutFile(staging: map<Name, Node>, name: Name, file: string): map<Name, Node>
    requires IsDirWith(staging, name, file)
  {
    staging[name := Dir(staging[name].files - {file})]
  }

  /** The call whose clone this is, if it is still waiting for it. */
  predicate Waiting(s: State, name: Name) {
    name.Owned? && At(s, name.pid, Cloning) && s.calls[name.pid].nonce == name.nonce
  }

  function Apply(s: State, step: Step): State
    requires Enabled(s, step)
  {
    match step
    case Spawn(pid) => s.(alive := s.alive + {pid})
    case Die(pid) => s.(alive := s.alive - {pid}, calls := s.calls - {pid})
    case Begin(pid, nonce) =>
      s.(calls := s.calls[pid := Call(nonce, Sweeping(None))], issued := s.issued[nonce := pid])
    case Judge(pid, name) => Moved(s, pid, Sweeping(Some(name)))
    case SweepFile(pid, file) => s.(staging := WithoutFile(s.staging, s.calls[pid].stage.removing.value, file))
    case SweepNode(pid) => s.(staging := s.staging - {s.calls[pid].stage.removing.value})
    case SweepNext(pid) => Moved(s, pid, Sweeping(None))
    case Skip(pid, status) => Moved(s, pid, Leaving(status))
    case Pass(pid) => Moved(s, pid, Ready)
    case StartCopy(pid) =>
      Moved(s, pid, Cloning).(copies := s.copies[Own(s, pid) := Copy(s.base.value.Keys, false)])
    case CopyMkdir(name) =>
      s.(staging := s.staging[name := Dir(map[])], copies := s.copies[name := s.copies[name].(made := true)])
    case CopyFile(name, file) =>
      s.(staging := s.staging[name := Dir(s.staging[name].files[file := s.base.value[file]])],
         copies := s.copies[name := s.copies[name].(left := s.copies[name].left - {file})])
    case CopyFails(name) =>
      (if Waiting(s, name) then Moved(s, name.pid, Leaving(FailedClone)) else s).(copies := s.copies - {name})
    case CopyExits(name) =>
      (if Waiting(s, name) then Moved(s, name.pid, Cloned) else s).(copies := s.copies - {name})
    case Land(pid) =>
      Moved(s, pid, Leaving(Prewarmed)).(
        final := Some(s.staging[Own(s, pid)]), cloned := true, staging := s.staging - {Own(s, pid)},
        landed := s.landed + {s.calls[pid].nonce})
    case Refuse(pid) => Moved(s, pid, Leaving(Refusal(s)))
    case Terminate(pid) => Moved(s, pid, Leaving(Terminated)).(copies := s.copies - {Own(s, pid)})
    case CleanFile(pid, file) => s.(staging := WithoutFile(s.staging, Own(s, pid), file))
    case CleanNode(pid) => s.(staging := s.staging - {Own(s, pid)})
    case Return(pid) =>
      s.(calls := s.calls - {pid}, returned := s.returned + {(s.calls[pid].nonce, s.calls[pid].stage.status)})
    case OutsideCreate(node) => s.(final := Some(node), cloned := false)
    case OutsideAdd(file, content) => s.(final := Some(Dir(s.final.value.files[file := content])))
    case OutsideRemove => s.(final := None, cloned := false)
    case OutsideLeftover(name, node) => s.(staging := s.staging[name := node])
  }

  /** No invocation yet: any base, any cache, any leftovers of earlier versions, any processes. */
  predicate Initial(s: State) {
    && !s.cloned && s.calls == map[] && s.copies == map[] && s.issued == map[] && s.landed == {} && s.returned == {}
    && forall name :: name in s.staging ==> !name.Owned?
  }

  predicate Runs(s: State, steps: seq<Step>)
    decreases |steps|, 0
  {
    steps == [] ||
    var init := steps[..|steps| - 1];
    Runs(s, init) && Enabled(After(s, init), steps[|steps| - 1])
  }

  function After(s: State, steps: seq<Step>): State
    requires Runs(s, steps)
    decreases |steps|, 1
  {
    if steps == [] then s else Apply(After(s, steps[..|steps| - 1]), steps[|steps| - 1])
  }
}
