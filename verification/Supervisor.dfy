/**
 * The supervisor's crash-restart path and its rolling limit on kept claims (worker/supervisor.py,
 * worker/restart_policy.py). Clock readings are parameters; `configured` and `tokens` are what the
 * store answers at that moment.
 */
module Supervisor {

  const EXIT_REFUSED := 2
  const STABLE_AFTER := 60.0
  const CLAIM_RESUME_LIMIT := 3
  const CLAIM_RESUME_WINDOW_SECONDS := 3600.0
  const RETAINED := 8

  /** The stamps a verdict at `now` still counts. */
  function Recent(resumes: seq<real>, now: real): seq<real> {
    if resumes == [] then []
    else
      var rest := Recent(resumes[..|resumes| - 1], now);
      var last := resumes[|resumes| - 1];
      if now - last < CLAIM_RESUME_WINDOW_SECONDS then rest + [last] else rest
  }

  /** Does a crash restart keep the operator's switch? */
  predicate ClaimResumeVerdict(claimEnabled: bool, restartCount: nat, resumes: seq<real>, now: real) {
    claimEnabled && restartCount == 1 && |Recent(resumes, now)| < CLAIM_RESUME_LIMIT
  }

  function Doubled(initial: real, times: nat): real {
    if times == 0 then initial else 2.0 * Doubled(initial, times - 1)
  }

  /** Exponential backoff, capped. */
  function RestartDelay(restartCount: nat, initial: real, cap: real): real
    requires restartCount > 0
  {
    if Doubled(initial, restartCount - 1) <= cap then Doubled(initial, restartCount - 1) else cap
  }

  function LastOf(stamps: seq<real>, n: nat): seq<real> {
    if |stamps| <= n then stamps else stamps[|stamps| - n..]
  }

  predicate Ordered(stamps: seq<real>) {
    forall i, j :: 0 <= i < j < |stamps| ==> stamps[i] <= stamps[j]
  }

  /** Any two stamps three apart are a full window apart. */
  predicate Spaced(stamps: seq<real>) {
    forall i, j :: 0 <= i && i + CLAIM_RESUME_LIMIT <= j < |stamps| ==>
      stamps[j] - stamps[i] >= CLAIM_RESUME_WINDOW_SECONDS
  }

  /** The stamps less than a window old. */
  function Young(resumes: seq<real>, now: real): set<int> {
    set i | 0 <= i < |resumes| && now - resumes[i] < 3600.0
  }

  /** As many are counted as are less than an hour old. */
  lemma {:induction false} RecentAre(resumes: seq<real>, now: real)
    ensures |Recent(resumes, now)| == |Young(resumes, now)|
  {
    var young := Young(resumes, now);
    if resumes == [] {
      assert young == {};
    } else {
      var n := |resumes| - 1;
      RecentAre(resumes[..n], now);
      assert young == Young(resumes[..n], now) + if now - resumes[n] < 3600.0 then {n} else {};
    }
  }

  lemma {:induction false} DoubledGrows(initial: real, m: nat, n: nat)
    requires initial >= 0.0 && m <= n
    ensures 0.0 <= Doubled(initial, m) <= Doubled(initial, n)
  {
    if m < n {
      DoubledGrows(initial, m, n - 1);
    } else if m > 0 {
      DoubledGrows(initial, m - 1, m - 1);
    }
  }

  /** The first delay is the initial one; each further crash doubles it, up to the cap. */
  lemma DelayDoubles(restartCount: nat, initial: real, cap: real)
    requires restartCount > 0 && 0.0 <= initial <= cap
    ensures RestartDelay(1, initial, cap) == initial
    ensures var delay := RestartDelay(restartCount, initial, cap);
            RestartDelay(restartCount + 1, initial, cap) == if 2.0 * delay <= cap then 2.0 * delay else cap
  {
    DoubledGrows(initial, restartCount - 1, restartCount);
  }

  /** If the third stamp from the end is recent, three are. */
  lemma ThreeRecent(resumes: seq<real>, now: real)
    requires Ordered(resumes) && |resumes| >= 3 && now - resumes[|resumes| - 3] < CLAIM_RESUME_WINDOW_SECONDS
    ensures |Recent(resumes, now)| >= 3
  {
    var n := |resumes|;
    assert Recent(resumes, now) == Recent(resumes[..n - 1], now) + [resumes[n - 1]];
    assert resumes[..n - 1][..n - 2] == resumes[..n - 2];
    assert Recent(resumes[..n - 1], now) == Recent(resumes[..n - 2], now) + [resumes[n - 2]];
    assert resumes[..n - 2][..n - 3] == resumes[..n - 3];
    assert Recent(resumes[..n - 2], now) == Recent(resumes[..n - 3], now) + [resumes[n - 3]];
  }

  /** Trimming after each stamp retains the same stamps as trimming the whole list. */
  lemma LastOfMore(kept: seq<real>, stamp: real)
    ensures LastOf(LastOf(kept, RETAINED) + [stamp], RETAINED) == LastOf(kept + [stamp], RETAINED)
  {
  }

  /**
   * One more kept resume, decided at `now` from the last eight stamps and stamped at `stamp` some time
   * later, leaves every two stamps three apart a window apart.
   */
  lemma KeepSpaces(kept: seq<real>, now: real, stamp: real)
    requires Ordered(kept) && Spaced(kept) && now <= stamp
    requires forall i :: 0 <= i < |kept| ==> kept[i] <= now
    requires |Recent(LastOf(kept, RETAINED), now)| < CLAIM_RESUME_LIMIT
    ensures Ordered(kept + [stamp]) && Spaced(kept + [stamp])
  {
    var n := |kept|;
    var resumes := LastOf(kept, RETAINED);
    if n >= 3 {
      assert resumes[|resumes| - 3] == kept[n - 3];
      if now - kept[n - 3] < CLAIM_RESUME_WINDOW_SECONDS {
        assert Ordered(resumes);
        ThreeRecent(resumes, now);
      }
      assert forall i :: 0 <= i <= n - 3 ==> kept[i] <= kept[n - 3];
    }
  }

  /** Hence at most three kept resumes fall within one window, wherever it starts. */
  lemma AtMostThreePerWindow(kept: seq<real>, first: nat, last: nat)
    requires Ordered(kept) && Spaced(kept) && first <= last < |kept|
    requires kept[last] - kept[first] < CLAIM_RESUME_WINDOW_SECONDS
    ensures last - first + 1 <= CLAIM_RESUME_LIMIT
  {
  }

  /** What a collector does once its executor has exited. */
  datatype Outcome = Dismissed | Refused | Backoff(delay: real)

  class WorkerSupervisor {
    /** The executor last spawned and whether it still runs. */
    var running: bool
    var generation: nat
    var shutdown: bool
    var refused: bool
    var restartCount: nat
    var claimEnabled: bool
    var claimResumes: seq<real>
    /** When every kept resume was stamped, and the last clock reading. */
    ghost var kept: seq<real>
    ghost var clock: real

    ghost predicate Valid()
      reads this
    {
      && Ordered(kept) && Spaced(kept) && claimResumes == LastOf(kept, RETAINED) && |claimResumes| <= 8
      && (forall i :: 0 <= i < |kept| ==> kept[i] <= clock)
      && (running ==> generation > 0)
    }

    constructor (claimEnabled: bool)
      ensures Valid() && !running && generation == 0 && kept == [] && restartCount == 0 && clock == 0.0
    {
      running, generation, shutdown, refused, restartCount := false, 0, false, false, 0;
      this.claimEnabled, claimResumes := claimEnabled, [];
      kept, clock := [], 0.0;
    }

    /** The executor exits on its own. */
    method Exits()
      requires Valid()
      modifies `running
      ensures Valid() && !running
    {
      running := false;
    }

    /** The operator turns the switch. */
    method SetClaimEnabled(on: bool)
      requires Valid()
      modifies `claimEnabled
      ensures Valid() && claimEnabled == on
    {
      claimEnabled := on;
    }

    /**
     * Spawn an executor unless one runs. The switch survives only a crash restart whose verdict is
     * to keep it; the generation grows exactly when an executor is spawned.
     */
    method StartProcess(crashRestart: bool, configured: bool, tokens: bool, now: real, stamp: real)
      returns (spawned: bool)
      requires Valid() && clock <= now <= stamp
      modifies `running, `generation, `claimEnabled, `claimResumes, `kept, `clock
      ensures Valid() && clock == stamp
      ensures spawned == (!old(running) && configured && tokens)
      ensures generation == old(generation) + (if spawned then 1 else 0) && running == (old(running) || spawned)
      ensures var keep := ClaimResumeVerdict(crashRestart && old(claimEnabled), restartCount, old(claimResumes), now);
              if old(running) || !configured then claimEnabled == old(claimEnabled) && kept == old(kept)
              else claimEnabled == keep && kept == old(kept) + if keep then [stamp] else []
    {
      if running || !configured {
        clock := stamp;
        return false;
      }
      DecideClaims(crashRestart, now, stamp);
      if !tokens {
        return false;
      }
      generation, running, spawned := generation + 1, true, true;
    }

    /** Keep the switch and stamp it, or turn it off. */
    method DecideClaims(crashRestart: bool, now: real, stamp: real)
      requires Valid() && clock <= now <= stamp
      modifies `claimEnabled, `claimResumes, `kept, `clock
      ensures Valid() && clock == stamp
      ensures claimEnabled ==
              ClaimResumeVerdict(crashRestart && old(claimEnabled), restartCount, old(claimResumes), now)
      ensures kept == old(kept) + if claimEnabled then [stamp] else []
    {
      clock := stamp;
      claimEnabled := ClaimResumeVerdict(crashRestart && claimEnabled, restartCount, claimResumes, now);
      if claimEnabled {
        KeepSpaces(kept, now, stamp);
        LastOfMore(kept, stamp);
        kept := kept + [stamp];
        claimResumes := LastOf(claimResumes + [stamp], RETAINED);
      } else {
        assert kept + [] == kept;
      }
    }

    method Start(configured: bool, tokens: bool, now: real, stamp: real)
      requires Valid() && clock <= now <= stamp
      modifies this
      ensures Valid() && clock == stamp && !shutdown && restartCount == old(restartCount) && kept == old(kept)
      ensures running == (old(running) || (configured && tokens))
      ensures generation == old(generation) + if !old(running) && configured && tokens then 1 else 0
      ensures claimEnabled == (old(claimEnabled) && (old(running) || !configured))
    {
      shutdown, refused := false, false;
      var spawned := StartProcess(false, configured, tokens, now, stamp);
    }

    /** `dies` says whether the executor was gone within the grace and kill waits. */
    method Stop(dies: bool)
      requires Valid()
      modifies `shutdown, `running
      ensures Valid() && shutdown && (dies ==> !running) && (!dies ==> running == old(running))
    {
      shutdown := true;
      if dies {
        running := false;
      }
    }

    /** Console restart: the crash counter starts over and claims are off. */
    method Restart(dies: bool, configured: bool, tokens: bool, now: real, stamp: real)
      requires Valid() && clock <= now <= stamp
      modifies this
      ensures Valid() && clock == stamp && !shutdown && restartCount == 0 && kept == old(kept)
      ensures running == ((old(running) && !dies) || (configured && tokens))
      ensures generation == old(generation) + if (!old(running) || dies) && configured && tokens then 1 else 0
      ensures claimEnabled == (old(claimEnabled) && ((old(running) && !dies) || !configured))
    {
      Stop(dies);
      shutdown, refused, restartCount := false, false, 0;
      var spawned := StartProcess(false, configured, tokens, now, stamp);
    }

    /** The collector of generation `g` after its executor exited having run for `ranFor` seconds. */
    method Collect(g: nat, exitCode: int, ranFor: real) returns (outcome: Outcome)
      requires Valid()
      modifies `restartCount, `refused
      ensures Valid()
      ensures outcome.Dismissed? <==> g != generation || shutdown
      ensures outcome.Refused? <==> g == generation && !shutdown && exitCode == EXIT_REFUSED
      ensures refused == (old(refused) || outcome.Refused?)
      ensures restartCount == if !outcome.Backoff? then old(restartCount)
                              else (if ranFor >= STABLE_AFTER then 0 else old(restartCount)) + 1
      ensures outcome.Backoff? ==> outcome.delay == RestartDelay(restartCount, 5.0, 300.0)
    {
      if g != generation || shutdown {
        return Dismissed;
      }
      if exitCode == EXIT_REFUSED {
        refused := true;
        return Refused;
      }
      if ranFor >= STABLE_AFTER {
        restartCount := 0;
      }
      restartCount := restartCount + 1;
      outcome := Backoff(RestartDelay(restartCount, 5.0, 300.0));
    }

    /**
     * The collector of generation `g` after its backoff: it restarts only if no stop came and no
     * other executor has been spawned since.
     */
    method RestartAfterBackoff(g: nat, configured: bool, tokens: bool, now: real, stamp: real) returns (spawned: bool)
      requires Valid() && clock <= now <= stamp
      modifies this
      ensures Valid() && clock == stamp && restartCount == old(restartCount)
      ensures spawned == (!old(shutdown) && g == old(generation) && !old(running) && configured && tokens)
      ensures generation == old(generation) + if spawned then 1 else 0
      ensures var keep := ClaimResumeVerdict(old(claimEnabled), restartCount, old(claimResumes), now);
              if old(shutdown) || g != old(generation) || old(running) || !configured
              then claimEnabled == old(claimEnabled) && kept == old(kept)
              else claimEnabled == keep && kept == old(kept) + if keep then [stamp] else []
    {
      if shutdown || g != generation {
        clock := stamp;
        return false;
      }
      spawned := StartProcess(true, configured, tokens, now, stamp);
    }
  }

  /** A count of 1 means the crashed executor had run stably, or that the count stood at 0 before. */
  lemma KeptOnlyOutsideCrashLoop(countBefore: nat, ranFor: real, claimEnabled: bool, resumes: seq<real>, now: real)
    ensures var count := (if ranFor >= STABLE_AFTER then 0 else countBefore) + 1;
            ClaimResumeVerdict(claimEnabled, count, resumes, now) <==>
              (ranFor >= 60.0 || countBefore == 0) && claimEnabled && |Young(resumes, now)| < 3
  {
    RecentAre(resumes, now);
  }

  /**
   * So claims are kept after a first executor that crashed at once: its restart counts 1 like one
   * after a stable run. `start`, `crash` and `stamp` are clock readings in order.
   */
  method ShortFirstCrashKeepsClaims(exitCode: int, ranFor: real, start: real, crash: real, stamp: real)
    returns (claims: bool)
    requires exitCode != EXIT_REFUSED && ranFor < STABLE_AFTER && 0.0 <= start <= crash <= stamp
    ensures claims
  {
    var s := new WorkerSupervisor(false);
    s.Start(true, true, start, start);
    s.SetClaimEnabled(true);
    s.Exits();
    var outcome := s.Collect(1, exitCode, ranFor);
    var spawned := s.RestartAfterBackoff(1, true, true, crash, stamp);
    claims := spawned && s.claimEnabled;
  }
}
