/** Cold-start capacity ramp on a virtual claiming clock (worker/ramp_up.py). */
module RampUp {
  import opened Basics

  datatype Controls = Controls(enabled: bool, initial: int, step: int, interval: real) {
    /** What `validate_ramp_up` lets through. */
    predicate Validated() {
      enabled ==> 1 <= initial && 1 <= step && 0.2 <= interval <= 3600.0
    }
  }

  datatype Snapshot = Snapshot(effective: int, target: int, nextTier: Option<real>)

  /** The fields of `RampUpState` that steer it. */
  datatype Ramp = Ramp(
    controls: Controls, lastObserved: Option<real>, claimClock: real, active: bool, reported: Option<int>)

  function MaxReal(a: real, b: real): real {
    if a >= b then a else b
  }

  function Tiers(clock: real, interval: real): int {
    if interval > 0.0 then (clock / interval).Floor else 0x4000_0000
  }

  function Tick(r: Ramp, now: real, claimEnabled: bool, pause: real): Ramp {
    r.(claimClock := if r.lastObserved.Some? && claimEnabled
                     then r.claimClock + MaxReal(0.0, now - r.lastObserved.value - MaxReal(pause, 0.0))
                     else r.claimClock,
       lastObserved := Some(now))
  }

  function ReportedOrZero(r: Ramp): int {
    if r.reported.Some? then r.reported.value else 0
  }

  function Observe(r: Ramp, target: int, now: real, claimEnabled: bool, pause: real): (Ramp, Snapshot) {
    var r' := Tick(r, now, claimEnabled, pause);
    if !r.controls.enabled then (r', Snapshot(target, target, None))
    else if !claimEnabled then (r', Snapshot(ReportedOrZero(r), target, None))
    else
      var reached := r.controls.initial + Tiers(r'.claimClock, r.controls.interval) * r.controls.step;
      var effective := Max(ReportedOrZero(r), Min(target, reached));
      if effective >= target then (r'.(active := false, reported := Some(target)), Snapshot(target, target, None))
      else (r'.(reported := Some(effective)),
          Snapshot(effective, target, Some(Remaining(r'.claimClock, r.controls.interval))))
  }

  /** Seconds of claiming time left at the current tier. */
  function Remaining(clock: real, interval: real): real {
    if interval > 0.0 then interval - (clock - interval * Tiers(clock, interval) as real) else 0.0
  }

  function Reconfigure(r: Ramp, controls: Controls): Ramp {
    if controls.enabled && !r.active && !r.controls.enabled then Ramp(controls, None, 0.0, true, None)
    else if !controls.enabled then r.(active := false, controls := controls)
    else r.(controls := controls)
  }

  /** The executor's per-pass policy: the capacity it uses and the pause start it carries. */
  function RampPass(r: Ramp, pausedSince: Option<real>, target: int, now: real, claimEnabled: bool)
    : (Ramp, Option<Snapshot>, Option<real>)
  {
    if !r.active then (r, None, pausedSince)
    else if !claimEnabled then
      var (r', view) := Observe(r, target, now, false, 0.0);
      (r', Some(view), if pausedSince.None? then Some(now) else pausedSince)
    else
      var pause := if pausedSince.None? then 0.0 else now - pausedSince.value;
      var (r', view) := Observe(r, target, now, true, pause);
      (r', Some(view), None)
  }

  class RampUpState {
    var controls: Controls
    var lastObserved: Option<real>
    var claimClock: real
    var active: bool
    var reported: Option<int>

    ghost function View(): Ramp
      reads this
    {
      Ramp(controls, lastObserved, claimClock, active, reported)
    }

    constructor (controls: Controls)
      ensures View() == Ramp(controls, None, 0.0, controls.enabled, None)
    {
      this.controls := controls;
      lastObserved, claimClock, active, reported := None, 0.0, controls.enabled, None;
    }

    method ReconfigureWith(next: Controls)
      modifies this
      ensures View() == Reconfigure(old(View()), next)
    {
      if next.enabled && !active && !controls.enabled {
        claimClock, lastObserved, reported, active := 0.0, None, None, true;
      } else if !next.enabled {
        active := false;
      }
      controls := next;
    }

    method ObserveAt(target: int, now: real, claimEnabled: bool, pause: real) returns (view: Snapshot)
      modifies this
      ensures (View(), view) == Observe(old(View()), target, now, claimEnabled, pause)
    {
      if lastObserved.Some? && claimEnabled {
        var elapsed := MaxReal(0.0, now - lastObserved.value - MaxReal(pause, 0.0));
        claimClock := claimClock + elapsed;
      }
      lastObserved := Some(now);
      var shown := if reported.Some? then reported.value else 0;
      if !claimEnabled || !controls.enabled {
        if !controls.enabled {
          return Snapshot(target, target, None);
        }
        return Snapshot(shown, target, None);
      }
      var tiers := Tiers(claimClock, controls.interval);
      var effective := Max(shown, Min(target, controls.initial + tiers * controls.step));
      if effective >= target {
        active := false;
        reported := Some(target);
        return Snapshot(target, target, None);
      }
      var remaining := Remaining(claimClock, controls.interval);
      if reported != Some(effective) {
        reported := Some(effective);
      }
      return Snapshot(effective, target, Some(remaining));
    }
  }

  // ----- Whole runs -----

  datatype Event = Pass(now: real, claimEnabled: bool) | Reload(controls: Controls)

  /** What the executor carries from pass to pass. */
  datatype Carried = Carried(ramp: Ramp, pausedSince: Option<real>)

  function Next(s: Carried, e: Event, target: int): Carried {
    match e
    case Pass(now, on) =>
      var (r, _, p) := RampPass(s.ramp, s.pausedSince, target, now, on);
      Carried(r, p)
    case Reload(controls) => s.(ramp := Reconfigure(s.ramp, controls))
  }

  /** The capacity a pass works with: the view's, or the target when the window is closed. */
  function Used(s: Carried, e: Event, target: int): int
    requires e.Pass?
  {
    var (_, view, _) := RampPass(s.ramp, s.pausedSince, target, e.now, e.claimEnabled);
    if view.None? then target else view.value.effective
  }

  /** The capacities of the successive passes, paused ones included when `all`. */
  function Capacities(s: Carried, events: seq<Event>, target: int, all: bool): seq<int>
    decreases events
  {
    if events == [] then []
    else
      (if events[0].Pass? && (all || events[0].claimEnabled) then [Used(s, events[0], target)] else [])
      + Capacities(Next(s, events[0], target), events[1..], target, all)
  }

  /** Every hot reload keeps the ramp enabled, with validated parameters. */
  ghost predicate StaysEnabled(events: seq<Event>) {
    forall e :: e in events && e.Reload? ==> e.controls.enabled && e.controls.Validated()
  }

  ghost predicate NonDecreasing(s: seq<int>) {
    forall i, j :: 0 <= i < j < |s| ==> s[i] <= s[j]
  }

  /** With the target fixed, an open window reports below it and a closed one has reached it. */
  ghost predicate Climbing(r: Ramp, target: int) {
    && r.controls.enabled && r.controls.Validated()
    && (r.reported.Some? ==> 0 <= r.reported.value <= target)
    && (r.active && r.reported.Some? ==> r.reported.value < target)
  }

  /** The floor below which the next capacity cannot fall. */
  function Reached(r: Ramp, target: int): int {
    if r.active then ReportedOrZero(r) else target
  }

  /**
   * Only up: whatever the clock does, over any pauses and hot reloads that keep the ramp enabled,
   * the capacities of successive passes never decrease and never exceed the target.
   */
  lemma {:induction false} OnlyUp(s: Carried, events: seq<Event>, target: nat)
    requires StaysEnabled(events) && Climbing(s.ramp, target)
    ensures var used := Capacities(s, events, target, true);
            NonDecreasing(used) && forall c :: c in used ==> Reached(s.ramp, target) <= c <= target
    decreases events
  {
    if events != [] {
      var s' := Next(s, events[0], target);
      OnlyUp(s', events[1..], target);
      var rest := Capacities(s', events[1..], target, true);
      assert Reached(s.ramp, target) <= Reached(s'.ramp, target);
      if events[0].Pass? {
        var c := Used(s, events[0], target);
        assert Reached(s.ramp, target) <= c <= Reached(s'.ramp, target) <= target;
        assert forall i :: 0 <= i < |rest| ==> rest[i] in rest;
        assert Capacities(s, events, target, true) == [c] + rest;
      } else {
        assert Capacities(s, events, target, true) == rest;
      }
    }
  }

  // ----- Pauses cost nothing -----

  /**
   * The run without its pauses: paused passes are dropped and each claiming pass is stamped with
   * the claiming time so far, the sum of the gaps between adjacent claiming passes. `prev` is the
   * time of the previous pass if that was a claiming one.
   */
  function Cut(events: seq<Event>, prev: Option<real>, claimed: real): seq<Event>
    decreases events
  {
    if events == [] then []
    else match events[0]
      case Reload(_) => [events[0]] + Cut(events[1..], prev, claimed)
      case Pass(now, on) =>
        if !on then Cut(events[1..], None, claimed)
        else
          var claimed' := if prev.Some? then claimed + now - prev.value else claimed;
          [Pass(claimed', true)] + Cut(events[1..], Some(now), claimed')
  }

  /** Pass times never go back. */
  ghost predicate Monotone(events: seq<Event>, from: Option<real>)
    decreases events
  {
    events != [] ==>
      match events[0]
      case Reload(_) => Monotone(events[1..], from)
      case Pass(now, _) => (from.Some? ==> from.value <= now) && Monotone(events[1..], Some(now))
  }

  /** How a run and its pause-free counterpart stand to each other between events. */
  ghost predicate InStep(s: Carried, cut: Carried, prev: Option<real>, from: Option<real>, claimed: real) {
    && s.ramp.controls == cut.ramp.controls && s.ramp.active == cut.ramp.active
    && s.ramp.reported == cut.ramp.reported && s.ramp.claimClock == cut.ramp.claimClock
    && cut.pausedSince.None?
    && (s.ramp.active ==>
          && s.ramp.lastObserved == from
          && (prev.Some? ==> s.pausedSince.None? && from == prev)
          && (prev.None? && from.Some? ==> s.pausedSince.Some? && s.pausedSince.value <= from.value)
          && (cut.ramp.lastObserved.Some? ==> cut.ramp.lastObserved.value == claimed)
          && (from.None? ==> s.pausedSince.None?)
          && (prev.Some? ==> cut.ramp.lastObserved.Some?))
  }

  lemma ClaimingPassInStep(
    s: Carried, cut: Carried, now: real, target: int, prev: Option<real>, from: Option<real>, claimed: real)
    requires s.ramp.controls.enabled && (from.Some? ==> from.value <= now)
    requires InStep(s, cut, prev, from, claimed)
    ensures var claimed' := if prev.Some? then claimed + now - prev.value else claimed;
            && Used(s, Pass(now, true), target) == Used(cut, Pass(claimed', true), target)
            && InStep(Next(s, Pass(now, true), target), Next(cut, Pass(claimed', true), target), Some(now), Some(now),
                claimed')
  {
    var claimed' := if prev.Some? then claimed + now - prev.value else claimed;
    if s.ramp.active {
      var pause := if s.pausedSince.None? then 0.0 else now - s.pausedSince.value;
      assert Tick(s.ramp, now, true, pause).claimClock == Tick(cut.ramp, claimed', true, 0.0).claimClock;
    }
  }

  lemma OtherEventsInStep(
    s: Carried, cut: Carried, e: Event, target: int, prev: Option<real>, from: Option<real>, claimed: real)
    requires s.ramp.controls.enabled && InStep(s, cut, prev, from, claimed)
    ensures e.Reload? && e.controls.enabled ==> InStep(Next(s, e, target), Next(cut, e, target), prev, from, claimed)
    ensures e.Pass? && !e.claimEnabled && (from.Some? ==> from.value <= e.now) ==>
              InStep(Next(s, e, target), cut, None, Some(e.now), claimed)
  {
  }

  /**
   * A run with pauses uses, pass for pass, the capacities of the run with every stretch from the
   * last claiming pass to the first resumed one cut out.
   */
  lemma {:induction false} PausesCostNothing(
    s: Carried, cut: Carried, events: seq<Event>, target: int, prev: Option<real>, from: Option<real>, claimed: real)
    requires StaysEnabled(events) && Monotone(events, from) && s.ramp.controls.enabled
    requires InStep(s, cut, prev, from, claimed)
    ensures Capacities(s, events, target, false) == Capacities(cut, Cut(events, prev, claimed), target, false)
    decreases events
  {
    if events != [] {
      var e, rest := events[0], events[1..];
      OtherEventsInStep(s, cut, e, target, prev, from, claimed);
      match e
      case Reload(controls) =>
        assert controls.enabled;
        PausesCostNothing(Next(s, e, target), Next(cut, e, target), rest, target, prev, from, claimed);
        CapacitiesCons(cut, e, Cut(rest, prev, claimed), target);
      case Pass(now, on) =>
        if on {
          var claimed' := if prev.Some? then claimed + now - prev.value else claimed;
          ClaimingPassInStep(s, cut, now, target, prev, from, claimed);
          PausesCostNothing(
            Next(s, e, target), Next(cut, Pass(claimed', true), target), rest, target, Some(now), Some(now), claimed');
          CapacitiesCons(cut, Pass(claimed', true), Cut(rest, Some(now), claimed'), target);
        } else {
          PausesCostNothing(Next(s, e, target), cut, rest, target, None, Some(now), claimed);
        }
    }
  }

  lemma CapacitiesCons(s: Carried, e: Event, rest: seq<Event>, target: int)
    ensures Capacities(s, [e] + rest, target, false) ==
            (if e.Pass? && e.claimEnabled then [Used(s, e, target)] else []) +
                Capacities(Next(s, e, target), rest, target, false)
  {
    assert ([e] + rest)[1..] == rest;
  }

  /** From a fresh window: the two theorems, without auxiliary state. */
  lemma FreshWindow(controls: Controls, events: seq<Event>, target: nat)
    requires controls.enabled && controls.Validated() && StaysEnabled(events)
    ensures var start := Carried(Ramp(controls, None, 0.0, true, None), None);
            && NonDecreasing(Capacities(start, events, target, true))
            && (forall c :: c in Capacities(start, events, target, true) ==> 0 <= c <= target)
            && (Monotone(events, None) ==>
                  Capacities(start, events, target, false) == Capacities(start, Cut(events, None, 0.0), target, false))
  {
    var start := Carried(Ramp(controls, None, 0.0, true, None), None);
    OnlyUp(start, events, target);
    if Monotone(events, None) {
      PausesCostNothing(start, start, events, target, None, None, 0.0);
    }
  }

  /** While the window is open the virtual clock is the claiming time `Cut` stamps. */
  function ClaimedTime(events: seq<Event>, prev: Option<real>, claimed: real): real
    decreases events
  {
    if events == [] then claimed
    else match events[0]
      case Reload(_) => ClaimedTime(events[1..], prev, claimed)
      case Pass(now, on) =>
        if !on then ClaimedTime(events[1..], None, claimed)
        else ClaimedTime(events[1..], Some(now), if prev.Some? then claimed + now - prev.value else claimed)
  }

  function Carry(s: Carried, events: seq<Event>, target: int): Carried
    decreases events
  {
    if events == [] then s else Carry(Next(s, events[0], target), events[1..], target)
  }

  lemma {:induction false} ClockIsClaimingTime(
    s: Carried, events: seq<Event>, target: int, prev: Option<real>, from: Option<real>)
    requires StaysEnabled(events) && Monotone(events, from) && s.ramp.controls.enabled
    requires InStep(s, s.(ramp := s.ramp.(lastObserved := if prev.Some? then Some(s.ramp.claimClock) else None),
             pausedSince := None),
                    prev, from, s.ramp.claimClock)
    ensures Carry(s, events, target).ramp.active ==>
              Carry(s, events, target).ramp.claimClock == ClaimedTime(events, prev, s.ramp.claimClock)
    decreases events
  {
    if events != [] {
      var s' := Next(s, events[0], target);
      if s'.ramp.active {
        match events[0]
        case Reload(_) => ClockIsClaimingTime(s', events[1..], target, prev, from);
        case Pass(now, on) => ClockIsClaimingTime(s', events[1..], target, if on then Some(now) else None, Some(now));
      } else {
        StaysClosed(s', events[1..], target);
      }
    }
  }

  lemma {:induction false} StaysClosed(s: Carried, events: seq<Event>, target: int)
    requires StaysEnabled(events) && s.ramp.controls.enabled && !s.ramp.active
    ensures !Carry(s, events, target).ramp.active
    decreases events
  {
    if events != [] {
      StaysClosed(Next(s, events[0], target), events[1..], target);
    }
  }

  // ----- The schedule: a step for every interval of claiming time -----

  lemma FloorOf(clock: real, interval: real, ratio: real, k: real)
    requires interval > 0.0 && ratio * interval == clock && k <= ratio < k + 1.0
    ensures k * interval <= clock < k * interval + interval
  {
    calc {
      clock;
      ratio * interval;
    <  { ScaledBelow(ratio, k + 1.0, interval); }
      (k + 1.0) * interval;
    ==  { OneMore(k, interval); }
      k * interval + interval;
    }
    ScaledUp(k, ratio, interval);
  }

  /** Tier `k` lasts from `k` intervals on to the next. */
  lemma TiersAre(clock: real, interval: real)
    requires interval > 0.0
    ensures Tiers(clock, interval) as real * interval <= clock
    ensures clock < Tiers(clock, interval) as real * interval + interval
    ensures Remaining(clock, interval) == Tiers(clock, interval) as real * interval + interval - clock
  {
    var ratio := clock / interval;
    var k := Tiers(clock, interval) as real;
    assert k == ratio.Floor as real;
    assert ratio * interval == clock;
    FloorOf(clock, interval, ratio, k);
    OneMore(k, interval);
  }

  lemma OneMore(k: real, interval: real)
    ensures (k + 1.0) * interval == k * interval + interval && interval * k == k * interval
  {
  }

  lemma OneTier(clock: real, interval: real, k: int)
    requires interval > 0.0 && k as real * interval <= clock < k as real * interval + interval
    ensures Tiers(clock, interval) == k
  {
    var n := Tiers(clock, interval);
    TiersAre(clock, interval);
    if n + 1 <= k {
      var below, above := n as real + 1.0, k as real;
      ScaledUp(below, above, interval);
      OneMore(below - 1.0, interval);
    } else if k + 1 <= n {
      var below, above := k as real + 1.0, n as real;
      ScaledUp(below, above, interval);
      OneMore(below - 1.0, interval);
    }
  }

  lemma ScaledUp(x: real, y: real, d: real)
    requires x <= y && d > 0.0
    ensures x * d <= y * d
  {
  }

  lemma ScaledBelow(x: real, y: real, d: real)
    requires x < y && d > 0.0
    ensures x * d < y * d
  {
  }

  lemma TiersGrow(clock: real, later: real, interval: real)
    requires interval > 0.0 && clock <= later
    ensures Tiers(clock, interval) <= Tiers(later, interval)
  {
    var k, n := Tiers(clock, interval), Tiers(later, interval);
    TiersAre(clock, interval);
    TiersAre(later, interval);
    if n + 1 <= k {
      var below, above := n as real + 1.0, k as real;
      ScaledUp(below, above, interval);
      OneMore(below - 1.0, interval);
    }
  }

  /** The capacity due after this much claiming time: the initial one, and one step more for each whole interval. */
  function Due(controls: Controls, claimed: real, target: int): int {
    Min(target, controls.initial + Tiers(claimed, controls.interval) * controls.step)
  }

  lemma DueGrows(controls: Controls, claimed: real, later: real, target: int)
    requires controls.enabled && controls.Validated() && claimed <= later
    ensures Due(controls, claimed, target) <= Due(controls, later, target)
  {
    var k, n := Tiers(claimed, controls.interval), Tiers(later, controls.interval);
    TiersGrow(claimed, later, controls.interval);
    assert (n - k) * controls.step >= 0;
  }

  /** What is due at each claiming pass. */
  function Schedule(controls: Controls, events: seq<Event>, prev: Option<real>, claimed: real, target: int): seq<int>
    decreases events
  {
    if events == [] then []
    else match events[0]
      case Reload(_) => Schedule(controls, events[1..], prev, claimed, target)
      case Pass(now, on) =>
        if !on then Schedule(controls, events[1..], None, claimed, target)
        else
          var claimed' := if prev.Some? then claimed + now - prev.value else claimed;
          [Due(controls, claimed', target)] + Schedule(controls, events[1..], Some(now), claimed', target)
  }

  /** An open window has seen the last pass, and knows since when it is paused. */
  ghost predicate Tracks(s: Carried, prev: Option<real>, from: Option<real>) {
    s.ramp.active ==>
      && s.ramp.lastObserved == from
      && (prev.Some? ==> s.pausedSince.None? && from == prev)
      && (prev.None? && from.Some? ==> s.pausedSince.Some? && s.pausedSince.value <= from.value)
      && (from.None? ==> s.pausedSince.None?)
  }

  /** An open window is no further than what is due; a closed one closed when its target was. */
  ghost predicate OnSchedule(r: Ramp, controls: Controls, claimed: real, target: int) {
    && r.controls == controls && claimed >= 0.0
    && if r.active then r.claimClock == claimed && ReportedOrZero(r) <= Due(controls, claimed, target)
       else Due(controls, claimed, target) == target
  }

  lemma ClaimingPassOnSchedule(s: Carried, controls: Controls, now: real, target: nat, prev: Option<real>,
      from: Option<real>, claimed: real)
    requires controls.enabled && controls.Validated() && (from.Some? ==> from.value <= now)
    requires prev.Some? ==> prev == from
    requires Tracks(s, prev, from) && OnSchedule(s.ramp, controls, claimed, target)
    ensures var s' := Next(s, Pass(now, true), target);
            var claimed' := if prev.Some? then claimed + now - prev.value else claimed;
            && Used(s, Pass(now, true), target) == Due(controls, claimed', target)
            && Tracks(s', Some(now), Some(now)) && OnSchedule(s'.ramp, controls, claimed', target)
  {
    var claimed' := if prev.Some? then claimed + now - prev.value else claimed;
    DueGrows(controls, claimed, claimed', target);
    if s.ramp.active {
      var pause := if s.pausedSince.None? then 0.0 else now - s.pausedSince.value;
      assert Tick(s.ramp, now, true, pause).claimClock == claimed';
    }
  }

  lemma PausedPassOnSchedule(s: Carried, controls: Controls, now: real, target: nat, prev: Option<real>,
      from: Option<real>, claimed: real)
    requires controls.enabled && (from.Some? ==> from.value <= now)
    requires Tracks(s, prev, from) && OnSchedule(s.ramp, controls, claimed, target)
    ensures var s' := Next(s, Pass(now, false), target);
            Tracks(s', None, Some(now)) && OnSchedule(s'.ramp, controls, claimed, target)
  {
  }

  ghost predicate NoReload(events: seq<Event>) {
    forall e :: e in events ==> e.Pass?
  }

  lemma {:induction false} KeepsSchedule(s: Carried, controls: Controls, events: seq<Event>, target: nat,
      prev: Option<real>, from: Option<real>, claimed: real)
    requires controls.enabled && controls.Validated() && NoReload(events) && Monotone(events, from)
    requires prev.Some? ==> prev == from
    requires Tracks(s, prev, from) && OnSchedule(s.ramp, controls, claimed, target)
    ensures Capacities(s, events, target, false) == Schedule(controls, events, prev, claimed, target)
    decreases events
  {
    if events != [] {
      var e, rest := events[0], events[1..];
      assert e in events;
      var s' := Next(s, e, target);
      if e.claimEnabled {
        var claimed' := if prev.Some? then claimed + e.now - prev.value else claimed;
        ClaimingPassOnSchedule(s, controls, e.now, target, prev, from, claimed);
        KeepsSchedule(s', controls, rest, target, Some(e.now), Some(e.now), claimed');
      } else {
        PausedPassOnSchedule(s, controls, e.now, target, prev, from, claimed);
        KeepsSchedule(s', controls, rest, target, None, Some(e.now), claimed);
      }
    }
  }

  /** Over any fresh window each claiming pass works with exactly what is due after the claiming time so far. */
  lemma WindowKeepsSchedule(controls: Controls, events: seq<Event>, target: nat)
    requires controls.enabled && controls.Validated() && NoReload(events) && Monotone(events, None)
    ensures Capacities(Carried(Ramp(controls, None, 0.0, true, None), None), events, target, false)
         == Schedule(controls, events, None, 0.0, target)
  {
    TiersAre(0.0, controls.interval);
    OneTier(0.0, controls.interval, 0);
    KeepsSchedule(Carried(Ramp(controls, None, 0.0, true, None), None), controls, events, target, None, None, 0.0);
  }

  /** Whatever was reloaded before: the capacity of a claiming pass in an open window, from its clock. */
  lemma PassIsDue(s: Carried, now: real, target: int, k: int)
    requires s.ramp.active && s.ramp.controls.enabled && s.ramp.controls.Validated()
    requires var clock := Next(s, Pass(now, true), target).ramp.claimClock;
             && k as real * s.ramp.controls.interval <= clock
             && clock < k as real * s.ramp.controls.interval + s.ramp.controls.interval
    ensures Used(s, Pass(now, true), target) ==
            Min(target, Max(if s.ramp.reported.Some? then s.ramp.reported.value else 0,
                            s.ramp.controls.initial + k * s.ramp.controls.step))
  {
    OneTier(Next(s, Pass(now, true), target).ramp.claimClock, s.ramp.controls.interval, k);
  }

  /** The window closes exactly when the target is used; until then the view shows the time to the next tier. */
  lemma PassIsShown(s: Carried, now: real, target: int)
    requires s.ramp.active && s.ramp.controls.enabled
    ensures var e := Pass(now, true);
            var after, used := Next(s, e, target).ramp, Used(s, e, target);
            && (after.active <==> used < target) && after.reported == Some(used)
            && RampPass(s.ramp, s.pausedSince, target, now, true).1 == Some(Snapshot(used, target,
                 if after.active then Some(Remaining(after.claimClock, s.ramp.controls.interval)) else None))
  {
  }
}
