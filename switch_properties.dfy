/** Properties of the switching state machine: the guards of each request,
    the halfway promotion rule, completion of a switch over successive ticks,
    and the gating of one-shot presentation effects under resimulation. */
module SwitchProperties {
  import opened Wrappers
  import opened SwitchMachine

  // ----- GetWeapon -----

  /** GetWeapon finds a slot exactly when some slot has the type, and then the first one. */
  lemma FindWeaponIsFirstMatch(slots: seq<Slot>, t: WeaponType)
    ensures FindWeapon(slots, t).Some? <==> exists j :: 0 <= j < |slots| && slots[j].weaponType == t
    ensures FindWeapon(slots, t).Some? ==>
      var i := FindWeapon(slots, t).value;
      i < |slots| && slots[i].weaponType == t && forall j :: 0 <= j < i ==> slots[j].weaponType != t
  {
  }

  // ----- SwitchWeapon -----

  /** Each guard of SwitchWeapon on its own leaves the whole state as it was. */
  lemma SwitchRejections(s: State, t: WeaponType, now: int, firstPerson: bool, forward: bool)
    requires Valid(s)
    ensures var w := FindWeapon(s.slots, t);
      (w.None? || !s.slots[w.value].isCollected) ==> Switch(s, t, now, firstPerson, forward) == s
    ensures FindWeapon(s.slots, t) == s.current && s.pending.None? ==> Switch(s, t, now, firstPerson, forward) == s
    ensures FindWeapon(s.slots, t) == s.pending ==> Switch(s, t, now, firstPerson, forward) == s
    ensures s.current.Some? && s.slots[s.current.value].isReloading ==> Switch(s, t, now, firstPerson, forward) == s
  {
  }

  /** A switch starts exactly when every guard passes; it then makes the first
      slot of type t pending, restarts the timer for the whole switch time and
      keeps the current weapon. */
  lemma SwitchStarts(s: State, t: WeaponType, now: int, firstPerson: bool, forward: bool)
    requires Valid(s)
    ensures var r := Switch(s, t, now, firstPerson, forward);
      r.pending != s.pending <==> SwitchAccepted(s, t)
    ensures var r := Switch(s, t, now, firstPerson, forward);
      SwitchAccepted(s, t) ==>
        && r.pending.Some? && r.pending.value < |s.slots|
        && s.slots[r.pending.value].weaponType == t && s.slots[r.pending.value].isCollected
        && r.switchTimer == Some(now + s.switchTime)
        && RemainingTicks(r.switchTimer, now) == s.switchTime
        && r.current == s.current && r.slots == s.slots
        && r.effects == s.effects + SwitchPresentation(firstPerson, forward)
  {
  }

  // ----- PickupWeapon -----

  /** PickupWeapon refuses while the current weapon reloads and for an unknown
      type, changing nothing. */
  lemma PickupRejections(s: State, t: WeaponType, now: int, firstPerson: bool, forward: bool)
    requires Valid(s)
    ensures s.current.Some? && s.slots[s.current.value].isReloading ==>
      Pickup(s, t, now, firstPerson, forward) == (s, false)
    ensures FindWeapon(s.slots, t).None? ==> Pickup(s, t, now, firstPerson, forward) == (s, false)
    ensures s.current.Some? && !s.slots[s.current.value].isReloading && FindWeapon(s.slots, t).Some? ==>
      Pickup(s, t, now, firstPerson, forward).1
  {
  }

  /** An accepted pickup collects the weapon: a weapon already held is refilled
      to its starting ammunition, a new one only becomes collected. No other
      slot changes, and a switch to the weapon is then requested. */
  lemma PickupCollectsOrRefills(s: State, t: WeaponType, now: int, firstPerson: bool, forward: bool)
    requires Valid(s)
    requires Pickup(s, t, now, firstPerson, forward).1
    ensures var i := FindWeapon(s.slots, t).value;
      var r := Pickup(s, t, now, firstPerson, forward).0;
      var before := s.slots[i];
      && i < |s.slots| && r.slots[i].isCollected
      && (before.isCollected ==> r.slots[i] == before.(remainingAmmo := before.startAmmo))
      && (!before.isCollected ==> r.slots[i] == before.(isCollected := true))
      && (forall j :: 0 <= j < |s.slots| && j != i ==> r.slots[j] == s.slots[j])
      && r == Switch(Restock(s, i), t, now, firstPerson, forward)
  {
    var i := FindWeapon(s.slots, t).value;
    var k := Restock(s, i);
    assert Switch(k, t, now, firstPerson, forward).slots == k.slots;
  }

  /** The two pickup cases with concrete numbers: an empty uncollected weapon
      with 30 starting rounds is collected and keeps 0 rounds; a collected one
      with 10 of 30 is refilled to 30. */
  lemma PickupAmmoExamples(s: State, t: WeaponType, now: int)
    requires Valid(s) && s.current.Some? && !s.slots[s.current.value].isReloading
    requires FindWeapon(s.slots, t).Some?
    ensures var i := FindWeapon(s.slots, t).value;
      var r := Pickup(s, t, now, false, false).0;
      && (s.slots[i].startAmmo == 30 && s.slots[i].remainingAmmo == 0 && !s.slots[i].isCollected ==>
            r.slots[i].remainingAmmo == 0 && r.slots[i].isCollected)
      && (s.slots[i].startAmmo == 30 && s.slots[i].remainingAmmo == 10 && s.slots[i].isCollected ==>
            r.slots[i].remainingAmmo == 30 && r.slots[i].isCollected)
  {
    PickupCollectsOrRefills(s, t, now, false, false);
  }

  // ----- Fire / Reload -----

  /** Without a current weapon or during a switch, Fire and Reload do nothing:
      the weapon is not asked and no trigger fires. */
  lemma ActionsBlockedWhileSwitching(s: State, justPressed: bool, weaponFired: bool, now: int, firstPerson: bool, forward: bool)
    requires Valid(s)
    requires s.current.None? || IsSwitching(s, now)
    ensures Fire(s, justPressed, weaponFired, now, firstPerson, forward) == s
    ensures Reload(s, now) == s
  {
  }

  /** Otherwise Fire delegates to the current weapon, and the fire animation
      is triggered only when the weapon fired, for the first-person view, on
      the forward tick. */
  lemma FireDelegates(s: State, justPressed: bool, weaponFired: bool, now: int, firstPerson: bool, forward: bool)
    requires Valid(s)
    requires s.current.Some? && !IsSwitching(s, now)
    ensures var added := Fire(s, justPressed, weaponFired, now, firstPerson, forward).effects[|s.effects|..];
      && |added| >= 1 && added[0] == WeaponFire(s.current.value, justPressed)
      && (FireTrigger in added <==> weaponFired && firstPerson && forward)
    ensures Reload(s, now).effects == s.effects + [WeaponReload(s.current.value)]
  {
    var r := Fire(s, justPressed, weaponFired, now, firstPerson, forward);
    assert r.effects[|s.effects|..] == [WeaponFire(s.current.value, justPressed)] +
      (if weaponFired && firstPerson && forward then [FireTrigger] else []);
  }

  // ----- TryActivatePendingWeapon -----

  /** Promotion happens exactly when at most half of the switch time is left;
      it makes the pending weapon current and visible and clears it. */
  lemma PromotionAtHalfway(s: State, now: int)
    requires Valid(s) && IsSwitching(s, now) && s.pending.Some?
    ensures var r := ActivatePending(s, now);
      r.pending.None? <==> 2 * RemainingTicks(s.switchTimer, now) <= s.switchTime
    ensures var r := ActivatePending(s, now);
      r.pending.None? ==>
        && r.current == s.pending
        && r.slots[s.pending.value] == s.slots[s.pending.value].(isVisible := true)
        && (forall j :: 0 <= j < |s.slots| && j != s.pending.value ==> r.slots[j] == s.slots[j])
  {
  }

  /** Outside a switch, or with nothing pending, the tick does nothing. */
  lemma ActivateIdleIsNoop(s: State, now: int)
    requires Valid(s)
    requires !IsSwitching(s, now) || s.pending.None?
    ensures ActivatePending(s, now) == s
  {
  }

  /** Switch time 1.0 s at 10 ticks per second: with 6 ticks left the switch
      goes on, with 4 ticks left the pending weapon is promoted. */
  lemma HalfwayScenario(s: State, t0: int)
    requires Valid(s) && s.switchTime == 10 && s.pending.Some? && s.switchTimer == Some(t0 + 10)
    ensures ActivatePending(s, t0 + 4) == s
    ensures ActivatePending(s, t0 + 6).current == s.pending
    ensures ActivatePending(s, t0 + 6).pending.None?
  {
  }

  /** IsSwitching reads the timer only: right after the halfway promotion the
      timer still runs, so Fire and Reload stay blocked until it expires. */
  lemma ActionsBlockedAfterPromotion(s: State, now: int, justPressed: bool, weaponFired: bool, firstPerson: bool, forward: bool)
    requires Valid(s) && IsSwitching(s, now) && s.pending.Some? && !TooSoon(s, now)
    ensures var r := ActivatePending(s, now);
      && r.pending.None? && IsSwitching(r, now)
      && Fire(r, justPressed, weaponFired, now, firstPerson, forward) == r
      && Reload(r, now) == r
  {
  }

  /** Applying the per-tick activation again in the same tick changes nothing. */
  lemma ActivateIdempotent(s: State, now: int)
    requires Valid(s)
    ensures ActivatePending(ActivatePending(s, now), now) == ActivatePending(s, now)
  {
  }

  /** The activation applied n times within one tick, as a resimulating client does. */
  function RepeatActivate(s: State, now: int, n: nat): (r: State)
    requires Valid(s)
    ensures Valid(r)
    decreases n
  {
    if n == 0 then s else RepeatActivate(ActivatePending(s, now), now, n - 1)
  }

  lemma {:induction false} RepeatedActivationIsOnce(s: State, now: int, n: nat)
    requires Valid(s) && n >= 1
    ensures RepeatActivate(s, now, n) == ActivatePending(s, now)
    decreases n
  {
    if n > 1 {
      RepeatedActivationIsOnce(ActivatePending(s, now), now, n - 1);
      ActivateIdempotent(s, now);
    }
  }

  // ----- A switch over successive ticks -----

  /** The activation run once per tick at ticks from, from + 1, ..., from + n - 1. */
  function AdvanceTicks(s: State, from: int, n: nat): (r: State)
    requires Valid(s)
    ensures Valid(r)
    decreases n
  {
    if n == 0 then s else AdvanceTicks(ActivatePending(s, from), from + 1, n - 1)
  }

  lemma {:induction false} AdvanceSplit(s: State, from: int, a: nat, b: nat)
    requires Valid(s)
    ensures AdvanceTicks(s, from, a + b) == AdvanceTicks(AdvanceTicks(s, from, a), from + a, b)
    decreases a
  {
    if a > 0 {
      AdvanceSplit(ActivatePending(s, from), from + 1, a - 1, b);
    }
  }

  /** While more than half the switch time is left at every tick, nothing happens. */
  lemma {:induction false} AdvanceWhileTooSoon(s: State, from: int, n: nat)
    requires Valid(s) && s.pending.Some? && s.switchTimer.Some?
    requires 2 * (s.switchTimer.value - from - n) + 2 > s.switchTime
    ensures AdvanceTicks(s, from, n) == s
    decreases n
  {
    if n > 0 {
      assert ActivatePending(s, from) == s;
      AdvanceWhileTooSoon(s, from + 1, n - 1);
    }
  }

  /** With nothing pending, the ticks change nothing. */
  lemma {:induction false} AdvanceIdle(s: State, from: int, n: nat)
    requires Valid(s) && s.pending.None?
    ensures AdvanceTicks(s, from, n) == s
    decreases n
  {
    if n > 0 {
      AdvanceIdle(s, from + 1, n - 1);
    }
  }

  /** A switch started at tick t0 with a switch time of at least two ticks is
      promoted at tick t0 + ceil(D / 2), not earlier, and is complete when the
      timer expires at t0 + D. */
  lemma SwitchCompletes(s: State, t0: int)
    requires Valid(s) && s.pending.Some? && s.switchTimer == Some(t0 + s.switchTime)
    requires s.switchTime >= 2
    ensures var h := (s.switchTime + 1) / 2;
      AdvanceTicks(s, t0, h) == s && AdvanceTicks(s, t0, h + 1).pending.None?
    ensures var r := AdvanceTicks(s, t0, s.switchTime);
      && r.current == s.pending && r.pending.None?
      && r.slots[s.pending.value].isVisible
      && !IsSwitching(r, t0 + s.switchTime)
  {
    var d := s.switchTime;
    var h := (d + 1) / 2;
    AdvanceWhileTooSoon(s, t0, h);
    var p := ActivatePending(s, t0 + h);
    assert p.pending.None? && p.current == s.pending && p.slots[s.pending.value].isVisible;
    AdvanceSplit(s, t0, h, 1);
    AdvanceSplit(s, t0, h, d - h);
    assert AdvanceTicks(s, t0, h + 1) == AdvanceTicks(p, t0 + h + 1, 0);
    AdvanceIdle(p, t0 + h + 1, d - h - 1);
    assert AdvanceTicks(s, t0, d) == AdvanceTicks(p, t0 + h + 1, d - h - 1);
  }

  /** With a switch time of at most one tick the timer expires before the
      halfway test can pass, so the pending weapon is never promoted. */
  lemma {:induction false} ShortSwitchNeverPromotes(s: State, t0: int, n: nat)
    requires Valid(s) && s.pending.Some? && s.switchTimer == Some(t0 + s.switchTime)
    requires s.switchTime <= 1
    ensures AdvanceTicks(s, t0, n) == s
    decreases n
  {
    if n > 0 {
      assert ActivatePending(s, t0) == s;
      ShortAdvanceLater(s, t0, t0 + 1, n - 1);
    }
  }

  lemma {:induction false} ShortAdvanceLater(s: State, t0: int, from: int, n: nat)
    requires Valid(s) && s.pending.Some? && s.switchTimer == Some(t0 + s.switchTime)
    requires s.switchTime <= 1 && from > t0
    ensures AdvanceTicks(s, from, n) == s
    decreases n
  {
    if n > 0 {
      assert ActivatePending(s, from) == s;
      ShortAdvanceLater(s, t0, from + 1, n - 1);
    }
  }

  // ----- Render -----

  /** UpdateVisibleWeapon leaves a reconciled state alone; otherwise exactly the
      current slot ends up visible, the cache follows CurrentWeapon and the
      Show trigger fires for the first-person view only. */
  lemma VisibilityReconciled(s: State, firstPerson: bool)
    requires Valid(s)
    ensures s.visible == s.current ==> UpdateVisible(s, firstPerson) == s
    ensures var r := UpdateVisible(s, firstPerson);
      s.visible != s.current ==>
        && r.current.Some? && r.visible == r.current
        && (forall i :: 0 <= i < |r.slots| ==> (r.slots[i].isVisible <==> Some(i) == r.current))
        && (ShowTrigger in r.effects[|s.effects|..] <==> firstPerson)
    ensures UpdateVisible(UpdateVisible(s, firstPerson), firstPerson) == UpdateVisible(s, firstPerson)
  {
    if s.visible != s.current {
      var r := UpdateVisible(s, firstPerson);
      assert r.effects[|s.effects|..] == [WeaponIdParameter(s.current.value)] + (if firstPerson then [ShowTrigger] else []);
    }
  }

  /** Rendering the same state again is safe: the second frame changes no
      state and fires no one-shot trigger, it only sets the continuous
      reloading parameter again. */
  lemma RepeatedFrameIsQuiet(s: State, firstPerson: bool)
    requires Valid(s)
    ensures var once := Render(s, firstPerson);
      var twice := Render(once, firstPerson);
      && twice.(effects := []) == once.(effects := [])
      && once.effects <= twice.effects
      && OneShotCount(twice.effects[|once.effects|..]) == 0
  {
    var once := Render(s, firstPerson);
    var twice := Render(once, firstPerson);
    assert twice.effects[|once.effects|..] ==
      if firstPerson && once.current.Some? then [IsReloadingParameter(once.slots[once.current.value].isReloading)] else [];
    NoOneShots(twice.effects[|once.effects|..]);
  }

  // ----- Resimulation and the forward-tick rule -----

  /** An input the player's simulation feeds to the component within one tick. */
  datatype Request =
    | NoRequest
    | SwitchRequest(switchTo: WeaponType)
    | PickupRequest(pickedUp: WeaponType)
    | FireRequest(justPressed: bool, weaponFired: bool)
    | ReloadRequest

  function Apply(s: State, req: Request, now: int, firstPerson: bool, forward: bool): (r: State)
    requires Valid(s)
    ensures Valid(r) && Evolves(s, r)
  {
    match req
    case NoRequest => s
    case SwitchRequest(t) => Switch(s, t, now, firstPerson, forward)
    case PickupRequest(t) => Pickup(s, t, now, firstPerson, forward).0
    case FireRequest(justPressed, fired) => Fire(s, justPressed, fired, now, firstPerson, forward)
    case ReloadRequest => Reload(s, now)
  }

  /** One simulation tick: the request, then FixedUpdateNetwork's activation. */
  function SimulateTick(s: State, req: Request, now: int, firstPerson: bool, forward: bool): (r: State)
    requires Valid(s)
    ensures Valid(r) && Evolves(s, r)
  {
    ActivatePending(Apply(s, req, now, firstPerson, forward), now)
  }

  function OneShotCount(log: seq<Effect>): nat
  {
    if log == [] then 0
    else OneShotCount(log[..|log| - 1]) + (if IsOneShot(log[|log| - 1]) then 1 else 0)
  }

  lemma {:induction false} OneShotCountAppend(a: seq<Effect>, b: seq<Effect>)
    ensures OneShotCount(a + b) == OneShotCount(a) + OneShotCount(b)
    decreases |b|
  {
    if b == [] {
      assert a + b == a;
    } else {
      var b' := b[..|b| - 1];
      assert (a + b)[..|a + b| - 1] == a + b';
      assert (a + b)[|a + b| - 1] == b[|b| - 1];
      OneShotCountAppend(a, b');
    }
  }

  /** r is what an operation makes of s when it acts as it does from s with
      an empty log, its effects put after those s already holds. */
  ghost predicate AppendsTo(s: State, fromEmpty: State, r: State)
  {
    r == fromEmpty.(effects := s.effects + fromEmpty.effects)
  }

  lemma SwitchAppends(s: State, t: WeaponType, now: int, firstPerson: bool, forward: bool)
    requires Valid(s)
    ensures Valid(s.(effects := []))
    ensures AppendsTo(s, Switch(s.(effects := []), t, now, firstPerson, forward), Switch(s, t, now, firstPerson, forward))
  {
    var e := s.(effects := []);
    assert SwitchAccepted(e, t) == SwitchAccepted(s, t);
  }

  lemma PickupAppends(s: State, t: WeaponType, now: int, firstPerson: bool, forward: bool)
    requires Valid(s)
    ensures Valid(s.(effects := []))
    ensures AppendsTo(s, Pickup(s.(effects := []), t, now, firstPerson, forward).0, Pickup(s, t, now, firstPerson, forward).0)
  {
    var e := s.(effects := []);
    if s.current.Some? && !s.slots[s.current.value].isReloading && FindWeapon(s.slots, t).Some? {
      var i := FindWeapon(s.slots, t).value;
      assert Restock(e, i) == Restock(s, i).(effects := []);
      SwitchAppends(Restock(s, i), t, now, firstPerson, forward);
    }
  }

  lemma ActivateAppends(s: State, now: int)
    requires Valid(s)
    ensures Valid(s.(effects := []))
    ensures AppendsTo(s, ActivatePending(s.(effects := []), now), ActivatePending(s, now))
  {
  }

  lemma ApplyAppends(s: State, req: Request, now: int, firstPerson: bool, forward: bool)
    requires Valid(s)
    ensures Valid(s.(effects := []))
    ensures AppendsTo(s, Apply(s.(effects := []), req, now, firstPerson, forward), Apply(s, req, now, firstPerson, forward))
  {
    match req
    case NoRequest =>
    case SwitchRequest(t) => SwitchAppends(s, t, now, firstPerson, forward);
    case PickupRequest(t) => PickupAppends(s, t, now, firstPerson, forward);
    case FireRequest(justPressed, fired) =>
    case ReloadRequest =>
  }

  /** A tick appends to the effect log, and what it appends does not depend on
      what the log held before. */
  lemma TickAppends(s: State, req: Request, now: int, firstPerson: bool, forward: bool)
    requires Valid(s)
    ensures SimulateTick(s, req, now, firstPerson, forward).effects ==
      s.effects + SimulateTick(s.(effects := []), req, now, firstPerson, forward).effects
  {
    var e := s.(effects := []);
    ApplyAppends(s, req, now, firstPerson, forward);
    var a := Apply(s, req, now, firstPerson, forward);
    var a0 := Apply(e, req, now, firstPerson, forward);
    ActivateAppends(a, now);
    ActivateAppends(a0, now);
    assert a.(effects := []) == a0.(effects := []);
  }

  lemma SwitchIgnoresViewFlags(s: State, t: WeaponType, now: int, fp1: bool, fw1: bool, fp2: bool, fw2: bool)
    requires Valid(s)
    ensures Switch(s, t, now, fp1, fw1).(effects := []) == Switch(s, t, now, fp2, fw2).(effects := [])
  {
  }

  lemma PickupIgnoresViewFlags(s: State, t: WeaponType, now: int, fp1: bool, fw1: bool, fp2: bool, fw2: bool)
    requires Valid(s)
    ensures Pickup(s, t, now, fp1, fw1).0.(effects := []) == Pickup(s, t, now, fp2, fw2).0.(effects := [])
  {
    if s.current.Some? && !s.slots[s.current.value].isReloading && FindWeapon(s.slots, t).Some? {
      SwitchIgnoresViewFlags(Restock(s, FindWeapon(s.slots, t).value), t, now, fp1, fw1, fp2, fw2);
    }
  }

  /** The view flags never reach the simulated state: a tick ends in the same
      weapons, pending switch and timer whatever the first-person and forward
      flags are. */
  lemma TickStateIgnoresViewFlags(s: State, req: Request, now: int, fp1: bool, fw1: bool, fp2: bool, fw2: bool)
    requires Valid(s)
    ensures SimulateTick(s, req, now, fp1, fw1).(effects := []) == SimulateTick(s, req, now, fp2, fw2).(effects := [])
  {
    var a1 := Apply(s, req, now, fp1, fw1);
    var a2 := Apply(s, req, now, fp2, fw2);
    match req {
      case NoRequest =>
      case SwitchRequest(t) => SwitchIgnoresViewFlags(s, t, now, fp1, fw1, fp2, fw2);
      case PickupRequest(t) => PickupIgnoresViewFlags(s, t, now, fp1, fw1, fp2, fw2);
      case FireRequest(justPressed, fired) =>
      case ReloadRequest =>
    }
    assert a1.(effects := []) == a2.(effects := []);
    ActivateAppends(a1, now);
    ActivateAppends(a2, now);
  }

  /** A resimulated (not forward) tick emits no one-shot effect. */
  lemma ResimulatedTickIsSilent(s: State, req: Request, now: int, firstPerson: bool)
    requires Valid(s)
    ensures OneShotCount(SimulateTick(s.(effects := []), req, now, firstPerson, false).effects) == 0
  {
    var e := s.(effects := []);
    assert Valid(e);
    var r := SimulateTick(e, req, now, firstPerson, false);
    assert forall k :: 0 <= k < |r.effects| ==> !IsOneShot(r.effects[k]) by {
      match req
      case NoRequest =>
      case SwitchRequest(t) =>
      case PickupRequest(t) =>
      case FireRequest(justPressed, fired) =>
      case ReloadRequest =>
    }
    NoOneShots(r.effects);
  }

  lemma {:induction false} NoOneShots(log: seq<Effect>)
    requires forall k :: 0 <= k < |log| ==> !IsOneShot(log[k])
    ensures OneShotCount(log) == 0
    decreases |log|
  {
    if log != [] {
      NoOneShots(log[..|log| - 1]);
    }
  }

  /** The passes a client makes over one tick: each pass starts from the same
      rolled-back simulation state, while the presentation effects of earlier
      passes have already happened. forward[k] is the engine's flag for pass k. */
  function Resimulate(snapshot: State, req: Request, now: int, firstPerson: bool, forward: seq<bool>): seq<Effect>
    requires Valid(snapshot)
    decreases |forward|
  {
    if forward == [] then snapshot.effects
    else
      var earlier := Resimulate(snapshot, req, now, firstPerson, forward[..|forward| - 1]);
      SimulateTick(snapshot.(effects := earlier), req, now, firstPerson, forward[|forward| - 1]).effects
  }

  /** One more pass appends what that pass emits from an empty log. */
  lemma ResimulateLastPass(s: State, req: Request, now: int, firstPerson: bool, forward: seq<bool>)
    requires Valid(s) && forward != []
    ensures Resimulate(s, req, now, firstPerson, forward) ==
      Resimulate(s, req, now, firstPerson, forward[..|forward| - 1]) +
      SimulateTick(s.(effects := []), req, now, firstPerson, forward[|forward| - 1]).effects
  {
    var earlier := Resimulate(s, req, now, firstPerson, forward[..|forward| - 1]);
    var pass := s.(effects := earlier);
    assert pass.(effects := []) == s.(effects := []);
    TickAppends(pass, req, now, firstPerson, forward[|forward| - 1]);
  }

  /** The number of passes flagged forward. */
  function ForwardPasses(forward: seq<bool>): nat
  {
    if forward == [] then 0
    else ForwardPasses(forward[..|forward| - 1]) + (if forward[|forward| - 1] then 1 else 0)
  }

  /** The one-shot effects of one forward execution of a tick, from an empty log. */
  function TickOneShots(s: State, req: Request, now: int, firstPerson: bool): nat
    requires Valid(s)
  {
    OneShotCount(SimulateTick(s.(effects := []), req, now, firstPerson, true).effects)
  }

  /** The one-shot effects a last pass adds: a forward pass adds those of one
      forward execution of the tick, any other pass adds none. */
  lemma LastPassOneShots(s: State, req: Request, now: int, firstPerson: bool, forward: seq<bool>)
    requires Valid(s) && forward != []
    ensures OneShotCount(Resimulate(s, req, now, firstPerson, forward)) ==
      OneShotCount(Resimulate(s, req, now, firstPerson, forward[..|forward| - 1])) +
      (if forward[|forward| - 1] then TickOneShots(s, req, now, firstPerson) else 0)
  {
    var last := forward[|forward| - 1];
    ResimulateLastPass(s, req, now, firstPerson, forward);
    OneShotCountAppend(Resimulate(s, req, now, firstPerson, forward[..|forward| - 1]),
                       SimulateTick(s.(effects := []), req, now, firstPerson, last).effects);
    if !last {
      ResimulatedTickIsSilent(s, req, now, firstPerson);
    }
  }

  /** Every forward pass emits the one-shot effects of the tick once; the
      other passes emit none. */
  lemma {:induction false} ResimulationOneShots(s: State, req: Request, now: int, firstPerson: bool, forward: seq<bool>)
    requires Valid(s)
    ensures OneShotCount(Resimulate(s, req, now, firstPerson, forward)) ==
      OneShotCount(s.effects) + ForwardPasses(forward) * TickOneShots(s, req, now, firstPerson)
    decreases |forward|
  {
    if forward != [] {
      var prefix := forward[..|forward| - 1];
      var last := forward[|forward| - 1];
      ResimulationOneShots(s, req, now, firstPerson, prefix);
      LastPassOneShots(s, req, now, firstPerson, forward);
      assert ForwardPasses(forward) == ForwardPasses(prefix) + (if last then 1 else 0);
      CountStep(OneShotCount(s.effects), ForwardPasses(prefix), TickOneShots(s, req, now, firstPerson), last,
                OneShotCount(Resimulate(s, req, now, firstPerson, prefix)),
                OneShotCount(Resimulate(s, req, now, firstPerson, forward)),
                ForwardPasses(forward));
    }
  }

  /** The arithmetic of one more pass. */
  lemma CountStep(base: nat, n: nat, k: nat, last: bool, before: nat, after: nat, passes: nat)
    requires before == base + n * k
    requires after == before + (if last then k else 0)
    requires passes == n + (if last then 1 else 0)
    ensures after == base + passes * k
  {
    if last {
      assert (n + 1) * k == n * k + k;
    }
  }

  /** However many times a tick is resimulated, with the forward flag set on
      exactly one pass the one-shot effects happen as often as in a single
      forward execution of that tick. */
  lemma OneShotsOncePerTick(s: State, req: Request, now: int, firstPerson: bool, forward: seq<bool>)
    requires Valid(s)
    requires ForwardPasses(forward) == 1
    ensures OneShotCount(Resimulate(s, req, now, firstPerson, forward)) ==
      OneShotCount(SimulateTick(s, req, now, firstPerson, true).effects)
  {
    ResimulationOneShots(s, req, now, firstPerson, forward);
    TickAppends(s, req, now, firstPerson, true);
    OneShotCountAppend(s.effects, SimulateTick(s.(effects := []), req, now, firstPerson, true).effects);
  }

  // ----- The invariant over a whole life -----

  /** What drives the component: a simulation tick, or a rendered frame. */
  datatype Step =
    | Tick(req: Request, now: int, firstPerson: bool, forward: bool)
    | Frame(frameFirstPerson: bool)

  function Run(s: State, steps: seq<Step>): (r: State)
    requires Valid(s)
    ensures Valid(r) && Evolves(s, r)
    decreases |steps|
  {
    if steps == [] then s
    else
      var next := match steps[0]
        case Tick(req, now, fp, fw) => SimulateTick(s, req, now, fp, fw)
        case Frame(fp) => Render(s, fp);
      Run(next, steps[1..])
  }

  /** After the authority's spawn, in every reachable state the current weapon
      exists and is collected, and every slot collected once stays collected. */
  lemma CurrentAlwaysCollected(slots: seq<Slot>, switchTime: nat, steps: seq<Step>)
    requires |slots| > 0 // an empty AllWeapons never gets a current weapon
    ensures var s := Spawn(Awake(slots, switchTime), true);
      var r := Run(s, steps);
      && r.current.Some? && r.current.value < |r.slots| && r.slots[r.current.value].isCollected
      && (forall i :: 0 <= i < |slots| && s.slots[i].isCollected ==> r.slots[i].isCollected)
  {
  }
}
