/** The weapon-switching state machine of the Weapons component, as pure
    transition functions over one value holding the whole component state.

    Time is counted in simulation ticks. The switch timer is the tick at which
    it expires (None when it was never started), and WeaponSwitchTime is a
    whole number of ticks. */
module SwitchMachine {
  import opened Wrappers

  /** EWeaponType: only its identity is used, by equality. */
  type WeaponType = int

  /** The fields of one Weapon in AllWeapons that the switching logic reads or writes. */
  datatype Slot = Slot(
    weaponType: WeaponType,
    isCollected: bool,
    startAmmo: int,
    remainingAmmo: int,
    isReloading: bool,
    isVisible: bool)

  /** Everything the component does outside its own fields, in order: calls into
      the Weapon collaborator, and the presentation effects (animator triggers,
      animator parameters, the switch sound). */
  datatype Effect =
    | WeaponFire(slot: nat, justPressed: bool)
    | WeaponReload(slot: nat)
    | HideTrigger
    | SwitchSound
    | FireTrigger
    | ShowTrigger
    | WeaponIdParameter(index: nat)
    | IsReloadingParameter(reloading: bool)

  /** The effects that must happen once per occurrence, never once per resimulation. */
  predicate IsOneShot(e: Effect)
  {
    e.HideTrigger? || e.SwitchSound? || e.FireTrigger? || e.ShowTrigger?
  }

  datatype State = State(
    slots: seq<Slot>,             // AllWeapons
    current: Option<nat>,         // CurrentWeapon
    pending: Option<nat>,         // _pendingWeapon
    switchTimer: Option<int>,     // _switchTimer: its target tick
    visible: Option<nat>,         // _visibleWeapon: the render-side cache
    switchTime: nat,              // WeaponSwitchTime, in ticks
    effects: seq<Effect>)

  /** A reference that is null or designates a collected slot. */
  predicate CollectedOrNull(s: State, w: Option<nat>)
  {
    w.Some? ==> w.value < |s.slots| && s.slots[w.value].isCollected
  }

  /** The component invariant: the current and the pending weapon are collected
      slots, a pending weapon always has a timer, and the render cache only
      names a slot once a current weapon exists. */
  ghost predicate Valid(s: State)
  {
    && CollectedOrNull(s, s.current)
    && CollectedOrNull(s, s.pending)
    && (s.pending.Some? ==> s.switchTimer.Some?)
    && (s.visible.Some? ==> s.visible.value < |s.slots| && s.current.Some?)
  }

  /** What no operation ever undoes: the slot table keeps its shape and weapon
      types, a collected slot stays collected, a current weapon never becomes
      null again, and the effect log only grows. */
  ghost predicate Evolves(s: State, r: State)
  {
    && |r.slots| == |s.slots|
    && r.switchTime == s.switchTime
    && (forall i :: 0 <= i < |s.slots| ==>
          r.slots[i].weaponType == s.slots[i].weaponType &&
          r.slots[i].startAmmo == s.slots[i].startAmmo &&
          (s.slots[i].isCollected ==> r.slots[i].isCollected))
    && (s.current.Some? ==> r.current.Some?)
    && s.effects <= r.effects
  }

  // ----- Timer (Fusion's TickTimer reduced to its target tick) -----

  predicate ExpiredOrNotRunning(timer: Option<int>, now: int)
  {
    timer.None? || timer.value <= now
  }

  /** Ticks left before the timer expires; zero once it has. */
  function RemainingTicks(timer: Option<int>, now: int): (r: nat)
    requires timer.Some?
    ensures r > 0 <==> !ExpiredOrNotRunning(timer, now)
  {
    if timer.value > now then timer.value - now else 0
  }

  /** IsSwitching: depends on the timer only, not on the pending weapon. */
  predicate IsSwitching(s: State, now: int): (b: bool)
    ensures b <==> s.switchTimer.Some? && RemainingTicks(s.switchTimer, now) > 0
  {
    !ExpiredOrNotRunning(s.switchTimer, now)
  }

  // ----- GetWeapon -----

  /** The first slot at index i or later whose type is t. */
  function FindFrom(slots: seq<Slot>, t: WeaponType, i: nat): (r: Option<nat>)
    requires i <= |slots|
    ensures r.Some? ==> i <= r.value < |slots| && slots[r.value].weaponType == t
    ensures r.Some? ==> forall j :: i <= j < r.value ==> slots[j].weaponType != t
    ensures r.None? ==> forall j :: i <= j < |slots| ==> slots[j].weaponType != t
    decreases |slots| - i
  {
    if i == |slots| then None
    else if slots[i].weaponType == t then Some(i)
    else FindFrom(slots, t, i + 1)
  }

  /** GetWeapon: the first slot of type t, or null. */
  function FindWeapon(slots: seq<Slot>, t: WeaponType): (r: Option<nat>)
    ensures r.Some? ==> r.value < |slots| && slots[r.value].weaponType == t
    ensures r.Some? ==> forall j :: 0 <= j < r.value ==> slots[j].weaponType != t
    ensures r.None? ==> forall j :: 0 <= j < |slots| ==> slots[j].weaponType != t
  {
    FindFrom(slots, t, 0)
  }

  // ----- Awake / Spawned -----

  /** The state right after Awake: the slots of the prefab, nothing selected. */
  function Awake(slots: seq<Slot>, switchTime: nat): (r: State)
    ensures Valid(r) && r.slots == slots && r.switchTime == switchTime
    ensures r.current.None? && r.pending.None? && r.visible.None?
    ensures forall now :: !IsSwitching(r, now)
  {
    State(slots, None, None, None, None, switchTime, [])
  }

  /** Spawned: the state authority arms the first slot. With no slot at all
      the component throws at AllWeapons[0] before any change, which the
      model treats as no change. */
  function Spawn(s: State, hasStateAuthority: bool): (r: State)
    requires Valid(s)
    ensures Valid(r) && Evolves(s, r)
    ensures hasStateAuthority && |s.slots| > 0 ==>
      && r.current == Some(0)
      && r.slots[0] == s.slots[0].(isCollected := true)
      && (forall j :: 0 < j < |s.slots| ==> r.slots[j] == s.slots[j])
      && r.pending == s.pending && r.switchTimer == s.switchTimer
      && r.visible == s.visible && r.effects == s.effects
    ensures !hasStateAuthority || |s.slots| == 0 ==> r == s
  {
    if hasStateAuthority && |s.slots| > 0 then
      s.(current := Some(0), slots := s.slots[0 := s.slots[0].(isCollected := true)])
    else s
  }

  // ----- SwitchWeapon -----

  /** Whether SwitchWeapon(t) gets past all its guards. A null current weapon
      makes the component throw at its reloading test before anything changed,
      which the model treats as a rejection. */
  predicate SwitchAccepted(s: State, t: WeaponType): (accepted: bool)
    ensures accepted ==> FindWeapon(s.slots, t).Some?
    ensures accepted && FindWeapon(s.slots, t).Some? ==>
      var w := FindWeapon(s.slots, t).value;
      && w < |s.slots| && s.slots[w].weaponType == t && s.slots[w].isCollected
      && Some(w) != s.pending
      && (Some(w) == s.current ==> s.pending.Some?)
      && s.current.Some? && s.current.value < |s.slots| && !s.slots[s.current.value].isReloading
  {
    var w := FindWeapon(s.slots, t);
    && w.Some? && s.slots[w.value].isCollected
    && !(w == s.current && s.pending.None?)
    && w != s.pending
    && s.current.Some? && s.current.value < |s.slots|
    && !s.slots[s.current.value].isReloading
  }

  /** Hide animation and switch sound: only for the local first-person view,
      and only on the forward tick. */
  function SwitchPresentation(firstPerson: bool, forward: bool): seq<Effect>
  {
    if firstPerson && forward then [HideTrigger, SwitchSound] else []
  }

  function Switch(s: State, t: WeaponType, now: int, firstPerson: bool, forward: bool): (r: State)
    requires Valid(s)
    ensures Valid(r) && Evolves(s, r)
    ensures r.slots == s.slots && r.current == s.current && r.visible == s.visible
    ensures r.pending != s.pending ==> r.pending == FindWeapon(s.slots, t) && r.switchTimer == Some(now + s.switchTime)
  {
    if SwitchAccepted(s, t) then
      s.(pending := FindWeapon(s.slots, t),
         switchTimer := Some(now + s.switchTime),
         effects := s.effects + SwitchPresentation(firstPerson, forward))
    else s
  }

  // ----- PickupWeapon -----

  /** Weapon.AddAmmo, whose body is not part of this model: assumed to add n
      to the remaining ammunition. */
  function AddAmmo(w: Slot, n: int): Slot
  {
    w.(remainingAmmo := w.remainingAmmo + n)
  }

  /** The slot update of a pickup: refill a collected weapon, collect a new one. */
  function Restock(s: State, i: nat): (r: State)
    requires Valid(s) && i < |s.slots|
    ensures Valid(r) && Evolves(s, r)
    ensures r.slots[i].isCollected
    ensures forall j :: 0 <= j < |s.slots| && j != i ==> r.slots[j] == s.slots[j]
  {
    var w := s.slots[i];
    var w' := if w.isCollected then AddAmmo(w, w.startAmmo - w.remainingAmmo)
              else w.(isCollected := true);
    s.(slots := s.slots[i := w'])
  }

  /** PickupWeapon: the new state and the returned flag. */
  function Pickup(s: State, t: WeaponType, now: int, firstPerson: bool, forward: bool): (r: (State, bool))
    requires Valid(s)
    ensures Valid(r.0) && Evolves(s, r.0)
    ensures !r.1 ==> r.0 == s
    ensures r.1 ==> FindWeapon(s.slots, t).Some? && r.0.slots[FindWeapon(s.slots, t).value].isCollected
  {
    if s.current.None? || s.slots[s.current.value].isReloading then (s, false)
    else match FindWeapon(s.slots, t)
      case None => (s, false)
      case Some(i) => (Switch(Restock(s, i), t, now, firstPerson, forward), true)
  }

  // ----- Fire / Reload -----

  /** Fire: weaponFired is what the Weapon collaborator answers. */
  function Fire(s: State, justPressed: bool, weaponFired: bool, now: int, firstPerson: bool, forward: bool): (r: State)
    requires Valid(s)
    ensures Valid(r) && Evolves(s, r)
    ensures r.(effects := s.effects) == s
  {
    if s.current.None? || IsSwitching(s, now) then s
    else
      var call := [WeaponFire(s.current.value, justPressed)];
      var animation := if weaponFired && firstPerson && forward then [FireTrigger] else [];
      s.(effects := s.effects + call + animation)
  }

  function Reload(s: State, now: int): (r: State)
    requires Valid(s)
    ensures Valid(r) && Evolves(s, r)
    ensures r.(effects := s.effects) == s
  {
    if s.current.None? || IsSwitching(s, now) then s
    else s.(effects := s.effects + [WeaponReload(s.current.value)])
  }

  // ----- TryActivatePendingWeapon -----

  /** Whether a switch is too young to promote: more than half of the switch
      time is left. */
  predicate TooSoon(s: State, now: int): (tooSoon: bool)
    requires s.switchTimer.Some?
    ensures tooSoon <==> RemainingTicks(s.switchTimer, now) > s.switchTime / 2
  {
    2 * RemainingTicks(s.switchTimer, now) > s.switchTime
  }

  function ActivatePending(s: State, now: int): (r: State)
    requires Valid(s)
    ensures Valid(r) && Evolves(s, r)
    ensures r.switchTimer == s.switchTimer && r.visible == s.visible && r.effects == s.effects
    ensures r.pending.Some? ==> r == s
  {
    if !IsSwitching(s, now) || s.pending.None? then s
    else if TooSoon(s, now) then s
    else
      var p := s.pending.value;
      s.(current := s.pending, pending := None,
         slots := s.slots[p := s.slots[p].(isVisible := true)])
  }

  // ----- Render / UpdateVisibleWeapon -----

  /** Exactly slot c visible. */
  function ShowOnly(slots: seq<Slot>, c: nat): (r: seq<Slot>)
    ensures |r| == |slots|
    ensures forall i :: 0 <= i < |slots| ==> r[i] == slots[i].(isVisible := i == c)
  {
    seq(|slots|, i requires 0 <= i < |slots| => slots[i].(isVisible := i == c))
  }

  function UpdateVisible(s: State, firstPerson: bool): (r: State)
    requires Valid(s)
    ensures Valid(r) && Evolves(s, r)
    ensures r.visible == s.current && r.current == s.current && r.pending == s.pending
    ensures r.switchTimer == s.switchTimer
    ensures forall i :: 0 <= i < |s.slots| ==> r.slots[i] == s.slots[i].(isVisible := r.slots[i].isVisible)
  {
    if s.visible == s.current then s
    else
      var c := s.current.value;
      s.(visible := s.current,
         slots := ShowOnly(s.slots, c),
         effects := s.effects + [WeaponIdParameter(c)] + (if firstPerson then [ShowTrigger] else []))
  }

  /** Render: reconcile the visible weapon, then drive the continuous
      reloading parameter of the first-person animator. */
  function Render(s: State, firstPerson: bool): (r: State)
    requires Valid(s)
    ensures Valid(r) && Evolves(s, r)
    ensures r.visible == s.current && r.current == s.current
    ensures r.pending == s.pending && r.switchTimer == s.switchTimer
    ensures forall i :: 0 <= i < |s.slots| ==> r.slots[i] == s.slots[i].(isVisible := r.slots[i].isVisible)
  {
    var u := UpdateVisible(s, firstPerson);
    if firstPerson && u.current.Some? then
      u.(effects := u.effects + [IsReloadingParameter(u.slots[u.current.value].isReloading)])
    else u
  }
}
