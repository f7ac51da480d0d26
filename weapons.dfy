/** The Weapons component as the program has it: the AllWeapons array and the
    fields that its methods update in place. Each method is proved to leave
    the component in the state the matching transition of SwitchMachine
    computes, so every property proved there holds of the component. */
module WeaponsBehaviour {
  import opened Wrappers
  import opened SwitchMachine

  class Weapons {
    const allWeapons: array<Slot>
    const weaponSwitchTime: nat
    var currentWeapon: Option<nat>
    var pendingWeapon: Option<nat>
    var switchTimer: Option<int>
    var visibleWeapon: Option<nat>
    /** The calls made into Weapon objects and the presentation effects, in order. */
    var effects: seq<Effect>

    /** The component's whole state as one value. */
    function Model(): State
      reads this, allWeapons
    {
      State(allWeapons[..], currentWeapon, pendingWeapon, switchTimer, visibleWeapon, weaponSwitchTime, effects)
    }

    ghost predicate Valid()
      reads this, allWeapons
    {
      SwitchMachine.Valid(Model())
    }

    /** Awake: the weapons found under the player prefab, none selected. */
    constructor (slots: seq<Slot>, switchTime: nat)
      ensures Valid() && fresh(allWeapons)
      ensures Model() == Awake(slots, switchTime)
    {
      allWeapons := new Slot[|slots|](i requires 0 <= i < |slots| => slots[i]);
      weaponSwitchTime := switchTime;
      currentWeapon, pendingWeapon, switchTimer, visibleWeapon := None, None, None, None;
      effects := [];
      new;
      assert allWeapons[..] == slots;
    }

    /** The first weapon of the given type, by a linear scan. */
    method GetWeapon(weaponType: WeaponType) returns (weapon: Option<nat>)
      ensures weapon == FindWeapon(allWeapons[..], weaponType)
      ensures weapon.Some? ==> weapon.value < allWeapons.Length && allWeapons[weapon.value].weaponType == weaponType
      ensures weapon.None? ==> forall j :: 0 <= j < allWeapons.Length ==> allWeapons[j].weaponType != weaponType
    {
      for i := 0 to allWeapons.Length
        invariant FindFrom(allWeapons[..], weaponType, i) == FindWeapon(allWeapons[..], weaponType)
      {
        if allWeapons[i].weaponType == weaponType {
          return Some(i);
        }
      }
      return None;
    }

    method Spawned(hasStateAuthority: bool)
      requires Valid()
      modifies this, allWeapons
      ensures Valid()
      ensures Model() == Spawn(old(Model()), hasStateAuthority)
    {
      if hasStateAuthority {
        if allWeapons.Length == 0 {
          return; // the component indexes an empty array here and throws before any change
        }
        currentWeapon := Some(0);
        allWeapons[0] := allWeapons[0].(isCollected := true);
      }
    }

    method SwitchWeapon(weaponType: WeaponType, now: int, firstPersonActive: bool, isForward: bool)
      requires Valid()
      modifies this
      ensures Valid()
      ensures Model() == Switch(old(Model()), weaponType, now, firstPersonActive, isForward)
    {
      var newWeapon := GetWeapon(weaponType);
      if newWeapon.None? || !allWeapons[newWeapon.value].isCollected {
        return;
      }
      if newWeapon == currentWeapon && pendingWeapon.None? {
        return;
      }
      if newWeapon == pendingWeapon {
        return;
      }
      if currentWeapon.None? {
        return; // the component dereferences null here and throws before any change
      }
      if allWeapons[currentWeapon.value].isReloading {
        return;
      }
      pendingWeapon := newWeapon;
      switchTimer := Some(now + weaponSwitchTime);
      if firstPersonActive && isForward {
        effects := effects + [HideTrigger, SwitchSound];
      } else {
        assert effects + SwitchPresentation(firstPersonActive, isForward) == effects;
      }
    }

    method PickupWeapon(weaponType: WeaponType, now: int, firstPersonActive: bool, isForward: bool) returns (picked: bool)
      requires Valid()
      modifies this, allWeapons
      ensures Valid()
      ensures (Model(), picked) == Pickup(old(Model()), weaponType, now, firstPersonActive, isForward)
    {
      if currentWeapon.None? {
        return false; // the component dereferences null here and throws before any change
      }
      if allWeapons[currentWeapon.value].isReloading {
        return false;
      }
      var weapon := GetWeapon(weaponType);
      if weapon.None? {
        return false;
      }
      var i := weapon.value;
      if allWeapons[i].isCollected {
        allWeapons[i] := AddAmmo(allWeapons[i], allWeapons[i].startAmmo - allWeapons[i].remainingAmmo);
      } else {
        allWeapons[i] := allWeapons[i].(isCollected := true);
      }
      assert Model() == Restock(old(Model()), i);
      SwitchWeapon(weaponType, now, firstPersonActive, isForward);
      return true;
    }

    /** weaponFired is the answer of the current Weapon's own Fire. */
    method Fire(justPressed: bool, weaponFired: bool, now: int, firstPersonActive: bool, isForward: bool)
      requires Valid()
      modifies this
      ensures Valid()
      ensures Model() == SwitchMachine.Fire(old(Model()), justPressed, weaponFired, now, firstPersonActive, isForward)
    {
      if currentWeapon.None? || IsSwitching(Model(), now) {
        return;
      }
      effects := effects + [WeaponFire(currentWeapon.value, justPressed)];
      if !weaponFired {
        return;
      }
      if firstPersonActive && isForward {
        effects := effects + [FireTrigger];
      }
    }

    method Reload(now: int)
      requires Valid()
      modifies this
      ensures Valid()
      ensures Model() == SwitchMachine.Reload(old(Model()), now)
    {
      if currentWeapon.None? || IsSwitching(Model(), now) {
        return;
      }
      effects := effects + [WeaponReload(currentWeapon.value)];
    }

    /** Run from FixedUpdateNetwork once per simulated tick. */
    method TryActivatePendingWeapon(now: int)
      requires Valid()
      modifies this, allWeapons
      ensures Valid()
      ensures Model() == ActivatePending(old(Model()), now)
    {
      if !IsSwitching(Model(), now) || pendingWeapon.None? {
        return;
      }
      if 2 * RemainingTicks(switchTimer, now) > weaponSwitchTime {
        return; // too soon
      }
      currentWeapon := pendingWeapon;
      pendingWeapon := None;
      allWeapons[currentWeapon.value] := allWeapons[currentWeapon.value].(isVisible := true);
    }

    method UpdateVisibleWeapon(firstPersonActive: bool)
      requires Valid()
      modifies this, allWeapons
      ensures Valid()
      ensures Model() == UpdateVisible(old(Model()), firstPersonActive)
    {
      if visibleWeapon == currentWeapon {
        return;
      }
      visibleWeapon := currentWeapon;
      var c := currentWeapon.value;
      for i := 0 to allWeapons.Length
        modifies allWeapons
        invariant forall j :: 0 <= j < i ==> allWeapons[j] == old(allWeapons[j]).(isVisible := j == c)
        invariant forall j :: i <= j < allWeapons.Length ==> allWeapons[j] == old(allWeapons[j])
      {
        allWeapons[i] := allWeapons[i].(isVisible := i == c);
      }
      assert allWeapons[..] == ShowOnly(old(allWeapons[..]), c);
      effects := effects + [WeaponIdParameter(c)];
      if firstPersonActive {
        effects := effects + [ShowTrigger];
      }
    }

    method Render(firstPersonActive: bool)
      requires Valid()
      modifies this, allWeapons
      ensures Valid()
      ensures Model() == SwitchMachine.Render(old(Model()), firstPersonActive)
    {
      UpdateVisibleWeapon(firstPersonActive);
      if firstPersonActive && currentWeapon.Some? {
        effects := effects + [IsReloadingParameter(allWeapons[currentWeapon.value].isReloading)];
      }
    }
  }
}
