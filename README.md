# Weapon switching of the SimpleFPS `Weapons` component, in Dafny

This project models the weapon-switching state machine of the `Weapons`
component (`Assets/Scripts/Weapons/Weapons.cs`) of a networked first-person
shooter built on Photon Fusion. The component holds the player's fixed set of
weapon slots (`AllWeapons`), the weapon in hand (`CurrentWeapon`), a weapon
waiting to be switched to (`_pendingWeapon`) and a switch timer
(`_switchTimer`). A switch request makes a collected weapon pending and starts
the timer. Every simulation tick, `TryActivatePendingWeapon` promotes the
pending weapon once at most half of the switch time is left. `Fire` and
`Reload` are refused while the timer runs. Once per rendered frame,
`UpdateVisibleWeapon` makes exactly the current weapon visible.

The model has three layers:

- `SwitchMachine` (switch_machine.dfy): the component's whole state as one
  value (`State`) and one pure transition function per operation. Each
  function keeps the invariant `Valid`: the current and the pending weapon are
  collected slots, and a pending weapon always has a timer. Each also keeps
  `Evolves`: slots never lose their collected flag, a current weapon never
  becomes null again, and the effect log only grows.
- `SwitchProperties` (switch_properties.dfy): lemmas about those functions.
  They cover the guards of each request, the halfway promotion rule, how a
  switch completes over successive ticks, and the rule that one-shot
  presentation effects run only on the forward tick.
- `WeaponsBehaviour` (weapons.dfy): class `Weapons`. It keeps the slots in an
  `array<Slot>` and the component's fields as mutable fields, and mirrors the
  source's methods. Each method is proved to leave `Model()` equal to the
  matching transition function, so every lemma about the functions holds for
  the class.

Modelling choices:

- Time is counted in integer simulation ticks. A `TickTimer` becomes its
  target tick, or `None` when it was never started. `WeaponSwitchTime` becomes
  a whole number of ticks `D`.
- The float test `RemainingTime > WeaponSwitchTime * 0.5` becomes
  `2 * remaining > D`.
- Object references become slot indices (`Option<nat>`). Reference equality
  becomes index equality.
- Calls into the `Weapon` collaborator (`Fire`, `Reload`) and the presentation
  effects are appended to an effect log. These effects are animator triggers,
  animator parameters and the switch sound.
- `Runner.IsForward`, the first-person flag, `HasStateAuthority` and the
  current tick are parameters.
- `Weapon.AddAmmo(n)` is not part of this model. It is assumed to add `n` to
  `RemainingAmmo`.
- `Weapon.ToggleVisibility(b)` is assumed to set the slot's visibility flag.

Behaviour the proofs bring out:

- `IsSwitching` reads only the timer. After the pending weapon is promoted at
  the halfway point, `Fire` and `Reload` stay refused until the timer fully
  expires (`ActionsBlockedAfterPromotion`).
- With a whole-tick switch time of `D >= 2` ticks, the pending weapon is
  promoted exactly at tick `t0 + ceil(D/2)` (`SwitchCompletes`). With a
  whole-tick switch time of zero or one tick, the timer expires before the
  halfway test can pass. The pending weapon is then never promoted
  (`ShortSwitchNeverPromotes`).
- In `SwitchWeapon` and `PickupWeapon`, a null `CurrentWeapon` makes the
  component throw before it changes anything. The model treats this as a
  rejection, and `PickupWeapon` returns false. In `Spawned`, the state
  authority indexes `AllWeapons[0]`. On an empty array this throws before
  anything changes, and the model treats it as no change.
- Picking up an uncollected weapon only sets `IsCollected`. Its ammunition
  stays as it was (`PickupAmmoExamples`).
- A pending weapon is promoted only while the timer runs (line 223). A
  whole-tick switch time of one tick or less therefore never completes.
- The `Show` trigger of `UpdateVisibleWeapon` depends only on the
  first-person flag. It runs on the per-frame path, not the per-tick one.

## Model

| member | source | states |
|---|---|---|
| SwitchMachine.FindWeapon | Assets/Scripts/Weapons/Weapons.cs:135-144 | the result is the first slot whose type matches; no result means no slot has that type |
| SwitchMachine.FindFrom | Assets/Scripts/Weapons/Weapons.cs:135-144 | the result is the first slot at or after i whose type matches; no result means no slot from i on has that type |
| SwitchProperties.FindWeaponIsFirstMatch | Assets/Scripts/Weapons/Weapons.cs:135-144 | GetWeapon finds a slot iff some slot has the type, and then it finds the first such slot |
| WeaponsBehaviour.Weapons.GetWeapon | Assets/Scripts/Weapons/Weapons.cs:135-144 | the loop returns the first matching slot or null, reads the array and changes nothing |
| SwitchMachine.IsSwitching | Assets/Scripts/Weapons/Weapons.cs:25 | line 25's timer test: a switch is in progress exactly when the timer is started and ticks remain on it; the pending weapon plays no part (what this blocks is proved in ActionsBlockedWhileSwitching and ActionsBlockedAfterPromotion) |
| SwitchMachine.RemainingTicks | Assets/Scripts/Weapons/Weapons.cs:226 | time left on the timer is positive exactly while the timer runs and has not expired |
| SwitchMachine.Awake | Assets/Scripts/Weapons/Weapons.cs:146-153 | after Awake the state is valid, holds the prefab's slots, and has no current, pending or visible weapon and no switch running |
| WeaponsBehaviour.Weapons.constructor | Assets/Scripts/Weapons/Weapons.cs:146-153 | the component starts with a fresh slot array holding the prefab's weapons and nothing selected |
| SwitchMachine.Spawn | Assets/Scripts/Weapons/Weapons.cs:171-178 | the state authority makes slot 0 current and collected and changes nothing else (other slots, pending weapon, timer, render cache, log); any other process, or an empty slot array, changes nothing |
| WeaponsBehaviour.Weapons.Spawned | Assets/Scripts/Weapons/Weapons.cs:171-178 | the method leaves the component in the state Spawn gives, and keeps the invariant |
| SwitchMachine.SwitchAccepted | Assets/Scripts/Weapons/Weapons.cs:82-94 | the guard conjunction of lines 84-94: a request gets past the guards only for a collected slot of the requested type that is not already pending, not the current weapon unless a switch is pending, while a current weapon exists and is not reloading |
| SwitchMachine.Switch | Assets/Scripts/Weapons/Weapons.cs:80-107 | keeps the invariant, never changes the current weapon or the slots, and changes the pending weapon only to the slot found for the type, with the timer restarted for the whole switch time |
| SwitchProperties.SwitchRejections | Assets/Scripts/Weapons/Weapons.cs:82-94 | each guard leaves the whole state unchanged on its own: type missing or not collected, target is current with nothing pending, target already pending, current weapon reloading |
| SwitchProperties.SwitchStarts | Assets/Scripts/Weapons/Weapons.cs:96-106 | the pending weapon changes iff every guard passes; the new pending weapon is a collected slot of the requested type, the timer has exactly D ticks left, the current weapon is kept, and Hide and the switch sound are logged only for first person on the forward tick |
| WeaponsBehaviour.Weapons.SwitchWeapon | Assets/Scripts/Weapons/Weapons.cs:80-107 | the method leaves the component in the state Switch gives, and keeps the invariant |
| SwitchMachine.Restock | Assets/Scripts/Weapons/Weapons.cs:118-128 | after the slot update the picked-up slot is collected, no other slot changes, and the invariant holds |
| SwitchMachine.Pickup | Assets/Scripts/Weapons/Weapons.cs:109-133 | a false result changes nothing; a true result means the type was found and that slot is now collected |
| SwitchProperties.PickupRejections | Assets/Scripts/Weapons/Weapons.cs:109-116 | the pickup returns false and changes nothing while the current weapon reloads or when the type is unknown; otherwise it returns true |
| SwitchProperties.PickupCollectsOrRefills | Assets/Scripts/Weapons/Weapons.cs:118-132 | a weapon already collected is refilled to StartAmmo and stays collected; an uncollected one only becomes collected; no other slot changes; a switch to it is then requested |
| SwitchProperties.PickupAmmoExamples | Assets/Scripts/Weapons/Weapons.cs:118-128 | an uncollected weapon holding 0 of 30 rounds is collected and keeps 0 rounds; a collected one holding 10 of 30 ends with 30 |
| WeaponsBehaviour.Weapons.PickupWeapon | Assets/Scripts/Weapons/Weapons.cs:109-133 | the method's new state and result are those Pickup gives, and the invariant holds |
| SwitchMachine.Fire | Assets/Scripts/Weapons/Weapons.cs:55-70 | Fire changes nothing but the effect log, and keeps the invariant |
| SwitchMachine.Reload | Assets/Scripts/Weapons/Weapons.cs:72-78 | Reload changes nothing but the effect log, and keeps the invariant |
| SwitchProperties.ActionsBlockedWhileSwitching | Assets/Scripts/Weapons/Weapons.cs:55-78 | with no current weapon, or while the timer runs, Fire and Reload leave the whole state unchanged and do not call the weapon |
| SwitchProperties.FireDelegates | Assets/Scripts/Weapons/Weapons.cs:60-77 | otherwise the current weapon is asked to fire (or reload) first, and the fire animation is triggered iff the weapon fired, the view is first person, and the tick is forward |
| WeaponsBehaviour.Weapons.Fire | Assets/Scripts/Weapons/Weapons.cs:55-70 | the method leaves the component in the state Fire gives |
| WeaponsBehaviour.Weapons.Reload | Assets/Scripts/Weapons/Weapons.cs:72-78 | the method leaves the component in the state Reload gives |
| SwitchMachine.ActivatePending | Assets/Scripts/Weapons/Weapons.cs:221-234 | keeps the invariant, never touches the timer, the render cache or the log, and if something is still pending afterwards, nothing changed |
| SwitchMachine.TooSoon | Assets/Scripts/Weapons/Weapons.cs:226-227 | a switch is too young to promote exactly when more than half of the switch time, rounded down, remains |
| SwitchProperties.PromotionAtHalfway | Assets/Scripts/Weapons/Weapons.cs:221-234 | during a switch the pending weapon is promoted iff 2 * remaining <= D; it then becomes current, its slot changes only by becoming visible, and no other slot changes |
| SwitchProperties.ActivateIdleIsNoop | Assets/Scripts/Weapons/Weapons.cs:223-224 | when the timer is not running or nothing is pending, the tick changes nothing |
| SwitchProperties.HalfwayScenario | Assets/Scripts/Weapons/Weapons.cs:226-227 | with D = 10 ticks, 6 ticks left keeps the switch going and 4 ticks left promotes the pending weapon |
| SwitchProperties.ActionsBlockedAfterPromotion | Assets/Scripts/Weapons/Weapons.cs:25 | right after promotion nothing is pending, yet IsSwitching still holds, so Fire and Reload still change nothing |
| SwitchProperties.ActivateIdempotent | Assets/Scripts/Weapons/Weapons.cs:221-234 | a second activation in the same tick changes nothing |
| SwitchProperties.RepeatedActivationIsOnce | Assets/Scripts/Weapons/Weapons.cs:180-183 | running FixedUpdateNetwork n >= 1 times for one tick gives the same state as running it once |
| SwitchProperties.SwitchCompletes | Assets/Scripts/Weapons/Weapons.cs:221-234 | a switch started at t0 with D >= 2 is still pending after ceil(D/2) ticks, is promoted on the next tick, and by t0 + D has the target current and visible with the timer expired |
| SwitchProperties.ShortSwitchNeverPromotes | Assets/Scripts/Weapons/Weapons.cs:223-227 | with D <= 1 no number of ticks from the switch start promotes the pending weapon |
| WeaponsBehaviour.Weapons.TryActivatePendingWeapon | Assets/Scripts/Weapons/Weapons.cs:221-234 | the method leaves the component in the state ActivatePending gives |
| SwitchMachine.UpdateVisible | Assets/Scripts/Weapons/Weapons.cs:195-219 | afterwards the render cache equals CurrentWeapon; the current and pending weapons, the timer and every slot field except visibility are unchanged |
| SwitchProperties.VisibilityReconciled | Assets/Scripts/Weapons/Weapons.cs:195-219 | a reconciled state is left alone; otherwise exactly the current slot is visible and Show is triggered iff the view is first person; a second call changes nothing |
| WeaponsBehaviour.Weapons.UpdateVisibleWeapon | Assets/Scripts/Weapons/Weapons.cs:195-219 | the loop over AllWeapons leaves the component in the state UpdateVisible gives |
| SwitchMachine.Render | Assets/Scripts/Weapons/Weapons.cs:185-193 | after a frame the render cache equals CurrentWeapon; a frame never changes the simulated state (current and pending weapons, timer, slot fields other than visibility), and the invariant holds |
| SwitchProperties.RepeatedFrameIsQuiet | Assets/Scripts/Weapons/Weapons.cs:185-193 | rendering an already rendered state changes no state and fires no one-shot trigger; only the continuous reloading parameter is set again |
| WeaponsBehaviour.Weapons.Render | Assets/Scripts/Weapons/Weapons.cs:185-193 | the method leaves the component in the state Render gives |
| SwitchProperties.SimulateTick | Assets/Scripts/Weapons/Weapons.cs:180-183 | one tick (a request, then the activation) keeps the invariant and never undoes a collection, a current weapon or a logged effect |
| SwitchProperties.TickStateIgnoresViewFlags | Assets/Scripts/Weapons/Weapons.cs:99-106 | the first-person and forward flags never change a tick's weapons, pending switch or timer |
| SwitchProperties.ResimulatedTickIsSilent | Assets/Scripts/Weapons/Weapons.cs:63-69 | a tick that is not forward emits no one-shot effect |
| SwitchProperties.ResimulationOneShots | Assets/Scripts/Weapons/Weapons.cs:63-69 | when a tick is simulated repeatedly from the same rolled-back state, each forward pass adds that tick's one-shot effects once and every other pass adds none |
| SwitchProperties.OneShotsOncePerTick | Assets/Scripts/Weapons/Weapons.cs:99-106 | with exactly one forward pass among any number of passes, one-shot effects happen as often as in one forward execution |
| SwitchProperties.CurrentAlwaysCollected | Assets/Scripts/Weapons/Weapons.cs:171-178 | after the authority's spawn, in every state reached by any ticks and frames the current weapon exists and is collected, and collected slots stay collected |

## Left out

- `SetFirstPersonVisuals` and `LateUpdate`: rendering layers and float transform snapping.
- `HandSnap.cs` and `AnimatorId.cs`: float geometry, and hashes from the engine.
- The left-hand handle and animator-controller swaps in `UpdateVisibleWeapon`: presentation only.
- Fusion networking: replication, rollback, authority. Authority and the forward flag are parameters. A rollback is modelled only in `Resimulate`, as restarting from the same state.
- The `Weapon` class: it is not part of this model. Its `Fire` answer is a parameter. Its `Reload`, cooldowns and ammunition use are not modelled, so the model never changes `IsReloading` itself.
- The fire origin and direction (`FireTransform`): float vectors passed to the weapon.
- `FixedUpdateNetwork`: it only calls `TryActivatePendingWeapon`. The model assumes a tick's request runs before that call. The script execution order that fixes this is not part of this model.
- WeaponSwitchTime as seconds: the model uses a whole number of ticks `D` and tests `2 * remaining > D` (line 226). It is exact when WeaponSwitchTime is a whole number of ticks. Otherwise the timer runs for `ceil(x)` ticks, where `x` is WeaponSwitchTime in ticks, while line 226 still compares against `x / 2`. Promotion can then come one tick later than in the model (when `ceil(x)` is even), and it never comes when `x` is strictly between one and two ticks, where the model with `D = 2` promotes at `t0 + 1`.
- Exceptions: the null dereference of `CurrentWeapon` in `SwitchWeapon` and `PickupWeapon`, and `AllWeapons[0]` on an empty array in `Spawned`, are modelled as no state change. The logged exception itself is not modelled.
