# Turret, fire control, projectile and lives: a Dafny model

This project models the gameplay core of a 2D tower-defense game written as
four Unity `MonoBehaviour` components, and proves properties of that model:

- **Turret** (`Code/Weapon.cs`). It keeps the enemies inside its range in a list.
  A trigger-enter appends to the list and a trigger-exit removes from it. Every
  frame the target is set to the head of the list, and the turret turns to face it.
- **Fire controller** (`WeaponProjectile`, `Code/WeaponProjectile.cs`). Every
  frame it works in this order:
  - it reloads from the pool if its slot is empty;
  - once the current time is past the next attack time, it launches the loaded
    projectile at the turret's target, but only if there is a target, a loaded
    projectile and the target's health is positive;
  - whenever that time gate is open, it re-arms the cooldown, even on a skipped shot.
- **Projectile** (`Code/Projectile.cs`). It carries a target, a damage value and
  its owning controller. On arrival it does four things, in order:
  - it raises the hit event;
  - it damages the target;
  - it clears its owner's loaded slot;
  - it returns to the pool.
- **Lives counter** (`LevelManager`, `Code/LevelManager.cs`). Each enemy that
  reaches the end takes one life. The count is clamped at zero, and `GameOver`
  is called on every call that leaves it at zero or below.

Each component is a class whose fields are updated in place by methods with
`modifies` frames, as in the C# code. The rules that these methods follow are
also written as functions on values. Those functions carry the properties that
concern more than one call:
- `EnemyList`: the enemy list and the target rule;
- `FireControl`: the time gate and runs of ticks;
- `Level.Reduce`: one call to the lives counter.

Modules and files:

| file | module | models |
|---|---|---|
| wrappers.dfy | `Wrappers` | `Option`, used for a reference that may be null |
| calls.dfy | `Calls` | the record of the calls an impact sets off, written by each callee as it runs |
| enemy_list.dfy | `EnemyList` | `List<Enemy>` add, remove and head as values, tag filter, replay of range signals |
| enemy.dfy | `Enemies` | the enemy reference and its health |
| weapon.dfy | `Weapon` | `Turret` |
| fire_control.dfy | `FireControl` | the fire gate of `WeaponProjectile.Update`, and runs of ticks |
| combat.dfy | `Combat` | `Projectile`, `WeaponProjectile`, the object pool |
| level_manager.dfy | `Level` | `LevelManager`, with C# `int` arithmetic |
| scenarios.dfy | `Scenarios` | scripted frames that drive the classes the way the engine does |

Four behaviours of the code are worth knowing before the model table:

- **Duplicates.** `OnTriggerEnter2D` appends with no membership check
  (Code/Weapon.cs:75), so an enemy can be listed twice, and an exit removes
  only the first copy (Code/Weapon.cs:87-90).
- **Strict time gate.** The gate is `Time.time > _nextAttackTime`
  (Code/WeaponProjectile.cs:49): a tick at exactly the next attack time does
  not fire.
- **Loaded slot.** Launching never clears the loaded slot; only
  `ResetTurretProjectile` does (Code/WeaponProjectile.cs:91-94), and it is
  called by the projectile on impact. Until then, a later open gate re-aims
  the same projectile in flight at the current target.
- **Game over.** `ReduceLives` has no once-only guard
  (Code/LevelManager.cs:67-73): `GameOver` is called on every end-reach while
  the count is at zero.

## Model

| member | source | states |
|---|---|---|
| `EnemyList.IndexOf` | Code/Weapon.cs:87-89 | the index returned holds the enemy, and no earlier position does (the first occurrence that `List.Remove` deletes) |
| `EnemyList.RemoveFirst` | Code/Weapon.cs:89 | removing an element that is absent leaves the list unchanged |
| `EnemyList.RemoveFirstMultiset` | Code/Weapon.cs:89 | removal takes away exactly one copy of the enemy when there is one, and nothing else |
| `EnemyList.RemoveFirstCutsFirstOccurrence` | Code/Weapon.cs:87-90 | the list after removal is the old list with exactly the first occurrence cut out; all other elements keep their relative order |
| `EnemyList.OnEnter` | Code/Weapon.cs:70-75 | the old list stays in front, and an "Enemy"-tagged enter adds exactly one more copy of its enemy, whether or not it was listed; any other collider adds nothing |
| `EnemyList.OnExit` | Code/Weapon.cs:82-91 | an "Enemy"-tagged exit takes away one copy of its enemy if there is one and nothing else; any other collider changes nothing |
| `EnemyList.Target` | Code/Weapon.cs:41-48 | there is no target exactly when the list is empty, and a target is always listed |
| `EnemyList.EnterAppends` | Code/Weapon.cs:70-75 | an "Enemy"-tagged enter adds one element at the end, even when that enemy is already present, and keeps the prefix |
| `EnemyList.UntaggedIgnored` | Code/Weapon.cs:70-91 | a collider not tagged "Enemy" changes nothing on enter or on exit |
| `EnemyList.ExitAbsentIgnored` | Code/Weapon.cs:82-91 | an exit of an enemy that is not listed leaves the list unchanged |
| `EnemyList.TwoEntersOneExitStillPresent` | Code/Weapon.cs:68-92 | an enemy entered twice and exited once is still listed |
| `EnemyList.TargetIsHead` | Code/Weapon.cs:39-49 | there is no target exactly when the list is empty; otherwise the target is the first element, which is a member |
| `EnemyList.TargetKeptOnEnter` | Code/Weapon.cs:48 | an enemy that enters never displaces an existing target: the earliest entry keeps it |
| `EnemyList.TargetAfterExit` | Code/Weapon.cs:48 | the exit of a non-head enemy keeps the target; the exit of the head passes the target to the next entry |
| `EnemyList.ApplyCount` | Code/Weapon.cs:68-92 | one range signal changes an enemy's number of copies exactly as the unmatched-enter count says |
| `EnemyList.ReplayCountsUnmatchedEnters` | Code/Weapon.cs:68-92 | after any sequence of range signals, each enemy is listed exactly as many times as it has enters not yet cancelled by an exit |
| `EnemyList.MembershipIsUnmatchedEnter` | Code/Weapon.cs:68-92 | starting from an empty list, an enemy is listed exactly when it has an unmatched enter |
| `Weapon.Turret.constructor` | Code/Weapon.cs:10-19 | a new turret keeps its configured range and has no enemies, no target and no aim |
| `Weapon.Turret.Start` | Code/Weapon.cs:22-29 | the game is marked started and the enemy list is empty |
| `Weapon.Turret.Update` | Code/Weapon.cs:32-36 | the target is the head of the list, or null; the turret then faces it, or keeps its aim when there is none |
| `Weapon.Turret.GetCurrentEnemyTarget` | Code/Weapon.cs:39-49 | the target is null iff the list is empty, otherwise it is the first element, which is a member; the list is not touched |
| `Weapon.Turret.RotateTowardsTarget` | Code/Weapon.cs:52-65 | a no-op without a target; otherwise the turret faces the target |
| `Weapon.Turret.OnTriggerEnter2D` | Code/Weapon.cs:68-77 | a tagged enemy is appended at the end, duplicates included; an untagged collider changes nothing |
| `Weapon.Turret.OnTriggerExit2D` | Code/Weapon.cs:80-92 | a tagged, listed enemy loses its first occurrence; an untagged or unlisted one changes nothing |
| `Enemies.Enemy.DealDamage` | Code/Projectile.cs:50 | the enemy's health goes down by exactly the amount dealt, and the call is recorded after all earlier ones |
| `FireControl.Decide` | Code/WeaponProjectile.cs:49-63 | a tick launches if and only if the time is strictly past the next attack time, there is a target, a projectile is loaded and the target's health is positive; an open gate re-arms the cooldown to `now + DelayPerShot`, launch or not; a closed gate changes nothing |
| `FireControl.NextAttackTimeNeverDecreases` | Code/WeaponProjectile.cs:49-63 | with a non-negative delay, no run of ticks moves the next attack time backwards |
| `FireControl.LaunchesAreSpacedByDelay` | Code/WeaponProjectile.cs:43-63 | over any run of ticks, every launch is strictly after the starting next attack time, and any two launches are more than `DelayPerShot` apart |
| `Calls.CallLog.Record` | Code/Projectile.cs:48 | a recorded call is appended after all earlier ones |
| `Combat.ObjectPooler.GetInstanceFromPool` | Code/WeaponProjectile.cs:70 | the instance handed out was free or is new, and it is no longer free |
| `Combat.ObjectPooler.ReturnToPool` | Code/Projectile.cs:54 | the instance is free again, its fields are not reset, and the call is recorded after all earlier ones |
| `Combat.Projectile.constructor` | Code/Projectile.cs:13-21 | a new projectile has its configured impact distance, no owner, zero damage and no target |
| `Combat.Projectile.SetEnemy` | Code/Projectile.cs:70-73 | the target becomes exactly the given enemy, and nothing else changes |
| `Combat.Projectile.ResetProjectile` | Code/Projectile.cs:76-81 | the target is cleared, and nothing else changes |
| `Combat.Projectile.Update` | Code/Projectile.cs:24-32 | runs only on a projectile that is out of its owner's pool, and the pool it returns to is that same pool; with no target nothing happens; with a target, impact happens only when the distance is strictly below the threshold, with the effects of `MoveProjectile`; the projectile's own target, owner and damage are never changed |
| `Combat.Projectile.MoveProjectile` | Code/Projectile.cs:35-56 | on impact, the calls are made in the order hit event (same target and damage), damage, owner reset, pool return, each recorded by the callee itself as it runs; the health drops by exactly `Damage`, the owner's slot is empty and the projectile is free; without impact, health, owner slot, pool and record are unchanged |
| `Combat.WeaponProjectile.constructor` | Code/WeaponProjectile.cs:10-22 | a new controller keeps its turret, pool and serialized settings, with zero damage, delay and next attack time and an empty slot |
| `Combat.WeaponProjectile.Start` | Code/WeaponProjectile.cs:25-37 | `Damage` equals the serialized `damage` and `DelayPerShot` equals `delayBtwAttacks`; a projectile is loaded, owned by this controller, without a target, carrying `Damage` and taken from the pool; every other free projectile keeps its fields |
| `Combat.WeaponProjectile.LoadProjectile` | Code/WeaponProjectile.cs:67-82 | the loaded projectile came from the pool, is owned by this controller, has no target and carries the controller's current `Damage`; every other free projectile keeps its fields |
| `Combat.WeaponProjectile.ResetTurretProjectile` | Code/WeaponProjectile.cs:91-94 | the loaded slot is empty, and the call is recorded after all earlier ones |
| `Combat.WeaponProjectile.Update` | Code/WeaponProjectile.cs:40-64 | an empty slot (`IsTurretEmpty`) is filled before the fire check, so the check always sees a projectile; the next attack time follows `Decide`; a launch points the loaded projectile at the turret's target without emptying the slot; otherwise the projectile's target is unchanged; no free projectile other than the loaded one changes |
| `Level.Decrement` | Code/LevelManager.cs:67 | `--` on a C# `int` gives the 32-bit value congruent to `x - 1` modulo 2^32: one less, except that the smallest value wraps to the largest |
| `Level.Reduce` | Code/LevelManager.cs:65-74 | the count never ends negative; a count of at least one drops by exactly one; `GameOver` is called exactly when the count ends at zero, including when it was already zero; the smallest `int` wraps to the largest, with no `GameOver` |
| `Level.ReduceTimesClosedForm` | Code/LevelManager.cs:65-74 | `n` end-reaches from `L >= 0` lives leave `max(0, L - n)` lives and call `GameOver` `n - L + 1` times once `n >= L >= 1`, or `n` times from zero: there is no once-only guard |
| `Level.LevelManager.constructor` | Code/LevelManager.cs:13-17 | a new manager keeps its serialized lives, with zero lives, wave and game-over calls |
| `Level.LevelManager.Start` | Code/LevelManager.cs:57-62 | `TotalLives` equals the configured `lives` and `CurrentWave` is 1 |
| `Level.LevelManager.ReduceLives` | Code/LevelManager.cs:65-74 | the new count is `Reduce` of the old one and is never negative; a count of at least one drops by exactly 1; `GameOver` is called once when the count ends at zero; `CurrentWave` is unchanged |
| `Level.LevelManager.GameOver` | Code/LevelManager.cs:77-80 | each call is counted once |
| `Scenarios.DeadListedTargetIsSkipped` | Code/WeaponProjectile.cs:52-53 | with A entered before B, A is the target; when A is dead but still listed, A is still the target, and the open gate launches nothing but re-arms the cooldown; only A's exit makes B the target |
| `Scenarios.InFlightProjectileIsReaimed` | Code/WeaponProjectile.cs:56-57 | two open gates with different targets aim the same projectile, first at A and then at B, because a launch leaves the slot occupied |
| `Scenarios.ImpactEmptiesSlotAndReloads` | Code/WeaponProjectile.cs:91-94 | an impact lowers the target's health by the projectile's damage and empties the slot; the next tick loads a projectile with no target, even with the gate closed |
| `Scenarios.LastLifeReachedTwice` | Code/LevelManager.cs:65-74 | with one life, two end-reaches leave zero lives and call `GameOver` twice |

`Combat.WeaponProjectile.IsTurretEmpty` (Code/WeaponProjectile.cs:85-88) and
`Combat.WeaponProjectile.TargetHealth` (Code/WeaponProjectile.cs:53) are
one-line accessors with no contract of their own; their effect is stated in
the row for `Combat.WeaponProjectile.Update`, whose contract has the slot
filled at the fire check and takes the target's health through `Decide`.

## Left out

- Vector and angle geometry is left out: `Vector3.SignedAngle`, `transform.Rotate`, `Vector2.MoveTowards` and the distance magnitude. Rotation is reduced to the enemy the turret faces. Projectile flight is reduced to the distance left after the move, which is an input to `Projectile.Update`. `RotateProjectile` is not modelled. It runs after `MoveProjectile` in the same `Update` (Code/Projectile.cs:29-30), so after an impact it touches the instance that was just returned to the pool (Code/Projectile.cs:54) in that same frame; the order proved for the impact calls (pool return last) holds within `MoveProjectile` only.
- Floats are modelled as `real`: time, damage, delay, health and distances. Rounding is not modelled.
- `Time.time` is the `now` parameter of `WeaponProjectile.Update`.
- The object pool's source is not part of this model. `ObjectPooler` is only a set of free instances, with acquire and release. `GetInstanceFromPool` hands out an instance on every call, a free one or a new one, so the model assumes the pool never runs out and may grow without bound. A double release is not excluded.
- `ReturnToPool` is static in the code. Here the pool is a parameter of `Projectile.Update`, required to be the owner's pool, which is the one the projectile was drawn from.
- The engine ticks only active objects. `Projectile.Update` therefore requires that the projectile is not in its owner's pool, so a projectile that has been released cannot hit again until it is loaded again.
- `EnemyHealth` is not part of this model. `DealDamage` is modelled as a plain subtraction, with no death, clamp or despawn.
- `GetComponent` is assumed to find the component: an "Enemy"-tagged collider carries its enemy, and each controller is given its turret and pool. `CompareTag` is a string comparison with "Enemy".
- Parenting, positions, `SetActive` and the reset of the orientation are engine calls and are left out. So is the collider radius set in `OnDrawGizmos`.
- The rocket sound is an audio side effect and is left out. So is the `TurretUpgrade` component.
- The singleton in `LevelManager.Instance` and `Awake` is left out.
- Subscribing and unsubscribing `ReduceLives` on `OnEndReached` is left out. The `Shroom` argument of `ReduceLives` is ignored by the code, so the model omits it.
- Subscribers to `OnEnemyHit` are left out. The event firing is recorded as a call in the `CallLog`, by the projectile, since it is the projectile that raises the event.
- `GameOver` and `WaveCompleted` are empty in the code. `GameOver` is modelled only as a counted call, and `WaveCompleted` is never called.
- `Damage` and `DelayPerShot` can be set from outside; only `Start` sets them here. The run lemmas in `FireControl` take the delay as fixed for the run.
