/**
 * Clients that drive the components through short scripted frames, in the
 * way the engine calls them, and state what the game then shows.
 */
module Scenarios {
  import opened EnemyList
  import opened Enemies
  import opened Weapon
  import opened Combat
  import opened Level
  import Calls

  /**
   * The frame both two-enemy scenarios start from: a started turret and fire
   * controller, a projectile loaded without a target, the gate at time 0
   * with a delay of 2, and enemies A and B entered in that order, so A is
   * the target.
   */
  method TwoEnemiesInRange() returns (turret: Turret, weapon: WeaponProjectile, a: Enemy, b: Enemy)
    ensures fresh(turret) && fresh(weapon) && fresh(weapon.pooler) && fresh(a) && fresh(b)
    ensures weapon.turret == turret && weapon.pooler.inactive == {}
    ensures weapon.nextAttackTime == 0.0 && weapon.DelayPerShot == 2.0
    ensures weapon.currentProjectileLoaded != null && fresh(weapon.currentProjectileLoaded)
    ensures weapon.currentProjectileLoaded.target == null
    ensures a != b && a.health == 10.0 && b.health == 10.0
    ensures turret.enemies == [a, b] && turret.currentEnemyTarget == a
  {
    turret := new Turret(3.0);
    turret.Start();
    var pool := new ObjectPooler(0.1);
    weapon := new WeaponProjectile(turret, pool, 2.0, 2.0);
    weapon.Start();
    a := new Enemy(10.0);
    b := new Enemy(10.0);
    turret.OnTriggerEnter2D(Collider("Enemy", a));
    turret.OnTriggerEnter2D(Collider("Enemy", b));
    turret.Update();
  }

  /**
   * Two enemies enter range, A first. A stays the target; when A's health
   * reaches zero without an exit signal, A is still the target and the
   * opened fire gate skips the shot but re-arms the cooldown; only A's exit
   * hands the target to B.
   */
  method DeadListedTargetIsSkipped() returns (a: Enemy, b: Enemy, firstTarget: Enemy?,
                                              targetWhileDead: Enemy?, aimedAtDead: Enemy?,
                                              rearmed: real, laterTarget: Enemy?)
    ensures a != b
    ensures firstTarget == a && targetWhileDead == a && laterTarget == b
    ensures aimedAtDead == null && rearmed == 5.0
  {
    var turret, weapon;
    turret, weapon, a, b := TwoEnemiesInRange();
    firstTarget := turret.currentEnemyTarget;
    var log := new Calls.CallLog();
    a.DealDamage(10.0, log);
    turret.Update();
    targetWhileDead := turret.currentEnemyTarget;
    weapon.Update(3.0);
    rearmed := weapon.nextAttackTime;
    aimedAtDead := weapon.currentProjectileLoaded.target;
    turret.OnTriggerExit2D(Collider("Enemy", a));
    assert turret.enemies == RemoveFirst([a, b], a) == [b];
    turret.Update();
    laterTarget := turret.currentEnemyTarget;
  }

  /**
   * A launched projectile keeps the controller's loaded slot, so the next
   * open gate re-aims that same projectile at the new target instead of
   * loading another.
   */
  method InFlightProjectileIsReaimed() returns (a: Enemy, b: Enemy, first: Projectile, firstAim: Enemy?,
                                                 second: Projectile)
    ensures a != b
    ensures firstAim == a
    ensures first == second && second.target == b
  {
    var turret, weapon;
    turret, weapon, a, b := TwoEnemiesInRange();
    weapon.Update(1.0);
    first := weapon.currentProjectileLoaded;
    firstAim := first.target;
    turret.OnTriggerExit2D(Collider("Enemy", a));
    assert turret.enemies == RemoveFirst([a, b], a) == [b];
    turret.Update();
    weapon.Update(4.0);
    second := weapon.currentProjectileLoaded;
  }

  /**
   * A projectile that reaches its target damages it by the projectile's
   * damage and empties its owner's slot; the owner's next tick, even with
   * the fire gate closed, loads a projectile without a target.
   */
  method ImpactEmptiesSlotAndReloads() returns (target: Enemy, launched: Projectile,
                                                healthAfterHit: real, emptied: bool, reloaded: Projectile)
    ensures target.health == healthAfterHit == 10.0 - 2.0
    ensures emptied
    ensures reloaded.target == null && reloaded.owner != null
  {
    var turret := new Turret(3.0);
    turret.Start();
    var pool := new ObjectPooler(0.1);
    var weapon := new WeaponProjectile(turret, pool, 2.0, 2.0);
    weapon.Start();
    target := new Enemy(10.0);
    turret.OnTriggerEnter2D(Collider("Enemy", target));
    turret.Update();
    assert turret.currentEnemyTarget == target;
    weapon.Update(1.0);
    launched := weapon.currentProjectileLoaded;
    assert launched.target == target && launched.owner == weapon && launched.damage == 2.0;
    assert launched !in pool.inactive;
    var log := new Calls.CallLog();
    launched.Update(0.0, pool, log);
    healthAfterHit := target.health;
    emptied := weapon.IsTurretEmpty();
    assert emptied;
    weapon.Update(1.5);
    reloaded := weapon.currentProjectileLoaded;
  }

  /** With one life left, two end-reaches leave zero lives and call `GameOver` twice. */
  method LastLifeReachedTwice() returns (lives: int32, gameOvers: nat)
    ensures lives == 0 && gameOvers == 2
  {
    var level := new LevelManager(1);
    level.Start();
    level.ReduceLives();
    level.ReduceLives();
    lives, gameOvers := level.TotalLives, level.gameOverCalls;
  }
}
