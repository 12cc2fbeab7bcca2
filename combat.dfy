/**
 * The fire controller (`WeaponProjectile` in Code/WeaponProjectile.cs), the
 * projectile it loads and launches (`Projectile` in Code/Projectile.cs), and
 * the pool both draw on. The two classes refer to each other (the controller
 * holds its loaded projectile, the projectile holds its owner), so they share
 * one module.
 */
module Combat {
  import opened Enemies
  import opened Weapon
  import opened FireControl
  import Calls

  /**
   * The object pool, reduced to the set of instances that are free for
   * reuse. Acquiring hands out a free instance or a new one; releasing marks
   * an instance free again and does not reset it.
   */
  class ObjectPooler {
    var inactive: set<Projectile>
    /** The serialized impact distance of the pooled projectile prefab. */
    const minDistanceToDealDamage: real

    constructor (minDistanceToDealDamage: real)
      ensures inactive == {} && this.minDistanceToDealDamage == minDistanceToDealDamage
    {
      inactive := {};
      this.minDistanceToDealDamage := minDistanceToDealDamage;
    }

    /** `GetInstanceFromPool`: an instance that was free, or a new one; it is no longer free. */
    method GetInstanceFromPool() returns (p: Projectile)
      modifies this`inactive
      ensures p in old(inactive) || fresh(p)
      ensures fresh(p) ==> p.minDistanceToDealDamage == minDistanceToDealDamage
      ensures inactive == old(inactive) - {p}
    {
      if inactive != {} {
        p :| p in inactive;
        inactive := inactive - {p};
      } else {
        p := new Projectile(minDistanceToDealDamage);
      }
    }

    /** `ObjectPooler.ReturnToPool`: the instance is free again, with its fields as they are; the call is recorded. */
    method ReturnToPool(p: Projectile, log: Calls.CallLog)
      modifies this`inactive, log`calls
      ensures inactive == old(inactive) + {p}
      ensures log.calls == old(log.calls) + [Calls.ReturnToPool(p)]
    {
      log.Record(Calls.ReturnToPool(p));
      inactive := inactive + {p};
    }
  }

  class Projectile {
    /** The serialized `minDistanceToDealDamage`. */
    const minDistanceToDealDamage: real
    /** `TurretOwner`: the fire controller that loaded this projectile. */
    var owner: WeaponProjectile?
    var damage: real
    /** `_enemyTarget`: null while loaded, the enemy once launched. */
    var target: Enemy?

    constructor (minDistanceToDealDamage: real)
      ensures this.minDistanceToDealDamage == minDistanceToDealDamage
      ensures owner == null && damage == 0.0 && target == null
    {
      this.minDistanceToDealDamage := minDistanceToDealDamage;
      owner := null;
      damage := 0.0;
      target := null;
    }

    /** `SetEnemy`: the target becomes exactly `enemy`; nothing else changes. */
    method SetEnemy(enemy: Enemy?)
      modifies this`target
      ensures target == enemy
    {
      target := enemy;
    }

    /** `ResetProjectile`: the target is cleared (the orientation reset is engine plumbing). */
    method ResetProjectile()
      modifies this`target
      ensures target == null
    {
      target := null;
    }

    /**
     * `Update` with the impact branch of `MoveProjectile`. Without a target
     * nothing happens. With one, the engine moves the projectile and
     * `distanceToTarget` is what remains; strictly below the threshold the
     * projectile announces the hit, damages the target, clears its owner's
     * loaded slot and returns to the pool, in that order. It does not clear
     * its own target. The engine only ticks projectiles that are out of the
     * pool, and a projectile with a target was loaded, so it has an owner.
     * The static return goes to the pool the projectile came from, which is
     * its owner's pool; `pool` stands for that one.
     */
    method Update(distanceToTarget: real, pool: ObjectPooler, log: Calls.CallLog)
      requires this !in pool.inactive
      requires target != null ==> owner != null
      requires owner != null ==> pool == owner.pooler
      modifies target, (if owner == null then {} else {owner})`currentProjectileLoaded, pool`inactive, log`calls
      ensures target == old(target) && owner == old(owner) && damage == old(damage)
      ensures target != null && distanceToTarget < minDistanceToDealDamage ==>
        && target.health == old(target.health) - damage
        && owner.currentProjectileLoaded == null
        && pool.inactive == old(pool.inactive) + {this}
        && log.calls == old(log.calls) + [Calls.OnEnemyHit(target, damage), Calls.DealDamage(target, damage),
                                          Calls.ResetTurretProjectile(owner), Calls.ReturnToPool(this)]
      ensures !(target != null && distanceToTarget < minDistanceToDealDamage) ==>
        && (target != null ==> target.health == old(target.health))
        && (owner != null ==> owner.currentProjectileLoaded == old(owner.currentProjectileLoaded))
        && pool.inactive == old(pool.inactive)
        && log.calls == old(log.calls)
    {
      if target != null {
        MoveProjectile(distanceToTarget, pool, log);
      }
    }

    /** The impact branch of `MoveProjectile`, given the distance left after the move. */
    method MoveProjectile(distanceToTarget: real, pool: ObjectPooler, log: Calls.CallLog)
      requires target != null && owner != null
      requires pool == owner.pooler
      modifies target, owner`currentProjectileLoaded, pool`inactive, log`calls
      ensures distanceToTarget < minDistanceToDealDamage ==>
        && target.health == old(target.health) - damage
        && owner.currentProjectileLoaded == null
        && pool.inactive == old(pool.inactive) + {this}
        && log.calls == old(log.calls) + [Calls.OnEnemyHit(target, damage), Calls.DealDamage(target, damage),
                                          Calls.ResetTurretProjectile(owner), Calls.ReturnToPool(this)]
      ensures distanceToTarget >= minDistanceToDealDamage ==>
        && target.health == old(target.health)
        && owner.currentProjectileLoaded == old(owner.currentProjectileLoaded)
        && pool.inactive == old(pool.inactive)
        && log.calls == old(log.calls)
    {
      if distanceToTarget < minDistanceToDealDamage {
        log.Record(Calls.OnEnemyHit(target, damage));
        target.DealDamage(damage, log);
        owner.ResetTurretProjectile(log);
        pool.ReturnToPool(this, log);
      }
    }
  }

  class WeaponProjectile {
    /** The serialized `damage` and `delayBtwAttacks`. */
    const damage: real
    const delayBtwAttacks: real
    const turret: Turret
    const pooler: ObjectPooler

    var Damage: real
    var DelayPerShot: real
    var nextAttackTime: real
    var currentProjectileLoaded: Projectile?

    /** The component as created, before `Start`; C# fields start at zero and null. */
    constructor (turret: Turret, pooler: ObjectPooler, damage: real, delayBtwAttacks: real)
      ensures this.turret == turret && this.pooler == pooler
      ensures this.damage == damage && this.delayBtwAttacks == delayBtwAttacks
      ensures Damage == 0.0 && DelayPerShot == 0.0 && nextAttackTime == 0.0
      ensures currentProjectileLoaded == null
    {
      this.turret := turret;
      this.pooler := pooler;
      this.damage := damage;
      this.delayBtwAttacks := delayBtwAttacks;
      Damage := 0.0;
      DelayPerShot := 0.0;
      nextAttackTime := 0.0;
      currentProjectileLoaded := null;
    }

    /** `Start`: copy the serialized settings and load the first projectile. */
    method Start()
      modifies this`Damage, this`DelayPerShot, this`currentProjectileLoaded, pooler`inactive, pooler.inactive
      ensures Damage == damage && DelayPerShot == delayBtwAttacks
      ensures Loaded(currentProjectileLoaded)
      ensures currentProjectileLoaded in old(pooler.inactive) || fresh(currentProjectileLoaded)
      ensures fresh(currentProjectileLoaded) ==>
        currentProjectileLoaded.minDistanceToDealDamage == pooler.minDistanceToDealDamage
      ensures pooler.inactive == old(pooler.inactive) - {currentProjectileLoaded}
      ensures forall q :: q in old(pooler.inactive) && q != currentProjectileLoaded ==> unchanged(q)
    {
      Damage := damage;
      DelayPerShot := delayBtwAttacks;
      LoadProjectile();
    }

    /**
     * A projectile freshly loaded by this controller: taken from the pool,
     * owned by this controller, without a target, carrying the current damage.
     */
    ghost predicate Loaded(p: Projectile?)
      reads this, p, pooler
    {
      && p != null
      && p.owner == this && p.target == null && p.damage == Damage
      && p !in pooler.inactive
    }

    /** `LoadProjectile`: take an instance from the pool and prepare it. */
    method LoadProjectile()
      modifies this`currentProjectileLoaded, pooler`inactive, pooler.inactive
      ensures Loaded(currentProjectileLoaded)
      ensures currentProjectileLoaded in old(pooler.inactive) || fresh(currentProjectileLoaded)
      ensures fresh(currentProjectileLoaded) ==>
        currentProjectileLoaded.minDistanceToDealDamage == pooler.minDistanceToDealDamage
      ensures pooler.inactive == old(pooler.inactive) - {currentProjectileLoaded}
      ensures forall q :: q in old(pooler.inactive) && q != currentProjectileLoaded ==> unchanged(q)
    {
      var newInstance := pooler.GetInstanceFromPool();
      currentProjectileLoaded := newInstance;
      currentProjectileLoaded.owner := this;
      currentProjectileLoaded.ResetProjectile();
      currentProjectileLoaded.damage := Damage;
    }

    /** `IsTurretEmpty`. */
    predicate IsTurretEmpty()
      reads this
    {
      currentProjectileLoaded == null
    }

    /** `ResetTurretProjectile`: the loaded slot is emptied, and the call is recorded; called by the projectile on impact. */
    method ResetTurretProjectile(log: Calls.CallLog)
      modifies this`currentProjectileLoaded, log`calls
      ensures currentProjectileLoaded == null
      ensures log.calls == old(log.calls) + [Calls.ResetTurretProjectile(this)]
    {
      log.Record(Calls.ResetTurretProjectile(this));
      currentProjectileLoaded := null;
    }

    /** The turret's target's health as the fire check reads it (unused without a target). */
    function TargetHealth(): real
      reads this, turret, turret.currentEnemyTarget
    {
      if turret.currentEnemyTarget == null then 0.0 else turret.currentEnemyTarget.health
    }

    /**
     * `Update` at time `now`. An empty controller first loads a projectile,
     * so the fire check always finds one. The gate then follows `Decide`: a
     * launch points the loaded projectile at the turret's target without
     * emptying the slot, and an open gate re-arms the cooldown whether or not
     * it launched. A projectile already in flight is therefore re-aimed at the
     * current target by the next launch instead of a new one being loaded.
     */
    method Update(now: real)
      modifies this`nextAttackTime, this`currentProjectileLoaded, pooler`inactive, pooler.inactive,
               currentProjectileLoaded
      ensures currentProjectileLoaded != null
      ensures old(currentProjectileLoaded) != null ==> currentProjectileLoaded == old(currentProjectileLoaded)
      ensures old(currentProjectileLoaded) == null ==>
        && currentProjectileLoaded.owner == this && currentProjectileLoaded.damage == Damage
        && (currentProjectileLoaded in old(pooler.inactive) || fresh(currentProjectileLoaded))
        && pooler.inactive == old(pooler.inactive) - {currentProjectileLoaded}
      ensures old(currentProjectileLoaded) != null ==>
        && pooler.inactive == old(pooler.inactive)
        && currentProjectileLoaded.owner == old(currentProjectileLoaded.owner)
        && currentProjectileLoaded.damage == old(currentProjectileLoaded.damage)
      ensures forall q :: q in old(pooler.inactive) && q != currentProjectileLoaded ==> unchanged(q)
      ensures var g := Decide(now, old(nextAttackTime), DelayPerShot,
                              turret.currentEnemyTarget != null, true, TargetHealth());
        && nextAttackTime == g.nextAttackTime
        && (g.launch ==> currentProjectileLoaded.target == turret.currentEnemyTarget)
        && (!g.launch && old(currentProjectileLoaded) == null ==> currentProjectileLoaded.target == null)
        && (!g.launch && old(currentProjectileLoaded) != null ==>
              currentProjectileLoaded.target == old(currentProjectileLoaded.target))
    {
      if IsTurretEmpty() {
        LoadProjectile();
      }
      if now > nextAttackTime {
        var target := turret.currentEnemyTarget;
        if target != null && currentProjectileLoaded != null && target.health > 0.0 {
          currentProjectileLoaded.SetEnemy(target);
        }
        nextAttackTime := now + DelayPerShot;
      }
    }
  }
}
