/**
 * The turret (`Turret` in Code/Weapon.cs): the list of enemies inside its
 * range, kept by the trigger-enter and trigger-exit signals, the target
 * chosen from it every frame, and the rotation toward that target.
 */
module Weapon {
  import opened Wrappers
  import opened EnemyList
  import opened Enemies

  /** The reference the game code stores for an optional target: null when there is none. */
  function Nullable(o: Option<Enemy>): Enemy?
  {
    match o
    case None => null
    case Some(x) => x
  }

  class Turret {
    /** The serialized `attackRange`; the collider radius it sets is engine plumbing. */
    const attackRange: real
    var gameStarted: bool
    /** `_enemies`, in order of arrival, duplicates included. */
    var enemies: seq<Enemy>
    var currentEnemyTarget: Enemy?
    /**
     * The enemy whose position the turret was last turned to face. The
     * rotation snaps fully in one frame, so the angle itself is abstracted
     * to the enemy it points at.
     */
    var aimedAt: Enemy?

    /**
     * The component as created. The game leaves `_enemies` null until `Start`;
     * the empty list here relies on the engine calling `Start` before any
     * trigger signal reaches the turret.
     */
    constructor (attackRange: real)
      ensures this.attackRange == attackRange
      ensures !gameStarted && enemies == [] && currentEnemyTarget == null && aimedAt == null
    {
      this.attackRange := attackRange;
      gameStarted := false;
      enemies := [];
      currentEnemyTarget := null;
      aimedAt := null;
    }

    /** `Start`: marks the game as started and begins with no enemy in range. */
    method Start()
      modifies this`gameStarted, this`enemies
      ensures gameStarted && enemies == []
    {
      gameStarted := true;
      enemies := [];
    }

    /** `Update`: pick the target, then turn toward it. */
    method Update()
      modifies this`currentEnemyTarget, this`aimedAt
      ensures currentEnemyTarget == Nullable(Target(enemies))
      ensures aimedAt == if enemies == [] then old(aimedAt) else enemies[0]
    {
      GetCurrentEnemyTarget();
      RotateTowardsTarget();
    }

    /**
     * `GetCurrentEnemyTarget`: the first enemy in the list, or null when the
     * list is empty. The list itself is left as it is (only the target field
     * is in the frame).
     */
    method GetCurrentEnemyTarget()
      modifies this`currentEnemyTarget
      ensures currentEnemyTarget == Nullable(Target(enemies))
      ensures currentEnemyTarget == null <==> enemies == []
      ensures currentEnemyTarget != null ==> currentEnemyTarget == enemies[0] && currentEnemyTarget in enemies
    {
      if |enemies| <= 0 {
        currentEnemyTarget := null;
        return;
      }
      currentEnemyTarget := enemies[0];
    }

    /** `RotateTowardsTarget`: a no-op without a target, otherwise the turret faces it. */
    method RotateTowardsTarget()
      modifies this`aimedAt
      ensures currentEnemyTarget == null ==> aimedAt == old(aimedAt)
      ensures currentEnemyTarget != null ==> aimedAt == currentEnemyTarget
    {
      if currentEnemyTarget == null {
        return;
      }
      aimedAt := currentEnemyTarget;
    }

    /** `OnTriggerEnter2D`: an "Enemy"-tagged collider's enemy is appended, even if already listed. */
    method OnTriggerEnter2D(other: Collider<Enemy>)
      modifies this`enemies
      ensures enemies == OnEnter(old(enemies), other)
      ensures IsEnemyTagged(other) ==> enemies == old(enemies) + [other.component]
      ensures !IsEnemyTagged(other) ==> enemies == old(enemies)
    {
      if other.tag == "Enemy" {
        var newEnemy := other.component;
        enemies := enemies + [newEnemy];
      }
    }

    /** `OnTriggerExit2D`: an "Enemy"-tagged collider's enemy loses its first occurrence, if listed. */
    method OnTriggerExit2D(other: Collider<Enemy>)
      modifies this`enemies
      ensures enemies == OnExit(old(enemies), other)
      ensures !IsEnemyTagged(other) || other.component !in old(enemies) ==> enemies == old(enemies)
    {
      if other.tag == "Enemy" {
        var enemy := other.component;
        if enemy in enemies {
          enemies := RemoveFirst(enemies, enemy);
        }
      }
    }
  }
}
