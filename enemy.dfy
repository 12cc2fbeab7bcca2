/**
 * The enemy as the turret chain uses it: an object identified by reference
 * whose health the projectile reduces. The enemy's movement, death and
 * despawn belong to the wider game and are not part of this model.
 */
module Enemies {
  import Calls

  class Enemy {
    /** `EnemyHealth.CurrentHealth`. */
    var health: real

    constructor (health: real)
      ensures this.health == health
    {
      this.health := health;
    }

    /** `EnemyHealth.DealDamage`: the health goes down by the amount dealt, and the call is recorded. */
    method DealDamage(amount: real, log: Calls.CallLog)
      modifies this`health, log`calls
      ensures health == old(health) - amount
      ensures log.calls == old(log.calls) + [Calls.DealDamage(this, amount)]
    {
      log.Record(Calls.DealDamage(this, amount));
      health := health - amount;
    }
  }
}
