/**
 * A record of the calls the projectile's impact sets off. Each callee
 * records its own call as it is made, so the order in the record is the
 * order of the calls themselves.
 */
module Calls {

  /** The calls of an impact, naming the objects involved. */
  datatype Call =
    | OnEnemyHit(enemy: object, damage: real)
    | DealDamage(enemy: object, amount: real)
    | ResetTurretProjectile(owner: object)
    | ReturnToPool(projectile: object)

  /** The calls made so far, oldest first. */
  class CallLog {
    var calls: seq<Call>

    constructor ()
      ensures calls == []
    {
      calls := [];
    }

    method Record(c: Call)
      modifies this`calls
      ensures calls == old(calls) + [c]
    {
      calls := calls + [c];
    }
  }
}
