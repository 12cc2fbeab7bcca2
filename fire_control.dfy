/**
 * The time gate of the fire controller (`WeaponProjectile.Update` in
 * Code/WeaponProjectile.cs) on values: whether a tick launches and what the
 * next attack time becomes. The `WeaponProjectile` class performs the same
 * decision on its own state; the lemmas here are about runs of many ticks.
 */
module FireControl {

  /** The outcome of one tick's fire check. */
  datatype Gate = Gate(launch: bool, nextAttackTime: real)

  /**
   * One tick at time `now`. A launch needs the gate to be open (`now` strictly
   * after the next attack time), a target, a loaded projectile and a target
   * with positive health; whenever the gate is open the cooldown is re-armed
   * from `now`, launch or not.
   */
  function Decide(now: real, nextAttackTime: real, delayPerShot: real,
                  hasTarget: bool, loaded: bool, targetHealth: real): (g: Gate)
    ensures g.launch <==> now > nextAttackTime && hasTarget && loaded && targetHealth > 0.0
    ensures now > nextAttackTime ==> g.nextAttackTime == now + delayPerShot
    ensures now <= nextAttackTime ==> !g.launch && g.nextAttackTime == nextAttackTime
  {
    if now > nextAttackTime then
      Gate(hasTarget && loaded && targetHealth > 0.0, now + delayPerShot)
    else
      Gate(false, nextAttackTime)
  }

  /** What one tick sees: the time, whether the turret has a target, and that target's health. */
  datatype Tick = Tick(now: real, hasTarget: bool, targetHealth: real)

  /**
   * The times at which a fire controller launches over a run of ticks,
   * starting from next attack time `next`. The controller reloads before its
   * fire check, so the check always sees a loaded projectile.
   */
  function LaunchTimes(next: real, delayPerShot: real, ticks: seq<Tick>): seq<real>
    decreases |ticks|
  {
    if ticks == [] then []
    else
      var t := ticks[0];
      var g := Decide(t.now, next, delayPerShot, t.hasTarget, true, t.targetHealth);
      (if g.launch then [t.now] else []) + LaunchTimes(g.nextAttackTime, delayPerShot, ticks[1..])
  }

  /** The next attack time after a run of ticks. */
  function NextAfter(next: real, delayPerShot: real, ticks: seq<Tick>): real
    decreases |ticks|
  {
    if ticks == [] then next
    else
      var t := ticks[0];
      NextAfter(Decide(t.now, next, delayPerShot, t.hasTarget, true, t.targetHealth).nextAttackTime,
                delayPerShot, ticks[1..])
  }

  /** With a non-negative delay the next attack time never moves backwards. */
  lemma {:induction false} NextAttackTimeNeverDecreases(next: real, delayPerShot: real, ticks: seq<Tick>)
    requires delayPerShot >= 0.0
    ensures NextAfter(next, delayPerShot, ticks) >= next
    decreases |ticks|
  {
    if ticks != [] {
      var t := ticks[0];
      var g := Decide(t.now, next, delayPerShot, t.hasTarget, true, t.targetHealth);
      NextAttackTimeNeverDecreases(g.nextAttackTime, delayPerShot, ticks[1..]);
    }
  }

  /** Every launch time is after `next`, and any two are more than `delayPerShot` apart. */
  ghost predicate SpacedAfter(times: seq<real>, next: real, delayPerShot: real)
  {
    && (forall i :: 0 <= i < |times| ==> times[i] > next)
    && (forall i, j :: 0 <= i < j < |times| ==> times[j] > times[i] + delayPerShot)
  }

  /**
   * Cooldown over a whole run: every launch comes strictly after the initial
   * next attack time, and any two launches are more than `delayPerShot`
   * apart, whatever the order of the clock readings. Skipped shots (no
   * target, dead target) re-arm the gate too, so they can only push later
   * launches further out.
   */
  lemma {:induction false} LaunchesAreSpacedByDelay(next: real, delayPerShot: real, ticks: seq<Tick>)
    requires delayPerShot >= 0.0
    ensures SpacedAfter(LaunchTimes(next, delayPerShot, ticks), next, delayPerShot)
    decreases |ticks|
  {
    if ticks != [] {
      var t := ticks[0];
      var g := Decide(t.now, next, delayPerShot, t.hasTarget, true, t.targetHealth);
      var rest := LaunchTimes(g.nextAttackTime, delayPerShot, ticks[1..]);
      LaunchesAreSpacedByDelay(g.nextAttackTime, delayPerShot, ticks[1..]);
      assert SpacedAfter(rest, g.nextAttackTime, delayPerShot);
      assert g.nextAttackTime >= next;
      if g.launch {
        var all := [t.now] + rest;
        assert LaunchTimes(next, delayPerShot, ticks) == all;
        assert g.nextAttackTime == t.now + delayPerShot;
        forall i, j | 0 <= i < j < |all|
          ensures all[j] > all[i] + delayPerShot
        {
          assert all[j] == rest[j - 1];
          if i > 0 {
            assert all[i] == rest[i - 1];
          }
        }
        forall i | 0 <= i < |all|
          ensures all[i] > next
        {
          if i > 0 {
            assert all[i] == rest[i - 1];
          }
        }
      } else {
        assert LaunchTimes(next, delayPerShot, ticks) == rest;
      }
    }
  }
}
