/** The player's vitals: health clamped to [0, maxHealth], and the speed
    boost, a two-state machine (off, or on with time left) over the flag, the
    current speed and the boost timer. The sprite, its position and its
    rotation are not part of this model. */
module Vitals {

  const MaxHealth: int := 100
  const BaseSpeed: real := 300.0
  /** A boosted player moves this many times faster than the base speed. */
  const BoostFactor: real := 1.5
  /** Seconds a speed boost lasts. */
  const BoostDuration: real := 5.0

  /** Health after taking `damage`: lowered by the damage, but never below zero
      (the larger of zero and health - damage). */
  function AfterDamage(health: int, damage: int): (r: int)
    ensures r >= 0 && r >= health - damage
    ensures r == 0 || r == health - damage
    ensures 0 <= damage && 0 <= health ==> r <= health
  {
    if health - damage < 0 then 0 else health - damage
  }

  /** Health after healing by `amount`: raised by the amount, but never above
      `cap` (the smaller of cap and health + amount). */
  function AfterHeal(health: int, amount: int, cap: int): (r: int)
    ensures r <= cap && r <= health + amount
    ensures r == cap || r == health + amount
    ensures 0 <= amount && health <= cap ==> health <= r
  {
    if health + amount > cap then cap else health + amount
  }

  /** Two hits in a row hurt like one hit of their sum: clamping at zero
      loses nothing that a later hit would have taken. */
  lemma DamageAccumulates(health: int, a: int, b: int)
    requires 0 <= health && 0 <= a && 0 <= b
    ensures AfterDamage(AfterDamage(health, a), b) == AfterDamage(health, a + b)
  {
  }

  class Player {
    var speed: real
    var baseSpeed: real
    var health: int
    var maxHealth: int
    var speedBoostTimer: real
    var hasSpeedBoost: bool

    /** Health stays within [0, maxHealth]; the speed is the base speed unless
        a boost is running, when it is BoostFactor times the base; a running
        boost has time left. */
    ghost predicate Valid()
      reads this
    {
      maxHealth == MaxHealth && baseSpeed == BaseSpeed &&
      0 <= health <= maxHealth &&
      speed == (if hasSpeedBoost then baseSpeed * BoostFactor else baseSpeed) &&
      (hasSpeedBoost ==> speedBoostTimer > 0.0)
    }

    constructor ()
      ensures Valid()
      ensures health == MaxHealth && speed == BaseSpeed
      ensures !hasSpeedBoost && speedBoostTimer == 0.0
    {
      baseSpeed := BaseSpeed;
      speed := baseSpeed;
      health := 100;
      maxHealth := 100;
      speedBoostTimer := 0.0;
      hasSpeedBoost := false;
    }

    /** A new session: full health, base speed, no boost. */
    method Reset()
      modifies this
      ensures health == MaxHealth && speed == baseSpeed
      ensures !hasSpeedBoost && speedBoostTimer == 0.0
      ensures baseSpeed == old(baseSpeed) && maxHealth == old(maxHealth)
      ensures old(Valid()) ==> Valid()
    {
      health := 100;
      speed := baseSpeed;
      speedBoostTimer := 0.0;
      hasSpeedBoost := false;
    }

    /** One frame of the boost machine: without a boost nothing changes; with
        one the timer runs down by dt and, once it reaches zero, the boost ends
        and the base speed returns. */
    method Update(dt: real)
      modifies this
      ensures speedBoostTimer == if old(hasSpeedBoost) then old(speedBoostTimer) - dt else old(speedBoostTimer)
      ensures hasSpeedBoost <==> old(hasSpeedBoost) && speedBoostTimer > 0.0
      ensures speed == if old(hasSpeedBoost) && !hasSpeedBoost then baseSpeed else old(speed)
      ensures health == old(health) && baseSpeed == old(baseSpeed) && maxHealth == old(maxHealth)
      ensures old(Valid()) ==> Valid()
    {
      if hasSpeedBoost {
        speedBoostTimer := speedBoostTimer - dt;
        if speedBoostTimer <= 0.0 {
          hasSpeedBoost := false;
          speed := baseSpeed;
        }
      }
    }

    method TakeDamage(damage: int)
      modifies this
      ensures health == AfterDamage(old(health), damage)
      ensures speed == old(speed) && baseSpeed == old(baseSpeed) && maxHealth == old(maxHealth)
      ensures hasSpeedBoost == old(hasSpeedBoost) && speedBoostTimer == old(speedBoostTimer)
      ensures old(Valid()) && damage >= 0 ==> Valid()
    {
      health := health - damage;
      if health < 0 {
        health := 0;
      }
    }

    method Heal(amount: int)
      modifies this
      ensures health == AfterHeal(old(health), amount, maxHealth)
      ensures speed == old(speed) && baseSpeed == old(baseSpeed) && maxHealth == old(maxHealth)
      ensures hasSpeedBoost == old(hasSpeedBoost) && speedBoostTimer == old(speedBoostTimer)
      ensures old(Valid()) && amount >= 0 ==> Valid()
    {
      health := health + amount;
      if health > maxHealth {
        health := maxHealth;
      }
    }

    /** Start (or restart) a boost: whatever the previous state, the boost is
        on at BoostFactor times the base speed with the full duration left;
        a second boost does not add to the first. */
    method ApplySpeedBoost()
      modifies this
      ensures hasSpeedBoost && speed == baseSpeed * BoostFactor && speedBoostTimer == BoostDuration
      ensures health == old(health) && baseSpeed == old(baseSpeed) && maxHealth == old(maxHealth)
      ensures old(Valid()) ==> Valid()
    {
      hasSpeedBoost := true;
      speed := baseSpeed * 1.5;
      speedBoostTimer := 5.0;
    }
  }
}
