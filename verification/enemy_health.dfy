/**
 The health of one enemy. Health is an exact real number; the enemy carries a
 write-once dead flag that guards both the damage path and the death path, and
 the death notification it raises is what the spawner's bookkeeping listens to.
 */
module EnemyHealth {

  /** The state of one enemy: its current health and whether it has died. */
  datatype Health = Health(current: real, isDead: bool)

  /** The result of one damage call: the new state and whether the death notification was raised. */
  datatype Hit = Hit(health: Health, deathRaised: bool)

  /** The state an enemy has once its start-up has run. */
  function Spawned(maxHealth: real): (h: Health)
    ensures h.current == maxHealth
    ensures !h.isDead
  {
    Health(maxHealth, false)
  }

  /** The death path: marks the enemy dead and raises the notification, unless it is already dead. */
  function Die(h: Health): (r: Hit)
    ensures r.health.isDead
    ensures r.deathRaised <==> !h.isDead
    ensures r.health.current == h.current
    ensures h.isDead ==> r.health == h
  {
    if h.isDead then Hit(h, false) else Hit(h.(isDead := true), true)
  }

  /** One damage call of `amount` (any real: the source does not validate it). */
  function TakeDamage(h: Health, amount: real): (r: Hit)
    ensures h.isDead ==> r == Hit(h, false)
    ensures !h.isDead ==> r.health.current == h.current - amount
    ensures r.health.isDead <==> h.isDead || h.current - amount <= 0.0
    ensures r.deathRaised <==> !h.isDead && r.health.isDead
  {
    if h.isDead then
      Hit(h, false)
    else
      var damaged := h.(current := h.current - amount);
      if damaged.current <= 0.0 then Die(damaged) else Hit(damaged, false)
  }

  /** The outcome of a sequence of damage calls: the final state and how many death notifications were raised. */
  datatype Outcome = Outcome(health: Health, deaths: nat)

  function TakeDamageAll(h: Health, amounts: seq<real>): Outcome
    decreases |amounts|
  {
    if |amounts| == 0 then
      Outcome(h, 0)
    else
      var hit := TakeDamage(h, amounts[0]);
      var rest := TakeDamageAll(hit.health, amounts[1..]);
      Outcome(rest.health, rest.deaths + if hit.deathRaised then 1 else 0)
  }

  /** Reference condition: starting from `current`, the running total of damage reaches health zero or below. */
  predicate EverLethal(current: real, amounts: seq<real>)
    decreases |amounts|
  {
    |amounts| > 0 && (current - amounts[0] <= 0.0 || EverLethal(current - amounts[0], amounts[1..]))
  }

  function Sum(amounts: seq<real>): real
    decreases |amounts|
  {
    if |amounts| == 0 then 0.0 else amounts[0] + Sum(amounts[1..])
  }

  /** A dead enemy ignores every further damage call: nothing changes and nothing is raised. */
  lemma {:induction false} DeadEnemyIgnoresDamage(h: Health, amounts: seq<real>)
    requires h.isDead
    ensures TakeDamageAll(h, amounts) == Outcome(h, 0)
    decreases |amounts|
  {
    if |amounts| > 0 {
      DeadEnemyIgnoresDamage(h, amounts[1..]);
    }
  }

  /**
   Over any sequence of damage calls the death notification is raised at most
   once, the dead flag is never cleared, and the enemy ends dead exactly when it
   started dead or raised its notification.
   */
  lemma {:induction false} DeathRaisedAtMostOnce(h: Health, amounts: seq<real>)
    ensures TakeDamageAll(h, amounts).deaths <= 1
    ensures h.isDead ==> TakeDamageAll(h, amounts).health.isDead
    ensures TakeDamageAll(h, amounts).health.isDead <==> h.isDead || TakeDamageAll(h, amounts).deaths == 1
    decreases |amounts|
  {
    if |amounts| > 0 {
      var hit := TakeDamage(h, amounts[0]);
      DeathRaisedAtMostOnce(hit.health, amounts[1..]);
      if hit.deathRaised {
        DeadEnemyIgnoresDamage(hit.health, amounts[1..]);
      }
    }
  }

  /**
   A live enemy raises its death notification (exactly once) precisely when its
   health, reduced by the running total of damage, reaches zero or below; if it
   never does, the enemy survives with its health reduced by the whole total.
   */
  lemma {:induction false} DeathRaisedIffLethal(h: Health, amounts: seq<real>)
    requires !h.isDead
    ensures TakeDamageAll(h, amounts).deaths == 1 <==> EverLethal(h.current, amounts)
    ensures !EverLethal(h.current, amounts) ==>
              TakeDamageAll(h, amounts).health == Health(h.current - Sum(amounts), false)
    decreases |amounts|
  {
    if |amounts| > 0 {
      var hit := TakeDamage(h, amounts[0]);
      if hit.deathRaised {
        DeadEnemyIgnoresDamage(hit.health, amounts[1..]);
      } else {
        DeathRaisedIffLethal(hit.health, amounts[1..]);
      }
    }
  }
}
