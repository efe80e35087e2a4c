/**
 * Encounters that combine several controllers acting on one player.
 */
module Scenes {
  import Player
  import PatrolEnemy
  import Destructible

  /**
   * An enemy's windup lands on the player, then a hit breaks a prop that
   * drops both restores. Only the player's pools and removal count move;
   * its dash and attack gates are as they were and its invariant still
   * holds.
   */
  method HitThenBreak(e: PatrolEnemy.MEnemyController, d: Destructible.Destructibles, damage: int)
    requires e.Valid() && e.attackStage == PatrolEnemy.WindingUp
    requires e.player != null && e.player.Valid() && d.player == e.player
    requires d.currentHealth <= damage
    requires d.staminaDropChance >= 0.0 && d.healthDropChance >= 0.0
    modifies e, d, e.player
    ensures e.Valid() && e.attackStage == PatrolEnemy.AttackCoolingDown
    ensures var p := e.player;
            && p.Valid()
            && p.currentHealth == Player.Restored(old(p.currentHealth) - e.attackDamage, d.healthRestore, p.maxHealth)
            && p.currentStamina == Player.Restored(old(p.currentStamina), d.staminaRestore, p.maxStamina)
            && p.canDash == old(p.canDash) && p.dashStage == old(p.dashStage)
            && p.canAttack == old(p.canAttack) && p.velocity == old(p.velocity)
    ensures d.removalsScheduled == old(d.removalsScheduled) + 1
  {
    e.AttackWindupEnd();
    d.TakeDamage(damage, 0.0, 0.0);
  }

  /**
   * The player's attack reaches a damageable prop whose controller is this
   * player, and the hit breaks it. The fan-out issues exactly one hit of
   * attackDamage on the prop, and the prop's drops restore the attacker's
   * own pools during that attack; the attack gate closes and the dash gate
   * is as it was.
   */
  method AttackBreaksProp(p: Player.PlayerController, d: Destructible.Destructibles, id: nat)
    requires p.Valid() && p.canAttack && d.player == p
    requires d.currentHealth <= p.attackDamage
    requires d.staminaDropChance >= 0.0 && d.healthDropChance >= 0.0
    modifies p, d
    ensures p.Valid() && !p.canAttack && p.attackCoolingDown
    ensures p.lastAttackFacing == Player.GetAttackAnimation(p.moveX, p.moveY)
    ensures p.currentHealth == Player.Restored(old(p.currentHealth), d.healthRestore, p.maxHealth)
    ensures p.currentStamina == Player.Restored(old(p.currentStamina), d.staminaRestore, p.maxStamina)
    ensures p.canDash == old(p.canDash) && p.dashStage == old(p.dashStage) && p.velocity == old(p.velocity)
    ensures d.currentHealth == old(d.currentHealth) - p.attackDamage
    ensures d.removalsScheduled == old(d.removalsScheduled) + 1
  {
    var hits := p.Attack(true, [Player.Collider(id, true)]);
    assert hits == [Player.Hit(id, p.attackDamage)];
    d.TakeDamage(hits[0].damage, 0.0, 0.0);
  }
}
