/**
 * A destructible prop: a 3-HP pool and, on destruction, two independent drop
 * trials that restore the player's stamina and health.
 */
module Destructible {
  import Player

  /** Which of the two restores a destruction grants. */
  datatype Drops = Drops(stamina: bool, health: bool)

  /**
   * The two drop trials: each fires when its own sample is at most its
   * chance. The stamina trial looks only at the first sample and the health
   * trial only at the second.
   */
  function RollDrops(staminaSample: real, healthSample: real, staminaDropChance: real, healthDropChance: real)
    : (d: Drops)
    ensures d.stamina <==> staminaSample <= staminaDropChance
    ensures d.health <==> healthSample <= healthDropChance
  {
    Drops(staminaSample <= staminaDropChance, healthSample <= healthDropChance)
  }

  /**
   * The comparison is `<=`: a chance of 1.0 fires for every sample in [0, 1],
   * and a chance of 0.0 still fires on a sample of exactly 0.
   */
  lemma EdgeChances(sample: real, other: real, chance: real)
    requires 0.0 <= sample <= 1.0
    ensures RollDrops(sample, other, 1.0, chance).stamina
    ensures RollDrops(other, sample, chance, 1.0).health
    ensures RollDrops(sample, other, 0.0, chance).stamina <==> sample == 0.0
    ensures RollDrops(other, sample, chance, 0.0).health <==> sample == 0.0
  {
  }

  class Destructibles {
    const maxHealth: int := 3
    const staminaRestore: int
    const healthRestore: int
    const staminaDropChance: real
    const healthDropChance: real
    /** The player's controller; null when the player object found by Start has none. */
    const player: Player.PlayerController?

    var currentHealth: int
    /** How many times Die scheduled the removal of the game object. */
    var removalsScheduled: nat

    /** The inspector values, then Start: full health. */
    constructor (staminaRestore: int, healthRestore: int, staminaDropChance: real, healthDropChance: real,
                 player: Player.PlayerController?)
      ensures this.staminaRestore == staminaRestore && this.healthRestore == healthRestore
      ensures this.staminaDropChance == staminaDropChance && this.healthDropChance == healthDropChance
      ensures this.player == player
      ensures currentHealth == 3 && removalsScheduled == 0
    {
      this.staminaRestore := staminaRestore;
      this.healthRestore := healthRestore;
      this.staminaDropChance := staminaDropChance;
      this.healthDropChance := healthDropChance;
      this.player := player;
      currentHealth := maxHealth;
      removalsScheduled := 0;
    }

    /**
     * Health drops by exactly `damage`. When it reaches 0 or less, the drops
     * are rolled on the two samples and then the prop is removed; a hit on a
     * prop that is already down rolls and removes again.
     */
    method TakeDamage(damage: int, staminaSample: real, healthSample: real)
      requires player != null ==> player.Valid()
      modifies this, player
      ensures player != null ==> player.Valid()
      ensures currentHealth == old(currentHealth) - damage
      ensures removalsScheduled == old(removalsScheduled) + (if currentHealth <= 0 then 1 else 0)
      ensures currentHealth > 0 && player != null ==> unchanged(player)
      ensures player != null ==> Player.OnlyPoolsChanged(player)
      ensures currentHealth <= 0 && player != null ==>
                DropsApplied(RollDrops(staminaSample, healthSample, staminaDropChance, healthDropChance),
                             old(player.currentStamina), old(player.currentHealth))
    {
      currentHealth := currentHealth - damage;
      if currentHealth <= 0 {
        HandleDrops(staminaSample, healthSample);
        Die();
      }
    }

    /**
     * The player's two pools after the drops `d`, from the given stamina and
     * health: each granted restore was applied once and each other pool is as
     * it was. The rest of the player is framed by Player.OnlyPoolsChanged.
     */
    ghost predicate DropsApplied(d: Drops, stamina: int, health: int)
      requires player != null
      reads player
    {
      && player.currentStamina == (if d.stamina then Player.Restored(stamina, staminaRestore, player.maxStamina) else stamina)
      && player.currentHealth == (if d.health then Player.Restored(health, healthRestore, player.maxHealth) else health)
    }

    /**
     * The drop trials against the player's controller: none without one;
     * otherwise RestoreStamina when the first sample is at most
     * staminaDropChance, then RestoreHealth when the second sample is at most
     * healthDropChance.
     */
    method HandleDrops(staminaSample: real, healthSample: real)
      requires player != null ==> player.Valid()
      modifies player
      ensures player != null ==> player.Valid()
      ensures player != null ==>
                && DropsApplied(RollDrops(staminaSample, healthSample, staminaDropChance, healthDropChance),
                                old(player.currentStamina), old(player.currentHealth))
                && Player.OnlyPoolsChanged(player)
    {
      if player != null {
        if staminaSample <= staminaDropChance {
          player.RestoreStamina(staminaRestore);
        }
        if healthSample <= healthDropChance {
          player.RestoreHealth(healthRestore);
        }
      }
    }

    /** The prop's removal is scheduled. */
    method Die()
      modifies this`removalsScheduled
      ensures removalsScheduled == old(removalsScheduled) + 1
    {
      removalsScheduled := removalsScheduled + 1;
    }
  }
}
