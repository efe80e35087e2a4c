/**
 * The two-phase boss: follow and attack gating behind isAlive, isStunned and
 * canAttack, the windup-hit-cooldown attack, the one-shot phase-2 latch with
 * its stun and recovery, direction choice with ±0.5 thresholds, and death.
 */
module Boss {
  import Player

  /** Where the attack coroutine stands: not running, in the 0.3 s windup, or in the cooldown wait. */
  datatype AttackStage = AttackReady | WindingUp | AttackCoolingDown

  /** The last value written to the rigid body's velocity, without the vector arithmetic. */
  datatype Velocity = Zero | TowardPlayer(x: real, y: real)

  /** What a hit does to the boss beyond lowering its health. */
  datatype Outcome = Dies | EntersPhase2 | Survives

  /**
   * The attack animation for the last normalized movement direction: a
   * component must exceed 0.5 in size to count, vertical before horizontal,
   * and the default faces down.
   */
  function GetAttackAnimation(x: real, y: real): (f: Player.Facing)
    ensures f == Player.Up <==> y > 0.5
    ensures f == Player.Down <==> y < -0.5 || (-0.5 <= y <= 0.5 && -0.5 <= x <= 0.5)
    ensures f == Player.Right <==> -0.5 <= y <= 0.5 && x > 0.5
    ensures f == Player.Left <==> -0.5 <= y <= 0.5 && x < -0.5
  {
    if y > 0.5 then Player.Up
    else if y < -0.5 then Player.Down
    else if x > 0.5 then Player.Right
    else if x < -0.5 then Player.Left
    else Player.Down
  }

  /** A product of two non-negative reals is non-negative. */
  lemma ProductNonNegative(a: real, b: real)
    requires 0.0 <= a && 0.0 <= b
    ensures 0.0 <= a * b
  {
  }

  /** A number within ±0.5 has a square of at most 0.25. */
  lemma SquareAtMostQuarter(x: real)
    requires -0.5 <= x <= 0.5
    ensures x * x <= 0.25
  {
    var a, b := 0.5 - x, 0.5 + x;
    ProductNonNegative(a, b);
    assert a * b == 0.25 - x * x;
  }

  /**
   * An exact unit vector always has a component beyond ±0.5, so for it the
   * default is never what picks Down. (A float-normalized direction need not
   * be exactly of length 1, and a near-zero vector normalizes to (0, 0),
   * which does fall to the default.)
   */
  lemma UnitDirectionNeverDefaults(x: real, y: real)
    requires x * x + y * y == 1.0
    ensures GetAttackAnimation(x, y) == Player.Down ==> y < -0.5
  {
    if -0.5 <= y <= 0.5 && -0.5 <= x <= 0.5 {
      SquareAtMostQuarter(x);
      SquareAtMostQuarter(y);
      assert false;
    }
  }

  /**
   * What a hit of `damage` on `health` triggers: death when the new health is
   * at most 0, and otherwise phase 2 only when it is exactly 50 and the latch
   * is still open; a hit that jumps past 50 triggers nothing.
   */
  function DamageOutcome(health: int, damage: int, hasEnteredPhase2: bool): (o: Outcome)
    ensures o == Dies <==> health - damage <= 0
    ensures o == EntersPhase2 <==> health - damage == 50 && !hasEnteredPhase2
  {
    if health - damage <= 0 then Dies
    else if health - damage == 50 && !hasEnteredPhase2 then EntersPhase2
    else Survives
  }

  /** How many times phase 2 starts over a run of hits. */
  function Phase2Starts(health: int, hasEnteredPhase2: bool, damages: seq<int>): (n: nat)
    ensures n <= |damages|
    decreases |damages|
  {
    if damages == [] then 0
    else
      var o := DamageOutcome(health, damages[0], hasEnteredPhase2);
      (if o == EntersPhase2 then 1 else 0)
      + Phase2Starts(health - damages[0], hasEnteredPhase2 || o == EntersPhase2, damages[1..])
  }

  /** Whatever the hits, phase 2 starts at most once, and never once the latch is set. */
  lemma {:induction false} Phase2AtMostOnce(health: int, hasEnteredPhase2: bool, damages: seq<int>)
    ensures Phase2Starts(health, hasEnteredPhase2, damages) <= if hasEnteredPhase2 then 0 else 1
    decreases |damages|
  {
    if damages != [] {
      var o := DamageOutcome(health, damages[0], hasEnteredPhase2);
      Phase2AtMostOnce(health - damages[0], hasEnteredPhase2 || o == EntersPhase2, damages[1..]);
    }
  }

  class FBossController {
    const maxHealth: int
    const detectionRange: real
    const attackRange: real
    const attackDamage: int
    /** The player's Transform reference is set. */
    const playerPresent: bool
    /** The player's controller component; null when the player object has none. */
    const player: Player.PlayerController?

    var currentHealth: int
    var isFollowingPlayer: bool
    var isAlive: bool
    var canAttack: bool
    var attackStage: AttackStage
    var hasEnteredPhase2: bool
    var isStunned: bool
    /** The EnterPhase2 coroutine waits out its recovery. */
    var recovering: bool
    /** How many times moveSpeed has been multiplied by the phase-2 multiplier. */
    var speedBoosts: nat
    var lastMoveX: real
    var lastMoveY: real
    var lastAttackFacing: Player.Facing
    var velocity: Velocity
    /** Update is still called by the engine. */
    var enabled: bool
    /** How many times Die scheduled the removal of the game object. */
    var removalsScheduled: nat

    /**
     * canAttack is false exactly while an attack coroutine runs, which needs a
     * player; the boss is stunned exactly during the phase-2 recovery; the
     * latch accounts for the recovery or the single speed boost; a living
     * boss is ticked by the engine.
     */
    ghost predicate Valid()
      reads this
    {
      && (canAttack <==> attackStage == AttackReady)
      && (attackStage != AttackReady ==> playerPresent)
      && (isStunned <==> recovering)
      && speedBoosts + (if recovering then 1 else 0) == (if hasEnteredPhase2 then 1 else 0)
      && (isAlive <==> enabled)
    }

    /** The inspector values, then Start: full health, alive, phase 1. */
    constructor (maxHealth: int, detectionRange: real, attackRange: real, attackDamage: int,
                 playerPresent: bool, player: Player.PlayerController?)
      ensures Valid()
      ensures this.maxHealth == maxHealth && this.detectionRange == detectionRange
      ensures this.attackRange == attackRange && this.attackDamage == attackDamage
      ensures this.playerPresent == playerPresent && this.player == player
      ensures currentHealth == maxHealth && isAlive && !isFollowingPlayer
      ensures canAttack && !hasEnteredPhase2 && !isStunned && speedBoosts == 0
      ensures velocity == Zero && removalsScheduled == 0
    {
      this.maxHealth := maxHealth;
      this.detectionRange := detectionRange;
      this.attackRange := attackRange;
      this.attackDamage := attackDamage;
      this.playerPresent := playerPresent;
      this.player := player;
      currentHealth := maxHealth;
      isFollowingPlayer := false;
      isAlive := true;
      canAttack, attackStage := true, AttackReady;
      hasEnteredPhase2, isStunned, recovering, speedBoosts := false, false, false, 0;
      lastMoveX, lastMoveY := 0.0, 0.0;
      lastAttackFacing := Player.Down;
      velocity := Zero;
      enabled := true;
      removalsScheduled := 0;
    }

    /**
     * One frame, with the player `distance` away along the normalized
     * direction (dirX, dirY). Nothing happens once dead, nor without the
     * player reference (reading its position fails). Following is recomputed every frame; only
     * a following, unstunned boss moves, and it attacks when in range and
     * allowed; otherwise it stands still.
     */
    method Update(distance: real, dirX: real, dirY: real)
      requires Valid()
      modifies this`isFollowingPlayer, this`velocity, this`lastMoveX, this`lastMoveY,
               this`canAttack, this`attackStage, this`lastAttackFacing
      ensures Valid()
      ensures !old(enabled) || !old(isAlive) || !playerPresent ==> unchanged(this)
      ensures old(isAlive) && playerPresent ==>
                && isFollowingPlayer == (distance <= detectionRange)
                && (isFollowingPlayer && !isStunned ==>
                      velocity == TowardPlayer(dirX, dirY) && lastMoveX == dirX && lastMoveY == dirY)
                && (!(isFollowingPlayer && !isStunned) ==>
                      velocity == Zero && lastMoveX == old(lastMoveX) && lastMoveY == old(lastMoveY))
      ensures var starts := old(isAlive) && playerPresent && distance <= detectionRange && !isStunned
                            && distance <= attackRange && old(canAttack);
              && (starts ==> !canAttack && attackStage == WindingUp
                             && lastAttackFacing == GetAttackAnimation(dirX, dirY))
              && (!starts ==> canAttack == old(canAttack) && attackStage == old(attackStage)
                              && lastAttackFacing == old(lastAttackFacing))
    {
      if !enabled || !isAlive || !playerPresent {
        return;
      }
      isFollowingPlayer := distance <= detectionRange;
      if isFollowingPlayer && !isStunned {
        FollowPlayer(dirX, dirY);
        if distance <= attackRange && canAttack {
          AttackPlayer();
        }
      } else {
        velocity := Zero;
      }
    }

    /** Moves toward the player and remembers the direction. */
    method FollowPlayer(dirX: real, dirY: real)
      requires Valid()
      modifies this`velocity, this`lastMoveX, this`lastMoveY
      ensures Valid()
      ensures playerPresent ==> velocity == TowardPlayer(dirX, dirY) && lastMoveX == dirX && lastMoveY == dirY
      ensures !playerPresent ==> unchanged(this)
    {
      if playerPresent {
        velocity := TowardPlayer(dirX, dirY);
        lastMoveX, lastMoveY := dirX, dirY;
      }
    }

    /** Starts the attack coroutine: canAttack is cleared first and the windup begins. */
    method AttackPlayer()
      requires Valid() && canAttack && playerPresent
      modifies this`canAttack, this`attackStage, this`lastAttackFacing
      ensures Valid()
      ensures !canAttack && attackStage == WindingUp
      ensures lastAttackFacing == GetAttackAnimation(lastMoveX, lastMoveY)
    {
      canAttack := false;
      lastAttackFacing := GetAttackAnimation(lastMoveX, lastMoveY);
      attackStage := WindingUp;
    }

    /**
     * The windup elapses: a player with a controller takes attackDamage
     * wherever it now is, also after this boss has died, and nothing else of
     * the player changes; a player without one is not hit. The cooldown wait
     * begins.
     */
    method AttackWindupEnd()
      requires Valid()
      modifies this`attackStage, player
      ensures Valid()
      ensures old(attackStage) == WindingUp ==> attackStage == AttackCoolingDown && !canAttack
      ensures old(attackStage) == WindingUp && player != null ==>
                && player.currentHealth == old(player.currentHealth) - attackDamage
                && player.removalsScheduled == old(player.removalsScheduled) + (if player.currentHealth <= 0 then 1 else 0)
      ensures old(attackStage) != WindingUp ==> unchanged(this) && (player != null ==> unchanged(player))
      ensures player != null ==> Player.OnlyDamageChanged(player)
      ensures player != null && old(player.Valid()) ==> player.Valid()
    {
      if attackStage == WindingUp {
        if player != null {
          player.TakeDamage(attackDamage);
        }
        attackStage := AttackCoolingDown;
      }
    }

    /** The cooldown elapses: attacking is allowed again. */
    method AttackCooldownEnd()
      requires Valid()
      modifies this`canAttack, this`attackStage
      ensures Valid()
      ensures old(attackStage) == AttackCoolingDown ==> canAttack && attackStage == AttackReady
      ensures old(attackStage) != AttackCoolingDown ==> unchanged(this)
    {
      if attackStage == AttackCoolingDown {
        canAttack := true;
        attackStage := AttackReady;
      }
    }

    /**
     * Health drops by exactly `damage`. Death takes precedence; otherwise
     * phase 2 starts when the new health is exactly 50 and the latch is open,
     * and the latch then stays closed. A hit after death dies again.
     */
    method TakeDamage(damage: int)
      requires Valid()
      modifies this`currentHealth, this`hasEnteredPhase2, this`isStunned, this`recovering, this`velocity,
               this`isAlive, this`enabled, this`removalsScheduled
      ensures Valid()
      ensures currentHealth == old(currentHealth) - damage
      ensures hasEnteredPhase2 == (old(hasEnteredPhase2) || DamageOutcome(old(currentHealth), damage, old(hasEnteredPhase2)) == EntersPhase2)
      ensures DamageOutcome(old(currentHealth), damage, old(hasEnteredPhase2)) == Dies ==>
                !isAlive && !enabled && velocity == Zero && removalsScheduled == old(removalsScheduled) + 1
                && isStunned == old(isStunned) && recovering == old(recovering)
      ensures DamageOutcome(old(currentHealth), damage, old(hasEnteredPhase2)) == EntersPhase2 ==>
                isStunned && recovering && velocity == Zero
                && isAlive == old(isAlive) && removalsScheduled == old(removalsScheduled)
      ensures DamageOutcome(old(currentHealth), damage, old(hasEnteredPhase2)) == Survives ==>
                unchanged(this`isStunned, this`recovering, this`velocity, this`isAlive, this`enabled, this`removalsScheduled)
    {
      currentHealth := currentHealth - damage;
      if currentHealth <= 0 {
        Die();
      } else if currentHealth == 50 && !hasEnteredPhase2 {
        hasEnteredPhase2 := true;
        EnterPhase2();
      }
    }

    /** Phase 2 begins with a stun: the boss stops and waits out its recovery. */
    method EnterPhase2()
      requires hasEnteredPhase2 && !recovering && speedBoosts == 0
      requires && (canAttack <==> attackStage == AttackReady)
               && (attackStage != AttackReady ==> playerPresent)
               && (isStunned <==> recovering) && (isAlive <==> enabled)
      modifies this`isStunned, this`recovering, this`velocity
      ensures Valid()
      ensures isStunned && recovering && velocity == Zero
    {
      isStunned := true;
      recovering := true;
      velocity := Zero;
    }

    /** The recovery elapses: the speed multiplier is applied, once, and the stun ends. */
    method Phase2RecoveryEnd()
      requires Valid()
      modifies this`speedBoosts, this`isStunned, this`recovering
      ensures Valid()
      ensures old(recovering) ==> speedBoosts == old(speedBoosts) + 1 && !isStunned && !recovering
      ensures !old(recovering) ==> unchanged(this)
      ensures speedBoosts <= 1
    {
      if recovering {
        speedBoosts := speedBoosts + 1;
        isStunned := false;
        recovering := false;
      }
    }

    /** Death: not alive, still, no more Update, removal scheduled; pending coroutines go on. */
    method Die()
      requires Valid()
      modifies this`isAlive, this`velocity, this`enabled, this`removalsScheduled
      ensures Valid()
      ensures !isAlive && !enabled && velocity == Zero && removalsScheduled == old(removalsScheduled) + 1
    {
      isAlive := false;
      velocity := Zero;
      enabled := false;
      removalsScheduled := removalsScheduled + 1;
    }
  }
}
