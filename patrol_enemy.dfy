/**
 * The melee patrol enemy: the per-frame choice between patrolling, chasing
 * and attacking behind a detection latch, the cyclic waypoint index, the
 * windup-hit-cooldown attack sequence and death.
 */
module PatrolEnemy {
  import Player

  datatype EnemyState = Patrolling | Chasing | Attacking

  /** Where the attack coroutine stands: not running, in the windup wait, or in the cooldown wait. */
  datatype AttackStage = AttackReady | WindingUp | AttackCoolingDown

  /** The last value written to the rigid body's velocity, without the vector arithmetic. */
  datatype Velocity = Zero | TowardWaypoint(index: nat) | TowardPlayer

  /** What one frame decides while a player exists: the detection latch and the state. */
  datatype Awareness = Awareness(detected: bool, state: EnemyState)

  /**
   * One frame's decision for a player `distance` away: detection latches once
   * the player is strictly inside chaseRange; a detected enemy attacks within
   * attackRange and chases beyond it; an undetected one patrols.
   */
  function Sense(a: Awareness, distance: real, chaseRange: real, attackRange: real): (b: Awareness)
    ensures b.detected <==> a.detected || distance < chaseRange
    ensures b.state == Patrolling <==> !b.detected
    ensures b.state == Attacking <==> b.detected && distance <= attackRange
  {
    var detected := a.detected || distance < chaseRange;
    if detected then
      Awareness(true, if distance <= attackRange then Attacking else Chasing)
    else
      Awareness(false, Patrolling)
  }

  /** The decisions of successive frames with the player at the given distances. */
  function Trace(a: Awareness, distances: seq<real>, chaseRange: real, attackRange: real): (t: seq<Awareness>)
    ensures |t| == |distances|
    decreases |distances|
  {
    if distances == [] then []
    else
      var b := Sense(a, distances[0], chaseRange, attackRange);
      [b] + Trace(b, distances[1..], chaseRange, attackRange)
  }

  /** Once the player has been detected, it stays detected and the enemy never patrols again. */
  lemma {:induction false} DetectionLatches(a: Awareness, distances: seq<real>, chaseRange: real, attackRange: real,
                                            i: nat, j: nat)
    requires i <= j < |distances|
    requires Trace(a, distances, chaseRange, attackRange)[i].detected
    ensures Trace(a, distances, chaseRange, attackRange)[j].detected
    ensures Trace(a, distances, chaseRange, attackRange)[j].state != Patrolling
    decreases j
  {
    var b := Sense(a, distances[0], chaseRange, attackRange);
    var rest := Trace(b, distances[1..], chaseRange, attackRange);
    assert Trace(a, distances, chaseRange, attackRange) == [b] + rest;
    if j > 0 {
      if i == 0 {
        assert rest[0] == Sense(b, distances[1..][0], chaseRange, attackRange);
        DetectionLatches(b, distances[1..], chaseRange, attackRange, 0, j - 1);
      } else {
        DetectionLatches(b, distances[1..], chaseRange, attackRange, i - 1, j - 1);
      }
    }
  }

  /** The waypoint after `index` in a cycle of `count` waypoints. */
  function NextWaypoint(index: nat, count: nat): (r: nat)
    requires index < count
    ensures r < count
    ensures index + 1 < count ==> r == index + 1
    ensures index + 1 == count ==> r == 0
  {
    (index + 1) % count
  }

  /** The waypoint index after `k` arrivals, starting from `index`. */
  function AfterArrivals(index: nat, count: nat, k: nat): (r: nat)
    requires index < count
    ensures r < count
  {
    if k == 0 then index else NextWaypoint(AfterArrivals(index, count, k - 1), count)
  }

  /** Within one round, the index advances by one per arrival and wraps past the last waypoint to 0. */
  lemma {:induction false} ArrivalsWrap(index: nat, count: nat, k: nat)
    requires index < count && k <= count
    ensures AfterArrivals(index, count, k) == if index + k < count then index + k else index + k - count
  {
    if k > 0 {
      ArrivalsWrap(index, count, k - 1);
    }
  }

  /** Arrivals compose: k arrivals after m arrivals are m + k arrivals. */
  lemma {:induction false} ArrivalsCompose(index: nat, count: nat, m: nat, k: nat)
    requires index < count
    ensures AfterArrivals(index, count, m + k) == AfterArrivals(AfterArrivals(index, count, m), count, k)
  {
    if k > 0 {
      ArrivalsCompose(index, count, m, k - 1);
    }
  }

  /** A full round of `count` arrivals comes back to the starting waypoint. */
  lemma FullRoundReturns(index: nat, count: nat)
    requires index < count
    ensures AfterArrivals(index, count, count) == index
  {
    ArrivalsWrap(index, count, count);
  }

  /** The patrol repeats indefinitely with period `count`, without any reset. */
  lemma PatrolIsPeriodic(index: nat, count: nat, k: nat)
    requires index < count
    ensures AfterArrivals(index, count, count + k) == AfterArrivals(index, count, k)
  {
    ArrivalsCompose(index, count, count, k);
    FullRoundReturns(index, count);
  }

  class MEnemyController {
    const maxHealth: int
    const patrolPointCount: nat
    const chaseRange: real
    const attackRange: real
    const attackDamage: int
    /** The player's Transform reference is set. */
    const playerPresent: bool
    /** The player's damageable component; null when the player object has none. */
    const player: Player.PlayerController?

    var currentHealth: int
    var currentPatrolIndex: nat
    var hasDetectedPlayer: bool
    var currentState: EnemyState
    var canAttack: bool
    var attackStage: AttackStage
    var velocity: Velocity
    /** Update is still called by the engine. */
    var enabled: bool
    /** How many times Die scheduled the removal of the game object. */
    var removalsScheduled: nat

    /**
     * The waypoint index stays in range, canAttack is false exactly while an
     * attack coroutine runs, the state is Patrolling exactly while the player
     * is undetected, and detection and attacks need a player.
     */
    ghost predicate Valid()
      reads this
    {
      && (patrolPointCount > 0 ==> currentPatrolIndex < patrolPointCount)
      && (canAttack <==> attackStage == AttackReady)
      && (currentState == Patrolling <==> !hasDetectedPlayer)
      && (hasDetectedPlayer ==> playerPresent)
      && (attackStage != AttackReady ==> playerPresent)
    }

    /** The inspector values, then Start: full health, patrolling from the first waypoint. */
    constructor (maxHealth: int, patrolPointCount: nat, chaseRange: real, attackRange: real, attackDamage: int,
                 playerPresent: bool, player: Player.PlayerController?)
      ensures Valid()
      ensures this.maxHealth == maxHealth && this.patrolPointCount == patrolPointCount
      ensures this.chaseRange == chaseRange && this.attackRange == attackRange
      ensures this.attackDamage == attackDamage && this.playerPresent == playerPresent && this.player == player
      ensures currentHealth == maxHealth && currentPatrolIndex == 0
      ensures !hasDetectedPlayer && currentState == Patrolling
      ensures canAttack && attackStage == AttackReady && velocity == Zero
      ensures enabled && removalsScheduled == 0
    {
      this.maxHealth := maxHealth;
      this.patrolPointCount := patrolPointCount;
      this.chaseRange := chaseRange;
      this.attackRange := attackRange;
      this.attackDamage := attackDamage;
      this.playerPresent := playerPresent;
      this.player := player;
      currentHealth := maxHealth;
      currentPatrolIndex := 0;
      hasDetectedPlayer := false;
      currentState := Patrolling;
      canAttack, attackStage := true, AttackReady;
      velocity := Zero;
      enabled := true;
      removalsScheduled := 0;
    }

    /**
     * One frame, with the player `distance` away and the current waypoint
     * `waypointDistance` away. With a player the latch and the state follow
     * Sense; without one the state is kept. Then the state's handler runs.
     */
    method Update(distance: real, waypointDistance: real)
      requires Valid()
      modifies this`hasDetectedPlayer, this`currentState, this`currentPatrolIndex, this`velocity,
               this`canAttack, this`attackStage
      ensures Valid()
      ensures !old(enabled) ==> unchanged(this)
      ensures old(enabled) && playerPresent ==>
                Awareness(hasDetectedPlayer, currentState)
                == Sense(Awareness(old(hasDetectedPlayer), old(currentState)), distance, chaseRange, attackRange)
      ensures !playerPresent ==> hasDetectedPlayer == old(hasDetectedPlayer) && currentState == old(currentState)
      ensures old(hasDetectedPlayer) ==> hasDetectedPlayer && currentState != Patrolling
      ensures old(enabled) && currentState == Patrolling && patrolPointCount > 0 ==>
                velocity == TowardWaypoint(old(currentPatrolIndex))
                && currentPatrolIndex == (if waypointDistance < 0.2 then NextWaypoint(old(currentPatrolIndex), patrolPointCount)
                                          else old(currentPatrolIndex))
      ensures old(enabled) && currentState == Patrolling && patrolPointCount == 0 ==>
                velocity == old(velocity) && currentPatrolIndex == old(currentPatrolIndex)
      ensures currentState != Patrolling || !old(enabled) ==> currentPatrolIndex == old(currentPatrolIndex)
      ensures old(enabled) && currentState == Chasing ==> velocity == TowardPlayer
      ensures old(enabled) && currentState == Attacking && old(canAttack) ==>
                velocity == Zero && !canAttack && attackStage == WindingUp
      ensures !(old(enabled) && currentState == Attacking && old(canAttack)) ==>
                canAttack == old(canAttack) && attackStage == old(attackStage)
      ensures old(enabled) && currentState == Attacking && !old(canAttack) ==> velocity == old(velocity)
    {
      if !enabled {
        return;
      }
      if playerPresent {
        if distance < chaseRange {
          hasDetectedPlayer := true;
        }
        if hasDetectedPlayer {
          if distance <= attackRange {
            currentState := Attacking;
          } else {
            currentState := Chasing;
          }
        } else {
          currentState := Patrolling;
        }
      }
      match currentState
      case Patrolling => Patrol(waypointDistance);
      case Chasing => ChasePlayer();
      case Attacking => AttackPlayer();
    }

    /**
     * With no waypoints nothing changes; otherwise the enemy heads for the
     * current waypoint, and on arrival (closer than 0.2) the index moves on
     * cyclically.
     */
    method Patrol(waypointDistance: real)
      requires Valid()
      modifies this`currentPatrolIndex, this`velocity
      ensures Valid()
      ensures patrolPointCount == 0 ==> unchanged(this)
      ensures patrolPointCount > 0 ==> velocity == TowardWaypoint(old(currentPatrolIndex))
      ensures patrolPointCount > 0 && waypointDistance < 0.2 ==>
                currentPatrolIndex == NextWaypoint(old(currentPatrolIndex), patrolPointCount)
      ensures waypointDistance >= 0.2 ==> currentPatrolIndex == old(currentPatrolIndex)
    {
      if patrolPointCount == 0 {
        return;
      }
      velocity := TowardWaypoint(currentPatrolIndex);
      if waypointDistance < 0.2 {
        currentPatrolIndex := NextWaypoint(currentPatrolIndex, patrolPointCount);
      }
    }

    /** Heads for the player, if there is one. */
    method ChasePlayer()
      requires Valid()
      modifies this`velocity
      ensures Valid()
      ensures playerPresent ==> velocity == TowardPlayer
      ensures !playerPresent ==> unchanged(this)
    {
      if !playerPresent {
        return;
      }
      velocity := TowardPlayer;
    }

    /** A no-op while an attack runs; otherwise stops, clears canAttack and starts the windup. */
    method AttackPlayer()
      requires Valid() && currentState == Attacking
      modifies this`velocity, this`canAttack, this`attackStage
      ensures Valid()
      ensures !old(canAttack) ==> unchanged(this)
      ensures old(canAttack) ==> velocity == Zero && !canAttack && attackStage == WindingUp
    {
      if !canAttack {
        return;
      }
      velocity := Zero;
      canAttack := false;
      attackStage := WindingUp;
    }

    /**
     * The windup elapses: a player with a damageable component takes
     * attackDamage wherever it now is (no range check, and also after this
     * enemy has died), and nothing else of the player changes; a player
     * without one is not hit. The cooldown wait begins.
     */
    method AttackWindupEnd()
      requires Valid()
      modifies this`attackStage, player
      ensures Valid()
      ensures old(attackStage) == WindingUp ==> attackStage == AttackCoolingDown && !canAttack
      ensures old(attackStage) == WindingUp && player != null ==>
                && player.currentHealth == old(player.currentHealth) - attackDamage
                && player.removalsScheduled == old(player.removalsScheduled) + (if player.currentHealth <= 0 then 1 else 0)
      ensures old(attackStage) != WindingUp ==> unchanged(this) && (player != null ==> unchanged(player))
      ensures player != null ==> Player.OnlyDamageChanged(player)
      ensures player != null && old(player.Valid()) ==> player.Valid()
    {
      if attackStage == WindingUp {
        if player != null {
          player.TakeDamage(attackDamage);
        }
        attackStage := AttackCoolingDown;
      }
    }

    /** The cooldown elapses: attacking is allowed again. */
    method AttackCooldownEnd()
      requires Valid()
      modifies this`canAttack, this`attackStage
      ensures Valid()
      ensures old(attackStage) == AttackCoolingDown ==> canAttack && attackStage == AttackReady
      ensures old(attackStage) != AttackCoolingDown ==> unchanged(this)
    {
      if attackStage == AttackCoolingDown {
        canAttack := true;
        attackStage := AttackReady;
      }
    }

    /** Health drops by exactly `damage`; Die runs exactly when the new health is at most 0. */
    method TakeDamage(damage: int)
      requires Valid()
      modifies this`currentHealth, this`velocity, this`enabled, this`removalsScheduled
      ensures Valid()
      ensures currentHealth == old(currentHealth) - damage
      ensures currentHealth <= 0 ==> velocity == Zero && !enabled && removalsScheduled == old(removalsScheduled) + 1
      ensures currentHealth > 0 ==> velocity == old(velocity) && enabled == old(enabled)
                                    && removalsScheduled == old(removalsScheduled)
    {
      currentHealth := currentHealth - damage;
      if currentHealth <= 0 {
        Die();
      }
    }

    /** Death stops the enemy and its Update and schedules removal; a pending attack goes on. */
    method Die()
      requires Valid()
      modifies this`velocity, this`enabled, this`removalsScheduled
      ensures Valid()
      ensures velocity == Zero && !enabled && removalsScheduled == old(removalsScheduled) + 1
    {
      velocity := Zero;
      enabled := false;
      removalsScheduled := removalsScheduled + 1;
    }
  }
}
