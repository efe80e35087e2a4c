/**
 * The player: health and stamina pools, the dash gate with its three-stage
 * coroutine, the attack gate with its cooldown, the four-way choice of attack
 * direction and the damage fan-out over the colliders of the overlap query.
 */
module Player {

  /** The four attack animations, named by the direction they face. */
  datatype Facing = Up | Down | Left | Right

  /**
   * Where the dash coroutine stands: not running, inside the motion loop,
   * in the short wait after the motion, or in the dash cooldown wait.
   */
  datatype DashStage = DashReady | DashMoving | DashRecovering | DashCoolingDown

  /** The last value written to the rigid body's velocity, without the vector arithmetic. */
  datatype Velocity = Zero | FromInput(x: real, y: real) | AlongDash(x: real, y: real)

  /** One collider found by the overlap query, and whether it carries a damageable component. */
  datatype Collider = Collider(id: nat, damageable: bool)

  /** One call of TakeDamage issued by the fan-out. */
  datatype Hit = Hit(target: nat, damage: int)

  /** The pool value that Mathf.Min(current + amount, max) leaves after a restore. */
  function Restored(current: int, amount: int, max: int): (r: int)
    ensures r <= max && r <= current + amount
    ensures r == max || r == current + amount
  {
    if current + amount < max then current + amount else max
  }

  /**
   * The attack animation for the last movement input: vertical input wins
   * over horizontal input, and no input at all faces down.
   */
  function GetAttackAnimation(x: real, y: real): (f: Facing)
    ensures f == Up <==> y > 0.0
    ensures f == Down <==> y < 0.0 || (y == 0.0 && x == 0.0)
    ensures f == Right <==> y == 0.0 && x > 0.0
    ensures f == Left <==> y == 0.0 && x < 0.0
  {
    if y > 0.0 then Up
    else if y < 0.0 then Down
    else if x > 0.0 then Right
    else if x < 0.0 then Left
    else Down
  }

  /**
   * The TakeDamage calls the fan-out issues for the overlap result `targets`:
   * one per damageable collider, in query order; other colliders are skipped.
   */
  function Hits(targets: seq<Collider>, damage: int): (hits: seq<Hit>)
    ensures |hits| <= |targets|
    ensures forall k :: 0 <= k < |hits| ==> hits[k].damage == damage
    ensures forall k :: 0 <= k < |hits| ==>
              exists i :: 0 <= i < |targets| && targets[i].damageable && targets[i].id == hits[k].target
    ensures forall i :: 0 <= i < |targets| && targets[i].damageable ==> Hit(targets[i].id, damage) in hits
  {
    if targets == [] then []
    else
      var last := targets[|targets| - 1];
      var init := Hits(targets[..|targets| - 1], damage);
      assert forall i :: 0 <= i < |targets| - 1 ==> targets[..|targets| - 1][i] == targets[i];
      init + (if last.damageable then [Hit(last.id, damage)] else [])
  }

  /** The overlap query reports every collider at most once. */
  ghost predicate DistinctIds(targets: seq<Collider>) {
    forall i, j :: 0 <= i < j < |targets| ==> targets[i].id != targets[j].id
  }

  /** Dropping the last collider keeps the ids distinct. */
  lemma DistinctPrefix(targets: seq<Collider>, n: nat)
    requires DistinctIds(targets) && n <= |targets|
    ensures DistinctIds(targets[..n])
  {
    forall i, j | 0 <= i < j < n ensures targets[..n][i].id != targets[..n][j].id {
      assert targets[..n][i] == targets[i] && targets[..n][j] == targets[j];
    }
  }

  /** The last collider's id is not among the hits of the colliders before it. */
  lemma LastNotHitBefore(targets: seq<Collider>, damage: int)
    requires DistinctIds(targets) && |targets| > 0
    ensures Hit(targets[|targets| - 1].id, damage) !in Hits(targets[..|targets| - 1], damage)
  {
    var n := |targets| - 1;
    var init := targets[..n];
    var hits := Hits(init, damage);
    forall m | 0 <= m < |hits|
      ensures hits[m].target != targets[n].id
    {
      var i :| 0 <= i < |init| && init[i].damageable && init[i].id == hits[m].target;
      assert init[i] == targets[i];
    }
  }

  /** The count of one hit over a query result is its count over all but the last collider, plus the last one's. */
  lemma CountAfterLast(targets: seq<Collider>, damage: int, h: Hit)
    requires |targets| > 0
    ensures var last := targets[|targets| - 1];
            multiset(Hits(targets, damage))[h]
            == multiset(Hits(targets[..|targets| - 1], damage))[h] + (if last.damageable && h == Hit(last.id, damage) then 1 else 0)
  {
    var last := targets[|targets| - 1];
    var tail := if last.damageable then [Hit(last.id, damage)] else [];
    assert Hits(targets, damage) == Hits(targets[..|targets| - 1], damage) + tail;
  }

  /** Over distinct colliders, each damageable one is hit exactly once and every other one never. */
  lemma {:induction false} HitOncePerCollider(targets: seq<Collider>, damage: int, k: nat)
    requires DistinctIds(targets) && k < |targets|
    ensures multiset(Hits(targets, damage))[Hit(targets[k].id, damage)] == if targets[k].damageable then 1 else 0
  {
    var n := |targets| - 1;
    var init, last := targets[..n], targets[n];
    var h := Hit(targets[k].id, damage);
    CountAfterLast(targets, damage, h);
    var before := multiset(Hits(init, damage))[h];
    var own := if last.damageable && h == Hit(last.id, damage) then 1 else 0;
    if k == n {
      LastNotHitBefore(targets, damage);
      assert before == 0;
      assert own == if targets[k].damageable then 1 else 0;
    } else {
      DistinctPrefix(targets, n);
      HitOncePerCollider(init, damage, k);
      assert init[k] == targets[k];
      assert before == if targets[k].damageable then 1 else 0;
      assert last.id != targets[k].id;
      assert own == 0;
    }
  }

  class PlayerController {
    const maxHealth: int
    const maxStamina: int
    const dashCost: int
    const attackDamage: int

    var currentHealth: int
    var currentStamina: int
    var moveX: real
    var moveY: real
    var velocity: Velocity
    var canDash: bool
    var isDashing: bool
    var dashStage: DashStage
    var canAttack: bool
    /** The attack-cooldown coroutine is waiting. */
    var attackCoolingDown: bool
    var lastAttackFacing: Facing
    /** How many times Die scheduled the removal of the game object. */
    var removalsScheduled: nat

    /**
     * The gates agree with the coroutine stages: canDash only when no dash
     * coroutine runs, isDashing exactly during motion and recovery, canAttack
     * exactly when no attack cooldown runs; stamina never exceeds its maximum
     * unless a negative dashCost pays some back.
     */
    ghost predicate Valid()
      reads this
    {
      && (0 <= dashCost ==> currentStamina <= maxStamina)
      && (canDash <==> dashStage == DashReady)
      && (isDashing <==> dashStage == DashMoving || dashStage == DashRecovering)
      && (canAttack <==> !attackCoolingDown)
    }

    /** The inspector values, then Start: both pools full. */
    constructor (maxHealth: int, maxStamina: int, dashCost: int, attackDamage: int)
      ensures Valid()
      ensures this.maxHealth == maxHealth && this.maxStamina == maxStamina
      ensures this.dashCost == dashCost && this.attackDamage == attackDamage
      ensures currentHealth == maxHealth && currentStamina == maxStamina
      ensures canDash && !isDashing && canAttack && velocity == Zero
      ensures moveX == 0.0 && moveY == 0.0 && removalsScheduled == 0
    {
      this.maxHealth := maxHealth;
      this.maxStamina := maxStamina;
      this.dashCost := dashCost;
      this.attackDamage := attackDamage;
      currentHealth := maxHealth;
      currentStamina := maxStamina;
      moveX, moveY := 0.0, 0.0;
      velocity := Zero;
      canDash, isDashing, dashStage := true, false, DashReady;
      canAttack, attackCoolingDown := true, false;
      lastAttackFacing := Down;
      removalsScheduled := 0;
    }

    /** The movement input callback stores the input vector. */
    method Move(x: real, y: real)
      modifies this`moveX, this`moveY
      ensures moveX == x && moveY == y
    {
      moveX, moveY := x, y;
    }

    /** One frame: the velocity follows the input unless a dash owns it. */
    method Update()
      requires Valid()
      modifies this`velocity
      ensures Valid()
      ensures old(isDashing) ==> velocity == old(velocity)
      ensures !old(isDashing) ==> velocity == FromInput(moveX, moveY)
    {
      if !isDashing {
        velocity := FromInput(moveX, moveY);
      }
    }

    /**
     * The dash input callback. A dash starts only on `started`, with canDash
     * and enough stamina; it then pays dashCost and the motion stage begins,
     * moving along the input captured now. Otherwise nothing changes.
     */
    method Dash(started: bool) returns (accepted: bool)
      requires Valid()
      modifies this`isDashing, this`canDash, this`currentStamina, this`dashStage, this`velocity
      ensures Valid()
      ensures accepted <==> started && old(canDash) && old(currentStamina) >= dashCost
      ensures accepted ==> isDashing && !canDash && dashStage == DashMoving
      ensures accepted ==> currentStamina == old(currentStamina) - dashCost
      ensures accepted ==> velocity == AlongDash(moveX, moveY)
      ensures accepted && old(currentStamina) >= 0 ==> currentStamina >= 0
      ensures accepted && dashCost < 0 ==> currentStamina > old(currentStamina)
      ensures !accepted ==> unchanged(this)
    {
      accepted := started && canDash && currentStamina >= dashCost;
      if accepted {
        isDashing := true;
        canDash := false;
        currentStamina := currentStamina - dashCost;
        dashStage := DashMoving;
        velocity := AlongDash(moveX, moveY);
      }
    }

    /** The dash motion loop exits: the velocity is zeroed and the short wait begins. */
    method DashMotionEnd()
      requires Valid()
      modifies this`velocity, this`dashStage
      ensures Valid()
      ensures old(dashStage) == DashMoving ==> velocity == Zero && dashStage == DashRecovering
      ensures old(dashStage) != DashMoving ==> unchanged(this)
    {
      if dashStage == DashMoving {
        velocity := Zero;
        dashStage := DashRecovering;
      }
    }

    /** The short wait elapses: the dash is over, but its cooldown still keeps canDash false. */
    method DashRecoverEnd()
      requires Valid()
      modifies this`isDashing, this`dashStage
      ensures Valid()
      ensures old(dashStage) == DashRecovering ==> !isDashing && !canDash && dashStage == DashCoolingDown
      ensures old(dashStage) != DashRecovering ==> unchanged(this)
    {
      if dashStage == DashRecovering {
        isDashing := false;
        dashStage := DashCoolingDown;
      }
    }

    /** The dash cooldown elapses: only now is a new dash allowed. */
    method DashCooldownEnd()
      requires Valid()
      modifies this`canDash, this`dashStage
      ensures Valid()
      ensures old(dashStage) == DashCoolingDown ==> canDash && !isDashing && dashStage == DashReady
      ensures old(dashStage) != DashCoolingDown ==> unchanged(this)
    {
      if dashStage == DashCoolingDown {
        canDash := true;
        dashStage := DashReady;
      }
    }

    /** Stamina becomes min(old + amount, max). */
    method RestoreStamina(amount: int)
      requires Valid()
      modifies this`currentStamina
      ensures Valid()
      ensures currentStamina == Restored(old(currentStamina), amount, maxStamina)
      ensures currentStamina <= maxStamina
      ensures 0 <= amount && old(currentStamina) <= maxStamina ==> old(currentStamina) <= currentStamina
    {
      currentStamina := Restored(currentStamina, amount, maxStamina);
    }

    /** Health becomes min(old + amount, max). */
    method RestoreHealth(amount: int)
      requires Valid()
      modifies this`currentHealth
      ensures Valid()
      ensures currentHealth == Restored(old(currentHealth), amount, maxHealth)
      ensures currentHealth <= maxHealth
      ensures 0 <= amount && old(currentHealth) <= maxHealth ==> old(currentHealth) <= currentHealth
    {
      currentHealth := Restored(currentHealth, amount, maxHealth);
    }

    /** The fan-out: every damageable collider of the overlap result takes attackDamage, in order. */
    method DealDamage(targets: seq<Collider>) returns (hits: seq<Hit>)
      ensures hits == Hits(targets, attackDamage)
    {
      hits := [];
      for i := 0 to |targets|
        invariant hits == Hits(targets[..i], attackDamage)
      {
        assert targets[..i + 1][..i] == targets[..i];
        if targets[i].damageable {
          hits := hits + [Hit(targets[i].id, attackDamage)];
        }
      }
      assert targets[..|targets|] == targets;
    }

    /**
     * The attack input callback. Accepted only on `started` with canAttack:
     * the animation is chosen from the input, the fan-out runs, and canAttack
     * stays false until the cooldown ends. Otherwise nothing happens.
     */
    method Attack(started: bool, targets: seq<Collider>) returns (hits: seq<Hit>)
      requires Valid()
      modifies this`canAttack, this`attackCoolingDown, this`lastAttackFacing
      ensures Valid()
      ensures started && old(canAttack) ==>
                && hits == Hits(targets, attackDamage)
                && !canAttack && attackCoolingDown
                && lastAttackFacing == GetAttackAnimation(moveX, moveY)
      ensures !(started && old(canAttack)) ==> hits == [] && unchanged(this)
    {
      hits := [];
      if started && canAttack {
        lastAttackFacing := GetAttackAnimation(moveX, moveY);
        hits := DealDamage(targets);
        canAttack := false;
        attackCoolingDown := true;
      }
    }

    /** The attack cooldown elapses: attacking is allowed again. */
    method AttackCooldownEnd()
      requires Valid()
      modifies this`canAttack, this`attackCoolingDown
      ensures Valid()
      ensures old(attackCoolingDown) ==> canAttack && !attackCoolingDown
      ensures !old(attackCoolingDown) ==> unchanged(this)
    {
      if attackCoolingDown {
        canAttack := true;
        attackCoolingDown := false;
      }
    }

    /**
     * Health drops by exactly `damage`, without a clamp; Die runs exactly when
     * the new health is at most 0, also when the player had already died.
     */
    method TakeDamage(damage: int)
      modifies this`currentHealth, this`removalsScheduled
      ensures currentHealth == old(currentHealth) - damage
      ensures removalsScheduled == old(removalsScheduled) + (if currentHealth <= 0 then 1 else 0)
    {
      currentHealth := currentHealth - damage;
      if currentHealth <= 0 {
        Die();
      }
    }

    /** Death schedules the removal of the game object. */
    method Die()
      modifies this`removalsScheduled
      ensures removalsScheduled == old(removalsScheduled) + 1
    {
      removalsScheduled := removalsScheduled + 1;
    }
  }

  /** Between two states, a hit changed at most the player's health and its removal count. */
  twostate predicate OnlyDamageChanged(p: PlayerController)
    reads p
  {
    unchanged(p`currentStamina, p`moveX, p`moveY, p`velocity, p`canDash, p`isDashing, p`dashStage,
              p`canAttack, p`attackCoolingDown, p`lastAttackFacing)
  }

  /** Between two states, drops changed at most the player's two pools. */
  twostate predicate OnlyPoolsChanged(p: PlayerController)
    reads p
  {
    unchanged(p`moveX, p`moveY, p`velocity, p`canDash, p`isDashing, p`dashStage,
              p`canAttack, p`attackCoolingDown, p`lastAttackFacing, p`removalsScheduled)
  }
}
