# Hazel's Quest — combat and interaction core in Dafny

Hazel's Quest is a small top-down Unity game. This project models its combat
and interaction logic, one Dafny module per MonoBehaviour:

- `Player` (`player.dfy`) models the player. It has health and stamina pools,
  and restores are clamped with `Min` while damage is not. The dash gate pays a
  stamina cost and runs a three-stage coroutine: motion, a short recovery, then
  the cooldown. The attack gate has its own cooldown. The module also covers the
  four-way choice of attack direction and the damage fan-out over the colliders
  of the overlap query.
- `PatrolEnemy` (`patrol_enemy.dfy`) models the melee enemy. Each frame it
  chooses between Patrolling, Chasing and Attacking behind a detection latch
  that never resets. It has a cyclic waypoint index, a windup → hit → cooldown
  attack, and death.
- `Boss` (`boss.dfy`) models the two-phase boss. Following and attacking are
  gated by `isAlive`, `isStunned` and `canAttack`. Phase 2 is a one-shot latch
  fired by a hit that leaves exactly 50 health, followed by a stun and a
  recovery. Directions are chosen with ±0.5 thresholds.
- `Destructible` (`destructible.dfy`) models a 3-HP prop. When it breaks, two
  independent random drop trials call the player's restore methods.
- `Dialogue` (`dialogue.dfy`) models the panda NPC's dialogue. It is an
  active/typing/index state machine over the lines of the NPC's dialogue data,
  with letter-by-letter reveal, skip-to-full-line, advance and end.
- `Interaction` (`interaction.dfy`) models the player's interaction detector:
  a single "interactable in range" slot, set on trigger enter, cleared on
  trigger exit, and used by the interact key.

Modelling conventions:

- **Classes.** Every MonoBehaviour is a `class`. Its serialized inspector
  values are `const`s set by the constructor. The constructor also performs
  `Start`.
- **Coroutines.** Every coroutine becomes a stage field plus one method per
  resume point, for example `DashMotionEnd`, `DashRecoverEnd`,
  `DashCooldownEnd`, `AttackWindupEnd`, `AttackCooldownEnd`,
  `Phase2RecoveryEnd` and `TypeLineResume`. When the coroutine is not at that
  point, a resume method changes nothing.
- **Inputs.** Engine-provided values are method parameters:
  - distances to the player and to the waypoint
  - the normalized direction
  - the input axes
  - the `started`/`performed` phases of an input callback
  - the two `Random.value` samples
  - the list of colliders returned by the overlap query
- **Velocity.** The rigid body's velocity is an abstract tag recording who
  last wrote it: zero, from input, along the dash, toward a waypoint, or toward
  the player.
- **Removal.** `Destroy(gameObject, t)` increments a `removalsScheduled`
  counter.
- **Cross-object calls.** The enemy and the boss hold two things about the
  player. `playerPresent` says whether their Transform reference is set; it
  gates detection, chasing, following and attacking. `player` is the player's
  damageable component (`Player.PlayerController?`), and it is null when the
  player object has none. A missing component only skips the hit at the end
  of the windup. A prop holds only the component, found on the player object
  set in the inspector, or on the one `Start` finds by tag when none is set. Calls into the player are real method calls. Each
  caller states what it leaves untouched on the player:
  `Player.OnlyDamageChanged` for a hit and `Player.OnlyPoolsChanged` for
  drops.
- **Dialogue.** The dialogue controller is specified by pure functions over a
  `DialogueView` value, such as `Interacted`, `NextLineTaken` and
  `TypeLineStarted`. Each method of the class is proved to move its state
  exactly as the matching function does. The invariant `Inv` and its lemmas
  are stated over those functions.

Where the code and a plain-language description of the game differ, the model
follows the code:

- Death is not idempotent. A hit on a dead player, enemy or prop subtracts
  again and calls `Die` again. For a prop it also rolls the drops again.
- The boss enters phase 2 only when a hit leaves exactly 50 health. A hit
  that jumps past 50 does not trigger it.
- The boss's following is recomputed every frame and does not latch.
- `Die` does not cancel a pending attack. The windup still ends in a hit on
  the player.
- A started dialogue already shows the first letter of line 0, not empty
  text. `StartCoroutine` runs `TypeLine` up to its first wait, and that wait
  comes after the first letter is appended.

## Model

| member | source | states |
|---|---|---|
| Player.Restored | Assets/Assets/Scripts/PlayerController.cs:101-112 | a restored pool is min(current + amount, max): never above max or above current + amount, and equal to one of them |
| Player.GetAttackAnimation | Assets/Assets/Scripts/PlayerController.cs:190-198 | Up iff y > 0; Down iff y < 0 or there is no input; Right iff y = 0 and x > 0; Left iff y = 0 and x < 0 |
| Player.Hits | Assets/Assets/Scripts/PlayerController.cs:177-188 | the fan-out's hits all carry the attack damage, each comes from a damageable collider of the query, and every damageable collider is hit |
| Player.DistinctPrefix | Assets/Assets/Scripts/PlayerController.cs:179 | a prefix of a query result with distinct colliders still has distinct colliders |
| Player.LastNotHitBefore | Assets/Assets/Scripts/PlayerController.cs:181-187 | with distinct colliders, the last collider is not among the hits issued for the ones before it |
| Player.CountAfterLast | Assets/Assets/Scripts/PlayerController.cs:181-187 | the hits for one more collider are the earlier hits plus that collider's own hit, if it is damageable |
| Player.HitOncePerCollider | Assets/Assets/Scripts/PlayerController.cs:181-187 | over distinct colliders, each damageable collider takes exactly one hit and every other collider none |
| Player.PlayerController.constructor | Assets/Assets/Scripts/PlayerController.cs:51-67 | for any inspector values (a negative dashCost included), both pools start full, dash and attack are allowed, no dash runs, velocity is zero |
| Player.PlayerController.Move | Assets/Assets/Scripts/PlayerController.cs:146-160 | the input callback stores the movement vector |
| Player.PlayerController.Update | Assets/Assets/Scripts/PlayerController.cs:70-77 | velocity is overwritten from input only when not dashing; the dash gates keep their invariant |
| Player.PlayerController.Dash | Assets/Assets/Scripts/PlayerController.cs:92-99 | accepted iff started, canDash and stamina >= dashCost; when accepted: isDashing, !canDash, stamina lowered by exactly dashCost (stays >= 0 if it was, and rises for a negative cost), velocity along the captured input; otherwise nothing changes |
| Player.PlayerController.DashMotionEnd | Assets/Assets/Scripts/PlayerController.cs:126-133 | the motion loop's exit zeroes the velocity and starts the short wait; isDashing and !canDash persist |
| Player.PlayerController.DashRecoverEnd | Assets/Assets/Scripts/PlayerController.cs:135-137 | after the short wait isDashing clears while canDash stays false |
| Player.PlayerController.DashCooldownEnd | Assets/Assets/Scripts/PlayerController.cs:139-141 | only the cooldown's end sets canDash, after isDashing was cleared; isDashing implies !canDash throughout |
| Player.PlayerController.RestoreStamina | Assets/Assets/Scripts/PlayerController.cs:101-106 | stamina becomes min(old + amount, maxStamina): never above the maximum, never lower for a non-negative amount from a stamina within it |
| Player.PlayerController.RestoreHealth | Assets/Assets/Scripts/PlayerController.cs:107-112 | health becomes min(old + amount, maxHealth): never above the maximum, never lower for a non-negative amount from a health within it |
| Player.PlayerController.DealDamage | Assets/Assets/Scripts/PlayerController.cs:177-188 | the foreach over the query result issues exactly the hits of `Hits`: one per damageable collider, in order |
| Player.PlayerController.Attack | Assets/Assets/Scripts/PlayerController.cs:164-175 | accepted only on started with canAttack: the facing is GetAttackAnimation of the input, the fan-out runs, canAttack stays false until the cooldown; otherwise no hit and no change |
| Player.PlayerController.AttackCooldownEnd | Assets/Assets/Scripts/PlayerController.cs:200-204 | the cooldown's end sets canAttack again |
| Player.PlayerController.TakeDamage | Assets/Assets/Scripts/PlayerController.cs:207-218 | health drops by exactly damage, no clamp; Die runs exactly when the new health is <= 0, also on an already dead player |
| Player.PlayerController.Die | Assets/Assets/Scripts/PlayerController.cs:220-224 | one more removal of the player object is scheduled |
| PatrolEnemy.Sense | Assets/Assets/Scripts/MEnemyController.cs:53-72 | detection latches iff it was set or the player is strictly inside chaseRange; Patrolling iff undetected; Attacking iff detected and within attackRange |
| PatrolEnemy.Trace | Assets/Assets/Scripts/MEnemyController.cs:47-72 | one decision per frame of player distances |
| PatrolEnemy.DetectionLatches | Assets/Assets/Scripts/MEnemyController.cs:53-56 | once detected in some frame, the enemy stays detected and is never Patrolling in any later frame |
| PatrolEnemy.NextWaypoint | Assets/Assets/Scripts/MEnemyController.cs:104 | (i + 1) % len is in range, is i + 1 before the last waypoint and 0 after it |
| PatrolEnemy.AfterArrivals | Assets/Assets/Scripts/MEnemyController.cs:99-105 | the index after any number of arrivals stays in [0, len) |
| PatrolEnemy.ArrivalsWrap | Assets/Assets/Scripts/MEnemyController.cs:99-105 | within one round each arrival advances the index by one, wrapping past the last waypoint to 0 |
| PatrolEnemy.ArrivalsCompose | Assets/Assets/Scripts/MEnemyController.cs:99-105 | arrivals compose: k arrivals after m arrivals are m + k arrivals |
| PatrolEnemy.FullRoundReturns | Assets/Assets/Scripts/MEnemyController.cs:99-105 | len arrivals bring the enemy back to its starting waypoint |
| PatrolEnemy.PatrolIsPeriodic | Assets/Assets/Scripts/MEnemyController.cs:99-105 | the patrol repeats with period len, forever |
| PatrolEnemy.MEnemyController.constructor | Assets/Assets/Scripts/MEnemyController.cs:39-45 | full health, patrolling from waypoint 0, undetected, attack allowed |
| PatrolEnemy.MEnemyController.Update | Assets/Assets/Scripts/MEnemyController.cs:47-91 | a disabled enemy changes nothing; with the player reference set, the latch and state follow Sense; without it the state is kept; a detected enemy never patrols again; the state's handler then runs (patrol step, chase, or attack start) |
| PatrolEnemy.MEnemyController.Patrol | Assets/Assets/Scripts/MEnemyController.cs:95-106 | no waypoints: nothing changes; otherwise head for the current waypoint and, closer than 0.2, advance the index cyclically; never out of range |
| PatrolEnemy.MEnemyController.ChasePlayer | Assets/Assets/Scripts/MEnemyController.cs:108-113 | with the player reference set the enemy heads for it; without it nothing changes |
| PatrolEnemy.MEnemyController.AttackPlayer | Assets/Assets/Scripts/MEnemyController.cs:115-125 | a no-op without canAttack; otherwise stop, clear canAttack and start the windup |
| PatrolEnemy.MEnemyController.AttackWindupEnd | Assets/Assets/Scripts/MEnemyController.cs:127-135 | after the windup a player with a damageable component takes attackDamage through its TakeDamage, with no range re-check and even after this enemy died; nothing else of the player changes and its invariant is kept; a player without the component is not hit; canAttack stays false |
| PatrolEnemy.MEnemyController.AttackCooldownEnd | Assets/Assets/Scripts/MEnemyController.cs:136-139 | only the cooldown's end sets canAttack again |
| PatrolEnemy.MEnemyController.TakeDamage | Assets/Assets/Scripts/MEnemyController.cs:158-169 | health drops by exactly damage; Die runs exactly when the new health is <= 0 |
| PatrolEnemy.MEnemyController.Die | Assets/Assets/Scripts/MEnemyController.cs:171-180 | the enemy stops, is no longer ticked, and its removal is scheduled; a pending attack is not cancelled |
| Boss.GetAttackAnimation | Assets/Assets/Scripts/_Bosses/FBossController.cs:103-111 | Up iff y > 0.5; Down iff y < -0.5 or both components within ±0.5; Right/Left iff y within ±0.5 and x beyond +0.5/-0.5 |
| Boss.UnitDirectionNeverDefaults | Assets/Assets/Scripts/_Bosses/FBossController.cs:103-111 | for a unit direction the default branch never fires: Down means y < -0.5 |
| Boss.DamageOutcome | Assets/Assets/Scripts/_Bosses/FBossController.cs:141-157 | death iff the new health is <= 0 (taking precedence); phase 2 iff the new health is exactly 50 and the latch is open |
| Boss.Phase2Starts | Assets/Assets/Scripts/_Bosses/FBossController.cs:152-156 | each hit of a run starts phase 2 at most once, so the count is bounded by the number of hits |
| Boss.Phase2AtMostOnce | Assets/Assets/Scripts/_Bosses/FBossController.cs:152-156 | over any run of hits phase 2 starts at most once, and never once the latch is set |
| Boss.FBossController.constructor | Assets/Assets/Scripts/_Bosses/FBossController.cs:42-48 | full health, alive, phase 1, not stunned, attack allowed |
| Boss.FBossController.Update | Assets/Assets/Scripts/_Bosses/FBossController.cs:50-80 | dead or without the player reference: nothing changes; following is recomputed as distance <= detectionRange; a following, unstunned boss moves and attacks iff within attackRange with canAttack; otherwise it stands still and no attack starts |
| Boss.FBossController.FollowPlayer | Assets/Assets/Scripts/_Bosses/FBossController.cs:115-137 | with the player reference set the boss moves along the direction and remembers it |
| Boss.FBossController.AttackPlayer | Assets/Assets/Scripts/_Bosses/FBossController.cs:84-92 | canAttack is cleared first, the facing is GetAttackAnimation of the last direction, the windup starts |
| Boss.FBossController.AttackWindupEnd | Assets/Assets/Scripts/_Bosses/FBossController.cs:93-96 | after the windup a player with a controller takes attackDamage through its TakeDamage, even after the boss died; nothing else of the player changes and its invariant is kept; a player without one is not hit; canAttack stays false |
| Boss.FBossController.AttackCooldownEnd | Assets/Assets/Scripts/_Bosses/FBossController.cs:97-100 | only the cooldown's end sets canAttack again |
| Boss.FBossController.TakeDamage | Assets/Assets/Scripts/_Bosses/FBossController.cs:141-157 | health drops by exactly damage; the outcome is DamageOutcome: death first, else phase 2 at exactly 50 with the latch open, and the latch never reopens |
| Boss.FBossController.EnterPhase2 | Assets/Assets/Scripts/_Bosses/FBossController.cs:159-166 | phase 2 begins stunned and still, waiting out its recovery |
| Boss.FBossController.Phase2RecoveryEnd | Assets/Assets/Scripts/_Bosses/FBossController.cs:167-172 | the recovery's end applies the speed multiplier once (at most one boost ever) and clears the stun |
| Boss.FBossController.Die | Assets/Assets/Scripts/_Bosses/FBossController.cs:175-184 | not alive, still, no longer ticked, removal scheduled; pending coroutines go on |
| Destructible.RollDrops | Assets/Assets/Scripts/Destructibles.cs:47-58 | the stamina drop fires iff the first sample <= staminaDropChance, the health drop iff the second sample <= healthDropChance, independently (the edge cases are in EdgeChances) |
| Destructible.EdgeChances | Assets/Assets/Scripts/Destructibles.cs:47-58 | with `<=`, chance 1.0 fires on every sample in [0, 1] and chance 0.0 fires exactly on the sample 0 |
| Destructible.Destructibles.constructor | Assets/Assets/Scripts/Destructibles.cs:8-28 | health starts at maxHealth = 3 |
| Destructible.Destructibles.TakeDamage | Assets/Assets/Scripts/Destructibles.cs:30-40 | health drops by exactly damage; exactly when it is <= 0 the drops are applied to the player and then the prop's removal is scheduled, also on a prop that is already down; the player changes in its two pools at most, and not at all otherwise |
| Destructible.Destructibles.HandleDrops | Assets/Assets/Scripts/Destructibles.cs:41-60 | no player controller: no drops; otherwise each drop that fires restores its pool with Restored, the other pool is unchanged, and nothing else of the player changes |
| Destructible.Destructibles.Die | Assets/Assets/Scripts/Destructibles.cs:62-65 | one more removal of the prop is scheduled |
| Dialogue.TypeLineStarted | Assets/PandaExpressController.cs:90-98 | typing starts from empty text; the coroutine runs iff the current line exists and is not empty, then showing its first letter; an empty line ends typing at once; a missing line leaves typing set and the text empty |
| Dialogue.TypeLineResumed | Assets/PandaExpressController.cs:95-101 | a resume shows the line's next letter, or after the last letter leaves the whole line shown and typing false |
| Dialogue.DialogueEnded | Assets/PandaExpressController.cs:104-110 | the dialogue is inactive, the text empty and no coroutine runs |
| Dialogue.NextLineTaken | Assets/PandaExpressController.cs:72-88 | while typing: the whole current line is shown, typing stops and the index stays; otherwise the index increments and the next line is typed, or the dialogue ends past the last line |
| Dialogue.DialogueStarted | Assets/PandaExpressController.cs:51-70 | a missing UI reference changes nothing; otherwise the dialogue is active at index 0 and line 0 starts typing (what that shows: StartShowsFirstLine) |
| Dialogue.Interacted | Assets/PandaExpressController.cs:29-49 | no dialogue data: nothing changes; the next line while active; a new dialogue otherwise (its invariant: StepsKeepInv; its effect on canInteract: InteractionGate) |
| Dialogue.StartShowsFirstLine | Assets/PandaExpressController.cs:61-69 | a successful start is active at index 0, typing line 0 from its first letter, or finished at once on an empty line 0 |
| Dialogue.StepsKeepInv | Assets/PandaExpressController.cs:72-110 | every step keeps the invariant: while active the index is in range and the text is a prefix of the current line, the whole line once typing is over |
| Dialogue.ResumedTimes | Assets/PandaExpressController.cs:95-99 | resuming TypeLine any number of times keeps the invariant and the index |
| Dialogue.TypingRevealsLine | Assets/PandaExpressController.cs:95-101 | left alone, TypeLine ends with the whole line shown and typing false |
| Dialogue.InteractedTimes | Assets/PandaExpressController.cs:29-88 | any number of presses of Interact keeps the invariant |
| Dialogue.InteractionGate | Assets/PandaExpressController.cs:24-88 | canInteract becomes false exactly on a start with data and UI, and becomes true again exactly when NextLine ends the dialogue; TypeLine resumes never change it |
| Dialogue.PressesFinishDialogue | Assets/PandaExpressController.cs:72-88 | with every line non-empty, two presses per remaining line (skip, then advance) end the dialogue past the last line |
| Dialogue.DialogueRunsToEnd | Assets/PandaExpressController.cs:29-88 | a dialogue of n non-empty lines ends after 2n + 1 presses, after which it can be started again |
| Dialogue.EmptyDialogueSticks | Assets/PandaExpressController.cs:74-79 | with no lines, a press on an active, typing dialogue changes nothing |
| Dialogue.EmptyDialogueNeverEnds | Assets/PandaExpressController.cs:29-79 | a dialogue with no lines, once started, stays active and typing however often Interact is pressed |
| Dialogue.PandaExpressController.constructor | Assets/PandaExpressController.cs:13-14 | inactive, not typing, index 0, empty text; the invariant holds |
| Dialogue.PandaExpressController.CanInteract | Assets/PandaExpressController.cs:24-27 | true when no dialogue is active, and then no TypeLine coroutine runs |
| Dialogue.PandaExpressController.Interact | Assets/PandaExpressController.cs:29-49 | the state moves exactly as Interacted; the invariant is kept |
| Dialogue.PandaExpressController.StartDialogue | Assets/PandaExpressController.cs:51-70 | the state moves exactly as DialogueStarted |
| Dialogue.PandaExpressController.NextLine | Assets/PandaExpressController.cs:72-88 | the state moves exactly as NextLineTaken |
| Dialogue.PandaExpressController.TypeLine | Assets/PandaExpressController.cs:90-98 | the state moves exactly as TypeLineStarted |
| Dialogue.PandaExpressController.TypeLineResume | Assets/PandaExpressController.cs:95-101 | the state moves exactly as TypeLineResumed; the invariant is kept |
| Dialogue.PandaExpressController.EndDialogue | Assets/PandaExpressController.cs:104-110 | the state moves exactly as DialogueEnded |
| Interaction.InteractionDetector.constructor | Assets/Assets/Scripts/InteractionDetector.cs:6 | the slot starts empty |
| Interaction.InteractionDetector.OnInteract | Assets/Assets/Scripts/InteractionDetector.cs:8-23 | only a performed press acts, and it runs Interact on the interactable in range exactly when there is one; the slot is unchanged |
| Interaction.InteractionDetector.OnTriggerEnter2D | Assets/Assets/Scripts/InteractionDetector.cs:25-32 | the collider's interactable is stored iff it exists and canInteract (not in an active dialogue); otherwise the slot is unchanged |
| Interaction.InteractionDetector.OnTriggerExit2D | Assets/Assets/Scripts/InteractionDetector.cs:34-40 | the slot is cleared iff the collider's interactable is the stored one; otherwise unchanged |
| Scenes.AttackBreaksProp | Assets/Assets/Scripts/PlayerController.cs:164-188 | the player's attack on a damageable prop issues exactly one hit of attackDamage; when it breaks the prop, the attacker's own pools are restored during the attack, the attack gate closes, the dash gate and velocity are as they were and the invariant holds |
| Scenes.HitThenBreak | Assets/Assets/Scripts/MEnemyController.cs:131-133 | an enemy's hit followed by a prop's drops moves only the player's pools and removal count: its dash and attack gates and velocity are as they were and its invariant holds |

## Left out

- 32-bit integer arithmetic is not modelled. The source's `int` fields (health and stamina pools, costs, damage, the patrol index) wrap around on overflow, while the model's `int` is unbounded. So subtractions and restores that would pass `int.MaxValue` or `int.MinValue` differ.
- The dialogue reveals one Dafny `char` per step, while C#'s `foreach` over a string steps through UTF-16 code units, so a character outside the Basic Multilingual Plane takes two steps there.
- For a prop, a player object that `Start` cannot find by tag (a failure inside `Start`) is left out. Its `player` is the controller of the player object set in the inspector, or of the one `Start` finds by tag when none is set, and null when that object has none.
- Rendering and animation (`flipX`, animator triggers, bools and floats, Gizmos) and `Debug.Log` are left out. They only observe the state. The chosen attack animation is kept as a `Facing` field.
- Velocity vector arithmetic (`moveSpeed`, `dashSpeed`, `normalized`, distance computation) is left out. Distances and directions are inputs, and velocity is a tag.
- The boss's speed multiplier value is left out. Only the number of times it is applied is kept.
- Frame timing is left out: `WaitForSeconds` durations, `Time.deltaTime` and the dash's `elapsedTime` loop. The loop's exit is the `DashMotionEnd` event, and a loop frame changes nothing the model keeps.
- Engine destruction is left out: the `t` seconds after `Destroy(gameObject, t)`, the stopping of that object's coroutines, and references to it becoming null. `removalsScheduled` counts the calls.
- `Random.value` is left out. Its two samples are parameters.
- The UI is left out: health and stamina bars, the dialogue panel, name text, portrait and `typingSpeed`. The dialogue text is a `string` field, and whether all UI references are assigned is one boolean. The player's two bars are assumed assigned: an unset bar would make `TakeDamage` fail before its death check and `Start` fail before it fills stamina.
- The Input System's `CallbackContext` is left out. Only its `started`/`performed` phase is a boolean, and the movement vector is two reals.
- The overlap query and `TryGetComponent` are left out. The query result is a sequence of colliders tagged damageable or not. `DistinctIds` states that the query reports each collider once.
- `NPCController.cs` has no behaviour. Its `npcName` and `dialogueLines` are folded into the `NpcDialogue` datatype, and the sprite and typing speed are omitted.
- In `InteractionDetector`, `IInteractable` is modelled by its one implementer in this core, `PandaExpressController`. A null argument stands for a collider without that component.
- Player.PlayerController.DealDamage: returns the `TakeDamage` calls it issues, as `Hit` values, instead of dispatching them through `IDamageable` to the targets' objects. Their effect on each target is modelled by that target's own `TakeDamage`.
- Boss.FBossController.Update: without a player reference the source fails at the null reference when it reads the player's position. The model treats that frame as changing nothing.
- Dialogue.TypeLineStarted: an index outside the dialogue lines makes the source fail at the lookup, after `isTyping` was set and the text cleared. The model keeps those two writes and marks the coroutine as not running, which is how a dialogue with no lines gets stuck (`EmptyDialogueNeverEnds`).
