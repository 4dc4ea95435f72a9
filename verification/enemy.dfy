/**
 * public/components/enemy-component.js: an enemy's health, its one-way death,
 * its idle/chase/attack state, the cooldown gates on shooting and melee, and
 * its health-bar classification. Steering (the YUKA vehicle), meshes, effects
 * and the `tick` movement code are not modelled; the distance to the player,
 * the clock and the ray's verdict are parameters.
 *
 * Several fields the code reads are never assigned: `isActive` (so `tick`
 * always returns at once), `weaponRaycaster` (so a shot in range throws and
 * is caught) and `maxHealth`. The YUKA vehicle and its behaviours only exist
 * when the game manager has an `entityManager`, which only the second
 * registration of `game-manager` creates.
 */
module Enemy {
  import opened Common
  import GameManager

  /** The schema of `enemy-component` (`hitboxScale` only sizes a helper box). */
  datatype EnemyConfig = EnemyConfig(
    health: real, speed: real, attackPower: real, attackRate: real,
    detectionRange: real, attackRange: real, weaponDamage: real,
    weaponCooldown: real, weaponAccuracy: real, weaponRange: real)

  const DefaultConfig := EnemyConfig(100.0, 2.0, 10.0, 1.0, 20.0, 2.0, 15.0, 2.0, 0.7, 50.0)

  /** The attributes `spawnEnemy` of the second game manager writes, over the schema defaults. */
  function ConfigFromStats(st: GameManager.EnemyStats): (c: EnemyConfig)
    ensures c.detectionRange == DefaultConfig.detectionRange && c.attackRange == DefaultConfig.attackRange
    ensures c.weaponCooldown == DefaultConfig.weaponCooldown
    ensures c.health == st.health && c.attackRate == st.attackRate && c.weaponRange == st.weaponRange
    ensures c.speed == st.speed && c.attackPower == st.attackPower
    ensures c.weaponDamage == st.weaponDamage && c.weaponAccuracy == st.weaponAccuracy
  {
    DefaultConfig.(health := st.health, speed := st.speed, attackPower := st.attackPower,
                   attackRate := st.attackRate, weaponDamage := st.weaponDamage,
                   weaponRange := st.weaponRange, weaponAccuracy := st.weaponAccuracy)
  }

  /** A spawned enemy attacks at most once per its type's floor interval. */
  lemma SpawnedMeleeGap(t: GameManager.EnemyType, level: GameManager.Level)
    ensures ConfigFromStats(GameManager.Stats(t, level)).attackRate >= GameManager.AttackRateFloor(t)
  {
    GameManager.AttackRateBounds(t, level, level);
  }

  /** `currentState`: undefined until the YUKA set-up assigns `'idle'`. */
  datatype AIState = Unset | Idle | Chase | Attack

  /** How aggressive a state is: idle, then chase, then attack. */
  function Rank(s: AIState): nat
  {
    match s
    case Unset => 0
    case Idle => 0
    case Chase => 1
    case Attack => 2
  }

  /** The state `updateAI` picks for the player at `distance`. */
  function ChooseState(distance: real, detectionRange: real, attackRange: real): (s: AIState)
    ensures s == Attack <==> distance <= detectionRange && distance <= attackRange
    ensures s == Chase <==> distance <= detectionRange && distance > attackRange
    ensures s == Idle <==> distance > detectionRange
  {
    if distance <= detectionRange then
      if distance <= attackRange then Attack else Chase
    else Idle
  }

  /** Coming closer never makes an enemy less aggressive. */
  lemma CloserIsNoLessAggressive(d1: real, d2: real, detectionRange: real, attackRange: real)
    requires d1 <= d2
    ensures Rank(ChooseState(d2, detectionRange, attackRange)) <= Rank(ChooseState(d1, detectionRange, attackRange))
  {
  }

  /**
   * A cooldown gate `now - last < period`: with `last` undefined the
   * difference is NaN, the comparison is false, and the gate lets the action through.
   */
  predicate Ready(last: Option<real>, now: real, periodMs: real)
  {
    last.None? || now - last.value >= periodMs
  }

  /** Once open, a gate stays open as time goes on; right after an action it is shut for a whole period. */
  lemma ReadyStaysReady(last: Option<real>, t1: real, t2: real, periodMs: real)
    requires t1 <= t2
    ensures Ready(last, t1, periodMs) ==> Ready(last, t2, periodMs)
    ensures periodMs > 0.0 && t1 <= t2 < t1 + periodMs ==> !Ready(Some(t1), t2, periodMs)
  {
  }

  function Sum(amounts: seq<real>): real
    decreases |amounts|
  {
    if amounts == [] then 0.0 else amounts[0] + Sum(amounts[1..])
  }

  /** Health after a series of hits, one `takeDamage` each (while alive). */
  function DamagedBy(health: real, amounts: seq<real>): real
    decreases |amounts|
  {
    if amounts == [] then health else DamagedBy(Damaged(health, amounts[0]), amounts[1..])
  }

  /** Non-negative hits clamp only once: the series leaves `max(0, health - total)`. */
  lemma {:induction false} DamagedBySum(health: real, amounts: seq<real>)
    requires health >= 0.0
    requires forall i :: 0 <= i < |amounts| ==> amounts[i] >= 0.0
    ensures DamagedBy(health, amounts) == Max(0.0, health - Sum(amounts))
    decreases |amounts|
  {
    if amounts != [] {
      var rest := amounts[1..];
      assert forall i :: 0 <= i < |rest| ==> rest[i] >= 0.0 by {
        forall i | 0 <= i < |rest| ensures rest[i] >= 0.0 {
          assert rest[i] == amounts[i + 1];
        }
      }
      DamagedBySum(Damaged(health, amounts[0]), rest);
      SumNonNegative(rest);
    }
  }

  lemma {:induction false} SumNonNegative(amounts: seq<real>)
    requires forall i :: 0 <= i < |amounts| ==> amounts[i] >= 0.0
    ensures Sum(amounts) >= 0.0
    decreases |amounts|
  {
    if amounts != [] {
      var rest := amounts[1..];
      assert forall i :: 0 <= i < |rest| ==> rest[i] >= 0.0 by {
        forall i | 0 <= i < |rest| ensures rest[i] >= 0.0 {
          assert rest[i] == amounts[i + 1];
        }
      }
      SumNonNegative(rest);
    }
  }

  /** `updateHealthBar`'s colour for a health fraction. */
  function HealthBarColor(percent: real): (c: BarColor)
    ensures c == Red <==> percent <= 0.25
    ensures c == Yellow <==> 0.25 < percent <= 0.5
    ensures c == Green <==> percent > 0.5
  {
    var p := Max(0.0, percent);
    if p <= 0.25 then Red else if p <= 0.5 then Yellow else Green
  }

  /** `updateHealthBar`'s bar width: 0.98 of the (non-negative) fraction. */
  function HealthBarWidth(percent: real): (w: real)
    ensures w >= 0.0
    ensures percent >= 0.0 ==> w == 0.98 * percent
    ensures percent <= 1.0 ==> w <= 0.98
  {
    0.98 * Max(0.0, percent)
  }

  /** More health never shows a more alarming colour. */
  lemma HealthBarColorMonotone(p1: real, p2: real)
    requires p1 <= p2
    ensures ColorRank(HealthBarColor(p1)) <= ColorRank(HealthBarColor(p2))
  {
  }

  /** What a `takeDamage` call amounts to. */
  datatype DamageOutcome =
    | Ignored            // already dead
    | Faulted            // the push-back reads `this.vehicle` and throws without one
    | Killed(reported: bool)  // `die` ran; `reported` when `enemyKilled` was called
    | Wounded            // survived and switched to the chase state

  /** `registerEnemy(this.el)` in `init` reaches only a manager that has it (the second one). */
  function RegisteredAs(manager: Manager, elId: EntityId): (r: Option<EntityId>)
    ensures r.Some? <==> manager.ManagerV2?
    ensures r.Some? ==> r.value == elId
  {
    if manager.ManagerV2? then Some(elId) else None
  }

  /**
   * `remove` unregisters the component object, not the entity that was
   * registered, so the second manager's list keeps the entity for good.
   */
  lemma RemovedEnemyStaysListed(s: GameManager.V2State, elId: EntityId, componentId: EntityId)
    requires elId != componentId && componentId !in s.activeEnemies
    ensures var t := GameManager.UnregisterStep(GameManager.RegisterStep(s, elId), componentId);
      elId in t.activeEnemies && t.activeEnemiesCount == s.activeEnemiesCount + 1
  {
    var r := GameManager.RegisterStep(s, elId);
    assert r.activeEnemies[|s.activeEnemies|] == elId;
    assert componentId !in r.activeEnemies;
  }

  class EnemyComponent {
    /** The entity (`this.el`) and the component object (`this`): two different identities. */
    const elId: EntityId
    const componentId: EntityId
    const config: EnemyConfig
    var health: real
    var isAlive: bool
    var isDead: bool
    /** Read by `tick`, assigned nowhere. */
    var isActive: bool
    var hasVehicle: bool
    /** Read by `enemyShoot`, assigned nowhere. */
    var hasWeaponRaycaster: bool
    var currentState: AIState
    /** The `active` flags of the seek and separation behaviours; None when they were never created. */
    var seekActive: Option<bool>
    var separationActive: Option<bool>
    var lastAttack: Option<real>
    var lastEnemyShot: Option<real>
    var lastDamageTime: Option<real>

    /** Besides the vehicle's behaviours, the two fields nothing assigns stay at their initial (undefined, hence false) value. */
    ghost predicate Valid()
      reads this
    {
      && elId != componentId
      && !isActive && !hasWeaponRaycaster
      && (seekActive.Some? <==> hasVehicle)
      && (separationActive.Some? <==> hasVehicle)
    }

    /**
     * `init` with `setupYukaAI`: a vehicle, two behaviours (active, as YUKA
     * creates them) and the idle state exist only under a manager with an
     * `entityManager`.
     */
    constructor (elId: EntityId, componentId: EntityId, config: EnemyConfig, manager: Manager)
      requires elId != componentId
      ensures Valid()
      ensures this.elId == elId && this.componentId == componentId && this.config == config
      ensures health == config.health && isAlive && !isDead && !isActive && !hasWeaponRaycaster
      ensures hasVehicle == manager.ManagerV2?
      ensures currentState == if hasVehicle then Idle else Unset
      ensures seekActive == separationActive == if hasVehicle then Some(true) else None
      ensures lastAttack.None? && lastEnemyShot.None? && lastDamageTime.None?
    {
      this.elId := elId;
      this.componentId := componentId;
      this.config := config;
      health := config.health;
      isAlive := true;
      isDead := false;
      isActive := false;
      hasWeaponRaycaster := false;
      lastAttack := None;
      lastEnemyShot := None;
      lastDamageTime := None;
      hasVehicle := manager.ManagerV2?;
      if manager.ManagerV2? {
        seekActive := Some(true);
        separationActive := Some(true);
        currentState := Idle;
      } else {
        seekActive := None;
        separationActive := None;
        currentState := Unset;
      }
    }

    /** `setState`: a no-op when the state is already `state`. */
    method SetState(state: AIState)
      modifies this`currentState
      ensures currentState == state
      ensures old(currentState) == state ==> unchanged(this)
    {
      if currentState == state {
        return;
      }
      currentState := state;
    }

    /** `die`: once only; switches the behaviours off and reports the kill to a manager that has `enemyKilled`. */
    method Die(manager: Manager) returns (reported: bool)
      requires Valid()
      modifies this
      ensures Valid()
      ensures old(isDead) ==> unchanged(this) && !reported
      ensures !old(isDead) ==> isDead && reported == manager.ManagerV2?
      ensures !old(isDead) ==> seekActive == if hasVehicle then Some(false) else None
      ensures !old(isDead) ==> separationActive == if hasVehicle then Some(false) else None
      ensures health == old(health) && currentState == old(currentState) && hasVehicle == old(hasVehicle)
      ensures lastAttack == old(lastAttack) && lastEnemyShot == old(lastEnemyShot)
      ensures lastDamageTime == old(lastDamageTime) && isAlive == old(isAlive)
    {
      if isDead {
        return false;
      }
      isDead := true;
      if seekActive.Some? {
        seekActive := Some(false);
      }
      if separationActive.Some? {
        separationActive := Some(false);
      }
      // `entityManager.remove` throws under the first manager (it has none), so `enemyKilled` is skipped.
      reported := manager.ManagerV2?;
    }

    /**
     * `takeDamage(amount)` at time `now`: health is clamped at 0; with the
     * player present the push-back needs the vehicle; then death at 0 health,
     * or the chase state.
     */
    method TakeDamage(amount: real, now: real, playerPresent: bool, manager: Manager)
      returns (outcome: DamageOutcome)
      requires Valid()
      modifies this
      ensures Valid()
      ensures old(isDead) <==> outcome == Ignored
      ensures old(isDead) ==> unchanged(this)
      ensures !old(isDead) ==> health == Damaged(old(health), amount) && lastDamageTime == Some(now)
      ensures outcome == Faulted <==> !old(isDead) && playerPresent && !hasVehicle
      ensures outcome.Killed? <==> !old(isDead) && !(playerPresent && !hasVehicle) && health == 0.0
      ensures outcome.Killed? ==> isDead && outcome.reported == manager.ManagerV2? && currentState == old(currentState)
      ensures outcome.Killed? ==> seekActive == (if hasVehicle then Some(false) else None)
                                  && separationActive == (if hasVehicle then Some(false) else None)
      ensures outcome == Wounded ==> !isDead && currentState == Chase && health > 0.0
      ensures outcome == Wounded && playerPresent ==> seekActive == Some(true) && separationActive == Some(true)
      ensures outcome == Faulted || (outcome == Wounded && !playerPresent) ==>
        seekActive == old(seekActive) && separationActive == old(separationActive)
      ensures outcome == Faulted ==> !isDead && currentState == old(currentState)
      ensures hasVehicle == old(hasVehicle) && isAlive == old(isAlive)
      ensures lastAttack == old(lastAttack) && lastEnemyShot == old(lastEnemyShot)
    {
      if isDead {
        return Ignored;
      }
      health := Damaged(health, amount);
      lastDamageTime := Some(now);
      if playerPresent && !isDead {
        if !hasVehicle {
          return Faulted;
        }
      }
      if health <= 0.0 {
        var reported := Die(manager);
        return Killed(reported);
      }
      SetState(Chase);
      if playerPresent {
        seekActive := Some(true);
        separationActive := Some(true);
      }
      return Wounded;
    }

    /**
     * `attackPlayer` at time `now`: at most once per `attackRate` seconds; the
     * result is the damage handed to the player component, if there is one.
     */
    method AttackPlayer(now: real, playerHasComponent: bool) returns (dealt: Option<real>)
      modifies this`lastAttack
      ensures Ready(old(lastAttack), now, config.attackRate * 1000.0) ==> lastAttack == Some(now)
      ensures !Ready(old(lastAttack), now, config.attackRate * 1000.0) ==> lastAttack == old(lastAttack)
      ensures dealt.Some? <==> Ready(old(lastAttack), now, config.attackRate * 1000.0) && playerHasComponent
      ensures dealt.Some? ==> dealt.value == config.attackPower
    {
      if lastAttack.Some? && now - lastAttack.value < config.attackRate * 1000.0 {
        return None;
      }
      lastAttack := Some(now);
      if playerHasComponent {
        return Some(config.attackPower);
      }
      return None;
    }

    /**
     * `enemyShoot` at time `now` with the player at `distance`: the cooldown
     * gate, the range test, and the ray. The raycaster is never created, so
     * in practice every shot in range throws and yields false.
     */
    method EnemyShoot(now: real, playerPresent: bool, distance: real, rayHits: bool, playerHasComponent: bool)
      returns (hit: bool, dealt: Option<real>)
      modifies this`lastEnemyShot
      ensures hit == (Ready(old(lastEnemyShot), now, config.weaponCooldown * 1000.0) && playerPresent
                      && distance <= config.weaponRange && hasWeaponRaycaster && rayHits)
      ensures hit ==> lastEnemyShot == Some(now)
      ensures !hit ==> lastEnemyShot == old(lastEnemyShot)
      ensures dealt.Some? <==> hit && playerHasComponent
      ensures dealt.Some? ==> dealt.value == config.weaponDamage
    {
      if lastEnemyShot.Some? && now - lastEnemyShot.value < config.weaponCooldown * 1000.0 {
        return false, None;
      }
      if !playerPresent {
        return false, None;
      }
      if distance <= config.weaponRange {
        if !hasWeaponRaycaster {
          return false, None;
        }
        if rayHits {
          lastEnemyShot := Some(now);
          if playerHasComponent {
            return true, Some(config.weaponDamage);
          }
          return true, None;
        }
      }
      return false, None;
    }

    /**
     * `updateAI` (which nothing calls): picks the state for the distance,
     * shoots and strikes in the attack state, and sets the behaviour flags,
     * which throws when the behaviours were never created.
     */
    method UpdateAI(now: real, playerPresent: bool, distance: real, rayHits: bool, playerHasComponent: bool)
      returns (shotDealt: Option<real>, meleeDealt: Option<real>)
      requires Valid()
      modifies this
      ensures Valid()
      ensures old(isDead) || !playerPresent ==> unchanged(this) && shotDealt.None? && meleeDealt.None?
      ensures !old(isDead) && playerPresent ==>
        currentState == ChooseState(distance, config.detectionRange, config.attackRange)
      ensures !old(isDead) && playerPresent && hasVehicle ==>
        seekActive == Some(currentState == Chase) && separationActive == Some(currentState == Chase)
      ensures !hasVehicle ==> seekActive.None? && separationActive.None?
      // without a raycaster no shot lands
      ensures shotDealt.None? && lastEnemyShot == old(lastEnemyShot)
      ensures !(!old(isDead) && playerPresent && ChooseState(distance, config.detectionRange, config.attackRange) == Attack) ==>
        meleeDealt.None? && lastAttack == old(lastAttack)
      ensures !old(isDead) && playerPresent && ChooseState(distance, config.detectionRange, config.attackRange) == Attack ==>
        lastAttack == (if Ready(old(lastAttack), now, config.attackRate * 1000.0) then Some(now) else old(lastAttack))
        && (meleeDealt.Some? <==> Ready(old(lastAttack), now, config.attackRate * 1000.0) && playerHasComponent)
      ensures meleeDealt.Some? ==> meleeDealt.value == config.attackPower
      ensures health == old(health) && isDead == old(isDead) && hasVehicle == old(hasVehicle)
      ensures isAlive == old(isAlive) && lastDamageTime == old(lastDamageTime)
    {
      shotDealt, meleeDealt := None, None;
      if isDead || !playerPresent {
        return;
      }
      var state := ChooseState(distance, config.detectionRange, config.attackRange);
      SetState(state);
      if state == Attack {
        var hit;
        hit, shotDealt := EnemyShoot(now, playerPresent, distance, rayHits, playerHasComponent);
        meleeDealt := AttackPlayer(now, playerHasComponent);
      }
      if !hasVehicle {
        return;
      }
      seekActive := Some(state == Chase);
      separationActive := Some(state == Chase);
    }

    /**
     * The guard at the top of `tick`: the rest runs only for an active,
     * living enemy, and since `isActive` is never assigned it never runs.
     */
    method Tick() returns (proceeds: bool)
      requires Valid()
      ensures proceeds == (isActive && !isDead)
      ensures !proceeds
    {
      if !isActive || isDead {
        return false;
      }
      return true;
    }

    /** `remove`: what it hands to `unregisterEnemy`, when there is a manager and a vehicle. */
    method Remove(manager: Manager) returns (unregistered: Option<EntityId>)
      requires Valid()
      ensures unregistered.Some? <==> !manager.NoManager? && hasVehicle
      ensures unregistered.Some? ==> unregistered.value == componentId && unregistered.value != elId
    {
      if !manager.NoManager? && hasVehicle {
        return Some(componentId);
      }
      return None;
    }
  }
}
