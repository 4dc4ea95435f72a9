/**
 * public/components/game-manager.js registers `game-manager` twice, each
 * registration guarded by "not registered yet", so only the first body is
 * live. Both are modelled, as `GameManagerV1` (lines 3-115) and
 * `GameManagerV2` (lines 120-476). Timer callbacks (`setTimeout`,
 * `setInterval`) are explicit methods the scheduler calls; DOM text and
 * messages are left out; the random enemy type is a parameter.
 */
module GameManager {
  import opened Common

  // =====================================================================
  // First registration (lines 3-115)

  /** Number of enemies one call of `spawnEnemies` creates at a level. */
  function WaveSize(enemyCount: int, level: int): (n: nat)
    ensures enemyCount + (level - 1) * 2 >= 0 ==> n == enemyCount + (level - 1) * 2
    ensures enemyCount + (level - 1) * 2 < 0 ==> n == 0
  {
    var k := enemyCount + (level - 1) * 2;
    if k < 0 then 0 else k
  }

  /** Each level adds two enemies to a wave (once the wave is non-empty). */
  lemma WaveGrowsByTwo(enemyCount: int, level: int)
    requires enemyCount + (level - 1) * 2 >= 0
    ensures WaveSize(enemyCount, level + 1) == WaveSize(enemyCount, level) + 2
  {
  }

  /** The `enemy-component` attributes `spawnEnemies` writes at a level. */
  datatype V1EnemyStats = V1EnemyStats(health: real, speed: real, damage: real)

  function V1Stats(level: int): (st: V1EnemyStats)
    ensures level >= 1 ==> st.health >= 50.0 && st.speed >= 3.0 && st.damage >= 10.0
    ensures level == 1 ==> st == V1EnemyStats(50.0, 3.0, 10.0)
  {
    var l := (level - 1) as real;
    V1EnemyStats(50.0 + l * 25.0, 3.0 + l * 0.5, 10.0 + l * 5.0)
  }

  /** Every stat of a first-registration enemy grows strictly with the level. */
  lemma V1StatsIncrease(l1: int, l2: int)
    requires l1 < l2
    ensures V1Stats(l1).health < V1Stats(l2).health
    ensures V1Stats(l1).speed < V1Stats(l2).speed
    ensures V1Stats(l1).damage < V1Stats(l2).damage
  {
  }

  /** `n` entities fresh from `document.createElement`, numbered from `first`. */
  function FreshIds(first: EntityId, n: nat): (ids: seq<EntityId>)
    ensures |ids| == n
    ensures forall j :: 0 <= j < n ==> ids[j] == first + j
  {
    seq(n, j => first + j)
  }

  class GameManagerV1 {
    const enemyCount: int
    /** `data.level`, which `nextLevel` increments in place. */
    var level: int
    var enemies: seq<EntityId>
    var score: int
    var gameStarted: bool
    var levelComplete: bool
    /** The next entity `document.createElement` hands out. */
    var nextId: EntityId
    /** The stats `spawnEnemies` last wrote on an enemy it created; None before the first one. */
    var lastWaveStats: Option<V1EnemyStats>

    ghost predicate Valid()
      reads this
    {
      forall i :: 0 <= i < |enemies| ==> enemies[i] < nextId
    }

    /** `init` */
    constructor (enemyCount: int, level: int, firstId: EntityId)
      ensures Valid()
      ensures this.enemyCount == enemyCount && this.level == level
      ensures enemies == [] && score == 0 && !gameStarted && !levelComplete
      ensures nextId == firstId && lastWaveStats.None?
    {
      this.enemyCount := enemyCount;
      this.level := level;
      enemies := [];
      score := 0;
      gameStarted := false;
      levelComplete := false;
      nextId := firstId;
      lastWaveStats := None;
    }

    /** `startGame`: there is no guard, so every call spawns another wave. */
    method StartGame()
      requires Valid()
      modifies this
      ensures Valid() && gameStarted
      ensures enemies == old(enemies) + FreshIds(old(nextId), WaveSize(enemyCount, level))
      ensures level == old(level) && score == old(score) && levelComplete == old(levelComplete)
    {
      gameStarted := true;
      SpawnEnemies();
    }

    /**
     * `spawnEnemies`: appends `enemyCount + (level - 1) * 2` new entities
     * (none when that is negative) and leaves the earlier entries alone.
     */
    method SpawnEnemies()
      requires Valid()
      modifies this
      ensures Valid()
      ensures enemies == old(enemies) + FreshIds(old(nextId), WaveSize(enemyCount, level))
      ensures |enemies| == |old(enemies)| + WaveSize(enemyCount, level)
      ensures enemies[..|old(enemies)|] == old(enemies)
      ensures nextId == old(nextId) + WaveSize(enemyCount, level)
      ensures lastWaveStats == if WaveSize(enemyCount, level) > 0 then Some(V1Stats(level)) else old(lastWaveStats)
      ensures level == old(level) && score == old(score)
      ensures gameStarted == old(gameStarted) && levelComplete == old(levelComplete)
    {
      var n := enemyCount + (level - 1) * 2;
      ghost var start := enemies;
      var first := nextId;
      var i := 0;
      while i < n
        invariant 0 <= i && (n >= 0 ==> i <= n) && (n < 0 ==> i == 0)
        invariant enemies == start + FreshIds(first, i)
        invariant nextId == first + i
        invariant forall k :: 0 <= k < |enemies| ==> enemies[k] < nextId
        invariant level == old(level) && score == old(score)
        invariant lastWaveStats == if i > 0 then Some(V1Stats(level)) else old(lastWaveStats)
        invariant gameStarted == old(gameStarted) && levelComplete == old(levelComplete)
      {
        var enemy := nextId;
        nextId := nextId + 1;
        lastWaveStats := Some(V1Stats(level));
        enemies := enemies + [enemy];
        i := i + 1;
      }
      assert i == WaveSize(enemyCount, level);
    }

    /**
     * `onEnemyDestroyed`: drops the first occurrence of the enemy, adds
     * `100 * level` whether or not it was listed, and reports whether the
     * three-second `nextLevel` timer is set.
     */
    method OnEnemyDestroyed(enemy: EntityId) returns (scheduleNextLevel: bool)
      requires Valid()
      modifies this
      ensures Valid()
      ensures enemies == RemoveFirst(old(enemies), enemy)
      ensures score == old(score) + 100 * level
      ensures scheduleNextLevel == (enemies == [] && gameStarted && !old(levelComplete))
      ensures levelComplete == (old(levelComplete) || scheduleNextLevel)
      ensures level == old(level) && gameStarted == old(gameStarted) && nextId == old(nextId)
      ensures lastWaveStats == old(lastWaveStats)
    {
      DropEnemy(enemy);
      score := score + 100 * level;
      scheduleNextLevel := false;
      if |enemies| == 0 && gameStarted && !levelComplete {
        levelComplete := true;
        scheduleNextLevel := true;
      }
    }

    /** The `indexOf` + `splice` part of `onEnemyDestroyed`. */
    method DropEnemy(enemy: EntityId)
      requires Valid()
      modifies this`enemies
      ensures Valid()
      ensures enemies == RemoveFirst(old(enemies), enemy)
    {
      var index := IndexOf(enemies, enemy);
      if index > -1 {
        enemies := enemies[..index] + enemies[index + 1..];
      }
    }

    /** `nextLevel` (the timer set by `onEnemyDestroyed`); it schedules `NextLevelWave`. */
    method NextLevel()
      modifies this
      ensures level == old(level) + 1 && !levelComplete
      ensures enemies == old(enemies) && score == old(score) && gameStarted == old(gameStarted)
      ensures nextId == old(nextId) && lastWaveStats == old(lastWaveStats)
    {
      level := level + 1;
      levelComplete := false;
    }

    /** The two-second timer set by `nextLevel`: the next wave. */
    method NextLevelWave()
      requires Valid()
      modifies this
      ensures Valid()
      ensures enemies == old(enemies) + FreshIds(old(nextId), WaveSize(enemyCount, level))
      ensures level == old(level) && score == old(score) && levelComplete == old(levelComplete)
    {
      SpawnEnemies();
    }
  }

  // =====================================================================
  // Second registration (lines 120-476)

  /** Levels start at the schema default 1 and only go up. */
  type Level = l: int | l >= 1 witness 1

  /** The schema values the second registration reads. */
  datatype V2Config = V2Config(enemyCount: nat, maxActiveEnemies: int, enemySpawnInterval: real)

  const DefaultV2Config := V2Config(10, 15, 2000.0)

  /**
   * The fields of the second registration. `spawnTimer` is the running
   * `setInterval`, by its period in milliseconds, or None once cleared.
   */
  datatype V2State = V2State(
    score: int,
    level: Level,
    enemiesRemaining: int,
    activeEnemies: seq<EntityId>,
    activeEnemiesCount: int,
    gameOver: bool,
    levelInProgress: bool,
    gameStarted: bool,
    spawnTimer: Option<real>)

  /** What `init` sets up. */
  function Initial(c: V2Config, level: Level): (s: V2State)
    ensures s.level == level && s.enemiesRemaining == c.enemyCount * level
    ensures s.score == 0 && s.activeEnemies == [] && s.activeEnemiesCount == 0
    ensures !s.gameOver && !s.levelInProgress && !s.gameStarted && s.spawnTimer.None?
  {
    V2State(0, level, c.enemyCount * level, [], 0, false, false, false, None)
  }

  /**
   * What every operation keeps: the counter tracks the list, the remaining
   * count is never negative, a running spawn timer has a period of at least
   * 500 ms, and a finished game has no level in progress and no timer.
   */
  ghost predicate Inv(s: V2State)
  {
    && s.activeEnemiesCount == |s.activeEnemies|
    && s.enemiesRemaining >= 0
    && (s.spawnTimer.Some? ==> s.spawnTimer.value >= 500.0)
    && (s.gameOver ==> !s.levelInProgress && s.spawnTimer.None?)
  }

  /** `Math.max(500, enemySpawnInterval / level)` */
  function SpawnRate(interval: real, level: Level): (rate: real)
    ensures rate >= 500.0
    ensures rate == 500.0 || rate == interval / level as real
  {
    Max(500.0, interval / level as real)
  }

  /** The period is never above the configured interval (when that is at least 500) and shrinks with the level. */
  lemma SpawnRateShrinks(interval: real, l1: Level, l2: Level)
    requires l1 <= l2
    requires interval >= 500.0
    ensures SpawnRate(interval, l1) <= interval
    ensures SpawnRate(interval, l2) <= SpawnRate(interval, l1)
  {
    var a := interval / l1 as real;
    var b := interval / l2 as real;
    assert a * l1 as real == interval && b * l2 as real == interval;
    assert a >= 0.0;
    assert a <= interval by {
      assert a * l1 as real >= a * 1.0;
    }
    assert b <= a by {
      assert a * l2 as real >= a * l1 as real;
      assert b * l2 as real <= a * l2 as real;
    }
  }

  /** `startGame`: the first call marks the game started and sets the two-second `startLevel` timer. */
  function StartGameStep(s: V2State): (t: V2State)
  {
    if s.gameStarted then s else s.(gameStarted := true)
  }

  /**
   * `startLevel` (run by the timers of `startGame` and `completeLevel`): a
   * fresh quota of `enemyCount * level` enemies and a new spawn timer, unless
   * the game is over.
   */
  function StartLevelStep(c: V2Config, s: V2State): (t: V2State)
  {
    if s.gameOver then s
    else s.(levelInProgress := true,
            enemiesRemaining := c.enemyCount * s.level,
            spawnTimer := Some(SpawnRate(c.enemySpawnInterval, s.level)))
  }

  /** The spawn timer's callback spawns an enemy in this state. */
  predicate Spawns(c: V2Config, s: V2State)
  {
    s.spawnTimer.Some? && !s.gameOver
    && s.activeEnemiesCount < c.maxActiveEnemies && s.enemiesRemaining > 0
  }

  /**
   * One firing of the `setInterval` callback of `startSpawningEnemies`
   * (nothing when no timer runs): stop on game over, else spawn one enemy
   * while there is room and quota, else complete an emptied level.
   */
  function SpawnTickStep(c: V2Config, s: V2State): (t: V2State)
  {
    if s.spawnTimer.None? then s
    else if s.gameOver then s.(spawnTimer := None)
    else if s.activeEnemiesCount < c.maxActiveEnemies && s.enemiesRemaining > 0 then
      s.(enemiesRemaining := s.enemiesRemaining - 1)
    else if s.enemiesRemaining == 0 && s.activeEnemiesCount == 0 && s.levelInProgress then
      CompleteLevelStep(s)
    else s
  }

  /** `registerEnemy`: no guard at all. */
  function RegisterStep(s: V2State, enemy: EntityId): (t: V2State)
  {
    s.(activeEnemies := s.activeEnemies + [enemy], activeEnemiesCount := s.activeEnemiesCount + 1)
  }

  /** `unregisterEnemy`: drop the first occurrence if listed, then complete an emptied level. */
  function UnregisterStep(s: V2State, enemy: EntityId): (t: V2State)
  {
    var s1 := if enemy in s.activeEnemies
              then s.(activeEnemies := RemoveFirst(s.activeEnemies, enemy),
                      activeEnemiesCount := s.activeEnemiesCount - 1)
              else s;
    if s1.enemiesRemaining == 0 && s1.activeEnemiesCount == 0 && s1.levelInProgress
    then CompleteLevelStep(s1)
    else s1
  }

  /** `enemyKilled`: `10 * level` points, with no guard. */
  function EnemyKilledStep(s: V2State): (t: V2State)
  {
    s.(score := s.score + 10 * s.level)
  }

  /**
   * `completeLevel`: only while a level is in progress and the game is not
   * over; stops spawning, awards `100 * level` and moves to the next level
   * (whose `startLevel` a five-second timer runs).
   */
  function CompleteLevelStep(s: V2State): (t: V2State)
  {
    if !s.levelInProgress || s.gameOver then s
    else s.(levelInProgress := false, spawnTimer := None,
            score := s.score + 100 * s.level, level := s.level + 1)
  }

  /** `onPlayerDied` */
  function PlayerDiedStep(s: V2State): (t: V2State)
  {
    if s.gameOver then s
    else s.(gameOver := true, levelInProgress := false, spawnTimer := None)
  }

  /** `tick`: completes a level whose quota is spent and whose enemies are all gone. */
  function TickStep(s: V2State): (t: V2State)
  {
    if s.levelInProgress && s.enemiesRemaining == 0 && s.activeEnemiesCount == 0
    then CompleteLevelStep(s)
    else s
  }

  datatype Event =
    | StartGame
    | StartLevel
    | SpawnTick
    | RegisterEnemy(enemy: EntityId)
    | UnregisterEnemy(enemy: EntityId)
    | EnemyKilled
    | CompleteLevel
    | PlayerDied
    | Tick

  function Apply(c: V2Config, s: V2State, ev: Event): V2State
  {
    match ev
    case StartGame => StartGameStep(s)
    case StartLevel => StartLevelStep(c, s)
    case SpawnTick => SpawnTickStep(c, s)
    case RegisterEnemy(e) => RegisterStep(s, e)
    case UnregisterEnemy(e) => UnregisterStep(s, e)
    case EnemyKilled => EnemyKilledStep(s)
    case CompleteLevel => CompleteLevelStep(s)
    case PlayerDied => PlayerDiedStep(s)
    case Tick => TickStep(s)
  }

  /** The state after the events, in order. */
  function Run(c: V2Config, s: V2State, evs: seq<Event>): V2State
    decreases |evs|
  {
    if evs == [] then s else Run(c, Apply(c, s, evs[0]), evs[1..])
  }

  lemma InitialInv(c: V2Config, level: Level)
    ensures Inv(Initial(c, level))
  {
  }

  lemma StepPreservesInv(c: V2Config, s: V2State, ev: Event)
    requires Inv(s)
    ensures Inv(Apply(c, s, ev))
  {
  }

  /** No sequence of events breaks the invariant. */
  lemma {:induction false} RunPreservesInv(c: V2Config, s: V2State, evs: seq<Event>)
    requires Inv(s)
    ensures Inv(Run(c, s, evs))
    decreases |evs|
  {
    if evs != [] {
      StepPreservesInv(c, s, evs[0]);
      RunPreservesInv(c, Apply(c, s, evs[0]), evs[1..]);
    }
  }

  /** Level and score never go down. */
  lemma StepProgresses(c: V2Config, s: V2State, ev: Event)
    ensures Apply(c, s, ev).level >= s.level
    ensures Apply(c, s, ev).score >= s.score
  {
  }

  /**
   * After `onPlayerDied` nothing restarts: no level begins (so `startLevel`
   * and the spawn timer do nothing), and level and quota stay put.
   */
  lemma GameOverIsFinal(c: V2Config, s: V2State, ev: Event)
    requires Inv(s) && s.gameOver
    ensures var t := Apply(c, s, ev);
      t.gameOver && !t.levelInProgress && t.spawnTimer.None?
      && t.level == s.level && t.enemiesRemaining == s.enemiesRemaining
  {
  }

  lemma {:induction false} GameOverIsFinalRun(c: V2Config, s: V2State, evs: seq<Event>)
    requires Inv(s) && s.gameOver
    ensures var t := Run(c, s, evs);
      t.gameOver && !t.levelInProgress && t.spawnTimer.None?
      && t.level == s.level && t.enemiesRemaining == s.enemiesRemaining
    decreases |evs|
  {
    if evs != [] {
      GameOverIsFinal(c, s, evs[0]);
      StepPreservesInv(c, s, evs[0]);
      GameOverIsFinalRun(c, Apply(c, s, evs[0]), evs[1..]);
    }
  }

  /** `onPlayerDied` ends the game, and a second call changes nothing. */
  lemma PlayerDiedIdempotent(s: V2State)
    requires Inv(s)
    ensures PlayerDiedStep(s).gameOver && !PlayerDiedStep(s).levelInProgress
    ensures PlayerDiedStep(PlayerDiedStep(s)) == PlayerDiedStep(s)
    ensures PlayerDiedStep(s).score == s.score && PlayerDiedStep(s).level == s.level
  {
  }

  /** `startLevel` after game over is a no-op, and `spawnEnemy` spawns nothing (see `GameManagerV2.SpawnEnemy`). */
  lemma StartLevelAfterGameOver(c: V2Config, s: V2State)
    requires s.gameOver
    ensures StartLevelStep(c, s) == s
  {
  }

  /**
   * `completeLevel` awards the bonus and advances exactly when a level is in
   * progress and the game is not over, so a second call in a row awards nothing.
   */
  lemma CompleteLevelAwardsOnce(s: V2State)
    ensures var t := CompleteLevelStep(s);
      if s.levelInProgress && !s.gameOver
      then t.score == s.score + 100 * s.level && t.level == s.level + 1 && !t.levelInProgress
      else t == s
    ensures CompleteLevelStep(CompleteLevelStep(s)) == CompleteLevelStep(s)
  {
  }

  /** The spawn timer spends exactly one unit of quota per spawned enemy and none otherwise. */
  lemma SpawnTickSpendsQuota(c: V2Config, s: V2State)
    requires Inv(s)
    ensures Spawns(c, s) ==> SpawnTickStep(c, s).enemiesRemaining == s.enemiesRemaining - 1
    ensures !Spawns(c, s) ==> SpawnTickStep(c, s).enemiesRemaining == s.enemiesRemaining
    ensures SpawnTickStep(c, s).enemiesRemaining >= 0
    ensures Spawns(c, s) ==> SpawnTickStep(c, s).activeEnemies == s.activeEnemies
  {
  }

  /** Unregistering an enemy that is not listed leaves the list and the counter alone. */
  lemma UnregisterAbsent(s: V2State, enemy: EntityId)
    requires enemy !in s.activeEnemies
    ensures UnregisterStep(s, enemy).activeEnemies == s.activeEnemies
    ensures UnregisterStep(s, enemy).activeEnemiesCount == s.activeEnemiesCount
  {
  }

  /** Registering and then unregistering the same enemy restores the list (up to which duplicate goes). */
  lemma RegisterThenUnregister(s: V2State, enemy: EntityId)
    ensures var t := UnregisterStep(RegisterStep(s, enemy), enemy);
      multiset(t.activeEnemies) == multiset(s.activeEnemies)
      && t.activeEnemiesCount == s.activeEnemiesCount
      && (enemy !in s.activeEnemies ==> t.activeEnemies == s.activeEnemies)
  {
    AppendThenRemove(s.activeEnemies, enemy);
  }

  // The per-type stat table of `spawnEnemy`.

  datatype EnemyType = Normal | Fast | Tank | Sniper

  datatype EnemyStats = EnemyStats(
    health: real, speed: real, attackPower: real, attackRate: real,
    weaponDamage: real, weaponRange: real, weaponAccuracy: real, color: string)

  /** Level-independent base values per type (the `switch` arms before the multipliers). */
  function BaseStats(t: EnemyType): EnemyStats
  {
    match t
    case Fast => EnemyStats(70.0, 3.5, 8.0, 0.8, 10.0, 30.0, 0.6, "blue")
    case Tank => EnemyStats(200.0, 1.5, 15.0, 1.2, 20.0, 40.0, 0.7, "purple")
    case Sniper => EnemyStats(80.0, 1.8, 5.0, 1.5, 30.0, 70.0, 0.9, "green")
    case Normal => EnemyStats(100.0, 2.0, 10.0, 1.0, 15.0, 50.0, 0.7, "red")
  }

  /** The least seconds between attacks a type reaches. */
  function AttackRateFloor(t: EnemyType): real
  {
    match t
    case Fast => 0.3
    case Tank => 0.8
    case Sniper => 1.0
    case Normal => 0.5
  }

  /** The attributes `spawnEnemy` gives an enemy of type `t` at `level`. */
  function Stats(t: EnemyType, level: Level): EnemyStats
  {
    var l := level as real;
    var b := BaseStats(t);
    EnemyStats(
      b.health * (1.0 + l * 0.2),
      b.speed * (1.0 + l * 0.1),
      b.attackPower * (1.0 + l * 0.15),
      Max(AttackRateFloor(t), b.attackRate - l * 0.05),
      b.weaponDamage * (1.0 + l * 0.15),
      b.weaponRange,
      b.weaponAccuracy,
      b.color)
  }

  /** The attack interval never drops below its floor, never grows with the level, and sits on the floor from level 10 on. */
  lemma AttackRateBounds(t: EnemyType, l1: Level, l2: Level)
    requires l1 <= l2
    ensures Stats(t, l1).attackRate >= AttackRateFloor(t)
    ensures Stats(t, l2).attackRate <= Stats(t, l1).attackRate
    ensures l1 >= 10 ==> Stats(t, l1).attackRate == AttackRateFloor(t)
  {
  }

  /** Health, speed, attack power and weapon damage grow strictly with the level; range, accuracy and colour do not change. */
  lemma StatsGrowWithLevel(t: EnemyType, l1: Level, l2: Level)
    requires l1 < l2
    ensures Stats(t, l1).health < Stats(t, l2).health
    ensures Stats(t, l1).speed < Stats(t, l2).speed
    ensures Stats(t, l1).attackPower < Stats(t, l2).attackPower
    ensures Stats(t, l1).weaponDamage < Stats(t, l2).weaponDamage
    ensures Stats(t, l1).weaponRange == Stats(t, l2).weaponRange == BaseStats(t).weaponRange
    ensures Stats(t, l1).weaponAccuracy == Stats(t, l2).weaponAccuracy
  {
  }

  class GameManagerV2 {
    const config: V2Config
    var score: int
    var level: Level
    var enemiesRemaining: int
    var activeEnemies: seq<EntityId>
    var activeEnemiesCount: int
    var gameOver: bool
    var levelInProgress: bool
    var gameStarted: bool
    var spawnTimer: Option<real>

    function State(): V2State
      reads this
    {
      V2State(score, level, enemiesRemaining, activeEnemies, activeEnemiesCount,
              gameOver, levelInProgress, gameStarted, spawnTimer)
    }

    ghost predicate Valid()
      reads this
    {
      Inv(State())
    }

    /** `init` */
    constructor (config: V2Config, level: Level)
      ensures this.config == config
      ensures Valid() && State() == Initial(config, level)
    {
      this.config := config;
      score := 0;
      this.level := level;
      enemiesRemaining := config.enemyCount * level;
      activeEnemies := [];
      activeEnemiesCount := 0;
      gameOver := false;
      levelInProgress := false;
      gameStarted := false;
      spawnTimer := None;
    }

    method StartGame()
      requires Valid()
      modifies this
      ensures Valid() && State() == StartGameStep(old(State()))
    {
      if gameStarted {
        return;
      }
      gameStarted := true;
    }

    method StartLevel()
      requires Valid()
      modifies this
      ensures Valid() && State() == StartLevelStep(config, old(State()))
    {
      if gameOver {
        return;
      }
      levelInProgress := true;
      enemiesRemaining := config.enemyCount * level;
      StartSpawningEnemies();
    }

    /** `startSpawningEnemies`: replace any running spawn timer with one at the level's rate. */
    method StartSpawningEnemies()
      modifies this`spawnTimer
      ensures spawnTimer == Some(SpawnRate(config.enemySpawnInterval, level))
    {
      spawnTimer := Some(SpawnRate(config.enemySpawnInterval, level));
    }

    /** `spawnEnemy` with the randomly drawn type: the stats of the enemy it creates, none after game over. */
    method SpawnEnemy(chosen: EnemyType) returns (spawned: Option<EnemyStats>)
      ensures gameOver ==> spawned.None?
      ensures !gameOver ==> spawned == Some(Stats(chosen, level))
    {
      if gameOver {
        return None;
      }
      return Some(Stats(chosen, level));
    }

    /** One firing of the spawn timer; `spawned` is the enemy `spawnEnemy` creates, if any. */
    method SpawnTick(chosen: EnemyType) returns (spawned: Option<EnemyStats>)
      requires Valid()
      modifies this
      ensures Valid() && State() == SpawnTickStep(config, old(State()))
      ensures spawned == if Spawns(config, old(State())) then Some(Stats(chosen, old(level))) else None
    {
      spawned := None;
      if spawnTimer.None? {
        return;
      }
      if gameOver {
        // Not reachable: `onPlayerDied` clears the timer when it ends the game.
        assert false;
      }
      if activeEnemiesCount < config.maxActiveEnemies && enemiesRemaining > 0 {
        spawned := SpawnEnemy(chosen);
        enemiesRemaining := enemiesRemaining - 1;
      } else if enemiesRemaining == 0 && activeEnemiesCount == 0 && levelInProgress {
        CompleteLevel();
      }
    }

    method RegisterEnemy(enemy: EntityId)
      requires Valid()
      modifies this
      ensures Valid() && State() == RegisterStep(old(State()), enemy)
    {
      activeEnemies := activeEnemies + [enemy];
      activeEnemiesCount := activeEnemiesCount + 1;
    }

    /** The `indexOf` + `splice` part of `unregisterEnemy`. */
    method DropEnemy(enemy: EntityId)
      requires Valid()
      modifies this`activeEnemies, this`activeEnemiesCount
      ensures Valid()
      ensures activeEnemies == RemoveFirst(old(activeEnemies), enemy)
      ensures activeEnemiesCount == if enemy in old(activeEnemies) then old(activeEnemiesCount) - 1
                                    else old(activeEnemiesCount)
    {
      var index := IndexOf(activeEnemies, enemy);
      if index != -1 {
        activeEnemies := activeEnemies[..index] + activeEnemies[index + 1..];
        activeEnemiesCount := activeEnemiesCount - 1;
      }
    }

    method UnregisterEnemy(enemy: EntityId)
      requires Valid()
      modifies this
      ensures Valid() && State() == UnregisterStep(old(State()), enemy)
    {
      DropEnemy(enemy);
      if enemiesRemaining == 0 && activeEnemiesCount == 0 && levelInProgress {
        CompleteLevel();
      }
    }

    method EnemyKilled()
      requires Valid()
      modifies this
      ensures Valid() && State() == EnemyKilledStep(old(State()))
    {
      score := score + 10 * level;
    }

    method CompleteLevel()
      requires Valid()
      modifies this
      ensures Valid() && State() == CompleteLevelStep(old(State()))
    {
      if !levelInProgress || gameOver {
        return;
      }
      levelInProgress := false;
      spawnTimer := None;
      score := score + 100 * level;
      level := level + 1;
    }

    method OnPlayerDied()
      requires Valid()
      modifies this
      ensures Valid() && State() == PlayerDiedStep(old(State()))
    {
      if gameOver {
        return;
      }
      gameOver := true;
      levelInProgress := false;
      spawnTimer := None;
    }

    method Tick()
      requires Valid()
      modifies this
      ensures Valid() && State() == TickStep(old(State()))
    {
      if levelInProgress && enemiesRemaining == 0 && activeEnemiesCount == 0 {
        CompleteLevel();
      }
    }
  }
}
