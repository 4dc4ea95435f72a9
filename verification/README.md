# Hover-bike shooter: game components in Dafny

The game is a browser shooter built from A-Frame components: a hovering player, enemies that
chase and shoot, a hit-scan weapon, hitboxes, a game manager that runs waves and levels, and a
position debugger. This project models the game logic of those components and proves properties
about it.

Several component files register the same component name twice, each time guarded by "not
registered yet". This applies to `game-manager` and `player-component`. Only the first body of
each is live in the browser. Both bodies are modelled here, as two classes.

Modules:

- `Common`: the values the components share.
  - optional values and 3D vectors;
  - the clamped damage `Math.max(0, health - amount)`;
  - the view other components take of the game manager: none, first registration or second
    registration;
  - the `indexOf` + `splice(index, 1)` idiom, as `RemoveFirst`.
- `GameManager`: both game-manager registrations.
  - First registration, `GameManagerV1`: waves of `enemyCount + (level - 1) * 2` enemies, 100
    points per destroyed enemy times the level, and the three-second and two-second timers that
    lead to the next level.
  - Second registration, `GameManagerV2`: a state machine over a `V2State` snapshot. A spawn
    interval whose period shrinks with the level works through a quota of enemies, capped by the
    number active at once. Levels complete with a bonus, and the game ends for good when the
    player dies. Each method that handles a whole event is proved equal to a pure step function,
    and the step functions keep an invariant. The helpers `StartSpawningEnemies`, `SpawnEnemy`
    and `DropEnemy` are specified on their own.
  - The per-type enemy stat table of `spawnEnemy`.
- `Enemy`: `enemy-component`.
  - Health clamped at 0, a death that happens once, and the idle/chase/attack choice.
  - The cooldown gates of melee and shooting, where an undefined "last time" lets the first action
    through.
  - The health-bar colour, and how the enemy is registered with and unregistered from the manager.
- `Player`: both `player-component` registrations.
  - The movement-key flags (first registration) or key dictionary (second registration).
  - Clamped damage and death, and the health-bar colour.
- `Weapon`: `weapon-component`.
  - The guards of `fire` and ammunition accounting.
  - Left-button and touch handling, and automatic fire on `tick`.
  - Hit resolution: a direct ray, then five offset rays. Each ray is resolved to the nearest
    A-Frame entity on the hit object's parent chain.
- `Hitbox`: `hitbox-component` and `hitbox`.
  - Box sizes taken from geometry with `|| 1` defaults.
  - The strict axis-aligned overlap test, proved equivalent to "the two open boxes share a point".
  - The child box's placement, and the page-wide `HITBOX_REGISTRY`.
- `Utils`: `GAME_UTILS.formatNumber` on integers. The regular expression
  `/\B(?=(\d{3})+(?!\d))/g` is read literally, position by position. It is proved to give the
  grouping "one to three digits, then `,ddd` groups".
- `PositionDebug`: `enhanced-position-debug`.
  - The trajectory history, a first-in first-out buffer of at most 50 points that only records
    moves longer than 0.2.
  - Its toggle, and the `refreshRate` throttle on `tick`.

Inputs the code draws from outside are parameters of the model:

- `Math.random` choices: the enemy type, the aim and the spread of each ray;
- the clock (`Date.now`, the tick time);
- raycasts, modelled as a function from a direction to the intersections it yields, nearest first;
- what the DOM lookups find (the game manager, the player, the camera, components on entities).

Timer callbacks (`setTimeout`, `setInterval`) are methods the scheduler calls.

Where the code and the natural reading of the design differ, the model follows the code.

- `GameManagerV1.startGame` has no guard, so each call spawns another wave.
- In `hitbox`, `createHitbox` runs before `isEnemy` is assigned. Every mesh is therefore marked as
  an "object" hitbox.
- The enemy's `isActive`, `weaponRaycaster` and `maxHealth` are read but never assigned. The
  enemy's invariant keeps the first two false, so its `tick` always stops at its guard and no shot
  of `updateAI` lands.
- The YUKA vehicle exists only under the second game manager. Without it:
  - a hit while the player is present throws, which the `Faulted` outcome records;
  - `die` throws at `entityManager.remove`, so the kill is never reported.
- `remove` unregisters the component object, not the entity it registered, so the entity stays
  listed.
- The live player's `die` calls `playerDied()`, which neither game manager defines.
- The weapon's defaults are `ammo: -1` with `infiniteAmmo: true`, and they never fire.
- `updateTrajectory` compares the first point with itself, so an empty history never grows.

## Model

| member | source | states |
|---|---|---|
| Common.Damaged | public/components/enemy-component.js:414 | the health after a hit is never negative; it is 0 exactly when the hit is at least the health, and otherwise health minus the hit |
| Common.GameRunning | public/components/weapon-component.js:174-175 | no contract; a manager exists and its game has started, the test `FireGate` makes |
| Common.IndexOf | public/components/game-manager.js:76 | `indexOf` gives -1 exactly when the entry is absent; otherwise it gives an index holding the entry with no earlier occurrence |
| Common.RemoveFirst | public/components/game-manager.js:76-81 | `indexOf` + `splice(i, 1)` removes one occurrence, the first; an absent entry changes nothing; the entries before and after keep their order |
| Common.AppendThenRemove | public/components/game-manager.js:198-219 | pushing an entry and then removing it gives back the same multiset, and exactly the old list when the entry was not there before |
| Utils.Decimal | public/components/utils.js:235 | `toString` of a natural number is all digits, with no leading zero; it has one, at most two or at most three digits exactly below 10, 100 or 1000 |
| Utils.ToString | public/components/utils.js:235 | no contract; `toString` of an integer, a minus sign before the digits of a negative one; properties in `FormatNumberStripsToString` |
| Utils.DigitRun | public/components/utils.js:235 | the length of the maximal run of digits at a position, which is what the lookahead `(\d{3})+(?!\d)` measures |
| Utils.InsertSeparators | public/components/utils.js:235 | no contract; the literal global replacement; properties in `FormatNumberIsGrouped` |
| Utils.FormatNumber | public/components/utils.js:234-236 | no contract; `formatNumber` on an integer; properties in `FormatNumberIsGrouped`, `FormatNumberStripsToString`, `FormatNumberSmall` and `FormatNumberShape` |
| Utils.FormatNumberIsGrouped | public/components/utils.js:234-236 | the literal global replacement of `\B(?=(\d{3})+(?!\d))` by "," gives the sign, then a leading group of one to three digits, then ",ddd" groups |
| Utils.GroupedProperties | public/components/utils.js:235 | the grouping keeps the digits in order; it has (digits - 1) / 3 commas, each followed by exactly three digits; it starts and ends with a digit; at most three digits are left unchanged |
| Utils.FormatNumberStripsToString | public/components/utils.js:234-236 | removing the commas from `formatNumber(n)` gives back `n.toString()` |
| Utils.FormatNumberSmall | public/components/utils.js:234-236 | numbers from 0 to 999 are printed unchanged |
| Utils.FormatNumberShape | public/components/utils.js:234-236 | for n >= 0 there is no leading or trailing comma, the leading group has one to three digits, every comma separates three digits, and there are (digits - 1) / 3 commas |
| Hitbox.OrOne | public/components/hitbox-component.js:14-16 | `value \|\| 1` gives 1 for undefined or 0, and the value otherwise; it is never 0 |
| Hitbox.InitialHitbox | public/components/hitbox-component.js:5-17 | `el.hitbox` is a unit box, overridden by each non-zero geometry size |
| Hitbox.BoxOrUnit | public/components/hitbox-component.js:37-38 | no contract; `el.hitbox` or the unit box; properties in `MissingHitboxIsUnitBox` |
| Hitbox.Overlap | public/components/hitbox-component.js:41-45 | no contract; the strict per-axis centre test; properties in `OverlapIffSharedPoint`, `TouchingDoesNotCollide` and `CollidesWithSymmetric` |
| Hitbox.CollidesWith | public/components/hitbox-component.js:26-46 | a missing other entity, or one without `object3D`, never collides |
| Hitbox.CollidesWithSymmetric | public/components/hitbox-component.js:37-45 | `a.collidesWith(b)` equals `b.collidesWith(a)` |
| Hitbox.MissingHitboxIsUnitBox | public/components/hitbox-component.js:37-38 | an entity with no `hitbox` collides exactly like one with a 1 x 1 x 1 box, on either side |
| Hitbox.TouchingDoesNotCollide | public/components/hitbox-component.js:41-45 | the comparisons are strict, so boxes that only touch on a face do not collide |
| Hitbox.AxisMeet | public/components/hitbox-component.js:42-44 | on one axis, with positive sizes, the centre-distance test holds exactly when the two open intervals meet |
| Hitbox.OverlapIffSharedPoint | public/components/hitbox-component.js:41-45 | for positive sizes, the overlap test holds exactly when some point lies inside both open boxes |
| Hitbox.HitboxPosition | public/components/hitbox-component.js:97 | the child box is placed at the offset, raised by half the height |
| Hitbox.HitboxSpansFromOffset | public/components/hitbox-component.js:97 | the child box spans from the offset's height up to the offset plus the box height |
| Hitbox.Registry.constructor | public/components/hitbox-component.js:79 | `HITBOX_REGISTRY` starts undefined |
| Hitbox.Registry.Register | public/components/hitbox-component.js:79-82 | the list is created if needed, and the component is appended with one more occurrence |
| Hitbox.Registry.Unregister | public/components/hitbox-component.js:175-180 | the first occurrence is removed, if the list exists |
| Hitbox.HitboxComponent.constructor | public/components/hitbox-component.js:66-138 | the box has the schema sizes at the raised offset; the mesh is marked non-enemy because `isEnemy` is set afterwards; the component is appended to the registry |
| Hitbox.HitboxComponent.Update | public/components/hitbox-component.js:140-156 | the box takes the new sizes and the new raised offset; nothing else changes |
| Hitbox.HitboxComponent.Tick | public/components/hitbox-component.js:158-170 | the mesh is hidden exactly when this is an enemy hitbox whose enemy component reports `isDead`; otherwise visibility is kept |
| Hitbox.HitboxComponent.Remove | public/components/hitbox-component.js:172-189 | the component's first registry entry is removed, and whether the registry exists is unchanged |
| PositionDebug.PushCapped | public/components/enhanced-position-debug.js:148-159 | the push keeps the cap of 50 and puts the point last; below the cap it appends, and at the cap it also drops the oldest point |
| PositionDebug.SquaredThreshold | public/components/enhanced-position-debug.js:152 | for a distance d >= 0, `d > 0.2` is the same as the squared comparison `d * d > 0.04` |
| PositionDebug.Record | public/components/enhanced-position-debug.js:144-161 | no contract; one `updateTrajectory` on a visible line; properties in `RecordAppendsFarPoints` and `EmptyHistoryNeverGrows` |
| PositionDebug.Replay | public/components/enhanced-position-debug.js:144-161 | no contract; a run of `updateTrajectory` calls; properties in `ReplayBounded` and `EmptyHistoryNeverGrows` |
| PositionDebug.RecordAppendsFarPoints | public/components/enhanced-position-debug.js:148-159 | the history changes only for a point more than 0.2 from the last one, and such a point is appended at the end |
| PositionDebug.ReplayBounded | public/components/enhanced-position-debug.js:144-177 | no run of updates takes the history past 50 points |
| PositionDebug.EmptyHistoryNeverGrows | public/components/enhanced-position-debug.js:148-152 | starting empty, the history stays empty under any positions |
| PositionDebug.PositionDebugComponent.constructor | public/components/enhanced-position-debug.js:12-35 | an empty history, last update 0, and a visible line exactly when `showTrajectory` |
| PositionDebug.PositionDebugComponent.UpdateTrajectory | public/components/enhanced-position-debug.js:144-177 | with a visible line the history records the position; otherwise it is unchanged; the cap is kept |
| PositionDebug.PositionDebugComponent.ToggleTrajectory | public/components/enhanced-position-debug.js:179-191 | visibility flips exactly when a line exists |
| PositionDebug.PositionDebugComponent.Tick | public/components/enhanced-position-debug.js:297-367 | a refresh happens exactly when `refreshRate * 1000` ms have passed, and then records the time; the trajectory updates only when refreshed with player, camera, loaded scene and visible line |
| GameManager.WaveSize | public/components/game-manager.js:40-41 | `enemyCount + (level - 1) * 2` loop iterations, or none when that is negative |
| GameManager.WaveGrowsByTwo | public/components/game-manager.js:40 | each level adds two enemies to a non-empty wave |
| GameManager.V1Stats | public/components/game-manager.js:58-60 | at level 1 an enemy has health 50, speed 3, damage 10, and never less at higher levels |
| GameManager.V1StatsIncrease | public/components/game-manager.js:58-60 | health, speed and damage grow strictly with the level |
| GameManager.FreshIds | public/components/game-manager.js:43 | the wave's entities are new and consecutively numbered |
| GameManager.GameManagerV1.constructor | public/components/game-manager.js:10-14 | no enemies, score 0, game not started, level not complete, no enemy created yet |
| GameManager.GameManagerV1.StartGame | public/components/game-manager.js:32-37 | the game is marked started and a new wave is appended, on every call |
| GameManager.GameManagerV1.SpawnEnemies | public/components/game-manager.js:39-73 | exactly `WaveSize` fresh enemies are appended after the old ones, each written with the level's stats; level, score and flags are unchanged |
| GameManager.GameManagerV1.OnEnemyDestroyed | public/components/game-manager.js:75-92 | the first occurrence is removed; the score rises by 100 times the level even for an unlisted enemy; the next level is scheduled exactly when the list empties in a started game not already complete |
| GameManager.GameManagerV1.DropEnemy | public/components/game-manager.js:76-81 | the first occurrence of the enemy leaves the list, and the ids stay below the next fresh one |
| GameManager.GameManagerV1.NextLevel | public/components/game-manager.js:94-101 | the level rises by one and the completion flag clears |
| GameManager.GameManagerV1.NextLevelWave | public/components/game-manager.js:103-107 | the delayed wave at the new level is appended |
| GameManager.Initial | public/components/game-manager.js:129-148 | level from the schema; a quota of `enemyCount * level`; score 0; no enemies; not started, not in progress, no timer |
| GameManager.SpawnRate | public/components/game-manager.js:180 | the spawn period is `max(500, interval / level)` |
| GameManager.SpawnRateShrinks | public/components/game-manager.js:180 | the period never exceeds an interval of at least 500 and never grows with the level |
| GameManager.Inv | public/components/game-manager.js:129-466 | no contract; the invariant: the counter matches the list, the quota is non-negative, a timer runs at 500 ms or more, a finished game has no level or timer; kept by `StepPreservesInv` |
| GameManager.StartGameStep | public/components/game-manager.js:149-160 | no contract; `startGame`; the method `GameManagerV2.StartGame` is proved equal to it |
| GameManager.StartLevelStep | public/components/game-manager.js:161-174 | no contract; `startLevel`; properties in `StartLevelAfterGameOver` and `GameOverIsFinal` |
| GameManager.Spawns | public/components/game-manager.js:181-188 | no contract; the spawn condition of the interval callback; properties in `SpawnTickSpendsQuota` |
| GameManager.SpawnTickStep | public/components/game-manager.js:181-193 | no contract; one firing of the spawn interval; properties in `SpawnTickSpendsQuota` |
| GameManager.RegisterStep | public/components/game-manager.js:198-205 | no contract; `registerEnemy`; properties in `RegisterThenUnregister` |
| GameManager.UnregisterStep | public/components/game-manager.js:206-219 | no contract; `unregisterEnemy`; properties in `UnregisterAbsent` and `RegisterThenUnregister` |
| GameManager.EnemyKilledStep | public/components/game-manager.js:363-375 | no contract; `enemyKilled`; properties in `StepProgresses` |
| GameManager.CompleteLevelStep | public/components/game-manager.js:397-416 | no contract; `completeLevel`; properties in `CompleteLevelAwardsOnce` |
| GameManager.PlayerDiedStep | public/components/game-manager.js:417-437 | no contract; `onPlayerDied`; properties in `PlayerDiedIdempotent` and `GameOverIsFinal` |
| GameManager.TickStep | public/components/game-manager.js:454-466 | no contract; `tick`; properties in `StepPreservesInv` and `GameOverIsFinal` |
| GameManager.Apply | public/components/game-manager.js:149-466 | no contract; one operation of the second manager; properties in `StepPreservesInv`, `StepProgresses` and `GameOverIsFinal` |
| GameManager.Run | public/components/game-manager.js:149-466 | no contract; a sequence of operations; properties in `RunPreservesInv` and `GameOverIsFinalRun` |
| GameManager.InitialInv | public/components/game-manager.js:129-148 | the initial state meets the invariant: the counter matches the list, the quota is non-negative, a timer runs at 500 ms or more, and a finished game has no level and no timer |
| GameManager.StepPreservesInv | public/components/game-manager.js:149-466 | every operation of the second manager keeps the invariant |
| GameManager.RunPreservesInv | public/components/game-manager.js:149-466 | any sequence of operations keeps the invariant |
| GameManager.StepProgresses | public/components/game-manager.js:363-416 | no operation lowers the level or the score |
| GameManager.GameOverIsFinal | public/components/game-manager.js:417-437 | after game over, no operation starts a level, runs a timer, or changes the level or the quota |
| GameManager.GameOverIsFinalRun | public/components/game-manager.js:417-437 | the same holds for any sequence of operations after game over |
| GameManager.PlayerDiedIdempotent | public/components/game-manager.js:417-437 | `onPlayerDied` ends the game, keeps score and level, and a second call changes nothing |
| GameManager.StartLevelAfterGameOver | public/components/game-manager.js:161-163 | `startLevel` after game over is a no-op |
| GameManager.CompleteLevelAwardsOnce | public/components/game-manager.js:397-416 | the bonus of 100 times the level and the level increase happen exactly when a level is in progress and the game is not over; a repeated call changes nothing |
| GameManager.SpawnTickSpendsQuota | public/components/game-manager.js:181-193 | a spawn costs exactly one unit of quota and any other firing costs none; the quota never goes negative |
| GameManager.UnregisterAbsent | public/components/game-manager.js:206-212 | unregistering an unlisted enemy leaves the list and counter alone |
| GameManager.RegisterThenUnregister | public/components/game-manager.js:198-212 | register then unregister restores the multiset and the counter, and the exact list for a new enemy |
| GameManager.AttackRateBounds | public/components/game-manager.js:283-335 | the attack interval stays at or above the type's floor, never grows with the level, and is at the floor from level 10 on |
| GameManager.StatsGrowWithLevel | public/components/game-manager.js:283-335 | health, speed, attack power and weapon damage grow strictly with the level; range and accuracy are fixed |
| GameManager.BaseStats | public/components/game-manager.js:291-335 | no contract; the per-type constants of the stat switch; properties in `StatsGrowWithLevel` |
| GameManager.AttackRateFloor | public/components/game-manager.js:291-335 | no contract; each type's `Math.max` floor on the attack rate; properties in `AttackRateBounds` |
| GameManager.Stats | public/components/game-manager.js:283-335 | no contract; the stat switch at a level; properties in `AttackRateBounds` and `StatsGrowWithLevel` |
| GameManager.GameManagerV2.constructor | public/components/game-manager.js:129-148 | the state is `Initial` and meets the invariant |
| GameManager.GameManagerV2.StartGame | public/components/game-manager.js:149-160 | the state follows `StartGameStep`: only the first call marks the game started |
| GameManager.GameManagerV2.StartLevel | public/components/game-manager.js:161-174 | the state follows `StartLevelStep`, so unless the game is over a level begins with a fresh quota and a spawn timer |
| GameManager.GameManagerV2.StartSpawningEnemies | public/components/game-manager.js:175-180 | the running timer is replaced by one at `SpawnRate` |
| GameManager.GameManagerV2.SpawnEnemy | public/components/game-manager.js:273-362 | no enemy after game over; otherwise one with the type's stats at the current level |
| GameManager.GameManagerV2.SpawnTick | public/components/game-manager.js:181-193 | the state follows `SpawnTickStep`, and an enemy is produced exactly when there is a timer, room and quota |
| GameManager.GameManagerV2.RegisterEnemy | public/components/game-manager.js:198-205 | the state follows `RegisterStep` and keeps the invariant |
| GameManager.GameManagerV2.DropEnemy | public/components/game-manager.js:208-212 | the first occurrence of the enemy leaves the list, and the counter drops by one exactly when it was listed; the invariant is kept |
| GameManager.GameManagerV2.UnregisterEnemy | public/components/game-manager.js:206-219 | the state follows `UnregisterStep` and keeps the invariant |
| GameManager.GameManagerV2.EnemyKilled | public/components/game-manager.js:363-375 | the state follows `EnemyKilledStep`: 10 points times the level |
| GameManager.GameManagerV2.CompleteLevel | public/components/game-manager.js:397-416 | the state follows `CompleteLevelStep` and keeps the invariant |
| GameManager.GameManagerV2.OnPlayerDied | public/components/game-manager.js:417-437 | the state follows `PlayerDiedStep` and keeps the invariant |
| GameManager.GameManagerV2.Tick | public/components/game-manager.js:454-466 | the state follows `TickStep`, completing an emptied level whose quota is spent |
| Enemy.ConfigFromStats | public/components/game-manager.js:337-347 | a spawned enemy gets the stat table's health, speed, attack power, attack rate, weapon damage, range and accuracy, over the schema's default detection range, attack range and cooldown |
| Enemy.SpawnedMeleeGap | public/components/game-manager.js:291-347 | a spawned enemy's attack interval is at least its type's floor |
| Enemy.ChooseState | public/components/enemy-component.js:200-227 | attack exactly within both ranges, chase within detection but beyond attack range, idle beyond detection |
| Enemy.CloserIsNoLessAggressive | public/components/enemy-component.js:200-227 | coming closer never moves an enemy to a less aggressive state |
| Enemy.ReadyStaysReady | public/components/enemy-component.js:104-106 | an open gate stays open as time passes, and an action shuts it for a full period |
| Enemy.Ready | public/components/enemy-component.js:101-106 | no contract; the cooldown gate, open when the last time is undefined; properties in `ReadyStaysReady` |
| Enemy.DamagedBySum | public/components/enemy-component.js:414 | a series of non-negative hits leaves `max(0, health - total)` |
| Enemy.DamagedBy | public/components/enemy-component.js:409-416 | no contract; a series of `takeDamage` calls on a living enemy; properties in `DamagedBySum` |
| Enemy.HealthBarColor | public/components/enemy-component.js:392-404 | red at or below 25 %, yellow up to 50 %, green above |
| Enemy.HealthBarWidth | public/components/enemy-component.js:392-397 | the bar width is 0.98 of the non-negative fraction, never negative, at most 0.98 |
| Enemy.HealthBarColorMonotone | public/components/enemy-component.js:392-404 | more health never shows a more alarming colour |
| Enemy.RegisteredAs | public/components/enemy-component.js:47-48 | the entity is registered exactly with the second manager, under its own id |
| Enemy.RemovedEnemyStaysListed | public/components/enemy-component.js:761-771 | after `remove`, the registered entity is still listed and the counter is one higher |
| Enemy.EnemyComponent.constructor | public/components/enemy-component.js:17-58 | full health; alive; vehicle, active behaviours and idle state exactly under the second manager; no cooldowns yet |
| Enemy.EnemyComponent.SetState | public/components/enemy-component.js:329-343 | the state becomes the given one; an equal state changes nothing |
| Enemy.EnemyComponent.Die | public/components/enemy-component.js:537-589 | dies once; the behaviours are switched off; the kill is reported exactly under the second manager; a dead enemy is unchanged |
| Enemy.EnemyComponent.TakeDamage | public/components/enemy-component.js:409-460 | dead: ignored and unchanged; otherwise clamped health and hit time; with the player present and no vehicle it throws, keeping state and behaviours; at 0 it dies with the behaviours off and the kill reported under the second manager; otherwise it chases, and only with the player present re-activates the behaviours; `isAlive`, the cooldown clocks and the never-assigned fields are kept |
| Enemy.EnemyComponent.AttackPlayer | public/components/enemy-component.js:344-358 | strikes exactly when the `attackRate` gate is open, for `attackPower`, to a player with a component |
| Enemy.EnemyComponent.EnemyShoot | public/components/enemy-component.js:99-150 | hits exactly when the cooldown is over, the player is present and in range, a raycaster exists and the ray reaches the player; only then is the time recorded |
| Enemy.EnemyComponent.UpdateAI | public/components/enemy-component.js:188-244 | dead or no player: unchanged; else the distance's state and behaviours active only when chasing; no shot lands and the shot clock is kept; the melee clock and damage follow the `attackRate` gate in the attack state and are untouched outside it; health, death, `isAlive` and the hit time are kept |
| Enemy.EnemyComponent.Tick | public/components/enemy-component.js:590-593 | the frame proceeds only for an active, living enemy, and since `isActive` is never assigned it never proceeds |
| Enemy.EnemyComponent.Remove | public/components/enemy-component.js:761-771 | unregisters, with a manager and a vehicle, the component's id, which is not the registered entity's |
| Player.KeyFlag | public/components/player-component.js:57-111 | W, S, A, D, Q and E map to forward, backward, left, right, up and down; other codes map to nothing |
| Player.KeyEvent | public/components/player-component.js:57-111 | no contract; a handled key event; properties in `KeyEventTouchesOneFlag` and `PressThenRelease` |
| Player.KeyDownIgnored | public/components/player-component.js:57-64 | no contract; the guard of `onKeyDown`; used by `PlayerV1.OnKeyDown` |
| Player.SetFlag | public/components/player-component.js:60-84 | one flag takes the value, and every other flag is kept |
| Player.KeyEventTouchesOneFlag | public/components/player-component.js:57-111 | a key event sets its code's flag and leaves every other flag alone; an unknown code changes nothing |
| Player.PressThenRelease | public/components/player-component.js:57-111 | press then release clears the key's flag and restores the others |
| Player.KeyFlagInjective | public/components/player-component.js:60-84 | no two codes drive the same flag |
| Player.PlayerHealthColor | public/components/player-component.js:146-161 | green above 60 %, yellow above 30 %, red otherwise |
| Player.HealthPercent | public/components/player-component.js:148 | health between 0 and full gives 0 to 100 %, and full health gives 100 % |
| Player.PlayerHealthColorMonotone | public/components/player-component.js:146-161 | less health never shows a brighter colour |
| Player.PlayerHealthColorEnds | public/components/player-component.js:146-161 | full health shows green and 0 health shows red |
| Player.DictPressThenRelease | public/components/player-component.js:354-360 | after press and release a key reads released, and other keys read as before |
| Player.Pressed | public/components/player-component.js:354-360 | no contract; reading `keysPressed[code]` as a condition; properties in `DictPressThenRelease` |
| Player.BothRegistrationsClampAlike | public/components/player-component.js:456-478 | both registrations leave the same health after a hit |
| Player.V2Damaged | public/components/player-component.js:456-478 | no contract; the second registration's subtract-then-reset; properties in `BothRegistrationsClampAlike` |
| Player.PlayerV1.constructor | public/components/player-component.js:17-43 | full health, alive, no keys held |
| Player.PlayerV1.OnKeyDown | public/components/player-component.js:57-87 | with a manager whose game has not started, nothing changes; otherwise the key's flag is set |
| Player.PlayerV1.OnKeyUp | public/components/player-component.js:89-111 | the key's flag is cleared, with no guard |
| Player.PlayerV1.Die | public/components/player-component.js:164-185 | the player is dead, and the call throws exactly when a game manager exists |
| Player.PlayerV1.TakeDamage | public/components/player-component.js:121-132 | dead: unchanged; otherwise clamped health, and death (which throws under a manager) exactly at 0 |
| Player.PlayerV2.constructor | public/components/player-component.js:310-339 | the schema's health and maximum, alive, no keys recorded |
| Player.PlayerV2.HandleKeyDown | public/components/player-component.js:354-356 | the code is recorded as pressed |
| Player.PlayerV2.HandleKeyUp | public/components/player-component.js:358-360 | the code is recorded as released |
| Player.PlayerV2.Die | public/components/player-component.js:496-514 | the player is no longer alive |
| Player.PlayerV2.TakeDamage | public/components/player-component.js:456-478 | not alive: unchanged; otherwise health drops to at least 0, and the player survives exactly while health minus the hit is positive |
| Weapon.Ancestor | public/components/weapon-component.js:286-299 | nothing exactly when no node on the chain has `el`; otherwise the first that does |
| Weapon.FindAncestorWithEl | public/components/weapon-component.js:286-299 | walking the `parent` links finds the `Ancestor` of the chain |
| Weapon.ProcessHit | public/components/weapon-component.js:301-325 | a hit exactly for an entity, and the weapon's `data.damage` dealt exactly to an entity with an enemy component, by its id |
| Weapon.RayHit | public/components/weapon-component.js:250-258 | no contract; one ray resolved through its nearest intersection; properties in `FirstHitIsEarliest` and `DirectRayFirst` |
| Weapon.FirstHit | public/components/weapon-component.js:239-284 | no contract; the first ray in order that resolves; properties in `FirstHitIsEarliest`, `FirstHitAppend` and `DirectRayFirst` |
| Weapon.FirstHitIsEarliest | public/components/weapon-component.js:239-284 | the search finds nothing exactly when no ray resolves; otherwise it finds the earliest ray that does |
| Weapon.FirstHitAppend | public/components/weapon-component.js:258-282 | searching two batches of rays finds the first batch's hit if it has one, and otherwise the second's |
| Weapon.DirectRayFirst | public/components/weapon-component.js:239-258 | the offset rays matter only when the direct ray resolves to nothing |
| Weapon.FireGate | public/components/weapon-component.js:172-182 | firing proceeds exactly with `canFire`, a started game and positive ammunition; a spent magazine is reported separately |
| Weapon.AmmoAfter | public/components/weapon-component.js:178-188 | no contract; the count after repeated `fire` calls; properties in `FiniteAmmo`, `InfiniteAmmo` and `DefaultsNeverFire` |
| Weapon.ShotsFired | public/components/weapon-component.js:178-188 | no contract; the shots those calls fire; properties in `FiniteAmmo`, `InfiniteAmmo` and `DefaultsNeverFire` |
| Weapon.FiniteAmmo | public/components/weapon-component.js:179-188 | with finite ammunition each shot costs one round; the count stops at 0; shots never outnumber rounds |
| Weapon.DefaultsNeverFire | public/components/weapon-component.js:12-13 | the schema defaults (`ammo: -1`, infinite) never fire |
| Weapon.InfiniteAmmo | public/components/weapon-component.js:179-188 | with infinite ammunition and a positive count every attempt fires and the count stays |
| Weapon.WeaponComponent.constructor | public/components/weapon-component.js:16-37 | not firing, the schema's ammunition, able to fire, five offset rays |
| Weapon.WeaponComponent.CheckForHits | public/components/weapon-component.js:239-284 | the ray direction is restored, and the hit is the earliest of the direct ray and the five offsets |
| Weapon.WeaponComponent.FireEffect | public/components/weapon-component.js:171-230 | no contract; it is the specification of `fire`: blocked, empty or open per `FireGate`; one round spent only when open and finite; then no camera, or the aim, the jittered offsets and the first hit; a call that casts no ray leaves the aim and the offset rays as they were |
| Weapon.WeaponComponent.Fire | public/components/weapon-component.js:171-230 | the state changes as `FireEffect` says |
| Weapon.WeaponComponent.OnMouseDown | public/components/weapon-component.js:156-163 | a left press or touch starts firing; a non-automatic weapon then fires once, with the effect `FireEffect` states; otherwise ammunition, aim and offset rays are unchanged |
| Weapon.WeaponComponent.OnMouseUp | public/components/weapon-component.js:165-169 | a left release or touch end stops firing; other events keep the state |
| Weapon.WeaponComponent.Tick | public/components/weapon-component.js:366-371 | an automatic weapon fires exactly while the trigger is held, with the effect `FireEffect` states; otherwise ammunition, aim and offset rays are unchanged |

## Left out

- Movement, steering and the camera are not modelled. This covers the YUKA vehicle's motion,
  `processControls`, hover motion, mouse look, collision avoidance between enemies and the
  third-person camera. They are continuous physics with floating point and no promised property.
- DOM and UI output is left out: score and health text, messages, damage numbers, muzzle flashes,
  sounds, meshes and the debug read-outs. The model assumes the HUD elements it writes exist. In
  the code a missing one throws. The first manager's `nextLevel` would then stop before setting
  the wave timer (game-manager.js:98-101). The second manager's `startLevel` would stop before
  resetting the quota and starting the spawn timer (game-manager.js:166-170).
- Random choices, the clock and raycasts are parameters, not computed (see above).
- `findValidSpawnPosition` and the spawn radius are left out. Positions are random and only drawn.
- The YUKA `entityManager` and its `add`/`remove`/`update` are foreign code. Only whether the
  vehicle exists is modelled.
- The restart listener after game over, `gameStartDelay` and the five-second restart guard are
  left out. They reload the page or wait on a timer that `startLevel`'s own game-over check
  already covers.
- Enemy `createHealthBar` is never called, so `updateHealthBar` returns early in practice. Its
  colour and width rules are modelled as functions on the health fraction rather than on the
  never-assigned `maxHealth`.
- `GameManager.Level`: levels below 1 are excluded from the second registration. The schema
  default is 1 and the code only increments it.
- `Player.HealthPercent`: requires a positive full health. The schema default is 100; a full
  health of 0 would divide by zero, and that case is not modelled.
- `Utils.FormatNumber`: only integers are modelled. Floating-point `toString` (decimals,
  exponents, `NaN`, `Infinity`) is not modelled.
- `Hitbox.OverlapIffSharedPoint`: holds only for positive sizes. For zero or negative sizes the
  centre test has no geometric meaning.
- `Hitbox.CollidesWith`: on a present other entity its contract states only the missing-entity
  cases. The overlap itself is given by the lemmas next to it.
- `GameManager.GameManagerV2.SpawnEnemy`: models only the returned stats. The enemy entity's
  creation and registration happen when the scene attaches `enemy-component`, which is
  `Enemy.EnemyComponent.constructor`.
- `GameManager.GameManagerV1`: the schema's `number` fields `enemyCount` and `level` are modelled
  as integers. A fractional level would change the wave size and the stats; it is not modelled.
- `GameManager.V2Config`: `enemyCount` is modelled as a natural number. A negative schema value
  would give a negative quota in the code, which the invariant `Inv` rules out; it is not modelled.
- Integer and real arithmetic are unbounded and exact. The game's numbers stay far from
  double-precision limits.
- The other component files (cameras, test helpers, error handlers, the simple position debug,
  the position tracker) are not part of this model.
