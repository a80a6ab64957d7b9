# htmlShooter game engine, in Dafny

A model of the simulation core of htmlShooter, a browser arcade shooter
written as one JavaScript file (`src/index.js`). A player at the bottom of a
700×600 field moves left and right and fires bullets upward at a grid of
enemies that drifts down. A starfield scrolls behind them. The model keeps
the game's own state record: the game flags, level and score, the player
with its held keys, the three entity configurations, and the bullet, enemy
and star maps keyed by entity id. It also models every function that
changes that record:

- creating and clearing waves;
- moving stars, bullets, enemies and the player;
- the hit test and scoring;
- the level, start, reset and game-over transitions;
- the clock tick;
- the two key handlers;
- the running session as a class whose state the tick and the handlers
  replace.

Modules, one per file:

- `Ids` (ids.dfy): id ranges, and the "smallest pending id" step. The
  `for…in` loops of the game visit integer keys in ascending order, and the
  loops of the model reproduce that order with this step.
- `World` (world.dfy): the state record, the default configuration and the
  boot state.
- `Waves` (waves.dfy): the wave layout of a level (`createEnemies`) and
  `removeEnemy`.
- `Starfield` (starfield.dfy): `createStarfield` and `updateStars`.
- `Bullets` (bullets.dfy): `createBullet`, `removeBullet`, the hit test and
  `updateBullets`.
- `Progress` (progress.dfy): `gameOver`, `resetGame`, `startGame` and
  `updateLevels`.
- `EnemyStep` (enemy_step.dfy): `updateEnemies`.
- `PlayerStep` (player_step.dfy): `updatePlayer`.
- `Engine` (engine.dfy): the tick, the key handlers, boot, and the
  invariant every session state keeps.
- `Session` (session.dfy): the mutable `state` of `main` as class
  `Shooter`.

Numbers are `real`, because enemy speeds are fractional (1.5 + level/4).
Ids, the level and the bullet counter are `nat`. The loops that mutate maps
in the game (`updateEnemies`, `updateStars`, `updateBullets`, the inner
enemy loop, and the two counting loops) are methods with loop invariants.
Each is proved equal to a loop-free description of its outcome:

- `updateBullets`: an enemy is destroyed exactly when some moved bullet hits
  it (`ShotDown`). A bullet survives exactly when it is still at or below the
  top edge and it hit no enemy that an earlier bullet had not already hit
  (`Survives`, `Scores`). The score grows by 10 per destroyed enemy.
- `updateEnemies`: an enemy moves exactly when no enemy with a smaller id
  would cross the bottom edge (`BreachBelow`). The game ends exactly when
  some enemy would (`AnyBreach`).
- `updateStars`: the map comprehension `StarsAfter`.

The model follows the code in these behaviours, which differ from what a
reader of the game's rules might expect:

- One bullet destroys every enemy it touches in a tick, each worth 10
  points. The inner loop does not stop at the first hit. It is not limited
  to one enemy.
- A bullet dropped for passing the top edge is still checked for hits in the same
  iteration.
- The hit test is the edge test of the code: one of the bullet's x-edges in
  the enemy's closed x-range, and one of its y-edges in the y-range.
  `HitsIsOverlap` proves that this is box overlap whenever the bullet is no
  larger than the enemy, which the default sizes guarantee.
- Enemies are objects mutated in place inside the shallow copy of the enemy
  map. So when an enemy crosses the bottom edge, the game-over state keeps
  the moves of that enemy and of every enemy before it, and the enemies
  after it stay where they were.
- The top-edge test is strict (`y < 0`), so a bullet exactly at y = 0
  survives. A bullet fired from the default height 580 at speed 10 is
  therefore dropped after 59 moves (`Lifetime` is floor(y/speed) + 1), not
  after 58. `BulletLeaves` proves this bound in general, and
  `DefaultBulletLifetime` gives the 59.

## Model

| member | source | states |
|---|---|---|
| World.DefaultState | src/index.js:19-59 | The boot state: level 1, score 0, not started, not over, empty maps, counter 0, fire allowed, no key held, default configuration, and the player inside the field, resting on the bottom edge. |
| Ids.Smallest | src/index.js:121 | The id a `for…in` loop visits next is a pending id no larger than any other pending id. |
| Ids.IdRangeSize | src/index.js:83 | The ids 0 .. n-1 handed out by a counting loop number exactly n. |
| Waves.WaveSizeFormula | src/index.js:78-79 | A wave has `(level+5)*(level+1)` enemies, at least one full row. |
| Waves.XStartCentred | src/index.js:81 | The first column starts where a row of `level+5` cells, each an enemy wide plus the padding, sits centred on the field. With the defaults that is `350 - 15*(level+5)`. |
| Waves.WaveEnemyPlacement | src/index.js:84-91 | Enemy `i` has id `i`. It sits at x = xStart + (i % perRow)*(width+10) and y = (i / perRow)*(height+10), moves at `enemyConfig.speed + level/4`, and has the configured size. |
| Waves.CreateEnemies | src/index.js:76-116 | Ids 0 .. count-1 are written with the wave enemies, and any other enemy is kept. On an empty map the result is exactly the wave (keys 0 .. count-1, each value the wave enemy of its key), with `count` enemies. Nothing but the enemies changes. |
| Waves.RemoveEnemy | src/index.js:144-154 | The key leaves the map and the other entries are kept. An absent key is a no-op, and a present one shrinks the map by one. |
| Waves.WaveCellsDistinct | src/index.js:85-88 | Two different enemies of a wave never share a position. |
| Waves.WaveInsideField | src/index.js:81-87 | When a row with its padding fits in the field, every enemy of the wave starts horizontally inside it. |
| Starfield.CreateStarfield | src/index.js:159-194 | Exactly 20 stars, keyed 0..19, each built from its drawn position and speed and the configured size. With in-range draws every star is inside the field. Nothing else changes. |
| Starfield.StepStar | src/index.js:201-214 | A star falls by its speed. Once below the bottom edge it restarts at y = 0 with the drawn column and speed. It always ends at or above the bottom edge, and keeps its id and size. |
| Starfield.StarsAfter | src/index.js:196-222 | The stars after a tick have the same ids as before. |
| Starfield.SkyPreserved | src/index.js:206-214 | With in-range draws, a tick keeps every star inside the field and at a speed in 5..54. |
| Starfield.UpdateStars | src/index.js:196-222 | The ascending-id loop moves every star as `StarsAfter` does, keeps the number of stars, and changes nothing else. |
| Bullets.HitsIsOverlap | src/index.js:468-475 | For a bullet no wider and no taller than the enemy, the edge-based hit test is box overlap with touching edges included. |
| Bullets.RemoveBullet | src/index.js:494-507 | The key leaves the map and the other entries are kept. An absent key returns an equal map. |
| Bullets.CreateBullet | src/index.js:416-447 | Exactly one bullet is added, under the old counter. It sits at the player's position, with the configured speed and size. The counter goes up by one, and nothing else changes. |
| Bullets.FiredIdIsNew | src/index.js:417-446 | While every id is below the counter, the new id is unused, the map grows by exactly one, and all ids stay below the new counter. |
| Bullets.Flown | src/index.js:456-457 | After `n` moves a bullet is `n` times its speed higher, and nothing else about it changes. |
| Bullets.BulletLeaves | src/index.js:456-462 | A bullet with a positive speed, fired inside the field, that hits nothing is dropped after a bounded number of ticks: after `Lifetime` moves it is above the top edge, and after every earlier move it is not. |
| Bullets.DefaultBulletLifetime | src/index.js:457-460 | A bullet fired from height 580 at speed 10 is exactly at the top edge after 58 moves, and is dropped only after 59. |
| Bullets.Strike | src/index.js:464-482 | The inner loop removes every enemy the moved bullet hits, adds 10 per removed enemy, and removes the bullet exactly when it hit something. |
| Bullets.Fly | src/index.js:456-482 | One bullet's visit: the bullet moves up by its speed, leaves the map when it passed the top edge or hit an enemy, and every enemy it hits is removed for 10 points. |
| Bullets.UpdateBullets | src/index.js:449-492 | Enemy ids only shrink, and an enemy is destroyed exactly when some moved bullet hits it. A bullet survives exactly when it is at or below the top edge and scored no kill, and every surviving bullet's y dropped by exactly its speed. The score rises by exactly 10 per destroyed enemy. Nothing else changes. |
| Progress.GameOver | src/index.js:318-338 | The game-over flag is set and nothing else changes. |
| Progress.ResetGame | src/index.js:288-316 | The result is the boot state with the old stars: the player back at (330, 580), score is 0 and level 1, the game is neither started nor over, bullets and enemies are empty, the counter is 0, fire is allowed, no key is held, and the configuration is the default. |
| Progress.StartGame | src/index.js:263-286 | The game is marked started and the wave of the current level is laid out: exactly the wave, on an empty enemy map. Nothing else changes. |
| Progress.UpdateLevels | src/index.js:340-356 | When the game is started, not over and has no enemy left, the level goes up by exactly one and the enemies become exactly the new level's wave. Otherwise the state is unchanged. |
| EnemyStep.Advance | src/index.js:123-128 | An enemy falls by exactly its speed and keeps its id, speed and size. |
| EnemyStep.UpdateEnemies | src/index.js:118-142 | The enemy ids are kept. An enemy is advanced exactly when no enemy with a smaller id crossed the bottom edge, and is otherwise left as it was. The game is over exactly when it was already over or some enemy crosses. Nothing else changes. |
| PlayerStep.UpdatePlayer | src/index.js:383-411 | Left moves by the speed only if the left edge stays at or right of 0, and right only if the right edge stays within the width. With both held, right is tested from the position after the left move: inside the field the two moves cancel when left applies, and otherwise only the right move can apply. A player inside the field stays inside. When fire is held and allowed, exactly one bullet is added under the old counter, at the pre-move position, the counter goes up by one and fire becomes disallowed. Otherwise the bullets and the counter are unchanged. |
| PlayerStep.HeldFireShootsOnce | src/index.js:402-405 | Holding the fire key for any number of player steps fires exactly one bullet if firing was allowed, and none otherwise. |
| Engine.HitsAreOverlaps | src/index.js:468-475 | In every session state the hit test between a moved bullet and an enemy is box overlap. |
| Engine.StarsKeepInv | src/index.js:530 | The star step keeps the session invariant, given in-range draws. |
| Engine.PlayerKeepsInv | src/index.js:532 | The player step of a running game keeps the session invariant. |
| Engine.BulletsKeepInv | src/index.js:533 | The bullet step keeps the session invariant: ids keyed and below the counter, and the score a non-negative multiple of 10. |
| Engine.EnemiesKeepInv | src/index.js:534 | The enemy step of a running game keeps the session invariant. |
| Engine.LevelsKeepInv | src/index.js:535 | The level step of a running game keeps the session invariant. |
| Engine.Tick | src/index.js:529-538 | The stars always take their step. A game that is not started, or is over, changes nothing else. A running game then takes the player, bullet, enemy and level steps in that order (`Played`). The started flag is kept, game over is sticky, the score never drops, and the level rises by at most one, to a fresh wave. The session invariant is kept. |
| Engine.Play | src/index.js:531-537 | The result is the player step, then the bullet step, the enemy step and the level step, each on the outcome of the one before, as those steps' contracts describe it (`Played`). So the player and the fired counter are those of the player step. It keeps the stars and the started flag, never lowers the score, raises the level by at most one to a fresh wave, and keeps the invariant. |
| Engine.OnKeyDown | src/index.js:546-565 | The first key starts the game on the wave of the level. After game over, a key resets and restarts: the result is the boot state with the old stars, the new wave and the started flag set. So the stars are kept, score 0, level 1, a 12-enemy wave, no bullets, counter 0, the default player. During a game, keys 37, 39 and 32 mark left, right and fire as held. The invariant is kept. |
| Engine.OnKeyUp | src/index.js:566-575 | Keys 37, 39 and 32 clear left, right and fire, and releasing fire allows firing again. Nothing else changes and the invariant is kept. |
| Engine.Boot | src/index.js:516-521 | The session starts from the default state under a new starfield: stars 0..19, each built from its drawn values. With in-range draws it satisfies the invariant. |
| Session.Shooter.constructor | src/index.js:516-521 | The session boots into a valid default state, whose stars 0..19 are each built from their drawn values. |
| Session.Shooter.Clock | src/index.js:529-538 | A tick keeps the session valid. It moves the stars, changes nothing else before the start or after game over, never lowers the score, and keeps game over. A running game takes the player, bullet, enemy and level steps after the stars (`Played`). |
| Session.Shooter.KeyDown | src/index.js:546-565 | A key press keeps the session valid and leaves a running game. The first press sets the started flag and lays out the wave, changing nothing else. The press after game over restarts from the boot state with the old stars and the new wave set, so the stars are kept, level 1, score 0, the default player, no bullets and a 12-enemy wave. During a game, keys 37, 39 and 32 mark left, right and fire as held, and nothing else changes. |
| Session.Shooter.KeyUp | src/index.js:566-575 | A key release keeps the session valid and is the `OnKeyUp` transition. |

## Left out

- All DOM work is left out: the element registry, element creation and
  removal, styles, messages and the enemy colours. So is `updateScore`,
  which only writes the score text, and `createPlayer`, `createGameContainer`
  and `showWelcomeMessage`, which only build elements.
- `removeBullet` also checks that the bullet's DOM element is registered.
  `removeEnemy` removes the enemy's DOM element first, and that call throws
  for an id with no registered element. The registry is left out: it always
  holds exactly the bullets and enemies of the state. So `Waves.RemoveEnemy`
  on an absent id is a no-op in the model, where the game would throw. The
  game never removes an absent enemy, because `updateBullets` only removes
  enemies it is visiting.
- The Rx clock and the key-event subscriptions are left out. The callbacks'
  state transitions are `Engine.Tick`, `Engine.OnKeyDown` and
  `Engine.OnKeyUp`, and the class `Session.Shooter` holds the state the
  callbacks share.
- `Math.random` in `createStarfield` and `updateStars` is left out. The drawn
  values are parameters, one per star id. The lemmas assume x in [1, width],
  y in [1, height] and speed in [5, 54]. These are the ranges of
  `floor(random*width + 1)`, `floor(random*height + 1)` and
  `floor(random*50 + 5)`, taken as real intervals, so non-integer draws are
  allowed too.
- `Math.cos` in the enemy drift is left out. The cosine is a parameter
  `real -> real`, and only the vertical move and the game-over test depend
  on nothing else.
- Floating-point rounding is left out, because every number is an exact
  `real`.
- `webpack.config.js` is build configuration and is not part of this model.
- PlayerStep.HeldFireShootsOnce: only the player step is iterated. A full
  tick is a method, and functions cannot call methods.
