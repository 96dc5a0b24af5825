# Arcade shooter simulation, modelled in Dafny

The game is a single-screen arcade shooter. Enemies enter from the left or right edge of
the canvas and cross it horizontally. The player shoots them with pointer clicks and wins
after `WIN_SCORE` (10) hits. This project models the simulation core of `game.js`:

- **`SpriteAnimation`** (module `Sprite`) is a frame counter. It advances at most one
  frame per `update(now)`, and only once a frame duration has passed since the last
  advance. It either wraps round (looping) or stops on the last frame and reports its
  completion once (one-shot). `reset` and `stop` restart or halt it.
  - The class keeps its fields and methods.
  - Its value snapshot `Anim` and the pure function `Advance` state what one update does.
  - The `onComplete` callback becomes the `completed` result of `Update`. The owner acts
    on it.
- **`Enemy`** (module `Enemies`) follows the life cycle alive → dying → dead.
  - It moves by `speed * direction` while alive.
  - It is hit by a point in its closed 80×80 box only while alive.
  - `die` is idempotent and restarts the death animation.
  - It becomes dead exactly when its one-shot death animation completes.
- **`Effect`** (module `Effects`) is a one-shot animation at a point. It is finished when
  the animation completes.
- **`Game`** (module `Shooter`) is the controller:
  - `handleShot` resolves a shot: it adds a muzzle flash when there are fire frames, kills the first
    enemy hit in list order, adds one to the score, and declares victory once the score reaches `WIN_SCORE`.
  - `gameLoop` is modelled as `Tick(now, canvasWidth, draw, p)`. It spawns an enemy when
    more than 2000 ms have passed since the last spawn. It then updates every enemy and
    every effect, walking the lists backwards, and splices out the dead, the
    alive-but-off-screen and the finished.
  - `start`, `victory` and `returnToSettings` are the state changes between Settings,
    Playing and Victory.
- **`GameConfig`** holds the constants.

Each class keeps the fields the source updates in place, and its methods carry `modifies`
clauses. `SpriteAnimation`, `Enemy` and `Effect` each have a `Model()` function that reads
the object and returns a value snapshot. Their mutating methods are proved to map that
snapshot through `Advance`, `Restarted`, `Stopped`, `Stepped`, `Killed` or `EffectStepped`.
New enemies and flashes are described by `Spawned` and `Flash`. `Game`'s methods state
each field's new value. The lemmas then prove what the source promises about those
functions over whole runs of updates (`Run`, `RunEnemy`, `RunEffect`).

The game's loops work as in the source:

- The two removal loops of `gameLoop` walk the list from the end and splice.
- They are proved to leave exactly `Survivors(old enemies)` and `Unfinished(old effects)`.
  These filters keep the original order, and their members are characterised by lemmas.
- They also update every object in the old list exactly once.

`Game.Valid` says that no enemy and no effect is listed twice.

Three things are inputs of `Tick` and `SpawnEnemy`:

- the random draws (`SpawnDraw`);
- the assets and settings the asset manager holds (`Provider`);
- the canvas width.

The module `Scenarios` drives a `Game` through whole sequences: a start, two spawning
ticks, a shot at two overlapping enemies, and a replay through Settings from a game that
has scored.

## Model

| member | source | states |
|---|---|---|
| Sprite.Initial | game.js:81-89 | the animation the constructor builds (its body holds the field values: frame 0, advance time 0, playing, looping); the contract adds that it has the given frame count and duration and that its index is in range |
| Sprite.AdvanceFacts | game.js:91-111 | one update: nothing changes when stopped, empty or not yet due; otherwise the index moves on by exactly one (wrapping to 0 when looping, clamped to the last frame when not) and the advance time becomes now; completion is reported exactly when a one-shot animation runs past its last frame, and it is what stops playback; frame count, duration and looping never change; the index stays in range |
| Sprite.Restarted | game.js:132-136 | reset: frame 0, playing, advance time 0, the configuration unchanged |
| Sprite.Stopped | game.js:138-140 | stop: only playback is switched off (frame, advance time, looping, frame count and duration are kept), and every later update is a no-op |
| Sprite.InertRun | game.js:92 | a stopped animation, or one without frames, ignores any run of updates and never completes |
| Sprite.CompletesAtMostOnce | game.js:97-106 | over any run of updates the completion fires at most once: once exactly if playback stopped during the run |
| Sprite.LoopingNeverCompletes | game.js:97-99 | a looping animation never completes and never stops by itself |
| Sprite.OneShotCompletes | game.js:94-106 | a playing one-shot animation with frames, updated at least once per frame duration, has completed once after as many updates as it has frames left, and rests on its last frame |
| Sprite.SpriteAnimation.constructor | game.js:81-89 | the new object's snapshot is `Initial` of its frame count and duration |
| Sprite.SpriteAnimation.Update | game.js:91-111 | the new snapshot and the completion flag are exactly `Advance` of the old snapshot |
| Sprite.SpriteAnimation.Reset | game.js:132-136 | the new snapshot is `Restarted` of the old |
| Sprite.SpriteAnimation.Stop | game.js:138-140 | the new snapshot is `Stopped` of the old |
| Enemies.SteppedFacts | game.js:168-183 | one update: an alive enemy moves by speed × direction and stays alive; a dying or dead one does not move; y, direction and speed never change; the only transition is dying → dead, made exactly when the death animation completes; only the current phase's animation advances |
| Enemies.Killed | game.js:206-213 | die: an alive enemy becomes dying with its death animation reset; any other enemy is left as it is; position and move animation are kept |
| Enemies.KilledTwice | game.js:206-213 | die is idempotent |
| Enemies.LifeCycleForward | game.js:168-183 | over any run of updates the state never goes backwards in alive → dying → dead; alive stays alive and dead stays dead |
| Enemies.KilledStaysDown | game.js:197-213 | once killed, an enemy is never alive again, and no point hits it after any run of updates, so it cannot be hit twice |
| Enemies.DeathFollowsAnimation | game.js:160-183 | a dying enemy is dead after a run of updates exactly when its death animation has completed over that run, and it does not move |
| Enemies.DeadStaysPut | game.js:168-183 | a dead enemy is unchanged by any run of updates |
| Enemies.ZeroDeathFramesStayDying | game.js:155-165 | an enemy always gets a death animation, even without frames (the field `deathAnimation` is an `Anim`, not optional, and `Spawned` builds it from whatever death frames there are); with zero death frames the animation ignores every update (line 92), so a dying enemy stays dying forever |
| Enemies.DeathTakesItsFrames | game.js:177-181 | an enemy killed with n > 0 death frames is dead after n updates that are each a frame duration apart |
| Enemies.SteadyMarch | game.js:169-171 | after n updates an alive enemy has moved n × speed × direction and kept its y |
| Enemies.CrossingTime | game.js:215-221 | an enemy entering at x = −80 with speed 3 is out of bounds of an 800-pixel canvas exactly from its 294th update on |
| Enemies.HitBoxTravels | game.js:197-204 | the closed 80×80 hit box moves with an alive enemy: after n updates a point hits it exactly when the point shifted back by n × speed × direction hit it before |
| Enemies.OutStaysOut | game.js:215-221 | an alive enemy with a non-negative speed that is out of bounds through the edge it heads for stays alive and out of bounds over any run of updates, so once a tick may remove it every later tick may too |
| Enemies.Enemy.CheckHit | game.js:197-204 | false unless the enemy is alive; otherwise the point lies in the closed 80×80 box at (x, y) (defined through `HitBy`); `HitBoxTravels`, `KilledStaysDown`, `Die`'s ensures and `FirstHit` prove what follows from it |
| Enemies.Enemy.IsOutOfBounds | game.js:215-221 | x > canvasWidth when the direction is 1, else x + 80 < 0 (defined through `Outside`); `OutStaysOut`, `CrossingTime` and `SpawnedOnEdge` prove what follows from it |
| Enemies.Enemy.constructor | game.js:145-166 | a new enemy is alive at the given position with the given move animation and a one-shot death animation built from the death frames at the current frame duration |
| Enemies.Enemy.Update | game.js:168-183 | the new snapshot is `Stepped` of the old |
| Enemies.Enemy.Die | game.js:206-213 | the new snapshot is `Killed` of the old, and no point hits the enemy any more |
| Effects.FinishFollowsAnimation | game.js:233-245 | an unfinished effect is finished after a run of updates exactly when its animation has completed over that run |
| Effects.FinishedStaysPut | game.js:241-245 | a finished effect is unchanged by any run of updates |
| Effects.EffectExpires | game.js:233-237 | a new effect with n > 0 frames is finished after n updates a frame duration apart |
| Effects.Effect.constructor | game.js:226-239 | a new effect sits at (x, y), unfinished, with its animation made one-shot |
| Effects.Effect.Update | game.js:241-245 | the new snapshot is `EffectStepped` of the old |
| Shooter.SpawnedOnEdge | game.js:346-351 | a spawned enemy starts with its leading edge on the edge it enters from and is not out of bounds; after its first update it is still alive and in bounds whenever its speed is at most the canvas width plus 80 |
| Shooter.SurvivorsMembers | game.js:464-472 | after the enemy pass an enemy is in the list exactly when it was before and is neither dead nor alive and off-screen |
| Shooter.SurvivorsKeepOrder | game.js:459-473 | the enemy filter distributes over concatenation, so survivors keep their relative order |
| Shooter.SurvivorsKeepAll | game.js:464-472 | when no enemy must leave, the list is kept whole |
| Shooter.SurvivorsNoDup | game.js:459-473 | filtering never repeats an enemy |
| Shooter.UnfinishedMembers | game.js:481-483 | after the effect pass an effect is in the list exactly when it was before and is not finished |
| Shooter.UnfinishedNoDup | game.js:476-484 | filtering never repeats an effect |
| Shooter.FirstHit | game.js:321-333 | the index of the first enemy in list order that the point hits, or the list length when none is hit; no earlier enemy is hit |
| Shooter.StepEnemy | game.js:460-472 | one pass of the backward enemy loop updates the i-th enemy and splices it out exactly when it is dead, or alive and out of bounds |
| Shooter.StepEffect | game.js:477-483 | one pass of the backward effect loop updates the i-th effect and splices it out exactly when it is finished |
| Shooter.Game.constructor | game.js:261-279 | a new game is in Settings with score 0, no enemies, no effects and spawn time 0 |
| Shooter.Game.HandleShot | game.js:309-334 | on a hit exactly the first enemy hit is killed, the score rises by one and the state becomes Victory once the score reaches 10; on a miss score and state are unchanged; no other enemy changes; one flash effect at the shot (half the frame duration, one-shot) is appended exactly when there are fire frames |
| Shooter.Game.SpawnEnemy | game.js:337-370 | exactly one new enemy, `Spawned` from the draws and the current settings, is appended; nothing else changes |
| Shooter.Game.SpawnIfDue | game.js:453-456 | an enemy is spawned exactly when more than 2000 ms have passed since the last spawn, and then the spawn time becomes now |
| Shooter.Game.UpdateEnemies | game.js:459-473 | every enemy of the old list is updated exactly once, and the list becomes the survivors of the old list in order |
| Shooter.Game.UpdateEffects | game.js:476-484 | every effect of the old list is updated exactly once, and the list becomes its unfinished effects in order |
| Shooter.Game.Tick | game.js:443-491 | outside Playing nothing changes; otherwise at most one enemy spawns, exactly when due, and is updated in the same frame; every enemy and effect is updated once; the lists become the survivors (the spawned enemy included) and the unfinished effects, in order; state and score are unchanged |
| Shooter.Game.Start | game.js:494-513 | Playing, score 0, no enemies or effects, spawn time 0: the first tick at time 0 spawns nothing |
| Shooter.Game.Victory | game.js:516-526 | the state becomes Victory and nothing else changes (the enemies stay) |
| Shooter.Game.ReturnToSettings | game.js:529-553 | Settings, score 0, no enemies, no effects; the spawn time is kept |
| Scenarios.TwoSpawns | game.js:443-491 | after start and ticks at 2001 and 4002 ms the game holds exactly two alive enemies, in spawn order, one and two steps in from the left edge |
| Scenarios.SpawnTimeline | game.js:453-456 | for any canvas, draws and settings, the last spawn time after start and after ticks at 2001, 3000 and 4002 ms is 0, 2001, 2001, 4002: a spawn exactly when more than 2000 ms have passed, whatever became of the first enemy |
| Scenarios.OverlapShot | game.js:321-333 | a shot at a point inside two overlapping enemies kills only the first in list order and scores exactly one |
| Scenarios.Replay | game.js:494-553 | a game that has scored 1 (the first of two enemies shot) keeps a score of at least 1 over any further shots; returning to settings clears the score and the two listed enemies, and the new start leaves score 0 with no enemies or effects |

## Left out

- Drawing is not modelled: `SpriteAnimation.draw`, `Enemy.draw`, `Effect.draw`, `drawBackground`, `drawCursor` and the canvas clearing in `gameLoop`. These are calls on the 2D canvas API.
- DOM wiring is not modelled: `initCanvas`, `resizeCanvas`, `bindEvents`, `updateScoreDisplay`, the panel show and hide calls, and the whole `UIManager`. These are event listeners and element lookups. The slider values reach the model as the integers `parseInt` yields (game.js:753-755); a `NaN` from `parseInt` is not modelled.
- `AssetManager` is not modelled: object URLs, `localStorage`, `JSON.parse`, asynchronous image loading and the numeric file-name sort. This is I/O. Its state at the moment the game reads it is the `Provider` parameter, with any settings, not only the initial speed 3 and 150 ms.
- `requestAnimationFrame` and `cancelAnimationFrame` are not modelled. A frame is an explicit call of `Tick`. Cancelling the loop is captured only by `Tick`'s guard, which does nothing outside Playing.
- `Math.random` in `spawnEnemy` becomes the `SpawnDraw` parameter. The y range (from `MIN_SPAWN_Y` to the canvas height − 130) is not enforced, because the canvas height is not modelled.
- Times are integer milliseconds: the `requestAnimationFrame` timestamp that `gameLoop` receives (game.js:490) is fractional in the browser, and it is compared at game.js:94 and game.js:453. The model takes `now`, the animation clock `last` and `lastSpawnTime` as integers.
- Positions, the random y and the pointer coordinates are integers. The fractional values JavaScript allows are not modelled. The frame duration is a `real`, so the halved duration of the muzzle flash (game.js:314) is exact.
- The pointer position fields (`mouseX`, `mouseY`) only feed the cursor drawing and are not modelled. `handleShot` takes the shot point as arguments.
- Enemies.Enemy.constructor: the enemy's and the effect's animations are held as `Anim` values inside the object, not as references to a `SpriteAnimation` object. Each such animation is created for, and referenced by, exactly one enemy or effect, so no sharing is lost. They are advanced by the same `Advance` that `SpriteAnimation.Update` is proved to implement.
- Enemies.Enemy.constructor: the branch without a death animation (game.js:155-158, `deathAnimation ? … : null`) is not modelled. It is unreachable, because `spawnEnemy` always passes an array, and every array, the empty one included, is truthy.
- Effects.Effect.constructor: the null-animation checks of `Effect` (game.js:233, 242) are not modelled. `handleShot` always passes an animation.
- Shooter.Game.Tick: the spawned enemy is returned as a ghost result. It names the enemy for the contract and is not part of the game's interface.

Three behaviours of the code a reader might not expect:

- `handleShot` does not look at the game state. After Victory, further shots can still kill enemies and raise the score past `WIN_SCORE`, and effects can be added in any state. So "the score never exceeds the win threshold" is not a property of this code, and it is not claimed.
- `victory()` does not clear the enemy and effect lists; only `returnToSettings` and `start` do. The lists can therefore be non-empty outside Playing (the Victory state).
- A dying enemy without death frames never becomes dead and is never removed (`Enemies.ZeroDeathFramesStayDying`).
