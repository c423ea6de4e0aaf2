# Galaxy Surfers: the simulation rules in Dafny

Galaxy Surfers is a browser arcade game. A player craft flies over a plane
while enemies pursue it, pickups drift, and meteors fall. This project models
the game's simulation rules as pure functions over immutable records with
`real` coordinates, and proves properties of them. It covers:

- **Entities.** The entity integrator, with its health update, death
  sentinel, velocity clamp and position step. Force-integrated commands and
  kinematic commands. The collision box. The canvas clamp.
- **Enemies.** The enemy's floor-based pursuit table and its random-move
  variant.
- **Player.** The one-shot dash.
- **Collectables and hazards.** Collectables with a constant value. Hazards
  whose damage is always 0. Meteors with randomised size and drift.
- **Base game.** The overlap test and resolution by kind. The ordered
  collision pass. The cull filter. The fixed tick. Pause, resume, win and
  restart. Random placement.
- **Classic mode.** The entity configurations. The initial roster. The refill
  and "super" spawn bookkeeping. The meteor wave whose loop bound is re-drawn
  at every test.
- **Input.** The keyboard table.

Randomness enters as explicit sample streams (`seq<real>`, each value in
[0, 1)). They are consumed in the order the game calls `Math.random`.
The refill is the one exception. It takes one stream for the collectables'
positions and one for the enemies'. The game draws both from one sequence of
calls, collectables first, so the two streams are that sequence cut where
the enemy half begins.

Modules follow the source files:

| module | file | source |
|---|---|---|
| `Numeric` | numeric.dfy | sign, magnitude clamp, samples |
| `Seqs` | seqs.dfy | an order-keeping filter |
| `Entities` | entity.dfy | `Entity`, `MainEntity` |
| `Players` | player.dfy | `Player` |
| `Enemies` | enemy.dfy | `Enemy` |
| `Collectables` | collectable.dfy | `Collectable` |
| `Environment` | environment.dfy | `EnvironmentEntity`, `Meteor` |
| `Collision` | collision.dfy | the collision code of `Game` |
| `BaseGame` | base_game.dfy | the rest of `Game` |
| `ClassicGame` | classic_game.dfy | `GameModeClassic` and its configurations |
| `Input` | input.dfy | `InputHandler` |

Details of the code the model follows:

- Health has an upper clamp only. A health that falls below 0 stays negative.
- A physics step kills an entity only when its health is strictly below 0. At
  exactly 0 the entity still moves.
- The pursuit table compares floored coordinates.
- The refill adds a fixed batch when a list is short: 5 collectables below 10,
  2 enemies below 5. It does not top the lists up to those floors.
- After a super spawn at score s, the next one needs a score above s + 190.
  That is 90 points later than a `lastScore := score` bookkeeping would give.
- The collision box uses the entity's width for both extents.
- Meteor extents lie in [50, 100). The value 100 cannot occur.
- Super enemies, super collectables and meteors are not placed at random per
  spawn. Their configurations' positions are drawn once, when the module
  loads. The model carries these as a `LoadTime` record.
- Restart rebuilds the player from its configuration, so its health becomes
  the configured `health`.
- Every reset ends with a `draw`, which pulls the new player onto the canvas.
  The classic constructor places its initial enemies and collectables after
  that draw, so they stay unclamped until the first frame.
- Restart does not re-add the constructor's initial 2 enemies and 25
  collectables.
- The "super entities were spawned" flag survives a restart.

## Model

| member | source | states |
|---|---|---|
| `Numeric.ClampMagnitude` | src/Entities/Entity.ts:126-131 | The sign-preserving clamp keeps values already within the bound. Otherwise it caps the magnitude at the bound and never flips the sign. |
| `Numeric.ClampIdempotent` | src/Entities/Entity.ts:126-131 | Clamping an already clamped velocity changes nothing. |
| `Seqs.Filter` | src/GameMode/BaseGameClass.ts:231-237 | The filtered list holds exactly the elements of the input that satisfy the predicate, each as many times as in the input, and no others. It is never longer than the input. |
| `Seqs.FilterIsSubsequence` | src/GameMode/BaseGameClass.ts:231-237 | The filter keeps the survivors in their original order. |
| `Seqs.FilterIdempotent` | src/GameMode/BaseGameClass.ts:231-237 | Filtering twice equals filtering once. |
| `Entities.NewEntity` | src/Entities/Entity.ts:65-87 | Every physical field of a new entity equals its configuration's, and the entity is force-integrated. |
| `Entities.NextHealth` | src/Entities/Entity.ts:117-118 | The new health never exceeds `maxHealth`. It equals health + step·t whenever that does not exceed the cap. There is no lower clamp. |
| `Entities.UpdatePhysicalData` | src/Entities/Entity.ts:116-139 | A step may change only health, position and velocity, and health stays ≤ maxHealth. Negative health sends the entity to (-1, -1) with velocity and accumulator unchanged. Otherwise each velocity component becomes v + a·t saturated at ±maxVelocity (so, with maxVelocity ≥ 0, bounded and never sign-flipped), and the position then advances by the new velocity times t. |
| `Entities.ForceMove` | src/Entities/Entity.ts:205-227 | A force command changes only the commanded axis' accumulator. The new value is (accumulator ± force)/mass, kept when within maxAcceleration and otherwise saturated at ±maxAcceleration with the same sign. |
| `Entities.KinematicMove` | src/Entities/Entity.ts:283-301 | Left, right, up and down set the velocity to (−v, 0), (v, 0), (0, v) and (0, −v). Nothing else changes. |
| `Entities.KinematicLastCommandWins` | src/Entities/Entity.ts:283-301 | Each kinematic command overrides any earlier one, so every command is idempotent. |
| `Entities.Move` | src/Entities/Entity.ts:205-227 | A command follows the entity's own class: force semantics for base entities, kinematic semantics for main entities. |
| `Entities.NewMainEntity` | src/Entities/Entity.ts:268-281 | A main entity starts at rest with zero accumulator, unit mass, no force and no acceleration bound. Its geometry, vitality and speed come from the configuration. |
| `Entities.KinematicMovePreservesInvariant` | src/Entities/Entity.ts:283-301 | A kinematic command keeps the main entity's invariant: no accumulator, unit mass, no force, speed within maxVelocity. |
| `Entities.KinematicStepTranslates` | src/Entities/Entity.ts:268-281 | For a main entity the physics step keeps velocity and the invariant. While alive it translates the position by velocity times t. |
| `Entities.ShapeInfo` | src/Entities/Entity.ts:229-237 | The collision box reports the entity's width as both width and length, with the entity's shape and position. |
| `Entities.LimitPosition` | src/Entities/Entity.ts:145-170 | The canvas clamp only moves the entity. For an entity that fits, each axis is set to 0 when at or past the low edge, to W − width (H − length) when touching or past the high edge, and kept otherwise, so it ends with 0 ≤ x ≤ W − width and 0 ≤ y ≤ H − length. One strictly inside the canvas is left unchanged. |
| `Entities.LimitPositionIdempotent` | src/Entities/Entity.ts:145-170 | Clamping twice equals clamping once. |
| `Players.NewPlayer` | src/Entities/Player.ts:11-25 | A new player is a main entity with both powers available, and its warp and shooting parameters copied from the configuration. |
| `Players.DashOffset` | src/Entities/Player.ts:31-32 | A dash displaces by +warpPower or −warpPower along the sign of a non-zero velocity component, and not at all along a zero one. |
| `Players.Jump` | src/Entities/Player.ts:27-34 | Without warp the dash does nothing. With warp it moves each axis by sign(velocity)·warpPower, so an axis with zero velocity keeps its position. It consumes the warp even at zero velocity and changes nothing but the position and the flag. |
| `Players.JumpOnce` | src/Entities/Player.ts:28-33 | A second dash before the warp is regained has no effect. |
| `Players.JumpPreservesInvariant` | src/Entities/Player.ts:27-34 | A dash keeps the main entity's invariant. |
| `Players.Update` | src/Entities/Player.ts:50-57 | The player step is the base physics step, and the snapshot it publishes is the post-step position and velocity. |
| `Players.Steer` | src/Entities/Entity.ts:283-301 | A steering command gives the player kinematic semantics. |
| `Enemies.NewEnemy` | src/Entities/Enemy.ts:22-27 | A new enemy is a main entity with the configured damage and intelligence. It is not yet fully spawned. |
| `Enemies.Receive` | src/Entities/Enemy.ts:33-40 | Hearing a player broadcast replaces only the remembered player data. |
| `Enemies.Floor` | src/Entities/Enemy.ts:60-74 | `Math.floor` as used by the pursuit tests: an integer, and the largest one not above the value. |
| `Enemies.Decide` | src/Entities/Enemy.ts:59-77 | The pursuit table picks left iff the floored left test holds, and right iff only the right test holds. It considers down and up only when both horizontal tests fail, and gives no command iff all four fail. |
| `Enemies.Ai` | src/Entities/Enemy.ts:59-77 | The AI applies at most the one decided command with kinematic semantics. It leaves the enemy unchanged when no test fires. |
| `Enemies.AiIssues` | src/Entities/Enemy.ts:59-77 | A decided command is applied to the enemy with kinematic semantics. |
| `Enemies.AiPursues` | src/Entities/Enemy.ts:60-76 | With non-negative extents and positive speed, the chosen axis' velocity points toward the remembered player and the other axis stops. |
| `Enemies.AiIdempotent` | src/Entities/Enemy.ts:59-77 | Running the AI twice on the same state is running it once. |
| `Enemies.TimerCallBetweenTicks` | src/Entities/Enemy.ts:43-79 | An extra timer-driven AI call between ticks is erased by the next tick's own call when that call issues a command. When it issues none, the velocity the extra call chose survives into the step. |
| `Enemies.AiExample` | src/Entities/Enemy.ts:62-66 | An enemy at (200, 200) of width 50, with the player at (400, 200), moves right at full speed. |
| `Enemies.AiRandom` | src/Entities/Enemy.ts:81-100 | Samples in [0, .25), [.25, .5), [.5, .75) and [.75, 1) issue left, right, down and up. An enemy with health ≤ 0 does nothing. |
| `Enemies.Update` | src/Entities/Enemy.ts:43-46 | The enemy update applies the AI decision before the physics step, and keeps damage and remembered player data. |
| `Enemies.UpdateFollowsCommand` | src/Entities/Enemy.ts:43-46 | A living enemy moves in the same tick along the velocity its AI command sets: its position advances by that command's velocity times t. |
| `Enemies.UpdateWithoutCommand` | src/Entities/Enemy.ts:43-46 | When no pursuit test fires, a living enemy keeps drifting along its old velocity. |
| `Enemies.UpdateStepsLeftTowardPlayer` | src/Entities/Enemy.ts:43-61 | A living enemy far to the right of the remembered player moves left by maxVelocity·t in one update, with y unchanged. |
| `Collectables.NewCollectable` | src/Entities/Collectable.ts:7-12 | A collectable is a force-integrated entity built from its configuration, with the configured value. |
| `Collectables.Update` | src/Entities/Collectable.ts:7-16 | A collectable steps with the base integrator and keeps its value. |
| `Collectables.Steer` | src/Entities/Collectable.ts:7-16 | Commands reach the base force semantics, and the value never changes. |
| `Environment.NewEnvironmentEntity` | src/Entities/Environment.ts:7-15 | A hazard is built from its configuration, but its damage is 0 whatever the configured damage. |
| `Environment.MeteorExtent` | src/Entities/Environment.ts:23-26 | A meteor extent is r·100 when that is at least 50 and 50 otherwise, so it lies in [50, 100). |
| `Environment.MeteorDrift` | src/Entities/Environment.ts:27 | The drift is ±100, and it is −100 exactly when r·5 > 2. |
| `Environment.NewMeteor` | src/Entities/Environment.ts:17-35 | A meteor's length and width are the meteor extents of their own samples, in [50, 100), and its drift is the ±100 drift of its sample. Its damage is 0. Every other field is configured. |
| `Environment.Update` | src/Entities/Environment.ts:7-15 | A hazard steps with the base integrator and keeps its damage. |
| `Collision.OverlapsSymmetric` | src/GameMode/BaseGameClass.ts:311-316 | The overlap test does not depend on argument order. |
| `Collision.TouchingIsNotOverlap` | src/GameMode/BaseGameClass.ts:311-316 | Boxes that only share an edge do not overlap. |
| `Collision.OverlapsIffSharedPoint` | src/GameMode/BaseGameClass.ts:311-316 | A point strictly inside both boxes means an overlap. For boxes of positive extent the converse holds too, so the strict test is exactly "the open boxes intersect". |
| `Collision.ContactIffSharedPoint` | src/GameMode/BaseGameClass.ts:308-316 | For positive widths, a contact happens iff both entities are living rectangles and some point lies strictly inside the player's width × width square and the other's reported box. |
| `Collision.Resolve` | src/GameMode/BaseGameClass.ts:304-335 | Without contact (a dead party, no overlap, or a non-rectangle) nothing changes, and a hazard contact changes nothing. A collectable contact adds its value to the score and zeroes its health. An enemy contact zeroes the enemy's health and subtracts its damage from the player's. |
| `Collision.Pass` | src/GameMode/BaseGameClass.ts:265-275 | A pass over a list keeps its length and changes only the player's health. A player already at health ≤ 0 changes nothing. |
| `Collision.PassChanges` | src/GameMode/BaseGameClass.ts:265-275 | Each entry is resolved at most once: it is either untouched or, if it was a living enemy or collectable, set to health 0. |
| `Collision.PassAppend` | src/GameMode/BaseGameClass.ts:263-299 | A pass over a + b is a pass over a, then a pass over b from where a left off. This is the ordering of the three lists. |
| `Collision.ThreePasses` | src/GameMode/BaseGameClass.ts:263-299 | Three consecutive passes equal one pass over the three lists joined in order. |
| `Collision.DeadPlayerStopsPass` | src/GameMode/BaseGameClass.ts:263-299 | Once the player's health is ≤ 0, the rest of the list is left untouched. |
| `Collision.PassAccounting` | src/GameMode/BaseGameClass.ts:317-324 | The score grows by exactly the values of the collectables picked up. The player's health falls by exactly the damages of the enemies destroyed. |
| `Collision.HazardPassInert` | src/GameMode/BaseGameClass.ts:289-299 | A pass over hazards changes nothing. |
| `Collision.PickupExample` | src/GameMode/BaseGameClass.ts:317-320 | A player box at (0, 0) and a collectable at (30, 30), both 50 wide, collide: the score grows by the value and the collectable is spent. |
| `Collision.EnemyHitExample` | src/GameMode/BaseGameClass.ts:321-323 | A player with health 100 hit by an enemy of damage 25 is left with 75. |
| `BaseGame.NewGame` | src/GameMode/BaseGameClass.ts:122-135 | A reset game is running and unpaused, with empty lists and zero score and last score. Its player is the configured one after the closing draw's canvas clamp: on the canvas if it fits, and at the configured position if that lies strictly inside. |
| `BaseGame.Restart` | src/GameMode/BaseGameClass.ts:90-92 | Restart is exactly a reset from the stored player configuration: a fresh player with full configured health, the warp ready, and every other field as configured, clamped onto the canvas. It keeps its configured position when that lies strictly inside the canvas, and otherwise ends on the canvas if it fits. |
| `BaseGame.Pause` | src/GameMode/BaseGameClass.ts:83-86 | The pause signal sets paused and nothing else. |
| `BaseGame.Resume` | src/GameMode/BaseGameClass.ts:87-89 | The resume signal clears paused only in the running state. |
| `BaseGame.Win` | src/GameMode/BaseGameClass.ts:93-94 | The win signal sets the won state and nothing else. |
| `BaseGame.UpdateAll` | src/GameMode/BaseGameClass.ts:163-168 | The player steps first. Every enemy then hears its post-step snapshot before its own update, so each updated enemy remembers the player's new position and velocity. Collectables and hazards step in order. |
| `BaseGame.Collide` | src/GameMode/BaseGameClass.ts:263-302 | Collision is one ordered pass of the player over enemies, then collectables, then hazards. It changes only player health, score, and enemies or collectables that were alive, setting them to health 0. Hazards are untouched. A dead player changes nothing. |
| `BaseGame.EnemyPassShape` | src/GameMode/BaseGameClass.ts:265-275 | A pass over enemies leaves each enemy untouched or, if it was alive, at health 0. A dead player leaves them all. |
| `BaseGame.CollectablePassShape` | src/GameMode/BaseGameClass.ts:276-288 | A pass over collectables leaves each one untouched or, if it was alive, at health 0. A dead player leaves them all. |
| `BaseGame.CollideIsOnePass` | src/GameMode/BaseGameClass.ts:263-299 | The three passes of a collision phase assemble into one pass over the whole roster. |
| `BaseGame.CollideAccounting` | src/GameMode/BaseGameClass.ts:317-324 | In a collision phase the score grows by exactly the values of the collectables picked up, and the player's health falls by exactly the damages of the enemies destroyed. |
| `BaseGame.EnemiesBeforeCollectables` | src/GameMode/BaseGameClass.ts:263-288 | Enemies are resolved first: if the enemy hits alone kill the player, no collectable is picked up. |
| `BaseGame.Cull` | src/GameMode/BaseGameClass.ts:218-239 | A dead player ends and pauses the game with the lists untouched. Otherwise each list keeps exactly its entities with health > 0, each as many times as before. |
| `BaseGame.CullKeepsOrder` | src/GameMode/BaseGameClass.ts:227-239 | The cull keeps the survivors' order. |
| `BaseGame.CullIdempotent` | src/GameMode/BaseGameClass.ts:227-239 | Culling twice equals culling once. |
| `BaseGame.Tick` | src/GameMode/BaseGameClass.ts:99-105 | A paused tick changes nothing. Otherwise it is update, then collision, then cull, and the game either ends with a dead player, or keeps its state with a living player and only living entities. |
| `BaseGame.TickMovesPlayer` | src/GameMode/BaseGameClass.ts:99-105 | An unpaused tick moves the player by exactly one physics step of 1/200 s; collision and cull change at most its health. |
| `BaseGame.TickAccounting` | src/GameMode/BaseGameClass.ts:99-105 | In an unpaused tick the score grows by exactly the values of the collectables picked up from the updated roster, and the player's health is its stepped health less the damages of the enemies destroyed. |
| `BaseGame.PausedTicksInert` | src/GameMode/BaseGameClass.ts:99-105 | Any number of paused ticks changes nothing. |
| `BaseGame.EndedGameIsFrozen` | src/GameMode/BaseGameClass.ts:87-105 | An ended game cannot be resumed, and no tick changes it. |
| `BaseGame.HandleKey` | src/Input.ts:6-28 | Key presses steer or dash the player even while paused. Escape pauses. Other keys do nothing. |
| `BaseGame.UpKeyFliesTowardSmallerY` | src/Input.ts:15-17 | "w" makes the player's velocity point toward smaller y and stops the horizontal axis. |
| `BaseGame.RandomXY` | src/GameMode/BaseGameClass.ts:23-30 | A random position lies in the 2000 × 2000 spawn square. |
| `BaseGame.CreateMany` | src/GameMode/BaseGameClass.ts:337-363 | n entities are created in order, the i-th from samples 2i and 2i+1. |
| `BaseGame.CreateEnemies` | src/GameMode/BaseGameClass.ts:337-341 | Exactly n enemies are created. The i-th is a new enemy from the configuration, placed by samples 2i and 2i+1. |
| `BaseGame.CreatedEnemiesInSquare` | src/GameMode/BaseGameClass.ts:337-341 | Every created enemy lies in the 2000 × 2000 spawn square and carries the configured damage. |
| `BaseGame.CreateCollectables` | src/GameMode/BaseGameClass.ts:343-352 | Exactly n collectables are created. The i-th is a new collectable from the configuration, placed by samples 2i and 2i+1. |
| `BaseGame.CreatedCollectablesInSquare` | src/GameMode/BaseGameClass.ts:343-352 | Every created collectable lies in the spawn square and carries the configured value. |
| `BaseGame.CreateEnvironment` | src/GameMode/BaseGameClass.ts:354-363 | Exactly n hazards are created. The i-th is a new hazard from the configuration, placed by samples 2i and 2i+1. |
| `BaseGame.CreatedHazardsInSquare` | src/GameMode/BaseGameClass.ts:354-363 | Every created hazard lies in the spawn square and has damage 0. |
| `BaseGame.FrameClamp` | src/GameMode/BaseGameClass.ts:142-151 | An unpaused frame draws. A paused one changes nothing. |
| `BaseGame.Draw` | src/GameMode/BaseGameClass.ts:170-183 | A draw applies the canvas clamp to the player and to every enemy, collectable and hazard, and changes nothing else. Every entity that fits the canvas ends on it. The resize listener calls it whatever the pause state. |
| `BaseGame.DrawSettles` | src/GameMode/BaseGameClass.ts:170-183 | When every entity fits the canvas, drawing twice equals drawing once. |
| `BaseGame.FrameClampSettles` | src/GameMode/BaseGameClass.ts:142-151 | When every entity fits the canvas, a second frame on the same canvas changes nothing. |
| `ClassicGame.NewClassic` | src/GameMode/ClassicGame.ts:161-168 | A classic game starts running with 2 enemies of damage 25 and 25 collectables of value 10 on top of the reset state, whose player is clamped by the reset's draw. The game is exactly the reset game for the same player configuration, plus the enemies created from samples 0-3 and the collectables created from samples 4-53, in creation order. |
| `ClassicGame.AppStart` | src/app.ts:5-23 | The application's player starts at rest, with health 100 and a 300-unit dash. It sits at (100, 100) on a canvas wider and longer than 150, and on the canvas whenever the canvas is at least 50 × 50. |
| `ClassicGame.ConfiguredEntities` | src/GameMode/ClassicGame.ts:18-129 | Regular enemies are 60 × 60 with damage 25 and speed 50. Super enemies are 150 × 150 with damage 100 and speed 130, at their load-time position. Collectables are 50 × 50 worth 10, and super collectables 100 × 100 worth 100 at their load-time position. Meteors are configured 50 × 50 at the load-time x and y = 0 with damage 130. Both enemy kinds start within the kinematic invariant. |
| `ClassicGame.SuperSpawn` | src/GameMode/ClassicGame.ts:203-207 | Nothing happens unless score − lastScore > 100. Then lastScore becomes score + 90, one super collectable and one super enemy are appended after the existing entries, and the super flag is set. |
| `ClassicGame.SuperDueUpward` | src/GameMode/ClassicGame.ts:203 | The spawn condition depends only on the score and lastScore, and a higher score never withdraws a due spawn. |
| `ClassicGame.RefillCollectables` | src/GameMode/ClassicGame.ts:197-199 | 5 collectables are appended iff fewer than 10 remain. The existing entries are kept in place, and each new one has value 10 and lies in the spawn square. The appended entries are exactly the 5 collectables created from the first 10 samples. |
| `ClassicGame.RefillEnemies` | src/GameMode/ClassicGame.ts:200-202 | 2 enemies are appended iff fewer than 5 remain. The existing entries are kept in place, and each new one has damage 25 and lies in the spawn square. The appended entries are exactly the 2 enemies created from the first 4 samples. |
| `ClassicGame.RegularUpdate` | src/GameMode/ClassicGame.ts:191-212 | The collectable refill and the enemy refill come first, and the super items are appended after them. lastScore moves to score + 90 exactly on a super spawn, and the super flag is then set. Nothing else in the game changes. |
| `ClassicGame.RegularUpdateCounts` | src/GameMode/ClassicGame.ts:197-207 | After a refill, the list sizes grow by 5 (collectables below 10) and 2 (enemies below 5), plus one each on a super spawn. The old entries stay as a prefix. |
| `ClassicGame.NextSuperSpawnThreshold` | src/GameMode/ClassicGame.ts:203-204 | After a super spawn at score s, the next one is due iff the score exceeds s + 190. |
| `ClassicGame.TickKeepsLastScore` | src/GameMode/BaseGameClass.ts:99-105 | Ticks never move lastScore. |
| `ClassicGame.Wave` | src/GameMode/ClassicGame.ts:224-226 | A meteor wave has at most 5 meteors. |
| `ClassicGame.WaveMeteors` | src/GameMode/ClassicGame.ts:224-226 | Every meteor of a wave is at the configured position, with extents in [50, 100), drift ±100 and damage 0. |
| `ClassicGame.WaveStep` | src/GameMode/ClassicGame.ts:224-225 | A passing loop test at index i < 5 appends exactly the next meteor of the reference wave. |
| `ClassicGame.WaveStop` | src/GameMode/ClassicGame.ts:224 | A failing loop test ends the reference wave. |
| `ClassicGame.WaveTests` | src/GameMode/ClassicGame.ts:224 | The wave size n is the first index whose freshly drawn bound does not exceed it: every earlier test passed. |
| `ClassicGame.CreateMeteors` | src/GameMode/ClassicGame.ts:222-226 | The loop with a re-drawn bound builds exactly the reference wave, with at most 5 meteors, stopping at the first failing test. |
| `ClassicGame.EmptyWave` | src/GameMode/ClassicGame.ts:224 | A wave is empty iff its first bound sample is 0. |
| `ClassicGame.CreateMetoerites` | src/GameMode/ClassicGame.ts:222-226 | Exactly the reference wave of the samples is appended, so between 0 and 5 meteors of damage 0 at the load-time meteor position. Existing hazards are kept. |
| `ClassicGame.Restart` | src/GameMode/BaseGameClass.ts:122-135 | A classic restart is the base reset from the stored configuration: the roster is emptied without re-adding the initial entities, the player is rebuilt, and the super flag is kept. |
| `ClassicGame.SuperThingsSticky` | src/GameMode/ClassicGame.ts:240-250 | Once set, the super flag survives refills, meteor waves, ticks and restarts. |
| `Input.LookupFrom` | src/Input.ts:6-28 | Searching from position i finds a key iff some row at or after i has it, and returns the action of the first such row. |
| `Input.Lookup` | src/Input.ts:6-28 | A key is found iff some row of the table has it, and the action returned is that of its first row. |
| `Input.KeyActionMatchesBindings` | src/Input.ts:6-28 | The keydown switch and the binding table agree on every key. |
| `Input.SteeringKeys` | src/Input.ts:7-27 | Exactly "ArrowLeft"/"a" steer left and "ArrowRight"/"d" steer right. Exactly "w"/"ArrowUp" give moveDown and "s"/"ArrowDown" give moveUp. Exactly " " dashes and "Escape" pauses. |
| `Input.KeyAction` | src/Input.ts:7-28 | Exactly ten keys do anything, and exactly the eight arrow and letter keys steer. |

## Left out

- Rendering and the DOM are left out, except for the one state change drawing makes: `draw` applies `limitPosition` to every entity, and that is `BaseGame.Draw`. It is what a frame, a reset and a window resize do to the state. Left out are the pixels, the status bar, the menu, background images, `fillStyle`/`image`, and `requireNewDraw` with its redraw flag.
- The canvas size is a parameter of `BaseGame.Draw`, `BaseGame.NewGame`, `BaseGame.Restart` and the classic constructor and restart. Computing it from the window's inner size is left out, because the window is outside the model.
- Audio is left out because it has no simulation effect: the sound initialisation, the track switching, and the music choice inside `#regularUpdate`.
- The timers and their cadence are not modelled.
  - The 200 Hz tick, the 1 s refill and the 10–15 s meteor interval are left to the caller, which applies `BaseGame.Tick`, `ClassicGame.RegularUpdate` and `ClassicGame.CreateMetoerites`. The random meteor delay is therefore not drawn.
  - The AI's self-rescheduling one-second timer is left out. Its extra `ai()` calls between ticks can change an enemy's velocity after a step has moved it. `Enemies.TimerCallBetweenTicks` shows that the next tick's own call erases such a change unless that call issues no command. In that case the timer's velocity survives into the step, which the model's ticks, making only the per-tick call, do not cover.
  - The warp regain timer is left out, so a dash stays used up until the caller sets `warpPowerAvailable`.
  - The `spawnedFully` timer is left out, because no simulation rule reads that flag.
  - The 100 ms pause toggle after a win is left out.
- The window event bus is left out.
  - The player's position broadcast is returned as a `PlayerSnapshot`, and the caller delivers it.
  - `ENTITY_DIED` and `COLLECTABLE_COLLECTED` have no listener in the core.
  - Escape dispatches the pause signal from two listeners, the input handler and the application. The model applies `BaseGame.Pause` once, which is idempotent.
- `Math.random` is replaced by explicit sample parameters in [0, 1).
- The unused `clock()` method is left out. Nothing calls it, and its `bind` calls have no effect.
- IEEE floating point is left out. Coordinates are `real`, `Math.floor` is `.Floor` and `Math.sign` is a three-way sign.
- Entities.ForceMove: requires mass ≠ 0. With mass 0 the source's quotient is ±Infinity, which its next lines saturate to ±maxAcceleration, or NaN when the numerator is 0 (and the sign of a zero divisor decides the infinity's sign); `real` division has no such values. Every configured force entity has mass 1 or 100.
- Collision.Pass: its own contract does not state the per-entry effect. That is stated by `Collision.PassChanges` and `Collision.PassAccounting`.
- Resolution of non-rectangle shapes is not modelled beyond "no effect", because the source only logs them.
- Leftover input handlers from earlier games, still attached to earlier players, are left out. They act on players that are no longer in the game.
