# Space-invaders world simulation in Dafny

A model of the tick logic in the game's `index.js`. The world (`Game`) owns a
list of bodies: the player's ship, 24 invaders, and bullets. One tick
(`Game.prototype.update`) does two things:

- It drops every body that overlaps any other body of the pre-tick snapshot
  (an axis-aligned box test, `colliding`).
- It calls `update` on each survivor, walking the list by a live index.

The ship moves or fires on the held keys. An invader patrols back and forth
inside a 40-unit window and sometimes fires, unless another invader is below
it (`invadersBellow`). A bullet moves by its constant velocity. Bullets
appended during the pass are reached by the same loop, so they move in the
tick they were fired.

Files and modules:

- `entities.dfy` (module `Entities`): the body datatype, the constants, the key
  state, and what each kind of body does to its own fields in one tick, with
  lemmas about motion over many ticks.
- `collision.dfy` (module `Collision`): `colliding` and its geometric meaning.
- `world.dfy` (module `World`): the collision filter, `invadersBellow`, and
  `createInvaders`.
- `game.dfy` (module `Simulation`): class `Game`. Its `bodies` field is a
  `seq<Body>` that its methods rewrite in place and append to. It also holds
  the per-entity `update` methods, `addBody`, and the tick (`Update`), a
  `while` loop that re-reads `|bodies|` on every iteration.

Modelling choices:

- Positions, sizes and speeds are exact `real`s. A size is an `Extent`, a
  vector with no negative component: the code only creates bodies of size 15
  or 3, so every box is a proper box, as `colliding` presumes.
- Object identity (`b1 === b2` in `colliding`) is an `id: nat` field. `Game`
  hands ids out from `nextId`, which stands for allocation. `Game.Valid()`
  says the ids increase along `bodies`, so no object is in the list twice.
- An entity's back-reference to its game is the `Game` whose method runs the
  update; `invadersBellow` reads that game's `bodies`.
- Held keys are a `map<int, bool>` parameter. A code that is absent or mapped
  to false is up. LEFT = 37, RIGHT = 39, SPACE = 32.
- `Math.random` is a stream of draws `draws: nat -> real` plus a cursor. An
  invader uses one draw per update, and a second one when it fires.
- Rewinding and playing the shooting sound increments `shootSoundPlays`.

Behaviour of the code that the model keeps, and that a reader might expect
otherwise:

- There is no minimum interval between shots: every tick with SPACE held
  (and LEFT and RIGHT up) fires.
- Bodies appended during the pass are not deferred to the next tick. The loop
  re-reads the length of the list, so they are updated in the same pass.
- An invader tests its offset before moving. An update that starts at offset
  40.1 reverses the speed in that same call (`PatrolPastEdgeTurns`).

## Model

| member | source | states |
|---|---|---|
| `Collision.Colliding` | index.js:165-171 | a body never collides with itself (the same object) |
| `Collision.CollidingIffBoxesOverlap` | index.js:165-171 | for distinct bodies, `colliding` holds exactly when the closed boxes `center ± size/2` share a point, so boxes that only touch at an edge collide |
| `Collision.CollidingIsIrreflexive` | index.js:165-171 | `colliding(b, b)` is false |
| `Collision.CollidingIsSymmetric` | index.js:165-171 | `colliding(b1, b2) == colliding(b2, b1)` |
| `Collision.SeparatedNeverCollide` | index.js:165-171 | centres further apart than the sum of the half-sizes on either axis never collide |
| `Entities.AllSizesNonNegative` | index.js:54-110 | every body's box has a non-negative width and height (sizes are 15 or 3) |
| `World.NotCollidingWithAnything` | index.js:34-38 | `notCollidingWithAnything(b1)` holds exactly when `b1` collides with no body of the snapshot |
| `World.Survivors` | index.js:40 | the bodies kept by the filter are exactly the bodies of the list that collide with nothing in it, and there are no more of them than bodies |
| `World.CollisionCount` | index.js:34-38 | the inner filter has at most as many elements as the snapshot |
| `World.CollisionCountZeroIff` | index.js:34-38 | `notCollidingWithAnything(b)` holds exactly when `b` collides with no body of the snapshot |
| `World.KeepNotColliding` | index.js:40 | the filter is no longer than its input |
| `World.KeepNotCollidingMembers` | index.js:40 | the filter keeps exactly the candidates that pass `notCollidingWithAnything` |
| `World.KeepNotCollidingKeepsOrder` | index.js:40 | the filter keeps the candidates' relative (creation) order |
| `World.SurvivorsExactly` | index.js:33-40 | the bodies after the filter are exactly the pre-tick bodies that collide with nothing in the snapshot, still in creation order |
| `World.SurvivorsCharacterised` | index.js:33-40 | any sequence in creation order with exactly those members is the filter's result, so the result is uniquely determined |
| `World.OverlappingPairRemoved` | index.js:33-40 | both bodies of any pair whose boxes overlap are removed |
| `World.TwoBulletsCollideInvaderSurvives` | index.js:33-40 | two overlapping bullets are both removed while an invader clear of them survives |
| `World.BlockerCount` | index.js:20-26 | the filter in `invadersBellow` is no longer than the body list |
| `World.BlockerCountPositiveIff` | index.js:20-26 | the filter is non-empty exactly when some body blocks the position |
| `World.InvadersBelow` | index.js:20-26 | `invadersBellow(inv)` holds exactly when some Invader `b` has horizontal distance to `inv` below `b.size.x` and lies strictly lower than `inv` |
| `World.InvadersBelowIgnoresSelf` | index.js:20-26 | removing the asking invader from the list does not change the answer: it never counts itself |
| `World.CreateInvaders` | index.js:155-163 | returns exactly 24 invaders; invader `i` is at `(35 + (i%8)*30, 35 + (i%3)*30)`, with patrol offset 0, speed 0.3 and size 15, and the ids increase |
| `World.FormationCellsDistinct` | index.js:157-159 | the 24 invaders occupy 24 different (column, row) cells |
| `World.FormationCollisionFree` | index.js:155-163 | no two invaders of the starting formation collide |
| `Entities.MoveBullet` | index.js:93-96 | a bullet's centre advances by its velocity; velocity, size and identity are unchanged |
| `Entities.FlightIsLinear` | index.js:93-96 | after `n` ticks a bullet is at `center + n * velocity`, with the same velocity and size: no acceleration |
| `Entities.MovePlayer` | index.js:63-77 | LEFT moves the ship by −2, else RIGHT by +2, otherwise it stays put. Only `center.x` changes |
| `Entities.PatrolStep` | index.js:114-129 | the speed is negated exactly when the pre-call offset is < 0 or > 40, and its magnitude is kept. Centre and offset both advance by the new speed, so `center.x − patrolX` is invariant. The row does not change |
| `Entities.Advance` | index.js:41-43 | a body's own update keeps its identity, size and kind; only bullets change row |
| `Entities.MakeInvader` | index.js:104-110 | a new invader has the given centre and id, size 15, patrol offset 0 inside the window, a rightward speed, and is in a reachable patrol state |
| `Entities.MakePlayer` | index.js:54-59 | the new ship has size 15, is centred horizontally, its centre is one ship height above the bottom, and in a game at least three ships tall the whole ship is in the bottom half |
| `Entities.MakeBullet` | index.js:85-89 | a new bullet has the given centre, id and velocity and the fixed size 3 |
| `Entities.IsDown` | index.js:148-150 | a key is down only when it has been recorded and recorded as held; a key never pressed is up |
| `Entities.PatrolStaysInWindow` | index.js:114-129 | from a reachable state, every later state is reachable: speed ±0.3, offset within [−0.3, 40.3], and outside [0, 40] only on the side the invader is heading |
| `Entities.PatrolInsideKeepsDirection` | index.js:115-117 | from offset 39 with speed 0.3 the offset becomes 39.3 and the speed is kept |
| `Entities.PatrolPastEdgeTurns` | index.js:115-117 | from offset 40.1 with speed 0.3 the same update reverses the speed and the offset becomes 39.8 |
| `Simulation.Game.constructor` | index.js:1-6 | the world starts with the 24-invader formation followed by the ship, centred, 15 above the bottom |
| `Simulation.Game.AddBody` | index.js:28-30 | appends the body and changes nothing else |
| `Simulation.Game.NewBullet` | index.js:85-89 | a new bullet is a new object of size 3 with the given centre and velocity |
| `Simulation.Game.UpdateBullet` | index.js:93-96 | the bullet's centre advances by its velocity; nothing else in the world changes |
| `Simulation.Game.UpdatePlayer` | index.js:63-77 | LEFT over RIGHT over SPACE, one action per tick. LEFT/RIGHT change only `center.x`, by ∓2, and append nothing. SPACE appends one bullet at `(x, y − size.y − 10)` with velocity `(0, −7)` and plays the sound. `center.y` never changes |
| `Simulation.Game.UpdateInvader` | index.js:114-129 | fires exactly when the draw exceeds 0.995 and no invader is below it. The one bullet goes at `(x, y + size.y)` with velocity `(r − 0.5, 2)`, `r` the next draw. The invader's own fields follow `PatrolStep` |
| `Simulation.Game.UpdateBodyAt` | index.js:41-43 | one body's update: rewrites that body by its own motion and appends at most one bullet, fired by it. A bullet never fires and uses no draw. The ship fires exactly when SPACE is held with LEFT and RIGHT up, uses no draw, and plays the sound when it fires. An invader fires exactly when its draw exceeds 0.995 and no invader is below it, uses one draw plus one when it fires, and its bullet's velocity is (next draw − 0.5, 2) |
| `Simulation.PassStep` | index.js:41-43 | one iteration of the live-index loop keeps the shape of the pass |
| `Simulation.CountStep` | index.js:41-43 | one iteration of the live-index loop keeps the counts of draws used and sounds played |
| `Simulation.PlayerShotsSnoc` | index.js:41-43 | recording one more shooter leaves the count of the ship's earlier shots unchanged |
| `Simulation.PassStart` | index.js:41 | before the first iteration no body is updated, no bullet fired, no draw used |
| `Simulation.PassComplete` | index.js:41-43 | when the live index reaches the end, every survivor and every fired bullet has been updated exactly once, and the counts of draws and sounds are final |
| `Simulation.Game.PassIteration` | index.js:41-43 | one iteration in the world: the body at the live index is updated and the shape and counts of the pass are kept |
| `Simulation.Game.RemoveColliding` | index.js:33-40 | the world's bodies become exactly the filter's survivors; nothing else changes |
| `Simulation.Game.UpdateAll` | index.js:41-43 | the live-index loop ends in a finished pass over the bodies present when it began |
| `Simulation.Game.Update` | index.js:32-44 | after a tick the survivors of the collision filter come first, each updated exactly once. After them come the bullets fired during the pass, each moved once in that same pass and each fired by a distinct survivor, in order. The final length is at most twice the number of survivors. The sound plays once per bullet the ship fired. The draws used are one per surviving invader plus one per bullet an invader fired |

## Left out

- Drawing (`Game.prototype.draw`, each entity's `draw`, `drawRect`): output to the canvas, with no logic.
- The frame driver and bootstrap (`tick`, `requestAnimationFrame`, `document.getElementById`, `new Game('canvas')`): the constructor takes the canvas width and height as parameters and does not start a loop.
- The audio element: rewinding and playing the shooting sound is counted in `shootSoundPlays`.
- The `Keyboarder` key listeners (`window.onkeydown` / `onkeyup`): asynchronous browser events. The key state they maintain is a parameter of the tick.
- `Math.random`: a parameter stream of draws. The model does not restrict the draws to [0, 1); every property holds for any draws.
- IEEE floating-point rounding: reals are exact.
- Simulation.Game.Update: does not say which random draw gave each invader bullet its horizontal speed, nor which survivors fire. Whether an invader fires depends on the world as it stands mid-pass; `UpdateBodyAt` and `UpdateInvader` state both exactly for one call.
