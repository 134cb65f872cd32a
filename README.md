# Arcade shooter simulation, modelled in Dafny

This project models the simulation core of a small canvas arcade shooter
(`entidades.js`). The player ship moves along the bottom edge and fires
bullets upward. Aliens spawn at the top on a timer and descend. A bullet that
overlaps an alien destroys it for 10 points. An alien that reaches the bottom
edge or touches the player ends the game. Every 6000 ticks the game gets
harder: new aliens are faster and the spawn period gets shorter, down to a
floor of 800 ms.

Modules, leaf first:

- `Geometry` (geometry.dfy): the rectangle each object occupies, and the
  strict axis-aligned overlap test `collidesWith`.
- `Entities` (entities.dfy): `Player`, `Bullet` and `Alien` as classes whose
  `y` (and, for the player, `x`) change in place. The player's move is a
  key-dependent step of ±3 followed by a clamp to the canvas. A bullet climbs
  8 per tick. An alien descends by its own speed.
- `Pacing` (pacing.dfy): the difficulty controller as a step function on
  `(difficultyTimer, alienSpeed, spawnInterval)`, with a closed form for n
  ticks and its consequences.
- `Passes` (passes.dfy): the three filter passes of a tick. They are the
  prune of off-screen bullets, the lethal pass and the sequential scoring
  pass. Each is a method with a loop, proved equal to a recursive
  specification function, and each function carries lemmas saying what it
  keeps and removes. The passes work on snapshots: each object is paired with
  the rectangle it occupies. Nothing moves while the passes run, so this loses
  nothing.
- `Arcade` (arcade.dfy): `class Game` with the player, the bullet and alien
  lists, score, game-over flag, difficulty state, last-shot timestamp, and a
  count of armed spawn timers. It has `Restart`, `Spawn`, `Shoot` and
  `Update`. `Update` is split into the motion half (`Advance`) and the
  collision half (`ResolveCollisions`). A class invariant `Valid` says:
  - both lists are duplicate-free;
  - the score is ten times the number of aliens destroyed;
  - the alien speed is at least 1;
  - the spawn period lies in [800, 2000];
  - the player stays on the canvas.

Key state (left, right, space) is passed as booleans. `Date.now()` is the
`now` parameter of `Shoot` and `Update`. The `Math.random()` draw is the
`random` parameter of `SpawnX`.

The model follows the code as written; in particular:

- `restart` does not reset `difficultyTimer`, `alienSpeed`, `spawnInterval`
  or `lastShoot` (`Arcade.Game.Restart`).
- Spawn timers are never cancelled. Each restart and each escalation arms
  one more, and they keep firing after the game is over. `spawners` counts
  them, and `Spawn` has no game-over guard.
- The lethal pass inspects every alien and does not stop at the first lethal
  one. The scoring pass still runs in the tick that ends the game.
- A shot needs strictly more than 300 ms since the last one.
- On a canvas wider than 40, a spawned alien's x lies in [0, canvasWidth - 40):
  the right end is never reached. On a canvas exactly 40 wide, x is 0.

## Model

| member | source | states |
|---|---|---|
| Geometry.CollidesWith | entidades.js:20-27 | the overlap test: the four strict comparisons of one rectangle's edges against the other's |
| Geometry.CollidesIffCommonPoint | entidades.js:20-27 | for rectangles with positive width and height, `collidesWith` holds exactly when some point lies strictly inside both |
| Geometry.CollidesSymmetric | entidades.js:20-27 | `a.collidesWith(b)` equals `b.collidesWith(a)` |
| Geometry.CollidesReflexive | entidades.js:20-27 | a rectangle with positive width and height collides with itself |
| Entities.Delta | entidades.js:36-37 | the horizontal step is -3 with only left held, +3 with only right held, 0 with both or neither |
| Entities.Clamp | entidades.js:38 | `max(0, min(hi, v))` is never negative, is at most `hi` when `hi >= 0`, leaves a value in range alone, and sends values below or above the range to 0 or `max(0, hi)` |
| Entities.Player.constructor | entidades.js:30-33 | a player is created at the given position (40 by 40) |
| Entities.Player.Move | entidades.js:35-39 | x becomes the clamp of x plus the step, y is unchanged, and 0 <= x <= canvasWidth - 40 whenever the canvas is at least 40 wide |
| Entities.Bullet.constructor | entidades.js:42-46 | a bullet is created at the given position (5 by 10, speed 8) |
| Entities.Bullet.Update | entidades.js:48-50 | a bullet's y decreases by exactly 8 |
| Entities.Alien.constructor | entidades.js:53-57 | an alien is created at the given position with the given speed (40 by 40) |
| Entities.Alien.Update | entidades.js:59-61 | an alien's y increases by exactly its own speed |
| Pacing.NextInterval | entidades.js:149 | the new spawn period is interval - 20 unless that falls below 800, in which case it is 800; it is never below 800 and, when the old period is at least 800, never above the old one |
| Pacing.NextDifficulty | entidades.js:146-149 | one tick adds exactly 1 to the timer; at a multiple of 6000 the speed rises by 0.2 and the period becomes `NextInterval` of the old one; otherwise speed and period are unchanged; a period at or above 800 stays in [800, old period] |
| Pacing.AdvanceClosedForm | entidades.js:146-149 | after n ticks, with k the number of multiples of 6000 passed, the speed is the old speed + 0.2k and the period is max(800, old period - 20k) |
| Pacing.AdvanceMonotone | entidades.js:146-149 | over any number of ticks the speed never decreases and the period never rises and never drops below 800 |
| Pacing.QuietStart | entidades.js:79-81 | from a fresh game, the first 5999 ticks change only the timer |
| Pacing.FirstEscalation | entidades.js:146-149 | from a fresh game, after 6000 ticks the speed is 1.2 and the period 1980 |
| Passes.Visible | entidades.js:154 | the prune as a filter: the bullets, in order, whose bottom edge is below the top of the canvas (y + height > 0) |
| Passes.VisibleSpec | entidades.js:154 | the prune keeps exactly the bullets with y + height > 0 (both directions) and keeps the list duplicate-free |
| Passes.PruneBullets | entidades.js:154 | the prune loop computes the order-preserving filter `Visible` |
| Passes.Lethal | entidades.js:156-158 | an alien is lethal when its bottom edge is at or past the canvas bottom (>=) or it overlaps the player |
| Passes.Survivors | entidades.js:155-164 | the lethal filter: the aliens, in order, that are not lethal |
| Passes.SurvivorsSpec | entidades.js:155-164 | the lethal pass keeps exactly the aliens that neither reach the bottom edge nor touch the player (both directions), never grows the list, and keeps it duplicate-free |
| Passes.SurvivorsAppend | entidades.js:155-164 | the lethal filter distributes over concatenation, so survivors keep their original order |
| Passes.SurvivorsAllKept | entidades.js:155-164 | when no alien is lethal the alien list keeps its length |
| Passes.LethalPass | entidades.js:155-164 | the loop over every alien returns the survivors and sets game over iff at least one alien was lethal |
| Passes.Struck | entidades.js:167 | some bullet in the list overlaps the alien |
| Passes.Without | entidades.js:169 | the inner bullet filter: the bullets, in order, that do not overlap the alien |
| Passes.WithoutSpec | entidades.js:169 | the inner bullet filter keeps exactly the bullets not overlapping the alien (both directions) and keeps the list duplicate-free |
| Passes.Scoring | entidades.js:166-173 | the scoring pass as a left-to-right recursion: a struck alien is dropped, the bullets overlapping it are removed before the next alien is examined, and a kill is counted |
| Passes.ScoringShape | entidades.js:166-173 | kills plus kept aliens equal the aliens examined; kept aliens and bullets come from the input |
| Passes.ScoringKillsStruck | entidades.js:166-173 | every alien removed by the scoring pass overlapped some bullet |
| Passes.ScoringLeavesNoHit | entidades.js:166-173 | no bullet left after the scoring pass overlaps any alien it examined, removed or kept |
| Passes.ScoringKeepsDistinct | entidades.js:166-173 | the scoring pass keeps both lists duplicate-free |
| Passes.ScoringSpec | entidades.js:166-173 | the four scoring facts above together |
| Passes.ScoringBulletsLeft | entidades.js:169 | the bullets left are those that survive the per-alien filters applied in alien order |
| Passes.ScoringKeepsAt | entidades.js:166-173 | alien i is kept exactly when no bullet still present after aliens 0..i-1 were resolved overlaps it |
| Passes.ScoringExact | entidades.js:166-173 | for every alien: it is removed iff hit by a bullet still present at that point; and the bullets left are exactly those that survive every removal |
| Passes.ScoringPass | entidades.js:166-173 | the sequential loop computes `Scoring`: kept aliens, remaining bullets and the number of kills |
| Passes.CollisionPassesSpec | entidades.js:154-173 | after the three passes every object kept was in the input, every bullet is on screen, no alien is lethal, no kept bullet overlaps a kept alien, and both lists stay duplicate-free |
| Passes.PassesKeepDistinct | entidades.js:154-173 | the three passes keep the objects in both lists pairwise distinct |
| Passes.CollisionPasses | entidades.js:154-173 | prune, lethal pass and scoring pass in order compute `Scoring(Survivors(...), Visible(...))`, and report game over iff some alien was lethal |
| Arcade.Climb | entidades.js:143 | the bullet snapshot after one tick of flight: every bullet's rectangle moved up by its speed |
| Arcade.Descend | entidades.js:144 | the alien snapshot after one tick of descent: every alien's rectangle moved down by its own speed |
| Arcade.SpawnX | entidades.js:121 | on a canvas at least 40 wide, the random spawn position is never negative and the alien lies wholly on the canvas; on a wider canvas x stays strictly below canvasWidth - 40 |
| Arcade.Game.constructor | entidades.js:65-83 | a new game has the player at (canvasWidth/2 - 20, canvasHeight - 40), no bullets or aliens, score 0, not over, timer 0, speed 1, period 2000, lastShoot 0 and one spawn timer |
| Arcade.Game.Restart | entidades.js:108-117 | play resumes with a fresh player at the start position, no aliens or bullets and score 0; the difficulty state and lastShoot are unchanged; one more spawn timer is armed |
| Arcade.Game.Spawn | entidades.js:122 | a fresh alien at (x, 0) with the current alien speed is appended to the aliens and nothing else changes, game over or not |
| Arcade.Game.Shoot | entidades.js:126-135 | when now - lastShoot > 300, exactly one fresh bullet at (player.x + 17.5, player.y) is appended and lastShoot := now; otherwise bullets and lastShoot are unchanged |
| Arcade.Game.AdvanceBullets | entidades.js:143 | every bullet's y decreases by 8; the aliens are untouched |
| Arcade.Game.AdvanceAliens | entidades.js:144 | every alien's y increases by its own speed; the bullets are untouched |
| Arcade.Game.Fly | entidades.js:143-144 | bullets climb and aliens descend, each by its own speed |
| Arcade.Game.Escalate | entidades.js:146-151 | the difficulty state takes one `NextDifficulty` step, and a spawn timer is armed exactly when it escalates |
| Arcade.Game.Act | entidades.js:140-141 | the player moves, and a bullet is fired exactly when space is held and the cooldown has passed |
| Arcade.Game.Advance | entidades.js:138-151 | the motion half of a tick: move, optional shot, every object moves (including the new bullet), one difficulty step |
| Arcade.Game.Collisions | entidades.js:154-173 | the passes computed on the objects where they stand, without changing anything, with the lethal flag; every kept object is paired with the rectangle it occupies |
| Arcade.Game.Commit | entidades.js:154-173 | the kept lists are stored, game over is set on a lethal hit, and the score rises by 10 per kill; the objects now in the lists stand where the passes saw them |
| Arcade.Game.ResolveCollisions | entidades.js:154-173 | game over iff it already was or some alien was lethal; aliens, bullets, their positions and the score follow the passes on the positions before the call; afterwards every bullet is below the top edge, no alien is lethal and no bullet overlaps an alien |
| Arcade.Game.Update | entidades.js:137-174 | a finished game is left entirely unchanged; otherwise the player moves and may shoot, and the difficulty steps. Game over, the kept aliens and bullets with their final positions, and a score raised by 10 per kill follow the passes on the moved positions. Afterwards every bullet is below the top edge, no alien is lethal and no bullet overlaps an alien |

## Left out

- Drawing (`GameObject.draw`, `Game.draw`, `showGameOver`) and the restart
  button: canvas and DOM calls with no game logic.
- Sound playback on a shot and on a loss: fire-and-forget audio calls.
- The keyboard listeners: key state is passed to `Update` as three booleans.
- `setInterval` firing and the frame loop (`requestAnimationFrame`, `loop`):
  timers are counted by `spawners`, and a timer firing is a call of `Spawn`.
  A tick sequence is any sequence of `Update` calls, so no loop is modelled.
- `Date.now()` and `Math.random()`: they become the `now` and `random`
  parameters.
- IEEE-754 rounding: coordinates and speeds are exact reals.
