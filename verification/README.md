# classic-games rule logic in Dafny

A model of the game rules of three small canvas games: Pong, Breakout and a
Mario-style platformer. Each game keeps a small record of state. Each frame
is a pure step function of that state, the set of held keys, and the elapsed
time. TypeScript `number` is modelled as Dafny `real`, so arithmetic is exact.
Random draws and trigonometry are not computed. Their results are parameters:
`Aim` holds the sine and cosine of an angle, `Unit` is a draw in [0, 1), and
`Scale` is a positive speed factor.

- `game_objects.dfy` (module `GameObjects`): the ball and the paddle shared by
  Pong and Breakout, with the ball's linear motion, the paddle moves and the
  paddle-hit speed change.
- `mario_objects.dfy` (module `MarioObjects`): Mario, with his jump flag, run
  commands and semi-implicit Euler step, and the platform overlap test.
- `mario_game.dfy` (module `MarioGame`): the level layout and the frame
  update. The frame applies the keys with left-over-right precedence, steps
  Mario, snaps him onto every platform he overlaps in list order, and moves
  the camera.
- `breakout.dfy` (module `Breakout`): the 5x8 brick grid, the paddle gating,
  the wall, ceiling and paddle bounces, and the brick sweep with its score.
  It also holds lives and game over, and the bookkeeping invariant every
  frame keeps.
- `pong.dfy` (module `Pong`): the paddle gating, the edge bounce, the forced
  direction after a paddle hit, and scoring with the re-serve.

## Model

| member | source | states |
|---|---|---|
| GameObjects.NewBall | src/gameObjects.ts:9-20 | A new ball sits at the given point with radius 10 and base speed 300. Its velocity has magnitude 300 along the given angle and points upwards when the angle's cosine is positive. |
| GameObjects.BallUpdate | src/gameObjects.ts:22-25 | The ball moves by (dx·dt, dy·dt). Its velocity, radius and base speed are unchanged. |
| GameObjects.BallUpdateZero | src/gameObjects.ts:22-25 | A step with dt = 0 leaves the ball where it was. |
| GameObjects.BallUpdateAdditive | src/gameObjects.ts:22-25 | Two steps of t1 and t2 land the ball where one step of t1 + t2 does. |
| GameObjects.HandlePaddleCollision | src/gameObjects.ts:28-40 | A paddle hit keeps the ball's direction: dx and dy keep their ratio and signs. Both are scaled by one positive factor, so the squared speed scales by its square. Position and size are unchanged. |
| GameObjects.NewPaddle | src/gameObjects.ts:58-64 | A new paddle is 100 wide and 10 high, moves at 300 px/s, and sits at the given point. |
| GameObjects.MoveUp | src/gameObjects.ts:66-68 | Moving up changes only y, lowering it by speed·dt. |
| GameObjects.MoveDown | src/gameObjects.ts:70-72 | Moving down changes only y, raising it by speed·dt. |
| GameObjects.MoveLeft | src/gameObjects.ts:74-76 | Moving left changes only x, lowering it by speed·dt. |
| GameObjects.MoveRight | src/gameObjects.ts:78-80 | Moving right changes only x, raising it by speed·dt. |
| GameObjects.MoveUpDownRoundTrip | src/gameObjects.ts:66-72 | Moving up then down for the same dt restores the paddle exactly, and so does the reverse order. |
| GameObjects.MoveLeftRightRoundTrip | src/gameObjects.ts:74-80 | Moving left then right for the same dt restores the paddle exactly, and so does the reverse order. |
| MarioObjects.NewMario | src/marioGameObjects.ts:13-24 | A new Mario is a 32x32 box at rest and not jumping. His speed is 200, his jump force is -400 and his gravity is 800. |
| MarioObjects.Update | src/marioGameObjects.ts:26-33 | Gravity·dt is added to velocityY first. y then moves by the updated velocityY·dt and x by velocityX·dt. Nothing else changes. |
| MarioObjects.UpdateDisplacement | src/marioGameObjects.ts:26-33 | Over one step, y changes by the old velocityY·dt plus gravity·dt². |
| MarioObjects.UpdateZero | src/marioGameObjects.ts:26-33 | A step with dt = 0 changes nothing. |
| MarioObjects.UpdateFalls | src/marioGameObjects.ts:26-33 | Under positive gravity, Mario at rest or falling falls faster after a positive step and ends lower on the canvas. |
| MarioObjects.Jump | src/marioGameObjects.ts:35-40 | From the ground, a jump sets velocityY to the jump force and marks Mario airborne. While airborne, a jump changes nothing. |
| MarioObjects.JumpIdempotent | src/marioGameObjects.ts:35-40 | Jumping twice is the same as jumping once. |
| MarioObjects.MoveLeft | src/marioGameObjects.ts:42-44 | velocityX becomes -speed, whatever dt is, and nothing else changes. |
| MarioObjects.MoveRight | src/marioGameObjects.ts:46-48 | velocityX becomes +speed, whatever dt is, and nothing else changes. |
| MarioObjects.StopMoving | src/marioGameObjects.ts:50-52 | Only velocityX changes, and it becomes 0. |
| MarioObjects.LastMoveWins | src/marioGameObjects.ts:42-52 | The run commands ignore dt, and each one overrides the command before it. |
| MarioObjects.CheckCollision | src/marioGameObjects.ts:98-103 | The overlap is strict: boxes that only touch along an edge, on any side, do not collide. A collision implies vertical overlap. |
| MarioObjects.CollisionIsSharedInterior | src/marioGameObjects.ts:98-103 | For boxes of positive size, a collision holds exactly when the open interiors of the two boxes share a point. |
| MarioGame.Level | src/marioGame.ts:19-23 | The level has three platforms. The first is the ground at y = 560, spanning x in [0, 800]. The other two float above the ground. |
| MarioGame.NewGame | src/marioGame.ts:12-30 | The game starts on the level with Mario at (100, 510), above the ground. The camera and clock start at 0. |
| MarioGame.DeltaTime | src/marioGame.ts:38 | dt is the millisecond difference from the previous frame, in seconds. |
| MarioGame.Steer | src/marioGame.ts:42-52 | Left wins over right, and with neither held velocityX becomes 0. Up or space jumps from the ground. An airborne Mario keeps his vertical velocity and stays airborne, with or without a jump key. |
| MarioGame.Snap | src/marioGame.ts:61-63 | After snapping, Mario rests on the platform top (y = top − height, velocityY = 0, not jumping) and no longer overlaps that platform. |
| MarioGame.Land | src/marioGame.ts:58-65 | Landing never changes x, velocityX or Mario's size and constants. If no platform overlaps him, Mario is unchanged. |
| MarioGame.LandResolvesOverlap | src/marioGame.ts:58-65 | Platforms are checked in order against Mario as the earlier ones left him. Any overlap settles him on a platform k that he overlapped at its turn, as the earlier platforms left him. He ends resting on top of k, no later platform overlapped him at its turn, and he overlaps none from k to the end of the list. |
| MarioGame.UpdateGame | src/marioGame.ts:37-69 | lastTime becomes currentTime and the platforms never change. velocityX follows the key precedence, and x moves by velocityX·dt. cameraX = mario.x − 400. Without any overlap, Mario is exactly where input and gravity put him. |
| MarioGame.UpdateGameLands | src/marioGame.ts:55-65 | A frame in which the moved Mario overlaps a platform ends with him resting on a platform k, free to jump. Mario overlapped k at its turn, as the earlier platforms left him. No later platform overlapped him at its turn, and he overlaps none from k on. |
| MarioGame.StandingOnGroundIsStable | src/marioGame.ts:37-69 | A stock Mario (32x32, speed 200, gravity 800) standing on the ground of the level with 28 ≤ x ≤ 740 still stands on it after any frame shorter than 300 ms, running or not, as long as no jump key is held. Within that range he cannot run off the ground's ends in one frame. |
| Breakout.RowFrom | src/breakout.ts:70-77 | The inner column loop produces brick k of row i at column j + k, for the remaining columns of the row. |
| Breakout.RowsFrom | src/breakout.ts:69-78 | The nested row-then-column loop produces brick k at row k / 8 and column k % 8. |
| Breakout.InitializeBricks | src/breakout.ts:61-80 | The grid has 40 bricks, and brick k is the one in row k / 8 and column k % 8. |
| Breakout.GridLayout | src/breakout.ts:61-80 | Brick (i, j) is the (8i + j)-th of the 40 bricks and sits at (90j + 10, 30i + 60), size 80x20. |
| Breakout.GridSeparated | src/breakout.ts:69-77 | Any two grid bricks are separated by a gap, so their rectangles are disjoint. |
| Breakout.GridBounds | src/breakout.ts:69-77 | Every grid brick lies within x in [10, 720] and y in [60, 200]. |
| Breakout.SeparatedDisjoint | src/breakout.ts:134-135 | No point lies in the closed rectangles of two separated bricks. |
| Breakout.ResetBall | src/breakout.ts:187-190 | A served ball starts at (400, 300) with radius 10 and the launch angle's dx. Its dy has the launch magnitude and always points upwards (dy ≤ 0). |
| Breakout.MovePaddle | src/breakout.ts:87-92 | With only ArrowLeft held, the paddle moves left by speed·dt if and only if x > width/2. With only ArrowRight held, it moves right by speed·dt if and only if x < 800 − width/2. It moves left only if ArrowLeft is held, and right only if ArrowRight is held. At a wall, the paddle never moves further out, whatever keys are held. Holding both keys away from the walls leaves it still. Only x changes. |
| Breakout.Walls | src/breakout.ts:97-104 | Afterwards radius ≤ x ≤ 800 − radius. A left-wall hit leaves dx ≥ 0 and a right-wall hit leaves dx ≤ 0, with \|dx\| kept. Between the walls, nothing changes. |
| Breakout.Ceiling | src/breakout.ts:106-110 | Afterwards y ≥ radius, and a ceiling hit leaves dy ≥ 0 with \|dy\| kept. Only y and dy change. |
| Breakout.HitPosition | src/breakout.ts:120 | On the paddle, the hit position lies in [0, 1]. |
| Breakout.PaddleBounce | src/breakout.ts:112-130 | A ball on the paddle is put a radius above it and re-aimed at base speed by the hit-position angle. x never changes, and a ball off the paddle is untouched. For a unit aim (sin² + cos² = 1) the new velocity has speed baseSpeed exactly. A positive cosine with a positive base speed sends the ball upwards. |
| Breakout.HitBricks | src/breakout.ts:133-141 | Score rises by 10 per removed brick. dy is negated once per removed brick, so it flips iff an odd number go. Survivors come from the input. With no brick hit, nothing changes. |
| Breakout.HitBricksRemovesHits | src/breakout.ts:133-141 | The sweep removes exactly as many bricks as hold the ball centre. |
| Breakout.HitBricksCountsHits | src/breakout.ts:133-141 | Each brick holding the ball centre scores 10 and flips dy once, so dy ends flipped iff an odd number of bricks were hit. |
| Breakout.HitBricksSubMultiset | src/breakout.ts:133-141 | The survivors are drawn from the input, and no brick survives more often than it appeared. |
| Breakout.HitBricksSurvivors | src/breakout.ts:133-141 | Surviving bricks are exactly the bricks whose closed rectangle does not contain the ball centre. |
| Breakout.HitBricksKeepsSeparation | src/breakout.ts:133-141 | Filtering keeps the surviving bricks pairwise separated. |
| Breakout.HitBricksRemovesAtMostOne | src/breakout.ts:133-141 | Among pairwise separated bricks, a sweep removes at most one. |
| Breakout.NewGame | src/breakout.ts:43-48 | The game starts with the served ball, a paddle at (400, 380), all 40 bricks, score 0, 3 lives and the game not over. |
| Breakout.Fall | src/breakout.ts:144-151 | A ball past the bottom costs exactly one life. gameOver is set iff lives ≤ 0, and otherwise the ball is re-served with dy ≤ 0. A ball above the bottom changes nothing. |
| Breakout.Update | src/breakout.ts:83-152 | Once gameOver, a frame does nothing. Otherwise the paddle moves as its gating allows, and the surviving bricks are those the sweep leaves. The score rises by 10 per brick removed. A running game leaves 10 ≤ ball.x ≤ 790, the steps after the wall step keeping x. A running game loses exactly one life iff the bounced ball reaches y ≥ 400, and gameOver follows the lives. If the ball stays above the bottom, or the frame ends the game, the ball is the bounced ball with the dy the sweep leaves. |
| Breakout.FallKeepsValid | src/breakout.ts:144-151 | In a game that is not over, losing a life or not keeps lives in [0, 3] with gameOver iff lives = 0. |
| Breakout.SweepKeepsValid | src/breakout.ts:133-141 | The sweep keeps score = 10·(40 − bricks left) and the bricks separated, and adds at most 10 points. |
| Breakout.NewGameValid | src/breakout.ts:43-51 | The starting game satisfies the bookkeeping invariant. |
| Breakout.ValidScore | src/breakout.ts:47-48 | Under the bookkeeping, lives are never negative and the score is a multiple of 10 between 0 and 400. |
| Breakout.UpdateKeepsValid | src/breakout.ts:83-152 | Every frame keeps the invariant: lives in [0, 3], gameOver iff lives = 0, and score a non-negative multiple of 10 that rises by at most 10 per frame. |
| Pong.NewGame | src/pong.ts:22-25 | The game starts with the ball at (400, 200), paddles at (50, 150) and (750, 150), and both scores 0. |
| Pong.GatePaddle | src/pong.ts:39-50 | With only its up key held, a paddle moves up by speed·dt if and only if y > 0. With only its down key held, it moves down by speed·dt if and only if y < 400 − height. It moves up only if its up key is held, and down only if its down key is held. At an edge, the paddle never moves further out, whatever keys are held. Holding both keys away from the edges leaves it still. Only y changes. |
| Pong.BounceEdges | src/pong.ts:56-58 | At or past the top or bottom edge, only dy is negated. Between the edges, nothing changes. |
| Pong.BounceEdgesInvolution | src/pong.ts:56-58 | Bouncing twice in place restores the ball. |
| Pong.PaddleHits | src/pong.ts:61-73 | After a left hit (and no right hit) dx ≥ 0, and after a right hit dx ≤ 0. Velocity is rescaled by the hit's factor. Position is unchanged, and without a hit the ball is untouched. |
| Pong.ResetBall | src/pong.ts:86-91 | A served ball is at (400, 200) with dx = ±300 by the side draw and dy in [−300, 300). Its size is kept. |
| Pong.Score | src/pong.ts:76-83 | A ball at x ≤ 0 adds exactly 1 to the right score and one at x ≥ 800 adds 1 to the left. The ball is then re-centred, and otherwise nothing changes. Afterwards 0 < x < 800. |
| Pong.Update | src/pong.ts:37-84 | Each score rises by 1 exactly when the rallied ball crosses its edge. Paddles keep their x. A rallied ball strictly between the side edges is kept as is, and any other is re-served from the centre. Afterwards the ball is strictly between the side edges. |
| Pong.UpdateScoresAtMostOne | src/pong.ts:76-88 | Scores never decrease, and one frame adds at most one point in all. |

## Left out

- Drawing: every `draw` method, the canvas calls and the debug panel overlay (`src/debugPanel.ts`) are presentation only.
- Menu wiring in `src/index.ts` only connects DOM buttons to the game constructors.
- Key events: `addEventListener` bookkeeping is replaced by the set of held keys passed to each update.
- Frame scheduling: `gameLoop`, `start`, `requestAnimationFrame` and `performance.now` are not modelled. Breakout and Pong compute dt in their game loops, so their `Update` takes dt directly. The platformer computes dt inside `update`, so that computation is modelled.
- Randomness and trigonometry: `Math.random`, `Math.sin`, `Math.cos` and `Math.PI` are parameters. The ball's launch angle and Breakout's bounce angle are evaluated outside the model and passed in as `Aim`.
- GameObjects.HandlePaddleCollision: does not state that the new speed is 80% to 120% of the base speed. That would need `Math.sqrt`, so the factor newSpeed / currentSpeed is a positive parameter. A ball at rest, which gives NaN in the source, is not modelled.
- Breakout.PaddleBounce: the bounce angle (h − 0.5)·π/3 is evaluated by the caller-supplied `aim` on the hit position h. So the model does not state that the angle lies within ±30°.
- Breakout.Update: requires a paddle of positive width because the hit position divides by the width. The source's paddle is always 100 wide.
- Floating point: all arithmetic is exact real arithmetic, and IEEE rounding is not modelled. The paddle round trips hold for reals, not necessarily for doubles.
- The platformer source has no enemies, blocks, power-ups, ducking, growing, lives or respawn, so the model has none of these.
