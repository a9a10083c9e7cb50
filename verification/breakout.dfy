/**
 Breakout: a paddle at the bottom of an 800x400 canvas, a ball, and a grid
 of 5x8 bricks. Each frame moves the paddle and the ball, bounces the ball
 off the side walls, the ceiling and the paddle, removes every brick whose
 rectangle holds the ball's centre (10 points each), and costs a life when
 the ball falls past the bottom edge; the game ends when no life is left.
 */
module Breakout {
  import opened GameObjects

  const CanvasWidth: real := 800.0
  const CanvasHeight: real := 400.0
  const Rows: int := 5
  const Cols: int := 8
  const BrickWidth: int := 80
  const BrickHeight: int := 20
  const BrickPadding: int := 10
  /** The grid starts this far below the padding at the top of the canvas. */
  const GridTop: int := 50
  const BrickPoints: int := 10
  const StartingLives: int := 3

  /** A brick's rectangle; the grid layout is pure integer arithmetic. */
  datatype Brick = Brick(x: int, y: int, width: int, height: int)

  datatype State = State(
    ball: Ball, paddle: Paddle, bricks: seq<Brick>,
    score: int, lives: int, gameOver: bool)

  // ---------------------------------------------------------------------------
  // The brick grid

  /** The brick in row i and column j of the grid. */
  function GridBrick(i: int, j: int): Brick
  {
    Brick(j * (BrickWidth + BrickPadding) + BrickPadding,
          i * (BrickHeight + BrickPadding) + BrickPadding + GridTop,
          BrickWidth, BrickHeight)
  }

  /** The grid constants worked out: brick (i, j) is at (90j + 10, 30i + 60) and 80x20. */
  lemma GridBrickAt(i: int, j: int)
    ensures GridBrick(i, j) == Brick(90 * j + 10, 30 * i + 60, 80, 20)
  {
  }

  /** Columns j to the last of row i, left to right. */
  function RowFrom(i: int, j: int): (r: seq<Brick>)
    requires 0 <= j <= Cols
    decreases Cols - j
    ensures |r| == Cols - j
    ensures forall k :: 0 <= k < |r| ==> r[k] == GridBrick(i, j + k)
  {
    if j == Cols then [] else [GridBrick(i, j)] + RowFrom(i, j + 1)
  }

  /** Row and column arithmetic of a row-major index into rows of 8. */
  lemma IndexStep(k: int)
    requires k >= 0
    ensures k < 8 ==> k / 8 == 0 && k % 8 == k
    ensures k >= 8 ==> (k - 8) / 8 == k / 8 - 1 && (k - 8) % 8 == k % 8
  {
  }

  /** Rows i to the last, top to bottom, each row left to right. */
  function RowsFrom(i: int): (r: seq<Brick>)
    requires 0 <= i <= Rows
    decreases Rows - i
    ensures |r| == (Rows - i) * 8
    ensures forall k :: 0 <= k < |r| ==> r[k] == GridBrick(i + k / 8, k % 8)
  {
    if i == Rows then []
    else
      var row := RowFrom(i, 0);
      var rest := RowsFrom(i + 1);
      assert forall k :: 0 <= k < |row + rest| ==> (row + rest)[k] == GridBrick(i + k / 8, k % 8) by {
        forall k | 0 <= k < |row + rest|
          ensures (row + rest)[k] == GridBrick(i + k / 8, k % 8)
        {
          IndexStep(k);
          if k >= 8 {
            assert (row + rest)[k] == rest[k - 8];
          }
        }
      }
      row + rest
  }

  /** The starting grid: 5 rows of 8 bricks, row by row. */
  function InitializeBricks(): (bricks: seq<Brick>)
    ensures |bricks| == 40
    ensures forall k :: 0 <= k < |bricks| ==> bricks[k] == GridBrick(k / 8, k % 8)
  {
    RowsFrom(0)
  }

  /** The brick of row i and column j is the (8i + j)-th one, at (90j + 10, 30i + 60), 80x20. */
  lemma GridLayout(i: int, j: int)
    requires 0 <= i < Rows && 0 <= j < Cols
    ensures InitializeBricks()[i * 8 + j] == Brick(90 * j + 10, 30 * i + 60, 80, 20)
  {
    var k := i * 8 + j;
    assert k / 8 == i && k % 8 == j;
    GridBrickAt(i, j);
  }

  /** The closed rectangle of brick b holds the point (px, py). */
  predicate Contains(b: Brick, px: real, py: real)
  {
    b.x as real <= px <= (b.x + b.width) as real &&
    b.y as real <= py <= (b.y + b.height) as real
  }

  /** A gap separates the two bricks horizontally or vertically. */
  predicate Separated(a: Brick, b: Brick)
  {
    a.x + a.width < b.x || b.x + b.width < a.x ||
    a.y + a.height < b.y || b.y + b.height < a.y
  }

  predicate PairwiseSeparated(bricks: seq<Brick>)
  {
    forall m, n :: 0 <= m < n < |bricks| ==> Separated(bricks[m], bricks[n])
  }

  /** Separated bricks have disjoint closed rectangles: no point lies in both. */
  lemma SeparatedDisjoint(a: Brick, b: Brick, px: real, py: real)
    requires Separated(a, b)
    ensures !(Contains(a, px, py) && Contains(b, px, py))
  {
  }

  /** Any two bricks of the grid are separated by a gap. */
  lemma GridSeparated()
    ensures PairwiseSeparated(InitializeBricks())
  {
    var g := InitializeBricks();
    forall m, n | 0 <= m < n < |g|
      ensures Separated(g[m], g[n])
    {
      var i1, j1, i2, j2 := m / 8, m % 8, n / 8, n % 8;
      assert g[m] == GridBrick(i1, j1) && g[n] == GridBrick(i2, j2);
      GridBrickAt(i1, j1);
      GridBrickAt(i2, j2);
      assert m == i1 * 8 + j1 && n == i2 * 8 + j2;
      if i1 == i2 {
        assert j1 < j2;
      } else {
        assert i1 < i2;
      }
    }
  }

  /** The brick lies within x in [10, 720] and y in [60, 200]. */
  predicate InGridArea(b: Brick)
  {
    10 <= b.x && b.x + b.width <= 720 && 60 <= b.y && b.y + b.height <= 200
  }

  /** Every brick of the grid lies within x in [10, 720] and y in [60, 200]. */
  lemma GridBounds()
    ensures forall k :: 0 <= k < |InitializeBricks()| ==> InGridArea(InitializeBricks()[k])
  {
    var g := InitializeBricks();
    forall k | 0 <= k < |g|
      ensures InGridArea(g[k])
    {
      var i, j := k / 8, k % 8;
      assert 0 <= i < 5 && 0 <= j < 8;
      assert g[k] == GridBrick(i, j);
      GridBrickAt(i, j);
    }
  }

  // ---------------------------------------------------------------------------
  // Ball and paddle steps

  /** The ball served from (400, 300): a new ball whose vertical velocity is forced upwards. */
  function ResetBall(serve: Aim): (b: Ball)
    ensures b.x == CanvasWidth / 2.0 && b.y == CanvasHeight - 100.0
    ensures b.radius == 10.0 && b.baseSpeed == 300.0
    ensures b.dy <= 0.0 && Abs(b.dy) == Abs(NewBall(b.x, b.y, serve).dy)
    ensures b.dx == NewBall(b.x, b.y, serve).dx
  {
    var b := NewBall(CanvasWidth / 2.0, CanvasHeight - 100.0, serve);
    b.(dy := -Abs(b.dy))
  }

  /**
   The paddle moves left only while the left arrow is held and its centre is
   right of half its width, and right only while the right arrow is held and
   its centre is left of the canvas width minus half its width.
   */
  function MovePaddle(p: Paddle, keys: set<string>, dt: real): (r: Paddle)
    ensures r == p.(x := r.x)
    ensures "ArrowLeft" !in keys && "ArrowRight" !in keys ==> r == p
    ensures dt > 0.0 && p.speed > 0.0 && r.x < p.x ==> "ArrowLeft" in keys && p.x > p.width / 2.0
    ensures dt > 0.0 && p.speed > 0.0 && r.x > p.x ==> "ArrowRight" in keys && p.x < CanvasWidth - p.width / 2.0
    ensures dt >= 0.0 && p.speed >= 0.0 && p.x <= p.width / 2.0 ==> r.x >= p.x
    ensures dt >= 0.0 && p.speed >= 0.0 && p.x >= CanvasWidth - p.width / 2.0 ==> r.x <= p.x
    ensures dt >= 0.0 && p.speed >= 0.0 && p.x <= p.width / 2.0 && "ArrowRight" !in keys ==> r == p
    ensures dt >= 0.0 && p.speed >= 0.0 && p.x >= CanvasWidth - p.width / 2.0 && "ArrowLeft" !in keys ==> r == p
    ensures (dt >= 0.0 && p.speed >= 0.0 && p.width / 2.0 < p.x < CanvasWidth - p.width / 2.0 &&
             "ArrowLeft" in keys && "ArrowRight" in keys) ==> r == p
    ensures "ArrowLeft" in keys && "ArrowRight" !in keys && p.x > p.width / 2.0 ==> r.x == p.x - p.speed * dt
    ensures "ArrowRight" in keys && "ArrowLeft" !in keys && p.x < CanvasWidth - p.width / 2.0 ==> r.x == p.x + p.speed * dt
  {
    var q := if "ArrowLeft" in keys && p.x > p.width / 2.0 then MoveLeft(p, dt) else p;
    if "ArrowRight" in keys && q.x < CanvasWidth - q.width / 2.0 then MoveRight(q, dt) else q
  }

  /**
   Side walls: a ball whose centre is within a radius of a side wall is put
   back at exactly a radius from it, moving away from it.
   */
  function Walls(b: Ball): (r: Ball)
    ensures r == b.(x := r.x, dx := r.dx)
    ensures Abs(r.dx) == Abs(b.dx)
    ensures b.radius <= CanvasWidth / 2.0 ==> r.radius <= r.x <= CanvasWidth - r.radius
    ensures b.x <= b.radius ==> r.x == b.radius && r.dx >= 0.0
    ensures b.radius < b.x && b.x >= CanvasWidth - b.radius ==> r.x == CanvasWidth - b.radius && r.dx <= 0.0
    ensures b.radius < b.x < CanvasWidth - b.radius ==> r == b
  {
    if b.x <= b.radius then b.(x := b.radius, dx := Abs(b.dx))
    else if b.x >= CanvasWidth - b.radius then b.(x := CanvasWidth - b.radius, dx := -Abs(b.dx))
    else b
  }

  /** Ceiling: a ball within a radius of the top is put back a radius below it, moving down. */
  function Ceiling(b: Ball): (r: Ball)
    ensures r == b.(y := r.y, dy := r.dy)
    ensures Abs(r.dy) == Abs(b.dy)
    ensures r.y >= r.radius
    ensures b.y <= b.radius ==> r.y == b.radius && r.dy >= 0.0
    ensures b.y > b.radius ==> r == b
  {
    if b.y <= b.radius then b.(y := b.radius, dy := Abs(b.dy)) else b
  }

  /** The ball's centre is at or below the paddle's top less a radius, within the paddle's width. */
  predicate OnPaddle(b: Ball, p: Paddle)
  {
    b.y >= p.y - b.radius &&
    b.x >= p.x - p.width / 2.0 &&
    b.x <= p.x + p.width / 2.0
  }

  /** Where along the paddle the ball hit it: 0 at its left end, 1 at its right end. */
  function HitPosition(b: Ball, p: Paddle): (h: real)
    requires p.width > 0.0
    ensures OnPaddle(b, p) ==> 0.0 <= h <= 1.0
    ensures h * p.width == b.x - (p.x - p.width / 2.0)
  {
    (b.x - (p.x - p.width / 2.0)) / p.width
  }

  /**
   Paddle bounce: a ball on the paddle is put back a radius above it and
   re-aimed at the base speed with the angle (h - 0.5) * 60 degrees for the
   hit position h, whose sine and cosine `aim` evaluates.
   */
  function PaddleBounce(b: Ball, p: Paddle, aim: real -> Aim): (r: Ball)
    requires p.width > 0.0
    ensures r.x == b.x && r.radius == b.radius && r.baseSpeed == b.baseSpeed
    ensures OnPaddle(b, p) ==> r.y == p.y - b.radius
    ensures OnPaddle(b, p) ==> r.dx == b.baseSpeed * aim(HitPosition(b, p)).sin
    ensures OnPaddle(b, p) ==> r.dy == -b.baseSpeed * aim(HitPosition(b, p)).cos
    ensures !OnPaddle(b, p) ==> r == b
    ensures OnPaddle(b, p) ==>
              var a := aim(HitPosition(b, p));
              a.sin * a.sin + a.cos * a.cos == 1.0 ==> r.dx * r.dx + r.dy * r.dy == b.baseSpeed * b.baseSpeed
    ensures OnPaddle(b, p) && b.baseSpeed > 0.0 && aim(HitPosition(b, p)).cos > 0.0 ==> r.dy < 0.0
  {
    if OnPaddle(b, p) then
      var a := aim(HitPosition(b, p));
      b.(y := p.y - b.radius, dx := b.baseSpeed * a.sin, dy := -b.baseSpeed * a.cos)
    else b
  }

  // ---------------------------------------------------------------------------
  // Bricks

  /** What the brick sweep leaves: the surviving bricks, the ball's vertical velocity and the score. */
  datatype Sweep = Sweep(bricks: seq<Brick>, dy: real, score: int)

  /** How many of the bricks hold the point (x, y) in their closed rectangle. */
  function HitCount(bricks: seq<Brick>, x: real, y: real): (n: nat)
    decreases |bricks|
    ensures n <= |bricks|
    ensures n == 0 <==> forall k :: 0 <= k < |bricks| ==> !Contains(bricks[k], x, y)
  {
    if |bricks| == 0 then 0
    else
      var rest := HitCount(bricks[1..], x, y);
      assert forall k :: 1 <= k < |bricks| ==> bricks[k] == bricks[1..][k - 1];
      (if Contains(bricks[0], x, y) then 1 else 0) + rest
  }

  /**
   The brick sweep, in list order: a brick holding the ball's centre (x, y)
   is removed, flips the ball's vertical velocity and scores 10 points.
   */
  function HitBricks(bricks: seq<Brick>, x: real, y: real, dy: real, score: int): (r: Sweep)
    decreases |bricks|
    ensures |r.bricks| <= |bricks|
    ensures r.score == score + 10 * (|bricks| - |r.bricks|)
    ensures r.dy == if (|bricks| - |r.bricks|) % 2 == 0 then dy else -dy
    ensures forall b :: b in r.bricks ==> b in bricks
    ensures (forall k :: 0 <= k < |bricks| ==> !Contains(bricks[k], x, y)) ==> r == Sweep(bricks, dy, score)
  {
    if |bricks| == 0 then Sweep(bricks, dy, score)
    else if Contains(bricks[0], x, y) then
      HitBricks(bricks[1..], x, y, -dy, score + BrickPoints)
    else
      var rest := HitBricks(bricks[1..], x, y, dy, score);
      Sweep([bricks[0]] + rest.bricks, rest.dy, rest.score)
  }

  /** The bricks that survive the sweep are exactly those whose rectangle does not hold the ball's centre. */
  lemma {:induction false} HitBricksSurvivors(bricks: seq<Brick>, x: real, y: real, dy: real, score: int)
    ensures forall b :: b in HitBricks(bricks, x, y, dy, score).bricks <==> b in bricks && !Contains(b, x, y)
    decreases |bricks|
  {
    if |bricks| > 0 {
      var tail := bricks[1..];
      assert forall b :: b in bricks <==> b == bricks[0] || b in tail;
      if Contains(bricks[0], x, y) {
        HitBricksSurvivors(tail, x, y, -dy, score + BrickPoints);
      } else {
        HitBricksSurvivors(tail, x, y, dy, score);
      }
    }
  }

  /** The sweep removes exactly as many bricks as hold the ball's centre. */
  lemma {:induction false} HitBricksRemovesHits(bricks: seq<Brick>, x: real, y: real, dy: real, score: int)
    decreases |bricks|
    ensures |bricks| - |HitBricks(bricks, x, y, dy, score).bricks| == HitCount(bricks, x, y)
  {
    if |bricks| > 0 {
      var tail := bricks[1..];
      var hit := if Contains(bricks[0], x, y) then 1 else 0;
      var ddy := if Contains(bricks[0], x, y) then -dy else dy;
      assert HitCount(bricks, x, y) == hit + HitCount(tail, x, y);
      HitBricksRemovesHits(tail, x, y, ddy, score + 10 * hit);
    }
  }

  /**
   Each brick holding the ball's centre is worth 10 points and one flip of
   the vertical velocity.
   */
  lemma HitBricksCountsHits(bricks: seq<Brick>, x: real, y: real, dy: real, score: int)
    ensures var r := HitBricks(bricks, x, y, dy, score);
            r.score == score + 10 * HitCount(bricks, x, y) &&
            r.dy == (if HitCount(bricks, x, y) % 2 == 0 then dy else -dy)
  {
    HitBricksRemovesHits(bricks, x, y, dy, score);
  }

  /**
   A list bounded by the tail of s stays bounded by s, with or without the
   first brick of s put back in front.
   */
  lemma ConsSubMultiset(s: seq<Brick>, a: seq<Brick>)
    requires |s| > 0 && multiset(a) <= multiset(s[1..])
    ensures multiset([s[0]] + a) <= multiset(s)
    ensures multiset(a) <= multiset(s)
  {
    assert s == [s[0]] + s[1..];
    assert multiset(s) == multiset{s[0]} + multiset(s[1..]);
    assert multiset([s[0]] + a) == multiset{s[0]} + multiset(a);
  }

  /** The survivors are drawn from the input and none of them appears more often than it did. */
  lemma {:induction false} HitBricksSubMultiset(bricks: seq<Brick>, x: real, y: real, dy: real, score: int)
    decreases |bricks|
    ensures multiset(HitBricks(bricks, x, y, dy, score).bricks) <= multiset(bricks)
  {
    if |bricks| > 0 {
      var tail := bricks[1..];
      var ddy := if Contains(bricks[0], x, y) then -dy else dy;
      var points := if Contains(bricks[0], x, y) then score + BrickPoints else score;
      var rest := HitBricks(tail, x, y, ddy, points).bricks;
      HitBricksSubMultiset(tail, x, y, ddy, points);
      ConsSubMultiset(bricks, rest);
    }
  }

  /** Dropping the first brick keeps the others separated. */
  lemma TailSeparated(bricks: seq<Brick>)
    requires |bricks| > 0 && PairwiseSeparated(bricks)
    ensures PairwiseSeparated(bricks[1..])
  {
    var tail := bricks[1..];
    forall m, n | 0 <= m < n < |tail|
      ensures Separated(tail[m], tail[n])
    {
      assert tail[m] == bricks[m + 1] && tail[n] == bricks[n + 1];
    }
  }

  /** A brick separated from every brick of a list stays separated from the bricks of any part of it. */
  lemma ConsSeparated(first: Brick, rest: seq<Brick>, pool: seq<Brick>)
    requires PairwiseSeparated(rest)
    requires forall b :: b in rest ==> b in pool
    requires forall k :: 0 <= k < |pool| ==> Separated(first, pool[k])
    ensures PairwiseSeparated([first] + rest)
  {
    var s := [first] + rest;
    forall m, n | 0 <= m < n < |s|
      ensures Separated(s[m], s[n])
    {
      if m == 0 {
        assert s[n] == rest[n - 1];
        assert s[n] in pool;
        var k :| 0 <= k < |pool| && pool[k] == s[n];
      } else {
        assert s[m] == rest[m - 1] && s[n] == rest[n - 1];
      }
    }
  }

  /** Removing bricks keeps the rest separated from each other. */
  lemma {:induction false} HitBricksKeepsSeparation(bricks: seq<Brick>, x: real, y: real, dy: real, score: int)
    requires PairwiseSeparated(bricks)
    ensures PairwiseSeparated(HitBricks(bricks, x, y, dy, score).bricks)
    decreases |bricks|
  {
    if |bricks| > 0 {
      var tail := bricks[1..];
      TailSeparated(bricks);
      if Contains(bricks[0], x, y) {
        HitBricksKeepsSeparation(tail, x, y, -dy, score + BrickPoints);
      } else {
        HitBricksKeepsSeparation(tail, x, y, dy, score);
        var rest := HitBricks(tail, x, y, dy, score).bricks;
        assert forall k :: 0 <= k < |tail| ==> tail[k] == bricks[k + 1];
        ConsSeparated(bricks[0], rest, tail);
      }
    }
  }

  /** Among separated bricks the ball's centre lies in at most one, so a sweep removes at most one. */
  lemma {:induction false} HitBricksRemovesAtMostOne(bricks: seq<Brick>, x: real, y: real, dy: real, score: int)
    requires PairwiseSeparated(bricks)
    ensures |HitBricks(bricks, x, y, dy, score).bricks| >= |bricks| - 1
    decreases |bricks|
  {
    if |bricks| > 0 {
      var tail := bricks[1..];
      if Contains(bricks[0], x, y) {
        forall k | 0 <= k < |tail|
          ensures !Contains(tail[k], x, y)
        {
          assert tail[k] == bricks[k + 1];
          SeparatedDisjoint(bricks[0], bricks[k + 1], x, y);
        }
      } else {
        TailSeparated(bricks);
        HitBricksRemovesAtMostOne(tail, x, y, dy, score);
      }
    }
  }

  // ---------------------------------------------------------------------------
  // The game

  /** A new game: served ball, centred paddle 20 pixels above the bottom, full grid, no score, 3 lives. */
  function NewGame(serve: Aim): (s: State)
    ensures s.ball == ResetBall(serve)
    ensures s.paddle == NewPaddle(400.0, 380.0)
    ensures s.bricks == InitializeBricks() && |s.bricks| == 40
    ensures s.score == 0 && s.lives == 3 && !s.gameOver
  {
    State(ResetBall(serve), NewPaddle(CanvasWidth / 2.0, CanvasHeight - 20.0), InitializeBricks(),
          0, StartingLives, false)
  }

  /**
   A ball whose centre reaches the bottom edge costs a life; the game is over
   when no life is left, and otherwise the ball is served again.
   */
  function Fall(s: State, serve: Aim): (r: State)
    ensures r.paddle == s.paddle && r.bricks == s.bricks && r.score == s.score
    ensures s.ball.y < CanvasHeight ==> r == s
    ensures s.ball.y >= CanvasHeight ==> r.lives == s.lives - 1
    ensures s.ball.y >= CanvasHeight ==> (r.gameOver <==> s.gameOver || r.lives <= 0)
    ensures s.ball.y >= CanvasHeight && r.lives > 0 ==> r.ball == ResetBall(serve) && r.ball.dy <= 0.0
    ensures s.ball.y >= CanvasHeight && r.lives <= 0 ==> r.ball == s.ball
  {
    if s.ball.y >= CanvasHeight then
      var lives := s.lives - 1;
      if lives <= 0 then s.(lives := lives, gameOver := true)
      else s.(lives := lives, ball := ResetBall(serve))
    else s
  }

  /** Where the ball is after moving and bouncing off the walls, the ceiling and the paddle. */
  function Bounced(s: State, keys: set<string>, dt: real, aim: real -> Aim): Ball
    requires s.paddle.width > 0.0
  {
    var p := MovePaddle(s.paddle, keys, dt);
    PaddleBounce(Ceiling(Walls(BallUpdate(s.ball, dt))), p, aim)
  }

  /**
   One frame; nothing happens once the game is over. `aim` evaluates the
   paddle bounce angle and `serve` is the random launch angle of a new ball.
   */
  function Update(s: State, keys: set<string>, dt: real, aim: real -> Aim, serve: Aim): (r: State)
    requires s.paddle.width > 0.0
    ensures s.gameOver ==> r == s
    ensures r.paddle == s.paddle.(x := r.paddle.x)
    ensures !s.gameOver ==> r.paddle == MovePaddle(s.paddle, keys, dt)
    ensures |r.bricks| <= |s.bricks|
    ensures r.score == s.score + 10 * (|s.bricks| - |r.bricks|)
    ensures !s.gameOver && s.ball.radius == 10.0 ==> 10.0 <= r.ball.x <= CanvasWidth - 10.0
    ensures r.lives == s.lives || (!s.gameOver && r.lives == s.lives - 1)
    ensures r.gameOver <==> s.gameOver || (r.lives < s.lives && r.lives <= 0)
    ensures r.lives < s.lives && !r.gameOver ==> r.ball == ResetBall(serve)
    ensures !s.gameOver ==>
              var b := Bounced(s, keys, dt, aim);
              var sweep := HitBricks(s.bricks, b.x, b.y, b.dy, s.score);
              r.bricks == sweep.bricks &&
              (r.lives == s.lives - 1 <==> b.y >= CanvasHeight) &&
              (b.y < CanvasHeight || r.gameOver ==> r.ball == b.(dy := sweep.dy))
  {
    if s.gameOver then s
    else
      var p := MovePaddle(s.paddle, keys, dt);
      var b := Bounced(s, keys, dt, aim);
      var sweep := HitBricks(s.bricks, b.x, b.y, b.dy, s.score);
      Fall(State(b.(dy := sweep.dy), p, sweep.bricks, sweep.score, s.lives, false), serve)
  }

  /** The bookkeeping a game keeps from its start. */
  predicate Valid(s: State)
  {
    && 0 <= s.lives <= StartingLives
    && (s.gameOver <==> s.lives == 0)
    && |s.bricks| <= 40
    && s.score == 10 * (40 - |s.bricks|)
    && PairwiseSeparated(s.bricks)
    && s.paddle.width > 0.0
    && s.ball.radius == BallRadius
  }

  /** A new game starts with the bookkeeping in place. */
  lemma NewGameValid(serve: Aim)
    ensures Valid(NewGame(serve))
  {
    GridSeparated();
  }

  /** Losing a life, or not, keeps the bookkeeping of a game that is not over. */
  lemma FallKeepsValid(m: State, serve: Aim)
    requires Valid(m) && !m.gameOver
    ensures Valid(Fall(m, serve))
  {
  }

  /** The brick sweep keeps the bookkeeping and removes at most one brick. */
  lemma SweepKeepsValid(s: State, b: Ball, p: Paddle)
    requires Valid(s) && !s.gameOver
    requires b.radius == BallRadius && p.width == s.paddle.width
    ensures var sweep := HitBricks(s.bricks, b.x, b.y, b.dy, s.score);
            Valid(State(b.(dy := sweep.dy), p, sweep.bricks, sweep.score, s.lives, false)) &&
            sweep.score <= s.score + 10
  {
    HitBricksKeepsSeparation(s.bricks, b.x, b.y, b.dy, s.score);
    HitBricksRemovesAtMostOne(s.bricks, b.x, b.y, b.dy, s.score);
  }

  /** In a game that keeps its bookkeeping, lives are never negative and the score is a non-negative multiple of 10, at most 400. */
  lemma ValidScore(s: State)
    requires Valid(s)
    ensures s.lives >= 0
    ensures 0 <= s.score <= 400 && s.score % 10 == 0
  {
    var gone := 40 - |s.bricks|;
    assert s.score == gone * 10;
  }

  /**
   Every frame keeps the bookkeeping: lives stay in [0, 3], the game is over
   exactly when they reach 0, the score stays a non-negative multiple of 10
   (10 per brick gone), and at most one brick goes per frame.
   */
  lemma UpdateKeepsValid(s: State, keys: set<string>, dt: real, aim: real -> Aim, serve: Aim)
    requires Valid(s)
    ensures var r := Update(s, keys, dt, aim, serve);
            Valid(r) && r.lives >= 0 && r.score >= 0 && r.score % 10 == 0 && r.score <= s.score + 10
  {
    var r := Update(s, keys, dt, aim, serve);
    if !s.gameOver {
      var p := MovePaddle(s.paddle, keys, dt);
      var b := Bounced(s, keys, dt, aim);
      var sweep := HitBricks(s.bricks, b.x, b.y, b.dy, s.score);
      var mid := State(b.(dy := sweep.dy), p, sweep.bricks, sweep.score, s.lives, false);
      assert r == Fall(mid, serve);
      SweepKeepsValid(s, b, p);
      FallKeepsValid(mid, serve);
    }
    ValidScore(r);
  }
}
