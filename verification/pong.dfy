/**
 Pong: two paddles on an 800x400 canvas, the left one steered with 'w'/'s'
 and the right one with the up/down arrows. Each frame moves the paddles and
 the ball, bounces the ball off the top and bottom edges and the paddles,
 and scores a point for the far side when the ball leaves past a side edge,
 serving it again from the centre.
 */
module Pong {
  import opened GameObjects

  const CanvasWidth: real := 800.0
  const CanvasHeight: real := 400.0

  datatype State = State(
    ball: Ball, leftPaddle: Paddle, rightPaddle: Paddle,
    scoreLeft: int, scoreRight: int)

  /** The two random draws of a serve: the horizontal side and the vertical speed. */
  datatype Serve = Serve(side: Unit, lift: Unit)

  /**
   A new game: the ball at the centre, the paddles 50 pixels in from each
   side with their tops 50 pixels above the middle, no score.
   */
  function NewGame(aim: Aim): (s: State)
    ensures s.ball == NewBall(400.0, 200.0, aim)
    ensures s.leftPaddle == NewPaddle(50.0, 150.0) && s.rightPaddle == NewPaddle(750.0, 150.0)
    ensures s.scoreLeft == 0 && s.scoreRight == 0
  {
    State(NewBall(CanvasWidth / 2.0, CanvasHeight / 2.0, aim),
          NewPaddle(50.0, CanvasHeight / 2.0 - 50.0),
          NewPaddle(CanvasWidth - 50.0, CanvasHeight / 2.0 - 50.0),
          0, 0)
  }

  /**
   A paddle moves up only while its up key is held and its top is below the
   canvas top, and then down only while its down key is held and its bottom
   is above the canvas bottom.
   */
  function GatePaddle(p: Paddle, up: bool, down: bool, dt: real): (r: Paddle)
    ensures r == p.(y := r.y)
    ensures !up && !down ==> r == p
    ensures dt > 0.0 && p.speed > 0.0 && r.y < p.y ==> up && p.y > 0.0
    ensures dt > 0.0 && p.speed > 0.0 && r.y > p.y ==> down && p.y < CanvasHeight - p.height
    ensures dt >= 0.0 && p.speed >= 0.0 && p.y <= 0.0 ==> r.y >= p.y
    ensures dt >= 0.0 && p.speed >= 0.0 && p.y >= CanvasHeight - p.height ==> r.y <= p.y
    ensures dt >= 0.0 && p.speed >= 0.0 && p.y <= 0.0 && !down ==> r == p
    ensures dt >= 0.0 && p.speed >= 0.0 && p.y >= CanvasHeight - p.height && !up ==> r == p
    ensures (dt >= 0.0 && p.speed >= 0.0 && 0.0 < p.y < CanvasHeight - p.height && up && down) ==> r == p
    ensures up && !down && p.y > 0.0 ==> r.y == p.y - p.speed * dt
    ensures down && !up && p.y < CanvasHeight - p.height ==> r.y == p.y + p.speed * dt
  {
    var q := if up && p.y > 0.0 then MoveUp(p, dt) else p;
    if down && q.y < CanvasHeight - q.height then MoveDown(q, dt) else q
  }

  /** Top and bottom edges: a ball at or past either has its vertical velocity reversed, and nothing else changes. */
  function BounceEdges(b: Ball): (r: Ball)
    ensures (b.y <= 0.0 || b.y >= CanvasHeight) ==> r == b.(dy := -b.dy)
    ensures 0.0 < b.y < CanvasHeight ==> r == b
  {
    if b.y <= 0.0 || b.y >= CanvasHeight then b.(dy := -b.dy) else b
  }

  /** Bouncing twice in place undoes the bounce. */
  lemma BounceEdgesInvolution(b: Ball)
    ensures BounceEdges(BounceEdges(b)) == b
  {
  }

  /** The ball is level with the left paddle and not right of its right edge. */
  predicate HitsLeft(b: Ball, p: Paddle)
  {
    b.x <= p.x + p.width && b.y >= p.y && b.y <= p.y + p.height
  }

  /** The ball is level with the right paddle and not left of its x coordinate. */
  predicate HitsRight(b: Ball, p: Paddle)
  {
    b.x >= p.x && b.y >= p.y && b.y <= p.y + p.height
  }

  /**
   Paddle hits: a left hit rescales the ball's speed by `kl` and sends it
   right; a right hit, checked afterwards, rescales it by `kr` and sends it
   left. The ball's position never changes here.
   */
  function PaddleHits(b: Ball, left: Paddle, right: Paddle, kl: Scale, kr: Scale): (r: Ball)
    ensures r.x == b.x && r.y == b.y && r.radius == b.radius && r.baseSpeed == b.baseSpeed
    ensures HitsLeft(b, left) && !HitsRight(b, right) ==> r.dx >= 0.0 && r.dx == kl * Abs(b.dx) && r.dy == kl * b.dy
    ensures HitsRight(b, right) ==> r.dx <= 0.0
    ensures !HitsLeft(b, left) && HitsRight(b, right) ==> r.dx == -(kr * Abs(b.dx)) && r.dy == kr * b.dy
    ensures !HitsLeft(b, left) && !HitsRight(b, right) ==> r == b
  {
    var b1 := if HitsLeft(b, left) then
                var h := HandlePaddleCollision(b, kl); h.(dx := Abs(h.dx))
              else b;
    if HitsRight(b1, right) then
      var h := HandlePaddleCollision(b1, kr); h.(dx := -Abs(h.dx))
    else b1
  }

  /**
   The serve: the ball back at the centre, moving at 300 pixels per second
   horizontally towards a random side and at up to 300 pixels per second
   vertically, keeping its size.
   */
  function ResetBall(b: Ball, serve: Serve): (r: Ball)
    ensures r.x == CanvasWidth / 2.0 && r.y == CanvasHeight / 2.0
    ensures r.radius == b.radius && r.baseSpeed == b.baseSpeed
    ensures r.dx == 300.0 || r.dx == -300.0
    ensures r.dx == 300.0 <==> serve.side > 0.5
    ensures -300.0 <= r.dy < 300.0
  {
    b.(x := CanvasWidth / 2.0, y := CanvasHeight / 2.0,
       dx := (if serve.side > 0.5 then 1.0 else -1.0) * 300.0,
       dy := (serve.lift * 2.0 - 1.0) * 300.0)
  }

  /**
   Scoring: a ball at or past the left edge scores for the right player, one
   at or past the right edge for the left player, and either is served again
   from the centre. The serve re-centres the ball before the second check, so
   at most one point is scored.
   */
  function Score(s: State, serve: Serve): (r: State)
    ensures r.leftPaddle == s.leftPaddle && r.rightPaddle == s.rightPaddle
    ensures s.ball.x <= 0.0 ==>
              r.scoreRight == s.scoreRight + 1 && r.scoreLeft == s.scoreLeft &&
              r.ball == ResetBall(s.ball, serve)
    ensures s.ball.x >= CanvasWidth ==>
              r.scoreLeft == s.scoreLeft + 1 && r.scoreRight == s.scoreRight &&
              r.ball == ResetBall(s.ball, serve)
    ensures 0.0 < s.ball.x < CanvasWidth ==> r == s
    ensures 0.0 < r.ball.x < CanvasWidth
  {
    var s1 := if s.ball.x <= 0.0 then
                s.(scoreRight := s.scoreRight + 1, ball := ResetBall(s.ball, serve))
              else s;
    if s1.ball.x >= CanvasWidth then
      s1.(scoreLeft := s1.scoreLeft + 1, ball := ResetBall(s1.ball, serve))
    else s1
  }

  /** Where the ball is after moving and bouncing off the edges and the paddles, before scoring. */
  function Rallied(s: State, keys: set<string>, dt: real, kl: Scale, kr: Scale): Ball
  {
    var left := GatePaddle(s.leftPaddle, "w" in keys, "s" in keys, dt);
    var right := GatePaddle(s.rightPaddle, "ArrowUp" in keys, "ArrowDown" in keys, dt);
    PaddleHits(BounceEdges(BallUpdate(s.ball, dt)), left, right, kl, kr)
  }

  /**
   One frame. `kl` and `kr` are the speed factors of a left and a right
   paddle hit and `serve` the random draws of a serve.
   */
  function Update(s: State, keys: set<string>, dt: real, kl: Scale, kr: Scale, serve: Serve): (r: State)
    ensures r.leftPaddle == GatePaddle(s.leftPaddle, "w" in keys, "s" in keys, dt)
    ensures r.rightPaddle == GatePaddle(s.rightPaddle, "ArrowUp" in keys, "ArrowDown" in keys, dt)
    ensures r.leftPaddle.x == s.leftPaddle.x && r.rightPaddle.x == s.rightPaddle.x
    ensures r.scoreLeft == s.scoreLeft + (if Rallied(s, keys, dt, kl, kr).x >= CanvasWidth then 1 else 0)
    ensures r.scoreRight == s.scoreRight + (if Rallied(s, keys, dt, kl, kr).x <= 0.0 then 1 else 0)
    ensures 0.0 < r.ball.x < CanvasWidth
    ensures 0.0 < Rallied(s, keys, dt, kl, kr).x < CanvasWidth ==> r.ball == Rallied(s, keys, dt, kl, kr)
    ensures !(0.0 < Rallied(s, keys, dt, kl, kr).x < CanvasWidth) ==>
              r.ball == ResetBall(Rallied(s, keys, dt, kl, kr), serve)
  {
    var left := GatePaddle(s.leftPaddle, "w" in keys, "s" in keys, dt);
    var right := GatePaddle(s.rightPaddle, "ArrowUp" in keys, "ArrowDown" in keys, dt);
    var b := Rallied(s, keys, dt, kl, kr);
    Score(State(b, left, right, s.scoreLeft, s.scoreRight), serve)
  }

  /** Scores never go down, and a frame adds at most one point in all. */
  lemma UpdateScoresAtMostOne(s: State, keys: set<string>, dt: real, kl: Scale, kr: Scale, serve: Serve)
    ensures var r := Update(s, keys, dt, kl, kr, serve);
            r.scoreLeft >= s.scoreLeft && r.scoreRight >= s.scoreRight &&
            r.scoreLeft + r.scoreRight <= s.scoreLeft + s.scoreRight + 1
  {
  }
}
