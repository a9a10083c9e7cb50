/**
 The ball and the paddle shared by Pong and Breakout.

 Every coordinate is a canvas coordinate (x grows to the right, y grows
 downwards) held as a `real`; velocities are in pixels per second and every
 step takes the elapsed time `dt` in seconds. Random draws and trigonometry
 are not computed here: their results arrive as parameters.
 */
module GameObjects {

  const BallBaseSpeed: real := 300.0
  const BallRadius: real := 10.0
  const PaddleWidth: real := 100.0
  const PaddleHeight: real := 10.0
  const PaddleSpeed: real := 300.0

  /** A draw of a uniform random number in [0, 1). */
  type Unit = u: real | 0.0 <= u < 1.0 witness 0.0

  /** A strictly positive factor by which a paddle hit rescales the ball's velocity. */
  type Scale = k: real | k > 0.0 witness 1.0

  /** The sine and cosine of an angle, evaluated outside the model. */
  datatype Aim = Aim(sin: real, cos: real)

  datatype Ball = Ball(x: real, y: real, dx: real, dy: real, radius: real, baseSpeed: real)

  datatype Paddle = Paddle(x: real, y: real, width: real, height: real, speed: real)

  function Abs(v: real): (r: real)
    ensures r >= 0.0 && (r == v || r == -v)
  {
    if v < 0.0 then -v else v
  }

  /**
   A new ball at (x, y), launched with the base speed in the direction whose
   sine and cosine `aim` holds; a positive cosine sends it upwards.
   */
  function NewBall(x: real, y: real, aim: Aim): (b: Ball)
    ensures b.x == x && b.y == y
    ensures b.radius == 10.0 && b.baseSpeed == 300.0
    ensures aim.sin * aim.sin + aim.cos * aim.cos == 1.0 ==>
              b.dx * b.dx + b.dy * b.dy == b.baseSpeed * b.baseSpeed
    ensures aim.cos > 0.0 ==> b.dy < 0.0
    ensures b.dx * aim.cos == -b.dy * aim.sin
  {
    Ball(x, y, BallBaseSpeed * aim.sin, -BallBaseSpeed * aim.cos, BallRadius, BallBaseSpeed)
  }

  /** One linear motion step of the ball; its velocity and size do not change. */
  function BallUpdate(b: Ball, dt: real): (r: Ball)
    ensures r == b.(x := r.x, y := r.y)
    ensures r.x - b.x == b.dx * dt && r.y - b.y == b.dy * dt
  {
    b.(x := b.x + b.dx * dt, y := b.y + b.dy * dt)
  }

  /** A step of no time leaves the ball where it was. */
  lemma BallUpdateZero(b: Ball)
    ensures BallUpdate(b, 0.0) == b
  {
  }

  /** Two consecutive steps land where one step of their summed duration lands. */
  lemma BallUpdateAdditive(b: Ball, t1: real, t2: real)
    ensures BallUpdate(BallUpdate(b, t1), t2) == BallUpdate(b, t1 + t2)
  {
    assert b.dx * t1 + b.dx * t2 == b.dx * (t1 + t2);
    assert b.dy * t1 + b.dy * t2 == b.dy * (t1 + t2);
  }

  /**
   A paddle hit keeps the ball's direction and changes its speed by the
   factor `k` (the new speed, a random 80% to 120% of the base speed,
   divided by the current speed).
   */
  function HandlePaddleCollision(b: Ball, k: Scale): (r: Ball)
    ensures r == b.(dx := r.dx, dy := r.dy)
    ensures r.dx * b.dy == r.dy * b.dx
    ensures (r.dx > 0.0 <==> b.dx > 0.0) && (r.dx < 0.0 <==> b.dx < 0.0)
    ensures (r.dy > 0.0 <==> b.dy > 0.0) && (r.dy < 0.0 <==> b.dy < 0.0)
    ensures r.dx * r.dx + r.dy * r.dy == k * k * (b.dx * b.dx + b.dy * b.dy)
  {
    b.(dx := b.dx * k, dy := b.dy * k)
  }

  /** A new paddle centred on x with its top edge at y. */
  function NewPaddle(x: real, y: real): (p: Paddle)
    ensures p.x == x && p.y == y
    ensures p.width == 100.0 && p.height == 10.0 && p.speed == 300.0
  {
    Paddle(x, y, PaddleWidth, PaddleHeight, PaddleSpeed)
  }

  function MoveUp(p: Paddle, dt: real): (r: Paddle)
    ensures r == p.(y := r.y)
    ensures p.y - r.y == p.speed * dt
  {
    p.(y := p.y - p.speed * dt)
  }

  function MoveDown(p: Paddle, dt: real): (r: Paddle)
    ensures r == p.(y := r.y)
    ensures r.y - p.y == p.speed * dt
  {
    p.(y := p.y + p.speed * dt)
  }

  function MoveLeft(p: Paddle, dt: real): (r: Paddle)
    ensures r == p.(x := r.x)
    ensures p.x - r.x == p.speed * dt
  {
    p.(x := p.x - p.speed * dt)
  }

  function MoveRight(p: Paddle, dt: real): (r: Paddle)
    ensures r == p.(x := r.x)
    ensures r.x - p.x == p.speed * dt
  {
    p.(x := p.x + p.speed * dt)
  }

  /** Moving up and then down for the same time restores the paddle, and so does the reverse. */
  lemma MoveUpDownRoundTrip(p: Paddle, dt: real)
    ensures MoveDown(MoveUp(p, dt), dt) == p
    ensures MoveUp(MoveDown(p, dt), dt) == p
  {
  }

  /** Moving left and then right for the same time restores the paddle, and so does the reverse. */
  lemma MoveLeftRightRoundTrip(p: Paddle, dt: real)
    ensures MoveRight(MoveLeft(p, dt), dt) == p
    ensures MoveLeft(MoveRight(p, dt), dt) == p
  {
  }
}
