/**
 The platformer's two entities: Mario, who runs, jumps and falls under
 gravity, and the static rectangular platforms he can land on.

 Coordinates are canvas coordinates (y grows downwards), so a negative
 vertical velocity moves Mario up and gravity is a positive acceleration.
 */
module MarioObjects {

  const MarioSize: real := 32.0
  const RunSpeed: real := 200.0
  const JumpForce: real := -400.0
  const Gravity: real := 800.0

  /**
   Mario's box (top-left corner, width, height), his velocity, whether he is
   airborne from a jump, and his per-instance constants.
   */
  datatype Mario = Mario(
    x: real, y: real, width: real, height: real,
    velocityX: real, velocityY: real,
    isJumping: bool,
    speed: real, jumpForce: real, gravity: real)

  datatype Platform = Platform(x: real, y: real, width: real, height: real)

  /** The quantities of a Mario that no step of the game ever changes. */
  predicate SameBuild(a: Mario, b: Mario)
  {
    a.width == b.width && a.height == b.height &&
    a.speed == b.speed && a.jumpForce == b.jumpForce && a.gravity == b.gravity
  }

  /** A new Mario at (x, y): a 32x32 box at rest, standing, with the game's constants. */
  function NewMario(x: real, y: real): (m: Mario)
    ensures m.x == x && m.y == y
    ensures m.width == 32.0 && m.height == 32.0
    ensures m.velocityX == 0.0 && m.velocityY == 0.0 && !m.isJumping
    ensures m.speed == 200.0 && m.jumpForce == -400.0 && m.gravity == 800.0
  {
    Mario(x, y, MarioSize, MarioSize, 0.0, 0.0, false, RunSpeed, JumpForce, Gravity)
  }

  /**
   One semi-implicit Euler step: gravity first updates the vertical
   velocity, and the position then moves with the updated velocity.
   */
  function Update(m: Mario, dt: real): (r: Mario)
    ensures r == m.(x := r.x, y := r.y, velocityY := r.velocityY)
    ensures r.velocityY - m.velocityY == m.gravity * dt
    ensures r.x - m.x == m.velocityX * dt
    ensures r.y - m.y == r.velocityY * dt
  {
    var vy := m.velocityY + m.gravity * dt;
    m.(x := m.x + m.velocityX * dt, y := m.y + vy * dt, velocityY := vy)
  }

  /** Over one step the height changes by the old velocity times dt plus gravity times dt squared. */
  lemma UpdateDisplacement(m: Mario, dt: real)
    ensures Update(m, dt).y - m.y == m.velocityY * dt + m.gravity * dt * dt
  {
    var r := Update(m, dt);
    assert r.velocityY * dt == (m.velocityY + m.gravity * dt) * dt;
  }

  /** A step of no time changes nothing. */
  lemma UpdateZero(m: Mario)
    ensures Update(m, 0.0) == m
  {
  }

  /** Mario at rest or falling, under positive gravity, ends a positive step lower on the canvas and falling faster. */
  lemma UpdateFalls(m: Mario, dt: real)
    requires m.gravity > 0.0 && dt > 0.0 && m.velocityY >= 0.0
    ensures Update(m, dt).velocityY > m.velocityY
    ensures Update(m, dt).y > m.y
  {
    var r := Update(m, dt);
    assert m.gravity * dt > 0.0;
    assert r.velocityY > 0.0;
    assert r.velocityY * dt > 0.0;
  }

  /**
   A jump from the ground sets the upward jump velocity and marks Mario
   airborne; while airborne a jump changes nothing.
   */
  function Jump(m: Mario): (r: Mario)
    ensures r.isJumping
    ensures !m.isJumping ==> r == m.(velocityY := m.jumpForce, isJumping := true)
    ensures m.isJumping ==> r == m
  {
    if !m.isJumping then m.(velocityY := m.jumpForce, isJumping := true) else m
  }

  /** Jumping twice is jumping once. */
  lemma JumpIdempotent(m: Mario)
    ensures Jump(Jump(m)) == Jump(m)
  {
  }

  /** Running left sets the horizontal velocity to minus the speed, whatever the elapsed time. */
  function MoveLeft(m: Mario, dt: real): (r: Mario)
    ensures r == m.(velocityX := -m.speed)
  {
    m.(velocityX := -m.speed)
  }

  /** Running right sets the horizontal velocity to the speed, whatever the elapsed time. */
  function MoveRight(m: Mario, dt: real): (r: Mario)
    ensures r == m.(velocityX := m.speed)
  {
    m.(velocityX := m.speed)
  }

  /** Stopping zeroes the horizontal velocity and nothing else. */
  function StopMoving(m: Mario): (r: Mario)
    ensures r == m.(velocityX := 0.0)
  {
    m.(velocityX := 0.0)
  }

  /**
   The horizontal commands do not depend on the elapsed time and each
   overrides whichever came before it.
   */
  lemma LastMoveWins(m: Mario, dt1: real, dt2: real)
    ensures MoveLeft(m, dt1) == MoveLeft(m, dt2) && MoveRight(m, dt1) == MoveRight(m, dt2)
    ensures MoveLeft(MoveRight(m, dt1), dt2) == MoveLeft(m, dt2)
    ensures MoveRight(MoveLeft(m, dt1), dt2) == MoveRight(m, dt2)
    ensures StopMoving(MoveLeft(m, dt1)) == StopMoving(m) == StopMoving(MoveRight(m, dt1))
  {
  }

  /**
   Strict axis-aligned overlap of Mario's box with the platform's: boxes that
   only touch along an edge do not collide.
   */
  function CheckCollision(p: Platform, m: Mario): (r: bool)
    ensures (m.y + m.height == p.y || m.y == p.y + p.height) ==> !r
    ensures (m.x + m.width == p.x || m.x == p.x + p.width) ==> !r
    ensures r ==> m.y < p.y + p.height && p.y < m.y + m.height
  {
    m.x < p.x + p.width &&
    m.x + m.width > p.x &&
    m.y < p.y + p.height &&
    m.y + m.height > p.y
  }

  /** The point (px, py) lies strictly inside the box with corner (x, y) and size w x h. */
  predicate Inside(px: real, py: real, x: real, y: real, w: real, h: real)
  {
    x < px < x + w && y < py < y + h
  }

  function Max(a: real, b: real): real { if a < b then b else a }

  function Min(a: real, b: real): real { if a < b then a else b }

  /**
   For boxes of positive size, a collision is exactly the two boxes'
   interiors sharing a point.
   */
  lemma CollisionIsSharedInterior(p: Platform, m: Mario)
    requires m.width > 0.0 && m.height > 0.0 && p.width > 0.0 && p.height > 0.0
    ensures CheckCollision(p, m) <==>
              exists px: real, py: real ::
                Inside(px, py, m.x, m.y, m.width, m.height) &&
                Inside(px, py, p.x, p.y, p.width, p.height)
  {
    if CheckCollision(p, m) {
      var px := (Max(m.x, p.x) + Min(m.x + m.width, p.x + p.width)) / 2.0;
      var py := (Max(m.y, p.y) + Min(m.y + m.height, p.y + p.height)) / 2.0;
      assert Inside(px, py, m.x, m.y, m.width, m.height);
      assert Inside(px, py, p.x, p.y, p.width, p.height);
    }
  }
}
