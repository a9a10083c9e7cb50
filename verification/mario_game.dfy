/**
 The platformer's level and its per-frame update: held keys steer Mario,
 he moves under gravity, every platform he overlaps puts him back on its
 top, and the camera follows him.
 */
module MarioGame {
  import opened MarioObjects

  const CanvasWidth: real := 800.0
  const CanvasHeight: real := 600.0
  /** The top of the ground: the ground is 40 pixels tall at the bottom of the canvas. */
  const GroundY: real := CanvasHeight - 40.0

  datatype Game = Game(mario: Mario, platforms: seq<Platform>, lastTime: real, cameraX: real)

  /** The level: the ground, then two floating platforms, in that order. */
  function Level(): (ps: seq<Platform>)
    ensures |ps| == 3
    ensures ps[0] == Platform(0.0, 560.0, 800.0, 40.0)
    ensures forall i :: 0 <= i < |ps| ==> ps[i].width > 0.0 && ps[i].height > 0.0
    ensures forall i :: 0 < i < |ps| ==> ps[i].y + ps[i].height < ps[0].y
  {
    [ Platform(0.0, GroundY, 800.0, 40.0),
      Platform(300.0, GroundY - 100.0, 200.0, 20.0),
      Platform(600.0, GroundY - 200.0, 200.0, 20.0) ]
  }

  /** A new game: the level, Mario 50 pixels above the ground top at x = 100, camera and clock at 0. */
  function NewGame(): (g: Game)
    ensures g.platforms == Level()
    ensures g.mario == NewMario(100.0, 510.0)
    ensures g.mario.y + g.mario.height < g.platforms[0].y
    ensures g.lastTime == 0.0 && g.cameraX == 0.0
  {
    Game(NewMario(100.0, GroundY - 50.0), Level(), 0.0, 0.0)
  }

  /** Seconds elapsed since the previous frame, from millisecond timestamps. */
  function DeltaTime(g: Game, currentTime: real): (dt: real)
    ensures dt * 1000.0 == currentTime - g.lastTime
  {
    (currentTime - g.lastTime) / 1000.0
  }

  /**
   Applies the held keys: the left arrow wins over the right one, neither
   stops Mario, and the up arrow or the space bar jumps.
   */
  function Steer(m: Mario, keys: set<string>, dt: real): (r: Mario)
    ensures r == m.(velocityX := r.velocityX, velocityY := r.velocityY, isJumping := r.isJumping)
    ensures "ArrowLeft" in keys ==> r.velocityX == -m.speed
    ensures "ArrowLeft" !in keys && "ArrowRight" in keys ==> r.velocityX == m.speed
    ensures "ArrowLeft" !in keys && "ArrowRight" !in keys ==> r.velocityX == 0.0
    ensures ("ArrowUp" in keys || " " in keys) ==> r.isJumping && (m.isJumping || r.velocityY == m.jumpForce)
    ensures !("ArrowUp" in keys || " " in keys) ==> r.velocityY == m.velocityY && r.isJumping == m.isJumping
    ensures m.isJumping ==> r.velocityY == m.velocityY && r.isJumping
  {
    var moved :=
      if "ArrowLeft" in keys then MoveLeft(m, dt)
      else if "ArrowRight" in keys then MoveRight(m, dt)
      else StopMoving(m);
    if "ArrowUp" in keys || " " in keys then Jump(moved) else moved
  }

  /** Mario stands on the top of platform p, at rest vertically and able to jump. */
  predicate RestsOn(m: Mario, p: Platform)
  {
    m.y == p.y - m.height && m.velocityY == 0.0 && !m.isJumping
  }

  /** Puts Mario on the top of a platform he overlaps; he then no longer overlaps it. */
  function Snap(m: Mario, p: Platform): (r: Mario)
    ensures RestsOn(r, p)
    ensures r == m.(y := r.y, velocityY := r.velocityY, isJumping := r.isJumping)
    ensures !CheckCollision(p, r)
  {
    m.(y := p.y - m.height, velocityY := 0.0, isJumping := false)
  }

  /**
   Landing resolution: the platforms are checked in list order, each against
   Mario as the earlier ones left him, and every one he overlaps snaps him
   onto its top, whichever side the overlap came from.
   */
  function Land(m: Mario, ps: seq<Platform>): (r: Mario)
    decreases |ps|
    ensures r.x == m.x && r.velocityX == m.velocityX && SameBuild(r, m)
    ensures (forall i :: 0 <= i < |ps| ==> !CheckCollision(ps[i], m)) ==> r == m
  {
    if |ps| == 0 then m
    else
      var before := Land(m, ps[..|ps| - 1]);
      var p := ps[|ps| - 1];
      if CheckCollision(p, before) then Snap(before, p) else before
  }

  /**
   Landing on ps ends with Mario on platform k: he overlapped ps[k] when its
   turn came (as the platforms before it had left him) and now rests on its
   top; no later platform overlapped him at its turn, and he overlaps none of
   the platforms from k to the end of the list.
   */
  predicate SettledOn(m: Mario, ps: seq<Platform>, k: int)
    requires 0 <= k < |ps|
  {
    && CheckCollision(ps[k], Land(m, ps[..k]))
    && RestsOn(Land(m, ps), ps[k])
    && (forall j :: k < j < |ps| ==> !CheckCollision(ps[j], Land(m, ps[..j])))
    && (forall j :: k <= j < |ps| ==> !CheckCollision(ps[j], Land(m, ps)))
  }

  /** A platform that Mario, as the earlier ones left him, overlaps is the one he settles on if it is the last. */
  lemma SettledOnLast(m: Mario, ps: seq<Platform>)
    requires |ps| > 0 && CheckCollision(ps[|ps| - 1], Land(m, ps[..|ps| - 1]))
    ensures SettledOn(m, ps, |ps| - 1)
  {
  }

  /** A non-empty list is its prefix without the last platform, followed by that platform. */
  lemma SplitLast(ps: seq<Platform>)
    requires |ps| > 0
    ensures ps == ps[..|ps| - 1] + [ps[|ps| - 1]]
  {
  }

  /** Platforms after k that missed Mario at their turn in init still miss him at their turn in init + [p], and so does p. */
  lemma LaterMissesExtend(m: Mario, init: seq<Platform>, p: Platform, k: int)
    requires 0 <= k < |init|
    requires !CheckCollision(p, Land(m, init))
    requires forall j :: k < j < |init| ==> !CheckCollision(init[j], Land(m, init[..j]))
    ensures forall j :: k < j < |init + [p]| ==> !CheckCollision((init + [p])[j], Land(m, (init + [p])[..j]))
  {
    var ps := init + [p];
    forall j | k < j < |ps|
      ensures !CheckCollision(ps[j], Land(m, ps[..j]))
    {
      if j < |init| {
        assert ps[j] == init[j] && ps[..j] == init[..j];
      } else {
        assert ps[..j] == init;
      }
    }
  }

  /** Platforms from k on that Mario no longer overlaps after init still miss him after init + [p], and so does p. */
  lemma FinalMissesExtend(m: Mario, init: seq<Platform>, p: Platform, k: int)
    requires 0 <= k < |init|
    requires !CheckCollision(p, Land(m, init))
    requires forall j :: k <= j < |init| ==> !CheckCollision(init[j], Land(m, init))
    ensures Land(m, init + [p]) == Land(m, init)
    ensures forall j :: k <= j < |init + [p]| ==> !CheckCollision((init + [p])[j], Land(m, init + [p]))
  {
    assert (init + [p])[..|init|] == init;
  }

  /** A last platform that Mario no longer overlaps at its turn leaves where he settled unchanged. */
  lemma SettledOnExtend(m: Mario, init: seq<Platform>, p: Platform, k: int)
    requires 0 <= k < |init|
    requires !CheckCollision(p, Land(m, init))
    requires SettledOn(m, init, k)
    ensures SettledOn(m, init + [p], k)
  {
    var ps := init + [p];
    assert ps[k] == init[k] && ps[..k] == init[..k];
    FinalMissesExtend(m, init, p, k);
    LaterMissesExtend(m, init, p, k);
  }

  /**
   If Mario overlaps any platform, landing settles him on a platform k that
   he overlapped when its turn came, as the platforms before it had left him.
   */
  lemma {:induction false} LandResolvesOverlap(m: Mario, ps: seq<Platform>)
    requires exists i :: 0 <= i < |ps| && CheckCollision(ps[i], m)
    ensures exists k :: 0 <= k < |ps| && SettledOn(m, ps, k)
  {
    var n := |ps|;
    var init := ps[..n - 1];
    var before := Land(m, init);
    if CheckCollision(ps[n - 1], before) {
      SettledOnLast(m, ps);
    } else {
      var i :| 0 <= i < n && CheckCollision(ps[i], m);
      if i == n - 1 {
        assert before != m;
      } else {
        assert init[i] == ps[i];
      }
      assert exists i' :: 0 <= i' < |init| && CheckCollision(init[i'], m);
      LandResolvesOverlap(m, init);
      var k :| 0 <= k < |init| && SettledOn(m, init, k);
      SplitLast(ps);
      SettledOnExtend(m, init, ps[n - 1], k);
    }
  }

  /** Mario as input and gravity leave him, before any landing. */
  function Airborne(g: Game, keys: set<string>, currentTime: real): Mario
  {
    Update(Steer(g.mario, keys, DeltaTime(g, currentTime)), DeltaTime(g, currentTime))
  }

  /**
   One frame: advance the clock, steer, move, land on the platforms, and
   centre the camera on Mario. The platforms never change.
   */
  function UpdateGame(g: Game, keys: set<string>, currentTime: real): (r: Game)
    ensures r.lastTime == currentTime
    ensures r.platforms == g.platforms
    ensures SameBuild(r.mario, g.mario)
    ensures r.mario.velocityX == (if "ArrowLeft" in keys then -g.mario.speed
                                  else if "ArrowRight" in keys then g.mario.speed
                                  else 0.0)
    ensures r.mario.x == g.mario.x + r.mario.velocityX * (currentTime - g.lastTime) / 1000.0
    ensures r.cameraX == r.mario.x - CanvasWidth / 2.0
    ensures (forall i :: 0 <= i < |g.platforms| ==>
               !CheckCollision(g.platforms[i], Airborne(g, keys, currentTime))) ==>
              r.mario == Airborne(g, keys, currentTime)
  {
    var dt := DeltaTime(g, currentTime);
    var m := Land(Update(Steer(g.mario, keys, dt), dt), g.platforms);
    Game(m, g.platforms, currentTime, m.x - CanvasWidth / 2.0)
  }

  /**
   A frame in which Mario, after moving, overlaps some platform ends with him
   settled on a platform of the level (see SettledOn), resting on it and free
   to jump again.
   */
  lemma UpdateGameLands(g: Game, keys: set<string>, currentTime: real)
    requires exists i :: 0 <= i < |g.platforms| &&
               CheckCollision(g.platforms[i], Airborne(g, keys, currentTime))
    ensures var m, r := Airborne(g, keys, currentTime), UpdateGame(g, keys, currentTime).mario;
              !r.isJumping &&
              exists k :: 0 <= k < |g.platforms| && SettledOn(m, g.platforms, k) && RestsOn(r, g.platforms[k])
  {
    LandResolvesOverlap(Airborne(g, keys, currentTime), g.platforms);
  }

  /** Gravity's extra drop over a frame of dt seconds, 0 <= dt < 0.3, stays under 72 pixels. */
  lemma ShortFrameDrop(dt: real)
    requires 0.0 <= dt < 0.3
    ensures 0.0 <= 800.0 * dt * dt < 72.0
    ensures dt > 0.0 ==> 800.0 * dt * dt > 0.0
  {
    assert dt * dt <= 0.3 * dt;
    assert 0.3 * dt < 0.09 || dt == 0.0;
  }

  /**
   Standing on the ground of the level with no jump key held, Mario is
   still standing on it after any frame shorter than 300 milliseconds,
   running or not: gravity pulls him less than the ground's depth into it
   and the ground puts him back on top.
   */
  lemma StandingOnGroundIsStable(g: Game, keys: set<string>, currentTime: real)
    requires g.platforms == Level()
    requires g.mario.width == 32.0 && g.mario.height == 32.0
    requires g.mario.speed == 200.0 && g.mario.gravity == 800.0
    requires RestsOn(g.mario, Level()[0])
    requires 28.0 <= g.mario.x <= 740.0
    requires "ArrowUp" !in keys && " " !in keys
    requires 0.0 <= currentTime - g.lastTime < 300.0
    ensures RestsOn(UpdateGame(g, keys, currentTime).mario, Level()[0])
  {
    var dt := DeltaTime(g, currentTime);
    assert 0.0 <= dt < 0.3;
    var s := Steer(g.mario, keys, dt);
    var a := Airborne(g, keys, currentTime);
    assert a == Update(s, dt);
    UpdateDisplacement(s, dt);
    ShortFrameDrop(dt);
    assert a.y == 528.0 + 800.0 * dt * dt;
    assert -200.0 <= s.velocityX <= 200.0;
    assert -60.0 <= a.x - g.mario.x <= 60.0;
    var ps := Level();
    if dt == 0.0 {
      assert a == s;
      assert !CheckCollision(ps[0], a) && !CheckCollision(ps[1], a) && !CheckCollision(ps[2], a);
      assert forall i :: 0 <= i < |ps| ==> !CheckCollision(ps[i], a);
    } else {
      var l1 := Land(a, ps[..1]);
      assert ps[..1][..0] == [];
      assert CheckCollision(ps[0], a);
      assert l1 == Snap(a, ps[0]);
      var l2 := Land(a, ps[..2]);
      assert ps[..2][..1] == ps[..1];
      assert !CheckCollision(ps[1], l1);
      assert l2 == l1;
      assert ps[..3][..2] == ps[..2];
      assert ps[..3] == ps;
      assert !CheckCollision(ps[2], l2);
    }
  }
}
