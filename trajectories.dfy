/**
 * What the per-tick rules add up to over many ticks: the arc of a jump,
 * the lifetime of a projectile, an enemy's drift and the spacing of spawns.
 */
module Trajectories {
  import opened Wrappers
  import opened Geometry
  import opened Rules

  // ------------------------------------------------------------------ jump

  /** The player's body after one player update per element of ks, in order. */
  function Run(b: Body, ks: seq<Keys>): Body
    decreases |ks|
  {
    if ks == [] then b else Motion(Run(b, ks[..|ks| - 1]), ks[|ks| - 1])
  }

  /** How far above the ground the player's bottom is t ticks into a jump. */
  function Height(t: nat): int {
    if t == 0 then 0 else Height(t - 1) + (-JUMP_POWER) - t
  }

  lemma {:induction false} HeightClosedForm(t: nat)
    ensures 2 * Height(t) == t * (29 - t)
  {
    if t > 0 {
      HeightClosedForm(t - 1);
      assert (t - 1) * (30 - t) + 30 - 2 * t == t * (29 - t);
    }
  }

  /** The jump lasts 29 ticks, rising to 105 above the ground at ticks 14 and 15. */
  lemma HeightBounds(t: nat)
    requires t <= 29
    ensures 0 < t < 29 ==> 0 < Height(t) <= Height(14)
    ensures t == 29 ==> Height(t) == 0
    ensures Height(14) == Height(15) == 105
  {
    HeightClosedForm(t);
    HeightClosedForm(14);
    HeightClosedForm(15);
    if 0 < t < 29 {
      assert t * (29 - t) > 0;
      assert t * (29 - t) <= 210 by {
        assert t * (29 - t) == 210 - (t - 14) * (t - 15);
        assert (t - 14) * (t - 15) >= 0 by {
          if t <= 14 { assert (14 - t) * (15 - t) >= 0; } else { assert (t - 14) * (t - 15) >= 0; }
        }
      }
    }
  }

  /**
   * A jump from standing on the ground, whatever keys are held afterwards:
   * t ticks after pressing SPACE the velocity is t - 15, the player is in the
   * air at Height(t) above the ground for t < 29, and lands at tick 29.
   */
  lemma {:induction false} JumpArc(b: Body, ks: seq<Keys>)
    requires b.onGround && b.rect.Bottom() == GROUND_Y
    requires 1 <= |ks| <= 29 && ks[0].space
    ensures Run(b, ks).velocityY == |ks| + JUMP_POWER
    ensures |ks| < 29 ==> Run(b, ks).rect.Bottom() == GROUND_Y - Height(|ks|) && !Run(b, ks).onGround
    ensures |ks| == 29 ==> Run(b, ks).rect.Bottom() == GROUND_Y && Run(b, ks).onGround
  {
    var t := |ks|;
    var prefix := ks[..t - 1];
    HeightBounds(t);
    if t == 1 {
      assert prefix == [];
    } else {
      assert prefix[0] == ks[0];
      JumpArc(b, prefix);
    }
  }

  /** Sprinting alone moves 10 to the right; LEFT with LSHIFT nets 5 to the right. */
  lemma SprintSteps(b: Body, k: Keys)
    ensures !k.left && !k.right && k.shift ==> Motion(b, k).rect.left == b.rect.left + 10
    ensures k.left && !k.right && k.shift ==> Motion(b, k).rect.left == b.rect.left + 5
    ensures !k.left && !k.right && !k.shift ==> Motion(b, k).rect.left == b.rect.left
  {
  }

  /** Standing on the ground without SPACE keeps the player there; the velocity still grows by 1 per tick. */
  lemma StandingStill(b: Body, k: Keys)
    requires b.onGround && b.rect.Bottom() == GROUND_Y && b.velocityY >= 0 && !k.space
    ensures Motion(b, k).rect.Bottom() == GROUND_Y && Motion(b, k).onGround
    ensures Motion(b, k).velocityY == b.velocityY + 1
  {
  }

  /** A power-up picked up at time t keeps the player powered up until t + 15000 and no longer. */
  lemma PowerUpLasts(b: Boost, t: int, now: int)
    ensures Expire(PickUp(b, t), now).poweredUp <==> now <= t + POWERUP_DURATION
    ensures Expire(PickUp(b, t), now).shootDelay ==
              if now <= t + POWERUP_DURATION then POWERED_SHOOT_DELAY else DEFAULT_SHOOT_DELAY
  {
  }

  // -------------------------------------------------------------- bullets

  /** A player bullet after n updates, or None once it has been removed. */
  function BulletFlight(r: Rect, speed: int, n: nat): Option<Rect>
    decreases n
  {
    if n == 0 then Some(r)
    else match BulletStep(r, speed)
      case None => None
      case Some(r') => BulletFlight(r', speed, n - 1)
  }

  /**
   * A bullet moving right that does not leave by the left edge on its first
   * update is still alive after n >= 1 updates exactly when its left edge is
   * then at most 800, and is then at left + n·speed.
   */
  lemma {:induction false} BulletLifetime(r: Rect, speed: int, n: nat)
    requires speed > 0 && r.left + speed + r.w >= 0 && n >= 1
    ensures BulletFlight(r, speed, n).Some? <==> r.left + n * speed <= SCREEN_WIDTH
    ensures BulletFlight(r, speed, n).Some? ==> BulletFlight(r, speed, n).value == r.MoveBy(n * speed, 0)
    decreases n
  {
    assert n * speed == (n - 1) * speed + speed;
    if n > 1 {
      assert (n - 1) * speed >= speed;
      var step := BulletStep(r, speed);
      if step.Some? {
        BulletLifetime(step.value, speed, n - 1);
      }
    }
  }

  /** A player bullet (20 wide, speed 10) that survives its first update is gone within 84 updates. */
  lemma BulletGoneAfter84(r: Rect)
    requires r.w == BULLET_W && r.left + BULLET_SPEED + r.w >= 0
    ensures BulletFlight(r, BULLET_SPEED, 84) == None
  {
    BulletLifetime(r, BULLET_SPEED, 84);
  }

  /** An enemy bullet after one update per player rectangle in ps, or None once removed. */
  function EnemyBulletFlight(r: Rect, ps: seq<Rect>): Option<Rect>
    decreases |ps|
  {
    if ps == [] then Some(r)
    else
      var o := EnemyBulletStep(r, ps[0]);
      if o.removed then None else EnemyBulletFlight(o.rect, ps[1..])
  }

  /**
   * Wherever the player goes, an enemy bullet is removed by the update in
   * which its right edge passes the left side of the screen, if not earlier.
   */
  lemma {:induction false} EnemyBulletGone(r: Rect, ps: seq<Rect>)
    requires ps != [] && r.Right() + ENEMY_BULLET_SPEED * |ps| < 0
    ensures EnemyBulletFlight(r, ps) == None
    decreases |ps|
  {
    var o := EnemyBulletStep(r, ps[0]);
    if !o.removed {
      EnemyBulletGone(o.rect, ps[1..]);
    }
  }

  /** While an enemy bullet misses the player it moves 7 to the left per update. */
  lemma {:induction false} EnemyBulletPosition(r: Rect, ps: seq<Rect>)
    requires EnemyBulletFlight(r, ps).Some?
    ensures EnemyBulletFlight(r, ps).value == r.MoveBy(ENEMY_BULLET_SPEED * |ps|, 0)
    ensures forall j :: 0 <= j < |ps| ==> !Overlaps(r.MoveBy(ENEMY_BULLET_SPEED * (j + 1), 0), ps[j])
    decreases |ps|
  {
    if ps != [] {
      var o := EnemyBulletStep(r, ps[0]);
      EnemyBulletPosition(o.rect, ps[1..]);
      forall j | 0 <= j < |ps|
        ensures !Overlaps(r.MoveBy(ENEMY_BULLET_SPEED * (j + 1), 0), ps[j])
      {
        if j > 0 {
          assert ps[1..][j - 1] == ps[j];
        }
      }
    }
  }

  /** An enemy bullet at b is still on screen and clear of the player at p. */
  predicate Clear(b: Rect, p: Rect) {
    b.Right() >= 0 && !Overlaps(b, p)
  }

  /**
   * Conversely, a bullet whose right edge stays on screen and which misses the
   * player after every update survives them all, 7 further left per update.
   */
  lemma {:induction false} EnemyBulletSurvives(r: Rect, ps: seq<Rect>)
    requires forall j :: 0 <= j < |ps| ==> Clear(r.MoveBy(ENEMY_BULLET_SPEED * (j + 1), 0), ps[j])
    ensures EnemyBulletFlight(r, ps) == Some(r.MoveBy(ENEMY_BULLET_SPEED * |ps|, 0))
    decreases |ps|
  {
    if ps != [] {
      var o := EnemyBulletStep(r, ps[0]);
      assert Clear(r.MoveBy(ENEMY_BULLET_SPEED * (0 + 1), 0), ps[0]);
      var rest := ps[1..];
      forall j | 0 <= j < |rest|
        ensures Clear(o.rect.MoveBy(ENEMY_BULLET_SPEED * (j + 1), 0), rest[j])
      {
        assert Clear(r.MoveBy(ENEMY_BULLET_SPEED * ((j + 1) + 1), 0), ps[j + 1]);
        assert o.rect.MoveBy(ENEMY_BULLET_SPEED * (j + 1), 0) == r.MoveBy(ENEMY_BULLET_SPEED * ((j + 1) + 1), 0);
      }
      EnemyBulletSurvives(o.rect, rest);
    }
  }

  // --------------------------------------------------------------- enemies

  /** An enemy's rectangle after n updates in which no bullet hit it. */
  function Drift(r: Rect, n: nat): Rect
    decreases n
  {
    if n == 0 then r else Drift(EnemyMoved(r), n - 1)
  }

  /** An untouched enemy moves 3 to the left per update and nothing else. */
  lemma {:induction false} DriftIsLinear(r: Rect, n: nat)
    ensures Drift(r, n) == r.MoveBy(-ENEMY_DRIFT * n, 0)
    decreases n
  {
    if n > 0 {
      DriftIsLinear(EnemyMoved(r), n - 1);
    }
  }

  /** An enemy spawned at (800, 500) and left untouched is at x = 500 after 100 updates. */
  lemma SpawnedEnemyAfter100Ticks()
    ensures Drift(NewEnemy(SCREEN_WIDTH, SCREEN_HEIGHT - 100).rect, 100).left == 500
  {
    DriftIsLinear(NewEnemy(SCREEN_WIDTH, SCREEN_HEIGHT - 100).rect, 100);
  }

  // --------------------------------------------------------------- spawner

  /** How many enemies the main loop spawns over ticks read at the given times, and the final timer. */
  datatype SpawnLog = SpawnLog(count: nat, timer: int)

  function SpawnRun(timer: int, times: seq<int>): SpawnLog
    decreases |times|
  {
    if times == [] then SpawnLog(0, timer)
    else if SpawnDue(timer, times[0]) then
      var rest := SpawnRun(times[0], times[1..]);
      SpawnLog(rest.count + 1, rest.timer)
    else SpawnRun(timer, times[1..])
  }

  /**
   * Spawns are more than 1.5 s apart: after k spawns the timer is at least
   * 1501·k ms past where it started; without a spawn it has not moved, and
   * otherwise it is one of the clock readings.
   */
  lemma {:induction false} SpawnsAreSpaced(timer: int, times: seq<int>)
    ensures (SPAWN_INTERVAL + 1) * SpawnRun(timer, times).count <= SpawnRun(timer, times).timer - timer
    ensures SpawnRun(timer, times).count == 0 ==> SpawnRun(timer, times).timer == timer
    ensures SpawnRun(timer, times).count > 0 ==> SpawnRun(timer, times).timer in times
    decreases |times|
  {
    if times != [] {
      if SpawnDue(timer, times[0]) {
        SpawnsAreSpaced(times[0], times[1..]);
      } else {
        SpawnsAreSpaced(timer, times[1..]);
      }
    }
  }

  /**
   * After at least one spawn the timer holds the clock reading of the last
   * tick that spawned: the tick k spawned, and no tick after it did.
   */
  lemma {:induction false} TimerIsLastSpawn(timer: int, times: seq<int>)
    requires SpawnRun(timer, times).count > 0
    ensures exists k :: 0 <= k < |times| && SpawnRun(timer, times).timer == times[k] &&
              SpawnDue(SpawnRun(timer, times[..k]).timer, times[k]) &&
              SpawnRun(times[k], times[k + 1..]).count == 0
    decreases |times|
  {
    var rest := times[1..];
    if SpawnDue(timer, times[0]) {
      if SpawnRun(times[0], rest).count == 0 {
        SpawnsAreSpaced(times[0], rest);
        assert times[..0] == [];
        assert times[0 + 1..] == rest;
      } else {
        TimerIsLastSpawn(times[0], rest);
        var k :| 0 <= k < |rest| && SpawnRun(times[0], rest).timer == rest[k] &&
                 SpawnDue(SpawnRun(times[0], rest[..k]).timer, rest[k]) &&
                 SpawnRun(rest[k], rest[k + 1..]).count == 0;
        assert times[..k + 1][0] == times[0] && times[..k + 1][1..] == rest[..k];
        assert rest[k + 1..] == times[k + 1 + 1..];
        assert times[k + 1] == rest[k];
      }
    } else {
      TimerIsLastSpawn(timer, rest);
      var k :| 0 <= k < |rest| && SpawnRun(timer, rest).timer == rest[k] &&
               SpawnDue(SpawnRun(timer, rest[..k]).timer, rest[k]) &&
               SpawnRun(rest[k], rest[k + 1..]).count == 0;
      assert times[..k + 1][0] == times[0] && times[..k + 1][1..] == rest[..k];
      assert rest[k + 1..] == times[k + 1 + 1..];
      assert times[k + 1] == rest[k];
    }
  }

  /** Over ticks that all read the clock at most `until`, at most (until - timer) / 1501 enemies spawn. */
  lemma SpawnBound(timer: int, times: seq<int>, until: int)
    requires forall t :: t in times ==> t <= until
    ensures SpawnRun(timer, times).count > 0 ==>
              (SPAWN_INTERVAL + 1) * SpawnRun(timer, times).count <= until - timer
  {
    SpawnsAreSpaced(timer, times);
  }
}
