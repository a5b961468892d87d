/**
 * The game's mutable state and its per-tick steps. `Player` is the player
 * sprite, updated in place. `World` holds the player and the sprite groups,
 * the enemy spawn timer and a `terminated` flag that stands for the
 * program's exit. Each per-sprite step is proved against its rule in module
 * Rules; `UpdateSprites` and `Tick` are proved against `UpdatePass` and
 * `TickSpec` of module Loop.
 */
module Game {
  import opened Wrappers
  import opened Geometry
  import opened Rules
  import opened Loop

  class Player {
    var rect: Rect
    var velocityY: int
    var onGround: bool
    var health: int
    var poweredUp: bool
    var shootDelay: int
    var lastShot: int
    var powerupTimer: int

    /** The player keeps its size, never stands below the ground, has at most 100 health, and its delay matches its power-up. */
    ghost predicate Valid()
      reads this
    {
      rect.w == PLAYER_W && rect.h == PLAYER_H && rect.Bottom() <= GROUND_Y &&
      health <= START_HEALTH && BoostInvariant(CurrentBoost())
    }

    function CurrentBody(): Body
      reads this
    {
      Body(rect, velocityY, onGround)
    }

    function CurrentBoost(): Boost
      reads this
    {
      Boost(poweredUp, shootDelay, powerupTimer)
    }

    /** `Player()`: centred at (100, 500), standing on the ground, full health, not powered up. */
    constructor (now: int)
      ensures Valid()
      ensures rect == AtCenter(100, SCREEN_HEIGHT - 100, PLAYER_W, PLAYER_H) && rect.Bottom() == GROUND_Y
      ensures velocityY == 0 && onGround && health == START_HEALTH
      ensures !poweredUp && shootDelay == DEFAULT_SHOOT_DELAY && powerupTimer == 0
      ensures lastShot == now
    {
      rect := AtCenter(100, SCREEN_HEIGHT - 100, PLAYER_W, PLAYER_H);
      velocityY := 0;
      onGround := true;
      health := START_HEALTH;
      poweredUp := false;
      shootDelay := DEFAULT_SHOOT_DELAY;
      lastShot := now;
      powerupTimer := 0;
    }

    /**
     * `Player.update`: moves, jumps, falls and lands as `Motion` says, lets an
     * elapsed power-up expire, shoots if Z is held, and reports whether the
     * program exits (ESC held, or no health left). The fired bullet, if any,
     * is handed back for the world to add to its groups.
     */
    method Update(keys: Keys, now: int) returns (fired: Option<Sprite>, exit: bool)
      requires Valid()
      modifies this
      ensures Valid()
      ensures CurrentBody() == Motion(old(CurrentBody()), keys)
      ensures CurrentBoost() == Expire(old(CurrentBoost()), now)
      ensures health == old(health)
      ensures fired.Some? <==> keys.z && CanShoot(old(lastShot), shootDelay, now)
      ensures fired.Some? ==> lastShot == now && fired.value == NewBullet(rect.Right(), rect.CenterY(), BULLET_SPEED)
      ensures fired.None? ==> lastShot == old(lastShot)
      ensures exit <==> keys.escape || health <= 0
    {
      Move(keys);
      ExpirePowerUp(now);

      fired := None;
      if keys.z {
        fired := Shoot(now);
      }

      exit := keys.escape || health <= 0;
    }

    /** Movement controls, jumping, gravity and the ground clamp of `Player.update`. */
    method Move(keys: Keys)
      requires Valid()
      modifies this`rect, this`velocityY, this`onGround
      ensures Valid()
      ensures CurrentBody() == Motion(old(CurrentBody()), keys)
    {
      if keys.left {
        rect := rect.MoveBy(-PLAYER_SPEED, 0);
      }
      if keys.right {
        rect := rect.MoveBy(PLAYER_SPEED, 0);
      }
      if keys.shift {
        rect := rect.MoveBy(PLAYER_SPEED * 2, 0);
      }
      assert rect == old(rect).MoveBy(Dx(keys), 0);

      if keys.space && onGround {
        velocityY := JUMP_POWER;
        onGround := false;
      }

      velocityY := velocityY + GRAVITY;
      rect := rect.MoveBy(0, velocityY);

      if rect.Bottom() >= GROUND_Y {
        rect := rect.WithBottom(GROUND_Y);
        onGround := true;
      }
    }

    /** Power-up duration handling of `Player.update`. */
    method ExpirePowerUp(now: int)
      requires Valid()
      modifies this`poweredUp, this`shootDelay
      ensures Valid()
      ensures CurrentBoost() == Expire(old(CurrentBoost()), now)
    {
      if poweredUp && now > powerupTimer {
        poweredUp := false;
        shootDelay := DEFAULT_SHOOT_DELAY;
      }
    }

    /** `Player.shoot`: fires a bullet from the player's right edge at mid height once the delay has passed. */
    method Shoot(now: int) returns (fired: Option<Sprite>)
      modifies this`lastShot
      ensures fired.Some? <==> CanShoot(old(lastShot), shootDelay, now)
      ensures fired.Some? ==> lastShot == now && fired.value == NewBullet(rect.Right(), rect.CenterY(), BULLET_SPEED)
      ensures fired.None? ==> lastShot == old(lastShot)
    {
      fired := None;
      if now - lastShot > shootDelay {
        lastShot := now;
        fired := Some(NewBullet(rect.Right(), rect.CenterY(), BULLET_SPEED));
      }
    }
  }

  class World {
    const player: Player
    /**
     * The sprite group `all_sprites` after the player, in insertion order.
     * The groups `bullets`, `enemies` and `enemy_bullets` are its sprites of
     * each kind. A sprite killed during the current pass is None until the
     * end of the tick.
     */
    var sprites: seq<Option<Sprite>>
    var enemySpawnTimer: int
    var terminated: bool

    ghost predicate Valid()
      reads this, player
    {
      player.Valid() &&
      forall j :: 0 <= j < |sprites| && sprites[j].Some? ==> WellFormed(sprites[j].value)
    }

    /** The world's state as the value the loop's specification works on. */
    function Snapshot(): State
      reads this, player
    {
      State(player.CurrentBody(), player.health, player.CurrentBoost(), player.lastShot,
            sprites, enemySpawnTimer, terminated)
    }

    /** Game start: the player alone, the spawn timer read from the clock. */
    constructor (now: int)
      ensures Valid() && fresh(player)
      ensures player.CurrentBody() == Body(AtCenter(100, SCREEN_HEIGHT - 100, PLAYER_W, PLAYER_H), 0, true)
      ensures player.health == START_HEALTH && !player.poweredUp && player.lastShot == now
      ensures sprites == [] && enemySpawnTimer == now && !terminated
    {
      player := new Player(now);
      sprites := [];
      enemySpawnTimer := now;
      terminated := false;
    }

    /** `spawn_enemy`: a new enemy with its left edge at the right side of the screen, centred at height 500. */
    method SpawnEnemy()
      requires Valid()
      modifies this`sprites
      ensures Valid()
      ensures sprites == old(sprites) + [Some(NewEnemy(SCREEN_WIDTH, SCREEN_HEIGHT - 100))]
    {
      sprites := sprites + [Some(NewEnemy(SCREEN_WIDTH, SCREEN_HEIGHT - 100))];
    }

    /** The main loop's spawn check: at most one enemy per tick, and the timer restarts when one spawns. */
    method CheckSpawn(now: int)
      requires Valid()
      modifies this`sprites, this`enemySpawnTimer
      ensures Valid()
      ensures SpawnDue(old(enemySpawnTimer), now) ==>
                sprites == old(sprites) + [Some(NewEnemy(SCREEN_WIDTH, SCREEN_HEIGHT - 100))] &&
                enemySpawnTimer == now
      ensures !SpawnDue(old(enemySpawnTimer), now) ==>
                sprites == old(sprites) && enemySpawnTimer == old(enemySpawnTimer)
    {
      if now - enemySpawnTimer > SPAWN_INTERVAL {
        SpawnEnemy();
        enemySpawnTimer := now;
      }
    }

    /** `Bullet.update` on the player bullet in slot i. */
    method UpdateBullet(i: nat)
      requires Valid() && i < |sprites| && sprites[i].Some? && sprites[i].value.Bullet?
      modifies this`sprites
      ensures Valid()
      ensures var b := old(sprites[i].value);
              var step := BulletStep(b.rect, b.speed);
              sprites == old(sprites)[i := if step.Some? then Some(Bullet(step.value, b.speed)) else None]
    {
      var b := sprites[i].value;
      var moved := b.rect.MoveBy(b.speed, 0);
      sprites := sprites[i := Some(Bullet(moved, b.speed))];
      if moved.left > SCREEN_WIDTH || moved.Right() < 0 {
        sprites := sprites[i := None];
      }
    }

    /** `EnemyBullet.update` on the enemy bullet in slot i: a hit costs the player exactly 10 health. */
    method UpdateEnemyBullet(i: nat)
      requires Valid() && i < |sprites| && sprites[i].Some? && sprites[i].value.EnemyBullet?
      modifies this`sprites, player`health
      ensures Valid()
      ensures var o := EnemyBulletStep(old(sprites[i].value.rect), player.rect);
              sprites == old(sprites)[i := if o.removed then None else Some(EnemyBullet(o.rect))] &&
              player.health == old(player.health) - (if o.hit then BULLET_DAMAGE else 0)
    {
      var moved := sprites[i].value.rect.MoveBy(ENEMY_BULLET_SPEED, 0);
      sprites := sprites[i := Some(EnemyBullet(moved))];
      if moved.Right() < 0 {
        sprites := sprites[i := None];
      }
      if Overlaps(moved, player.rect) {
        player.health := player.health - BULLET_DAMAGE;
        sprites := sprites[i := None];
      }
    }

    /** `spritecollide(sprite, bullets, True)` for a sprite at r: kills every player bullet overlapping r. */
    method KillHits(r: Rect) returns (hit: bool)
      requires Valid()
      modifies this`sprites
      ensures Valid()
      ensures |sprites| == |old(sprites)|
      ensures forall j :: 0 <= j < |sprites| ==>
                sprites[j] == if HitBy(old(sprites[j]), r) then None else old(sprites[j])
      ensures hit <==> exists j :: 0 <= j < |old(sprites)| && HitBy(old(sprites[j]), r)
    {
      hit := false;
      var j := 0;
      while j < |sprites|
        invariant 0 <= j <= |sprites| == |old(sprites)|
        invariant forall k :: 0 <= k < j ==>
                    sprites[k] == if HitBy(old(sprites[k]), r) then None else old(sprites[k])
        invariant forall k :: j <= k < |sprites| ==> sprites[k] == old(sprites[k])
        invariant hit <==> exists k :: 0 <= k < j && HitBy(old(sprites[k]), r)
        invariant Valid()
      {
        if HitBy(sprites[j], r) {
          sprites := sprites[j := None];
          hit := true;
        }
        j := j + 1;
      }
    }

    /**
     * `Enemy.update` on the enemy in slot i: it drifts 3 to the left; every
     * player bullet overlapping it then is killed, and so is the enemy if
     * there was one; if it fires, a new enemy bullet leaves its left edge,
     * even when it was just killed.
     */
    method UpdateEnemy(i: nat, fire: bool)
      requires Valid() && i < |sprites| && sprites[i].Some? && sprites[i].value.Enemy?
      modifies this`sprites
      ensures Valid()
      ensures sprites == EnemyUpdate(old(sprites), i, EnemyMoved(old(sprites[i].value.rect)), fire)
    {
      var moved := EnemyMoved(sprites[i].value.rect);
      sprites := sprites[i := Some(Enemy(moved))];
      assert forall j :: 0 <= j < |sprites| ==> (HitBy(sprites[j], moved) <==> HitBy(old(sprites[j]), moved));
      var hit := KillHits(moved);
      if hit {
        sprites := sprites[i := None];
      }
      if fire {
        sprites := sprites + [Some(EnemyShot(moved))];
      }
    }

    /** `PowerUp.update` on the power-up in slot i: it falls 2, and if it then overlaps the player it is picked up. */
    method UpdatePowerUp(i: nat, now: int)
      requires Valid() && i < |sprites| && sprites[i].Some? && sprites[i].value.PowerUp?
      modifies this`sprites, player`poweredUp, player`shootDelay, player`powerupTimer
      ensures Valid()
      ensures var moved := PowerUpMoved(old(sprites[i].value.rect));
              if Overlaps(moved, player.rect) then
                sprites == old(sprites)[i := None] &&
                player.CurrentBoost() == PickUp(old(player.CurrentBoost()), now)
              else
                sprites == old(sprites)[i := Some(PowerUp(moved))] &&
                player.CurrentBoost() == old(player.CurrentBoost())
    {
      var moved := PowerUpMoved(sprites[i].value.rect);
      sprites := sprites[i := Some(PowerUp(moved))];
      if Overlaps(moved, player.rect) {
        player.poweredUp := true;
        player.shootDelay := POWERED_SHOOT_DELAY;
        player.powerupTimer := now + POWERUP_DURATION;
        sprites := sprites[i := None];
      }
    }

    /** The update of the sprite in slot i by its kind; an emptied slot is skipped. */
    method UpdateSlot(i: nat, now: int, fire: set<nat>)
      requires Valid() && i < |sprites|
      modifies this`sprites, player`health, player`poweredUp, player`shootDelay, player`powerupTimer
      ensures Valid()
      ensures PassState(sprites, player.health, player.CurrentBoost()) ==
              SlotStep(old(PassState(sprites, player.health, player.CurrentBoost())), i, player.rect, now, fire)
    {
      match sprites[i] {
        case None =>
        case Some(Bullet(_, _)) => UpdateBullet(i);
        case Some(EnemyBullet(_)) => UpdateEnemyBullet(i);
        case Some(Enemy(_)) => UpdateEnemy(i, i in fire);
        case Some(PowerUp(_)) => UpdatePowerUp(i, now);
      }
    }

    /**
     * `all_sprites.update()`: the player first, then every sprite that was in
     * the group when the pass began, in insertion order. Sprites added during
     * the pass are not updated in it; a sprite killed earlier in the pass is
     * skipped. The enemy in slot i fires when i is in `fire`. The pass stops
     * at once when the player's update exits the program.
     */
    method UpdateSprites(keys: Keys, now: int, fire: set<nat>)
      requires Valid() && !terminated
      modifies this, player
      ensures Valid()
      ensures Snapshot() == UpdatePass(old(Snapshot()), keys, now, fire)
      ensures player.CurrentBody() == Motion(old(player.CurrentBody()), keys)
      ensures player.health <= old(player.health)
      ensures terminated <==> keys.escape || old(player.health) <= 0
      ensures enemySpawnTimer == old(enemySpawnTimer)
      ensures |sprites| >= |old(sprites)|
    {
      var n := |sprites|;
      ghost var p := PlayerPhase(Snapshot(), keys, now);
      var fired, exit := player.Update(keys, now);
      if fired.Some? {
        sprites := sprites + [fired];
      }
      assert Snapshot().(terminated := exit) == p;
      if exit {
        terminated := true;
        return;
      }
      ghost var start := PassState(p.sprites, p.health, p.boost);
      var i := 0;
      while i < n
        invariant 0 <= i <= n <= |p.sprites| <= |sprites|
        invariant Valid()
        invariant PassState(sprites, player.health, player.CurrentBoost()) == Pass(start, p.body.rect, now, fire, i)
        invariant player.CurrentBody() == p.body && player.lastShot == p.lastShot
        invariant !terminated && enemySpawnTimer == old(enemySpawnTimer)
      {
        UpdateSlot(i, now, fire);
        i := i + 1;
      }
    }

    /**
     * One iteration of the main loop: the spawn check, the update pass, and
     * the removal of the sprites killed in it. A window-close event ends the
     * loop after this iteration; ESC or no health ends it from inside the
     * player's update. Nothing happens once the game has ended.
     */
    method Tick(keys: Keys, quit: bool, now: int, fire: set<nat>)
      requires Valid()
      modifies this, player
      ensures Valid()
      ensures Snapshot() == TickSpec(old(Snapshot()), keys, quit, now, fire)
      ensures old(terminated) ==>
                terminated && sprites == old(sprites) && enemySpawnTimer == old(enemySpawnTimer) &&
                unchanged(player)
      ensures !old(terminated) ==> (terminated <==> quit || keys.escape || old(player.health) <= 0)
      ensures !old(terminated) ==>
                enemySpawnTimer == if SpawnDue(old(enemySpawnTimer), now) then now else old(enemySpawnTimer)
      ensures !old(terminated) ==> player.CurrentBody() == Motion(old(player.CurrentBody()), keys)
      ensures !old(terminated) ==> None !in sprites
      ensures player.health <= old(player.health)
    {
      if terminated {
        return;
      }
      CheckSpawn(now);
      assert Snapshot() == SpawnPhase(old(Snapshot()), now);
      UpdateSprites(keys, now, fire);
      Sweep();
      if quit {
        terminated := true;
      }
    }

    /** Drops the slots of the sprites killed during the pass. */
    method Sweep()
      requires Valid()
      modifies this`sprites
      ensures Valid()
      ensures sprites == Compact(old(sprites))
    {
      var live := Compact(sprites);
      forall j | 0 <= j < |live| && live[j].Some?
        ensures WellFormed(live[j].value)
      {
        assert live[j] in multiset(live);
        assert live[j] in multiset(sprites);
      }
      sprites := live;
    }
  }
}
