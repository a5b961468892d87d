/**
 * The per-tick update rules of every kind of sprite, as pure functions of
 * the old state and the tick's inputs. The classes in module Game perform
 * these updates in place and are proved against the functions here.
 */
module Rules {
  import opened Wrappers
  import opened Geometry

  const PLAYER_SPEED: int := 5
  const JUMP_POWER: int := -15
  const GRAVITY: int := 1
  const START_HEALTH: int := 100
  const DEFAULT_SHOOT_DELAY: int := 100
  const POWERED_SHOOT_DELAY: int := 50
  const POWERUP_DURATION: int := 15000
  const POWERUP_FALL: int := 2
  const BULLET_SPEED: int := 10
  const ENEMY_BULLET_SPEED: int := -7
  const ENEMY_DRIFT: int := 3
  const BULLET_DAMAGE: int := 10
  const SPAWN_INTERVAL: int := 1500

  /** The keys held down during one tick. */
  datatype Keys = Keys(left: bool, right: bool, shift: bool, space: bool, z: bool, escape: bool)

  // ---------------------------------------------------------------- player

  /** The player's position and vertical motion. */
  datatype Body = Body(rect: Rect, velocityY: int, onGround: bool)

  /** Horizontal displacement of one player update: -5·LEFT + 5·RIGHT + 10·LSHIFT. */
  function Dx(k: Keys): int {
    (if k.left then -PLAYER_SPEED else 0) +
    (if k.right then PLAYER_SPEED else 0) +
    (if k.shift then 2 * PLAYER_SPEED else 0)
  }

  /**
   * Movement, jump, gravity and ground clamp of one player update.
   * A jump happens only from the ground; the new velocity is applied to the
   * position in full before the clamp, and the velocity is kept on landing.
   */
  function Motion(b: Body, k: Keys): (r: Body)
    ensures r.rect.w == b.rect.w && r.rect.h == b.rect.h
    ensures r.rect.left == b.rect.left + Dx(k)
    ensures r.velocityY == (if k.space && b.onGround then JUMP_POWER else b.velocityY) + GRAVITY
    ensures r.rect.Bottom() <= GROUND_Y
    ensures b.rect.Bottom() + r.velocityY >= GROUND_Y <==> r.rect.Bottom() == GROUND_Y && r.onGround
    ensures b.rect.Bottom() + r.velocityY < GROUND_Y ==>
              r.rect.top == b.rect.top + r.velocityY && r.onGround == (b.onGround && !k.space)
  {
    var jump := k.space && b.onGround;
    var v := (if jump then JUMP_POWER else b.velocityY) + GRAVITY;
    var moved := b.rect.MoveBy(Dx(k), v);
    if moved.Bottom() >= GROUND_Y then Body(moved.WithBottom(GROUND_Y), v, true)
    else Body(moved, v, b.onGround && !jump)
  }

  /** The power-up state of the player. */
  datatype Boost = Boost(poweredUp: bool, shootDelay: int, powerupTimer: int)

  /** The shoot delay is 50 ms exactly while powered up, and 100 ms otherwise. */
  predicate BoostInvariant(b: Boost) {
    b.shootDelay == if b.poweredUp then POWERED_SHOOT_DELAY else DEFAULT_SHOOT_DELAY
  }

  /** Power-up expiry in the player update: only a powered-up player whose timer has passed is reset. */
  function Expire(b: Boost, now: int): (r: Boost)
    ensures r.powerupTimer == b.powerupTimer
    ensures r.poweredUp <==> b.poweredUp && now <= b.powerupTimer
    ensures r != b ==> b.poweredUp && now > b.powerupTimer
    ensures BoostInvariant(b) ==> BoostInvariant(r)
  {
    if b.poweredUp && now > b.powerupTimer then Boost(false, DEFAULT_SHOOT_DELAY, b.powerupTimer)
    else b
  }

  /** Picking up a power-up: powered up, 50 ms delay, expiring 15 s after `now`. */
  function PickUp(b: Boost, now: int): (r: Boost)
    ensures BoostInvariant(r)
    ensures r.poweredUp && r.powerupTimer == now + POWERUP_DURATION
  {
    Boost(true, POWERED_SHOOT_DELAY, now + POWERUP_DURATION)
  }

  /** A shot is allowed once strictly more than the delay has passed since the last one. */
  predicate CanShoot(lastShot: int, shootDelay: int, now: int) {
    now - lastShot > shootDelay
  }

  // --------------------------------------------------------------- sprites

  /** Every sprite apart from the player. */
  datatype Sprite =
    | Bullet(rect: Rect, speed: int)
    | EnemyBullet(rect: Rect)
    | Enemy(rect: Rect)
    | PowerUp(rect: Rect)

  /** The sizes the sprites are created with; player bullets are all fired at speed 10. */
  predicate WellFormed(s: Sprite) {
    match s
    case Bullet(r, speed) => r.w == BULLET_W && r.h == BULLET_H && speed == BULLET_SPEED
    case EnemyBullet(r) => r.w == ENEMY_BULLET_W && r.h == ENEMY_BULLET_H
    case Enemy(r) => r.w == ENEMY_W && r.h == ENEMY_H
    case PowerUp(r) => r.w == POWERUP_W && r.h == POWERUP_H
  }

  /** `Bullet(x, y, speed)`: its left edge at x, vertically centred on y. */
  function NewBullet(x: int, y: int, speed: int): (s: Sprite)
    ensures s.Bullet? && s.speed == speed
    ensures s.rect.w == BULLET_W && s.rect.h == BULLET_H
    ensures s.rect.left == x && s.rect.CenterY() == y
    ensures speed == BULLET_SPEED ==> WellFormed(s)
  {
    Bullet(AtMidLeft(x, y, BULLET_W, BULLET_H), speed)
  }

  /** `EnemyBullet(x, y)`: its right edge at x, vertically centred on y. */
  function NewEnemyBullet(x: int, y: int): (s: Sprite)
    ensures s.EnemyBullet? && WellFormed(s)
    ensures s.rect.Right() == x && s.rect.CenterY() == y
  {
    EnemyBullet(AtMidRight(x, y, ENEMY_BULLET_W, ENEMY_BULLET_H))
  }

  /** `Enemy(x, y)`: its left edge at x, vertically centred on y. */
  function NewEnemy(x: int, y: int): (s: Sprite)
    ensures s.Enemy? && WellFormed(s)
    ensures s.rect.left == x && s.rect.CenterY() == y
  {
    Enemy(AtMidLeft(x, y, ENEMY_W, ENEMY_H))
  }

  /** `PowerUp(x, y)`: centred on (x, y). */
  function NewPowerUp(x: int, y: int): (s: Sprite)
    ensures s.PowerUp? && WellFormed(s)
    ensures s.rect.CenterX() == x && s.rect.CenterY() == y
  {
    PowerUp(AtCenter(x, y, POWERUP_W, POWERUP_H))
  }

  /**
   * `Bullet.update`: the bullet moves by its speed and is kept, at its new
   * place, exactly when it has not left the screen on either side.
   */
  function BulletStep(r: Rect, speed: int): (res: Option<Rect>)
    ensures res.Some? <==> r.left + speed <= SCREEN_WIDTH && r.left + speed + r.w >= 0
    ensures res.Some? ==> res.value.left == r.left + speed && res.value.top == r.top
    ensures res.Some? ==> res.value.w == r.w && res.value.h == r.h
  {
    var moved := r.MoveBy(speed, 0);
    if moved.left > SCREEN_WIDTH || moved.Right() < 0 then None else Some(moved)
  }

  /** What one `EnemyBullet.update` does: where the bullet goes, whether it is removed, whether it hit. */
  datatype ShotOutcome = ShotOutcome(rect: Rect, removed: bool, hit: bool)

  /**
   * `EnemyBullet.update`: the bullet moves 7 to the left; it hits the player
   * exactly when it overlaps the player's rectangle at its new place (even
   * when it has also left the screen); it is removed when it hit or when
   * its right edge is off the left side of the screen.
   */
  function EnemyBulletStep(r: Rect, player: Rect): (o: ShotOutcome)
    ensures o.rect.left == r.left - 7 && o.rect.top == r.top
    ensures o.rect.w == r.w && o.rect.h == r.h
    ensures o.hit <==> Overlaps(o.rect, player)
    ensures o.removed <==> o.rect.Right() < 0 || o.hit
  {
    var moved := r.MoveBy(ENEMY_BULLET_SPEED, 0);
    var hit := Overlaps(moved, player);
    ShotOutcome(moved, moved.Right() < 0 || hit, hit)
  }

  /** The enemy's leftward drift of one update. */
  function EnemyMoved(r: Rect): Rect {
    r.MoveBy(-ENEMY_DRIFT, 0)
  }

  /** The bullet an enemy fires: its right edge on the enemy's left edge, at the enemy's mid height. */
  function EnemyShot(r: Rect): (s: Sprite)
    ensures s.EnemyBullet? && WellFormed(s)
    ensures s.rect.Right() == r.left && s.rect.CenterY() == r.CenterY()
  {
    NewEnemyBullet(r.left, r.CenterY())
  }

  /** The slot holds a player bullet that `spritecollide` finds against the rectangle r. */
  predicate HitBy(slot: Option<Sprite>, r: Rect) {
    slot.Some? && slot.value.Bullet? && Overlaps(r, slot.value.rect)
  }

  /**
   * `Enemy.update` on the group s for the enemy in slot i, which has drifted
   * to `moved`: every player bullet overlapping it is killed, the enemy too
   * if there was one, and its shot is appended when it fires.
   */
  function EnemyUpdate(s: seq<Option<Sprite>>, i: nat, moved: Rect, fire: bool): (r: seq<Option<Sprite>>)
    requires i < |s|
    ensures |r| == |s| + (if fire then 1 else 0)
    ensures r[i] == if exists j :: 0 <= j < |s| && HitBy(s[j], moved) then None else Some(Enemy(moved))
    ensures forall j :: 0 <= j < |s| && j != i ==> r[j] == if HitBy(s[j], moved) then None else s[j]
    ensures fire ==> r[|s|] == Some(EnemyShot(moved))
  {
    var killed := seq(|s|, j requires 0 <= j < |s| => if HitBy(s[j], moved) then None else s[j]);
    var hit := exists j :: 0 <= j < |s| && HitBy(s[j], moved);
    killed[i := if hit then None else Some(Enemy(moved))] + (if fire then [Some(EnemyShot(moved))] else [])
  }

  /** The power-up's downward drift of one update. */
  function PowerUpMoved(r: Rect): Rect {
    r.MoveBy(0, POWERUP_FALL)
  }

  // ---------------------------------------------------------------- spawner

  /** The main loop spawns an enemy once strictly more than 1.5 s have passed since the last spawn. */
  predicate SpawnDue(timer: int, now: int) {
    now - timer > SPAWN_INTERVAL
  }

  // ------------------------------------------------------------ the groups

  /**
   * The sprites still alive: the killed slots (None) are dropped and every
   * live sprite is kept as often as it occurs.
   */
  function Compact(s: seq<Option<Sprite>>): (r: seq<Option<Sprite>>)
    ensures None !in r
    ensures multiset(r) == multiset(s)[None := 0]
    ensures |r| <= |s|
  {
    if s == [] then []
    else
      assert s == [s[0]] + s[1..];
      (if s[0].None? then [] else [s[0]]) + Compact(s[1..])
  }
}
