/**
 * The main loop as a pure function of the game state: the spawn check, the
 * update pass over `all_sprites` (the player first, then every sprite that
 * was in the group when the pass began, in insertion order) and the removal
 * of the sprites killed in it. `Game.World.Tick` is proved equal to `TickSpec`.
 */
module Loop {
  import opened Wrappers
  import opened Geometry
  import opened Rules

  /** What the update of the group's sprites acts on: the group, the player's health and power-up state. */
  datatype PassState = PassState(sprites: seq<Option<Sprite>>, health: int, boost: Boost)

  /** The slot kept its sprite, or lost it because it was a player bullet. */
  predicate KeptOrKilledBullet(before: Option<Sprite>, after: Option<Sprite>) {
    after == before || (after == None && before.Some? && before.value.Bullet?)
  }

  /**
   * The update of the sprite in slot i, against the player's rectangle:
   * slot i follows its kind's rule, other slots only lose player bullets
   * (shot by an enemy), any new slot is an enemy bullet, health drops by 0
   * or 10, and the power-up invariant is kept.
   */
  function SlotStep(st: PassState, i: nat, player: Rect, now: int, fire: set<nat>): (r: PassState)
    ensures |r.sprites| >= |st.sprites|
    ensures r.health == st.health || r.health == st.health - BULLET_DAMAGE
    ensures BoostInvariant(st.boost) ==> BoostInvariant(r.boost)
    ensures forall j :: 0 <= j < |st.sprites| && j != i ==> KeptOrKilledBullet(st.sprites[j], r.sprites[j])
    ensures forall j :: |st.sprites| <= j < |r.sprites| ==> r.sprites[j].Some? && r.sprites[j].value.EnemyBullet?
  {
    if i >= |st.sprites| then st
    else match st.sprites[i]
      case None => st
      case Some(Bullet(rect, speed)) =>
        var step := BulletStep(rect, speed);
        st.(sprites := st.sprites[i := if step.Some? then Some(Bullet(step.value, speed)) else None])
      case Some(EnemyBullet(rect)) =>
        var o := EnemyBulletStep(rect, player);
        st.(sprites := st.sprites[i := if o.removed then None else Some(EnemyBullet(o.rect))],
            health := st.health - (if o.hit then BULLET_DAMAGE else 0))
      case Some(Enemy(rect)) =>
        st.(sprites := EnemyUpdate(st.sprites, i, EnemyMoved(rect), i in fire))
      case Some(PowerUp(rect)) =>
        var moved := PowerUpMoved(rect);
        if Overlaps(moved, player) then
          st.(sprites := st.sprites[i := None], boost := PickUp(st.boost, now))
        else
          st.(sprites := st.sprites[i := Some(PowerUp(moved))])
  }

  /**
   * The updates of slots 0 .. n-1 in order. Slots from n on are not updated:
   * they keep their sprite unless it is a player bullet an enemy shot down,
   * and everything appended is an enemy bullet. Health only drops, in steps
   * of 10.
   */
  function Pass(st: PassState, player: Rect, now: int, fire: set<nat>, n: nat): (r: PassState)
    requires n <= |st.sprites|
    ensures |r.sprites| >= |st.sprites|
    ensures r.health <= st.health && (st.health - r.health) % BULLET_DAMAGE == 0
    ensures BoostInvariant(st.boost) ==> BoostInvariant(r.boost)
    ensures forall j :: n <= j < |st.sprites| ==> KeptOrKilledBullet(st.sprites[j], r.sprites[j])
    ensures forall j :: |st.sprites| <= j < |r.sprites| ==> r.sprites[j].Some? && r.sprites[j].value.EnemyBullet?
    decreases n
  {
    if n == 0 then st
    else
      var prev := Pass(st, player, now, fire, n - 1);
      var r := SlotStep(prev, n - 1, player, now, fire);
      assert forall j :: n <= j < |st.sprites| ==> KeptOrKilledBullet(prev.sprites[j], r.sprites[j]);
      assert forall j :: |st.sprites| <= j < |prev.sprites| ==> KeptOrKilledBullet(prev.sprites[j], r.sprites[j]);
      r
  }

  /** Everything the loop changes: the player's fields, the group, the spawn timer and whether the game has ended. */
  datatype State = State(body: Body, health: int, boost: Boost, lastShot: int,
                         sprites: seq<Option<Sprite>>, spawnTimer: int, terminated: bool)

  /** The player fires in this tick: Z is held and the delay, after any expiry, has passed. */
  predicate Fires(s: State, keys: Keys, now: int) {
    keys.z && CanShoot(s.lastShot, Expire(s.boost, now).shootDelay, now)
  }

  /**
   * `Player.update` within the loop: the player moves, its power-up may
   * expire, the bullet it fires is appended to the group, and the game ends
   * on ESC or no health.
   */
  function PlayerPhase(s: State, keys: Keys, now: int): (r: State)
    ensures r.body == Motion(s.body, keys) && r.boost == Expire(s.boost, now) && r.health == s.health
    ensures r.lastShot == if Fires(s, keys, now) then now else s.lastShot
    ensures r.sprites == s.sprites +
              (if Fires(s, keys, now)
               then [Some(NewBullet(r.body.rect.Right(), r.body.rect.CenterY(), BULLET_SPEED))] else [])
    ensures r.terminated <==> s.terminated || keys.escape || s.health <= 0
    ensures r.spawnTimer == s.spawnTimer
  {
    var body := Motion(s.body, keys);
    var boost := Expire(s.boost, now);
    var fires := keys.z && CanShoot(s.lastShot, boost.shootDelay, now);
    var bullet := NewBullet(body.rect.Right(), body.rect.CenterY(), BULLET_SPEED);
    State(body, s.health, boost, if fires then now else s.lastShot,
          s.sprites + (if fires then [Some(bullet)] else []),
          s.spawnTimer, s.terminated || keys.escape || s.health <= 0)
  }

  /**
   * `all_sprites.update()`: the player's update, then, unless that ended the
   * game, the pass over the sprites that were in the group before it.
   */
  function UpdatePass(s: State, keys: Keys, now: int, fire: set<nat>): (r: State)
    ensures r.body == Motion(s.body, keys) && r.spawnTimer == s.spawnTimer
    ensures r.lastShot == if Fires(s, keys, now) then now else s.lastShot
    ensures r.terminated <==> s.terminated || keys.escape || s.health <= 0
    ensures r.health <= s.health && (s.health - r.health) % BULLET_DAMAGE == 0
    ensures BoostInvariant(s.boost) ==> BoostInvariant(r.boost)
    ensures |r.sprites| >= |s.sprites|
    ensures Fires(s, keys, now) ==>
              |r.sprites| > |s.sprites| &&
              KeptOrKilledBullet(Some(NewBullet(r.body.rect.Right(), r.body.rect.CenterY(), BULLET_SPEED)),
                                 r.sprites[|s.sprites|])
  {
    var p := PlayerPhase(s, keys, now);
    if p.terminated then p
    else
      var q := Pass(PassState(p.sprites, p.health, p.boost), p.body.rect, now, fire, |s.sprites|);
      p.(sprites := q.sprites, health := q.health, boost := q.boost)
  }

  /**
   * The spawn check: when more than 1.5 s have passed since the timer, one
   * enemy is appended with its left edge at 800, centred at height 500, and
   * the timer is reset to now; otherwise nothing changes. The player's state
   * is never touched.
   */
  function SpawnPhase(s: State, now: int): (r: State)
    ensures r.body == s.body && r.health == s.health && r.boost == s.boost
    ensures r.lastShot == s.lastShot && r.terminated == s.terminated
    ensures SpawnDue(s.spawnTimer, now) ==>
              r.spawnTimer == now && |r.sprites| == |s.sprites| + 1 && r.sprites[..|s.sprites|] == s.sprites &&
              r.sprites[|s.sprites|].Some? && r.sprites[|s.sprites|].value.Enemy? &&
              r.sprites[|s.sprites|].value.rect.left == SCREEN_WIDTH &&
              r.sprites[|s.sprites|].value.rect.CenterY() == SCREEN_HEIGHT - 100 &&
              r.sprites[|s.sprites|].value.rect.w == ENEMY_W && r.sprites[|s.sprites|].value.rect.h == ENEMY_H
    ensures !SpawnDue(s.spawnTimer, now) ==> r == s
  {
    if SpawnDue(s.spawnTimer, now) then
      s.(sprites := s.sprites + [Some(NewEnemy(SCREEN_WIDTH, SCREEN_HEIGHT - 100))], spawnTimer := now)
    else s
  }

  /**
   * One iteration of the main loop. An ended game does not change. Otherwise
   * the game ends exactly on a window-close event, ESC or no health left at
   * the player's update; health never rises and falls in steps of 10; the
   * power-up invariant is kept; no killed slot remains.
   */
  function TickSpec(s: State, keys: Keys, quit: bool, now: int, fire: set<nat>): (r: State)
    ensures s.terminated ==> r == s
    ensures !s.terminated ==> (r.terminated <==> quit || keys.escape || s.health <= 0)
    ensures !s.terminated ==> r.body == Motion(s.body, keys)
    ensures !s.terminated ==> r.spawnTimer == if SpawnDue(s.spawnTimer, now) then now else s.spawnTimer
    ensures !s.terminated ==> None !in r.sprites
    ensures r.health <= s.health && (s.health - r.health) % BULLET_DAMAGE == 0
    ensures BoostInvariant(s.boost) ==> BoostInvariant(r.boost)
  {
    if s.terminated then s
    else
      var u := UpdatePass(SpawnPhase(s, now), keys, now, fire);
      u.(sprites := Compact(u.sprites), terminated := u.terminated || quit)
  }
}
