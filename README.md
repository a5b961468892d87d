# Contra-Game: the per-tick entity rules, verified

This project models the core of a small side-scrolling shooter written with
pygame (`Contra-Game.py`). It covers the deterministic state machine that
advances the game by one tick:

- the player's movement, jump, gravity and ground clamp;
- the player's shot cooldown, power-up expiry, and exit on ESC or death;
- the player's bullets and the enemies' bullets, with the 10-point damage;
- the enemies: drift, being shot and firing back;
- the falling power-up and its pickup;
- the main loop's enemy spawn timer.

All of it is integer arithmetic on axis-aligned rectangles.

The program's outside inputs are parameters:

- the keys held during a tick are a `Keys` record (LEFT, RIGHT, LSHIFT, SPACE, Z, ESC);
- the window-close event is a `quit` flag;
- `pygame.time.get_ticks()` is an `int now`;
- the per-enemy draw `random.random() < 0.01` is a set `fire` of the slots whose enemy fires this tick.

`sys.exit()` becomes a `terminated` flag, after which a tick changes nothing.

Files, one module each:

- `wrappers.dfy`: `Option`.
- `geometry.dfy`: screen constants, image sizes, `Rect` with its derived edges and centre, the `center`/`midleft`/`midright` anchors, and `Overlaps` for `colliderect`.
- `rules.dfy`: every update rule as a pure function of the old state: player `Motion`, power-up `Expire` and `PickUp`, `BulletStep`, `EnemyBulletStep`, enemy drift and shot, sprite constructors, the spawn condition, and `Compact` (removal of killed sprites).
- `trajectories.dfy`: the rules iterated over many ticks, with induction proofs. These cover the 29-tick jump arc, the lifetime of player and enemy bullets, the enemy's linear drift and the spacing of spawns.
- `loop.dfy`: one iteration of the main loop as a pure function of the whole game state. `SlotStep` updates one sprite slot, `Pass` folds it over the slots present when the pass began, `UpdatePass` puts the player's update in front, and `TickSpec` adds the spawn check and the removal of killed sprites.
- `game.dfy`: the imperative model. `Player` is a class whose `Update` changes its fields in place. `World` is a class holding the player, the sprite group, the spawn timer and `terminated`. Each per-sprite update method is proved against its rule in `rules.dfy`. `UpdateSprites` and `Tick` are proved to leave the world exactly in the state that `UpdatePass` and `TickSpec` compute from the old one (`World.Snapshot` reads the world as that state).

How the sprite groups are represented: `all_sprites` minus the player is one sequence, `World.sprites`, kept in insertion order. The player is always updated first, because it was added to the group first. The typed groups `bullets`, `enemies` and `enemy_bullets` are the sprites of each kind in that sequence. During an update pass, a killed sprite's slot becomes `None`; `Sweep` drops those slots at the end of the tick. This keeps three things the source does:

- only sprites present when the pass began are updated;
- a bullet the player fires in this tick can still be removed by an enemy later in the same pass;
- an enemy removed by a bullet still fires when its random draw says so.

Three behaviours of the code worth noting:

- A window-close event does not stop the tick in which it arrives. `running = False` takes effect only after the spawn check and the update pass of that iteration (Contra-Game.py:213-223).
- A jump does not go up and then straight down. The player rises for 14 ticks, holds its height at tick 15 (105 px above the ground, at ticks 14 and 15), falls for ticks 16-29 and lands at tick 29 (`JumpArc`, `HeightBounds`).
- Enemies are not removed when they leave the screen, and power-ups are not removed when they fall off it. The model keeps them, as the code does.

## Model

| member | source | states |
|---|---|---|
| Geometry.Rect.WithBottom | Contra-Game.py:86-87 | assigning `rect.bottom` puts the bottom edge exactly there and keeps x and size |
| Geometry.AtCenter | Contra-Game.py:53-54 | `rect.center = (x, y)` yields a rectangle of the given size whose centre reads back as (x, y) |
| Geometry.AtMidLeft | Contra-Game.py:146-147 | `rect.midleft = (x, y)`: left edge at x, vertical centre at y, size kept |
| Geometry.AtMidRight | Contra-Game.py:160-161 | `rect.midright = (x, y)`: right edge at x, vertical centre at y, size kept |
| Rules.Motion | Contra-Game.py:68-88 | x moves by -5·LEFT + 5·RIGHT + 10·LSHIFT; the new velocity is (jump ? -15 : old) + 1 and is applied in full; the bottom never ends below 550, and it is clamped to 550 with on_ground set exactly when the step reaches that line; otherwise on_ground is old on_ground and not SPACE |
| Rules.Expire | Contra-Game.py:90-93 | the power-up is dropped only when powered up and now is past the timer; the timer is kept; the 50/100 delay invariant is preserved |
| Rules.PickUp | Contra-Game.py:134-138 | pickup sets powered_up, a 50 ms delay (so the invariant holds) and expiry at now + 15000 |
| Rules.NewBullet | Contra-Game.py:143-148 | a player bullet has its left edge at x, its vertical centre at y, the given speed, and size 20×10 whatever the speed |
| Rules.NewEnemyBullet | Contra-Game.py:157-162 | an enemy bullet has its right edge at x, its vertical centre at y, size 20×10 |
| Rules.NewEnemy | Contra-Game.py:174-178 | an enemy has its left edge at x, its vertical centre at y, size 100×100 |
| Rules.NewPowerUp | Contra-Game.py:126-130 | a power-up is centred on (x, y), size 40×40 |
| Rules.BulletStep | Contra-Game.py:150-153 | the bullet is kept exactly when, after moving by its speed, left ≤ 800 and left + width ≥ 0, and it is then at left + speed |
| Rules.EnemyBulletStep | Contra-Game.py:164-170 | the bullet moves 7 left; it hits exactly when it then overlaps the player; it is removed exactly when it hit or its right edge is below 0 |
| Rules.EnemyShot | Contra-Game.py:186-187 | the enemy's bullet has its right edge on the enemy's left edge and its centre at the enemy's vertical centre |
| Rules.EnemyUpdate | Contra-Game.py:180-189 | after the enemy in slot i drifts to `moved`: every slot whose player bullet overlaps `moved` is emptied, slot i is emptied exactly when there was such a bullet and otherwise holds the moved enemy, other slots are kept, and a firing enemy appends its bullet at the end |
| Rules.Compact | Contra-Game.py:183-184 | removing killed sprites leaves no killed slot and keeps every live sprite as often as it occurred |
| Trajectories.HeightClosedForm | Contra-Game.py:77-83 | t ticks into a jump the player is t·(29 - t)/2 above the ground |
| Trajectories.HeightBounds | Contra-Game.py:77-88 | the jump height is positive for ticks 1-28, at most 105 (reached at ticks 14 and 15), and 0 at tick 29 |
| Trajectories.JumpArc | Contra-Game.py:76-88 | jumping from the ground, whatever keys follow: velocity t - 15 after t ticks, airborne at Height(t) above ground up to tick 28, landed at 550 at tick 29 |
| Trajectories.SprintSteps | Contra-Game.py:69-74 | LSHIFT alone moves 10 right, LEFT with LSHIFT nets 5 right, no key keeps x |
| Trajectories.StandingStill | Contra-Game.py:81-88 | standing without SPACE keeps the player at 550 on the ground while the velocity keeps growing by 1 |
| Trajectories.PowerUpLasts | Contra-Game.py:91-93 | after a pickup at t the player is powered up (delay 50) exactly while now ≤ t + 15000, and has delay 100 afterwards |
| Trajectories.BulletLifetime | Contra-Game.py:150-153 | a right-moving bullet that survives the left edge is alive after n ≥ 1 updates exactly when left + n·speed ≤ 800, and is then at left + n·speed |
| Trajectories.BulletGoneAfter84 | Contra-Game.py:150-153 | every fired player bullet that survives its first update is removed within 84 updates |
| Trajectories.EnemyBulletGone | Contra-Game.py:164-170 | wherever the player moves, an enemy bullet is removed by the update that takes its right edge below 0, if not earlier |
| Trajectories.EnemyBulletPosition | Contra-Game.py:164-170 | an enemy bullet still alive after n updates is 7·n to the left and missed the player at every step |
| Trajectories.EnemyBulletSurvives | Contra-Game.py:164-170 | conversely, a bullet whose right edge stays at or right of 0 and which misses the player after every update is alive after n updates, 7·n to the left |
| Trajectories.DriftIsLinear | Contra-Game.py:180-181 | an untouched enemy is 3·n to the left after n updates, nothing else changes |
| Trajectories.SpawnedEnemyAfter100Ticks | Contra-Game.py:201-204 | an enemy spawned at (800, 500) and left untouched is at x = 500 after 100 updates |
| Trajectories.SpawnsAreSpaced | Contra-Game.py:217-220 | after k spawns the timer is at least 1501·k past its start; with no spawn it is unchanged, otherwise it is the clock reading of one of the ticks in the run |
| Trajectories.TimerIsLastSpawn | Contra-Game.py:217-220 | after at least one spawn the timer holds the clock reading of the last tick that spawned: that tick's check was due, and no later tick spawned |
| Trajectories.SpawnBound | Contra-Game.py:217-220 | over ticks read no later than `until`, at most (until - start)/1501 enemies spawn |
| Loop.SlotStep | Contra-Game.py:132-189 | the update of slot i by its sprite's kind: the group grows or keeps its length, health is kept or drops by exactly 10, the power-up invariant is kept, every other slot is kept or loses a player bullet, and every appended slot is an enemy bullet |
| Loop.Pass | Contra-Game.py:223 | updating slots 0..n-1 in order: the group never shrinks, health drops by a multiple of 10 and never rises, the power-up invariant is kept, slots from n on are kept or lose a player bullet, and everything appended is an enemy bullet |
| Loop.PlayerPhase | Contra-Game.py:65-117 | the player's update within the loop: the body follows `Motion`, the power-up follows `Expire`, health is kept, the bullet fired exactly when Z is held and the cooldown allows is appended to the group, and the game ends exactly on ESC or health ≤ 0 |
| Loop.UpdatePass | Contra-Game.py:223 | `all_sprites.update()`: the body follows `Motion`, the last-shot time moves to now exactly when the player fires, the game ends exactly on ESC or health ≤ 0, health falls in steps of 10, the power-up invariant is kept, the group never shrinks, and a bullet fired in this tick sits right after the old sprites unless an enemy shot it down |
| Loop.SpawnPhase | Contra-Game.py:217-220 | when now - timer > 1500, exactly one enemy (left edge 800, centred at height 500, 100×100) is appended after the old sprites and the timer becomes now; otherwise the state is unchanged; the player's state is never touched |
| Loop.TickSpec | Contra-Game.py:211-223 | one loop iteration: an ended game is unchanged; otherwise the game ends exactly on quit, ESC or health ≤ 0, the body follows `Motion`, the spawn timer follows the 1500 ms rule, no killed slot remains, health falls in steps of 10 and the power-up invariant is kept |
| Game.Player.constructor | Contra-Game.py:50-63 | the player starts centred at (100, 500), bottom on the ground line, velocity 0, on the ground, health 100, not powered up, delay 100, last shot now |
| Game.Player.Update | Contra-Game.py:65-108 | the body follows `Motion` and the power-up state follows `Expire`. Health is unchanged. A bullet is fired exactly when Z is held and the cooldown has elapsed, and the last-shot time is updated only then. The exit flag is set exactly on ESC or health ≤ 0. The player invariant is kept |
| Game.Player.Move | Contra-Game.py:68-88 | the step-by-step field updates give exactly `Motion` of the old body |
| Game.Player.ExpirePowerUp | Contra-Game.py:90-93 | the step-by-step field updates give exactly `Expire` of the old power-up state |
| Game.Player.Shoot | Contra-Game.py:110-117 | fires exactly when now - last_shot > delay, then sets last_shot := now, and the bullet leaves the player's right edge at mid height with speed 10; otherwise nothing changes |
| Game.World.constructor | Contra-Game.py:191-209 | the game starts with the initial player alone and the spawn timer at now |
| Game.World.SpawnEnemy | Contra-Game.py:201-204 | appends one enemy at left 800, centred at height 500 |
| Game.World.CheckSpawn | Contra-Game.py:217-220 | spawns one enemy and resets the timer to now exactly when now - timer > 1500, otherwise changes nothing |
| Game.World.UpdateBullet | Contra-Game.py:150-153 | the bullet's slot becomes `BulletStep` of it, nothing else changes |
| Game.World.UpdateEnemyBullet | Contra-Game.py:164-170 | the slot becomes `EnemyBulletStep` of it against the player, and health drops by exactly 10 on a hit and is otherwise unchanged |
| Game.World.KillHits | Contra-Game.py:183 | every player bullet overlapping the rectangle is killed, nothing else changes, and the result says whether there was one |
| Game.World.UpdateEnemy | Contra-Game.py:180-189 | the enemy drifts 3 left. It and every bullet overlapping it are removed exactly when there is such a bullet. If it fires, an enemy bullet is appended at its left edge, even when it was removed |
| Game.World.UpdatePowerUp | Contra-Game.py:132-139 | the power-up falls 2; if it then overlaps the player it is removed and the player's state becomes `PickUp`, otherwise the player is unchanged |
| Game.World.UpdateSlot | Contra-Game.py:223 | the update of slot i by its sprite's kind leaves the group, health and power-up state exactly as `SlotStep` says |
| Game.World.UpdateSprites | Contra-Game.py:223 | the world afterwards is exactly `UpdatePass` of the world before: the player's update, then the loop over the slots present at the start, each as `SlotStep`. Also: the player moves as `Motion` says, health never increases, the game terminates exactly on ESC or health ≤ 0, the spawn timer is untouched and no slot is lost |
| Game.World.Tick | Contra-Game.py:211-223 | the world afterwards is exactly `TickSpec` of the world before. Also: a terminated game is unchanged. Otherwise the game terminates exactly on quit, ESC or health ≤ 0, and the spawn timer follows the 1500 ms rule. The player moves as `Motion` says, health never increases, and no killed sprite remains |
| Game.World.Sweep | Contra-Game.py:223 | the group afterwards is `Compact` of the pass's result |

`Overlaps` (Contra-Game.py:135, 168, 183) is the strict test that rectangles share interior points on both axes. This is how `colliderect` is read here, as an assumption; pygame's own code is not part of this model.

## Left out

- Window setup, the caption, the font, image loading with its fallback surface and its prints, the background, drawing, the health bar, the display flip and frame pacing (`clock.tick`): I/O and rendering. The image sizes remain as constants. The boss, fireball and ice-shard images are never used.
- Keyboard and event polling: the keys and the window-close event are parameters of `Tick`.
- `pygame.time.get_ticks()`: one `now` per tick is passed in. The source reads the clock several times per tick, and the spawn timer is reset from a second read. The model uses the same value for all reads in a tick. At start-up the source also reads the clock twice, for the player's `last_shot` (Contra-Game.py:62, run at line 193) and for the spawn timer (line 209); `World.constructor` uses one `now` for both.
- `random.random() < 0.01`: the set `fire` says which enemies fire in this tick. Probabilities are not modelled.
- `pygame.quit()` / `sys.exit()`: replaced by the `terminated` flag. The "Game Over" print is not modelled.
- pygame's `Group` internals: the model assumes insertion-order iteration over a snapshot of the group. No property is stated about the order in which different sprites are updated.
- The `colliderect` edge convention is assumed as described above.
- Player bullets killed earlier in a pass are not updated again in that pass. In the source, their update still runs, but it no longer has any visible effect.
- Integers are unbounded. pygame's rectangles hold 32-bit coordinates, so the wrap-around of a sprite drifting off-screen for billions of ticks is not modelled.
- No power-up is ever created by the program. `NewPowerUp` and `UpdatePowerUp` model the class as written.
- `draw_health_bar` is left out, and so is clamping health to [0, 100] for drawing. The model only proves that health never exceeds 100 and never increases.
