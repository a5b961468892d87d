/**
 * Screen constants, sprite sizes and the integer rectangle arithmetic the
 * game does with its sprites' rectangles (pygame's Rect).
 */
module Geometry {

  const SCREEN_WIDTH: int := 800
  const SCREEN_HEIGHT: int := 600
  /** The ground line: no player update leaves the player's bottom below it. */
  const GROUND_Y: int := SCREEN_HEIGHT - 50

  // Sizes the images are scaled to when they are loaded.
  const PLAYER_W: nat := 100
  const PLAYER_H: nat := 100
  const BULLET_W: nat := 20
  const BULLET_H: nat := 10
  const ENEMY_W: nat := 100
  const ENEMY_H: nat := 100
  const POWERUP_W: nat := 40
  const POWERUP_H: nat := 40
  const ENEMY_BULLET_W: nat := 20
  const ENEMY_BULLET_H: nat := 10

  /** An axis-aligned rectangle: left and top corner, width and height. */
  datatype Rect = Rect(left: int, top: int, w: nat, h: nat) {
    function Right(): int { left + w }
    function Bottom(): int { top + h }
    function CenterX(): int { left + w / 2 }
    function CenterY(): int { top + h / 2 }

    function MoveBy(dx: int, dy: int): Rect {
      Rect(left + dx, top + dy, w, h)
    }

    /** Assigning `rect.bottom`: moves the rectangle vertically only. */
    function WithBottom(y: int): (r: Rect)
      ensures r.Bottom() == y
      ensures r.left == left && r.w == w && r.h == h
    {
      Rect(left, y - h, w, h)
    }
  }

  /** A fresh w×h rectangle after assigning `rect.center = (x, y)`. */
  function AtCenter(x: int, y: int, w: nat, h: nat): (r: Rect)
    ensures r.w == w && r.h == h
    ensures r.CenterX() == x && r.CenterY() == y
  {
    Rect(x - w / 2, y - h / 2, w, h)
  }

  /** A fresh w×h rectangle after assigning `rect.midleft = (x, y)`. */
  function AtMidLeft(x: int, y: int, w: nat, h: nat): (r: Rect)
    ensures r.w == w && r.h == h
    ensures r.left == x && r.CenterY() == y
  {
    Rect(x, y - h / 2, w, h)
  }

  /** A fresh w×h rectangle after assigning `rect.midright = (x, y)`. */
  function AtMidRight(x: int, y: int, w: nat, h: nat): (r: Rect)
    ensures r.w == w && r.h == h
    ensures r.Right() == x && r.CenterY() == y
  {
    Rect(x - w, y - h / 2, w, h)
  }

  /**
   * `colliderect`: the two rectangles share interior points on both axes.
   * Rectangles that only touch along an edge do not collide. This is the
   * usual reading of pygame's test; pygame itself is not part of this model.
   */
  predicate Overlaps(a: Rect, b: Rect) {
    a.left < b.Right() && b.left < a.Right() &&
    a.top < b.Bottom() && b.top < a.Bottom()
  }
}
