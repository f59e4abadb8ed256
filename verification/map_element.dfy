/**
 * The common base of every map element (MapElement.java): an integer
 * rectangle with getters, two setters and the half-open overlap test against
 * the player's box. Colour and rendering are not modelled.
 */
module MapElements {

  /** Position and size of an element, in Java `int` pixels. */
  datatype Rect = Rect(x: int, y: int, width: int, height: int)

  /** The rectangle a constructor `MapElement(x, y, width, height, color)` stores. */
  function NewRect(x: int, y: int, width: int, height: int): (r: Rect)
    ensures r.x == x && r.y == y && r.width == width && r.height == height
  {
    Rect(x, y, width, height)
  }

  /**
   * `checkCollision`: the element and a player box at (px, py) of size pw x ph
   * overlap, with strict comparisons on every side.
   */
  predicate CheckCollision(e: Rect, px: real, py: real, pw: int, ph: int)
  {
    && px < (e.x + e.width) as real
    && px + pw as real > e.x as real
    && py < (e.y + e.height) as real
    && py + ph as real > e.y as real
  }

  /** `setPosition`: moves the element, keeping its size. */
  function SetPosition(e: Rect, x: int, y: int): (r: Rect)
    ensures r.x == x && r.y == y
    ensures r.width == e.width && r.height == e.height
  {
    e.(x := x, y := y)
  }

  /** `setSize`: resizes the element, keeping its position. */
  function SetSize(e: Rect, width: int, height: int): (r: Rect)
    ensures r.width == width && r.height == height
    ensures r.x == e.x && r.y == e.y
  {
    e.(width := width, height := height)
  }

  function MaxReal(a: real, b: real): real { if a >= b then a else b }
  function MinReal(a: real, b: real): real { if a <= b then a else b }

  /** Open intervals (lo1, hi1) and (lo2, hi2) share a point. */
  predicate IntervalsOverlap(lo1: real, hi1: real, lo2: real, hi2: real)
  {
    MaxReal(lo1, lo2) < MinReal(hi1, hi2)
  }

  /**
   * An independent statement of the collision test: the two boxes collide
   * exactly when their open x-extents and their open y-extents both overlap
   * (for boxes of positive size; see ZeroWidthElementCanCollide for why
   * degenerate boxes are excluded).
   */
  lemma CollisionIsIntervalOverlap(e: Rect, px: real, py: real, pw: int, ph: int)
    requires e.width > 0 && e.height > 0 && pw > 0 && ph > 0
    ensures CheckCollision(e, px, py, pw, ph) <==>
      && IntervalsOverlap(px, px + pw as real, e.x as real, (e.x + e.width) as real)
      && IntervalsOverlap(py, py + ph as real, e.y as real, (e.y + e.height) as real)
  {
  }

  /** Boxes that only share an edge do not collide. */
  lemma EdgeContactIsNoCollision(e: Rect, px: real, py: real, pw: int, ph: int)
    requires
      || px + pw as real == e.x as real
      || px == (e.x + e.width) as real
      || py + ph as real == e.y as real
      || py == (e.y + e.height) as real
    ensures !CheckCollision(e, px, py, pw, ph)
  {
  }

  /**
   * Moving an element with `setPosition` and the player by the same offset
   * does not change whether they collide.
   */
  lemma CollisionIsTranslationInvariant(e: Rect, px: real, py: real, pw: int, ph: int, dx: int, dy: int)
    ensures CheckCollision(SetPosition(e, e.x + dx, e.y + dy), px + dx as real, py + dy as real, pw, ph)
        <==> CheckCollision(e, px, py, pw, ph)
  {
  }

  /**
   * The test does not exclude degenerate elements: a zero-width element
   * still collides with a player box that straddles its x coordinate, although
   * its open x-extent is empty.
   */
  lemma ZeroWidthElementCanCollide()
    ensures CheckCollision(Rect(10, 0, 0, 10), 0.0, 0.0, 30, 40)
    ensures !IntervalsOverlap(0.0, 30.0, 10.0, 10.0)
  {
  }
}
