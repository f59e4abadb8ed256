/**
 * One-way platforms (Platform.java): the player can pass through from below
 * and lands only when falling onto the top band.
 */
module Platforms {
  import opened MapElements

  /**
   * `isPlayerOnPlatform`: strict horizontal overlap, and the player's feet
   * `py + ph` within the closed band from the platform's top to its bottom.
   */
  predicate IsPlayerOnPlatform(p: Rect, px: real, py: real, pw: int, ph: int)
  {
    var horizontallyOnPlatform := px + pw as real > p.x as real && px < (p.x + p.width) as real;
    var verticallyOnPlatform := py + ph as real >= p.y as real && py + ph as real <= (p.y + p.height) as real;
    horizontallyOnPlatform && verticallyOnPlatform
  }

  /** `checkLanding`: on the platform while moving down. */
  predicate CheckLanding(p: Rect, px: real, py: real, pw: int, ph: int, velocityY: real)
  {
    IsPlayerOnPlatform(p, px, py, pw, ph) && velocityY > 0.0
  }

  /** `getTopY`: the y coordinate the player's feet snap to on landing. */
  function TopY(p: Rect): (top: int)
    ensures top == p.y
  {
    p.y
  }

  /** A player moving up or standing still never lands, whatever the geometry. */
  lemma OneWayLanding(p: Rect, px: real, py: real, pw: int, ph: int, velocityY: real)
    requires velocityY <= 0.0
    ensures !CheckLanding(p, px, py, pw, ph, velocityY)
  {
  }

  /**
   * For a player and a platform of positive width, a landing happens exactly
   * when their open horizontal extents overlap, the feet lie in the
   * platform's closed top-to-bottom band, and the player is moving down.
   */
  lemma LandingIffOnPlatformAndFalling(p: Rect, px: real, py: real, pw: int, ph: int, velocityY: real)
    requires pw > 0 && p.width > 0
    ensures CheckLanding(p, px, py, pw, ph, velocityY) <==>
      && IntervalsOverlap(px, px + pw as real, p.x as real, (p.x + p.width) as real)
      && p.y as real <= py + ph as real <= (p.y + p.height) as real
      && velocityY > 0.0
  {
  }

  /**
   * Feet exactly on the top edge count as standing on the platform, although
   * the strict overlap test `checkCollision` reports no contact there; feet
   * strictly inside the band are a collision as well.
   */
  lemma OnPlatformVersusCollision(p: Rect, px: real, py: real, pw: int, ph: int)
    requires p.height >= 0 && ph > 0
    requires px + pw as real > p.x as real && px < (p.x + p.width) as real
    ensures py + ph as real == p.y as real ==>
      IsPlayerOnPlatform(p, px, py, pw, ph) && !CheckCollision(p, px, py, pw, ph)
    ensures p.y as real < py + ph as real <= (p.y + p.height) as real ==>
      IsPlayerOnPlatform(p, px, py, pw, ph) && CheckCollision(p, px, py, pw, ph)
  {
  }
}
