/**
 * The player's contact tests against the map (Player.java): wall contact,
 * the ground line, one-way platforms, solid blocks and spikes. Each pass
 * walks its element list in order, as the source's for-each loops do.
 */
module PlayerCollision {
  import opened MapElements
  import opened Platforms
  import opened PlayerState

  /** The player's fields a collision pass never touches. */
  predicate SameStatus(p: Player, q: Player)
  {
    && q.isDead == p.isDead && q.deathAnimationTimer == p.deathAnimationTimer
    && q.respawnX == p.respawnX && q.respawnY == p.respawnY
    && q.isDashing == p.isDashing && q.dashTimer == p.dashTimer
    && q.dashVelocityX == p.dashVelocityX && q.dashVelocityY == p.dashVelocityY && q.dashTier == p.dashTier
    && q.isClimbing == p.isClimbing && q.isTouchingWall == p.isTouchingWall && q.wallDirection == p.wallDirection
    && q.stamina == p.stamina && q.jumpCooldownTimer == p.jumpCooldownTimer
  }

  /** The player's box at (x, y) collides with `e`. */
  predicate Hits(e: Rect, x: real, y: real)
  {
    CheckCollision(e, x, y, PLAYER_WIDTH, PLAYER_HEIGHT)
  }

  // ---------------------------------------------------------------- walls

  /**
   * `isTouchingWall(block)`: 1 when the player's right edge is within the
   * tolerance right of the block's left face (a wall on the right), -1 when
   * its left edge is within the tolerance left of the block's right face, 0
   * otherwise; both require strict vertical overlap, and the right-wall test
   * is tried first.
   */
  function WallContact(x: real, y: real, b: Rect): (dir: int)
    ensures -1 <= dir <= 1
    ensures dir != 0 ==> y < (b.y + b.height) as real && y + PLAYER_HEIGHT as real > b.y as real
    ensures dir == 1 ==> b.x as real <= x + PLAYER_WIDTH as real <= (b.x + WALL_TOLERANCE) as real
    ensures dir == -1 ==> (b.x + b.width - WALL_TOLERANCE) as real <= x <= (b.x + b.width) as real
  {
    if && x + PLAYER_WIDTH as real >= b.x as real
       && x + PLAYER_WIDTH as real <= (b.x + WALL_TOLERANCE) as real
       && y < (b.y + b.height) as real
       && y + PLAYER_HEIGHT as real > b.y as real
    then 1
    else if && x <= (b.x + b.width) as real
            && x >= (b.x + b.width - WALL_TOLERANCE) as real
            && y < (b.y + b.height) as real
            && y + PLAYER_HEIGHT as real > b.y as real
    then -1
    else 0
  }

  /** The direction of the first block in contact, or 0 when none is (the loop's `break`). */
  function FirstWallContact(x: real, y: real, blocks: seq<Rect>): (dir: int)
    ensures -1 <= dir <= 1
    ensures dir == 0 <==> forall i :: 0 <= i < |blocks| ==> WallContact(x, y, blocks[i]) == 0
    ensures dir != 0 ==> exists i :: 0 <= i < |blocks| && WallContact(x, y, blocks[i]) == dir &&
                           forall j :: 0 <= j < i ==> WallContact(x, y, blocks[j]) == 0
    decreases |blocks|
  {
    if |blocks| == 0 then 0
    else
      var d := WallContact(x, y, blocks[0]);
      if d != 0 then d
      else
        var rest := FirstWallContact(x, y, blocks[1..]);
        assert forall i :: 1 <= i < |blocks| ==> blocks[i] == blocks[1..][i - 1];
        assert rest != 0 ==> exists i :: 0 <= i < |blocks| && WallContact(x, y, blocks[i]) == rest &&
                               forall j :: 0 <= j < i ==> WallContact(x, y, blocks[j]) == 0 by {
          if rest != 0 {
            var k :| 0 <= k < |blocks[1..]| && WallContact(x, y, blocks[1..][k]) == rest &&
                     forall j :: 0 <= j < k ==> WallContact(x, y, blocks[1..][j]) == 0;
            assert WallContact(x, y, blocks[k + 1]) == rest;
          }
        }
        rest
  }

  /** `checkWallCollision`: recomputes the wall flags from the current position. */
  function CheckWallCollision(p: Player, blocks: seq<Rect>): (q: Player)
    ensures q.isTouchingWall <==> exists i :: 0 <= i < |blocks| && WallContact(p.x, p.y, blocks[i]) != 0
    ensures q.isTouchingWall <==> q.wallDirection != 0
    ensures q == p.(isTouchingWall := q.isTouchingWall, wallDirection := q.wallDirection)
    ensures Valid(p) ==> Valid(q)
  {
    var dir := FirstWallContact(p.x, p.y, blocks);
    p.(isTouchingWall := dir != 0, wallDirection := dir)
  }

  // ---------------------------------------------------------------- ground and platforms

  /** The y at which the player stands on the ground line. */
  const GROUND_TOP: int := GROUND_Y - PLAYER_HEIGHT

  /** The ground line: at or below it, the player is put on it, stopped vertically and given full charges. */
  function GroundCheck(p: Player): (q: Player)
    ensures p.y >= GROUND_TOP as real ==>
      q == p.(y := GROUND_TOP as real, velocityY := 0.0, onGround := true, dashCount := MAX_DASH_COUNT)
    ensures p.y < GROUND_TOP as real ==> q == p
  {
    if p.y >= GROUND_TOP as real then
      p.(y := GROUND_TOP as real, velocityY := 0.0, onGround := true, dashCount := MAX_DASH_COUNT)
    else p
  }

  /** One platform of `checkPlatformCollision`: a landing snaps the feet to its top. */
  function PlatformStep(p: Player, pl: Rect): (q: Player)
    ensures SameStatus(p, q) && q.x == p.x && q.velocityX == p.velocityX
    ensures CheckLanding(pl, p.x, p.y, PLAYER_WIDTH, PLAYER_HEIGHT, p.velocityY) ==>
      q.y + PLAYER_HEIGHT as real == TopY(pl) as real && q.velocityY == 0.0
    ensures IsPlayerOnPlatform(pl, p.x, p.y, PLAYER_WIDTH, PLAYER_HEIGHT) ==>
      q.onGround && q.dashCount == MAX_DASH_COUNT
    ensures !IsPlayerOnPlatform(pl, p.x, p.y, PLAYER_WIDTH, PLAYER_HEIGHT) ==> q == p
    ensures !CheckLanding(pl, p.x, p.y, PLAYER_WIDTH, PLAYER_HEIGHT, p.velocityY) ==>
      q.y == p.y && q.velocityY == p.velocityY
  {
    if CheckLanding(pl, p.x, p.y, PLAYER_WIDTH, PLAYER_HEIGHT, p.velocityY) then
      p.(y := (TopY(pl) - PLAYER_HEIGHT) as real, velocityY := 0.0, onGround := true, dashCount := MAX_DASH_COUNT)
    else if IsPlayerOnPlatform(pl, p.x, p.y, PLAYER_WIDTH, PLAYER_HEIGHT) then
      p.(onGround := true, dashCount := MAX_DASH_COUNT)
    else p
  }

  /** `checkPlatformCollision`: the platforms in order. */
  function ResolvePlatforms(p: Player, platforms: seq<Rect>): (q: Player)
    ensures SameStatus(p, q) && q.x == p.x && q.velocityX == p.velocityX
    ensures q.dashCount == p.dashCount || q.dashCount == MAX_DASH_COUNT
    ensures p.onGround ==> q.onGround
    ensures q.velocityY == p.velocityY || q.velocityY == 0.0
    decreases |platforms|
  {
    if |platforms| == 0 then p else ResolvePlatforms(PlatformStep(p, platforms[0]), platforms[1..])
  }

  // ---------------------------------------------------------------- solid blocks

  /** The side a solid block pushes the player out of. */
  datatype PushSide = FromLeft | FromRight | FromTop | FromBottom

  /** Java's `Math.min` on (non-NaN) doubles. */
  function Min(a: real, b: real): real { if a <= b then a else b }

  /**
   * The side with the least overlap, found as the source does: the minimum of
   * the four, then compared against left, right, top and bottom in that
   * order. (The bottom comparison always holds when it is reached.)
   */
  function ChooseSide(left: real, right: real, top: real, bottom: real): (s: PushSide)
  {
    var minOverlap := Min(Min(left, right), Min(top, bottom));
    if minOverlap == left then FromLeft
    else if minOverlap == right then FromRight
    else if minOverlap == top then FromTop
    else FromBottom
  }

  /**
   * The chosen side is a minimal overlap, and ties go to left, then right,
   * then top, then bottom: each side is chosen exactly when it is no larger
   * than the sides after it and strictly smaller than those before it.
   */
  lemma ChooseSideIsFirstMinimum(left: real, right: real, top: real, bottom: real)
    ensures ChooseSide(left, right, top, bottom) == FromLeft <==>
      left <= right && left <= top && left <= bottom
    ensures ChooseSide(left, right, top, bottom) == FromRight <==>
      right < left && right <= top && right <= bottom
    ensures ChooseSide(left, right, top, bottom) == FromTop <==>
      top < left && top < right && top <= bottom
    ensures ChooseSide(left, right, top, bottom) == FromBottom <==>
      bottom < left && bottom < right && bottom < top
  {
  }

  /** The side a colliding block `b` pushes the player at (x, y) out of. */
  function PushSideOf(x: real, y: real, b: Rect): PushSide
  {
    var leftOverlap := (x + PLAYER_WIDTH as real) - b.x as real;
    var rightOverlap := (b.x + b.width) as real - x;
    var topOverlap := (y + PLAYER_HEIGHT as real) - b.y as real;
    var bottomOverlap := (b.y + b.height) as real - y;
    ChooseSide(leftOverlap, rightOverlap, topOverlap, bottomOverlap)
  }

  /**
   * One block of `checkSolidBlockCollision`. A colliding block pushes the
   * player flush against the chosen face, after which the two no longer
   * overlap; a side push stops horizontal motion, a push out of the top
   * lands the player, one out of the bottom stops vertical motion only.
   */
  function BlockStep(p: Player, b: Rect): (q: Player)
    ensures SameStatus(p, q)
    ensures !Hits(b, p.x, p.y) ==> q == p
    ensures Hits(b, p.x, p.y) ==> !Hits(b, q.x, q.y)
    ensures Hits(b, p.x, p.y) && PushSideOf(p.x, p.y, b) == FromLeft ==>
      q == p.(x := (b.x - PLAYER_WIDTH) as real, velocityX := 0.0)
    ensures Hits(b, p.x, p.y) && PushSideOf(p.x, p.y, b) == FromRight ==>
      q == p.(x := (b.x + b.width) as real, velocityX := 0.0)
    ensures Hits(b, p.x, p.y) && PushSideOf(p.x, p.y, b) == FromTop ==>
      q == p.(y := (b.y - PLAYER_HEIGHT) as real, velocityY := 0.0, onGround := true, dashCount := MAX_DASH_COUNT)
    ensures Hits(b, p.x, p.y) && PushSideOf(p.x, p.y, b) == FromBottom ==>
      q == p.(y := (b.y + b.height) as real, velocityY := 0.0)
  {
    if Hits(b, p.x, p.y) then
      match PushSideOf(p.x, p.y, b)
      case FromLeft => p.(x := (b.x - PLAYER_WIDTH) as real, velocityX := 0.0)
      case FromRight => p.(x := (b.x + b.width) as real, velocityX := 0.0)
      case FromTop => p.(y := (b.y - PLAYER_HEIGHT) as real, velocityY := 0.0, onGround := true, dashCount := MAX_DASH_COUNT)
      case FromBottom => p.(y := (b.y + b.height) as real, velocityY := 0.0)
    else p
  }

  /** `checkSolidBlockCollision`: the blocks in order, each seeing the previous one's result. */
  function ResolveSolidBlocks(p: Player, blocks: seq<Rect>): (q: Player)
    ensures SameStatus(p, q)
    ensures q.dashCount == p.dashCount || q.dashCount == MAX_DASH_COUNT
    ensures p.onGround ==> q.onGround
    ensures q.velocityX == p.velocityX || q.velocityX == 0.0
    ensures q.velocityY == p.velocityY || q.velocityY == 0.0
    decreases |blocks|
  {
    if |blocks| == 0 then p else ResolveSolidBlocks(BlockStep(p, blocks[0]), blocks[1..])
  }

  // ---------------------------------------------------------------- spikes

  /** Some spike collides with the player's box at (x, y). */
  predicate TouchesSpike(x: real, y: real, spikes: seq<Rect>)
  {
    exists i :: 0 <= i < |spikes| && Hits(spikes[i], x, y)
  }

  /** `checkSpikeCollision`: the first colliding spike kills the player. */
  function CheckSpikes(p: Player, spikes: seq<Rect>): (q: Player)
    ensures TouchesSpike(p.x, p.y, spikes) ==> q == Die(p)
    ensures !TouchesSpike(p.x, p.y, spikes) ==> q == p
    decreases |spikes|
  {
    if |spikes| == 0 then p
    else if Hits(spikes[0], p.x, p.y) then Die(p)
    else
      assert forall i :: 1 <= i < |spikes| ==> spikes[i] == spikes[1..][i - 1];
      assert TouchesSpike(p.x, p.y, spikes) ==> TouchesSpike(p.x, p.y, spikes[1..]) by {
        if TouchesSpike(p.x, p.y, spikes) {
          var i :| 0 <= i < |spikes| && Hits(spikes[i], p.x, p.y);
          assert Hits(spikes[1..][i - 1], p.x, p.y);
        }
      }
      CheckSpikes(p, spikes[1..])
  }
}
