/**
 * `Player.update` and its helpers (Player.java), one function per phase,
 * composed in the order the source runs them. Later phases overwrite what
 * earlier ones assigned, exactly as the statements do.
 */
module PlayerStep {
  import opened MapElements
  import opened Platforms
  import opened PlayerState
  import opened PlayerCollision

  // ---------------------------------------------------------------- climbing

  /** Holding the key that moves towards the wall in contact. */
  predicate MovingTowardsWall(p: Player, inp: Input)
  {
    (p.wallDirection == 1 && inp.right) || (p.wallDirection == -1 && inp.left)
  }

  /** Holding the key that moves away from the wall in contact. */
  predicate MovingAwayFromWall(p: Player, inp: Input)
  {
    (p.wallDirection == 1 && inp.left) || (p.wallDirection == -1 && inp.right)
  }

  /** The climbing velocity for the vertical keys held: up, down, or still. */
  function ClimbVelocityY(inp: Input): real
  {
    if inp.up && !inp.down then -CLIMB_MOVE_SPEED
    else if inp.down && !inp.up then CLIMB_MOVE_SPEED
    else 0.0
  }

  /**
   * `handleClimbing`: without wall contact a climb ends; against a wall the
   * player slides when pushing into it and starts climbing when the climb key
   * is held with stamina left; a climbing player moves vertically at the
   * climbing speed and pays `STAMINA_DRAIN_RATE * deltaTime` stamina,
   * dropping off the wall when it runs out.
   */
  function HandleClimbing(p: Player, inp: Input, deltaTime: real): (q: Player)
    ensures q.x == p.x && q.y == p.y && q.onGround == p.onGround
    ensures q.isDead == p.isDead && q.isDashing == p.isDashing && q.dashCount == p.dashCount
    ensures q.dashTimer == p.dashTimer && q.jumpCooldownTimer == p.jumpCooldownTimer
    ensures q.isTouchingWall == p.isTouchingWall && q.wallDirection == p.wallDirection
    ensures q.respawnX == p.respawnX && q.respawnY == p.respawnY && q.deathAnimationTimer == p.deathAnimationTimer
    ensures q.dashVelocityX == p.dashVelocityX && q.dashVelocityY == p.dashVelocityY && q.dashTier == p.dashTier
    ensures !p.isTouchingWall ==> q == p.(isClimbing := false)
    ensures q.isClimbing ==> p.isTouchingWall && q.stamina > 0.0
    ensures q.isClimbing ==> q.velocityX == 0.0 && q.velocityY == ClimbVelocityY(inp)
    ensures deltaTime >= 0.0 && 0.0 <= p.stamina <= MAX_STAMINA ==> 0.0 <= q.stamina <= p.stamina
    ensures Valid(p) && deltaTime >= 0.0 ==> Valid(q)
    ensures !p.isClimbing && q.isClimbing ==> inp.climb
  {
    if !p.isTouchingWall && !p.isClimbing then p
    else if p.isClimbing && !p.isTouchingWall then p.(isClimbing := false)
    else
      var p1 :=
        if !p.isClimbing then
          var slid := if MovingTowardsWall(p, inp) then p.(velocityY := WALL_SLIDE_SPEED, velocityX := 0.0) else p;
          if inp.climb && slid.stamina > 0.0 then slid.(isClimbing := true) else slid
        else p;
      if p1.isClimbing then
        var moved := p1.(velocityY := ClimbVelocityY(inp), velocityX := 0.0);
        var stamina := moved.stamina - STAMINA_DRAIN_RATE * deltaTime;
        if stamina <= 0.0 then moved.(stamina := 0.0, isClimbing := false)
        else moved.(stamina := stamina)
      else p1
  }

  /**
   * The climbing phase at a wall: a climbing (or starting) player pays
   * exactly `STAMINA_DRAIN_RATE * deltaTime` and keeps climbing while stamina
   * stays above 0, dropping off with 0 otherwise; a player who does not
   * climb keeps its stamina, and slides when pushing into the wall.
   */
  lemma ClimbingAtWall(p: Player, inp: Input, deltaTime: real)
    requires p.isTouchingWall
    ensures var q := HandleClimbing(p, inp, deltaTime);
      p.isClimbing || (inp.climb && p.stamina > 0.0) ==>
        && (q.isClimbing <==> p.stamina - STAMINA_DRAIN_RATE * deltaTime > 0.0)
        && q.stamina == (if q.isClimbing then p.stamina - STAMINA_DRAIN_RATE * deltaTime else 0.0)
    ensures var q := HandleClimbing(p, inp, deltaTime);
      !p.isClimbing && !(inp.climb && p.stamina > 0.0) ==>
        && !q.isClimbing && q.stamina == p.stamina
        && (MovingTowardsWall(p, inp) ==> q.velocityY == WALL_SLIDE_SPEED && q.velocityX == 0.0)
        && (!MovingTowardsWall(p, inp) ==> q == p)
  {
  }

  // ---------------------------------------------------------------- dash

  /**
   * The raw dash direction: right overrides left, down overrides up, and no
   * direction at all means right.
   */
  function DashDirection(inp: Input): (d: (int, int))
    ensures d != (0, 0)
    ensures d.0 == (if inp.right then 1 else if inp.left then -1 else if !inp.up && !inp.down then 1 else 0)
    ensures d.1 == (if inp.down then 1 else if inp.up then -1 else 0)
  {
    var dashX := if inp.right then 1 else if inp.left then -1 else 0;
    var dashY := if inp.down then 1 else if inp.up then -1 else 0;
    if dashX == 0 && dashY == 0 then (1, 0) else (dashX, dashY)
  }

  /** Normalising a direction with both components non-zero scales each by 1/sqrt(2). */
  function Normalised(d: (int, int)): (real, real)
  {
    if d.0 != 0 && d.1 != 0 then (d.0 as real * DIAGONAL_UNIT, d.1 as real * DIAGONAL_UNIT)
    else (d.0 as real, d.1 as real)
  }

  /** `dashColor`, from the charges held before the dash. */
  function TierFor(dashCount: int): DashTier
  {
    if dashCount >= 2 then Pink else if dashCount == 1 then Red else Blue
  }

  /**
   * `startDash`: spends one charge and fixes the dash velocity from the
   * direction keys; climbing stops. Without charges it does nothing.
   */
  function StartDash(p: Player, inp: Input): (q: Player)
    ensures Valid(p) ==> Valid(q)
    ensures p.dashCount <= 0 ==> q == p
    ensures p.dashCount > 0 ==>
      && q.isDashing && q.dashTimer == 0 && !q.isClimbing
      && q.dashCount == p.dashCount - 1
      && (q.dashVelocityX, q.dashVelocityY) ==
         (Normalised(DashDirection(inp)).0 * DASH_SPEED, Normalised(DashDirection(inp)).1 * DASH_SPEED)
      && q.dashTier == TierFor(p.dashCount)
      && q == p.(isDashing := true, dashTimer := 0, dashCount := q.dashCount, isClimbing := false,
                 dashVelocityX := q.dashVelocityX, dashVelocityY := q.dashVelocityY, dashTier := q.dashTier)
  {
    if p.dashCount <= 0 then p
    else
      var tier := TierFor(p.dashCount);
      var dir := Normalised(DashDirection(inp));
      p.(dashTier := tier,
         isDashing := true, dashTimer := 0, dashCount := p.dashCount - 1, isClimbing := false,
         dashVelocityX := dir.0 * DASH_SPEED, dashVelocityY := dir.1 * DASH_SPEED)
  }

  /** `endDash`: the dash stops and half of its velocity is kept. */
  function EndDash(p: Player): (q: Player)
    ensures !q.isDashing && q.dashTimer == 0
    ensures 2.0 * q.velocityX == p.dashVelocityX && 2.0 * q.velocityY == p.dashVelocityY
  {
    p.(isDashing := false, dashTimer := 0,
       velocityX := p.dashVelocityX * 0.5, velocityY := p.dashVelocityY * 0.5)
  }

  /** One frame of an active dash: the timer advances; the dash either ends or holds the dash velocity. */
  function DashTick(p: Player): (q: Player)
    requires p.isDashing
    ensures Valid(p) ==> Valid(q)
    ensures q.dashCount == p.dashCount && q.jumpCooldownTimer == p.jumpCooldownTimer
    ensures q.x == p.x && q.y == p.y
    ensures q.isDashing <==> p.dashTimer + 1 < DASH_DURATION
    ensures q.isDashing ==> q.velocityX == p.dashVelocityX && q.velocityY == p.dashVelocityY
    ensures !q.isDashing ==> q.velocityX == p.dashVelocityX * 0.5 && q.velocityY == p.dashVelocityY * 0.5
  {
    var timer := p.dashTimer + 1;
    if timer >= DASH_DURATION then EndDash(p.(dashTimer := timer))
    else p.(dashTimer := timer, velocityX := p.dashVelocityX, velocityY := p.dashVelocityY)
  }

  // ---------------------------------------------------------------- normal movement

  /** Horizontal run velocity, unless climbing: left or right alone, otherwise none. */
  function Run(p: Player, inp: Input): (q: Player)
    ensures q == p.(velocityX := q.velocityX)
    ensures p.isClimbing ==> q == p
    ensures !p.isClimbing ==>
      && -MOVE_SPEED <= q.velocityX <= MOVE_SPEED
      && (q.velocityX < 0.0 <==> inp.left && !inp.right)
      && (q.velocityX > 0.0 <==> inp.right && !inp.left)
  {
    if !p.isClimbing then
      if inp.left && !inp.right then p.(velocityX := -MOVE_SPEED)
      else if inp.right && !inp.left then p.(velocityX := MOVE_SPEED)
      else p.(velocityX := 0.0)
    else p
  }

  /** The jump is taken: key held, on the ground or climbing, cooldown expired. */
  predicate CanJump(p: Player, inp: Input)
  {
    inp.jump && (p.onGround || p.isClimbing) && p.jumpCooldownTimer <= 0
  }

  /**
   * The jump: from a wall, diagonally away from it when moving away and
   * straight up otherwise, ending the climb; from the ground, straight up.
   * Either way the player leaves the ground and the cooldown restarts.
   */
  function Jump(p: Player, inp: Input): (q: Player)
    ensures !CanJump(p, inp) ==> q == p
    ensures CanJump(p, inp) ==> q.jumpCooldownTimer == JUMP_COOLDOWN_DURATION && !q.onGround && !q.isClimbing
    ensures Valid(p) ==> Valid(q)
  {
    if CanJump(p, inp) then
      var jumped :=
        if p.isClimbing then
          var jump :=
            if MovingAwayFromWall(p, inp) then
              (if p.wallDirection == 1 then -MOVE_SPEED * 2.0 else MOVE_SPEED * 2.0, JUMP_STRENGTH * 0.8)
            else (0.0, JUMP_STRENGTH);
          p.(velocityX := jump.0, velocityY := jump.1, isClimbing := false)
        else p.(velocityY := JUMP_STRENGTH);
      jumped.(onGround := false, jumpCooldownTimer := JUMP_COOLDOWN_DURATION)
    else p
  }

  /** Holding down while falling freely (not dashing, away from walls) doubles gravity. */
  predicate FastFalling(p: Player, inp: Input)
  {
    inp.down && p.velocityY > 0.0 && !p.isDashing && !p.isTouchingWall
  }

  /** Gravity, in the air and not climbing. */
  function Gravity(p: Player, inp: Input): (q: Player)
    ensures q == p.(velocityY := q.velocityY)
    ensures p.onGround || p.isClimbing ==> q == p
    ensures !p.onGround && !p.isClimbing ==> p.velocityY + GRAVITY <= q.velocityY <= p.velocityY + FAST_FALL_GRAVITY
    ensures p.isTouchingWall || p.isDashing ==> q.velocityY <= p.velocityY + GRAVITY
  {
    if !p.onGround && !p.isClimbing then
      if FastFalling(p, inp) then p.(velocityY := p.velocityY + FAST_FALL_GRAVITY)
      else p.(velocityY := p.velocityY + GRAVITY)
    else p
  }

  /**
   * Phases 2 to 5 of an alive update after the wall check: climbing, dash
   * start, then either the dash frame or running, jumping and gravity. The
   * result holds the velocity the position is about to be advanced by.
   */
  function Steer(p: Player, inp: Input, deltaTime: real): (q: Player)
    ensures q.x == p.x && q.y == p.y && q.isDead == p.isDead
    ensures q.respawnX == p.respawnX && q.respawnY == p.respawnY
    ensures Valid(p) && deltaTime >= 0.0 ==> Valid(q)
  {
    var climbed := HandleClimbing(p, inp, deltaTime);
    var started := if inp.dash && climbed.dashCount > 0 && !climbed.isDashing then StartDash(climbed, inp) else climbed;
    if started.isDashing then DashTick(started)
    else Gravity(Jump(Run(started, inp), inp), inp)
  }

  // ---------------------------------------------------------------- the remaining phases

  /** Position advances by one frame of velocity. */
  function Integrate(p: Player): (q: Player)
    ensures q.x == p.x + p.velocityX && q.y == p.y + p.velocityY
    ensures q == p.(x := q.x, y := q.y)
  {
    p.(x := p.x + p.velocityX, y := p.y + p.velocityY)
  }

  /** The jump cooldown counts down to zero. */
  function TickJumpCooldown(p: Player): (q: Player)
    ensures q == p.(jumpCooldownTimer := q.jumpCooldownTimer)
    ensures 0 <= p.jumpCooldownTimer ==> 0 <= q.jumpCooldownTimer <= p.jumpCooldownTimer
  {
    if p.jumpCooldownTimer > 0 then p.(jumpCooldownTimer := p.jumpCooldownTimer - 1) else p
  }

  /** The rightmost x the player may occupy. */
  const MAX_X: int := WORLD_WIDTH - PLAYER_WIDTH

  /** The horizontal bounds check. */
  function ClampX(p: Player): (q: Player)
    ensures 0.0 <= q.x <= MAX_X as real
    ensures 0.0 <= p.x <= MAX_X as real ==> q == p
    ensures q == p.(x := q.x)
  {
    var x1 := if p.x < 0.0 then 0.0 else p.x;
    var x2 := if x1 > MAX_X as real then MAX_X as real else x1;
    p.(x := x2)
  }

  /** Standing on something refills stamina and ends any climb. */
  function RefillOnGround(p: Player): (q: Player)
    ensures q.onGround == p.onGround && q.x == p.x && q.y == p.y
    ensures q.isDead == p.isDead && q.isDashing == p.isDashing
    ensures q.respawnX == p.respawnX && q.respawnY == p.respawnY
    ensures q.deathAnimationTimer == p.deathAnimationTimer
    ensures q.onGround ==> q.stamina == MAX_STAMINA && !q.isClimbing
    ensures Valid(p) ==> Valid(q)
  {
    if p.onGround then p.(stamina := MAX_STAMINA, isClimbing := false) else p
  }

  /** A dead player's frame: the death timer advances and at its end the player respawns. */
  function DeathTick(p: Player): (q: Player)
    requires p.isDead
    ensures Valid(p) ==> Valid(q)
    ensures q.isDead <==> p.deathAnimationTimer + 1 < DEATH_ANIMATION_DURATION
    ensures q.isDead ==> q.x == p.x && q.y == p.y && q.deathAnimationTimer == p.deathAnimationTimer + 1
    ensures !q.isDead ==> q.x == p.respawnX && q.y == p.respawnY && q.dashCount == MAX_DASH_COUNT
  {
    var timer := p.deathAnimationTimer + 1;
    if timer >= DEATH_ANIMATION_DURATION then Respawn(p.(deathAnimationTimer := timer))
    else p.(deathAnimationTimer := timer)
  }

  /** The collision phases: ground line, platforms, solid blocks, then spikes. */
  function Collide(p: Player, level: Level): (q: Player)
    ensures q.respawnX == p.respawnX && q.respawnY == p.respawnY
    ensures q.isDashing == p.isDashing && q.isClimbing == p.isClimbing && q.stamina == p.stamina
    ensures q.dashTimer == p.dashTimer && q.jumpCooldownTimer == p.jumpCooldownTimer
    ensures !p.isDead && q.isDead ==> q.deathAnimationTimer == 0 && q.velocityX == 0.0 && q.velocityY == 0.0
    ensures Valid(p) ==> Valid(q)
  {
    var grounded := GroundCheck(p.(onGround := false));
    var resolved := ResolveSolidBlocks(ResolvePlatforms(grounded, level.platforms), level.solidBlocks);
    CheckSpikes(resolved, level.spikes)
  }

  /**
   * `keyReleased` for the climb key, between frames: releasing it ends any
   * climb, so no climb survives into a frame where the key is not held.
   */
  function ReleaseClimb(p: Player, inp: Input): (q: Player)
    ensures !inp.climb ==> !q.isClimbing
    ensures q == p.(isClimbing := q.isClimbing)
    ensures inp.climb ==> q == p
  {
    if inp.climb then p else p.(isClimbing := false)
  }

  /**
   * `Player.update`, after any climb-key release since the last frame: a
   * dead player only runs the death animation; an alive
   * one runs wall check, steering, integration, cooldown, collisions, the
   * bounds clamp and the ground refill. A spike death does not skip the
   * last two.
   */
  function Update(p: Player, inp: Input, level: Level, deltaTime: real): (q: Player)
    ensures !p.isDead ==> 0.0 <= q.x <= MAX_X as real
  {
    var held := ReleaseClimb(p, inp);
    if held.isDead then DeathTick(held)
    else
      var steered := Steer(CheckWallCollision(held, level.solidBlocks), inp, deltaTime);
      var moved := TickJumpCooldown(Integrate(steered));
      RefillOnGround(ClampX(Collide(moved, level)))
  }

  /** `n` consecutive updates with the same input. */
  function UpdateN(p: Player, inp: Input, level: Level, deltaTime: real, n: nat): Player
    decreases n
  {
    if n == 0 then p else UpdateN(Update(p, inp, level, deltaTime), inp, level, deltaTime, n - 1)
  }
}
