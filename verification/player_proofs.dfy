/**
 * Properties of `Player.update` as a whole: the counters' ranges, the
 * death/respawn cycle, dash start and duration, gravity, jumping, the
 * ground refill and the states the source lets coexist.
 */
module PlayerProofs {
  import opened MapElements
  import opened PlayerState
  import opened PlayerCollision
  import opened PlayerStep

  // ---------------------------------------------------------------- invariants

  lemma SteerPreservesValid(p: Player, inp: Input, deltaTime: real)
    requires Valid(p) && deltaTime >= 0.0
    ensures Valid(Steer(p, inp, deltaTime))
  {
    var climbed := HandleClimbing(p, inp, deltaTime);
    var started := if inp.dash && climbed.dashCount > 0 && !climbed.isDashing then StartDash(climbed, inp) else climbed;
    assert Valid(started);
  }

  /**
   * For a non-negative frame time every update keeps the dash charges in
   * 0..2, stamina in 0..100, the jump cooldown in 0..10, and the dash and
   * death timers below their durations.
   */
  lemma UpdatePreservesValid(p: Player, inp: Input, level: Level, deltaTime: real)
    requires Valid(p) && deltaTime >= 0.0
    ensures Valid(Update(p, inp, level, deltaTime))
  {
    var held := ReleaseClimb(p, inp);
    assert Valid(held);
    if !p.isDead {
      var walled := CheckWallCollision(held, level.solidBlocks);
      SteerPreservesValid(walled, inp, deltaTime);
      var moved := TickJumpCooldown(Integrate(Steer(walled, inp, deltaTime)));
      assert Valid(moved);
      assert Valid(Collide(moved, level));
    }
  }

  /** An alive player ends every update inside the horizontal bounds, even when the update kills it. */
  lemma UpdateClampsX(p: Player, inp: Input, level: Level, deltaTime: real)
    requires !p.isDead
    ensures 0.0 <= Update(p, inp, level, deltaTime).x <= MAX_X as real
  {
  }

  /**
   * An alive player that ends an update on the ground (the ground line, a
   * platform or a block top) has full stamina and is not climbing, even when
   * the update killed it.
   */
  lemma GroundRefillsStamina(p: Player, inp: Input, level: Level, deltaTime: real)
    requires !p.isDead
    requires Update(p, inp, level, deltaTime).onGround
    ensures Update(p, inp, level, deltaTime).stamina == MAX_STAMINA
    ensures !Update(p, inp, level, deltaTime).isClimbing
  {
  }

  // ---------------------------------------------------------------- death and respawn

  /** A dead player's update is the death animation's tick, after any climb-key release. */
  lemma DeadUpdate(p: Player, inp: Input, level: Level, deltaTime: real)
    requires p.isDead
    ensures var q := Update(p, inp, level, deltaTime);
      && (p.deathAnimationTimer + 1 < DEATH_ANIMATION_DURATION ==>
            q == p.(deathAnimationTimer := p.deathAnimationTimer + 1, isClimbing := p.isClimbing && inp.climb))
      && (p.deathAnimationTimer + 1 >= DEATH_ANIMATION_DURATION ==>
            q == Respawn(p.(deathAnimationTimer := p.deathAnimationTimer + 1, isClimbing := p.isClimbing && inp.climb)))
  {
  }

  /**
   * A dead player's updates only count the death animation up: position and
   * velocity stay put until the timer reaches 30 (a released climb key still
   * clears the climb flag), and that update respawns the player at the
   * respawn point, at rest, with full charges and stamina.
   */
  lemma {:induction false} DeathCountdown(p: Player, inp: Input, level: Level, deltaTime: real, n: nat)
    requires p.isDead && p.deathAnimationTimer < DEATH_ANIMATION_DURATION
    requires n <= DEATH_ANIMATION_DURATION - p.deathAnimationTimer
    ensures 0 < n < DEATH_ANIMATION_DURATION - p.deathAnimationTimer ==>
      UpdateN(p, inp, level, deltaTime, n) ==
      p.(deathAnimationTimer := p.deathAnimationTimer + n, isClimbing := p.isClimbing && inp.climb)
    ensures n == DEATH_ANIMATION_DURATION - p.deathAnimationTimer ==>
      UpdateN(p, inp, level, deltaTime, n) ==
      Respawn(p.(deathAnimationTimer := DEATH_ANIMATION_DURATION, isClimbing := p.isClimbing && inp.climb))
    decreases n
  {
    if n > 0 {
      var q := Update(p, inp, level, deltaTime);
      DeadUpdate(p, inp, level, deltaTime);
      if p.deathAnimationTimer + 1 < DEATH_ANIMATION_DURATION {
        DeathCountdown(q, inp, level, deltaTime, n - 1);
        assert UpdateN(p, inp, level, deltaTime, n) == UpdateN(q, inp, level, deltaTime, n - 1);
      } else {
        assert UpdateN(q, inp, level, deltaTime, 0) == q;
      }
    }
  }

  /** An alive update never moves the respawn point, and a death it causes starts the animation from 0. */
  lemma AliveUpdateKeepsRespawnPoint(p: Player, inp: Input, level: Level, deltaTime: real)
    requires !p.isDead
    ensures var q := Update(p, inp, level, deltaTime);
      q.respawnX == p.respawnX && q.respawnY == p.respawnY && (q.isDead ==> q.deathAnimationTimer == 0)
  {
    var walled := CheckWallCollision(p, level.solidBlocks);
    var steered := Steer(walled, inp, deltaTime);
    assert !steered.isDead && steered.respawnX == p.respawnX && steered.respawnY == p.respawnY;
  }

  /**
   * The death/respawn round trip: an update that kills the player leaves it
   * where it died; 29 further updates keep it there, and the 30th puts it at
   * the respawn point with full charges and stamina.
   */
  lemma DeathRespawnRoundTrip(p: Player, inp: Input, level: Level, deltaTime: real)
    requires Valid(p) && !p.isDead && deltaTime >= 0.0
    requires Update(p, inp, level, deltaTime).isDead
    ensures var dead := Update(p, inp, level, deltaTime);
      && UpdateN(dead, inp, level, deltaTime, DEATH_ANIMATION_DURATION - 1).x == dead.x
      && UpdateN(dead, inp, level, deltaTime, DEATH_ANIMATION_DURATION - 1).y == dead.y
      && UpdateN(dead, inp, level, deltaTime, DEATH_ANIMATION_DURATION).x == p.respawnX
      && UpdateN(dead, inp, level, deltaTime, DEATH_ANIMATION_DURATION).y == p.respawnY
      && UpdateN(dead, inp, level, deltaTime, DEATH_ANIMATION_DURATION).dashCount == MAX_DASH_COUNT
      && UpdateN(dead, inp, level, deltaTime, DEATH_ANIMATION_DURATION).stamina == MAX_STAMINA
  {
    var dead := Update(p, inp, level, deltaTime);
    UpdatePreservesValid(p, inp, level, deltaTime);
    AliveUpdateKeepsRespawnPoint(p, inp, level, deltaTime);
    DeathCountdown(dead, inp, level, deltaTime, DEATH_ANIMATION_DURATION - 1);
    DeathCountdown(dead, inp, level, deltaTime, DEATH_ANIMATION_DURATION);
  }

  // ---------------------------------------------------------------- dash

  /** With no direction held the dash goes right at full speed. */
  lemma DefaultDashIsRight(inp: Input)
    requires !inp.left && !inp.right && !inp.up && !inp.down
    ensures Normalised(DashDirection(inp)) == (1.0, 0.0)
  {
  }

  /**
   * A dash along one axis has speed 12 on it and none on the other; right
   * wins over left and down over up; a diagonal dash has both components
   * non-zero and strictly smaller than 12 in size.
   */
  lemma DashVelocities(inp: Input)
    ensures var d := Normalised(DashDirection(inp));
      && (inp.right && !inp.up && !inp.down ==> (d.0 * DASH_SPEED, d.1 * DASH_SPEED) == (12.0, 0.0))
      && (inp.left && !inp.right && !inp.up && !inp.down ==> (d.0 * DASH_SPEED, d.1 * DASH_SPEED) == (-12.0, 0.0))
      && (inp.down && !inp.left && !inp.right ==> (d.0 * DASH_SPEED, d.1 * DASH_SPEED) == (0.0, 12.0))
      && (inp.up && !inp.down && !inp.left && !inp.right ==> (d.0 * DASH_SPEED, d.1 * DASH_SPEED) == (0.0, -12.0))
      && ((inp.left || inp.right) && (inp.up || inp.down) ==>
            && 0.0 < (if d.0 < 0.0 then -d.0 else d.0) * DASH_SPEED < DASH_SPEED
            && 0.0 < (if d.1 < 0.0 then -d.1 else d.1) * DASH_SPEED < DASH_SPEED)
  {
  }

  /**
   * A dash starts in an alive update exactly when the dash key is held, a
   * charge is left and no dash is running; it is still running at the end of
   * that update, whatever else happened (even death).
   */
  lemma DashStartsIff(p: Player, inp: Input, level: Level, deltaTime: real)
    requires Valid(p) && !p.isDead && !p.isDashing
    ensures Update(p, inp, level, deltaTime).isDashing <==> inp.dash && p.dashCount > 0
  {
    var walled := CheckWallCollision(p, level.solidBlocks);
    var climbed := HandleClimbing(walled, inp, deltaTime);
    var steered := Steer(walled, inp, deltaTime);
  }

  /**
   * Starting a dash spends exactly one charge: before collisions refill
   * anything, the steered player holds one charge fewer and moves with the
   * new dash velocity.
   */
  lemma DashStartSpendsOneCharge(p: Player, inp: Input, deltaTime: real)
    requires Valid(p) && !p.isDashing && inp.dash && p.dashCount > 0
    ensures var q := Steer(p, inp, deltaTime);
      && q.isDashing && q.dashTimer == 1
      && q.dashCount == p.dashCount - 1
      && q.velocityX == q.dashVelocityX && q.velocityY == q.dashVelocityY
      && q.dashVelocityX == Normalised(DashDirection(inp)).0 * DASH_SPEED
      && q.dashVelocityY == Normalised(DashDirection(inp)).1 * DASH_SPEED
  {
  }

  /**
   * While a running dash has frames left the player moves with the dash
   * velocity, whatever the keys; on the frame its timer reaches 15 the dash
   * ends and half of the dash velocity is kept.
   */
  lemma DashFrames(p: Player, inp: Input, deltaTime: real)
    requires Valid(p) && p.isDashing
    ensures var q := Steer(p, inp, deltaTime);
      && (p.dashTimer + 1 < DASH_DURATION ==>
            q.isDashing && q.dashTimer == p.dashTimer + 1 &&
            q.velocityX == p.dashVelocityX && q.velocityY == p.dashVelocityY)
      && (p.dashTimer + 1 >= DASH_DURATION ==>
            !q.isDashing && q.dashTimer == 0 &&
            2.0 * q.velocityX == p.dashVelocityX && 2.0 * q.velocityY == p.dashVelocityY)
  {
  }

  // ---------------------------------------------------------------- gravity, sliding and jumping

  /**
   * Falling freely (airborne, off walls, not dashing, not climbing, no dash
   * or jump) adds 0.5 to the vertical velocity per update, or 1.0 when down
   * is held while already falling.
   */
  lemma FreeFallGravity(p: Player, inp: Input, deltaTime: real)
    requires !p.onGround && !p.isClimbing && !p.isDashing && !p.isTouchingWall
    requires !inp.dash
    ensures Steer(p, inp, deltaTime).velocityY ==
      p.velocityY + (if inp.down && p.velocityY > 0.0 then FAST_FALL_GRAVITY else GRAVITY)
  {
  }

  /**
   * Against a wall without climbing there is no fast fall: whether or not
   * down is held, gravity adds 0.5 to the vertical velocity the climbing
   * phase left (the slide speed when pushing into the wall).
   */
  lemma WallGravityIsNeverFastFall(p: Player, inp: Input, deltaTime: real)
    requires p.isTouchingWall && !p.isClimbing && !p.isDashing && !p.onGround
    requires !inp.dash && !(inp.climb && p.stamina > 0.0)
    ensures Steer(p, inp, deltaTime).velocityY ==
      (if MovingTowardsWall(p, inp) then WALL_SLIDE_SPEED else p.velocityY) + GRAVITY
  {
    ClimbingAtWall(p, inp, deltaTime);
  }

  /**
   * The wall slide's stop is overwritten: pushing into a wall (without
   * climbing) keeps the run velocity, and gravity still adds to the slide
   * speed in the same update.
   */
  lemma WallSlideIsOverwritten(p: Player, inp: Input, deltaTime: real)
    requires p.isTouchingWall && p.wallDirection == 1 && !p.isClimbing && !p.isDashing && !p.onGround
    requires inp.right && !inp.left && !inp.climb && !inp.dash
    ensures Steer(p, inp, deltaTime).velocityX == MOVE_SPEED
    ensures Steer(p, inp, deltaTime).velocityY == WALL_SLIDE_SPEED + GRAVITY
  {
  }

  /**
   * The jump cooldown changes in steering only by a jump, which needs the
   * jump key, an expired cooldown, and the ground or a climb still running
   * after the climbing phase (touching a wall is not enough); it then reads 10.
   */
  lemma JumpNeedsCooldownAndFooting(p: Player, inp: Input, deltaTime: real)
    requires Valid(p)
    requires Steer(p, inp, deltaTime).jumpCooldownTimer != p.jumpCooldownTimer
    ensures inp.jump && p.jumpCooldownTimer <= 0 && (p.onGround || HandleClimbing(p, inp, deltaTime).isClimbing)
    ensures Steer(p, inp, deltaTime).jumpCooldownTimer == JUMP_COOLDOWN_DURATION
  {
  }

  /**
   * A ground jump: the vertical velocity becomes the jump strength, and since
   * the player has just left the ground, gravity is applied in the same update.
   */
  lemma GroundJump(p: Player, inp: Input, deltaTime: real)
    requires p.onGround && !p.isClimbing && !p.isDashing && !p.isTouchingWall
    requires inp.jump && !inp.dash && p.jumpCooldownTimer <= 0
    ensures var q := Steer(p, inp, deltaTime);
      q.velocityY == JUMP_STRENGTH + GRAVITY && !q.onGround && q.jumpCooldownTimer == JUMP_COOLDOWN_DURATION
  {
  }

  /**
   * A jump off the wall while moving away from it goes diagonally out: twice
   * the run speed away from the wall and 0.8 of the jump strength upwards,
   * ending the climb.
   */
  lemma ClimbingWallJump(p: Player, inp: Input, deltaTime: real)
    requires p.isTouchingWall && p.wallDirection == 1 && p.isClimbing && !p.isDashing && !p.onGround
    requires p.stamina > STAMINA_DRAIN_RATE * deltaTime && deltaTime >= 0.0
    requires inp.jump && inp.left && !inp.right && !inp.dash && p.jumpCooldownTimer <= 0
    ensures var q := Steer(p, inp, deltaTime);
      && q.velocityX == -2.0 * MOVE_SPEED
      && q.velocityY == JUMP_STRENGTH * 0.8 + GRAVITY
      && !q.isClimbing && q.jumpCooldownTimer == JUMP_COOLDOWN_DURATION
  {
  }

  // ---------------------------------------------------------------- climbing

  /** No update ends with the player climbing unless the climb key is held. */
  lemma ClimbNeedsKey(p: Player, inp: Input, level: Level, deltaTime: real)
    ensures Update(p, inp, level, deltaTime).isClimbing ==> inp.climb
  {
  }

  /** `n` consecutive climbing phases against the same wall with the same keys. */
  function ClimbN(p: Player, inp: Input, deltaTime: real, n: nat): Player
    decreases n
  {
    if n == 0 then p else HandleClimbing(ClimbN(p, inp, deltaTime, n - 1), inp, deltaTime)
  }

  /** The stamina left after `n` drains of `drain` each, one frame at a time. */
  function Drained(stamina: real, drain: real, n: nat): real
    decreases n
  {
    if n == 0 then stamina else Drained(stamina, drain, n - 1) - drain
  }

  /** `n` drains take `n` times the drain. */
  lemma {:induction false} DrainedIsLinear(stamina: real, drain: real, n: nat)
    ensures Drained(stamina, drain, n) == stamina - (n as real) * drain
    decreases n
  {
    if n > 0 {
      DrainedIsLinear(stamina, drain, n - 1);
      assert (n as real) * drain == ((n - 1) as real) * drain + drain;
    }
  }

  /**
   * Still at the wall, and climbing exactly while `left` stamina is positive,
   * holding `left` then and nothing otherwise.
   */
  predicate ClimbsOn(q: Player, left: real)
  {
    && q.isTouchingWall
    && (q.isClimbing <==> left > 0.0)
    && q.stamina == (if q.isClimbing then left else 0.0)
  }

  /** One climbing phase at the wall moves the climbing state on by one drain. */
  lemma ClimbStep(prev: Player, inp: Input, deltaTime: real, before: real)
    requires ClimbsOn(prev, before) && deltaTime >= 0.0
    ensures ClimbsOn(HandleClimbing(prev, inp, deltaTime), before - STAMINA_DRAIN_RATE * deltaTime)
  {
    ClimbingAtWall(prev, inp, deltaTime);
    if !prev.isClimbing {
      assert prev.stamina == 0.0 && before <= 0.0;
    }
  }

  /**
   * A climb that keeps its wall pays the drain every frame: after `n` frames
   * the player is still climbing exactly when the stamina it started with
   * exceeds `n` drains (`DrainedIsLinear`), and then holds the rest;
   * otherwise it has dropped off with no stamina and, with nothing left,
   * never starts climbing again.
   */
  lemma {:induction false} ClimbingDrains(p: Player, inp: Input, deltaTime: real, n: nat)
    requires p.isTouchingWall && p.isClimbing && p.stamina > 0.0 && deltaTime >= 0.0
    ensures ClimbsOn(ClimbN(p, inp, deltaTime, n), Drained(p.stamina, STAMINA_DRAIN_RATE * deltaTime, n))
    decreases n
  {
    if n > 0 {
      ClimbingDrains(p, inp, deltaTime, n - 1);
      var prev := ClimbN(p, inp, deltaTime, n - 1);
      var before := Drained(p.stamina, STAMINA_DRAIN_RATE * deltaTime, n - 1);
      ClimbStep(prev, inp, deltaTime, before);
      assert ClimbN(p, inp, deltaTime, n) == HandleClimbing(prev, inp, deltaTime);
      assert Drained(p.stamina, STAMINA_DRAIN_RATE * deltaTime, n) == before - STAMINA_DRAIN_RATE * deltaTime;
    }
  }

  // ---------------------------------------------------------------- coexisting flags

  /**
   * Dashing and climbing can both hold after an update: a running dash does
   * not stop the climb check, which only a dash start undoes. Here the
   * player dashes straight up along the left face of a block.
   */
  lemma DashingWhileClimbing()
    ensures var p := NewPlayer(70.0, 100.0).(isDashing := true, dashVelocityY := -12.0, dashCount := 1);
      var inp := Input(false, false, false, false, false, false, true);
      var level := Level([], [Rect(100, 0, 50, 500)], []);
      && Valid(p)
      && Update(p, inp, level, 1.0).isDashing
      && Update(p, inp, level, 1.0).isClimbing
  {
    var p := NewPlayer(70.0, 100.0).(isDashing := true, dashVelocityY := -12.0, dashCount := 1);
    var inp := Input(false, false, false, false, false, false, true);
    var block := Rect(100, 0, 50, 500);
    var level := Level([], [block], []);
    assert WallContact(p.x, p.y, block) == 1;
    var walled := CheckWallCollision(p, level.solidBlocks);
    assert walled.isTouchingWall;
    var steered := Steer(walled, inp, 1.0);
    assert steered.isClimbing && steered.isDashing && steered.velocityX == 0.0;
    var moved := TickJumpCooldown(Integrate(steered));
    assert moved.x == 70.0 && moved.y < 100.0;
    var grounded := GroundCheck(moved.(onGround := false));
    assert grounded == moved.(onGround := false);
    assert ResolvePlatforms(grounded, []) == grounded;
    assert !Hits(block, grounded.x, grounded.y);
    assert [block][1..] == [];
    assert ResolveSolidBlocks(grounded, [block]) == grounded;
  }
}
