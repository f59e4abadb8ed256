/**
 * The player's state (the fields of Player.java), its constants, and the
 * two whole-state transitions `die` and `respawn`.
 */
module PlayerState {
  import opened MapElements

  const PLAYER_WIDTH: int := 30
  const PLAYER_HEIGHT: int := 40
  const GRAVITY: real := 0.5
  const FAST_FALL_GRAVITY: real := 1.0
  const JUMP_STRENGTH: real := -12.0
  const MOVE_SPEED: real := 3.0
  const GROUND_Y: int := 550
  const DEATH_ANIMATION_DURATION: int := 30
  const DASH_DURATION: int := 15
  const DASH_SPEED: real := 12.0
  const MAX_DASH_COUNT: int := 2
  const MAX_STAMINA: real := 100.0
  const STAMINA_DRAIN_RATE: real := 0.4
  const WALL_SLIDE_SPEED: real := 1.0
  const CLIMB_MOVE_SPEED: real := 2.0
  const JUMP_COOLDOWN_DURATION: int := 10
  /** Horizontal tolerance, in pixels, of the wall-contact test. */
  const WALL_TOLERANCE: int := 5
  /** The player's x is clamped to [0, WORLD_WIDTH - PLAYER_WIDTH]. */
  const WORLD_WIDTH: int := 800
  /**
   * Each component of a normalised diagonal dash direction, standing for
   * 1/sqrt(2); the proofs use only that it lies strictly between 0 and 1.
   */
  const DIAGONAL_UNIT: real := 0.7071067811865475

  /** The seven input flags the key listeners maintain. */
  datatype Input = Input(left: bool, right: bool, up: bool, down: bool,
                         jump: bool, dash: bool, climb: bool)

  /** `dashColor`, chosen from the charges held when a dash starts; `NoDash` before the first dash. */
  datatype DashTier = NoDash | Pink | Red | Blue

  /** The map geometry the player collides with. */
  datatype Level = Level(platforms: seq<Rect>, solidBlocks: seq<Rect>, spikes: seq<Rect>)

  datatype Player = Player(
    x: real, y: real,
    velocityX: real, velocityY: real,
    onGround: bool,
    isDead: bool, deathAnimationTimer: int,
    respawnX: real, respawnY: real,
    isDashing: bool, dashTimer: int, dashCount: int,
    dashVelocityX: real, dashVelocityY: real, dashTier: DashTier,
    isClimbing: bool, isTouchingWall: bool, wallDirection: int,
    stamina: real,
    jumpCooldownTimer: int)

  /** The counters' ranges, which every update keeps. */
  predicate Valid(p: Player)
  {
    && 0 <= p.dashCount <= MAX_DASH_COUNT
    && 0.0 <= p.stamina <= MAX_STAMINA
    && 0 <= p.jumpCooldownTimer <= JUMP_COOLDOWN_DURATION
    && 0 <= p.dashTimer < DASH_DURATION
    && 0 <= p.deathAnimationTimer < DEATH_ANIMATION_DURATION
    && -1 <= p.wallDirection <= 1
  }

  /** The constructor `Player(x, y)`: at rest at (x, y), which is also the respawn point. */
  function NewPlayer(x: real, y: real): (p: Player)
    ensures Valid(p)
    ensures p.x == x && p.y == y && p.respawnX == x && p.respawnY == y
    ensures p.velocityX == 0.0 && p.velocityY == 0.0
    ensures p.dashCount == MAX_DASH_COUNT && p.stamina == MAX_STAMINA
    ensures !p.isDead && !p.isDashing && !p.isClimbing && !p.onGround
  {
    Player(x, y, 0.0, 0.0, false,
           false, 0, x, y,
           false, 0, MAX_DASH_COUNT, 0.0, 0.0, NoDash,
           false, false, 0, MAX_STAMINA,
           0)
  }

  /** `setRespawnPoint`. */
  function SetRespawnPoint(p: Player, x: real, y: real): (q: Player)
    ensures q.respawnX == x && q.respawnY == y
    ensures q.x == p.x && q.y == p.y && q.isDead == p.isDead
  {
    p.(respawnX := x, respawnY := y)
  }

  /**
   * `die`: starts the death animation and stops the player. The dash and
   * climb flags are left as they were.
   */
  function Die(p: Player): (q: Player)
    ensures q.isDead && q.deathAnimationTimer == 0
    ensures q.velocityX == 0.0 && q.velocityY == 0.0
    ensures q.x == p.x && q.y == p.y
    ensures q.isDashing == p.isDashing && q.isClimbing == p.isClimbing
    ensures q.dashCount == p.dashCount && q.stamina == p.stamina && q.onGround == p.onGround
    ensures Valid(p) ==> Valid(q)
  {
    p.(isDead := true, deathAnimationTimer := 0, velocityX := 0.0, velocityY := 0.0)
  }

  /**
   * `respawn`: back to the respawn point, at rest, with full dash charges and
   * stamina, neither dashing, climbing, dead nor on the ground. The jump
   * cooldown, wall contact and last dash velocity are kept.
   */
  function Respawn(p: Player): (q: Player)
    ensures q.x == p.respawnX && q.y == p.respawnY
    ensures q.velocityX == 0.0 && q.velocityY == 0.0
    ensures q.dashCount == MAX_DASH_COUNT && q.stamina == MAX_STAMINA
    ensures !q.isDashing && !q.isClimbing && !q.onGround && !q.isDead
    ensures q.deathAnimationTimer == 0 && q.dashTimer == 0
    ensures q.respawnX == p.respawnX && q.respawnY == p.respawnY
    ensures q.jumpCooldownTimer == p.jumpCooldownTimer
    ensures q.isTouchingWall == p.isTouchingWall && q.wallDirection == p.wallDirection
    ensures q.dashVelocityX == p.dashVelocityX && q.dashVelocityY == p.dashVelocityY && q.dashTier == p.dashTier
    ensures Valid(p) ==> Valid(q)
  {
    p.(isDead := false, deathAnimationTimer := 0,
       x := p.respawnX, y := p.respawnY,
       velocityX := 0.0, velocityY := 0.0,
       onGround := false,
       dashCount := MAX_DASH_COUNT,
       stamina := MAX_STAMINA,
       isDashing := false, dashTimer := 0,
       isClimbing := false)
  }
}
