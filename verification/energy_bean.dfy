/**
 * Energy beans (EnergyBean.java): pickups that, once consumed, come back
 * after a fixed number of updates.
 */
module EnergyBeans {
  import opened MapElements

  const DEFAULT_SIZE: int := 20
  const RECOVERY_TIME: int := 120

  datatype EnergyBean = EnergyBean(box: Rect, isConsumed: bool, recoveryTimer: int)

  /** The state every bean keeps: an available bean has a zero timer, and the timer stays below the recovery time. */
  predicate Valid(b: EnergyBean)
  {
    && (!b.isConsumed ==> b.recoveryTimer == 0)
    && 0 <= b.recoveryTimer < RECOVERY_TIME
  }

  /** `EnergyBean(x, y)`: a square of the default size, available. */
  function NewEnergyBean(x: int, y: int): (b: EnergyBean)
    ensures b.box == Rect(x, y, DEFAULT_SIZE, DEFAULT_SIZE)
    ensures Valid(b) && !b.isConsumed
  {
    EnergyBean(Rect(x, y, DEFAULT_SIZE, DEFAULT_SIZE), false, 0)
  }

  /** `EnergyBean(x, y, size)`: a square of the given size, available. */
  function NewSizedEnergyBean(x: int, y: int, size: int): (b: EnergyBean)
    ensures b.box == Rect(x, y, size, size)
    ensures Valid(b) && !b.isConsumed
  {
    EnergyBean(Rect(x, y, size, size), false, 0)
  }

  /** `consume`: succeeds only on an available bean. */
  function Consume(b: EnergyBean): (r: (bool, EnergyBean))
    ensures r.0 <==> !b.isConsumed
    ensures r.0 ==> r.1 == b.(isConsumed := true, recoveryTimer := 0)
    ensures !r.0 ==> r.1 == b
  {
    if !b.isConsumed then (true, b.(isConsumed := true, recoveryTimer := 0))
    else (false, b)
  }

  /** `update`: one frame of recovery; `deltaTime` plays no part. */
  function Update(b: EnergyBean, deltaTime: real): (c: EnergyBean)
    ensures !b.isConsumed ==> c == b
    ensures c.box == b.box
    ensures Valid(b) ==> Valid(c)
  {
    if b.isConsumed then
      var timer := b.recoveryTimer + 1;
      if timer >= RECOVERY_TIME then b.(isConsumed := false, recoveryTimer := 0)
      else b.(recoveryTimer := timer)
    else b
  }

  /** The frame time has no effect on a bean. */
  lemma UpdateIgnoresDeltaTime(b: EnergyBean, dt1: real, dt2: real)
    ensures Update(b, dt1) == Update(b, dt2)
  {
  }

  /** `n` consecutive updates. */
  function UpdateN(b: EnergyBean, n: nat, deltaTime: real): EnergyBean
    decreases n
  {
    if n == 0 then b else UpdateN(Update(b, deltaTime), n - 1, deltaTime)
  }

  /** `getRecoveryProgress`: 1 when available, otherwise the elapsed fraction of the recovery time. */
  function RecoveryProgress(b: EnergyBean): (progress: real)
    requires Valid(b)
    ensures 0.0 <= progress <= 1.0
    ensures !b.isConsumed <==> progress == 1.0
    ensures b.isConsumed ==> progress * RECOVERY_TIME as real == b.recoveryTimer as real
  {
    if !b.isConsumed then 1.0 else b.recoveryTimer as real / RECOVERY_TIME as real
  }

  /** The overriding `checkCollision`: the same strict overlap on the bean's square. */
  predicate CheckCollision(b: EnergyBean, px: real, py: real, pw: int, ph: int)
  {
    && px < (b.box.x + b.box.width) as real
    && px + pw as real > b.box.x as real
    && py < (b.box.y + b.box.height) as real
    && py + ph as real > b.box.y as real
  }

  lemma CollisionMatchesBase(b: EnergyBean, px: real, py: real, pw: int, ph: int)
    ensures CheckCollision(b, px, py, pw, ph) <==> MapElements.CheckCollision(b.box, px, py, pw, ph)
  {
  }

  /**
   * A consumed bean whose timer reads t stays consumed for the next
   * `RECOVERY_TIME - t - 1` updates, its timer counting up by one per update,
   * and is available again after exactly `RECOVERY_TIME - t`.
   */
  lemma {:induction false} RecoveryCountdown(b: EnergyBean, n: nat, deltaTime: real)
    requires Valid(b) && b.isConsumed
    requires n <= RECOVERY_TIME - b.recoveryTimer
    ensures n < RECOVERY_TIME - b.recoveryTimer ==>
      UpdateN(b, n, deltaTime) == b.(recoveryTimer := b.recoveryTimer + n)
    ensures n == RECOVERY_TIME - b.recoveryTimer ==>
      UpdateN(b, n, deltaTime) == b.(isConsumed := false, recoveryTimer := 0)
    decreases n
  {
    if n > 0 {
      var c := Update(b, deltaTime);
      if b.recoveryTimer + 1 < RECOVERY_TIME {
        RecoveryCountdown(c, n - 1, deltaTime);
      } else {
        assert n == 1;
        assert UpdateN(c, 0, deltaTime) == c;
      }
    }
  }

  /**
   * After a successful `consume`, the bean is available again after exactly
   * `RECOVERY_TIME` updates; before that it is consumed, so every further
   * `consume` fails and changes nothing.
   */
  lemma ConsumeThenRecover(b: EnergyBean, n: nat, deltaTime: real)
    requires Valid(b) && !b.isConsumed
    requires n <= RECOVERY_TIME
    ensures var c := UpdateN(Consume(b).1, n, deltaTime);
      && (n < RECOVERY_TIME ==> c.isConsumed && Consume(c) == (false, c))
      && (n == RECOVERY_TIME ==> c == b)
  {
    RecoveryCountdown(Consume(b).1, n, deltaTime);
  }
}
