/**
 * Checkpoints (Checkpoint.java): an activation box plus a respawn point given
 * as an offset from the box's corner, and a latch that activation sets.
 */
module Checkpoints {
  import opened MapElements

  datatype Checkpoint = Checkpoint(
    box: Rect,
    respawnOffsetX: int,
    respawnOffsetY: int,
    isActivated: bool,
    defaultActivated: bool)

  /** The constructor: a checkpoint starts activated exactly when it is activated by default. */
  function NewCheckpoint(x: int, y: int, width: int, height: int,
                         respawnOffsetX: int, respawnOffsetY: int,
                         defaultActivated: bool): (c: Checkpoint)
    ensures c.box == Rect(x, y, width, height)
    ensures c.respawnOffsetX == respawnOffsetX && c.respawnOffsetY == respawnOffsetY
    ensures c.isActivated == defaultActivated && c.defaultActivated == defaultActivated
  {
    Checkpoint(Rect(x, y, width, height), respawnOffsetX, respawnOffsetY, defaultActivated, defaultActivated)
  }

  /** `activate`: latches the checkpoint; nothing else changes. */
  function Activate(c: Checkpoint): (d: Checkpoint)
    ensures d.isActivated
    ensures d.box == c.box && d.defaultActivated == c.defaultActivated
    ensures d.respawnOffsetX == c.respawnOffsetX && d.respawnOffsetY == c.respawnOffsetY
  {
    c.(isActivated := true)
  }

  /** `getRespawnX`. */
  function RespawnX(c: Checkpoint): int { c.box.x + c.respawnOffsetX }

  /** `getRespawnY`. */
  function RespawnY(c: Checkpoint): int { c.box.y + c.respawnOffsetY }

  /** `setRespawnOffset`: moves the respawn point only. */
  function SetRespawnOffset(c: Checkpoint, offsetX: int, offsetY: int): (d: Checkpoint)
    ensures d.respawnOffsetX == offsetX && d.respawnOffsetY == offsetY
    ensures d.box == c.box && d.isActivated == c.isActivated && d.defaultActivated == c.defaultActivated
  {
    c.(respawnOffsetX := offsetX, respawnOffsetY := offsetY)
  }

  /** `isPlayerInActivationBox`: a copy of the strict overlap test on the box. */
  predicate IsPlayerInActivationBox(c: Checkpoint, px: real, py: real, pw: int, ph: int)
  {
    && px < (c.box.x + c.box.width) as real
    && px + pw as real > c.box.x as real
    && py < (c.box.y + c.box.height) as real
    && py + ph as real > c.box.y as real
  }

  /** The activation test is the inherited collision test on the box. */
  lemma ActivationBoxIsCollision(c: Checkpoint, px: real, py: real, pw: int, ph: int)
    ensures IsPlayerInActivationBox(c, px, py, pw, ph) <==> CheckCollision(c.box, px, py, pw, ph)
  {
  }

  /** Activating twice is activating once. */
  lemma ActivateIsIdempotent(c: Checkpoint)
    ensures Activate(Activate(c)) == Activate(c)
  {
  }

  /** The respawn point follows both the box (setPosition) and the offset (setRespawnOffset). */
  lemma RespawnPointAfterSetters(c: Checkpoint, x: int, y: int, offsetX: int, offsetY: int)
    ensures var d := SetRespawnOffset(c.(box := SetPosition(c.box, x, y)), offsetX, offsetY);
      RespawnX(d) == x + offsetX && RespawnY(d) == y + offsetY
  {
  }

  /** Every public mutator of a checkpoint. */
  datatype CheckpointOp =
    | ActivateOp
    | SetRespawnOffsetOp(offsetX: int, offsetY: int)
    | SetPositionOp(x: int, y: int)
    | SetSizeOp(width: int, height: int)

  function ApplyOp(c: Checkpoint, op: CheckpointOp): Checkpoint
  {
    match op
    case ActivateOp => Activate(c)
    case SetRespawnOffsetOp(ox, oy) => SetRespawnOffset(c, ox, oy)
    case SetPositionOp(x, y) => c.(box := SetPosition(c.box, x, y))
    case SetSizeOp(w, h) => c.(box := SetSize(c.box, w, h))
  }

  function ApplyOps(c: Checkpoint, ops: seq<CheckpointOp>): Checkpoint
    decreases |ops|
  {
    if |ops| == 0 then c else ApplyOps(ApplyOp(c, ops[0]), ops[1..])
  }

  /**
   * No sequence of operations clears the activation latch or changes
   * `defaultActivated`.
   */
  lemma {:induction false} ActivationIsPermanent(c: Checkpoint, ops: seq<CheckpointOp>)
    ensures c.isActivated ==> ApplyOps(c, ops).isActivated
    ensures ApplyOps(c, ops).defaultActivated == c.defaultActivated
    decreases |ops|
  {
    if |ops| > 0 {
      ActivationIsPermanent(ApplyOp(c, ops[0]), ops[1..]);
    }
  }
}
