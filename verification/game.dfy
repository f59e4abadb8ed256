/**
 * The game's world bookkeeping (Game.java): the unified element array, the
 * start-up choice of spawn and respawn point, checkpoint activation, and the
 * order of a frame.
 */
module Game {
  import opened Wrappers
  import opened MapElements
  import opened Checkpoints
  import opened EnergyBeans
  import opened PlayerState
  import opened PlayerStep
  import opened MapDesign
  import PlayerProofs

  /** One entry of the unified `MapElement[]`, tagged by its run-time class. */
  datatype Element =
    | PlatformElement(rect: Rect)
    | SolidBlockElement(rect: Rect)
    | SpikeElement(rect: Rect)
    | CheckpointElement(checkpoint: Checkpoint)
    | EnergyBeanElement(bean: EnergyBean)

  /** The running game: the player and the element arrays it owns. */
  datatype World = World(
    player: Player,
    level: Level,
    checkpoints: seq<Checkpoint>,
    energyBeans: seq<EnergyBean>)

  /**
   * `createUnifiedMapElementsArray`: platforms, solid blocks, spikes,
   * checkpoints, then energy beans, each group in its own order.
   */
  method CreateUnifiedMapElementsArray(level: Level, checkpoints: seq<Checkpoint>, energyBeans: seq<EnergyBean>)
    returns (elements: seq<Element>)
    ensures |elements| == |level.platforms| + |level.solidBlocks| + |level.spikes| + |checkpoints| + |energyBeans|
    ensures forall i :: 0 <= i < |level.platforms| ==> elements[i] == PlatformElement(level.platforms[i])
    ensures var o := |level.platforms|;
      forall i :: 0 <= i < |level.solidBlocks| ==> elements[o + i] == SolidBlockElement(level.solidBlocks[i])
    ensures var o := |level.platforms| + |level.solidBlocks|;
      forall i :: 0 <= i < |level.spikes| ==> elements[o + i] == SpikeElement(level.spikes[i])
    ensures var o := |level.platforms| + |level.solidBlocks| + |level.spikes|;
      forall i :: 0 <= i < |checkpoints| ==> elements[o + i] == CheckpointElement(checkpoints[i])
    ensures var o := |level.platforms| + |level.solidBlocks| + |level.spikes| + |checkpoints|;
      forall i :: 0 <= i < |energyBeans| ==> elements[o + i] == EnergyBeanElement(energyBeans[i])
  {
    var p, s, k, c := |level.platforms|, |level.solidBlocks|, |level.spikes|, |checkpoints|;
    elements := [];
    for i := 0 to p
      invariant |elements| == i
      invariant forall j :: 0 <= j < i ==> elements[j] == PlatformElement(level.platforms[j])
    {
      elements := elements + [PlatformElement(level.platforms[i])];
    }
    for i := 0 to s
      invariant |elements| == p + i
      invariant forall j :: 0 <= j < p ==> elements[j] == PlatformElement(level.platforms[j])
      invariant forall j :: 0 <= j < i ==> elements[p + j] == SolidBlockElement(level.solidBlocks[j])
    {
      elements := elements + [SolidBlockElement(level.solidBlocks[i])];
    }
    for i := 0 to k
      invariant |elements| == p + s + i
      invariant forall j :: 0 <= j < p ==> elements[j] == PlatformElement(level.platforms[j])
      invariant forall j :: 0 <= j < s ==> elements[p + j] == SolidBlockElement(level.solidBlocks[j])
      invariant forall j :: 0 <= j < i ==> elements[p + s + j] == SpikeElement(level.spikes[j])
    {
      elements := elements + [SpikeElement(level.spikes[i])];
    }
    for i := 0 to c
      invariant |elements| == p + s + k + i
      invariant forall j :: 0 <= j < p ==> elements[j] == PlatformElement(level.platforms[j])
      invariant forall j :: 0 <= j < s ==> elements[p + j] == SolidBlockElement(level.solidBlocks[j])
      invariant forall j :: 0 <= j < k ==> elements[p + s + j] == SpikeElement(level.spikes[j])
      invariant forall j :: 0 <= j < i ==> elements[p + s + k + j] == CheckpointElement(checkpoints[j])
    {
      elements := elements + [CheckpointElement(checkpoints[i])];
    }
    for i := 0 to |energyBeans|
      invariant |elements| == p + s + k + c + i
      invariant forall j :: 0 <= j < p ==> elements[j] == PlatformElement(level.platforms[j])
      invariant forall j :: 0 <= j < s ==> elements[p + j] == SolidBlockElement(level.solidBlocks[j])
      invariant forall j :: 0 <= j < k ==> elements[p + s + j] == SpikeElement(level.spikes[j])
      invariant forall j :: 0 <= j < c ==> elements[p + s + k + j] == CheckpointElement(checkpoints[j])
      invariant forall j :: 0 <= j < i ==> elements[p + s + k + c + j] == EnergyBeanElement(energyBeans[j])
    {
      elements := elements + [EnergyBeanElement(energyBeans[i])];
    }
  }

  /**
   * Checkpoint `i` is the latest activated one: activated with a time above
   * 0, no activated checkpoint has a later time, and none before it has the
   * same time (the first of equal maxima wins).
   */
  predicate IsLatestActivated(checkpoints: seq<Checkpoint>, activationTime: seq<int>, i: int)
    requires |activationTime| == |checkpoints|
  {
    && 0 <= i < |checkpoints|
    && checkpoints[i].isActivated && activationTime[i] > 0
    && (forall j :: 0 <= j < |checkpoints| && checkpoints[j].isActivated ==> activationTime[j] <= activationTime[i])
    && (forall j :: 0 <= j < i && checkpoints[j].isActivated ==> activationTime[j] < activationTime[i])
  }

  /** Some checkpoint is activated with a time above 0. */
  predicate AnyActivated(checkpoints: seq<Checkpoint>, activationTime: seq<int>)
    requires |activationTime| == |checkpoints|
  {
    exists i :: 0 <= i < |checkpoints| && checkpoints[i].isActivated && activationTime[i] > 0
  }

  /** At most one checkpoint is the latest activated one. */
  lemma LatestIsUnique(checkpoints: seq<Checkpoint>, activationTime: seq<int>, i: int, j: int)
    requires |activationTime| == |checkpoints|
    requires IsLatestActivated(checkpoints, activationTime, i) && IsLatestActivated(checkpoints, activationTime, j)
    ensures i == j
  {
  }

  /**
   * `getLatestActivatedCheckpoint`, with `activationTime[i]` standing for
   * `checkpoints[i].getActivationTime()`: the first activated checkpoint
   * whose time is strictly the greatest and above 0, or none.
   */
  method GetLatestActivatedCheckpoint(checkpoints: seq<Checkpoint>, activationTime: seq<int>)
    returns (latest: Option<nat>)
    requires |activationTime| == |checkpoints|
    ensures latest.None? <==> !AnyActivated(checkpoints, activationTime)
    ensures latest.Some? ==> IsLatestActivated(checkpoints, activationTime, latest.value)
  {
    latest := None;
    var latestActivationTime := 0;
    for i := 0 to |checkpoints|
      invariant latestActivationTime >= 0
      invariant latest.None? ==> latestActivationTime == 0
      invariant latest.None? <==>
        forall j :: 0 <= j < i ==> !(checkpoints[j].isActivated && activationTime[j] > 0)
      invariant latest.Some? ==>
        && latest.value < i
        && checkpoints[latest.value].isActivated
        && activationTime[latest.value] == latestActivationTime > 0
        && (forall j :: latest.value < j < i && checkpoints[j].isActivated ==> activationTime[j] <= latestActivationTime)
        && (forall j :: 0 <= j < latest.value && checkpoints[j].isActivated ==> activationTime[j] < latestActivationTime)
      invariant forall j :: 0 <= j < i && checkpoints[j].isActivated ==> activationTime[j] <= latestActivationTime
    {
      if checkpoints[i].isActivated && activationTime[i] > latestActivationTime {
        latestActivationTime := activationTime[i];
        latest := Some(i);
      }
    }
  }

  /** The spawn the latest activated checkpoint gives, or (100, 900) without one. */
  function SpawnPoint(checkpoints: seq<Checkpoint>, latest: Option<nat>): (real, real)
    requires latest.Some? ==> latest.value < |checkpoints|
  {
    match latest
    case Some(i) => (RespawnX(checkpoints[i]) as real, RespawnY(checkpoints[i]) as real)
    case None => (100.0, 900.0)
  }

  /**
   * The `Game` constructor after the map is loaded: the player starts at the
   * spawn point, and `setInitialRespawnPoint` makes the same point its
   * respawn point. `spawnFrom` names the checkpoint the point is taken from.
   */
  method StartGame(map_: MapData, checkpoints: seq<Checkpoint>, energyBeans: seq<EnergyBean>, activationTime: seq<int>)
    returns (w: World, elements: seq<Element>, spawnFrom: Option<nat>)
    requires |activationTime| == |checkpoints|
    ensures w.level == Level(map_.platforms, map_.solidBlocks, map_.spikes)
    ensures w.checkpoints == checkpoints && w.energyBeans == energyBeans
    ensures |elements| == TotalElementCount(map_) + |checkpoints| + |energyBeans|
    ensures PlayerState.Valid(w.player) && !w.player.isDead
    ensures w.player.x == w.player.respawnX && w.player.y == w.player.respawnY
    ensures spawnFrom.None? <==> !AnyActivated(checkpoints, activationTime)
    ensures spawnFrom.None? ==> (w.player.x, w.player.y) == (100.0, 900.0)
    ensures spawnFrom.Some? ==>
      && IsLatestActivated(checkpoints, activationTime, spawnFrom.value)
      && (w.player.x, w.player.y) ==
         (RespawnX(checkpoints[spawnFrom.value]) as real, RespawnY(checkpoints[spawnFrom.value]) as real)
  {
    var level := Level(map_.platforms, map_.solidBlocks, map_.spikes);
    elements := CreateUnifiedMapElementsArray(level, checkpoints, energyBeans);
    var initial := GetLatestActivatedCheckpoint(checkpoints, activationTime);
    var spawn := SpawnPoint(checkpoints, initial);
    var player := NewPlayer(spawn.0, spawn.1);
    var chosen := GetLatestActivatedCheckpoint(checkpoints, activationTime);
    var respawn := SpawnPoint(checkpoints, chosen);
    player := SetRespawnPoint(player, respawn.0, respawn.1);
    if chosen.Some? {
      LatestIsUnique(checkpoints, activationTime, initial.value, chosen.value);
    }
    w := World(player, level, checkpoints, energyBeans);
    spawnFrom := initial;
  }

  /** `updateEnergyBeans`: every bean advances one frame. */
  function UpdateEnergyBeans(beans: seq<EnergyBean>, deltaTime: real): (r: seq<EnergyBean>)
    ensures |r| == |beans|
    ensures forall i :: 0 <= i < |beans| ==> r[i] == EnergyBeans.Update(beans[i], deltaTime)
  {
    seq(|beans|, i requires 0 <= i < |beans| => EnergyBeans.Update(beans[i], deltaTime))
  }

  /**
   * `checkCheckpointActivation`: activates every not-yet-activated
   * checkpoint whose box the 30 x 40 player box at (px, py) overlaps; every
   * other checkpoint is left as it was.
   */
  function CheckCheckpointActivation(checkpoints: seq<Checkpoint>, px: real, py: real): (r: seq<Checkpoint>)
    ensures |r| == |checkpoints|
    ensures forall i :: 0 <= i < |checkpoints| ==>
      r[i].isActivated == (checkpoints[i].isActivated || IsPlayerInActivationBox(checkpoints[i], px, py, 30, 40))
    ensures forall i :: 0 <= i < |checkpoints| ==> r[i] == checkpoints[i].(isActivated := r[i].isActivated)
  {
    seq(|checkpoints|, i requires 0 <= i < |checkpoints| =>
      var c := checkpoints[i];
      if IsPlayerInActivationBox(c, px, py, 30, 40) && !c.isActivated then Activate(c) else c)
  }

  /** The facts about one player update that a game frame passes on. */
  lemma PlayerFrame(p: Player, inp: Input, level: Level, deltaTime: real)
    ensures var q := PlayerStep.Update(p, inp, level, deltaTime);
      && (!p.isDead ==> q.respawnX == p.respawnX && q.respawnY == p.respawnY)
      && (PlayerState.Valid(p) && deltaTime >= 0.0 ==> PlayerState.Valid(q))
      && (q.isClimbing ==> inp.climb)
  {
    if !p.isDead {
      PlayerProofs.AliveUpdateKeepsRespawnPoint(p, inp, level, deltaTime);
    }
    if PlayerState.Valid(p) && deltaTime >= 0.0 {
      PlayerProofs.UpdatePreservesValid(p, inp, level, deltaTime);
    }
    PlayerProofs.ClimbNeedsKey(p, inp, level, deltaTime);
  }

  /**
   * `Game.update`: the player first, then every energy bean, then
   * checkpoint activation against the player's new position.
   */
  function Step(w: World, inp: Input, deltaTime: real): (v: World)
    ensures v.level == w.level
    ensures |v.checkpoints| == |w.checkpoints|
    ensures forall i :: 0 <= i < |w.checkpoints| ==>
      && (v.checkpoints[i].isActivated <==>
            w.checkpoints[i].isActivated || IsPlayerInActivationBox(w.checkpoints[i], v.player.x, v.player.y, 30, 40))
      && v.checkpoints[i] == w.checkpoints[i].(isActivated := v.checkpoints[i].isActivated)
    ensures |v.energyBeans| == |w.energyBeans|
    ensures forall i :: 0 <= i < |w.energyBeans| ==>
      v.energyBeans[i].box == w.energyBeans[i].box && (!w.energyBeans[i].isConsumed ==> v.energyBeans[i] == w.energyBeans[i])
    ensures !w.player.isDead ==> v.player.respawnX == w.player.respawnX && v.player.respawnY == w.player.respawnY
    ensures PlayerState.Valid(w.player) && deltaTime >= 0.0 ==> PlayerState.Valid(v.player)
    ensures v.player.isClimbing ==> inp.climb
  {
    PlayerFrame(w.player, inp, w.level, deltaTime);
    var player := PlayerStep.Update(w.player, inp, w.level, deltaTime);
    var beans := UpdateEnergyBeans(w.energyBeans, deltaTime);
    var checkpoints := CheckCheckpointActivation(w.checkpoints, player.x, player.y);
    World(player, w.level, checkpoints, beans)
  }

  /** Frame after frame, one input per frame. */
  function StepN(w: World, inputs: seq<Input>, deltaTime: real): World
    decreases |inputs|
  {
    if |inputs| == 0 then w else StepN(Step(w, inputs[0], deltaTime), inputs[1..], deltaTime)
  }

  /**
   * Checkpoint activation never reaches the player: whatever the inputs,
   * the respawn point stays the one chosen at start-up, the checkpoint
   * list keeps its length and an activated checkpoint stays activated.
   */
  lemma {:induction false} RespawnPointIsFixed(w: World, inputs: seq<Input>, deltaTime: real)
    ensures var v := StepN(w, inputs, deltaTime);
      && v.player.respawnX == w.player.respawnX && v.player.respawnY == w.player.respawnY
      && |v.checkpoints| == |w.checkpoints|
      && (forall i :: 0 <= i < |w.checkpoints| && w.checkpoints[i].isActivated ==> v.checkpoints[i].isActivated)
    decreases |inputs|
  {
    if |inputs| > 0 {
      var next := Step(w, inputs[0], deltaTime);
      if !w.player.isDead {
        PlayerProofs.AliveUpdateKeepsRespawnPoint(w.player, inputs[0], w.level, deltaTime);
      }
      RespawnPointIsFixed(next, inputs[1..], deltaTime);
    }
  }

  /** Standing in an inactive checkpoint's box for one frame activates it, and nothing else about it changes. */
  lemma EnteringActivates(w: World, inp: Input, deltaTime: real, i: nat)
    requires i < |w.checkpoints|
    requires var q := PlayerStep.Update(w.player, inp, w.level, deltaTime);
      IsPlayerInActivationBox(w.checkpoints[i], q.x, q.y, 30, 40)
    ensures Step(w, inp, deltaTime).checkpoints[i] == Activate(w.checkpoints[i])
  {
  }
}

