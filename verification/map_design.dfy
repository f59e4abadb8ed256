/**
 * Map data and its builder (MapDesign.java): three ordered element lists
 * and an append-only builder over them.
 */
module MapDesign {
  import opened MapElements

  /** `MapData`: the platforms, solid blocks and spikes of a map, in insertion order. */
  datatype MapData = MapData(platforms: seq<Rect>, solidBlocks: seq<Rect>, spikes: seq<Rect>)

  /** The `MapData` constructor: three empty lists. */
  function NewMapData(): (m: MapData)
    ensures m.platforms == [] && m.solidBlocks == [] && m.spikes == []
    ensures TotalElementCount(m) == 0
  {
    MapData([], [], [])
  }

  /** `getTotalElementCount`. */
  function TotalElementCount(m: MapData): (n: nat)
    ensures n == 0 <==> m.platforms == [] && m.solidBlocks == [] && m.spikes == []
  {
    |m.platforms| + |m.solidBlocks| + |m.spikes|
  }

  /** `createEmptyMap`. */
  function CreateEmptyMap(): (m: MapData)
    ensures m == NewMapData()
    ensures TotalElementCount(m) == 0
  {
    NewMapData()
  }

  /** `MapBuilder`: wraps the map data being accumulated. */
  datatype MapBuilder = MapBuilder(mapData: MapData)

  function NewMapBuilder(): (b: MapBuilder)
    ensures b.mapData == NewMapData()
  {
    MapBuilder(NewMapData())
  }

  /** `addPlatform`: appends one platform; the other lists are unchanged. */
  function AddPlatform(b: MapBuilder, x: int, y: int, width: int, height: int): (c: MapBuilder)
    ensures c.mapData.platforms == b.mapData.platforms + [Rect(x, y, width, height)]
    ensures c.mapData.solidBlocks == b.mapData.solidBlocks && c.mapData.spikes == b.mapData.spikes
    ensures TotalElementCount(c.mapData) == TotalElementCount(b.mapData) + 1
  {
    MapBuilder(b.mapData.(platforms := b.mapData.platforms + [Rect(x, y, width, height)]))
  }

  /** `addSolidBlock`: appends one solid block; the other lists are unchanged. */
  function AddSolidBlock(b: MapBuilder, x: int, y: int, width: int, height: int): (c: MapBuilder)
    ensures c.mapData.solidBlocks == b.mapData.solidBlocks + [Rect(x, y, width, height)]
    ensures c.mapData.platforms == b.mapData.platforms && c.mapData.spikes == b.mapData.spikes
    ensures TotalElementCount(c.mapData) == TotalElementCount(b.mapData) + 1
  {
    MapBuilder(b.mapData.(solidBlocks := b.mapData.solidBlocks + [Rect(x, y, width, height)]))
  }

  /** `addSpike`: appends one spike; the other lists are unchanged. */
  function AddSpike(b: MapBuilder, x: int, y: int, width: int, height: int): (c: MapBuilder)
    ensures c.mapData.spikes == b.mapData.spikes + [Rect(x, y, width, height)]
    ensures c.mapData.platforms == b.mapData.platforms && c.mapData.solidBlocks == b.mapData.solidBlocks
    ensures TotalElementCount(c.mapData) == TotalElementCount(b.mapData) + 1
  {
    MapBuilder(b.mapData.(spikes := b.mapData.spikes + [Rect(x, y, width, height)]))
  }

  /** `build`: the data accumulated so far. */
  function Build(b: MapBuilder): MapData
  {
    b.mapData
  }

  /** One call on a builder. */
  datatype BuildStep =
    | AddPlatformStep(r: Rect)
    | AddSolidBlockStep(r: Rect)
    | AddSpikeStep(r: Rect)

  function ApplyStep(b: MapBuilder, s: BuildStep): MapBuilder
  {
    match s
    case AddPlatformStep(r) => AddPlatform(b, r.x, r.y, r.width, r.height)
    case AddSolidBlockStep(r) => AddSolidBlock(b, r.x, r.y, r.width, r.height)
    case AddSpikeStep(r) => AddSpike(b, r.x, r.y, r.width, r.height)
  }

  /** A chain of builder calls, first to last. */
  function ApplySteps(b: MapBuilder, steps: seq<BuildStep>): MapBuilder
    decreases |steps|
  {
    if |steps| == 0 then b else ApplySteps(ApplyStep(b, steps[0]), steps[1..])
  }

  /** The rectangles of one kind among the steps, in call order. */
  function PlatformsOf(steps: seq<BuildStep>): seq<Rect>
  {
    if |steps| == 0 then []
    else (if steps[0].AddPlatformStep? then [steps[0].r] else []) + PlatformsOf(steps[1..])
  }

  function SolidBlocksOf(steps: seq<BuildStep>): seq<Rect>
  {
    if |steps| == 0 then []
    else (if steps[0].AddSolidBlockStep? then [steps[0].r] else []) + SolidBlocksOf(steps[1..])
  }

  function SpikesOf(steps: seq<BuildStep>): seq<Rect>
  {
    if |steps| == 0 then []
    else (if steps[0].AddSpikeStep? then [steps[0].r] else []) + SpikesOf(steps[1..])
  }

  /** Running steps on a builder appends each kind's rectangles, in call order, to that kind's list. */
  lemma {:induction false} ApplyStepsAppends(b: MapBuilder, steps: seq<BuildStep>)
    ensures Build(ApplySteps(b, steps)) ==
      MapData(b.mapData.platforms + PlatformsOf(steps),
              b.mapData.solidBlocks + SolidBlocksOf(steps),
              b.mapData.spikes + SpikesOf(steps))
    decreases |steps|
  {
    if |steps| > 0 {
      var c := ApplyStep(b, steps[0]);
      ApplyStepsAppends(c, steps[1..]);
      assert c.mapData.platforms + PlatformsOf(steps[1..]) == b.mapData.platforms + PlatformsOf(steps);
      assert c.mapData.solidBlocks + SolidBlocksOf(steps[1..]) == b.mapData.solidBlocks + SolidBlocksOf(steps);
      assert c.mapData.spikes + SpikesOf(steps[1..]) == b.mapData.spikes + SpikesOf(steps);
    }
  }

  lemma {:induction false} KindCountsSum(steps: seq<BuildStep>)
    ensures |PlatformsOf(steps)| + |SolidBlocksOf(steps)| + |SpikesOf(steps)| == |steps|
    decreases |steps|
  {
    if |steps| > 0 {
      KindCountsSum(steps[1..]);
    }
  }

  /**
   * `build` on a fresh builder returns exactly the added elements, each kind
   * in insertion order, and the total count is the number of calls.
   */
  lemma BuildFromFresh(steps: seq<BuildStep>)
    ensures Build(ApplySteps(NewMapBuilder(), steps)) ==
      MapData(PlatformsOf(steps), SolidBlocksOf(steps), SpikesOf(steps))
    ensures TotalElementCount(Build(ApplySteps(NewMapBuilder(), steps))) == |steps|
  {
    ApplyStepsAppends(NewMapBuilder(), steps);
    KindCountsSum(steps);
  }
}
