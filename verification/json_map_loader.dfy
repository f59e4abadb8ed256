/**
 * Turning a parsed map configuration into map data (JsonMapLoader.java).
 * Reading and parsing the file is outside the model: its outcome is an input.
 */
module JsonMapLoader {
  import opened Wrappers
  import opened MapElements
  import opened MapDesign

  /** `ElementData`: one element entry of the configuration. */
  datatype ElementData = ElementData(x: int, y: int, width: int, height: int, comment: Option<string>)

  /** `MapConfig`: each list may be absent (`null`) in the file. */
  datatype MapConfig = MapConfig(
    name: Option<string>,
    description: Option<string>,
    platforms: Option<seq<ElementData>>,
    solidBlocks: Option<seq<ElementData>>,
    spikes: Option<seq<ElementData>>)

  /** Why loading failed: the file was missing, or reading/parsing it threw. */
  datatype LoadError = FileNotFound(path: string) | ReadFailed(message: string)

  /** The rectangle an entry describes; its comment plays no part. */
  function ToRect(d: ElementData): Rect
  {
    Rect(d.x, d.y, d.width, d.height)
  }

  /** The entries of a possibly absent list, an absent list having none. */
  function Entries(list: Option<seq<ElementData>>): seq<ElementData>
  {
    list.GetOr([])
  }

  /** The list converted one rectangle per entry, in order. */
  predicate Converted(out: seq<Rect>, list: Option<seq<ElementData>>)
  {
    && |out| == |Entries(list)|
    && forall i :: 0 <= i < |out| ==> out[i] == ToRect(Entries(list)[i])
  }

  /**
   * `convertToMapData`: every present list, in order, through the builder;
   * absent lists add nothing.
   */
  method ConvertToMapData(config: MapConfig) returns (m: MapData)
    ensures Converted(m.platforms, config.platforms)
    ensures Converted(m.solidBlocks, config.solidBlocks)
    ensures Converted(m.spikes, config.spikes)
  {
    var builder := NewMapBuilder();
    if config.platforms.Some? {
      var list := config.platforms.value;
      for i := 0 to |list|
        invariant Converted(builder.mapData.platforms, Some(list[..i]))
        invariant builder.mapData.solidBlocks == [] && builder.mapData.spikes == []
      {
        assert list[..i + 1][..i] == list[..i];
        builder := AddPlatform(builder, list[i].x, list[i].y, list[i].width, list[i].height);
      }
      assert list[..|list|] == list;
    }
    if config.solidBlocks.Some? {
      var list := config.solidBlocks.value;
      for i := 0 to |list|
        invariant Converted(builder.mapData.platforms, config.platforms)
        invariant Converted(builder.mapData.solidBlocks, Some(list[..i]))
        invariant builder.mapData.spikes == []
      {
        assert list[..i + 1][..i] == list[..i];
        builder := AddSolidBlock(builder, list[i].x, list[i].y, list[i].width, list[i].height);
      }
      assert list[..|list|] == list;
    }
    if config.spikes.Some? {
      var list := config.spikes.value;
      for i := 0 to |list|
        invariant Converted(builder.mapData.platforms, config.platforms)
        invariant Converted(builder.mapData.solidBlocks, config.solidBlocks)
        invariant Converted(builder.mapData.spikes, Some(list[..i]))
      {
        assert list[..i + 1][..i] == list[..i];
        builder := AddSpike(builder, list[i].x, list[i].y, list[i].width, list[i].height);
      }
      assert list[..|list|] == list;
    }
    m := Build(builder);
  }

  /**
   * `loadMapFromJson`: a missing file is an error; otherwise the outcome of
   * reading and parsing it (`parsed`) is converted or passed on.
   */
  method LoadMapFromJson(path: string, fileExists: bool, parsed: Result<MapConfig, string>)
    returns (r: Result<MapData, LoadError>)
    ensures !fileExists ==> r == Failure(FileNotFound(path))
    ensures fileExists && parsed.Failure? ==> r == Failure(ReadFailed(parsed.error))
    ensures fileExists && parsed.Success? ==>
      && r.Success?
      && Converted(r.value.platforms, parsed.value.platforms)
      && Converted(r.value.solidBlocks, parsed.value.solidBlocks)
      && Converted(r.value.spikes, parsed.value.spikes)
  {
    if !fileExists {
      return Failure(FileNotFound(path));
    }
    match parsed {
      case Failure(e) => return Failure(ReadFailed(e));
      case Success(config) =>
        var m := ConvertToMapData(config);
        return Success(m);
    }
  }

  /** `loadMapFromJsonOrDefault`: any missing-file or parse failure yields the empty map. */
  method LoadMapFromJsonOrDefault(path: string, fileExists: bool, parsed: Result<MapConfig, string>)
    returns (m: MapData)
    ensures !fileExists || parsed.Failure? ==> m == CreateEmptyMap()
    ensures fileExists && parsed.Success? ==>
      && Converted(m.platforms, parsed.value.platforms)
      && Converted(m.solidBlocks, parsed.value.solidBlocks)
      && Converted(m.spikes, parsed.value.spikes)
  {
    var r := LoadMapFromJson(path, fileExists, parsed);
    match r {
      case Success(data) => m := data;
      case Failure(_) => m := CreateEmptyMap();
    }
  }
}
