/**
 * The map editor's geometry and editing state (MapEditor.java): drag
 * rectangles, creation thresholds, point hit-testing, the element list,
 * duplicate, delete and drag-to-move.
 */
module MapEditor {
  import opened Wrappers
  import opened MapElements
  import opened Checkpoints
  import opened MapDesign

  /** A mouse position in canvas pixels. */
  datatype Point = Point(x: int, y: int)

  /** `EditMode`. */
  datatype EditMode = PlatformMode | SolidBlockMode | SpikeMode | CheckpointMode | SelectMode | DeleteMode

  /** The run-time class of an element the editor can point at. */
  datatype Kind = PlatformKind | SolidBlockKind | SpikeKind | CheckpointKind

  /**
   * The editor's `selectedElement`: which list, and where in it. The
   * source holds an object reference; the list position names the same
   * object as long as the map is not edited behind it.
   */
  datatype ElementRef = ElementRef(kind: Kind, index: nat)

  /** The map being edited: the three `MapData` lists plus its checkpoints. */
  datatype EditorMap = EditorMap(data: MapData, checkpoints: seq<Checkpoint>)

  /** What the checkpoint dialog hands back: `None` for a field `parseInt` rejects. */
  datatype DialogAnswer =
    | Cancelled
    | Confirmed(offsetX: Option<int>, offsetY: Option<int>, defaultActivated: bool)

  const MIN_BLOCK_SIDE := 10
  const MIN_SPIKE_SIDE := 5
  const MIN_CHECKPOINT_SIDE := 20
  const DUPLICATE_OFFSET := 50

  // ---------------------------------------------------------------- lists

  function RemoveAt<T>(s: seq<T>, i: nat): (r: seq<T>)
    requires i < |s|
    ensures |r| == |s| - 1
    ensures forall j :: 0 <= j < i ==> r[j] == s[j]
    ensures forall j :: i <= j < |r| ==> r[j] == s[j + 1]
  {
    s[..i] + s[i + 1..]
  }

  function Boxes(cps: seq<Checkpoint>): (r: seq<Rect>)
    ensures |r| == |cps|
    ensures forall i :: 0 <= i < |cps| ==> r[i] == cps[i].box
  {
    seq(|cps|, i requires 0 <= i < |cps| => cps[i].box)
  }

  /** The elements of one kind, as rectangles, in list order. */
  function Elements(m: EditorMap, k: Kind): seq<Rect>
  {
    match k
    case PlatformKind => m.data.platforms
    case SolidBlockKind => m.data.solidBlocks
    case SpikeKind => m.data.spikes
    case CheckpointKind => Boxes(m.checkpoints)
  }

  predicate ValidRef(m: EditorMap, r: ElementRef)
  {
    r.index < |Elements(m, r.kind)|
  }

  function ElementAt(m: EditorMap, r: ElementRef): Rect
    requires ValidRef(m, r)
  {
    Elements(m, r.kind)[r.index]
  }

  function EditorCount(m: EditorMap): nat
  {
    TotalElementCount(m.data) + |m.checkpoints|
  }

  // ---------------------------------------------------------------- creation

  function Abs(n: int): nat { if n < 0 then -n else n }
  function Min(a: int, b: int): int { if a <= b then a else b }
  function Max(a: int, b: int): int { if a >= b then a else b }

  /**
   * The rectangle a drag from `start` to `end` spans: its corner is the
   * smaller coordinate on each axis and its sides the absolute differences.
   */
  function DragRect(start: Point, end: Point): (r: Rect)
    ensures r.x == Min(start.x, end.x) && r.y == Min(start.y, end.y)
    ensures r.x + r.width == Max(start.x, end.x) && r.y + r.height == Max(start.y, end.y)
    ensures r.width >= 0 && r.height >= 0
  {
    Rect(Min(start.x, end.x), Min(start.y, end.y), Abs(end.x - start.x), Abs(end.y - start.y))
  }

  /** Dragging the other way round spans the same rectangle. */
  lemma DragRectIsSymmetric(start: Point, end: Point)
    ensures DragRect(start, end) == DragRect(end, start)
  {
  }

  /** Both drag end points lie on the spanned rectangle (inclusive bounds). */
  lemma DragRectHasBothCorners(start: Point, end: Point)
    ensures Contains(DragRect(start, end), start) && Contains(DragRect(start, end), end)
  {
  }

  /** The rectangle a drag creates when both sides exceed `minSide`. */
  function CreatedRect(start: Point, end: Point, minSide: int): (r: Option<Rect>)
    ensures r.Some? <==> Abs(end.x - start.x) > minSide && Abs(end.y - start.y) > minSide
    ensures r.Some? ==> r.value == DragRect(start, end)
  {
    var d := DragRect(start, end);
    if d.width > minSide && d.height > minSide then Some(d) else None
  }

  /** `createPlatform`: appends the drag rectangle when both sides exceed 10. */
  function CreatePlatform(m: EditorMap, start: Point, end: Point): (r: EditorMap)
    ensures r.data.solidBlocks == m.data.solidBlocks && r.data.spikes == m.data.spikes
    ensures r.checkpoints == m.checkpoints
    ensures r.data.platforms == m.data.platforms + Seq(CreatedRect(start, end, MIN_BLOCK_SIDE))
  {
    match CreatedRect(start, end, MIN_BLOCK_SIDE)
    case None => m
    case Some(d) => m.(data := AddPlatform(MapBuilder(m.data), d.x, d.y, d.width, d.height).mapData)
  }

  /** `createSolidBlock`: appends the drag rectangle when both sides exceed 10. */
  function CreateSolidBlock(m: EditorMap, start: Point, end: Point): (r: EditorMap)
    ensures r.data.platforms == m.data.platforms && r.data.spikes == m.data.spikes
    ensures r.checkpoints == m.checkpoints
    ensures r.data.solidBlocks == m.data.solidBlocks + Seq(CreatedRect(start, end, MIN_BLOCK_SIDE))
  {
    match CreatedRect(start, end, MIN_BLOCK_SIDE)
    case None => m
    case Some(d) => m.(data := AddSolidBlock(MapBuilder(m.data), d.x, d.y, d.width, d.height).mapData)
  }

  /** `createSpike`: appends the drag rectangle when both sides exceed 5. */
  function CreateSpike(m: EditorMap, start: Point, end: Point): (r: EditorMap)
    ensures r.data.platforms == m.data.platforms && r.data.solidBlocks == m.data.solidBlocks
    ensures r.checkpoints == m.checkpoints
    ensures r.data.spikes == m.data.spikes + Seq(CreatedRect(start, end, MIN_SPIKE_SIDE))
  {
    match CreatedRect(start, end, MIN_SPIKE_SIDE)
    case None => m
    case Some(d) => m.(data := AddSpike(MapBuilder(m.data), d.x, d.y, d.width, d.height).mapData)
  }

  /** The list holding an optional value: empty or a singleton. */
  function Seq<T>(o: Option<T>): (s: seq<T>)
    ensures |s| == if o.Some? then 1 else 0
    ensures o.Some? ==> s[0] == o.value
  {
    match o
    case None => []
    case Some(v) => [v]
  }

  /** The offset the checkpoint dialog is pre-filled with: the box centre, rounded down. */
  function DefaultRespawnOffset(box: Rect): (offset: (int, int))
    requires box.width > MIN_CHECKPOINT_SIDE && box.height > MIN_CHECKPOINT_SIDE
    ensures 0 < offset.0 < box.width && 0 < offset.1 < box.height
    ensures box.width - 1 <= 2 * offset.0 <= box.width
    ensures box.height - 1 <= 2 * offset.1 <= box.height
  {
    (box.width / 2, box.height / 2)
  }

  /**
   * `createCheckpoint`: when both sides exceed 20 the dialog opens on the
   * default offset; a confirmed dialog appends a checkpoint with the offsets
   * it returns (0 for a field that does not parse).
   */
  function CreateCheckpoint(m: EditorMap, start: Point, end: Point, answer: DialogAnswer): (r: EditorMap)
    ensures r.data == m.data
    ensures CreatedRect(start, end, MIN_CHECKPOINT_SIDE).None? || answer.Cancelled? ==> r == m
    ensures CreatedRect(start, end, MIN_CHECKPOINT_SIDE).Some? && answer.Confirmed? ==>
      r.checkpoints == m.checkpoints + [NewCheckpoint(
        DragRect(start, end).x, DragRect(start, end).y,
        DragRect(start, end).width, DragRect(start, end).height,
        answer.offsetX.GetOr(0), answer.offsetY.GetOr(0), answer.defaultActivated)]
  {
    match CreatedRect(start, end, MIN_CHECKPOINT_SIDE)
    case None => m
    case Some(d) =>
      match answer
      case Cancelled => m
      case Confirmed(ox, oy, active) =>
        m.(checkpoints := m.checkpoints + [NewCheckpoint(d.x, d.y, d.width, d.height, ox.GetOr(0), oy.GetOr(0), active)])
  }

  /** Accepting the pre-filled dialog puts the respawn point strictly inside the new box. */
  lemma AcceptedDefaultRespawnsInside(m: EditorMap, start: Point, end: Point)
    requires CreatedRect(start, end, MIN_CHECKPOINT_SIDE).Some?
    ensures var d := DragRect(start, end);
      var off := DefaultRespawnOffset(d);
      var r := CreateCheckpoint(m, start, end, Confirmed(Some(off.0), Some(off.1), false));
      && |r.checkpoints| == |m.checkpoints| + 1
      && var c := r.checkpoints[|m.checkpoints|];
      && d.x < RespawnX(c) < d.x + d.width
      && d.y < RespawnY(c) < d.y + d.height
      && !c.isActivated
  {
  }

  // ---------------------------------------------------------------- hit-testing

  /** Inclusive point-in-rectangle test. */
  predicate Contains(e: Rect, p: Point)
  {
    e.x <= p.x <= e.x + e.width && e.y <= p.y <= e.y + e.height
  }

  /** The position of the first rectangle containing `p`, if any. */
  function FirstHit(rects: seq<Rect>, p: Point): (r: Option<nat>)
    ensures r.Some? ==> r.value < |rects| && Contains(rects[r.value], p)
    ensures r.Some? ==> forall j :: 0 <= j < r.value ==> !Contains(rects[j], p)
    ensures r.None? <==> forall j :: 0 <= j < |rects| ==> !Contains(rects[j], p)
  {
    if |rects| == 0 then None
    else if Contains(rects[0], p) then Some(0)
    else
      match FirstHit(rects[1..], p)
      case None =>
        assert forall j :: 1 <= j < |rects| ==> rects[j] == rects[1..][j - 1];
        None
      case Some(i) => Some(i + 1)
  }

  /** The order `findElementAt` searches the kinds in. */
  function KindRank(k: Kind): nat
  {
    match k
    case PlatformKind => 0
    case SolidBlockKind => 1
    case SpikeKind => 2
    case CheckpointKind => 3
  }

  /** `a` is searched before `b`. */
  predicate Precedes(a: ElementRef, b: ElementRef)
  {
    KindRank(a.kind) < KindRank(b.kind) || (a.kind == b.kind && a.index < b.index)
  }

  function HitIn(m: EditorMap, k: Kind, p: Point): (r: Option<ElementRef>)
    ensures r.Some? ==> r.value.kind == k && ValidRef(m, r.value) && Contains(ElementAt(m, r.value), p)
    ensures r.Some? ==> forall j :: 0 <= j < r.value.index ==> !Contains(Elements(m, k)[j], p)
    ensures r.None? <==> forall j :: 0 <= j < |Elements(m, k)| ==> !Contains(Elements(m, k)[j], p)
  {
    match FirstHit(Elements(m, k), p)
    case None => None
    case Some(i) => Some(ElementRef(k, i))
  }

  /**
   * `findElementAt`: the first element whose rectangle contains `p`,
   * searching platforms, solid blocks, spikes, then checkpoints.
   */
  function FindElementAt(m: EditorMap, p: Point): (r: Option<ElementRef>)
    ensures r.Some? ==> ValidRef(m, r.value) && Contains(ElementAt(m, r.value), p)
    ensures r.Some? ==> forall q :: ValidRef(m, q) && Precedes(q, r.value) ==> !Contains(ElementAt(m, q), p)
    ensures r.None? <==> forall q :: ValidRef(m, q) ==> !Contains(ElementAt(m, q), p)
  {
    var hp := HitIn(m, PlatformKind, p);
    var hb := HitIn(m, SolidBlockKind, p);
    var hs := HitIn(m, SpikeKind, p);
    var hc := HitIn(m, CheckpointKind, p);
    if hp.Some? then hp
    else if hb.Some? then hb
    else if hs.Some? then hs
    else hc
  }

  // ---------------------------------------------------------------- the element list

  /** The element list shows platforms, then solid blocks, then spikes. */
  function ListLength(m: EditorMap): nat
  {
    TotalElementCount(m.data)
  }

  /** Where an element appears in the element list. */
  function ListIndex(m: EditorMap, r: ElementRef): nat
    requires r.kind != CheckpointKind
  {
    match r.kind
    case PlatformKind => r.index
    case SolidBlockKind => |m.data.platforms| + r.index
    case SpikeKind => |m.data.platforms| + |m.data.solidBlocks| + r.index
  }

  /**
   * `selectElementFromList`: a non-negative list index selects the element
   * shown there; -1 (no list selection) keeps the current selection.
   */
  function SelectElementFromList(m: EditorMap, selectedIndex: int, current: Option<ElementRef>): (r: Option<ElementRef>)
    requires selectedIndex < ListLength(m)
    ensures selectedIndex < 0 ==> r == current
    ensures selectedIndex >= 0 ==>
      && r.Some? && r.value.kind != CheckpointKind && ValidRef(m, r.value)
      && ListIndex(m, r.value) == selectedIndex
  {
    var p := |m.data.platforms|;
    var s := |m.data.solidBlocks|;
    if selectedIndex < 0 then current
    else if selectedIndex < p then Some(ElementRef(PlatformKind, selectedIndex))
    else if selectedIndex < p + s then Some(ElementRef(SolidBlockKind, selectedIndex - p))
    else Some(ElementRef(SpikeKind, selectedIndex - p - s))
  }

  /** Selecting an element's list row selects that element. */
  lemma ListSelectionRoundTrip(m: EditorMap, r: ElementRef, current: Option<ElementRef>)
    requires r.kind != CheckpointKind && ValidRef(m, r)
    ensures ListIndex(m, r) < ListLength(m)
    ensures SelectElementFromList(m, ListIndex(m, r), current) == Some(r)
  {
  }

  // ---------------------------------------------------------------- editing

  /** Removes the referenced element from its own list; every other list is unchanged. */
  function Remove(m: EditorMap, r: ElementRef): (n: EditorMap)
    requires ValidRef(m, r)
    ensures EditorCount(n) == EditorCount(m) - 1
    ensures forall k :: k != r.kind ==> Elements(n, k) == Elements(m, k)
    ensures Elements(n, r.kind) == RemoveAt(Elements(m, r.kind), r.index)
  {
    match r.kind
    case PlatformKind => m.(data := m.data.(platforms := RemoveAt(m.data.platforms, r.index)))
    case SolidBlockKind => m.(data := m.data.(solidBlocks := RemoveAt(m.data.solidBlocks, r.index)))
    case SpikeKind => m.(data := m.data.(spikes := RemoveAt(m.data.spikes, r.index)))
    case CheckpointKind =>
      var n := m.(checkpoints := RemoveAt(m.checkpoints, r.index));
      assert Boxes(n.checkpoints) == RemoveAt(Boxes(m.checkpoints), r.index);
      n
  }

  /** The selection after `removed` leaves its list: the same element, wherever it now sits. */
  function AfterRemoval(selected: Option<ElementRef>, removed: ElementRef): Option<ElementRef>
  {
    match selected
    case None => None
    case Some(s) =>
      if s.kind != removed.kind || s.index < removed.index then selected
      else if s.index == removed.index then None
      else Some(ElementRef(s.kind, s.index - 1))
  }

  /** A selection that survives a removal still names the element it named before. */
  lemma AfterRemovalTracksElement(m: EditorMap, selected: ElementRef, removed: ElementRef)
    requires ValidRef(m, selected) && ValidRef(m, removed)
    ensures var s := AfterRemoval(Some(selected), removed);
      s.None? <==> selected == removed
    ensures var s := AfterRemoval(Some(selected), removed);
      s.Some? ==> ValidRef(Remove(m, removed), s.value) && ElementAt(Remove(m, removed), s.value) == ElementAt(m, selected)
  {
    var n := Remove(m, removed);
    if selected.kind == removed.kind {
      var before := Elements(m, removed.kind);
      assert Elements(n, selected.kind) == RemoveAt(before, removed.index);
    } else {
      assert Elements(n, selected.kind) == Elements(m, selected.kind);
    }
  }

  /**
   * `deleteSelectedElement`: removes a selected platform, solid block or
   * spike from its list and clears the selection; a selected checkpoint
   * stays in the map, though the selection is still cleared.
   */
  function DeleteSelectedElement(m: EditorMap, selected: Option<ElementRef>): (r: (EditorMap, Option<ElementRef>))
    requires selected.Some? ==> ValidRef(m, selected.value)
    ensures r.1 == None
    ensures selected.None? || selected.value.kind == CheckpointKind ==> r.0 == m
    ensures selected.Some? && selected.value.kind != CheckpointKind ==>
      && EditorCount(r.0) == EditorCount(m) - 1
      && Elements(r.0, selected.value.kind) == RemoveAt(Elements(m, selected.value.kind), selected.value.index)
      && forall k :: k != selected.value.kind ==> Elements(r.0, k) == Elements(m, k)
  {
    match selected
    case None => (m, None)
    case Some(s) => if s.kind == CheckpointKind then (m, None) else (Remove(m, s), None)
  }

  /** Appends `e` to the list of kind `k`. */
  function Append(m: EditorMap, k: Kind, e: Rect): (n: EditorMap)
    requires k != CheckpointKind
    ensures Elements(n, k) == Elements(m, k) + [e]
    ensures forall j :: j != k ==> Elements(n, j) == Elements(m, j)
    ensures EditorCount(n) == EditorCount(m) + 1
  {
    match k
    case PlatformKind => m.(data := m.data.(platforms := m.data.platforms + [e]))
    case SolidBlockKind => m.(data := m.data.(solidBlocks := m.data.solidBlocks + [e]))
    case SpikeKind => m.(data := m.data.(spikes := m.data.spikes + [e]))
  }

  /**
   * `duplicateSelectedElement`: appends to the selected element's own list
   * a copy moved by (+50, +50) with the same size; the original stays. A
   * selected checkpoint is not duplicated.
   */
  function DuplicateSelectedElement(m: EditorMap, selected: Option<ElementRef>): (n: EditorMap)
    requires selected.Some? ==> ValidRef(m, selected.value)
    ensures selected.None? || selected.value.kind == CheckpointKind ==> n == m
    ensures selected.Some? && selected.value.kind != CheckpointKind ==>
      var s := selected.value;
      var e := ElementAt(m, s);
      && Elements(n, s.kind) == Elements(m, s.kind) + [Rect(e.x + DUPLICATE_OFFSET, e.y + DUPLICATE_OFFSET, e.width, e.height)]
      && (forall k :: k != s.kind ==> Elements(n, k) == Elements(m, k))
      && EditorCount(n) == EditorCount(m) + 1
  {
    match selected
    case None => m
    case Some(s) =>
      if s.kind == CheckpointKind then m
      else
        var e := ElementAt(m, s);
        Append(m, s.kind, Rect(e.x + DUPLICATE_OFFSET, e.y + DUPLICATE_OFFSET, e.width, e.height))
  }

  /** Deleting the copy a duplicate made restores the map. */
  lemma DuplicateThenDeleteCopy(m: EditorMap, s: ElementRef)
    requires ValidRef(m, s) && s.kind != CheckpointKind
    ensures var n := DuplicateSelectedElement(m, Some(s));
      var copy := ElementRef(s.kind, |Elements(m, s.kind)|);
      && ValidRef(n, copy)
      && DeleteSelectedElement(n, Some(copy)).0 == m
  {
    var n := DuplicateSelectedElement(m, Some(s));
    var copy := ElementRef(s.kind, |Elements(m, s.kind)|);
    var d := DeleteSelectedElement(n, Some(copy)).0;
    assert RemoveAt(Elements(n, s.kind), copy.index) == Elements(m, s.kind);
    assert Elements(d, s.kind) == Elements(m, s.kind);
    match s.kind
    case PlatformKind =>
    case SolidBlockKind =>
    case SpikeKind =>
  }

  /** `setPosition` on the referenced element, moved by (dx, dy). */
  function MoveBy(m: EditorMap, r: ElementRef, dx: int, dy: int): (n: EditorMap)
    requires ValidRef(m, r)
    ensures ValidRef(n, r)
    ensures var e := ElementAt(m, r);
      ElementAt(n, r) == Rect(e.x + dx, e.y + dy, e.width, e.height)
    ensures forall q :: ValidRef(m, q) <==> ValidRef(n, q)
    ensures forall q :: ValidRef(m, q) && q != r ==> ElementAt(n, q) == ElementAt(m, q)
  {
    var e := ElementAt(m, r);
    var moved := SetPosition(e, e.x + dx, e.y + dy);
    match r.kind
    case PlatformKind => m.(data := m.data.(platforms := m.data.platforms[r.index := moved]))
    case SolidBlockKind => m.(data := m.data.(solidBlocks := m.data.solidBlocks[r.index := moved]))
    case SpikeKind => m.(data := m.data.(spikes := m.data.spikes[r.index := moved]))
    case CheckpointKind =>
      var c := m.checkpoints[r.index];
      var n := m.(checkpoints := m.checkpoints[r.index := c.(box := moved)]);
      assert Boxes(n.checkpoints) == Boxes(m.checkpoints)[r.index := moved];
      n
  }

  /** A moved checkpoint carries its respawn point along: the offset is relative to the box. */
  lemma MovedCheckpointKeepsOffset(m: EditorMap, i: nat, dx: int, dy: int)
    requires i < |m.checkpoints|
    ensures var n := MoveBy(m, ElementRef(CheckpointKind, i), dx, dy);
      && RespawnX(n.checkpoints[i]) == RespawnX(m.checkpoints[i]) + dx
      && RespawnY(n.checkpoints[i]) == RespawnY(m.checkpoints[i]) + dy
  {
  }

  /** Moving back by the opposite delta restores the map. */
  lemma MoveByInverse(m: EditorMap, r: ElementRef, dx: int, dy: int)
    requires ValidRef(m, r)
    ensures MoveBy(MoveBy(m, r, dx, dy), r, -dx, -dy) == m
  {
  }

  // ---------------------------------------------------------------- mouse handling

  /** The editor's mouse-related fields. */
  datatype EditorState = EditorState(
    current: EditorMap,
    mode: EditMode,
    selected: Option<ElementRef>,
    isDragging: bool,
    dragStart: Option<Point>,
    lastMousePos: Option<Point>)

  /** A drag in progress knows where it started and where the mouse last was; a selection names an element of the map. */
  predicate ValidState(s: EditorState)
  {
    && (s.isDragging ==> s.dragStart.Some? && s.lastMousePos.Some?)
    && (s.selected.Some? ==> ValidRef(s.current, s.selected.value))
  }

  /** The state a freshly opened editor is in. */
  function InitialState(m: EditorMap): (s: EditorState)
    ensures ValidState(s) && s.mode == PlatformMode && s.selected.None? && !s.isDragging
  {
    EditorState(m, PlatformMode, None, false, None, None)
  }

  /** `setEditMode`: switching mode drops the selection. */
  function SetEditMode(s: EditorState, mode: EditMode): (t: EditorState)
    requires ValidState(s)
    ensures ValidState(t) && t.mode == mode && t.selected.None?
    ensures t.current == s.current && t.isDragging == s.isDragging
  {
    s.(mode := mode, selected := None)
  }

  /**
   * A DELETE-mode click on element `r`: it leaves its own list, the other
   * lists and the drag are untouched, and a selection of another element
   * still names that element.
   */
  function DeleteClick(s: EditorState, r: ElementRef): (t: EditorState)
    requires ValidState(s) && ValidRef(s.current, r)
    ensures ValidState(t) && t.mode == s.mode
    ensures EditorCount(t.current) == EditorCount(s.current) - 1
    ensures Elements(t.current, r.kind) == RemoveAt(Elements(s.current, r.kind), r.index)
    ensures forall k :: k != r.kind ==> Elements(t.current, k) == Elements(s.current, k)
    ensures t.isDragging == s.isDragging && t.dragStart == s.dragStart && t.lastMousePos == s.lastMousePos
    ensures t.selected == AfterRemoval(s.selected, r)
    ensures t.selected.None? <==> s.selected.None? || s.selected == Some(r)
    ensures t.selected.Some? ==> ElementAt(t.current, t.selected.value) == ElementAt(s.current, s.selected.value)
  {
    var t := s.(current := Remove(s.current, r), selected := AfterRemoval(s.selected, r));
    assert s.selected.Some? ==>
      && (t.selected.None? <==> s.selected == Some(r))
      && (t.selected.Some? ==>
            ValidRef(t.current, t.selected.value) &&
            ElementAt(t.current, t.selected.value) == ElementAt(s.current, s.selected.value))
    by {
      if s.selected.Some? { AfterRemovalTracksElement(s.current, s.selected.value, r); }
    }
    t
  }

  /**
   * `handleMousePressed`: SELECT selects what is under the mouse (or
   * nothing); DELETE removes what is under the mouse from its own list,
   * checkpoints included; any creation mode starts a drag.
   */
  function MousePressed(s: EditorState, pos: Point): (t: EditorState)
    requires ValidState(s)
    ensures ValidState(t) && t.mode == s.mode
    ensures s.mode == SelectMode ==> t == s.(selected := FindElementAt(s.current, pos))
    ensures s.mode == DeleteMode ==>
      match FindElementAt(s.current, pos)
      case None => t == s
      case Some(r) => t == DeleteClick(s, r)
    ensures s.mode != SelectMode && s.mode != DeleteMode ==>
      t == s.(isDragging := true, dragStart := Some(pos), lastMousePos := Some(pos))
  {
    match s.mode
    case SelectMode => s.(selected := FindElementAt(s.current, pos))
    case DeleteMode =>
      (match FindElementAt(s.current, pos)
       case None => s
       case Some(r) => DeleteClick(s, r))
    case _ => s.(isDragging := true, dragStart := Some(pos), lastMousePos := Some(pos))
  }

  /**
   * `handleMouseDragged`: while a drag is in progress, a selected element
   * follows the mouse by the delta since the last drag event.
   */
  function MouseDragged(s: EditorState, pos: Point): (t: EditorState)
    requires ValidState(s)
    ensures ValidState(t)
    ensures !s.isDragging || s.selected.None? ==> t == s
    ensures s.isDragging && s.selected.Some? ==>
      var last := s.lastMousePos.value;
      && t == s.(current := MoveBy(s.current, s.selected.value, pos.x - last.x, pos.y - last.y),
                 lastMousePos := Some(pos))
  {
    if s.isDragging && s.selected.Some? then
      var last := s.lastMousePos.value;
      var moved := MoveBy(s.current, s.selected.value, pos.x - last.x, pos.y - last.y);
      s.(current := moved, lastMousePos := Some(pos))
    else s
  }

  /** Two drag events move the selected element as far as one event to the final position. */
  lemma DragEventsCompose(s: EditorState, p1: Point, p2: Point)
    requires ValidState(s) && s.isDragging && s.selected.Some?
    ensures MouseDragged(MouseDragged(s, p1), p2) == MouseDragged(s, p2)
  {
  }

  /**
   * `handleMouseReleased`: ends a drag, creating the element of the current
   * creation mode over the dragged rectangle.
   */
  function MouseReleased(s: EditorState, pos: Point, answer: DialogAnswer): (t: EditorState)
    requires ValidState(s)
    ensures ValidState(t) && t.mode == s.mode && t.selected == s.selected
    ensures !(s.isDragging && s.dragStart.Some?) ==> t == s
    ensures s.isDragging && s.dragStart.Some? ==>
      && !t.isDragging && t.dragStart.None?
      && EditorCount(s.current) <= EditorCount(t.current) <= EditorCount(s.current) + 1
      && (forall k :: Elements(s.current, k) <= Elements(t.current, k))
      && var start := s.dragStart.value;
      && t.current == match s.mode
         case PlatformMode => CreatePlatform(s.current, start, pos)
         case SolidBlockMode => CreateSolidBlock(s.current, start, pos)
         case SpikeMode => CreateSpike(s.current, start, pos)
         case CheckpointMode => CreateCheckpoint(s.current, start, pos, answer)
         case _ => s.current
  {
    if s.isDragging && s.dragStart.Some? then
      var start := s.dragStart.value;
      var created := match s.mode
        case PlatformMode => CreatePlatform(s.current, start, pos)
        case SolidBlockMode => CreateSolidBlock(s.current, start, pos)
        case SpikeMode => CreateSpike(s.current, start, pos)
        case CheckpointMode => CreateCheckpoint(s.current, start, pos, answer)
        case _ => s.current;
      assert s.selected.Some? ==> ValidRef(created, s.selected.value);
      s.(current := created, isDragging := false, dragStart := None)
    else s
  }
}
