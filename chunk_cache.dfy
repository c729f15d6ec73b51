/**
 * The per-chunk mesh cache as values: one slot per level of detail, what TerrainChunk.Update
 * does to the slots and to what the chunk displays, and what the asynchronous build does when
 * it completes.
 */
module ChunkCache {
  import opened Base
  import opened MeshBuilders
  import opened MapGeneration

  /** The texture createMesh makes: the height map's size and the colour map's pixels. */
  datatype TextureData = TextureData(width: int, height: int, pixels: seq<Color>)

  /**
   * One level's slot: never requested (null), holding the unloaded LodMesh Update stores
   * while the build runs, or holding the loaded LodMesh the build produced.
   */
  datatype Slot = Empty | Placeholder | Built(mesh: MeshGeometry, texture: TextureData)

  /** What the chunk's renderer displays: the mesh filter's mesh and the material's texture. */
  datatype Shown = Shown(mesh: Option<MeshGeometry>, texture: Option<TextureData>)

  const NothingShown: Shown := Shown(None, None)

  /** A freshly constructed chunk's cache: every slot empty. */
  function EmptySlots(): (slots: seq<Slot>)
    ensures |slots| == LevelsOfDetail
    ensures forall i :: 0 <= i < |slots| ==> slots[i] == Empty
  {
    [Empty, Empty, Empty, Empty, Empty]
  }

  /**
   * What one call of Update amounts to. A hidden chunk does nothing; an index outside the
   * cache throws inside the discarded task; an empty slot starts a build; a placeholder is
   * passed to applyMesh, which ignores it; a built mesh is displayed.
   */
  datatype UpdateOutcome = Skipped | Faulted | BuildStarted | NotReady | Applied

  function UpdateOutcomeOf(slots: seq<Slot>, visible: bool, lod: int): UpdateOutcome
    requires |slots| == LevelsOfDetail
  {
    if !visible then Skipped
    else if !(0 <= lod < |slots|) then Faulted
    else match slots[lod]
      case Empty => BuildStarted
      case Placeholder => NotReady
      case Built(_, _) => Applied
  }

  /** The slots after Update: a started build leaves a placeholder in its slot. */
  function SlotsAfterUpdate(slots: seq<Slot>, visible: bool, lod: int): (r: seq<Slot>)
    requires |slots| == LevelsOfDetail
    ensures |r| == LevelsOfDetail
  {
    if UpdateOutcomeOf(slots, visible, lod) == BuildStarted then slots[lod := Placeholder] else slots
  }

  /** What the chunk displays after Update: only a built slot replaces it. */
  function ShownAfterUpdate(shown: Shown, slots: seq<Slot>, visible: bool, lod: int): Shown
    requires |slots| == LevelsOfDetail
  {
    if UpdateOutcomeOf(slots, visible, lod) == Applied then Shown(Some(slots[lod].mesh), Some(slots[lod].texture)) else shown
  }

  /** The slots after the build for `lod` completes: the built mesh replaces the placeholder. */
  function SlotsAfterBuild(slots: seq<Slot>, lod: int, mesh: MeshGeometry, texture: TextureData): (r: seq<Slot>)
    requires |slots| == LevelsOfDetail && 0 <= lod < LevelsOfDetail
    ensures |r| == LevelsOfDetail
  {
    slots[lod := Built(mesh, texture)]
  }

  /**
   * Update faults exactly when the chunk is visible and the level is not a slot index; a
   * hidden chunk and a faulted call change neither the slots nor the display.
   */
  lemma UpdateFaultsIffOutOfRange(slots: seq<Slot>, shown: Shown, visible: bool, lod: int)
    requires |slots| == LevelsOfDetail
    ensures UpdateOutcomeOf(slots, visible, lod) == Faulted <==> visible && !(0 <= lod < LevelsOfDetail)
    ensures UpdateOutcomeOf(slots, visible, lod) in {Skipped, Faulted} ==>
              SlotsAfterUpdate(slots, visible, lod) == slots && ShownAfterUpdate(shown, slots, visible, lod) == shown
    ensures !visible ==> UpdateOutcomeOf(slots, visible, lod) == Skipped
  {
  }

  /**
   * Update only ever fills an empty slot, and only the requested one: a slot that holds
   * something keeps it, and every other level is untouched.
   */
  lemma UpdateOnlyFillsRequestedSlot(slots: seq<Slot>, visible: bool, lod: int)
    requires |slots| == LevelsOfDetail
    ensures forall i :: 0 <= i < LevelsOfDetail && (i != lod || slots[i] != Empty) ==> SlotsAfterUpdate(slots, visible, lod)[i] == slots[i]
    ensures UpdateOutcomeOf(slots, visible, lod) == BuildStarted <==> SlotsAfterUpdate(slots, visible, lod) != slots
  {
    if UpdateOutcomeOf(slots, visible, lod) == BuildStarted {
      assert SlotsAfterUpdate(slots, visible, lod)[lod] != slots[lod];
    }
  }

  /** A placeholder is never displayed: applyMesh ignores an unloaded LodMesh. */
  lemma PlaceholderIsNotShown(slots: seq<Slot>, shown: Shown, visible: bool, lod: int)
    requires |slots| == LevelsOfDetail && 0 <= lod < LevelsOfDetail && slots[lod] == Placeholder
    ensures ShownAfterUpdate(shown, slots, visible, lod) == shown
    ensures SlotsAfterUpdate(slots, visible, lod) == slots
  {
  }

  /**
   * A completed build is not displayed by the completion itself, but the next Update of the
   * visible chunk at that level displays exactly the built mesh and texture.
   */
  lemma BuiltMeshShownOnNextUpdate(slots: seq<Slot>, shown: Shown, lod: int, mesh: MeshGeometry, texture: TextureData)
    requires |slots| == LevelsOfDetail && 0 <= lod < LevelsOfDetail
    ensures UpdateOutcomeOf(SlotsAfterBuild(slots, lod, mesh, texture), true, lod) == Applied
    ensures ShownAfterUpdate(shown, SlotsAfterBuild(slots, lod, mesh, texture), true, lod) == Shown(Some(mesh), Some(texture))
  {
  }

  // ---------------------------------------------------------------------------
  // A chunk's history: any interleaving of Update calls and build completions.

  datatype ChunkEvent =
    | UpdateCalled(visible: bool, lod: int)
    | BuildCompleted(lod: int, mesh: MeshGeometry, texture: TextureData)

  function ApplyEvent(slots: seq<Slot>, e: ChunkEvent): (r: seq<Slot>)
    requires |slots| == LevelsOfDetail
    ensures |r| == LevelsOfDetail
  {
    match e
    case UpdateCalled(visible, lod) => SlotsAfterUpdate(slots, visible, lod)
    case BuildCompleted(lod, mesh, texture) =>
      if 0 <= lod < LevelsOfDetail then SlotsAfterBuild(slots, lod, mesh, texture) else slots
  }

  /** The slots after a history of events, applied in order. */
  function Replay(slots: seq<Slot>, events: seq<ChunkEvent>): (r: seq<Slot>)
    requires |slots| == LevelsOfDetail
    ensures |r| == LevelsOfDetail
  {
    if events == [] then slots
    else ApplyEvent(Replay(slots, events[..|events| - 1]), events[|events| - 1])
  }

  /** How many of the history's Update calls start a build at level `lod`. */
  function BuildsStarted(slots: seq<Slot>, events: seq<ChunkEvent>, lod: int): nat
    requires |slots| == LevelsOfDetail
  {
    if events == [] then 0
    else
      var init := events[..|events| - 1];
      var e := events[|events| - 1];
      BuildsStarted(slots, init, lod) +
        if e.UpdateCalled? && e.lod == lod && UpdateOutcomeOf(Replay(slots, init), e.visible, e.lod) == BuildStarted then 1 else 0
  }

  /**
   * Each level of a chunk is built at most once, whatever the interleaving of Update calls and
   * completions, and never once its slot holds something: no event empties a slot.
   */
  lemma {:induction false} AtMostOneBuildPerLevel(slots: seq<Slot>, events: seq<ChunkEvent>, lod: int)
    requires |slots| == LevelsOfDetail
    ensures BuildsStarted(slots, events, lod) <= 1
    ensures 0 <= lod < LevelsOfDetail && slots[lod] != Empty ==> Replay(slots, events)[lod] != Empty && BuildsStarted(slots, events, lod) == 0
    ensures 0 <= lod < LevelsOfDetail && Replay(slots, events)[lod] == Empty ==> BuildsStarted(slots, events, lod) == 0
    ensures !(0 <= lod < LevelsOfDetail) ==> BuildsStarted(slots, events, lod) == 0
  {
    if events != [] {
      var init := events[..|events| - 1];
      var e := events[|events| - 1];
      var s := Replay(slots, init);
      AtMostOneBuildPerLevel(slots, init, lod);
      if 0 <= lod < LevelsOfDetail {
        if e.UpdateCalled? {
          UpdateOnlyFillsRequestedSlot(s, e.visible, e.lod);
          if e.lod == lod && UpdateOutcomeOf(s, e.visible, e.lod) == BuildStarted {
            assert Replay(slots, events)[lod] == Placeholder;
          }
        }
      }
    }
  }
}
