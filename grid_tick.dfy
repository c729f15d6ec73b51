/**
 * One updateVisibleChunks tick as a function on values: every chunk seen as its visibility,
 * its display and its cache, keyed by coordinate.
 */
module GridTick {
  import opened Base
  import opened MapGeneration
  import opened ChunkScan
  import opened ChunkCache

  /** What the tick can observe and change of one chunk. */
  datatype ChunkView = ChunkView(visible: bool, shown: Shown, slots: seq<Slot>)

  /** A chunk as onNewChunk creates it: hidden, displaying nothing, its cache empty. */
  function NewChunkView(): ChunkView
  {
    ChunkView(false, NothingShown, EmptySlots())
  }

  predicate WellFormed(view: map<Coord, ChunkView>)
  {
    forall k :: k in view ==> |view[k].slots| == LevelsOfDetail
  }

  /** The first loop of the tick: every chunk in lastVisibleChunks is hidden. */
  function HideAll(view: map<Coord, ChunkView>): (r: map<Coord, ChunkView>)
    ensures r.Keys == view.Keys
  {
    map k | k in view :: view[k].(visible := false)
  }

  /** TerrainChunk.Update applied to a chunk's view. */
  function Updated(c: ChunkView, lod: int): ChunkView
    requires |c.slots| == LevelsOfDetail
  {
    c.(slots := SlotsAfterUpdate(c.slots, c.visible, lod), shown := ShownAfterUpdate(c.shown, c.slots, c.visible, lod))
  }

  /**
   * One coordinate of the scan: an existing chunk is shown when its distance is within view
   * and hidden otherwise, a missing one is created; then the chunk is updated at the level of
   * detail its distance selects.
   */
  function Visit(view: map<Coord, ChunkView>, k: Coord, d: real): (r: map<Coord, ChunkView>)
    requires WellFormed(view)
    ensures WellFormed(r)
  {
    var c := if k in view then view[k].(visible := d <= MaxViewDistance) else NewChunkView();
    view[k := Updated(c, ResolveLevelOfDetail(d))]
  }

  /** The outcome of the Update call made for coordinate k. */
  function VisitOutcome(view: map<Coord, ChunkView>, k: Coord, d: real): UpdateOutcome
    requires WellFormed(view)
  {
    var c := if k in view then view[k].(visible := d <= MaxViewDistance) else NewChunkView();
    UpdateOutcomeOf(c.slots, c.visible, ResolveLevelOfDetail(d))
  }

  /** The scan loop after its first n coordinates: Visit for scan[0], ..., scan[n - 1], in order. */
  function VisitFirst(view: map<Coord, ChunkView>, scan: seq<Coord>, n: nat, distance: Coord -> real): (r: map<Coord, ChunkView>)
    requires WellFormed(view) && n <= |scan|
    ensures WellFormed(r)
  {
    if n == 0 then view
    else Visit(VisitFirst(view, scan, n - 1, distance), scan[n - 1], distance(scan[n - 1]))
  }

  /** The scan loop: Visit for each coordinate of `scan`, in order. */
  function VisitAll(view: map<Coord, ChunkView>, scan: seq<Coord>, distance: Coord -> real): (r: map<Coord, ChunkView>)
    requires WellFormed(view)
    ensures WellFormed(r)
  {
    VisitFirst(view, scan, |scan|, distance)
  }

  /** The outcomes of the Update calls for the first n coordinates of the scan, in order. */
  function OutcomesFirst(view: map<Coord, ChunkView>, scan: seq<Coord>, n: nat, distance: Coord -> real): (r: seq<UpdateOutcome>)
    requires WellFormed(view) && n <= |scan|
    ensures |r| == n
  {
    if n == 0 then []
    else OutcomesFirst(view, scan, n - 1, distance) + [VisitOutcome(VisitFirst(view, scan, n - 1, distance), scan[n - 1], distance(scan[n - 1]))]
  }

  /** The outcomes of the Update calls of the scan loop, in order. */
  function VisitOutcomes(view: map<Coord, ChunkView>, scan: seq<Coord>, distance: Coord -> real): (r: seq<UpdateOutcome>)
    requires WellFormed(view)
    ensures |r| == |scan|
  {
    OutcomesFirst(view, scan, |scan|, distance)
  }

  /** The whole tick. */
  function Tick(view: map<Coord, ChunkView>, scan: seq<Coord>, distance: Coord -> real): map<Coord, ChunkView>
    requires WellFormed(view)
  {
    VisitAll(HideAll(view), scan, distance)
  }

  /** A new chunk is hidden, so the Update call made for it in the tick that creates it does nothing. */
  lemma NewChunkUpdateIsNoop(lod: int)
    ensures Updated(NewChunkView(), lod) == NewChunkView()
    ensures UpdateOutcomeOf(NewChunkView().slots, NewChunkView().visible, lod) == Skipped
  {
  }

  /**
   * The effect of the first n steps of the scan loop on each key, for a scan without repeats:
   * keys are never removed; a coordinate not yet visited is untouched; a visited coordinate that
   * was a key is shown exactly when within view and updated; a visited coordinate that was not a
   * key becomes a new, hidden, empty chunk.
   */
  lemma {:induction false} VisitFirstEffect(view: map<Coord, ChunkView>, scan: seq<Coord>, n: nat, distance: Coord -> real)
    requires WellFormed(view) && NoDuplicates(scan) && n <= |scan|
    ensures forall k :: k in VisitFirst(view, scan, n, distance) <==> k in view || k in scan[..n]
    ensures forall k :: k in view && k !in scan[..n] ==> VisitFirst(view, scan, n, distance)[k] == view[k]
    ensures forall k :: k in view && k in scan[..n] ==>
              VisitFirst(view, scan, n, distance)[k] == Updated(view[k].(visible := distance(k) <= MaxViewDistance), ResolveLevelOfDetail(distance(k)))
    ensures forall k :: k !in view && k in scan[..n] ==> VisitFirst(view, scan, n, distance)[k] == NewChunkView()
  {
    if n > 0 {
      var last := scan[n - 1];
      VisitFirstEffect(view, scan, n - 1, distance);
      PrefixStep(scan, n - 1);
      NewChunkUpdateIsNoop(ResolveLevelOfDetail(distance(last)));
      forall k | k in scan[..n]
        ensures k in scan[..n - 1] || k == last
      {
        assert k in scan[..n - 1] + [last];
      }
    }
  }

  /** The effect of the whole scan loop on each key, for a scan without repeats. */
  lemma VisitAllEffect(view: map<Coord, ChunkView>, scan: seq<Coord>, distance: Coord -> real)
    requires WellFormed(view) && NoDuplicates(scan)
    ensures forall k :: k in VisitAll(view, scan, distance) <==> k in view || k in scan
    ensures forall k :: k in view && k !in scan ==> VisitAll(view, scan, distance)[k] == view[k]
    ensures forall k :: k in view && k in scan ==>
              VisitAll(view, scan, distance)[k] == Updated(view[k].(visible := distance(k) <= MaxViewDistance), ResolveLevelOfDetail(distance(k)))
    ensures forall k :: k !in view && k in scan ==> VisitAll(view, scan, distance)[k] == NewChunkView()
  {
    VisitFirstEffect(view, scan, |scan|, distance);
    assert scan[..|scan|] == scan;
  }

  /**
   * The tick as a whole, for a scan without repeats: the keys become the old keys plus the
   * scanned coordinates; a chunk is visible afterwards exactly when it existed before, was
   * scanned, and lies within view; scanned old chunks are updated at their level of detail;
   * unscanned ones are only hidden; new ones are hidden and empty.
   */
  lemma TickEffect(view: map<Coord, ChunkView>, scan: seq<Coord>, distance: Coord -> real)
    requires WellFormed(view) && NoDuplicates(scan)
    ensures Tick(view, scan, distance).Keys == KeysAfterTick(view.Keys, scan)
    ensures forall k :: k in Tick(view, scan, distance) ==>
              (Tick(view, scan, distance)[k].visible <==> k in view && k in scan && distance(k) <= MaxViewDistance)
    ensures forall k :: k in view && k !in scan ==> Tick(view, scan, distance)[k] == view[k].(visible := false)
    ensures forall k :: k in view && k in scan ==>
              Tick(view, scan, distance)[k] == Updated(view[k].(visible := distance(k) <= MaxViewDistance), ResolveLevelOfDetail(distance(k)))
    ensures forall k :: k !in view && k in scan ==> Tick(view, scan, distance)[k] == NewChunkView()
  {
    VisitAllEffect(HideAll(view), scan, distance);
  }

  /**
   * The outcomes of the first n steps of the scan loop, for a scan without repeats: the call for
   * a coordinate that was not a key is skipped (the new chunk is hidden), and the call for an old
   * chunk faults exactly when its distance is exactly the view distance, where the level of
   * detail is 5.
   */
  lemma {:induction false} OutcomesFirstEffect(view: map<Coord, ChunkView>, scan: seq<Coord>, n: nat, distance: Coord -> real)
    requires WellFormed(view) && NoDuplicates(scan) && n <= |scan|
    requires forall k :: k in scan ==> distance(k) >= 0.0
    ensures forall i :: 0 <= i < n ==> OutcomeAsPredicted(view, scan[i], distance(scan[i]), OutcomesFirst(view, scan, n, distance)[i])
  {
    if n > 0 {
      var last := scan[n - 1];
      var current := VisitFirst(view, scan, n - 1, distance);
      var prev := OutcomesFirst(view, scan, n - 1, distance);
      OutcomesFirstEffect(view, scan, n - 1, distance);
      NextUnvisited(view, scan, n - 1, distance);
      LastOutcome(view, current, last, distance(last));
      forall i | 0 <= i < n
        ensures OutcomeAsPredicted(view, scan[i], distance(scan[i]), OutcomesFirst(view, scan, n, distance)[i])
      {
        if i < n - 1 {
          assert OutcomesFirst(view, scan, n, distance)[i] == prev[i];
        }
      }
    }
  }

  /** The coordinate at position n of a scan without repeats is untouched by the first n steps. */
  lemma NextUnvisited(view: map<Coord, ChunkView>, scan: seq<Coord>, n: nat, distance: Coord -> real)
    requires WellFormed(view) && NoDuplicates(scan) && n < |scan|
    ensures scan[n] in VisitFirst(view, scan, n, distance) <==> scan[n] in view
    ensures scan[n] in view ==> VisitFirst(view, scan, n, distance)[scan[n]] == view[scan[n]]
  {
    VisitFirstEffect(view, scan, n, distance);
    PrefixStep(scan, n);
  }

  /** The outcomes of the whole scan loop, for a scan without repeats. */
  lemma VisitOutcomesEffect(view: map<Coord, ChunkView>, scan: seq<Coord>, distance: Coord -> real)
    requires WellFormed(view) && NoDuplicates(scan)
    requires forall k :: k in scan ==> distance(k) >= 0.0
    ensures forall i :: 0 <= i < |scan| ==> OutcomeAsPredicted(view, scan[i], distance(scan[i]), VisitOutcomes(view, scan, distance)[i])
  {
    OutcomesFirstEffect(view, scan, |scan|, distance);
  }

  /**
   * The outcome of the call for coordinate k: skipped for a chunk created by this tick;
   * for an old chunk, faulted exactly at distance 600 and skipped exactly beyond it.
   */
  predicate OutcomeAsPredicted(view: map<Coord, ChunkView>, k: Coord, d: real, outcome: UpdateOutcome)
  {
    && (k !in view ==> outcome == Skipped)
    && (k in view ==> (outcome == Faulted <==> d == MaxViewDistance))
    && (k in view ==> (outcome == Skipped <==> d > MaxViewDistance))
  }

  lemma LastOutcome(view: map<Coord, ChunkView>, current: map<Coord, ChunkView>, k: Coord, d: real)
    requires WellFormed(view) && WellFormed(current) && d >= 0.0
    requires k in current <==> k in view
    requires k in view ==> current[k] == view[k]
    ensures OutcomeAsPredicted(view, k, d, VisitOutcome(current, k, d))
  {
    LevelOfDetailRange(d);
  }

  /** Keys are only added, and from the second tick with the same viewer chunk on, not even that. */
  lemma SecondTickAddsNoKeys(view: map<Coord, ChunkView>, scan: seq<Coord>, distance: Coord -> real)
    requires WellFormed(view) && NoDuplicates(scan)
    ensures view.Keys <= Tick(view, scan, distance).Keys
    ensures WellFormed(Tick(view, scan, distance))
    ensures Tick(Tick(view, scan, distance), scan, distance).Keys == Tick(view, scan, distance).Keys
    ensures forall k :: k in Tick(Tick(view, scan, distance), scan, distance) ==>
              (Tick(Tick(view, scan, distance), scan, distance)[k].visible <==> k in scan && distance(k) <= MaxViewDistance)
  {
    var once := Tick(view, scan, distance);
    TickEffect(view, scan, distance);
    TickEffect(once, scan, distance);
    SecondTickIsStable(view.Keys, scan, distance);
  }
}
