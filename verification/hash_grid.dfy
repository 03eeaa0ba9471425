/** One uniform grid of the hierarchical spatial hash grid (class `Grid` of
    src/physics/hshg.ts). Objects are identified by `ObjId`; the metadata the
    source stores on each object (`objectContainerIndex`,
    `allGridObjectsIndex`, `hash`) is kept in the grid's `meta` map, and the
    bounding box of an object is read through a `boxOf` function. */
module HashGrid {
  import opened Wrappers
  import opened HashGeometry

  type ObjId = nat

  /** `INITIAL_GRID_LENGTH`: 256 cells, a 16 x 16 grid. */
  const InitialGridLength: nat := 256
  const InitialRowColumnCount: nat := 16

  /** A cell: its objects, its neighbour-offset table, its position in the
      grid's list of occupied cells (`null` when empty) and its own index. */
  datatype Cell = Cell(objects: seq<ObjId>, offsets: seq<int>, occupiedIndex: Option<nat>, allCellsIndex: nat)

  /** The per-grid part of `obj.HSHG`. */
  datatype GridMeta = GridMeta(containerIndex: nat, allIndex: nat, hash: nat)

  datatype Grid = Grid(
    cellSize: real,
    rcc: nat,
    cells: seq<Cell>,
    occupied: seq<nat>,
    allObjects: seq<ObjId>,
    meta: map<ObjId, GridMeta>)

  // ---------------------------------------------------------------------
  // Invariants

  /** The cell table is the one `initCells` builds for the row/column count. */
  predicate CellsShaped(g: Grid) {
    && g.cellSize > 0.0
    && g.rcc >= 2 && IsPow2(g.rcc)
    && |g.cells| == g.rcc * g.rcc
    && (forall i :: 0 <= i < |g.cells| ==>
          g.cells[i].allCellsIndex == i && g.cells[i].offsets == NeighborOffsets(g.rcc, i))
  }

  /** `occupiedCells` lists exactly the non-empty cells, each knowing its slot. */
  predicate OccupiedConsistent(g: Grid) {
    && (forall i :: 0 <= i < |g.cells| ==>
          (g.cells[i].occupiedIndex.Some? <==> |g.cells[i].objects| > 0))
    && (forall i :: 0 <= i < |g.cells| && g.cells[i].occupiedIndex.Some? ==>
          g.cells[i].occupiedIndex.value < |g.occupied| && g.occupied[g.cells[i].occupiedIndex.value] == i)
    && (forall j :: 0 <= j < |g.occupied| ==>
          g.occupied[j] < |g.cells| && g.cells[g.occupied[j]].occupiedIndex == Some(j))
  }

  /** `allObjects[allGridObjectsIndex]` is the object, for every object. */
  predicate AllObjectsConsistent(g: Grid) {
    && (forall j :: 0 <= j < |g.allObjects| ==>
          g.allObjects[j] in g.meta && g.meta[g.allObjects[j]].allIndex == j)
    && (forall o :: o in g.meta ==>
          g.meta[o].allIndex < |g.allObjects| && g.allObjects[g.meta[o].allIndex] == o)
  }

  /** `allCells[hash].objectContainer[objectContainerIndex]` is the object,
      and every object in a cell has that cell as its hash. */
  predicate CellObjectsConsistent(g: Grid) {
    && (forall i, k :: 0 <= i < |g.cells| && 0 <= k < |g.cells[i].objects| ==>
          g.cells[i].objects[k] in g.meta
          && g.meta[g.cells[i].objects[k]].hash == i
          && g.meta[g.cells[i].objects[k]].containerIndex == k)
    && (forall o :: o in g.meta ==>
          g.meta[o].hash < |g.cells|
          && g.meta[o].containerIndex < |g.cells[g.meta[o].hash].objects|
          && g.cells[g.meta[o].hash].objects[g.meta[o].containerIndex] == o)
  }

  /** The back-pointer invariant of one grid. */
  predicate GridShape(g: Grid) {
    CellsShaped(g) && OccupiedConsistent(g) && AllObjectsConsistent(g) && CellObjectsConsistent(g)
  }

  /** `MAX_OBJECT_CELL_DENSITY`: at most one object per eight cells. */
  predicate Sparse(g: Grid) {
    8 * |g.allObjects| <= |g.cells|
  }

  predicate GridValid(g: Grid) {
    GridShape(g) && Sparse(g)
  }

  /** The cell an object's box hashes to in this grid. */
  function HashIn(g: Grid, b: Aabb): (h: nat)
    requires CellsShaped(g)
    ensures h < |g.cells|
  {
    ToHash(g.cellSize, g.rcc, b.minX, b.minY)
  }

  /** Every object of the grid sits in the cell its current box hashes to. */
  predicate Hashed(g: Grid, boxOf: ObjId -> Aabb)
    requires CellsShaped(g)
  {
    forall o :: o in g.meta ==> g.meta[o].hash == HashIn(g, boxOf(o))
  }

  lemma AllObjectsDistinct(g: Grid, i: nat, j: nat)
    requires AllObjectsConsistent(g)
    requires i < |g.allObjects| && j < |g.allObjects| && i != j
    ensures g.allObjects[i] != g.allObjects[j]
  {
  }

  /** The grid's objects are exactly the elements of `allObjects`. */
  lemma MetaIsAllObjects(g: Grid)
    requires AllObjectsConsistent(g)
    ensures g.meta.Keys == set o | o in g.allObjects
  {
  }

  // ---------------------------------------------------------------------
  // initCells

  /** The cells `initCells` builds: cell `i` is empty, unoccupied, and has
      the neighbour table of its position. */
  method InitCells(rcc: nat) returns (cells: seq<Cell>)
    requires rcc >= 1
    ensures |cells| == rcc * rcc
    ensures forall i :: 0 <= i < |cells| ==>
      cells[i] == Cell([], NeighborOffsets(rcc, i), None, i)
  {
    var gridLength := rcc * rcc;
    cells := [];
    var i := 0;
    while i < gridLength
      invariant 0 <= i <= gridLength
      invariant |cells| == i
      invariant forall j :: 0 <= j < i ==> cells[j] == Cell([], NeighborOffsets(rcc, j), None, j)
    {
      cells := cells + [Cell([], NeighborOffsets(rcc, i), None, i)];
      i := i + 1;
    }
  }

  /** `new Grid(cellSize, INITIAL_GRID_LENGTH)` followed by `initCells()`. */
  method NewGrid(cellSize: real) returns (g: Grid)
    requires cellSize > 0.0
    ensures GridValid(g)
    ensures g.cellSize == cellSize && g.rcc == InitialRowColumnCount
    ensures g.meta == map[] && g.allObjects == []
  {
    assert IsPow2(2) && IsPow2(4) && IsPow2(8) && IsPow2(16);
    var cells := InitCells(InitialRowColumnCount);
    g := Grid(cellSize, InitialRowColumnCount, cells, [], [], map[]);
  }

  // ---------------------------------------------------------------------
  // addObject without the density check

  /** The bookkeeping half of `Grid.addObject`: push the object onto the
      target cell (registering the cell as occupied if it was empty) and onto
      `allObjects`, and record its indices and hash. */
  method Place(g: Grid, o: ObjId, hash: nat) returns (r: Grid)
    requires GridShape(g) && o !in g.meta && hash < |g.cells|
    ensures GridShape(r)
    ensures r.cellSize == g.cellSize && r.rcc == g.rcc && |r.cells| == |g.cells|
    ensures r.meta.Keys == g.meta.Keys + {o}
    ensures r.meta[o].hash == hash
    ensures forall p :: p in g.meta ==> r.meta[p].hash == g.meta[p].hash
    ensures r.allObjects == g.allObjects + [o]
  {
    r := Placed(g, o, hash);
    PlacedCellsShaped(g, o, hash);
    PlacedOccupied(g, o, hash);
    PlacedAllObjects(g, o, hash);
    PlacedCellObjects(g, o, hash);
  }

  /** The grid after `o` is pushed onto cell `hash` and onto `allObjects`. */
  function Placed(g: Grid, o: ObjId, hash: nat): Grid
    requires hash < |g.cells|
  {
    var c := g.cells[hash];
    var wasEmpty := |c.objects| == 0;
    var cell := c.(objects := c.objects + [o],
                   occupiedIndex := if wasEmpty then Some(|g.occupied|) else c.occupiedIndex);
    g.(cells := g.cells[hash := cell],
       occupied := if wasEmpty then g.occupied + [hash] else g.occupied,
       allObjects := g.allObjects + [o],
       meta := g.meta[o := GridMeta(|c.objects|, |g.allObjects|, hash)])
  }

  lemma PlacedCellsShaped(g: Grid, o: ObjId, hash: nat)
    requires CellsShaped(g) && hash < |g.cells|
    ensures CellsShaped(Placed(g, o, hash))
  {
  }

  lemma PlacedOccupied(g: Grid, o: ObjId, hash: nat)
    requires OccupiedConsistent(g) && hash < |g.cells|
    ensures OccupiedConsistent(Placed(g, o, hash))
  {
    var r := Placed(g, o, hash);
    forall j | 0 <= j < |r.occupied|
      ensures r.occupied[j] < |r.cells| && r.cells[r.occupied[j]].occupiedIndex == Some(j)
    {
      if j < |g.occupied| {
        assert r.occupied[j] == g.occupied[j];
      }
    }
  }

  lemma PlacedAllObjects(g: Grid, o: ObjId, hash: nat)
    requires AllObjectsConsistent(g) && o !in g.meta && hash < |g.cells|
    ensures AllObjectsConsistent(Placed(g, o, hash))
  {
  }

  lemma PlacedCellObjects(g: Grid, o: ObjId, hash: nat)
    requires CellObjectsConsistent(g) && o !in g.meta && hash < |g.cells|
    ensures CellObjectsConsistent(Placed(g, o, hash))
  {
    var r := Placed(g, o, hash);
    var c := g.cells[hash];
    forall i, k | 0 <= i < |r.cells| && 0 <= k < |r.cells[i].objects|
      ensures r.cells[i].objects[k] in r.meta
        && r.meta[r.cells[i].objects[k]].hash == i
        && r.meta[r.cells[i].objects[k]].containerIndex == k
    {
      if i == hash && k == |c.objects| {
        assert r.cells[i].objects[k] == o;
      } else if i == hash {
        assert r.cells[i].objects[k] == g.cells[i].objects[k];
      } else {
        assert r.cells[i] == g.cells[i];
      }
    }
  }

  // ---------------------------------------------------------------------
  // removeObject

  /** Removing element `i` by moving the last element into its slot drops
      exactly that element from the multiset. */
  lemma SwapRemoveMultiset<T>(s: seq<T>, i: nat)
    requires i < |s| - 1
    ensures multiset(s[..|s| - 1][i := s[|s| - 1]]) == multiset(s) - multiset{s[i]}
  {
    assert s == s[..|s| - 1] + [s[|s| - 1]];
    var t := s[..|s| - 1];
    assert t == t[..i] + [s[i]] + t[i + 1..];
    assert t[i := s[|s| - 1]] == t[..i] + [s[|s| - 1]] + t[i + 1..];
  }

  lemma PopMultiset<T>(s: seq<T>)
    requires |s| > 0
    ensures multiset(s[..|s| - 1]) == multiset(s) - multiset{s[|s| - 1]}
  {
    assert s == s[..|s| - 1] + [s[|s| - 1]];
  }

  /** Every object in a cell other than `o` is registered with the right
      hash and container index, and every registered object other than `o`
      sits where its metadata says; `o` is in no cell. */
  predicate CellObjectsConsistentExcept(g: Grid, o: ObjId) {
    && (forall i, k :: 0 <= i < |g.cells| && 0 <= k < |g.cells[i].objects| ==>
          g.cells[i].objects[k] != o
          && g.cells[i].objects[k] in g.meta
          && g.meta[g.cells[i].objects[k]].hash == i
          && g.meta[g.cells[i].objects[k]].containerIndex == k)
    && (forall p :: p in g.meta && p != o ==>
          g.meta[p].hash < |g.cells|
          && g.meta[p].containerIndex < |g.cells[g.meta[p].hash].objects|
          && g.cells[g.meta[p].hash].objects[g.meta[p].containerIndex] == p)
  }

  /** The same for `allObjects`. */
  predicate AllObjectsConsistentExcept(g: Grid, o: ObjId) {
    && (forall j :: 0 <= j < |g.allObjects| ==>
          g.allObjects[j] != o && g.allObjects[j] in g.meta && g.meta[g.allObjects[j]].allIndex == j)
    && (forall p :: p in g.meta && p != o ==>
          g.meta[p].allIndex < |g.allObjects| && g.allObjects[g.meta[p].allIndex] == p)
  }

  /** The cell half of `Grid.removeObject`: the last object of the cell
      takes the removed object's slot, and a cell left empty is swap-removed
      from `occupiedCells`. */
  function DetachFromCell(g: Grid, o: ObjId): Grid
    requires GridShape(g) && o in g.meta
  {
    var m := g.meta[o];
    var h := m.hash;
    var c := g.cells[h];
    if |c.objects| == 1 then
      var oi := c.occupiedIndex.value;
      var last := |g.occupied| - 1;
      if oi == last then
        g.(cells := g.cells[h := c.(objects := [], occupiedIndex := None)],
           occupied := g.occupied[..last])
      else
        var rc := g.occupied[last];
        g.(cells := g.cells[rc := g.cells[rc].(occupiedIndex := Some(oi))][h := c.(objects := [], occupiedIndex := None)],
           occupied := g.occupied[..last][oi := rc])
    else
      var ci := m.containerIndex;
      var last := |c.objects| - 1;
      if ci == last then
        g.(cells := g.cells[h := c.(objects := c.objects[..last])])
      else
        var ro := c.objects[last];
        g.(cells := g.cells[h := c.(objects := c.objects[..last][ci := ro])],
           meta := g.meta[ro := g.meta[ro].(containerIndex := ci)])
  }

  lemma DetachFromCellSpec(g: Grid, o: ObjId)
    requires GridShape(g) && o in g.meta
    ensures var r := DetachFromCell(g, o);
      && CellsShaped(r) && OccupiedConsistent(r) && AllObjectsConsistent(r)
      && CellObjectsConsistentExcept(r, o)
      && r.meta.Keys == g.meta.Keys
      && (forall p :: p in g.meta ==> r.meta[p].hash == g.meta[p].hash && r.meta[p].allIndex == g.meta[p].allIndex)
      && r.allObjects == g.allObjects && r.rcc == g.rcc && r.cellSize == g.cellSize
  {
    DetachFromCellShape(g, o);
    DetachFromCellFrame(g, o);
  }

  lemma DetachFromCellFrame(g: Grid, o: ObjId)
    requires GridShape(g) && o in g.meta
    ensures var r := DetachFromCell(g, o);
      && r.meta.Keys == g.meta.Keys
      && (forall p :: p in g.meta ==> r.meta[p].hash == g.meta[p].hash && r.meta[p].allIndex == g.meta[p].allIndex)
      && r.allObjects == g.allObjects && r.rcc == g.rcc && r.cellSize == g.cellSize
  {
  }

  lemma DetachFromCellShape(g: Grid, o: ObjId)
    requires GridShape(g) && o in g.meta
    ensures var r := DetachFromCell(g, o);
      CellsShaped(r) && OccupiedConsistent(r) && AllObjectsConsistent(r) && CellObjectsConsistentExcept(r, o)
  {
    var m := g.meta[o];
    var h := m.hash;
    var c := g.cells[h];
    var r := DetachFromCell(g, o);
    if |c.objects| == 1 {
      assert c.objects[0] == o;
      var oi := c.occupiedIndex.value;
      var last := |g.occupied| - 1;
      if oi == last {
        DetachSoleLast(g, o, r);
      } else {
        DetachSoleSwap(g, o, r);
      }
    } else {
      var ci := m.containerIndex;
      var last := |c.objects| - 1;
      if ci == last {
        DetachLast(g, o, r);
      } else {
        DetachSwap(g, o, r);
      }
    }
  }

  lemma DetachSoleLast(g: Grid, o: ObjId, r: Grid)
    requires GridShape(g) && o in g.meta
    requires var c := g.cells[g.meta[o].hash];
      |c.objects| == 1 && c.occupiedIndex.value == |g.occupied| - 1
      && r == g.(cells := g.cells[g.meta[o].hash := c.(objects := [], occupiedIndex := None)],
                 occupied := g.occupied[..|g.occupied| - 1])
    ensures CellsShaped(r) && OccupiedConsistent(r) && AllObjectsConsistent(r) && CellObjectsConsistentExcept(r, o)
  {
    var h := g.meta[o].hash;
    assert g.cells[h].objects[0] == o;
    assert OccupiedConsistent(r) by {
      forall j | 0 <= j < |r.occupied|
        ensures r.occupied[j] < |r.cells| && r.cells[r.occupied[j]].occupiedIndex == Some(j)
      {
        assert r.occupied[j] == g.occupied[j];
      }
    }
    assert CellObjectsConsistentExcept(r, o) by {
      forall p | p in r.meta && p != o
        ensures r.meta[p].hash < |r.cells|
          && r.meta[p].containerIndex < |r.cells[r.meta[p].hash].objects|
          && r.cells[r.meta[p].hash].objects[r.meta[p].containerIndex] == p
      {
        assert g.meta[p].hash != h;
      }
    }
  }

  predicate SoleSwapped(g: Grid, o: ObjId, r: Grid)
    requires GridShape(g) && o in g.meta
  {
    var h := g.meta[o].hash;
    var c := g.cells[h];
    |c.objects| == 1 && c.occupiedIndex.value != |g.occupied| - 1
    && var oi := c.occupiedIndex.value;
       var last := |g.occupied| - 1;
       r == g.(cells := g.cells[g.occupied[last] := g.cells[g.occupied[last]].(occupiedIndex := Some(oi))][h := c.(objects := [], occupiedIndex := None)],
               occupied := g.occupied[..last][oi := g.occupied[last]])
  }

  lemma DetachSoleSwap(g: Grid, o: ObjId, r: Grid)
    requires GridShape(g) && o in g.meta && SoleSwapped(g, o, r)
    ensures CellsShaped(r) && OccupiedConsistent(r) && AllObjectsConsistent(r) && CellObjectsConsistentExcept(r, o)
  {
    DetachSoleSwapOccupied(g, o, r);
    DetachSoleSwapObjects(g, o, r);
  }

  lemma DetachSoleSwapOccupied(g: Grid, o: ObjId, r: Grid)
    requires GridShape(g) && o in g.meta && SoleSwapped(g, o, r)
    ensures OccupiedConsistent(r)
  {
    var h := g.meta[o].hash;
    var c := g.cells[h];
    var oi := c.occupiedIndex.value;
    var last := |g.occupied| - 1;
    var rc := g.occupied[last];
    assert g.cells[h].objects[0] == o;
    assert rc != h;
    forall i | 0 <= i < |r.cells| && r.cells[i].occupiedIndex.Some?
      ensures r.cells[i].occupiedIndex.value < |r.occupied| && r.occupied[r.cells[i].occupiedIndex.value] == i
    {
      if i != rc {
        assert r.cells[i] == g.cells[i];
        assert g.cells[i].occupiedIndex.value != last;
      }
    }
    forall j | 0 <= j < |r.occupied|
      ensures r.occupied[j] < |r.cells| && r.cells[r.occupied[j]].occupiedIndex == Some(j)
    {
      if j != oi {
        assert r.occupied[j] == g.occupied[j];
      }
    }
  }

  lemma DetachSoleSwapObjects(g: Grid, o: ObjId, r: Grid)
    requires GridShape(g) && o in g.meta && SoleSwapped(g, o, r)
    ensures CellsShaped(r) && AllObjectsConsistent(r) && CellObjectsConsistentExcept(r, o)
  {
    var h := g.meta[o].hash;
    var rc := g.occupied[|g.occupied| - 1];
    assert g.cells[h].objects[0] == o;
    assert rc != h;
    forall p | p in r.meta && p != o
      ensures r.meta[p].hash < |r.cells|
        && r.meta[p].containerIndex < |r.cells[r.meta[p].hash].objects|
        && r.cells[r.meta[p].hash].objects[r.meta[p].containerIndex] == p
    {
      assert g.meta[p].hash != h;
    }
  }

  lemma DetachLast(g: Grid, o: ObjId, r: Grid)
    requires GridShape(g) && o in g.meta
    requires var h := g.meta[o].hash; var c := g.cells[h];
      |c.objects| != 1 && g.meta[o].containerIndex == |c.objects| - 1
      && r == g.(cells := g.cells[h := c.(objects := c.objects[..|c.objects| - 1])])
    ensures CellsShaped(r) && OccupiedConsistent(r) && AllObjectsConsistent(r) && CellObjectsConsistentExcept(r, o)
  {
    var h := g.meta[o].hash;
    var c := g.cells[h];
    assert CellObjectsConsistentExcept(r, o) by {
      forall i, k | 0 <= i < |r.cells| && 0 <= k < |r.cells[i].objects|
        ensures r.cells[i].objects[k] != o
          && r.cells[i].objects[k] in r.meta
          && r.meta[r.cells[i].objects[k]].hash == i
          && r.meta[r.cells[i].objects[k]].containerIndex == k
      {
        assert r.cells[i].objects[k] == g.cells[i].objects[k];
      }
      forall p | p in r.meta && p != o
        ensures r.meta[p].hash < |r.cells|
          && r.meta[p].containerIndex < |r.cells[r.meta[p].hash].objects|
          && r.cells[r.meta[p].hash].objects[r.meta[p].containerIndex] == p
      {
        if g.meta[p].hash == h {
          assert g.meta[p].containerIndex != |c.objects| - 1;
        }
      }
    }
  }

  predicate Swapped(g: Grid, o: ObjId, r: Grid) {
    && o in g.meta && g.meta[o].hash < |g.cells|
    && var h := g.meta[o].hash;
       var c := g.cells[h];
       var ci := g.meta[o].containerIndex;
       var last := |c.objects| - 1;
       && 1 < |c.objects| && ci < last && c.objects[ci] == o && c.objects[last] in g.meta
       && r == g.(cells := g.cells[h := c.(objects := c.objects[..last][ci := c.objects[last]])],
                  meta := g.meta[c.objects[last] := g.meta[c.objects[last]].(containerIndex := ci)])
  }

  lemma DetachSwap(g: Grid, o: ObjId, r: Grid)
    requires GridShape(g) && Swapped(g, o, r)
    ensures CellsShaped(r) && OccupiedConsistent(r) && AllObjectsConsistent(r) && CellObjectsConsistentExcept(r, o)
  {
    DetachSwapShape(g, o, r);
    DetachSwapAll(g, o, r);
    DetachSwapCells(g, o, r);
    DetachSwapMeta(g, o, r);
  }

  lemma DetachSwapShape(g: Grid, o: ObjId, r: Grid)
    requires CellsShaped(g) && OccupiedConsistent(g) && Swapped(g, o, r)
    ensures CellsShaped(r) && OccupiedConsistent(r)
  {
  }

  lemma DetachSwapAll(g: Grid, o: ObjId, r: Grid)
    requires AllObjectsConsistent(g) && CellObjectsConsistent(g) && Swapped(g, o, r)
    ensures AllObjectsConsistent(r)
  {
    var c := g.cells[g.meta[o].hash];
    assert c.objects[|c.objects| - 1] in g.meta;
  }

  lemma DetachSwapCells(g: Grid, o: ObjId, r: Grid)
    requires CellObjectsConsistent(g) && Swapped(g, o, r)
    ensures forall i, k :: 0 <= i < |r.cells| && 0 <= k < |r.cells[i].objects| ==>
      r.cells[i].objects[k] != o
      && r.cells[i].objects[k] in r.meta
      && r.meta[r.cells[i].objects[k]].hash == i
      && r.meta[r.cells[i].objects[k]].containerIndex == k
  {
    var h := g.meta[o].hash;
    var c := g.cells[h];
    var ci := g.meta[o].containerIndex;
    var last := |c.objects| - 1;
    var ro := c.objects[last];
    assert ro != o;
    forall i, k | 0 <= i < |r.cells| && 0 <= k < |r.cells[i].objects|
      ensures r.cells[i].objects[k] != o
        && r.cells[i].objects[k] in r.meta
        && r.meta[r.cells[i].objects[k]].hash == i
        && r.meta[r.cells[i].objects[k]].containerIndex == k
    {
      if i == h && k == ci {
        assert r.cells[i].objects[k] == ro;
      } else {
        assert r.cells[i].objects[k] == g.cells[i].objects[k];
      }
    }
  }

  lemma DetachSwapMeta(g: Grid, o: ObjId, r: Grid)
    requires CellObjectsConsistent(g) && Swapped(g, o, r)
    ensures forall p :: p in r.meta && p != o ==>
      r.meta[p].hash < |r.cells|
      && r.meta[p].containerIndex < |r.cells[r.meta[p].hash].objects|
      && r.cells[r.meta[p].hash].objects[r.meta[p].containerIndex] == p
  {
    var h := g.meta[o].hash;
    var c := g.cells[h];
    var ci := g.meta[o].containerIndex;
    var last := |c.objects| - 1;
    var ro := c.objects[last];
    forall p | p in r.meta && p != o
      ensures r.meta[p].hash < |r.cells|
        && r.meta[p].containerIndex < |r.cells[r.meta[p].hash].objects|
        && r.cells[r.meta[p].hash].objects[r.meta[p].containerIndex] == p
    {
      if p != ro && g.meta[p].hash == h {
        assert g.meta[p].containerIndex != last;
      }
    }
  }

  /** The `allObjects` half of `Grid.removeObject` (the last object takes
      the removed one's slot), followed by forgetting the object's metadata. */
  function DetachFromAll(g: Grid, o: ObjId): Grid
    requires AllObjectsConsistent(g) && o in g.meta
  {
    var ai := g.meta[o].allIndex;
    var last := |g.allObjects| - 1;
    if ai == last then
      g.(allObjects := g.allObjects[..last], meta := g.meta - {o})
    else
      var ra := g.allObjects[last];
      g.(allObjects := g.allObjects[..last][ai := ra],
         meta := g.meta[ra := g.meta[ra].(allIndex := ai)] - {o})
  }

  lemma DetachFromAllSpec(g: Grid, o: ObjId)
    requires CellsShaped(g) && OccupiedConsistent(g) && AllObjectsConsistent(g)
    requires CellObjectsConsistentExcept(g, o) && o in g.meta
    ensures var r := DetachFromAll(g, o);
      && GridShape(r)
      && r.meta.Keys == g.meta.Keys - {o}
      && (forall p :: p in r.meta ==> r.meta[p].hash == g.meta[p].hash)
      && multiset(r.allObjects) == multiset(g.allObjects) - multiset{o}
      && |r.allObjects| == |g.allObjects| - 1
      && r.cells == g.cells && r.occupied == g.occupied
      && r.rcc == g.rcc && r.cellSize == g.cellSize
  {
    DetachFromAllObjects(g, o);
    DetachFromAllCells(g, o);
  }

  lemma DetachFromAllCells(g: Grid, o: ObjId)
    requires CellsShaped(g) && OccupiedConsistent(g) && AllObjectsConsistent(g)
    requires CellObjectsConsistentExcept(g, o) && o in g.meta
    ensures var r := DetachFromAll(g, o);
      && CellsShaped(r) && OccupiedConsistent(r) && CellObjectsConsistent(r)
      && r.meta.Keys == g.meta.Keys - {o}
      && (forall p :: p in r.meta ==> r.meta[p].hash == g.meta[p].hash && r.meta[p].containerIndex == g.meta[p].containerIndex)
  {
    var r := DetachFromAll(g, o);
    DetachFromAllMeta(g, o);
    ForgetDetached(g, o, r);
  }

  lemma DetachFromAllMeta(g: Grid, o: ObjId)
    requires AllObjectsConsistent(g) && o in g.meta
    ensures var r := DetachFromAll(g, o);
      && r.cells == g.cells && r.occupied == g.occupied && r.rcc == g.rcc && r.cellSize == g.cellSize
      && r.meta.Keys == g.meta.Keys - {o}
      && (forall p :: p in r.meta ==> r.meta[p].hash == g.meta[p].hash && r.meta[p].containerIndex == g.meta[p].containerIndex)
  {
  }

  /** Dropping a detached object's metadata, leaving the cells and the other
      objects' hashes and container indices alone, restores the invariant. */
  lemma ForgetDetached(g: Grid, o: ObjId, r: Grid)
    requires CellsShaped(g) && OccupiedConsistent(g) && CellObjectsConsistentExcept(g, o)
    requires r.cells == g.cells && r.occupied == g.occupied && r.rcc == g.rcc && r.cellSize == g.cellSize
    requires r.meta.Keys == g.meta.Keys - {o}
    requires forall p :: p in r.meta ==> r.meta[p].hash == g.meta[p].hash && r.meta[p].containerIndex == g.meta[p].containerIndex
    ensures CellsShaped(r) && OccupiedConsistent(r) && CellObjectsConsistent(r)
  {
  }

  lemma DetachFromAllObjects(g: Grid, o: ObjId)
    requires AllObjectsConsistent(g) && o in g.meta
    ensures var r := DetachFromAll(g, o);
      && AllObjectsConsistent(r)
      && multiset(r.allObjects) == multiset(g.allObjects) - multiset{o}
      && |r.allObjects| == |g.allObjects| - 1
  {
    if g.meta[o].allIndex == |g.allObjects| - 1 {
      PopAllObjects(g, o);
    } else {
      SwapAllObjects(g, o);
    }
  }

  lemma PopAllObjects(g: Grid, o: ObjId)
    requires AllObjectsConsistent(g) && o in g.meta
    requires g.meta[o].allIndex == |g.allObjects| - 1
    ensures var r := DetachFromAll(g, o);
      && AllObjectsConsistent(r)
      && multiset(r.allObjects) == multiset(g.allObjects) - multiset{o}
      && |r.allObjects| == |g.allObjects| - 1
  {
    var r := DetachFromAll(g, o);
    PopMultiset(g.allObjects);
    forall j | 0 <= j < |r.allObjects|
      ensures r.allObjects[j] in r.meta && r.meta[r.allObjects[j]].allIndex == j
    {
      assert r.allObjects[j] == g.allObjects[j];
    }
  }

  lemma SwapAllObjects(g: Grid, o: ObjId)
    requires AllObjectsConsistent(g) && o in g.meta
    requires g.meta[o].allIndex != |g.allObjects| - 1
    ensures var r := DetachFromAll(g, o);
      && AllObjectsConsistent(r)
      && multiset(r.allObjects) == multiset(g.allObjects) - multiset{o}
      && |r.allObjects| == |g.allObjects| - 1
  {
    var ai := g.meta[o].allIndex;
    var last := |g.allObjects| - 1;
    var ra := g.allObjects[last];
    var r := DetachFromAll(g, o);
    SwapRemoveMultiset(g.allObjects, ai);
    assert ra != o;
    assert r.meta == g.meta[ra := g.meta[ra].(allIndex := ai)] - {o};
    forall j | 0 <= j < |r.allObjects|
      ensures r.allObjects[j] in r.meta && r.meta[r.allObjects[j]].allIndex == j
    {
      if j != ai {
        assert r.allObjects[j] == g.allObjects[j];
      }
    }
    forall p | p in r.meta
      ensures r.meta[p].allIndex < |r.allObjects| && r.allObjects[r.meta[p].allIndex] == p
    {
      if p != ra {
        assert g.meta[p].allIndex != last;
      }
    }
  }

  /** `Grid.removeObject`: the object leaves its cell (an emptied cell
      leaves `occupiedCells`) and `allObjects`, by swap-removal; every other
      object stays in its cell. */
  method Remove(g: Grid, o: ObjId) returns (r: Grid)
    requires GridShape(g) && o in g.meta
    ensures GridShape(r)
    ensures r.cellSize == g.cellSize && r.rcc == g.rcc && |r.cells| == |g.cells|
    ensures r.meta.Keys == g.meta.Keys - {o}
    ensures forall p :: p in r.meta ==> r.meta[p].hash == g.meta[p].hash
    ensures multiset(r.allObjects) == multiset(g.allObjects) - multiset{o}
    ensures |r.allObjects| == |g.allObjects| - 1
  {
    var g1 := DetachFromCell(g, o);
    DetachFromCellSpec(g, o);
    r := DetachFromAll(g1, o);
    DetachFromAllSpec(g1, o);
  }

  // ---------------------------------------------------------------------
  // expandGrid and addObject

  /** A grid without objects has no occupied cells. */
  lemma EmptyGrid(g: Grid)
    requires GridShape(g) && g.meta == map[]
    ensures g.allObjects == [] && g.occupied == []
  {
    if |g.allObjects| > 0 {
      FirstObjectRegistered(g);
      assert false;
    }
    if |g.occupied| > 0 {
      FirstOccupiedRegistered(g);
      assert false;
    }
  }

  lemma FirstObjectRegistered(g: Grid)
    requires AllObjectsConsistent(g) && |g.allObjects| > 0
    ensures g.allObjects[0] in g.meta
  {
  }

  lemma FirstOccupiedRegistered(g: Grid)
    requires GridShape(g) && |g.occupied| > 0
    ensures g.cells[g.occupied[0]].objects[0] in g.meta
  {
  }

  function Elements(s: seq<ObjId>): set<ObjId> {
    set o | o in s
  }

  predicate Distinct(s: seq<ObjId>) {
    forall i, j :: 0 <= i < j < |s| ==> s[i] != s[j]
  }

  lemma AllObjectsAreDistinct(g: Grid)
    requires AllObjectsConsistent(g)
    ensures Distinct(g.allObjects)
  {
    forall i, j | 0 <= i < j < |g.allObjects|
      ensures g.allObjects[i] != g.allObjects[j]
    {
      AllObjectsDistinct(g, i, j);
    }
  }

  lemma DropFirst(s: seq<ObjId>, i: nat)
    requires Distinct(s) && i < |s|
    ensures Elements(s[i + 1..]) == Elements(s[i..]) - {s[i]}
    ensures multiset(s[i + 1..]) == multiset(s[i..]) - multiset{s[i]}
  {
    assert s[i..] == [s[i]] + s[i + 1..];
  }

  /** The removal half of `expandGrid`: every object of the snapshot leaves
      the grid, in snapshot order. */
  method RemoveAll(g: Grid, snapshot: seq<ObjId>) returns (r: Grid)
    requires GridShape(g) && Distinct(snapshot) && g.meta.Keys == Elements(snapshot)
    ensures GridShape(r) && r.meta == map[] && r.allObjects == [] && r.occupied == []
    ensures r.cellSize == g.cellSize && r.rcc == g.rcc && |r.cells| == |g.cells|
  {
    r := g;
    var i := 0;
    while i < |snapshot|
      invariant 0 <= i <= |snapshot|
      invariant GridShape(r)
      invariant r.cellSize == g.cellSize && r.rcc == g.rcc && |r.cells| == |g.cells|
      invariant r.meta.Keys == Elements(snapshot[i..])
    {
      DropFirst(snapshot, i);
      r := Remove(r, snapshot[i]);
      i := i + 1;
    }
    assert r.meta.Keys == {};
    EmptyGrid(r);
  }

  /** The re-adding half of `expandGrid`: each object of the snapshot goes,
      in order, to the cell its current box hashes to. The density check of
      each re-add never fires when the snapshot fits the grid. */
  method PlaceAll(g: Grid, snapshot: seq<ObjId>, boxOf: ObjId -> Aabb) returns (r: Grid)
    requires GridShape(g) && g.meta == map[] && g.allObjects == []
    requires Distinct(snapshot) && 8 * |snapshot| <= |g.cells|
    ensures GridValid(r) && Hashed(r, boxOf)
    ensures r.rcc == g.rcc && r.cellSize == g.cellSize && |r.cells| == |g.cells|
    ensures r.meta.Keys == Elements(snapshot)
    ensures r.allObjects == snapshot
  {
    r := g;
    var i := 0;
    while i < |snapshot|
      invariant 0 <= i <= |snapshot|
      invariant GridShape(r) && Hashed(r, boxOf)
      invariant r.rcc == g.rcc && r.cellSize == g.cellSize && |r.cells| == |g.cells|
      invariant r.meta.Keys == Elements(snapshot[..i])
      invariant r.allObjects == snapshot[..i]
    {
      var o := snapshot[i];
      assert o !in Elements(snapshot[..i]);
      assert snapshot[..i + 1] == snapshot[..i] + [o];
      r := Place(r, o, HashIn(r, boxOf(o)));
      if 8 * |r.allObjects| > |r.cells| {
        assert false;
      }
      i := i + 1;
    }
    assert snapshot[..i] == snapshot;
  }

  lemma DoubledShape(g: Grid, cells: seq<Cell>)
    requires GridShape(g) && g.meta == map[] && g.allObjects == [] && g.occupied == []
    requires |cells| == (2 * g.rcc) * (2 * g.rcc)
    requires forall i :: 0 <= i < |cells| ==> cells[i] == Cell([], NeighborOffsets(2 * g.rcc, i), None, i)
    ensures GridShape(g.(rcc := 2 * g.rcc, cells := cells))
    ensures |cells| == 4 * |g.cells|
  {
    assert (2 * g.rcc) * (2 * g.rcc) == 4 * (g.rcc * g.rcc);
  }

  /** `expandGrid`: the row/column count doubles (`~~Math.sqrt(4 * cells)`),
      the cell table is rebuilt, and every object is re-added with the hash
      of its current box. The grid was at most one object over the limit and
      now has four times as many cells, so it ends sparse. */
  method ExpandGrid(g: Grid, boxOf: ObjId -> Aabb) returns (r: Grid)
    requires GridShape(g) && 8 * |g.allObjects| <= |g.cells| + 8
    ensures GridValid(r) && Hashed(r, boxOf)
    ensures r.rcc == 2 * g.rcc && r.cellSize == g.cellSize
    ensures r.meta.Keys == g.meta.Keys
    ensures multiset(r.allObjects) == multiset(g.allObjects)
  {
    var newRowColumnCount := 2 * g.rcc;
    var allObjects := g.allObjects;
    AllObjectsAreDistinct(g);
    MetaIsAllObjects(g);
    var emptied := RemoveAll(g, allObjects);
    var cells := InitCells(newRowColumnCount);
    DoubledShape(emptied, cells);
    r := PlaceAll(emptied.(rcc := newRowColumnCount, cells := cells), allObjects, boxOf);
  }

  /** `Grid.addObject(obj, hash?)`: the object goes to the given cell, or to
      the cell its box hashes to; when that pushes the grid over one object
      per eight cells, the grid doubles and every object is rehashed. */
  method AddObject(g: Grid, o: ObjId, hash: Option<nat>, boxOf: ObjId -> Aabb) returns (r: Grid)
    requires GridValid(g) && o !in g.meta
    requires hash.Some? ==> hash.value < |g.cells|
    ensures GridValid(r)
    ensures r.cellSize == g.cellSize
    ensures r.meta.Keys == g.meta.Keys + {o}
    ensures multiset(r.allObjects) == multiset(g.allObjects) + multiset{o}
    ensures r.rcc == 2 * g.rcc <==> 8 * (|g.allObjects| + 1) > |g.cells|
    ensures r.rcc == g.rcc <==> 8 * (|g.allObjects| + 1) <= |g.cells|
    ensures r.rcc == g.rcc ==>
      && r.meta[o].hash == hash.GetOr(HashIn(g, boxOf(o)))
      && forall p :: p in g.meta ==> r.meta[p].hash == g.meta[p].hash
    ensures r.rcc != g.rcc ==> Hashed(r, boxOf)
  {
    var objHash := if hash.Some? then hash.value else HashIn(g, boxOf(o));
    r := Place(g, o, objHash);
    if 8 * |r.allObjects| > |r.cells| {
      r := ExpandGrid(r, boxOf);
    }
  }

  // ---------------------------------------------------------------------
  // update_RECOMPUTE, within one grid

  /** `grid.removeObject(obj)` followed by `grid.addObject(obj, newHash)`:
      the object moves to cell `newHash`. The grid holds as many objects as
      before, so it does not expand, and every other object keeps its cell. */
  method Move(g: Grid, o: ObjId, newHash: nat, boxOf: ObjId -> Aabb) returns (r: Grid)
    requires GridValid(g) && o in g.meta && newHash < |g.cells|
    ensures GridValid(r)
    ensures r.rcc == g.rcc && r.cellSize == g.cellSize && r.meta.Keys == g.meta.Keys
    ensures multiset(r.allObjects) == multiset(g.allObjects)
    ensures r.meta[o].hash == newHash
    ensures forall p :: p in g.meta && p != o ==> r.meta[p].hash == g.meta[p].hash
  {
    var g1 := Remove(g, o);
    r := AddObject(g1, o, Some(newHash), boxOf);
    assert 8 * (|g1.allObjects| + 1) <= |g1.cells|;
    ReAdded(g.meta.Keys, o);
    MovedMultiset(g, o, g1, r);
    HashesKept(g, o, g1, r);
  }

  lemma HashesKept(g: Grid, o: ObjId, g1: Grid, g2: Grid)
    requires g1.meta.Keys == g.meta.Keys - {o} && g2.meta.Keys == g.meta.Keys
    requires forall p :: p in g1.meta ==> g1.meta[p].hash == g.meta[p].hash
    requires forall p :: p in g1.meta ==> g2.meta[p].hash == g1.meta[p].hash
    ensures forall p :: p in g.meta && p != o ==> g2.meta[p].hash == g.meta[p].hash
  {
    forall p | p in g.meta && p != o
      ensures g2.meta[p].hash == g.meta[p].hash
    {
      assert p in g1.meta;
    }
  }

  lemma ReAdded<T>(a: set<T>, x: T)
    requires x in a
    ensures (a - {x}) + {x} == a
  {
  }

  lemma MovedMultiset(g: Grid, o: ObjId, g1: Grid, g2: Grid)
    requires AllObjectsConsistent(g) && o in g.meta
    requires multiset(g1.allObjects) == multiset(g.allObjects) - multiset{o}
    requires multiset(g2.allObjects) == multiset(g1.allObjects) + multiset{o}
    ensures multiset(g2.allObjects) == multiset(g.allObjects)
  {
    assert g.allObjects[g.meta[o].allIndex] == o;
  }
}
