/** The hierarchy of grids (class `HSHG` of src/physics/hshg.ts). Grids are
    named by `GridId`s so that an object's metadata can point at its grid
    while the list of grids is spliced; the list `order` holds the grids
    from the finest to the coarsest. */
module Hshg {
  import opened Wrappers
  import opened HashGeometry
  import opened HashGrid

  type GridId = nat

  /** `HIERARCHY_FACTOR` and `HIERARCHY_FACTOR_SQRT` (`Math.SQRT2`). */
  const HierarchyFactor: real := 2.0
  const Sqrt2: real := 1.4142135623730951

  /** The hierarchy-level part of `obj.HSHG`. */
  datatype ObjMeta = ObjMeta(globalIndex: nat, grid: GridId)

  datatype Hierarchy = Hierarchy(
    order: seq<GridId>,
    grids: map<GridId, Grid>,
    globals: seq<ObjId>,
    meta: map<ObjId, ObjMeta>,
    nextGridId: GridId)

  // ---------------------------------------------------------------------
  // Invariants

  /** `_grids` lists every grid once. */
  predicate OrderValid(h: Hierarchy) {
    && (forall i, j :: 0 <= i < j < |h.order| ==> h.order[i] != h.order[j])
    && (forall i :: 0 <= i < |h.order| ==> h.order[i] in h.grids)
    && (forall id :: id in h.grids ==> id in h.order && id < h.nextGridId)
  }

  /** `_grids` is strictly increasing by cell size. */
  predicate Increasing(h: Hierarchy)
    requires OrderValid(h)
  {
    forall i, j :: 0 <= i < j < |h.order| ==> h.grids[h.order[i]].cellSize < h.grids[h.order[j]].cellSize
  }

  predicate GridsValid(h: Hierarchy) {
    AllGridsValid(h.grids)
  }

  predicate AllGridsValid(grids: map<GridId, Grid>) {
    forall id :: id in grids ==> GridValid(grids[id])
  }

  /** `_globalObjects[globalObjectsIndex]` is the object, for every object. */
  predicate GlobalsConsistent(h: Hierarchy) {
    IndexConsistent(h.globals, h.meta)
  }

  predicate IndexConsistent(globals: seq<ObjId>, meta: map<ObjId, ObjMeta>) {
    && (forall j :: 0 <= j < |globals| ==> globals[j] in meta && meta[globals[j]].globalIndex == j)
    && (forall o :: o in meta ==> meta[o].globalIndex < |globals| && globals[meta[o].globalIndex] == o)
  }

  /** Every object is in exactly the grid its metadata names. */
  predicate MembershipConsistent(h: Hierarchy) {
    && (forall o :: o in h.meta ==> h.meta[o].grid in h.grids && o in h.grids[h.meta[o].grid].meta)
    && (forall id, o :: id in h.grids && o in h.grids[id].meta ==> o in h.meta && h.meta[o].grid == id)
  }

  predicate Valid(h: Hierarchy) {
    OrderValid(h) && Increasing(h) && GridsValid(h) && GlobalsConsistent(h) && MembershipConsistent(h)
  }

  /** The grid holding a registered object. */
  function GridOf(h: Hierarchy, o: ObjId): Grid
    requires Valid(h) && o in h.meta
  {
    h.grids[h.meta[o].grid]
  }

  /** The empty hierarchy built by `new HSHG()`. */
  function Empty(): (h: Hierarchy)
    ensures Valid(h) && h.meta == map[] && h.globals == []
  {
    Hierarchy([], map[], [], map[], 0)
  }

  // ---------------------------------------------------------------------
  // removeObject

  /** Swap-removal from `_globalObjects`. */
  function DropGlobal(h: Hierarchy, o: ObjId): Hierarchy
    requires GlobalsConsistent(h) && o in h.meta
  {
    var (globals, meta) := DropIndex(h.globals, h.meta, o);
    h.(globals := globals, meta := meta)
  }

  /** The list and the index after `o` is dropped: the last object moves
      into `o`'s slot. */
  function DropIndex(globals: seq<ObjId>, meta: map<ObjId, ObjMeta>, o: ObjId): (seq<ObjId>, map<ObjId, ObjMeta>)
    requires IndexConsistent(globals, meta) && o in meta
  {
    var gi := meta[o].globalIndex;
    var last := |globals| - 1;
    if gi == last then (globals[..last], meta - {o})
    else
      var ro := globals[last];
      (globals[..last][gi := ro], meta[ro := meta[ro].(globalIndex := gi)] - {o})
  }

  /** What dropping an object does to the list and the index. */
  predicate Dropped(globals: seq<ObjId>, meta: map<ObjId, ObjMeta>, o: ObjId, r: (seq<ObjId>, map<ObjId, ObjMeta>))
    requires o in meta
  {
    && IndexConsistent(r.0, r.1)
    && r.1.Keys == meta.Keys - {o}
    && (forall p :: p in r.1 ==> r.1[p].grid == meta[p].grid)
    && multiset(r.0) == multiset(globals) - multiset{o}
  }

  lemma DropGlobalSpec(h: Hierarchy, o: ObjId)
    requires GlobalsConsistent(h) && o in h.meta
    ensures var r := DropGlobal(h, o);
      && GlobalsConsistent(r)
      && r.meta.Keys == h.meta.Keys - {o}
      && (forall p :: p in r.meta ==> r.meta[p].grid == h.meta[p].grid)
      && multiset(r.globals) == multiset(h.globals) - multiset{o}
      && r.order == h.order && r.grids == h.grids && r.nextGridId == h.nextGridId
  {
    if h.meta[o].globalIndex == |h.globals| - 1 {
      PopConsistent(h.globals, h.meta, o);
    } else {
      SwapConsistent(h.globals, h.meta, o);
    }
  }

  /** Dropping the last object. */
  lemma PopConsistent(globals: seq<ObjId>, meta: map<ObjId, ObjMeta>, o: ObjId)
    requires IndexConsistent(globals, meta) && o in meta && meta[o].globalIndex == |globals| - 1
    ensures Dropped(globals, meta, o, DropIndex(globals, meta, o))
  {
    var r := globals[..|globals| - 1];
    PopMultiset(globals);
    forall j | 0 <= j < |r|
      ensures r[j] in meta - {o} && meta[r[j]].globalIndex == j
    {
      assert r[j] == globals[j];
    }
  }

  /** Moving the last object into the dropped one's slot. */
  lemma SwapConsistent(globals: seq<ObjId>, meta: map<ObjId, ObjMeta>, o: ObjId)
    requires IndexConsistent(globals, meta) && o in meta && meta[o].globalIndex < |globals| - 1
    ensures Dropped(globals, meta, o, DropIndex(globals, meta, o))
  {
    var gi := meta[o].globalIndex;
    var last := |globals| - 1;
    var ro := globals[last];
    var g := globals[..last][gi := ro];
    var m := meta[ro := meta[ro].(globalIndex := gi)] - {o};
    assert ro != o;
    SwapRemoveMultiset(globals, gi);
    forall j | 0 <= j < |g|
      ensures g[j] in m && m[g[j]].globalIndex == j
    {
      if j != gi {
        assert g[j] == globals[j];
      }
    }
    forall p | p in m
      ensures m[p].globalIndex < |g| && g[m[p].globalIndex] == p
    {
      if p != ro {
        assert meta[p].globalIndex != last;
      }
    }
  }

  /** Replacing one grid by another with the same cell size keeps the
      order invariants. */
  lemma ReplaceGridOrder(h: Hierarchy, id: GridId, g: Grid)
    requires OrderValid(h) && Increasing(h) && id in h.grids && g.cellSize == h.grids[id].cellSize
    ensures OrderValid(h.(grids := h.grids[id := g])) && Increasing(h.(grids := h.grids[id := g]))
  {
  }

  /** `HSHG.removeObject`: a no-op for an object without metadata;
      otherwise the object leaves `_globalObjects` (by swap-removal) and its
      grid, and loses its metadata. No other grid changes. */
  method RemoveObject(h: Hierarchy, o: ObjId) returns (r: Hierarchy)
    requires Valid(h)
    ensures Valid(r)
    ensures o !in h.meta ==> r == h
    ensures Removal(h, o, r)
  {
    if o !in h.meta {
      AbsentRemoval(h, o);
      return h;
    }
    var id := h.meta[o].grid;
    var g := Remove(h.grids[id], o);
    assert GridRemoved(h, o, g);
    r := DropGlobal(h, o).(grids := h.grids[id := g]);
    RemovedValid(h, o, g, r);
    RemovedFrame(h, o, g, r);
  }

  /** What removing `o` from `h` leaves behind in `r`: `o` loses its
      metadata and its place in `_globalObjects` and in its grid; every other
      object keeps its grid; the list of grids, their cell sizes and every
      other grid are unchanged. */
  predicate Removal(h: Hierarchy, o: ObjId, r: Hierarchy) {
    && r.meta.Keys == h.meta.Keys - {o}
    && multiset(r.globals) == multiset(h.globals) - multiset{o}
    && (forall p :: p in r.meta && p in h.meta ==> r.meta[p].grid == h.meta[p].grid)
    && r.order == h.order && r.grids.Keys == h.grids.Keys
    && (forall id :: id in h.grids && id in r.grids ==> r.grids[id].cellSize == h.grids[id].cellSize)
    && (forall id :: id in h.grids && id in r.grids && (o !in h.meta || id != h.meta[o].grid) ==> r.grids[id] == h.grids[id])
    && (o in h.meta && h.meta[o].grid in h.grids && h.meta[o].grid in r.grids ==>
          multiset(r.grids[h.meta[o].grid].allObjects) == multiset(h.grids[h.meta[o].grid].allObjects) - multiset{o})
  }

  /** An object without metadata is not in `_globalObjects`, so removing it
      changes nothing. */
  lemma AbsentRemoval(h: Hierarchy, o: ObjId)
    requires GlobalsConsistent(h) && o !in h.meta
    ensures Removal(h, o, h)
  {
    assert o !in h.globals;
    assert multiset(h.globals)[o] == 0;
    assert multiset(h.globals) - multiset{o} == multiset(h.globals);
  }

  /** What `Grid.removeObject` promises about the object's grid. */
  predicate GridRemoved(h: Hierarchy, o: ObjId, g: Grid)
    requires o in h.meta && h.meta[o].grid in h.grids
  {
    var old_g := h.grids[h.meta[o].grid];
    && GridShape(g)
    && g.cellSize == old_g.cellSize && |g.cells| == |old_g.cells|
    && g.meta.Keys == old_g.meta.Keys - {o}
    && multiset(g.allObjects) == multiset(old_g.allObjects) - multiset{o}
    && |g.allObjects| == |old_g.allObjects| - 1
  }

  lemma RemovedFrame(h: Hierarchy, o: ObjId, g: Grid, r: Hierarchy)
    requires GlobalsConsistent(h) && o in h.meta && h.meta[o].grid in h.grids && GridRemoved(h, o, g)
    requires r == DropGlobal(h, o).(grids := h.grids[h.meta[o].grid := g])
    ensures Removal(h, o, r)
  {
    DropGlobalSpec(h, o);
  }

  lemma RemovedValid(h: Hierarchy, o: ObjId, g: Grid, r: Hierarchy)
    requires Valid(h) && o in h.meta && GridRemoved(h, o, g)
    requires r == DropGlobal(h, o).(grids := h.grids[h.meta[o].grid := g])
    ensures Valid(r)
  {
    var id := h.meta[o].grid;
    var dropped := DropGlobal(h, o);
    DropGlobalSpec(h, o);
    GlobalsIgnoreGrids(dropped, r);
    ReplaceGridOrder(h, id, g);
    RemoveKeepsGridsValid(h, id, g, r.grids);
    RemoveKeepsMembership(h, o, dropped, g, r);
  }

  lemma GlobalsIgnoreGrids(a: Hierarchy, b: Hierarchy)
    requires a.globals == b.globals && a.meta == b.meta
    ensures GlobalsConsistent(a) == GlobalsConsistent(b)
  {
  }

  lemma RemoveKeepsGridsValid(h: Hierarchy, id: GridId, g: Grid, grids: map<GridId, Grid>)
    requires GridsValid(h) && id in h.grids
    requires GridShape(g) && |g.cells| == |h.grids[id].cells| && |g.allObjects| <= |h.grids[id].allObjects|
    requires grids == h.grids[id := g]
    ensures forall i :: i in grids ==> GridValid(grids[i])
  {
  }

  lemma RemoveKeepsMembership(h: Hierarchy, o: ObjId, dropped: Hierarchy, g: Grid, r: Hierarchy)
    requires MembershipConsistent(h) && o in h.meta
    requires dropped.meta.Keys == h.meta.Keys - {o}
    requires forall p :: p in dropped.meta ==> dropped.meta[p].grid == h.meta[p].grid
    requires g.meta.Keys == h.grids[h.meta[o].grid].meta.Keys - {o}
    requires r == dropped.(grids := h.grids[h.meta[o].grid := g])
    ensures MembershipConsistent(r)
  {
  }

  // ---------------------------------------------------------------------
  // addObject

  lemma QuotientAtLeastOne(a: real, b: real)
    requires 0.0 < b <= a
    ensures a / b >= 1.0
  {
    var q := a / b;
    assert q * b == a;
  }

  lemma FloorHalves(q: real)
    requires q >= 1.0
    ensures (q / 2.0).Floor < q.Floor
  {
  }

  /** The inner `while (objSize < x) x = x / HIERARCHY_FACTOR` loop: it
      stops at the first halving that is no longer above the object size. */
  method HalveBelow(objSize: real, x0: real) returns (x: real)
    requires 0.0 < objSize < x0
    ensures x <= objSize < 2.0 * x
    ensures x < x0
  {
    x := x0;
    while objSize < x
      invariant 0.0 < objSize < 2.0 * x && x <= x0
      invariant objSize >= x ==> x < x0
      decreases (x / objSize).Floor
    {
      assert (x / HierarchyFactor) / objSize == (x / objSize) / 2.0;
      QuotientAtLeastOne(x, objSize);
      FloorHalves(x / objSize);
      x := x / HierarchyFactor;
    }
  }

  /** The final `while (objSize >= x) x = x * HIERARCHY_FACTOR` loop. */
  method DoubleAbove(objSize: real, x0: real) returns (x: real)
    requires 0.0 < x0 <= objSize
    ensures objSize < x <= 2.0 * objSize
    ensures x0 < x
  {
    x := x0;
    while objSize >= x
      invariant 0.0 < x && x0 <= x && x <= 2.0 * objSize
      invariant objSize < x ==> x0 < x
      decreases (objSize / x).Floor
    {
      assert objSize / (x * HierarchyFactor) == (objSize / x) / 2.0;
      QuotientAtLeastOne(objSize, x);
      FloorHalves(objSize / x);
      x := x * HierarchyFactor;
    }
  }

  /** Pushing a new object onto `_globalObjects` with its metadata. */
  lemma PushGlobal(h: Hierarchy, o: ObjId, id: GridId)
    requires GlobalsConsistent(h) && o !in h.meta
    ensures GlobalsConsistent(h.(globals := h.globals + [o], meta := h.meta[o := ObjMeta(|h.globals|, id)]))
  {
    var r := h.(globals := h.globals + [o], meta := h.meta[o := ObjMeta(|h.globals|, id)]);
    forall j | 0 <= j < |r.globals|
      ensures r.globals[j] in r.meta && r.meta[r.globals[j]].globalIndex == j
    {
      if j < |h.globals| {
        assert r.globals[j] == h.globals[j];
      }
    }
  }

  /** The hierarchy after `o` has been added to the existing grid `id`. */
  function Reused(h: Hierarchy, o: ObjId, id: GridId, g: Grid): Hierarchy {
    h.(grids := h.grids[id := g], globals := h.globals + [o], meta := h.meta[o := ObjMeta(|h.globals|, id)])
  }

  lemma ReusedValid(h: Hierarchy, o: ObjId, id: GridId, g: Grid)
    requires Valid(h) && o !in h.meta && id in h.grids
    requires GridValid(g) && g.cellSize == h.grids[id].cellSize && g.meta.Keys == h.grids[id].meta.Keys + {o}
    ensures Valid(Reused(h, o, id, g))
  {
    var r := Reused(h, o, id, g);
    ReplaceGridOrder(h, id, g);
    PushGlobal(h, o, id);
    GlobalsIgnoreGrids(h.(globals := h.globals + [o], meta := h.meta[o := ObjMeta(|h.globals|, id)]), r);
    ReusedMembership(h, o, id, g);
  }

  lemma ReusedMembership(h: Hierarchy, o: ObjId, id: GridId, g: Grid)
    requires MembershipConsistent(h) && GridsValid(h) && o !in h.meta && id in h.grids
    requires GridValid(g) && g.meta.Keys == h.grids[id].meta.Keys + {o}
    ensures MembershipConsistent(Reused(h, o, id, g)) && GridsValid(Reused(h, o, id, g))
  {
    GridsUpdated(h.grids, id, g);
    var r := Reused(h, o, id, g);
    assert r.grids == h.grids[id := g];
    ReusedMembershipOnly(h, o, id, g);
  }

  /** Replacing (or adding) one valid grid keeps every grid valid. */
  lemma GridsUpdated(grids: map<GridId, Grid>, id: GridId, g: Grid)
    requires AllGridsValid(grids) && GridValid(g)
    ensures AllGridsValid(grids[id := g])
  {
  }

  lemma ReusedMembershipOnly(h: Hierarchy, o: ObjId, id: GridId, g: Grid)
    requires MembershipConsistent(h) && o !in h.meta && id in h.grids
    requires g.meta.Keys == h.grids[id].meta.Keys + {o}
    ensures MembershipConsistent(Reused(h, o, id, g))
  {
  }

  /** The hierarchy after a new grid `g` holding only `o` has been spliced
      into position `i` of `_grids`. */
  function Inserted(h: Hierarchy, o: ObjId, i: nat, g: Grid): Hierarchy
    requires i <= |h.order|
  {
    var id := h.nextGridId;
    Hierarchy(h.order[..i] + [id] + h.order[i..], h.grids[id := g], h.globals + [o],
              h.meta[o := ObjMeta(|h.globals|, id)], id + 1)
  }

  lemma InsertedValid(h: Hierarchy, o: ObjId, i: nat, g: Grid)
    requires Valid(h) && o !in h.meta && i <= |h.order|
    requires GridValid(g) && g.meta.Keys == {o}
    requires forall j :: 0 <= j < i ==> h.grids[h.order[j]].cellSize < g.cellSize
    requires forall j :: i <= j < |h.order| ==> g.cellSize < h.grids[h.order[j]].cellSize
    ensures Valid(Inserted(h, o, i, g))
  {
    InsertedOrder(h, o, i, g);
    var r := Inserted(h, o, i, g);
    PushGlobal(h, o, h.nextGridId);
    GlobalsIgnoreGrids(h.(globals := h.globals + [o], meta := h.meta[o := ObjMeta(|h.globals|, h.nextGridId)]), r);
    InsertedMembership(h, o, i, g);
  }

  lemma InsertedOrder(h: Hierarchy, o: ObjId, i: nat, g: Grid)
    requires OrderValid(h) && Increasing(h) && i <= |h.order|
    requires forall j :: 0 <= j < i ==> h.grids[h.order[j]].cellSize < g.cellSize
    requires forall j :: i <= j < |h.order| ==> g.cellSize < h.grids[h.order[j]].cellSize
    ensures OrderValid(Inserted(h, o, i, g)) && Increasing(Inserted(h, o, i, g))
  {
    var r := Inserted(h, o, i, g);
    InsertAt(h.order, i, h.nextGridId);
    InsertedDistinct(h, o, i, g);
    InsertedCovers(h, o, i, g);
    InsertedIncreasing(h, o, i, g);
  }

  /** Indexing a sequence with one element spliced in at `i`. */
  lemma InsertAt<T>(s: seq<T>, i: nat, x: T)
    requires i <= |s|
    ensures |s[..i] + [x] + s[i..]| == |s| + 1
    ensures forall a :: 0 <= a < i ==> (s[..i] + [x] + s[i..])[a] == s[a]
    ensures (s[..i] + [x] + s[i..])[i] == x
    ensures forall a :: i < a <= |s| ==> (s[..i] + [x] + s[i..])[a] == s[a - 1]
  {
  }

  lemma InsertedDistinct(h: Hierarchy, o: ObjId, i: nat, g: Grid)
    requires OrderValid(h) && i <= |h.order|
    ensures var r := Inserted(h, o, i, g);
      forall a, b :: 0 <= a < b < |r.order| ==> r.order[a] != r.order[b]
  {
    var r := Inserted(h, o, i, g);
    InsertAt(h.order, i, h.nextGridId);
    assert h.nextGridId !in h.grids;
    forall a, b | 0 <= a < b < |r.order|
      ensures r.order[a] != r.order[b]
    {
      var a' := if a < i then a else a - 1;
      var b' := if b < i then b else b - 1;
      if a != i && b != i {
        assert r.order[a] == h.order[a'] && r.order[b] == h.order[b'];
      } else if a == i {
        assert r.order[b] == h.order[b'];
      } else {
        assert r.order[a] == h.order[a'];
      }
    }
  }

  lemma InsertedCovers(h: Hierarchy, o: ObjId, i: nat, g: Grid)
    requires OrderValid(h) && i <= |h.order|
    ensures var r := Inserted(h, o, i, g);
      && (forall a :: 0 <= a < |r.order| ==> r.order[a] in r.grids)
      && (forall x :: x in r.grids ==> x in r.order && x < r.nextGridId)
  {
    var r := Inserted(h, o, i, g);
    var id := h.nextGridId;
    InsertAt(h.order, i, id);
    forall a | 0 <= a < |r.order|
      ensures r.order[a] in r.grids
    {
      if a < i {
        assert r.order[a] == h.order[a];
      } else if a > i {
        assert r.order[a] == h.order[a - 1];
      }
    }
    forall x | x in r.grids
      ensures x in r.order && x < r.nextGridId
    {
      if x != id {
        var k :| 0 <= k < |h.order| && h.order[k] == x;
        if k < i {
          assert r.order[k] == x;
        } else {
          assert r.order[k + 1] == x;
        }
      } else {
        assert r.order[i] == id;
      }
    }
  }

  lemma InsertedIncreasing(h: Hierarchy, o: ObjId, i: nat, g: Grid)
    requires OrderValid(h) && Increasing(h) && i <= |h.order|
    requires forall j :: 0 <= j < i ==> h.grids[h.order[j]].cellSize < g.cellSize
    requires forall j :: i <= j < |h.order| ==> g.cellSize < h.grids[h.order[j]].cellSize
    ensures var r := Inserted(h, o, i, g);
      forall a :: 0 <= a < |r.order| ==> r.order[a] in r.grids
    ensures var r := Inserted(h, o, i, g);
      forall a, b :: 0 <= a < b < |r.order| ==> r.grids[r.order[a]].cellSize < r.grids[r.order[b]].cellSize
  {
    InsertedCovers(h, o, i, g);
    var r := Inserted(h, o, i, g);
    forall a, b | 0 <= a < b < |r.order|
      ensures r.grids[r.order[a]].cellSize < r.grids[r.order[b]].cellSize
    {
      InsertedPair(h, o, i, g, a, b);
    }
  }

  /** One pair of positions of the spliced list, by where each came from. */
  lemma InsertedPair(h: Hierarchy, o: ObjId, i: nat, g: Grid, a: nat, b: nat)
    requires OrderValid(h) && Increasing(h) && i <= |h.order|
    requires forall j :: 0 <= j < i ==> h.grids[h.order[j]].cellSize < g.cellSize
    requires forall j :: i <= j < |h.order| ==> g.cellSize < h.grids[h.order[j]].cellSize
    requires a < b <= |h.order|
    ensures var r := Inserted(h, o, i, g);
      r.order[a] in r.grids && r.order[b] in r.grids
      && r.grids[r.order[a]].cellSize < r.grids[r.order[b]].cellSize
  {
    var r := Inserted(h, o, i, g);
    var id := h.nextGridId;
    InsertAt(h.order, i, id);
    assert id !in h.grids;
    var a' := if a < i then a else a - 1;
    var b' := if b < i then b else b - 1;
    if a != i && b != i {
      assert r.order[a] == h.order[a'] && r.order[b] == h.order[b'];
      assert r.grids[r.order[a]] == h.grids[h.order[a']];
      assert r.grids[r.order[b]] == h.grids[h.order[b']];
    } else if a == i {
      assert r.order[b] == h.order[b'];
      assert r.grids[r.order[b]] == h.grids[h.order[b']];
    } else {
      assert r.order[a] == h.order[a'];
      assert r.grids[r.order[a]] == h.grids[h.order[a']];
    }
  }

  lemma InsertedMembership(h: Hierarchy, o: ObjId, i: nat, g: Grid)
    requires MembershipConsistent(h) && GridsValid(h) && OrderValid(h) && o !in h.meta && i <= |h.order|
    requires GridValid(g) && g.meta.Keys == {o}
    ensures MembershipConsistent(Inserted(h, o, i, g)) && GridsValid(Inserted(h, o, i, g))
  {
    GridsUpdated(h.grids, h.nextGridId, g);
    assert Inserted(h, o, i, g).grids == h.grids[h.nextGridId := g];
    InsertedMembershipOnly(h, o, i, g);
  }

  lemma InsertedMembershipOnly(h: Hierarchy, o: ObjId, i: nat, g: Grid)
    requires MembershipConsistent(h) && OrderValid(h) && o !in h.meta && i <= |h.order|
    requires g.meta.Keys == {o}
    ensures MembershipConsistent(Inserted(h, o, i, g))
  {
    assert h.nextGridId !in h.grids;
  }

  // ---------------------------------------------------------------------
  // addObject, assembled

  /** What adding `o` (with longest box edge `objSize`) to `h` produces in
      `r`: `o` is pushed onto `_globalObjects` and recorded in a grid whose
      cell size lies in (objSize, 2 objSize]; that grid is either an existing
      one, which keeps its place and cell size and gains `o`, or a new grid
      holding only `o` spliced into `_grids`. No other grid and no other
      object's metadata changes. */
  predicate Added(h: Hierarchy, o: ObjId, objSize: real, r: Hierarchy) {
    && o !in h.meta && o in r.meta
    && r.meta.Keys == h.meta.Keys + {o}
    && r.globals == h.globals + [o]
    && (forall p :: p in h.meta ==> r.meta[p] == h.meta[p])
    && var gid := r.meta[o].grid;
       && gid in r.grids
       && objSize < r.grids[gid].cellSize <= 2.0 * objSize
       && r.grids.Keys == h.grids.Keys + {gid}
       && (forall id :: id in h.grids && id != gid ==> r.grids[id] == h.grids[id])
       && (gid in h.grids ==>
             && r.order == h.order
             && r.grids[gid].cellSize == h.grids[gid].cellSize
             && multiset(r.grids[gid].allObjects) == multiset(h.grids[gid].allObjects) + multiset{o})
       && (gid !in h.grids ==>
             && (exists i :: 0 <= i <= |h.order| && r.order == h.order[..i] + [gid] + h.order[i..])
             && multiset(r.grids[gid].allObjects) == multiset{o})
  }

  /** Some existing grid already has a cell size in (objSize, 2 objSize]. */
  predicate HasFittingGrid(h: Hierarchy, objSize: real) {
    exists id :: id in h.grids && objSize < h.grids[id].cellSize <= 2.0 * objSize
  }

  /** `HSHG.addObject`. The object's size is the longest edge of its box;
      the object goes into the first grid (finest first) whose cell size
      exceeds the size, if that grid's cell size is at most twice the size;
      otherwise a new grid whose cell size is the size times a power of two
      in (objSize, 2 objSize] is spliced in before that grid, or appended
      after the coarsest grid. The very first grid gets cell size
      `objSize * SQRT2`. An existing grid is reused exactly when one fits. */
  method AddObject(h: Hierarchy, o: ObjId, boxOf: ObjId -> Aabb) returns (r: Hierarchy)
    requires Valid(h) && o !in h.meta
    requires LongestEdge(boxOf(o)) > 0.0
    ensures Valid(r)
    ensures Added(h, o, LongestEdge(boxOf(o)), r)
    ensures r.meta[o].grid in h.grids <==> HasFittingGrid(h, LongestEdge(boxOf(o)))
  {
    var objSize := LongestEdge(boxOf(o));
    if |h.order| == 0 {
      r := AddFirstGrid(h, o, boxOf);
      return;
    }
    var i := 0;
    while i < |h.order|
      invariant 0 <= i <= |h.order|
      invariant forall j :: 0 <= j < i ==> h.grids[h.order[j]].cellSize <= objSize
    {
      var cs := h.grids[h.order[i]].cellSize;
      if objSize < cs {
        if objSize < cs / HierarchyFactor {
          r := SpliceGrid(h, o, boxOf, i);
        } else {
          r := ReuseGrid(h, o, boxOf, i);
        }
        return;
      }
      i := i + 1;
    }
    r := AppendGrid(h, o, boxOf);
  }

  /** The first object of an empty hierarchy creates the first grid. */
  method AddFirstGrid(h: Hierarchy, o: ObjId, boxOf: ObjId -> Aabb) returns (r: Hierarchy)
    requires Valid(h) && o !in h.meta && |h.order| == 0
    requires LongestEdge(boxOf(o)) > 0.0
    ensures Valid(r) && Added(h, o, LongestEdge(boxOf(o)), r)
    ensures r.meta[o].grid !in h.grids && !HasFittingGrid(h, LongestEdge(boxOf(o)))
  {
    var objSize := LongestEdge(boxOf(o));
    var g := SingletonGrid(objSize * Sqrt2, o, boxOf);
    r := Inserted(h, o, 0, g);
    InsertedSpec(h, o, objSize, 0, g);
    NoFittingGridBefore(h, objSize, 0);
  }

  /** Grid `i` is the first one coarser than the object, but more than
      twice as coarse: a new grid is spliced in before it. */
  method SpliceGrid(h: Hierarchy, o: ObjId, boxOf: ObjId -> Aabb, i: nat) returns (r: Hierarchy)
    requires Valid(h) && o !in h.meta && i < |h.order|
    requires LongestEdge(boxOf(o)) > 0.0
    requires forall j :: 0 <= j < i ==> h.grids[h.order[j]].cellSize <= LongestEdge(boxOf(o))
    requires LongestEdge(boxOf(o)) < h.grids[h.order[i]].cellSize / HierarchyFactor
    ensures Valid(r) && Added(h, o, LongestEdge(boxOf(o)), r)
    ensures r.meta[o].grid !in h.grids && !HasFittingGrid(h, LongestEdge(boxOf(o)))
  {
    var objSize := LongestEdge(boxOf(o));
    var cs := h.grids[h.order[i]].cellSize;
    var x := HalveBelow(objSize, cs / HierarchyFactor);
    var g := SingletonGrid(x * HierarchyFactor, o, boxOf);
    SpliceFits(h, objSize, i, g.cellSize);
    r := Inserted(h, o, i, g);
    InsertedSpec(h, o, objSize, i, g);
    NoFittingGridBefore(h, objSize, i);
  }

  /** Grid `i` is the first one coarser than the object and at most twice
      as coarse: the object joins it. */
  method ReuseGrid(h: Hierarchy, o: ObjId, boxOf: ObjId -> Aabb, i: nat) returns (r: Hierarchy)
    requires Valid(h) && o !in h.meta && i < |h.order|
    requires h.grids[h.order[i]].cellSize / HierarchyFactor <= LongestEdge(boxOf(o)) < h.grids[h.order[i]].cellSize
    ensures Valid(r) && Added(h, o, LongestEdge(boxOf(o)), r)
    ensures r.meta[o].grid in h.grids && HasFittingGrid(h, LongestEdge(boxOf(o)))
  {
    var objSize := LongestEdge(boxOf(o));
    var id := h.order[i];
    NotInAnyGrid(h, o, id);
    var g := HashGrid.AddObject(h.grids[id], o, None, boxOf);
    ReusedSpec(h, o, objSize, id, g);
    r := Reused(h, o, id, g);
  }

  /** Every grid is no coarser than the object: a new coarsest grid is
      appended. */
  method AppendGrid(h: Hierarchy, o: ObjId, boxOf: ObjId -> Aabb) returns (r: Hierarchy)
    requires Valid(h) && o !in h.meta && |h.order| > 0
    requires LongestEdge(boxOf(o)) > 0.0
    requires forall j :: 0 <= j < |h.order| ==> h.grids[h.order[j]].cellSize <= LongestEdge(boxOf(o))
    ensures Valid(r) && Added(h, o, LongestEdge(boxOf(o)), r)
    ensures r.meta[o].grid !in h.grids && !HasFittingGrid(h, LongestEdge(boxOf(o)))
  {
    var objSize := LongestEdge(boxOf(o));
    var last := h.grids[h.order[|h.order| - 1]].cellSize;
    assert GridValid(h.grids[h.order[|h.order| - 1]]);
    var x := DoubleAbove(objSize, last);
    var g := SingletonGrid(x, o, boxOf);
    AppendedSpec(h, o, objSize, g);
    r := Inserted(h, o, |h.order|, g);
  }

  /** The grid appended after all others is new and valid there. */
  lemma AppendedSpec(h: Hierarchy, o: ObjId, objSize: real, g: Grid)
    requires Valid(h) && o !in h.meta && |h.order| > 0
    requires GridValid(g) && g.meta.Keys == {o} && multiset(g.allObjects) == multiset{o}
    requires objSize < g.cellSize <= 2.0 * objSize
    requires forall j :: 0 <= j < |h.order| ==> h.grids[h.order[j]].cellSize <= objSize
    ensures var r := Inserted(h, o, |h.order|, g);
      Valid(r) && Added(h, o, objSize, r) && r.meta[o].grid !in h.grids && !HasFittingGrid(h, objSize)
  {
    InsertedSpec(h, o, objSize, |h.order|, g);
    NoFittingGridBefore(h, objSize, |h.order|);
  }

  /** `new Grid(cellSize, INITIAL_GRID_LENGTH)`, `initCells()` and
      `addObject(obj)`: a fresh grid holding only `o`. */
  method SingletonGrid(cellSize: real, o: ObjId, boxOf: ObjId -> Aabb) returns (g: Grid)
    requires cellSize > 0.0
    ensures GridValid(g) && g.cellSize == cellSize
    ensures g.meta.Keys == {o} && multiset(g.allObjects) == multiset{o}
  {
    var ng := NewGrid(cellSize);
    g := HashGrid.AddObject(ng, o, None, boxOf);
  }

  lemma InsertedSpec(h: Hierarchy, o: ObjId, objSize: real, i: nat, g: Grid)
    requires Valid(h) && o !in h.meta && i <= |h.order|
    requires GridValid(g) && g.meta.Keys == {o} && multiset(g.allObjects) == multiset{o}
    requires objSize < g.cellSize <= 2.0 * objSize
    requires forall j :: 0 <= j < i ==> h.grids[h.order[j]].cellSize < g.cellSize
    requires forall j :: i <= j < |h.order| ==> g.cellSize < h.grids[h.order[j]].cellSize
    ensures Valid(Inserted(h, o, i, g)) && Added(h, o, objSize, Inserted(h, o, i, g))
  {
    InsertedValid(h, o, i, g);
    InsertedAdded(h, o, objSize, i, g);
  }

  /** A new grid with cell size `cs` placed at `i`, where every grid before
      `i` is no coarser than the object and grid `i` is coarser than `cs`,
      keeps `_grids` increasing. */
  lemma SpliceFits(h: Hierarchy, objSize: real, i: nat, cs: real)
    requires OrderValid(h) && Increasing(h) && i < |h.order|
    requires forall j :: 0 <= j < i ==> h.grids[h.order[j]].cellSize <= objSize
    requires objSize < cs < h.grids[h.order[i]].cellSize
    ensures forall j :: 0 <= j < i ==> h.grids[h.order[j]].cellSize < cs
    ensures forall j :: i <= j < |h.order| ==> cs < h.grids[h.order[j]].cellSize
  {
  }

  /** No grid fits when every grid before `i` is no coarser than the object
      and every grid from `i` on is coarser than twice the object. */
  lemma NoFittingGridBefore(h: Hierarchy, objSize: real, i: nat)
    requires OrderValid(h) && Increasing(h) && i <= |h.order|
    requires forall j :: 0 <= j < i ==> h.grids[h.order[j]].cellSize <= objSize
    requires i < |h.order| ==> 2.0 * objSize < h.grids[h.order[i]].cellSize
    ensures !HasFittingGrid(h, objSize)
  {
  }

  lemma InsertedAdded(h: Hierarchy, o: ObjId, objSize: real, i: nat, g: Grid)
    requires OrderValid(h) && o !in h.meta && i <= |h.order|
    requires objSize < g.cellSize <= 2.0 * objSize && multiset(g.allObjects) == multiset{o}
    ensures Added(h, o, objSize, Inserted(h, o, i, g))
  {
    var r := Inserted(h, o, i, g);
    assert h.nextGridId !in h.grids;
    assert r.order == h.order[..i] + [h.nextGridId] + h.order[i..];
  }

  /** An object the hierarchy does not know is in none of its grids. */
  lemma NotInAnyGrid(h: Hierarchy, o: ObjId, id: GridId)
    requires MembershipConsistent(h) && o !in h.meta && id in h.grids
    ensures o !in h.grids[id].meta
  {
  }

  /** Adding to an existing grid that fits the object. */
  lemma ReusedSpec(h: Hierarchy, o: ObjId, objSize: real, id: GridId, g: Grid)
    requires Valid(h) && o !in h.meta && id in h.grids
    requires h.grids[id].cellSize / HierarchyFactor <= objSize < h.grids[id].cellSize
    requires GridValid(g) && g.cellSize == h.grids[id].cellSize && g.meta.Keys == h.grids[id].meta.Keys + {o}
    requires multiset(g.allObjects) == multiset(h.grids[id].allObjects) + multiset{o}
    ensures var r := Reused(h, o, id, g);
      Valid(r) && Added(h, o, objSize, r) && r.meta[o].grid in h.grids && HasFittingGrid(h, objSize)
  {
    ReusedValid(h, o, id, g);
    ReusedAdded(h, o, objSize, id, g);
  }

  lemma ReusedAdded(h: Hierarchy, o: ObjId, objSize: real, id: GridId, g: Grid)
    requires o !in h.meta && id in h.grids
    requires h.grids[id].cellSize / HierarchyFactor <= objSize < h.grids[id].cellSize
    requires g.cellSize == h.grids[id].cellSize
    requires multiset(g.allObjects) == multiset(h.grids[id].allObjects) + multiset{o}
    ensures Added(h, o, objSize, Reused(h, o, id, g))
    ensures HasFittingGrid(h, objSize)
  {
  }

  // ---------------------------------------------------------------------
  // update_RECOMPUTE

  /** Object `o` sits in the cell of its own grid that its current box
      hashes to. */
  predicate ObjectHashed(h: Hierarchy, o: ObjId, boxOf: ObjId -> Aabb) {
    && o in h.meta && h.meta[o].grid in h.grids
    && var g := h.grids[h.meta[o].grid];
       o in g.meta && CellsShaped(g) && g.meta[o].hash == HashIn(g, boxOf(o))
  }

  /** `r` has the objects, `_globalObjects`, grid list, cell sizes, row and
      column counts and grid memberships of `h`; only positions inside the
      grids may differ. */
  predicate SameLayout(h: Hierarchy, r: Hierarchy) {
    && r.meta == h.meta && r.globals == h.globals && r.order == h.order && r.nextGridId == h.nextGridId
    && r.grids.Keys == h.grids.Keys
    && (forall id :: id in h.grids ==>
          && r.grids[id].cellSize == h.grids[id].cellSize && r.grids[id].rcc == h.grids[id].rcc
          && r.grids[id].meta.Keys == h.grids[id].meta.Keys
          && multiset(r.grids[id].allObjects) == multiset(h.grids[id].allObjects))
  }

  /** One iteration of `update_RECOMPUTE`: if the object's box now hashes
      to another cell of its grid, it is removed from the grid and re-added
      with the new hash. The grid never expands here, since it holds as many
      objects afterwards as before. */
  method Rehash(h: Hierarchy, o: ObjId, boxOf: ObjId -> Aabb) returns (r: Hierarchy)
    requires Valid(h) && o in h.meta
    ensures Valid(r) && SameLayout(h, r)
    ensures ObjectHashed(r, o, boxOf)
    ensures forall p :: ObjectHashed(h, p, boxOf) ==> ObjectHashed(r, p, boxOf)
  {
    var id := h.meta[o].grid;
    var g := h.grids[id];
    var newHash := HashIn(g, boxOf(o));
    if newHash == g.meta[o].hash {
      return h;
    }
    var g2 := Move(g, o, newHash, boxOf);
    r := h.(grids := h.grids[id := g2]);
    ReplaceGrid(h, id, g2);
    RehashKeepsOthers(h, o, g2, boxOf);
  }

  /** Replacing grid `id` by a valid grid with the same cell size and the
      same objects keeps the hierarchy valid. */
  lemma ReplaceGrid(h: Hierarchy, id: GridId, g: Grid)
    requires Valid(h) && id in h.grids
    requires GridValid(g) && g.cellSize == h.grids[id].cellSize && g.meta.Keys == h.grids[id].meta.Keys
    ensures Valid(h.(grids := h.grids[id := g]))
  {
    var r := h.(grids := h.grids[id := g]);
    ReplaceGridOrder(h, id, g);
    GridsUpdated(h.grids, id, g);
    GlobalsIgnoreGrids(h, r);
    ReplaceKeepsMembership(h, id, g);
  }

  lemma ReplaceKeepsMembership(h: Hierarchy, id: GridId, g: Grid)
    requires MembershipConsistent(h) && id in h.grids && g.meta.Keys == h.grids[id].meta.Keys
    ensures MembershipConsistent(h.(grids := h.grids[id := g]))
  {
  }

  lemma RehashKeepsOthers(h: Hierarchy, o: ObjId, g2: Grid, boxOf: ObjId -> Aabb)
    requires o in h.meta && h.meta[o].grid in h.grids
    requires var g := h.grids[h.meta[o].grid];
      && CellsShaped(g) && CellsShaped(g2)
      && g2.rcc == g.rcc && g2.cellSize == g.cellSize && g2.meta.Keys == g.meta.Keys
      && multiset(g2.allObjects) == multiset(g.allObjects)
      && (forall p :: p in g.meta && p != o ==> g2.meta[p].hash == g.meta[p].hash)
      && o in g2.meta && g2.meta[o].hash == HashIn(g, boxOf(o))
    ensures var r := h.(grids := h.grids[h.meta[o].grid := g2]);
      && SameLayout(h, r)
      && ObjectHashed(r, o, boxOf)
      && (forall p :: ObjectHashed(h, p, boxOf) ==> ObjectHashed(r, p, boxOf))
  {
  }

  /** `HSHG.update_RECOMPUTE`: every object of `_globalObjects`, in order,
      is rehashed within its own grid. Afterwards every object sits in the
      cell its box hashes to, and nothing else about the hierarchy changed. */
  method UpdateRecompute(h: Hierarchy, boxOf: ObjId -> Aabb) returns (r: Hierarchy)
    requires Valid(h)
    ensures Valid(r) && SameLayout(h, r)
    ensures forall o :: o in r.meta ==> ObjectHashed(r, o, boxOf)
  {
    r := h;
    var i := 0;
    while i < |h.globals|
      invariant 0 <= i <= |h.globals|
      invariant Valid(r) && SameLayout(h, r)
      invariant forall j :: 0 <= j < i ==> ObjectHashed(r, h.globals[j], boxOf)
    {
      var next := Rehash(r, h.globals[i], boxOf);
      HashedPrefixGrows(r, next, h.globals, i, boxOf);
      r := next;
      i := i + 1;
    }
    HashedFromGlobals(r, boxOf);
  }

  lemma HashedPrefixGrows(r: Hierarchy, next: Hierarchy, globals: seq<ObjId>, i: nat, boxOf: ObjId -> Aabb)
    requires i < |globals|
    requires forall j :: 0 <= j < i ==> ObjectHashed(r, globals[j], boxOf)
    requires forall p :: ObjectHashed(r, p, boxOf) ==> ObjectHashed(next, p, boxOf)
    requires ObjectHashed(next, globals[i], boxOf)
    ensures forall j :: 0 <= j < i + 1 ==> ObjectHashed(next, globals[j], boxOf)
  {
  }

  /** Every object is in `_globalObjects`, so rehashing all of them covers
      every object. */
  lemma HashedFromGlobals(h: Hierarchy, boxOf: ObjId -> Aabb)
    requires GlobalsConsistent(h)
    requires forall j :: 0 <= j < |h.globals| ==> ObjectHashed(h, h.globals[j], boxOf)
    ensures forall o :: o in h.meta ==> ObjectHashed(h, o, boxOf)
  {
    forall o | o in h.meta
      ensures ObjectHashed(h, o, boxOf)
    {
      assert o == h.globals[h.meta[o].globalIndex];
    }
  }

  // ---------------------------------------------------------------------
  // addObject followed by removeObject

  /** Removing an object right after adding it restores `_globalObjects`
      and every existing grid's `allObjects` as multisets, and drops the
      object's metadata. A grid created for the object stays behind, empty. */
  lemma AddThenRemove(h: Hierarchy, o: ObjId, objSize: real, r1: Hierarchy, r2: Hierarchy)
    requires Added(h, o, objSize, r1) && Removal(r1, o, r2)
    ensures o !in r2.meta && r2.meta.Keys == h.meta.Keys
    ensures multiset(r2.globals) == multiset(h.globals)
    ensures forall id :: id in h.grids ==>
      id in r2.grids && multiset(r2.grids[id].allObjects) == multiset(h.grids[id].allObjects)
    ensures forall id :: id in r2.grids && id !in h.grids ==> |r2.grids[id].allObjects| == 0
  {
    var gid := r1.meta[o].grid;
    PushPop(h.globals, r2.globals, o);
    forall id | id in h.grids
      ensures id in r2.grids && multiset(r2.grids[id].allObjects) == multiset(h.grids[id].allObjects)
    {
      if id == gid {
        AddRemoveMultiset(h.grids[id].allObjects, r1.grids[id].allObjects, r2.grids[id].allObjects, o);
      }
    }
    forall id | id in r2.grids && id !in h.grids
      ensures |r2.grids[id].allObjects| == 0
    {
      AddRemoveMultiset([], r1.grids[id].allObjects, r2.grids[id].allObjects, o);
    }
  }

  lemma PushPop(a: seq<ObjId>, c: seq<ObjId>, o: ObjId)
    requires multiset(c) == multiset(a + [o]) - multiset{o}
    ensures multiset(c) == multiset(a)
  {
  }

  lemma AddRemoveMultiset(a: seq<ObjId>, b: seq<ObjId>, c: seq<ObjId>, o: ObjId)
    requires multiset(b) == multiset(a) + multiset{o}
    requires multiset(c) == multiset(b) - multiset{o}
    ensures multiset(c) == multiset(a) && |c| == |a|
  {
    assert |multiset(c)| == |multiset(a)|;
  }
}
