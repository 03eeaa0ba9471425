/** The broad-phase pair query `HSHG.queryForCollisionPairs` of
    src/physics/hshg.ts, as the list of pairs it returns. Each level of the
    source's nested loops is one recursive function; the lemmas state which
    pairs each level produces. */
module HshgQuery {
  import opened HashGeometry
  import opened HashGrid
  import opened Hshg

  type Pair = (ObjId, ObjId)

  /** Both objects are active and their boxes overlap. */
  predicate Colliding(p: Pair, boxOf: ObjId -> Aabb) {
    boxOf(p.0).active && boxOf(p.1).active && TestAabbOverlap(boxOf(p.0), boxOf(p.1))
  }

  /** A pair the query may report: two distinct registered objects that collide. */
  predicate SoundPair(h: Hierarchy, p: Pair, boxOf: ObjId -> Aabb) {
    p.0 != p.1 && p.0 in h.meta && p.1 in h.meta && Colliding(p, boxOf)
  }

  // ---------------------------------------------------------------------
  // The innermost loops

  /** `(a, b)` for every active `b` of `others` whose box overlaps `a`'s, in order. */
  function Matches(a: ObjId, others: seq<ObjId>, boxOf: ObjId -> Aabb): seq<Pair>
    decreases |others|
  {
    if |others| == 0 then []
    else
      var b := others[0];
      (if boxOf(b).active && TestAabbOverlap(boxOf(a), boxOf(b)) then [(a, b)] else [])
        + Matches(a, others[1..], boxOf)
  }

  /** The `l` loop for one `objA`: nothing when `objA` is inactive. */
  function PairsWith(a: ObjId, others: seq<ObjId>, boxOf: ObjId -> Aabb): seq<Pair> {
    if !boxOf(a).active then [] else Matches(a, others, boxOf)
  }

  lemma {:induction false} MatchesSpec(a: ObjId, others: seq<ObjId>, boxOf: ObjId -> Aabb, p: Pair)
    ensures p in Matches(a, others, boxOf) <==>
      p.0 == a && p.1 in others && boxOf(p.1).active && TestAabbOverlap(boxOf(a), boxOf(p.1))
    decreases |others|
  {
    if |others| > 0 {
      MatchesSpec(a, others[1..], boxOf, p);
      assert others == [others[0]] + others[1..];
    }
  }

  /** `PairsWith` reports exactly the colliding pairs of `a` with a member of `others`. */
  lemma PairsWithSpec(a: ObjId, others: seq<ObjId>, boxOf: ObjId -> Aabb, p: Pair)
    ensures p in PairsWith(a, others, boxOf) <==> p.0 == a && p.1 in others && Colliding(p, boxOf)
  {
    MatchesSpec(a, others, boxOf, p);
  }

  // ---------------------------------------------------------------------
  // One cell against itself: the `k`, `l > k` loops

  function PairsWithin(objs: seq<ObjId>, boxOf: ObjId -> Aabb): seq<Pair>
    decreases |objs|
  {
    if |objs| == 0 then []
    else PairsWith(objs[0], objs[1..], boxOf) + PairsWithin(objs[1..], boxOf)
  }

  /** The same-cell pairs are exactly the colliding `(objs[k], objs[l])` with `k < l`. */
  lemma {:induction false} PairsWithinSpec(objs: seq<ObjId>, boxOf: ObjId -> Aabb, p: Pair)
    ensures p in PairsWithin(objs, boxOf) <==>
      Colliding(p, boxOf) && exists k, l :: 0 <= k < l < |objs| && objs[k] == p.0 && objs[l] == p.1
    decreases |objs|
  {
    if |objs| > 0 {
      var rest := objs[1..];
      PairsWithinSpec(rest, boxOf, p);
      PairsWithSpec(objs[0], rest, boxOf, p);
      if p in PairsWithin(objs, boxOf) {
        if p in PairsWith(objs[0], rest, boxOf) {
          var l :| 0 <= l < |rest| && rest[l] == p.1;
          assert objs[0] == p.0 && objs[l + 1] == p.1;
        } else {
          assert p in PairsWithin(rest, boxOf);
          var k, l :| 0 <= k < l < |rest| && rest[k] == p.0 && rest[l] == p.1;
          assert objs[k + 1] == p.0 && objs[l + 1] == p.1;
        }
      }
      if Colliding(p, boxOf) && exists k, l :: 0 <= k < l < |objs| && objs[k] == p.0 && objs[l] == p.1 {
        var k, l :| 0 <= k < l < |objs| && objs[k] == p.0 && objs[l] == p.1;
        if k == 0 {
          assert rest[l - 1] == p.1;
        } else {
          assert rest[k - 1] == p.0 && rest[l - 1] == p.1;
        }
      }
    }
  }

  /** No two entries of `ps` are the same pair, in either orientation. */
  predicate NoRepeat(ps: seq<Pair>) {
    forall x, y :: 0 <= x < y < |ps| ==> ps[x] != ps[y] && ps[x] != (ps[y].1, ps[y].0)
  }

  lemma {:induction false} MatchesNoRepeat(a: ObjId, others: seq<ObjId>, boxOf: ObjId -> Aabb)
    requires Distinct(others) && a !in others
    ensures NoRepeat(Matches(a, others, boxOf))
    decreases |others|
  {
    if |others| > 0 {
      var rest := others[1..];
      MatchesNoRepeat(a, rest, boxOf);
      var head: seq<Pair> := if boxOf(others[0]).active && TestAabbOverlap(boxOf(a), boxOf(others[0])) then [(a, others[0])] else [];
      var tail := Matches(a, rest, boxOf);
      forall y | 0 <= y < |tail|
        ensures tail[y].0 == a && tail[y].1 != others[0]
      {
        MatchesSpec(a, rest, boxOf, tail[y]);
      }
      ConcatNoRepeat(head, tail);
    }
  }

  lemma ConcatNoRepeat(xs: seq<Pair>, ys: seq<Pair>)
    requires NoRepeat(xs) && NoRepeat(ys)
    requires forall x, y :: 0 <= x < |xs| && 0 <= y < |ys| ==> xs[x] != ys[y] && xs[x] != (ys[y].1, ys[y].0)
    ensures NoRepeat(xs + ys)
  {
    var zs := xs + ys;
    forall x, y | 0 <= x < y < |zs|
      ensures zs[x] != zs[y] && zs[x] != (zs[y].1, zs[y].0)
    {
      if y < |xs| {
        assert zs[x] == xs[x] && zs[y] == xs[y];
      } else if x < |xs| {
        assert zs[x] == xs[x] && zs[y] == ys[y - |xs|];
      } else {
        assert zs[x] == ys[x - |xs|] && zs[y] == ys[y - |xs|];
      }
    }
  }

  /** Because `l` starts at `k + 1`, a cell of distinct objects never
      yields the same pair twice, in either orientation. */
  lemma {:induction false} PairsWithinNoRepeat(objs: seq<ObjId>, boxOf: ObjId -> Aabb)
    requires Distinct(objs)
    ensures NoRepeat(PairsWithin(objs, boxOf))
    decreases |objs|
  {
    if |objs| > 0 {
      var a := objs[0];
      var rest := objs[1..];
      assert Distinct(rest);
      assert a !in rest by {
        forall j | 0 <= j < |rest|
          ensures rest[j] != a
        {
          assert rest[j] == objs[j + 1];
        }
      }
      PairsWithinNoRepeat(rest, boxOf);
      var head := PairsWith(a, rest, boxOf);
      if boxOf(a).active {
        MatchesNoRepeat(a, rest, boxOf);
      }
      var tail := PairsWithin(rest, boxOf);
      forall x, y | 0 <= x < |head| && 0 <= y < |tail|
        ensures head[x] != tail[y] && head[x] != (tail[y].1, tail[y].0)
      {
        PairsWithSpec(a, rest, boxOf, head[x]);
        PairsWithinSpec(rest, boxOf, tail[y]);
        var k, l :| 0 <= k < l < |rest| && rest[k] == tail[y].0 && rest[l] == tail[y].1;
      }
      ConcatNoRepeat(head, tail);
    }
  }

  // ---------------------------------------------------------------------
  // One cell against a neighbour: the `k`, `l` loops over two cells

  function PairsAcross(objs: seq<ObjId>, others: seq<ObjId>, boxOf: ObjId -> Aabb): seq<Pair>
    decreases |objs|
  {
    if |objs| == 0 then []
    else PairsWith(objs[0], others, boxOf) + PairsAcross(objs[1..], others, boxOf)
  }

  lemma {:induction false} PairsAcrossSpec(objs: seq<ObjId>, others: seq<ObjId>, boxOf: ObjId -> Aabb, p: Pair)
    ensures p in PairsAcross(objs, others, boxOf) <==> p.0 in objs && p.1 in others && Colliding(p, boxOf)
    decreases |objs|
  {
    if |objs| > 0 {
      PairsAcrossSpec(objs[1..], others, boxOf, p);
      PairsWithSpec(objs[0], others, boxOf, p);
      assert objs == [objs[0]] + objs[1..];
    }
  }

  // ---------------------------------------------------------------------
  // One grid: every occupied cell against itself and four neighbours

  /** The pairs of occupied cell `ci`: its own pairs, then its pairs with
      the neighbours at offsets 0 to 3 of its table. */
  function CellPairs(g: Grid, ci: nat, boxOf: ObjId -> Aabb): seq<Pair>
    requires CellsShaped(g) && ci < |g.cells|
  {
    PairsWithin(g.cells[ci].objects, boxOf) + ForwardPairs(g, ci, 0, boxOf)
  }

  function ForwardPairs(g: Grid, ci: nat, c: nat, boxOf: ObjId -> Aabb): seq<Pair>
    requires CellsShaped(g) && ci < |g.cells| && c <= 4
    decreases 4 - c
  {
    if c == 4 then []
    else
      NeighborOffsetsInRange(g.rcc, ci, c);
      var adjacent := g.cells[g.cells[ci].allCellsIndex + g.cells[ci].offsets[c]];
      PairsAcross(g.cells[ci].objects, adjacent.objects, boxOf) + ForwardPairs(g, ci, c + 1, boxOf)
  }

  /** The `j` loop over `occupiedCells`, from position `j` on. */
  function OccupiedPairs(g: Grid, j: nat, boxOf: ObjId -> Aabb): seq<Pair>
    requires CellsShaped(g) && OccupiedConsistent(g) && j <= |g.occupied|
    decreases |g.occupied| - j
  {
    if j == |g.occupied| then []
    else CellPairs(g, g.occupied[j], boxOf) + OccupiedPairs(g, j + 1, boxOf)
  }

  /** Every pair found inside one grid joins two distinct objects of that grid. */
  predicate SoundIn(g: Grid, ps: seq<Pair>, boxOf: ObjId -> Aabb) {
    forall p :: p in ps ==> p.0 != p.1 && p.0 in g.meta && p.1 in g.meta && Colliding(p, boxOf)
  }

  /** Objects at two positions of one cell, or in two different cells, differ. */
  lemma CellObjectsDiffer(g: Grid, i: nat, k: nat, j: nat, l: nat)
    requires CellObjectsConsistent(g)
    requires i < |g.cells| && j < |g.cells| && k < |g.cells[i].objects| && l < |g.cells[j].objects|
    requires i != j || k != l
    ensures g.cells[i].objects[k] != g.cells[j].objects[l]
  {
  }

  lemma CellObjectsDistinct(g: Grid, i: nat)
    requires CellObjectsConsistent(g) && i < |g.cells|
    ensures Distinct(g.cells[i].objects)
  {
    forall k, l | 0 <= k < l < |g.cells[i].objects|
      ensures g.cells[i].objects[k] != g.cells[i].objects[l]
    {
      CellObjectsDiffer(g, i, k, i, l);
    }
  }

  lemma {:induction false} ForwardPairsSound(g: Grid, ci: nat, c: nat, boxOf: ObjId -> Aabb)
    requires CellsShaped(g) && CellObjectsConsistent(g) && ci < |g.cells| && c <= 4
    ensures SoundIn(g, ForwardPairs(g, ci, c, boxOf), boxOf)
    decreases 4 - c
  {
    if c < 4 {
      ForwardPairsSound(g, ci, c + 1, boxOf);
      NeighborOffsetsInRange(g.rcc, ci, c);
      ForwardNeighborIsOtherCell(g.rcc, ci, c);
      var aj := g.cells[ci].allCellsIndex + g.cells[ci].offsets[c];
      var across := PairsAcross(g.cells[ci].objects, g.cells[aj].objects, boxOf);
      forall p | p in across
        ensures p.0 != p.1 && p.0 in g.meta && p.1 in g.meta && Colliding(p, boxOf)
      {
        PairsAcrossSpec(g.cells[ci].objects, g.cells[aj].objects, boxOf, p);
        var k :| 0 <= k < |g.cells[ci].objects| && g.cells[ci].objects[k] == p.0;
        var l :| 0 <= l < |g.cells[aj].objects| && g.cells[aj].objects[l] == p.1;
        CellObjectsDiffer(g, ci, k, aj, l);
      }
    }
  }

  lemma CellPairsSound(g: Grid, ci: nat, boxOf: ObjId -> Aabb)
    requires CellsShaped(g) && CellObjectsConsistent(g) && ci < |g.cells|
    ensures SoundIn(g, CellPairs(g, ci, boxOf), boxOf)
    ensures NoRepeat(PairsWithin(g.cells[ci].objects, boxOf))
  {
    ForwardPairsSound(g, ci, 0, boxOf);
    var objs := g.cells[ci].objects;
    CellObjectsDistinct(g, ci);
    PairsWithinNoRepeat(objs, boxOf);
    forall p | p in PairsWithin(objs, boxOf)
      ensures p.0 != p.1 && p.0 in g.meta && p.1 in g.meta && Colliding(p, boxOf)
    {
      PairsWithinSpec(objs, boxOf, p);
      var k, l :| 0 <= k < l < |objs| && objs[k] == p.0 && objs[l] == p.1;
    }
  }

  lemma {:induction false} OccupiedPairsSound(g: Grid, j: nat, boxOf: ObjId -> Aabb)
    requires CellsShaped(g) && OccupiedConsistent(g) && CellObjectsConsistent(g) && j <= |g.occupied|
    ensures SoundIn(g, OccupiedPairs(g, j, boxOf), boxOf)
    decreases |g.occupied| - j
  {
    if j < |g.occupied| {
      CellPairsSound(g, g.occupied[j], boxOf);
      OccupiedPairsSound(g, j + 1, boxOf);
    }
  }

  // ---------------------------------------------------------------------
  // One grid's objects against every coarser grid

  /** The `c` loop: `a` against the cell at offset `c` and beyond of cell `ci`. */
  function AroundPairs(g: Grid, ci: nat, c: nat, a: ObjId, boxOf: ObjId -> Aabb): seq<Pair>
    requires CellsShaped(g) && ci < |g.cells| && c <= 9
    decreases 9 - c
  {
    if c >= |g.cells[ci].offsets| then []
    else
      NeighborOffsetsInRange(g.rcc, ci, c);
      var adjacent := g.cells[g.cells[ci].allCellsIndex + g.cells[ci].offsets[c]];
      PairsWith(a, adjacent.objects, boxOf) + AroundPairs(g, ci, c + 1, a, boxOf)
  }

  /** The `k` loop: `a` against the grids at positions `k` and beyond of `_grids`. */
  function CoarserPairs(h: Hierarchy, k: nat, a: ObjId, boxOf: ObjId -> Aabb): seq<Pair>
    requires OrderValid(h) && GridsValid(h)
    decreases |h.order| - k
  {
    if k >= |h.order| then []
    else
      var bigger := h.grids[h.order[k]];
      AroundPairs(bigger, HashIn(bigger, boxOf(a)), 0, a, boxOf) + CoarserPairs(h, k + 1, a, boxOf)
  }

  /** The `j` loop over `allObjects` of grid `i`, from position `j` on. */
  function ObjectsCoarserPairs(h: Hierarchy, i: nat, objs: seq<ObjId>, boxOf: ObjId -> Aabb): seq<Pair>
    requires OrderValid(h) && GridsValid(h)
    decreases |objs|
  {
    if |objs| == 0 then []
    else
      (if boxOf(objs[0]).active then CoarserPairs(h, i + 1, objs[0], boxOf) else [])
        + ObjectsCoarserPairs(h, i, objs[1..], boxOf)
  }

  /** `a` paired with objects of the grids at positions `k` and beyond. */
  predicate CoarserSound(h: Hierarchy, k: nat, a: ObjId, ps: seq<Pair>, boxOf: ObjId -> Aabb)
    requires OrderValid(h)
  {
    forall p :: p in ps ==>
      && p.0 == a && Colliding(p, boxOf)
      && exists m :: k <= m < |h.order| && p.1 in h.grids[h.order[m]].meta
  }

  lemma {:induction false} AroundPairsFrom(g: Grid, ci: nat, c: nat, a: ObjId, boxOf: ObjId -> Aabb, p: Pair)
    requires CellsShaped(g) && CellObjectsConsistent(g) && ci < |g.cells| && c <= 9
    requires p in AroundPairs(g, ci, c, a, boxOf)
    ensures p.0 == a && p.1 in g.meta && Colliding(p, boxOf)
    decreases 9 - c
  {
    NeighborOffsetsInRange(g.rcc, ci, 0);
    assert c < |g.cells[ci].offsets|;
    NeighborOffsetsInRange(g.rcc, ci, c);
    var aj := g.cells[ci].allCellsIndex + g.cells[ci].offsets[c];
    var adjacent := g.cells[aj].objects;
    if p in PairsWith(a, adjacent, boxOf) {
      PairsWithSpec(a, adjacent, boxOf, p);
      var l :| 0 <= l < |adjacent| && adjacent[l] == p.1;
      CellMember(g, aj, l);
    } else {
      AroundPairsFrom(g, ci, c + 1, a, boxOf, p);
    }
  }

  lemma CellMember(g: Grid, j: nat, l: nat)
    requires CellObjectsConsistent(g) && j < |g.cells| && l < |g.cells[j].objects|
    ensures g.cells[j].objects[l] in g.meta
  {
  }

  lemma {:induction false} CoarserPairsSound(h: Hierarchy, k: nat, a: ObjId, boxOf: ObjId -> Aabb)
    requires OrderValid(h) && GridsValid(h)
    ensures CoarserSound(h, k, a, CoarserPairs(h, k, a, boxOf), boxOf)
    decreases |h.order| - k
  {
    if k < |h.order| {
      CoarserPairsSound(h, k + 1, a, boxOf);
      var bigger := h.grids[h.order[k]];
      GridOfOrder(h, k);
      var ci := HashIn(bigger, boxOf(a));
      var here := AroundPairs(bigger, ci, 0, a, boxOf);
      var rest := CoarserPairs(h, k + 1, a, boxOf);
      forall p: Pair | p in here + rest
        ensures p.0 == a && Colliding(p, boxOf)
        ensures exists m :: k <= m < |h.order| && p.1 in h.grids[h.order[m]].meta
      {
        if p in here {
          AroundPairsFrom(bigger, ci, 0, a, boxOf, p);
          assert p.1 in h.grids[h.order[k]].meta;
        } else {
          assert p in rest;
        }
      }
    }
  }

  lemma GridOfOrder(h: Hierarchy, k: nat)
    requires OrderValid(h) && GridsValid(h) && k < |h.order|
    ensures h.order[k] in h.grids && GridValid(h.grids[h.order[k]])
  {
  }

  /** Every object of grid `i` is paired only with objects of coarser grids. */
  lemma {:induction false} ObjectsCoarserSound(h: Hierarchy, i: nat, objs: seq<ObjId>, boxOf: ObjId -> Aabb)
    requires OrderValid(h) && GridsValid(h)
    ensures forall p :: p in ObjectsCoarserPairs(h, i, objs, boxOf) ==>
      && p.0 in objs && Colliding(p, boxOf)
      && exists m :: i < m < |h.order| && p.1 in h.grids[h.order[m]].meta
    decreases |objs|
  {
    if |objs| > 0 {
      ObjectsCoarserSound(h, i, objs[1..], boxOf);
      CoarserPairsSound(h, i + 1, objs[0], boxOf);
    }
  }

  // ---------------------------------------------------------------------
  // The whole query

  /** The `i` loop over `_grids`, from position `i` on: each grid's own
      pairs, then its objects against every coarser grid. */
  function GridsPairs(h: Hierarchy, i: nat, boxOf: ObjId -> Aabb): seq<Pair>
    requires OrderValid(h) && GridsValid(h)
    decreases |h.order| - i
  {
    if i >= |h.order| then []
    else
      var g := h.grids[h.order[i]];
      assert GridValid(g);
      OccupiedPairs(g, 0, boxOf) + ObjectsCoarserPairs(h, i, g.allObjects, boxOf) + GridsPairs(h, i + 1, boxOf)
  }

  /** `HSHG.queryForCollisionPairs`. */
  function QueryPairs(h: Hierarchy, boxOf: ObjId -> Aabb): seq<Pair>
    requires Valid(h)
  {
    GridsPairs(h, 0, boxOf)
  }

  /** Every reported pair joins two distinct registered objects that are
      both active and whose boxes overlap. */
  lemma QueryPairsSound(h: Hierarchy, boxOf: ObjId -> Aabb)
    requires Valid(h)
    ensures forall p :: p in QueryPairs(h, boxOf) ==> SoundPair(h, p, boxOf)
  {
    GridsPairsSound(h, 0, boxOf);
  }

  lemma {:induction false} GridsPairsSound(h: Hierarchy, i: nat, boxOf: ObjId -> Aabb)
    requires OrderValid(h) && GridsValid(h) && MembershipConsistent(h)
    ensures forall p :: p in GridsPairs(h, i, boxOf) ==> SoundPair(h, p, boxOf)
    decreases |h.order| - i
  {
    if i < |h.order| {
      GridsPairsSound(h, i + 1, boxOf);
      GridOfOrder(h, i);
      OwnPairsSound(h, i, boxOf);
      CrossPairsSound(h, i, boxOf);
      var g := h.grids[h.order[i]];
      var own := OccupiedPairs(g, 0, boxOf);
      var cross := ObjectsCoarserPairs(h, i, g.allObjects, boxOf);
      var rest := GridsPairs(h, i + 1, boxOf);
      assert GridsPairs(h, i, boxOf) == own + cross + rest;
      forall p | p in own + cross + rest
        ensures SoundPair(h, p, boxOf)
      {
        if p in own {
        } else if p in cross {
        } else {
          assert p in rest;
        }
      }
    }
  }

  /** Pairs found inside grid `i` are pairs of registered objects. */
  lemma OwnPairsSound(h: Hierarchy, i: nat, boxOf: ObjId -> Aabb)
    requires OrderValid(h) && GridsValid(h) && MembershipConsistent(h) && i < |h.order|
    ensures GridValid(h.grids[h.order[i]])
    ensures forall p :: p in OccupiedPairs(h.grids[h.order[i]], 0, boxOf) ==> SoundPair(h, p, boxOf)
  {
    GridOfOrder(h, i);
    var id := h.order[i];
    var g := h.grids[id];
    OccupiedPairsSound(g, 0, boxOf);
    forall p | p in OccupiedPairs(g, 0, boxOf)
      ensures SoundPair(h, p, boxOf)
    {
      MemberOfGrid(h, id, p.0);
      MemberOfGrid(h, id, p.1);
    }
  }

  /** Pairs of an object of grid `i` with a coarser grid join objects of
      two different grids, so two different objects. */
  lemma CrossPairsSound(h: Hierarchy, i: nat, boxOf: ObjId -> Aabb)
    requires OrderValid(h) && GridsValid(h) && MembershipConsistent(h) && i < |h.order|
    ensures GridValid(h.grids[h.order[i]])
    ensures forall p :: p in ObjectsCoarserPairs(h, i, h.grids[h.order[i]].allObjects, boxOf) ==> SoundPair(h, p, boxOf)
  {
    GridOfOrder(h, i);
    var id := h.order[i];
    var g := h.grids[id];
    ObjectsCoarserSound(h, i, g.allObjects, boxOf);
    forall p | p in ObjectsCoarserPairs(h, i, g.allObjects, boxOf)
      ensures SoundPair(h, p, boxOf)
    {
      var m :| i < m < |h.order| && p.1 in h.grids[h.order[m]].meta;
      var j :| 0 <= j < |g.allObjects| && g.allObjects[j] == p.0;
      assert p.0 in g.meta;
      MemberOfGrid(h, id, p.0);
      MemberOfGrid(h, h.order[m], p.1);
    }
  }

  /** An object of a grid is registered, with that grid as its grid. */
  lemma MemberOfGrid(h: Hierarchy, id: GridId, o: ObjId)
    requires MembershipConsistent(h) && id in h.grids && o in h.grids[id].meta
    ensures o in h.meta && h.meta[o].grid == id
  {
  }
}
