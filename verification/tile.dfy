/** The tiles of src/room/tile.ts: a tile's geometry, its spawn timer's
    step, and the count of the entities it has spawned, which each
    entity's `'remove'` event lowers. The `init`, `tick` and `afterSpawn`
    hooks are callbacks and are not modelled; the timer itself is not
    either, only what one firing of it does. */
module Tiles {
  import opened Wrappers
  import opened Vec
  import opened Entities
  import RandomChoice
  import Worlds

  /** `Team.Room`, the second team (`client/src/lib/team.ts` lists them). */
  const TeamRoom := 1

  /** `spawnInterval || 500`: the default period in milliseconds. */
  const DefaultSpawnInterval := 500.0

  /** `spawnTimes` and `spawnInterval` may be missing (`None`). */
  datatype TileSetting = TileSetting(
    spawn: seq<RandomChoice.Food>, spawnTimes: Option<real>, spawnInterval: Option<real>)

  /** `spawned` holds the entities the tile put a `'remove'` listener on;
      `entities` and `entitySize` are the source's fields. */
  datatype Tile = Tile(
    setting: TileSetting, min: Vector, max: Vector, pos: Vector, size: real,
    entities: set<Id>, spawned: set<Id>, entitySize: int)

  /** `init(room, min, max)`: the centre of the rectangle and its width. */
  function Init(setting: TileSetting, min: Vector, max: Vector): (t: Tile)
    ensures t.min == min && t.max == max && t.setting == setting
    ensures t.pos.x - min.x == max.x - t.pos.x && t.pos.y - min.y == max.y - t.pos.y
    ensures t.size == max.x - min.x
    ensures t.entities == {} && t.spawned == {} && t.entitySize == 0
  {
    Tile(setting, min, max, Add(Scale(Sub(max, min), 0.5), min), max.x - min.x, {}, {}, 0)
  }

  /** The centre lies inside the rectangle. */
  lemma CentreInside(setting: TileSetting, min: Vector, max: Vector)
    requires min.x <= max.x && min.y <= max.y
    ensures var p := Init(setting, min, max).pos;
      min.x <= p.x <= max.x && min.y <= p.y <= max.y
  {
  }

  /** The timer is only set up when the spawn list is not empty. */
  predicate HasTimer(s: TileSetting) {
    |s.spawn| > 0
  }

  /** `spawnInterval || 500`: a missing or zero interval means 500. */
  function Period(s: TileSetting): (ms: real)
    ensures s.spawnInterval.None? || s.spawnInterval.value == 0.0 ==> ms == DefaultSpawnInterval
    ensures s.spawnInterval.Some? && s.spawnInterval.value != 0.0 ==> ms == s.spawnInterval.value
    ensures s.spawnInterval.Some? && s.spawnInterval.value >= 0.0 ==> ms > 0.0
  {
    match s.spawnInterval
    case None => DefaultSpawnInterval
    case Some(v) => if v == 0.0 then DefaultSpawnInterval else v
  }

  /** `!spawnTimes || entitySize < spawnTimes`: no limit when it is missing
      or zero. */
  predicate Gate(t: Tile) {
    t.setting.spawnTimes.None? || t.setting.spawnTimes.value == 0.0
    || (t.entitySize as real) < t.setting.spawnTimes.value
  }

  /** What one firing of the timer does. `NoKind` is `randomFood`
      answering `undefined`, on which `entity.init` throws; `NoPlace` is
      the case where every position draw falls in an exclusion zone, where
      the source keeps drawing. */
  datatype Firing =
    | Closed
    | NoKind
    | NoPlace
    | Spawned(tile: Tile, kind: string, pos: Vector, team: int)

  /** One firing, with the food draw, the position draws and the id the
      room's `insert` hands out. The tile adds the entity, counts it and
      listens for its removal. The position comes from the tile's own
      generator, whose exclusion zones stay empty: nothing ever adds to
      them (the labyrinth's wall zones go to the room's generator only), so
      the first draw is always taken, on a wall or not. */
  function Fire(t: Tile, foodDraw: real, posDraws: seq<Vector>, id: Id): (f: Firing)
    ensures f.Closed? <==> !Gate(t)
    ensures f.NoPlace? <==> Gate(t) && RandomChoice.RandomFood(t.setting.spawn, foodDraw).Some? && |posDraws| == 0
    ensures f.Spawned? ==>
      f.team == TeamRoom
      && |posDraws| > 0 && f.pos == RandomChoice.Candidate(t.min, t.max, posDraws[0])
      && f.tile == t.(entities := t.entities + {id}, spawned := t.spawned + {id}, entitySize := t.entitySize + 1)
      && exists i :: 0 <= i < |t.setting.spawn| && f.kind == t.setting.spawn[i].kind
  {
    if !Gate(t) then Closed
    else
      match RandomChoice.RandomFood(t.setting.spawn, foodDraw)
      case None => NoKind
      case Some(kind) =>
        match RandomChoice.RandomPos([], t.min, t.max, posDraws)
        case None => NoPlace
        case Some(p) =>
          Spawned(t.(entities := t.entities + {id}, spawned := t.spawned + {id},
                     entitySize := t.entitySize + 1), kind, p, TeamRoom)
  }

  /** With draws in [0, 1) and a rectangle of positive extent, the spawned
      entity lies in the tile's rectangle (closed at the minimum, open at
      the maximum). */
  lemma FireInside(t: Tile, foodDraw: real, posDraws: seq<Vector>, id: Id)
    requires t.min.x < t.max.x && t.min.y < t.max.y
    requires forall j :: 0 <= j < |posDraws| ==> 0.0 <= posDraws[j].x < 1.0 && 0.0 <= posDraws[j].y < 1.0
    ensures var f := Fire(t, foodDraw, posDraws, id);
      f.Spawned? ==> t.min.x <= f.pos.x < t.max.x && t.min.y <= f.pos.y < t.max.y
  {
  }

  // ---------------------------------------------------------------------
  // The 'remove' listener

  /** The listener as written: every `'remove'` of an entity the tile
      spawned lowers `entitySize`, however often it fires. */
  function OnRemove(t: Tile, id: Id): (t': Tile)
    ensures t.entities <= t.spawned ==> t'.entities == t.entities - {id}
    ensures t'.spawned == t.spawned
    ensures t'.entitySize == t.entitySize - (if id in t.spawned then 1 else 0)
  {
    if id in t.spawned then t.(entitySize := t.entitySize - 1, entities := t.entities - {id})
    else t
  }

  /** The tile's view of the world's events: each `Removed` reaches the
      listener; the other events do not concern it. */
  function Observe(t: Tile, events: seq<Worlds.Event>): (t': Tile)
    decreases |events|
  {
    if |events| == 0 then t
    else
      var t1 := if events[0].Removed? then OnRemove(t, events[0].id) else t;
      Observe(t1, events[1..])
  }

  /** `entitySize` counts the entities the tile holds, all of which it
      listens to. */
  predicate Counted(t: Tile) {
    t.entitySize == |t.entities| && t.entities <= t.spawned
  }

  /** Two `'remove'` events for one entity, which `World.remove` emits when
      it runs on an entity already removed, leave `entitySize` one below
      the number of entities the tile holds. */
  lemma RemovedTwiceMiscounts(t: Tile, id: Id)
    requires Counted(t) && id in t.entities
    ensures var t' := Observe(t, [Worlds.Removed(id), Worlds.Removed(id)]);
      t'.entities == t.entities - {id} && t'.entitySize == t.entitySize - 2
      && t'.entitySize == |t'.entities| - 1
  {
    var t1 := OnRemove(t, id);
    assert |t1.entities| == |t.entities| - 1;
    assert [Worlds.Removed(id), Worlds.Removed(id)][1..] == [Worlds.Removed(id)];
    assert Observe(t, [Worlds.Removed(id), Worlds.Removed(id)]) == Observe(t1, [Worlds.Removed(id)]);
    assert [Worlds.Removed(id)][1..] == [];
    var t2 := OnRemove(t1, id);
    assert Observe(t1, [Worlds.Removed(id)]) == Observe(t2, []) == t2;
  }

  /** The single food of the example tile below. */
  const OneFood := [RandomChoice.Food("Food", 1.0)]

  /** An open tile whose only food weighs 1 spawns on the draw 0.5 with
      the tile's empty zone list. */
  lemma FireOpen(t: Tile, id: Id)
    requires Gate(t) && t.setting.spawn == OneFood
    ensures Fire(t, 0.5, [Zero], id).Spawned?
  {
    assert RandomChoice.Prefix(OneFood, 1) == 1.0;
    assert RandomChoice.Walk(OneFood, 0.5) == Some(0);
    assert RandomChoice.RandomFood(OneFood, 0.5) == Some("Food");
    assert RandomChoice.FirstFree([], t.min, t.max, [Zero]) == Some(0);
  }

  /** A concrete run: a tile limited to one entity spawns entity 0, sees
      it removed twice, and then spawns twice more, so it holds two
      entities. */
  lemma OverSpawns()
    ensures var t0 := Init(TileSetting(OneFood, Some(1.0), None), Zero, Vector(10.0, 10.0));
      var f0 := Fire(t0, 0.5, [Zero], 0);
      f0.Spawned?
      && var t1 := Observe(f0.tile, [Worlds.Removed(0), Worlds.Removed(0)]);
      var f1 := Fire(t1, 0.5, [Zero], 1);
      f1.Spawned?
      && var f2 := Fire(f1.tile, 0.5, [Zero], 2);
      f2.Spawned? && f2.tile.entities == {1, 2}
      && |f2.tile.entities| as real > t0.setting.spawnTimes.value
  {
    var t0 := Init(TileSetting(OneFood, Some(1.0), None), Zero, Vector(10.0, 10.0));
    FireOpen(t0, 0);
    var f0 := Fire(t0, 0.5, [Zero], 0);
    var t1 := Observe(f0.tile, [Worlds.Removed(0), Worlds.Removed(0)]);
    assert f0.tile.entities == {0} && f0.tile.spawned == {0} && f0.tile.entitySize == 1;
    RemovedTwiceMiscounts(f0.tile, 0);
    assert t1.entities == {} && t1.entitySize == -1;
    FireOpen(t1, 1);
    var f1 := Fire(t1, 0.5, [Zero], 1);
    assert f1.tile.entities == {1} && f1.tile.entitySize == 0;
    FireOpen(f1.tile, 2);
    var f2 := Fire(f1.tile, 0.5, [Zero], 2);
    assert f2.tile.entities == {1, 2};
  }

  /** The listener as intended: an entity the tile no longer holds is not
      counted again. */
  function OnRemoveOnce(t: Tile, id: Id): (t': Tile)
    ensures t'.entities == t.entities - {id} && t'.spawned == t.spawned
  {
    if id in t.entities then t.(entitySize := t.entitySize - 1, entities := t.entities - {id})
    else t
  }

  function ObserveOnce(t: Tile, events: seq<Worlds.Event>): (t': Tile)
    decreases |events|
  {
    if |events| == 0 then t
    else
      var t1 := if events[0].Removed? then OnRemoveOnce(t, events[0].id) else t;
      ObserveOnce(t1, events[1..])
  }

  /** With the intended listener the count stays exact whatever the
      events, repeated removals included. */
  lemma {:induction false} ObserveOnceCounted(t: Tile, events: seq<Worlds.Event>)
    requires Counted(t)
    ensures Counted(ObserveOnce(t, events))
    decreases |events|
  {
    if |events| > 0 {
      var t1 := if events[0].Removed? then OnRemoveOnce(t, events[0].id) else t;
      ObserveOnceCounted(t1, events[1..]);
    }
  }

  /** A firing keeps the count exact. With an exact count, a tile whose
      limit is set never holds more entities than the limit. */
  lemma FireCounted(t: Tile, foodDraw: real, posDraws: seq<Vector>, id: Id)
    requires Counted(t) && id !in t.spawned
    ensures var f := Fire(t, foodDraw, posDraws, id);
      f.Spawned? ==> Counted(f.tile)
    ensures var f := Fire(t, foodDraw, posDraws, id);
      f.Spawned? && t.setting.spawnTimes.Some? && t.setting.spawnTimes.value > 0.0 ==>
        (|f.tile.entities| as real) < t.setting.spawnTimes.value + 1.0
  {
  }

  // ---------------------------------------------------------------------
  // TileMaker

  datatype TileMaker = TileMaker(setting: TileSetting, tiles: seq<Tile>)

  /** `TileMaker.init`: a new tile with the maker's setting, recorded at
      the end of the maker's list. */
  function MakerInit(m: TileMaker, min: Vector, max: Vector): (r: (TileMaker, Tile))
    ensures r.0.setting == m.setting && r.0.tiles == m.tiles + [r.1]
    ensures r.1.setting == m.setting && r.1.min == min && r.1.max == max
    ensures r.1.entities == {} && r.1.entitySize == 0
  {
    var t := Init(m.setting, min, max);
    (m.(tiles := m.tiles + [t]), t)
  }

  /** A maker that creates tiles for a list of rectangles records them
      all, in order, after the tiles it had. */
  function MakeAll(m: TileMaker, rects: seq<(Vector, Vector)>): (r: TileMaker)
    decreases |rects|
  {
    if |rects| == 0 then m
    else MakeAll(MakerInit(m, rects[0].0, rects[0].1).0, rects[1..])
  }

  lemma {:induction false} MakeAllRecords(m: TileMaker, rects: seq<(Vector, Vector)>)
    ensures var r := MakeAll(m, rects);
      |r.tiles| == |m.tiles| + |rects| && r.tiles[..|m.tiles|] == m.tiles
      && forall k :: 0 <= k < |rects| ==>
           r.tiles[|m.tiles| + k] == Init(m.setting, rects[k].0, rects[k].1)
    decreases |rects|
  {
    if |rects| > 0 {
      var m1 := MakerInit(m, rects[0].0, rects[0].1).0;
      MakeAllRecords(m1, rects[1..]);
      var r := MakeAll(m, rects);
      assert r == MakeAll(m1, rects[1..]);
      assert r.tiles[..|m1.tiles|] == m1.tiles;
      assert r.tiles[..|m.tiles|] == m1.tiles[..|m.tiles|];
      forall k | 0 <= k < |rects| ensures r.tiles[|m.tiles| + k] == Init(m.setting, rects[k].0, rects[k].1) {
        if k == 0 {
          assert r.tiles[|m.tiles|] == m1.tiles[|m.tiles|];
        } else {
          assert rects[1..][k - 1] == rects[k];
        }
      }
    }
  }
}
