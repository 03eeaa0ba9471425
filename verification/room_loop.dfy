/** The room set-up of src/room/room-loop.ts: cutting the world into tiles,
    placing a new player, and turning a carved maze into walls with
    exclusion zones around them. `Math.random` draws are parameters; the
    entities themselves are described by what the room sets on them. */
module RoomLoops {
  import opened Wrappers
  import opened Vec
  import Tiles
  import RandomChoice
  import Mazes
  import Arith

  // ---------------------------------------------------------------------
  // initTile

  /** The k-th cut of a side of the given length into n equal parts:
      `size.mult(k)` with `size = length / n`. */
  function Cut(k: int, n: nat, length: real): real
    requires n > 0
  {
    (length / n as real) * k as real
  }

  /** The corners tile (i, j) is initialised with. */
  function Lo(i: int, j: int, rows: nat, cols: nat, width: real, height: real): Vector
    requires rows > 0 && cols > 0
  {
    Vector(Cut(i, rows, width), Cut(j, cols, height))
  }

  function Hi(i: int, j: int, rows: nat, cols: nat, width: real, height: real): Vector
    requires rows > 0 && cols > 0
  {
    Vector(Cut(i + 1, rows, width), Cut(j + 1, cols, height))
  }

  /** The tile map is rectangular as far as the loops read it: every row
      has at least as many slots as the first. */
  predicate Covers(tileMap: seq<seq<Tiles.TileSetting>>) {
    |tileMap| > 0 && forall i :: 0 <= i < |tileMap| ==> |tileMap[i]| >= |tileMap[0]|
  }

  /** The tile made for slot (i, j). */
  function SlotTile(tileMap: seq<seq<Tiles.TileSetting>>, i: int, j: int, width: real, height: real): Tiles.Tile
    requires 0 <= i < |tileMap| && 0 < |tileMap[0]| && 0 <= j < |tileMap[0]| <= |tileMap[i]|
  {
    var rows, cols := |tileMap|, |tileMap[0]|;
    Tiles.Init(tileMap[i][j], Lo(i, j, rows, cols, width, height), Hi(i, j, rows, cols, width, height))
  }

  /** `initTile()`: one tile per slot, row by row, so tile k belongs to
      slot (k div cols, k mod cols) and covers that slot's rectangle. An
      empty map throws at `tileMap[0].length`, and a row shorter than the
      first throws at its first missing slot (`None`). */
  method InitTile(tileMap: seq<seq<Tiles.TileSetting>>, width: real, height: real)
    returns (r: Option<seq<Tiles.Tile>>)
    ensures r.None? <==> !Covers(tileMap)
    ensures r.Some? ==> |r.value| == |tileMap| * |tileMap[0]|
    ensures r.Some? ==> forall k :: 0 <= k < |r.value| ==>
      0 <= k / |tileMap[0]| < |tileMap| && 0 <= k % |tileMap[0]| < |tileMap[0]|
      && r.value[k] == SlotTile(tileMap, k / |tileMap[0]|, k % |tileMap[0]|, width, height)
  {
    if |tileMap| == 0 {
      return None;
    }
    var rows, cols := |tileMap|, |tileMap[0]|;
    if cols == 0 {
      return Some([]);
    }
    var tiles: seq<Tiles.Tile> := [];
    var i := 0;
    while i < rows
      invariant 0 <= i <= rows
      invariant forall k :: 0 <= k < i ==> |tileMap[k]| >= cols
      invariant Filled(tileMap, tiles, i, width, height)
    {
      if |tileMap[i]| < cols {
        return None;
      }
      tiles := AppendRow(tileMap, tiles, i, width, height);
      i := i + 1;
    }
    r := Some(tiles);
  }

  /** The first i rows have been laid out. */
  predicate Filled(tileMap: seq<seq<Tiles.TileSetting>>, tiles: seq<Tiles.Tile>, i: int, width: real, height: real)
    requires 0 < |tileMap| && 0 < |tileMap[0]| && 0 <= i <= |tileMap|
    requires forall k :: 0 <= k < i ==> |tileMap[k]| >= |tileMap[0]|
  {
    var cols := |tileMap[0]|;
    |tiles| == i * cols
    && forall k :: 0 <= k < |tiles| ==>
         0 <= k / cols < i && 0 <= k % cols < cols
         && tiles[k] == SlotTile(tileMap, k / cols, k % cols, width, height)
  }

  /** One pass of the inner loop: row i's tiles pushed after the others. */
  function AppendRow(tileMap: seq<seq<Tiles.TileSetting>>, tiles: seq<Tiles.Tile>, i: int, width: real, height: real): (r: seq<Tiles.Tile>)
    requires 0 < |tileMap| && 0 < |tileMap[0]| && 0 <= i < |tileMap|
    requires forall k :: 0 <= k <= i ==> |tileMap[k]| >= |tileMap[0]|
    requires Filled(tileMap, tiles, i, width, height)
    ensures Filled(tileMap, r, i + 1, width, height)
  {
    var cols := |tileMap[0]|;
    var row := seq(cols, j requires 0 <= j < cols => SlotTile(tileMap, i, j, width, height));
    var r := tiles + row;
    assert |r| == (i + 1) * cols;
    assert forall k | 0 <= k < |r| ::
      0 <= k / cols < i + 1 && 0 <= k % cols < cols
      && r[k] == SlotTile(tileMap, k / cols, k % cols, width, height) by {
      forall k | |tiles| <= k < |r|
        ensures k / cols == i && k % cols == k - i * cols
      {
        Arith.ModUnique(k, cols, i, k - i * cols);
      }
    }
    r
  }

  // ---------------------------------------------------------------------
  // The tiles partition the world

  /** The part of a side of length `length`, cut into n, that x falls in. */
  function Slot(x: real, n: nat, length: real): int
    requires n > 0 && length > 0.0
  {
    (x / (length / n as real)).Floor
  }

  /** Multiplying by a positive factor keeps order, both ways. */
  lemma Scale(a: real, b: real, u: real)
    requires u > 0.0
    ensures a * u <= b * u <==> a <= b
    ensures a * u < b * u <==> a < b
  {
    assert b * u - a * u == (b - a) * u;
  }

  /** A point of [0, length) lies in the half-open part [Cut(k), Cut(k + 1))
      for exactly one k in [0, n): its slot. */
  lemma AxisPartition(x: real, n: nat, length: real, k: int)
    requires n > 0 && length > 0.0 && 0.0 <= x < length
    ensures 0 <= Slot(x, n, length) < n
    ensures Cut(k, n, length) <= x < Cut(k + 1, n, length) <==> k == Slot(x, n, length)
  {
    var u := length / n as real;
    var q := x / u;
    Quotient(x, u);
    Quotient(length, u);
    assert length / u == n as real;
    assert Slot(x, n, length) == q.Floor;
    Bracket(x, u, q, 0.0, n as real);
    FloorUnique(q, 0);
    FloorUnique(q, n);
    Bracket(x, u, q, k as real, (k + 1) as real);
    FloorUnique(q, k);
  }

  /** x = q * u lies in [lo * u, hi * u) exactly when q lies in [lo, hi). */
  lemma Bracket(x: real, u: real, q: real, lo: real, hi: real)
    requires u > 0.0 && x == q * u
    ensures lo * u <= x < hi * u <==> lo <= q < hi
  {
    Scale(lo, q, u);
    Scale(q, hi, u);
  }

  /** x is its quotient by u times u. */
  lemma Quotient(x: real, u: real)
    requires u > 0.0
    ensures x == (x / u) * u
  {
  }

  /** The floor of q is the one integer k with k <= q < k + 1. */
  lemma FloorUnique(q: real, k: int)
    ensures k as real <= q < k as real + 1.0 <==> k == q.Floor
  {
    assert q.Floor as real <= q < q.Floor as real + 1.0;
  }

  /** The half-open rectangle of tile (i, j). */
  predicate InRect(p: Vector, lo: Vector, hi: Vector) {
    lo.x <= p.x < hi.x && lo.y <= p.y < hi.y
  }

  /** The tiles of `initTile` partition the world: a point of
      [0, width) x [0, height) lies in the rectangle of tile (i, j) exactly
      when (i, j) is the pair of its slots, and those slots are a tile. */
  lemma TilePartition(p: Vector, rows: nat, cols: nat, width: real, height: real, i: int, j: int)
    requires rows > 0 && cols > 0 && width > 0.0 && height > 0.0
    requires 0.0 <= p.x < width && 0.0 <= p.y < height
    ensures 0 <= Slot(p.x, rows, width) < rows && 0 <= Slot(p.y, cols, height) < cols
    ensures InRect(p, Lo(i, j, rows, cols, width, height), Hi(i, j, rows, cols, width, height))
      <==> i == Slot(p.x, rows, width) && j == Slot(p.y, cols, height)
  {
    AxisPartition(p.x, rows, width, i);
    AxisPartition(p.y, cols, height, j);
  }

  // ---------------------------------------------------------------------
  // spawn

  /** `xs[Math.floor(d * xs.length)]`; an empty list reads `undefined`. */
  function Pick<T>(xs: seq<T>, d: real): (r: Option<T>)
    ensures 0.0 <= d < 1.0 ==> (r.Some? <==> |xs| > 0)
    ensures r.Some? ==> r.value in xs
  {
    var k := (d * |xs| as real).Floor;
    if 0 <= k < |xs| then Some(xs[k]) else None
  }

  /** A draw in [0, 1) picks an index of a non-empty list. */
  lemma PickInRange(n: nat, d: real)
    requires 0.0 <= d < 1.0 && n > 0
    ensures 0 <= (d * n as real).Floor < n
  {
    Scale(0.0, d, n as real);
    Scale(d, 1.0, n as real);
    FloorUnique(d * n as real, 0);
    assert (d * n as real).Floor as real <= d * n as real;
  }

  /** The spawned player: the `Basic` class, the given name, a team (the
      source reads `undefined` when the room lists no team) and a position. */
  datatype Player = Player(name: string, team: Option<int>, pos: Vector)

  /** The tile a player of the given team spawns in: one of the team's
      tiles when the room has a non-empty list for it. An empty list is
      truthy in the source, but indexing it reads `undefined`, so no tile. */
  function HomeTile(team: Option<int>, teamTile: map<int, seq<Tiles.Tile>>, d: real): (t: Option<Tiles.Tile>)
    ensures t.Some? ==> team.Some? && team.value in teamTile && t.value in teamTile[team.value]
    ensures 0.0 <= d < 1.0 ==>
      (t.Some? <==> team.Some? && team.value in teamTile && |teamTile[team.value]| > 0)
  {
    if team.Some? && team.value in teamTile then Pick(teamTile[team.value], d) else None
  }

  /** The box `getRandomPos` is asked for, as written: both coordinates of
      each corner are taken from the tile's x range. */
  function AreaAsWritten(tile: Option<Tiles.Tile>, width: real, height: real): (Vector, Vector) {
    match tile
    case Some(t) => (Vector(t.min.x, t.min.x), Vector(t.max.x, t.max.x))
    case None => (Vector(0.0, 0.0), Vector(width, height))
  }

  /** The box meant: the tile's own rectangle. */
  function Area(tile: Option<Tiles.Tile>, width: real, height: real): (Vector, Vector) {
    match tile
    case Some(t) => (t.min, t.max)
    case None => (Vector(0.0, 0.0), Vector(width, height))
  }

  /** `spawn(name)` for the given draws: a team, a tile of that team, then
      a free point of the box. `None` when every position draw was
      rejected; the source keeps drawing. */
  function SpawnWith(
    area: (Vector, Vector), name: string, team: Option<int>, zones: seq<RandomChoice.Zone>, posDraws: seq<Vector>)
    : (r: Option<Player>)
    ensures r.Some? ==> r.value.name == name && r.value.team == team
    ensures r.Some? ==> !RandomChoice.Excluded(r.value.pos, zones)
    ensures r.None? <==> RandomChoice.RandomPos(zones, area.0, area.1, posDraws).None?
  {
    match RandomChoice.RandomPos(zones, area.0, area.1, posDraws)
    case None => None
    case Some(p) => Some(Player(name, team, p))
  }

  function SpawnAsWritten(
    name: string, teams: seq<int>, teamTile: map<int, seq<Tiles.Tile>>, zones: seq<RandomChoice.Zone>,
    teamDraw: real, tileDraw: real, posDraws: seq<Vector>, width: real, height: real): (r: Option<Player>)
  {
    var team := Pick(teams, teamDraw);
    SpawnWith(AreaAsWritten(HomeTile(team, teamTile, tileDraw), width, height), name, team, zones, posDraws)
  }

  function Spawn(
    name: string, teams: seq<int>, teamTile: map<int, seq<Tiles.Tile>>, zones: seq<RandomChoice.Zone>,
    teamDraw: real, tileDraw: real, posDraws: seq<Vector>, width: real, height: real): (r: Option<Player>)
    ensures r.Some? ==> r.value.name == name && !RandomChoice.Excluded(r.value.pos, zones)
    ensures r.Some? && 0.0 <= teamDraw < 1.0 ==> (r.value.team.Some? <==> |teams| > 0)
    ensures r.Some? && r.value.team.Some? ==> r.value.team.value in teams
  {
    var team := Pick(teams, teamDraw);
    SpawnWith(Area(HomeTile(team, teamTile, tileDraw), width, height), name, team, zones, posDraws)
  }

  /** Every draw lies in [0, 1), as `Math.random()` returns. */
  predicate Unit(draws: seq<Vector>) {
    forall j :: 0 <= j < |draws| ==> 0.0 <= draws[j].x < 1.0 && 0.0 <= draws[j].y < 1.0
  }

  /** A player of a team with tiles spawns inside one of that team's tiles,
      and otherwise inside the world, never in an exclusion zone. */
  lemma SpawnInside(
    name: string, teams: seq<int>, teamTile: map<int, seq<Tiles.Tile>>, zones: seq<RandomChoice.Zone>,
    teamDraw: real, tileDraw: real, posDraws: seq<Vector>, width: real, height: real)
    requires 0.0 <= teamDraw < 1.0 && 0.0 <= tileDraw < 1.0 && Unit(posDraws)
    requires width > 0.0 && height > 0.0
    requires forall t, ts | ts in teamTile.Values && t in ts :: t.min.x < t.max.x && t.min.y < t.max.y
    ensures var r := Spawn(name, teams, teamTile, zones, teamDraw, tileDraw, posDraws, width, height);
      r.Some? ==>
        var team := Pick(teams, teamDraw);
        var tile := HomeTile(team, teamTile, tileDraw);
        match tile
        case Some(t) => t in teamTile[team.value] && t.min.x <= r.value.pos.x < t.max.x && t.min.y <= r.value.pos.y < t.max.y
        case None => 0.0 <= r.value.pos.x < width && 0.0 <= r.value.pos.y < height
  {
    var team := Pick(teams, teamDraw);
    var tile := HomeTile(team, teamTile, tileDraw);
    if tile.Some? {
      assert teamTile[team.value] in teamTile.Values;
    }
  }

  /** A tile of a 4 x 4 grid over a 5000 x 5000 world that is not on the
      diagonal: rows [0, 1250), columns [1250, 2500). */
  const OffDiagonal := Tiles.Init(Tiles.TileSetting([], None, None), Vector(0.0, 1250.0), Vector(1250.0, 2500.0))

  /** As written, a player of the only team, whose only tile is the one
      above, is placed at (625, 625): the y range [0, 1250) of the box is
      the tile's x range, and 625 lies outside the tile's [1250, 2500). */
  lemma SpawnMissesTile()
    ensures var r := SpawnAsWritten("a", [1], map[1 := [OffDiagonal]], [], 0.5, 0.5, [Vector(0.5, 0.5)], 5000.0, 5000.0);
      r == Some(Player("a", Some(1), Vector(625.0, 625.0)))
      && !(OffDiagonal.min.y <= 625.0 < OffDiagonal.max.y)
  {
    assert (0.5 * 1 as real).Floor == 0;
    var team := Pick([1], 0.5);
    assert team == Some(1);
    assert HomeTile(team, map[1 := [OffDiagonal]], 0.5) == Some(OffDiagonal);
    var area := AreaAsWritten(Some(OffDiagonal), 5000.0, 5000.0);
    assert area == (Vector(0.0, 0.0), Vector(1250.0, 1250.0));
    assert RandomChoice.Candidate(area.0, area.1, Vector(0.5, 0.5)) == Vector(625.0, 625.0);
    assert !RandomChoice.Excluded(Vector(625.0, 625.0), []);
  }

  // ---------------------------------------------------------------------
  // generateLabyrinth

  /** `Math.SQRT2` as a double. */
  const Sqrt2 := 1.4142135623730951

  /** A wall entity: its centre, its `setting.size`, and its team. */
  datatype WallEntity = WallEntity(pos: Vector, size: real, team: int)

  /** `RoomConfig.height / (size + 2 * padding)` with padding 1: the side
      of one maze cell in world units. */
  function CellSide(size: nat, height: real): real {
    height / (size + 2) as real
  }

  /** The wall for maze cell c: the world cell one step in from the
      padding, `x * wallScale + wallScale / 2` with x = c.x + 1. */
  function WallAt(side: real, c: Mazes.Cell): (w: WallEntity)
    ensures w.team == Tiles.TeamRoom
  {
    WallEntity(
      Vector((c.x + 1) as real * side + side / 2.0, (c.y + 1) as real * side + side / 2.0),
      side * 0.5 * Sqrt2, Tiles.TeamRoom)
  }

  /** The exclusion zone pushed with a wall: its centre plus and minus its size. */
  function ZoneOf(w: WallEntity): (z: RandomChoice.Zone)
    ensures w.size >= 0.0 ==> RandomChoice.InZone(w.pos, z)
  {
    RandomChoice.Zone(Vector(w.pos.x - w.size, w.pos.y - w.size), Vector(w.pos.x + w.size, w.pos.y + w.size))
  }

  /** The world square maze cell c is drawn on. */
  predicate OnCell(p: Vector, side: real, c: Mazes.Cell) {
    (c.x + 1) as real * side <= p.x <= (c.x + 2) as real * side
    && (c.y + 1) as real * side <= p.y <= (c.y + 2) as real * side
  }

  /** A wall's zone covers the whole square of its cell: the zone reaches
      `side * 0.5 * SQRT2` from the centre, more than the half side. */
  lemma ZoneCoversCell(side: real, c: Mazes.Cell, p: Vector)
    requires side >= 0.0 && OnCell(p, side, c)
    ensures RandomChoice.InZone(p, ZoneOf(WallAt(side, c)))
  {
    assert side * 0.5 * Sqrt2 >= side / 2.0;
  }

  /** The wall cells of column x among rows [0, y), top to bottom. */
  function Column(m: Mazes.Maze, x: int, y: nat): (cs: seq<Mazes.Cell>)
    requires Mazes.Valid(m)
  {
    if y == 0 then []
    else Column(m, x, y - 1) + (if Mazes.Wall(m, Mazes.Cell(x, y - 1)) then [Mazes.Cell(x, y - 1)] else [])
  }

  /** The wall cells of columns [0, x) and rows [0, n), column by column:
      the order of the two loops, x outer. */
  function Columns(m: Mazes.Maze, x: nat, n: nat): (cs: seq<Mazes.Cell>)
    requires Mazes.Valid(m)
  {
    if x == 0 then [] else Columns(m, x - 1, n) + Column(m, x - 1, n)
  }

  /** Column x holds exactly its wall cells above row y, in increasing row order. */
  lemma {:induction false} ColumnSpec(m: Mazes.Maze, x: int, y: nat)
    requires Mazes.Valid(m)
    ensures forall c :: c in Column(m, x, y) <==> c.x == x && 0 <= c.y < y && Mazes.Wall(m, c)
    ensures forall a, b :: 0 <= a < b < |Column(m, x, y)| ==> Column(m, x, y)[a].y < Column(m, x, y)[b].y
  {
    if y > 0 {
      ColumnSpec(m, x, y - 1);
    }
  }

  /** Column-major order: x first, then y. */
  predicate Precedes(a: Mazes.Cell, b: Mazes.Cell) {
    a.x < b.x || (a.x == b.x && a.y < b.y)
  }

  /** The enumeration holds each wall cell of the first x columns exactly
      once, in column-major order. */
  lemma {:induction false} ColumnsSpec(m: Mazes.Maze, x: nat, n: nat)
    requires Mazes.Valid(m)
    ensures forall c :: c in Columns(m, x, n) <==> 0 <= c.x < x && 0 <= c.y < n && Mazes.Wall(m, c)
    ensures forall a, b :: 0 <= a < b < |Columns(m, x, n)| ==> Precedes(Columns(m, x, n)[a], Columns(m, x, n)[b])
  {
    if x > 0 {
      ColumnsSpec(m, x - 1, n);
      ColumnSpec(m, x - 1, n);
      var l, r := Columns(m, x - 1, n), Column(m, x - 1, n);
      assert Columns(m, x, n) == l + r;
      forall a, b | 0 <= a < b < |l + r|
        ensures Precedes((l + r)[a], (l + r)[b])
      {
        if b >= |l| {
          assert (l + r)[b] == r[b - |l|];
          assert r[b - |l|] in r;
          if a >= |l| {
            assert (l + r)[a] == r[a - |l|];
          } else {
            assert (l + r)[a] == l[a];
            assert l[a] in l;
          }
        }
      }
    }
  }

  /** The walls and zones for the given cells, in order. */
  function WallsOf(side: real, cs: seq<Mazes.Cell>): (ws: seq<WallEntity>)
    ensures |ws| == |cs| && forall k :: 0 <= k < |cs| ==> ws[k] == WallAt(side, cs[k])
  {
    seq(|cs|, k requires 0 <= k < |cs| => WallAt(side, cs[k]))
  }

  /** The placement loops of `generateLabyrinth` over a carved square maze
      of side n: one wall per wall cell, column by column, each with its
      exclusion zone. A cell reads `maze[y - 1]?.[x - 1]`, which for the
      loops' range is always a cell of the grid. */
  method PlaceWalls(m: Mazes.Maze, side: real) returns (walls: seq<WallEntity>, zones: seq<RandomChoice.Zone>)
    requires Mazes.Valid(m) && m.width == m.height
    ensures walls == WallsOf(side, Columns(m, m.width, m.width))
    ensures Zoned(walls, zones)
  {
    var n := m.width;
    walls, zones := [], [];
    var x := 0;
    while x < n
      invariant 0 <= x <= n
      invariant walls == WallsOf(side, Columns(m, x, n)) && Zoned(walls, zones)
    {
      walls, zones := PlaceColumn(m, side, x, walls, zones);
      x := x + 1;
    }
  }

  /** Each wall comes with its zone, at the same index. */
  predicate Zoned(walls: seq<WallEntity>, zones: seq<RandomChoice.Zone>) {
    |zones| == |walls| && forall k :: 0 <= k < |walls| ==> zones[k] == ZoneOf(walls[k])
  }

  /** The inner loop, over the rows of column x. */
  method PlaceColumn(m: Mazes.Maze, side: real, x: nat, walls0: seq<WallEntity>, zones0: seq<RandomChoice.Zone>)
    returns (walls: seq<WallEntity>, zones: seq<RandomChoice.Zone>)
    requires Mazes.Valid(m) && m.width == m.height && x < m.width
    requires walls0 == WallsOf(side, Columns(m, x, m.width)) && Zoned(walls0, zones0)
    ensures walls == WallsOf(side, Columns(m, x + 1, m.width)) && Zoned(walls, zones)
  {
    var n := m.width;
    var before := Columns(m, x, n);
    walls, zones := walls0, zones0;
    var y := 0;
    while y < n
      invariant 0 <= y <= n
      invariant walls == WallsOf(side, before + Column(m, x, y)) && Zoned(walls, zones)
    {
      var c := Mazes.Cell(x, y);
      if Mazes.Wall(m, c) {
        var w := WallAt(side, c);
        walls, zones := walls + [w], zones + [ZoneOf(w)];
        assert before + Column(m, x, y + 1) == (before + Column(m, x, y)) + [c];
      } else {
        assert before + Column(m, x, y + 1) == before + Column(m, x, y);
      }
      y := y + 1;
    }
  }

  /** After the walls are placed, no point on the square of a wall cell
      can be a spawn position: it lies in that wall's exclusion zone. */
  lemma WallSquaresExcluded(
    m: Mazes.Maze, side: real, walls: seq<WallEntity>, zones: seq<RandomChoice.Zone>, c: Mazes.Cell, p: Vector)
    requires Mazes.Valid(m) && m.width == m.height && side >= 0.0
    requires walls == WallsOf(side, Columns(m, m.width, m.width)) && Zoned(walls, zones)
    requires Mazes.Wall(m, c) && OnCell(p, side, c)
    ensures RandomChoice.Excluded(p, zones)
  {
    var cs := Columns(m, m.width, m.width);
    ColumnsSpec(m, m.width, m.width);
    assert c in cs;
    var k :| 0 <= k < |cs| && cs[k] == c;
    ZoneCoversCell(side, c, p);
    assert RandomChoice.InZone(p, zones[k]);
  }

  /** What `generateLabyrinth(size)` leaves: the carved maze, and the
      walls and zones pushed for it, in order. */
  datatype Labyrinth = Labyrinth(maze: Mazes.Maze, walls: seq<WallEntity>, zones: seq<RandomChoice.Zone>)

  const HoleCentres := [Mazes.Cell(5, 5), Mazes.Cell(5, 25), Mazes.Cell(25, 5), Mazes.Cell(25, 25)]
  const Middle := [Mazes.Cell(15, 15)]
  const Corridors := [7, 23]

  /** Every inside cell of odd coordinates is open. */
  ghost predicate OddOpen(m: Mazes.Maze)
    requires Mazes.Valid(m)
  {
    forall c :: Mazes.Inside(m, c) && c.x % 2 == 1 && c.y % 2 == 1 ==> !Mazes.Wall(m, c)
  }

  /** Every cell of the five holes is open. */
  ghost predicate HolesOpen(m: Mazes.Maze)
    requires Mazes.Valid(m)
  {
    forall c :: Mazes.InHole(m, HoleCentres, 2, c) || Mazes.InHole(m, Middle, 4, c) ==> !Mazes.Wall(m, c)
  }

  /** Every corridor cell is open. */
  ghost predicate CorridorsOpen(m: Mazes.Maze)
    requires Mazes.Valid(m)
  {
    forall c :: Mazes.Corridor(Corridors, c) ==> !Mazes.Wall(m, c)
  }

  /** Carving more keeps open what was open. */
  lemma StaysOpen(a: Mazes.Maze, b: Mazes.Maze)
    requires Mazes.Fewer(a, b)
    ensures OddOpen(a) ==> OddOpen(b)
    ensures HolesOpen(a) ==> HolesOpen(b)
    ensures SmallOpen(a) ==> SmallOpen(b)
  {
    assert forall c :: Mazes.Interior(a, c) == Mazes.Interior(b, c);
  }

  /** The carving half of `generateLabyrinth(size)`: from (1, 1), punch
      extra openings, open four small holes and a large one in the middle,
      then cut the two corridors. It throws (`None`) exactly when the maze
      is too small to have the corridor rows 7 and 23. */
  method Carve(size: nat, draws: Mazes.Draws, punch: Mazes.PunchDraws) returns (r: Option<Mazes.Maze>)
    ensures r.None? <==> size <= 23
    ensures r.Some? ==> Mazes.Valid(r.value) && r.value.width == size && r.value.height == size
    ensures r.Some? ==> OddOpen(r.value) && HolesOpen(r.value) && CorridorsOpen(r.value)
  {
    var m1 := Carved(size, draws);
    if m1.None? {
      return None;
    }
    var m4 := Opened(m1.value, punch);
    var cut := Mazes.CreateCorridors(m4, Corridors);
    if cut.None? {
      assert !Mazes.Row(m4, 23) || !Mazes.Row(m4, 7);
      return None;
    }
    assert Mazes.Row(m4, Corridors[1]);
    StaysOpen(m4, cut.value);
    r := cut;
  }

  /** `punchAdditionalWalls()` and the two `createHoles` calls. */
  method Opened(m1: Mazes.Maze, punch: Mazes.PunchDraws) returns (m4: Mazes.Maze)
    requires Mazes.Valid(m1) && OddOpen(m1)
    ensures Mazes.SameShape(m1, m4) && OddOpen(m4) && HolesOpen(m4)
  {
    var m2 := Mazes.PunchAdditionalWalls(m1, punch);
    StaysOpen(m1, m2);
    var m3 := SmallHoles(m2);
    m4 := Mazes.CreateHoles(m3, Middle, 8);
    StaysOpen(m3, m4);
    MiddleOpen(m3, m4);
  }

  /** Every cell of the four small holes is open. */
  ghost predicate SmallOpen(m: Mazes.Maze)
    requires Mazes.Valid(m)
  {
    forall c :: Mazes.InHole(m, HoleCentres, 2, c) ==> !Mazes.Wall(m, c)
  }

  /** `createHoles([[5, 5], [5, 25], [25, 5], [25, 25]], 4)`. */
  method SmallHoles(m: Mazes.Maze) returns (r: Mazes.Maze)
    requires Mazes.Valid(m)
    ensures Mazes.Fewer(m, r) && SmallOpen(r)
  {
    r := Mazes.CreateHoles(m, HoleCentres, 4);
    assert forall c :: Mazes.Interior(m, c) == Mazes.Interior(r, c);
  }

  /** The large hole opened after the small ones completes `HolesOpen`. */
  lemma MiddleOpen(m3: Mazes.Maze, m4: Mazes.Maze)
    requires Mazes.Fewer(m3, m4) && SmallOpen(m3)
    requires forall c :: Mazes.Wall(m4, c) == (Mazes.Wall(m3, c) && !Mazes.InHole(m3, Middle, 4, c))
    ensures HolesOpen(m4)
  {
    assert forall c :: Mazes.Interior(m3, c) == Mazes.Interior(m4, c);
  }

  /** `new Maze(size, size)` then `generateMaze(1, 1)`: every inside cell
      of odd coordinates ends up open. Row 1 must exist. */
  method Carved(size: nat, draws: Mazes.Draws) returns (r: Option<Mazes.Maze>)
    ensures r.None? <==> size <= 1
    ensures r.Some? ==> Mazes.Valid(r.value) && r.value.width == size && r.value.height == size && OddOpen(r.value)
  {
    var m0 := Mazes.New(size, size);
    var start := Mazes.Cell(1, 1);
    Mazes.FreshClosed(size, size, start);
    r := Mazes.GenerateMaze(m0, start, draws);
    if r.Some? {
      assert forall c :: Mazes.Inside(m0, c) && c.x % 2 == 1 && c.y % 2 == 1 ==> Mazes.SameParity(c, start);
    }
  }

  /** `generateLabyrinth(size)`: the carved maze, then one wall per
      remaining wall cell, column by column, each with its zone. */
  method GenerateLabyrinth(size: nat, height: real, draws: Mazes.Draws, punch: Mazes.PunchDraws)
    returns (r: Option<Labyrinth>)
    ensures r.None? <==> size <= 23
    ensures r.Some? ==> var m := r.value.maze;
      Mazes.Valid(m) && m.width == size && m.height == size
      && OddOpen(m) && HolesOpen(m) && CorridorsOpen(m)
      && r.value.walls == WallsOf(CellSide(size, height), Columns(m, size, size))
      && Zoned(r.value.walls, r.value.zones)
  {
    var carved := Carve(size, draws, punch);
    if carved.None? {
      return None;
    }
    var m := carved.value;
    var walls, zones := PlaceWalls(m, CellSide(size, height));
    r := Some(Labyrinth(m, walls, zones));
  }
}
