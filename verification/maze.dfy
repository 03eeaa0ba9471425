/** The maze carver of src/util/maze.ts. A maze is a grid of booleans,
    `true` for a wall, stored row by row (`maze[y][x]`). Every operation
    only ever clears cells; `Math.random` is replaced by the draws it
    would return, passed in as functions. */
module Mazes {
  import opened Wrappers

  datatype Cell = Cell(x: int, y: int)

  datatype Maze = Maze(width: nat, height: nat, cells: seq<seq<bool>>)

  predicate Valid(m: Maze) {
    |m.cells| == m.height && forall y :: 0 <= y < m.height ==> |m.cells[y]| == m.width
  }

  predicate Inside(m: Maze, c: Cell) {
    0 <= c.x < m.width && 0 <= c.y < m.height
  }

  /** `maze[c.y][c.x]` as a truth value. A column past the width reads
      `undefined`, which is falsy like a carved cell. */
  function Wall(m: Maze, c: Cell): bool
    requires Valid(m)
  {
    Inside(m, c) && m.cells[c.y][c.x]
  }

  predicate SameShape(a: Maze, b: Maze) {
    Valid(a) && Valid(b) && a.width == b.width && a.height == b.height
  }

  /** b is a with some cells carved: no cell is a wall in b that was not
      one in a. */
  ghost predicate Fewer(a: Maze, b: Maze) {
    SameShape(a, b) && forall c :: Wall(b, c) ==> Wall(a, c)
  }

  /** Two mazes of the same shape with the same walls are equal. */
  lemma WallsDetermine(a: Maze, b: Maze)
    requires SameShape(a, b) && forall c :: Wall(a, c) == Wall(b, c)
    ensures a == b
  {
    forall y | 0 <= y < a.height
      ensures a.cells[y] == b.cells[y]
    {
      forall x | 0 <= x < a.width
        ensures a.cells[y][x] == b.cells[y][x]
      {
        assert Wall(a, Cell(x, y)) == Wall(b, Cell(x, y));
      }
    }
  }

  // ---------------------------------------------------------------------
  // Construction and the single write

  /** `new Maze(width, height)`: every cell a wall. */
  function New(width: nat, height: nat): (m: Maze)
    ensures Valid(m) && m.width == width && m.height == height
    ensures forall c :: Inside(m, c) ==> Wall(m, c)
  {
    Maze(width, height, seq(height, _ => seq(width, _ => true)))
  }

  /** `maze[c.y][c.x] = false` where the row exists. A column outside the
      width only adds a stray slot to the row array, which no reader of
      the grid looks at. */
  function Clear(m: Maze, c: Cell): (r: Maze)
    requires Valid(m)
    ensures Fewer(m, r)
    ensures forall d :: Wall(r, d) == (Wall(m, d) && d != c)
  {
    if Inside(m, c) then m.(cells := m.cells[c.y := m.cells[c.y][c.x := false]]) else m
  }

  // ---------------------------------------------------------------------
  // Wall count

  function RowWalls(row: seq<bool>): nat {
    if |row| == 0 then 0 else (if row[0] then 1 else 0) + RowWalls(row[1..])
  }

  function GridWalls(rows: seq<seq<bool>>): nat {
    if |rows| == 0 then 0 else RowWalls(rows[0]) + GridWalls(rows[1..])
  }

  /** The number of walls in the maze. */
  function Walls(m: Maze): nat {
    GridWalls(m.cells)
  }

  lemma {:induction false} RowFewer(a: seq<bool>, b: seq<bool>)
    requires |a| == |b| && forall i :: 0 <= i < |b| && b[i] ==> a[i]
    ensures RowWalls(b) <= RowWalls(a)
  {
    if |a| > 0 {
      RowFewer(a[1..], b[1..]);
    }
  }

  lemma {:induction false} RowFewerAt(a: seq<bool>, b: seq<bool>, i: nat)
    requires |a| == |b| && forall j :: 0 <= j < |b| && b[j] ==> a[j]
    requires i < |a| && a[i] && !b[i]
    ensures RowWalls(b) < RowWalls(a)
  {
    if i == 0 {
      RowFewer(a[1..], b[1..]);
    } else {
      RowFewerAt(a[1..], b[1..], i - 1);
    }
  }

  predicate RowsFewer(a: seq<seq<bool>>, b: seq<seq<bool>>) {
    |a| == |b| && (forall y :: 0 <= y < |a| ==> |a[y]| == |b[y]|)
    && forall y, x :: 0 <= y < |b| && 0 <= x < |b[y]| && b[y][x] ==> a[y][x]
  }

  lemma {:induction false} GridFewer(a: seq<seq<bool>>, b: seq<seq<bool>>)
    requires RowsFewer(a, b)
    ensures GridWalls(b) <= GridWalls(a)
  {
    if |a| > 0 {
      RowFewer(a[0], b[0]);
      assert RowsFewer(a[1..], b[1..]);
      GridFewer(a[1..], b[1..]);
    }
  }

  lemma {:induction false} GridFewerAt(a: seq<seq<bool>>, b: seq<seq<bool>>, y: nat, x: nat)
    requires RowsFewer(a, b)
    requires y < |a| && x < |a[y]| && a[y][x] && !b[y][x]
    ensures GridWalls(b) < GridWalls(a)
  {
    assert RowsFewer(a[1..], b[1..]);
    if y == 0 {
      RowFewerAt(a[0], b[0], x);
      GridFewer(a[1..], b[1..]);
    } else {
      RowFewer(a[0], b[0]);
      GridFewerAt(a[1..], b[1..], y - 1, x);
    }
  }

  /** Carving never adds to the wall count. */
  lemma FewerWalls(a: Maze, b: Maze)
    requires Fewer(a, b)
    ensures Walls(b) <= Walls(a)
  {
    CellsFewer(a, b);
    GridFewer(a.cells, b.cells);
  }

  /** Carving a wall lowers the wall count. */
  lemma FewerWallsAt(a: Maze, b: Maze, c: Cell)
    requires Fewer(a, b) && Wall(a, c) && !Wall(b, c)
    ensures Walls(b) < Walls(a)
  {
    CellsFewer(a, b);
    GridFewerAt(a.cells, b.cells, c.y, c.x);
  }

  lemma CellsFewer(a: Maze, b: Maze)
    requires Fewer(a, b)
    ensures RowsFewer(a.cells, b.cells)
  {
    forall y, x | 0 <= y < |b.cells| && 0 <= x < |b.cells[y]| && b.cells[y][x]
      ensures a.cells[y][x]
    {
      assert Wall(b, Cell(x, y));
    }
  }

  // ---------------------------------------------------------------------
  // removeBorders

  predicate OnBorder(m: Maze, c: Cell) {
    c.x == 0 || c.y == 0 || c.x == m.width - 1 || c.y == m.height - 1
  }

  /** `removeBorders()`: the outer ring of cells is carved and nothing else
      changes. With no rows but some columns, `maze[0]` is undefined and
      the first write throws (`None`). */
  method RemoveBorders(m: Maze) returns (r: Option<Maze>)
    requires Valid(m)
    ensures r.None? <==> m.height == 0 && m.width > 0
    ensures r.Some? ==> Fewer(m, r.value)
    ensures r.Some? ==> forall c :: Wall(r.value, c) == (Wall(m, c) && !OnBorder(m, c))
  {
    if m.height == 0 && m.width > 0 {
      return None;
    }
    var g := m;
    var x := 0;
    while x < m.width
      invariant 0 <= x <= m.width
      invariant Fewer(m, g)
      invariant forall c :: Wall(g, c) == (Wall(m, c) && !(c.x < x && (c.y == 0 || c.y == m.height - 1)))
    {
      g := Clear(Clear(g, Cell(x, 0)), Cell(x, m.height - 1));
      x := x + 1;
    }
    var y := 0;
    while y < m.height
      invariant 0 <= y <= m.height
      invariant Fewer(m, g)
      invariant forall c :: (Wall(g, c) ==
        (Wall(m, c) && !(c.y == 0 || c.y == m.height - 1 || (c.y < y && (c.x == 0 || c.x == m.width - 1)))))
    {
      g := Clear(Clear(g, Cell(0, y)), Cell(m.width - 1, y));
      y := y + 1;
    }
    return Some(g);
  }

  // ---------------------------------------------------------------------
  // createHoles

  /** c lies in the square `centre ± half`. */
  predicate Near(c: Cell, centre: Cell, half: int) {
    centre.x - half <= c.x <= centre.x + half && centre.y - half <= c.y <= centre.y + half
  }

  /** Strictly inside the border: the cells `createHoles` may touch. */
  predicate Interior(m: Maze, c: Cell) {
    0 < c.x < m.width - 1 && 0 < c.y < m.height - 1
  }

  predicate InHole(m: Maze, centres: seq<Cell>, half: int, c: Cell) {
    Interior(m, c) && exists k :: 0 <= k < |centres| && Near(c, centres[k], half)
  }

  /** `createHoles(centres, holeSize)`: every interior cell within
      `floor(holeSize / 2)` of some centre (in both axes) is carved, and
      nothing else changes. */
  method CreateHoles(m: Maze, centres: seq<Cell>, holeSize: int) returns (r: Maze)
    requires Valid(m)
    ensures Fewer(m, r)
    ensures forall c :: Wall(r, c) == (Wall(m, c) && !InHole(m, centres, holeSize / 2, c))
  {
    var half := holeSize / 2;
    r := m;
    var k := 0;
    while k < |centres|
      invariant 0 <= k <= |centres|
      invariant Fewer(m, r)
      invariant forall c :: (Wall(r, c) ==
        (Wall(m, c) && !(Interior(m, c) && exists j :: 0 <= j < k && Near(c, centres[j], half))))
    {
      r := HoleAround(r, centres[k], half);
      forall c | Wall(m, c) && Interior(m, c) && Near(c, centres[k], half)
        ensures exists j :: 0 <= j < k + 1 && Near(c, centres[j], half)
      {
        assert Near(c, centres[k], half);
      }
      k := k + 1;
    }
  }

  /** One hole: the square `centre ± half`, clipped to the interior. */
  method HoleAround(m: Maze, centre: Cell, half: int) returns (r: Maze)
    requires Valid(m)
    ensures Fewer(m, r)
    ensures forall c :: Wall(r, c) == (Wall(m, c) && !(Interior(m, c) && Near(c, centre, half)))
  {
    r := m;
    if half < 0 {
      return;
    }
    var dy := -half;
    while dy <= half
      invariant -half <= dy <= half + 1
      invariant Fewer(m, r)
      invariant forall c :: (Wall(r, c) == (Wall(m, c) && !(Interior(m, c)
        && centre.x - half <= c.x <= centre.x + half && centre.y - half <= c.y < centre.y + dy)))
    {
      r := HoleRow(r, centre, half, centre.y + dy);
      dy := dy + 1;
    }
  }

  /** One row of a hole: `dx` from `-half` to `half` at row `ny`. */
  method HoleRow(m: Maze, centre: Cell, half: int, ny: int) returns (r: Maze)
    requires Valid(m) && half >= 0
    ensures Fewer(m, r)
    ensures forall c :: (Wall(r, c) == (Wall(m, c) && !(Interior(m, c)
      && c.y == ny && centre.x - half <= c.x <= centre.x + half)))
  {
    r := m;
    var dx := -half;
    while dx <= half
      invariant -half <= dx <= half + 1
      invariant Fewer(m, r)
      invariant forall c :: (Wall(r, c) == (Wall(m, c) && !(Interior(m, c)
        && c.y == ny && centre.x - half <= c.x < centre.x + dx)))
    {
      var n := Cell(centre.x + dx, ny);
      if Interior(r, n) {
        r := Clear(r, n);
      }
      dx := dx + 1;
    }
  }

  // ---------------------------------------------------------------------
  // createCorridors

  /** c is on a corridor: row y for a listed y and a column in
      `[cs[0], cs[1]]`, or the mirrored cell (the source writes both
      `maze[y][x]` and `maze[x][y]`). */
  predicate Corridor(cs: seq<int>, c: Cell) {
    |cs| >= 2 && ((c.y in cs && cs[0] <= c.x <= cs[1]) || (c.x in cs && cs[0] <= c.y <= cs[1]))
  }

  /** A row index the grid has. */
  predicate Row(m: Maze, y: int) {
    0 <= y < m.height
  }

  /** `createCorridors(cs)`. It throws (`None`) exactly when the column
      range is non-empty and some listed value is not a row index: that
      value is a row of one of the two writes. Columns past the width are
      stray writes. With fewer than two values the range bound
      `cs[1]` is undefined and nothing is written. */
  method CreateCorridors(m: Maze, cs: seq<int>) returns (r: Option<Maze>)
    requires Valid(m)
    ensures r.None? <==> |cs| >= 2 && cs[0] <= cs[1] && exists k :: 0 <= k < |cs| && !Row(m, cs[k])
    ensures r.Some? ==> Fewer(m, r.value)
    ensures r.Some? ==> forall c :: Wall(r.value, c) == (Wall(m, c) && !Corridor(cs, c))
  {
    if |cs| < 2 {
      return Some(m);
    }
    var lo, hi := cs[0], cs[1];
    var g := m;
    var k := 0;
    while k < |cs|
      invariant 0 <= k <= |cs|
      invariant Fewer(m, g)
      invariant lo <= hi ==> forall j :: 0 <= j < k ==> Row(m, cs[j])
      invariant forall c :: (Wall(g, c) == (Wall(m, c) && !(
        ((exists j :: 0 <= j < k && cs[j] == c.y) && lo <= c.x <= hi) ||
        ((exists j :: 0 <= j < k && cs[j] == c.x) && lo <= c.y <= hi))))
    {
      var next := CorridorRow(g, cs[k], lo, hi);
      if next.None? {
        return None;
      }
      g := next.value;
      forall c | Wall(m, c) && ((cs[k] == c.y && lo <= c.x <= hi) || (cs[k] == c.x && lo <= c.y <= hi))
        ensures ((exists j :: 0 <= j < k + 1 && cs[j] == c.y) && lo <= c.x <= hi)
          || ((exists j :: 0 <= j < k + 1 && cs[j] == c.x) && lo <= c.y <= hi)
      {
      }
      k := k + 1;
    }
    assert lo <= hi ==> Row(m, lo) && Row(m, hi);
    return Some(g);
  }

  /** The inner loop of `createCorridors` for one listed y: for x from lo
      to hi, `maze[y][x] = false` then `maze[x][y] = false`. It throws
      when it reaches a write to a missing row. */
  method CorridorRow(m: Maze, y: int, lo: int, hi: int) returns (r: Option<Maze>)
    requires Valid(m)
    ensures r.None? <==> lo <= hi && !(Row(m, y) && Row(m, lo) && Row(m, hi))
    ensures r.Some? ==> Fewer(m, r.value)
    ensures r.Some? ==> forall c :: (Wall(r.value, c) ==
      (Wall(m, c) && !((c.y == y && lo <= c.x <= hi) || (c.x == y && lo <= c.y <= hi))))
  {
    if lo > hi {
      return Some(m);
    }
    var g := m;
    var x := lo;
    while x <= hi
      invariant lo <= x <= hi + 1
      invariant Fewer(m, g)
      invariant x > lo ==> Row(m, y) && Row(m, lo) && Row(m, x - 1)
      invariant forall c :: (Wall(g, c) ==
        (Wall(m, c) && !((c.y == y && lo <= c.x < x) || (c.x == y && lo <= c.y < x))))
    {
      if !Row(m, y) || !Row(m, x) {
        return None;
      }
      g := Clear(Clear(g, Cell(x, y)), Cell(y, x));
      x := x + 1;
    }
    return Some(g);
  }

  // ---------------------------------------------------------------------
  // punchAdditionalWalls

  /** The draws of `punchAdditionalWalls`: `punch(x, y, i)` holds when the
      draw for direction i at (x, y) is at least 0.9. */
  type PunchDraws = (int, int, int) -> bool

  /** The cell `directions[i]` leads to from (x, y). */
  function Target(x: int, y: int, i: int): Cell
    requires 0 <= i < 4
  {
    if i == 0 then Cell(x, y + 2)
    else if i == 1 then Cell(x, y - 2)
    else if i == 2 then Cell(x + 2, y)
    else Cell(x - 2, y)
  }

  /** (x, y) is one of the odd/odd cells the two outer loops visit. */
  predicate Source(m: Maze, x: int, y: int) {
    x % 2 == 1 && y % 2 == 1 && 1 <= x < m.width && 1 <= y < m.height
  }

  /** (x, y) comes before (X, Y) in the loops' order: x outer, y inner. */
  predicate Before(x: int, y: int, X: int, Y: int) {
    x < X || (x == X && y < Y)
  }

  /** The write one source makes: the target of each direction whose
      draw fired. */
  predicate Hit(punch: PunchDraws, x: int, y: int, c: Cell) {
    (punch(x, y, 0) && c == Target(x, y, 0)) || (punch(x, y, 1) && c == Target(x, y, 1))
    || (punch(x, y, 2) && c == Target(x, y, 2)) || (punch(x, y, 3) && c == Target(x, y, 3))
  }

  /** c was punched by a source visited before (X, Y). The only sources
      that can reach c are the four cells two steps away. */
  predicate PunchedBefore(m: Maze, punch: PunchDraws, c: Cell, X: int, Y: int) {
    Inside(m, c) && (
      (Source(m, c.x, c.y - 2) && Before(c.x, c.y - 2, X, Y) && punch(c.x, c.y - 2, 0)) ||
      (Source(m, c.x, c.y + 2) && Before(c.x, c.y + 2, X, Y) && punch(c.x, c.y + 2, 1)) ||
      (Source(m, c.x - 2, c.y) && Before(c.x - 2, c.y, X, Y) && punch(c.x - 2, c.y, 2)) ||
      (Source(m, c.x + 2, c.y) && Before(c.x + 2, c.y, X, Y) && punch(c.x + 2, c.y, 3)))
  }

  /** c is punched by some source whose draw fired. */
  predicate Punched(m: Maze, punch: PunchDraws, c: Cell) {
    Inside(m, c) && (
      (Source(m, c.x, c.y - 2) && punch(c.x, c.y - 2, 0)) ||
      (Source(m, c.x, c.y + 2) && punch(c.x, c.y + 2, 1)) ||
      (Source(m, c.x - 2, c.y) && punch(c.x - 2, c.y, 2)) ||
      (Source(m, c.x + 2, c.y) && punch(c.x + 2, c.y, 3)))
  }

  /** The four writes from one source (x, y), each guarded by its draw and
      by `maze[y + dy]` existing. */
  function PunchAround(m: Maze, x: int, y: int, punch: PunchDraws): (r: Maze)
    requires Valid(m)
    ensures Fewer(m, r)
    ensures forall c :: Wall(r, c) == (Wall(m, c) && !Hit(punch, x, y, c))
  {
    var m0 := if punch(x, y, 0) then Clear(m, Target(x, y, 0)) else m;
    var m1 := if punch(x, y, 1) then Clear(m0, Target(x, y, 1)) else m0;
    var m2 := if punch(x, y, 2) then Clear(m1, Target(x, y, 2)) else m1;
    if punch(x, y, 3) then Clear(m2, Target(x, y, 3)) else m2
  }

  /** `punchAdditionalWalls()`: exactly the punched cells are carved. They
      are all odd/odd, so a maze whose odd/odd cells are already carved
      comes back unchanged. */
  method PunchAdditionalWalls(m: Maze, punch: PunchDraws) returns (r: Maze)
    requires Valid(m)
    ensures Fewer(m, r)
    ensures forall c :: Wall(r, c) == (Wall(m, c) && !Punched(m, punch, c))
    ensures forall c :: Wall(m, c) && !Wall(r, c) ==> c.x % 2 == 1 && c.y % 2 == 1
    ensures (forall c :: Inside(m, c) && c.x % 2 == 1 && c.y % 2 == 1 ==> !Wall(m, c)) ==> r == m
  {
    r := m;
    var x := 1;
    while x < m.width
      invariant x >= 1 && x % 2 == 1
      invariant Fewer(m, r)
      invariant forall c :: Wall(r, c) == (Wall(m, c) && !PunchedBefore(m, punch, c, x, 0))
    {
      r := PunchColumn(m, r, x, punch);
      x := x + 2;
    }
    forall c
      ensures Wall(r, c) == (Wall(m, c) && !Punched(m, punch, c))
    {
      PunchedAllBefore(m, punch, c, x);
    }
    forall c | Wall(m, c) && !Wall(r, c)
      ensures c.x % 2 == 1 && c.y % 2 == 1
    {
      PunchedIsOdd(m, punch, c);
    }
    if forall c :: Inside(m, c) && c.x % 2 == 1 && c.y % 2 == 1 ==> !Wall(m, c) {
      forall c
        ensures Wall(m, c) == Wall(r, c)
      {
        if Wall(m, c) && !Wall(r, c) {
          PunchedIsOdd(m, punch, c);
        }
      }
      WallsDetermine(m, r);
    }
  }

  /** Once the outer loop has passed the width, every source is visited. */
  lemma PunchedAllBefore(m: Maze, punch: PunchDraws, c: Cell, x: int)
    requires x >= m.width
    ensures PunchedBefore(m, punch, c, x, 0) == Punched(m, punch, c)
  {
  }

  /** Every punched cell is odd/odd: sources are odd/odd and the steps are
      two cells long. */
  lemma PunchedIsOdd(m: Maze, punch: PunchDraws, c: Cell)
    requires Punched(m, punch, c)
    ensures c.x % 2 == 1 && c.y % 2 == 1
  {
  }

  /** The inner loop over y for one odd column x. */
  method PunchColumn(m: Maze, g: Maze, x: int, punch: PunchDraws) returns (r: Maze)
    requires Fewer(m, g) && x >= 1 && x % 2 == 1 && x < m.width
    requires forall c :: Wall(g, c) == (Wall(m, c) && !PunchedBefore(m, punch, c, x, 0))
    ensures Fewer(m, r)
    ensures forall c :: Wall(r, c) == (Wall(m, c) && !PunchedBefore(m, punch, c, x + 2, 0))
  {
    r := g;
    var y := 1;
    while y < m.height
      invariant y >= 1 && y % 2 == 1
      invariant Fewer(m, r)
      invariant forall c :: Wall(r, c) == (Wall(m, c) && !PunchedBefore(m, punch, c, x, y))
    {
      r := PunchAround(r, x, y, punch);
      forall c
        ensures Wall(r, c) == (Wall(m, c) && !PunchedBefore(m, punch, c, x, y + 2))
      {
        PunchStep(m, punch, c, x, y);
      }
      y := y + 2;
    }
    forall c
      ensures Wall(r, c) == (Wall(m, c) && !PunchedBefore(m, punch, c, x + 2, 0))
    {
      PunchColumnDone(m, punch, c, x, y);
    }
  }

  /** Visiting the source (x, y) adds exactly its hits. */
  lemma PunchStep(m: Maze, punch: PunchDraws, c: Cell, x: int, y: int)
    requires Source(m, x, y)
    ensures PunchedBefore(m, punch, c, x, y + 2) == (PunchedBefore(m, punch, c, x, y) || (Inside(m, c) && Hit(punch, x, y, c)))
  {
  }

  /** After the last odd y of column x, the next column starts. */
  lemma PunchColumnDone(m: Maze, punch: PunchDraws, c: Cell, x: int, y: int)
    requires x % 2 == 1 && y >= m.height
    ensures PunchedBefore(m, punch, c, x, y) == PunchedBefore(m, punch, c, x + 2, 0)
  {
  }

  // ---------------------------------------------------------------------
  // generateMaze

  /** A queued cell with the cell between it and the one that pushed it
      (`queue` and `intermediateQueue` popped together). */
  datatype Visit = Visit(cell: Cell, via: Cell)

  /** The draws of `generateMaze` on its t-th pass: `edge(t, i)` holds when
      the draw for an off-grid direction i is below 0.25, and `picks(t)`
      is the order the random comparator leaves the neighbours in. */
  datatype Draws = Draws(edge: (nat, int) -> bool, picks: nat -> seq<nat>)

  /** `(offsets[i], offsets[i + 1])` with `offsets = [0, 1, 0, -1, 0]`. */
  function Dir(i: int): Cell
    requires 0 <= i < 4
  {
    if i == 0 then Cell(0, 1) else if i == 1 then Cell(1, 0) else if i == 2 then Cell(0, -1) else Cell(-1, 0)
  }

  function Beside(c: Cell, i: int): Cell
    requires 0 <= i < 4
  {
    Cell(c.x + Dir(i).x, c.y + Dir(i).y)
  }

  function Beyond(c: Cell, i: int): Cell
    requires 0 <= i < 4
  {
    Cell(c.x + 2 * Dir(i).x, c.y + 2 * Dir(i).y)
  }

  predicate Adjacent(a: Cell, b: Cell) {
    (a.x == b.x && (a.y == b.y + 1 || b.y == a.y + 1)) || (a.y == b.y && (a.x == b.x + 1 || b.x == a.x + 1))
  }

  predicate TwoAway(a: Cell, b: Cell) {
    (a.x == b.x && (a.y == b.y + 2 || b.y == a.y + 2)) || (a.y == b.y && (a.x == b.x + 2 || b.x == a.x + 2))
  }

  predicate SameParity(a: Cell, b: Cell) {
    (a.x - b.x) % 2 == 0 && (a.y - b.y) % 2 == 0
  }

  /** The midpoint `((n.x + c.x) / 2, (n.y + c.y) / 2)`. */
  function Mid(n: Cell, c: Cell): Cell {
    Cell((n.x + c.x) / 2, (n.y + c.y) / 2)
  }

  /** The visits pushed for the (shuffled) neighbours ns of c. */
  function Pushes(ns: seq<Cell>, c: Cell): (vs: seq<Visit>)
    ensures |vs| == |ns|
    ensures forall k :: 0 <= k < |ns| ==> vs[k] == Visit(ns[k], Mid(ns[k], c))
  {
    seq(|ns|, k requires 0 <= k < |ns| => Visit(ns[k], Mid(ns[k], c)))
  }

  /** `neighbors.sort(() => Math.random() - 0.5)`: the comparator is
      inconsistent, so all that is known is that some order of the same
      elements comes out. Each pick chooses the next element among those
      left (missing picks choose the first). */
  function Shuffle<T>(xs: seq<T>, picks: seq<nat>): (ys: seq<T>)
    ensures multiset(ys) == multiset(xs)
    decreases |xs|
  {
    if |xs| == 0 then []
    else
      var k := (if |picks| > 0 then picks[0] else 0) % |xs|;
      assert xs == xs[..k] + [xs[k]] + xs[k + 1..];
      [xs[k]] + Shuffle(xs[..k] + xs[k + 1..], if |picks| > 0 then picks[1..] else [])
  }

  predicate Queued(q: seq<Visit>, c: Cell) {
    exists k :: 0 <= k < |q| && q[k].cell == c
  }

  /** Every queued cell is inside, has the start's parity, and is paired
      with itself or an adjacent inside cell. */
  predicate WellQueued(m: Maze, q: seq<Visit>, s: Cell) {
    forall k :: 0 <= k < |q| ==>
      Inside(m, q[k].cell) && Inside(m, q[k].via) && SameParity(q[k].cell, s)
      && (q[k].via == q[k].cell || Adjacent(q[k].via, q[k].cell))
  }

  /** Every carved cell of the start's parity has each inside cell two
      steps away carved or waiting in the queue. */
  ghost predicate Pending(m: Maze, q: seq<Visit>, s: Cell)
    requires Valid(m)
  {
    forall d, i :: Inside(m, d) && !Wall(m, d) && SameParity(d, s) && 0 <= i < 4 && Inside(m, Beyond(d, i))
      ==> !Wall(m, Beyond(d, i)) || Queued(q, Beyond(d, i))
  }

  /** The carved cells of the start's parity are closed under two-step
      moves: nothing is left to visit. */
  ghost predicate Closed(m: Maze, s: Cell)
    requires Valid(m)
  {
    Pending(m, [], s)
  }

  /** A fresh maze has no carved cell, so it is closed. */
  lemma FreshClosed(width: nat, height: nat, s: Cell)
    ensures Closed(New(width, height), s)
  {
  }

  /** The four-direction loop for the popped cell c on pass t: off-grid
      directions may carve the cell beside c; inside neighbours that are
      still walls are collected, in direction order. */
  method Scan(m: Maze, c: Cell, t: nat, draws: Draws) returns (r: Maze, ns: seq<Cell>)
    requires Valid(m)
    ensures Fewer(m, r)
    ensures forall d :: Wall(m, d) && !Wall(r, d) ==> Adjacent(d, c)
    ensures forall k :: 0 <= k < |ns| ==> Inside(m, ns[k]) && Wall(m, ns[k]) && TwoAway(ns[k], c)
    ensures forall i :: 0 <= i < 4 && Inside(m, Beyond(c, i)) && Wall(m, Beyond(c, i)) ==> Beyond(c, i) in ns
  {
    r := m;
    ns := [];
    for i := 0 to 4
      invariant Fewer(m, r)
      invariant forall d :: Wall(m, d) && !Wall(r, d) ==> Adjacent(d, c)
      invariant forall k :: 0 <= k < |ns| ==> Inside(m, ns[k]) && Wall(m, ns[k]) && TwoAway(ns[k], c)
      invariant forall j :: 0 <= j < i && Inside(m, Beyond(c, j)) && Wall(m, Beyond(c, j)) ==> Beyond(c, j) in ns
    {
      var n := Beyond(c, i);
      if !Inside(r, n) {
        if draws.edge(t, i) {
          r := Clear(r, Beside(c, i));
        }
      } else if Wall(r, n) {
        ns := ns + [n];
      }
    }
  }

  /** One pass of the `while (queue.length)` loop: pop a visit; if its cell
      is still a wall, carve it and the cell between, then push the
      shuffled neighbours. */
  method Step(m: Maze, q: seq<Visit>, s: Cell, t: nat, draws: Draws) returns (r: Maze, q': seq<Visit>)
    requires Valid(m) && |q| > 0 && WellQueued(m, q, s)
    ensures Fewer(m, r) && WellQueued(r, q', s)
    ensures !Wall(r, q[|q| - 1].cell)
    ensures Walls(r) < Walls(m) || (r == m && |q'| < |q|)
    ensures Pending(m, q, s) ==> Pending(r, q', s)
  {
    if !Wall(m, q[|q| - 1].cell) {
      r, q' := m, q[..|q| - 1];
      PendingSkip(m, q, s);
    } else {
      r, q' := Carve(m, q, s, t, draws);
    }
  }

  /** The carving half of a pass, for a popped cell that is a wall. */
  method Carve(m: Maze, q: seq<Visit>, s: Cell, t: nat, draws: Draws) returns (r: Maze, q': seq<Visit>)
    requires Valid(m) && |q| > 0 && WellQueued(m, q, s) && Wall(m, q[|q| - 1].cell)
    ensures Fewer(m, r) && WellQueued(r, q', s)
    ensures !Wall(r, q[|q| - 1].cell)
    ensures Walls(r) < Walls(m)
    ensures Pending(m, q, s) ==> Pending(r, q', s)
  {
    var v := q[|q| - 1];
    var c := v.cell;
    var m1 := Clear(Clear(m, c), v.via);
    var ns;
    r, ns := Scan(m1, c, t, draws);
    var order := Shuffle(ns, draws.picks(t));
    var pushed := Pushes(order, c);
    q' := q[..|q| - 1] + pushed;
    FewerWallsAt(m, r, c);
    PushesQueued(m1, r, s, c, ns, order);
    PushesComplete(m1, r, c, ns, order);
    assert WellQueued(r, q[..|q| - 1], s);
    if Pending(m, q, s) {
      PendingCarve(m, q, s, c, r, pushed);
    }
  }

  /** The pushed visits are well formed: inside, of the start's parity,
      each paired with the adjacent midpoint. */
  lemma PushesQueued(m: Maze, r: Maze, s: Cell, c: Cell, ns: seq<Cell>, order: seq<Cell>)
    requires SameShape(m, r) && Inside(m, c) && SameParity(c, s) && multiset(order) == multiset(ns)
    requires forall k :: 0 <= k < |ns| ==> Inside(m, ns[k]) && TwoAway(ns[k], c)
    ensures WellQueued(r, Pushes(order, c), s)
  {
    var pushed := Pushes(order, c);
    forall k | 0 <= k < |pushed|
      ensures Inside(r, pushed[k].cell) && Inside(r, pushed[k].via) && SameParity(pushed[k].cell, s)
        && Adjacent(pushed[k].via, pushed[k].cell)
    {
      assert order[k] in multiset(ns);
      MidAdjacent(order[k], c);
    }
  }

  /** Every inside neighbour of c is carved or pushed. */
  lemma PushesComplete(m: Maze, r: Maze, c: Cell, ns: seq<Cell>, order: seq<Cell>)
    requires Fewer(m, r) && multiset(order) == multiset(ns)
    requires forall i :: 0 <= i < 4 && Inside(m, Beyond(c, i)) && Wall(m, Beyond(c, i)) ==> Beyond(c, i) in ns
    ensures forall i :: 0 <= i < 4 && Inside(m, Beyond(c, i)) ==> !Wall(r, Beyond(c, i)) || Queued(Pushes(order, c), Beyond(c, i))
  {
    var pushed := Pushes(order, c);
    forall i | 0 <= i < 4 && Inside(m, Beyond(c, i))
      ensures !Wall(r, Beyond(c, i)) || Queued(pushed, Beyond(c, i))
    {
      var n := Beyond(c, i);
      if Wall(r, n) {
        assert n in multiset(order);
        var k :| 0 <= k < |order| && order[k] == n;
        assert pushed[k].cell == n;
      }
    }
  }

  /** The midpoint of two cells two steps apart is adjacent to both. */
  lemma MidAdjacent(n: Cell, c: Cell)
    requires TwoAway(n, c)
    ensures Adjacent(Mid(n, c), n) && Adjacent(Mid(n, c), c)
  {
  }

  /** Adjacent cells never share a parity class. */
  lemma AdjacentParity(a: Cell, b: Cell, s: Cell)
    requires Adjacent(a, b) && SameParity(b, s)
    ensures !SameParity(a, s)
  {
  }

  /** Popping a cell that is already carved keeps the pending set. */
  lemma PendingSkip(m: Maze, q: seq<Visit>, s: Cell)
    requires Valid(m) && |q| > 0 && !Wall(m, q[|q| - 1].cell)
    ensures Pending(m, q, s) ==> Pending(m, q[..|q| - 1], s)
  {
    if Pending(m, q, s) {
      forall d, i | Inside(m, d) && !Wall(m, d) && SameParity(d, s) && 0 <= i < 4 && Inside(m, Beyond(d, i))
        ensures !Wall(m, Beyond(d, i)) || Queued(q[..|q| - 1], Beyond(d, i))
      {
        var n := Beyond(d, i);
        if Wall(m, n) {
          var k :| 0 <= k < |q| && q[k].cell == n;
          assert k < |q| - 1;
          assert q[..|q| - 1][k].cell == n;
        }
      }
    }
  }

  /** Carving the popped cell c, the cell between and cells beside c, and
      queueing c's remaining wall neighbours keeps the pending set. */
  lemma PendingCarve(m: Maze, q: seq<Visit>, s: Cell, c: Cell, r: Maze, pushed: seq<Visit>)
    requires Valid(m) && |q| > 0 && WellQueued(m, q, s) && Pending(m, q, s) && c == q[|q| - 1].cell
    requires Fewer(m, r) && !Wall(r, c)
    requires forall d :: Wall(m, d) && !Wall(r, d) ==> d == c || d == q[|q| - 1].via || Adjacent(d, c)
    requires forall i :: 0 <= i < 4 && Inside(m, Beyond(c, i)) ==> !Wall(r, Beyond(c, i)) || Queued(pushed, Beyond(c, i))
    ensures Pending(r, q[..|q| - 1] + pushed, s)
  {
    var q' := q[..|q| - 1] + pushed;
    forall d, i | Inside(r, d) && !Wall(r, d) && SameParity(d, s) && 0 <= i < 4 && Inside(r, Beyond(d, i))
      ensures !Wall(r, Beyond(d, i)) || Queued(q', Beyond(d, i))
    {
      var n := Beyond(d, i);
      if !Wall(m, d) {
        if Wall(r, n) {
          var k :| 0 <= k < |q| && q[k].cell == n;
          assert k < |q| - 1;
          assert q'[k].cell == n;
        }
      } else if d == c {
        if Wall(r, n) {
          var k :| 0 <= k < |pushed| && pushed[k].cell == n;
          assert q'[|q| - 1 + k].cell == n;
        }
      } else {
        assert SameParity(c, s);
        assert Adjacent(d, c) by {
          if d == q[|q| - 1].via {
            assert d == c || Adjacent(d, c);
          }
        }
        AdjacentParity(d, c, s);
        assert false;
      }
    }
  }

  /** `generateMaze(s.x, s.y)`. A start row that does not exist throws
      (`None`); a start column past the width reads `undefined` and
      nothing is carved. The maze only loses walls, the start is carved,
      and when the carved cells of the start's parity were closed before
      (a fresh maze), every inside cell of that parity is carved after. */
  method GenerateMaze(m: Maze, s: Cell, draws: Draws) returns (r: Option<Maze>)
    requires Valid(m)
    ensures r.None? <==> !(0 <= s.y < m.height)
    ensures r.Some? ==> Fewer(m, r.value)
    ensures r.Some? && Inside(m, s) ==> !Wall(r.value, s)
    ensures r.Some? && Closed(m, s) ==> Closed(r.value, s)
    ensures r.Some? && Closed(m, s) && Inside(m, s) ==>
      forall c :: Inside(m, c) && SameParity(c, s) ==> !Wall(r.value, c)
  {
    if !(0 <= s.y < m.height) {
      return None;
    }
    if !Inside(m, s) {
      return Some(m);
    }
    var g := m;
    var q := [Visit(s, s)];
    var t := 0;
    while |q| > 0
      invariant Fewer(m, g) && WellQueued(g, q, s)
      invariant !Wall(g, s) || (g == m && q == [Visit(s, s)])
      invariant Closed(m, s) ==> Pending(g, q, s)
      decreases Walls(g), |q|
    {
      g, q := Step(g, q, s, t, draws);
      t := t + 1;
    }
    if Closed(m, s) {
      forall c | Inside(m, c) && SameParity(c, s)
        ensures !Wall(g, c)
      {
        Reach(g, s, c);
      }
    }
    return Some(g);
  }

  /** In a closed maze with the start carved, every inside cell of the
      start's parity is carved: walk along x, then along y, in steps of
      two. */
  lemma Reach(m: Maze, s: Cell, c: Cell)
    requires Valid(m) && Closed(m, s) && Inside(m, s) && !Wall(m, s)
    requires Inside(m, c) && SameParity(c, s)
    ensures !Wall(m, c)
  {
    WalkX(m, s, s, c.x);
    WalkY(m, s, Cell(c.x, s.y), c.y);
  }

  lemma {:induction false} WalkX(m: Maze, s: Cell, a: Cell, tx: int)
    requires Valid(m) && Closed(m, s) && Inside(m, a) && !Wall(m, a) && SameParity(a, s)
    requires 0 <= tx < m.width && (tx - a.x) % 2 == 0
    ensures !Wall(m, Cell(tx, a.y))
    decreases if tx > a.x then tx - a.x else a.x - tx
  {
    if tx > a.x {
      ClosedStep(m, s, a, 1);
      WalkX(m, s, Beyond(a, 1), tx);
    } else if tx < a.x {
      ClosedStep(m, s, a, 3);
      WalkX(m, s, Beyond(a, 3), tx);
    }
  }

  lemma {:induction false} WalkY(m: Maze, s: Cell, a: Cell, ty: int)
    requires Valid(m) && Closed(m, s) && Inside(m, a) && !Wall(m, a) && SameParity(a, s)
    requires 0 <= ty < m.height && (ty - a.y) % 2 == 0
    ensures !Wall(m, Cell(a.x, ty))
    decreases if ty > a.y then ty - a.y else a.y - ty
  {
    if ty > a.y {
      ClosedStep(m, s, a, 0);
      WalkY(m, s, Beyond(a, 0), ty);
    } else if ty < a.y {
      ClosedStep(m, s, a, 2);
      WalkY(m, s, Beyond(a, 2), ty);
    }
  }

  /** One step of the walk: in a closed maze, an inside cell two steps
      from a carved cell of the start's parity is carved too. */
  lemma ClosedStep(m: Maze, s: Cell, a: Cell, i: int)
    requires Valid(m) && Closed(m, s) && Inside(m, a) && !Wall(m, a) && SameParity(a, s) && 0 <= i < 4
    ensures Inside(m, Beyond(a, i)) ==> !Wall(m, Beyond(a, i)) && SameParity(Beyond(a, i), s)
  {
    if Inside(m, Beyond(a, i)) {
      assert !Queued([], Beyond(a, i));
    }
  }
}
