/** Geometry of the hierarchical spatial hash grid (src/physics/hshg.ts):
    bounding boxes and their overlap test, the masked cell hash with its
    wrap-around for negative coordinates, and the per-cell table of the nine
    neighbour offsets built by `initCells`. */
module HashGeometry {
  import opened Arith

  /** An axis-aligned bounding box as returned by `getAABB()`. */
  datatype Aabb = Aabb(active: bool, minX: real, minY: real, maxX: real, maxY: real)

  predicate WellFormedBox(a: Aabb) {
    a.minX <= a.maxX && a.minY <= a.maxY
  }

  predicate InInterval(t: real, lo: real, hi: real) {
    lo <= t <= hi
  }

  /** Two closed intervals share a point. */
  ghost predicate ClosedIntervalsMeet(lo1: real, hi1: real, lo2: real, hi2: real) {
    exists t: real :: InInterval(t, lo1, hi1) && InInterval(t, lo2, hi2)
  }

  function Max(a: real, b: real): real {
    if a < b then b else a
  }

  function Min(a: real, b: real): real {
    if a < b then a else b
  }

  /** `testAABBOverlap`: false when both boxes are inactive; otherwise true
      exactly when the closed boxes meet on both axes. */
  function TestAabbOverlap(a: Aabb, b: Aabb): (r: bool)
    ensures !a.active && !b.active ==> !r
    ensures (a.active || b.active) ==>
      (r <==> a.minX <= b.maxX && b.minX <= a.maxX && a.minY <= b.maxY && b.minY <= a.maxY)
  {
    if !a.active && !b.active then false
    else if a.minX > b.maxX || a.minY > b.maxY || a.maxX < b.minX || a.maxY < b.minY then false
    else true
  }

  /** For well-formed boxes, one of which is active, the test holds exactly
      when the two closed boxes have a common point on each axis, so boxes
      that only touch along an edge overlap. */
  lemma OverlapIsCommonPoint(a: Aabb, b: Aabb)
    requires WellFormedBox(a) && WellFormedBox(b)
    requires a.active || b.active
    ensures TestAabbOverlap(a, b) <==>
      ClosedIntervalsMeet(a.minX, a.maxX, b.minX, b.maxX) && ClosedIntervalsMeet(a.minY, a.maxY, b.minY, b.maxY)
  {
    if TestAabbOverlap(a, b) {
      var tx := Max(a.minX, b.minX);
      assert InInterval(tx, a.minX, a.maxX) && InInterval(tx, b.minX, b.maxX);
      var ty := Max(a.minY, b.minY);
      assert InInterval(ty, a.minY, a.maxY) && InInterval(ty, b.minY, b.maxY);
    }
  }

  /** `getLongestAABBEdge`. */
  function LongestEdge(a: Aabb): (r: real)
    ensures r >= a.maxX - a.minX && r >= a.minX - a.maxX
    ensures r >= a.maxY - a.minY && r >= a.minY - a.maxY
    ensures r == a.maxX - a.minX || r == a.minX - a.maxX || r == a.maxY - a.minY || r == a.minY - a.maxY
  {
    var w := if a.maxX - a.minX < 0.0 then a.minX - a.maxX else a.maxX - a.minX;
    var h := if a.maxY - a.minY < 0.0 then a.minY - a.maxY else a.maxY - a.minY;
    Max(w, h)
  }

  // ---------------------------------------------------------------------
  // Bitwise AND on naturals and powers of two

  function Pow2(k: nat): (r: nat)
    ensures r >= 1
  {
    if k == 0 then 1 else 2 * Pow2(k - 1)
  }

  const Two32: nat := 0x1_0000_0000

  lemma Pow2Of32()
    ensures Pow2(32) == Two32
  {
    assert Pow2(1) == 2;
    assert Pow2(2) == 4;
    assert Pow2(3) == 8;
    assert Pow2(4) == 16;
    assert Pow2(5) == 32;
    assert Pow2(6) == 64;
    assert Pow2(7) == 128;
    assert Pow2(8) == 256;
    Pow2Add(8, 8);
    Pow2Add(16, 16);
  }

  lemma Pow2Split(k: nat)
    ensures Pow2(k + 1) == 2 * Pow2(k)
  {
  }

  lemma {:induction false} Pow2Add(a: nat, b: nat)
    ensures Pow2(a + b) == Pow2(a) * Pow2(b)
  {
    if a > 0 {
      Pow2Add(a - 1, b);
      assert Pow2(a + b) == 2 * Pow2(a - 1 + b);
    }
  }

  /** `n` is a power of two. */
  predicate IsPow2(n: nat)
    decreases n
  {
    n == 1 || (n >= 2 && n % 2 == 0 && IsPow2(n / 2))
  }

  /** The exponent of a power of two. */
  function Log2(n: nat): (k: nat)
    requires IsPow2(n)
    ensures Pow2(k) == n
    decreases n
  {
    if n == 1 then 0 else Log2(n / 2) + 1
  }

  /** Bitwise `&` of two naturals, one bit at a time from the least significant. */
  function BitAnd(a: nat, b: nat): nat
    decreases a
  {
    if a == 0 || b == 0 then 0 else 2 * BitAnd(a / 2, b / 2) + (a % 2) * (b % 2)
  }

  /** `a & b` never exceeds `b`. */
  lemma {:induction false} BitAndAtMost(a: nat, b: nat)
    ensures BitAnd(a, b) <= b
    decreases a
  {
    if a != 0 && b != 0 {
      BitAndAtMost(a / 2, b / 2);
    }
  }

  /** Writing `a = 2q + r` and `q = m p + s` gives `a = m (2p) + (2s + r)`. */
  lemma HalvingRemainder(a: nat, p: nat)
    requires p >= 1
    ensures a % (2 * p) == 2 * ((a / 2) % p) + a % 2
  {
    var q := a / 2;
    var s := q % p;
    var m := q / p;
    assert a == 2 * q + a % 2;
    assert q == m * p + s;
    assert 2 * (m * p) == m * (2 * p);
    assert a == m * (2 * p) + (2 * s + a % 2);
    ModUnique(a, 2 * p, m, 2 * s + a % 2);
  }

  /** Masking with `2^k - 1` keeps the remainder modulo `2^k`. */
  lemma {:induction false} BitAndLowMask(a: nat, k: nat)
    ensures BitAnd(a, Pow2(k) - 1) == a % Pow2(k)
    decreases a
  {
    if k == 0 {
    } else if a == 0 {
    } else {
      var p := Pow2(k - 1);
      assert Pow2(k) == 2 * p;
      assert (2 * p - 1) / 2 == p - 1;
      assert (2 * p - 1) % 2 == 1;
      BitAndLowMask(a / 2, k - 1);
      HalvingRemainder(a, p);
    }
  }

  /** Reducing modulo `a * b` first does not change the remainder modulo `a`. */
  lemma ModOfMod(n: nat, a: nat, b: nat)
    requires a > 0 && b > 0
    ensures (n % (a * b)) % a == n % a
  {
    var q := n / (a * b);
    var r := n % (a * b);
    assert n == q * (a * b) + r;
    var q2 := r / a;
    var r2 := r % a;
    assert r == q2 * a + r2;
    assert n == (q * b + q2) * a + r2;
    ModUnique(n, a, q * b + q2, r2);
  }

  // ---------------------------------------------------------------------
  // The cell hash

  /** `~~v & mask` for a non-negative number `v`: `~~` truncates to a 32-bit
      integer (whose bit pattern is the floor modulo 2^32) and `&` keeps the
      bits of the mask. */
  function TruncMask(v: real, mask: nat): nat
    requires v >= 0.0
  {
    BitAnd(v.Floor % Two32, mask)
  }

  /** One axis of `toHash`: a non-negative coordinate goes to its masked cell
      column; a negative one is mirrored to count down from the last column. */
  function AxisHash(c: real, cellSize: real, rcc: nat): (r: int)
    requires cellSize > 0.0 && rcc >= 1
    ensures 0 <= r < rcc
  {
    if c < 0.0 then
      BitAndAtMost(Scaled(-c, cellSize).Floor % Two32, rcc - 1);
      rcc - 1 - TruncMask(Scaled(-c, cellSize), rcc - 1)
    else
      BitAndAtMost(Scaled(c, cellSize).Floor % Two32, rcc - 1);
      TruncMask(Scaled(c, cellSize), rcc - 1)
  }

  /** A coordinate times the grid's stored `inverseCellSize`. */
  function Scaled(c: real, cellSize: real): real
    requires cellSize > 0.0
  {
    var inverseCellSize := 1.0 / cellSize;
    c * inverseCellSize
  }

  function CellIndex(x: int, y: int, rcc: nat): int {
    x + y * rcc
  }

  lemma CellIndexInRange(x: int, y: int, rcc: nat)
    requires 0 <= x < rcc && 0 <= y < rcc
    ensures 0 <= CellIndex(x, y, rcc) < rcc * rcc
  {
    MulMonotone(y, rcc - 1, rcc);
    assert (rcc - 1) * rcc + rcc == rcc * rcc;
  }

  /** `Grid.toHash(x, y)`: always an index of a cell of the grid. */
  function ToHash(cellSize: real, rcc: nat, x: real, y: real): (h: nat)
    requires cellSize > 0.0 && rcc >= 1
    ensures h < rcc * rcc
  {
    var xHash := AxisHash(x, cellSize, rcc);
    var yHash := AxisHash(y, cellSize, rcc);
    CellIndexInRange(xHash, yHash, rcc);
    CellIndex(xHash, yHash, rcc)
  }

  /** For a power of two no larger than 2^32, masking the 32-bit truncation
      with `rcc - 1` is the remainder modulo `rcc`. */
  lemma MaskIsMod(n: nat, rcc: nat)
    requires IsPow2(rcc) && rcc <= Two32
    ensures BitAnd(n % Two32, rcc - 1) == n % rcc
  {
    var k := Log2(rcc);
    Pow2Of32();
    if k > 32 {
      Pow2Add(32, k - 32);
      assert false;
    }
    var j := 32 - k;
    Pow2Add(k, j);
    assert Two32 == rcc * Pow2(j);
    BitAndLowMask(n % Two32, k);
    ModOfMod(n, rcc, Pow2(j));
  }

  lemma ScaledIsQuotient(c: real, cellSize: real)
    requires cellSize > 0.0
    ensures Scaled(c, cellSize) == c / cellSize
  {
  }

  /** When the row/column count is a power of two no larger than 2^32, the
      mask computes a remainder: a non-negative coordinate lands in column
      `floor(c / cellSize) mod rcc`, a negative one in column
      `rcc - 1 - (floor(-c / cellSize) mod rcc)`. */
  lemma AxisHashFormula(c: real, cellSize: real, rcc: nat)
    requires cellSize > 0.0 && IsPow2(rcc) && rcc <= Two32
    ensures c >= 0.0 ==> AxisHash(c, cellSize, rcc) == (c / cellSize).Floor % rcc
    ensures c < 0.0 ==> AxisHash(c, cellSize, rcc) == rcc - 1 - ((-c) / cellSize).Floor % rcc
  {
    if c < 0.0 {
      ScaledIsQuotient(-c, cellSize);
      MaskIsMod(Scaled(-c, cellSize).Floor, rcc);
    } else {
      ScaledIsQuotient(c, cellSize);
      MaskIsMod(Scaled(c, cellSize).Floor, rcc);
    }
  }

  // ---------------------------------------------------------------------
  // Neighbour offsets

  /** Row of cell `i`, `~~(i / rowColumnCount)`. */
  function Row(i: nat, rcc: nat): nat
    requires rcc >= 1
  {
    i / rcc
  }

  /** Column of cell `i`, `i - y * rowColumnCount`. */
  function Col(i: nat, rcc: nat): nat
    requires rcc >= 1
  {
    i % rcc
  }

  /** A cell index splits into its column and its row. */
  lemma Decompose(i: nat, rcc: nat)
    requires rcc >= 1 && i < rcc * rcc
    ensures i == Col(i, rcc) + Row(i, rcc) * rcc
    ensures Col(i, rcc) < rcc && Row(i, rcc) < rcc
  {
    var q := i / rcc;
    assert i == q * rcc + i % rcc;
    if q >= rcc {
      assert q * rcc == (q - rcc) * rcc + rcc * rcc;
      MulAtLeast(rcc, rcc);
      if q > rcc {
        MulAtLeast(q - rcc, rcc);
      }
    }
  }

  /** Two coordinate pairs in range give the same index only if they are equal. */
  lemma CellIndexInjective(x1: int, y1: int, x2: int, y2: int, rcc: nat)
    requires 0 <= x1 < rcc && 0 <= x2 < rcc
    requires CellIndex(x1, y1, rcc) == CellIndex(x2, y2, rcc)
    ensures x1 == x2 && y1 == y2
  {
    var a := CellIndex(x1, y1, rcc);
    ModUnique(a, rcc, y1, x1);
    ModUnique(a, rcc, y2, x2);
  }

  /** `initCells`'s right and left offsets of column `x`; the first wraps at
      the right edge, the second at the left edge (and only when the cell is
      not also on the right edge). */
  function RightOffset(rcc: int, x: int): int
    requires rcc >= 1
  {
    if (x + 1) % rcc == 0 then -rcc + 1 else 1
  }

  function LeftOffset(rcc: int, x: int): int
    requires rcc >= 1
  {
    if (x + 1) % rcc != 0 && x % rcc == 0 then rcc - 1 else -1
  }

  /** The offsets to the next row ("top") and the previous row ("bottom"). */
  function TopOffset(rcc: int, y: int): int
    requires rcc >= 1
  {
    if (y + 1) % rcc == 0 then -(rcc * rcc) + rcc else rcc
  }

  function BottomOffset(rcc: int, y: int): int
    requires rcc >= 1
  {
    if (y + 1) % rcc != 0 && y % rcc == 0 then rcc * rcc - rcc else -rcc
  }

  predicate OnEdge(rcc: int, x: int, y: int)
    requires rcc >= 1
  {
    (x + 1) % rcc == 0 || x % rcc == 0 || (y + 1) % rcc == 0 || y % rcc == 0
  }

  /** The table `initCells` gives cell `i`: offsets to the cells at
      (left, up), up, (right, up), left, itself, right, (left, down), down,
      (right, down), where "up" is the next row. A cell on an edge gets its
      own table with the wrapping offsets; interior cells share one table. */
  function NeighborOffsets(rcc: nat, i: nat): seq<int>
    requires rcc >= 1
  {
    var x := Col(i, rcc);
    var y := Row(i, rcc);
    if OnEdge(rcc, x, y) then
      var l := LeftOffset(rcc, x);
      var r := RightOffset(rcc, x);
      var t := TopOffset(rcc, y);
      var b := BottomOffset(rcc, y);
      [l + t, t, r + t, l, 0, r, l + b, b, r + b]
    else
      var wh: int := rcc;
      [wh - 1, wh, wh + 1, -1, 0, 1, -1 + -wh, -wh, -wh + 1]
  }

  /** Column step of neighbour `k` of the table. */
  function DX(k: nat): int {
    if k % 3 == 0 then -1 else if k % 3 == 1 then 0 else 1
  }

  /** Row step of neighbour `k` of the table. */
  function DY(k: nat): int {
    if k < 3 then 1 else if k < 6 then 0 else -1
  }

  lemma RightStep(x: int, n: nat)
    requires n >= 2 && 0 <= x < n
    ensures x + RightOffset(n, x) == (x + 1) % n
  {
    if x == n - 1 {
      ModUnique(x + 1, n, 1, 0);
    } else {
      ModUnique(x + 1, n, 0, x + 1);
    }
  }

  lemma LeftStep(x: int, n: nat)
    requires n >= 2 && 0 <= x < n
    ensures x + LeftOffset(n, x) == (x - 1) % n
  {
    ModUnique(x, n, 0, x);
    if x == n - 1 {
      ModUnique(x + 1, n, 1, 0);
    } else {
      ModUnique(x + 1, n, 0, x + 1);
    }
    if x == 0 {
      ModUnique(x - 1, n, -1, n - 1);
    } else {
      ModUnique(x - 1, n, 0, x - 1);
    }
  }

  lemma UpStep(y: int, n: nat)
    requires n >= 2 && 0 <= y < n
    ensures y * n + TopOffset(n, y) == ((y + 1) % n) * n
  {
    RightStep(y, n);
    if y == n - 1 {
      assert y * n == n * n - n;
    } else {
      assert (y + 1) * n == y * n + n;
    }
  }

  lemma DownStep(y: int, n: nat)
    requires n >= 2 && 0 <= y < n
    ensures y * n + BottomOffset(n, y) == ((y - 1) % n) * n
  {
    LeftStep(y, n);
    ModUnique(y, n, 0, y);
    if y == 0 {
      assert (n - 1) * n == n * n - n;
    } else {
      assert (y - 1) * n == y * n - n;
    }
  }

  /** Interior cells' shared table agrees with the edge formula. */
  lemma NeighborOffsetsUniform(rcc: nat, i: nat)
    requires rcc >= 2 && i < rcc * rcc
    ensures var x := Col(i, rcc); var y := Row(i, rcc);
      var l := LeftOffset(rcc, x); var r := RightOffset(rcc, x);
      var t := TopOffset(rcc, y); var b := BottomOffset(rcc, y);
      NeighborOffsets(rcc, i) == [l + t, t, r + t, l, 0, r, l + b, b, r + b]
  {
  }

  /** Every offset of cell `i` leads to the cell one step away in the
      direction (DX(k), DY(k)), wrapping around the borders like a torus. */
  lemma NeighborOffsetsTorus(rcc: nat, i: nat, k: nat)
    requires rcc >= 2 && i < rcc * rcc && k < 9
    ensures |NeighborOffsets(rcc, i)| == 9
    ensures i + NeighborOffsets(rcc, i)[k] ==
      CellIndex((Col(i, rcc) + DX(k)) % rcc, (Row(i, rcc) + DY(k)) % rcc, rcc)
  {
    var x := Col(i, rcc);
    var y := Row(i, rcc);
    Decompose(i, rcc);
    NeighborOffsetsUniform(rcc, i);
    RightStep(x, rcc);
    LeftStep(x, rcc);
    UpStep(y, rcc);
    DownStep(y, rcc);
    ModUnique(x, rcc, 0, x);
    ModUnique(y, rcc, 0, y);
  }

  /** Hence every neighbour index is a cell of the grid, and the middle
      offset is zero. */
  lemma NeighborOffsetsInRange(rcc: nat, i: nat, k: nat)
    requires rcc >= 2 && i < rcc * rcc && k < 9
    ensures |NeighborOffsets(rcc, i)| == 9
    ensures 0 <= i + NeighborOffsets(rcc, i)[k] < rcc * rcc
    ensures NeighborOffsets(rcc, i)[4] == 0
  {
    NeighborOffsetsTorus(rcc, i, k);
    CellIndexInRange((Col(i, rcc) + DX(k)) % rcc, (Row(i, rcc) + DY(k)) % rcc, rcc);
  }

  /** The four forward neighbours scanned by the pair query (k < 4) are
      never the cell itself. */
  lemma ForwardNeighborIsOtherCell(rcc: nat, i: nat, k: nat)
    requires rcc >= 2 && i < rcc * rcc && k < 4
    ensures |NeighborOffsets(rcc, i)| == 9
    ensures NeighborOffsets(rcc, i)[k] != 0
  {
    NeighborOffsetsTorus(rcc, i, k);
    var x := Col(i, rcc);
    var y := Row(i, rcc);
    Decompose(i, rcc);
    var nx := (x + DX(k)) % rcc;
    var ny := (y + DY(k)) % rcc;
    if NeighborOffsets(rcc, i)[k] == 0 {
      CellIndexInjective(nx, ny, x, y, rcc);
      if k < 3 {
        RightStep(y, rcc);
      } else {
        LeftStep(x, rcc);
      }
    }
  }
}
