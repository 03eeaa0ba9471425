/** The default room rules of src/room/room-config.ts: where players spawn,
    the score needed per level, which levels grant a skill point, and the
    push back into the arena. Numbers are exact reals here; the source
    computes in binary floating point. */
module RoomConfig {
  import opened Vec

  /** `Math.ceil`. */
  function Ceil(x: real): (c: int)
    ensures c as real >= x && (c as real) - 1.0 < x
  {
    -((-x).Floor)
  }

  function Cube(l: int): int {
    l * l * l
  }

  /** `socketTimeout`: one minute, in milliseconds. */
  const SocketTimeout: real := 60000.0

  /** `levelScore(level)`: `ceil(0.3 · level³)`. */
  function LevelScore(level: int): (s: int)
    ensures level >= 0 ==> s >= 0
  {
    CubeNonNegative(level);
    Ceil(Cube(level) as real * 0.3)
  }

  lemma CubeNonNegative(l: int)
    ensures l >= 0 ==> Cube(l) >= 0
  {
    if l >= 0 {
      assert l * l >= 0;
    }
  }

  lemma LevelScoreStart()
    ensures LevelScore(0) == 0 && LevelScore(1) == 1 && LevelScore(2) == 3
  {
  }

  /** l³ grows with l: m³ − l³ = (m − l)(m² + ml + l²), and the second
      factor is never negative. */
  lemma CubeMonotone(l: int, m: int)
    requires l <= m
    ensures Cube(l) <= Cube(m)
  {
    var q := m * m + m * l + l * l;
    assert Cube(m) - Cube(l) == (m - l) * q;
    assert 2 * q == (m + l) * (m + l) + m * m + l * l;
    assert q >= 0;
    assert (m - l) * q >= 0;
  }

  /** More levels never need less score. */
  lemma LevelScoreMonotone(l: int, m: int)
    requires l <= m
    ensures LevelScore(l) <= LevelScore(m)
  {
    CubeMonotone(l, m);
    var x := Cube(l) as real * 0.3;
    var y := Cube(m) as real * 0.3;
    assert x <= y;
    CeilMonotone(x, y);
  }

  lemma CeilMonotone(x: real, y: real)
    requires x <= y
    ensures Ceil(x) <= Ceil(y)
  {
    assert -y <= -x;
    assert (-y).Floor <= (-x).Floor;
  }

  /** `levelSkill(level)`: levels 2 to 45 grant a skill point (the source
      tests `level <= 40` and then `level <= 45 && level > 0`). */
  function LevelSkill(level: int): (grants: bool)
    ensures grants <==> 2 <= level <= 45
  {
    if level < 2 then false
    else if level <= 40 then true
    else if level <= 45 && level > 0 then true
    else false
  }

  /** `spawn(entity)`: x from the draw times `height` and y from the draw
      times `width`, the axes crossed relative to the names. */
  function Spawn(drawX: real, drawY: real, width: real, height: real): (pos: Vector)
    requires 0.0 <= drawX < 1.0 && 0.0 <= drawY < 1.0 && width > 0.0 && height > 0.0
    ensures 0.0 <= pos.x < height && 0.0 <= pos.y < width
  {
    ProductBelow(drawX, height);
    ProductBelow(drawY, width);
    Vector(drawX * height, drawY * width)
  }

  lemma ProductBelow(d: real, n: real)
    requires 0.0 <= d < 1.0 && n > 0.0
    ensures 0.0 <= d * n < n
  {
    assert n - d * n == (1.0 - d) * n;
  }

  /** How hard an entity outside the arena is pushed back. */
  function PushFactor(food: bool): real {
    if food then 2.0 else 0.05
  }

  /** The change `physics` makes to one velocity component: minus the
      distance past the lower or the upper wall, times the factor. The
      lower wall is tested first. */
  function PushBack(p: real, v: real, limit: real, mult: real): (w: real)
    requires mult > 0.0
    ensures p < 0.0 ==> w == v - p * mult && w > v
    ensures 0.0 <= p && p > limit ==> w == v - (p - limit) * mult && w < v
    ensures 0.0 <= p <= limit ==> w == v
  {
    if p < 0.0 then v - p * mult
    else if p > limit then v - (p - limit) * mult
    else v
  }

  /** `physics(entity)`: the new velocity. The position is never changed.
      x is bounded by `width` and y by `height`; an airplane and an entity
      inside the arena keep their velocity. */
  function Physics(pos: Vector, vel: Vector, airplane: bool, food: bool, width: real, height: real): (v: Vector)
    ensures airplane ==> v == vel
    ensures 0.0 <= pos.x <= width && 0.0 <= pos.y <= height ==> v == vel
    ensures 0.0 <= pos.x <= width ==> v.x == vel.x
    ensures 0.0 <= pos.y <= height ==> v.y == vel.y
    ensures !airplane && pos.x < 0.0 ==> v.x > vel.x
    ensures !airplane && 0.0 <= pos.x && pos.x > width ==> v.x < vel.x
    ensures !airplane && pos.y < 0.0 ==> v.y > vel.y
    ensures !airplane && 0.0 <= pos.y && pos.y > height ==> v.y < vel.y
    ensures !airplane && pos.x < 0.0 ==> v.x == vel.x - pos.x * PushFactor(food)
    ensures !airplane && 0.0 <= pos.x && pos.x > width ==> v.x == vel.x - (pos.x - width) * PushFactor(food)
    ensures !airplane && pos.y < 0.0 ==> v.y == vel.y - pos.y * PushFactor(food)
    ensures !airplane && 0.0 <= pos.y && pos.y > height ==> v.y == vel.y - (pos.y - height) * PushFactor(food)
  {
    if airplane then vel
    else
      var mult := PushFactor(food);
      if pos.x < 0.0 || pos.x > width || pos.y < 0.0 || pos.y > height then
        Vector(PushBack(pos.x, vel.x, width, mult), PushBack(pos.y, vel.y, height, mult))
      else vel
  }
}
