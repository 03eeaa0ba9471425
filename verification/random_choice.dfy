/** src/util/random.ts with `Math.random` replaced by the draws it would
    return: rejection sampling of a point outside the exclusion zones, and
    a weighted choice of food. Weights and coordinates are exact reals. */
module RandomChoice {
  import opened Wrappers
  import opened Vec

  // ---------------------------------------------------------------------
  // RandomPosGenerator.getRandomPos

  /** A closed rectangle, given by its corners `[min, max]`. */
  datatype Zone = Zone(min: Vector, max: Vector)

  predicate InZone(p: Vector, z: Zone) {
    p.x >= z.min.x && p.x <= z.max.x && p.y >= z.min.y && p.y <= z.max.y
  }

  /** `exclusionZone.some(...)`. */
  predicate Excluded(p: Vector, zones: seq<Zone>) {
    exists k :: 0 <= k < |zones| && InZone(p, zones[k])
  }

  /** The candidate one pair of draws gives. */
  function Candidate(min: Vector, max: Vector, draw: Vector): (p: Vector)
    ensures 0.0 <= draw.x < 1.0 && min.x < max.x ==> min.x <= p.x < max.x
    ensures 0.0 <= draw.y < 1.0 && min.y < max.y ==> min.y <= p.y < max.y
  {
    Between(draw.x, min.x, max.x);
    Between(draw.y, min.y, max.y);
    Vector(Scaled(draw.x, min.x, max.x), Scaled(draw.y, min.y, max.y))
  }

  /** `Math.random() * (hi - lo) + lo`. */
  function Scaled(d: real, lo: real, hi: real): real {
    d * (hi - lo) + lo
  }

  /** A draw in [0, 1) scaled onto [lo, hi) stays inside it: the gap to hi
      is the product of two positive numbers. */
  lemma Between(d: real, lo: real, hi: real)
    ensures 0.0 <= d < 1.0 && lo < hi ==> lo <= Scaled(d, lo, hi) < hi
  {
    if 0.0 <= d < 1.0 && lo < hi {
      var e := 1.0 - d;
      var n := hi - lo;
      assert d * n >= 0.0;
      assert e * n > 0.0;
      assert hi - (d * n + lo) == e * n;
    }
  }

  /** The index of the first draw whose candidate lies outside every zone:
      the loop of `getRandomPos`. */
  function FirstFree(zones: seq<Zone>, min: Vector, max: Vector, draws: seq<Vector>): (k: Option<nat>)
    ensures k.Some? ==> k.value < |draws| && !Excluded(Candidate(min, max, draws[k.value]), zones)
    ensures k.Some? ==> forall j :: 0 <= j < k.value ==> Excluded(Candidate(min, max, draws[j]), zones)
    ensures k.None? ==> forall j :: 0 <= j < |draws| ==> Excluded(Candidate(min, max, draws[j]), zones)
  {
    if |draws| == 0 then None
    else if !Excluded(Candidate(min, max, draws[0]), zones) then Some(0)
    else
      match FirstFree(zones, min, max, draws[1..])
      case None => None
      case Some(k) => Some(k + 1)
  }

  /** `getRandomPos(min, max)` for the given draws. The source loops until
      a candidate falls outside every zone; with finitely many draws the
      model answers `None` when each of them was rejected. */
  function RandomPos(zones: seq<Zone>, min: Vector, max: Vector, draws: seq<Vector>): (r: Option<Vector>)
    ensures r.Some? ==> !Excluded(r.value, zones)
    ensures r.Some? && min.x < max.x && min.y < max.y
      && (forall j :: 0 <= j < |draws| ==> 0.0 <= draws[j].x < 1.0 && 0.0 <= draws[j].y < 1.0)
      ==> min.x <= r.value.x < max.x && min.y <= r.value.y < max.y
    ensures r.None? <==> forall j :: 0 <= j < |draws| ==> Excluded(Candidate(min, max, draws[j]), zones)
  {
    match FirstFree(zones, min, max, draws)
    case None => None
    case Some(k) => Some(Candidate(min, max, draws[k]))
  }

  // ---------------------------------------------------------------------
  // randomFood

  datatype Food = Food(kind: string, weight: real)

  /** The weight of the first n foods. */
  function Prefix(foods: seq<Food>, n: nat): real
    requires n <= |foods|
  {
    if n == 0 then 0.0 else Prefix(foods, n - 1) + foods[n - 1].weight
  }

  predicate NonNegative(foods: seq<Food>) {
    forall k :: 0 <= k < |foods| ==> foods[k].weight >= 0.0
  }

  /** The loop of `randomFood`: subtract each weight from r until r is
      below the current weight. The answer is the index of that food. */
  function Walk(foods: seq<Food>, r: real): (k: Option<nat>)
    ensures k.Some? ==> k.value < |foods|
    decreases |foods|
  {
    if |foods| == 0 then None
    else if r < foods[0].weight then Some(0)
    else
      match Walk(foods[1..], r - foods[0].weight)
      case None => None
      case Some(k) => Some(k + 1)
  }

  /** The index `Walk` picks is the first whose running total passes r:
      prefix(i) ≤ r < prefix(i + 1), for r ≥ 0 and weights ≥ 0; no index
      is picked when r reaches the total. */
  lemma {:induction false} WalkPicksInterval(foods: seq<Food>, r: real)
    requires NonNegative(foods) && r >= 0.0
    ensures Walk(foods, r).Some? ==>
      var i := Walk(foods, r).value;
      Prefix(foods, i) <= r < Prefix(foods, i + 1)
    ensures Walk(foods, r).None? <==> r >= Prefix(foods, |foods|)
    decreases |foods|
  {
    if |foods| > 0 {
      var rest := foods[1..];
      var w := foods[0].weight;
      PrefixShift(foods);
      if r >= w {
        WalkPicksInterval(rest, r - w);
      } else {
        assert Prefix(foods, 1) == w;
        PrefixMonotone(foods, 1, |foods|);
      }
    }
  }

  /** No earlier food's running total passes r, so the pick is the first
      index with prefix(i) ≤ r < prefix(i + 1). */
  lemma WalkIsFirst(foods: seq<Food>, r: real)
    requires NonNegative(foods) && r >= 0.0 && Walk(foods, r).Some?
    ensures forall j :: 0 < j <= Walk(foods, r).value ==> Prefix(foods, j) <= r
  {
    WalkPicksInterval(foods, r);
    var i := Walk(foods, r).value;
    forall j | 0 < j <= i
      ensures Prefix(foods, j) <= r
    {
      PrefixMonotone(foods, j, i);
    }
  }

  /** Dropping the first food shifts every running total by its weight. */
  lemma {:induction false} PrefixShift(foods: seq<Food>)
    requires |foods| > 0
    ensures forall n :: 1 <= n <= |foods| ==> Prefix(foods, n) == foods[0].weight + Prefix(foods[1..], n - 1)
  {
    forall n | 1 <= n <= |foods|
      ensures Prefix(foods, n) == foods[0].weight + Prefix(foods[1..], n - 1)
    {
      PrefixShiftAt(foods, n);
    }
  }

  lemma {:induction false} PrefixShiftAt(foods: seq<Food>, n: nat)
    requires 1 <= n <= |foods|
    ensures Prefix(foods, n) == foods[0].weight + Prefix(foods[1..], n - 1)
  {
    if n > 1 {
      PrefixShiftAt(foods, n - 1);
      assert foods[1..][n - 2] == foods[n - 1];
    }
  }

  lemma {:induction false} PrefixMonotone(foods: seq<Food>, m: nat, n: nat)
    requires NonNegative(foods) && m <= n <= |foods|
    ensures Prefix(foods, m) <= Prefix(foods, n)
    decreases n - m
  {
    if m < n {
      PrefixMonotone(foods, m, n - 1);
    }
  }

  /** `Math.random() * totalWeight`. */
  function Target(foods: seq<Food>, d: real): real {
    d * Prefix(foods, |foods|)
  }

  /** `randomFood(foods)` for the draw d: the kind of the food `Walk`
      picks at `d · total`, or `None` (the source's `undefined`). */
  function RandomFood(foods: seq<Food>, d: real): (kind: Option<string>)
    ensures |foods| == 0 ==> kind.None?
    ensures kind.Some? ==> exists i :: 0 <= i < |foods| && kind.value == foods[i].kind
  {
    match Walk(foods, Target(foods, d))
    case None => None
    case Some(i) => Some(foods[i].kind)
  }

  /** With weights >= 0, a positive total and a draw in [0, 1), a food is
      always picked and it never has zero weight. */
  lemma RandomFoodPicks(foods: seq<Food>, d: real)
    requires NonNegative(foods) && Prefix(foods, |foods|) > 0.0 && 0.0 <= d < 1.0
    ensures Walk(foods, Target(foods, d)).Some?
    ensures foods[Walk(foods, Target(foods, d)).value].weight > 0.0
  {
    var total := Prefix(foods, |foods|);
    var r := Target(foods, d);
    Between(d, 0.0, total);
    assert Scaled(d, 0.0, total) == r;
    WalkPicksInterval(foods, r);
    var i := Walk(foods, r).value;
    assert Prefix(foods, i + 1) == Prefix(foods, i) + foods[i].weight;
  }
}
