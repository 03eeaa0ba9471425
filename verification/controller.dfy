/** The controllers of src/entity/controller.ts: the think timer, the
    nearest-enemy scan and what each kind asks of its entity. A controller
    is a value; `Think` returns the controller after thinking together with
    its intent. The room's entity list is the sequence of ids `order`. */
module Controllers {
  import opened Wrappers
  import opened Vec
  import opened Entities

  // ---------------------------------------------------------------------
  // isThinkTime

  /** `isThinkTime()`: true when the timer, before its decrement, is below
      zero, and then the timer restarts at 10. The result is the answer and
      the new timer. */
  function IsThinkTime(timer: real): (r: (bool, real))
    ensures r.0 <==> timer < 0.0
    ensures r.0 ==> r.1 == 10.0
    ensures !r.0 ==> r.1 == timer - 1.0
  {
    if timer < 0.0 then (true, 10.0) else (false, timer - 1.0)
  }

  /** The timer after k calls. */
  function TimerAfter(timer: real, k: nat): real
    decreases k
  {
    if k == 0 then timer else TimerAfter(IsThinkTime(timer).1, k - 1)
  }

  /** From a timer t ≥ 0, the first ⌊t⌋ + 1 calls answer false, counting
      the timer down by one each, and the next one answers true. */
  lemma {:induction false} FalsesBeforeThink(t: real, k: nat)
    requires t >= 0.0 && k <= t.Floor + 1
    ensures TimerAfter(t, k) == t - k as real
    ensures forall j: nat :: j < k ==> !IsThinkTime(TimerAfter(t, j)).0
  {
    if k > 0 {
      FalsesBeforeThink(t, k - 1);
      assert TimerAfter(t, k - 1) == t - (k - 1) as real;
      UnfoldLast(t, k);
      forall j: nat | j < k
        ensures !IsThinkTime(TimerAfter(t, j)).0
      {
        if j == k - 1 {
          assert (k - 1) as real <= t.Floor as real <= t;
        }
      }
    }
  }

  /** Unrolling the last call instead of the first. */
  lemma {:induction false} UnfoldLast(t: real, k: nat)
    requires k > 0
    ensures TimerAfter(t, k) == IsThinkTime(TimerAfter(t, k - 1)).1
    decreases k
  {
    if k > 1 {
      UnfoldLast(IsThinkTime(t).1, k - 1);
    }
  }

  /** After a reset to 10 exactly eleven calls answer false before one
      answers true. */
  lemma ElevenFalsesAfterReset()
    ensures forall j: nat :: j < 11 ==> !IsThinkTime(TimerAfter(10.0, j)).0
    ensures IsThinkTime(TimerAfter(10.0, 11)).0
  {
    FalsesBeforeThink(10.0, 11);
  }

  // ---------------------------------------------------------------------
  // The nearest-enemy scan of Nearest and MinionNearest.findNearest

  /** What a controller sees: the math library, every entity by id, its
      own entity and the room's entities in iteration order. */
  datatype Context = Context(m: MathLib, s: Store, self: Id, order: seq<Id>)

  predicate ValidContext(c: Context) {
    c.self in c.s && forall i :: 0 <= i < |c.order| ==> c.order[i] in c.s
  }

  /** The scan's filter: not itself, not a team-mate, not a dependent
      child, not food when only players count, not fixed, and within its
      own field of view. */
  predicate Eligible(c: Context, e: Id, onlyPlayer: bool)
    requires ValidContext(c) && e in c.s
  {
    var me := c.s[c.self];
    var other := c.s[e];
    e != c.self
    && !IsSameTeam(other, me)
    && !(other.master.Some? && !other.setting.independent)
    && !(onlyPlayer && other.setting.food)
    && !other.setting.isFixed
    && IsEntityVisible(c.m, me, other)
  }

  function Dist(c: Context, e: Id): real
    requires ValidContext(c) && e in c.s
  {
    Distance(c.m, c.s[c.self].pos, c.s[e].pos)
  }

  /** The scan from index i on, with the best index so far; a candidate
      replaces the best only when strictly closer. */
  function ScanFrom(c: Context, onlyPlayer: bool, i: nat, best: Option<nat>): (r: Option<nat>)
    requires ValidContext(c) && i <= |c.order|
    requires best.Some? ==> best.value < i
    ensures r.Some? ==> r.value < |c.order|
    decreases |c.order| - i
  {
    if i == |c.order| then best
    else if Eligible(c, c.order[i], onlyPlayer)
      && (best.None? || Dist(c, c.order[i]) < Dist(c, c.order[best.value]))
    then ScanFrom(c, onlyPlayer, i + 1, Some(i))
    else ScanFrom(c, onlyPlayer, i + 1, best)
  }

  /** The index of the entity the scan settles on, if any. */
  function Scan(c: Context, onlyPlayer: bool): (r: Option<nat>)
    requires ValidContext(c)
    ensures r.Some? ==> r.value < |c.order|
  {
    ScanFrom(c, onlyPlayer, 0, None)
  }

  /** Independent description of the scan's answer: an eligible entity no
      farther than any other eligible one, and strictly closer than every
      eligible one before it. */
  ghost predicate IsNearest(c: Context, onlyPlayer: bool, k: nat)
    requires ValidContext(c)
  {
    k < |c.order| && Eligible(c, c.order[k], onlyPlayer)
    && (forall j :: 0 <= j < |c.order| && Eligible(c, c.order[j], onlyPlayer) ==>
          Dist(c, c.order[k]) <= Dist(c, c.order[j]))
    && (forall j :: 0 <= j < k && Eligible(c, c.order[j], onlyPlayer) ==>
          Dist(c, c.order[k]) < Dist(c, c.order[j]))
  }

  /** What the scan knows after the first i entities. */
  ghost predicate BestSoFar(c: Context, onlyPlayer: bool, i: nat, best: Option<nat>)
    requires ValidContext(c) && i <= |c.order|
  {
    (best.None? ==> forall j :: 0 <= j < i ==> !Eligible(c, c.order[j], onlyPlayer))
    && (best.Some? ==>
      var k := best.value;
      k < i && Eligible(c, c.order[k], onlyPlayer)
      && (forall j :: 0 <= j < i && Eligible(c, c.order[j], onlyPlayer) ==>
            Dist(c, c.order[k]) <= Dist(c, c.order[j]))
      && (forall j :: 0 <= j < k && Eligible(c, c.order[j], onlyPlayer) ==>
            Dist(c, c.order[k]) < Dist(c, c.order[j])))
  }

  /** A strictly closer eligible candidate becomes the best. */
  lemma TakeStep(c: Context, onlyPlayer: bool, i: nat, best: Option<nat>)
    requires ValidContext(c) && i < |c.order|
    requires BestSoFar(c, onlyPlayer, i, best)
    requires Eligible(c, c.order[i], onlyPlayer)
    requires best.None? || (best.value < i && Dist(c, c.order[i]) < Dist(c, c.order[best.value]))
    ensures BestSoFar(c, onlyPlayer, i + 1, Some(i))
  {
  }

  /** Any other candidate leaves the best as it was. */
  lemma KeepStep(c: Context, onlyPlayer: bool, i: nat, best: Option<nat>)
    requires ValidContext(c) && i < |c.order|
    requires BestSoFar(c, onlyPlayer, i, best)
    requires !Eligible(c, c.order[i], onlyPlayer)
      || (best.Some? && best.value < i && Dist(c, c.order[i]) >= Dist(c, c.order[best.value]))
    ensures BestSoFar(c, onlyPlayer, i + 1, best)
  {
  }

  lemma {:induction false} ScanFromCorrect(c: Context, onlyPlayer: bool, i: nat, best: Option<nat>)
    requires ValidContext(c) && i <= |c.order|
    requires best.Some? ==> best.value < i
    requires BestSoFar(c, onlyPlayer, i, best)
    ensures BestSoFar(c, onlyPlayer, |c.order|, ScanFrom(c, onlyPlayer, i, best))
    decreases |c.order| - i
  {
    if i < |c.order| {
      var e := c.order[i];
      if Eligible(c, e, onlyPlayer) && (best.None? || Dist(c, e) < Dist(c, c.order[best.value])) {
        TakeStep(c, onlyPlayer, i, best);
        ScanFromCorrect(c, onlyPlayer, i + 1, Some(i));
      } else {
        KeepStep(c, onlyPlayer, i, best);
        ScanFromCorrect(c, onlyPlayer, i + 1, best);
      }
    }
  }

  /** The scan finds an entity exactly when one is eligible, and the one it
      finds is the nearest, the first of equally near ones. */
  lemma ScanIsNearest(c: Context, onlyPlayer: bool)
    requires ValidContext(c)
    ensures Scan(c, onlyPlayer).None? <==> forall j :: 0 <= j < |c.order| ==> !Eligible(c, c.order[j], onlyPlayer)
    ensures Scan(c, onlyPlayer).Some? ==> IsNearest(c, onlyPlayer, Scan(c, onlyPlayer).value)
  {
    ScanFromCorrect(c, onlyPlayer, 0, None);
  }

  /** At most one index answers the description, so it fixes the scan's
      answer. */
  lemma NearestUnique(c: Context, onlyPlayer: bool, k: nat, l: nat)
    requires ValidContext(c)
    requires IsNearest(c, onlyPlayer, k) && IsNearest(c, onlyPlayer, l)
    ensures k == l
  {
  }

  /** The scan never picks the entity itself, a team-mate, a dependent
      child, a fixed entity, one out of view, or food when only players
      count. */
  lemma ScanExcludes(c: Context, onlyPlayer: bool)
    requires ValidContext(c) && Scan(c, onlyPlayer).Some?
    ensures var e := c.order[Scan(c, onlyPlayer).value];
      var other := c.s[e];
      e != c.self && !IsSameTeam(other, c.s[c.self])
      && (other.master.None? || other.setting.independent)
      && !other.setting.isFixed && IsEntityVisible(c.m, c.s[c.self], other)
      && (onlyPlayer ==> !other.setting.food)
  {
    ScanIsNearest(c, onlyPlayer);
  }

  // ---------------------------------------------------------------------
  // think()

  /** The intent with every field null and `angle`, `power` left undefined. */
  const Defer := Think(None, None, None, None, None, None, PowerAbsent)

  predicate ValidBrain(c: Context, b: Brain) {
    BrainIn(c.s.Keys, b)
  }

  /** `Nearest.think()`. On a think tick it does not scan: it aims at the
      cached entity's current position, or defers when there is none. On
      the other ticks it scans, caches what it finds and aims there with
      power 1, or defers and clears the cache. */
  function NearestThink(c: Context, ctl: Controller): (r: (Controller, Think))
    requires ValidContext(c) && ctl.brain.NearestBrain? && ValidBrain(c, ctl.brain)
    ensures r.0.brain.NearestBrain? && r.0.brain.onlyPlayer == ctl.brain.onlyPlayer && ValidBrain(c, r.0.brain)
    ensures r.0.timer == IsThinkTime(ctl.timer).1
  {
    var (tick, timer) := IsThinkTime(ctl.timer);
    var b := ctl.brain;
    var me := c.s[c.self];
    if tick then
      match b.target
      case Some(t) =>
        (ctl.(timer := timer, acceptsFromTop := false),
         Think(Some(Sub(c.s[t].pos, me.pos)), None, Some(true), Some(true), Some(false), None, PowerAbsent))
      case None => (ctl.(timer := timer, acceptsFromTop := true), Defer)
    else
      match Scan(c, b.onlyPlayer)
      case None => (Controller(timer, true, NearestBrain(b.onlyPlayer, None)), Defer)
      case Some(k) =>
        var e := c.order[k];
        (Controller(timer, false, NearestBrain(b.onlyPlayer, Some(e))),
         Think(Some(Sub(c.s[e].pos, me.pos)), None, Some(true), Some(true), Some(false), None, PowerIs(1.0)))
  }

  /** `Nearest` outcomes off a think tick: with nothing eligible it defers,
      clears its cache and asks for nothing; otherwise it caches the nearest
      entity, stops deferring and aims at it with `main` and `fire` set. */
  lemma NearestScans(c: Context, ctl: Controller)
    requires ValidContext(c) && ctl.brain.NearestBrain? && ValidBrain(c, ctl.brain) && ctl.timer >= 0.0
    ensures var (ctl', t) := NearestThink(c, ctl);
      match Scan(c, ctl.brain.onlyPlayer)
      case None =>
        ctl'.acceptsFromTop && ctl'.brain.target.None? && t == Defer
        && (forall j :: 0 <= j < |c.order| ==> !Eligible(c, c.order[j], ctl.brain.onlyPlayer))
      case Some(k) =>
        !ctl'.acceptsFromTop && ctl'.brain.target == Some(c.order[k])
        && IsNearest(c, ctl.brain.onlyPlayer, k)
        && t.target == Some(Sub(c.s[c.order[k]].pos, c.s[c.self].pos))
        && t.main == Some(true) && t.fire == Some(true) && t.power == PowerIs(1.0)
  {
    ScanIsNearest(c, ctl.brain.onlyPlayer);
  }

  /** On a think tick `Nearest` ignores the room: any entity list gives the
      same result, which replays the cached target or defers. */
  lemma NearestReplays(c: Context, order': seq<Id>, ctl: Controller)
    requires ValidContext(c) && ValidContext(c.(order := order'))
    requires ctl.brain.NearestBrain? && ValidBrain(c, ctl.brain) && ctl.timer < 0.0
    ensures NearestThink(c, ctl) == NearestThink(c.(order := order'), ctl)
    ensures NearestThink(c, ctl).0.acceptsFromTop <==> ctl.brain.target.None?
    ensures NearestThink(c, ctl).0.brain == ctl.brain
  {
  }

  /** The circling step of `CircleMove` and `SlowCircleMove`. */
  function CircleStep(slow: bool): real {
    if slow then 0.01 else 0.002
  }

  /** `CircleMove.think()` and `SlowCircleMove.think()`: on a think tick the
      aim becomes (5, 5) turned by the angle and the angle steps back. */
  function CircleThink(m: MathLib, ctl: Controller): (r: (Controller, Think))
    requires ctl.brain.CircleBrain?
    ensures r.0.acceptsFromTop == ctl.acceptsFromTop && r.0.brain.CircleBrain?
    ensures r.1 == Think(Some(r.0.brain.aim), None, Some(true), Some(false), Some(false), None, PowerIs(0.1))
    ensures IsThinkTime(ctl.timer).0 ==> (r.0.brain.angle == ctl.brain.angle - CircleStep(ctl.brain.slow)
      && r.0.brain.aim == AddAngle(m, Vector(5.0, 5.0), ctl.brain.angle))
    ensures !IsThinkTime(ctl.timer).0 ==> r.0.brain == ctl.brain
  {
    var (tick, timer) := IsThinkTime(ctl.timer);
    var b := ctl.brain;
    var b' := if tick then CircleBrain(b.slow, b.angle - CircleStep(b.slow), AddAngle(m, Vector(5.0, 5.0), b.angle)) else b;
    (ctl.(timer := timer, brain := b'), Think(Some(b'.aim), None, Some(true), Some(false), Some(false), None, PowerIs(0.1)))
  }

  const OrbitRadius := 50.0

  /** A point at the given radius from `centre`, at the given angle. */
  function Orbit(m: MathLib, centre: Vector, angle: real, radius: real): Vector {
    Vector(centre.x + m.cos(angle) * radius, centre.y + m.sin(angle) * radius)
  }

  /** `MasterCircleMove.think()`: on a think tick the aim moves to the orbit
      point around the direct master's position, or around the entity's own
      position without a master, and the angle steps back by π/10. */
  function MasterCircleThink(c: Context, ctl: Controller): (r: (Controller, Think))
    requires ValidContext(c) && ctl.brain.MasterCircleBrain?
    requires c.s[c.self].master.Some? ==> c.s[c.self].master.value in c.s
    ensures r.0.acceptsFromTop == ctl.acceptsFromTop && r.0.brain.MasterCircleBrain?
    ensures r.1 == Think(Some(Sub(r.0.brain.aim, c.s[c.self].pos)), None, Some(true), Some(false), Some(false), None, PowerIs(0.6))
    ensures !IsThinkTime(ctl.timer).0 ==> r.0.brain == ctl.brain
  {
    var (tick, timer) := IsThinkTime(ctl.timer);
    var b := ctl.brain;
    var me := c.s[c.self];
    var centre := if me.master.Some? then c.s[me.master.value].pos else me.pos;
    var b' := if tick then MasterCircleBrain(b.angle - c.m.pi / 10.0, Orbit(c.m, centre, b.angle, OrbitRadius)) else b;
    (ctl.(timer := timer, brain := b'),
     Think(Some(Sub(b'.aim, me.pos)), None, Some(true), Some(false), Some(false), None, PowerIs(0.6)))
  }

  /** Which point `MasterCircleMove` orbits on a think tick. */
  lemma MasterCircleCentre(c: Context, ctl: Controller)
    requires ValidContext(c) && ctl.brain.MasterCircleBrain? && ctl.timer < 0.0
    requires c.s[c.self].master.Some? ==> c.s[c.self].master.value in c.s
    ensures var me := c.s[c.self];
      var aim := MasterCircleThink(c, ctl).0.brain.aim;
      (me.master.Some? ==> aim == Orbit(c.m, c.s[me.master.value].pos, ctl.brain.angle, OrbitRadius))
      && (me.master.None? ==> aim == Orbit(c.m, me.pos, ctl.brain.angle, OrbitRadius))
      && MasterCircleThink(c, ctl).0.brain.angle == ctl.brain.angle - c.m.pi / 10.0
  {
  }

  /** The circling kinds never start deferring: made with `acceptsFromTop`
      false, they keep it false through any number of thoughts, and always
      ask for `main` without `fire`. */
  lemma CirclersNeverDefer(c: Context, ctl: Controller)
    requires ValidContext(c) && !ctl.acceptsFromTop
    requires c.s[c.self].master.Some? ==> c.s[c.self].master.value in c.s
    ensures ctl.brain.CircleBrain? ==> (!CircleThink(c.m, ctl).0.acceptsFromTop
      && CircleThink(c.m, ctl).1.main == Some(true) && CircleThink(c.m, ctl).1.fire == Some(false))
    ensures ctl.brain.MasterCircleBrain? ==> (!MasterCircleThink(c, ctl).0.acceptsFromTop
      && MasterCircleThink(c, ctl).1.main == Some(true) && MasterCircleThink(c, ctl).1.fire == Some(false))
  {
  }

  /** `GoToMasterTarget.think()`: on a think tick it defers when the
      top master has no `source`, and otherwise stops deferring and takes
      the source as its aim. The intent aims at the aim offset by the top
      master's position; the power is 0.7 plus the draw. */
  function GoToMasterThink(c: Context, ctl: Controller, draw: real): (r: (Controller, Think))
    requires ValidContext(c) && ctl.brain.GoToMasterBrain? && TopMaster(c.s, c.self).Some?
    ensures r.0.brain.GoToMasterBrain?
    ensures IsThinkTime(ctl.timer).0 ==>
      (r.0.acceptsFromTop <==> Source(c.s, c.self).None?)
      && (Source(c.s, c.self).Some? ==> r.0.brain.aim == Source(c.s, c.self).value)
    ensures !IsThinkTime(ctl.timer).0 ==> r.0.acceptsFromTop == ctl.acceptsFromTop && r.0.brain == ctl.brain
    ensures r.1.target == Some(Sub(Add(r.0.brain.aim, MasterPos(c.s, c.self).value), c.s[c.self].pos))
      && r.1.main == Some(true) && r.1.fire == Some(false) && r.1.power == PowerIs(0.7 + draw)
  {
    var (tick, timer) := IsThinkTime(ctl.timer);
    var src := Source(c.s, c.self);
    var ctl' :=
      if !tick then ctl.(timer := timer)
      else if src.None? then ctl.(timer := timer, acceptsFromTop := true)
      else Controller(timer, false, GoToMasterBrain(src.value));
    var aim := ctl'.brain.aim;
    (ctl', Think(Some(Sub(Add(aim, MasterPos(c.s, c.self).value), c.s[c.self].pos)),
                 None, Some(true), Some(false), Some(false), None, PowerIs(0.7 + draw)))
  }

  /** The distance beyond which a minion heads straight for its master's
      target: the orbit radius plus 20. */
  const PursuitDistance := OrbitRadius + 20.0

  /** `Minion.think()`. On a think tick with a master that has a `source`,
      it stops deferring and, when farther than `PursuitDistance` from the
      source offset by the master's position, heads for the source
      (`mode` on); otherwise it orbits the source and turns by π/15 (`mode`
      off). Without a master or a source it defers. */
  function MinionThink(c: Context, ctl: Controller): (r: (Controller, Think))
    requires ValidContext(c) && ctl.brain.MinionBrain? && TopMaster(c.s, c.self).Some?
    requires c.s[c.self].master.Some? ==> c.s[c.self].master.value in c.s
    ensures r.0.brain.MinionBrain?
  {
    var (tick, timer) := IsThinkTime(ctl.timer);
    var b := ctl.brain;
    var me := c.s[c.self];
    var ctl' :=
      if !tick then ctl.(timer := timer)
      else if me.master.None? || Source(c.s, me.master.value).None? then ctl.(timer := timer, acceptsFromTop := true)
      else
        var master := c.s[me.master.value];
        var src := Source(c.s, me.master.value).value;
        if Distance(c.m, me.pos, Add(src, master.pos)) > PursuitDistance then
          Controller(timer, false, MinionBrain(b.angle, src, true))
        else
          Controller(timer, false, MinionBrain(b.angle - c.m.pi / 15.0, Orbit(c.m, src, b.angle, OrbitRadius), false));
    var b' := ctl'.brain;
    (ctl', Think(Some(Sub(Add(b'.aim, MasterPos(c.s, c.self).value), me.pos)), None, Some(true), Some(true), Some(false),
                 if b'.mode then None else Some(b'.angle + c.m.pi), PowerIs(0.8)))
  }

  /** What a minion decides on a think tick: it defers exactly when its
      master or the master's source is missing; it pursues (`mode` on, no
      angle) exactly when it is farther than `PursuitDistance` from the aim
      point; it always asks for `main` and `fire` with power 0.8. */
  lemma MinionDecides(c: Context, ctl: Controller)
    requires ValidContext(c) && ctl.brain.MinionBrain? && TopMaster(c.s, c.self).Some?
    requires c.s[c.self].master.Some? ==> c.s[c.self].master.value in c.s
    requires ctl.timer < 0.0
    ensures var me := c.s[c.self];
      var (ctl', t) := MinionThink(c, ctl);
      (ctl'.acceptsFromTop <==> me.master.None? || Source(c.s, me.master.value).None?)
      && (!ctl'.acceptsFromTop ==>
            var src := Source(c.s, me.master.value).value;
            (ctl'.brain.mode <==> Distance(c.m, me.pos, Add(src, c.s[me.master.value].pos)) > PursuitDistance)
            && (ctl'.brain.mode ==> ctl'.brain.aim == src && t.angle.None?))
      && (ctl'.brain.mode ==> t.angle.None?)
      && (!ctl'.brain.mode ==> t.angle == Some(ctl'.brain.angle + c.m.pi))
      && t.main == Some(true) && t.fire == Some(true) && t.power == PowerIs(0.8)
  {
  }

  /** `MinionNearest.findNearest()`: the same scan without the food filter. */
  function FindNearest(c: Context): (r: Option<Id>)
    requires ValidContext(c)
    ensures r.Some? ==> r.value in c.s
  {
    match Scan(c, false)
    case None => None
    case Some(k) => Some(c.order[k])
  }

  const MinionNearestRadius := 20.0

  /** `MinionNearest.think()`: on a think tick the aim becomes a point at
      radius 20 around the nearest entity, or nothing; the intent aims
      there with the angle towards that entity, or carries no target at
      all, and in both cases asks for `main` and `fire`. */
  function MinionNearestThink(c: Context, ctl: Controller): (r: (Controller, Think))
    requires ValidContext(c) && ctl.brain.MinionNearestBrain?
    ensures r.0.acceptsFromTop == ctl.acceptsFromTop && r.0.brain.MinionNearestBrain?
    ensures r.1.main == Some(true) && r.1.fire == Some(true) && r.1.alt == Some(false) && r.1.power == PowerIs(0.8)
    ensures r.0.brain.found.None? ==> r.1.target.None? && r.1.angle == Some(r.0.brain.angle)
    ensures r.0.brain.found.Some? ==> (r.1.target == Some(Sub(r.0.brain.found.value, c.s[c.self].pos))
      && r.1.angle == Some(r.0.brain.targetAngle))
    ensures !IsThinkTime(ctl.timer).0 ==> r.0.brain == ctl.brain
    ensures IsThinkTime(ctl.timer).0 ==> (r.0.brain.found.Some? <==> FindNearest(c).Some?)
  {
    var (tick, timer) := IsThinkTime(ctl.timer);
    var b := ctl.brain;
    var me := c.s[c.self];
    var b' :=
      if !tick then b
      else match FindNearest(c)
        case None => MinionNearestBrain(b.angle, b.targetAngle, None)
        case Some(e) =>
          MinionNearestBrain(b.angle - c.m.pi / 15.0, Angle(c.m, Sub(c.s[e].pos, me.pos)),
                             Some(Orbit(c.m, c.s[e].pos, b.angle, MinionNearestRadius)));
    (ctl.(timer := timer, brain := b'),
     match b'.found
     case None => Think(None, None, Some(true), Some(true), Some(false), Some(b'.angle), PowerIs(0.8))
     case Some(aim) => Think(Some(Sub(aim, me.pos)), None, Some(true), Some(true), Some(false), Some(b'.targetAngle), PowerIs(0.8)))
  }

  /** The base `Controller.think()`: no timer, no deferral change, and an
      intent that turns `main`, `fire` and `alt` off. */
  function PlainThink(ctl: Controller): (r: (Controller, Think))
    ensures r.0 == ctl
    ensures r.1.target.None? && r.1.main == Some(false) && r.1.fire == Some(false) && r.1.alt == Some(false)
  {
    (ctl, Think(None, None, Some(false), Some(false), Some(false), None, PowerAbsent))
  }

  /** The minimum a context must offer for every kind to think: valid ids,
      a master that exists, and a top master (the source recurses without
      end otherwise). */
  predicate CanThink(c: Context, ctl: Controller) {
    ValidContext(c) && ValidBrain(c, ctl.brain)
    && (c.s[c.self].master.Some? ==> c.s[c.self].master.value in c.s)
    && TopMaster(c.s, c.self).Some?
  }

  /** `controller.think()` by kind; `draw` is the `Math.random()` that
      `GoToMasterTarget` reads. */
  function ThinkOnce(c: Context, ctl: Controller, draw: real): (r: (Controller, Think))
    requires CanThink(c, ctl)
    ensures ValidBrain(c, r.0.brain)
    ensures r.0.brain.PlainBrain? <==> ctl.brain.PlainBrain?
  {
    match ctl.brain
    case PlainBrain => PlainThink(ctl)
    case NearestBrain(_, _) => NearestThink(c, ctl)
    case CircleBrain(_, _, _) => CircleThink(c.m, ctl)
    case MasterCircleBrain(_, _) => MasterCircleThink(c, ctl)
    case GoToMasterBrain(_) => GoToMasterThink(c, ctl, draw)
    case MinionBrain(_, _, _) => MinionThink(c, ctl)
    case MinionNearestBrain(_, _, _) => MinionNearestThink(c, ctl)
  }

  /** Only `Nearest`, `GoToMasterTarget` and `Minion` ever change their
      deferral; every other kind keeps the value it was made with. */
  lemma DeferralChangers(c: Context, ctl: Controller, draw: real)
    requires CanThink(c, ctl)
    requires !ctl.brain.NearestBrain? && !ctl.brain.GoToMasterBrain? && !ctl.brain.MinionBrain?
    ensures ThinkOnce(c, ctl, draw).0.acceptsFromTop == ctl.acceptsFromTop
  {
  }
}
