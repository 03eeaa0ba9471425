/** The entity of src/entity/entity.ts as a value: its settings, its
    kinematic state, its controllers and the rules that depend on nothing
    but the entity itself (team equality, visibility, derived stats,
    level-up, regeneration, merging controller intents, motion). Master
    links are ids into a `Store`, which keeps every entity ever created,
    removed ones included, as the JavaScript references do. */
module Entities {
  import opened Wrappers
  import opened Vec
  import opened HashGeometry
  import RoomConfig

  type Id = nat

  // ---------------------------------------------------------------------
  // Settings

  /** `hitType`: `'none'`, `'auto'` or a callback, kept by name. */
  datatype HitType = HitNone | HitAuto | HitFn(fn: string)

  /** `miniMapType`: `'none'`, `'always'`, `'team'` or a predicate, kept by name. */
  datatype MiniMapType = MapNone | MapAlways | MapTeam | MapFn(fn: string)

  /** `killMessage`: `false`, `true` (the default text) or a text. */
  datatype KillMessage = NoKillMessage | DefaultKillMessage | CustomKillMessage(text: string)

  datatype Skill = Skill(
    speed: real, health: real, regen: real, damage: real, pen: real, range: Option<real>,
    pushability: real, fov: real, shield: real, shieldRegen: real)

  /** A controller maker (`new ControllerMaker(Kind, ...args)`). */
  datatype Maker =
    | MakePlain
    | MakeNearest(onlyPlayer: bool)
    | MakeCircle
    | MakeSlowCircle
    | MakeMasterCircle
    | MakeGoToMaster
    | MakeMinion
    | MakeMinionNearest

  datatype Setting = Setting(
    showHealth: bool, showName: bool, showScore: bool, giveScore: bool,
    killMessage: KillMessage, classLabel: string, hitType: HitType, miniMapType: MiniMapType,
    score: real, name: Option<string>, size: real, mass: real,
    isFixed: bool, airplane: bool, bullet: bool, food: bool, independent: bool,
    skill: Skill, controllers: seq<Maker>, upgrades: seq<string>,
    /** `on.collision`, when the class sets one. */
    onCollision: Option<string>)

  /** A processed class as `init` reads it. */
  datatype Archetype = Archetype(mockupId: nat, tier: real, score: real, setting: Setting)

  /** An entry of `allUpgrades`: the class name and its tier. */
  datatype Upgrade = Upgrade(name: string, tier: real)

  // ---------------------------------------------------------------------
  // Controllers (their state; the behaviour is in module Controllers)

  /** The private state of each controller kind. `NearestBrain.target` is
      the id of the entity whose `pos` object the source keeps a reference
      to, so a replay sees that entity's current position. */
  datatype Brain =
    | PlainBrain
    | NearestBrain(onlyPlayer: bool, target: Option<Id>)
    | CircleBrain(slow: bool, angle: real, aim: Vector)
    | MasterCircleBrain(angle: real, aim: Vector)
    | GoToMasterBrain(aim: Vector)
    | MinionBrain(angle: real, aim: Vector, mode: bool)
    | MinionNearestBrain(angle: real, targetAngle: real, found: Option<Vector>)

  datatype Controller = Controller(timer: real, acceptsFromTop: bool, brain: Brain)

  /** `maker.make()`: a fresh controller. `timer` and `angle` are the values
      the constructor draws from `Math.random`. `acceptsFromTop` starts
      true for the base class and the kinds that do not override it. */
  function Make(maker: Maker, timer: real, angle: real): (c: Controller)
    ensures c.timer == timer
    ensures c.acceptsFromTop <==> maker in {MakePlain, MakeGoToMaster} || maker.MakeNearest?
  {
    match maker
    case MakePlain => Controller(timer, true, PlainBrain)
    case MakeNearest(onlyPlayer) => Controller(timer, true, NearestBrain(onlyPlayer, None))
    case MakeCircle => Controller(timer, false, CircleBrain(false, angle, Zero))
    case MakeSlowCircle => Controller(timer, false, CircleBrain(true, angle, Zero))
    case MakeMasterCircle => Controller(timer, false, MasterCircleBrain(angle, Zero))
    case MakeGoToMaster => Controller(timer, true, GoToMasterBrain(Zero))
    case MakeMinion => Controller(timer, false, MinionBrain(angle, Zero, false))
    case MakeMinionNearest => Controller(timer, false, MinionNearestBrain(angle, 0.0, None))
  }

  /** `control`: `angle` and `power` may be `undefined` (`None`). */
  datatype Control = Control(
    target: Option<Vector>, goal: Option<Vector>, main: bool, fire: bool, alt: bool,
    angle: Option<real>, power: Option<real>)

  const InitialControl := Control(None, None, false, false, false, None, Some(1.0))

  /** `think.power`: absent (`undefined`), `null`, or a number. */
  datatype Power = PowerAbsent | PowerNull | PowerIs(p: real)

  /** A `ControllerThink`: `null` fields are `None`. */
  datatype Think = Think(
    target: Option<Vector>, goal: Option<Vector>, main: Option<bool>, fire: Option<bool>,
    alt: Option<bool>, angle: Option<real>, power: Power)

  // ---------------------------------------------------------------------
  // The entity

  /** Kinematics: position, velocity, acceleration, facing, the `move`
      set in insertion order (codes 0 up, 1 down, 2 left, 3 right), the
      movement angle, and whether the entity counts as moving. */
  datatype Motion = Motion(
    pos: Vector, vel: Vector, acc: Vector, angle: real,
    move: seq<int>, moveAngle: Option<real>, active: bool)

  /** Score, level and the damage state. */
  datatype Vitals = Vitals(
    score: real, level: int, levelScore: int, health: real, shield: real,
    tick: int, lastTickAttacked: int, die: bool)

  /** What steers the entity: its `control`, its `_source` (only the top
      master's is ever read) and its controllers. */
  datatype Mind = Mind(control: Control, source: Option<Vector>, controllers: seq<Controller>)

  /** The class-derived part: mockup, upgrades and the change flag. */
  datatype Build = Build(
    mockupId: nat, allUpgrades: seq<Upgrade>, upgrades: seq<Upgrade>,
    upgradeAdded: bool, changed: bool)

  /** The fields are grouped by concern; the constants give each field of
      the source its own name. */
  datatype Entity = Entity(
    team: int, team2: int, master: Option<Id>, setting: Setting, name: string,
    motion: Motion, vitals: Vitals, mind: Mind, build: Build)
  {
    const pos: Vector := motion.pos
    const vel: Vector := motion.vel
    const acc: Vector := motion.acc
    const angle: real := motion.angle
    const move: seq<int> := motion.move
    const moveAngle: Option<real> := motion.moveAngle
    const active: bool := motion.active
    const score: real := vitals.score
    const level: int := vitals.level
    const levelScore: int := vitals.levelScore
    const health: real := vitals.health
    const shield: real := vitals.shield
    const tick: int := vitals.tick
    const lastTickAttacked: int := vitals.lastTickAttacked
    const die: bool := vitals.die
    const control: Control := mind.control
    const source: Option<Vector> := mind.source
    const controllers: seq<Controller> := mind.controllers
    const mockupId: nat := build.mockupId
    const allUpgrades: seq<Upgrade> := build.allUpgrades
    const upgrades: seq<Upgrade> := build.upgrades
    const upgradeAdded: bool := build.upgradeAdded
    const changed: bool := build.changed
  }

  /** Every entity ever created, removed ones included, by id. */
  type Store = map<Id, Entity>

  // ---------------------------------------------------------------------
  // isSameTeam, isEntityVisible

  /** `Entity.isSameTeam`. */
  predicate IsSameTeam(a: Entity, b: Entity) {
    a.team == b.team && ((a.team2 == 0 && b.team2 == 0) || a.team2 == b.team2)
  }

  /** The `team2 == 0` case adds nothing: two entities are on the same team
      exactly when both team numbers agree. The relation is therefore
      symmetric, reflexive and transitive. */
  lemma SameTeamIff(a: Entity, b: Entity)
    ensures IsSameTeam(a, b) <==> a.team == b.team && a.team2 == b.team2
    ensures IsSameTeam(a, b) == IsSameTeam(b, a)
    ensures IsSameTeam(a, a)
  {
  }

  lemma SameTeamTransitive(a: Entity, b: Entity, c: Entity)
    requires IsSameTeam(a, b) && IsSameTeam(b, c)
    ensures IsSameTeam(a, c)
  {
    SameTeamIff(a, b);
    SameTeamIff(b, c);
  }

  /** `Entity.isEntityVisible(a, b)`: b is within a's field of view. */
  predicate IsEntityVisible(m: MathLib, a: Entity, b: Entity) {
    Distance(m, a.pos, b.pos) <= a.setting.skill.fov
  }

  /** Visibility uses the observer's own `fov`, so it is not symmetric: for
      any square root, two entities at one spot whose views differ see each
      other differently. */
  lemma VisibilityNotSymmetric(m: MathLib, a: Entity)
    ensures var d := Distance(m, a.pos, a.pos);
      var sees := a.(setting := a.setting.(skill := a.setting.skill.(fov := d)));
      var blind := a.(setting := a.setting.(skill := a.setting.skill.(fov := d - 1.0)));
      IsEntityVisible(m, sees, blind) && !IsEntityVisible(m, blind, sees)
  {
  }

  /** Whatever the square root does, the distance reads the same from both
      ends, so two entities with the same `fov` agree. */
  lemma DistanceSymmetric(m: MathLib, a: Vector, b: Vector)
    ensures Distance(m, a, b) == Distance(m, b, a)
  {
    assert (b.x - a.x) * (b.x - a.x) == (a.x - b.x) * (a.x - b.x);
    assert (b.y - a.y) * (b.y - a.y) == (a.y - b.y) * (a.y - b.y);
  }

  // ---------------------------------------------------------------------
  // Derived quantities

  const SizeMultiplier := 1.4

  function Size(e: Entity): real {
    e.setting.size
  }

  /** `mass`. */
  function Mass(e: Entity): (r: real)
    ensures e.setting.mass == 1.0 ==> r == Size(e)
  {
    Size(e) * e.setting.mass
  }

  /** `maxHealth`: the skill's health plus 0.0004 per point of score. */
  function MaxHealth(e: Entity): (r: real)
    ensures e.score >= 0.0 ==> r >= e.setting.skill.health
  {
    e.setting.skill.health + e.score * 0.0004
  }

  /** `maxShield`: likewise from the skill's shield. */
  function MaxShield(e: Entity): (r: real)
    ensures e.score >= 0.0 ==> r >= e.setting.skill.shield
  {
    e.setting.skill.shield + e.score * 0.0004
  }

  /** `getAABB()`: the square of half-side 0.7 · size around `pos`, always
      reported active. */
  function GetAabb(e: Entity): (b: Aabb)
    ensures b.active
    ensures b.maxX - b.minX == b.maxY - b.minY == 2.0 * (Size(e) * 0.5 * SizeMultiplier)
    ensures (b.minX + b.maxX) / 2.0 == e.pos.x && (b.minY + b.maxY) / 2.0 == e.pos.y
    ensures Size(e) >= 0.0 ==> WellFormedBox(b)
  {
    var h := Size(e) * 0.5 * SizeMultiplier;
    Aabb(true, e.pos.x - h, e.pos.y - h, e.pos.x + h, e.pos.y + h)
  }

  // ---------------------------------------------------------------------
  // isMaster, topMaster, source

  /** `isMaster`: independent, or without a master. */
  predicate IsMaster(e: Entity) {
    e.setting.independent || e.master.None?
  }

  /** `topMaster` of the entity with this id: itself when it is a master,
      else its master's top master. `seen` holds the entities already
      passed on the way; reaching one again is a chain that loops, where
      the source recurses until the stack overflows (`None`), as it does
      for a master that is not in the store. */
  function TopMasterFrom(s: Store, id: Id, seen: set<Id>): (r: Option<Id>)
    requires seen <= s.Keys
    ensures r.Some? ==> r.value in s && IsMaster(s[r.value])
    decreases |s.Keys - seen|
  {
    if id !in s then None
    else if IsMaster(s[id]) then Some(id)
    else if id in seen then None
    else
      assert s.Keys - (seen + {id}) == (s.Keys - seen) - {id};
      TopMasterFrom(s, s[id].master.value, seen + {id})
  }

  function TopMaster(s: Store, id: Id): (r: Option<Id>)
    ensures r.Some? ==> r.value in s && IsMaster(s[r.value])
    ensures id in s && IsMaster(s[id]) ==> r == Some(id)
  {
    TopMasterFrom(s, id, {})
  }

  /** Which entities were already passed does not matter to a walk that
      ends: it ends at the same master with fewer of them. */
  lemma {:induction false} SeenIrrelevant(s: Store, id: Id, seen: set<Id>, fewer: set<Id>)
    requires fewer <= seen <= s.Keys
    requires TopMasterFrom(s, id, seen).Some?
    ensures TopMasterFrom(s, id, fewer) == TopMasterFrom(s, id, seen)
    decreases |s.Keys - seen|
  {
    if id in s && !IsMaster(s[id]) {
      assert s.Keys - (seen + {id}) == (s.Keys - seen) - {id};
      SeenIrrelevant(s, s[id].master.value, seen + {id}, fewer + {id});
    }
  }

  /** The recursion of `topMaster`: an entity that is not a master has its
      master's top master, whenever that exists. */
  lemma TopMasterStep(s: Store, id: Id)
    requires id in s && !IsMaster(s[id])
    requires TopMaster(s, s[id].master.value).Some?
    ensures TopMaster(s, id) == TopMaster(s, s[id].master.value)
  {
    var m := s[id].master.value;
    var none: set<Id> := {};
    assert none + {id} == {id};
    assert TopMaster(s, id) == TopMasterFrom(s, m, {id});
    if TopMasterFrom(s, m, {id}).Some? {
      SeenIrrelevant(s, m, {id}, {});
    } else {
      var passed := PassesThrough(s, m, {}, id);
    }
  }

  /** When passing `y` as well turns a walk that ends into one that loops,
      the walk goes through `y`: it gets there having passed `passed`
      (never `y` itself, always the start) and ends where it would have. */
  lemma {:induction false} PassesThrough(s: Store, x: Id, seen: set<Id>, y: Id) returns (passed: set<Id>)
    requires seen <= s.Keys && y in s && y !in seen
    requires TopMasterFrom(s, x, seen).Some? && TopMasterFrom(s, x, seen + {y}).None?
    ensures seen <= passed <= s.Keys && y !in passed && (x != y ==> x in passed)
    ensures TopMasterFrom(s, y, passed) == TopMasterFrom(s, x, seen)
    decreases |s.Keys - seen|
  {
    if x == y {
      passed := seen;
    } else {
      var mx := s[x].master.value;
      assert s.Keys - (seen + {x}) == (s.Keys - seen) - {x};
      assert seen + {y} + {x} == seen + {x} + {y};
      passed := PassesThrough(s, mx, seen + {x}, y);
    }
  }

  /** Masters are created before their children: every master link
      points into the store, at a smaller id. This is how entities are
      made (a child is given an existing master), and it rules out cycles. */
  ghost predicate Ordered(s: Store) {
    forall x :: x in s && s[x].master.Some? ==> s[x].master.value in s && s[x].master.value < x
  }

  /** In an ordered store every entity has a top master. */
  lemma {:induction false} OrderedTopMaster(s: Store, x: Id)
    requires Ordered(s) && x in s
    ensures TopMaster(s, x).Some?
    decreases x
  {
    if !IsMaster(s[x]) {
      OrderedTopMaster(s, s[x].master.value);
      TopMasterStep(s, x);
    }
  }

  /** A cached `Nearest` target is an entity of the store. */
  predicate BrainIn(keys: set<Id>, b: Brain) {
    b.NearestBrain? && b.target.Some? ==> b.target.value in keys
  }

  predicate ControllersIn(keys: set<Id>, e: Entity) {
    forall k :: 0 <= k < |e.mind.controllers| ==> BrainIn(keys, e.mind.controllers[k].brain)
  }

  /** The store invariant the world keeps. */
  ghost predicate Sound(s: Store) {
    Ordered(s) && forall x :: x in s ==> ControllersIn(s.Keys, s[x])
  }

  /** Replacing one entity keeps the store sound when its master stays or
      is dropped and its controllers point into the store. */
  lemma SoundUpdate(s: Store, x: Id, e: Entity)
    requires Sound(s) && x in s
    requires e.master == s[x].master || e.master.None?
    requires ControllersIn(s.Keys, e)
    ensures Sound(s[x := e]) && s[x := e].Keys == s.Keys
  {
    assert s[x := e].Keys == s.Keys;
  }

  /** `get source()`: the top master's `_source`. */
  function Source(s: Store, id: Id): (r: Option<Vector>)
    ensures TopMaster(s, id).Some? ==> r == s[TopMaster(s, id).value].source
  {
    match TopMaster(s, id)
    case Some(t) => s[t].source
    case None => None
  }

  /** `set source(value)`: writes the top master's `_source`. */
  function SetSource(s: Store, id: Id, v: Option<Vector>): (r: Store)
    ensures r.Keys == s.Keys
    ensures forall k :: k in s && (TopMaster(s, id).None? || k != TopMaster(s, id).value) ==> r[k] == s[k]
  {
    match TopMaster(s, id)
    case Some(t) => s[t := s[t].(mind := s[t].mind.(source := v))]
    case None => s
  }

  /** Writing `source` through any entity is read back through every entity
      with the same top master, and moves no master link. */
  lemma SourceRoundTrip(s: Store, id: Id, other: Id, v: Option<Vector>)
    requires TopMaster(s, id).Some? && TopMaster(s, other) == TopMaster(s, id)
    ensures TopMaster(SetSource(s, id, v), other) == TopMaster(s, other)
    ensures Source(SetSource(s, id, v), other) == v
  {
    var t := TopMaster(s, id).value;
    var s' := SetSource(s, id, v);
    MastersUnchanged(s, s', other, {});
  }

  /** A store that differs only in `_source` values walks to the same top
      masters. */
  lemma {:induction false} MastersUnchanged(s: Store, s': Store, id: Id, seen: set<Id>)
    requires s.Keys == s'.Keys && seen <= s.Keys
    requires forall k :: k in s ==> s'[k].master == s[k].master && s'[k].setting == s[k].setting
    ensures TopMasterFrom(s', id, seen) == TopMasterFrom(s, id, seen)
    decreases |s.Keys - seen|
  {
    if id in s && !IsMaster(s[id]) && id !in seen {
      assert s.Keys - (seen + {id}) == (s.Keys - seen) - {id};
      MastersUnchanged(s, s', s[id].master.value, seen + {id});
    }
  }

  /** `masterPos`: the top master's position. */
  function MasterPos(s: Store, id: Id): (r: Option<Vector>)
    ensures r.Some? <==> TopMaster(s, id).Some?
    ensures r.Some? ==> r.value == s[TopMaster(s, id).value].pos
  {
    match TopMaster(s, id)
    case Some(t) => Some(s[t].pos)
    case None => None
  }

  /** `title`: food is named by its label alone, a bullet as its top
      master's name followed by "'s" and its label, anything else as its
      own name followed by "'s" and its label. */
  function Title(s: Store, id: Id): (r: Option<string>)
    requires id in s
    ensures s[id].setting.food ==> r == Some(s[id].setting.classLabel)
    ensures !s[id].setting.food && !s[id].setting.bullet ==> r == Some(s[id].name + "'s " + s[id].setting.classLabel)
    ensures !s[id].setting.food && s[id].setting.bullet ==>
      (r.Some? <==> TopMaster(s, id).Some?)
      && (r.Some? ==> r.value == s[TopMaster(s, id).value].name + "'s " + s[id].setting.classLabel)
  {
    var e := s[id];
    if e.setting.food then Some(e.setting.classLabel)
    else if e.setting.bullet then
      match TopMaster(s, id)
      case Some(t) => Some(s[t].name + "'s " + e.setting.classLabel)
      case None => None
    else Some(e.name + "'s " + e.setting.classLabel)
  }

  // ---------------------------------------------------------------------
  // init

  /** Keeps the upgrades of at most the given tier, in order. */
  function UpTo(us: seq<Upgrade>, level: int): (r: seq<Upgrade>)
    ensures |r| <= |us|
    ensures forall u :: u in r <==> u in us && u.tier <= level as real
  {
    if |us| == 0 then []
    else if us[0].tier <= level as real then [us[0]] + UpTo(us[1..], level)
    else UpTo(us[1..], level)
  }

  /** `EntityClass[name]` for each listed upgrade. A name with no class
      leaves `undefined` in the list, and the `filter` that follows throws. */
  function LookupUpgrades(names: seq<string>, catalogue: map<string, Archetype>): (r: Option<seq<Upgrade>>)
    ensures r.Some? <==> forall i :: 0 <= i < |names| ==> names[i] in catalogue
    ensures r.Some? ==> |r.value| == |names| && forall i :: 0 <= i < |names| ==>
      r.value[i] == Upgrade(names[i], catalogue[names[i]].tier)
  {
    if |names| == 0 then Some([])
    else if names[0] !in catalogue then None
    else match LookupUpgrades(names[1..], catalogue)
      case None => None
      case Some(rest) => Some([Upgrade(names[0], catalogue[names[0]].tier)] + rest)
  }

  /** `maker.make()` for every maker of the class; `draw(i)` holds the
      timer and angle the i-th controller's constructor draws. */
  function MakeAll(makers: seq<Maker>, draw: nat -> (real, real)): (cs: seq<Controller>)
    ensures |cs| == |makers|
    ensures forall i :: 0 <= i < |makers| ==> cs[i] == Make(makers[i], draw(i).0, draw(i).1)
  {
    seq(|makers|, i requires 0 <= i < |makers| => Make(makers[i], draw(i).0, draw(i).1))
  }

  /** What `init` leaves: the body, and whether `init` returned or threw. */
  datatype Inited = Inited(body: Entity, complete: bool)

  /** `init(Class)`: copy the class's settings (all but `setting.score`,
      which the source leaves as it was), its mockup, score, health and
      shield; append one fresh controller per maker to those already there;
      take the class's name unless it is null; resolve the upgrades and keep
      those at the current level or below. When an upgrade name has no
      class, the `filter` throws, and what was written before it stays:
      the body keeps its old upgrades and flags. */
  function Init(e: Entity, c: Archetype, catalogue: map<string, Archetype>, draw: nat -> (real, real)): (r: Inited)
    ensures r.complete <==> forall i :: 0 <= i < |c.setting.upgrades| ==> c.setting.upgrades[i] in catalogue
    ensures r.body.build.mockupId == c.mockupId && r.body.build.changed == (r.complete || e.build.changed)
    ensures !r.complete ==> r.body.build == e.build.(mockupId := c.mockupId)
  {
    var head := e.(
      setting := c.setting.(score := e.setting.score),
      vitals := e.vitals.(score := c.score, health := c.setting.skill.health, shield := c.setting.skill.shield),
      mind := e.mind.(controllers := e.controllers + MakeAll(c.setting.controllers, draw)),
      name := if c.setting.name.Some? then c.setting.name.value else e.name,
      build := e.build.(mockupId := c.mockupId));
    match LookupUpgrades(c.setting.upgrades, catalogue)
    case None => Inited(head, false)
    case Some(all) =>
      var ups := UpTo(all, e.level);
      Inited(head.(build := Build(c.mockupId, all, ups, if |ups| > 0 then true else e.upgradeAdded, true)), true)
  }

  /** What `init` writes whether or not it throws: the class's settings
      except `score`, the class's score, full health and shield from its
      skill; the controllers already present stay in front of the new ones
      (they are never cleared); kinematics, team, master and level are
      untouched. */
  lemma InitFields(e: Entity, c: Archetype, catalogue: map<string, Archetype>, draw: nat -> (real, real))
    ensures var r := Init(e, c, catalogue, draw).body;
      r.setting.(score := c.setting.score) == c.setting && r.setting.score == e.setting.score
      && r.score == c.score && r.health == c.setting.skill.health && r.shield == c.setting.skill.shield
      && |r.controllers| == |e.controllers| + |c.setting.controllers|
      && r.controllers[..|e.controllers|] == e.controllers
      && r.pos == e.pos && r.vel == e.vel && r.team == e.team && r.master == e.master && r.level == e.level
      && r.name == (if c.setting.name.Some? then c.setting.name.value else e.name)
  {
    var r := Init(e, c, catalogue, draw).body;
    assert r.(build := e.build) == e.(
      setting := c.setting.(score := e.setting.score),
      vitals := e.vitals.(score := c.score, health := c.setting.skill.health, shield := c.setting.skill.shield),
      mind := e.mind.(controllers := e.controllers + MakeAll(c.setting.controllers, draw)),
      name := if c.setting.name.Some? then c.setting.name.value else e.name);
  }

  /** Once `init` completes, the upgrades are exactly the class's upgrades
      of at most the current tier. */
  lemma InitUpgrades(e: Entity, c: Archetype, catalogue: map<string, Archetype>, draw: nat -> (real, real))
    requires Init(e, c, catalogue, draw).complete
    ensures var r := Init(e, c, catalogue, draw).body;
      |r.allUpgrades| == |c.setting.upgrades|
      && (forall i :: 0 <= i < |c.setting.upgrades| ==> r.allUpgrades[i].name == c.setting.upgrades[i])
      && (forall u :: u in r.upgrades <==> u in r.allUpgrades && u.tier <= e.level as real)
  {
  }

  /** Initialising twice with the same class leaves both sets of
      controllers in place, whether or not the upgrades resolve. */
  lemma InitTwiceDoubles(e: Entity, c: Archetype, catalogue: map<string, Archetype>, draw: nat -> (real, real))
    ensures Init(Init(e, c, catalogue, draw).body, c, catalogue, draw).complete == Init(e, c, catalogue, draw).complete
    ensures |Init(Init(e, c, catalogue, draw).body, c, catalogue, draw).body.controllers|
      == |e.controllers| + 2 * |c.setting.controllers|
  {
  }

  // ---------------------------------------------------------------------
  // update: level-up, regeneration, controller merge, motion

  /** The level-up step of `update`: one level at most per call. */
  function LevelUp(e: Entity): (r: Entity)
    ensures e.level <= r.level <= e.level + 1
    ensures r.level == e.level + 1 <==> e.score > e.levelScore as real
    ensures r.level == e.level + 1 ==> (r.levelScore == RoomConfig.LevelScore(r.level)
      && (forall u :: u in r.upgrades <==> u in e.allUpgrades && u.tier <= r.level as real))
    ensures r.level == e.level ==> r == e
    ensures r.(vitals := e.vitals, build := e.build) == e
    ensures r.vitals == e.vitals.(level := r.level, levelScore := r.levelScore)
    ensures r.build == e.build.(upgrades := r.upgrades, upgradeAdded := r.upgradeAdded)
  {
    if e.score > e.levelScore as real then
      var level := e.level + 1;
      var ups := UpTo(e.allUpgrades, level);
      e.(vitals := e.vitals.(level := level, levelScore := RoomConfig.LevelScore(level)),
         build := e.build.(upgrades := ups, upgradeAdded := if |ups| > 0 then true else e.upgradeAdded))
    else e
  }

  /** A score far above the curve still gains only one level per update. */
  lemma LevelUpIsNotALoop(e: Entity)
    requires e.level == 0 && e.levelScore == 0 && e.score == 1000000.0
    ensures LevelUp(e).level == 1 && LevelUp(LevelUp(e)).level == 2
  {
    RoomConfig.LevelScoreStart();
  }

  /** Ticks without damage after which regeneration gets a bonus of 5
      (`60 * 70`). */
  const QuietTicks := 60 * 70

  /** One pool's regeneration: below `max` it grows by `regen`, plus 5 when
      the entity has not been hit for more than `QuietTicks`. */
  function Regen(value: real, max: real, regen: real, quiet: bool): (r: real)
  {
    if value < max then value + regen + (if quiet then 5.0 else 0.0) else value
  }

  /** The regeneration step of `update` on health and then shield. */
  function Regenerate(e: Entity): (r: Entity)
    ensures r == e.(vitals := e.vitals.(health := r.health, shield := r.shield))
  {
    var quiet := e.tick - e.lastTickAttacked > QuietTicks;
    e.(vitals := e.vitals.(health := Regen(e.health, MaxHealth(e), e.setting.skill.regen, quiet),
                           shield := Regen(e.shield, MaxShield(e), e.setting.skill.shieldRegen, quiet)))
  }

  /** Regeneration: at or above the maximum nothing happens; below it the
      value grows by exactly the rate plus the bonus, and nothing clamps the
      result to the maximum. */
  lemma RegenerateEffect(e: Entity)
    ensures var r := Regenerate(e);
      var bonus := if e.tick - e.lastTickAttacked > QuietTicks then 5.0 else 0.0;
      (e.health >= MaxHealth(e) ==> r.health == e.health)
      && (e.health < MaxHealth(e) ==> r.health - e.health == e.setting.skill.regen + bonus)
      && (e.shield >= MaxShield(e) ==> r.shield == e.shield)
      && (e.shield < MaxShield(e) ==> r.shield - e.shield == e.setting.skill.shieldRegen + bonus)
  {
  }

  /** The overshoot is real: one step below the maximum with a large rate
      ends above the maximum. */
  lemma RegenOvershoots(e: Entity)
    requires e.score == 0.0 && e.setting.skill.health == 100.0 && e.health == 99.0
    requires e.setting.skill.regen == 10.0
    ensures Regenerate(e).health > MaxHealth(Regenerate(e))
  {
  }

  /** The controller-merge step for one controller, given its `think()`
      result and its `acceptsFromTop` after thinking. */
  function Merge(c: Control, acceptsFromTop: bool, t: Think): (r: Control)
    ensures acceptsFromTop ==> r == c
    ensures !acceptsFromTop ==> r.angle == t.angle
    ensures !acceptsFromTop ==> (t.target.Some? ==> r.target == t.target) && (t.target.None? ==> r.target == c.target)
    ensures !acceptsFromTop ==> (t.goal.Some? ==> r.goal == t.goal) && (t.goal.None? ==> r.goal == c.goal)
    ensures !acceptsFromTop ==> r.main == t.main.GetOr(c.main) && r.fire == t.fire.GetOr(c.fire) && r.alt == t.alt.GetOr(c.alt)
    ensures !acceptsFromTop ==> ((t.power.PowerNull? ==> r.power == c.power)
      && (t.power.PowerAbsent? ==> r.power.None?)
      && (t.power.PowerIs? ==> r.power == Some(t.power.p)))
  {
    if acceptsFromTop then c
    else
      Control(
        if t.target.Some? then t.target else c.target,
        if t.goal.Some? then t.goal else c.goal,
        if t.main.Some? then t.main.value else c.main,
        if t.fire.Some? then t.fire.value else c.fire,
        if t.alt.Some? then t.alt.value else c.alt,
        t.angle,
        MergePower(c.power, t.power))
  }

  /** `if (think.power !== null) control.power = think.power`. */
  function MergePower(current: Option<real>, p: Power): Option<real> {
    match p
    case PowerNull => current
    case PowerAbsent => None
    case PowerIs(v) => Some(v)
  }

  /** A deferring controller is invisible, and a think with every field null
      changes nothing but the angle and, when absent, the power. */
  lemma MergeNulls(c: Control, angle: Option<real>)
    ensures Merge(c, false, Think(None, None, None, None, None, angle, PowerNull)) == c.(angle := angle)
    ensures Merge(c, false, Think(None, None, None, None, None, angle, PowerAbsent)) == c.(angle := angle, power := None)
  {
  }

  /** The velocity one movement key adds. */
  function KeyPush(code: int, speed: real): Vector {
    if code == 0 then Vector(0.0, -speed)
    else if code == 1 then Vector(0.0, speed)
    else if code == 2 then Vector(-speed, 0.0)
    else if code == 3 then Vector(speed, 0.0)
    else Zero
  }

  /** The `for (const move of this.move)` loop. */
  function AddKeys(v: Vector, keys: seq<int>, speed: real): Vector
    decreases |keys|
  {
    if |keys| == 0 then v else AddKeys(Add(v, KeyPush(keys[0], speed)), keys[1..], speed)
  }

  function Count(keys: seq<int>, code: int): (n: nat)
    ensures n <= |keys|
  {
    if |keys| == 0 then 0 else (if keys[0] == code then 1 else 0) + Count(keys[1..], code)
  }

  /** The keys add speed · (#right − #left, #down − #up), whatever their
      order. */
  lemma AddKeysSum(v: Vector, keys: seq<int>, speed: real)
    ensures AddKeys(v, keys, speed) == Vector(
      v.x + speed * ((Count(keys, 3) - Count(keys, 2)) as real),
      v.y + speed * ((Count(keys, 1) - Count(keys, 0)) as real))
  {
    AddKeysIsPush(v, keys, speed);
    PushXCounts(keys, speed);
    PushYCounts(keys, speed);
  }

  /** The total push of the keys along x and along y. */
  function PushX(keys: seq<int>, speed: real): real {
    if |keys| == 0 then 0.0 else KeyPush(keys[0], speed).x + PushX(keys[1..], speed)
  }

  function PushY(keys: seq<int>, speed: real): real {
    if |keys| == 0 then 0.0 else KeyPush(keys[0], speed).y + PushY(keys[1..], speed)
  }

  lemma {:induction false} AddKeysIsPush(v: Vector, keys: seq<int>, speed: real)
    ensures AddKeys(v, keys, speed) == Vector(v.x + PushX(keys, speed), v.y + PushY(keys, speed))
    decreases |keys|
  {
    if |keys| > 0 {
      AddKeysIsPush(Add(v, KeyPush(keys[0], speed)), keys[1..], speed);
    }
  }

  /** The signed number of keys along one axis: +1 for `plus`, −1 for
      `minus`. */
  function Net(keys: seq<int>, plus: int, minus: int): real {
    if |keys| == 0 then 0.0
    else (if keys[0] == plus then 1.0 else if keys[0] == minus then -1.0 else 0.0) + Net(keys[1..], plus, minus)
  }

  lemma {:induction false} NetCounts(keys: seq<int>, plus: int, minus: int)
    requires plus != minus
    ensures Net(keys, plus, minus) == (Count(keys, plus) - Count(keys, minus)) as real
  {
    if |keys| > 0 {
      NetCounts(keys[1..], plus, minus);
    }
  }

  lemma {:induction false} PushXCounts(keys: seq<int>, speed: real)
    ensures PushX(keys, speed) == speed * ((Count(keys, 3) - Count(keys, 2)) as real)
  {
    PushXNet(keys, speed);
    NetCounts(keys, 3, 2);
  }

  lemma {:induction false} PushYCounts(keys: seq<int>, speed: real)
    ensures PushY(keys, speed) == speed * ((Count(keys, 1) - Count(keys, 0)) as real)
  {
    PushYNet(keys, speed);
    NetCounts(keys, 1, 0);
  }

  lemma {:induction false} PushXNet(keys: seq<int>, speed: real)
    ensures PushX(keys, speed) == speed * Net(keys, 3, 2)
  {
    if |keys| > 0 {
      PushXNet(keys[1..], speed);
      var h := if keys[0] == 3 then 1.0 else if keys[0] == 2 then -1.0 else 0.0;
      assert KeyPush(keys[0], speed).x == speed * h;
      assert speed * (h + Net(keys[1..], 3, 2)) == speed * h + speed * Net(keys[1..], 3, 2);
    }
  }

  lemma {:induction false} PushYNet(keys: seq<int>, speed: real)
    ensures PushY(keys, speed) == speed * Net(keys, 1, 0)
  {
    if |keys| > 0 {
      PushYNet(keys[1..], speed);
      var h := if keys[0] == 1 then 1.0 else if keys[0] == 0 then -1.0 else 0.0;
      assert KeyPush(keys[0], speed).y == speed * h;
      assert speed * (h + Net(keys[1..], 1, 0)) == speed * h + speed * Net(keys[1..], 1, 0);
    }
  }

  /** `power || 1`: an absent or zero power counts as 1. */
  function PowerOr1(p: Option<real>): real {
    if p.None? || p.value == 0.0 then 1.0 else p.value
  }

  /** The motion step of `update`, after the controllers: steer towards the
      target when `main` is set and a target exists, otherwise by keys or
      by the move angle; then set `active`, move, damp and add the
      acceleration. */
  function Move(m: MathLib, e: Entity): (r: Entity)
    ensures r == e.(motion := e.motion.(angle := r.angle, vel := r.vel, pos := r.pos, acc := r.acc, active := r.active))
  {
    var speed := e.setting.skill.speed;
    var (angle, vel) :=
      if e.control.main && e.control.target.Some? then
        var t := e.control.target.value;
        (if e.control.angle.None? then Angle(m, t) else e.control.angle.value,
         Add(e.vel, Scale(Normalize(m, t), speed * PowerOr1(e.control.power))))
      else if |e.move| > 0 then (e.angle, AddKeys(e.vel, e.move, speed))
      else if e.moveAngle.Some? then
        (e.angle, Add(e.vel, Scale(Normalize(m, AddAngle(m, Vector(1.0, 1.0), e.moveAngle.value)), speed)))
      else (e.angle, e.vel);
    Damp(e.(motion := e.motion.(angle := angle, vel := vel, active := !(Mag(m, vel) < 0.1))))
  }

  /** `pos += vel; vel *= k; vel += acc; acc *= 0`, with k = 0.95 for a
      bullet and 0.9 otherwise. */
  function Damp(e: Entity): (r: Entity)
  {
    var k := if e.setting.bullet then 0.95 else 0.9;
    e.(motion := e.motion.(pos := Add(e.pos, e.vel), vel := Add(Scale(e.vel, k), e.acc), acc := Scale(e.acc, 0.0)))
  }

  /** Motion without a steering target: the keys add
      speed · (#right − #left, #down − #up) before the entity moves by the
      new velocity; the velocity is then damped and the acceleration added
      and cleared; `active` says whether the speed reached 0.1. */
  lemma MoveByKeys(m: MathLib, e: Entity)
    requires !(e.control.main && e.control.target.Some?) && |e.move| > 0
    ensures var s := e.setting.skill.speed;
      var v := Vector(e.vel.x + s * ((Count(e.move, 3) - Count(e.move, 2)) as real),
                      e.vel.y + s * ((Count(e.move, 1) - Count(e.move, 0)) as real));
      var k := if e.setting.bullet then 0.95 else 0.9;
      var r := Move(m, e);
      r.pos == Add(e.pos, v) && r.vel == Add(Scale(v, k), e.acc) && r.acc == Zero
      && (r.active <==> Mag(m, v) >= 0.1) && r.angle == e.angle
  {
    AddKeysSum(e.vel, e.move, e.setting.skill.speed);
  }

  /** With no target, no key and no move angle the entity coasts. */
  lemma MoveCoasts(m: MathLib, e: Entity)
    requires !(e.control.main && e.control.target.Some?) && |e.move| == 0 && e.moveAngle.None?
    ensures var k := if e.setting.bullet then 0.95 else 0.9;
      Move(m, e).pos == Add(e.pos, e.vel) && Move(m, e).vel == Add(Scale(e.vel, k), e.acc)
      && Move(m, e).acc == Zero && Move(m, e).angle == e.angle
  {
  }

  /** Steering: the angle follows the control's angle, or the target's
      direction when it is undefined; the push has the speed times the
      power, 1 when the power is absent or zero. */
  lemma MoveSteers(m: MathLib, e: Entity)
    requires e.control.main && e.control.target.Some?
    ensures var t := e.control.target.value;
      var v := Add(e.vel, Scale(Normalize(m, t), e.setting.skill.speed * PowerOr1(e.control.power)));
      Move(m, e).angle == (if e.control.angle.None? then Angle(m, t) else e.control.angle.value)
      && Move(m, e).pos == Add(e.pos, v)
  {
  }
}
