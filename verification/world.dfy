/** The world of src/room/world.ts: inserting and removing entities,
    damage and kill credit, the collision rules, and the two phases of a
    world update. Events that the source emits (and the kill messages it
    sends) are appended to an explicit effect list; listeners are not run.
    The id map (`idToEntity`) and the hash grid always hold exactly the
    listed entities, so both are represented by the entity list; the
    collision pairs the grid reports are an input. */
module Worlds {
  import opened Wrappers
  import opened Vec
  import opened Entities
  import Controllers
  import RoomConfig

  /** What the world emits, in order. `Removed` stands for the entity's
      `'remove'` followed by the world's `'remove'`, which are always
      emitted together. */
  datatype Event =
    | Inserted(id: Id)
    | Damaged(id: Id, amount: real)
    | Dead(id: Id, killer: Option<Id>)
    | Removed(id: Id)
    | SentMessage(to: Id, text: string)
    | CollisionCallback(fn: string, self: Id, other: Id)
    | HitCallback(fn: string, self: Id, other: Id)

  /** The room settings the world reads. */
  datatype Config = Config(width: real, height: real, maxGiveScore: real)

  const DefaultConfig := Config(5000.0, 5000.0, 99999999.0)

  const DamageMultiplier := 1.0
  const WallBoundaryMultiplier := 0.7
  const WallBoundaryPadding := 10.0

  /** `entities` keeps the insertion order of the `Set`; `s` holds every
      entity ever inserted, removed ones included, since the source keeps
      using removed entities that other code still refers to. */
  datatype World = World(
    s: Store, entities: seq<Id>, miniMap: set<Id>,
    walls: seq<Id>, index: nat, tick: int, events: seq<Event>)

  const Empty := World(map[], [], {}, [], 0, 0, [])

  predicate Distinct(xs: seq<Id>) {
    forall i, j :: 0 <= i < j < |xs| ==> xs[i] != xs[j]
  }

  /** The world's invariant: the store holds exactly the ids handed out so
      far and is sound; the entity list has no repeats and names stored
      entities, as does the mini-map. */
  ghost predicate Wf(w: World) {
    (forall x :: x in w.s <==> 0 <= x < w.index)
    && Sound(w.s)
    && Distinct(w.entities)
    && (forall x :: x in w.entities ==> x in w.s)
    && (forall x :: x in w.miniMap ==> x in w.s)
  }

  lemma EmptyWf()
    ensures Wf(Empty)
  {
  }

  /** The list without one id, in order. */
  function Without(xs: seq<Id>, id: Id): (r: seq<Id>)
    ensures forall x :: x in r <==> x in xs && x != id
    ensures Distinct(xs) ==> Distinct(r)
    ensures |r| <= |xs|
  {
    if |xs| == 0 then []
    else if xs[0] == id then Without(xs[1..], id)
    else
      var rest := Without(xs[1..], id);
      assert Distinct(xs) ==> xs[0] !in rest;
      [xs[0]] + rest
  }

  /** Writes one entity back, keeping the world's invariant. */
  function Put(w: World, id: Id, e: Entity): (w': World)
    requires Wf(w) && id in w.s
    requires e.master == w.s[id].master || e.master.None?
    requires ControllersIn(w.s.Keys, e)
    ensures Wf(w') && w'.s == w.s[id := e] && w' == w.(s := w'.s)
  {
    SoundUpdate(w.s, id, e);
    w.(s := w.s[id := e])
  }

  // ---------------------------------------------------------------------
  // insert, remove

  /** `insert(entity)`: the entity gets the next id and is registered in
      the entity set, the hash grid and the id map. */
  function Insert(w: World, e: Entity): (r: (World, Id))
    requires Wf(w)
    requires e.master.Some? ==> e.master.value in w.s
    requires ControllersIn(w.s.Keys, e)
    ensures var (w', id) := r;
      Wf(w') && id == w.index && w'.index == w.index + 1
      && w'.s == w.s[id := e] && w'.entities == w.entities + [id]
      && w'.miniMap == w.miniMap && w'.events == w.events + [Inserted(id)]
  {
    var id := w.index;
    var s' := w.s[id := e];
    assert s'.Keys == w.s.Keys + {id};
    assert forall x :: x in s' ==> ControllersIn(s'.Keys, s'[x]);
    (w.(s := s', entities := w.entities + [id],
        index := id + 1, events := w.events + [Inserted(id)]), id)
  }

  /** Ids are handed out 0, 1, 2, … in the order of the inserts. */
  lemma InsertNumbers(a: Entity, b: Entity)
    requires a.master.None? && b.master.None? && a.controllers == [] && b.controllers == []
    ensures Insert(Empty, a).1 == 0
    ensures Insert(Insert(Empty, a).0, b).1 == 1
    ensures Insert(Insert(Empty, a).0, b).0.entities == [0, 1]
  {
    EmptyWf();
  }

  /** The entity as `remove` leaves it: dead, and `destroy()`ed, without
      master or controllers. */
  function Destroyed(e: Entity): Entity {
    e.(master := None, vitals := e.vitals.(die := true), mind := e.mind.(controllers := []))
  }

  /** The entity with its score replaced. */
  function WithScore(e: Entity, score: real): Entity {
    e.(vitals := e.vitals.(score := score))
  }

  /** `remove(entity)`: unregister it everywhere, mark it dead, emit the
      removal and `destroy()` it (no master, no controllers). An entity
      removed twice is unregistered once but announced twice. */
  method Remove(w: World, id: Id) returns (w': World)
    requires Wf(w) && id in w.s
    ensures Wf(w') && w'.index == w.index && w'.tick == w.tick && w'.walls == w.walls
    ensures w'.s == w.s[id := Destroyed(w.s[id])]
    ensures w'.entities == Without(w.entities, id) && w'.miniMap == w.miniMap - {id}
    ensures w'.events == w.events + [Removed(id)]
  {
    var w1 := Put(w, id, Destroyed(w.s[id]));
    w' := w1.(entities := Without(w1.entities, id),
              miniMap := w1.miniMap - {id}, events := w1.events + [Removed(id)]);
  }

  // ---------------------------------------------------------------------
  // Damage and kill credit

  function Max(a: real, b: real): real {
    if a >= b then a else b
  }

  function Min(a: real, b: real): real {
    if a <= b then a else b
  }

  /** What `giveScore` credits for a kill. */
  function KillScore(cfg: Config, victim: Entity): real {
    if victim.setting.food then victim.score else Min(victim.score, cfg.maxGiveScore)
  }

  /** The message the killer's top master `t` is sent for killing
      `victim`: none, the default naming the victim's title, or the
      victim's own text. */
  function KillMessages(s: Store, t: Id, victim: Id): seq<Event>
    requires Ordered(s) && victim in s
  {
    OrderedTopMaster(s, victim);
    match s[victim].setting.killMessage
    case NoKillMessage => []
    case DefaultKillMessage => [SentMessage(t, "You killed " + Title(s, victim).value + ".")]
    case CustomKillMessage(text) => [SentMessage(t, text)]
  }

  /** The kill message depends only on names, settings and master links. */
  lemma KillMessagesUnchanged(s: Store, s': Store, t: Id, victim: Id)
    requires Ordered(s) && victim in s && s.Keys == s'.Keys
    requires forall k :: k in s ==> s'[k].master == s[k].master && s'[k].setting == s[k].setting && s'[k].name == s[k].name
    ensures Ordered(s') && KillMessages(s', t, victim) == KillMessages(s, t, victim)
  {
    MastersUnchanged(s, s', victim, {});
  }

  /** The store after `giveScore(killer, victim)`: when the victim gives
      score, its score (capped at `maxGiveScore` unless it is food) goes to
      the killer's top master alone. */
  function CreditStore(cfg: Config, s: Store, killer: Id, victim: Id): Store
    requires Ordered(s) && killer in s && victim in s
  {
    OrderedTopMaster(s, killer);
    var t := TopMaster(s, killer).value;
    if s[victim].setting.giveScore
    then s[t := WithScore(s[t], s[t].score + KillScore(cfg, s[victim]))]
    else s
  }

  /** What `giveScore(killer, victim)` sends: the kill message, to the
      killer's top master, when the victim gives score. */
  function CreditEvents(s: Store, killer: Id, victim: Id): seq<Event>
    requires Ordered(s) && killer in s && victim in s
  {
    OrderedTopMaster(s, killer);
    if s[victim].setting.giveScore then KillMessages(s, TopMaster(s, killer).value, victim) else []
  }

  /** `giveScore(killer, victim)`. */
  method GiveScore(cfg: Config, w: World, killer: Id, victim: Id) returns (w': World)
    requires Wf(w) && killer in w.s && victim in w.s
    ensures Wf(w') && w'.index == w.index && w'.tick == w.tick && w'.walls == w.walls
    ensures w'.entities == w.entities && w'.miniMap == w.miniMap
    ensures w'.s == CreditStore(cfg, w.s, killer, victim)
    ensures w'.events == w.events + CreditEvents(w.s, killer, victim)
  {
    OrderedTopMaster(w.s, killer);
    var v := w.s[victim];
    if !v.setting.giveScore {
      w' := w;
    } else {
      var t := TopMaster(w.s, killer).value;
      var w1 := Put(w, t, WithScore(w.s[t], w.s[t].score + KillScore(cfg, v)));
      w' := w1.(events := w1.events + KillMessages(w.s, t, victim));
    }
  }

  /** The victim of a hit: the shield absorbs what it can, the rest comes
      off health, and the hit is dated with the victim's own tick. */
  function Hurt(e: Entity, damage: real): (r: Entity)
    ensures r == e.(vitals := e.vitals.(shield := r.shield, health := r.health, lastTickAttacked := e.tick))
    ensures r.shield == Max(0.0, e.shield - damage)
    ensures r.health == e.health - Max(0.0, damage - e.shield)
  {
    var remaining := Max(0.0, damage - e.shield);
    e.(vitals := e.vitals.(
         shield := Max(0.0, e.shield - damage),
         health := if remaining > 0.0 then e.health - remaining else e.health,
         lastTickAttacked := e.tick))
  }

  /** The first half of `applyDamage`: the hit and its `'damage'` event. */
  method Hit(w: World, victim: Id, damage: real) returns (w': World)
    requires Wf(w) && victim in w.s
    ensures Wf(w') && w'.index == w.index && w'.tick == w.tick && w'.walls == w.walls
    ensures w'.entities == w.entities && w'.miniMap == w.miniMap
    ensures w'.s == w.s[victim := Hurt(w.s[victim], damage)] && w'.events == w.events + [Damaged(victim, damage)]
  {
    var w1 := Put(w, victim, Hurt(w.s[victim], damage));
    w' := w1.(events := w1.events + [Damaged(victim, damage)]);
  }

  /** The store after a fatal hit on `victim` by `attacker`: when `credit`
      holds and the victim gives score, the attacker's top master gains the
      kill score; then the victim is destroyed (dead, no master, no
      controllers). */
  function KillStore(cfg: Config, s: Store, victim: Id, attacker: Id, credit: bool): Store
    requires Ordered(s) && victim in s && attacker in s
  {
    var s1 := if credit then CreditStore(cfg, s, attacker, victim) else s;
    s1[victim := Destroyed(s1[victim])]
  }

  /** The events of a fatal hit: `'dead'`, then the kill message when the
      top master is credited, then the removal. */
  function KillEvents(s: Store, victim: Id, attacker: Id, credit: bool): seq<Event>
    requires Ordered(s) && victim in s && attacker in s
  {
    [Dead(victim, Some(attacker))]
      + (if credit then CreditEvents(s, attacker, victim) else [])
      + [Removed(victim)]
  }

  /** What crediting does to the store: the keys stay, the killer's top
      master `t` gains exactly the kill score when the victim gives score,
      and every other entity is untouched. */
  lemma CreditStoreSpec(cfg: Config, s: Store, killer: Id, victim: Id)
    requires Ordered(s) && killer in s && victim in s
    ensures TopMaster(s, killer).Some?
    ensures var r := CreditStore(cfg, s, killer, victim);
      var t := TopMaster(s, killer).value;
      r.Keys == s.Keys
      && r[t] == WithScore(s[t], if s[victim].setting.giveScore then s[t].score + KillScore(cfg, s[victim]) else s[t].score)
      && (forall k :: k in s && k != t ==> r[k] == s[k])
  {
    OrderedTopMaster(s, killer);
    var t := TopMaster(s, killer).value;
    var e := WithScore(s[t], if s[victim].setting.giveScore then s[t].score + KillScore(cfg, s[victim]) else s[t].score);
    assert CreditStore(cfg, s, killer, victim) == s[t := e];
  }

  /** What a kill does to the store: the keys stay; the victim is dead with
      no master and no controllers but keeps its health and position; every
      other entity is as crediting (when `credit` holds) left it. */
  lemma KillStoreSpec(cfg: Config, s: Store, victim: Id, attacker: Id, credit: bool)
    requires Ordered(s) && victim in s && attacker in s
    ensures var r := KillStore(cfg, s, victim, attacker, credit);
      var s1 := if credit then CreditStore(cfg, s, attacker, victim) else s;
      r.Keys == s.Keys
      && r[victim].die && r[victim].master.None? && r[victim].controllers == []
      && r[victim].health == s[victim].health && r[victim].pos == s[victim].pos
      && (forall k :: k in s && k != victim ==> r[k] == s1[k])
  {
    CreditStoreSpec(cfg, s, attacker, victim);
  }

  /** The second half of `applyDamage` once health is gone: the `'dead'`
      event, the credit when `credit` holds, and the removal, which comes
      last. The victim is out of every list. */
  method Kill(cfg: Config, w: World, victim: Id, attacker: Id, credit: bool) returns (w': World)
    requires Wf(w) && victim in w.s && attacker in w.s
    ensures Wf(w') && w'.index == w.index && w'.tick == w.tick && w'.walls == w.walls
    ensures w'.entities == Without(w.entities, victim) && w'.miniMap == w.miniMap - {victim}
    ensures w'.s == KillStore(cfg, w.s, victim, attacker, credit)
    ensures w'.events == w.events + KillEvents(w.s, victim, attacker, credit)
  {
    OrderedTopMaster(w.s, attacker);
    var w1 := w.(events := w.events + [Dead(victim, Some(attacker))]);
    var w2 := w1;
    if credit {
      w2 := GiveScore(cfg, w1, attacker, victim);
    }
    w' := Remove(w2, victim);
  }

  /** Whether the attacker's top master is credited for a fatal hit: the
      victim was not already dead and gives score. */
  predicate Credited(victim: Entity) {
    !victim.die && victim.setting.giveScore
  }

  /** A kill keeps the store sound and keeps its keys. */
  lemma KillStoreSound(cfg: Config, s: Store, victim: Id, attacker: Id, credit: bool)
    requires Sound(s) && victim in s && attacker in s
    ensures Sound(KillStore(cfg, s, victim, attacker, credit))
    ensures KillStore(cfg, s, victim, attacker, credit).Keys == s.Keys
  {
    CreditStoreSpec(cfg, s, attacker, victim);
    var s1 := if credit then CreditStore(cfg, s, attacker, victim) else s;
    if credit {
      var t := TopMaster(s, attacker).value;
      assert s1 == s[t := s1[t]];
      SoundUpdate(s, t, s1[t]);
    }
    SoundUpdate(s1, victim, Destroyed(s1[victim]));
  }

  /** The world after `applyDamage(victim, attacker, damage)`: the victim
      is hurt and its `'damage'` event recorded; a hit that takes health to
      zero or below is then a kill of the victim, credited unless the
      victim was already dead. */
  function AfterDamage(cfg: Config, w: World, victim: Id, attacker: Id, damage: real): (w': World)
    requires Wf(w) && victim in w.s && attacker in w.s
    ensures Wf(w') && w'.s.Keys == w.s.Keys && w'.index == w.index && w'.tick == w.tick && w'.walls == w.walls
  {
    var sh := w.s[victim := Hurt(w.s[victim], damage)];
    SoundUpdate(w.s, victim, Hurt(w.s[victim], damage));
    KillStoreSound(cfg, sh, victim, attacker, !w.s[victim].die);
    if sh[victim].health > 0.0 then
      w.(s := sh, events := w.events + [Damaged(victim, damage)])
    else
      w.(s := KillStore(cfg, sh, victim, attacker, !w.s[victim].die),
         entities := Without(w.entities, victim), miniMap := w.miniMap - {victim},
         events := w.events + [Damaged(victim, damage)] + KillEvents(sh, victim, attacker, !w.s[victim].die))
  }

  /** What one `applyDamage` does to its victim: the damage comes off the
      shield first and then off health, the victim keeps its position and
      velocity, and it is dead afterwards exactly when it was dead before
      or its health reached zero. Its `'damage'` event is the first new
      event, and nobody is listed anew. */
  lemma AfterDamageVictim(cfg: Config, w: World, victim: Id, attacker: Id, damage: real)
    requires Wf(w) && victim in w.s && attacker in w.s
    ensures var r := AfterDamage(cfg, w, victim, attacker, damage);
      var e := w.s[victim];
      r.s[victim].shield == Max(0.0, e.shield - damage)
      && r.s[victim].health == e.health - Max(0.0, damage - e.shield)
      && r.s[victim].motion == e.motion
      && (r.s[victim].die <==> e.die || e.health - Max(0.0, damage - e.shield) <= 0.0)
      && w.events + [Damaged(victim, damage)] <= r.events
      && (forall x :: x in r.entities ==> x in w.entities)
  {
    var sh := w.s[victim := Hurt(w.s[victim], damage)];
    SoundUpdate(w.s, victim, Hurt(w.s[victim], damage));
    KillStoreSpec(cfg, sh, victim, attacker, !w.s[victim].die);
  }

  /** `applyDamage` changes nobody but its victim except for the score the
      kill credits. */
  lemma AfterDamageOthers(cfg: Config, w: World, victim: Id, attacker: Id, damage: real)
    requires Wf(w) && victim in w.s && attacker in w.s
    ensures var r := AfterDamage(cfg, w, victim, attacker, damage);
      forall k :: k in w.s && k != victim ==> r.s[k] == WithScore(w.s[k], r.s[k].score)
  {
    var sh := w.s[victim := Hurt(w.s[victim], damage)];
    SoundUpdate(w.s, victim, Hurt(w.s[victim], damage));
    KillStoreSpec(cfg, sh, victim, attacker, !w.s[victim].die);
    CreditStoreSpec(cfg, sh, attacker, victim);
  }

  /** `applyDamage(victim, attacker, damage)`: absorb the damage and record
      the hit; a hit that leaves health above zero does nothing more. A
      fatal one is a kill of the hit victim, credited unless the victim was
      already dead, so that the removal comes last. Nobody is listed anew. */
  method ApplyDamage(cfg: Config, w: World, victim: Id, attacker: Id, damage: real) returns (w': World)
    requires Wf(w) && victim in w.s && attacker in w.s
    ensures w' == AfterDamage(cfg, w, victim, attacker, damage)
    ensures var sh := w.s[victim := Hurt(w.s[victim], damage)];
      var fatal := sh[victim].health <= 0.0;
      Ordered(sh)
      && w'.entities == (if fatal then Without(w.entities, victim) else w.entities)
      && w'.miniMap == (if fatal then w.miniMap - {victim} else w.miniMap)
      && w'.s == (if fatal then KillStore(cfg, sh, victim, attacker, !w.s[victim].die) else sh)
      && w'.events == w.events + [Damaged(victim, damage)]
           + (if fatal then KillEvents(sh, victim, attacker, !w.s[victim].die) else [])
  {
    var w1 := Hit(w, victim, damage);
    if w1.s[victim].health <= 0.0 {
      w' := Kill(cfg, w1, victim, attacker, !w.s[victim].die);
    } else {
      w' := w1;
    }
  }

  /** `doDamage(a, b, god)`: team-mates do nothing to each other. Otherwise
      `b` is hit with `a`'s damage first and then, unless `god`, `a` is hit
      with that same damage, its own, with `b` as the attacker, whether or
      not `b` survived. */
  method DoDamage(cfg: Config, w: World, a: Id, b: Id, god: bool) returns (w': World)
    requires Wf(w) && a in w.s && b in w.s
    ensures Wf(w') && w'.s.Keys == w.s.Keys && w'.index == w.index && w'.tick == w.tick && w'.walls == w.walls
    ensures IsSameTeam(w.s[a], w.s[b]) ==> w' == w
    ensures var d := w.s[a].setting.skill.damage * DamageMultiplier;
      var w1 := AfterDamage(cfg, w, b, a, d);
      !IsSameTeam(w.s[a], w.s[b]) ==> w' == (if god then w1 else AfterDamage(cfg, w1, a, b, d))
    ensures w.events <= w'.events
    ensures forall x :: x in w'.entities ==> x in w.entities
    ensures w'.s[a].motion == w.s[a].motion && w'.s[b].motion == w.s[b].motion
    ensures god ==> w'.s[a].health == w.s[a].health && w'.s[a].shield == w.s[a].shield
    ensures !IsSameTeam(w.s[a], w.s[b]) ==>
      w.events + [Damaged(b, w.s[a].setting.skill.damage * DamageMultiplier)] <= w'.events
  {
    if IsSameTeam(w.s[a], w.s[b]) {
      return w;
    }
    var damage := w.s[a].setting.skill.damage * DamageMultiplier;
    var w1 := ApplyDamage(cfg, w, b, a, damage);
    DoDamageHitsTarget(cfg, w, a, b, god);
    if !god {
      DoDamageHitsBack(cfg, w, a, b);
      w' := ApplyDamage(cfg, w1, a, b, damage);
    } else {
      w' := w1;
    }
  }

  /** The target of `doDamage` between two teams: `b` takes `a`'s damage
      against its shield and then its health, and is dead afterwards exactly
      when it was already or the hit took its health to zero; the return
      hit on `a` leaves all that alone. Nobody moves, `b`'s `'damage'`
      event comes first, and a god `a` keeps its health and shield. */
  lemma DoDamageHitsTarget(cfg: Config, w: World, a: Id, b: Id, god: bool)
    requires Wf(w) && a in w.s && b in w.s && !IsSameTeam(w.s[a], w.s[b])
    ensures var d := w.s[a].setting.skill.damage * DamageMultiplier;
      var w1 := AfterDamage(cfg, w, b, a, d);
      var r := if god then w1 else AfterDamage(cfg, w1, a, b, d);
      var eb := w.s[b];
      r.s[b].shield == Max(0.0, eb.shield - d)
      && r.s[b].health == eb.health - Max(0.0, d - eb.shield)
      && (r.s[b].die <==> eb.die || eb.health - Max(0.0, d - eb.shield) <= 0.0)
      && r.s[b].motion == eb.motion
      && (god ==> r.s[a].shield == w.s[a].shield && r.s[a].health == w.s[a].health && r.s[a].die == w.s[a].die)
      && w.events + [Damaged(b, d)] <= r.events
      && (forall x :: x in r.entities ==> x in w.entities)
  {
    SameTeamIff(w.s[a], w.s[b]);
    var d := w.s[a].setting.skill.damage * DamageMultiplier;
    AfterDamageVictim(cfg, w, b, a, d);
    AfterDamageOthers(cfg, w, b, a, d);
    var w1 := AfterDamage(cfg, w, b, a, d);
    if !god {
      AfterDamageVictim(cfg, w1, a, b, d);
      AfterDamageOthers(cfg, w1, a, b, d);
    }
  }

  /** The return hit of `doDamage` without `god`: `a` takes its own damage
      against its shield and then its health whether or not `b` survived,
      is dead afterwards exactly when it was already or the hit took its
      health to zero, does not move, and its `'damage'` event follows
      everything the first hit recorded. */
  lemma DoDamageHitsBack(cfg: Config, w: World, a: Id, b: Id)
    requires Wf(w) && a in w.s && b in w.s && !IsSameTeam(w.s[a], w.s[b])
    ensures var d := w.s[a].setting.skill.damage * DamageMultiplier;
      var w1 := AfterDamage(cfg, w, b, a, d);
      var r := AfterDamage(cfg, w1, a, b, d);
      var ea := w.s[a];
      r.s[a].shield == Max(0.0, ea.shield - d)
      && r.s[a].health == ea.health - Max(0.0, d - ea.shield)
      && (r.s[a].die <==> ea.die || ea.health - Max(0.0, d - ea.shield) <= 0.0)
      && r.s[a].motion == ea.motion
      && w1.events + [Damaged(a, d)] <= r.events
  {
    SameTeamIff(w.s[a], w.s[b]);
    var d := w.s[a].setting.skill.damage * DamageMultiplier;
    AfterDamageOthers(cfg, w, b, a, d);
    var w1 := AfterDamage(cfg, w, b, a, d);
    AfterDamageVictim(cfg, w1, a, b, d);
  }

  // ---------------------------------------------------------------------
  // Collisions

  /** The half-width of the square a fixed entity keeps movers out of. */
  function WallReach(wall: Entity): real {
    Size(wall) * WallBoundaryMultiplier + WallBoundaryPadding
  }

  function Abs(x: real): real {
    if x < 0.0 then -x else x
  }

  /** `resolveWallCollision`: the mover is pushed out along the axis on
      which it is farther from the wall's centre, to the wall's edge on its
      own side; the other coordinate is untouched. */
  function ResolveWall(pos: Vector, wall: Vector, reach: real): (p: Vector)
    ensures Abs(pos.x - wall.x) < Abs(pos.y - wall.y) ==>
      p.x == pos.x && p.y == (if pos.y < wall.y then wall.y - reach else wall.y + reach)
    ensures Abs(pos.x - wall.x) >= Abs(pos.y - wall.y) ==>
      p.y == pos.y && p.x == (if pos.x < wall.x then wall.x - reach else wall.x + reach)
  {
    if Abs(pos.x - wall.x) < Abs(pos.y - wall.y) then
      Vector(pos.x, if pos.y < wall.y then wall.y - reach else wall.y + reach)
    else
      Vector(if pos.x < wall.x then wall.x - reach else wall.x + reach, pos.y)
  }

  /** For a mover strictly inside the wall's reach, the push moves it onto
      the boundary of the square: exactly one coordinate ends at distance
      `reach` from the wall's centre, on the mover's side. */
  lemma ResolveWallOntoBoundary(pos: Vector, wall: Vector, reach: real)
    requires reach > 0.0
    ensures var p := ResolveWall(pos, wall, reach);
      (p.x == pos.x && Abs(p.y - wall.y) == reach && (pos.y < wall.y <==> p.y < wall.y))
      || (p.y == pos.y && Abs(p.x - wall.x) == reach && (pos.x < wall.x <==> p.x < wall.x))
  {
  }

  /** `handleFixedCollision(a, b)`: the fixed side is the wall. Nothing
      happens when both are fixed or the mover flies; a bullet mover dies
      without dealing or taking damage; any other mover takes the wall's
      damage (the wall takes none) and is pushed out of the wall. */
  method HandleFixed(cfg: Config, w: World, a: Id, b: Id) returns (w': World)
    requires Wf(w) && a in w.s && b in w.s
    ensures Wf(w') && w'.s.Keys == w.s.Keys && w'.index == w.index && w'.tick == w.tick && w'.walls == w.walls
    ensures w.events <= w'.events
    ensures forall x :: x in w'.entities ==> x in w.entities
    ensures var (wall, mover) := if w.s[b].setting.isFixed then (b, a) else (a, b);
      var skip := w.s[mover].setting.isFixed || w.s[mover].setting.airplane;
      (wall != mover ==>
        w'.s[wall].health == w.s[wall].health && w'.s[wall].shield == w.s[wall].shield
        && w'.s[wall].pos == w.s[wall].pos)
      && (skip ==>
        w'.s == w.s && w'.entities == w.entities && w'.miniMap == w.miniMap && w'.events == w.events)
      && (!skip && w.s[mover].setting.bullet ==>
        w'.s == w.s[mover := Destroyed(w.s[mover])]
        && w'.entities == Without(w.entities, mover) && w'.miniMap == w.miniMap - {mover}
        && w'.events == w.events + [Dead(mover, None), Removed(mover)])
      && (!skip && !w.s[mover].setting.bullet && wall != mover ==>
        (!IsSameTeam(w.s[wall], w.s[mover]) ==> w.events + [Damaged(mover, w.s[wall].setting.skill.damage * DamageMultiplier)] <= w'.events)
        && w'.s[mover].pos == ResolveWall(w.s[mover].pos, w.s[wall].pos, WallReach(w.s[wall])))
  {
    var (wall, mover) := if w.s[b].setting.isFixed then (b, a) else (a, b);
    var m := w.s[mover];
    if m.setting.isFixed || m.setting.airplane {
      w' := w;
    } else if m.setting.bullet {
      w' := Remove(w.(events := w.events + [Dead(mover, None)]), mover);
    } else {
      var pos := w.s[wall].pos;
      var reach := WallReach(w.s[wall]);
      var w1 := DoDamage(cfg, w, wall, mover, true);
      w' := Put(w1, mover, w1.s[mover].(motion := w1.s[mover].motion.(pos := ResolveWall(w1.s[mover].pos, pos, reach))));
    }
  }

  /** The positions and velocities a bounce leaves to both entities: the
      elastic resolution, whose floating-point arithmetic is not modelled. */
  datatype Rebound = Rebound(pos: Vector, vel: Vector)

  type Bounce = (Entity, Entity) -> (Rebound, Rebound)

  /** `handleDynamicCollision(a, b)`: entities farther apart than their
      sizes together do nothing; otherwise both are hit and, unless one
      flies, they bounce. A flying entity keeps its course. */
  method HandleDynamic(cfg: Config, m: MathLib, bounce: Bounce, w: World, a: Id, b: Id) returns (w': World)
    requires Wf(w) && a in w.s && b in w.s
    ensures Wf(w') && w'.s.Keys == w.s.Keys && w'.index == w.index && w'.tick == w.tick && w'.walls == w.walls
    ensures w.events <= w'.events
    ensures forall x :: x in w'.entities ==> x in w.entities
    ensures Size(w.s[a]) + Size(w.s[b]) < Distance(m, w.s[a].pos, w.s[b].pos) ==>
      w'.s == w.s && w'.entities == w.entities && w'.miniMap == w.miniMap && w'.events == w.events
    ensures Size(w.s[a]) + Size(w.s[b]) >= Distance(m, w.s[a].pos, w.s[b].pos) && !IsSameTeam(w.s[a], w.s[b]) ==>
      w.events + [Damaged(b, w.s[a].setting.skill.damage * DamageMultiplier)] <= w'.events
    ensures w.s[a].setting.airplane || w.s[b].setting.airplane ==>
      w'.s[a].motion == w.s[a].motion && w'.s[b].motion == w.s[b].motion
  {
    if Size(w.s[a]) + Size(w.s[b]) < Distance(m, w.s[a].pos, w.s[b].pos) {
      return w;
    }
    var w1 := DoDamage(cfg, w, a, b, false);
    if w.s[a].setting.airplane || w.s[b].setting.airplane {
      w' := w1;
    } else {
      var (ma, mb) := bounce(w1.s[a], w1.s[b]);
      var w2 := Put(w1, a, w1.s[a].(motion := w1.s[a].motion.(pos := ma.pos, vel := ma.vel)));
      w' := Put(w2, b, w2.s[b].(motion := w2.s[b].motion.(pos := mb.pos, vel := mb.vel)));
    }
  }

  /** `handleCustomHitTypes(a, b)`: the entity whose hit type is not
      `'auto'` goes first; a `'none'` on either side ends it; each side
      with a callback runs it (recorded as an effect). */
  function HandleCustom(w: World, a: Id, b: Id): (w': World)
    requires a in w.s && b in w.s
    ensures w' == w.(events := w'.events) && w.events <= w'.events
    ensures w.s[a].setting.hitType.HitNone? || w.s[b].setting.hitType.HitNone? ==> w' == w
    ensures !w.s[a].setting.hitType.HitNone? && !w.s[b].setting.hitType.HitNone? ==>
      |w'.events| - |w.events| == (if w.s[a].setting.hitType.HitFn? then 1 else 0) + (if w.s[b].setting.hitType.HitFn? then 1 else 0)
  {
    var (x, y) := if !w.s[b].setting.hitType.HitAuto? then (b, a) else (a, b);
    var hx := w.s[x].setting.hitType;
    var hy := w.s[y].setting.hitType;
    if hx.HitNone? || hy.HitNone? then w
    else
      var e1 := if hx.HitFn? then [HitCallback(hx.fn, x, y)] else [];
      var e2 := if hy.HitFn? then [HitCallback(hy.fn, y, x)] else [];
      w.(events := w.events + e1 + e2)
  }

  /** The `on.collision` hooks of both sides, `a`'s first. */
  function CollisionHooks(w: World, a: Id, b: Id): (es: seq<Event>)
    requires a in w.s && b in w.s
    ensures |es| == (if w.s[a].setting.onCollision.Some? then 1 else 0) + (if w.s[b].setting.onCollision.Some? then 1 else 0)
    ensures forall k :: 0 <= k < |es| ==> es[k].CollisionCallback?
  {
    (if w.s[a].setting.onCollision.Some? then [CollisionCallback(w.s[a].setting.onCollision.value, a, b)] else [])
    + (if w.s[b].setting.onCollision.Some? then [CollisionCallback(w.s[b].setting.onCollision.value, b, a)] else [])
  }

  /** `handleCollision(a, b)`: the `on.collision` hooks of both, then the
      custom hit types when either side is not `'auto'` (which never hurt
      or move anybody), else the fixed rules when either side is fixed,
      else the dynamic ones. */
  method HandleCollision(cfg: Config, m: MathLib, bounce: Bounce, w: World, a: Id, b: Id) returns (w': World)
    requires Wf(w) && a in w.s && b in w.s
    ensures Wf(w') && w'.s.Keys == w.s.Keys && w'.index == w.index && w'.tick == w.tick && w'.walls == w.walls
    ensures w.events + CollisionHooks(w, a, b) <= w'.events
    ensures forall x :: x in w'.entities ==> x in w.entities
    ensures !w.s[a].setting.hitType.HitAuto? || !w.s[b].setting.hitType.HitAuto? ==>
      w'.s == w.s && w'.entities == w.entities && w'.miniMap == w.miniMap
  {
    var w1 := w.(events := w.events + CollisionHooks(w, a, b));
    if !w.s[a].setting.hitType.HitAuto? || !w.s[b].setting.hitType.HitAuto? {
      w' := HandleCustom(w1, a, b);
    } else if w.s[a].setting.isFixed || w.s[b].setting.isFixed {
      w' := HandleFixed(cfg, w1, a, b);
    } else {
      w' := HandleDynamic(cfg, m, bounce, w1, a, b);
    }
  }

  /** The collision phase: every reported pair in order. The pairs are
      computed before any of them is handled, so an entity removed by one
      pair can still be hit by a later one. */
  method Collide(cfg: Config, m: MathLib, bounce: Bounce, w: World, pairs: seq<(Id, Id)>) returns (w': World)
    requires Wf(w) && forall p :: p in pairs ==> p.0 in w.s && p.1 in w.s
    ensures Wf(w') && w'.s.Keys == w.s.Keys && w'.index == w.index && w'.tick == w.tick && w'.walls == w.walls
    ensures w.events <= w'.events
    ensures forall x :: x in w'.entities ==> x in w.entities
  {
    w' := w;
    for i := 0 to |pairs|
      invariant Wf(w') && w'.s.Keys == w.s.Keys && w'.index == w.index && w'.tick == w.tick && w'.walls == w.walls
      invariant w.events <= w'.events
      invariant forall x :: x in w'.entities ==> x in w.entities
    {
      assert pairs[i] in pairs;
      w' := HandleCollision(cfg, m, bounce, w', pairs[i].0, pairs[i].1);
    }
  }

  // ---------------------------------------------------------------------
  // Entity.update and World.update

  /** The controller loop of `Entity.update`: every controller thinks in
      turn, and the ones that do not defer merge their intent. `draw(i)` is
      the `Math.random()` the i-th controller may read. */
  function ThinkAll(c: Controllers.Context, ctls: seq<Controller>, control: Control, draw: nat -> real, i: nat): (r: (seq<Controller>, Control))
    requires Controllers.ValidContext(c) && i <= |ctls|
    requires c.s[c.self].master.Some? ==> c.s[c.self].master.value in c.s
    requires TopMaster(c.s, c.self).Some?
    requires forall k :: 0 <= k < |ctls| ==> BrainIn(c.s.Keys, ctls[k].brain)
    ensures |r.0| == |ctls| && forall k :: 0 <= k < |r.0| ==> BrainIn(c.s.Keys, r.0[k].brain)
    ensures forall k :: 0 <= k < i ==> r.0[k] == ctls[k]
    decreases |ctls| - i
  {
    if i == |ctls| then (ctls, control)
    else
      var (ctl', think) := Controllers.ThinkOnce(c, ctls[i], draw(i));
      ThinkAll(c, ctls[i := ctl'], Merge(control, ctl'.acceptsFromTop, think), draw, i + 1)
  }

  /** Every step of `Entity.update` after the master check: level-up,
      regeneration, the controllers, motion. */
  function Step(m: MathLib, c: Controllers.Context, e: Entity, draw: nat -> real): (r: Entity)
    requires Controllers.ValidContext(c) && e == c.s[c.self]
    requires e.master.Some? ==> e.master.value in c.s
    requires TopMaster(c.s, c.self).Some?
    requires ControllersIn(c.s.Keys, e)
    ensures r.master == e.master && r.setting == e.setting && r.tick == e.tick && r.die == e.die
    ensures ControllersIn(c.s.Keys, r) && |r.controllers| == |e.controllers|
    ensures r.level == LevelUp(e).level && r.health == Regenerate(LevelUp(e)).health
  {
    var e1 := Regenerate(LevelUp(e));
    var (ctls, control) := ThinkAll(c, e1.controllers, e1.control, draw, 0);
    Move(m, e1.(mind := e1.mind.(controllers := ctls, control := control)))
  }

  /** The entity with its tick counted. */
  function Ticked(e: Entity): Entity {
    e.(vitals := e.vitals.(tick := e.tick + 1))
  }

  /** A dependent entity whose master is dead. */
  predicate Orphan(s: Store, e: Entity) {
    !e.setting.independent && e.master.Some? && e.master.value in s && s[e.master.value].die
  }

  /** The step branch of `entity.update()`: only `id` changes, keeping its
      setting, master, tick and death flag, and it levels and regenerates. */
  method StepEntity(m: MathLib, w: World, id: Id, draw: nat -> real) returns (w': World)
    requires Wf(w) && id in w.s
    ensures Wf(w') && id in w'.s && w'.s == w.s[id := w'.s[id]]
    ensures w'.index == w.index && w'.tick == w.tick && w'.walls == w.walls
    ensures w'.entities == w.entities && w'.miniMap == w.miniMap && w'.events == w.events
    ensures w'.s[id].setting == w.s[id].setting && w'.s[id].tick == w.s[id].tick
    ensures w'.s[id].level == LevelUp(w.s[id]).level
    ensures w'.s[id].health == Regenerate(LevelUp(w.s[id])).health
  {
    OrderedTopMaster(w.s, id);
    var c := Controllers.Context(m, w.s, id, w.entities);
    w' := Put(w, id, Step(m, c, w.s[id], draw));
  }

  /** `entity.update()`: count the tick; a dependent entity whose master is
      dead is removed at once, before it levels, regenerates or moves;
      otherwise it steps. Nobody else changes. */
  method UpdateEntity(m: MathLib, w: World, id: Id, draw: nat -> real) returns (w': World)
    requires Wf(w) && id in w.s
    ensures Wf(w') && w'.s.Keys == w.s.Keys && w'.index == w.index && w'.tick == w.tick && w'.walls == w.walls
    ensures forall x :: x in w.s && x != id ==> w'.s[x] == w.s[x]
    ensures w'.s[id].setting == w.s[id].setting && w'.s[id].tick == w.s[id].tick + 1
    ensures Orphan(w.s, w.s[id]) ==>
      w'.s[id] == Destroyed(Ticked(w.s[id]))
      && w'.entities == Without(w.entities, id) && w'.miniMap == w.miniMap - {id}
      && w'.events == w.events + [Removed(id)]
    ensures !Orphan(w.s, w.s[id]) ==>
      w'.entities == w.entities && w'.miniMap == w.miniMap && w'.events == w.events
      && w'.s[id].level == LevelUp(w.s[id]).level
      && w'.s[id].health == Regenerate(LevelUp(Ticked(w.s[id]))).health
  {
    var e := Ticked(w.s[id]);
    var w1 := Put(w, id, e);
    if !e.setting.independent && e.master.Some? && w1.s[e.master.value].die {
      assert e.master.value != id;
      w' := Remove(w1, id);
    } else {
      w' := StepEntity(m, w1, id, draw);
    }
  }

  /** After `entity.update()` and `physics`: the velocity is the room's
      physics applied to the entity's motion, and the mini-map holds the
      entity exactly when its type is not `'none'`, even when it was just
      removed. */
  method AfterUpdate(cfg: Config, w: World, id: Id) returns (w': World)
    requires Wf(w) && id in w.s
    ensures Wf(w') && w'.s.Keys == w.s.Keys && w'.index == w.index && w'.tick == w.tick
    ensures w'.entities == w.entities && w'.events == w.events
    ensures id in w'.miniMap <==> !w.s[id].setting.miniMapType.MapNone?
    ensures forall x :: x != id ==> (x in w'.miniMap <==> x in w.miniMap)
    ensures forall x :: x in w.s && x != id ==> w'.s[x] == w.s[x]
    ensures var e := w.s[id];
      w'.s[id] == e.(motion := e.motion.(vel := RoomConfig.Physics(e.pos, e.vel, e.setting.airplane, e.setting.food, cfg.width, cfg.height)))
  {
    var e := w.s[id];
    var w1 := Put(w, id, e.(motion := e.motion.(vel := RoomConfig.Physics(e.pos, e.vel, e.setting.airplane, e.setting.food, cfg.width, cfg.height))));
    if e.setting.miniMapType.MapNone? {
      w' := w1.(miniMap := w1.miniMap - {id});
    } else {
      w' := w1.(miniMap := w1.miniMap + {id});
    }
  }

  /** One entity's turn in the entity phase: `update()` then the physics
      and mini-map bookkeeping. Mini-map types never change, and only `id`'s
      place on the mini-map is decided. */
  method UpdateOne(cfg: Config, m: MathLib, w: World, id: Id, draw: nat -> real) returns (w': World)
    requires Wf(w) && id in w.s
    ensures Wf(w') && w'.s.Keys == w.s.Keys && w'.index == w.index && w'.tick == w.tick
    ensures forall x :: x in w.s ==> w'.s[x].setting.miniMapType == w.s[x].setting.miniMapType
    ensures id in w'.miniMap <==> !w.s[id].setting.miniMapType.MapNone?
    ensures forall x :: x != id ==> (x in w'.miniMap <==> x in w.miniMap)
  {
    var w1 := UpdateEntity(m, w, id, draw);
    w' := AfterUpdate(cfg, w1, id);
  }

  /** The entity phase, over the entities listed when it began. Afterwards
      every one of them is on the mini-map exactly when its type is not
      `'none'`. */
  method UpdateAll(cfg: Config, m: MathLib, w: World, ids: seq<Id>, draw: nat -> nat -> real) returns (w': World)
    requires Wf(w) && forall x :: x in ids ==> x in w.s
    ensures Wf(w') && w'.s.Keys == w.s.Keys && w'.index == w.index && w'.tick == w.tick
    ensures forall x :: x in w.s ==> w'.s[x].setting.miniMapType == w.s[x].setting.miniMapType
    ensures forall x :: x in ids ==> (x in w'.miniMap <==> !w.s[x].setting.miniMapType.MapNone?)
    ensures forall x :: x !in ids ==> (x in w'.miniMap <==> x in w.miniMap)
    decreases |ids|
  {
    if ids == [] {
      return w;
    }
    var w1 := UpdateOne(cfg, m, w, ids[0], draw(ids[0]));
    w' := UpdateAll(cfg, m, w1, ids[1..], draw);
    assert forall x :: x in ids <==> x == ids[0] || x in ids[1..];
  }

  /** `World.update()`: count the tick, handle the collision pairs the hash
      grid reports, then update every entity still listed. */
  method Update(cfg: Config, m: MathLib, bounce: Bounce, w: World, pairs: seq<(Id, Id)>, draw: nat -> nat -> real) returns (w': World)
    requires Wf(w) && forall p :: p in pairs ==> p.0 in w.s && p.1 in w.s
    ensures Wf(w') && w'.tick == w.tick + 1 && w'.index == w.index && w'.s.Keys == w.s.Keys
  {
    var w0 := w.(tick := w.tick + 1);
    var w1 := Collide(cfg, m, bounce, w0, pairs);
    w' := UpdateAll(cfg, m, w1, w1.entities, draw);
  }
}
