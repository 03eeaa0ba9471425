/** The two intervals of src/network/socket.ts that push the room to the
    players: every tick, a frame of messages for each open session (its
    own body, its upgrades and info when they changed, its stats, the
    minimap, and every entity it can see), after which the change flags
    of what was sent are cleared; and every second, the leaderboard.
    What `EntityInfo`, `EntityUpgrade` and an entity's paint write is
    taken as given, by id. */
module Broadcasts {
  import opened Wrappers
  import opened Vec
  import opened Bytes
  import opened Protocol
  import opened Entities
  import opened Messages
  import opened ServerMessages
  import Leaderboards

  // ---------------------------------------------------------------------
  // Numbers as writeBigUint and writeUint store them

  /** `setUint32` of a number: truncated toward zero, then taken modulo 2³². */
  function ToUint32(x: real): (n: int)
    ensures 0 <= n < TwoTo32
    ensures 0.0 <= x < TwoTo32 as real ==> n == x.Floor
  {
    var t := if x >= 0.0 then x.Floor else -((-x).Floor);
    t % TwoTo32
  }

  /** On a whole number the truncation is the identity, so writing it as
      a number or as an integer stores the same four bytes. */
  lemma ToUint32Whole(k: int)
    ensures ToUint32(k as real) == k % TwoTo32
    ensures U32(ToUint32(k as real)) == U32(k)
  {
    assert (k as real).Floor == k;
    assert (-(k as real)).Floor == -k;
    assert ToUint32(k as real) % TwoTo32 == k % TwoTo32;
  }

  // ---------------------------------------------------------------------
  // The room as the tick reads it

  /** `idToEntity`, the order of `room.entities` and `room.miniMap`, the
      math library of the distance, the minimap predicates by name, the
      float codec of `writeFloat`, what `EntityInfo` and `EntityUpgrade`
      write for each id, each entity's paint and, when its `sides` is a
      number, that number (else 0), and the index of `Color.Black`. */
  datatype Scene = Scene(
    store: Store, entities: seq<Id>, miniMap: seq<Id>,
    math: MathLib, shows: string -> (Entity, Entity) -> bool, codec: FloatCodec,
    info: Id -> EntityInfoWire, upgrades: Id -> seq<UpgradeWire>,
    paint: Id -> Paint, sides: Id -> int, black: int)

  /** The lists of the room hold entities of the store. */
  predicate Closed(s: Scene) {
    (forall i :: 0 <= i < |s.entities| ==> s.entities[i] in s.store) &&
    (forall i :: 0 <= i < |s.miniMap| ==> s.miniMap[i] in s.store)
  }

  /** `EntityData(entity)`: the id, health, shield, angle, position,
      score, size and the ticks since the entity was last attacked. */
  function DataOf(s: Scene, id: Id): (d: EntityDataWire)
    requires id in s.store
    ensures EntityDataOk(d)
    ensures d.score == ToUint32(s.store[id].score)
  {
    var e := s.store[id];
    var age := if e.tick - e.lastTickAttacked > 0 then e.tick - e.lastTickAttacked else 0;
    EntityDataWire(
      id % TwoTo32, s.codec.encode(e.health), s.codec.encode(e.shield), s.codec.encode(e.angle),
      s.codec.encode(e.pos.x), s.codec.encode(e.pos.y), ToUint32(e.score),
      s.codec.encode(Size(e)), age % TwoTo32)
  }

  // ---------------------------------------------------------------------
  // The entities a player sees

  /** The others a player sees, in the order of `room.entities`. */
  function Seen(s: Scene, self: Id, ids: seq<Id>): (r: seq<Id>)
    requires self in s.store && forall i :: 0 <= i < |ids| ==> ids[i] in s.store
    ensures forall x :: x in r ==> x in s.store
    decreases |ids|
  {
    if |ids| == 0 then []
    else if ids[0] != self && IsEntityVisible(s.math, s.store[self], s.store[ids[0]]) then
      [ids[0]] + Seen(s, self, ids[1..])
    else Seen(s, self, ids[1..])
  }

  /** An entity is seen exactly when it is in the room, is not the player,
      and lies within the player's field of view. */
  lemma {:induction false} SeenSpec(s: Scene, self: Id, ids: seq<Id>, x: Id)
    requires self in s.store && forall i :: 0 <= i < |ids| ==> ids[i] in s.store
    ensures x in Seen(s, self, ids) <==>
      x in ids && x != self && IsEntityVisible(s.math, s.store[self], s.store[x])
    decreases |ids|
  {
    if |ids| > 0 {
      SeenSpec(s, self, ids[1..], x);
      assert x in ids <==> x == ids[0] || x in ids[1..];
    }
  }

  /** What one seen entity costs: its data, and its info when it changed. */
  function Shown(s: Scene, x: Id): (ms: seq<ServerMessage>)
    requires x in s.store
  {
    [OtherData(DataOf(s, x))] + (if s.store[x].changed then [Info(s.info(x))] else [])
  }

  function ShownAll(s: Scene, xs: seq<Id>): seq<ServerMessage>
    requires forall x :: x in xs ==> x in s.store
    decreases |xs|
  {
    if |xs| == 0 then [] else Shown(s, xs[0]) + ShownAll(s, xs[1..])
  }

  /** The loop over `room.entities` of one session's frame. */
  function Others(s: Scene, self: Id, ids: seq<Id>): (ms: seq<ServerMessage>)
    requires self in s.store && forall i :: 0 <= i < |ids| ==> ids[i] in s.store
    ensures forall k :: 0 <= k < |ms| ==> ms[k].OtherData? || ms[k].Info?
    decreases |ids|
  {
    if |ids| == 0 then []
    else
      var rest := Others(s, self, ids[1..]);
      if ids[0] == self || !IsEntityVisible(s.math, s.store[self], s.store[ids[0]]) then rest
      else
        var x := ids[0];
        [OtherData(DataOf(s, x))] + (if s.store[x].changed then [Info(s.info(x))] else []) + rest
  }

  /** The loop sends, in room order, each seen entity's data followed by
      its info when it changed, and nothing about anyone else. */
  lemma {:induction false} OthersShowSeen(s: Scene, self: Id, ids: seq<Id>)
    requires self in s.store && forall i :: 0 <= i < |ids| ==> ids[i] in s.store
    ensures Others(s, self, ids) == ShownAll(s, Seen(s, self, ids))
    decreases |ids|
  {
    if |ids| > 0 {
      OthersShowSeen(s, self, ids[1..]);
      var x := ids[0];
      if x != self && IsEntityVisible(s.math, s.store[self], s.store[x]) {
        var seen := Seen(s, self, ids[1..]);
        assert Seen(s, self, ids) == [x] + seen;
        assert ([x] + seen)[1..] == seen;
        assert ShownAll(s, [x] + seen) == Shown(s, x) + ShownAll(s, seen);
      }
    }
  }

  // ---------------------------------------------------------------------
  // The minimap

  /** Whether an entity of `room.miniMap` is drawn on this player's map:
      never, always, for the same team, or as its predicate says. */
  predicate OnMap(s: Scene, self: Id, x: Id)
    requires self in s.store && x in s.store
  {
    match s.store[x].setting.miniMapType
    case MapNone => false
    case MapAlways => true
    case MapTeam => IsSameTeam(s.store[x], s.store[self])
    case MapFn(f) => s.shows(f)(s.store[x], s.store[self])
  }

  /** The entries drawn, in the order of `room.miniMap`. */
  function Mapped(s: Scene, self: Id, ids: seq<Id>): (r: seq<Id>)
    requires self in s.store && forall i :: 0 <= i < |ids| ==> ids[i] in s.store
    ensures forall x :: x in r ==> x in s.store
    decreases |ids|
  {
    if |ids| == 0 then []
    else if OnMap(s, self, ids[0]) then [ids[0]] + Mapped(s, self, ids[1..])
    else Mapped(s, self, ids[1..])
  }

  lemma {:induction false} MappedSpec(s: Scene, self: Id, ids: seq<Id>, x: Id)
    requires self in s.store && forall i :: 0 <= i < |ids| ==> ids[i] in s.store
    ensures x in Mapped(s, self, ids) <==> x in ids && OnMap(s, self, x)
    decreases |ids|
  {
    if |ids| > 0 {
      MappedSpec(s, self, ids[1..], x);
      assert x in ids <==> x == ids[0] || x in ids[1..];
    }
  }

  /** One minimap entry: position, team, paint (black for the player
      itself) and, for a fixed entity, its size and sides. */
  function MarkOf(s: Scene, self: Id, x: Id): (m: MinimapWire)
    requires x in s.store
    ensures x == self ==> m.color == Indexed(s.black)
    ensures m.fixed.Some? <==> s.store[x].setting.isFixed
  {
    var e := s.store[x];
    MinimapWire(
      s.codec.encode(e.pos.x), s.codec.encode(e.pos.y), e.team % TwoTo16,
      if x == self then Indexed(s.black) else s.paint(x),
      if e.setting.isFixed then Some(FixedMark(s.codec.encode(Size(e)), s.sides(x))) else None)
  }

  /** The filter and the writes of the minimap loop, in one pass. */
  function Marks(s: Scene, self: Id, ids: seq<Id>): (ms: seq<MinimapWire>)
    requires self in s.store && forall i :: 0 <= i < |ids| ==> ids[i] in s.store
    decreases |ids|
  {
    if |ids| == 0 then []
    else if OnMap(s, self, ids[0]) then [MarkOf(s, self, ids[0])] + Marks(s, self, ids[1..])
    else Marks(s, self, ids[1..])
  }

  /** The k-th entry is the k-th entity the filter keeps. */
  lemma {:induction false} MarksSpec(s: Scene, self: Id, ids: seq<Id>)
    requires self in s.store && forall i :: 0 <= i < |ids| ==> ids[i] in s.store
    ensures |Marks(s, self, ids)| == |Mapped(s, self, ids)|
    ensures forall k :: 0 <= k < |Marks(s, self, ids)| ==>
      Marks(s, self, ids)[k] == MarkOf(s, self, Mapped(s, self, ids)[k])
    decreases |ids|
  {
    if |ids| > 0 {
      MarksSpec(s, self, ids[1..]);
    }
  }

  // ---------------------------------------------------------------------
  // One session's frame

  function UpgradePart(s: Scene, self: Id, added: bool): seq<ServerMessage> {
    if added then [Upgrades(s.upgrades(self))] else []
  }

  function InfoPart(s: Scene, self: Id): seq<ServerMessage>
    requires self in s.store
  {
    if s.store[self].changed then [Info(s.info(self))] else []
  }

  /** Message 6, with the level and level score as `writeUint` and
      `writeBigUint` store them. */
  function StatsPart(s: Scene, self: Id): seq<ServerMessage>
    requires self in s.store
  {
    var e := s.store[self];
    if e.tick % 20 == 0 then [Stats(ToUint32(e.score), e.level % TwoTo16, e.levelScore % TwoTo32)] else []
  }

  function MapPart(s: Scene, self: Id): seq<ServerMessage>
    requires Closed(s) && self in s.store
  {
    if s.store[self].tick % 10 == 0 then [Minimap(Marks(s, self, s.miniMap))] else []
  }

  /** The messages one open session receives in a tick. `added` is the
      body's `upgradeAdded` flag when its turn comes. */
  function Frame(s: Scene, self: Id, added: bool): (ms: seq<ServerMessage>)
    requires Closed(s) && self in s.store
  {
    [SelfData(DataOf(s, self))] + UpgradePart(s, self, added) + InfoPart(s, self)
    + StatsPart(s, self) + MapPart(s, self) + Others(s, self, s.entities)
  }

  /** Some message of `ms` is of the kind `p` picks. */
  predicate Any(ms: seq<ServerMessage>, p: ServerMessage -> bool) {
    exists k :: 0 <= k < |ms| && p(ms[k])
  }

  lemma AnyConcat(a: seq<ServerMessage>, b: seq<ServerMessage>, p: ServerMessage -> bool)
    ensures Any(a + b, p) <==> Any(a, p) || Any(b, p)
  {
    if Any(a + b, p) {
      var k :| 0 <= k < |a + b| && p((a + b)[k]);
      if k >= |a| {
        assert b[k - |a|] == (a + b)[k];
      }
    }
    if Any(b, p) {
      var k :| 0 <= k < |b| && p(b[k]);
      assert (a + b)[k + |a|] == b[k];
    }
    if Any(a, p) {
      var k :| 0 <= k < |a| && p(a[k]);
      assert (a + b)[k] == a[k];
    }
  }

  lemma AnyFrame(s: Scene, self: Id, added: bool, p: ServerMessage -> bool)
    requires Closed(s) && self in s.store
    ensures Any(Frame(s, self, added), p) <==>
      p(SelfData(DataOf(s, self))) || Any(UpgradePart(s, self, added), p) || Any(InfoPart(s, self), p) ||
      Any(StatsPart(s, self), p) || Any(MapPart(s, self), p) || Any(Others(s, self, s.entities), p)
  {
    var a := [SelfData(DataOf(s, self))];
    var b := a + UpgradePart(s, self, added);
    var c := b + InfoPart(s, self);
    var d := c + StatsPart(s, self);
    var e := d + MapPart(s, self);
    AnyConcat(e, Others(s, self, s.entities), p);
    AnyConcat(d, MapPart(s, self), p);
    AnyConcat(c, StatsPart(s, self), p);
    AnyConcat(b, InfoPart(s, self), p);
    AnyConcat(a, UpgradePart(s, self, added), p);
    assert Any(a, p) <==> p(a[0]);
  }

  predicate IsUpgrades(m: ServerMessage) { m.Upgrades? }
  predicate IsStats(m: ServerMessage) { m.Stats? }
  predicate IsMinimap(m: ServerMessage) { m.Minimap? }

  lemma OthersNot(s: Scene, self: Id, p: ServerMessage -> bool)
    requires Closed(s) && self in s.store && p in {IsUpgrades, IsStats, IsMinimap}
    ensures !Any(Others(s, self, s.entities), p)
  {
  }

  /** The frame opens with the player's own data; the upgrade list comes
      only when one was added, the stats every 20 ticks of the body, the
      minimap every 10. */
  lemma FrameSpec(s: Scene, self: Id, added: bool)
    requires Closed(s) && self in s.store
    ensures Frame(s, self, added)[0] == SelfData(DataOf(s, self))
    ensures Any(Frame(s, self, added), IsUpgrades) <==> added
    ensures Any(Frame(s, self, added), IsStats) <==> s.store[self].tick % 20 == 0
    ensures Any(Frame(s, self, added), IsMinimap) <==> s.store[self].tick % 10 == 0
  {
    AnyFrame(s, self, added, IsUpgrades);
    AnyFrame(s, self, added, IsStats);
    AnyFrame(s, self, added, IsMinimap);
    OthersNot(s, self, IsUpgrades);
    OthersNot(s, self, IsStats);
    OthersNot(s, self, IsMinimap);
    assert Any(UpgradePart(s, self, added), IsUpgrades) <==> added by {
      if added { assert IsUpgrades(UpgradePart(s, self, added)[0]); }
    }
    assert Any(StatsPart(s, self), IsStats) <==> s.store[self].tick % 20 == 0 by {
      if s.store[self].tick % 20 == 0 { assert IsStats(StatsPart(s, self)[0]); }
    }
    assert Any(MapPart(s, self), IsMinimap) <==> s.store[self].tick % 10 == 0 by {
      if s.store[self].tick % 10 == 0 { assert IsMinimap(MapPart(s, self)[0]); }
    }
  }

  // ---------------------------------------------------------------------
  // The tick over every session

  /** For each turn so far, the `upgradeAdded` flag its frame read; the
      bodies whose flag was cleared; and the `changed` set of the tick. */
  datatype Pass = Pass(added: seq<bool>, cleared: set<Id>, changed: set<Id>)

  predicate Bodies(s: Scene, selves: seq<Id>) {
    forall i :: 0 <= i < |selves| ==> selves[i] in s.store
  }

  /** The changed entities whose info a session's frame carries. */
  function ChangedSeen(s: Scene, self: Id): (c: set<Id>)
    requires Closed(s) && self in s.store
  {
    set x | x in Seen(s, self, s.entities) && s.store[x].changed
  }

  /** The loop over the open sessions, whose bodies are `selves` in the
      order of `users`. A body's `upgradeAdded` is cleared as its frame is
      sent; the `changed` flags are only collected. */
  function Tick(s: Scene, selves: seq<Id>): (p: Pass)
    requires Closed(s) && Bodies(s, selves)
    ensures |p.added| == |selves|
    decreases |selves|
  {
    if |selves| == 0 then Pass([], {}, {})
    else
      var prev := Tick(s, selves[..|selves| - 1]);
      var self := selves[|selves| - 1];
      var e := s.store[self];
      var added := e.upgradeAdded && self !in prev.cleared;
      Pass(prev.added + [added],
           prev.cleared + (if added then {self} else {}),
           prev.changed + (if e.changed then {self} else {}) + ChangedSeen(s, self))
  }

  /** The frames the loop sends, one per session, in order. */
  function Frames(s: Scene, selves: seq<Id>): (fs: seq<seq<ServerMessage>>)
    requires Closed(s) && Bodies(s, selves)
    ensures |fs| == |selves|
  {
    var p := Tick(s, selves);
    seq(|selves|, i requires 0 <= i < |selves| => Frame(s, selves[i], p.added[i]))
  }

  /** The bodies whose upgrade list was sent: those with an upgrade added. */
  /** One turn of the loop: the body's frame is appended, its upgrade flag
      cleared if it was sent, and what the frame carried that changed is
      collected. */
  lemma TickStep(s: Scene, selves: seq<Id>)
    requires Closed(s) && Bodies(s, selves) && |selves| > 0
    ensures var self := selves[|selves| - 1];
      var prev := Tick(s, selves[..|selves| - 1]);
      var added := s.store[self].upgradeAdded && self !in prev.cleared;
      && Tick(s, selves).added == prev.added + [added]
      && Tick(s, selves).cleared == prev.cleared + (if added then {self} else {})
      && Tick(s, selves).changed == prev.changed + (if s.store[self].changed then {self} else {}) + ChangedSeen(s, self)
  {
  }

  lemma {:induction false} TickCleared(s: Scene, selves: seq<Id>)
    requires Closed(s) && Bodies(s, selves)
    ensures forall x :: x in Tick(s, selves).cleared <==> x in selves && s.store[x].upgradeAdded
    decreases |selves|
  {
    if |selves| > 0 {
      var init := selves[..|selves| - 1];
      TickCleared(s, init);
      TickStep(s, selves);
      assert selves == init + [selves[|selves| - 1]];
    }
  }

  /** Each session gets the frame of its body, with the upgrade list only
      on the first frame of a body that had one added. */
  lemma TickFrames(s: Scene, selves: seq<Id>, i: nat)
    requires Closed(s) && Bodies(s, selves) && i < |selves|
    ensures Frames(s, selves)[i] ==
      Frame(s, selves[i], s.store[selves[i]].upgradeAdded && selves[i] !in selves[..i])
  {
    TickAdded(s, selves, i);
  }

  lemma {:induction false} TickAdded(s: Scene, selves: seq<Id>, i: nat)
    requires Closed(s) && Bodies(s, selves) && i < |selves|
    ensures Tick(s, selves).added[i] == (s.store[selves[i]].upgradeAdded && selves[i] !in selves[..i])
    decreases |selves|
  {
    var init := selves[..|selves| - 1];
    TickStep(s, selves);
    if i < |init| {
      TickAdded(s, init, i);
      assert init[..i] == selves[..i];
    } else {
      TickCleared(s, init);
      assert init == selves[..i];
    }
  }

  /** The entities some session of `selves` sees. */
  function SeenBy(s: Scene, selves: seq<Id>): set<Id>
    requires Closed(s) && Bodies(s, selves)
    decreases |selves|
  {
    if |selves| == 0 then {}
    else SeenBy(s, selves[..|selves| - 1]) + Elems(Seen(s, selves[|selves| - 1], s.entities))
  }

  function Elems(xs: seq<Id>): (r: set<Id>)
    ensures forall x :: x in r <==> x in xs
  {
    set x | x in xs
  }

  lemma {:induction false} SeenByWitness(s: Scene, selves: seq<Id>, x: Id) returns (j: nat)
    requires Closed(s) && Bodies(s, selves) && x in SeenBy(s, selves)
    ensures j < |selves| && x in Seen(s, selves[j], s.entities)
    decreases |selves|
  {
    var init := selves[..|selves| - 1];
    if x in SeenBy(s, init) {
      j := SeenByWitness(s, init, x);
      assert init[j] == selves[j];
    } else {
      j := |selves| - 1;
    }
  }

  lemma {:induction false} SeenByHas(s: Scene, selves: seq<Id>, j: nat, x: Id)
    requires Closed(s) && Bodies(s, selves) && j < |selves| && x in Seen(s, selves[j], s.entities)
    ensures x in SeenBy(s, selves)
    decreases |selves|
  {
    var init := selves[..|selves| - 1];
    if j < |init| {
      assert init[j] == selves[j];
      SeenByHas(s, init, j, x);
    }
  }

  lemma SeenByIff(s: Scene, selves: seq<Id>, x: Id)
    requires Closed(s) && Bodies(s, selves)
    ensures x in SeenBy(s, selves) <==> exists j :: 0 <= j < |selves| && x in Seen(s, selves[j], s.entities)
  {
    if x in SeenBy(s, selves) {
      var j := SeenByWitness(s, selves, x);
    }
    if exists j :: 0 <= j < |selves| && x in Seen(s, selves[j], s.entities) {
      var j :| 0 <= j < |selves| && x in Seen(s, selves[j], s.entities);
      SeenByHas(s, selves, j, x);
    }
  }

  /** The entities whose info went out in the tick: changed bodies of the
      sessions, and changed entities some session sees. */
  ghost predicate Delivered(s: Scene, selves: seq<Id>, x: Id)
    requires Closed(s) && Bodies(s, selves)
  {
    x in s.store && s.store[x].changed &&
    (x in selves || exists j :: 0 <= j < |selves| && x in Seen(s, selves[j], s.entities))
  }

  /** The `changed` set of the loop, on its own. */
  function Collected(s: Scene, selves: seq<Id>): set<Id>
    requires Closed(s) && Bodies(s, selves)
    decreases |selves|
  {
    if |selves| == 0 then {}
    else
      var self := selves[|selves| - 1];
      Collected(s, selves[..|selves| - 1]) + (if s.store[self].changed then {self} else {}) + ChangedSeen(s, self)
  }

  lemma {:induction false} TickCollected(s: Scene, selves: seq<Id>)
    requires Closed(s) && Bodies(s, selves)
    ensures Tick(s, selves).changed == Collected(s, selves)
    decreases |selves|
  {
    if |selves| > 0 {
      TickCollected(s, selves[..|selves| - 1]);
      TickStep(s, selves);
    }
  }

  lemma {:induction false} CollectedSpec(s: Scene, selves: seq<Id>, x: Id)
    requires Closed(s) && Bodies(s, selves)
    ensures x in Collected(s, selves) <==>
      x in s.store && s.store[x].changed && (x in selves || x in SeenBy(s, selves))
    decreases |selves|
  {
    if |selves| > 0 {
      var init := selves[..|selves| - 1];
      var self := selves[|selves| - 1];
      CollectedSpec(s, init, x);
      assert x in ChangedSeen(s, self) <==> x in Seen(s, self, s.entities) && s.store[x].changed;
      assert x in selves <==> x in init || x == self by {
        assert selves == init + [self];
      }
    }
  }

  lemma TickChanged(s: Scene, selves: seq<Id>, x: Id)
    requires Closed(s) && Bodies(s, selves)
    ensures x in Tick(s, selves).changed <==> Delivered(s, selves, x)
  {
    TickCollected(s, selves);
    CollectedSpec(s, selves, x);
    SeenByIff(s, selves, x);
  }

  /** The end of the tick: the collected `changed` flags are cleared. */
  function Settle(s: Scene, p: Pass): (store: Store)
    ensures store.Keys == s.store.Keys
  {
    map x | x in s.store ::
      var e := s.store[x];
      e.(build := e.build.(upgradeAdded := e.upgradeAdded && x !in p.cleared,
                           changed := e.changed && x !in p.changed))
  }

  /** After a tick no session's body has an upgrade pending, an entity
      stays `changed` exactly when nobody was sent its info, and nothing
      else about any entity changes. */
  lemma TickSettles(s: Scene, selves: seq<Id>, x: Id)
    requires Closed(s) && Bodies(s, selves) && x in s.store
    ensures var after := Settle(s, Tick(s, selves))[x];
      && (x in selves ==> !after.upgradeAdded)
      && (after.changed <==> s.store[x].changed && !Delivered(s, selves, x))
      && after.(build := s.store[x].build) == s.store[x]
  {
    TickCleared(s, selves);
    TickChanged(s, selves, x);
  }

  // ---------------------------------------------------------------------
  // What the client reads back

  /** The abstract writes of the scene stay within their fields. */
  ghost predicate Writable(s: Scene) {
    U16Ok(s.black) &&
    (forall x :: EntityInfoOk(s.info(x))) &&
    (forall x :: U16Ok(|s.upgrades(x)|) && forall k :: 0 <= k < |s.upgrades(x)| ==> UpgradeOk(s.upgrades(x)[k])) &&
    (forall x :: PaintOk(s.paint(x)) && I32Ok(s.sides(x)))
  }

  lemma MarkOk(s: Scene, self: Id, x: Id)
    requires Writable(s) && x in s.store
    ensures MinimapOk(MarkOf(s, self, x))
  {
    assert PaintOk(s.paint(x));
    assert I32Ok(s.sides(x));
  }

  /** When the scene's own writes fit their fields and the minimap has
      fewer than 2¹⁶ entries, every message of a frame is one the client
      reads back as it was written. */
  lemma FrameReadable(s: Scene, self: Id, added: bool)
    requires Closed(s) && self in s.store && Writable(s)
    requires |Marks(s, self, s.miniMap)| < TwoTo16
    ensures forall k :: 0 <= k < |Frame(s, self, added)| ==> MessageOk(Frame(s, self, added)[k])
  {
    var a := [SelfData(DataOf(s, self))];
    var b := a + UpgradePart(s, self, added);
    var c := b + InfoPart(s, self);
    var d := c + StatsPart(s, self);
    var e := d + MapPart(s, self);
    assert EntityInfoOk(s.info(self));
    assert U16Ok(|s.upgrades(self)|);
    MapReadable(s, self);
    OthersReadable(s, self, s.entities);
    AllOkConcat(a, UpgradePart(s, self, added));
    AllOkConcat(b, InfoPart(s, self));
    AllOkConcat(c, StatsPart(s, self));
    AllOkConcat(d, MapPart(s, self));
    AllOkConcat(e, Others(s, self, s.entities));
  }

  predicate AllOk(ms: seq<ServerMessage>) {
    forall k :: 0 <= k < |ms| ==> MessageOk(ms[k])
  }

  lemma AllOkConcat(a: seq<ServerMessage>, b: seq<ServerMessage>)
    requires AllOk(a) && AllOk(b)
    ensures AllOk(a + b)
  {
    forall k | 0 <= k < |a + b| ensures MessageOk((a + b)[k]) {
      if k >= |a| {
        assert (a + b)[k] == b[k - |a|];
      }
    }
  }

  lemma MapReadable(s: Scene, self: Id)
    requires Closed(s) && self in s.store && Writable(s)
    requires |Marks(s, self, s.miniMap)| < TwoTo16
    ensures AllOk(MapPart(s, self))
  {
    var ms := Marks(s, self, s.miniMap);
    MarksSpec(s, self, s.miniMap);
    forall k | 0 <= k < |ms| ensures MinimapOk(ms[k]) {
      MarkOk(s, self, Mapped(s, self, s.miniMap)[k]);
    }
  }

  lemma {:induction false} OthersReadable(s: Scene, self: Id, ids: seq<Id>)
    requires self in s.store && (forall i :: 0 <= i < |ids| ==> ids[i] in s.store) && Writable(s)
    ensures forall k :: 0 <= k < |Others(s, self, ids)| ==> MessageOk(Others(s, self, ids)[k])
    decreases |ids|
  {
    if |ids| > 0 {
      OthersReadable(s, self, ids[1..]);
      assert EntityInfoOk(s.info(ids[0]));
    }
  }

  // ---------------------------------------------------------------------
  // The leaderboard, every second

  /** Message 11: each entry's title and its score as `writeBigUint`
      stores it, in the board's order. */
  function Rows(es: seq<Leaderboards.Entry>): (rows: seq<LeaderWire>)
    ensures |rows| == |es|
    ensures forall k :: 0 <= k < |es| ==> rows[k].title == es[k].record.title
    ensures forall k :: 0 <= k < |es| ==> U32Ok(rows[k].score)
    decreases |es|
  {
    if |es| == 0 then []
    else [LeaderWire(es[0].record.title, ToUint32(es[0].record.score))] + Rows(es[1..])
  }

  /** A board of fewer than 2¹⁶ entries with titles that fit reaches the
      client intact: titles in order, and each score that fits unchanged
      up to its fraction. */
  lemma LeaderboardReadable(b: Leaderboards.Board)
    requires |b.scores| < TwoTo16 && forall k :: 0 <= k < |b.scores| ==> WireString(b.scores[k].record.title)
    ensures MessageOk(Leaderboard(Rows(b.scores)))
    ensures forall k :: 0 <= k < |b.scores| && 0.0 <= b.scores[k].record.score < TwoTo32 as real ==>
      Rows(b.scores)[k].score == b.scores[k].record.score.Floor
  {
    RowsScores(b.scores);
  }

  lemma {:induction false} RowsScores(es: seq<Leaderboards.Entry>)
    ensures forall k :: 0 <= k < |es| ==> Rows(es)[k].score == ToUint32(es[k].record.score)
    decreases |es|
  {
    if |es| > 0 {
      RowsScores(es[1..]);
    }
  }
}
