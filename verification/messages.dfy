/** The server-to-client message layouts: what the serialisers of
    src/network/socket.ts write and what the decoders of
    client/src/lib/socket.ts and public/lib/socket.js read back.

    Every serialiser is given as the bytes it appends in front of whatever
    follows (`...Onto(x, tail)`); Protocol proves that each `write*` appends
    exactly its own bytes, so a sequence of writes appends their
    concatenation. Floats travel as opaque `F32` values. */
module Messages {
  import opened Wrappers
  import opened Bytes
  import opened Protocol

  // ---------------------------------------------------------------------
  // Field ranges that survive the wire

  predicate U16Ok(v: int) {
    0 <= v < TwoTo16
  }

  predicate U32Ok(v: int) {
    0 <= v < TwoTo32
  }

  predicate I32Ok(v: int) {
    -TwoTo31 <= v < TwoTo31
  }

  lemma ConsSplit<T>(s: seq<T>)
    requires |s| > 0
    ensures [s[0]] + s[1..] == s
  {
  }

  /** `s` read the value `v` and stopped exactly where `tail` begins. */
  predicate Parsed<T(==)>(s: Step<T>, v: T, r: Reader, bytes: seq<Byte>, tail: seq<Byte>) {
    s.Done? && s.value == v && s.next.data == r.data
    && s.next.offset + |tail| == r.offset + |bytes| && At(s.next, tail)
  }

  // ---------------------------------------------------------------------
  // Colours and borders: tag 0 and a name, or tag 1 and a palette index

  datatype Paint = Named(name: string) | Indexed(index: int)

  predicate PaintOk(c: Paint) {
    match c
    case Named(s) => WireString(s)
    case Indexed(i) => U16Ok(i)
  }

  function PaintOnto(c: Paint, tail: seq<Byte>): seq<Byte> {
    match c
    case Named(s) => U16(0) + (StringBytes(s) + tail)
    case Indexed(i) => U16(1) + (U16(i) + tail)
  }

  /** The wire part of `decodeColor`/`decodeBorder`: any tag other than 0
      is followed by an index. */
  function ReadPaint(r: Reader): (s: Step<Paint>)
    ensures s.Done? ==> s.next.data == r.data && s.next.offset > r.offset
  {
    var tag :- ReadUint(r);
    if tag.0 == 0 then
      var name :- ReadString(tag.1);
      Done(Named(name.0), name.1)
    else
      var index :- ReadUint(tag.1);
      Done(Indexed(index.0), index.1)
  }

  lemma ReadPaintAt(r: Reader, c: Paint, tail: seq<Byte>)
    requires PaintOk(c) && At(r, PaintOnto(c, tail))
    ensures Parsed(ReadPaint(r), c, r, PaintOnto(c, tail), tail)
  {
    match c
    case Named(s) =>
      ReadUintAt(r, 0, StringBytes(s) + tail);
      var r1 := Skip(r, 2);
      ReadStringAt(r1, s, tail);
    case Indexed(i) =>
      ReadUintAt(r, 1, U16(i) + tail);
      var r1 := Skip(r, 2);
      ReadUintAt(r1, i, tail);
  }

  // ---------------------------------------------------------------------
  // Sides: tag 0 and a name, tag 1 and an i32, or tag 2+n and n points

  type Point = (F32, F32)

  datatype Sides = SidesName(name: string) | SidesCount(count: int) | SidesPolygon(points: seq<Point>)

  const MaxPolygon: nat := TwoTo16 - 3

  predicate SidesOk(s: Sides) {
    match s
    case SidesName(n) => WireString(n)
    case SidesCount(c) => I32Ok(c)
    case SidesPolygon(ps) => |ps| <= MaxPolygon
  }

  function PointsOnto(ps: seq<Point>, tail: seq<Byte>): (bs: seq<Byte>)
    ensures |bs| == 8 * |ps| + |tail|
  {
    if |ps| == 0 then tail
    else F32Bytes(ps[0].0) + (F32Bytes(ps[0].1) + PointsOnto(ps[1..], tail))
  }

  function SidesOnto(s: Sides, tail: seq<Byte>): seq<Byte> {
    match s
    case SidesName(n) => U16(0) + (StringBytes(n) + tail)
    case SidesCount(c) => U16(1) + (U32(c) + tail)
    case SidesPolygon(ps) => U16(2 + |ps|) + PointsOnto(ps, tail)
  }

  /** `n` pairs of floats. */
  function ReadPoints(r: Reader, n: nat): (s: Step<seq<Point>>)
    ensures s.Done? ==> |s.value| == n && s.next.data == r.data && s.next.offset == r.offset + 8 * n
    decreases n
  {
    if n == 0 then Done([], r)
    else
      var x :- ReadFloat(r);
      var y :- ReadFloat(x.1);
      var rest :- ReadPoints(y.1, n - 1);
      Done([(x.0, y.0)] + rest.0, rest.1)
  }

  /** `decodeSides`. */
  function ReadSides(r: Reader): (s: Step<Sides>)
    ensures s.Done? ==> s.next.data == r.data && s.next.offset > r.offset
  {
    var tag :- ReadUint(r);
    if tag.0 == 0 then
      var name :- ReadString(tag.1);
      Done(SidesName(name.0), name.1)
    else if tag.0 == 1 then
      var count :- ReadInt(tag.1);
      Done(SidesCount(count.0), count.1)
    else
      var points :- ReadPoints(tag.1, tag.0 - 2);
      Done(SidesPolygon(points.0), points.1)
  }

  lemma {:induction false} ReadPointsAt(r: Reader, ps: seq<Point>, tail: seq<Byte>)
    requires At(r, PointsOnto(ps, tail))
    ensures Parsed(ReadPoints(r, |ps|), ps, r, PointsOnto(ps, tail), tail)
    decreases |ps|
  {
    if |ps| > 0 {
      var rest := PointsOnto(ps[1..], tail);
      ReadFloatAt(r, ps[0].0, F32Bytes(ps[0].1) + rest);
      var r1 := Skip(r, 4);
      ReadFloatAt(r1, ps[0].1, rest);
      var r2 := Skip(r1, 4);
      ReadPointsAt(r2, ps[1..], tail);
      ConsSplit(ps);
    }
  }

  lemma ReadSidesAt(r: Reader, s: Sides, tail: seq<Byte>)
    requires SidesOk(s) && At(r, SidesOnto(s, tail))
    ensures Parsed(ReadSides(r), s, r, SidesOnto(s, tail), tail)
  {
    match s
    case SidesName(n) =>
      ReadUintAt(r, 0, StringBytes(n) + tail);
      var r1 := Skip(r, 2);
      ReadStringAt(r1, n, tail);
    case SidesCount(c) =>
      ReadUintAt(r, 1, U32(c) + tail);
      var r1 := Skip(r, 2);
      ReadIntAt(r1, c, tail);
    case SidesPolygon(ps) =>
      ReadUintAt(r, 2 + |ps|, PointsOnto(ps, tail));
      var r1 := Skip(r, 2);
      ReadPointsAt(r1, ps, tail);
  }

  /** A polygon of 65534 points wraps its tag to 0, the tag of a name: the
      scheme is unambiguous only up to `MaxPolygon` points. */
  lemma PolygonTagWraps(ps: seq<Point>)
    requires |ps| == MaxPolygon + 1
    ensures SidesOnto(SidesPolygon(ps), [])[..2] == U16(0)
  {
    assert (2 + |ps|) % TwoTo16 == 0 % TwoTo16;
  }

  // ---------------------------------------------------------------------
  // Props and mockups

  datatype PropWire = PropWire(
    offsetX: F32, offsetY: F32, angle: F32, fixedAngle: bool, spin: F32, spin2: F32,
    color: Paint, border: Paint, size: F32, sides: Sides, strokeWidth: F32, alpha: F32,
    layer: int)

  predicate PropOk(p: PropWire) {
    PaintOk(p.color) && PaintOk(p.border) && SidesOk(p.sides) && I32Ok(p.layer)
  }

  /** The fields of one prop in the order of `Mockup`'s loop. */
  function PropOnto(p: PropWire, tail: seq<Byte>): seq<Byte> {
    F32Bytes(p.offsetX) + (F32Bytes(p.offsetY) + (F32Bytes(p.angle) + (BoolBytes(p.fixedAngle)
      + (F32Bytes(p.spin) + (F32Bytes(p.spin2) + PropLookOnto(p, tail))))))
  }

  /** The second half of a prop, from its colour on. */
  function PropLookOnto(p: PropWire, tail: seq<Byte>): seq<Byte> {
    PaintOnto(p.color, PaintOnto(p.border, F32Bytes(p.size) + SidesOnto(p.sides,
      F32Bytes(p.strokeWidth) + (F32Bytes(p.alpha) + (U32(p.layer) + tail)))))
  }

  /** The wire part of the prop loop of cases 8 and 9. */
  function ReadProp(r: Reader): (s: Step<PropWire>)
    ensures s.Done? ==> s.next.data == r.data && s.next.offset > r.offset
  {
    var x :- ReadFloat(r);
    var y :- ReadFloat(x.1);
    var angle :- ReadFloat(y.1);
    var fixed :- ReadBoolean(angle.1);
    var spin :- ReadFloat(fixed.1);
    var spin2 :- ReadFloat(spin.1);
    ReadPropLook(spin2.1, x.0, y.0, angle.0, fixed.0, spin.0, spin2.0)
  }

  function ReadPropLook(r: Reader, x: F32, y: F32, angle: F32, fixed: bool, spin: F32, spin2: F32)
    : (s: Step<PropWire>)
    ensures s.Done? ==> s.next.data == r.data && s.next.offset > r.offset
  {
    var color :- ReadPaint(r);
    var border :- ReadPaint(color.1);
    var size :- ReadFloat(border.1);
    var sides :- ReadSides(size.1);
    var stroke :- ReadFloat(sides.1);
    var alpha :- ReadFloat(stroke.1);
    var layer :- ReadInt(alpha.1);
    Done(PropWire(x, y, angle, fixed, spin, spin2, color.0, border.0, size.0, sides.0,
      stroke.0, alpha.0, layer.0), layer.1)
  }

  lemma ReadPropAt(r: Reader, p: PropWire, tail: seq<Byte>)
    requires PropOk(p) && At(r, PropOnto(p, tail))
    ensures Parsed(ReadProp(r), p, r, PropOnto(p, tail), tail)
  {
    var look := PropLookOnto(p, tail);
    var t5 := F32Bytes(p.spin2) + look;
    var t4 := F32Bytes(p.spin) + t5;
    var t3 := BoolBytes(p.fixedAngle) + t4;
    var t2 := F32Bytes(p.angle) + t3;
    var t1 := F32Bytes(p.offsetY) + t2;
    ReadFloatAt(r, p.offsetX, t1);
    var r1 := Skip(r, 4);
    ReadFloatAt(r1, p.offsetY, t2);
    var r2 := Skip(r1, 4);
    ReadFloatAt(r2, p.angle, t3);
    var r3 := Skip(r2, 4);
    ReadBooleanAt(r3, p.fixedAngle, t4);
    var r4 := Skip(r3, 1);
    ReadFloatAt(r4, p.spin, t5);
    var r5 := Skip(r4, 4);
    ReadFloatAt(r5, p.spin2, look);
    var r6 := Skip(r5, 4);
    ReadPropLookAt(r6, p, tail);
  }

  lemma ReadPropLookAt(r: Reader, p: PropWire, tail: seq<Byte>)
    requires PropOk(p) && At(r, PropLookOnto(p, tail))
    ensures Parsed(ReadPropLook(r, p.offsetX, p.offsetY, p.angle, p.fixedAngle, p.spin, p.spin2),
      p, r, PropLookOnto(p, tail), tail)
  {
    var t6 := U32(p.layer) + tail;
    var t5 := F32Bytes(p.alpha) + t6;
    var t4 := F32Bytes(p.strokeWidth) + t5;
    var t3 := SidesOnto(p.sides, t4);
    var t2 := F32Bytes(p.size) + t3;
    var t1 := PaintOnto(p.border, t2);
    ReadPaintAt(r, p.color, t1);
    var r1 := ReadPaint(r).next;
    ReadPaintAt(r1, p.border, t2);
    var r2 := ReadPaint(r1).next;
    ReadFloatAt(r2, p.size, t3);
    var r3 := Skip(r2, 4);
    ReadSidesAt(r3, p.sides, t4);
    var r4 := ReadSides(r3).next;
    ReadFloatAt(r4, p.strokeWidth, t5);
    var r5 := Skip(r4, 4);
    ReadFloatAt(r5, p.alpha, t6);
    var r6 := Skip(r5, 4);
    ReadIntAt(r6, p.layer, tail);
  }

  function PropsOnto(ps: seq<PropWire>, tail: seq<Byte>): seq<Byte> {
    if |ps| == 0 then tail else PropOnto(ps[0], PropsOnto(ps[1..], tail))
  }

  function ReadProps(r: Reader, n: nat): (s: Step<seq<PropWire>>)
    ensures s.Done? ==> |s.value| == n && s.next.data == r.data && s.next.offset >= r.offset
    decreases n
  {
    if n == 0 then Done([], r)
    else
      var p :- ReadProp(r);
      var rest :- ReadProps(p.1, n - 1);
      Done([p.0] + rest.0, rest.1)
  }

  lemma {:induction false} ReadPropsAt(r: Reader, ps: seq<PropWire>, tail: seq<Byte>)
    requires (forall k :: 0 <= k < |ps| ==> PropOk(ps[k])) && At(r, PropsOnto(ps, tail))
    ensures Parsed(ReadProps(r, |ps|), ps, r, PropsOnto(ps, tail), tail)
    decreases |ps|
  {
    if |ps| > 0 {
      var rest := PropsOnto(ps[1..], tail);
      ReadPropAt(r, ps[0], rest);
      var r1 := ReadProp(r).next;
      ReadPropsAt(r1, ps[1..], tail);
      ReadPropsStep(r, |ps|, ps[0], r1, ps[1..], ReadProps(r1, |ps[1..]|).next);
      ConsSplit(ps);
    }
  }

  lemma ReadPropsStep(r: Reader, n: nat, p: PropWire, r1: Reader, rest: seq<PropWire>, r2: Reader)
    requires n > 0 && ReadProp(r) == Done(p, r1) && ReadProps(r1, n - 1) == Done(rest, r2)
    ensures ReadProps(r, n) == Done([p] + rest, r2)
  {
  }

  /** What `Mockup` writes: alpha, stroke width, sides, then the props. */
  datatype MockupWire = MockupWire(alpha: F32, strokeWidth: F32, sides: Sides, props: seq<PropWire>)

  predicate MockupOk(m: MockupWire) {
    SidesOk(m.sides) && U16Ok(|m.props|) && forall k :: 0 <= k < |m.props| ==> PropOk(m.props[k])
  }

  function MockupOnto(m: MockupWire, tail: seq<Byte>): seq<Byte> {
    F32Bytes(m.alpha) + (F32Bytes(m.strokeWidth)
      + SidesOnto(m.sides, U16(|m.props|) + PropsOnto(m.props, tail)))
  }

  function ReadMockup(r: Reader): (s: Step<MockupWire>)
    ensures s.Done? ==> s.next.data == r.data && s.next.offset > r.offset
  {
    var alpha :- ReadFloat(r);
    var stroke :- ReadFloat(alpha.1);
    var sides :- ReadSides(stroke.1);
    var count :- ReadUint(sides.1);
    var props :- ReadProps(count.1, count.0);
    Done(MockupWire(alpha.0, stroke.0, sides.0, props.0), props.1)
  }

  lemma ReadMockupAt(r: Reader, m: MockupWire, tail: seq<Byte>)
    requires MockupOk(m) && At(r, MockupOnto(m, tail))
    ensures Parsed(ReadMockup(r), m, r, MockupOnto(m, tail), tail)
  {
    var t3 := PropsOnto(m.props, tail);
    var t2 := U16(|m.props|) + t3;
    var t1 := SidesOnto(m.sides, t2);
    ReadFloatAt(r, m.alpha, F32Bytes(m.strokeWidth) + t1);
    var r1 := Skip(r, 4);
    ReadFloatAt(r1, m.strokeWidth, t1);
    var r2 := Skip(r1, 4);
    ReadSidesAt(r2, m.sides, t2);
    var r3 := ReadSides(r2).next;
    ReadUintAt(r3, |m.props|, t3);
    var r4 := Skip(r3, 2);
    ReadPropsAt(r4, m.props, tail);
  }

  // ---------------------------------------------------------------------
  // Entity records

  /** What `EntityData` writes. */
  datatype EntityDataWire = EntityDataWire(
    id: int, health: F32, shield: F32, angle: F32, x: F32, y: F32,
    score: int, size: F32, attackAge: int)

  predicate EntityDataOk(d: EntityDataWire) {
    U32Ok(d.id) && U32Ok(d.score) && U32Ok(d.attackAge)
  }

  function EntityDataOnto(d: EntityDataWire, tail: seq<Byte>): seq<Byte> {
    U32(d.id) + (F32Bytes(d.health) + (F32Bytes(d.shield) + (F32Bytes(d.angle)
      + (F32Bytes(d.x) + (F32Bytes(d.y) + (U32(d.score) + (F32Bytes(d.size)
      + (U32(d.attackAge) + tail))))))))
  }

  /** The fields cases 1 and 2 read, in their order. */
  function ReadEntityData(r: Reader): (s: Step<EntityDataWire>)
    ensures s.Done? ==> s.next.data == r.data && s.next.offset == r.offset + 36
  {
    var id :- ReadBigUint(r);
    var health :- ReadFloat(id.1);
    var shield :- ReadFloat(health.1);
    var angle :- ReadFloat(shield.1);
    var x :- ReadFloat(angle.1);
    var y :- ReadFloat(x.1);
    var score :- ReadBigUint(y.1);
    var size :- ReadFloat(score.1);
    var age :- ReadBigUint(size.1);
    Done(EntityDataWire(id.0, health.0, shield.0, angle.0, x.0, y.0, score.0, size.0, age.0), age.1)
  }

  lemma ReadEntityDataAt(r: Reader, d: EntityDataWire, tail: seq<Byte>)
    requires EntityDataOk(d) && At(r, EntityDataOnto(d, tail))
    ensures Parsed(ReadEntityData(r), d, r, EntityDataOnto(d, tail), tail)
  {
    var t8 := U32(d.attackAge) + tail;
    var t7 := F32Bytes(d.size) + t8;
    var t6 := U32(d.score) + t7;
    var t5 := F32Bytes(d.y) + t6;
    var t4 := F32Bytes(d.x) + t5;
    var t3 := F32Bytes(d.angle) + t4;
    var t2 := F32Bytes(d.shield) + t3;
    var t1 := F32Bytes(d.health) + t2;
    ReadBigUintAt(r, d.id, t1);
    var r1 := Skip(r, 4);
    ReadFloatAt(r1, d.health, t2);
    var r2 := Skip(r1, 4);
    ReadFloatAt(r2, d.shield, t3);
    var r3 := Skip(r2, 4);
    ReadFloatAt(r3, d.angle, t4);
    var r4 := Skip(r3, 4);
    ReadFloatAt(r4, d.x, t5);
    var r5 := Skip(r4, 4);
    ReadFloatAt(r5, d.y, t6);
    var r6 := Skip(r5, 4);
    ReadBigUintAt(r6, d.score, t7);
    var r7 := Skip(r6, 4);
    ReadFloatAt(r7, d.size, t8);
    var r8 := Skip(r7, 4);
    ReadBigUintAt(r8, d.attackAge, tail);
    var r9 := Skip(r8, 4);
    assert r9.offset + |tail| == r.offset + |EntityDataOnto(d, tail)|;
    assert At(r9, tail);
    assert ReadEntityData(r).next == r9;
    assert ReadEntityData(r).value == d;
  }

  /** What `EntityInfo` writes. */
  datatype EntityInfoWire = EntityInfoWire(
    id: int, team: int, maxHealth: F32, maxShield: F32,
    showHealth: bool, showName: bool, showScore: bool, fov: F32,
    name: string, color: Paint, border: Paint, mockupId: int)

  predicate EntityInfoOk(e: EntityInfoWire) {
    U32Ok(e.id) && U16Ok(e.team) && WireString(e.name) && PaintOk(e.color)
    && PaintOk(e.border) && U16Ok(e.mockupId)
  }

  function EntityInfoOnto(e: EntityInfoWire, tail: seq<Byte>): seq<Byte> {
    U32(e.id) + (U16(e.team) + (F32Bytes(e.maxHealth) + (F32Bytes(e.maxShield)
      + EntityFlagsOnto(e, tail))))
  }

  /** The fields case 5 reads, in its order. */
  function ReadEntityInfo(r: Reader): (s: Step<EntityInfoWire>)
    ensures s.Done? ==> s.next.data == r.data && s.next.offset > r.offset
    ensures s.Done? ==> ReadBigUint(r).Done? && s.value.id == ReadBigUint(r).value
  {
    var id :- ReadBigUint(r);
    var team :- ReadUint(id.1);
    var health :- ReadFloat(team.1);
    var shield :- ReadFloat(health.1);
    ReadEntityFlags(shield.1, EntityInfoWire(id.0, team.0, health.0, shield.0, false,
      false, false, F32(0, 0, 0, 0), [], Indexed(0), Indexed(0), 0))
  }

  /** The three display flags and the field of view, filled into `head`. */
  function ReadEntityFlags(r: Reader, head: EntityInfoWire): (s: Step<EntityInfoWire>)
    ensures s.Done? ==> s.next.data == r.data && s.next.offset > r.offset
    ensures s.Done? ==> s.value.id == head.id
  {
    var showHealth :- ReadBoolean(r);
    var showName :- ReadBoolean(showHealth.1);
    var showScore :- ReadBoolean(showName.1);
    var fov :- ReadFloat(showScore.1);
    ReadEntityLook(fov.1, head.(showHealth := showHealth.0, showName := showName.0,
      showScore := showScore.0, fov := fov.0))
  }

  /** The rest of case 5, from the name on, filled into `head`. */
  function ReadEntityLook(r: Reader, head: EntityInfoWire): (s: Step<EntityInfoWire>)
    ensures s.Done? ==> s.next.data == r.data && s.next.offset > r.offset
    ensures s.Done? ==> s.value.id == head.id
  {
    var name :- ReadString(r);
    var color :- ReadPaint(name.1);
    var border :- ReadPaint(color.1);
    var mockup :- ReadUint(border.1);
    Done(head.(name := name.0, color := color.0, border := border.0, mockupId := mockup.0), mockup.1)
  }

  /** The name, colours and mockup id of an entity info record. */
  function EntityLookOnto(e: EntityInfoWire, tail: seq<Byte>): seq<Byte> {
    StringBytes(e.name) + PaintOnto(e.color, PaintOnto(e.border, U16(e.mockupId) + tail))
  }

  /** The flags, field of view and the rest of an entity info record. */
  function EntityFlagsOnto(e: EntityInfoWire, tail: seq<Byte>): seq<Byte> {
    BoolBytes(e.showHealth) + (BoolBytes(e.showName) + (BoolBytes(e.showScore)
      + (F32Bytes(e.fov) + EntityLookOnto(e, tail))))
  }

  lemma ReadEntityInfoAt(r: Reader, e: EntityInfoWire, tail: seq<Byte>)
    requires EntityInfoOk(e) && At(r, EntityInfoOnto(e, tail))
    ensures Parsed(ReadEntityInfo(r), e, r, EntityInfoOnto(e, tail), tail)
  {
    var r4 := ReadEntityHeadAt(r, e, tail);
    var r8 := ReadEntityFlagsAt(r4, e, tail);
    var head := e.(name := [], color := Indexed(0), border := Indexed(0), mockupId := 0);
    ReadEntityLookAt(r8, head, e, tail);
  }

  /** The id, team, health and shield of case 5 read back. */
  lemma ReadEntityHeadAt(r: Reader, e: EntityInfoWire, tail: seq<Byte>) returns (r4: Reader)
    requires EntityInfoOk(e) && At(r, EntityInfoOnto(e, tail))
    ensures r4 == Skip(r, 14) && At(r4, EntityFlagsOnto(e, tail))
    ensures |EntityInfoOnto(e, tail)| == 14 + |EntityFlagsOnto(e, tail)|
    ensures ReadEntityInfo(r) == ReadEntityFlags(r4, EntityInfoWire(e.id, e.team, e.maxHealth,
      e.maxShield, false, false, false, F32(0, 0, 0, 0), [], Indexed(0), Indexed(0), 0))
  {
    var t4 := EntityFlagsOnto(e, tail);
    var t3 := F32Bytes(e.maxShield) + t4;
    var t2 := F32Bytes(e.maxHealth) + t3;
    var t1 := U16(e.team) + t2;
    ReadBigUintAt(r, e.id, t1);
    var r1 := Skip(r, 4);
    ReadUintAt(r1, e.team, t2);
    var r2 := Skip(r1, 2);
    ReadFloatAt(r2, e.maxHealth, t3);
    var r3 := Skip(r2, 4);
    ReadFloatAt(r3, e.maxShield, t4);
    r4 := Skip(r3, 4);
  }

  /** The flags and field of view of case 5 read back. */
  lemma ReadEntityFlagsAt(r: Reader, e: EntityInfoWire, tail: seq<Byte>) returns (r4: Reader)
    requires At(r, EntityFlagsOnto(e, tail))
    ensures r4 == Skip(r, 7) && At(r4, EntityLookOnto(e, tail))
    ensures |EntityFlagsOnto(e, tail)| == 7 + |EntityLookOnto(e, tail)|
    ensures forall head: EntityInfoWire {:trigger ReadEntityFlags(r, head)} ::
      ReadEntityFlags(r, head) == ReadEntityLook(r4, head.(showHealth := e.showHealth,
        showName := e.showName, showScore := e.showScore, fov := e.fov))
  {
    var t3 := EntityLookOnto(e, tail);
    var t2 := F32Bytes(e.fov) + t3;
    var t1 := BoolBytes(e.showScore) + t2;
    var t0 := BoolBytes(e.showName) + t1;
    ReadBooleanAt(r, e.showHealth, t0);
    var r1 := Skip(r, 1);
    ReadBooleanAt(r1, e.showName, t1);
    var r2 := Skip(r1, 1);
    ReadBooleanAt(r2, e.showScore, t2);
    var r3 := Skip(r2, 1);
    ReadFloatAt(r3, e.fov, t3);
    r4 := Skip(r3, 4);
  }

  lemma ReadEntityLookAt(r: Reader, head: EntityInfoWire, e: EntityInfoWire, tail: seq<Byte>)
    requires EntityInfoOk(e) && At(r, EntityLookOnto(e, tail))
    requires head == e.(name := [], color := Indexed(0), border := Indexed(0), mockupId := 0)
    ensures Parsed(ReadEntityLook(r, head), e, r, EntityLookOnto(e, tail), tail)
  {
    var t3 := U16(e.mockupId) + tail;
    var t2 := PaintOnto(e.border, t3);
    var t1 := PaintOnto(e.color, t2);
    ReadStringAt(r, e.name, t1);
    var r1 := Skip(r, |StringBytes(e.name)|);
    ReadPaintAt(r1, e.color, t2);
    var r2 := ReadPaint(r1).next;
    ReadPaintAt(r2, e.border, t3);
    var r3 := ReadPaint(r2).next;
    ReadUintAt(r3, e.mockupId, tail);
  }

  /** What `EntityMockup` writes: the id, the class label, the mockup. */
  datatype EntityMockupWire = EntityMockupWire(id: int, classLabel: string, mockup: MockupWire)

  predicate EntityMockupOk(e: EntityMockupWire) {
    U32Ok(e.id) && WireString(e.classLabel) && MockupOk(e.mockup)
  }

  function EntityMockupOnto(e: EntityMockupWire, tail: seq<Byte>): seq<Byte> {
    U32(e.id) + (StringBytes(e.classLabel) + MockupOnto(e.mockup, tail))
  }

  /** The fields case 8 reads, in its order. */
  function ReadEntityMockup(r: Reader): (s: Step<EntityMockupWire>)
    ensures s.Done? ==> s.next.data == r.data && s.next.offset > r.offset
    ensures s.Done? ==> ReadBigUint(r).Done? && s.value.id == ReadBigUint(r).value
  {
    var id :- ReadBigUint(r);
    var classLabel :- ReadString(id.1);
    var mockup :- ReadMockup(classLabel.1);
    Done(EntityMockupWire(id.0, classLabel.0, mockup.0), mockup.1)
  }

  lemma ReadEntityMockupAt(r: Reader, e: EntityMockupWire, tail: seq<Byte>)
    requires EntityMockupOk(e) && At(r, EntityMockupOnto(e, tail))
    ensures Parsed(ReadEntityMockup(r), e, r, EntityMockupOnto(e, tail), tail)
  {
    var t2 := MockupOnto(e.mockup, tail);
    ReadBigUintAt(r, e.id, StringBytes(e.classLabel) + t2);
    var r1 := Skip(r, 4);
    ReadStringAt(r1, e.classLabel, t2);
    var r2 := Skip(r1, |StringBytes(e.classLabel)|);
    ReadMockupAt(r2, e.mockup, tail);
  }

  /** One entry of `EntityUpgrade`: label, colour, border, then a mockup. */
  datatype UpgradeWire = UpgradeWire(classLabel: string, color: Paint, border: Paint, mockup: MockupWire)

  predicate UpgradeOk(u: UpgradeWire) {
    WireString(u.classLabel) && PaintOk(u.color) && PaintOk(u.border) && MockupOk(u.mockup)
  }

  function UpgradeOnto(u: UpgradeWire, tail: seq<Byte>): seq<Byte> {
    StringBytes(u.classLabel) + PaintOnto(u.color, PaintOnto(u.border, MockupOnto(u.mockup, tail)))
  }

  /** One entry of case 9, whose inline sides decoding is `decodeSides`. */
  function ReadUpgrade(r: Reader): (s: Step<UpgradeWire>)
    ensures s.Done? ==> s.next.data == r.data && s.next.offset > r.offset
  {
    var classLabel :- ReadString(r);
    var color :- ReadPaint(classLabel.1);
    var border :- ReadPaint(color.1);
    var mockup :- ReadMockup(border.1);
    Done(UpgradeWire(classLabel.0, color.0, border.0, mockup.0), mockup.1)
  }

  lemma ReadUpgradeAt(r: Reader, u: UpgradeWire, tail: seq<Byte>)
    requires UpgradeOk(u) && At(r, UpgradeOnto(u, tail))
    ensures Parsed(ReadUpgrade(r), u, r, UpgradeOnto(u, tail), tail)
  {
    var t3 := MockupOnto(u.mockup, tail);
    var t2 := PaintOnto(u.border, t3);
    var t1 := PaintOnto(u.color, t2);
    ReadStringAt(r, u.classLabel, t1);
    var r1 := Skip(r, |StringBytes(u.classLabel)|);
    ReadPaintAt(r1, u.color, t2);
    var r2 := ReadPaint(r1).next;
    ReadPaintAt(r2, u.border, t3);
    var r3 := ReadPaint(r2).next;
    ReadMockupAt(r3, u.mockup, tail);
  }

  function UpgradesOnto(us: seq<UpgradeWire>, tail: seq<Byte>): seq<Byte> {
    if |us| == 0 then tail else UpgradeOnto(us[0], UpgradesOnto(us[1..], tail))
  }

  function ReadUpgrades(r: Reader, n: nat): (s: Step<seq<UpgradeWire>>)
    ensures s.Done? ==> |s.value| == n && s.next.data == r.data && s.next.offset >= r.offset
    decreases n
  {
    if n == 0 then Done([], r)
    else
      var u :- ReadUpgrade(r);
      var rest :- ReadUpgrades(u.1, n - 1);
      Done([u.0] + rest.0, rest.1)
  }

  lemma {:induction false} ReadUpgradesAt(r: Reader, us: seq<UpgradeWire>, tail: seq<Byte>)
    requires (forall k :: 0 <= k < |us| ==> UpgradeOk(us[k])) && At(r, UpgradesOnto(us, tail))
    ensures Parsed(ReadUpgrades(r, |us|), us, r, UpgradesOnto(us, tail), tail)
    decreases |us|
  {
    if |us| > 0 {
      var rest := UpgradesOnto(us[1..], tail);
      ReadUpgradeAt(r, us[0], rest);
      var r1 := ReadUpgrade(r).next;
      ReadUpgradesAt(r1, us[1..], tail);
      ReadUpgradesStep(r, |us|, us[0], r1, us[1..], ReadUpgrades(r1, |us[1..]|).next);
      ConsSplit(us);
    }
  }

  lemma ReadUpgradesStep(r: Reader, n: nat, u: UpgradeWire, r1: Reader, rest: seq<UpgradeWire>, r2: Reader)
    requires n > 0 && ReadUpgrade(r) == Done(u, r1) && ReadUpgrades(r1, n - 1) == Done(rest, r2)
    ensures ReadUpgrades(r, n) == Done([u] + rest, r2)
  {
  }

  // ---------------------------------------------------------------------
  // Minimap and leaderboard entries

  /** A fixed entity's extra minimap fields: its size and sides count. */
  datatype FixedMark = FixedMark(size: F32, sides: int)

  datatype MinimapWire = MinimapWire(x: F32, y: F32, team: int, color: Paint, fixed: Option<FixedMark>)

  predicate MinimapOk(m: MinimapWire) {
    U16Ok(m.team) && PaintOk(m.color) && (m.fixed.Some? ==> I32Ok(m.fixed.value.sides))
  }

  function FixedOnto(f: Option<FixedMark>, tail: seq<Byte>): seq<Byte> {
    match f
    case None => BoolBytes(false) + tail
    case Some(mark) => BoolBytes(true) + (F32Bytes(mark.size) + (U32(mark.sides) + tail))
  }

  function MinimapOnto(m: MinimapWire, tail: seq<Byte>): seq<Byte> {
    F32Bytes(m.x) + (F32Bytes(m.y) + (U16(m.team) + PaintOnto(m.color, FixedOnto(m.fixed, tail))))
  }

  function ReadFixed(r: Reader): (s: Step<Option<FixedMark>>)
    ensures s.Done? ==> s.next.data == r.data && s.next.offset > r.offset
  {
    var flag :- ReadBoolean(r);
    if flag.0 then
      var size :- ReadFloat(flag.1);
      var sides :- ReadInt(size.1);
      Done(Some(FixedMark(size.0, sides.0)), sides.1)
    else Done(None, flag.1)
  }

  /** One entry of case 10. */
  function ReadMinimap(r: Reader): (s: Step<MinimapWire>)
    ensures s.Done? ==> s.next.data == r.data && s.next.offset > r.offset
  {
    var x :- ReadFloat(r);
    var y :- ReadFloat(x.1);
    var team :- ReadUint(y.1);
    var color :- ReadPaint(team.1);
    var fixed :- ReadFixed(color.1);
    Done(MinimapWire(x.0, y.0, team.0, color.0, fixed.0), fixed.1)
  }

  lemma ReadFixedAt(r: Reader, f: Option<FixedMark>, tail: seq<Byte>)
    requires (f.Some? ==> I32Ok(f.value.sides)) && At(r, FixedOnto(f, tail))
    ensures Parsed(ReadFixed(r), f, r, FixedOnto(f, tail), tail)
  {
    match f
    case None =>
      ReadBooleanAt(r, false, tail);
    case Some(mark) =>
      ReadBooleanAt(r, true, F32Bytes(mark.size) + (U32(mark.sides) + tail));
      var r1 := Skip(r, 1);
      ReadFloatAt(r1, mark.size, U32(mark.sides) + tail);
      var r2 := Skip(r1, 4);
      ReadIntAt(r2, mark.sides, tail);
  }

  lemma ReadMinimapAt(r: Reader, m: MinimapWire, tail: seq<Byte>)
    requires MinimapOk(m) && At(r, MinimapOnto(m, tail))
    ensures Parsed(ReadMinimap(r), m, r, MinimapOnto(m, tail), tail)
  {
    var t4 := FixedOnto(m.fixed, tail);
    var t3 := PaintOnto(m.color, t4);
    ReadFloatAt(r, m.x, F32Bytes(m.y) + (U16(m.team) + t3));
    var r1 := Skip(r, 4);
    ReadFloatAt(r1, m.y, U16(m.team) + t3);
    var r2 := Skip(r1, 4);
    ReadUintAt(r2, m.team, t3);
    var r3 := Skip(r2, 2);
    ReadPaintAt(r3, m.color, t4);
    var r4 := ReadPaint(r3).next;
    ReadFixedAt(r4, m.fixed, tail);
  }

  function MinimapsOnto(ms: seq<MinimapWire>, tail: seq<Byte>): seq<Byte> {
    if |ms| == 0 then tail else MinimapOnto(ms[0], MinimapsOnto(ms[1..], tail))
  }

  function ReadMinimaps(r: Reader, n: nat): (s: Step<seq<MinimapWire>>)
    ensures s.Done? ==> |s.value| == n && s.next.data == r.data && s.next.offset >= r.offset
    decreases n
  {
    if n == 0 then Done([], r)
    else
      var m :- ReadMinimap(r);
      var rest :- ReadMinimaps(m.1, n - 1);
      Done([m.0] + rest.0, rest.1)
  }

  lemma {:induction false} ReadMinimapsAt(r: Reader, ms: seq<MinimapWire>, tail: seq<Byte>)
    requires (forall k :: 0 <= k < |ms| ==> MinimapOk(ms[k])) && At(r, MinimapsOnto(ms, tail))
    ensures Parsed(ReadMinimaps(r, |ms|), ms, r, MinimapsOnto(ms, tail), tail)
    decreases |ms|
  {
    if |ms| > 0 {
      var rest := MinimapsOnto(ms[1..], tail);
      ReadMinimapAt(r, ms[0], rest);
      var r1 := ReadMinimap(r).next;
      ReadMinimapsAt(r1, ms[1..], tail);
      ReadMinimapsStep(r, |ms|, ms[0], r1, ms[1..], ReadMinimaps(r1, |ms[1..]|).next);
      ConsSplit(ms);
    }
  }

  lemma ReadMinimapsStep(r: Reader, n: nat, m: MinimapWire, r1: Reader, rest: seq<MinimapWire>, r2: Reader)
    requires n > 0 && ReadMinimap(r) == Done(m, r1) && ReadMinimaps(r1, n - 1) == Done(rest, r2)
    ensures ReadMinimaps(r, n) == Done([m] + rest, r2)
  {
  }

  /** One leaderboard row: a title and a u32 score. */
  datatype LeaderWire = LeaderWire(title: string, score: int)

  predicate LeaderOk(l: LeaderWire) {
    WireString(l.title) && U32Ok(l.score)
  }

  function LeaderOnto(l: LeaderWire, tail: seq<Byte>): seq<Byte> {
    StringBytes(l.title) + (U32(l.score) + tail)
  }

  function LeadersOnto(ls: seq<LeaderWire>, tail: seq<Byte>): seq<Byte> {
    if |ls| == 0 then tail else LeaderOnto(ls[0], LeadersOnto(ls[1..], tail))
  }

  /** One entry of case 11. */
  function ReadLeader(r: Reader): (s: Step<LeaderWire>)
    ensures s.Done? ==> s.next.data == r.data && s.next.offset > r.offset
  {
    var title :- ReadString(r);
    var score :- ReadBigUint(title.1);
    Done(LeaderWire(title.0, score.0), score.1)
  }

  lemma ReadLeaderAt(r: Reader, l: LeaderWire, tail: seq<Byte>)
    requires LeaderOk(l) && At(r, LeaderOnto(l, tail))
    ensures Parsed(ReadLeader(r), l, r, LeaderOnto(l, tail), tail)
  {
    ReadStringAt(r, l.title, U32(l.score) + tail);
    var r1 := Skip(r, |StringBytes(l.title)|);
    ReadBigUintAt(r1, l.score, tail);
  }

  function ReadLeaders(r: Reader, n: nat): (s: Step<seq<LeaderWire>>)
    ensures s.Done? ==> |s.value| == n && s.next.data == r.data && s.next.offset >= r.offset
    decreases n
  {
    if n == 0 then Done([], r)
    else
      var l :- ReadLeader(r);
      var rest :- ReadLeaders(l.1, n - 1);
      Done([l.0] + rest.0, rest.1)
  }

  lemma {:induction false} ReadLeadersAt(r: Reader, ls: seq<LeaderWire>, tail: seq<Byte>)
    requires (forall k :: 0 <= k < |ls| ==> LeaderOk(ls[k])) && At(r, LeadersOnto(ls, tail))
    ensures Parsed(ReadLeaders(r, |ls|), ls, r, LeadersOnto(ls, tail), tail)
    decreases |ls|
  {
    if |ls| > 0 {
      var rest := LeadersOnto(ls[1..], tail);
      ReadLeaderAt(r, ls[0], rest);
      var r1 := ReadLeader(r).next;
      ReadLeadersAt(r1, ls[1..], tail);
      ReadLeadersStep(r, |ls|, ls[0], r1, ls[1..], ReadLeaders(r1, |ls[1..]|).next);
      ConsSplit(ls);
    }
  }

  lemma ReadLeadersStep(r: Reader, n: nat, l: LeaderWire, r1: Reader, rest: seq<LeaderWire>, r2: Reader)
    requires n > 0 && ReadLeader(r) == Done(l, r1) && ReadLeaders(r1, n - 1) == Done(rest, r2)
    ensures ReadLeaders(r, n) == Done([l] + rest, r2)
  {
  }
}
