/** What the browser client does with each server message:
    `Socket.onMessage` of client/src/lib/socket.ts with its colour, border
    and shape decoders, and the legacy `socketOnMessage` of
    public/lib/socket.js. The bytes become a `ServerMessage` through
    `ServerMessages.ReadMessage` (whose reads are the clients' reads, field
    for field), except where a handler stops before the body; this module
    says what each message then does to the client's objects, lists and
    outgoing requests. */
module ClientSockets {
  import opened Wrappers
  import opened Bytes
  import opened Protocol
  import opened Messages
  import opened ServerMessages
  import opened Vec
  import Rgb
  import MessageStack

  // ---------------------------------------------------------------------
  // Colours

  /** A colour as the client keeps it: a CSS colour string, or `undefined`
      (an index past `numColor`, a team past `Team`). */
  type Css = Option<string>

  /** The tables the decoders consult. `numColor` and the named colours
      come from color.ts, which is not part of this model; `teamColors(t)`
      is `TeamColor[Team[t]]` for the teams 1 to 8. */
  datatype Palette = Palette(
    numColor: seq<string>, teamColors: int -> string, blue: string, green: string, black: string)

  /** The length of the `Team` table. */
  const TeamCount: int := 9

  /** `TeamColor[Team[team]]`: team 0 is `'FFA'`, whose table entry is the
      word `'FFA'` itself; teams past the table have no colour. */
  function TeamColor(p: Palette, team: int): (s: Css)
    ensures team == 0 ==> s == Some("FFA")
    ensures s.None? <==> !(0 <= team < TeamCount)
  {
    if team == 0 then Some("FFA")
    else if 0 < team < TeamCount then Some(p.teamColors(team))
    else None
  }

  /** The first read of both decoders: tag 0 is an inline string, any
      other tag is followed by an index into `numColor`. */
  function Lookup(p: Palette, c: Paint): Css {
    match c
    case Named(n) => Some(n)
    case Indexed(i) => if 0 <= i < |p.numColor| then Some(p.numColor[i]) else None
  }

  /** Why handling a message throws. */
  datatype Fault =
    | NoOwnEntity   // `this.entity!` (or the legacy `entity`) is still undefined
    | NotAColor     // `RGBColor.fromHex` of an undefined colour
    | UnknownType   // the default branch of client/src/lib/socket.ts
    | Truncated     // a read past the end of the message

  /** The named colours are not the words the decoders substitute. */
  predicate Plain(p: Palette) {
    p.blue != "FFA" && p.green != "FFA"
  }

  /** `decodeColor`: `'TeamColor'` becomes the team's colour; then `'FFA'`
      becomes blue when `team` is the own entity's team and green
      otherwise, which throws while there is no own entity. */
  function DecodeColor(p: Palette, c: Paint, team: int, own: Option<int>): (r: Result<Css, Fault>)
    ensures r.Failure? ==> own.None? && r.error == NoOwnEntity
    ensures r.Success? && Plain(p) ==> r.value != Some("FFA")
  {
    var s := if Lookup(p, c) == Some("TeamColor") then TeamColor(p, team) else Lookup(p, c);
    if s != Some("FFA") then Success(s)
    else if own.None? then Failure(NoOwnEntity)
    else if team == own.value then Success(Some(p.blue))
    else Success(Some(p.green))
  }

  /** An entry of `numColor` decodes exactly as the same word sent inline. */
  lemma IndexedAsNamed(p: Palette, i: int, team: int, own: Option<int>)
    requires 0 <= i < |p.numColor|
    ensures DecodeColor(p, Indexed(i), team, own) == DecodeColor(p, Named(p.numColor[i]), team, own)
  {
  }

  /** Both ways of being free-for-all (the word itself, or `'TeamColor'` on
      team 0): blue exactly for the own team, green for every other team. */
  lemma FfaColor(p: Palette, c: Paint, team: int, o: int)
    requires Lookup(p, c) == Some("FFA") || (Lookup(p, c) == Some("TeamColor") && team == 0)
    requires p.blue != p.green
    ensures DecodeColor(p, c, team, Some(o)) == Success(Some(p.blue)) <==> team == o
    ensures DecodeColor(p, c, team, Some(o)) == Success(Some(p.green)) <==> team != o
    ensures DecodeColor(p, c, team, None) == Failure(NoOwnEntity)
  {
  }

  /** Every other word, and `undefined`, passes through unchanged. */
  lemma ColorPassesThrough(p: Palette, c: Paint, team: int, own: Option<int>)
    requires Lookup(p, c) != Some("FFA") && Lookup(p, c) != Some("TeamColor")
    ensures DecodeColor(p, c, team, own) == Success(Lookup(p, c))
  {
  }

  /** `'AutoBorder'`: the colour mixed 0.7 with black, written back as hex. */
  function Darken(p: Palette, color: string): string {
    Rgb.Hex(Rgb.Mix(Rgb.FromHex(color), Rgb.FromHex(p.black), 0.7))
  }

  /** The border the first statements of `decodeBorder` compute. */
  function Border(p: Palette, b: Paint, team: int, color: Css): (r: Result<Css, Fault>)
    ensures r.Failure? <==> Lookup(p, b) == Some("AutoBorder") && color.None?
  {
    var s := Lookup(p, b);
    if s == Some("TeamColor") then Success(TeamColor(p, team))
    else if s == Some("AutoBorder") then
      if color.None? then Failure(NotAColor) else Success(Some(Darken(p, color.value)))
    else Success(s)
  }

  /** `decodeBorder`, including its last statement, which recolours an
      `'FFA'` colour into a local variable that is never read again; the
      statement can still throw while there is no own entity. */
  function DecodeBorder(p: Palette, b: Paint, team: int, color: Css, own: Option<int>): (r: Result<Css, Fault>)
  {
    var border := Border(p, b, team, color);
    if border.Success? && color == Some("FFA") && own.None? then Failure(NoOwnEntity) else border
  }

  /** The recolouring statement never changes the border a decoded colour
      leads to: `DecodeColor` never yields `'FFA'`, so `decodeBorder` is
      `Border` on every colour the client passes it. */
  lemma BorderAfterColor(p: Palette, c: Paint, b: Paint, team: int, own: Option<int>, color: Css)
    requires Plain(p) && DecodeColor(p, c, team, own) == Success(color)
    ensures DecodeBorder(p, b, team, color, own) == Border(p, b, team, color)
  {
  }

  /** What `Border` substitutes: the team colour for `'TeamColor'`, the
      darkened colour for `'AutoBorder'`, and every other word unchanged. */
  lemma BorderWords(p: Palette, b: Paint, team: int, color: string)
    ensures Lookup(p, b) == Some("TeamColor") ==> Border(p, b, team, Some(color)) == Success(TeamColor(p, team))
    ensures Lookup(p, b) == Some("AutoBorder") ==> Border(p, b, team, Some(color)) == Success(Some(Darken(p, color)))
    ensures Lookup(p, b) != Some("TeamColor") && Lookup(p, b) != Some("AutoBorder")
      ==> Border(p, b, team, Some(color)) == Success(Lookup(p, b))
  {
  }

  /** A darkened colour is a colour: for channels in range, its channels
      lie between the colour's and black's. */
  lemma DarkenInRange(p: Palette, color: string)
    requires Rgb.InRange(Rgb.FromHex(color)) && Rgb.InRange(Rgb.FromHex(p.black))
    ensures Rgb.InRange(Rgb.Mix(Rgb.FromHex(color), Rgb.FromHex(p.black), 0.7))
  {
  }

  // ---------------------------------------------------------------------
  // Shapes and props

  /** `decodeSides` as the client keeps it: an SVG path, a side count, or
      a polygon of points. */
  datatype Shape = Path(d: string) | Count(n: int) | Polygon(points: seq<Vector>)

  function Points(codec: FloatCodec, ps: seq<Point>): (vs: seq<Vector>)
    ensures |vs| == |ps|
    ensures forall k :: 0 <= k < |ps| ==> vs[k] == Vector(codec.decode(ps[k].0), codec.decode(ps[k].1))
  {
    seq(|ps|, k requires 0 <= k < |ps| => Vector(codec.decode(ps[k].0), codec.decode(ps[k].1)))
  }

  function ShapeOf(codec: FloatCodec, s: Sides): Shape {
    match s
    case SidesName(n) => Path(n)
    case SidesCount(n) => Count(n)
    case SidesPolygon(ps) => Polygon(Points(codec, ps))
  }

  datatype Prop = Prop(
    offset: Vector, angle: real, fixedAngle: bool, spin: real, spin2: real,
    color: Css, border: Css, size: real, shape: Shape, strokeWidth: real, alpha: real, layer: int)

  /** `Math.min(30, size)` (NaN is not modelled). */
  function Cap(size: real): (c: real)
    ensures c <= 30.0 && (c == size || c == 30.0)
    ensures size <= 30.0 ==> c == size
  {
    if size < 30.0 then size else 30.0
  }

  /** One iteration of the prop loops of cases 8 and 9: the prop's colour,
      then its border from that colour; case 9 caps the size at 30. */
  function DecodeProp(p: Palette, codec: FloatCodec, w: PropWire, team: int, own: Option<int>, cap: bool)
    : (r: Result<Prop, Fault>)
    ensures r.Success? ==> r.value.layer == w.layer && r.value.shape == ShapeOf(codec, w.sides)
    ensures r.Success? ==> r.value.size == if cap then Cap(codec.decode(w.size)) else codec.decode(w.size)
  {
    var color :- DecodeColor(p, w.color, team, own);
    var border :- DecodeBorder(p, w.border, team, color, own);
    var size := codec.decode(w.size);
    Success(Prop(Vector(codec.decode(w.offsetX), codec.decode(w.offsetY)), codec.decode(w.angle),
      w.fixedAngle, codec.decode(w.spin), codec.decode(w.spin2), color, border,
      if cap then Cap(size) else size, ShapeOf(codec, w.sides), codec.decode(w.strokeWidth),
      codec.decode(w.alpha), w.layer))
  }

  /** The whole prop loop: one prop per record, in wire order, or the first
      prop's fault. */
  function DecodeProps(p: Palette, codec: FloatCodec, ws: seq<PropWire>, team: int, own: Option<int>, cap: bool)
    : (r: Result<seq<Prop>, Fault>)
    ensures r.Success? ==> |r.value| == |ws|
    ensures r.Success? ==> forall k :: 0 <= k < |ws| ==> DecodeProp(p, codec, ws[k], team, own, cap) == Success(r.value[k])
    ensures r.Failure? <==> exists k :: 0 <= k < |ws| && DecodeProp(p, codec, ws[k], team, own, cap).Failure?
    decreases |ws|
  {
    if |ws| == 0 then Success([])
    else
      var first :- DecodeProp(p, codec, ws[0], team, own, cap);
      var rest :- DecodeProps(p, codec, ws[1..], team, own, cap);
      assert forall k :: 1 <= k < |ws| ==> ws[k] == ws[1..][k - 1];
      Success([first] + rest)
  }

  // ---------------------------------------------------------------------
  // Ordering props by layer (case 8 of client/src/lib/socket.ts)

  predicate LayerSorted(ps: seq<Prop>) {
    forall i, j :: 0 <= i < j < |ps| ==> ps[i].layer <= ps[j].layer
  }

  /** Insert `q` before the first prop of a layer at least its own. */
  function Insert(q: Prop, ps: seq<Prop>): (r: seq<Prop>)
    ensures multiset(r) == multiset(ps) + multiset{q}
    ensures |r| == |ps| + 1 && (r[0] == q || (|ps| > 0 && r[0] == ps[0]))
    decreases |ps|
  {
    if |ps| == 0 || q.layer <= ps[0].layer then [q] + ps
    else
      assert ps == [ps[0]] + ps[1..];
      [ps[0]] + Insert(q, ps[1..])
  }

  /** Inserting into a sorted sequence keeps it sorted. */
  lemma {:induction false} InsertSorted(q: Prop, ps: seq<Prop>)
    requires LayerSorted(ps)
    ensures LayerSorted(Insert(q, ps))
    decreases |ps|
  {
    if |ps| > 0 && q.layer > ps[0].layer {
      var rest := Insert(q, ps[1..]);
      InsertSorted(q, ps[1..]);
      assert rest[0] == q || rest[0] == ps[1];
      var r := [ps[0]] + rest;
      assert r == Insert(q, ps);
      forall i, j | 0 <= i < j < |r|
        ensures r[i].layer <= r[j].layer
      {
        if i == 0 {
          assert rest[0].layer >= ps[0].layer;
          assert r[j] == rest[j - 1];
          if j > 1 {
            assert rest[0].layer <= rest[j - 1].layer;
          }
        } else {
          assert r[i] == rest[i - 1] && r[j] == rest[j - 1];
        }
      }
    }
  }

  /** `props.sort((a, b) => a.layer - b.layer)`: the same props, by
      ascending layer. */
  function SortByLayer(ps: seq<Prop>): (r: seq<Prop>)
    ensures multiset(r) == multiset(ps)
    ensures LayerSorted(r)
    decreases |ps|
  {
    if |ps| == 0 then []
    else
      assert ps == [ps[0]] + ps[1..];
      var rest := SortByLayer(ps[1..]);
      InsertSorted(ps[0], rest);
      Insert(ps[0], rest)
  }

  // ---------------------------------------------------------------------
  // Client state

  /** The look a mockup supplies: `sides`, `alpha`, `strokeWidth`, `props`. */
  datatype Appearance = Appearance(shape: Shape, alpha: real, strokeWidth: real, props: seq<Prop>)

  /** An upgrade card of case 9 (its angle 0 and size 10 are constants). */
  datatype Card = Card(classLabel: string, color: Css, border: Css, look: Appearance)

  /** The fields of an `Entity` object the handlers write. Legacy-only
      fields (`skillPoints`, `skills`) and the newer `iamMAIN` flag (`main`)
      live side by side. */
  datatype Body = Body(
    id: int, health: real, shield: real, angle: real, pos: Vector, serverPos: Vector,
    score: int, size: real, attackTime: int, level: int, levelScore: int,
    team: int, maxHealth: real, maxShield: real, showHealth: bool, showName: bool, showScore: bool,
    fov: real, name: string, color: Css, border: Css, mockupId: int, classLabel: string, look: Appearance,
    isLoaded: bool, canSee: bool, fadeStart: Option<real>, main: bool,
    upgrades: seq<Card>, skillPoints: int, skills: seq<SkillWire>)

  /** A minimap marker of case 10. */
  datatype Marker = Marker(pos: Vector, team: int, color: Css, fixed: Option<(real, int)>)

  /** A leaderboard row of case 11. */
  datatype Row = Row(title: string, score: int)

  datatype World = World(width: real, height: real, tick: real)

  /** The client. Entity objects are references: `objs` is the heap they
      live in (a new `Entity()` is appended), `self` is `this.entity`,
      `byId` is `idToEntity` and `shown` is the `entities` set. Two ids
      can name one object, as the source's map can. */
  datatype Client = Client(
    objs: seq<Body>, self: Option<nat>, byId: map<int, nat>, shown: set<nat>,
    world: World, mockups: map<int, Appearance>, minimap: seq<Marker>, leaderboard: seq<Row>,
    stack: seq<MessageStack.Entry>, uuid: string)

  /** Every reference points into the heap. */
  predicate Valid(c: Client) {
    (c.self.Some? ==> c.self.value < |c.objs|)
    && (forall id :: id in c.byId ==> c.byId[id] < |c.objs|)
    && (forall k :: k in c.shown ==> k < |c.objs|)
  }

  /** What the client sends back over the socket: an info request (type 2),
      a look request (type 6), or the legacy client's join (type 0) on
      reconnecting. */
  datatype Request = InfoRequest(id: int) | LookRequest(id: int) | Rejoin(name: string)

  /** The client's new state and what it sent while handling one message. */
  datatype Reply = Reply(client: Client, sends: seq<Request>)

  /** What the handlers depend on besides the message: the colour tables,
      the float codec, and the name the legacy client joins with. */
  datatype Env = Env(palette: Palette, codec: FloatCodec, name: string)

  /** Which of the two clients: client/src/lib/socket.ts (`Module`) or
      public/lib/socket.js (`Legacy`). */
  datatype Build = Module | Legacy

  /** A new `Entity()`. The legacy class starts with the string `'FFA'` as
      its team, which no number read from the wire equals and no table
      entry is found under; team -1 behaves the same. */
  function Fresh(env: Env, build: Build): (b: Body)
    ensures b.maxHealth == 100.0 && !b.canSee && b.fadeStart.None? && !b.isLoaded
  {
    Body(0, 100.0, 10.0, 0.0, Vector(0.0, 0.0), Vector(0.0, 0.0),
      0, 0.0, 0, 0, 0,
      if build == Legacy then -1 else 0, 100.0, 1100.0, true, true, true,
      100.0, "Entity", Some(env.palette.black), Some(env.palette.black), 0, "Entity",
      Appearance(Count(0), 1.0, 0.0, []),
      false, false, None, false,
      [], 0, [])
  }

  /** The team of `this.entity`, when there is one. */
  function OwnTeam(c: Client): Option<int>
    requires Valid(c)
  {
    if c.self.Some? then Some(c.objs[c.self.value].team) else None
  }

  /** The object cases 5 and 8 update: the one known by `id`, or else the
      own entity. */
  function Target(c: Client, id: int): (t: Option<nat>)
    requires Valid(c)
    ensures t.Some? ==> t.value < |c.objs|
    ensures t.None? <==> id !in c.byId && c.self.None?
  {
    if id in c.byId then Some(c.byId[id]) else c.self
  }

  // ---------------------------------------------------------------------
  // Cases 1 and 2: entity data

  /** `entity.maxHealth && entity.health > entity.maxHealth`: a non-zero
      maximum is raised to a larger health. */
  function Raised(max: real, health: real): (m: real)
    ensures max == 0.0 ==> m == 0.0
    ensures max != 0.0 ==> m >= max && m >= health && (m == max || m == health)
  {
    if max != 0.0 && health > max then health else max
  }

  /** `lerp`: eight tenths of the way from `a` to `b`. */
  function Lerp(a: real, b: real): (r: real)
    ensures a <= b ==> a <= r <= b
    ensures b <= a ==> b <= r <= a
    ensures r - b == (a - b) / 5.0
  {
    a + (b - a) * 0.8
  }

  /** How a handler places a body at the position it read: `Jump` sets
      `pos`, `Smooth` sets `serverPos` and moves `pos` eight tenths of the
      way there, `Track` sets only `serverPos`. */
  datatype Move = Jump | Smooth | Track

  /** The fields cases 1 and 2 copy from one `EntityData` record. */
  function Land(codec: FloatCodec, b: Body, d: EntityDataWire, move: Move): (n: Body)
    ensures n.id == d.id && n.score == d.score && n.attackTime == d.attackAge && n.canSee
    ensures n.health == codec.decode(d.health) && n.maxHealth == Raised(b.maxHealth, n.health)
    ensures move == Jump ==> n.pos == Vector(codec.decode(d.x), codec.decode(d.y)) && n.serverPos == b.serverPos
    ensures move != Jump ==> n.serverPos == Vector(codec.decode(d.x), codec.decode(d.y))
    ensures move == Smooth ==> n.pos == Vector(Lerp(b.pos.x, n.serverPos.x), Lerp(b.pos.y, n.serverPos.y))
    ensures move == Track ==> n.pos == b.pos
    ensures n.(id := b.id, health := b.health, shield := b.shield, angle := b.angle, pos := b.pos,
      serverPos := b.serverPos, score := b.score, size := b.size, attackTime := b.attackTime,
      maxHealth := b.maxHealth, canSee := b.canSee) == b
  {
    var health := codec.decode(d.health);
    var at := Vector(codec.decode(d.x), codec.decode(d.y));
    var n := b.(id := d.id, health := health, shield := codec.decode(d.shield),
      angle := codec.decode(d.angle), maxHealth := Raised(b.maxHealth, health),
      score := d.score, size := codec.decode(d.size), attackTime := d.attackAge, canSee := true);
    match move
    case Jump => n.(pos := at)
    case Smooth => n.(serverPos := at, pos := Vector(Lerp(b.pos.x, at.x), Lerp(b.pos.y, at.y)))
    case Track => n.(serverPos := at)
  }

  /** Case 1: the own entity, created (and its info requested) the first
      time. The newer client smooths later positions; the legacy one only
      records them in `serverPos`. */
  function SelfUpdate(env: Env, build: Build, c: Client, d: EntityDataWire): (r: Reply)
    requires Valid(c)
    ensures Valid(r.client)
  {
    var isNew := c.self.None?;
    var ref := if isNew then |c.objs| else c.self.value;
    var b := if isNew then Fresh(env, build) else c.objs[ref];
    var moved := Land(env.codec, b, d, if isNew then Jump else if build == Legacy then Track else Smooth);
    var n := if build == Legacy then moved else moved.(main := true);
    var objs := if isNew then c.objs + [n] else c.objs[ref := n];
    Reply(c.(objs := objs, self := Some(ref), byId := c.byId[d.id := ref], shown := c.shown + {ref}),
      if isNew then [InfoRequest(d.id)] else [])
  }

  /** Case 2: another entity, created (and its info requested) when its id
      is unknown. The newer client smooths a visible entity's position;
      the legacy one always jumps. */
  function OtherUpdate(env: Env, build: Build, c: Client, d: EntityDataWire): (r: Reply)
    requires Valid(c)
    ensures Valid(r.client)
  {
    var isNew := d.id !in c.byId;
    var ref := if isNew then |c.objs| else c.byId[d.id];
    var b := if isNew then Fresh(env, build) else c.objs[ref];
    var n := Land(env.codec, b, d, if build == Module && !isNew && b.canSee then Smooth else Jump);
    var objs := if isNew then c.objs + [n] else c.objs[ref := n];
    Reply(c.(objs := objs, byId := c.byId[d.id := ref], shown := c.shown + {ref}),
      if isNew then [InfoRequest(d.id)] else [])
  }

  // ---------------------------------------------------------------------
  // Cases 3 to 12

  /** Case 3: a known entity starts fading out at `now`. */
  function Fade(c: Client, id: int, now: real): (n: Client)
    requires Valid(c)
    ensures Valid(n)
  {
    if id in c.byId then
      var ref := c.byId[id];
      c.(objs := c.objs[ref := c.objs[ref].(fadeStart := Some(now))])
    else c
  }

  /** Case 5: the target's team, limits, flags, name, colours and mockup
      id; then its look from the mockup cache, or a look request for the
      target's own id. */
  function Describe(env: Env, c: Client, e: EntityInfoWire): (r: Result<Reply, Fault>)
    requires Valid(c)
    ensures r.Success? ==> Valid(r.value.client)
  {
    match Target(c, e.id)
    case None => Success(Reply(c, []))
    case Some(ref) =>
      var codec := env.codec;
      var b := c.objs[ref].(team := e.team, maxHealth := codec.decode(e.maxHealth),
        maxShield := codec.decode(e.maxShield), showHealth := e.showHealth, showName := e.showName,
        showScore := e.showScore, fov := codec.decode(e.fov), name := e.name);
      var c1 := c.(objs := c.objs[ref := b]);
      var own := OwnTeam(c1);
      var color :- DecodeColor(env.palette, e.color, b.team, own);
      var border :- DecodeBorder(env.palette, e.border, b.team, color, own);
      var n := b.(color := color, border := border, mockupId := e.mockupId);
      if e.mockupId in c.mockups then
        Success(Reply(c.(objs := c.objs[ref := n.(look := c.mockups[e.mockupId], isLoaded := true)]), []))
      else
        Success(Reply(c.(objs := c.objs[ref := n]), [LookRequest(n.id)]))
  }

  /** Case 6: the own entity's score and level. */
  function Progress(c: Client, score: int, level: int, levelScore: int): (r: Result<Client, Fault>)
    requires Valid(c)
    ensures r.Failure? <==> c.self.None?
    ensures r.Success? ==> Valid(r.value)
  {
    if c.self.None? then Failure(NoOwnEntity)
    else
      var ref := c.self.value;
      Success(c.(objs := c.objs[ref := c.objs[ref].(score := score, level := level, levelScore := levelScore)]))
  }

  /** Case 8: the target's label and look; the newer client orders the
      props by layer, the legacy comparator (`a - b` on objects, always
      NaN) leaves them in wire order. A target with a non-zero mockup id
      stores the look in the cache. */
  function Shaped(env: Env, build: Build, c: Client, m: EntityMockupWire): (r: Result<Client, Fault>)
    requires Valid(c)
    ensures r.Success? ==> Valid(r.value)
  {
    match Target(c, m.id)
    case None => Success(c)
    case Some(ref) =>
      var b := c.objs[ref];
      var codec := env.codec;
      var props :- DecodeProps(env.palette, codec, m.mockup.props, b.team, OwnTeam(c), false);
      var look := Appearance(ShapeOf(codec, m.mockup.sides), codec.decode(m.mockup.alpha),
        codec.decode(m.mockup.strokeWidth), if build == Module then SortByLayer(props) else props);
      var objs := c.objs[ref := b.(classLabel := m.classLabel, look := look, isLoaded := true)];
      Success(c.(objs := objs, mockups := if b.mockupId != 0 then c.mockups[b.mockupId := look] else c.mockups))
  }

  /** One upgrade card: its colour for the own team, but its border
      derived from the own entity's colour (`this.entity!.color`), then its
      look with every prop capped at size 30. */
  function DecodeCard(env: Env, u: UpgradeWire, team: int, selfColor: Css): (r: Result<Card, Fault>)
    ensures r.Success? ==> r.value.classLabel == u.classLabel && |r.value.look.props| == |u.mockup.props|
    ensures r.Success? ==> forall k :: 0 <= k < |r.value.look.props| ==> r.value.look.props[k].size <= 30.0
    ensures r.Success? ==> Border(env.palette, u.border, team, selfColor) == Success(r.value.border)
  {
    var p := env.palette;
    var codec := env.codec;
    var color := DecodeColor(p, u.color, team, Some(team)).value;
    var border :- DecodeBorder(p, u.border, team, selfColor, Some(team));
    var props :- DecodeProps(p, codec, u.mockup.props, team, Some(team), true);
    Success(Card(u.classLabel, color, border, Appearance(ShapeOf(codec, u.mockup.sides),
      codec.decode(u.mockup.alpha), codec.decode(u.mockup.strokeWidth), props)))
  }

  function DecodeCards(env: Env, us: seq<UpgradeWire>, team: int, selfColor: Css): (r: Result<seq<Card>, Fault>)
    ensures r.Success? ==> |r.value| == |us|
    ensures r.Success? ==> forall k :: 0 <= k < |us| ==> DecodeCard(env, us[k], team, selfColor) == Success(r.value[k])
    decreases |us|
  {
    if |us| == 0 then Success([])
    else
      var first :- DecodeCard(env, us[0], team, selfColor);
      var rest :- DecodeCards(env, us[1..], team, selfColor);
      assert forall k :: 1 <= k < |us| ==> us[k] == us[1..][k - 1];
      Success([first] + rest)
  }

  /** Case 9: the own entity's upgrade cards, replaced. */
  function Offer(env: Env, c: Client, us: seq<UpgradeWire>): (r: Result<Client, Fault>)
    requires Valid(c)
    ensures c.self.None? ==> r == Failure(NoOwnEntity)
    ensures r.Success? ==> Valid(r.value)
  {
    if c.self.None? then Failure(NoOwnEntity)
    else
      var ref := c.self.value;
      var b := c.objs[ref];
      var cards :- DecodeCards(env, us, b.team, b.color);
      Success(c.(objs := c.objs[ref := b.(upgrades := cards)]))
  }

  /** One minimap entry; its colour is decoded for the entry's own team. */
  function DecodeMarker(env: Env, m: MinimapWire, own: Option<int>): (r: Result<Marker, Fault>)
    ensures r.Success? ==> r.value.team == m.team && (r.value.fixed.Some? <==> m.fixed.Some?)
  {
    var codec := env.codec;
    var color :- DecodeColor(env.palette, m.color, m.team, own);
    Success(Marker(Vector(codec.decode(m.x), codec.decode(m.y)), m.team, color,
      if m.fixed.Some? then Some((codec.decode(m.fixed.value.size), m.fixed.value.sides)) else None))
  }

  function DecodeMarkers(env: Env, ms: seq<MinimapWire>, own: Option<int>): (r: Result<seq<Marker>, Fault>)
    ensures r.Success? ==> |r.value| == |ms|
    ensures r.Success? ==> forall k :: 0 <= k < |ms| ==> DecodeMarker(env, ms[k], own) == Success(r.value[k])
    decreases |ms|
  {
    if |ms| == 0 then Success([])
    else
      var first :- DecodeMarker(env, ms[0], own);
      var rest :- DecodeMarkers(env, ms[1..], own);
      assert forall k :: 1 <= k < |ms| ==> ms[k] == ms[1..][k - 1];
      Success([first] + rest)
  }

  /** Case 11's rows. */
  function Rows(ls: seq<LeaderWire>): (rs: seq<Row>)
    ensures |rs| == |ls|
    ensures forall k :: 0 <= k < |ls| ==> rs[k] == Row(ls[k].title, ls[k].score)
  {
    seq(|ls|, k requires 0 <= k < |ls| => Row(ls[k].title, ls[k].score))
  }

  /** Case 12 of the legacy client: the own entity's skill points and
      skills. */
  function Skilled(c: Client, points: int, skills: seq<SkillWire>): (r: Result<Client, Fault>)
    requires Valid(c)
    ensures r.Failure? <==> c.self.None?
    ensures r.Success? ==> Valid(r.value)
  {
    if c.self.None? then Failure(NoOwnEntity)
    else
      var ref := c.self.value;
      Success(c.(objs := c.objs[ref := c.objs[ref].(skillPoints := points, skills := skills)]))
  }

  // ---------------------------------------------------------------------
  // Dispatch

  /** The branch of the message's type, shared by both clients; they differ
      in case 0 (the newer client leaves it to its caller, the legacy one
      stores the new session id and rejoins), in how cases 1, 2 and 8 treat
      positions and props, and in case 12, which only the legacy client
      knows. */
  function Handle(env: Env, build: Build, c: Client, m: ServerMessage, now: real): (r: Result<Reply, Fault>)
    requires Valid(c)
    ensures r.Success? ==> Valid(r.value.client)
  {
    var codec := env.codec;
    match m
    case Hello(uuid) =>
      if build == Module then Success(Reply(c, []))
      else Success(Reply(c.(uuid := uuid), [Rejoin(env.name)]))
    case SelfData(d) => Success(SelfUpdate(env, build, c, d))
    case OtherData(d) => Success(OtherUpdate(env, build, c, d))
    case Removed(id) => Success(Reply(Fade(c, id, now), []))
    case WorldSize(w, h, t) =>
      Success(Reply(c.(world := World(codec.decode(w), codec.decode(h), codec.decode(t))), []))
    case Info(e) => Describe(env, c, e)
    case Stats(score, level, levelScore) =>
      var n :- Progress(c, score, level, levelScore);
      Success(Reply(n, []))
    case Chat(text) => Success(Reply(c.(stack := MessageStack.Add(c.stack, text)), []))
    case Look(l) =>
      var n :- Shaped(env, build, c, l);
      Success(Reply(n, []))
    case Upgrades(us) =>
      var n :- Offer(env, c, us);
      Success(Reply(n, []))
    case Minimap(ms) =>
      var marks :- DecodeMarkers(env, ms, OwnTeam(c));
      Success(Reply(c.(minimap := marks), []))
    case Leaderboard(ls) => Success(Reply(c.(leaderboard := Rows(ls)), []))
    case Skills(points, skills) =>
      if build == Module then Failure(UnknownType)
      else
        var n :- Skilled(c, points, skills);
        Success(Reply(n, []))
  }

  /** `Socket.onMessage` on what `ReadMessage` produced (`None` for a type
      past 12): the reply and the handler's return value, `false` for
      type 0 and `true` for every other type it knows; any other type
      throws. */
  function OnMessage(env: Env, c: Client, m: Option<ServerMessage>, now: real): (r: Result<(Reply, bool), Fault>)
    requires Valid(c)
    ensures m.None? || m.value.Skills? ==> r == Failure(UnknownType)
    ensures m.Some? && m.value.Hello? ==> r == Success((Reply(c, []), false))
    ensures r.Success? ==> m.Some? && (r.value.1 <==> !m.value.Hello?) && Valid(r.value.0.client)
  {
    if m.None? then Failure(UnknownType)
    else
      var reply :- Handle(env, Module, c, m.value, now);
      Success((reply, !m.value.Hello?))
  }

  /** `socketOnMessage` of the legacy client: an unknown type is only
      logged. */
  function LegacyOnMessage(env: Env, c: Client, m: Option<ServerMessage>, now: real): (r: Result<Reply, Fault>)
    requires Valid(c)
    ensures m.None? ==> r == Success(Reply(c, []))
    ensures r.Success? ==> Valid(r.value.client)
  {
    if m.None? then Success(Reply(c, []))
    else Handle(env, Legacy, c, m.value, now)
  }

  /** Where a handler stops before the body: the newer client returns
      `false` on type 0 without reading on, and both clients leave cases 5
      and 8 right after the id when it names no object and there is no own
      entity. `Some` of the handler's return value, or `None` when the
      whole message is read. */
  function StopsEarly(build: Build, c: Client, bytes: seq<Byte>): (r: Option<bool>)
    requires Valid(c)
    ensures r.Some? ==> 2 <= |bytes|
    ensures r == Some(false) ==> build == Module
  {
    match ReadUint(Reader(bytes, 0))
    case Threw(_) => None
    case Done(tag, rest) =>
      if tag == 0 && build == Module then Some(false)
      else if tag == 5 || tag == 8 then
        match ReadBigUint(rest)
        case Threw(_) => None
        case Done(id, _) => if Target(c, id).None? then Some(true) else None
      else None
  }

  /** `onMessage` on the bytes of one message: it reads as far as its
      branch goes, and a read past the end throws. */
  function Receive(env: Env, c: Client, bytes: seq<Byte>, now: real): (r: Result<(Reply, bool), Fault>)
    requires Valid(c)
    ensures |bytes| < 2 ==> r == Failure(Truncated)
    ensures r.Success? && !r.value.1 ==> r.value.0 == Reply(c, [])
    ensures r.Success? ==> Valid(r.value.0.client)
  {
    match StopsEarly(Module, c, bytes)
    case Some(more) => Success((Reply(c, []), more))
    case None =>
      match ReadMessage(Reader(bytes, 0))
      case Threw(_) => Failure(Truncated)
      case Done(m, _) => OnMessage(env, c, m, now)
  }

  /** `socketOnMessage` on the bytes of one message; its case 0 reads the
      session id before it stops. */
  function LegacyReceive(env: Env, c: Client, bytes: seq<Byte>, now: real): (r: Result<Reply, Fault>)
    requires Valid(c)
    ensures |bytes| < 2 ==> r == Failure(Truncated)
    ensures r.Success? ==> Valid(r.value.client)
  {
    match StopsEarly(Legacy, c, bytes)
    case Some(_) => Success(Reply(c, []))
    case None =>
      match ReadMessage(Reader(bytes, 0))
      case Threw(_) => Failure(Truncated)
      case Done(m, _) => LegacyOnMessage(env, c, m, now)
  }

  /** Cases 5 and 8 about an id with no object, while there is no own
      entity, leave the client as it was. */
  lemma HandleNoTarget(env: Env, build: Build, c: Client, m: ServerMessage, now: real)
    requires Valid(c) && (m.Info? || m.Look?)
    requires Target(c, if m.Info? then m.info.id else m.look.id).None?
    ensures Handle(env, build, c, m, now) == Success(Reply(c, []))
  {
  }

  /** The parts a handler reads before it may stop are the first parts of
      the message `ReadMessage` reads: the type and, for cases 5 and 8,
      the id. */
  lemma StopsEarlyComplete(build: Build, c: Client, bytes: seq<Byte>)
    requires Valid(c) && ReadMessage(Reader(bytes, 0)).Done?
    ensures var m := ReadMessage(Reader(bytes, 0)).value;
      StopsEarly(build, c, bytes).Some? <==>
        m.Some? && ((build == Module && m.value.Hello?)
          || (m.value.Info? && Target(c, m.value.info.id).None?)
          || (m.value.Look? && Target(c, m.value.look.id).None?))
  {
    var r := Reader(bytes, 0);
    var tag := ReadUint(r);
    assert ReadMessage(r) == ReadBody(tag.value, tag.next);
    if tag.value <= 12 {
      var body := ReaderFor(tag.value)(tag.next);
      assert ReadMessage(r).value == Some(body.value);
      if tag.value == 0 {
        assert body.value.Hello?;
      } else if tag.value == 5 {
        assert body.value.Info? && body.value.info.id == ReadBigUint(tag.next).value;
      } else if tag.value == 8 {
        assert body.value.Look? && body.value.look.id == ReadBigUint(tag.next).value;
      } else {
        assert !body.value.Hello? && !body.value.Info? && !body.value.Look?;
      }
    }
  }

  /** Stopping early is invisible once the whole message is there: on bytes
      that read as a complete message both handlers do what the decoded
      message asks. They differ from reading everything first only on
      messages cut short after the part a branch needs. */
  lemma ReceiveComplete(env: Env, c: Client, bytes: seq<Byte>, now: real)
    requires Valid(c) && ReadMessage(Reader(bytes, 0)).Done?
    ensures Receive(env, c, bytes, now) == OnMessage(env, c, ReadMessage(Reader(bytes, 0)).value, now)
  {
    var m := ReadMessage(Reader(bytes, 0)).value;
    StopsEarlyComplete(Module, c, bytes);
    if StopsEarly(Module, c, bytes).Some? && !m.value.Hello? {
      HandleNoTarget(env, Module, c, m.value, now);
    }
  }

  lemma LegacyReceiveComplete(env: Env, c: Client, bytes: seq<Byte>, now: real)
    requires Valid(c) && ReadMessage(Reader(bytes, 0)).Done?
    ensures LegacyReceive(env, c, bytes, now) == LegacyOnMessage(env, c, ReadMessage(Reader(bytes, 0)).value, now)
  {
    var m := ReadMessage(Reader(bytes, 0)).value;
    StopsEarlyComplete(Legacy, c, bytes);
    if StopsEarly(Legacy, c, bytes).Some? {
      HandleNoTarget(env, Legacy, c, m.value, now);
    }
  }

  /** Type 0 on the newer client: `false`, and nothing else is read. */
  lemma ReceiveHello(env: Env, c: Client, rest: seq<Byte>, now: real)
    requires Valid(c)
    ensures Receive(env, c, U16(0) + rest, now) == Success((Reply(c, []), false))
  {
    var bs := U16(0) + rest;
    AtSuffix(bs, 0, bs);
    ReadUintAt(Reader(bs, 0), 0, rest);
  }

  /** Cases 5 and 8 about an id the client has no object for, while it has
      no own entity: both clients stop after the id and change nothing,
      whatever follows it. */
  lemma ReceiveNoTarget(env: Env, c: Client, tag: nat, id: nat, rest: seq<Byte>, now: real)
    requires Valid(c) && (tag == 5 || tag == 8) && id < TwoTo32
    requires id !in c.byId && c.self.None?
    ensures Receive(env, c, U16(tag) + (U32(id) + rest), now) == Success((Reply(c, []), true))
    ensures LegacyReceive(env, c, U16(tag) + (U32(id) + rest), now) == Success(Reply(c, []))
  {
    var bs := U16(tag) + (U32(id) + rest);
    var r := Reader(bs, 0);
    AtSuffix(bs, 0, bs);
    ReadUintAt(r, tag, U32(id) + rest);
    ReadBigUintAt(Skip(r, 2), id, rest);
  }

  /** The six bytes of a case 5 that stops after the id 9. */
  lemma CutInfoBytes()
    ensures U16(5) + (U32(9) + []) == [5, 0, 9, 0, 0, 0]
  {
    assert U16(5) == [5, 0];
    assert U32(9) == [9, 0, 0, 0];
  }

  /** Read in full, those bytes throw: the team after the id is missing. */
  lemma CutInfoThrows()
    ensures ReadMessage(Reader([5, 0, 9, 0, 0, 0], 0)).Threw?
  {
    var bs: seq<Byte> := [5, 0, 9, 0, 0, 0];
    var r := Reader(bs, 0);
    assert ReadUint(r).Done? && ReadUint(r).value == 5;
    assert ReadBigUint(Reader(bs, 2)).Done?;
    assert ReadUint(Reader(bs, 6)).Threw?;
    assert ReadEntityInfo(Reader(bs, 2)).Threw?;
  }

  /** For example, a case 5 that ends right after the id 9: read in full it
      would throw, yet neither client throws. */
  lemma ReceiveCutInfo(env: Env, c: Client, now: real)
    requires Valid(c) && 9 !in c.byId && c.self.None?
    ensures ReadMessage(Reader([5, 0, 9, 0, 0, 0], 0)).Threw?
    ensures Receive(env, c, [5, 0, 9, 0, 0, 0], now) == Success((Reply(c, []), true))
    ensures LegacyReceive(env, c, [5, 0, 9, 0, 0, 0], now) == Success(Reply(c, []))
  {
    CutInfoBytes();
    CutInfoThrows();
    ReceiveNoTarget(env, c, 5, 9, [], now);
  }

  /** Whatever the server sends reaches the handlers as the message it
      wrote: the clients' reads are the server's writes. */
  lemma ReceiveWritten(env: Env, c: Client, m: ServerMessage, now: real)
    requires Valid(c) && MessageOk(m)
    ensures Receive(env, c, MessageBytes(m), now) == OnMessage(env, c, Some(m), now)
    ensures LegacyReceive(env, c, MessageBytes(m), now) == LegacyOnMessage(env, c, Some(m), now)
  {
    MessageRoundTrip(m);
    ReceiveComplete(env, c, MessageBytes(m), now);
    LegacyReceiveComplete(env, c, MessageBytes(m), now);
  }

  // ---------------------------------------------------------------------
  // What each case does

  /** Case 1: the first data creates the own entity and asks for its info
      once; later data update the same object in place. */
  lemma SelfDataSpec(env: Env, build: Build, c: Client, d: EntityDataWire, now: real) returns (r: Reply)
    requires Valid(c)
    ensures Handle(env, build, c, SelfData(d), now) == Success(r)
    ensures r.client.self.Some? && d.id in r.client.byId && r.client.byId[d.id] == r.client.self.value
    ensures r.sends == [InfoRequest(d.id)] <==> c.self.None?
    ensures c.self.Some? ==> r.sends == [] && r.client.self == c.self && |r.client.objs| == |c.objs|
    ensures c.self.None? ==> |r.client.objs| == |c.objs| + 1 && r.client.objs[..|c.objs|] == c.objs
  {
    r := SelfUpdate(env, build, c, d);
  }

  /** Case 1 positions: a new own entity is placed; later the newer client
      moves it eight tenths of the way and the legacy one leaves `pos`
      alone and records the server position. */
  lemma SelfDataMoves(env: Env, build: Build, c: Client, d: EntityDataWire, now: real) returns (b: Body)
    requires Valid(c)
    ensures Handle(env, build, c, SelfData(d), now).Success?
    ensures var n := Handle(env, build, c, SelfData(d), now).value.client;
      n.self.Some? && n.self.value < |n.objs| && b == n.objs[n.self.value]
    ensures c.self.None? ==> b.pos == Vector(env.codec.decode(d.x), env.codec.decode(d.y))
    ensures c.self.Some? ==> b.serverPos == Vector(env.codec.decode(d.x), env.codec.decode(d.y))
    ensures c.self.Some? && build == Module ==>
      b.pos == Vector(Lerp(c.objs[c.self.value].pos.x, b.serverPos.x), Lerp(c.objs[c.self.value].pos.y, b.serverPos.y))
    ensures c.self.Some? && build == Legacy ==> b.pos == c.objs[c.self.value].pos
    ensures build == Module ==> b.main
  {
    var n := SelfUpdate(env, build, c, d).client;
    b := n.objs[n.self.value];
  }

  /** Case 2: an unknown id gets a new object and exactly one info request;
      a known id's object is updated in place, and nothing is sent. */
  lemma OtherDataSpec(env: Env, build: Build, c: Client, d: EntityDataWire, now: real) returns (r: Reply)
    requires Valid(c)
    ensures Handle(env, build, c, OtherData(d), now) == Success(r)
    ensures r.sends == [InfoRequest(d.id)] <==> d.id !in c.byId
    ensures r.client.self == c.self && d.id in r.client.byId && r.client.byId[d.id] in r.client.shown
    ensures d.id in c.byId ==> r.sends == [] && r.client.byId == c.byId && |r.client.objs| == |c.objs|
    ensures d.id in c.byId ==> forall k :: 0 <= k < |c.objs| && k != c.byId[d.id] ==> r.client.objs[k] == c.objs[k]
    ensures d.id !in c.byId ==> r.client.byId == c.byId[d.id := |c.objs|] && |r.client.objs| == |c.objs| + 1
    ensures d.id !in c.byId ==> r.client.objs[..|c.objs|] == c.objs
  {
    r := OtherUpdate(env, build, c, d);
  }

  /** Case 2 positions: the legacy client always jumps to the server
      position; the newer client jumps for a new or hidden entity and
      otherwise moves eight tenths of the way. */
  lemma OtherDataMoves(env: Env, build: Build, c: Client, d: EntityDataWire, now: real) returns (b: Body)
    requires Valid(c)
    ensures Handle(env, build, c, OtherData(d), now).Success?
    ensures var n := Handle(env, build, c, OtherData(d), now).value.client;
      d.id in n.byId && n.byId[d.id] < |n.objs| && b == n.objs[n.byId[d.id]]
    ensures b.canSee
    ensures build == Legacy || d.id !in c.byId || !c.objs[c.byId[d.id]].canSee ==>
      b.pos == Vector(env.codec.decode(d.x), env.codec.decode(d.y))
    ensures build == Module && d.id in c.byId && c.objs[c.byId[d.id]].canSee ==>
      b.serverPos == Vector(env.codec.decode(d.x), env.codec.decode(d.y))
      && b.pos == Vector(Lerp(c.objs[c.byId[d.id]].pos.x, b.serverPos.x), Lerp(c.objs[c.byId[d.id]].pos.y, b.serverPos.y))
  {
    var n := OtherUpdate(env, build, c, d).client;
    b := n.objs[n.byId[d.id]];
  }

  /** Case 3 only starts the fade: the entity stays in `entities` and
      `idToEntity`, and no other field or object changes. */
  lemma RemovedOnlyFades(env: Env, build: Build, c: Client, id: int, now: real)
    requires Valid(c)
    ensures id !in c.byId ==> Handle(env, build, c, Removed(id), now) == Success(Reply(c, []))
    ensures id in c.byId ==>
      Handle(env, build, c, Removed(id), now)
        == Success(Reply(c.(objs := c.objs[c.byId[id] := c.objs[c.byId[id]].(fadeStart := Some(now))]), []))
  {
  }

  /** Case 5: the look comes from the cache when the mockup id is cached,
      and otherwise exactly one look request goes out, for the target's
      id; with no target nothing happens. */
  lemma InfoSpec(env: Env, c: Client, e: EntityInfoWire)
    requires Valid(c)
    ensures Target(c, e.id).None? ==> Describe(env, c, e) == Success(Reply(c, []))
    ensures Describe(env, c, e).Success? && Target(c, e.id).Some? ==>
      var r := Describe(env, c, e).value;
      var ref := Target(c, e.id).value;
      |r.client.objs| == |c.objs| && r.client.objs[ref].team == e.team && r.client.objs[ref].name == e.name
      && r.client.objs[ref].mockupId == e.mockupId
      && (e.mockupId in c.mockups <==> r.sends == [])
      && (e.mockupId in c.mockups ==> r.client.objs[ref].look == c.mockups[e.mockupId] && r.client.objs[ref].isLoaded)
      && (e.mockupId !in c.mockups ==> r.sends == [LookRequest(c.objs[ref].id)])
  {
  }

  /** Case 8: the newer client leaves the decoded props ordered by layer
      (the same props), the legacy client in wire order; the look is
      cached exactly when the target's mockup id is not 0. */
  lemma LookSpec(env: Env, build: Build, c: Client, m: EntityMockupWire, ref: nat) returns (ps: seq<Prop>)
    requires Valid(c) && Target(c, m.id) == Some(ref) && Shaped(env, build, c, m).Success?
    ensures DecodeProps(env.palette, env.codec, m.mockup.props, c.objs[ref].team, OwnTeam(c), false) == Success(ps)
    ensures ref < |Shaped(env, build, c, m).value.objs| && Shaped(env, build, c, m).value.objs[ref].isLoaded
    ensures build == Module ==> LayerSorted(Shaped(env, build, c, m).value.objs[ref].look.props)
    ensures build == Module ==> multiset(Shaped(env, build, c, m).value.objs[ref].look.props) == multiset(ps)
    ensures build == Legacy ==> Shaped(env, build, c, m).value.objs[ref].look.props == ps
    ensures c.objs[ref].mockupId != 0 ==>
      Shaped(env, build, c, m).value.mockups == c.mockups[c.objs[ref].mockupId := Shaped(env, build, c, m).value.objs[ref].look]
    ensures c.objs[ref].mockupId == 0 ==> Shaped(env, build, c, m).value.mockups == c.mockups
  {
    ps := DecodeProps(env.palette, env.codec, m.mockup.props, c.objs[ref].team, OwnTeam(c), false).value;
  }

  /** Cases 10 and 11 replace their list with exactly one record per
      entry sent, and change nothing else. */
  lemma ListsReplaced(env: Env, build: Build, c: Client, ms: seq<MinimapWire>, ls: seq<LeaderWire>, now: real)
    requires Valid(c)
    ensures Handle(env, build, c, Minimap(ms), now).Success? ==>
      var n := Handle(env, build, c, Minimap(ms), now).value.client;
      |n.minimap| == |ms| && n == c.(minimap := n.minimap)
      && forall k :: 0 <= k < |ms| ==> n.minimap[k].team == ms[k].team
    ensures Handle(env, build, c, Leaderboard(ls), now) == Success(Reply(c.(leaderboard := Rows(ls)), []))
    ensures var r := Handle(env, build, c, Leaderboard(ls), now).value;
      r.sends == [] && r.client == c.(leaderboard := r.client.leaderboard) && |r.client.leaderboard| == |ls|
      && forall k :: 0 <= k < |ls| ==> r.client.leaderboard[k].title == ls[k].title && r.client.leaderboard[k].score == ls[k].score
  {
  }

  /** Case 12 is legacy-only: it sets the own entity's skills; the newer
      client throws on it as on any unknown type. */
  lemma SkillsSpec(env: Env, c: Client, points: int, skills: seq<SkillWire>, now: real)
    requires Valid(c)
    ensures OnMessage(env, c, Some(Skills(points, skills)), now) == Failure(UnknownType)
    ensures LegacyOnMessage(env, c, Some(Skills(points, skills)), now).Failure? <==> c.self.None?
    ensures LegacyOnMessage(env, c, Some(Skills(points, skills)), now).Success? ==>
      var n := LegacyOnMessage(env, c, Some(Skills(points, skills)), now).value.client;
      c.self.Some? && n.objs[c.self.value].skills == skills && n.objs[c.self.value].skillPoints == points
  {
  }

  /** Case 0 of the legacy client: it keeps the new session id and sends
      its join again. */
  lemma LegacyHello(env: Env, c: Client, uuid: string, now: real)
    requires Valid(c)
    ensures LegacyOnMessage(env, c, Some(Hello(uuid)), now) == Success(Reply(c.(uuid := uuid), [Rejoin(env.name)]))
  {
  }
}
