/** The server end of the socket, src/network/socket.ts: the handler of
    client messages (`message`), the sessions it keeps, the closing and
    expiry of a session, and what each broadcast tick sends to each player.
    The transport, the timers and the logger are left out: `send` becomes
    the list of replies, and the room is what the handler reads. */
module ServerSockets {
  import opened Wrappers
  import opened Bytes
  import opened Protocol
  import opened Entities
  import opened ServerMessages
  import Messages
  import RoomConfig

  // ---------------------------------------------------------------------
  // Sessions and replies

  /** One entry of `users`: the player's body and, once its socket has
      closed, the `performance.now()` of the close. */
  datatype User = User(body: Entity, timeout: Option<real>)

  type Users = map<string, User>

  /** What the handler passes to `send`: a binary message or plain text. */
  datatype Reply = Binary(message: ServerMessage) | Text(text: string)

  /** The sessions after a message, the replies sent, and the body the
      room gained, if the message spawned one. */
  datatype Outcome = Outcome(users: Users, replies: seq<Reply>, inserted: Option<Entity>)

  /** What the handler reads from the room and the runtime: the id
      `randomUUID` would return, `room.spawn` as a function of the name,
      what `EntityInfo` and `EntityMockup` write for each entity of
      `idToEntity`, the classes `init` resolves, the draws of the new
      controllers, and the float codec of `readFloat`. */
  datatype Room = Room(
    newId: string, spawn: string -> Entity,
    infos: map<Id, Messages.EntityInfoWire>, looks: map<Id, Messages.EntityMockupWire>,
    catalogue: map<string, Archetype>, draw: nat -> (real, real), codec: FloatCodec)

  /** `RoomConfig.welcomeMessage` with the default configuration. */
  const Welcome := "You have spawned! Welcome to the game.\nPlease report any bugs you encounter!"

  /** The reply to a message type the server does not know. */
  const Confused := "I can't understand :("

  /** Nothing changes and nothing is sent. */
  function Quiet(users: Users): Outcome {
    Outcome(users, [], None)
  }

  /** The session's body replaced; nothing sent. */
  function Put(users: Users, uuid: string, body: Entity): (o: Outcome)
    requires uuid in users
  {
    Outcome(users[uuid := users[uuid].(body := body)], [], None)
  }

  // ---------------------------------------------------------------------
  // The move keys

  /** `move.add(k)` on a JavaScript `Set` kept in insertion order. */
  function AddKey(ks: seq<int>, k: int): (r: seq<int>)
    ensures k in r && forall x :: x in r <==> x in ks || x == k
  {
    if k in ks then ks else ks + [k]
  }

  /** `move.delete(k)`. */
  function DeleteKey(ks: seq<int>, k: int): (r: seq<int>)
    ensures k !in r && forall x :: x in r <==> x in ks && x != k
  {
    if |ks| == 0 then []
    else if ks[0] == k then DeleteKey(ks[1..], k)
    else [ks[0]] + DeleteKey(ks[1..], k)
  }

  /** The move codes of message type 1: 0 to 3 press a key, 4 to 7
      release the same key, anything else is ignored. */
  function KeyCode(ks: seq<int>, code: int): seq<int> {
    if 0 <= code < 4 then AddKey(ks, code)
    else if 4 <= code < 8 then DeleteKey(ks, code - 4)
    else ks
  }

  function WithMove(e: Entity, ks: seq<int>): Entity {
    e.(motion := e.motion.(move := ks))
  }

  function WithAngle(e: Entity, a: real): Entity {
    e.(motion := e.motion.(angle := a))
  }

  function WithMoveAngle(e: Entity, a: Option<real>): Entity {
    e.(motion := e.motion.(moveAngle := a))
  }

  /** Message type 4: the first boolean chooses `fire` or `alt`, the
      second is its new value. */
  function Triggered(e: Entity, main: bool, on: bool): Entity {
    if main then e.(mind := e.mind.(control := e.control.(fire := on)))
    else e.(mind := e.mind.(control := e.control.(alt := on)))
  }

  // ---------------------------------------------------------------------
  // message(uuid, data, send)

  /** `message(uuid, data, send)`. The id `'0'` asks for a new session id.
      Otherwise the type tag and the fields are read in order; a read past
      the end throws, the handler catches it, and nothing has changed by
      then, since every write follows the last read. `data` is the whole
      buffer the reader wraps, as on the uWebSockets.js transport
      (src/network/web-server.ts:98). The Bun transport
      (src/network/web-server.ts:71) may pass a view into a larger buffer,
      which the reader reads from the buffer's first byte
      (`Protocol.ReaderOfIgnoresOffset`); that path is not modelled here. */
  function Message(users: Users, uuid: string, data: seq<Byte>, room: Room): (o: Outcome)
    ensures uuid == "0" ==> o == Outcome(users, [Binary(Hello(room.newId))], None)
    ensures forall u :: u in users && u != uuid ==> u in o.users && o.users[u] == users[u]
    ensures o.users.Keys == users.Keys || o.users.Keys == users.Keys + {uuid}
  {
    if uuid == "0" then Outcome(users, [Binary(Hello(room.newId))], None)
    else match Handle(users, uuid, Reader(data, 0), room)
      case Done(o, _) => o
      case Threw(_) => Quiet(users)
  }

  /** The `switch` on the type tag. */
  function Handle(users: Users, uuid: string, r: Reader, room: Room): (s: Step<Outcome>)
    ensures s.Done? ==> forall u :: u in users && u != uuid ==> u in s.value.users && s.value.users[u] == users[u]
    ensures s.Done? ==> s.value.users.Keys == users.Keys || s.value.users.Keys == users.Keys + {uuid}
  {
    var t :- ReadUint(r);
    var (tag, r1) := t;
    if tag == 0 then Spawn(users, uuid, r1, room)
    else if tag == 2 then
      var id :- ReadBigUint(r1);
      Done(Outcome(users, if id.0 in room.infos then [Binary(Info(room.infos[id.0]))] else [], None), id.1)
    else if tag == 6 then
      var id :- ReadBigUint(r1);
      Done(Outcome(users, if id.0 in room.looks then [Binary(Look(room.looks[id.0]))] else [], None), id.1)
    else if tag >= 8 then Done(Outcome(users, [Text(Confused)], None), r1)
    else if uuid !in users then Done(Quiet(users), r1)
    else Control(users, uuid, tag, r1, room)
  }

  /** Type 0, a spawn request. A session whose body is alive keeps it;
      otherwise the name is read and the room spawns a new body. Either
      way the session is stored afresh, without a close time, and the
      welcome message is sent. */
  function Spawn(users: Users, uuid: string, r: Reader, room: Room): (s: Step<Outcome>)
    ensures s.Done? ==> uuid in s.value.users && s.value.users[uuid].timeout.None?
    ensures s.Done? ==> s.value.replies == [Binary(Chat(Welcome))]
    ensures s.Done? ==> s.value.users == users[uuid := s.value.users[uuid]]
    ensures uuid in users && !users[uuid].body.die ==>
      s.Done? && s.value.users[uuid].body == users[uuid].body && s.value.inserted.None?
  {
    if uuid in users && !users[uuid].body.die then
      Done(Outcome(users[uuid := User(users[uuid].body, None)], [Binary(Chat(Welcome))], None), r)
    else
      var n :- ReadString(r);
      var body := room.spawn(n.0);
      Done(Outcome(users[uuid := User(body, None)], [Binary(Chat(Welcome))], Some(body)), n.1)
  }

  /** Types 1, 3, 4, 5 and 7 for a known session: they steer its body. */
  function Control(users: Users, uuid: string, tag: nat, r: Reader, room: Room): (s: Step<Outcome>)
    requires uuid in users && tag in {1, 3, 4, 5, 7}
    ensures s.Done? ==> s.value.users.Keys == users.Keys && s.value.inserted.None?
    ensures s.Done? ==> forall u :: u in users && u != uuid ==> s.value.users[u] == users[u]
  {
    var body := users[uuid].body;
    if tag == 1 then
      var k :- ReadUint(r);
      Done(Put(users, uuid, WithMove(body, KeyCode(body.move, k.0))), k.1)
    else if tag == 3 then
      var f :- ReadFloat(r);
      Done(Put(users, uuid, WithAngle(body, room.codec.decode(f.0))), f.1)
    else if tag == 4 then
      var main :- ReadBoolean(r);
      var on :- ReadBoolean(main.1);
      Done(Put(users, uuid, Triggered(body, main.0, on.0)), on.1)
    else if tag == 5 then
      var steer :- ReadBoolean(r);
      if steer.0 then
        var f :- ReadFloat(steer.1);
        Done(Put(users, uuid, WithMoveAngle(body, Some(room.codec.decode(f.0)))), f.1)
      else Done(Put(users, uuid, WithMoveAngle(body, None)), steer.1)
    else
      var index :- ReadUint(r);
      Upgrade(users, uuid, index.0, index.1, room)
  }

  /** Type 7: `init` with the chosen upgrade's class, then a chat line
      naming the new class. An index with no upgrade is ignored. A class
      whose own upgrades do not resolve makes `init` throw after it has
      rewritten most of the body; the handler catches that, so the session
      keeps the half-initialised body and no chat line is sent. */
  function Upgrade(users: Users, uuid: string, index: nat, r: Reader, room: Room): (s: Step<Outcome>)
    requires uuid in users
    ensures s.Done? ==> s.value.users.Keys == users.Keys && s.value.inserted.None?
    ensures s.Done? ==> forall u :: u in users && u != uuid ==> s.value.users[u] == users[u]
    ensures index >= |users[uuid].body.upgrades| ==> s == Done(Quiet(users), r)
    ensures index < |users[uuid].body.upgrades| && users[uuid].body.upgrades[index].name in room.catalogue ==>
      var init := Init(users[uuid].body, room.catalogue[users[uuid].body.upgrades[index].name], room.catalogue, room.draw);
      s.Done? && s.value.users[uuid] == users[uuid].(body := init.body)
      && (s.value.replies == [] <==> !init.complete)
  {
    var body := users[uuid].body;
    if index >= |body.upgrades| then Done(Quiet(users), r)
    else
      var name := body.upgrades[index].name;
      if name !in room.catalogue then Threw(r)
      else
        var init := Init(body, room.catalogue[name], room.catalogue, room.draw);
        var sends := if init.complete then [Binary(Chat("You have upgraded to " + init.body.setting.classLabel + "."))] else [];
        Done(Outcome(users[uuid := users[uuid].(body := init.body)], sends, None), r)
  }

  // ---------------------------------------------------------------------
  // What the clients send

  /** The client messages, as client/src/lib/socket.ts, client/src/lib/input.ts
      and the spawn in client/src/main.ts write them: a spawn with a name,
      a key pressed or released, a request for an entity's info or look,
      the facing angle, a trigger, the movement angle or none, and the
      choice of an upgrade. */
  datatype Command =
    | Join(name: string)
    | Press(key: int)
    | Release(key: int)
    | AskInfo(id: Id)
    | Aim(angle: F32)
    | Trigger(main: bool, on: bool)
    | Steer(heading: Option<F32>)
    | AskLook(id: Id)
    | Choose(index: nat)

  /** Fields within what their writers carry. */
  predicate CommandOk(c: Command) {
    match c
    case Join(name) => WireString(name)
    case Press(key) => 0 <= key < 4
    case Release(key) => 0 <= key < 4
    case AskInfo(id) => id < TwoTo32
    case AskLook(id) => id < TwoTo32
    case Choose(index) => index < TwoTo16
    case _ => true
  }

  /** The bytes of each command: the u16 type, then its fields. */
  function CommandBytes(c: Command): seq<Byte> {
    match c
    case Join(name) => U16(0) + StringBytes(name)
    case Press(key) => U16(1) + U16(key)
    case Release(key) => U16(1) + U16(key + 4)
    case AskInfo(id) => U16(2) + U32(id)
    case Aim(angle) => U16(3) + F32Bytes(angle)
    case Trigger(main, on) => U16(4) + (BoolBytes(main) + BoolBytes(on))
    case Steer(None) => U16(5) + BoolBytes(false)
    case Steer(Some(a)) => U16(5) + (BoolBytes(true) + F32Bytes(a))
    case AskLook(id) => U16(6) + U32(id)
    case Choose(index) => U16(7) + U16(index)
  }

  /** What each command means for the sessions, stated without bytes. */
  function Apply(users: Users, uuid: string, c: Command, room: Room): Outcome {
    match c
    case Join(name) =>
      if uuid in users && !users[uuid].body.die then
        Outcome(users[uuid := User(users[uuid].body, None)], [Binary(Chat(Welcome))], None)
      else
        Outcome(users[uuid := User(room.spawn(name), None)], [Binary(Chat(Welcome))], Some(room.spawn(name)))
    case AskInfo(id) => Outcome(users, if id in room.infos then [Binary(Info(room.infos[id]))] else [], None)
    case AskLook(id) => Outcome(users, if id in room.looks then [Binary(Look(room.looks[id]))] else [], None)
    case Press(key) => Steered(users, uuid, (b: Entity) => WithMove(b, AddKey(b.move, key)))
    case Release(key) => Steered(users, uuid, (b: Entity) => WithMove(b, DeleteKey(b.move, key)))
    case Aim(a) => Steered(users, uuid, (b: Entity) => WithAngle(b, room.codec.decode(a)))
    case Trigger(main, on) => Steered(users, uuid, (b: Entity) => Triggered(b, main, on))
    case Steer(a) =>
      Steered(users, uuid, (b: Entity) => WithMoveAngle(b, if a.Some? then Some(room.codec.decode(a.value)) else None))
    case Choose(index) =>
      if uuid !in users then Quiet(users) else Chosen(users, uuid, index, room)
  }

  /** A steering command changes the body of a known session and nothing else. */
  function Steered(users: Users, uuid: string, f: Entity -> Entity): Outcome {
    if uuid in users then Put(users, uuid, f(users[uuid].body)) else Quiet(users)
  }

  /** Choosing an upgrade: out of range, or a class the catalogue lacks,
      does nothing; a class whose upgrades do not resolve leaves the body
      as `init` left it and sends nothing. */
  function Chosen(users: Users, uuid: string, index: nat, room: Room): Outcome
    requires uuid in users
  {
    var body := users[uuid].body;
    if index >= |body.upgrades| || body.upgrades[index].name !in room.catalogue then Quiet(users)
    else
      var init := Init(body, room.catalogue[body.upgrades[index].name], room.catalogue, room.draw);
      Outcome(users[uuid := users[uuid].(body := init.body)],
              if init.complete then [Binary(Chat("You have upgraded to " + init.body.setting.classLabel + "."))] else [],
              None)
  }

  /** A whole message is what the reader starts at. */
  lemma Start(bs: seq<Byte>)
    ensures At(Reader(bs, 0), bs)
  {
    AtSuffix(bs, 0, bs);
  }

  /** Every well-formed command, sent by a session other than `'0'`, does
      what `Apply` says: the handler reads back exactly the fields the
      client wrote. */
  lemma CommandApplies(users: Users, uuid: string, c: Command, room: Room)
    requires uuid != "0" && CommandOk(c)
    ensures Message(users, uuid, CommandBytes(c), room) == Apply(users, uuid, c, room)
  {
    match c
    case Join(_) => JoinApplies(users, uuid, c, room);
    case Press(_) => PressApplies(users, uuid, c, room);
    case Release(_) => ReleaseApplies(users, uuid, c, room);
    case AskInfo(_) => AskApplies(users, uuid, c, room);
    case AskLook(_) => AskApplies(users, uuid, c, room);
    case Aim(_) => AimApplies(users, uuid, c, room);
    case Trigger(_, _) => TriggerApplies(users, uuid, c, room);
    case Steer(_) => SteerApplies(users, uuid, c, room);
    case Choose(_) => ChooseApplies(users, uuid, c, room);
  }

  lemma AskApplies(users: Users, uuid: string, c: Command, room: Room)
    requires uuid != "0" && (c.AskInfo? || c.AskLook?) && CommandOk(c)
    ensures Message(users, uuid, CommandBytes(c), room) == Apply(users, uuid, c, room)
  {
    var bs := CommandBytes(c);
    var r := Reader(bs, 0);
    Start(bs);
    assert U32(c.id) + [] == U32(c.id);
    ReadUintAt(r, if c.AskInfo? then 2 else 6, U32(c.id));
    ReadBigUintAt(Skip(r, 2), c.id, []);
  }

  lemma AimApplies(users: Users, uuid: string, c: Command, room: Room)
    requires uuid != "0" && c.Aim?
    ensures Message(users, uuid, CommandBytes(c), room) == Apply(users, uuid, c, room)
  {
    var bs := CommandBytes(c);
    var r := Reader(bs, 0);
    Start(bs);
    assert F32Bytes(c.angle) + [] == F32Bytes(c.angle);
    ReadUintAt(r, 3, F32Bytes(c.angle));
    ReadFloatAt(Skip(r, 2), c.angle, []);
  }

  lemma TriggerApplies(users: Users, uuid: string, c: Command, room: Room)
    requires uuid != "0" && c.Trigger?
    ensures Message(users, uuid, CommandBytes(c), room) == Apply(users, uuid, c, room)
  {
    var bs := CommandBytes(c);
    var r := Reader(bs, 0);
    Start(bs);
    assert BoolBytes(c.on) + [] == BoolBytes(c.on);
    ReadUintAt(r, 4, BoolBytes(c.main) + BoolBytes(c.on));
    ReadBooleanAt(Skip(r, 2), c.main, BoolBytes(c.on));
    ReadBooleanAt(Skip(Skip(r, 2), 1), c.on, []);
  }

  lemma SteerApplies(users: Users, uuid: string, c: Command, room: Room)
    requires uuid != "0" && c.Steer?
    ensures Message(users, uuid, CommandBytes(c), room) == Apply(users, uuid, c, room)
  {
    if c.heading.Some? {
      SteerSomeApplies(users, uuid, c, room);
    } else {
      SteerNoneApplies(users, uuid, c, room);
    }
  }

  lemma SteerSomeApplies(users: Users, uuid: string, c: Command, room: Room)
    requires uuid != "0" && c.Steer? && c.heading.Some?
    ensures Message(users, uuid, CommandBytes(c), room) == Apply(users, uuid, c, room)
  {
    var bs := CommandBytes(c);
    var r := Reader(bs, 0);
    Start(bs);
    var a := c.heading.value;
    assert F32Bytes(a) + [] == F32Bytes(a);
    ReadUintAt(r, 5, BoolBytes(true) + F32Bytes(a));
    ReadBooleanAt(Skip(r, 2), true, F32Bytes(a));
    ReadFloatAt(Skip(Skip(r, 2), 1), a, []);
  }

  lemma SteerNoneApplies(users: Users, uuid: string, c: Command, room: Room)
    requires uuid != "0" && c.Steer? && c.heading.None?
    ensures Message(users, uuid, CommandBytes(c), room) == Apply(users, uuid, c, room)
  {
    var bs := CommandBytes(c);
    var r := Reader(bs, 0);
    Start(bs);
    assert BoolBytes(false) + [] == BoolBytes(false);
    ReadUintAt(r, 5, BoolBytes(false));
    ReadBooleanAt(Skip(r, 2), false, []);
  }

  lemma ChooseApplies(users: Users, uuid: string, c: Command, room: Room)
    requires uuid != "0" && c.Choose? && CommandOk(c)
    ensures Message(users, uuid, CommandBytes(c), room) == Apply(users, uuid, c, room)
  {
    var bs := CommandBytes(c);
    var r := Reader(bs, 0);
    Start(bs);
    assert U16(c.index) + [] == U16(c.index);
    ReadUintAt(r, 7, U16(c.index));
    ReadUintAt(Skip(r, 2), c.index, []);
  }

  lemma JoinApplies(users: Users, uuid: string, c: Command, room: Room)
    requires uuid != "0" && c.Join? && CommandOk(c)
    ensures Message(users, uuid, CommandBytes(c), room) == Apply(users, uuid, c, room)
  {
    var bs := CommandBytes(c);
    var r := Reader(bs, 0);
    Start(bs);
    assert StringBytes(c.name) + [] == StringBytes(c.name);
    ReadUintAt(r, 0, StringBytes(c.name));
    ReadStringAt(Skip(r, 2), c.name, []);
  }

  lemma PressApplies(users: Users, uuid: string, c: Command, room: Room)
    requires uuid != "0" && c.Press? && CommandOk(c)
    ensures Message(users, uuid, CommandBytes(c), room) == Apply(users, uuid, c, room)
  {
    KeyApplies(users, uuid, c.key, room);
    if uuid in users {
      var b := users[uuid].body;
      assert KeyCode(b.move, c.key) == AddKey(b.move, c.key);
    }
  }

  lemma ReleaseApplies(users: Users, uuid: string, c: Command, room: Room)
    requires uuid != "0" && c.Release? && CommandOk(c)
    ensures Message(users, uuid, CommandBytes(c), room) == Apply(users, uuid, c, room)
  {
    assert CommandBytes(c) == U16(1) + U16(c.key + 4);
    KeyApplies(users, uuid, c.key + 4, room);
    ReleaseMeans(users, uuid, c, room);
  }

  lemma ReleaseMeans(users: Users, uuid: string, c: Command, room: Room)
    requires c.Release? && 0 <= c.key < 4
    ensures Apply(users, uuid, c, room) ==
      if uuid in users then Put(users, uuid, WithMove(users[uuid].body, KeyCode(users[uuid].body.move, c.key + 4)))
      else Quiet(users)
  {
  }

  /** The move message with any code the client may write. */
  lemma KeyApplies(users: Users, uuid: string, code: int, room: Room)
    requires uuid != "0" && 0 <= code < 8
    ensures Message(users, uuid, U16(1) + U16(code), room) ==
      if uuid in users then Put(users, uuid, WithMove(users[uuid].body, KeyCode(users[uuid].body.move, code)))
      else Quiet(users)
  {
    var bs := U16(1) + U16(code);
    var r := Reader(bs, 0);
    Start(bs);
    assert U16(code) + [] == U16(code);
    ReadUintAt(r, 1, U16(code));
    ReadUintAt(Skip(r, 2), code, []);
  }
  // ---------------------------------------------------------------------
  // What the handler does with other input

  /** A key pressed and released again leaves the held keys as they were. */
  lemma {:induction false} PressReleaseRestores(ks: seq<int>, k: int)
    requires k !in ks
    ensures DeleteKey(AddKey(ks, k), k) == ks
  {
    assert AddKey(ks, k) == ks + [k];
    DeleteAppended(ks, k);
  }

  lemma {:induction false} DeleteAppended(ks: seq<int>, k: int)
    requires k !in ks
    ensures DeleteKey(ks + [k], k) == ks
  {
    if |ks| == 0 {
      assert ks + [k] == [k];
      assert DeleteKey([k], k) == DeleteKey([], k);
    } else {
      assert (ks + [k])[1..] == ks[1..] + [k];
      DeleteAppended(ks[1..], k);
      assert [ks[0]] + ks[1..] == ks;
    }
  }

  /** No key is held twice. */
  predicate Distinct(ks: seq<int>) {
    forall i, j :: 0 <= i < j < |ks| ==> ks[i] != ks[j]
  }

  /** Deleting a key keeps the others distinct. */
  lemma {:induction false} DeleteDistinct(ks: seq<int>, k: int)
    requires Distinct(ks)
    ensures Distinct(DeleteKey(ks, k))
  {
    if |ks| > 0 {
      assert Distinct(ks[1..]) by {
        forall i, j | 0 <= i < j < |ks[1..]| ensures ks[1..][i] != ks[1..][j] {
          assert ks[1..][i] == ks[i + 1] && ks[1..][j] == ks[j + 1];
        }
      }
      DeleteDistinct(ks[1..], k);
      if ks[0] != k {
        var rest := DeleteKey(ks[1..], k);
        assert ks[0] !in ks[1..];
        assert ks[0] !in rest;
        var r := [ks[0]] + rest;
        forall i, j | 0 <= i < j < |r| ensures r[i] != r[j] {
          if i == 0 {
            assert r[j] == rest[j - 1];
          } else {
            assert r[i] == rest[i - 1] && r[j] == rest[j - 1];
          }
        }
      }
    }
  }

  /** The held keys stay distinct move codes 0 to 3, whatever code arrives. */
  lemma KeyCodeKeepsKeys(ks: seq<int>, code: int)
    requires Distinct(ks) && forall x :: x in ks ==> 0 <= x < 4
    ensures Distinct(KeyCode(ks, code)) && forall x :: x in KeyCode(ks, code) ==> 0 <= x < 4
  {
    if 0 <= code < 4 && code !in ks {
      var r := ks + [code];
      forall i, j | 0 <= i < j < |r| ensures r[i] != r[j] {
        if j == |ks| {
          assert r[i] == ks[i];
        } else {
          assert r[i] == ks[i] && r[j] == ks[j];
        }
      }
    } else if 4 <= code < 8 {
      DeleteDistinct(ks, code - 4);
    }
  }

  /** A message too short for its type tag is dropped. */
  lemma Truncated(users: Users, uuid: string, data: seq<Byte>, room: Room)
    requires uuid != "0" && |data| < 2
    ensures Message(users, uuid, data, room) == Quiet(users)
  {
  }

  /** A type tag the server does not know is answered in plain text,
      whatever follows it. */
  lemma UnknownTag(users: Users, uuid: string, tag: nat, rest: seq<Byte>, room: Room)
    requires uuid != "0" && 8 <= tag < TwoTo16
    ensures Message(users, uuid, U16(tag) + rest, room) == Outcome(users, [Text(Confused)], None)
  {
    Start(U16(tag) + rest);
    ReadUintAt(Reader(U16(tag) + rest, 0), tag, rest);
  }

  /** A session the server does not know cannot steer: the steering and
      upgrade types change nothing and send nothing. */
  lemma Stranger(users: Users, uuid: string, tag: nat, rest: seq<Byte>, room: Room)
    requires uuid != "0" && uuid !in users && tag in {1, 3, 4, 5, 7}
    ensures Message(users, uuid, U16(tag) + rest, room) == Quiet(users)
  {
    Start(U16(tag) + rest);
    ReadUintAt(Reader(U16(tag) + rest, 0), tag, rest);
  }

  /** The trigger message with one boolean, as the clients send when
      auto-fire stops, throws at the second read: nothing changes. */
  lemma TriggerNeedsTwo(users: Users, uuid: string, b: bool, room: Room)
    requires uuid != "0"
    ensures Message(users, uuid, U16(4) + BoolBytes(b), room) == Quiet(users)
  {
    var bs := U16(4) + BoolBytes(b);
    var r := Reader(bs, 0);
    Start(bs);
    assert BoolBytes(b) + [] == BoolBytes(b);
    ReadUintAt(r, 4, BoolBytes(b));
    if uuid in users {
      ReadBooleanAt(Skip(r, 2), b, []);
      assert ReadBoolean(Skip(Skip(r, 2), 1)).Threw?;
    }
  }

  // ---------------------------------------------------------------------
  // close(uuid) and the expiry of closed sessions

  /** `close(uuid)`: the session keeps its body and records when its
      socket closed. */
  function Close(users: Users, uuid: string, now: real): (r: Users)
    ensures r.Keys == users.Keys
    ensures uuid in users ==> r[uuid].body == users[uuid].body && r[uuid].timeout == Some(now)
    ensures forall u :: u in users && u != uuid ==> r[u] == users[u]
  {
    if uuid in users then users[uuid := users[uuid].(timeout := Some(now))] else users
  }

  /** A player whose socket closed and who spawns again on a new socket
      before the session is swept gets the same living body back, and the
      session is open again. */
  lemma Reconnect(users: Users, uuid: string, now: real, name: string, room: Room)
    requires uuid != "0" && uuid in users && !users[uuid].body.die && WireString(name)
    ensures Message(Close(users, uuid, now), uuid, CommandBytes(Join(name)), room) ==
      Outcome(users[uuid := User(users[uuid].body, None)], [Binary(Chat(Welcome))], None)
  {
    var closed := Close(users, uuid, now);
    JoinApplies(closed, uuid, Join(name), room);
    assert closed[uuid := User(users[uuid].body, None)] == users[uuid := User(users[uuid].body, None)];
  }

  /** The sessions the broadcast tick keeps: those `gone` does not hold for. */
  function SweepBy(users: Users, gone: User -> bool): (kept: Users)
    ensures forall u :: u in kept ==> u in users && kept[u] == users[u]
    ensures forall u :: u in users ==> (u in kept <==> !gone(users[u]))
  {
    map u | u in users && !gone(users[u]) :: users[u]
  }

  /** The test of the tick as written: the close time itself, a time since
      the process started, is compared with the timeout. */
  predicate ExpiredAsWritten(u: User) {
    u.timeout.Some? && u.timeout.value != 0.0 && u.timeout.value > RoomConfig.SocketTimeout
  }

  function SweepAsWritten(users: Users): (kept: Users) {
    SweepBy(users, ExpiredAsWritten)
  }

  /** A session whose socket closed within the first minute of the process
      is never swept, however long ago that was. */
  lemma EarlyCloseLingers(users: Users, uuid: string, closedAt: real)
    requires uuid in users && closedAt <= RoomConfig.SocketTimeout
    ensures uuid in SweepAsWritten(Close(users, uuid, closedAt))
  {
  }

  /** A session whose socket closed later is swept at the next tick, with
      no time to reconnect. */
  lemma LateCloseDropsAtOnce(users: Users, uuid: string, closedAt: real)
    requires uuid in users && closedAt > RoomConfig.SocketTimeout
    ensures uuid !in SweepAsWritten(Close(users, uuid, closedAt))
  {
  }

  /** The evident intent: a closed session is swept once a full timeout
      has passed since its close. */
  predicate Expired(u: User, now: real) {
    u.timeout.Some? && now - u.timeout.value > RoomConfig.SocketTimeout
  }

  function Sweep(users: Users, now: real): (kept: Users) {
    SweepBy(users, (u: User) => Expired(u, now))
  }

  /** Under the corrected test a closed session survives exactly the
      timeout after its close, and an open session is never swept. */
  lemma Grace(users: Users, uuid: string, closedAt: real, now: real)
    requires uuid in users
    ensures uuid in Sweep(Close(users, uuid, closedAt), now) <==> now - closedAt <= RoomConfig.SocketTimeout
    ensures forall u :: u in users && users[u].timeout.None? ==> u in Sweep(users, now)
  {
  }
}
