/** Whole server-to-client messages: a u16 type tag followed by the body
    that src/network/socket.ts writes for that type, and the decoding the
    clients apply to it. Type 12 (skill points) is never written by the
    server; only public/lib/socket.js reads it. */
module ServerMessages {
  import opened Wrappers
  import opened Bytes
  import opened Protocol
  import opened Messages

  /** One skill row of type 12: kind, level, maximum level and name. */
  datatype SkillWire = SkillWire(kind: int, level: int, maxLevel: int, name: string)

  datatype ServerMessage =
    | Hello(uuid: string)                                 // 0: the new session id
    | SelfData(self: EntityDataWire)                      // 1: the player's own body
    | OtherData(other: EntityDataWire)                    // 2: a visible entity
    | Removed(id: int)                                    // 3: an entity left the room
    | WorldSize(width: F32, height: F32, tick: F32)       // 4
    | Info(info: EntityInfoWire)                          // 5
    | Stats(score: int, level: int, levelScore: int)      // 6
    | Chat(text: string)                                  // 7
    | Look(look: EntityMockupWire)                        // 8
    | Upgrades(upgrades: seq<UpgradeWire>)                // 9
    | Minimap(entries: seq<MinimapWire>)                  // 10
    | Leaderboard(rows: seq<LeaderWire>)                  // 11
    | Skills(points: int, skills: seq<SkillWire>)         // 12

  function Tag(m: ServerMessage): (t: nat)
    ensures t <= 12
  {
    match m
    case Hello(_) => 0
    case SelfData(_) => 1
    case OtherData(_) => 2
    case Removed(_) => 3
    case WorldSize(_, _, _) => 4
    case Info(_) => 5
    case Stats(_, _, _) => 6
    case Chat(_) => 7
    case Look(_) => 8
    case Upgrades(_) => 9
    case Minimap(_) => 10
    case Leaderboard(_) => 11
    case Skills(_, _) => 12
  }

  predicate SkillOk(s: SkillWire) {
    U16Ok(s.kind) && U16Ok(s.level) && U16Ok(s.maxLevel) && WireString(s.name)
  }

  /** Every field fits its wire width and every list its u16 count. */
  predicate MessageOk(m: ServerMessage) {
    match m
    case Hello(uuid) => WireString(uuid)
    case SelfData(d) => EntityDataOk(d)
    case OtherData(d) => EntityDataOk(d)
    case Removed(id) => U32Ok(id)
    case WorldSize(_, _, _) => true
    case Info(e) => EntityInfoOk(e)
    case Stats(score, level, levelScore) => U32Ok(score) && U16Ok(level) && U32Ok(levelScore)
    case Chat(text) => WireString(text)
    case Look(e) => EntityMockupOk(e)
    case Upgrades(us) => U16Ok(|us|) && forall k :: 0 <= k < |us| ==> UpgradeOk(us[k])
    case Minimap(ms) => U16Ok(|ms|) && forall k :: 0 <= k < |ms| ==> MinimapOk(ms[k])
    case Leaderboard(ls) => U16Ok(|ls|) && forall k :: 0 <= k < |ls| ==> LeaderOk(ls[k])
    case Skills(points, ss) =>
      U16Ok(points) && U16Ok(|ss|) && forall k :: 0 <= k < |ss| ==> SkillOk(ss[k])
  }

  function SkillOnto(s: SkillWire, tail: seq<Byte>): seq<Byte> {
    U16(s.kind) + (U16(s.level) + (U16(s.maxLevel) + (StringBytes(s.name) + tail)))
  }

  function SkillsOnto(ss: seq<SkillWire>, tail: seq<Byte>): seq<Byte> {
    if |ss| == 0 then tail else SkillOnto(ss[0], SkillsOnto(ss[1..], tail))
  }

  /** The body of `m`, as the server writes it after the tag. */
  function BodyOnto(m: ServerMessage, tail: seq<Byte>): seq<Byte> {
    match m
    case Hello(uuid) => StringBytes(uuid) + tail
    case SelfData(d) => EntityDataOnto(d, tail)
    case OtherData(d) => EntityDataOnto(d, tail)
    case Removed(id) => U32(id) + tail
    case WorldSize(w, h, t) => F32Bytes(w) + (F32Bytes(h) + (F32Bytes(t) + tail))
    case Info(e) => EntityInfoOnto(e, tail)
    case Stats(score, level, levelScore) => U32(score) + (U16(level) + (U32(levelScore) + tail))
    case Chat(text) => StringBytes(text) + tail
    case Look(e) => EntityMockupOnto(e, tail)
    case Upgrades(us) => U16(|us|) + UpgradesOnto(us, tail)
    case Minimap(ms) => U16(|ms|) + MinimapsOnto(ms, tail)
    case Leaderboard(ls) => U16(|ls|) + LeadersOnto(ls, tail)
    case Skills(points, ss) => U16(points) + (U16(|ss|) + SkillsOnto(ss, tail))
  }

  /** The bytes of one whole message: its tag, then its body. */
  function MessageBytes(m: ServerMessage): seq<Byte> {
    U16(Tag(m)) + BodyOnto(m, [])
  }

  // ---------------------------------------------------------------------
  // Decoding

  function ReadSkill(r: Reader): (s: Step<SkillWire>)
    ensures s.Done? ==> s.next.data == r.data && s.next.offset > r.offset
  {
    var kind :- ReadUint(r);
    var level :- ReadUint(kind.1);
    var maxLevel :- ReadUint(level.1);
    var name :- ReadString(maxLevel.1);
    Done(SkillWire(kind.0, level.0, maxLevel.0, name.0), name.1)
  }

  function ReadSkills(r: Reader, n: nat): (s: Step<seq<SkillWire>>)
    ensures s.Done? ==> |s.value| == n && s.next.data == r.data && s.next.offset >= r.offset
    decreases n
  {
    if n == 0 then Done([], r)
    else
      var sk :- ReadSkill(r);
      var rest :- ReadSkills(sk.1, n - 1);
      Done([sk.0] + rest.0, rest.1)
  }

  function ReadHello(r: Reader): (s: Step<ServerMessage>)
    ensures s.Done? ==> s.value.Hello? && s.next.data == r.data && s.next.offset >= r.offset
  {
    var uuid :- ReadString(r);
    Done(Hello(uuid.0), uuid.1)
  }

  function ReadSelfData(r: Reader): (s: Step<ServerMessage>)
    ensures s.Done? ==> s.value.SelfData? && s.next.data == r.data && s.next.offset >= r.offset
  {
    var d :- ReadEntityData(r);
    Done(SelfData(d.0), d.1)
  }

  function ReadOtherData(r: Reader): (s: Step<ServerMessage>)
    ensures s.Done? ==> s.value.OtherData? && s.next.data == r.data && s.next.offset >= r.offset
  {
    var d :- ReadEntityData(r);
    Done(OtherData(d.0), d.1)
  }

  function ReadRemoved(r: Reader): (s: Step<ServerMessage>)
    ensures s.Done? ==> s.value.Removed? && s.next.data == r.data && s.next.offset >= r.offset
  {
    var id :- ReadBigUint(r);
    Done(Removed(id.0), id.1)
  }

  function ReadWorldSize(r: Reader): (s: Step<ServerMessage>)
    ensures s.Done? ==> s.value.WorldSize? && s.next.data == r.data && s.next.offset >= r.offset
  {
    var w :- ReadFloat(r);
    var h :- ReadFloat(w.1);
    var t :- ReadFloat(h.1);
    Done(WorldSize(w.0, h.0, t.0), t.1)
  }

  function ReadInfo(r: Reader): (s: Step<ServerMessage>)
    ensures s.Done? ==> s.value.Info? && s.next.data == r.data && s.next.offset >= r.offset
    ensures s.Done? ==> ReadBigUint(r).Done? && s.value.info.id == ReadBigUint(r).value
  {
    var e :- ReadEntityInfo(r);
    Done(Info(e.0), e.1)
  }

  function ReadStats(r: Reader): (s: Step<ServerMessage>)
    ensures s.Done? ==> s.value.Stats? && s.next.data == r.data && s.next.offset >= r.offset
  {
    var score :- ReadBigUint(r);
    var level :- ReadUint(score.1);
    var levelScore :- ReadBigUint(level.1);
    Done(Stats(score.0, level.0, levelScore.0), levelScore.1)
  }

  function ReadChat(r: Reader): (s: Step<ServerMessage>)
    ensures s.Done? ==> s.value.Chat? && s.next.data == r.data && s.next.offset >= r.offset
  {
    var text :- ReadString(r);
    Done(Chat(text.0), text.1)
  }

  function ReadLook(r: Reader): (s: Step<ServerMessage>)
    ensures s.Done? ==> s.value.Look? && s.next.data == r.data && s.next.offset >= r.offset
    ensures s.Done? ==> ReadBigUint(r).Done? && s.value.look.id == ReadBigUint(r).value
  {
    var e :- ReadEntityMockup(r);
    Done(Look(e.0), e.1)
  }

  function ReadUpgradeList(r: Reader): (s: Step<ServerMessage>)
    ensures s.Done? ==> s.value.Upgrades? && s.next.data == r.data && s.next.offset >= r.offset
  {
    var n :- ReadUint(r);
    var us :- ReadUpgrades(n.1, n.0);
    Done(Upgrades(us.0), us.1)
  }

  function ReadMinimapList(r: Reader): (s: Step<ServerMessage>)
    ensures s.Done? ==> s.value.Minimap? && s.next.data == r.data && s.next.offset >= r.offset
  {
    var n :- ReadUint(r);
    var ms :- ReadMinimaps(n.1, n.0);
    Done(Minimap(ms.0), ms.1)
  }

  function ReadLeaderList(r: Reader): (s: Step<ServerMessage>)
    ensures s.Done? ==> s.value.Leaderboard? && s.next.data == r.data && s.next.offset >= r.offset
  {
    var n :- ReadUint(r);
    var ls :- ReadLeaders(n.1, n.0);
    Done(Leaderboard(ls.0), ls.1)
  }

  function ReadSkillList(r: Reader): (s: Step<ServerMessage>)
    ensures s.Done? ==> s.value.Skills? && s.next.data == r.data && s.next.offset >= r.offset
  {
    var points :- ReadUint(r);
    var n :- ReadUint(points.1);
    var ss :- ReadSkills(n.1, n.0);
    Done(Skills(points.0, ss.0), ss.1)
  }

  /** The body reader for a known message type. */
  function ReaderFor(tag: nat): Reader -> Step<ServerMessage>
    requires tag <= 12
  {
    match tag
    case 0 => ReadHello
    case 1 => ReadSelfData
    case 2 => ReadOtherData
    case 3 => ReadRemoved
    case 4 => ReadWorldSize
    case 5 => ReadInfo
    case 6 => ReadStats
    case 7 => ReadChat
    case 8 => ReadLook
    case 9 => ReadUpgradeList
    case 10 => ReadMinimapList
    case 11 => ReadLeaderList
    case _ => ReadSkillList
  }

  /** The body of a message of type `tag`, read the way the clients read
      it; an unknown type yields `None` and reads nothing more. */
  function ReadBody(tag: nat, r: Reader): (s: Step<Option<ServerMessage>>)
    ensures s.Done? ==> s.next.data == r.data && s.next.offset >= r.offset
    ensures s.Done? ==> (s.value.None? <==> tag > 12)
    ensures tag > 12 ==> s == Done(None, r)
  {
    if tag > 12 then Done(None, r)
    else
      var m :- ReaderFor(tag)(r);
      Done(Some(m.0), m.1)
  }

  /** A whole message: the type, then its body. */
  function ReadMessage(r: Reader): (s: Step<Option<ServerMessage>>)
    ensures s.Done? ==> s.next.data == r.data && s.next.offset >= r.offset + 2
  {
    var tag :- ReadUint(r);
    ReadBody(tag.0, tag.1)
  }

  // ---------------------------------------------------------------------
  // Round trips

  lemma ReadSkillAt(r: Reader, s: SkillWire, tail: seq<Byte>)
    requires SkillOk(s) && At(r, SkillOnto(s, tail))
    ensures Parsed(ReadSkill(r), s, r, SkillOnto(s, tail), tail)
  {
    var t2 := StringBytes(s.name) + tail;
    var t1 := U16(s.maxLevel) + t2;
    ReadUintAt(r, s.kind, U16(s.level) + t1);
    var r1 := Skip(r, 2);
    ReadUintAt(r1, s.level, t1);
    var r2 := Skip(r1, 2);
    ReadUintAt(r2, s.maxLevel, t2);
    var r3 := Skip(r2, 2);
    ReadStringAt(r3, s.name, tail);
  }

  lemma {:induction false} ReadSkillsAt(r: Reader, ss: seq<SkillWire>, tail: seq<Byte>)
    requires (forall k :: 0 <= k < |ss| ==> SkillOk(ss[k])) && At(r, SkillsOnto(ss, tail))
    ensures Parsed(ReadSkills(r, |ss|), ss, r, SkillsOnto(ss, tail), tail)
    decreases |ss|
  {
    if |ss| > 0 {
      var rest := SkillsOnto(ss[1..], tail);
      ReadSkillAt(r, ss[0], rest);
      var r1 := ReadSkill(r).next;
      ReadSkillsAt(r1, ss[1..], tail);
      ReadSkillsStep(r, |ss|, ss[0], r1, ss[1..], ReadSkills(r1, |ss[1..]|).next);
      ConsSplit(ss);
    }
  }

  lemma ReadSkillsStep(r: Reader, n: nat, sk: SkillWire, r1: Reader, rest: seq<SkillWire>, r2: Reader)
    requires n > 0 && ReadSkill(r) == Done(sk, r1) && ReadSkills(r1, n - 1) == Done(rest, r2)
    ensures ReadSkills(r, n) == Done([sk] + rest, r2)
  {
  }

  /** The reader for `m`'s type reads `m` back from its body. */
  lemma ReadBodyAt(r: Reader, m: ServerMessage, tail: seq<Byte>)
    requires MessageOk(m) && At(r, BodyOnto(m, tail))
    ensures Parsed(ReaderFor(Tag(m))(r), m, r, BodyOnto(m, tail), tail)
  {
    if m.Hello? {
      HelloBody(r, m, tail);
    } else if m.SelfData? {
      SelfDataBody(r, m, tail);
    } else if m.OtherData? {
      OtherDataBody(r, m, tail);
    } else if m.Removed? {
      RemovedBody(r, m, tail);
    } else if m.WorldSize? {
      WorldSizeBody(r, m, tail);
    } else if m.Info? {
      InfoBody(r, m, tail);
    } else if m.Stats? {
      StatsBody(r, m, tail);
    } else if m.Chat? {
      ChatBody(r, m, tail);
    } else if m.Look? {
      LookBody(r, m, tail);
    } else if m.Upgrades? {
      UpgradesBody(r, m, tail);
    } else if m.Minimap? {
      MinimapBody(r, m, tail);
    } else if m.Leaderboard? {
      LeaderboardBody(r, m, tail);
    } else {
      SkillsBody(r, m, tail);
    }
  }

  lemma HelloBody(r: Reader, m: ServerMessage, tail: seq<Byte>)
    requires m.Hello? && MessageOk(m) && At(r, BodyOnto(m, tail))
    ensures Parsed(ReaderFor(Tag(m))(r), m, r, BodyOnto(m, tail), tail)
  {
    ReadHelloAt(r, m.uuid, tail);
    Handle0();
  }

  lemma Handle0()
    ensures ReaderFor(0) == ReadHello
  {
  }

  lemma SelfDataBody(r: Reader, m: ServerMessage, tail: seq<Byte>)
    requires m.SelfData? && MessageOk(m) && At(r, BodyOnto(m, tail))
    ensures Parsed(ReaderFor(Tag(m))(r), m, r, BodyOnto(m, tail), tail)
  {
    ReadSelfDataAt(r, m.self, tail);
    Handle1();
  }

  lemma Handle1()
    ensures ReaderFor(1) == ReadSelfData
  {
  }

  lemma OtherDataBody(r: Reader, m: ServerMessage, tail: seq<Byte>)
    requires m.OtherData? && MessageOk(m) && At(r, BodyOnto(m, tail))
    ensures Parsed(ReaderFor(Tag(m))(r), m, r, BodyOnto(m, tail), tail)
  {
    ReadOtherDataAt(r, m.other, tail);
    Handle2();
  }

  lemma Handle2()
    ensures ReaderFor(2) == ReadOtherData
  {
  }

  lemma RemovedBody(r: Reader, m: ServerMessage, tail: seq<Byte>)
    requires m.Removed? && MessageOk(m) && At(r, BodyOnto(m, tail))
    ensures Parsed(ReaderFor(Tag(m))(r), m, r, BodyOnto(m, tail), tail)
  {
    ReadRemovedAt(r, m.id, tail);
    Handle3();
  }

  lemma Handle3()
    ensures ReaderFor(3) == ReadRemoved
  {
  }

  lemma WorldSizeBody(r: Reader, m: ServerMessage, tail: seq<Byte>)
    requires m.WorldSize? && MessageOk(m) && At(r, BodyOnto(m, tail))
    ensures Parsed(ReaderFor(Tag(m))(r), m, r, BodyOnto(m, tail), tail)
  {
    ReadWorldSizeAt(r, m.width, m.height, m.tick, tail);
    Handle4();
  }

  lemma Handle4()
    ensures ReaderFor(4) == ReadWorldSize
  {
  }

  lemma InfoBody(r: Reader, m: ServerMessage, tail: seq<Byte>)
    requires m.Info? && MessageOk(m) && At(r, BodyOnto(m, tail))
    ensures Parsed(ReaderFor(Tag(m))(r), m, r, BodyOnto(m, tail), tail)
  {
    ReadInfoAt(r, m.info, tail);
    Handle5();
  }

  lemma Handle5()
    ensures ReaderFor(5) == ReadInfo
  {
  }

  lemma StatsBody(r: Reader, m: ServerMessage, tail: seq<Byte>)
    requires m.Stats? && MessageOk(m) && At(r, BodyOnto(m, tail))
    ensures Parsed(ReaderFor(Tag(m))(r), m, r, BodyOnto(m, tail), tail)
  {
    ReadStatsAt(r, m.score, m.level, m.levelScore, tail);
    Handle6();
  }

  lemma Handle6()
    ensures ReaderFor(6) == ReadStats
  {
  }

  lemma ChatBody(r: Reader, m: ServerMessage, tail: seq<Byte>)
    requires m.Chat? && MessageOk(m) && At(r, BodyOnto(m, tail))
    ensures Parsed(ReaderFor(Tag(m))(r), m, r, BodyOnto(m, tail), tail)
  {
    ReadChatAt(r, m.text, tail);
    Handle7();
  }

  lemma Handle7()
    ensures ReaderFor(7) == ReadChat
  {
  }

  lemma LookBody(r: Reader, m: ServerMessage, tail: seq<Byte>)
    requires m.Look? && MessageOk(m) && At(r, BodyOnto(m, tail))
    ensures Parsed(ReaderFor(Tag(m))(r), m, r, BodyOnto(m, tail), tail)
  {
    ReadLookAt(r, m.look, tail);
    Handle8();
  }

  lemma Handle8()
    ensures ReaderFor(8) == ReadLook
  {
  }

  lemma UpgradesBody(r: Reader, m: ServerMessage, tail: seq<Byte>)
    requires m.Upgrades? && MessageOk(m) && At(r, BodyOnto(m, tail))
    ensures Parsed(ReaderFor(Tag(m))(r), m, r, BodyOnto(m, tail), tail)
  {
    ReadUpgradeListAt(r, m.upgrades, tail);
    Handle9();
  }

  lemma Handle9()
    ensures ReaderFor(9) == ReadUpgradeList
  {
  }

  lemma MinimapBody(r: Reader, m: ServerMessage, tail: seq<Byte>)
    requires m.Minimap? && MessageOk(m) && At(r, BodyOnto(m, tail))
    ensures Parsed(ReaderFor(Tag(m))(r), m, r, BodyOnto(m, tail), tail)
  {
    ReadMinimapListAt(r, m.entries, tail);
    Handle10();
  }

  lemma Handle10()
    ensures ReaderFor(10) == ReadMinimapList
  {
  }

  lemma LeaderboardBody(r: Reader, m: ServerMessage, tail: seq<Byte>)
    requires m.Leaderboard? && MessageOk(m) && At(r, BodyOnto(m, tail))
    ensures Parsed(ReaderFor(Tag(m))(r), m, r, BodyOnto(m, tail), tail)
  {
    ReadLeaderListAt(r, m.rows, tail);
    Handle11();
  }

  lemma Handle11()
    ensures ReaderFor(11) == ReadLeaderList
  {
  }

  lemma SkillsBody(r: Reader, m: ServerMessage, tail: seq<Byte>)
    requires m.Skills? && MessageOk(m) && At(r, BodyOnto(m, tail))
    ensures Parsed(ReaderFor(Tag(m))(r), m, r, BodyOnto(m, tail), tail)
  {
    ReadSkillListAt(r, m.points, m.skills, tail);
    Handle12();
  }

  lemma Handle12()
    ensures ReaderFor(12) == ReadSkillList
  {
  }

  lemma ReadHelloAt(r: Reader, uuid: string, tail: seq<Byte>)
    requires WireString(uuid) && At(r, StringBytes(uuid) + tail)
    ensures Parsed(ReadHello(r), Hello(uuid), r, StringBytes(uuid) + tail, tail)
  {
    ReadStringAt(r, uuid, tail);
  }

  lemma ReadSelfDataAt(r: Reader, d: EntityDataWire, tail: seq<Byte>)
    requires EntityDataOk(d) && At(r, EntityDataOnto(d, tail))
    ensures Parsed(ReadSelfData(r), SelfData(d), r, EntityDataOnto(d, tail), tail)
  {
    ReadEntityDataAt(r, d, tail);
  }

  lemma ReadOtherDataAt(r: Reader, d: EntityDataWire, tail: seq<Byte>)
    requires EntityDataOk(d) && At(r, EntityDataOnto(d, tail))
    ensures Parsed(ReadOtherData(r), OtherData(d), r, EntityDataOnto(d, tail), tail)
  {
    ReadEntityDataAt(r, d, tail);
  }

  lemma ReadRemovedAt(r: Reader, id: int, tail: seq<Byte>)
    requires U32Ok(id) && At(r, U32(id) + tail)
    ensures Parsed(ReadRemoved(r), Removed(id), r, U32(id) + tail, tail)
  {
    ReadBigUintAt(r, id, tail);
  }

  lemma ReadInfoAt(r: Reader, e: EntityInfoWire, tail: seq<Byte>)
    requires EntityInfoOk(e) && At(r, EntityInfoOnto(e, tail))
    ensures Parsed(ReadInfo(r), Info(e), r, EntityInfoOnto(e, tail), tail)
  {
    ReadEntityInfoAt(r, e, tail);
  }

  lemma ReadChatAt(r: Reader, text: string, tail: seq<Byte>)
    requires WireString(text) && At(r, StringBytes(text) + tail)
    ensures Parsed(ReadChat(r), Chat(text), r, StringBytes(text) + tail, tail)
  {
    ReadStringAt(r, text, tail);
  }

  lemma ReadLookAt(r: Reader, e: EntityMockupWire, tail: seq<Byte>)
    requires EntityMockupOk(e) && At(r, EntityMockupOnto(e, tail))
    ensures Parsed(ReadLook(r), Look(e), r, EntityMockupOnto(e, tail), tail)
  {
    ReadEntityMockupAt(r, e, tail);
  }

  lemma ReadWorldSizeAt(r: Reader, w: F32, h: F32, t: F32, tail: seq<Byte>)
    requires At(r, F32Bytes(w) + (F32Bytes(h) + (F32Bytes(t) + tail)))
    ensures Parsed(ReadWorldSize(r), WorldSize(w, h, t), r,
      F32Bytes(w) + (F32Bytes(h) + (F32Bytes(t) + tail)), tail)
  {
    ReadFloatAt(r, w, F32Bytes(h) + (F32Bytes(t) + tail));
    var r1 := Skip(r, 4);
    ReadFloatAt(r1, h, F32Bytes(t) + tail);
    var r2 := Skip(r1, 4);
    ReadFloatAt(r2, t, tail);
  }

  lemma ReadStatsAt(r: Reader, score: int, level: int, levelScore: int, tail: seq<Byte>)
    requires U32Ok(score) && U16Ok(level) && U32Ok(levelScore)
    requires At(r, U32(score) + (U16(level) + (U32(levelScore) + tail)))
    ensures Parsed(ReadStats(r), Stats(score, level, levelScore), r,
      U32(score) + (U16(level) + (U32(levelScore) + tail)), tail)
  {
    ReadBigUintAt(r, score, U16(level) + (U32(levelScore) + tail));
    var r1 := Skip(r, 4);
    ReadUintAt(r1, level, U32(levelScore) + tail);
    var r2 := Skip(r1, 2);
    ReadBigUintAt(r2, levelScore, tail);
  }

  lemma ReadUpgradeListAt(r: Reader, us: seq<UpgradeWire>, tail: seq<Byte>)
    requires U16Ok(|us|) && (forall k :: 0 <= k < |us| ==> UpgradeOk(us[k]))
    requires At(r, U16(|us|) + UpgradesOnto(us, tail))
    ensures Parsed(ReadUpgradeList(r), Upgrades(us), r, U16(|us|) + UpgradesOnto(us, tail), tail)
  {
    ReadUintAt(r, |us|, UpgradesOnto(us, tail));
    var r1 := Skip(r, 2);
    ReadUpgradesAt(r1, us, tail);
  }

  lemma ReadMinimapListAt(r: Reader, ms: seq<MinimapWire>, tail: seq<Byte>)
    requires U16Ok(|ms|) && (forall k :: 0 <= k < |ms| ==> MinimapOk(ms[k]))
    requires At(r, U16(|ms|) + MinimapsOnto(ms, tail))
    ensures Parsed(ReadMinimapList(r), Minimap(ms), r, U16(|ms|) + MinimapsOnto(ms, tail), tail)
  {
    ReadUintAt(r, |ms|, MinimapsOnto(ms, tail));
    var r1 := Skip(r, 2);
    ReadMinimapsAt(r1, ms, tail);
  }

  lemma ReadLeaderListAt(r: Reader, ls: seq<LeaderWire>, tail: seq<Byte>)
    requires U16Ok(|ls|) && (forall k :: 0 <= k < |ls| ==> LeaderOk(ls[k]))
    requires At(r, U16(|ls|) + LeadersOnto(ls, tail))
    ensures Parsed(ReadLeaderList(r), Leaderboard(ls), r, U16(|ls|) + LeadersOnto(ls, tail), tail)
  {
    ReadUintAt(r, |ls|, LeadersOnto(ls, tail));
    var r1 := Skip(r, 2);
    ReadLeadersAt(r1, ls, tail);
  }

  lemma ReadSkillListAt(r: Reader, points: int, ss: seq<SkillWire>, tail: seq<Byte>)
    requires U16Ok(points) && U16Ok(|ss|) && (forall k :: 0 <= k < |ss| ==> SkillOk(ss[k]))
    requires At(r, U16(points) + (U16(|ss|) + SkillsOnto(ss, tail)))
    ensures Parsed(ReadSkillList(r), Skills(points, ss), r,
      U16(points) + (U16(|ss|) + SkillsOnto(ss, tail)), tail)
  {
    ReadUintAt(r, points, U16(|ss|) + SkillsOnto(ss, tail));
    var r1 := Skip(r, 2);
    ReadUintAt(r1, |ss|, SkillsOnto(ss, tail));
    var r2 := Skip(r1, 2);
    ReadSkillsAt(r2, ss, tail);
  }

  /** A message whose type the clients do not know reads nothing past the tag. */
  lemma UnknownTypeReadsNothing(r: Reader, t: int)
    requires 12 < t < TwoTo16 && At(r, U16(t))
    ensures ReadMessage(r) == Done(None, Skip(r, 2))
  {
    ReadUintAt(r, t, []);
  }

  /** The tag selects the body reader. */
  lemma Dispatch(r: Reader, k: nat, r2: Reader, m: ServerMessage, end: Reader)
    requires k <= 12 && ReadUint(r) == Done(k, r2) && ReaderFor(k)(r2) == Done(m, end)
    ensures ReadMessage(r) == Done(Some(m), end)
  {
  }

  /** A whole message read from the start of its own bytes is the message
      that was written, and the reader stops at the end of the bytes. */
  lemma MessageRoundTrip(m: ServerMessage)
    requires MessageOk(m)
    ensures ReadMessage(Reader(MessageBytes(m), 0)) == Done(Some(m), Reader(MessageBytes(m), |MessageBytes(m)|))
  {
    var bs := MessageBytes(m);
    var r := Reader(bs, 0);
    AtSuffix(bs, 0, bs);
    var body := BodyOnto(m, []);
    ReadUintAt(r, Tag(m), body);
    var r2 := Skip(r, 2);
    ReadBodyAt(r2, m, []);
    Dispatch(r, Tag(m), r2, m, ReaderFor(Tag(m))(r2).next);
  }
}
