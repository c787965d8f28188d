/** What the client puts into its window: chat lines and system messages, read from the messages that show
    text. */
module Display {
  import opened Octets
  import opened Codec
  import opened Chat
  import opened ReplicaSpec

  /** A call into the window. */
  datatype Shown = Line(from: bytes, words: bytes, own: bool) | Notice(text: bytes)

  // ---------------------------------------------------------------- reading

  const PAIR_KINDS: seq<Kind> := [KStr, KStr]
  const VERDICT_KINDS: seq<Kind> := [KI32, KStr, KStr]

  lemma {:induction false} PairKinds(b: bytes)
    requires TakeAll(PAIR_KINDS, b).Some?
    ensures var fs := TakeAll(PAIR_KINDS, b).value.0; |fs| == 2 && fs[0].Str? && fs[1].Str?
  {
    var fs := TakeAll(PAIR_KINDS, b).value.0;
    assert forall i | 0 <= i < 2 :: fs[i].Kind() == PAIR_KINDS[i];
  }

  lemma {:induction false} VerdictKinds(b: bytes)
    requires TakeAll(VERDICT_KINDS, b).Some?
    ensures var fs := TakeAll(VERDICT_KINDS, b).value.0; |fs| == 3 && fs[0].I32? && fs[1].Str? && fs[2].Str?
  {
    var fs := TakeAll(VERDICT_KINDS, b).value.0;
    assert forall i | 0 <= i < 3 :: fs[i].Kind() == VERDICT_KINDS[i];
  }

  /** Two strings behind the type word. */
  function TakePair(b: bytes): Option<(bytes, bytes)> {
    match TakeAll(PAIR_KINDS, b)
    case None => None
    case Some((fs, _)) =>
      PairKinds(b);
      Some((fs[0].s, fs[1].s))
  }

  /** An error number, its text and a room name. */
  function TakeVerdict(b: bytes): Option<(i32, bytes, bytes)> {
    match TakeAll(VERDICT_KINDS, b)
    case None => None
    case Some((fs, _)) =>
      VerdictKinds(b);
      Some((fs[0].i, fs[1].s, fs[2].s))
  }

  // ---------------------------------------------------------------- wording

  function CreateNotice(err: i32, reason: bytes, roomName: bytes): Shown {
    if err == 0 then Notice(Text("create room ") + roomName + Text(" succeed!"))
    else Notice(Text("create room ") + roomName + Text(" failed! reason: ") + reason)
  }

  function JoinNotice(err: i32, reason: bytes, roomName: bytes): Shown {
    if err != 0 then Notice(Text("join room ") + roomName + Text(" failed: ") + reason)
    else Notice(Text("join room ") + roomName + Text(" success!"))
  }

  function Decimal(n: nat): bytes {
    (if n < 10 then [] else Decimal(n / 10)) + [48 + n % 10]
  }

  /** The number a run of decimal digits stands for. */
  function Value(digits: bytes): int {
    if digits == [] then 0 else 10 * Value(digits[..|digits| - 1]) + digits[|digits| - 1] - '0' as int
  }

  lemma {:induction false} DecimalStands(n: nat)
    ensures Decimal(n) != [] && Value(Decimal(n)) == n
    ensures forall d | d in Decimal(n) :: '0' as int <= d <= '9' as int
  {
    var front := if n < 10 then [] else Decimal(n / 10);
    assert Decimal(n)[..|front|] == front;
    if n >= 10 {
      DecimalStands(n / 10);
    }
  }

  function RoomText(r: RoomRec): bytes {
    Text(" room name: ") + r.name + Text(" room id: ") + Decimal(r.id) + Text(" user count: ") + Decimal(|r.users|)
  }

  function RoomNotices(rooms: map<u32, RoomRec>, ids: seq<u64>): (s: seq<Shown>)
    requires forall i | i in ids :: i < 0x1_0000_0000 && i in rooms
    ensures |s| == |ids|
  {
    seq(|ids|, j requires 0 <= j < |ids| => Notice(RoomText(rooms[ids[j]])))
  }

  /** The number of rooms, then one line for each in ascending order of id. */
  function RoomListing(rooms: map<u32, RoomRec>): seq<Shown> {
    [Notice(Text("Total room count: ") + Decimal(|rooms|))] + RoomNotices(rooms, Ascending(rooms.Keys))
  }

  function HelpLines(): seq<Shown> {
    [Notice(Text("CRClient currently support this commands")),
     Notice(Text(" command list:")),
     Notice(Text(" /h            show help info\n")),
     Notice(Text(" /c room       create room")),
     Notice(Text(" /j room       join room\n")),
     Notice(Text(" /w username msg whisper to user")),
     Notice(Text(" /q            exit room, exit HALL--> exit program")),
     Notice(Text(" /e         exit program")),
     Notice(Text(" /i         show current info")),
     Notice(Text(" /l [room,user] list room or user info"))]
  }

  // ---------------------------------------------------------------- one message

  /** What a message of type t adds to the window of user me, whose client lists these rooms; None where it
      would read past the buffer. */
  function ShowsTyped(me: bytes, rooms: map<u32, RoomRec>, t: i32, tail: bytes): Option<seq<Shown>> {
    if t == LOCAL_LIST_ROOM then Some(RoomListing(rooms))
    else if t == S2C_CREATE_ROOM_RES || t == S2C_JOIN_ROOM_RES then
      match TakeVerdict(tail)
      case None => None
      case Some((err, reason, name)) =>
        Some([if t == S2C_CREATE_ROOM_RES then CreateNotice(err, reason, name) else JoinNotice(err, reason, name)])
    else if t == S2C_ROOM_CHAT_MSG || t == S2C_WHISPER_MSG || t == S2C_WHISPER_MSG_FAILED || t == LOCAL_WHISPER_MSG then
      match TakePair(tail)
      case None => None
      case Some((a, b)) => Some([PairShown(me, t, a, b)])
    else Some([])
  }

  function PairShown(me: bytes, t: i32, a: bytes, b: bytes): Shown {
    if t == S2C_ROOM_CHAT_MSG then Line(a, b, a == me)
    else if t == S2C_WHISPER_MSG then Notice(Text("recv whisper fr ") + a + Text(": ") + b)
    else if t == S2C_WHISPER_MSG_FAILED then Notice(Text("send whisper to ") + a + Text(" failed, reason: ") + b)
    else Notice(Text("send whisper to ") + a + Text(": ") + b)
  }

  /** What a whole payload adds. */
  function Shows(me: bytes, rooms: map<u32, RoomRec>, b: bytes): Option<seq<Shown>> {
    match TakeField(KI32, b)
    case None => None
    case Some((t, tail)) => ShowsTyped(me, rooms, t.i, tail)
  }

  // ---------------------------------------------------------------- what the server's messages show

  lemma {:induction false} PairRoundTrip(a: bytes, b: bytes)
    requires Str(a).Storable() && Str(b).Storable()
    ensures TakePair(EncodeAll([Str(a), Str(b)])) == Some((a, b))
  {
    var fs := [Str(a), Str(b)];
    assert Kinds(fs) == PAIR_KINDS;
    Alone(EncodeAll(fs));
    hide EncodeAll, TakeAll;
    RoundTrip(fs, []);
  }

  lemma {:induction false} VerdictRoundTrip(err: i32, reason: bytes, name: bytes)
    requires Str(reason).Storable() && Str(name).Storable()
    ensures TakeVerdict(EncodeAll([I32(err), Str(reason), Str(name)])) == Some((err, reason, name))
  {
    var fs := [I32(err), Str(reason), Str(name)];
    assert Kinds(fs) == VERDICT_KINDS;
    Alone(EncodeAll(fs));
    hide EncodeAll, TakeAll;
    RoundTrip(fs, []);
  }

  /** A message is its type word and the rest. */
  lemma {:induction false} TypedFirst(t: i32, fs: seq<Field>)
    ensures TakeField(KI32, EncodeAll([I32(t)] + fs)) == Some((I32(t), EncodeAll(fs)))
  {
    assert ([I32(t)] + fs)[1..] == fs;
    FieldRoundTrip(I32(t), EncodeAll(fs));
  }

  lemma {:induction false} PairReads(me: bytes, rooms: map<u32, RoomRec>, t: i32, a: bytes, b: bytes)
    requires Str(a).Storable() && Str(b).Storable() && t in {5, 12, 13, 18}
    ensures Shows(me, rooms, EncodeAll([I32(t)] + [Str(a), Str(b)])) == Some([PairShown(me, t, a, b)])
  {
    hide EncodeAll, TakePair, TakeField, PairShown;
    TypedFirst(t, [Str(a), Str(b)]);
    PairRoundTrip(a, b);
  }

  lemma {:induction false} VerdictReads(me: bytes, rooms: map<u32, RoomRec>, t: i32, err: i32, reason: bytes,
      name: bytes)
    requires Str(reason).Storable() && Str(name).Storable() && t in {7, 10}
    ensures Shows(me, rooms, EncodeAll([I32(t)] + [I32(err), Str(reason), Str(name)])) ==
            Some([if t == 7 then CreateNotice(err, reason, name) else JoinNotice(err, reason, name)])
  {
    hide EncodeAll, TakeVerdict, TakeField, CreateNotice, JoinNotice;
    TypedFirst(t, [I32(err), Str(reason), Str(name)]);
    VerdictRoundTrip(err, reason, name);
  }

  /** What a server message shows, in words. */
  function BodyShows(me: bytes, body: Reply): seq<Shown> {
    match body
    case ChatMsg(from, words) => [Line(from, words, from == me)]
    case CreateRoomRes(err, name) => [CreateNotice(err, ErrorText(err), name)]
    case JoinRoomRes(err, name) => [JoinNotice(err, ErrorText(err), name)]
    case WhisperMsg(from, words) => [Notice(Text("recv whisper fr ") + from + Text(": ") + words)]
    case WhisperFailed(to) =>
      [Notice(Text("send whisper to ") + to + Text(" failed, reason: ") + Text("user not exists!"))]
    case _ => []
  }

  /** The client shows just that when it reads the message's bytes: of a chat or a whisper the sender, then the
      words; of a verdict the number, the text and the room. */
  lemma {:induction false} ReplyReads(me: bytes, rooms: map<u32, RoomRec>, body: Reply)
    requires AllStorable(body.Fields())
    ensures Shows(me, rooms, body.Encode()) == Some(BodyShows(me, body))
  {
    if body.LogonRes? || body.RoomInfo? || body.RoomList? {
      StateShowsNothing(me, rooms, body);
    } else {
      TextReads(me, rooms, body);
    }
    hide Shows, BodyShows, EncodeAll;
  }

  lemma {:induction false} StateShowsNothing(me: bytes, rooms: map<u32, RoomRec>, body: Reply)
    requires AllStorable(body.Fields()) && (body.LogonRes? || body.RoomInfo? || body.RoomList?)
    ensures Shows(me, rooms, body.Encode()) == Some([]) && BodyShows(me, body) == []
  {
    hide TakeField, EncodeAll, UserFields, UsersFields, RoomFields, RoomsFields;
    TypeWord(body);
  }

  lemma {:induction false} TextReads(me: bytes, rooms: map<u32, RoomRec>, body: Reply)
    requires AllStorable(body.Fields()) && !body.LogonRes? && !body.RoomInfo? && !body.RoomList?
    ensures Shows(me, rooms, body.Encode()) == Some(BodyShows(me, body))
  {
    hide EncodeAll, Text, Shows, ErrorText, CreateNotice, JoinNotice;
    var fs := body.Fields();
    assert fs[1] in fs && fs[2] in fs && fs[|fs| - 1] in fs;
    match body
    case ChatMsg(from, words) =>
      assert fs == [I32(5)] + [Str(from), Str(words)];
      PairReads(me, rooms, 5, from, words);
    case WhisperMsg(from, words) =>
      assert fs == [I32(12)] + [Str(from), Str(words)];
      PairReads(me, rooms, 12, from, words);
    case WhisperFailed(to) =>
      assert fs == [I32(13)] + [Str(to), Str(Text("user not exists!"))];
      PairReads(me, rooms, 13, to, Text("user not exists!"));
    case CreateRoomRes(err, name) =>
      assert fs == [I32(7)] + [I32(err), Str(ErrorText(err)), Str(name)];
      VerdictReads(me, rooms, 7, err, ErrorText(err), name);
    case JoinRoomRes(err, name) =>
      assert fs == [I32(10)] + [I32(err), Str(ErrorText(err)), Str(name)];
      VerdictReads(me, rooms, 10, err, ErrorText(err), name);
  }

  // ---------------------------------------------------------------- the bytes themselves

  function Prefixed(s: bytes): bytes {
    BE(8, |s|) + s
  }

  lemma {:induction false} PairOnTheWire(t: i32, a: bytes, b: bytes)
    requires 0 <= t
    ensures EncodeAll([I32(t), Str(a), Str(b)]) == BE(4, t) + (Prefixed(a) + Prefixed(b))
  {
    EncodeThree(I32(t), Str(a), Str(b));
  }

  /** The messages that carry two strings: their number, then each string behind its 64-bit length, in this
      order: name and password, target and words, sender and words, target and reason. */
  lemma {:induction false} PairsOnTheWire(a: bytes, b: bytes)
    ensures Create(a, b).Encode() == BE(4, 6) + (Prefixed(a) + Prefixed(b))
    ensures Join(a, b).Encode() == BE(4, 9) + (Prefixed(a) + Prefixed(b))
    ensures Whisper(a, b).Encode() == BE(4, 11) + (Prefixed(a) + Prefixed(b))
    ensures ChatMsg(a, b).Encode() == BE(4, 5) + (Prefixed(a) + Prefixed(b))
    ensures WhisperMsg(a, b).Encode() == BE(4, 12) + (Prefixed(a) + Prefixed(b))
    ensures WhisperFailed(a).Encode() == BE(4, 13) + (Prefixed(a) + Prefixed(Text("user not exists!")))
  {
    PairOnTheWire(6, a, b);
    PairOnTheWire(9, a, b);
    PairOnTheWire(11, a, b);
    PairOnTheWire(5, a, b);
    PairOnTheWire(12, a, b);
    PairOnTheWire(13, a, Text("user not exists!"));
    hide EncodeAll, Text, Prefixed;
  }

  /** The two verdicts: number of the message, number of the error, its text, the room's name. */
  lemma {:induction false} VerdictsOnTheWire(err: i32, name: bytes)
    requires 0 <= err
    ensures CreateRoomRes(err, name).Encode() == BE(4, 7) + (BE(4, err) + (Prefixed(ErrorText(err)) + Prefixed(name)))
    ensures JoinRoomRes(err, name).Encode() == BE(4, 10) + (BE(4, err) + (Prefixed(ErrorText(err)) + Prefixed(name)))
  {
    var args := [I32(err), Str(ErrorText(err)), Str(name)];
    hide ErrorText;
    EncodeThree(I32(err), Str(ErrorText(err)), Str(name));
    assert CreateRoomRes(err, name).Fields()[1..] == args && JoinRoomRes(err, name).Fields()[1..] == args;
  }

  /** A user record: name and address, then 16 bits of port, 64 of id and 32 of room. */
  lemma {:induction false} UserOnTheWire(u: UserRec)
    ensures EncodeAll(UserFields(u)) ==
            Prefixed(u.name) + (Prefixed(u.ip) + (BE(2, u.port) + (BE(8, u.id) + BE(4, u.roomId))))
  {
    var fs := UserFields(u);
    EncodeThree(fs[2], fs[3], fs[4]);
    assert fs[1..] == [fs[1], fs[2], fs[3], fs[4]] && fs[1..][1..] == [fs[2], fs[3], fs[4]];
  }

  /** A room: 32 bits of id, its name, the number of members, and 64 bits for each of them. */
  lemma {:induction false} RoomOnTheWire(r: RoomRec)
    ensures EncodeAll(RoomFields(r)) ==
            BE(4, r.id) + (Prefixed(r.name) + BE(4, Low32(|r.users|))) + EncodeAll(IdFields(Ascending(r.users)))
  {
    EncodeThree(U32(r.id), Str(r.name), U32(Low32(|r.users|)));
    EncodeAllConcat(RoomHead(r), IdFields(Ascending(r.users)));
  }

  lemma {:induction false} HeadOnTheWire(f: Field, fs: seq<Field>)
    ensures EncodeAll([f] + fs) == f.Bytes() + EncodeAll(fs)
  {
    assert ([f] + fs)[1..] == fs;
  }

  /** A logon reply: its number, the error and its text, and on success the user's record. */
  lemma {:induction false} LogonOnTheWire(err: i32, user: Option<UserRec>)
    requires 0 <= err
    ensures LogonRes(err, user).Encode() ==
            BE(4, 2) + (BE(4, err) + Prefixed(ErrorText(err)))
            + if user.Some? then EncodeAll(UserFields(user.value)) else []
    ensures ErrorText(0) == []
    ensures ErrorText(1) == Text("user has logoned before!")
    ensures ErrorText(2) == Text("user with sanme name exists on server!")
  {
    hide Text, UserFields;
    var head, tail := [I32(2), I32(err), Str(ErrorText(err))], if user.Some? then UserFields(user.value) else [];
    EncodeThree(I32(2), I32(err), Str(ErrorText(err)));
    EncodeAllConcat(head, tail);
    assert LogonRes(err, user).Fields() == head + tail;
    hide EncodeAll;
  }

  /** A room info: its number, the room, the number of its members and their records. */
  lemma {:induction false} InfoOnTheWire(room: RoomRec, members: seq<UserRec>)
    ensures RoomInfo(room, members).Encode() ==
            BE(4, 3) + (EncodeAll(RoomFields(room)) + (BE(4, Low32(|members|)) + EncodeAll(UsersFields(members))))
  {
    var n, us := U32(Low32(|members|)), UsersFields(members);
    assert RoomInfo(room, members).Fields() == [I32(3)] + (RoomFields(room) + ([n] + us));
    HeadOnTheWire(I32(3), RoomFields(room) + ([n] + us));
    EncodeAllConcat(RoomFields(room), [n] + us);
    HeadOnTheWire(n, us);
    hide EncodeAll, RoomFields, UsersFields;
  }

  /** A room list: its number, the number of rooms and the rooms. */
  lemma {:induction false} ListOnTheWire(rooms: seq<RoomRec>)
    ensures RoomList(rooms).Encode() == BE(4, 8) + (BE(4, Low32(|rooms|)) + EncodeAll(RoomsFields(rooms)))
  {
    var n, rs := U32(Low32(|rooms|)), RoomsFields(rooms);
    assert RoomList(rooms).Fields() == [I32(8)] + ([n] + rs);
    HeadOnTheWire(I32(8), [n] + rs);
    HeadOnTheWire(n, rs);
    hide EncodeAll, RoomsFields;
  }
}
