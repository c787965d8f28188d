/** The client's picture of the server, as a fold over the messages it receives. */
module ReplicaSpec {
  import opened Octets
  import opened Codec
  import opened MsgBuffer
  import opened Chat
  import opened KeeperSpec

  datatype Replica = Replica(
    exited: bool,
    user: UserRec,
    rooms: map<u32, RoomRec>,
    current: RoomRec,
    onlines: map<u64, UserRec>)

  function Start(): Replica {
    Replica(false, UserRec([], [], 0, 0, INVALID_ROOM_ID), map[], RoomRec(INVALID_ROOM_ID, [], [], {}), map[])
  }

  /** std::map::insert keeps the entry that is already there. */
  function InsertUsers(m: map<u64, UserRec>, us: seq<UserRec>): map<u64, UserRec>
    decreases |us|
  {
    if us == [] then m else InsertUsers(InsertNew(m, us[0].id, us[0]), us[1..])
  }

  function InsertRooms(m: map<u32, RoomRec>, rs: seq<RoomRec>): map<u32, RoomRec>
    decreases |rs|
  {
    if rs == [] then m else InsertRooms(InsertNew(m, rs[0].id, rs[0]), rs[1..])
  }

  /** ParseRoomInfo. The room's member set is inserted into, never cleared. */
  function ShowRoom(c: Replica, room: RoomRec, members: seq<UserRec>): Replica {
    c.(current := c.current.(id := room.id, name := room.name, users := c.current.users + room.users),
       user := c.user.(roomId := room.id),
       onlines := InsertUsers(map[], members))
  }

  /** The meaning of one server message; a client whose logon is refused exits. */
  function Apply(c: Replica, body: Reply): Replica {
    if c.exited then c
    else
      match body
      case LogonRes(err, user) => if err == 0 && user.Some? then c.(user := user.value) else c.(exited := true)
      case RoomInfo(room, members) => ShowRoom(c, room, members)
      case RoomList(rooms) => c.(rooms := InsertRooms(map[], rooms))
      case _ => c
  }

  // ---------------------------------------------------------------- the same, from bytes

  const LOGON_RES_KINDS: seq<Kind> := [KI32, KStr]

  lemma {:induction false} LogonResKinds(b: bytes)
    requires TakeAll(LOGON_RES_KINDS, b).Some?
    ensures var fs := TakeAll(LOGON_RES_KINDS, b).value.0; |fs| == 2 && fs[0].I32? && fs[1].Str?
  {
    var fs := TakeAll(LOGON_RES_KINDS, b).value.0;
    assert forall i | 0 <= i < 2 :: fs[i].Kind() == LOGON_RES_KINDS[i];
  }

  function ReceiveLogonRes(c: Replica, b: bytes): Option<Replica> {
    match TakeAll(LOGON_RES_KINDS, b)
    case None => None
    case Some((fs, tail)) =>
      LogonResKinds(b);
      if fs[0].i != 0 then Some(c.(exited := true))
      else match TakeUser(tail) case None => None case Some((u, _)) => Some(c.(user := u))
  }

  function ReceiveRoomInfo(c: Replica, b: bytes): Option<Replica> {
    match TakeRoom(b)
    case None => None
    case Some((room, tail)) =>
      match TakeField(KU32, tail)
      case None => None
      case Some((count, rest)) =>
        match TakeUsers(count.w, rest)
        case None => None
        case Some((us, _)) => Some(ShowRoom(c, room, us))
  }

  function ReceiveRoomList(c: Replica, b: bytes): Option<Replica> {
    match TakeField(KU32, b)
    case None => None
    case Some((count, rest)) =>
      match TakeRooms(count.w, rest)
      case None => None
      case Some((rs, _)) => Some(c.(rooms := InsertRooms(map[], rs)))
  }

  /** One received payload; None where the client would read past the buffer. The other message
      types only print. */
  function Receive(c: Replica, b: bytes): Option<Replica> {
    if c.exited then Some(c)
    else
      match TakeField(KI32, b)
      case None => None
      case Some((t, tail)) => ReceiveTyped(c, t.i, tail)
  }

  function ReceiveTyped(c: Replica, t: i32, tail: bytes): Option<Replica> {
    if t == S2C_LOGON_RES then ReceiveLogonRes(c, tail)
    else if t == S2C_ROOM_INFO then ReceiveRoomInfo(c, tail)
    else if t == S2C_ROOM_LIST then ReceiveRoomList(c, tail)
    else Some(c)
  }

  /** A user record accompanies exactly the successful logon replies. */
  predicate Consistent(body: Reply) {
    match body
    case LogonRes(err, user) => err == 0 <==> user.Some?
    case RoomInfo(room, _) => room == Public(room)
    case RoomList(rooms) => forall r | r in rooms :: r == Public(r)
    case _ => true
  }

  lemma {:induction false} LogonResRoundTrip(c: Replica, err: i32, text: bytes, user: Option<UserRec>)
    requires var tail := if user.Some? then UserFields(user.value) else [];
             AllStorable([I32(S2C_LOGON_RES), I32(err), Str(text)] + tail)
    requires err == 0 <==> user.Some?
    ensures var tail := if user.Some? then UserFields(user.value) else [];
            ReceiveLogonRes(c, EncodeAll(([I32(S2C_LOGON_RES), I32(err), Str(text)] + tail)[1..]))
            == Some(if err == 0 then c.(user := user.value) else c.(exited := true))
  {
    var head := [I32(err), Str(text)];
    var tail := if user.Some? then UserFields(user.value) else [];
    var fs := [I32(S2C_LOGON_RES), I32(err), Str(text)] + tail;
    assert fs == [I32(S2C_LOGON_RES)] + (head + tail) && fs[1..] == head + tail;
    StorableSplit([I32(S2C_LOGON_RES)], head + tail);
    StorableSplit(head, tail);
    EncodeAllConcat(head, tail);
    RoundTrip(head, EncodeAll(tail));
    assert Kinds(head) == LOGON_RES_KINDS;
    if user.Some? {
      UserRoundTrip(user.value, []);
      Alone(EncodeAll(tail));
    }
  }

  lemma {:induction false} RoomInfoRoundTrip(c: Replica, room: RoomRec, members: seq<UserRec>)
    requires AllStorable(RoomInfo(room, members).Fields()) && room == Public(room)
    requires |room.users| < 0x1_0000_0000 && |members| < 0x1_0000_0000
    ensures ReceiveRoomInfo(c, EncodeAll(RoomInfo(room, members).Fields()[1..])) == Some(ShowRoom(c, room, members))
  {
    RoomInfoPieces(room, members);
    var n, us := U32(|members|), UsersFields(members);
    RoomRoundTrip(room, n.Bytes() + EncodeAll(us));
    FieldRoundTrip(n, EncodeAll(us));
    Alone(EncodeAll(us));
    UsersRoundTrip(members, []);
  }

  lemma {:induction false} RoomInfoPieces(room: RoomRec, members: seq<UserRec>)
    requires AllStorable(RoomInfo(room, members).Fields()) && |members| < 0x1_0000_0000
    ensures AllStorable(RoomFields(room)) && AllStorable(UsersFields(members))
    ensures EncodeAll(RoomInfo(room, members).Fields()[1..]) ==
            EncodeAll(RoomFields(room)) + (U32(|members|).Bytes() + EncodeAll(UsersFields(members)))
  {
    CountedPieces(RoomInfo(room, members).Fields(), RoomFields(room), U32(|members|), UsersFields(members));
  }

  lemma {:induction false} RoomListPieces(rooms: seq<RoomRec>)
    requires AllStorable(RoomList(rooms).Fields()) && |rooms| < 0x1_0000_0000
    ensures AllStorable(RoomsFields(rooms))
    ensures EncodeAll(RoomList(rooms).Fields()[1..]) == U32(|rooms|).Bytes() + EncodeAll(RoomsFields(rooms))
  {
    var fs := RoomList(rooms).Fields();
    assert fs == [fs[0]] + [] + [U32(|rooms|)] + RoomsFields(rooms);
    CountedPieces(fs, [], U32(|rooms|), RoomsFields(rooms));
    Alone(U32(|rooms|).Bytes() + EncodeAll(RoomsFields(rooms)));
  }

  lemma {:induction false} CountedPieces(fs: seq<Field>, before: seq<Field>, n: Field, after: seq<Field>)
    requires fs != [] && AllStorable(fs) && fs == [fs[0]] + before + [n] + after
    ensures AllStorable(before) && n.Storable() && AllStorable(after)
    ensures EncodeAll(fs[1..]) == EncodeAll(before) + (n.Bytes() + EncodeAll(after))
  {
    var tail := [n] + after;
    assert fs[1..] == before + tail;
    StorableSplit([fs[0]], before + tail);
    assert [fs[0]] + (before + tail) == fs;
    StorableSplit(before, tail);
    StorableSplit([n], after);
    assert n in [n];
    EncodeAllConcat(before, tail);
    assert tail[1..] == after;
  }

  lemma {:induction false} RoomListRoundTrip(c: Replica, rooms: seq<RoomRec>)
    requires AllStorable(RoomList(rooms).Fields()) && forall r | r in rooms :: r == Public(r)
    requires |rooms| < 0x1_0000_0000 && forall r | r in rooms :: |r.users| < 0x1_0000_0000
    ensures ReceiveRoomList(c, EncodeAll(RoomList(rooms).Fields()[1..])) == Some(c.(rooms := InsertRooms(map[], rooms)))
  {
    RoomListPieces(rooms);
    var n, rs := U32(|rooms|), RoomsFields(rooms);
    FieldRoundTrip(n, EncodeAll(rs));
    Alone(EncodeAll(rs));
    RoomsRoundTrip(rooms, []);
    assert AllPublic(rooms) == rooms;
  }

  lemma {:induction false} FitCounts(body: Reply)
    requires body.Fits()
    ensures AllStorable(body.Fields())
    ensures body.RoomInfo? ==> |body.room.users| < 0x1_0000_0000 && |body.members| < 0x1_0000_0000
    ensures body.RoomList? ==> |body.rooms| < 0x1_0000_0000 && forall r | r in body.rooms :: |r.users| < 0x1_0000_0000
  {
    WritableIsSmall(body.Fields());
  }

  /** Whatever the server encodes, the client decodes to exactly its meaning. */
  lemma {:induction false} ReceiveEncoded(c: Replica, body: Reply)
    requires body.Fits() && Consistent(body)
    ensures Receive(c, body.Encode()) == Some(Apply(c, body))
  {
    FitCounts(body);
    TypeWord(body);
    match body
    case LogonRes(err, user) => LogonResRoundTrip(c, err, ErrorText(err), user);
    case RoomInfo(room, members) => RoomInfoRoundTrip(c, room, members);
    case RoomList(rooms) => RoomListRoundTrip(c, rooms);
    case _ =>
  }

  lemma {:induction false} TypeWord(body: Reply)
    requires AllStorable(body.Fields())
    ensures body.Fields() != []
    ensures TakeField(KI32, body.Encode()) == Some((body.Fields()[0], EncodeAll(body.Fields()[1..])))
    ensures body.LogonRes? ==> body.Fields()[0] == I32(S2C_LOGON_RES)
    ensures body.RoomInfo? ==> body.Fields()[0] == I32(S2C_ROOM_INFO)
    ensures body.RoomList? ==> body.Fields()[0] == I32(S2C_ROOM_LIST)
    ensures !body.LogonRes? && !body.RoomInfo? && !body.RoomList? ==>
              body.Fields()[0].i !in {S2C_LOGON_RES, S2C_ROOM_INFO, S2C_ROOM_LIST}
  {
    var fs := body.Fields();
    assert fs[0] in fs && fs[0].I32?;
    FieldRoundTrip(fs[0], EncodeAll(fs[1..]));
  }
}
