/** User and room records and the messages of the chat protocol, field by field. */
module Chat {
  import opened Octets
  import opened Codec
  import opened MsgBuffer

  const HALL_ID: u32 := 0
  const INVALID_ROOM_ID: u32 := 0xFFFF_FFFF

  function HallName(): bytes { Text("HALL") }

  datatype UserRec = UserRec(name: bytes, ip: bytes, port: u16, id: u64, roomId: u32)

  datatype RoomRec = RoomRec(id: u32, name: bytes, passwd: bytes, users: set<u64>)

  // ---------------------------------------------------------------- ordered iteration

  predicate IsLeast(m: u64, s: set<u64>) {
    m in s && forall x | x in s :: m <= x
  }

  lemma {:induction false} LeastExists(s: set<u64>)
    requires s != {}
    ensures exists m | m in s :: IsLeast(m, s)
  {
    var a :| a in s;
    if s == {a} {
      assert IsLeast(a, s);
    } else {
      var t := s - {a};
      LeastExists(t);
      var m :| m in t && IsLeast(m, t);
      assert forall x | x in s :: x == a || x in t;
      assert IsLeast(if m <= a then m else a, s);
    }
  }

  function Least(s: set<u64>): (m: u64)
    requires s != {}
    ensures IsLeast(m, s)
  {
    LeastExists(s);
    var m :| m in s && IsLeast(m, s);
    m
  }

  predicate Increasing(r: seq<u64>) {
    forall i, j | 0 <= i < j < |r| :: r[i] < r[j]
  }

  /** The order in which a std::set or the keys of a std::map are visited. */
  function Ascending(s: set<u64>): (r: seq<u64>)
    ensures |r| == |s|
    ensures forall x: u64 :: x in r <==> x in s
  {
    if s == {} then []
    else
      var m := Least(s);
      [m] + Ascending(s - {m})
  }

  lemma {:induction false} AscendingIncreases(s: set<u64>)
    ensures Increasing(Ascending(s))
  {
    if s != {} {
      var m := Least(s);
      AscendingIncreases(s - {m});
      ConsIncreases(m, Ascending(s - {m}));
    }
  }

  lemma {:induction false} ConsIncreases(m: u64, r: seq<u64>)
    requires Increasing(r) && forall x | x in r :: m < x
    ensures Increasing([m] + r)
  {
    assert forall j | 0 < j < |[m] + r| :: ([m] + r)[j] == r[j - 1] && r[j - 1] in r;
  }

  // ---------------------------------------------------------------- records on the wire

  const USER_KINDS: seq<Kind> := [KStr, KStr, KU16, KU64, KU32]
  const ROOM_KINDS: seq<Kind> := [KU32, KStr, KU32]

  function UserFields(u: UserRec): seq<Field> {
    [Str(u.name), Str(u.ip), U16(u.port), U64(u.id), U32(u.roomId)]
  }

  function UsersFields(us: seq<UserRec>): (fs: seq<Field>)
    ensures |fs| == 5 * |us|
  {
    if us == [] then [] else UserFields(us[0]) + UsersFields(us[1..])
  }

  function IdFields(ids: seq<u64>): (fs: seq<Field>)
    ensures |fs| == |ids|
  {
    seq(|ids|, i requires 0 <= i < |ids| => U64(ids[i]))
  }

  /** The member count is stored in 32 bits. */
  function RoomHead(r: RoomRec): (fs: seq<Field>) {
    [U32(r.id), Str(r.name), U32(Low32(|r.users|))]
  }

  function RoomFields(r: RoomRec): (fs: seq<Field>)
    ensures |fs| == 3 + |r.users|
  {
    RoomHead(r) + IdFields(Ascending(r.users))
  }

  function RoomsFields(rs: seq<RoomRec>): (fs: seq<Field>)
    ensures |fs| >= 3 * |rs|
    ensures forall r | r in rs :: |r.users| <= |fs|
  {
    if rs == [] then [] else RoomFields(rs[0]) + RoomsFields(rs[1..])
  }

  predicate IsUser(fs: seq<Field>) {
    |fs| == 5 && fs[0].Str? && fs[1].Str? && fs[2].U16? && fs[3].U64? && fs[4].U32?
  }

  lemma {:induction false} UserKinds(b: bytes)
    requires TakeAll(USER_KINDS, b).Some?
    ensures IsUser(TakeAll(USER_KINDS, b).value.0)
  {
    var fs := TakeAll(USER_KINDS, b).value.0;
    assert forall i | 0 <= i < 5 :: fs[i].Kind() == USER_KINDS[i];
  }

  function TakeUser(b: bytes): (r: Option<(UserRec, bytes)>) {
    match TakeAll(USER_KINDS, b)
    case None => None
    case Some((fs, rest)) =>
      UserKinds(b);
      Some((UserRec(fs[0].s, fs[1].s, fs[2].h, fs[3].d, fs[4].w), rest))
  }

  lemma {:induction false} UserTaken(b: bytes)
    requires TakeUser(b).Some?
    ensures TakeAll(USER_KINDS, b).Some?
    ensures var (fs, rest) := TakeAll(USER_KINDS, b).value;
            IsUser(fs) && TakeUser(b).value == (UserRec(fs[0].s, fs[1].s, fs[2].h, fs[3].d, fs[4].w), rest)
  {
    UserKinds(b);
  }

  function TakeUsers(n: nat, b: bytes): Option<(seq<UserRec>, bytes)> {
    if n == 0 then Some(([], b))
    else
      match TakeUser(b)
      case None => None
      case Some((u, tail)) =>
        match TakeUsers(n - 1, tail)
        case None => None
        case Some((us, rest)) => Some(([u] + us, rest))
  }

  function TakeIds(n: nat, b: bytes): Option<(seq<u64>, bytes)> {
    match TakeAll(seq(n, i => KU64), b)
    case None => None
    case Some((fs, rest)) => Some((seq(n, i requires 0 <= i < n => fs[i].d), rest))
  }

  lemma {:induction false} TakeIdsCons(n: nat, b: bytes)
    requires n > 0 && TakeIds(n, b).Some?
    ensures TakeField(KU64, b).Some?
    ensures var (f, tail) := TakeField(KU64, b).value;
            TakeIds(n - 1, tail).Some? && TakeIds(n, b).value.1 == TakeIds(n - 1, tail).value.1
            && Members(TakeIds(n, b).value.0) == {f.d} + Members(TakeIds(n - 1, tail).value.0)
  {
    var ks := seq(n, i => KU64);
    assert ks[1..] == seq(n - 1, i => KU64);
    var (f, tail) := TakeField(KU64, b).value;
    assert TakeIds(n, b).value.0 == [f.d] + TakeIds(n - 1, tail).value.0;
  }

  function Members(ids: seq<u64>): (s: set<u64>) {
    set x | x in ids
  }

  predicate IsRoomHead(fs: seq<Field>) {
    |fs| == 3 && fs[0].U32? && fs[1].Str? && fs[2].U32?
  }

  lemma {:induction false} RoomKinds(b: bytes)
    requires TakeAll(ROOM_KINDS, b).Some?
    ensures IsRoomHead(TakeAll(ROOM_KINDS, b).value.0)
  {
    var fs := TakeAll(ROOM_KINDS, b).value.0;
    assert forall i | 0 <= i < 3 :: fs[i].Kind() == ROOM_KINDS[i];
  }

  /** Decodes a room; the wire carries no password. */
  function TakeRoom(b: bytes): Option<(RoomRec, bytes)> {
    match TakeAll(ROOM_KINDS, b)
    case None => None
    case Some((fs, tail)) =>
      RoomKinds(b);
      match TakeIds(fs[2].w, tail)
      case None => None
      case Some((ids, rest)) => Some((RoomRec(fs[0].w, fs[1].s, [], Members(ids)), rest))
  }

  function TakeRooms(n: nat, b: bytes): Option<(seq<RoomRec>, bytes)> {
    if n == 0 then Some(([], b))
    else
      match TakeRoom(b)
      case None => None
      case Some((r, tail)) =>
        match TakeRooms(n - 1, tail)
        case None => None
        case Some((rs, rest)) => Some(([r] + rs, rest))
  }

  function Public(r: RoomRec): RoomRec {
    r.(passwd := [])
  }

  function AllPublic(rs: seq<RoomRec>): (ps: seq<RoomRec>)
    ensures |ps| == |rs|
  {
    seq(|rs|, i requires 0 <= i < |rs| => Public(rs[i]))
  }

  lemma {:induction false} UserRoundTrip(u: UserRec, rest: bytes)
    requires AllStorable(UserFields(u))
    ensures TakeUser(EncodeAll(UserFields(u)) + rest) == Some((u, rest))
  {
    RoundTrip(UserFields(u), rest);
    assert Kinds(UserFields(u)) == USER_KINDS;
  }

  lemma {:induction false} UsersRoundTrip(us: seq<UserRec>, rest: bytes)
    requires AllStorable(UsersFields(us))
    ensures TakeUsers(|us|, EncodeAll(UsersFields(us)) + rest) == Some((us, rest))
  {
    if us == [] {
      assert EncodeAll(UsersFields(us)) + rest == rest;
    } else {
      var first, others := UserFields(us[0]), UsersFields(us[1..]);
      StorableSplit(first, others);
      EncodeConcatRest(first, others, rest);
      UserRoundTrip(us[0], EncodeAll(others) + rest);
      UsersRoundTrip(us[1..], rest);
      assert [us[0]] + us[1..] == us;
    }
  }

  lemma {:induction false} IdsRoundTrip(ids: seq<u64>, rest: bytes)
    ensures TakeIds(|ids|, EncodeAll(IdFields(ids)) + rest) == Some((ids, rest))
  {
    RoundTrip(IdFields(ids), rest);
    assert Kinds(IdFields(ids)) == seq(|ids|, i => KU64);
    var fs := IdFields(ids);
    assert seq(|ids|, i requires 0 <= i < |ids| => fs[i].d) == ids;
  }

  lemma {:induction false} RoomHeadRoundTrip(r: RoomRec, tail: bytes)
    requires Str(r.name).Storable()
    ensures TakeAll(ROOM_KINDS, EncodeAll(RoomHead(r)) + tail) == Some((RoomHead(r), tail))
  {
    RoundTrip(RoomHead(r), tail);
    assert Kinds(RoomHead(r)) == ROOM_KINDS;
  }

  /** Decoding an encoded room gives back its id, name and exact member set. */
  lemma {:induction false} RoomRoundTrip(r: RoomRec, rest: bytes)
    requires AllStorable(RoomFields(r)) && |r.users| < 0x1_0000_0000
    ensures TakeRoom(EncodeAll(RoomFields(r)) + rest) == Some((Public(r), rest))
  {
    var ids := Ascending(r.users);
    var tail := EncodeAll(IdFields(ids)) + rest;
    assert Str(r.name) in RoomFields(r);
    EncodeConcatRest(RoomHead(r), IdFields(ids), rest);
    RoomHeadRoundTrip(r, tail);
    IdsRoundTrip(ids, rest);
    assert Members(ids) == r.users;
  }

  lemma {:induction false} AllPublicCons(rs: seq<RoomRec>)
    requires rs != []
    ensures AllPublic(rs) == [Public(rs[0])] + AllPublic(rs[1..])
  {
  }

  lemma {:induction false} RoomsRoundTrip(rs: seq<RoomRec>, rest: bytes)
    requires AllStorable(RoomsFields(rs)) && forall r | r in rs :: |r.users| < 0x1_0000_0000
    ensures TakeRooms(|rs|, EncodeAll(RoomsFields(rs)) + rest) == Some((AllPublic(rs), rest))
  {
    if rs == [] {
      assert EncodeAll(RoomsFields(rs)) + rest == rest;
    } else {
      var first, others := RoomFields(rs[0]), RoomsFields(rs[1..]);
      StorableSplit(first, others);
      EncodeConcatRest(first, others, rest);
      RoomRoundTrip(rs[0], EncodeAll(others) + rest);
      RoomsRoundTrip(rs[1..], rest);
      AllPublicCons(rs);
    }
  }

  // ---------------------------------------------------------------- messages

  const C2S_LOGON: i32 := 1
  const S2C_LOGON_RES: i32 := 2
  const S2C_ROOM_INFO: i32 := 3
  const C2S_PUBLISH_CHAT_MSG: i32 := 4
  const S2C_ROOM_CHAT_MSG: i32 := 5
  const C2S_CREATE_ROOM: i32 := 6
  const S2C_CREATE_ROOM_RES: i32 := 7
  const S2C_ROOM_LIST: i32 := 8
  const C2S_JOIN_ROOM: i32 := 9
  const S2C_JOIN_ROOM_RES: i32 := 10
  const C2S_WHISPER_MSG: i32 := 11
  const S2C_WHISPER_MSG: i32 := 12
  const S2C_WHISPER_MSG_FAILED: i32 := 13
  const LOCAL_LIST_ROOM: i32 := 16
  const LOCAL_LEAVE_ROOM: i32 := 17
  const LOCAL_WHISPER_MSG: i32 := 18

  const USER_ALREADY_LOGGED_ON: i32 := 1
  const USER_SAME_NAME_EXIST: i32 := 2
  const ROOM_NOT_EXIST: i32 := 3
  const ROOM_PASSWD_NOT_MATCH: i32 := 4
  const USER_ALREADY_IN_THIS_ROOM: i32 := 5
  const ROOM_WITH_SAME_NAME_ALREADY_EXISTS: i32 := 6
  const USER_NOT_EXIST: i32 := 7

  /** The text that goes with an error number; nothing on success. */
  function ErrorText(err: i32): bytes {
    if err == USER_ALREADY_LOGGED_ON then Text("user has logoned before!")
    else if err == USER_SAME_NAME_EXIST then Text("user with sanme name exists on server!")
    else if err == ROOM_NOT_EXIST then Text("room not exists!")
    else if err == ROOM_PASSWD_NOT_MATCH then Text("room passwd not match, try again!")
    else if err == USER_ALREADY_IN_THIS_ROOM then Text("user already in this room")
    else if err == ROOM_WITH_SAME_NAME_ALREADY_EXISTS then Text("room with same name already exists")
    else if err == USER_NOT_EXIST then Text("join room ,but user not exist!")
    else []
  }

  /** What the server sends. A user record follows a logon reply only on success. */
  datatype Reply =
    | LogonRes(err: i32, user: Option<UserRec>)
    | RoomInfo(room: RoomRec, members: seq<UserRec>)
    | ChatMsg(from: bytes, words: bytes)
    | CreateRoomRes(err: i32, roomName: bytes)
    | RoomList(rooms: seq<RoomRec>)
    | JoinRoomRes(err: i32, roomName: bytes)
    | WhisperMsg(from: bytes, words: bytes)
    | WhisperFailed(to: bytes)
  {
    function Fields(): seq<Field> {
      match this
      case LogonRes(err, user) =>
        [I32(S2C_LOGON_RES), I32(err), Str(ErrorText(err))] + (if user.Some? then UserFields(user.value) else [])
      case RoomInfo(room, members) =>
        [I32(S2C_ROOM_INFO)] + RoomFields(room) + [U32(Low32(|members|))] + UsersFields(members)
      case ChatMsg(from, words) => [I32(S2C_ROOM_CHAT_MSG), Str(from), Str(words)]
      case CreateRoomRes(err, name) => [I32(S2C_CREATE_ROOM_RES), I32(err), Str(ErrorText(err)), Str(name)]
      case RoomList(rooms) => [I32(S2C_ROOM_LIST), U32(Low32(|rooms|))] + RoomsFields(rooms)
      case JoinRoomRes(err, name) => [I32(S2C_JOIN_ROOM_RES), I32(err), Str(ErrorText(err)), Str(name)]
      case WhisperMsg(from, words) => [I32(S2C_WHISPER_MSG), Str(from), Str(words)]
      case WhisperFailed(to) => [I32(S2C_WHISPER_MSG_FAILED), Str(to), Str(Text("user not exists!"))]
    }

    function Encode(): bytes {
      EncodeAll(Fields())
    }

    /** The message can be written without leaving its buffer. */
    predicate Fits() {
      Writable(FreshShape(), Fields())
    }
  }

  /** What a client asks for. */
  datatype Request =
    | Logon(name: bytes)
    | Publish(roomId: u32, words: bytes)
    | Create(roomName: bytes, passwd: bytes)
    | Join(roomName: bytes, passwd: bytes)
    | Whisper(to: bytes, words: bytes)
    | Unknown(msgType: i32)
  {
    function Fields(): seq<Field> {
      match this
      case Logon(name) => [I32(C2S_LOGON), Str(name)]
      case Publish(roomId, words) => [I32(C2S_PUBLISH_CHAT_MSG), U32(roomId), Str(words)]
      case Create(name, passwd) => [I32(C2S_CREATE_ROOM), Str(name), Str(passwd)]
      case Join(name, passwd) => [I32(C2S_JOIN_ROOM), Str(name), Str(passwd)]
      case Whisper(to, words) => [I32(C2S_WHISPER_MSG), Str(to), Str(words)]
      case Unknown(t) => [I32(t)]
    }

    function Encode(): bytes {
      EncodeAll(Fields())
    }
  }

  /** The fields that follow a request's type word; no entry for types the server ignores. */
  function RequestKinds(msgType: i32): Option<seq<Kind>> {
    if msgType == C2S_LOGON then Some([KStr])
    else if msgType == C2S_PUBLISH_CHAT_MSG then Some([KU32, KStr])
    else if msgType == C2S_CREATE_ROOM || msgType == C2S_JOIN_ROOM || msgType == C2S_WHISPER_MSG then Some([KStr, KStr])
    else None
  }

  /** The server's reading of a payload; None where it would read past the buffer. */
  function ParseRequest(b: bytes): Option<Request> {
    match TakeField(KI32, b)
    case None => None
    case Some((typeWord, tail)) =>
      match RequestKinds(typeWord.i)
      case None => Some(Unknown(typeWord.i))
      case Some(ks) =>
        match TakeAll(ks, tail)
        case None => None
        case Some((fs, _)) => Some(RequestOf(typeWord.i, fs))
  }

  function RequestOf(t: i32, fs: seq<Field>): (r: Request)
    requires RequestKinds(t).Some? && Kinds(fs) == RequestKinds(t).value
    ensures !r.Unknown? && r.Fields() == [I32(t)] + fs
  {
    assert |fs| == |Kinds(fs)| && forall i | 0 <= i < |fs| :: fs[i].Kind() == Kinds(fs)[i];
    if t == C2S_LOGON then Logon(fs[0].s)
    else if t == C2S_PUBLISH_CHAT_MSG then Publish(fs[0].w, fs[1].s)
    else if t == C2S_CREATE_ROOM then Create(fs[0].s, fs[1].s)
    else if t == C2S_JOIN_ROOM then Join(fs[0].s, fs[1].s)
    else Whisper(fs[0].s, fs[1].s)
  }

  /** Every request a client can express is understood as it was meant. */
  lemma {:induction false} RequestRoundTrip(r: Request, rest: bytes)
    requires AllStorable(r.Fields()) && (r.Unknown? ==> RequestKinds(r.msgType).None?)
    ensures ParseRequest(r.Encode() + rest) == Some(r)
  {
    var fs := r.Fields();
    var args := fs[1..];
    assert fs == [fs[0]] + args;
    assert fs[0] in fs && forall f | f in args :: f in fs;
    Associative(fs[0].Bytes(), EncodeAll(args), rest);
    FieldRoundTrip(fs[0], EncodeAll(args) + rest);
    RoundTrip(args, rest);
    if !r.Unknown? {
      ArgumentKinds(r);
      FieldsDetermineRequest(r, RequestOf(fs[0].i, args));
    }
  }

  lemma {:induction false} ArgumentKinds(r: Request)
    requires !r.Unknown?
    ensures r.Fields()[0].I32? && RequestKinds(r.Fields()[0].i) == Some(Kinds(r.Fields()[1..]))
  {
    match r
    case Logon(_) => assert Kinds(r.Fields()[1..]) == [KStr];
    case Publish(_, _) => assert Kinds(r.Fields()[1..]) == [KU32, KStr];
    case Create(_, _) => assert Kinds(r.Fields()[1..]) == [KStr, KStr];
    case Join(_, _) => assert Kinds(r.Fields()[1..]) == [KStr, KStr];
    case Whisper(_, _) => assert Kinds(r.Fields()[1..]) == [KStr, KStr];
  }

  lemma {:induction false} FieldsDetermineRequest(a: Request, b: Request)
    requires a.Fields() == b.Fields() && !a.Unknown? && !b.Unknown?
    ensures a == b
  {
    assert a.Fields()[0] == b.Fields()[0];
    assert forall i | 0 <= i < |a.Fields()| :: a.Fields()[i] == b.Fields()[i];
  }
}
