/** The server's room keeper: four maps over mutable room and user objects. */
module RoomKeeping {
  import opened Octets
  import opened Codec
  import opened MsgBuffer
  import opened Framing
  import opened Chat
  import opened Structs
  import opened KeeperSpec

  /** A payload for a connection, and the frame that carries it in the worker's queue. */
  datatype Wire = Wire(conn: u64, payload: bytes)

  datatype Packet = Packet(conn: u64, frame: bytes)

  predicate Carries(p: Packet, w: Wire) {
    p.conn == w.conn && IsFrame(p.frame, w.payload)
  }

  /** now is before followed by one packet for every item of ws, in order. */
  ghost predicate Appended(before: seq<Packet>, now: seq<Packet>, ws: seq<Wire>) {
    && |now| == |before| + |ws|
    && now[..|before|] == before
    && forall i | 0 <= i < |ws| :: Carries(now[|before| + i], ws[i])
  }

  function Map<A, B>(f: A -> B, s: seq<A>): (r: seq<B>)
    ensures |r| == |s|
  {
    seq(|s|, i requires 0 <= i < |s| => f(s[i]))
  }

  lemma {:induction false} MapConcat<A, B>(f: A -> B, s: seq<A>, t: seq<A>)
    ensures Map(f, s + t) == Map(f, s) + Map(f, t)
  {
  }

  function Encoding(): Send -> Wire {
    (m: Send) => Wire(m.conn, m.body.Encode())
  }

  function OnWire(s: seq<Send>): seq<Wire> {
    Map(Encoding(), s)
  }

  function Copies(ids: seq<u64>, payload: bytes): (ws: seq<Wire>)
    ensures |ws| == |ids|
  {
    seq(|ids|, i requires 0 <= i < |ids| => Wire(ids[i], payload))
  }

  lemma {:induction false} BroadcastOnWire(ids: seq<u64>, body: Reply)
    ensures OnWire(Broadcast(ids, body)) == Copies(ids, body.Encode())
  {
  }

  lemma {:induction false} AppendedConcat(p: seq<Packet>, q: seq<Packet>, r: seq<Packet>, s: seq<Wire>, t: seq<Wire>)
    requires Appended(p, q, s) && Appended(q, r, t)
    ensures Appended(p, r, s + t)
  {
    assert r[..|p|] == r[..|q|][..|p|];
    forall i | 0 <= i < |s + t|
      ensures Carries(r[|p| + i], (s + t)[i])
    {
      if i < |s| {
        assert r[|p| + i] == r[..|q|][|p| + i] == q[|p| + i];
        assert Carries(q[|p| + i], s[i]);
      } else {
        assert Carries(r[|q| + (i - |s|)], t[i - |s|]);
      }
    }
  }

  lemma {:induction false} AppendedSends(p: seq<Packet>, q: seq<Packet>, r: seq<Packet>, s: seq<Send>, t: seq<Send>)
    requires Appended(p, q, OnWire(s)) && Appended(q, r, OnWire(t))
    ensures Appended(p, r, OnWire(s + t))
  {
    AppendedConcat(p, q, r, OnWire(s), OnWire(t));
    MapConcat(Encoding(), s, t);
  }

  lemma {:induction false} AppendedNothing(q: seq<Packet>)
    ensures Appended(q, q, [])
  {
  }

  lemma {:induction false} CopyStep(p: seq<Packet>, q: seq<Packet>, ids: seq<u64>, i: nat, payload: bytes, frame: bytes)
    requires i < |ids| && Appended(p, q, Copies(ids[..i], payload)) && IsFrame(frame, payload)
    ensures Appended(p, q + [Packet(ids[i], frame)], Copies(ids[..i + 1], payload))
  {
    var w := Wire(ids[i], payload);
    assert Appended(q, q + [Packet(ids[i], frame)], [w]);
    AppendedConcat(p, q, q + [Packet(ids[i], frame)], Copies(ids[..i], payload), [w]);
    assert Copies(ids[..i + 1], payload) == Copies(ids[..i], payload) + [w];
  }

  predicate InfoFits(k: Keeper, i: u32) {
    Known(k, i) ==> Info(k, i).Fits()
  }

  /** What JoinRoom publishes. */
  function Arrival(k: Keeper, userId: u64, roomName: bytes, err: i32): seq<Send> {
    if err == 0 && roomName in k.roomNames
    then PublishInfo(Enter(k, userId, k.roomNames[roomName]), k.roomNames[roomName])
    else []
  }

  lemma {:induction false} EnterKnown(k: Keeper, userId: u64, i: u32)
    requires MembersKnown(k) && i in k.rooms && userId in k.users
    ensures Known(Enter(k, userId, i), i)
  {
  }

  predicate JoinFits(k: Keeper, userId: u64, roomName: bytes, passwd: bytes) {
    JoinError(k, userId, roomName, passwd) == 0 ==>
      InfoFits(JoinState(k, userId, roomName, passwd), k.roomNames[roomName])
      && InfoFits(JoinState(k, userId, roomName, passwd), k.users[userId].roomId)
  }

  /** What an accepted join publishes: the room entered, then the room left. */
  function Relocation(k: Keeper, userId: u64, roomName: bytes, passwd: bytes): seq<Send> {
    var next := JoinState(k, userId, roomName, passwd);
    if JoinError(k, userId, roomName, passwd) == 0
    then PublishInfo(next, k.roomNames[roomName]) + PublishInfo(next, k.users[userId].roomId)
    else []
  }

  /** The two-room state in the middle of a join: the old room can be found again by its name, and
      the room entered already looks as it will look afterwards. */
  ghost predicate JoinReady(k: Keeper, userId: u64, roomName: bytes, passwd: bytes) {
    && RoomsIndexed(k) && MembersKnown(k)
    && (userId in k.users ==> k.users[userId].roomId in k.rooms)
    && (JoinError(k, userId, roomName, passwd) == 0 ==>
          var (dest, from) := (k.roomNames[roomName], k.users[userId].roomId);
          var (mid, next) := (Enter(k, userId, dest), JoinState(k, userId, roomName, passwd));
          && next == Leave(mid, userId, from) && from in mid.rooms && mid.rooms[from].name == k.rooms[from].name
          && k.rooms[from].name in mid.roomNames && mid.roomNames[k.rooms[from].name] == from
          && RoomsIndexed(mid) && Known(mid, dest) && Known(next, dest) && Known(next, from)
          && Info(mid, dest) == Info(next, dest) && Info(next, dest).Fits() && Info(next, from).Fits())
  }

  lemma {:induction false} JoinSteps(k: Keeper, userId: u64, roomName: bytes, passwd: bytes)
    requires Inv(k) && JoinFits(k, userId, roomName, passwd)
    ensures JoinReady(k, userId, roomName, passwd)
  {
    if JoinError(k, userId, roomName, passwd) == 0 {
      var dest := k.roomNames[roomName];
      EnterKeepsIndexes(k, userId, dest);
      MidKnown(k, userId, dest);
    }
  }

  lemma {:induction false} MidKnown(k: Keeper, userId: u64, dest: u32)
    requires Inv(k) && userId in k.users && dest in k.rooms && userId !in k.rooms[dest].users
    ensures var (from, mid) := (k.users[userId].roomId, Enter(k, userId, dest));
            var next := Leave(mid, userId, from);
            dest != from && Known(mid, dest) && Known(next, dest) && Known(next, from)
                && Info(mid, dest) == Info(next, dest)
  {
    var from, mid := k.users[userId].roomId, Enter(k, userId, dest);
    var next := Leave(mid, userId, from);
    assert mid.rooms[dest] == next.rooms[dest] && mid.users == next.users;
  }

  /** What an accepted logon publishes about HALL. */
  function Welcome(k: Keeper, userId: u64, name: bytes, ip: bytes, port: u16): seq<Send> {
    if LogonError(k, userId, name) == 0 then PublishInfo(LogonState(k, userId, name, ip, port), HALL_ID) else []
  }

  /** What the assertions on the way of a logon need, and that the messages fit. */
  ghost predicate LogonReady(k: Keeper, userId: u64, name: bytes, ip: bytes, port: u16) {
    LogonError(k, userId, name) == 0 ==>
      var mid := AddUser(k, UserRec(name, ip, port, userId, INVALID_ROOM_ID));
      && RoomsIndexed(mid) && MembersKnown(mid)
      && JoinError(mid, userId, HallName(), []) == 0 && mid.roomNames[HallName()] == HALL_ID
      && InfoFits(LogonState(k, userId, name, ip, port), HALL_ID)
  }

  /** Joining HALL right after being inserted cannot be refused. */
  lemma {:induction false} LogonSteps(k: Keeper, userId: u64, name: bytes, ip: bytes, port: u16)
    requires Inv(k) && InfoFits(LogonState(k, userId, name, ip, port), HALL_ID)
    ensures LogonReady(k, userId, name, ip, port)
  {
    if LogonError(k, userId, name) == 0 {
      AddUserKeepsIndexes(k, UserRec(name, ip, port, userId, INVALID_ROOM_ID));
    }
  }

  lemma {:induction false} DropKnown(k: Keeper, userId: u64)
    requires Inv(k) && userId in k.users
    ensures Known(DropState(k, userId), k.users[userId].roomId)
  {
    DropKeepsInv(k, userId);
    EveryRoomKnown(DropState(k, userId), k.users[userId].roomId);
  }

  // ---------------------------------------------------------------- writing a room-info message

  /** What precedes the user records of a room-info message. */
  function InfoHead(room: RoomRec, count: u32): seq<Field> {
    [I32(S2C_ROOM_INFO)] + RoomFields(room) + [U32(count)]
  }

  lemma {:induction false} EncodeOne(f: Field)
    ensures EncodeAll([f]) == f.Bytes()
  {
    assert [f][1..] == [];
    assert f.Bytes() + [] == f.Bytes();
  }

  lemma {:induction false} PayloadGrows(frame: bytes, more: bytes)
    requires |frame| >= HEAD_LENGTH
    ensures (frame + more)[HEAD_LENGTH..] == frame[HEAD_LENGTH..] + more
  {
  }

  /** Writing the remaining fields after the frame so far gives the whole. */
  predicate Writing(s: Shape, frame: bytes, rest: seq<Field>, whole: bytes) {
    Writable(s, rest) && frame + EncodeAll(rest) == whole
  }

  lemma {:induction false} WritingStep(s: Shape, frame: bytes, first: seq<Field>, rest: seq<Field>, whole: bytes)
    requires Writing(s, frame, first + rest, whole)
    ensures Writable(s, first)
    ensures Writing(AfterWrites(s, Widths(first)).value, frame + EncodeAll(first), rest, whole)
  {
    WritableSplit(s, first, rest);
    EncodeAllConcat(first, rest);
    Associative(frame, EncodeAll(first), EncodeAll(rest));
  }

  lemma {:induction false} WritingEnds(s: Shape, frame: bytes, whole: bytes)
    requires Writing(s, frame, [], whole)
    ensures frame == whole
  {
    Alone(frame);
  }

  method EncodeInfoHead(room: Room, count: u32) returns (msg: Msg)
    requires Writable(FreshShape(), InfoHead(room.View(), count))
    ensures fresh(msg) && fresh(msg.mData) && msg.Valid() && msg.mReadOffset <= msg.mWriteOffset
    ensures msg.Payload() == EncodeAll(InfoHead(room.View(), count))
    ensures msg.Extent() == AfterWrites(FreshShape(), Widths(InfoHead(room.View(), count))).value
  {
    ghost var first, middle, last := [I32(S2C_ROOM_INFO)], RoomFields(room.View()), [U32(count)];
    WritableSplit(FreshShape(), first + middle, last);
    WritableSplit(FreshShape(), first, middle);
    msg := new Msg();
    HeadBytes(msg.Frame(), first[0], middle, last[0]);
    msg.Write(I32(S2C_ROOM_INFO));
    room.Encode(msg);
    msg.Write(U32(count));
  }

  lemma {:induction false} HeadBytes(before: bytes, first: Field, middle: seq<Field>, last: Field)
    ensures before + EncodeAll([first] + middle + [last]) == before + first.Bytes() + EncodeAll(middle) + last.Bytes()
  {
    EncodeAllConcat([first] + middle, [last]);
    EncodeAllConcat([first], middle);
    EncodeOne(first);
    EncodeOne(last);
    Associative(before, first.Bytes(), EncodeAll(middle));
    Associative(before, first.Bytes() + EncodeAll(middle), last.Bytes());
  }

  lemma {:induction false} PasswordNotWritten(r: RoomRec)
    ensures RoomFields(Public(r)) == RoomFields(r)
  {
  }

  class SendQueue {
    var mSends: seq<Packet>

    constructor ()
      ensures mSends == []
    {
      mSends := [];
    }

    method Enqueue(conn: u64, msg: Msg)
      requires msg.Valid()
      modifies this
      ensures mSends == old(mSends) + [Packet(conn, msg.Frame())]
    {
      mSends := mSends + [Packet(conn, msg.Frame())];
    }
  }

  class RoomKeeper {
    var mRoomId: u32
    var mIdRoom: map<u32, Room>
    var mRoomNames: map<bytes, u32>
    var mIdUser: map<u64, User>
    var mUserNames: map<bytes, u64>
    const mWorker: SendQueue

    /** Every object is filed under its own id, so no two ids share an object. */
    ghost predicate Valid()
      reads this, mIdRoom.Values, mIdUser.Values
    {
      && (forall i | i in mIdRoom :: mIdRoom[i].mID == i)
      && (forall u | u in mIdUser :: mIdUser[u].mID == u)
    }

    ghost function Model(): Keeper
      reads this, mIdRoom.Values, mIdUser.Values
    {
      Keeper(mRoomId, RoomViews(), mRoomNames, UserViews(), mUserNames)
    }

    ghost function RoomViews(): map<u32, RoomRec>
      reads this`mIdRoom, mIdRoom.Values
    {
      map i | i in mIdRoom :: mIdRoom[i].View()
    }

    ghost function UserViews(): map<u64, UserRec>
      reads this`mIdUser, mIdUser.Values
    {
      map u | u in mIdUser :: mIdUser[u].View()
    }

    constructor (worker: SendQueue)
      ensures Valid() && Model() == Initial() && mWorker == worker
      ensures fresh(mIdRoom.Values) && mIdUser == map[]
    {
      mRoomId, mWorker := 0, worker;
      mIdRoom, mRoomNames, mIdUser, mUserNames := map[], map[], map[], map[];
      new;
      var _ := CreateRoom(HallName(), []);
    }

    method CreateRoom(name: bytes, passwd: bytes) returns (err: i32)
      requires Valid()
      modifies this
      ensures Valid() && err == CreateError(old(Model()), name)
      ensures Model() == CreateState(old(Model()), name, passwd)
      ensures fresh(mIdRoom.Values - old(mIdRoom.Values)) && mIdUser == old(mIdUser)
    {
      if name in mRoomNames {
        return ROOM_WITH_SAME_NAME_ALREADY_EXISTS;
      }
      var room := new Room(mRoomId, name, passwd);
      assert Model() == old(Model());
      FileRoom(name, room);
      err := 0;
    }

    /** Puts a new room into both maps and moves the counter on. */
    method FileRoom(name: bytes, room: Room)
      requires Valid() && room.mID == mRoomId
      modifies this
      ensures Valid() && mIdUser == old(mIdUser) && mIdRoom.Values <= old(mIdRoom.Values) + {room}
      ensures var k := old(Model());
              Model() == k.(rooms := InsertNew(k.rooms, k.nextRoom, room.View()),
                            roomNames := InsertNew(k.roomNames, name, k.nextRoom), nextRoom := NextId(k.nextRoom))
    {
      ghost var before := Model();
      mRoomNames := InsertNew(mRoomNames, name, mRoomId);
      mIdRoom := InsertNew(mIdRoom, mRoomId, room);
      mRoomId := NextId(mRoomId);
      assert RoomViews() == InsertNew(before.rooms, before.nextRoom, room.View());
      assert UserViews() == before.users;
    }

    method SendMessage(conn: u64, msg: Msg)
      requires msg.Valid()
      modifies mWorker
      ensures mWorker.mSends == old(mWorker.mSends) + [Packet(conn, msg.Frame())]
    {
      mWorker.Enqueue(conn, msg);
    }

    method GetUserById(userId: u64) returns (user: User)
      requires userId in mIdUser
      ensures user == mIdUser[userId]
    {
      assert userId in mIdUser;
      user := mIdUser[userId];
    }

    method GetRoomById(roomId: u32) returns (room: Room)
      requires roomId in mIdRoom
      ensures room == mIdRoom[roomId]
    {
      assert roomId in mIdRoom;
      room := mIdRoom[roomId];
    }

    method GetUserByName(name: bytes) returns (user: User?)
      ensures user == null <==> UserByName(Model(), name).None?
      ensures user != null ==> UserByName(Model(), name) == Some(user.View())
    {
      if name !in mUserNames {
        return null;
      }
      var id := mUserNames[name];
      if id !in mIdUser {
        return null;
      }
      user := mIdUser[id];
    }

    method SetUserRoomId(userId: u64, roomId: u32)
      requires Valid() && userId in mIdUser
      modifies mIdUser.Values
      ensures Valid()
      ensures var k := old(Model());
              Model() == k.(users := k.users[userId := k.users[userId].(roomId := roomId)])
    {
      assert userId in mIdUser;
      var user := mIdUser[userId];
      user.SetRoomId(roomId);
    }

    ghost predicate Viewed(users: seq<u64>, members: seq<UserRec>)
      reads this, mIdUser.Values
    {
      && |members| == |users|
      && forall i | 0 <= i < |users| :: users[i] in mIdUser && mIdUser[users[i]].View() == members[i]
    }

    lemma {:induction false} MembersViewed(users: seq<u64>, members: seq<UserRec>)
      requires forall u | u in users :: u in Model().users
      requires members == KeeperSpec.Records(Model(), users)
      ensures Viewed(users, members)
    {
      forall i | 0 <= i < |users|
        ensures users[i] in mIdUser && mIdUser[users[i]].View() == members[i]
      {
        assert users[i] in users && users[i] in Model().users;
        assert members[i] == UserViews()[users[i]];
      }
    }

    method GetRoomInfoMsg(roomId: u32) returns (msg: Msg)
      requires Valid() && Known(Model(), roomId) && Info(Model(), roomId).Fits()
      ensures fresh(msg) && fresh(msg.mData) && msg.Valid() && msg.Payload() == old(Info(Model(), roomId)).Encode()
    {
      assert roomId in mIdRoom;
      var room := mIdRoom[roomId];
      var users := Ascending(room.mUsers);
      ghost var members := KeeperSpec.Records(Model(), users);
      ghost var head := InfoHead(room.View(), Low32(|users|));
      assert Info(Model(), roomId).Fields() == head + UsersFields(members);
      WritableSplit(FreshShape(), head, UsersFields(members));
      EncodeAllConcat(head, UsersFields(members));
      MembersViewed(users, members);
      msg := EncodeInfoHead(room, Low32(|users|));
      EncodeUsers(users, members, msg);
    }

    method EncodeUser(user: User, ghost fields: seq<Field>, ghost rest: seq<Field>, msg: Msg, ghost whole: bytes)
      requires msg.Valid() && msg.mReadOffset <= msg.mWriteOffset
               && Writing(msg.Extent(), msg.Frame(), fields + rest, whole)
      requires fields == UserFields(user.View())
      modifies msg, msg.mData
      ensures msg.mData == old(msg.mData) || fresh(msg.mData)
      ensures msg.Valid() && msg.mReadOffset <= msg.mWriteOffset && Writing(msg.Extent(), msg.Frame(), rest, whole)
    {
      WritingStep(msg.Extent(), msg.Frame(), fields, rest, whole);
      user.Encode(msg);
    }

    /** The loop of GetRoomInfoMsg. */
    method EncodeUsers(users: seq<u64>, ghost members: seq<UserRec>, msg: Msg)
      requires Viewed(users, members)
      requires msg.Valid() && msg.mReadOffset <= msg.mWriteOffset && Writable(msg.Extent(), UsersFields(members))
      modifies msg, msg.mData
      ensures msg.Valid() && (msg.mData == old(msg.mData) || fresh(msg.mData))
      ensures msg.Payload() == old(msg.Payload()) + EncodeAll(UsersFields(members))
    {
      ghost var whole := msg.Frame() + EncodeAll(UsersFields(members));
      assert members[0..] == members;
      for i := 0 to |users|
        invariant msg.mData == old(msg.mData) || fresh(msg.mData)
        invariant msg.Valid() && msg.mReadOffset <= msg.mWriteOffset
        invariant Writing(msg.Extent(), msg.Frame(), UsersFields(members[i..]), whole)
      {
        assert users[i] in mIdUser;
        assert members[i..][1..] == members[i + 1..];
        EncodeUser(mIdUser[users[i]], UserFields(members[i]), UsersFields(members[i + 1..]), msg, whole);
      }
      WritingEnds(msg.Extent(), msg.Frame(), whole);
      PayloadGrows(old(msg.Frame()), EncodeAll(UsersFields(members)));
    }

    /** The loop of each publishing function: one copy of the message for every listed user. */
    method SendCopies(users: seq<u64>, msg: Msg)
      requires Valid() && msg.Valid()
      modifies mWorker
      ensures Valid() && Model() == old(Model())
      ensures Appended(old(mWorker.mSends), mWorker.mSends, Copies(users, old(msg.Payload())))
    {
      ghost var payload := msg.Payload();
      AppendedNothing(mWorker.mSends);
      for i := 0 to |users|
        invariant Valid() && Model() == old(Model())
        invariant msg.Valid() && msg.Payload() == payload
        invariant Appended(old(mWorker.mSends), mWorker.mSends, Copies(users[..i], payload))
      {
        var copy := msg.Dup();
        CopyStep(old(mWorker.mSends), mWorker.mSends, users, i, payload, copy.Frame());
        SendMessage(users[i], copy);
      }
      assert users[..|users|] == users;
    }

    method SendBody(users: seq<u64>, msg: Msg, ghost body: Reply)
      requires Valid() && msg.Valid() && msg.Payload() == body.Encode()
      modifies mWorker
      ensures Valid() && Model() == old(Model())
      ensures Appended(old(mWorker.mSends), mWorker.mSends, OnWire(Broadcast(users, body)))
    {
      BroadcastOnWire(users, body);
      SendCopies(users, msg);
    }

    method PublishRoomInfo(room: Room)
      requires Valid() && room.mID in mIdRoom && mIdRoom[room.mID] == room && Known(Model(), room.mID)
      requires Info(Model(), room.mID).Fits()
      modifies mWorker
      ensures Valid() && Model() == old(Model())
      ensures Appended(old(mWorker.mSends), mWorker.mSends, OnWire(old(PublishInfo(Model(), room.mID))))
    {
      ghost var body := Info(Model(), room.mID);
      var msg := GetRoomInfoMsg(room.mID);
      msg.SetLen(msg.mWriteOffset);
      SendBody(Ascending(room.mUsers), msg, body);
    }

    ghost predicate RoomsViewed(ids: seq<u64>, rooms: seq<RoomRec>)
      reads this, mIdRoom.Values
    {
      |rooms| == |ids| && forall i | 0 <= i < |ids| ::
        ids[i] < 0x1_0000_0000 && ids[i] in mIdRoom && Public(mIdRoom[ids[i]].View()) == rooms[i]
    }

    method EncodeRoom(room: Room, ghost fields: seq<Field>, ghost rest: seq<Field>, msg: Msg, ghost whole: bytes)
      requires msg.Valid() && msg.mReadOffset <= msg.mWriteOffset
               && Writing(msg.Extent(), msg.Frame(), fields + rest, whole)
      requires fields == RoomFields(Public(room.View()))
      modifies msg, msg.mData
      ensures msg.mData == old(msg.mData) || fresh(msg.mData)
      ensures msg.Valid() && msg.mReadOffset <= msg.mWriteOffset && Writing(msg.Extent(), msg.Frame(), rest, whole)
    {
      WritingStep(msg.Extent(), msg.Frame(), fields, rest, whole);
      PasswordNotWritten(room.View());
      room.Encode(msg);
    }

    method EncodeNext(ids: seq<u64>, ghost rooms: seq<RoomRec>, i: nat, msg: Msg, ghost whole: bytes)
      requires RoomsViewed(ids, rooms) && i < |ids|
      requires msg.Valid() && msg.mReadOffset <= msg.mWriteOffset
      requires Writing(msg.Extent(), msg.Frame(), RestFields(rooms, i), whole)
      modifies msg, msg.mData
      ensures msg.mData == old(msg.mData) || fresh(msg.mData)
      ensures msg.Valid() && msg.mReadOffset <= msg.mWriteOffset
      ensures Writing(msg.Extent(), msg.Frame(), RestFields(rooms, i + 1), whole)
    {
      hide Writing;
      assert rooms[i..][1..] == rooms[i + 1..];
      EncodeRoom(mIdRoom[ids[i]], RoomFields(rooms[i]), RoomsFields(rooms[i + 1..]), msg, whole);
    }

    /** The loop of PublishRoomList that writes the rooms. */
    method EncodeEach(ids: seq<u64>, ghost rooms: seq<RoomRec>, msg: Msg, ghost whole: bytes)
      requires RoomsViewed(ids, rooms)
      requires msg.Valid() && msg.mReadOffset <= msg.mWriteOffset
      requires Writing(msg.Extent(), msg.Frame(), RoomsFields(rooms), whole)
      modifies msg, msg.mData
      ensures msg.mData == old(msg.mData) || fresh(msg.mData)
      ensures msg.Valid() && Writing(msg.Extent(), msg.Frame(), [], whole)
    {
      RestAtEnds(rooms);
      hide Writing, RoomsFields, RestFields;
      for i := 0 to |ids|
        invariant msg.mData == old(msg.mData) || fresh(msg.mData)
        invariant msg.Valid() && msg.mReadOffset <= msg.mWriteOffset
        invariant Writing(msg.Extent(), msg.Frame(), RestFields(rooms, i), whole)
      {
        EncodeNext(ids, rooms, i, msg, whole);
      }
    }

    /** The fields of the rooms from the i-th on. */
    function RestFields(rooms: seq<RoomRec>, i: nat): seq<Field>
      requires i <= |rooms|
    {
      RoomsFields(rooms[i..])
    }

    lemma {:induction false} RestAtEnds(rooms: seq<RoomRec>)
      ensures RestFields(rooms, 0) == RoomsFields(rooms) && RestFields(rooms, |rooms|) == []
    {
      assert rooms[0..] == rooms && rooms[|rooms|..] == [];
    }

    method EncodeRooms(ids: seq<u64>, ghost rooms: seq<RoomRec>, msg: Msg)
      requires RoomsViewed(ids, rooms)
      requires msg.Valid() && msg.mReadOffset <= msg.mWriteOffset && Writable(msg.Extent(), RoomsFields(rooms))
      modifies msg, msg.mData
      ensures msg.Valid() && (msg.mData == old(msg.mData) || fresh(msg.mData))
      ensures msg.Payload() == old(msg.Payload()) + EncodeAll(RoomsFields(rooms))
    {
      ghost var whole := msg.Frame() + EncodeAll(RoomsFields(rooms));
      assert Writing(msg.Extent(), msg.Frame(), RoomsFields(rooms), whole);
      hide Writing, RoomsFields, EncodeAll, RoomsViewed, Writable;
      EncodeEach(ids, rooms, msg, whole);
      WritingEnds(msg.Extent(), msg.Frame(), whole);
      PayloadGrows(old(msg.Frame()), EncodeAll(RoomsFields(rooms)));
    }

    /** Connection id 0, which the first connection really has, means everybody. */
    method PublishRoomList(connId: u64)
      requires Valid() && List(Model()).Fits()
      modifies mWorker
      ensures Valid() && Model() == old(Model())
      ensures Appended(old(mWorker.mSends), mWorker.mSends, OnWire(old(PublishList(Model(), connId))))
    {
      ghost var body := List(Model());
      var msg := GetRoomListMsg();
      assert RoomViews() == old(RoomViews()) && UserViews() == old(UserViews());
      assert UserViews().Keys == mIdUser.Keys;
      assert connId != 0 ==> Broadcast([connId], body) == [Send(connId, body)];
      SendBody(if connId != 0 then [connId] else Ascending(mIdUser.Keys), msg, body);
    }

    lemma {:induction false} ListFields(ids: seq<u64>, rooms: seq<RoomRec>)
      requires ids == Ascending(mIdRoom.Keys)
      requires (forall i | i in ids :: i < 0x1_0000_0000 && i in Model().rooms) && rooms == PublicRooms(Model(), ids)
      ensures List(Model()) == RoomList(rooms) && |rooms| == |mIdRoom| && RoomsViewed(ids, rooms)
    {
      assert |mIdRoom| == |mIdRoom.Keys|;
      assert RoomViews().Keys == mIdRoom.Keys;
    }

    method GetRoomListMsg() returns (msg: Msg)
      requires Valid() && List(Model()).Fits()
      ensures fresh(msg) && fresh(msg.mData) && msg.Valid() && msg.Payload() == old(List(Model())).Encode()
    {
      hide EncodeAll, RoomsFields, Ascending, PublicRooms, FreshShape, List, Writable;
      var count := Low32(|mIdRoom|);
      var ids := Ascending(mIdRoom.Keys);
      ghost var rooms := PublicRooms(Model(), ids);
      ghost var head := [I32(S2C_ROOM_LIST), U32(count)];
      ListFields(ids, rooms);
      WritableSplit(FreshShape(), head, RoomsFields(rooms));
      EncodeAllConcat(head, RoomsFields(rooms));
      msg := NewMsg([I32(S2C_ROOM_LIST), U32(count)]);
      EncodeRooms(ids, rooms, msg);
      msg.SetLen(msg.mWriteOffset);
    }

    method PublishRoomMessage(roomId: u32, userId: u64, input: bytes)
      requires Valid() && userId in mIdUser && Known(Model(), roomId)
      requires ChatMsg(mIdUser[userId].mName, input).Fits()
      modifies mWorker
      ensures Valid() && Model() == old(Model())
      ensures Appended(old(mWorker.mSends), mWorker.mSends, OnWire(old(ChatSends(Model(), userId, roomId, input))))
    {
      var user := GetUserById(userId);
      var room := GetRoomById(roomId);
      ghost var body := ChatMsg(user.mName, input);
      var msg := NewMsg([I32(S2C_ROOM_CHAT_MSG), Str(user.mName), Str(input)]);
      var users := Ascending(room.mUsers);
      MembersKnownHere(room, users);
      SendBodyToMembers(users, msg, body);
    }

    lemma {:induction false} MembersKnownHere(room: Room, users: seq<u64>)
      requires room.mID in mIdRoom && mIdRoom[room.mID] == room && Known(Model(), room.mID)
      requires forall u | u in users :: u in room.mUsers
      ensures forall u | u in users :: u in mIdUser
    {
      assert Model().rooms[room.mID].users == room.mUsers;
      assert forall u | u in users :: u in Model().users;
    }

    method SendBodyToMembers(users: seq<u64>, msg: Msg, ghost body: Reply)
      requires Valid() && msg.Valid() && msg.Payload() == body.Encode() && forall u | u in users :: u in mIdUser
      modifies mWorker
      ensures Valid() && Model() == old(Model())
      ensures Appended(old(mWorker.mSends), mWorker.mSends, OnWire(Broadcast(users, body)))
    {
      BroadcastOnWire(users, body);
      SendToMembers(users, msg);
    }

    /** The loop of PublishRoomMessage, which looks every member up. */
    method SendToMembers(users: seq<u64>, msg: Msg)
      requires Valid() && msg.Valid() && forall u | u in users :: u in mIdUser
      modifies mWorker
      ensures Valid() && Model() == old(Model())
      ensures Appended(old(mWorker.mSends), mWorker.mSends, Copies(users, old(msg.Payload())))
    {
      ghost var payload := msg.Payload();
      AppendedNothing(mWorker.mSends);
      assert Copies(users[..0], payload) == [];
      hide Appended, Copies;
      for i := 0 to |users|
        invariant Valid() && Model() == old(Model()) && msg.Valid() && msg.Payload() == payload
        invariant Appended(old(mWorker.mSends), mWorker.mSends, Copies(users[..i], payload))
      {
        var temp := GetUserById(users[i]);
        var copy := msg.Dup();
        CopyStep(old(mWorker.mSends), mWorker.mSends, users, i, payload, copy.Frame());
        SendMessage(temp.mID, copy);
      }
      assert users[..|users|] == users;
    }

    // ------------------------------------------------------------ joining and leaving

    /** Adds the user to the room and points its record there: the user may now be in two rooms. */
    method Seat(room: Room, userId: u64)
      requires Valid() && room.mID in mIdRoom && mIdRoom[room.mID] == room && userId in mIdUser
      modifies mIdRoom.Values, mIdUser.Values
      ensures Valid() && Model() == old(Enter(Model(), userId, room.mID))
    {
      room.Add(userId);
      assert RoomViews() == old(RoomViews())[room.mID := room.View()];
      SetUserRoomId(userId, room.mID);
    }

    method Admit(room: Room, userId: u64)
      requires Valid() && room.mID in mIdRoom && mIdRoom[room.mID] == room && userId in mIdUser
      requires Known(Enter(Model(), userId, room.mID), room.mID)
      requires Info(Enter(Model(), userId, room.mID), room.mID).Fits()
      modifies mIdRoom.Values, mIdUser.Values, mWorker
      ensures Valid() && Model() == old(Enter(Model(), userId, room.mID))
      ensures Appended(old(mWorker.mSends), mWorker.mSends,
                       OnWire(old(PublishInfo(Enter(Model(), userId, room.mID), room.mID))))
    {
      Seat(room, userId);
      PublishRoomInfo(room);
    }

    /** The checks of JoinRoom. */
    method FindRoomToJoin(roomName: bytes, userId: u64, passwd: bytes) returns (err: i32, room: Room?)
      requires Valid() && RoomsIndexed(Model()) && userId in mIdUser
      ensures err == JoinError(Model(), userId, roomName, passwd)
      ensures err == 0 ==>
                roomName in mRoomNames && mRoomNames[roomName] in mIdRoom && room == mIdRoom[mRoomNames[roomName]]
    {
      room := null;
      if roomName !in mRoomNames {
        return ROOM_NOT_EXIST, null;
      }
      var roomId := mRoomNames[roomName];
      assert roomId in mIdRoom;
      room := mIdRoom[roomId];
      var okay := room.IsPasswdOkay(passwd);
      if !okay {
        return ROOM_PASSWD_NOT_MATCH, null;
      }
      var already := room.IsUserIn(userId);
      err := if already then USER_ALREADY_IN_THIS_ROOM else 0;
    }

    method JoinRoom(roomName: bytes, userId: u64, passwd: bytes) returns (err: i32)
      requires Valid() && RoomsIndexed(Model()) && MembersKnown(Model()) && userId in mIdUser
      requires JoinError(Model(), userId, roomName, passwd) == 0 ==>
                 InfoFits(Enter(Model(), userId, mRoomNames[roomName]), mRoomNames[roomName])
      modifies mIdRoom.Values, mIdUser.Values, mWorker
      ensures Valid() && err == old(JoinError(Model(), userId, roomName, passwd))
      ensures Model() == old(if err == 0 then Enter(Model(), userId, mRoomNames[roomName]) else Model())
      ensures Appended(old(mWorker.mSends), mWorker.mSends, OnWire(old(Arrival(Model(), userId, roomName, err))))
    {
      AppendedNothing(mWorker.mSends);
      ghost var k := Model();
      var room;
      err, room := FindRoomToJoin(roomName, userId, passwd);
      if err != 0 {
        return;
      }
      EnterKnown(k, userId, room.mID);
      Admit(room, userId);
    }

    method LeaveRoom(roomName: bytes, userId: u64) returns (err: i32)
      requires Valid() && RoomsIndexed(Model())
      requires roomName in mRoomNames ==> Known(Leave(Model(), userId, mRoomNames[roomName]), mRoomNames[roomName])
                                          && Info(Leave(Model(), userId, mRoomNames[roomName]),
                                              mRoomNames[roomName]).Fits()
      modifies mIdRoom.Values, mWorker
      ensures Valid() && err == if roomName in mRoomNames then 0 else ROOM_NOT_EXIST
      ensures err == 0 ==> Model() == old(Leave(Model(), userId, mRoomNames[roomName]))
      ensures err == 0 ==> Appended(old(mWorker.mSends), mWorker.mSends,
                                    OnWire(old(PublishInfo(Leave(Model(), userId, mRoomNames[roomName]),
                                        mRoomNames[roomName]))))
    {
      if roomName !in mRoomNames {
        return ROOM_NOT_EXIST;
      }
      var roomId := mRoomNames[roomName];
      assert roomId in mIdRoom;
      var room := mIdRoom[roomId];
      Dismiss(room, userId);
      err := 0;
    }

    method Unseat(room: Room, userId: u64)
      requires Valid() && room.mID in mIdRoom && mIdRoom[room.mID] == room
      modifies mIdRoom.Values
      ensures Valid() && Model() == old(Leave(Model(), userId, room.mID))
    {
      ghost var next := Leave(Model(), userId, room.mID);
      room.HandleUserLeave(userId);
      assert RoomViews() == next.rooms;
    }

    method Dismiss(room: Room, userId: u64)
      requires Valid() && room.mID in mIdRoom && mIdRoom[room.mID] == room
      requires Known(Leave(Model(), userId, room.mID), room.mID)
      requires Info(Leave(Model(), userId, room.mID), room.mID).Fits()
      modifies mIdRoom.Values, mWorker
      ensures Valid() && Model() == old(Leave(Model(), userId, room.mID))
      ensures Appended(old(mWorker.mSends), mWorker.mSends,
                       OnWire(old(PublishInfo(Leave(Model(), userId, room.mID), room.mID))))
    {
      Unseat(room, userId);
      PublishRoomInfo(room);
    }

    /** Passes through a state in which the user is in two rooms. */
    method HandleJoinRoom(roomName: bytes, passwd: bytes, userId: u64) returns (err: i32)
      requires Valid() && JoinReady(Model(), userId, roomName, passwd)
      modifies mIdRoom.Values, mIdUser.Values, mWorker
      ensures Valid() && err == old(JoinError(Model(), userId, roomName, passwd))
      ensures Model() == old(JoinState(Model(), userId, roomName, passwd))
      ensures Appended(old(mWorker.mSends), mWorker.mSends, OnWire(old(Relocation(Model(), userId, roomName, passwd))))
    {
      AppendedNothing(mWorker.mSends);
      if userId !in mIdUser {
        return USER_NOT_EXIST;
      }
      var user := mIdUser[userId];
      var oldRoomId := user.mRoomId;
      assert oldRoomId in mIdRoom;
      var oldRoom := mIdRoom[oldRoomId];
      ghost var next := JoinState(Model(), userId, roomName, passwd);
      ghost var arrival := Arrival(Model(), userId, roomName, 0);
      err := JoinRoom(roomName, userId, passwd);
      if err == 0 {
        err := FinishJoin(oldRoom, userId, next, arrival, old(mWorker.mSends));
      }
    }

    /** The second half of a join, from the two-room state on. */
    method FinishJoin(oldRoom: Room, userId: u64, ghost next: Keeper, ghost sends: seq<Send>, ghost before: seq<Packet>)
      returns (err: i32)
      requires Valid() && RoomsIndexed(Model()) && oldRoom.mID in mIdRoom && mIdRoom[oldRoom.mID] == oldRoom
      requires oldRoom.mName in mRoomNames && mRoomNames[oldRoom.mName] == oldRoom.mID
      requires next == Leave(Model(), userId, oldRoom.mID)
      requires Known(next, oldRoom.mID) && Info(next, oldRoom.mID).Fits()
      requires Appended(before, mWorker.mSends, OnWire(sends))
      modifies mIdRoom.Values, mWorker
      ensures Valid() && err == 0 && Model() == next
      ensures Appended(before, mWorker.mSends, OnWire(sends + PublishInfo(next, oldRoom.mID)))
    {
      hide Appended, OnWire, PublishInfo, Info, Leave;
      ghost var arrived := mWorker.mSends;
      err := LeaveOldRoom(oldRoom, userId);
      AppendedSends(before, arrived, mWorker.mSends, sends, PublishInfo(next, oldRoom.mID));
    }

    /** Leaving a room that the index knows cannot fail. */
    method LeaveOldRoom(room: Room, userId: u64) returns (err: i32)
      requires Valid() && RoomsIndexed(Model()) && room.mID in mIdRoom && mIdRoom[room.mID] == room
      requires room.mName in mRoomNames && mRoomNames[room.mName] == room.mID
      requires Known(Leave(Model(), userId, room.mID), room.mID)
               && Info(Leave(Model(), userId, room.mID), room.mID).Fits()
      modifies mIdRoom.Values, mWorker
      ensures Valid() && err == 0 && Model() == old(Leave(Model(), userId, room.mID))
      ensures Appended(old(mWorker.mSends), mWorker.mSends,
              OnWire(old(PublishInfo(Leave(Model(), userId, room.mID), room.mID))))
    {
      err := LeaveRoom(room.mName, userId);
      assert err == 0;
    }

    // ------------------------------------------------------------ logging on and dropping

    method InsertUser(name: bytes, ip: bytes, port: u16, userId: u64) returns (user: User)
      requires Valid() && userId !in mIdUser && name !in mUserNames
      modifies this
      ensures Valid() && Model() == old(AddUser(Model(), UserRec(name, ip, port, userId, INVALID_ROOM_ID)))
      ensures mIdRoom == old(mIdRoom) && fresh(user) && mIdUser == old(mIdUser)[userId := user]
    {
      user := new User(name, ip, port, userId);
      mIdUser := InsertNew(mIdUser, userId, user);
      mUserNames := InsertNew(mUserNames, name, userId);
      assert UserViews() == old(UserViews())[userId := user.View()];
    }

    method HandleLogon(name: bytes, ip: bytes, port: u16, userId: u64) returns (err: i32, retuser: User?)
      requires Valid() && LogonReady(Model(), userId, name, ip, port)
      modifies this, mIdRoom.Values, mIdUser.Values, mWorker
      ensures Valid() && err == old(LogonError(Model(), userId, name))
      ensures Model() == old(LogonState(Model(), userId, name, ip, port))
      ensures mIdRoom == old(mIdRoom) && fresh(mIdUser.Values - old(mIdUser.Values))
      ensures err == 0 ==> retuser != null && userId in mIdUser && mIdUser[userId] == retuser
      ensures Appended(old(mWorker.mSends), mWorker.mSends, OnWire(old(Welcome(Model(), userId, name, ip, port))))
    {
      AppendedNothing(mWorker.mSends);
      ghost var next := LogonState(Model(), userId, name, ip, port);
      assert OnWire([]) == [] && Welcome(Model(), userId, name, ip, port) ==
             if LogonError(Model(), userId, name) != 0 then [] else PublishInfo(next, HALL_ID);
      assert LogonError(Model(), userId, name) != 0 ==> next == Model();
      hide Appended, OnWire, PublishInfo, Welcome, LogonState, LogonReady;
      if userId in mIdUser {
        return USER_ALREADY_LOGGED_ON, null;
      }
      if name in mUserNames {
        return USER_SAME_NAME_EXIST, null;
      }
      err, retuser := Register(name, ip, port, userId);
    }

    /** The rest of a logon that nothing stands in the way of. */
    method Register(name: bytes, ip: bytes, port: u16, userId: u64) returns (err: i32, user: User)
      requires Valid() && LogonReady(Model(), userId, name, ip, port) && LogonError(Model(), userId, name) == 0
      modifies this, mIdRoom.Values, mIdUser.Values, mWorker
      ensures Valid() && err == 0 && Model() == old(LogonState(Model(), userId, name, ip, port))
      ensures mIdRoom == old(mIdRoom) && fresh(user) && userId in mIdUser && mIdUser[userId] == user
      ensures mIdUser.Values <= old(mIdUser.Values) + {user}
      ensures Appended(old(mWorker.mSends), mWorker.mSends,
                       OnWire(old(PublishInfo(LogonState(Model(), userId, name, ip, port), HALL_ID))))
    {
      user := InsertUser(name, ip, port, userId);
      err := EnterHall(userId);
    }

    /** Joining HALL as a new user cannot fail. */
    method EnterHall(userId: u64) returns (err: i32)
      requires Valid() && RoomsIndexed(Model()) && MembersKnown(Model()) && userId in mIdUser
      requires JoinError(Model(), userId, HallName(), []) == 0 && mRoomNames[HallName()] == HALL_ID
      requires InfoFits(Enter(Model(), userId, HALL_ID), HALL_ID)
      modifies mIdRoom.Values, mIdUser.Values, mWorker
      ensures Valid() && err == 0 && Model() == old(Enter(Model(), userId, HALL_ID))
      ensures Appended(old(mWorker.mSends), mWorker.mSends,
              OnWire(old(PublishInfo(Enter(Model(), userId, HALL_ID), HALL_ID))))
    {
      err := JoinRoom(HallName(), userId, []);
      assert err == 0;
    }

    method RemoveUserObject(userId: u64, name: bytes)
      requires Valid() && userId in mIdUser && mIdUser[userId].mName == name
      modifies this
      ensures Valid() && Model() == old(RemoveUser(Model(), userId))
      ensures mIdRoom == old(mIdRoom) && mIdUser == old(mIdUser) - {userId}
    {
      mUserNames := mUserNames - {name};
      mIdUser := mIdUser - {userId};
      assert UserViews() == old(UserViews()) - {userId};
    }

    method Depart(room: Room, userId: u64, name: bytes)
      requires Valid() && room.mID in mIdRoom && mIdRoom[room.mID] == room
      requires userId in mIdUser && mIdUser[userId].mName == name
      requires Known(RemoveUser(Leave(Model(), userId, room.mID), userId), room.mID)
      requires Info(RemoveUser(Leave(Model(), userId, room.mID), userId), room.mID).Fits()
      modifies this, mIdRoom.Values, mWorker
      ensures Valid() && Model() == old(RemoveUser(Leave(Model(), userId, room.mID), userId))
      ensures mIdRoom == old(mIdRoom) && mIdUser.Values <= old(mIdUser.Values)
      ensures Appended(old(mWorker.mSends), mWorker.mSends,
                       OnWire(old(PublishInfo(RemoveUser(Leave(Model(), userId, room.mID), userId), room.mID))))
    {
      Unseat(room, userId);
      RemoveUserObject(userId, name);
      PublishRoomInfo(room);
    }

    method HandleDrop(userId: u64)
      requires Valid() && Inv(Model()) && (userId in mIdUser ==>
               InfoFits(DropState(Model(), userId), mIdUser[userId].mRoomId))
      modifies this, mIdRoom.Values, mWorker
      ensures Valid() && Model() == old(DropState(Model(), userId))
      ensures mIdRoom == old(mIdRoom) && mIdUser.Values <= old(mIdUser.Values)
      ensures Appended(old(mWorker.mSends), mWorker.mSends, OnWire(old(DropSends(Model(), userId))))
    {
      AppendedNothing(mWorker.mSends);
      if userId !in mIdUser {
        return;
      }
      var user := mIdUser[userId];
      var roomId := user.mRoomId;
      assert roomId in mIdRoom;
      var room := mIdRoom[roomId];
      DropKnown(Model(), userId);
      Depart(room, userId, user.mName);
    }
  }
}
