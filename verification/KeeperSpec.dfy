/** The room keeper as a state machine on values: what each event does to the four maps and
    the member sets, and which messages it sends, in order. */
module KeeperSpec {
  import opened Octets
  import opened Chat

  datatype Keeper = Keeper(
    nextRoom: u32,
    rooms: map<u32, RoomRec>,
    roomNames: map<bytes, u32>,
    users: map<u64, UserRec>,
    userNames: map<bytes, u64>)

  datatype Send = Send(conn: u64, body: Reply)

  // ---------------------------------------------------------------- invariants

  /** The room maps are mutual inverses, room ids are 0..nextRoom-1, and HALL is room 0. */
  ghost predicate RoomsIndexed(k: Keeper) {
    && (forall i: u32 :: i in k.rooms <==> i < k.nextRoom)
    && (forall i: u32 | i in k.rooms :: k.rooms[i].id == i)
    && (forall i: u32 | i in k.rooms :: k.rooms[i].name in k.roomNames && k.roomNames[k.rooms[i].name] == i)
    && (forall n: bytes | n in k.roomNames :: k.roomNames[n] in k.rooms && k.rooms[k.roomNames[n]].name == n)
    && HALL_ID in k.rooms && k.rooms[HALL_ID].name == HallName() && k.rooms[HALL_ID].passwd == []
  }

  /** The user maps are mutual inverses. */
  ghost predicate UsersIndexed(k: Keeper) {
    && (forall u: u64 | u in k.users :: k.users[u].id == u)
    && (forall u: u64 | u in k.users :: k.users[u].name in k.userNames && k.userNames[k.users[u].name] == u)
    && (forall n: bytes | n in k.userNames :: k.userNames[n] in k.users && k.users[k.userNames[n]].name == n)
  }

  /** Members of rooms are logged on. */
  ghost predicate MembersKnown(k: Keeper) {
    forall i: u32, u: u64 | i in k.rooms && u in k.rooms[i].users :: u in k.users
  }

  /** A logged-on user is a member of the room its record names, and of no other. */
  ghost predicate Partitioned(k: Keeper) {
    && (forall u: u64 | u in k.users :: k.users[u].roomId in k.rooms && u in k.rooms[k.users[u].roomId].users)
    && (forall i: u32, u: u64 | i in k.rooms && u in k.rooms[i].users :: u in k.users && k.users[u].roomId == i)
  }

  ghost predicate Inv(k: Keeper) {
    RoomsIndexed(k) && UsersIndexed(k) && Partitioned(k)
  }

  /** Room i exists and all its members are logged on. */
  predicate Known(k: Keeper, i: u32) {
    i in k.rooms && k.rooms[i].users <= k.users.Keys
  }

  /** All that one user's view depends on is there. */
  predicate Seated(k: Keeper, u: u64) {
    u in k.users && Known(k, k.users[u].roomId)
  }

  lemma {:induction false} EveryRoomKnown(k: Keeper, i: u32)
    requires Partitioned(k) && i in k.rooms
    ensures Known(k, i)
  {
  }

  lemma {:induction false} EveryoneSeated(k: Keeper, u: u64)
    requires Inv(k) && u in k.users
    ensures Seated(k, u)
  {
  }

  ghost function RoomsOf(k: Keeper, u: u64): set<u32> {
    set i: u32 | i in k.rooms && u in k.rooms[i].users
  }

  /** Between events every logged-on user is in exactly one room, everyone else in none. */
  lemma {:induction false} ExactlyOneRoom(k: Keeper, u: u64)
    requires Inv(k)
    ensures RoomsOf(k, u) == if u in k.users then {k.users[u].roomId} else {}
  {
  }

  // ---------------------------------------------------------------- pieces of state change

  function InsertNew<K, V>(m: map<K, V>, key: K, value: V): map<K, V> {
    if key in m then m else m[key := value]
  }

  function NextId(id: u32): u32 {
    if id == 0xFFFF_FFFF then 0 else id + 1
  }

  function NewRoom(k: Keeper, name: bytes, passwd: bytes): Keeper {
    k.(rooms := InsertNew(k.rooms, k.nextRoom, RoomRec(k.nextRoom, name, passwd, {})),
       roomNames := InsertNew(k.roomNames, name, k.nextRoom),
       nextRoom := NextId(k.nextRoom))
  }

  function Initial(): Keeper {
    NewRoom(Keeper(0, map[], map[], map[], map[]), HallName(), [])
  }

  /** Room::Add followed by SetUserRoomId. (This and the next functions change nothing where a
      looked-up id is missing; the invariant excludes that.) */
  function Enter(k: Keeper, u: u64, i: u32): Keeper {
    if i !in k.rooms || u !in k.users then k
    else
      var r := k.rooms[i];
      k.(rooms := k.rooms[i := r.(users := r.users + {u})],
         users := k.users[u := k.users[u].(roomId := i)])
  }

  /** Room::HandleUserLeave. */
  function Leave(k: Keeper, u: u64, i: u32): Keeper {
    if i !in k.rooms then k
    else
      var r := k.rooms[i];
      k.(rooms := k.rooms[i := r.(users := r.users - {u})])
  }

  function AddUser(k: Keeper, u: UserRec): Keeper {
    k.(users := k.users[u.id := u], userNames := k.userNames[u.name := u.id])
  }

  function RemoveUser(k: Keeper, u: u64): Keeper {
    if u !in k.users then k
    else k.(users := k.users - {u}, userNames := k.userNames - {k.users[u].name})
  }

  function Move(k: Keeper, u: u64, i: u32): Keeper {
    if u !in k.users then k else Leave(Enter(k, u, i), u, k.users[u].roomId)
  }

  // ---------------------------------------------------------------- messages

  function Broadcast(ids: seq<u64>, body: Reply): (s: seq<Send>)
    ensures |s| == |ids|
  {
    seq(|ids|, i requires 0 <= i < |ids| => Send(ids[i], body))
  }

  function Records(k: Keeper, ids: seq<u64>): (us: seq<UserRec>)
    requires forall u | u in ids :: u in k.users
    ensures |us| == |ids|
  {
    seq(|ids|, i requires 0 <= i < |ids| => k.users[ids[i]])
  }

  function Info(k: Keeper, i: u32): Reply
    requires Known(k, i)
  {
    RoomInfo(Public(k.rooms[i]), Records(k, Ascending(k.rooms[i].users)))
  }

  function PublishInfo(k: Keeper, i: u32): seq<Send> {
    if Known(k, i) then Broadcast(Ascending(k.rooms[i].users), Info(k, i)) else []
  }

  function PublicRooms(k: Keeper, ids: seq<u64>): (rs: seq<RoomRec>)
    requires forall i | i in ids :: i < 0x1_0000_0000 && i in k.rooms
    ensures |rs| == |ids|
  {
    seq(|ids|, j requires 0 <= j < |ids| => Public(k.rooms[ids[j]]))
  }

  function List(k: Keeper): Reply {
    RoomList(PublicRooms(k, Ascending(k.rooms.Keys)))
  }

  /** Connection id 0 stands for everybody. */
  function PublishList(k: Keeper, conn: u64): seq<Send> {
    if conn != 0 then [Send(conn, List(k))] else Broadcast(Ascending(k.users.Keys), List(k))
  }

  // ---------------------------------------------------------------- events

  function LogonError(k: Keeper, conn: u64, name: bytes): i32 {
    if conn in k.users then USER_ALREADY_LOGGED_ON
    else if name in k.userNames then USER_SAME_NAME_EXIST
    else 0
  }

  function LogonState(k: Keeper, conn: u64, name: bytes, ip: bytes, port: u16): Keeper {
    if LogonError(k, conn, name) != 0 then k
    else Enter(AddUser(k, UserRec(name, ip, port, conn, INVALID_ROOM_ID)), conn, HALL_ID)
  }

  function LogonReply(k: Keeper, conn: u64, err: i32): Reply {
    LogonRes(err, if err == 0 && conn in k.users then Some(k.users[conn]) else None)
  }

  function LogonSends(k: Keeper, conn: u64, name: bytes, ip: bytes, port: u16): seq<Send> {
    var err := LogonError(k, conn, name);
    var next := LogonState(k, conn, name, ip, port);
    (if err == 0 then PublishInfo(next, HALL_ID) else []) + [Send(conn, LogonReply(next, conn, err))]
    + PublishList(next, conn)
  }

  function JoinError(k: Keeper, conn: u64, name: bytes, passwd: bytes): i32 {
    if conn !in k.users then USER_NOT_EXIST
    else if name !in k.roomNames || k.roomNames[name] !in k.rooms then ROOM_NOT_EXIST
    else if k.rooms[k.roomNames[name]].passwd != passwd then ROOM_PASSWD_NOT_MATCH
    else if conn in k.rooms[k.roomNames[name]].users then USER_ALREADY_IN_THIS_ROOM
    else 0
  }

  function JoinState(k: Keeper, conn: u64, name: bytes, passwd: bytes): Keeper {
    if JoinError(k, conn, name, passwd) != 0 then k else Move(k, conn, k.roomNames[name])
  }

  function JoinSends(k: Keeper, conn: u64, name: bytes, passwd: bytes): seq<Send> {
    var err := JoinError(k, conn, name, passwd);
    var next := JoinState(k, conn, name, passwd);
    (if err == 0 then PublishInfo(next, k.roomNames[name]) + PublishInfo(next, k.users[conn].roomId) else [])
    + [Send(conn, JoinRoomRes(err, name))]
  }

  function CreateError(k: Keeper, name: bytes): i32 {
    if name in k.roomNames then ROOM_WITH_SAME_NAME_ALREADY_EXISTS else 0
  }

  function CreateState(k: Keeper, name: bytes, passwd: bytes): Keeper {
    if CreateError(k, name) != 0 then k else NewRoom(k, name, passwd)
  }

  function CreateSends(k: Keeper, conn: u64, name: bytes, passwd: bytes): seq<Send> {
    var err := CreateError(k, name);
    [Send(conn, CreateRoomRes(err, name))] + PublishList(CreateState(k, name, passwd), 0)
  }

  function DropState(k: Keeper, conn: u64): Keeper {
    if conn !in k.users then k else RemoveUser(Leave(k, conn, k.users[conn].roomId), conn)
  }

  function DropSends(k: Keeper, conn: u64): seq<Send> {
    if conn !in k.users then [] else PublishInfo(DropState(k, conn), k.users[conn].roomId)
  }

  function ChatSends(k: Keeper, conn: u64, roomId: u32, words: bytes): seq<Send>
    requires conn in k.users && roomId in k.rooms
  {
    Broadcast(Ascending(k.rooms[roomId].users), ChatMsg(k.users[conn].name, words))
  }

  /** GetUserByName. */
  function UserByName(k: Keeper, name: bytes): (r: Option<UserRec>)
  {
    if name in k.userNames && k.userNames[name] in k.users then Some(k.users[k.userNames[name]]) else None
  }

  function WhisperSends(k: Keeper, conn: u64, to: bytes, words: bytes): seq<Send>
    requires conn in k.users
  {
    match UserByName(k, to)
    case Some(target) => [Send(target.id, WhisperMsg(k.users[conn].name, words))]
    case None => [Send(conn, WhisperFailed(to))]
  }

  // ---------------------------------------------------------------- every event keeps the invariant

  lemma {:induction false} InitialInv()
    ensures Inv(Initial()) && Initial().users == map[]
  {
  }

  lemma {:induction false} EnterKeepsIndexes(k: Keeper, u: u64, i: u32)
    requires RoomsIndexed(k) && UsersIndexed(k) && i in k.rooms && u in k.users
    ensures RoomsIndexed(Enter(k, u, i)) && UsersIndexed(Enter(k, u, i))
  {
  }

  lemma {:induction false} LeaveKeepsIndexes(k: Keeper, u: u64, i: u32)
    requires RoomsIndexed(k) && UsersIndexed(k) && i in k.rooms
    ensures RoomsIndexed(Leave(k, u, i)) && UsersIndexed(Leave(k, u, i))
  {
  }

  lemma {:induction false} AddUserKeepsIndexes(k: Keeper, u: UserRec)
    requires RoomsIndexed(k) && UsersIndexed(k) && u.id !in k.users && u.name !in k.userNames
    ensures RoomsIndexed(AddUser(k, u)) && UsersIndexed(AddUser(k, u))
  {
  }

  lemma {:induction false} RemoveUserKeepsIndexes(k: Keeper, u: u64)
    requires RoomsIndexed(k) && UsersIndexed(k) && u in k.users
    ensures RoomsIndexed(RemoveUser(k, u)) && UsersIndexed(RemoveUser(k, u))
  {
  }

  lemma {:induction false} MoveKeepsPartition(k: Keeper, u: u64, i: u32)
    requires Partitioned(k) && u in k.users && i in k.rooms && i != k.users[u].roomId
    ensures Partitioned(Move(k, u, i))
  {
  }

  lemma {:induction false} ArriveKeepsPartition(k: Keeper, u: UserRec, i: u32)
    requires Partitioned(k) && u.id !in k.users && i in k.rooms
    ensures Partitioned(Enter(AddUser(k, u), u.id, i))
  {
  }

  lemma {:induction false} DepartKeepsPartition(k: Keeper, u: u64)
    requires Partitioned(k) && u in k.users
    ensures Partitioned(RemoveUser(Leave(k, u, k.users[u].roomId), u))
  {
  }

  lemma {:induction false} LogonKeepsInv(k: Keeper, conn: u64, name: bytes, ip: bytes, port: u16)
    requires Inv(k)
    ensures Inv(LogonState(k, conn, name, ip, port))
  {
    if LogonError(k, conn, name) == 0 {
      var u := UserRec(name, ip, port, conn, INVALID_ROOM_ID);
      AddUserKeepsIndexes(k, u);
      EnterKeepsIndexes(AddUser(k, u), conn, HALL_ID);
      ArriveKeepsPartition(k, u, HALL_ID);
    }
  }

  lemma {:induction false} JoinKeepsInv(k: Keeper, conn: u64, name: bytes, passwd: bytes)
    requires Inv(k)
    ensures Inv(JoinState(k, conn, name, passwd))
  {
    if JoinError(k, conn, name, passwd) == 0 {
      var i := k.roomNames[name];
      EnterKeepsIndexes(k, conn, i);
      LeaveKeepsIndexes(Enter(k, conn, i), conn, k.users[conn].roomId);
      MoveKeepsPartition(k, conn, i);
    }
  }

  lemma {:induction false} DropKeepsInv(k: Keeper, conn: u64)
    requires Inv(k)
    ensures Inv(DropState(k, conn)) && conn !in DropState(k, conn).users
    ensures RoomsOf(DropState(k, conn), conn) == {}
  {
    if conn in k.users {
      var i := k.users[conn].roomId;
      LeaveKeepsIndexes(k, conn, i);
      RemoveUserKeepsIndexes(Leave(k, conn, i), conn);
      DepartKeepsPartition(k, conn);
    }
    ExactlyOneRoom(DropState(k, conn), conn);
  }

  lemma {:induction false} NewRoomKeepsInv(k: Keeper, name: bytes, passwd: bytes)
    requires Inv(k) && name !in k.roomNames && k.nextRoom < 0xFFFF_FFFF
    ensures Inv(NewRoom(k, name, passwd))
  {
    NewRoomKeepsRooms(k, name, passwd);
    NewRoomKeepsUsers(k, name, passwd);
  }

  lemma {:induction false} NewRoomKeepsRooms(k: Keeper, name: bytes, passwd: bytes)
    requires RoomsIndexed(k) && name !in k.roomNames && k.nextRoom < 0xFFFF_FFFF
    ensures RoomsIndexed(NewRoom(k, name, passwd))
  {
  }

  lemma {:induction false} NewRoomKeepsUsers(k: Keeper, name: bytes, passwd: bytes)
    requires UsersIndexed(k) && Partitioned(k) && k.nextRoom !in k.rooms
    ensures UsersIndexed(NewRoom(k, name, passwd)) && Partitioned(NewRoom(k, name, passwd))
  {
  }

  /** The 32-bit room counter is the only thing that can break the keeper, exactly when it wraps. */
  lemma {:induction false} CreateKeepsInvExactly(k: Keeper, name: bytes, passwd: bytes)
    requires Inv(k)
    ensures Inv(CreateState(k, name, passwd)) <==> name in k.roomNames || k.nextRoom < 0xFFFF_FFFF
  {
    if name !in k.roomNames {
      if k.nextRoom < 0xFFFF_FFFF {
        NewRoomKeepsInv(k, name, passwd);
      } else {
        assert HALL_ID in NewRoom(k, name, passwd).rooms;
      }
    }
  }
}
