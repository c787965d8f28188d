/** The server against a simple record: who is logged on, as whom, from where and in which room, and which
    rooms were created with which password. Every run follows the record. */
module Standing {
  import opened Octets
  import opened Chat
  import opened KeeperSpec
  import opened KeeperRuns

  // ---------------------------------------------------------------- the record

  datatype Person = Person(name: bytes, ip: bytes, port: u16, room: nat)

  datatype Place = Place(name: bytes, passwd: bytes)

  /** The people logged on, by connection, and the rooms in the order created; a person's room is a position
      in that order. */
  datatype Record = Record(online: map<u64, Person>, rooms: seq<Place>)

  predicate NameFree(r: Record, name: bytes) {
    forall u | u in r.online :: r.online[u].name != name
  }

  predicate GrantsLogon(r: Record, conn: u64, name: bytes) {
    conn !in r.online && NameFree(r, name)
  }

  predicate RoomFree(rooms: seq<Place>, name: bytes) {
    forall i | 0 <= i < |rooms| :: rooms[i].name != name
  }

  /** The position of a place; past the end where it is not. */
  function IndexOf(rooms: seq<Place>, p: Place): nat {
    if rooms == [] || rooms[0] == p then 0 else 1 + IndexOf(rooms[1..], p)
  }

  lemma {:induction false} IndexFound(rooms: seq<Place>, p: Place)
    ensures IndexOf(rooms, p) <= |rooms|
    ensures IndexOf(rooms, p) < |rooms| ==> rooms[IndexOf(rooms, p)] == p
    ensures IndexOf(rooms, p) == |rooms| ==> p !in rooms
  {
    if rooms != [] && rooms[0] != p {
      IndexFound(rooms[1..], p);
    }
  }

  /** A join is granted to a person who is elsewhere and gives name and password of a room. */
  predicate GrantsJoin(r: Record, conn: u64, p: Place) {
    conn in r.online && p in r.rooms && r.online[conn].room != IndexOf(r.rooms, p)
  }

  function Noted(r: Record, e: Event): Record {
    match e
    case Dropped(conn) => r.(online := r.online - {conn})
    case Received(conn, ip, port, Logon(name)) =>
      if GrantsLogon(r, conn, name) then r.(online := r.online[conn := Person(name, ip, port, 0)]) else r
    case Received(_, _, _, Create(name, passwd)) =>
      if RoomFree(r.rooms, name) then r.(rooms := r.rooms + [Place(name, passwd)]) else r
    case Received(conn, _, _, Join(name, passwd)) =>
      var p := Place(name, passwd);
      if GrantsJoin(r, conn, p) then
        r.(online := r.online[conn := r.online[conn].(room := IndexOf(r.rooms, p))])
      else r
    case _ => r
  }

  function RecordOf(es: seq<Event>): Record {
    if es == [] then Record(map[], [Place(HallName(), [])]) else Noted(RecordOf(es[..|es| - 1]), es[|es| - 1])
  }

  /** Chatting and whispering take a logged-on sender, and chatting the id of a room that was created. */
  predicate MayTalk(r: Record, e: Event) {
    e.Received? ==>
      match e.request
      case Publish(roomId, _) => e.conn in r.online && roomId < |r.rooms|
      case Whisper(_, _) => e.conn in r.online
      case _ => true
  }

  ghost predicate AllMayTalk(es: seq<Event>) {
    forall i | 0 <= i < |es| :: MayTalk(RecordOf(es[..i]), es[i])
  }

  // ---------------------------------------------------------------- the keeper agrees with it

  ghost predicate SamePerson(u: UserRec, id: u64, p: Person) {
    u.name == p.name && u.ip == p.ip && u.port == p.port && u.id == id && u.roomId == p.room
  }

  ghost predicate UsersAgree(k: Keeper, r: Record) {
    && (forall u: u64 :: u in k.users <==> u in r.online)
    && (forall u: u64 | u in k.users :: SamePerson(k.users[u], u, r.online[u]))
  }

  ghost predicate RoomsAgree(k: Keeper, r: Record) {
    && k.nextRoom == |r.rooms|
    && forall i: u32 | i < |r.rooms| :: i in k.rooms && Place(k.rooms[i].name, k.rooms[i].passwd) == r.rooms[i]
  }

  ghost predicate Agrees(k: Keeper, r: Record) {
    UsersAgree(k, r) && RoomsAgree(k, r)
  }

  lemma {:induction false} NameTaken(k: Keeper, r: Record, name: bytes)
    requires UsersIndexed(k) && UsersAgree(k, r)
    ensures name !in k.userNames <==> NameFree(r, name)
  {
    if name in k.userNames {
      assert SamePerson(k.users[k.userNames[name]], k.userNames[name], r.online[k.userNames[name]]);
    }
    if !NameFree(r, name) {
      var u: u64 :| u in r.online && r.online[u].name == name;
      assert k.users[u].name == name;
    }
  }

  lemma {:induction false} RoomTaken(k: Keeper, r: Record, name: bytes)
    requires RoomsIndexed(k) && RoomsAgree(k, r)
    ensures name !in k.roomNames <==> RoomFree(r.rooms, name)
    ensures name in k.roomNames ==> k.roomNames[name] < |r.rooms| && r.rooms[k.roomNames[name]].name == name
  {
    if name in k.roomNames {
      var id := k.roomNames[name];
      assert Place(k.rooms[id].name, k.rooms[id].passwd) == r.rooms[id];
    }
    if !RoomFree(r.rooms, name) {
      var i :| 0 <= i < |r.rooms| && r.rooms[i].name == name;
      var id: u32 := i;
      assert k.rooms[id].name == name;
    }
  }

  /** No two rooms of the record have one name, so a place is where its name is. */
  lemma {:induction false} PlaceFound(k: Keeper, r: Record, p: Place)
    requires RoomsIndexed(k) && RoomsAgree(k, r)
    ensures p in r.rooms <==> p.name in k.roomNames && k.rooms[k.roomNames[p.name]].passwd == p.passwd
    ensures p in r.rooms ==> IndexOf(r.rooms, p) == k.roomNames[p.name]
  {
    RoomTaken(k, r, p.name);
    IndexFound(r.rooms, p);
    var i := IndexOf(r.rooms, p);
    if i < |r.rooms| {
      var id: u32 := i;
      assert k.rooms[id].name == p.name && k.roomNames[k.rooms[id].name] == id;
    } else if p.name in k.roomNames {
      assert r.rooms[k.roomNames[p.name]] in r.rooms;
    }
  }

  lemma {:induction false} LogonAgrees(k: Keeper, r: Record, conn: u64, name: bytes, ip: bytes, port: u16)
    requires Inv(k) && Agrees(k, r)
    ensures Agrees(LogonState(k, conn, name, ip, port), Noted(r, Received(conn, ip, port, Logon(name))))
    ensures LogonError(k, conn, name) == 0 <==> GrantsLogon(r, conn, name)
  {
    NameTaken(k, r, name);
  }

  lemma {:induction false} CreateAgrees(k: Keeper, r: Record, conn: u64, ip: bytes, port: u16, name: bytes,
      passwd: bytes)
    requires Inv(k) && Agrees(k, r) && k.nextRoom < 0xFFFF_FFFF
    ensures Agrees(CreateState(k, name, passwd), Noted(r, Received(conn, ip, port, Create(name, passwd))))
    ensures CreateError(k, name) == 0 <==> RoomFree(r.rooms, name)
  {
    RoomTaken(k, r, name);
  }

  lemma {:induction false} JoinAgrees(k: Keeper, r: Record, conn: u64, ip: bytes, port: u16, name: bytes,
      passwd: bytes)
    requires Inv(k) && Agrees(k, r)
    ensures Agrees(JoinState(k, conn, name, passwd), Noted(r, Received(conn, ip, port, Join(name, passwd))))
    ensures JoinError(k, conn, name, passwd) == 0 <==> GrantsJoin(r, conn, Place(name, passwd))
  {
    JoinGranted(k, r, conn, name, passwd);
    hide Inv, Agrees, GrantsJoin, JoinError, Move, IndexOf;
    var e := Received(conn, ip, port, Join(name, passwd));
    if JoinError(k, conn, name, passwd) == 0 {
      var i := k.roomNames[name];
      MoveAgrees(k, r, conn, i);
      assert JoinState(k, conn, name, passwd) == Move(k, conn, i);
      assert Noted(r, e) == r.(online := r.online[conn := r.online[conn].(room := i)]);
    } else {
      assert JoinState(k, conn, name, passwd) == k && Noted(r, e) == r;
    }
  }

  lemma {:induction false} JoinGranted(k: Keeper, r: Record, conn: u64, name: bytes, passwd: bytes)
    requires Inv(k) && Agrees(k, r)
    ensures JoinError(k, conn, name, passwd) == 0 <==> GrantsJoin(r, conn, Place(name, passwd))
    ensures JoinError(k, conn, name, passwd) == 0 ==>
              conn in k.users && name in k.roomNames && k.roomNames[name] in k.rooms && conn in r.online
              && IndexOf(r.rooms, Place(name, passwd)) == k.roomNames[name]
  {
    PlaceFound(k, r, Place(name, passwd));
    if conn in k.users {
      assert SamePerson(k.users[conn], conn, r.online[conn]);
    }
  }

  lemma {:induction false} MoveAgrees(k: Keeper, r: Record, u: u64, i: u32)
    requires Agrees(k, r) && u in k.users && i in k.rooms
    ensures Agrees(Move(k, u, i), r.(online := r.online[u := r.online[u].(room := i)]))
  {
  }

  lemma {:induction false} LeaveAgrees(k: Keeper, r: Record, u: u64, i: u32)
    requires Agrees(k, r)
    ensures Agrees(Leave(k, u, i), r)
  {
  }

  lemma {:induction false} RemoveAgrees(k: Keeper, r: Record, u: u64)
    requires Agrees(k, r)
    ensures Agrees(RemoveUser(k, u), r.(online := r.online - {u}))
  {
  }

  lemma {:induction false} DropAgrees(k: Keeper, r: Record, conn: u64)
    requires Inv(k) && Agrees(k, r)
    ensures Agrees(DropState(k, conn), Noted(r, Dropped(conn)))
  {
    hide Inv, Agrees, RemoveUser, Leave;
    if conn in k.users {
      var i := k.users[conn].roomId;
      LeaveAgrees(k, r, conn, i);
      RemoveAgrees(Leave(k, conn, i), r, conn);
    } else {
      NobodyDropped(k, r, conn);
    }
  }

  lemma {:induction false} NobodyDropped(k: Keeper, r: Record, u: u64)
    requires Agrees(k, r) && u !in k.users
    ensures r.online - {u} == r.online
  {
  }

  lemma {:induction false} AbortsExactly(k: Keeper, r: Record, e: Event)
    requires RoomsIndexed(k) && Agrees(k, r)
    ensures Aborts(k, e) <==> !MayTalk(r, e)
  {
  }

  lemma {:induction false} NextAgrees(k: Keeper, r: Record, e: Event)
    requires Inv(k) && Agrees(k, r) && k.nextRoom < 0xFFFF_FFFF
    ensures Agrees(NextState(k, e), Noted(r, e)) && (Aborts(k, e) <==> !MayTalk(r, e))
  {
    AbortsExactly(k, r, e);
    hide Inv, Agrees, Aborts, MayTalk, LogonState, CreateState, JoinState, DropState;
    match e
    case Dropped(conn) => DropAgrees(k, r, conn);
    case Received(conn, ip, port, request) =>
      match request
      case Logon(name) => LogonAgrees(k, r, conn, name, ip, port);
      case Create(name, passwd) => CreateAgrees(k, r, conn, ip, port, name, passwd);
      case Join(name, passwd) => JoinAgrees(k, r, conn, ip, port, name, passwd);
      case _ =>
  }

  lemma {:induction false} AllMayTalkSnoc(es: seq<Event>)
    requires es != []
    ensures AllMayTalk(es) <==>
            AllMayTalk(es[..|es| - 1]) && MayTalk(RecordOf(es[..|es| - 1]), es[|es| - 1])
  {
    var before := es[..|es| - 1];
    assert forall i | 0 <= i < |before| :: before[..i] == es[..i] && before[i] == es[i];
  }

  lemma {:induction false} RunAgrees(es: seq<Event>)
    requires |es| < 0xFFFF_FFFE
    ensures Run(es).Some? <==> AllMayTalk(es)
    ensures Run(es).Some? ==> Agrees(Run(es).value.0, RecordOf(es))
  {
    if es == [] {
      InitialInv();
    } else {
      var before := es[..|es| - 1];
      RunAgrees(before);
      AllMayTalkSnoc(es);
      if Run(before).Some? {
        RunKeepsInv(before);
        NextAgrees(Run(before).value.0, RecordOf(before), es[|es| - 1]);
      }
    }
  }

  /** The server handles a sequence of requests and drops without a failing assertion if and only if every
      chat and whisper in it comes from a connection that is logged on by the record, and every chat names
      one of the rooms created so far, HALL included. */
  lemma {:induction false} RunsExactly(es: seq<Event>)
    requires |es| < 0xFFFF_FFFE
    ensures Run(es).Some? <==> forall i | 0 <= i < |es| :: MayTalk(RecordOf(es[..i]), es[i])
  {
    RunAgrees(es);
  }

  // ---------------------------------------------------------------- what a sender knows of the record

  /** Event i is a logon of connection u that the server granted. */
  predicate Granted(es: seq<Event>, i: nat, u: u64)
    requires i < |es|
  {
    es[i].Received? && es[i].conn == u && es[i].request.Logon? && GrantsLogon(RecordOf(es[..i]), u, es[i].request.name)
  }

  /** A connection is logged on if and only if some logon of its was granted and no drop of it followed. */
  lemma {:induction false} OnlineExactly(es: seq<Event>, u: u64)
    ensures u in RecordOf(es).online <==>
            exists i | 0 <= i < |es| :: Granted(es, i, u) && forall j | i < j < |es| :: es[j] != Dropped(u)
  {
    if es != [] {
      var n := |es| - 1;
      var before, e := es[..n], es[n];
      OnlineExactly(before, u);
      if e == Dropped(u) {
      } else if Granted(es, n, u) {
        assert u in RecordOf(es).online;
      } else {
        SameGrants(es, u);
      }
    }
  }

  lemma {:induction false} SameGrants(es: seq<Event>, u: u64)
    requires es != [] && !Granted(es, |es| - 1, u) && es[|es| - 1] != Dropped(u)
    ensures (exists i | 0 <= i < |es| :: Granted(es, i, u) && forall j | i < j < |es| :: es[j] != Dropped(u)) <==>
            var before := es[..|es| - 1];
            exists i | 0 <= i < |before| :: Granted(before, i, u)
                && forall j | i < j < |before| :: before[j] != Dropped(u)
  {
    var before := es[..|es| - 1];
    forall i | 0 <= i < |before|
      ensures before[i] == es[i] && (Granted(before, i, u) <==> Granted(es, i, u))
    {
      assert before[..i] == es[..i];
    }
    hide Granted;
    if i :| 0 <= i < |es| && Granted(es, i, u) && forall j | i < j < |es| :: es[j] != Dropped(u) {
      assert Granted(before, i, u);
    }
    if i :| 0 <= i < |before| && Granted(before, i, u) && forall j | i < j < |before| :: before[j] != Dropped(u) {
      assert Granted(es, i, u);
    }
  }

  /** What was granted is what the reply says: error 0. */
  lemma {:induction false} GrantedIsReplied(es: seq<Event>, i: nat, conn: u64, ip: bytes, port: u16, name: bytes)
    requires i < |es| < 0xFFFF_FFFE && Run(es[..i]).Some? && es[i] == Received(conn, ip, port, Logon(name))
    ensures Granted(es, i, conn) <==>
            exists user :: Send(conn, LogonRes(0, user)) in KeeperRuns.Sends(Run(es[..i]).value.0, es[i])
  {
    var k := Run(es[..i]).value.0;
    RunAgrees(es[..i]);
    RunKeepsInv(es[..i]);
    LogonAgrees(k, RecordOf(es[..i]), conn, name, ip, port);
    RepliesToLogon(k, conn, name, ip, port);
  }

  lemma {:induction false} RepliesToLogon(k: Keeper, conn: u64, name: bytes, ip: bytes, port: u16)
    ensures (exists user :: Send(conn, LogonRes(0, user)) in LogonSends(k, conn, name, ip, port)) <==>
            LogonError(k, conn, name) == 0
  {
    hide Enter, AddUser, Records, PublicRooms, Ascending, LogonState;
    var err, next := LogonError(k, conn, name), LogonState(k, conn, name, ip, port);
    var reply := Send(conn, LogonReply(next, conn, err));
    assert reply in LogonSends(k, conn, name, ip, port);
    if err == 0 {
      assert reply == Send(conn, LogonRes(0, reply.body.user));
    }
    forall m | m in PublishInfo(next, HALL_ID) || m in PublishList(next, conn)
      ensures !m.body.LogonRes?
    {
    }
  }

  // ---------------------------------------------------------------- rooms and passwords

  /** Two keepers that follow one record are the same, member sets and index maps included. */
  lemma {:induction false} RecordDetermines(k: Keeper, h: Keeper, r: Record)
    requires Inv(k) && Inv(h) && Agrees(k, r) && Agrees(h, r)
    ensures k == h
  {
    SameUsers(k, h, r);
    SameRooms(k, h, r);
  }

  lemma {:induction false} SameUsers(k: Keeper, h: Keeper, r: Record)
    requires UsersIndexed(k) && UsersIndexed(h) && UsersAgree(k, r) && UsersAgree(h, r)
    ensures k.users == h.users && k.userNames == h.userNames
  {
    forall u: u64 | u in k.users
      ensures k.users[u] == h.users[u]
    {
      assert SamePerson(k.users[u], u, r.online[u]) && SamePerson(h.users[u], u, r.online[u]);
    }
    assert k.users.Keys == h.users.Keys && k.users == h.users;
    assert k.userNames.Keys == h.userNames.Keys;
  }

  lemma {:induction false} SameRooms(k: Keeper, h: Keeper, r: Record)
    requires RoomsIndexed(k) && RoomsIndexed(h) && RoomsAgree(k, r) && RoomsAgree(h, r)
    requires Partitioned(k) && Partitioned(h) && k.users == h.users
    ensures k.rooms == h.rooms && k.roomNames == h.roomNames && k.nextRoom == h.nextRoom
  {
    assert k.rooms.Keys == h.rooms.Keys;
    forall i: u32 | i in k.rooms
      ensures k.rooms[i] == h.rooms[i]
    {
      SameRoom(k, h, r, i);
    }
    assert k.rooms == h.rooms && k.roomNames.Keys == h.roomNames.Keys;
  }

  lemma {:induction false} SameRoom(k: Keeper, h: Keeper, r: Record, i: u32)
    requires RoomsIndexed(k) && RoomsIndexed(h) && RoomsAgree(k, r) && RoomsAgree(h, r)
    requires Partitioned(k) && Partitioned(h) && k.users == h.users && i in k.rooms && i in h.rooms
    ensures k.rooms[i] == h.rooms[i]
  {
    forall u: u64
      ensures u in k.rooms[i].users <==> u in h.rooms[i].users
    {
      assert u in k.rooms[i].users <==> u in k.users && k.users[u].roomId == i;
      assert u in h.rooms[i].users <==> u in h.users && h.users[u].roomId == i;
    }
    assert k.rooms[i].users == h.rooms[i].users;
    assert Place(k.rooms[i].name, k.rooms[i].passwd) == r.rooms[i] == Place(h.rooms[i].name, h.rooms[i].passwd);
  }

  predicate Creates(e: Event, name: bytes) {
    e.Received? && e.request.Create? && e.request.roomName == name
  }

  /** Event j is the one that creates the room of this name: no earlier one asks for it. */
  predicate GrantedCreate(es: seq<Event>, j: nat, name: bytes, passwd: bytes)
    requires j < |es|
  {
    && name != HallName() && Creates(es[j], name) && es[j].request.passwd == passwd
    && forall i | 0 <= i < j :: !Creates(es[i], name)
  }

  /** A name is free until somebody asks for it. */
  lemma {:induction false} FreeExactly(es: seq<Event>, name: bytes)
    ensures RoomFree(RecordOf(es).rooms, name) <==>
            name != HallName() && forall i | 0 <= i < |es| :: !Creates(es[i], name)
  {
    if es == [] {
      assert RecordOf(es).rooms[0].name == HallName();
    } else {
      var n := |es| - 1;
      var before, e := es[..n], es[n];
      FreeExactly(before, name);
      assert forall i | 0 <= i < n :: before[i] == es[i];
      FreeStep(RecordOf(before), e, name);
    }
  }

  lemma {:induction false} FreeStep(r: Record, e: Event, name: bytes)
    ensures RoomFree(Noted(r, e).rooms, name) <==> RoomFree(r.rooms, name) && !Creates(e, name)
  {
    if Creates(e, name) && RoomFree(r.rooms, name) {
      assert Noted(r, e).rooms[|r.rooms|].name == name;
    }
    assert forall i | 0 <= i < |r.rooms| :: Noted(r, e).rooms[i] == r.rooms[i];
  }

  /** The rooms and their passwords are HALL, without one, and those of the creations that were first to ask
      for their name. */
  lemma {:induction false} CreatedExactly(es: seq<Event>, name: bytes, passwd: bytes)
    ensures Place(name, passwd) in RecordOf(es).rooms <==>
            Place(name, passwd) == Place(HallName(), [])
            || exists j | 0 <= j < |es| :: GrantedCreate(es, j, name, passwd)
  {
    if es != [] {
      var n := |es| - 1;
      var before, e := es[..n], es[n];
      CreatedExactly(before, name, passwd);
      FreeExactly(before, name);
      assert forall i | 0 <= i < n :: before[i] == es[i];
      forall j | 0 <= j < n
        ensures GrantedCreate(before, j, name, passwd) <==> GrantedCreate(es, j, name, passwd)
      {
      }
      PlaceStep(RecordOf(before), e, name, passwd);
      if GrantedCreate(es, n, name, passwd) {
        assert Place(name, passwd) in RecordOf(es).rooms;
      }
    }
  }

  lemma {:induction false} PlaceStep(r: Record, e: Event, name: bytes, passwd: bytes)
    ensures Place(name, passwd) in Noted(r, e).rooms <==>
            Place(name, passwd) in r.rooms
            || (RoomFree(r.rooms, name) && Creates(e, name) && e.request.passwd == passwd)
  {
  }

  /** The user is in the room of that name. */
  predicate InRoom(k: Keeper, u: u64, name: bytes) {
    u in k.users && k.users[u].roomId in k.rooms && k.rooms[k.users[u].roomId].name == name
  }

  /** After any run, a user outside a created room gets into it with a password if and only if that is the
      password it was created with. */
  lemma {:induction false} PasswordDecides(es: seq<Event>, j: nat, name: bytes, passwd: bytes, conn: u64, ip: bytes,
      port: u16, p: bytes)
    requires |es| < 0xFFFF_FFFE && Run(es).Some? && j < |es| && GrantedCreate(es, j, name, passwd)
    requires conn in Run(es).value.0.users && !InRoom(Run(es).value.0, conn, name)
    ensures InRoom(NextState(Run(es).value.0, Received(conn, ip, port, Join(name, p))), conn, name) <==> p == passwd
  {
    hide RecordOf, Creates, InRoom, Inv, JoinState;
    CreatedExactly(es, name, passwd);
    PlaceStands(es, Place(name, passwd));
    OutsiderEnters(Run(es).value.0, conn, name, p);
  }

  /** A place of the record is a room of the keeper. */
  lemma {:induction false} PlaceStands(es: seq<Event>, p: Place)
    requires |es| < 0xFFFF_FFFE && Run(es).Some?
    ensures Inv(Run(es).value.0)
    ensures p.name !in Run(es).value.0.roomNames <==> RoomFree(RecordOf(es).rooms, p.name)
    ensures var k := Run(es).value.0;
            p in RecordOf(es).rooms ==>
              p.name in k.roomNames && k.roomNames[p.name] in k.rooms && k.rooms[k.roomNames[p.name]].passwd == p.passwd
  {
    RunAgrees(es);
    RunKeepsInv(es);
    hide RecordOf, Run, UsersAgree, UsersIndexed, Partitioned, RoomFree;
    PlaceFound(Run(es).value.0, RecordOf(es), p);
    RoomTaken(Run(es).value.0, RecordOf(es), p.name);
  }

  lemma {:induction false} OutsiderEnters(k: Keeper, conn: u64, name: bytes, p: bytes)
    requires Inv(k) && conn in k.users && name in k.roomNames && !InRoom(k, conn, name)
    ensures InRoom(JoinState(k, conn, name, p), conn, name) <==> p == k.rooms[k.roomNames[name]].passwd
  {
  }

  /** What was created is what the reply says: error 0. */
  lemma {:induction false} CreateIsReplied(es: seq<Event>, i: nat, conn: u64, ip: bytes, port: u16, name: bytes,
      passwd: bytes)
    requires i < |es| < 0xFFFF_FFFE && Run(es[..i]).Some? && es[i] == Received(conn, ip, port, Create(name, passwd))
    ensures GrantedCreate(es, i, name, passwd) <==>
            Send(conn, CreateRoomRes(0, name)) in KeeperRuns.Sends(Run(es[..i]).value.0, es[i])
  {
    hide Run, RecordOf, Inv, CreateSends, RoomFree;
    PlaceStands(es[..i], Place(name, passwd));
    FreeExactly(es[..i], name);
    assert forall j | 0 <= j < i :: es[..i][j] == es[j];
    RepliesToCreate(Run(es[..i]).value.0, conn, name, passwd);
  }

  lemma {:induction false} RepliesToCreate(k: Keeper, conn: u64, name: bytes, passwd: bytes)
    ensures Send(conn, CreateRoomRes(0, name)) in CreateSends(k, conn, name, passwd) <==> name !in k.roomNames
  {
    hide PublicRooms, Ascending, CreateState;
    var err, next := CreateError(k, name), CreateState(k, name, passwd);
    assert CreateSends(k, conn, name, passwd)[0] == Send(conn, CreateRoomRes(err, name));
    forall m | m in PublishList(next, 0)
      ensures !m.body.CreateRoomRes?
    {
    }
  }

  // ---------------------------------------------------------------- a run that fails

  /** A client that chats before its first room info has arrived sends the id its current room starts with;
      the server looks that room up and an assertion fails. */
  lemma {:induction false} EarlyChatFails(conn: u64, ip: bytes, port: u16, name: bytes, words: bytes)
    ensures Run([Received(conn, ip, port, Logon(name))]).Some?
    ensures Run([Received(conn, ip, port, Logon(name)),
            Received(conn, ip, port, Publish(INVALID_ROOM_ID, words))]).None?
  {
    var logon, chat := Received(conn, ip, port, Logon(name)), Received(conn, ip, port, Publish(INVALID_ROOM_ID, words));
    var es := [logon, chat];
    assert [logon][..0] == [] && es[..0] == [] && es[..1] == [logon];
    RunsExactly([logon]);
    RunsExactly(es);
    assert RecordOf(es[..1]).rooms == [Place(HallName(), [])];
    assert !MayTalk(RecordOf(es[..1]), es[1]);
  }
}
