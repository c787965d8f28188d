/** What every connection receives for every kind of request, the refusals by number, from a search of all
    rooms and users. */
module Answers {
  import opened Octets
  import opened Chat
  import opened KeeperSpec
  import opened ReplicaSpec
  import opened Coherence
  import opened Delivery

  function Only(v: u64, conn: u64, body: Reply): seq<Reply> {
    if v == conn then [body] else []
  }

  function Among(v: u64, ids: set<u64>, body: Reply): seq<Reply> {
    if v in ids then [body] else []
  }

  /** Connection id 0 stands for everybody. */
  function ListFor(k: Keeper, conn: u64, v: u64): seq<Reply> {
    if conn == 0 then Among(v, k.users.Keys, List(k)) else Only(v, conn, List(k))
  }

  predicate RoomCalled(k: Keeper, i: u32, name: bytes) {
    i in k.rooms && k.rooms[i].name == name
  }

  ghost predicate NoRoomCalled(k: Keeper, name: bytes) {
    forall i: u32 | i in k.rooms :: k.rooms[i].name != name
  }

  ghost predicate NobodyCalled(k: Keeper, name: bytes) {
    forall u: u64 | u in k.users :: k.users[u].name != name
  }

  // ---------------------------------------------------------------- parts

  lemma {:induction false} ToInfo(k: Keeper, i: u32, v: u64)
    requires Known(k, i)
    ensures To(PublishInfo(k, i), v) == Among(v, k.rooms[i].users, Info(k, i))
  {
    AscendingIncreases(k.rooms[i].users);
    ToBroadcast(Ascending(k.rooms[i].users), Info(k, i), v);
  }

  lemma {:induction false} ToList(k: Keeper, conn: u64, v: u64)
    ensures To(PublishList(k, conn), v) == ListFor(k, conn, v)
  {
    if conn == 0 {
      AscendingIncreases(k.users.Keys);
      ToBroadcast(Ascending(k.users.Keys), List(k), v);
    } else {
      ToOne(Send(conn, List(k)), v);
    }
  }

  lemma {:induction false} ToReply(s: seq<Send>, conn: u64, body: Reply, v: u64)
    ensures To(s + [Send(conn, body)], v) == To(s, v) + Only(v, conn, body)
  {
    ToConcat(s, [Send(conn, body)], v);
    ToOne(Send(conn, body), v);
  }

  // ---------------------------------------------------------------- joining

  /** What connection v hears of a join that takes conn from room was to room i. */
  function JoinHeard(k: Keeper, next: Keeper, conn: u64, i: u32, was: u32, name: bytes, v: u64): seq<Reply>
    requires i in k.rooms && was in k.rooms && Known(next, i) && Known(next, was)
  {
    Among(v, k.rooms[i].users + {conn}, Info(next, i)) + Among(v, k.rooms[was].users - {conn}, Info(next, was))
    + Only(v, conn, JoinRoomRes(0, name))
  }

  /** The state and the messages of a join, every case found by searching the users and the rooms: 7 for a
      stranger, 3 where no room has the name, 4 where the room of that name has another password, 5 for a
      member; otherwise the user changes rooms, the members of both are told, the new room first, and then the
      asker alone that it succeeded. */
  ghost predicate JoinAnswer(k: Keeper, conn: u64, name: bytes, passwd: bytes, next: Keeper, v: u64,
      heard: seq<Reply>) {
    && (conn !in k.users ==> next == k && heard == Only(v, conn, JoinRoomRes(7, name)))
    && (conn in k.users && NoRoomCalled(k, name) ==> next == k && heard == Only(v, conn, JoinRoomRes(3, name)))
    && forall i: u32 | conn in k.users && RoomCalled(k, i, name) ::
         && (k.rooms[i].passwd != passwd ==> next == k && heard == Only(v, conn, JoinRoomRes(4, name)))
         && (k.rooms[i].passwd == passwd && conn in k.rooms[i].users ==>
               next == k && heard == Only(v, conn, JoinRoomRes(5, name)))
         && (k.rooms[i].passwd == passwd && conn !in k.rooms[i].users ==>
               var was := k.users[conn].roomId;
               was in k.rooms && Known(next, i) && Known(next, was)
               && next.users == k.users[conn := k.users[conn].(roomId := i)]
               && heard == JoinHeard(k, next, conn, i, was, name, v))
  }

  lemma {:induction false} JoinAnswered(k: Keeper, conn: u64, name: bytes, passwd: bytes, v: u64)
    requires Inv(k)
    ensures JoinAnswer(k, conn, name, passwd, JoinState(k, conn, name, passwd), v,
                       To(JoinSends(k, conn, name, passwd), v))
  {
    var err, next := JoinError(k, conn, name, passwd), JoinState(k, conn, name, passwd);
    if err != 0 {
      assert JoinSends(k, conn, name, passwd) == [] + [Send(conn, JoinRoomRes(err, name))];
      ToReply([], conn, JoinRoomRes(err, name), v);
    } else {
      JoinAccepted(k, conn, name, passwd, v);
    }
  }

  lemma {:induction false} JoinAccepted(k: Keeper, conn: u64, name: bytes, passwd: bytes, v: u64)
    requires Inv(k) && JoinError(k, conn, name, passwd) == 0
    ensures var next, i, was := JoinState(k, conn, name, passwd), k.roomNames[name], k.users[conn].roomId;
            && i in k.rooms && was in k.rooms && Known(next, i) && Known(next, was)
            && next.users == k.users[conn := k.users[conn].(roomId := i)]
            && To(JoinSends(k, conn, name, passwd), v) == JoinHeard(k, next, conn, i, was, name, v)
  {
    var next, i, was := JoinState(k, conn, name, passwd), k.roomNames[name], k.users[conn].roomId;
    JoinMembers(k, conn, name, passwd);
    hide Inv, JoinState, JoinError, Info, PublishInfo;
    ToInfo(next, i, v);
    ToInfo(next, was, v);
    ToConcat(PublishInfo(next, i), PublishInfo(next, was), v);
    ToReply(PublishInfo(next, i) + PublishInfo(next, was), conn, JoinRoomRes(0, name), v);
  }

  lemma {:induction false} JoinMembers(k: Keeper, conn: u64, name: bytes, passwd: bytes)
    requires Inv(k) && JoinError(k, conn, name, passwd) == 0
    ensures var next, i, was := JoinState(k, conn, name, passwd), k.roomNames[name], k.users[conn].roomId;
            && i in k.rooms && was in k.rooms && Known(next, i) && Known(next, was)
            && next.users == k.users[conn := k.users[conn].(roomId := i)]
            && next.rooms[i].users == k.rooms[i].users + {conn} && next.rooms[was].users == k.rooms[was].users - {conn}
  {
  }

  // ---------------------------------------------------------------- logging on, creating, dropping

  /** A logon: 1 for a connection that is logged on, 2 where somebody has the name; otherwise the user is in
      HALL, everybody there is told, then the asker gets its record. The room list follows in each case. */
  ghost predicate LogonAnswer(k: Keeper, conn: u64, name: bytes, ip: bytes, port: u16, next: Keeper, v: u64,
      heard: seq<Reply>) {
    && (conn in k.users ==> next == k && heard == Only(v, conn, LogonRes(1, None)) + ListFor(k, conn, v))
    && (conn !in k.users && !NobodyCalled(k, name) ==>
          next == k && heard == Only(v, conn, LogonRes(2, None)) + ListFor(k, conn, v))
    && (conn !in k.users && NobodyCalled(k, name) ==>
          var me := UserRec(name, ip, port, conn, HALL_ID);
          HALL_ID in k.rooms && Known(next, HALL_ID) && next.users == k.users[conn := me]
          && heard == Among(v, k.rooms[HALL_ID].users + {conn}, Info(next, HALL_ID))
             + Only(v, conn, LogonRes(0, Some(me))) + ListFor(next, conn, v))
  }

  lemma {:induction false} LogonAnswered(k: Keeper, conn: u64, name: bytes, ip: bytes, port: u16, v: u64)
    requires Inv(k)
    ensures LogonAnswer(k, conn, name, ip, port, LogonState(k, conn, name, ip, port), v,
                        To(LogonSends(k, conn, name, ip, port), v))
  {
    var err, next := LogonError(k, conn, name), LogonState(k, conn, name, ip, port);
    NameKnown(k, name);
    if err != 0 {
      Refusal(k, conn, LogonRes(err, None), v);
      assert LogonSends(k, conn, name, ip, port) == [] + [Send(conn, LogonRes(err, None))] + PublishList(k, conn) by {
        hide PublishList;
      }
    } else {
      LogonAccepted(k, conn, name, ip, port, v);
    }
  }

  lemma {:induction false} NameKnown(k: Keeper, name: bytes)
    requires Inv(k)
    ensures name !in k.userNames <==> NobodyCalled(k, name)
    ensures name !in k.roomNames <==> NoRoomCalled(k, name)
  {
  }

  /** A reply and then the list. */
  lemma {:induction false} Refusal(k: Keeper, conn: u64, body: Reply, v: u64)
    ensures To([] + [Send(conn, body)] + PublishList(k, conn), v) == Only(v, conn, body) + ListFor(k, conn, v)
  {
    hide PublishList, ListFor;
    ToReply([], conn, body, v);
    ToList(k, conn, v);
    ToConcat([] + [Send(conn, body)], PublishList(k, conn), v);
  }

  lemma {:induction false} LogonAccepted(k: Keeper, conn: u64, name: bytes, ip: bytes, port: u16, v: u64)
    requires Inv(k) && LogonError(k, conn, name) == 0
    ensures var next, me := LogonState(k, conn, name, ip, port), UserRec(name, ip, port, conn, HALL_ID);
            HALL_ID in k.rooms && Known(next, HALL_ID) && next.users == k.users[conn := me]
            && To(LogonSends(k, conn, name, ip, port), v) ==
               Among(v, k.rooms[HALL_ID].users + {conn}, Info(next, HALL_ID))
               + Only(v, conn, LogonRes(0, Some(me))) + ListFor(next, conn, v)
  {
    var next, me := LogonState(k, conn, name, ip, port), UserRec(name, ip, port, conn, HALL_ID);
    LogonMembers(k, conn, name, ip, port);
    hide Inv, LogonState, LogonError, Info, PublishInfo, PublishList, ListFor;
    var info, reply := PublishInfo(next, HALL_ID), LogonRes(0, Some(me));
    assert LogonSends(k, conn, name, ip, port) == info + [Send(conn, reply)] + PublishList(next, conn);
    ToInfo(next, HALL_ID, v);
    ToReply(info, conn, reply, v);
    ToList(next, conn, v);
    ToConcat(info + [Send(conn, reply)], PublishList(next, conn), v);
  }

  lemma {:induction false} LogonMembers(k: Keeper, conn: u64, name: bytes, ip: bytes, port: u16)
    requires Inv(k) && LogonError(k, conn, name) == 0
    ensures var next, me := LogonState(k, conn, name, ip, port), UserRec(name, ip, port, conn, HALL_ID);
            && HALL_ID in k.rooms && Known(next, HALL_ID) && next.users == k.users[conn := me]
            && next.rooms[HALL_ID].users == k.rooms[HALL_ID].users + {conn}
            && LogonReply(next, conn, 0) == LogonRes(0, Some(me))
  {
  }

  /** A creation: the asker is told 6 where some room has the name, else 0; everybody logged on then gets the
      list, the asker its reply first. */
  lemma {:induction false} CreateAnswered(k: Keeper, conn: u64, name: bytes, passwd: bytes, v: u64)
    requires Inv(k)
    ensures var (next, heard) := (CreateState(k, name, passwd), To(CreateSends(k, conn, name, passwd), v));
            && (!NoRoomCalled(k, name) ==> next == k)
            && heard == Only(v, conn, CreateRoomRes(if NoRoomCalled(k, name) then 0 else 6, name))
                        + Among(v, k.users.Keys, List(next))
  {
    var next, reply := CreateState(k, name, passwd), Send(conn, CreateRoomRes(CreateError(k, name), name));
    NameKnown(k, name);
    ToOne(reply, v);
    ToList(next, 0, v);
    ToConcat([reply], PublishList(next, 0), v);
  }

  /** A drop: the other members of the room are told, and nobody else. */
  lemma {:induction false} DropAnswered(k: Keeper, conn: u64, v: u64)
    requires Inv(k)
    ensures var (next, heard) := (DropState(k, conn), To(DropSends(k, conn), v));
            && (conn !in k.users ==> next == k && heard == [])
            && (conn in k.users ==>
                  var was := k.users[conn].roomId;
                  was in k.rooms && Known(next, was) && next.users == k.users - {conn}
                  && heard == Among(v, k.rooms[was].users - {conn}, Info(next, was)))
  {
    if conn in k.users {
      DropMembers(k, conn);
      hide DropState;
      ToInfo(DropState(k, conn), k.users[conn].roomId, v);
    }
  }

  lemma {:induction false} DropMembers(k: Keeper, conn: u64)
    requires Inv(k) && conn in k.users
    ensures var (next, was) := (DropState(k, conn), k.users[conn].roomId);
            && was in k.rooms && Known(next, was) && next.users == k.users - {conn}
            && next.rooms[was].users == k.rooms[was].users - {conn}
  {
  }

  // ---------------------------------------------------------------- what room info and list say

  /** A room info leaves a client with the room's id and name, its members added to those seen before, and
      exactly their records. */
  lemma {:induction false} InfoShows(k: Keeper, c: Replica, i: u32)
    requires UsersIndexed(k) && Known(k, i) && k.rooms[i].id == i && !c.exited
    ensures Apply(c, Info(k, i)) ==
            c.(current := RoomRec(i, k.rooms[i].name, c.current.passwd, c.current.users + k.rooms[i].users),
               user := c.user.(roomId := i), onlines := MemberRecords(k, k.rooms[i].users))
  {
    RecordsShown(k, Ascending(k.rooms[i].users), k.rooms[i].users);
  }

  ghost function PublicView(k: Keeper): map<u32, RoomRec> {
    map i: u32 | i in k.rooms :: k.rooms[i].(passwd := [])
  }

  /** A room list leaves it with all rooms, their members included, without passwords. */
  lemma {:induction false} ListShows(k: Keeper, c: Replica)
    requires RoomsIndexed(k) && !c.exited
    ensures Apply(c, List(k)) == c.(rooms := PublicView(k))
  {
    ListShowsRooms(k, c);
    assert PublicMap(k) == PublicView(k);
  }

  // ---------------------------------------------------------------- a new room

  /** A creation under a free name adds one empty room and changes no other; a join of it afterwards changes
      something if and only if it gives the password of the creation, and then leads into the new room alone. */
  lemma {:induction false} CreatedOpensExactly(k: Keeper, name: bytes, passwd: bytes, conn: u64, p: bytes)
    requires Inv(k) && NoRoomCalled(k, name) && k.nextRoom < 0xFFFF_FFFF && conn in k.users
    ensures var next := CreateState(k, name, passwd);
            && next.users == k.users && next.rooms == k.rooms[k.nextRoom := RoomRec(k.nextRoom, name, passwd, {})]
            && k.nextRoom !in k.rooms
            && (JoinState(next, conn, name, p) != next <==> p == passwd)
            && RoomsOf(JoinState(next, conn, name, passwd), conn) == {k.nextRoom}
  {
    NameKnown(k, name);
    NewRoomKeepsInv(k, name, passwd);
    var next := CreateState(k, name, passwd);
    assert next.rooms == k.rooms[k.nextRoom := RoomRec(k.nextRoom, name, passwd, {})];
    hide Inv, CreateState, JoinState, RoomsOf;
    EmptyRoomOpens(next, k.nextRoom, name, passwd, conn, p);
  }

  lemma {:induction false} EmptyRoomOpens(k: Keeper, i: u32, name: bytes, passwd: bytes, conn: u64, p: bytes)
    requires Inv(k) && conn in k.users && i in k.rooms && k.rooms[i] == RoomRec(i, name, passwd, {})
    ensures JoinState(k, conn, name, p) != k <==> p == passwd
    ensures RoomsOf(JoinState(k, conn, name, passwd), conn) == {i}
  {
    hide JoinState, RoomsOf;
    JoinGrantedExactly(k, conn, name, p, conn);
    JoinGrantedExactly(k, conn, name, passwd, conn);
    assert Joinable(k, i, conn, name, passwd);
    forall j: u32 | Joinable(k, j, conn, name, p)
      ensures j == i
    {
      assert k.roomNames[k.rooms[j].name] == j && k.roomNames[k.rooms[i].name] == i;
    }
  }
}
