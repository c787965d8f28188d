/** After every event each logged-on client shows exactly the server's state. */
module Coherence {
  import opened Octets
  import opened Chat
  import opened KeeperSpec
  import opened ReplicaSpec

  // ---------------------------------------------------------------- delivery

  /** The messages addressed to u, in order. */
  function To(s: seq<Send>, u: u64): seq<Reply>
    decreases |s|
  {
    if s == [] then [] else (if s[0].conn == u then [s[0].body] else []) + To(s[1..], u)
  }

  function ApplyAll(c: Replica, bodies: seq<Reply>): Replica
    decreases |bodies|
  {
    if bodies == [] then c else ApplyAll(Apply(c, bodies[0]), bodies[1..])
  }

  /** The replica of connection u after the messages of s that are addressed to u. */
  function Deliver(c: Replica, s: seq<Send>, u: u64): Replica {
    ApplyAll(c, To(s, u))
  }

  lemma {:induction false} ToConcat(s: seq<Send>, t: seq<Send>, u: u64)
    ensures To(s + t, u) == To(s, u) + To(t, u)
    decreases |s|
  {
    if s == [] {
      assert s + t == t;
    } else {
      assert (s + t)[0] == s[0] && (s + t)[1..] == s[1..] + t;
      ToConcat(s[1..], t, u);
      Associative(if s[0].conn == u then [s[0].body] else [], To(s[1..], u), To(t, u));
    }
  }

  lemma {:induction false} ApplyAllConcat(c: Replica, a: seq<Reply>, b: seq<Reply>)
    ensures ApplyAll(c, a + b) == ApplyAll(ApplyAll(c, a), b)
    decreases |a|
  {
    if a == [] {
      assert a + b == b;
    } else {
      assert (a + b)[0] == a[0] && (a + b)[1..] == a[1..] + b;
      ApplyAllConcat(Apply(c, a[0]), a[1..], b);
    }
  }

  lemma {:induction false} DeliverConcat(c: Replica, s: seq<Send>, t: seq<Send>, u: u64)
    ensures Deliver(c, s + t, u) == Deliver(Deliver(c, s, u), t, u)
  {
    ToConcat(s, t, u);
    ApplyAllConcat(c, To(s, u), To(t, u));
  }

  lemma {:induction false} ToOne(m: Send, u: u64)
    ensures To([m], u) == if m.conn == u then [m.body] else []
  {
    assert [m][1..] == [];
  }

  lemma {:induction false} ApplyOne(c: Replica, body: Reply)
    ensures ApplyAll(c, [body]) == Apply(c, body)
  {
    assert [body][1..] == [];
  }

  lemma {:induction false} DeliverOne(c: Replica, m: Send, u: u64)
    ensures Deliver(c, [m], u) == if m.conn == u then Apply(c, m.body) else c
  {
    ToOne(m, u);
    ApplyOne(c, m.body);
  }

  /** A broadcast reaches each addressee exactly once and nobody else. */
  lemma {:induction false} ToBroadcast(ids: seq<u64>, body: Reply, u: u64)
    requires Increasing(ids)
    ensures To(Broadcast(ids, body), u) == if u in ids then [body] else []
    decreases |ids|
  {
    if ids != [] {
      var rest := ids[1..];
      assert Broadcast(ids, body)[1..] == Broadcast(rest, body);
      ToBroadcast(rest, body, u);
      assert forall x | x in rest :: ids[0] < x;
      assert u in ids <==> u == ids[0] || u in rest;
    }
  }

  lemma {:induction false} DeliverBroadcast(c: Replica, ids: seq<u64>, body: Reply, u: u64)
    requires Increasing(ids)
    ensures Deliver(c, Broadcast(ids, body), u) == if u in ids then Apply(c, body) else c
  {
    ToBroadcast(ids, body, u);
    ApplyOne(c, body);
  }

  lemma {:induction false} DeliverInfo(k: Keeper, c: Replica, i: u32, u: u64)
    requires Known(k, i)
    ensures Deliver(c, PublishInfo(k, i), u) == if u in k.rooms[i].users then Apply(c, Info(k, i)) else c
  {
    AscendingIncreases(k.rooms[i].users);
    DeliverBroadcast(c, Ascending(k.rooms[i].users), Info(k, i), u);
  }

  lemma {:induction false} DeliverList(k: Keeper, c: Replica, conn: u64, u: u64)
    ensures Deliver(c, PublishList(k, conn), u) ==
            if u == conn != 0 || (conn == 0 && u in k.users) then Apply(c, List(k)) else c
  {
    if conn == 0 {
      AscendingIncreases(k.users.Keys);
      DeliverBroadcast(c, Ascending(k.users.Keys), List(k), u);
    } else {
      DeliverOne(c, Send(conn, List(k)), u);
    }
  }

  // ---------------------------------------------------------------- what a replica should show

  ghost function MemberRecords(k: Keeper, members: set<u64>): map<u64, UserRec>
    requires members <= k.users.Keys
  {
    map m | m in members :: k.users[m]
  }

  ghost predicate ShowsRoom(k: Keeper, c: Replica, i: u32) {
    && Known(k, i)
    && c.current.id == i && c.current.name == k.rooms[i].name
    && c.onlines == MemberRecords(k, k.rooms[i].users)
  }

  ghost predicate ShowsList(k: Keeper, c: Replica) {
    && c.rooms.Keys == k.rooms.Keys
    && forall i: u32 | i in k.rooms :: c.rooms[i].id == i && c.rooms[i].name == k.rooms[i].name
  }

  /** The replica of user u: its own record, its room with exactly the room's members, and all
      rooms by id and name. A client that was refused a logon has exited. */
  ghost predicate Coherent(k: Keeper, c: Replica, u: u64) {
    Seated(k, u) && (c.exited || (ShowsRoom(k, c, k.users[u].roomId) && c.user == k.users[u] && ShowsList(k, c)))
  }

  ghost function UserIds(us: seq<UserRec>): set<u64>
    decreases |us|
  {
    if us == [] then {} else {us[0].id} + UserIds(us[1..])
  }

  ghost function RoomIds(rs: seq<RoomRec>): set<u32>
    decreases |rs|
  {
    if rs == [] then {} else {rs[0].id} + RoomIds(rs[1..])
  }

  /** Inserting records that agree with f one by one builds the restriction of f to their ids. */
  lemma {:induction false} InsertUsersFrom(f: map<u64, UserRec>, m: map<u64, UserRec>, us: seq<UserRec>)
    requires forall u | u in us :: u.id in f && f[u.id] == u
    requires m.Keys <= f.Keys && forall u | u in m :: m[u] == f[u]
    ensures var r := InsertUsers(m, us);
            r.Keys == m.Keys + UserIds(us) && r.Keys <= f.Keys && forall u | u in r :: r[u] == f[u]
    decreases |us|
  {
    if us != [] {
      assert us[0] in us && forall u | u in us[1..] :: u in us;
      InsertUsersFrom(f, InsertNew(m, us[0].id, us[0]), us[1..]);
    }
  }

  lemma {:induction false} InsertRoomsFrom(f: map<u32, RoomRec>, m: map<u32, RoomRec>, rs: seq<RoomRec>)
    requires forall r | r in rs :: r.id in f && f[r.id] == r
    requires m.Keys <= f.Keys && forall i | i in m :: m[i] == f[i]
    ensures var r := InsertRooms(m, rs);
            r.Keys == m.Keys + RoomIds(rs) && r.Keys <= f.Keys && forall i | i in r :: r[i] == f[i]
    decreases |rs|
  {
    if rs != [] {
      assert rs[0] in rs && forall r | r in rs[1..] :: r in rs;
      InsertRoomsFrom(f, InsertNew(m, rs[0].id, rs[0]), rs[1..]);
    }
  }

  lemma {:induction false} UserIdsExactly(us: seq<UserRec>, id: u64)
    ensures id in UserIds(us) <==> exists j | 0 <= j < |us| :: us[j].id == id
    decreases |us|
  {
    if us != [] {
      UserIdsExactly(us[1..], id);
      assert forall j | 1 <= j < |us| :: us[j] == us[1..][j - 1];
    }
  }

  lemma {:induction false} RoomIdsExactly(rs: seq<RoomRec>, id: u32)
    ensures id in RoomIds(rs) <==> exists j | 0 <= j < |rs| :: rs[j].id == id
    decreases |rs|
  {
    if rs != [] {
      RoomIdsExactly(rs[1..], id);
      assert forall j | 1 <= j < |rs| :: rs[j] == rs[1..][j - 1];
    }
  }

  lemma {:induction false} RecordIds(k: Keeper, ids: seq<u64>, u: u64)
    requires UsersIndexed(k) && forall x | x in ids :: x in k.users
    ensures u in UserIds(Records(k, ids)) <==> u in ids
  {
    var us := Records(k, ids);
    assert forall j | 0 <= j < |us| :: us[j].id == ids[j];
    UserIdsExactly(us, u);
    if u in ids {
      var j :| 0 <= j < |ids| && ids[j] == u;
      assert us[j].id == u;
    }
  }

  lemma {:induction false} RecordsShown(k: Keeper, ids: seq<u64>, members: set<u64>)
    requires UsersIndexed(k) && members <= k.users.Keys && forall x: u64 :: x in ids <==> x in members
    ensures InsertUsers(map[], Records(k, ids)) == MemberRecords(k, members)
  {
    var us := Records(k, ids);
    assert forall x | x in us :: x.id in k.users && k.users[x.id] == x;
    InsertUsersFrom(k.users, map[], us);
    forall u: u64
      ensures u in UserIds(us) <==> u in members
    {
      RecordIds(k, ids, u);
    }
    assert UserIds(us) == members;
  }

  ghost function PublicMap(k: Keeper): map<u32, RoomRec> {
    map i: u32 | i in k.rooms :: Public(k.rooms[i])
  }

  lemma {:induction false} ListedIds(k: Keeper, ids: seq<u64>, i: u32)
    requires RoomsIndexed(k) && forall x | x in ids :: x < 0x1_0000_0000 && x in k.rooms
    ensures i in RoomIds(PublicRooms(k, ids)) <==> i in ids
  {
    var rs := PublicRooms(k, ids);
    assert forall j | 0 <= j < |rs| :: rs[j].id == ids[j];
    RoomIdsExactly(rs, i);
    if i in ids {
      var j :| 0 <= j < |ids| && ids[j] == i;
      assert rs[j].id == i;
    }
  }

  lemma {:induction false} RoomsShown(k: Keeper, ids: seq<u64>)
    requires RoomsIndexed(k) && forall x | x in ids :: x < 0x1_0000_0000
    requires forall i: u32 :: i in ids <==> i in k.rooms
    ensures InsertRooms(map[], PublicRooms(k, ids)) == PublicMap(k)
  {
    var rs, f := PublicRooms(k, ids), PublicMap(k);
    assert forall r | r in rs :: r.id in f && f[r.id] == r;
    InsertRoomsFrom(f, map[], rs);
    forall i: u32
      ensures i in RoomIds(rs) <==> i in k.rooms
    {
      ListedIds(k, ids, i);
    }
    assert RoomIds(rs) == k.rooms.Keys;
  }

  lemma {:induction false} InfoShowsRoom(k: Keeper, c: Replica, i: u32)
    requires UsersIndexed(k) && Known(k, i) && k.rooms[i].id == i && !c.exited
    ensures var d := Apply(c, Info(k, i));
            ShowsRoom(k, d, i) && !d.exited && d.user == c.user.(roomId := i) && d.rooms == c.rooms
  {
    RecordsShown(k, Ascending(k.rooms[i].users), k.rooms[i].users);
  }

  lemma {:induction false} ListShowsRooms(k: Keeper, c: Replica)
    requires RoomsIndexed(k) && !c.exited
    ensures Apply(c, List(k)) == c.(rooms := PublicMap(k)) && ShowsList(k, Apply(c, List(k)))
  {
    RoomsShown(k, Ascending(k.rooms.Keys));
  }

  // ---------------------------------------------------------------- every event

  /** Nothing that user u is shown, except perhaps the room list, differs between k and next. */
  ghost predicate SameView(k: Keeper, next: Keeper, u: u64) {
    && Seated(k, u) && Seated(next, u) && next.users[u] == k.users[u]
    && var i := k.users[u].roomId;
       next.rooms[i].name == k.rooms[i].name && next.rooms[i].users == k.rooms[i].users
       && forall m: u64 | m in k.rooms[i].users :: next.users[m] == k.users[m]
  }

  ghost predicate SameNames(k: Keeper, next: Keeper) {
    k.rooms.Keys == next.rooms.Keys && forall i: u32 | i in k.rooms :: k.rooms[i].name == next.rooms[i].name
  }

  lemma {:induction false} SameViewCoherent(k: Keeper, next: Keeper, c: Replica, u: u64)
    requires RoomsIndexed(next) && !c.exited && SameView(k, next, u) && SameNames(k, next) && Coherent(k, c, u)
    ensures Coherent(next, c, u)
  {
    SameViewShown(k, next, c, u);
  }

  lemma {:induction false} SameViewShown(k: Keeper, next: Keeper, c: Replica, u: u64)
    requires SameView(k, next, u) && ShowsRoom(k, c, k.users[u].roomId)
    ensures ShowsRoom(next, c, next.users[u].roomId)
  {
    var i := k.users[u].roomId;
    assert MemberRecords(k, k.rooms[i].users) == MemberRecords(next, next.rooms[i].users);
  }

  /** A message about the user's own room replaces whatever was shown of it before. */
  lemma {:induction false} InfoCoherent(k: Keeper, c: Replica, u: u64)
    requires UsersIndexed(k) && Seated(k, u) && k.rooms[k.users[u].roomId].id == k.users[u].roomId
    requires c.exited || (c.user.(roomId := k.users[u].roomId) == k.users[u] && ShowsList(k, c))
    ensures Coherent(k, Apply(c, Info(k, k.users[u].roomId)), u)
  {
    if !c.exited {
      InfoShowsRoom(k, c, k.users[u].roomId);
    }
  }

  lemma {:induction false} ListCoherent(k: Keeper, c: Replica, u: u64)
    requires RoomsIndexed(k) && Seated(k, u)
    requires !c.exited ==> ShowsRoom(k, c, k.users[u].roomId) && c.user == k.users[u]
    ensures Coherent(k, Apply(c, List(k)), u)
  {
    if !c.exited {
      ListShowsRooms(k, c);
    }
  }

  /** What a logon event amounts to for u: `info`, the reply, the room list. */
  lemma {:induction false} LogonDelivery(k: Keeper, info: seq<Send>, conn: u64, reply: Reply, c: Replica, u: u64)
    ensures var c1 := Deliver(c, info, u);
            var c2 := if u == conn then Apply(c1, reply) else c1;
            Deliver(c, info + [Send(conn, reply)] + PublishList(k, conn), u) ==
            if u == conn != 0 || (conn == 0 && u in k.users) then Apply(c2, List(k)) else c2
  {
    var c1 := Deliver(c, info, u);
    DeliverConcat(c, info + [Send(conn, reply)], PublishList(k, conn), u);
    DeliverConcat(c, info, [Send(conn, reply)], u);
    DeliverOne(c1, Send(conn, reply), u);
    DeliverList(k, Deliver(c1, [Send(conn, reply)], u), conn, u);
  }

  /** Publishing room i after a change confined to room i keeps everybody coherent whose own
      record did not change. */
  lemma {:induction false} PublishCoherent(k: Keeper, next: Keeper, i: u32, c: Replica, u: u64)
    requires Coherent(k, c, u) && Inv(next) && Known(next, i) && Seated(next, u)
    requires SameNames(k, next) && next.users[u] == k.users[u]
    requires next.users[u].roomId != i ==> SameView(k, next, u)
    ensures Coherent(next, if u in next.rooms[i].users then Apply(c, Info(next, i)) else c, u)
  {
    if next.users[u].roomId == i {
      InfoCoherent(next, c, u);
    } else if !c.exited {
      SameViewCoherent(k, next, c, u);
    }
  }

  // -- logon

  lemma {:induction false} LogonFrame(k: Keeper, conn: u64, name: bytes, ip: bytes, port: u16, next: Keeper)
    requires HALL_ID in k.rooms && LogonError(k, conn, name) == 0 && next == LogonState(k, conn, name, ip, port)
    ensures SameNames(k, next) && next.users == k.users[conn := UserRec(name, ip, port, conn, HALL_ID)]
    ensures forall j: u32 | j in k.rooms && j != HALL_ID :: next.rooms[j] == k.rooms[j]
  {
  }

  lemma {:induction false} LogonRefused(k: Keeper, conn: u64, reply: Reply, c: Replica, u: u64)
    requires RoomsIndexed(k) && Coherent(k, c, u) && reply.LogonRes? && reply.err != 0
    ensures Coherent(k, Deliver(c, [] + [Send(conn, reply)] + PublishList(k, conn), u), u)
  {
    LogonDelivery(k, [], conn, reply, c, u);
    ListCoherent(k, c, u);
  }

  lemma {:induction false} LogonOther(k: Keeper, conn: u64, next: Keeper, reply: Reply, c: Replica, u: u64)
    requires Coherent(k, c, u) && Inv(next) && Seated(next, u) && Known(next, HALL_ID) && u != conn
    requires SameNames(k, next) && next.users[u] == k.users[u]
    requires next.users[u].roomId != HALL_ID ==> SameView(k, next, u)
    ensures Coherent(next, Deliver(c, PublishInfo(next, HALL_ID) + [Send(conn, reply)] + PublishList(next, conn), u), u)
  {
    LogonDelivery(next, PublishInfo(next, HALL_ID), conn, reply, c, u);
    DeliverInfo(next, c, HALL_ID, u);
    PublishCoherent(k, next, HALL_ID, c, u);
    ListCoherent(next, Deliver(c, PublishInfo(next, HALL_ID), u), u);
  }

  lemma {:induction false} LogonSelf(next: Keeper, u: u64, c: Replica)
    requires RoomsIndexed(next) && UsersIndexed(next) && Seated(next, u) && next.users[u].roomId == HALL_ID
    requires u in next.rooms[HALL_ID].users
    ensures var reply := LogonRes(0, Some(next.users[u]));
            Coherent(next, Deliver(c, PublishInfo(next, HALL_ID) + [Send(u, reply)] + PublishList(next, u), u), u)
  {
    var reply := LogonRes(0, Some(next.users[u]));
    LogonDelivery(next, PublishInfo(next, HALL_ID), u, reply, c, u);
    DeliverInfo(next, c, HALL_ID, u);
    if !c.exited {
      InfoShowsRoom(next, c, HALL_ID);
      ListCoherent(next, Apply(Apply(c, Info(next, HALL_ID)), reply), u);
    }
  }

  // -- join

  lemma {:induction false} MoveFrame(k: Keeper, conn: u64, i: u32, next: Keeper)
    requires i in k.rooms && conn in k.users && k.users[conn].roomId in k.rooms && next == Move(k, conn, i)
    ensures SameNames(k, next) && next.users == k.users[conn := k.users[conn].(roomId := i)]
    ensures forall j: u32 | j in k.rooms && j != i && j != k.users[conn].roomId :: next.rooms[j] == k.rooms[j]
  {
  }

  /** Members of a third room neither move nor change. */
  lemma {:induction false} MoveSameView(k: Keeper, conn: u64, i: u32, next: Keeper, u: u64)
    requires i in k.rooms && conn in k.users && k.users[conn].roomId in k.rooms && next == Move(k, conn, i)
    requires Partitioned(k) && Seated(k, u) && u != conn
    requires k.users[u].roomId != i && k.users[u].roomId != k.users[conn].roomId
    ensures SameView(k, next, u)
  {
    MoveFrame(k, conn, i, next);
  }

  lemma {:induction false} MoveDelivery(k: Keeper, a: u32, b: u32, res: Send, c: Replica, u: u64)
    requires Known(k, a) && Known(k, b) && Inv(k) && a != b && !res.body.LogonRes? && !res.body.RoomInfo?
             && !res.body.RoomList?
    ensures Deliver(c, PublishInfo(k, a) + PublishInfo(k, b) + [res], u) ==
            if u in k.rooms[a].users then Apply(c, Info(k, a))
            else if u in k.rooms[b].users then Apply(c, Info(k, b)) else c
  {
    var pa, pb := PublishInfo(k, a), PublishInfo(k, b);
    DeliverConcat(c, pa + pb, [res], u);
    DeliverConcat(c, pa, pb, u);
    DeliverInfo(k, c, a, u);
    DeliverInfo(k, Deliver(c, pa, u), b, u);
    DeliverOne(Deliver(c, pa + pb, u), res, u);
  }

  lemma {:induction false} MoveKeepsViews(k: Keeper, conn: u64, i: u32, next: Keeper, res: Send, c: Replica, u: u64)
    requires i in k.rooms && conn in k.users && k.users[conn].roomId in k.rooms && next == Move(k, conn, i)
    requires i != k.users[conn].roomId && Known(next, i) && Known(next, k.users[conn].roomId)
    requires Partitioned(k) && Inv(next) && Seated(next, u) && Coherent(k, c, u)
    requires !res.body.LogonRes? && !res.body.RoomInfo? && !res.body.RoomList?
    ensures Coherent(next, Deliver(c, PublishInfo(next, i) + PublishInfo(next, k.users[conn].roomId) + [res], u), u)
  {
    var src := k.users[conn].roomId;
    MoveDelivery(next, i, src, res, c, u);
    MoveFrame(k, conn, i, next);
    if next.users[u].roomId == i || next.users[u].roomId == src {
      InfoCoherent(next, c, u);
    } else {
      MoveSameView(k, conn, i, next, u);
      PublishCoherent(k, next, i, c, u);
    }
  }

  // -- drop

  lemma {:induction false} DropFrame(k: Keeper, conn: u64, next: Keeper)
    requires conn in k.users && k.users[conn].roomId in k.rooms && next == DropState(k, conn)
    ensures SameNames(k, next) && next.users == k.users - {conn}
    ensures forall j: u32 | j in k.rooms && j != k.users[conn].roomId :: next.rooms[j] == k.rooms[j]
  {
  }

  lemma {:induction false} DropSameView(k: Keeper, conn: u64, next: Keeper, u: u64)
    requires conn in k.users && k.users[conn].roomId in k.rooms && next == DropState(k, conn)
    requires Partitioned(k) && Seated(k, u) && k.users[u].roomId != k.users[conn].roomId
    ensures SameView(k, next, u)
  {
    DropFrame(k, conn, next);
  }

  lemma {:induction false} DropKeepsViews(k: Keeper, conn: u64, next: Keeper, c: Replica, u: u64)
    requires conn in k.users && k.users[conn].roomId in k.rooms && next == DropState(k, conn)
    requires Partitioned(k) && Inv(next) && Known(next, k.users[conn].roomId) && Seated(next, u) && Coherent(k, c, u)
    ensures Coherent(next, Deliver(c, DropSends(k, conn), u), u)
  {
    var i := k.users[conn].roomId;
    DropFrame(k, conn, next);
    DeliverInfo(next, c, i, u);
    if k.users[u].roomId != i {
      DropSameView(k, conn, next, u);
    }
    PublishCoherent(k, next, i, c, u);
  }

  // -- create

  lemma {:induction false} CreateSameView(k: Keeper, name: bytes, passwd: bytes, next: Keeper, u: u64)
    requires next == CreateState(k, name, passwd) && Seated(k, u)
    ensures SameView(k, next, u)
  {
  }

  lemma {:induction false} CreateDelivery(k: Keeper, conn: u64, name: bytes, passwd: bytes, next: Keeper, c: Replica,
      u: u64)
    requires next == CreateState(k, name, passwd)
    ensures Deliver(c, CreateSends(k, conn, name, passwd), u) == if u in next.users then Apply(c, List(next)) else c
  {
    var err := CreateError(k, name);
    var res := CreateRoomRes(err, name);
    DeliverConcat(c, [Send(conn, res)], PublishList(next, 0), u);
    DeliverOne(c, Send(conn, res), u);
    DeliverList(next, c, 0, u);
  }

  lemma {:induction false} CreateKeepsViews(k: Keeper, conn: u64, name: bytes, passwd: bytes, next: Keeper,
      c: Replica, u: u64)
    requires next == CreateState(k, name, passwd) && RoomsIndexed(next) && Coherent(k, c, u)
    ensures Coherent(next, Deliver(c, CreateSends(k, conn, name, passwd), u), u)
  {
    CreateDelivery(k, conn, name, passwd, next, c, u);
    CreateSameView(k, name, passwd, next, u);
    if !c.exited {
      SameViewShown(k, next, c, u);
    }
    ListCoherent(next, c, u);
  }
}
