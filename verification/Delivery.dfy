/** Who receives what, and the same on the level of bytes. */
module Delivery {
  import opened Octets
  import opened Chat
  import opened KeeperSpec
  import opened ReplicaSpec
  import opened Coherence
  import opened KeeperRuns

  // ---------------------------------------------------------------- chat and whispers

  /** A chat message goes exactly once to each member of the room at that moment, and to nobody else. */
  lemma {:induction false} ChatReachesMembersOnce(k: Keeper, conn: u64, roomId: u32, words: bytes, u: u64)
    requires conn in k.users && roomId in k.rooms
    ensures To(ChatSends(k, conn, roomId, words), u) ==
            if u in k.rooms[roomId].users then [ChatMsg(k.users[conn].name, words)] else []
  {
    AscendingIncreases(k.rooms[roomId].users);
    ToBroadcast(Ascending(k.rooms[roomId].users), ChatMsg(k.users[conn].name, words), u);
  }

  /** Looking a name up through the two maps is the same as searching all users for it. */
  lemma {:induction false} UserByNameIsSearch(k: Keeper, name: bytes)
    requires Inv(k)
    ensures UserByName(k, name).None? <==> forall u | u in k.users :: k.users[u].name != name
    ensures forall u | u in k.users :: k.users[u].name == name ==> UserByName(k, name) == Some(k.users[u])
  {
  }

  /** What connection u gets of a whisper: the words, if it is the user of that name; the refusal, if it
      is the sender and nobody has the name. */
  function WhisperFor(k: Keeper, conn: u64, to: bytes, words: bytes, u: u64): seq<Reply>
    requires conn in k.users
  {
    if u in k.users && k.users[u].name == to then [WhisperMsg(k.users[conn].name, words)]
    else if u == conn && forall v | v in k.users :: k.users[v].name != to then [WhisperFailed(to)]
    else []
  }

  /** A whisper leads to exactly one message: to the one user of that name, with the sender's own
      name and the exact words, or back to the sender if nobody has the name. */
  lemma {:induction false} WhisperReachesTarget(k: Keeper, conn: u64, to: bytes, words: bytes, u: u64)
    requires Inv(k) && conn in k.users
    ensures To(WhisperSends(k, conn, to, words), u) == WhisperFor(k, conn, to, words, u)
  {
    UserByNameIsSearch(k, to);
    ToOne(WhisperSends(k, conn, to, words)[0], u);
    if UserByName(k, to).Some? {
      var id := k.userNames[to];
      assert k.users[id].name == to && k.users[id].id == id;
    }
  }

  /** An accepted join takes the user from its one room to the named one and moves nobody else. */
  lemma {:induction false} AcceptedJoinMovesOneUser(k: Keeper, conn: u64, name: bytes, passwd: bytes, v: u64)
    requires Inv(k) && JoinError(k, conn, name, passwd) == 0
    ensures var next, dest := JoinState(k, conn, name, passwd), k.roomNames[name];
            && next.users.Keys == k.users.Keys && RoomsOf(next, conn) == {dest} && RoomsOf(k, conn) != {dest}
            && (v != conn ==> RoomsOf(next, v) == RoomsOf(k, v) && (v in k.users ==> next.users[v] == k.users[v]))
  {
    JoinKeepsInv(k, conn, name, passwd);
    MoveFrame(k, conn, k.roomNames[name], JoinState(k, conn, name, passwd));
    OneRecordMoves(k, conn, k.roomNames[name], JoinState(k, conn, name, passwd), v);
  }

  /** Room i is one the user could join with this name and password. */
  predicate Joinable(k: Keeper, i: u32, conn: u64, name: bytes, passwd: bytes) {
    i in k.rooms && k.rooms[i].name == name && k.rooms[i].passwd == passwd && conn !in k.rooms[i].users
  }

  /** A join changes something if and only if the user is logged on and some room, searched among all of
      them, has this name and password and not yet this user; then it ends in exactly that room. Otherwise
      nobody but the asking connection hears of it. */
  lemma {:induction false} JoinGrantedExactly(k: Keeper, conn: u64, name: bytes, passwd: bytes, v: u64)
    requires Inv(k)
    ensures JoinState(k, conn, name, passwd) != k <==>
            conn in k.users && exists i: u32 :: Joinable(k, i, conn, name, passwd)
    ensures forall i: u32 | conn in k.users && Joinable(k, i, conn, name, passwd) ::
              RoomsOf(JoinState(k, conn, name, passwd), conn) == {i}
    ensures JoinState(k, conn, name, passwd) == k ==>
            To(JoinSends(k, conn, name, passwd), v) ==
            if v == conn then [JoinRoomRes(JoinError(k, conn, name, passwd), name)] else []
  {
    var err := JoinError(k, conn, name, passwd);
    if err == 0 {
      AcceptedJoinMovesOneUser(k, conn, name, passwd, v);
      assert Joinable(k, k.roomNames[name], conn, name, passwd);
    } else {
      assert [] + [Send(conn, JoinRoomRes(err, name))] == [Send(conn, JoinRoomRes(err, name))];
      ToOne(Send(conn, JoinRoomRes(err, name)), v);
    }
  }

  lemma {:induction false} OneRecordMoves(k: Keeper, conn: u64, dest: u32, next: Keeper, v: u64)
    requires Inv(k) && Inv(next) && conn in k.users && dest in k.rooms && conn !in k.rooms[dest].users
    requires next.users == k.users[conn := k.users[conn].(roomId := dest)]
    ensures next.users.Keys == k.users.Keys && RoomsOf(next, conn) == {dest} && RoomsOf(k, conn) != {dest}
    ensures v != conn ==> RoomsOf(next, v) == RoomsOf(k, v) && (v in k.users ==> next.users[v] == k.users[v])
  {
    assert dest !in RoomsOf(k, conn) && dest in {dest};
    hide Inv, RoomsOf;
    ExactlyOneRoom(next, conn);
    OthersStay(k, conn, dest, next, v);
  }

  lemma {:induction false} OthersStay(k: Keeper, conn: u64, dest: u32, next: Keeper, v: u64)
    requires Inv(k) && Inv(next) && conn in k.users && next.users == k.users[conn := k.users[conn].(roomId := dest)]
    ensures next.users.Keys == k.users.Keys
    ensures v != conn ==> RoomsOf(next, v) == RoomsOf(k, v) && (v in k.users ==> next.users[v] == k.users[v])
  {
    hide Inv, RoomsOf;
    ExactlyOneRoom(k, v);
    ExactlyOneRoom(next, v);
  }

  // ---------------------------------------------------------------- bytes

  function Payloads(bodies: seq<Reply>): (ps: seq<bytes>)
    ensures |ps| == |bodies|
  {
    seq(|bodies|, i requires 0 <= i < |bodies| => bodies[i].Encode())
  }

  /** The client's state after receiving payloads; None if it would read past a buffer. */
  function ReceiveAll(c: Replica, ps: seq<bytes>): Option<Replica>
    decreases |ps|
  {
    if ps == [] then Some(c)
    else
      match Receive(c, ps[0])
      case None => None
      case Some(d) => ReceiveAll(d, ps[1..])
  }

  lemma {:induction false} PayloadsCons(bodies: seq<Reply>)
    requires bodies != []
    ensures Payloads(bodies) != [] && Payloads(bodies)[0] == bodies[0].Encode()
    ensures Payloads(bodies)[1..] == Payloads(bodies[1..])
  {
  }

  lemma {:induction false} ReceiveAllEncoded(c: Replica, bodies: seq<Reply>)
    requires forall b | b in bodies :: b.Fits() && Consistent(b)
    ensures ReceiveAll(c, Payloads(bodies)) == Some(ApplyAll(c, bodies))
    decreases |bodies|
  {
    if bodies != [] {
      assert bodies[0] in bodies && forall b | b in bodies[1..] :: b in bodies;
      PayloadsCons(bodies);
      hide Receive, Apply, Consistent, Payloads;
      ReceiveEncoded(c, bodies[0]);
      ReceiveAllEncoded(Apply(c, bodies[0]), bodies[1..]);
    }
  }

  lemma {:induction false} ToMembers(s: seq<Send>, u: u64, b: Reply)
    requires b in To(s, u)
    ensures exists m | m in s :: m.body == b && m.conn == u
    decreases |s|
  {
    if b in To(s[1..], u) {
      ToMembers(s[1..], u, b);
      var m :| m in s[1..] && m.body == b && m.conn == u;
      assert m in s;
    } else {
      assert s[0] in s;
    }
  }

  ghost predicate AllConsistent(s: seq<Send>) {
    forall m | m in s :: Consistent(m.body)
  }

  lemma {:induction false} ListConsistent(k: Keeper, conn: u64)
    ensures AllConsistent(PublishList(k, conn))
  {
    var rs := PublicRooms(k, Ascending(k.rooms.Keys));
    assert forall j | 0 <= j < |rs| :: rs[j] == Public(rs[j]);
    assert Consistent(List(k));
  }

  lemma {:induction false} InfoConsistent(k: Keeper, i: u32)
    ensures AllConsistent(PublishInfo(k, i))
  {
    if Known(k, i) {
      assert Consistent(Info(k, i));
    }
  }

  lemma {:induction false} ConsistentConcat(s: seq<Send>, t: seq<Send>)
    requires AllConsistent(s) && AllConsistent(t)
    ensures AllConsistent(s + t)
  {
  }

  lemma {:induction false} LogonConsistent(k: Keeper, conn: u64, name: bytes, ip: bytes, port: u16)
    requires HALL_ID in k.rooms
    ensures AllConsistent(LogonSends(k, conn, name, ip, port))
  {
    var err, next := LogonError(k, conn, name), LogonState(k, conn, name, ip, port);
    if err == 0 {
      LogonSelfSeated(k, conn, name, ip, port, next);
    }
    var info := if err == 0 then PublishInfo(next, HALL_ID) else [];
    var reply := [Send(conn, LogonReply(next, conn, err))];
    InfoConsistent(next, HALL_ID);
    ListConsistent(next, conn);
    ConsistentConcat(info, reply);
    ConsistentConcat(info + reply, PublishList(next, conn));
  }

  lemma {:induction false} JoinConsistent(k: Keeper, conn: u64, name: bytes, passwd: bytes)
    ensures AllConsistent(JoinSends(k, conn, name, passwd))
  {
    var err, next := JoinError(k, conn, name, passwd), JoinState(k, conn, name, passwd);
    var reply := [Send(conn, JoinRoomRes(err, name))];
    if err == 0 {
      var a, b := PublishInfo(next, k.roomNames[name]), PublishInfo(next, k.users[conn].roomId);
      InfoConsistent(next, k.roomNames[name]);
      InfoConsistent(next, k.users[conn].roomId);
      ConsistentConcat(a, b);
      ConsistentConcat(a + b, reply);
    } else {
      ConsistentConcat([], reply);
    }
  }

  lemma {:induction false} SendsConsistent(k: Keeper, e: Event)
    requires HALL_ID in k.rooms && !Aborts(k, e)
    ensures AllConsistent(Sends(k, e))
  {
    hide LogonSends, JoinSends, CreateState, DropState, Info, List;
    match e
    case Dropped(conn) =>
      if conn in k.users {
        InfoConsistent(DropState(k, conn), k.users[conn].roomId);
      }
    case Received(conn, ip, port, r) =>
      match r
      case Logon(name) => LogonConsistent(k, conn, name, ip, port);
      case Create(name, passwd) =>
        var next := CreateState(k, name, passwd);
        ListConsistent(next, 0);
        ConsistentConcat([Send(conn, CreateRoomRes(CreateError(k, name), name))], PublishList(next, 0));
      case Join(name, passwd) => JoinConsistent(k, conn, name, passwd);
      case Publish(_, _) => TalkIsPlain(k, e);
      case Whisper(_, _) => TalkIsPlain(k, e);
      case Unknown(_) =>
  }

  lemma {:induction false} RunConsistent(es: seq<Event>)
    requires |es| < 0xFFFF_FFFE && Run(es).Some?
    ensures AllConsistent(Run(es).value.1)
  {
    if es != [] {
      var before, e := es[..|es| - 1], es[|es| - 1];
      RunConsistent(before);
      RunKeepsInv(before);
      SendsConsistent(Run(before).value.0, e);
    }
  }

  /** View coherence on the wire: a client that has decoded every payload sent to it shows exactly
      the server's state, provided the messages fit their buffers. */
  lemma {:induction false} WireViewCoherence(es: seq<Event>, u: u64)
    requires |es| < 0xFFFF_FFFE && Run(es).Some? && u in Run(es).value.0.users
    requires forall m | m in Run(es).value.1 && m.conn == u :: m.body.Fits()
    ensures var c := ReceiveAll(Start(), Payloads(To(Run(es).value.1, u)));
            c.Some? && Coherent(Run(es).value.0, c.value, u)
  {
    var log := Run(es).value.1;
    RunConsistent(es);
    forall b | b in To(log, u)
      ensures b.Fits() && Consistent(b)
    {
      ToMembers(log, u, b);
    }
    ReceiveAllEncoded(Start(), To(log, u));
    ViewCoherence(es, u);
  }
}
