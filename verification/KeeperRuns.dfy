/** Whole runs of the server: any sequence of received requests and dropped connections. */
module KeeperRuns {
  import opened Octets
  import opened Chat
  import opened KeeperSpec
  import opened ReplicaSpec
  import opened Coherence

  datatype Event =
    | Received(conn: u64, ip: bytes, port: u16, request: Request)
    | Dropped(conn: u64)

  /** An assertion of the server fails: chatting to a room that was never allocated, or chatting
      or whispering without having logged on. */
  predicate Aborts(k: Keeper, e: Event) {
    e.Received? && match e.request
                   case Publish(roomId, _) => e.conn !in k.users || roomId !in k.rooms
                   case Whisper(_, _) => e.conn !in k.users
                   case _ => false
  }

  function NextState(k: Keeper, e: Event): Keeper {
    match e
    case Dropped(conn) => DropState(k, conn)
    case Received(conn, ip, port, Logon(name)) => LogonState(k, conn, name, ip, port)
    case Received(conn, ip, port, Create(name, passwd)) => CreateState(k, name, passwd)
    case Received(conn, ip, port, Join(name, passwd)) => JoinState(k, conn, name, passwd)
    case _ => k
  }

  function Sends(k: Keeper, e: Event): seq<Send>
    requires !Aborts(k, e)
  {
    match e
    case Dropped(conn) => DropSends(k, conn)
    case Received(conn, ip, port, Logon(name)) => LogonSends(k, conn, name, ip, port)
    case Received(conn, ip, port, Create(name, passwd)) => CreateSends(k, conn, name, passwd)
    case Received(conn, ip, port, Join(name, passwd)) => JoinSends(k, conn, name, passwd)
    case Received(conn, ip, port, Publish(roomId, words)) => ChatSends(k, conn, roomId, words)
    case Received(conn, ip, port, Whisper(to, words)) => WhisperSends(k, conn, to, words)
    case _ => []
  }

  lemma {:induction false} NextRoomGrows(k: Keeper, e: Event)
    requires k.nextRoom < 0xFFFF_FFFF
    ensures k.nextRoom <= NextState(k, e).nextRoom <= k.nextRoom + 1
  {
  }

  lemma {:induction false} NextKeepsInv(k: Keeper, e: Event)
    requires Inv(k) && k.nextRoom < 0xFFFF_FFFF
    ensures Inv(NextState(k, e)) && k.nextRoom <= NextState(k, e).nextRoom <= k.nextRoom + 1
  {
    hide Inv, LogonState, JoinState, CreateState, DropState;
    NextRoomGrows(k, e);
    match e
    case Dropped(conn) => DropKeepsInv(k, conn);
    case Received(conn, ip, port, r) =>
      match r
      case Logon(name) => LogonKeepsInv(k, conn, name, ip, port);
      case Join(name, passwd) => JoinKeepsInv(k, conn, name, passwd);
      case Create(name, passwd) => CreateKeepsInvExactly(k, name, passwd);
      case _ =>
  }

  /** Only a connection's own requests can log it on, and its drop logs it off. */
  lemma {:induction false} NextUsers(k: Keeper, e: Event)
    ensures e.Received? ==> NextState(k, e).users.Keys <= k.users.Keys + {e.conn}
    ensures e.Dropped? ==> NextState(k, e).users.Keys == k.users.Keys - {e.conn}
  {
  }

  // ---------------------------------------------------------------- messages without effect on a replica

  predicate Plain(body: Reply) {
    !body.LogonRes? && !body.RoomInfo? && !body.RoomList?
  }

  lemma {:induction false} DeliverPlain(c: Replica, s: seq<Send>, u: u64)
    requires forall m | m in s :: Plain(m.body)
    ensures Deliver(c, s, u) == c
    decreases |s|
  {
    if s == [] {
      assert To(s, u) == [];
    } else {
      assert s[0] in s && s == [s[0]] + s[1..];
      DeliverConcat(c, [s[0]], s[1..], u);
      DeliverOne(c, s[0], u);
      DeliverPlain(c, s[1..], u);
    }
  }

  lemma {:induction false} LogonSameView(k: Keeper, conn: u64, name: bytes, ip: bytes, port: u16, next: Keeper, u: u64)
    requires Partitioned(k) && HALL_ID in k.rooms && LogonError(k, conn, name) == 0
    requires next == LogonState(k, conn, name, ip, port) && Seated(k, u)
    ensures SameNames(k, next) && u in next.users && next.users[u] == k.users[u]
    ensures next.users[u].roomId != HALL_ID ==> SameView(k, next, u)
  {
    LogonFrame(k, conn, name, ip, port, next);
  }

  lemma {:induction false} LogonSelfSeated(k: Keeper, conn: u64, name: bytes, ip: bytes, port: u16, next: Keeper)
    requires HALL_ID in k.rooms && LogonError(k, conn, name) == 0 && next == LogonState(k, conn, name, ip, port)
    ensures conn in next.users && next.users[conn].roomId == HALL_ID && HALL_ID in next.rooms
    ensures conn in next.rooms[HALL_ID].users && LogonReply(next, conn, 0) == LogonRes(0, Some(next.users[conn]))
  {
  }

  lemma {:induction false} LogonKeepsViews(k: Keeper, conn: u64, name: bytes, ip: bytes, port: u16, next: Keeper,
      c: Replica, u: u64)
    requires Inv(k) && Inv(next) && next == LogonState(k, conn, name, ip, port) && Seated(next, u)
    requires u in k.users ==> Coherent(k, c, u)
    ensures Coherent(next, Deliver(c, LogonSends(k, conn, name, ip, port), u), u)
  {
    var err := LogonError(k, conn, name);
    var reply := LogonReply(next, conn, err);
    if err != 0 {
      LogonRefused(k, conn, reply, c, u);
    } else if u == conn {
      LogonSelfSeated(k, conn, name, ip, port, next);
      LogonSelf(next, conn, c);
    } else {
      LogonFrame(k, conn, name, ip, port, next);
      LogonSameView(k, conn, name, ip, port, next, u);
      EveryRoomKnown(next, HALL_ID);
      LogonOther(k, conn, next, reply, c, u);
    }
  }

  lemma {:induction false} JoinKeepsViews(k: Keeper, conn: u64, name: bytes, passwd: bytes, next: Keeper, c: Replica,
      u: u64)
    requires Inv(k) && next == JoinState(k, conn, name, passwd) && Inv(next) && Seated(next, u)
    requires u in k.users ==> Coherent(k, c, u)
    ensures Coherent(next, Deliver(c, JoinSends(k, conn, name, passwd), u), u)
  {
    hide Coherent, Deliver, PublishInfo;
    var err := JoinError(k, conn, name, passwd);
    var res := Send(conn, JoinRoomRes(err, name));
    if err == 0 {
      MoveFrame(k, conn, k.roomNames[name], next);
      EveryRoomKnown(next, k.roomNames[name]);
      EveryRoomKnown(next, k.users[conn].roomId);
      MoveKeepsViews(k, conn, k.roomNames[name], next, res, c, u);
    } else {
      JoinRefused(k, res, c, u);
    }
  }

  lemma {:induction false} JoinRefused(k: Keeper, res: Send, c: Replica, u: u64)
    requires Coherent(k, c, u) && Plain(res.body)
    ensures Coherent(k, Deliver(c, [] + [res], u), u)
  {
    assert [] + [res] == [res];
    DeliverPlain(c, [res], u);
  }

  lemma {:induction false} NextKeepsViews(k: Keeper, e: Event, next: Keeper, c: Replica, u: u64)
    requires Inv(k) && !Aborts(k, e) && next == NextState(k, e) && Inv(next) && u in next.users
    requires u in k.users ==> Coherent(k, c, u)
    ensures Coherent(next, Deliver(c, Sends(k, e), u), u)
  {
    EveryoneSeated(next, u);
    hide Inv, Coherent, Deliver, Seated;
    if e.Dropped? {
      DroppedKeepsViews(k, e.conn, next, c, u);
    } else {
      ReceivedKeepsViews(k, e, next, c, u);
    }
  }

  lemma {:induction false} DroppedKeepsViews(k: Keeper, conn: u64, next: Keeper, c: Replica, u: u64)
    requires Inv(k) && next == DropState(k, conn) && Inv(next) && u in next.users && Seated(next, u)
    requires u in k.users ==> Coherent(k, c, u)
    ensures Coherent(next, Deliver(c, DropSends(k, conn), u), u)
  {
    if conn in k.users {
      EveryRoomKnown(next, k.users[conn].roomId);
      DropKeepsViews(k, conn, next, c, u);
    } else {
      DeliverPlain(c, [], u);
    }
  }

  lemma {:induction false} ReceivedKeepsViews(k: Keeper, e: Event, next: Keeper, c: Replica, u: u64)
    requires Inv(k) && e.Received? && !Aborts(k, e) && next == NextState(k, e) && Inv(next) && u in next.users
    requires Seated(next, u)
    requires u in k.users ==> Coherent(k, c, u)
    ensures Coherent(next, Deliver(c, Sends(k, e), u), u)
  {
    hide RoomsIndexed, UsersIndexed, Partitioned, Coherent, Deliver, LogonState, LogonSends, JoinState, JoinSends,
         CreateSends;
    var conn := e.conn;
    match e.request
    case Logon(name) => LogonKeepsViews(k, conn, name, e.ip, e.port, next, c, u);
    case Join(name, passwd) => JoinKeepsViews(k, conn, name, passwd, next, c, u);
    case Create(name, passwd) => CreateKeepsViews(k, conn, name, passwd, next, c, u);
    case _ => TalkKeepsViews(k, e, c, u);
  }

  lemma {:induction false} TalkKeepsViews(k: Keeper, e: Event, c: Replica, u: u64)
    requires e.Received? && (e.request.Publish? || e.request.Whisper? || e.request.Unknown?) && !Aborts(k, e)
    requires Seated(k, u) && Coherent(k, c, u)
    ensures NextState(k, e) == k && Coherent(k, Deliver(c, Sends(k, e), u), u)
  {
    hide Coherent, Deliver;
    TalkIsPlain(k, e);
    hide Sends;
    DeliverPlain(c, Sends(k, e), u);
  }

  /** Chat, whispers and unknown requests change neither the server nor what a client shows of it. */
  lemma {:induction false} TalkIsPlain(k: Keeper, e: Event)
    requires e.Received? && (e.request.Publish? || e.request.Whisper? || e.request.Unknown?) && !Aborts(k, e)
    ensures NextState(k, e) == k && forall m | m in Sends(k, e) :: Plain(m.body)
  {
  }

  // ---------------------------------------------------------------- runs

  /** Keeper and everything sent, after a run; None if the server stopped on an assertion. */
  function Run(es: seq<Event>): Option<(Keeper, seq<Send>)> {
    if es == [] then Some((Initial(), []))
    else
      match Run(es[..|es| - 1])
      case None => None
      case Some((k, log)) =>
        var e := es[|es| - 1];
        if Aborts(k, e) then None else Some((NextState(k, e), log + Sends(k, e)))
  }

  /** Every run too short to wrap the 32-bit room counter keeps the invariant. */
  lemma {:induction false} RunKeepsInv(es: seq<Event>)
    requires |es| < 0xFFFF_FFFE && Run(es).Some?
    ensures Inv(Run(es).value.0) && Run(es).value.0.nextRoom <= |es| + 1
  {
    if es == [] {
      InitialInv();
    } else {
      RunKeepsInv(es[..|es| - 1]);
      NextKeepsInv(Run(es[..|es| - 1]).value.0, es[|es| - 1]);
    }
  }

  /** After every run the messages sent to each logged-on user add up to exactly the server's
      current state of that user, its room, the room's members and all room names. */
  lemma {:induction false} ViewCoherence(es: seq<Event>, u: u64)
    requires |es| < 0xFFFF_FFFE && Run(es).Some? && u in Run(es).value.0.users
    ensures Coherent(Run(es).value.0, Deliver(Start(), Run(es).value.1, u), u)
  {
    if es == [] {
      InitialInv();
    } else {
      var before, e := es[..|es| - 1], es[|es| - 1];
      var (k, log) := Run(before).value;
      if u in k.users {
        ViewCoherence(before, u);
      }
      RunKeepsInv(before);
      RunKeepsInv(es);
      DeliverConcat(Start(), log, Sends(k, e), u);
      NextKeepsViews(k, e, NextState(k, e), Deliver(Start(), log, u), u);
    }
  }
}
