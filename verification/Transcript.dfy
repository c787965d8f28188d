/** Everything a client's window shows over a whole run of the server, from the record of what was granted. */
module Transcript {
  import opened Octets
  import opened Chat
  import opened KeeperSpec
  import opened ReplicaSpec
  import opened Coherence
  import opened KeeperRuns
  import opened Delivery
  import opened Answers
  import opened Display
  import opened Standing

  // ---------------------------------------------------------------- the window after some messages

  /** What user me's client shows of these payloads, one after another; None where it would read past a buffer.
      It shows nothing more once its logon was refused. */
  function ShowAll(me: bytes, c: Replica, ps: seq<bytes>): Option<seq<Shown>>
    decreases |ps|
  {
    if ps == [] || c.exited then Some([])
    else
      match (Shows(me, c.rooms, ps[0]), Receive(c, ps[0]))
      case (Some(shown), Some(d)) =>
        (match ShowAll(me, d, ps[1..])
         case None => None
         case Some(rest) => Some(shown + rest))
      case _ => None
  }

  function BodiesShow(me: bytes, c: Replica, bodies: seq<Reply>): seq<Shown>
    decreases |bodies|
  {
    if bodies == [] || c.exited then []
    else BodyShows(me, bodies[0]) + BodiesShow(me, Apply(c, bodies[0]), bodies[1..])
  }

  lemma {:induction false} ShowAllEncoded(me: bytes, c: Replica, bodies: seq<Reply>)
    requires forall b | b in bodies :: b.Fits() && Consistent(b)
    ensures ShowAll(me, c, Payloads(bodies)) == Some(BodiesShow(me, c, bodies))
    decreases |bodies|
  {
    if bodies != [] && !c.exited {
      assert bodies[0] in bodies && forall b | b in bodies[1..] :: b in bodies;
      PayloadsCons(bodies);
      FitCounts(bodies[0]);
      hide Receive, Shows, Apply, BodyShows, Consistent, Payloads;
      ReceiveEncoded(c, bodies[0]);
      ReplyReads(me, c.rooms, bodies[0]);
      ShowAllEncoded(me, Apply(c, bodies[0]), bodies[1..]);
    }
  }

  lemma {:induction false} ShowConcat(me: bytes, c: Replica, a: seq<Reply>, b: seq<Reply>)
    ensures BodiesShow(me, c, a + b) == BodiesShow(me, c, a) + BodiesShow(me, ApplyAll(c, a), b)
    ensures c.exited ==> ApplyAll(c, a).exited
    decreases |a|
  {
    hide BodyShows;
    if a == [] {
      assert a + b == b;
    } else {
      assert (a + b)[0] == a[0] && (a + b)[1..] == a[1..] + b;
      var d := Apply(c, a[0]);
      ShowConcat(me, d, a[1..], b);
      Associative(BodyShows(me, a[0]), BodiesShow(me, d, a[1..]), BodiesShow(me, ApplyAll(d, a[1..]), b));
    }
  }

  // ---------------------------------------------------------------- what should be shown

  function JoinFailed(name: bytes, reason: string): seq<Shown> {
    [Notice(Text("join room ") + name + Text(" failed: ") + Text(reason))]
  }

  /** Chat shows to those in the room, marked as the sender's own by name. */
  function SeenChat(r: Record, conn: u64, roomId: u32, words: bytes, u: u64, me: bytes): seq<Shown> {
    if conn in r.online && u in r.online && r.online[u].room == roomId
    then [Line(r.online[conn].name, words, r.online[conn].name == me)]
    else []
  }

  function SeenWhisper(r: Record, conn: u64, to: bytes, words: bytes, u: u64): seq<Shown> {
    if conn !in r.online then []
    else if u in r.online && r.online[u].name == to
    then [Notice(Text("recv whisper fr ") + r.online[conn].name + Text(": ") + words)]
    else if u == conn && NameFree(r, to)
    then [Notice(Text("send whisper to ") + to + Text(" failed, reason: ") + Text("user not exists!"))]
    else []
  }

  function CreateVerdict(r: Record, name: bytes): seq<Shown> {
    if RoomFree(r.rooms, name) then [Notice(Text("create room ") + name + Text(" succeed!"))]
    else [Notice(Text("create room ") + name + Text(" failed! reason: ") + Text("room with same name already exists"))]
  }

  function JoinVerdict(r: Record, conn: u64, name: bytes, passwd: bytes): seq<Shown> {
    if conn !in r.online then JoinFailed(name, "join room ,but user not exist!")
    else if RoomFree(r.rooms, name) then JoinFailed(name, "room not exists!")
    else if Place(name, passwd) !in r.rooms then JoinFailed(name, "room passwd not match, try again!")
    else if !GrantsJoin(r, conn, Place(name, passwd)) then JoinFailed(name, "user already in this room")
    else [Notice(Text("join room ") + name + Text(" success!"))]
  }

  /** What event e shows to connection u, whose user is called me, by the record before it: verdicts on creating
      and joining show to the asker alone, logons and drops are not announced. */
  function Seen(r: Record, e: Event, u: u64, me: bytes): seq<Shown> {
    match e
    case Received(conn, _, _, Publish(roomId, words)) => SeenChat(r, conn, roomId, words, u, me)
    case Received(conn, _, _, Whisper(to, words)) => SeenWhisper(r, conn, to, words, u)
    case Received(conn, _, _, Create(name, _)) => if u == conn then CreateVerdict(r, name) else []
    case Received(conn, _, _, Join(name, passwd)) => if u == conn then JoinVerdict(r, conn, name, passwd) else []
    case _ => []
  }

  /** A refused logon ends the client. */
  predicate Refused(r: Record, e: Event, u: u64) {
    e.Received? && e.conn == u && e.request.Logon? && !GrantsLogon(r, u, e.request.name)
  }

  predicate Gone(es: seq<Event>, u: u64) {
    es != [] && (Gone(es[..|es| - 1], u) || Refused(RecordOf(es[..|es| - 1]), es[|es| - 1], u))
  }

  function Expected(es: seq<Event>, u: u64, me: bytes): seq<Shown> {
    if es == [] then []
    else
      var before := es[..|es| - 1];
      Expected(before, u, me) + (if Gone(before, u) then [] else Seen(RecordOf(before), es[|es| - 1], u, me))
  }

  // ---------------------------------------------------------------- pieces of what is heard

  /** The messages show this, and leave a running client running unless over. */
  ghost predicate Show(me: bytes, c: Replica, heard: seq<Reply>, shown: seq<Shown>, over: bool) {
    BodiesShow(me, c, heard) == shown && (ApplyAll(c, heard).exited <==> over)
  }

  predicate Silent(body: Reply) {
    body.RoomInfo? || body.RoomList?
  }

  lemma {:induction false} NothingShows(me: bytes, c: Replica)
    requires !c.exited
    ensures Show(me, c, [], [], false)
  {
  }

  lemma {:induction false} OnlyShows(me: bytes, c: Replica, v: u64, conn: u64, body: Reply)
    requires !c.exited
    ensures Show(me, c, Only(v, conn, body), if v == conn then BodyShows(me, body) else [],
                 v == conn && Apply(c, body).exited)
  {
    assert [body][1..] == [];
    Alone(BodyShows(me, body));
  }

  lemma {:induction false} AmongShows(me: bytes, c: Replica, v: u64, ids: set<u64>, body: Reply)
    requires !c.exited && Silent(body)
    ensures Show(me, c, Among(v, ids, body), [], false)
  {
    assert [body][1..] == [];
  }

  lemma {:induction false} ListShowsNothing(me: bytes, c: Replica, k: Keeper, conn: u64, v: u64)
    requires !c.exited
    ensures Show(me, c, ListFor(k, conn, v), [], false)
  {
    hide PublicRooms, Ascending;
    if conn == 0 {
      AmongShows(me, c, v, k.users.Keys, List(k));
    } else {
      OnlyShows(me, c, v, conn, List(k));
    }
  }

  lemma {:induction false} BothShow(me: bytes, c: Replica, a: seq<Reply>, b: seq<Reply>, s: seq<Shown>, t: seq<Shown>,
      over: bool)
    requires Show(me, c, a, s, false) && Show(me, ApplyAll(c, a), b, t, over)
    ensures Show(me, c, a + b, s + t, over)
  {
    ShowConcat(me, c, a, b);
    ApplyAllConcat(c, a, b);
  }

  // ---------------------------------------------------------------- one event

  /** Searching the keeper's rooms and users finds what the record has. */
  lemma {:induction false} SearchFinds(k: Keeper, r: Record, name: bytes)
    requires Inv(k) && Agrees(k, r)
    ensures NoRoomCalled(k, name) <==> RoomFree(r.rooms, name)
    ensures NobodyCalled(k, name) <==> NameFree(r, name)
    ensures !NoRoomCalled(k, name) ==> name in k.roomNames && RoomCalled(k, k.roomNames[name], name)
  {
    NameKnown(k, name);
    NameTaken(k, r, name);
    RoomTaken(k, r, name);
  }

  lemma {:induction false} VerdictShows(me: bytes, c: Replica, conn: u64, name: bytes, v: u64)
    requires !c.exited
    ensures forall err: i32 ::
              && !Apply(c, JoinRoomRes(err, name)).exited
              && !Apply(c, CreateRoomRes(err, name)).exited
    ensures BodyShows(me, JoinRoomRes(7, name)) == JoinFailed(name, "join room ,but user not exist!")
    ensures BodyShows(me, JoinRoomRes(3, name)) == JoinFailed(name, "room not exists!")
    ensures BodyShows(me, JoinRoomRes(4, name)) == JoinFailed(name, "room passwd not match, try again!")
    ensures BodyShows(me, JoinRoomRes(5, name)) == JoinFailed(name, "user already in this room")
    ensures BodyShows(me, JoinRoomRes(0, name)) == [Notice(Text("join room ") + name + Text(" success!"))]
    ensures BodyShows(me, CreateRoomRes(0, name)) == [Notice(Text("create room ") + name + Text(" succeed!"))]
    ensures BodyShows(me, CreateRoomRes(6, name)) ==
            [Notice(Text("create room ") + name + Text(" failed! reason: ")
                    + Text("room with same name already exists"))]
  {
    hide Text;
  }

  lemma {:induction false} JoinSeen(k: Keeper, r: Record, conn: u64, name: bytes, passwd: bytes, u: u64, me: bytes,
      c: Replica)
    requires Inv(k) && Agrees(k, r) && !c.exited
    ensures Show(me, c, To(JoinSends(k, conn, name, passwd), u),
                 if u == conn then JoinVerdict(r, conn, name, passwd) else [], false)
  {
    JoinAnswered(k, conn, name, passwd, u);
    SearchFinds(k, r, name);
    PlaceFound(k, r, Place(name, passwd));
    JoinGranted(k, r, conn, name, passwd);
    VerdictShows(me, c, conn, name, u);
    JoinCases(k, r, conn, name, passwd);
    hide Inv, Agrees, Text, BodyShows, JoinSends, JoinState, Show, GrantsJoin, RoomFree, NoRoomCalled;
    if conn !in k.users {
      OnlyShows(me, c, u, conn, JoinRoomRes(7, name));
    } else if NoRoomCalled(k, name) {
      OnlyShows(me, c, u, conn, JoinRoomRes(3, name));
    } else {
      var i := k.roomNames[name];
      if k.rooms[i].passwd != passwd {
        OnlyShows(me, c, u, conn, JoinRoomRes(4, name));
      } else if conn in k.rooms[i].users {
        OnlyShows(me, c, u, conn, JoinRoomRes(5, name));
      } else {
        JoinHeardShows(k, JoinState(k, conn, name, passwd), conn, i, k.users[conn].roomId, name, u, me, c);
      }
    }
  }

  lemma {:induction false} JoinCases(k: Keeper, r: Record, conn: u64, name: bytes, passwd: bytes)
    requires Inv(k) && Agrees(k, r)
    ensures conn in k.users <==> conn in r.online
    ensures name in k.roomNames ==>
              k.roomNames[name] in k.rooms
              && (Place(name, passwd) in r.rooms <==> k.rooms[k.roomNames[name]].passwd == passwd)
    ensures conn in k.users && name in k.roomNames && k.rooms[k.roomNames[name]].passwd == passwd ==>
              (GrantsJoin(r, conn, Place(name, passwd)) <==> conn !in k.rooms[k.roomNames[name]].users)
  {
    PlaceFound(k, r, Place(name, passwd));
    JoinGranted(k, r, conn, name, passwd);
  }

  lemma {:induction false} JoinHeardShows(k: Keeper, next: Keeper, conn: u64, i: u32, was: u32, name: bytes, u: u64,
      me: bytes, c: Replica)
    requires i in k.rooms && was in k.rooms && Known(next, i) && Known(next, was) && !c.exited
    ensures Show(me, c, JoinHeard(k, next, conn, i, was, name, u),
                 if u == conn then BodyShows(me, JoinRoomRes(0, name)) else [], false)
  {
    var a := Among(u, k.rooms[i].users + {conn}, Info(next, i));
    var b := Among(u, k.rooms[was].users - {conn}, Info(next, was));
    AmongShows(me, c, u, k.rooms[i].users + {conn}, Info(next, i));
    var d := ApplyAll(c, a);
    AmongShows(me, d, u, k.rooms[was].users - {conn}, Info(next, was));
    BothShow(me, c, a, b, [], [], false);
    var f := ApplyAll(c, a + b);
    OnlyShows(me, f, u, conn, JoinRoomRes(0, name));
    hide Info, BodyShows, Among;
    Alone<Shown>([]);
    Alone(if u == conn then BodyShows(me, JoinRoomRes(0, name)) else []);
    BothShow(me, c, a + b, Only(u, conn, JoinRoomRes(0, name)), [],
             if u == conn then BodyShows(me, JoinRoomRes(0, name)) else [], false);
  }

  lemma {:induction false} CreateSeen(k: Keeper, r: Record, conn: u64, name: bytes, passwd: bytes, u: u64, me: bytes,
      c: Replica)
    requires Inv(k) && Agrees(k, r) && !c.exited
    ensures Show(me, c, To(CreateSends(k, conn, name, passwd), u),
                 if u == conn then CreateVerdict(r, name) else [], false)
  {
    CreateAnswered(k, conn, name, passwd, u);
    SearchFinds(k, r, name);
    hide Inv, Agrees, CreateSends, CreateState, RoomFree, NoRoomCalled;
    CreateHeardShows(me, c, conn, name, if NoRoomCalled(k, name) then 0 else 6, k, CreateState(k, name, passwd), u);
    VerdictShows(me, c, conn, name, u);
    hide BodyShows, List, Show, Text;
  }

  lemma {:induction false} CreateHeardShows(me: bytes, c: Replica, conn: u64, name: bytes, err: i32, k: Keeper,
      next: Keeper, u: u64)
    requires !c.exited
    ensures Show(me, c, Only(u, conn, CreateRoomRes(err, name)) + Among(u, k.users.Keys, List(next)),
                 if u == conn then BodyShows(me, CreateRoomRes(err, name)) else [], false)
  {
    hide BodyShows, PublicRooms, Ascending;
    var reply := CreateRoomRes(err, name);
    var shown := if u == conn then BodyShows(me, reply) else [];
    OnlyShows(me, c, u, conn, reply);
    var d := ApplyAll(c, Only(u, conn, reply));
    AmongShows(me, d, u, k.users.Keys, List(next));
    BothShow(me, c, Only(u, conn, reply), Among(u, k.users.Keys, List(next)), shown, [], false);
    Alone(shown);
  }

  lemma {:induction false} LogonSeen(k: Keeper, r: Record, conn: u64, ip: bytes, port: u16, name: bytes, u: u64,
      me: bytes, c: Replica)
    requires Inv(k) && Agrees(k, r) && !c.exited
    ensures Show(me, c, To(LogonSends(k, conn, name, ip, port), u), [], conn == u && !GrantsLogon(r, u, name))
  {
    LogonAnswered(k, conn, name, ip, port, u);
    SearchFinds(k, r, name);
    assert conn in k.users <==> conn in r.online;
    var next := LogonState(k, conn, name, ip, port);
    hide Inv, Agrees, LogonSends, LogonState, NobodyCalled, NameFree;
    if conn in k.users {
      RefusalShows(me, c, k, conn, 1, u);
    } else if !NobodyCalled(k, name) {
      RefusalShows(me, c, k, conn, 2, u);
    } else {
      var ids := k.rooms[HALL_ID].users + {conn};
      WelcomeShows(me, c, next, conn, ids, UserRec(name, ip, port, conn, HALL_ID), u);
    }
  }

  lemma {:induction false} RefusalShows(me: bytes, c: Replica, k: Keeper, conn: u64, err: i32, u: u64)
    requires !c.exited && err != 0
    ensures Show(me, c, Only(u, conn, LogonRes(err, None)) + ListFor(k, conn, u), [], conn == u)
  {
    var a, b := Only(u, conn, LogonRes(err, None)), ListFor(k, conn, u);
    hide ListFor;
    OnlyShows(me, c, u, conn, LogonRes(err, None));
    ShowConcat(me, c, a, b);
    ApplyAllConcat(c, a, b);
    var d := ApplyAll(c, a);
    if d.exited {
      ShowConcat(me, d, b, []);
    } else {
      ListShowsNothing(me, d, k, conn, u);
    }
  }

  lemma {:induction false} WelcomeShows(me: bytes, c: Replica, next: Keeper, conn: u64, ids: set<u64>, user: UserRec,
      u: u64)
    requires !c.exited && Known(next, HALL_ID)
    ensures Show(me, c, Among(u, ids, Info(next, HALL_ID)) + Only(u, conn, LogonRes(0, Some(user)))
                        + ListFor(next, conn, u), [], false)
  {
    var a, b := Among(u, ids, Info(next, HALL_ID)), Only(u, conn, LogonRes(0, Some(user)));
    AmongShows(me, c, u, ids, Info(next, HALL_ID));
    var d := ApplyAll(c, a);
    OnlyShows(me, d, u, conn, LogonRes(0, Some(user)));
    hide Among, ListFor, Info;
    Alone<Shown>([]);
    BothShow(me, c, a, b, [], [], false);
    var f := ApplyAll(c, a + b);
    ListShowsNothing(me, f, next, conn, u);
    BothShow(me, c, a + b, ListFor(next, conn, u), [], [], false);
  }

  lemma {:induction false} DropSeen(k: Keeper, conn: u64, u: u64, me: bytes, c: Replica)
    requires Inv(k) && !c.exited
    ensures Show(me, c, To(DropSends(k, conn), u), [], false)
  {
    DropAnswered(k, conn, u);
    var next := DropState(k, conn);
    hide Inv, DropSends, DropState;
    if conn in k.users {
      var was := k.users[conn].roomId;
      AmongShows(me, c, u, k.rooms[was].users - {conn}, Info(next, was));
    } else {
      NothingShows(me, c);
    }
  }

  lemma {:induction false} ChatSeen(k: Keeper, r: Record, conn: u64, roomId: u32, words: bytes, u: u64, me: bytes,
      c: Replica)
    requires Inv(k) && Agrees(k, r) && !c.exited && conn in k.users && roomId in k.rooms
    ensures Show(me, c, To(ChatSends(k, conn, roomId, words), u), SeenChat(r, conn, roomId, words, u, me), false)
  {
    ChatReachesMembersOnce(k, conn, roomId, words, u);
    PersonStands(k, r, conn, []);
    MemberByRecord(k, r, roomId, u);
    hide Inv, Agrees, ChatSends;
    if u in k.rooms[roomId].users {
      OnlyShows(me, c, u, u, ChatMsg(k.users[conn].name, words));
    } else {
      NothingShows(me, c);
    }
  }

  lemma {:induction false} PersonStands(k: Keeper, r: Record, u: u64, name: bytes)
    requires Inv(k) && Agrees(k, r)
    ensures u in k.users <==> u in r.online
    ensures u in k.users ==> k.users[u].name == r.online[u].name
    ensures NameFree(r, name) <==> forall v | v in k.users :: k.users[v].name != name
  {
    SearchFinds(k, r, name);
    if u in k.users {
      assert SamePerson(k.users[u], u, r.online[u]);
    }
  }

  lemma {:induction false} MemberByRecord(k: Keeper, r: Record, i: u32, u: u64)
    requires Inv(k) && Agrees(k, r) && i in k.rooms
    ensures u in k.rooms[i].users <==> u in r.online && r.online[u].room == i
  {
    if u in k.users {
      assert SamePerson(k.users[u], u, r.online[u]);
    }
  }

  /** What connection u hears of a whisper, by the record. */
  function WhisperToHear(r: Record, conn: u64, to: bytes, words: bytes, u: u64): seq<Reply>
    requires conn in r.online
  {
    if u in r.online && r.online[u].name == to then [WhisperMsg(r.online[conn].name, words)]
    else if u == conn && NameFree(r, to) then [WhisperFailed(to)]
    else []
  }

  lemma {:induction false} WhisperHeard(k: Keeper, r: Record, conn: u64, to: bytes, words: bytes, u: u64)
    requires Inv(k) && Agrees(k, r) && conn in k.users
    ensures conn in r.online && To(WhisperSends(k, conn, to, words), u) == WhisperToHear(r, conn, to, words, u)
  {
    PersonStands(k, r, conn, to);
    PersonStands(k, r, u, to);
    hide Inv, Agrees, WhisperSends, NameFree;
    WhisperReachesTarget(k, conn, to, words, u);
  }

  lemma {:induction false} WhisperShows(r: Record, conn: u64, to: bytes, words: bytes, u: u64, me: bytes, c: Replica)
    requires conn in r.online && !c.exited
    ensures Show(me, c, WhisperToHear(r, conn, to, words, u), SeenWhisper(r, conn, to, words, u), false)
  {
    hide NameFree, Text;
    if u in r.online && r.online[u].name == to {
      OnlyShows(me, c, u, u, WhisperMsg(r.online[conn].name, words));
    } else if u == conn && NameFree(r, to) {
      OnlyShows(me, c, u, u, WhisperFailed(to));
    } else {
      NothingShows(me, c);
    }
  }

  lemma {:induction false} WhisperSeen(k: Keeper, r: Record, conn: u64, to: bytes, words: bytes, u: u64, me: bytes,
      c: Replica)
    requires Inv(k) && Agrees(k, r) && !c.exited && conn in k.users
    ensures Show(me, c, To(WhisperSends(k, conn, to, words), u), SeenWhisper(r, conn, to, words, u), false)
  {
    hide Inv, Agrees, WhisperSends, WhisperToHear, Show, SeenWhisper;
    WhisperHeard(k, r, conn, to, words, u);
    WhisperShows(r, conn, to, words, u, me, c);
  }

  /** One event shows to each client what the record says, and ends it just when it refuses it. */
  lemma {:induction false} EventSeen(k: Keeper, r: Record, e: Event, u: u64, me: bytes, c: Replica)
    requires Inv(k) && Agrees(k, r) && !Aborts(k, e) && !c.exited
    ensures Show(me, c, To(Sends(k, e), u), Seen(r, e, u, me), Refused(r, e, u))
  {
    hide Inv, Agrees, Show, LogonSends, CreateSends, JoinSends, DropSends, ChatSends, WhisperSends;
    hide SeenChat, SeenWhisper, CreateVerdict, JoinVerdict;
    match e
    case Dropped(conn) => DropSeen(k, conn, u, me, c);
    case Received(conn, ip, port, request) =>
      match request
      case Logon(name) => LogonSeen(k, r, conn, ip, port, name, u, me, c);
      case Create(name, passwd) => CreateSeen(k, r, conn, name, passwd, u, me, c);
      case Join(name, passwd) => JoinSeen(k, r, conn, name, passwd, u, me, c);
      case Publish(roomId, words) => ChatSeen(k, r, conn, roomId, words, u, me, c);
      case Whisper(to, words) => WhisperSeen(k, r, conn, to, words, u, me, c);
      case Unknown(_) => NothingShows(me, c);
  }

  // ---------------------------------------------------------------- whole runs

  /** After any run, a client that started with its connection has shown exactly what the record of the run
      says, in order, up to a refused logon of its own. */
  lemma {:induction false} WindowExactly(es: seq<Event>, u: u64, me: bytes)
    requires |es| < 0xFFFF_FFFE && Run(es).Some?
    ensures Show(me, Start(), To(Run(es).value.1, u), Expected(es, u, me), Gone(es, u))
  {
    hide Show, Seen, Refused, Inv, Agrees, Sends, Start;
    if es == [] {
      StartRuns(me);
    } else {
      var before, e := es[..|es| - 1], es[|es| - 1];
      WindowExactly(before, u, me);
      RunAgrees(before);
      RunKeepsInv(before);
      WindowStep(Run(before).value.0, RecordOf(before), e, Run(before).value.1, u, me, Expected(before, u, me),
                 Gone(before, u));
    }
  }

  lemma {:induction false} StartRuns(me: bytes)
    ensures Show(me, Start(), [], [], false)
  {
    NothingShows(me, Start());
  }

  lemma {:induction false} WindowStep(k: Keeper, r: Record, e: Event, log: seq<Send>, u: u64, me: bytes,
      shown: seq<Shown>, gone: bool)
    requires Inv(k) && Agrees(k, r) && !Aborts(k, e) && Show(me, Start(), To(log, u), shown, gone)
    ensures Show(me, Start(), To(log + Sends(k, e), u), shown + (if gone then [] else Seen(r, e, u, me)),
                 gone || Refused(r, e, u))
  {
    hide Inv, Agrees, Aborts, Sends, Seen, Refused, Start;
    var a, b := To(log, u), To(Sends(k, e), u);
    ToConcat(log, Sends(k, e), u);
    ShowConcat(me, Start(), a, b);
    ApplyAllConcat(Start(), a, b);
    var d := ApplyAll(Start(), a);
    if gone {
      ShowConcat(me, d, b, []);
      Alone(shown);
    } else {
      EventSeen(k, r, e, u, me, d);
    }
  }

  /** The same read from bytes, provided the messages fit their buffers. */
  lemma {:induction false} WireWindowExactly(es: seq<Event>, u: u64, me: bytes)
    requires |es| < 0xFFFF_FFFE && Run(es).Some?
    requires forall m | m in Run(es).value.1 && m.conn == u :: m.body.Fits()
    ensures ShowAll(me, Start(), Payloads(To(Run(es).value.1, u))) == Some(Expected(es, u, me))
  {
    var log := Run(es).value.1;
    RunConsistent(es);
    forall b | b in To(log, u)
      ensures b.Fits() && Consistent(b)
    {
      ToMembers(log, u, b);
    }
    WindowExactly(es, u, me);
    ShowAllEncoded(me, Start(), To(log, u));
  }
}
