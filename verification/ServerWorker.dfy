/** The worker: reads a request from a received message, lets the keeper act, and replies. */
module ServerWorker {
  import opened Octets
  import opened Codec
  import opened MsgBuffer
  import opened Framing
  import opened Chat
  import opened Structs
  import opened KeeperSpec
  import opened KeeperRuns
  import opened RoomKeeping

  predicate LogonFits(k: Keeper, conn: u64, name: bytes, ip: bytes, port: u16) {
    var next := LogonState(k, conn, name, ip, port);
    InfoFits(next, HALL_ID) && LogonReply(next, conn, LogonError(k, conn, name)).Fits() && List(next).Fits()
  }

  /** Every message built while handling the event stays inside its buffer. */
  predicate EventFits(k: Keeper, e: Event) {
    var next := NextState(k, e);
    match e
    case Dropped(conn) => conn in k.users ==> InfoFits(next, k.users[conn].roomId)
    case Received(conn, ip, port, r) =>
      match r
      case Logon(name) => LogonFits(k, conn, name, ip, port)
      case Create(name, passwd) => CreateRoomRes(CreateError(k, name), name).Fits() && List(next).Fits()
      case Join(name, passwd) =>
        JoinFits(k, conn, name, passwd) && JoinRoomRes(JoinError(k, conn, name, passwd), name).Fits()
      case Publish(roomId, words) => conn in k.users ==> ChatMsg(k.users[conn].name, words).Fits()
      case Whisper(to, words) => conn in k.users ==> WhisperSends(k, conn, to, words)[0].body.Fits()
      case Unknown(_) => true
  }

  lemma {:induction false} LogonSendsSplit(k: Keeper, conn: u64, name: bytes, ip: bytes, port: u16)
    ensures var next := LogonState(k, conn, name, ip, port);
            LogonSends(k, conn, name, ip, port) == Welcome(k, conn, name, ip, port)
              + ([Send(conn, LogonReply(next, conn, LogonError(k, conn, name)))] + PublishList(next, conn))
  {
    var next := LogonState(k, conn, name, ip, port);
    Associative(Welcome(k, conn, name, ip, port), [Send(conn, LogonReply(next, conn, LogonError(k, conn, name)))],
                   PublishList(next, conn));
  }

  /** The message stands for the event. */
  ghost predicate Brings(msg: Msg, e: Event)
    reads msg, msg.mData
  {
    msg.Valid() && e.Received? && ParseRequest(msg.Unread()) == Some(e.request)
  }

  class Worker {
    const mRoomKeeper: RoomKeeper
    const mQueue: SendQueue

    ghost predicate Valid()
      reads mRoomKeeper, mRoomKeeper.mIdRoom.Values, mRoomKeeper.mIdUser.Values
    {
      mRoomKeeper.Valid() && mRoomKeeper.mWorker == mQueue
    }

    ghost function Model(): Keeper
      reads mRoomKeeper, mRoomKeeper.mIdRoom.Values, mRoomKeeper.mIdUser.Values
    {
      mRoomKeeper.Model()
    }

    constructor ()
      ensures Valid() && Model() == Initial() && mQueue.mSends == []
      ensures fresh(mRoomKeeper) && fresh(mQueue)
      ensures fresh(mRoomKeeper.mIdRoom.Values) && fresh(mRoomKeeper.mIdUser.Values)
    {
      var queue := new SendQueue();
      mQueue := queue;
      mRoomKeeper := new RoomKeeper(queue);
    }

    /** Builds a message, sets its length and queues it. */
    method SendReply(connId: u64, fs: seq<Field>, ghost body: Reply)
      requires Valid() && fs == body.Fields() && body.Fits()
      modifies mQueue
      ensures Valid() && Model() == old(Model())
      ensures Appended(old(mQueue.mSends), mQueue.mSends, OnWire([Send(connId, body)]))
    {
      hide EncodeAll, FreshShape;
      var reply := NewMsg(fs);
      assert IsFrame(reply.Frame(), body.Encode());
      mQueue.Enqueue(connId, reply);
      assert OnWire([Send(connId, body)]) == [Wire(connId, body.Encode())];
    }

    method HandleLogon(name: bytes, ip: bytes, port: u16, connId: u64)
      requires Valid() && LogonReady(Model(), connId, name, ip, port) && LogonFits(Model(), connId, name, ip, port)
      modifies mRoomKeeper, mRoomKeeper.mIdRoom.Values, mRoomKeeper.mIdUser.Values, mQueue
      ensures Valid() && Model() == old(LogonState(Model(), connId, name, ip, port))
      ensures mRoomKeeper.mIdRoom == old(mRoomKeeper.mIdRoom)
      ensures fresh(mRoomKeeper.mIdUser.Values - old(mRoomKeeper.mIdUser.Values))
      ensures Appended(old(mQueue.mSends), mQueue.mSends, OnWire(old(LogonSends(Model(), connId, name, ip, port))))
    {
      ghost var q := mQueue.mSends;
      ghost var next := LogonState(Model(), connId, name, ip, port);
      ghost var welcome := Welcome(Model(), connId, name, ip, port);
      LogonSendsSplit(Model(), connId, name, ip, port);
      var err, user := mRoomKeeper.HandleLogon(name, ip, port, connId);
      ghost var q1, reply := mQueue.mSends, [Send(connId, LogonReply(next, connId, err))];
      AnswerLogon(connId, err, user);
      AppendedSends(q, q1, mQueue.mSends, welcome, reply + PublishList(next, connId));
    }

    /** The reply to a logon and the room list that follows it. */
    method AnswerLogon(connId: u64, err: i32, user: User?)
      requires Valid() && List(Model()).Fits() && LogonReply(Model(), connId, err).Fits()
      requires err == 0 ==> connId in mRoomKeeper.mIdUser && mRoomKeeper.mIdUser[connId] == user
      modifies mQueue
      ensures Valid() && Model() == old(Model())
      ensures Appended(old(mQueue.mSends), mQueue.mSends,
                       OnWire(old([Send(connId, LogonReply(Model(), connId, err))] + PublishList(Model(), connId))))
    {
      ghost var k, q := Model(), mQueue.mSends;
      var head := [I32(S2C_LOGON_RES), I32(err), Str(ErrorText(err))];
      SendReply(connId, head + (if err == 0 then UserFields(user.View()) else []), LogonReply(k, connId, err));
      ghost var q1 := mQueue.mSends;
      mRoomKeeper.PublishRoomList(connId);
      AppendedSends(q, q1, mQueue.mSends, [Send(connId, LogonReply(k, connId, err))], PublishList(k, connId));
    }

    method HandleDrop(connId: u64)
      requires Valid() && Inv(Model()) && EventFits(Model(), Dropped(connId))
      modifies mRoomKeeper, mRoomKeeper.mIdRoom.Values, mQueue
      ensures Valid() && Model() == old(DropState(Model(), connId))
      ensures mRoomKeeper.mIdRoom == old(mRoomKeeper.mIdRoom)
              && mRoomKeeper.mIdUser.Values <= old(mRoomKeeper.mIdUser.Values)
      ensures Appended(old(mQueue.mSends), mQueue.mSends, OnWire(old(DropSends(Model(), connId))))
    {
      mRoomKeeper.HandleDrop(connId);
    }

    method PublishChatMessage(roomId: u32, input: bytes, connId: u64)
      requires Valid() && Inv(Model()) && connId in Model().users && roomId in Model().rooms
      requires ChatMsg(Model().users[connId].name, input).Fits()
      modifies mQueue
      ensures Valid() && Model() == old(Model())
      ensures Appended(old(mQueue.mSends), mQueue.mSends, OnWire(old(ChatSends(Model(), connId, roomId, input))))
    {
      EveryRoomKnown(Model(), roomId);
      mRoomKeeper.PublishRoomMessage(roomId, connId, input);
    }

    method HandleCreateRoom(roomName: bytes, passwd: bytes, connId: u64)
      requires Valid() && CreateRoomRes(CreateError(Model(), roomName), roomName).Fits()
      requires List(CreateState(Model(), roomName, passwd)).Fits()
      modifies mRoomKeeper, mQueue
      ensures Valid() && Model() == old(CreateState(Model(), roomName, passwd))
      ensures mRoomKeeper.mIdUser == old(mRoomKeeper.mIdUser)
      ensures fresh(mRoomKeeper.mIdRoom.Values - old(mRoomKeeper.mIdRoom.Values))
      ensures Appended(old(mQueue.mSends), mQueue.mSends, OnWire(old(CreateSends(Model(), connId, roomName, passwd))))
    {
      ghost var q, next := mQueue.mSends, CreateState(Model(), roomName, passwd);
      var err := mRoomKeeper.CreateRoom(roomName, passwd);
      ghost var body := CreateRoomRes(err, roomName);
      SendReply(connId, [I32(S2C_CREATE_ROOM_RES), I32(err), Str(ErrorText(err)), Str(roomName)], body);
      ghost var q1 := mQueue.mSends;
      mRoomKeeper.PublishRoomList(0);
      AppendedSends(q, q1, mQueue.mSends, [Send(connId, body)], PublishList(next, 0));
    }

    method HandleJoinRoom(roomName: bytes, passwd: bytes, connId: u64)
      requires Valid() && Inv(Model()) && JoinFits(Model(), connId, roomName, passwd)
      requires JoinRoomRes(JoinError(Model(), connId, roomName, passwd), roomName).Fits()
      modifies mRoomKeeper.mIdRoom.Values, mRoomKeeper.mIdUser.Values, mQueue
      ensures Valid() && Model() == old(JoinState(Model(), connId, roomName, passwd))
      ensures Appended(old(mQueue.mSends), mQueue.mSends, OnWire(old(JoinSends(Model(), connId, roomName, passwd))))
    {
      ghost var q, moved := mQueue.mSends, Relocation(Model(), connId, roomName, passwd);
      JoinSteps(Model(), connId, roomName, passwd);
      var err := mRoomKeeper.HandleJoinRoom(roomName, passwd, connId);
      ghost var q1, body := mQueue.mSends, JoinRoomRes(err, roomName);
      SendReply(connId, [I32(S2C_JOIN_ROOM_RES), I32(err), Str(ErrorText(err)), Str(roomName)], body);
      AppendedSends(q, q1, mQueue.mSends, moved, [Send(connId, body)]);
    }

    method HandleWhisperMsg(to: bytes, words: bytes, connId: u64)
      requires Valid() && connId in Model().users && WhisperSends(Model(), connId, to, words)[0].body.Fits()
      modifies mQueue
      ensures Valid() && Model() == old(Model())
      ensures Appended(old(mQueue.mSends), mQueue.mSends, OnWire(old(WhisperSends(Model(), connId, to, words))))
    {
      var fromUser := mRoomKeeper.GetUserById(connId);
      var toUser := mRoomKeeper.GetUserByName(to);
      if toUser == null {
        SendReply(connId, [I32(S2C_WHISPER_MSG_FAILED), Str(to), Str(Text("user not exists!"))], WhisperFailed(to));
        return;
      }
      SendReply(toUser.mID, [I32(S2C_WHISPER_MSG), Str(fromUser.mName), Str(words)], WhisperMsg(fromUser.mName, words));
    }

    /** Reads the type word and the fields that the type calls for. */
    method ReadRequest(msg: Msg) returns (r: Request)
      requires msg.Valid() && ParseRequest(msg.Unread()).Some?
      modifies msg`mReadOffset
      ensures Some(r) == ParseRequest(old(msg.Unread()))
    {
      var t := msg.Read(KI32);
      match RequestKinds(t.i)
      case None => r := Unknown(t.i);
      case Some(ks) =>
        var fs := ReadAll(msg, ks);
        assert Kinds(fs) == ks;
        r := RequestOf(t.i, fs);
    }

    method DispatchLogon(name: bytes, ip: bytes, port: u16, connId: u64)
      requires Valid() && Inv(Model()) && LogonFits(Model(), connId, name, ip, port)
      modifies mRoomKeeper, mRoomKeeper.mIdRoom.Values, mRoomKeeper.mIdUser.Values, mQueue
      ensures Valid() && Model() == old(LogonState(Model(), connId, name, ip, port))
      ensures mRoomKeeper.mIdRoom == old(mRoomKeeper.mIdRoom)
      ensures fresh(mRoomKeeper.mIdUser.Values - old(mRoomKeeper.mIdUser.Values))
      ensures Appended(old(mQueue.mSends), mQueue.mSends, OnWire(old(LogonSends(Model(), connId, name, ip, port))))
    {
      hide LogonState, LogonSends, OnWire, Appended, Inv, LogonReady;
      LogonSteps(Model(), connId, name, ip, port);
      HandleLogon(name, ip, port, connId);
    }

    /** The requests that change nothing here. */
    method DispatchTalk(r: Request, connId: u64, ghost e: Event)
      requires Valid() && Inv(Model()) && e.Received? && e.conn == connId && e.request == r
      requires r.Publish? || r.Whisper? || r.Unknown?
      requires !Aborts(Model(), e) && EventFits(Model(), e)
      modifies mQueue
      ensures Valid() && Model() == old(NextState(Model(), e))
      ensures Appended(old(mQueue.mSends), mQueue.mSends, OnWire(old(Sends(Model(), e))))
    {
      assert OnWire([]) == [];
      hide OnWire, Appended, ChatSends, WhisperSends;
      match r
      case Publish(roomId, input) => PublishChatMessage(roomId, input, connId);
      case Whisper(to, words) => HandleWhisperMsg(to, words, connId);
      case Unknown(_) => AppendedNothing(mQueue.mSends);
    }

    method Dispatch(r: Request, ip: bytes, port: u16, connId: u64, ghost e: Event)
      requires Valid() && Inv(Model()) && e == Received(connId, ip, port, r)
      requires !Aborts(Model(), e) && EventFits(Model(), e)
      modifies mRoomKeeper, mRoomKeeper.mIdRoom.Values, mRoomKeeper.mIdUser.Values, mQueue
      ensures Valid() && Model() == old(NextState(Model(), e))
      ensures fresh(mRoomKeeper.mIdRoom.Values - old(mRoomKeeper.mIdRoom.Values))
      ensures fresh(mRoomKeeper.mIdUser.Values - old(mRoomKeeper.mIdUser.Values))
      ensures Appended(old(mQueue.mSends), mQueue.mSends, OnWire(old(Sends(Model(), e))))
    {
      hide RoomsIndexed, UsersIndexed, Partitioned, LogonState, CreateState, JoinState, OnWire, Appended;
      hide LogonSends, CreateSends, JoinSends, ChatSends, WhisperSends, List, InfoFits;
      match r
      case Logon(name) => DispatchLogon(name, ip, port, connId);
      case Create(roomName, passwd) => HandleCreateRoom(roomName, passwd, connId);
      case Join(roomName, passwd) => HandleJoinRoom(roomName, passwd, connId);
      case _ => DispatchTalk(r, connId, e);
    }

    method HandleDropped(conn: u64)
      requires Valid() && Inv(Model()) && EventFits(Model(), Dropped(conn))
      modifies mRoomKeeper, mRoomKeeper.mIdRoom.Values, mRoomKeeper.mIdUser.Values, mQueue
      ensures Valid() && Model() == old(NextState(Model(), Dropped(conn)))
      ensures fresh(mRoomKeeper.mIdRoom.Values - old(mRoomKeeper.mIdRoom.Values))
      ensures fresh(mRoomKeeper.mIdUser.Values - old(mRoomKeeper.mIdUser.Values))
      ensures Appended(old(mQueue.mSends), mQueue.mSends, OnWire(old(Sends(Model(), Dropped(conn)))))
    {
      HandleDrop(conn);
    }

    /** A received message takes the keeper exactly one step of the run and queues exactly what that step
        sends. */
    method RecvMessage(msg: Msg, ip: bytes, port: u16, connId: u64, ghost e: Event)
      requires Valid() && Inv(Model()) && Brings(msg, e) && (e.conn, e.ip, e.port) == (connId, ip, port)
      requires !Aborts(Model(), e) && EventFits(Model(), e)
      modifies msg`mReadOffset, mRoomKeeper, mRoomKeeper.mIdRoom.Values, mRoomKeeper.mIdUser.Values, mQueue
      ensures Valid() && Model() == old(NextState(Model(), e))
      ensures fresh(mRoomKeeper.mIdRoom.Values - old(mRoomKeeper.mIdRoom.Values))
      ensures fresh(mRoomKeeper.mIdUser.Values - old(mRoomKeeper.mIdUser.Values))
      ensures Appended(old(mQueue.mSends), mQueue.mSends, OnWire(old(Sends(Model(), e))))
    {
      hide NextState, KeeperRuns.Sends, EventFits, Aborts, Inv, ParseRequest, OnWire, Appended;
      var r := ReadRequest(msg);
      assert Valid() && Model() == old(Model()) && e == Received(connId, ip, port, r);
      Dispatch(r, ip, port, connId, e);
    }
  }

  // ---------------------------------------------------------------- whole runs

  ghost predicate RunFits(es: seq<Event>) {
    forall i | 0 <= i < |es| && Run(es[..i]).Some? :: EventFits(Run(es[..i]).value.0, es[i])
  }

  lemma {:induction false} RunSurvivesPrefix(es: seq<Event>, i: nat)
    requires i <= |es| && Run(es).Some?
    ensures Run(es[..i]).Some?
  {
    if i < |es| {
      var before := es[..|es| - 1];
      assert before[..i] == es[..i];
      RunSurvivesPrefix(before, i);
    } else {
      assert es[..i] == es;
    }
  }

  lemma {:induction false} RunStep(es: seq<Event>, i: nat)
    requires i < |es| && |es| < 0xFFFF_FFFE && Run(es).Some?
    ensures Run(es[..i]).Some? && Run(es[..i + 1]).Some?
    ensures var (k, log) := Run(es[..i]).value;
            Inv(k) && !Aborts(k, es[i]) && Run(es[..i + 1]).value ==
                (NextState(k, es[i]), log + KeeperRuns.Sends(k, es[i]))
  {
    RunSurvivesPrefix(es, i);
    RunSurvivesPrefix(es, i + 1);
    RunKeepsInv(es[..i]);
    assert es[..i + 1][..i] == es[..i];
  }

  /** What the worker's queue brings it: a frame that a connection has received, or the news of a drop. */
  datatype Arrival = Frame(conn: u64, ip: bytes, port: u16, frame: bytes) | Gone(conn: u64) {
    /** The server reads past the end of other frames. */
    predicate Readable() {
      Frame? ==> |frame| >= HEAD_LENGTH && ParseRequest(frame[HEAD_LENGTH..]).Some?
    }

    function AsEvent(): Event
      requires Readable()
    {
      match this
      case Frame(conn, ip, port, frame) => Received(conn, ip, port, ParseRequest(frame[HEAD_LENGTH..]).value)
      case Gone(conn) => Dropped(conn)
    }
  }

  function EventsOf(arrivals: seq<Arrival>): (es: seq<Event>)
    requires forall a | a in arrivals :: a.Readable()
    ensures |es| == |arrivals|
  {
    seq(|arrivals|, i requires 0 <= i < |arrivals| => arrivals[i].AsEvent())
  }

  /** The message into which a connection received a frame. */
  method MsgOf(a: Arrival) returns (msg: Msg)
    requires a.Frame? && a.Readable()
    ensures fresh(msg) && fresh(msg.mData) && Brings(msg, a.AsEvent())
  {
    msg := new Msg.Sized(|a.frame| - HEAD_LENGTH);
    forall i | 0 <= i < |a.frame| {
      msg.mData[i] := a.frame[i];
    }
    assert msg.mData[HEAD_LENGTH..] == a.frame[HEAD_LENGTH..];
  }

  method ServeFrame(w: Worker, a: Arrival, ghost k: Keeper, ghost e: Event)
    requires w.Valid() && w.Model() == k && a.Frame? && a.Readable() && e == a.AsEvent()
    requires Inv(k) && !Aborts(k, e) && EventFits(k, e)
    modifies w.mRoomKeeper, w.mRoomKeeper.mIdRoom.Values, w.mRoomKeeper.mIdUser.Values, w.mQueue
    ensures w.Valid() && w.Model() == NextState(k, e)
    ensures fresh(w.mRoomKeeper.mIdRoom.Values - old(w.mRoomKeeper.mIdRoom.Values))
    ensures fresh(w.mRoomKeeper.mIdUser.Values - old(w.mRoomKeeper.mIdUser.Values))
    ensures Appended(old(w.mQueue.mSends), w.mQueue.mSends, OnWire(KeeperRuns.Sends(k, e)))
  {
    hide NextState, KeeperRuns.Sends, EventFits, Aborts, Inv, ParseRequest, OnWire, Appended, Brings;
    var msg := MsgOf(a);
    assert w.Valid();
    assert w.Model() == k;
    assert w.mRoomKeeper.mIdRoom == old(w.mRoomKeeper.mIdRoom) && w.mRoomKeeper.mIdUser == old(w.mRoomKeeper.mIdUser);
    w.RecvMessage(msg, a.ip, a.port, a.conn, e);
  }

  method ServeOne(w: Worker, a: Arrival, ghost k: Keeper, ghost e: Event)
    requires w.Valid() && w.Model() == k && a.Readable() && e == a.AsEvent()
    requires Inv(k) && !Aborts(k, e) && EventFits(k, e)
    modifies w.mRoomKeeper, w.mRoomKeeper.mIdRoom.Values, w.mRoomKeeper.mIdUser.Values, w.mQueue
    ensures w.Valid() && w.Model() == NextState(k, e)
    ensures fresh(w.mRoomKeeper.mIdRoom.Values - old(w.mRoomKeeper.mIdRoom.Values))
    ensures fresh(w.mRoomKeeper.mIdUser.Values - old(w.mRoomKeeper.mIdUser.Values))
    ensures Appended(old(w.mQueue.mSends), w.mQueue.mSends, OnWire(KeeperRuns.Sends(k, e)))
  {
    hide NextState, KeeperRuns.Sends, EventFits, Aborts, Inv, ParseRequest, OnWire, Appended;
    if a.Frame? {
      ServeFrame(w, a, k, e);
    } else {
      w.HandleDropped(a.conn);
    }
  }

  /** The worker stands, and has queued, as the run of the events says. */
  ghost predicate Served(w: Worker, es: seq<Event>)
    reads w.mRoomKeeper, w.mRoomKeeper.mIdRoom.Values, w.mRoomKeeper.mIdUser.Values, w.mQueue
  {
    && Run(es).Some? && w.Valid() && w.Model() == Run(es).value.0
    && Appended([], w.mQueue.mSends, OnWire(Run(es).value.1))
  }

  method ServeNext(w: Worker, a: Arrival, ghost es: seq<Event>, ghost i: nat)
    requires |es| < 0xFFFF_FFFE && Run(es).Some? && RunFits(es) && i < |es|
    requires Served(w, es[..i]) && a.Readable() && a.AsEvent() == es[i]
    modifies w.mRoomKeeper, w.mRoomKeeper.mIdRoom.Values, w.mRoomKeeper.mIdUser.Values, w.mQueue
    ensures Served(w, es[..i + 1])
    ensures fresh(w.mRoomKeeper.mIdRoom.Values - old(w.mRoomKeeper.mIdRoom.Values))
    ensures fresh(w.mRoomKeeper.mIdUser.Values - old(w.mRoomKeeper.mIdUser.Values))
  {
    RunStep(es, i);
    hide NextState, KeeperRuns.Sends, EventFits, Aborts, Inv, ParseRequest, OnWire, Appended, Run;
    ghost var (k, log) := Run(es[..i]).value;
    ghost var q := w.mQueue.mSends;
    ServeOne(w, a, k, es[i]);
    AppendedSends([], q, w.mQueue.mSends, log, KeeperRuns.Sends(k, es[i]));
  }

  /** Whatever frames and drops reach the worker: decoding, handling and answering them one after another
      is exactly the specification's run of the events they stand for. */
  method Serve(arrivals: seq<Arrival>) returns (w: Worker)
    requires |arrivals| < 0xFFFF_FFFE && forall a | a in arrivals :: a.Readable()
    requires Run(EventsOf(arrivals)).Some? && RunFits(EventsOf(arrivals))
    ensures fresh(w) && w.Valid() && w.Model() == Run(EventsOf(arrivals)).value.0
    ensures Appended([], w.mQueue.mSends, OnWire(Run(EventsOf(arrivals)).value.1))
  {
    w := new Worker();
    ghost var es := EventsOf(arrivals);
    assert Run(es[..0]) == Some((Initial(), [])) && OnWire([]) == [];
    assert Served(w, es[..0]);
    {
      hide Served, RunFits, Run;
      for i := 0 to |arrivals|
        invariant fresh(w) && fresh(w.mRoomKeeper) && fresh(w.mQueue)
        invariant fresh(w.mRoomKeeper.mIdRoom.Values) && fresh(w.mRoomKeeper.mIdUser.Values)
        invariant Served(w, es[..i])
      {
        assert arrivals[i] in arrivals && arrivals[i].AsEvent() == es[i];
        ServeNext(w, arrivals[i], es, i);
      }
    }
    assert es[..|arrivals|] == es;
  }
}
