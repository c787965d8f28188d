/** The client's side of the protocol: what each received message does to the objects it keeps. */
module ChatClient {
  import opened Octets
  import opened Codec
  import opened MsgBuffer
  import opened Chat
  import opened Structs
  import opened KeeperSpec
  import opened ReplicaSpec
  import opened RoomKeeping
  import opened Display
  import opened Commands
  import opened InputParsing

  lemma {:induction false} InsertUsersStep(m: map<u64, UserRec>, n: nat, b: bytes)
    requires n > 0 && TakeUsers(n, b).Some?
    ensures TakeUser(b).Some?
    ensures var (u, tail) := TakeUser(b).value;
            TakeUsers(n - 1, tail).Some?
            && InsertUsers(m, TakeUsers(n, b).value.0) ==
                InsertUsers(InsertNew(m, u.id, u), TakeUsers(n - 1, tail).value.0)
  {
    var (u, tail) := TakeUser(b).value;
    assert TakeUsers(n, b).value.0[1..] == TakeUsers(n - 1, tail).value.0;
  }

  lemma {:induction false} InsertRoomsStep(m: map<u32, RoomRec>, n: nat, b: bytes)
    requires n > 0 && TakeRooms(n, b).Some?
    ensures TakeRoom(b).Some? && TakeRoom(b).value.0 == Public(TakeRoom(b).value.0)
    ensures var (r, tail) := TakeRoom(b).value;
            TakeRooms(n - 1, tail).Some?
            && InsertRooms(m, TakeRooms(n, b).value.0) ==
                InsertRooms(InsertNew(m, r.id, r), TakeRooms(n - 1, tail).value.0)
  {
    var (r, tail) := TakeRoom(b).value;
    assert TakeRooms(n, b).value.0[1..] == TakeRooms(n - 1, tail).value.0;
  }

  lemma {:induction false} NoneLeft(rooms: map<u32, RoomRec>, users: map<u64, UserRec>, b: bytes)
    ensures TakeRooms(0, b) == Some(([], b)) && InsertRooms(rooms, []) == rooms
    ensures TakeUsers(0, b) == Some(([], b)) && InsertUsers(users, []) == users
  {
  }

  /** What the client asks of the server when it handles a message of type t: leaving a room is joining HALL,
      and a whisper typed here goes on under the server's type. */
  function Asks(roomName: bytes, t: i32, tail: bytes): Option<Request> {
    if t == LOCAL_LEAVE_ROOM then (if roomName == HallName() then None else Some(Join(HallName(), [])))
    else if t == LOCAL_WHISPER_MSG then
      match TakePair(tail)
      case None => None
      case Some((to, words)) => Some(Whisper(to, words))
    else None
  }

  /** A local whisper can be read, and fits its new message. */
  predicate Relayable(payload: bytes) {
    match TakeField(KI32, payload)
    case None => true
    case Some((t, tail)) =>
      t.i == LOCAL_WHISPER_MSG ==>
        match TakePair(tail)
        case None => false
        case Some((to, words)) => Writable(FreshShape(), Whisper(to, words).Fields())
  }

  function Outgoing(conn: u64, r: Option<Request>): seq<Wire> {
    match r
    case None => []
    case Some(request) => [Wire(conn, request.Encode())]
  }

  /** What handling a whole payload sends. */
  function OutgoingFor(conn: u64, roomName: bytes, payload: bytes): seq<Wire> {
    match TakeField(KI32, payload)
    case None => []
    case Some((t, tail)) => Outgoing(conn, Asks(roomName, t.i, tail))
  }

  /** In HALL, leaving the room stops the client. */
  predicate StopsOn(roomName: bytes, payload: bytes) {
    match TakeField(KI32, payload)
    case None => false
    case Some((t, _)) => t.i == LOCAL_LEAVE_ROOM && roomName == HallName()
  }

  /** What a typed line makes the client do: ask the server, pass a local message to itself, warn, help, stop. */
  datatype Action = Ask(request: Request) | Keep(fields: seq<Field>) | Warn(reason: bytes) | Help | Stop

  /** A line that is no command is chat, whatever it looks like, and goes out as it was typed. */
  function Meant(line: bytes, roomId: u32, roomName: bytes): Action {
    match ParseLine(line)
    case NoCommand => Ask(Publish(roomId, line))
    case Invalid(reason) => Warn(reason)
    case Bare(kind) => if kind == CmdExit then Stop else Help
    case Local(fields) => if fields == [I32(LOCAL_LEAVE_ROOM)] && roomName == HallName() then Stop else Keep(fields)
    case Remote(request) => Ask(request)
  }

  function Warned(a: Action): seq<Shown> {
    match a
    case Warn(reason) => [Notice(reason)]
    case Help => HelpLines()
    case _ => []
  }

  function Asked(conn: u64, a: Action): seq<Wire> {
    if a.Ask? then [Wire(conn, a.request.Encode())] else []
  }

  function Kept(conn: u64, a: Action): seq<Wire> {
    if a.Keep? then [Wire(conn, EncodeAll(a.fields))] else []
  }

  /** Whatever the line makes the client write fits its message. */
  predicate LineFits(line: bytes, roomId: u32) {
    && (var s := Skip(line); s != [] && s[0] == SLASH ==> WhisperFits(s[1..]))
    && (ParseLine(line).NoCommand? ==> Writable(FreshShape(), Publish(roomId, line).Fields()))
  }

  class Client {
    const mUserName: bytes
    const mUser: User
    const mCurrentRoom: Room
    var mRooms: map<u32, Room>
    var mOnlines: map<u64, User>
    var mExited: bool
    /** Whether the window goes on. */
    var mCdkRunning: bool
    /** What was put into the window. */
    var mShown: seq<Shown>
    const mConnId: u64
    const mInputParser: InputParser
    const mNetService: SendQueue
    /** What the client gave the network service to pass back to it: its own local messages. */
    const mOwn: SendQueue

    /** The client's own record and current room are not among the objects it lists. */
    ghost predicate Valid()
      reads this`mOnlines, this`mRooms
    {
      mUser !in mOnlines.Values && mCurrentRoom !in mRooms.Values && mOwn != mNetService
    }

    ghost function View(): Replica
      reads this`mExited, this`mRooms, this`mOnlines, mUser, mCurrentRoom, mRooms.Values, mOnlines.Values
    {
      Replica(mExited, mUser.View(), RoomViews(), mCurrentRoom.View(), OnlineViews())
    }

    ghost function RoomViews(): map<u32, RoomRec>
      reads this`mRooms, mRooms.Values
    {
      map i | i in mRooms :: mRooms[i].View()
    }

    ghost function OnlineViews(): map<u64, UserRec>
      reads this`mOnlines, mOnlines.Values
    {
      map u | u in mOnlines :: mOnlines[u].View()
    }

    constructor (userName: bytes, connId: u64, netService: SendQueue)
      ensures Valid() && View() == Start() && mCdkRunning && mShown == []
      ensures mUserName == userName && mConnId == connId && mNetService == netService
      ensures fresh(mUser) && fresh(mCurrentRoom)
    {
      mUser := new User([], [], 0, 0);
      mCurrentRoom := new Room(INVALID_ROOM_ID, [], []);
      mRooms, mOnlines, mExited, mCdkRunning := map[], map[], false, true;
      mUserName, mConnId, mNetService, mShown := userName, connId, netService, [];
      mInputParser := new InputParser();
      mOwn := new SendQueue();
    }

    method DecodeSelf(msg: Msg)
      requires Valid() && msg.Valid() && TakeUser(msg.Unread()).Some?
      modifies mUser, msg`mReadOffset
      ensures Valid() && View() == old(View()).(user := TakeUser(old(msg.Unread())).value.0)
    {
      mUser.Decode(msg);
    }

    method HandleLogonRes(msg: Msg)
      requires Valid() && !mExited && msg.Valid() && ReceiveLogonRes(View(), msg.Unread()).Some?
      modifies this`mExited, mUser, msg`mReadOffset
      ensures Valid() && Some(View()) == ReceiveLogonRes(old(View()), old(msg.Unread()))
    {
      hide TakeUser;
      LogonResKinds(msg.Unread());
      var fs := ReadAll(msg, LOGON_RES_KINDS);
      if fs[0].i == 0 {
        DecodeSelf(msg);
      } else {
        Exit();
      }
    }

    /** The program exits when its logon is refused. */
    method Exit()
      requires Valid()
      modifies this`mExited
      ensures Valid() && View() == old(View()).(exited := true)
    {
      mExited := true;
    }

    method InsertOnline(user: User)
      requires Valid() && user != mUser
      modifies this`mOnlines
      ensures Valid() && OnlineViews() == InsertNew(old(OnlineViews()), user.mID, user.View())
    {
      mOnlines := InsertNew(mOnlines, user.mID, user);
    }

    method InsertRoom(room: Room)
      requires Valid() && room != mCurrentRoom
      modifies this`mRooms
      ensures Valid() && RoomViews() == InsertNew(old(RoomViews()), room.mID, room.View())
    {
      mRooms := InsertNew(mRooms, room.mID, room);
    }

    method DecodeOnline(msg: Msg)
      requires Valid() && msg.Valid() && TakeUser(msg.Unread()).Some?
      modifies this`mOnlines, msg`mReadOffset
      ensures Valid() && msg.Valid() && msg.Unread() == TakeUser(old(msg.Unread())).value.1
      ensures var u := TakeUser(old(msg.Unread())).value.0;
              OnlineViews() == InsertNew(old(OnlineViews()), u.id, u)
    {
      hide TakeUser, InsertNew;
      var user := new User([], [], 0, 0);
      user.Decode(msg);
      InsertOnline(user);
    }

    method DecodeRoom(msg: Msg)
      requires Valid() && msg.Valid() && TakeRoom(msg.Unread()).Some?
      modifies this`mRooms, msg`mReadOffset
      ensures Valid() && msg.Valid() && msg.Unread() == TakeRoom(old(msg.Unread())).value.1
      ensures var r := TakeRoom(old(msg.Unread())).value.0;
              RoomViews() == InsertNew(old(RoomViews()), r.id, r)
    {
      hide InsertNew;
      var room := new Room(INVALID_ROOM_ID, [], []);
      ghost var r := TakeRoom(msg.Unread()).value.0;
      room.Decode(msg);
      assert {} + r.users == r.users;
      assert room.View() == r;
      assert RoomViews() == old(RoomViews());
      InsertRoom(room);
    }

    method DecodeOnlines(count: u32, msg: Msg)
      requires Valid() && msg.Valid() && TakeUsers(count, msg.Unread()).Some?
      modifies this`mOnlines, msg`mReadOffset
      ensures Valid() && msg.Valid()
      ensures OnlineViews() == InsertUsers(old(OnlineViews()), TakeUsers(count, old(msg.Unread())).value.0)
    {
      ghost var all := InsertUsers(OnlineViews(), TakeUsers(count, msg.Unread()).value.0);
      hide TakeUsers, TakeUser, InsertUsers, InsertNew;
      for i := 0 to count
        invariant Valid() && msg.Valid() && TakeUsers(count - i, msg.Unread()).Some?
        invariant InsertUsers(OnlineViews(), TakeUsers(count - i, msg.Unread()).value.0) == all
      {
        InsertUsersStep(OnlineViews(), count - i, msg.Unread());
        DecodeOnline(msg);
      }
      NoneLeft(RoomViews(), OnlineViews(), msg.Unread());
    }

    /** The room's member set is only ever inserted into; the list of users is rebuilt. */
    method ParseRoomInfo(msg: Msg)
      requires Valid() && msg.Valid() && ReceiveRoomInfo(View(), msg.Unread()).Some?
      modifies this`mOnlines, mUser, mCurrentRoom, msg`mReadOffset
      ensures Valid() && Some(View()) == ReceiveRoomInfo(old(View()), old(msg.Unread()))
    {
      hide TakeRoom, TakeUsers;
      DecodeCurrentRoom(msg);
      var count := msg.Read(KU32);
      DecodeOnlines(count.w, msg);
    }

    method DecodeCurrentRoom(msg: Msg)
      requires Valid() && msg.Valid() && TakeRoom(msg.Unread()).Some?
      modifies this`mOnlines, mUser, mCurrentRoom, msg`mReadOffset
      ensures Valid() && msg.Valid() && msg.Unread() == TakeRoom(old(msg.Unread())).value.1
      ensures View() == ShowRoom(old(View()), TakeRoom(old(msg.Unread())).value.0, [])
    {
      assert InsertUsers(map[], []) == map[];
      hide TakeRoom, InsertUsers;
      ClearOnlines();
      DecodeHere(msg);
    }

    /** The current room and the own record of where it is. */
    method DecodeHere(msg: Msg)
      requires Valid() && msg.Valid() && TakeRoom(msg.Unread()).Some?
      modifies mUser, mCurrentRoom, msg`mReadOffset
      ensures Valid() && msg.Valid() && msg.Unread() == TakeRoom(old(msg.Unread())).value.1
      ensures var room := TakeRoom(old(msg.Unread())).value.0;
              var was := old(View());
              View() == was.(current := was.current.(id := room.id, name := room.name,
                                                     users := was.current.users + room.users),
                             user := was.user.(roomId := room.id))
    {
      hide TakeRoom;
      mCurrentRoom.Decode(msg);
      mUser.SetRoomId(mCurrentRoom.mID);
      assert RoomViews() == old(RoomViews()) && OnlineViews() == old(OnlineViews());
    }

    method ClearOnlines()
      requires Valid()
      modifies this`mOnlines
      ensures Valid() && OnlineViews() == map[] && RoomViews() == old(RoomViews())
    {
      mOnlines := map[];
    }

    method DecodeRooms(count: u32, msg: Msg)
      requires Valid() && msg.Valid() && TakeRooms(count, msg.Unread()).Some?
      modifies this`mRooms, msg`mReadOffset
      ensures Valid() && msg.Valid()
      ensures RoomViews() == InsertRooms(old(RoomViews()), TakeRooms(count, old(msg.Unread())).value.0)
    {
      ghost var all := InsertRooms(RoomViews(), TakeRooms(count, msg.Unread()).value.0);
      hide TakeRooms, TakeRoom, InsertRooms, InsertNew;
      for i := 0 to count
        invariant Valid() && msg.Valid() && TakeRooms(count - i, msg.Unread()).Some?
        invariant InsertRooms(RoomViews(), TakeRooms(count - i, msg.Unread()).value.0) == all
      {
        InsertRoomsStep(RoomViews(), count - i, msg.Unread());
        DecodeRoom(msg);
      }
      NoneLeft(RoomViews(), OnlineViews(), msg.Unread());
    }

    method HandleUpdateRoomList(msg: Msg)
      requires Valid() && msg.Valid() && ReceiveRoomList(View(), msg.Unread()).Some?
      modifies this`mRooms, msg`mReadOffset
      ensures Valid() && Some(View()) == ReceiveRoomList(old(View()), old(msg.Unread()))
    {
      var count := msg.Read(KU32);
      mRooms := map[];
      DecodeRooms(count.w, msg);
      assert OnlineViews() == old(OnlineViews());
    }

    // ------------------------------------------------------------ what only shows text

    method DisplaySystemMessage(info: bytes)
      modifies this`mShown
      ensures mShown == old(mShown) + [Notice(info)]
    {
      mShown := mShown + [Notice(info)];
    }

    method ReceiveChatMessage(msg: Msg)
      requires msg.Valid() && TakePair(msg.Unread()).Some?
      modifies this`mShown, msg`mReadOffset
      ensures var (from, words) := TakePair(old(msg.Unread())).value;
              mShown == old(mShown) + [Line(from, words, from == mUserName)]
    {
      var from, words := ReadPair(msg);
      var isSelf := if from == mUserName then true else false;
      mShown := mShown + [Line(from, words, isSelf)];
    }

    method HandleCreateRoomRes(msg: Msg)
      requires msg.Valid() && TakeVerdict(msg.Unread()).Some?
      modifies this`mShown, msg`mReadOffset
      ensures var (err, reason, name) := TakeVerdict(old(msg.Unread())).value;
              mShown == old(mShown) + [CreateNotice(err, reason, name)]
    {
      var err, errstr, roomName := ReadVerdict(msg);
      hide Text;
      if err == 0 {
        DisplaySystemMessage(Text("create room ") + roomName + Text(" succeed!"));
      } else {
        DisplaySystemMessage(Text("create room ") + roomName + Text(" failed! reason: ") + errstr);
      }
    }

    method HandleJoinRoomRes(msg: Msg)
      requires msg.Valid() && TakeVerdict(msg.Unread()).Some?
      modifies this`mShown, msg`mReadOffset
      ensures var (err, reason, name) := TakeVerdict(old(msg.Unread())).value;
              mShown == old(mShown) + [JoinNotice(err, reason, name)]
    {
      var err, errstr, roomName := ReadVerdict(msg);
      hide Text;
      if err != 0 {
        DisplaySystemMessage(Text("join room ") + roomName + Text(" failed: ") + errstr);
      } else {
        DisplaySystemMessage(Text("join room ") + roomName + Text(" success!"));
      }
    }

    method HandleWhisperMessage(msg: Msg)
      requires msg.Valid() && TakePair(msg.Unread()).Some?
      modifies this`mShown, msg`mReadOffset
      ensures var (from, words) := TakePair(old(msg.Unread())).value;
              mShown == old(mShown) + [PairShown(mUserName, S2C_WHISPER_MSG, from, words)]
    {
      var from, words := ReadPair(msg);
      hide Text;
      DisplaySystemMessage(Text("recv whisper fr ") + from + Text(": ") + words);
    }

    method HandleWhisperFailed(msg: Msg)
      requires msg.Valid() && TakePair(msg.Unread()).Some?
      modifies this`mShown, msg`mReadOffset
      ensures var (to, reason) := TakePair(old(msg.Unread())).value;
              mShown == old(mShown) + [PairShown(mUserName, S2C_WHISPER_MSG_FAILED, to, reason)]
    {
      var to, reason := ReadPair(msg);
      hide Text;
      DisplaySystemMessage(Text("send whisper to ") + to + Text(" failed, reason: ") + reason);
    }

    method ShowRoomList()
      modifies this`mShown
      ensures mShown == old(mShown) + RoomListing(RoomViews())
    {
      hide Text, Decimal, RoomText, RoomNotices, Ascending;
      var count := Text("Total room count: ") + Decimal(|mRooms|);
      SameCount(mRooms, RoomViews());
      DisplaySystemMessage(count);
      ShowRooms(Ascending(mRooms.Keys));
      Associative(old(mShown), [Notice(count)], RoomNotices(RoomViews(), Ascending(mRooms.Keys)));
    }

    method ShowRooms(ids: seq<u64>)
      requires forall i | i in ids :: i < 0x1_0000_0000 && i in mRooms
      modifies this`mShown
      ensures mShown == old(mShown) + RoomNotices(RoomViews(), ids)
    {
      hide Text, Decimal, RoomText;
      ghost var all := RoomNotices(RoomViews(), ids);
      for i := 0 to |ids|
        invariant mShown == old(mShown) + all[..i]
      {
        assert ids[i] in ids;
        var room := mRooms[ids[i]];
        DisplaySystemMessage(RoomText(room.View()));
      }
    }

    /** The messages that show text. */
    method HandleText(t: i32, msg: Msg)
      requires msg.Valid() && t != LOCAL_WHISPER_MSG && ShowsTyped(mUserName, RoomViews(), t, msg.Unread()).Some?
      modifies this`mShown, msg`mReadOffset
      ensures mShown == old(mShown) + ShowsTyped(mUserName, RoomViews(), t, old(msg.Unread())).value
    {
      if t == S2C_ROOM_CHAT_MSG {
        ReceiveChatMessage(msg);
      } else if t == S2C_CREATE_ROOM_RES {
        HandleCreateRoomRes(msg);
      } else if t == S2C_JOIN_ROOM_RES {
        HandleJoinRoomRes(msg);
      } else if t == LOCAL_LIST_ROOM {
        ShowRoomList();
      } else if t == S2C_WHISPER_MSG {
        HandleWhisperMessage(msg);
      } else if t == S2C_WHISPER_MSG_FAILED {
        HandleWhisperFailed(msg);
      }
    }

    method ShowHelpInfo()
      modifies this`mShown
      ensures mShown == old(mShown) + HelpLines()
    {
      hide Text;
      DisplaySystemMessage(Text("CRClient currently support this commands"));
      DisplaySystemMessage(Text(" command list:"));
      DisplaySystemMessage(Text(" /h            show help info\n"));
      DisplaySystemMessage(Text(" /c room       create room"));
      DisplaySystemMessage(Text(" /j room       join room\n"));
      DisplaySystemMessage(Text(" /w username msg whisper to user"));
      DisplaySystemMessage(Text(" /q            exit room, exit HALL--> exit program"));
      DisplaySystemMessage(Text(" /e         exit program"));
      DisplaySystemMessage(Text(" /i         show current info"));
      DisplaySystemMessage(Text(" /l [room,user] list room or user info"));
    }

    // ------------------------------------------------------------ local commands

    method SendMessage(msg: Msg)
      requires msg.Valid()
      modifies mNetService
      ensures mNetService.mSends == old(mNetService.mSends) + [Packet(mConnId, msg.Frame())]
    {
      mNetService.Enqueue(mConnId, msg);
    }

    method SendRequest(request: Request)
      requires Writable(FreshShape(), request.Fields())
      modifies mNetService
      ensures Appended(old(mNetService.mSends), mNetService.mSends, [Wire(mConnId, request.Encode())])
    {
      var send := NewMsg(request.Fields());
      SendMessage(send);
    }

    /** A whisper typed here is shown and encoded anew for the server, target and words unchanged. */
    method HandleLocalWhisperMsg(msg: Msg)
      requires msg.Valid() && TakePair(msg.Unread()).Some?
      requires var (to, words) := TakePair(msg.Unread()).value;
               Writable(FreshShape(), Whisper(to, words).Fields())
      modifies this`mShown, msg`mReadOffset, mNetService
      ensures var (to, words) := TakePair(old(msg.Unread())).value;
              && mShown == old(mShown) + [PairShown(mUserName, LOCAL_WHISPER_MSG, to, words)]
              && Appended(old(mNetService.mSends), mNetService.mSends, [Wire(mConnId, Whisper(to, words).Encode())])
    {
      var to, words := ReadPair(msg);
      hide Text;
      DisplaySystemMessage(Text("send whisper to ") + to + Text(": ") + words);
      SendRequest(Whisper(to, words));
    }

    /** Leaving a room is joining HALL; in HALL the client stops instead. */
    method HandleLeaveRoom()
      modifies this`mCdkRunning, mNetService
      ensures mCdkRunning == (old(mCdkRunning) && mCurrentRoom.mName != HallName())
      ensures Appended(old(mNetService.mSends), mNetService.mSends,
                       if mCurrentRoom.mName == HallName() then [] else [Wire(mConnId, Join(HallName(), []).Encode())])
    {
      if mCurrentRoom.mName == HallName() {
        mCdkRunning := false;
      } else {
        HallFits();
        SendRequest(Join(HallName(), []));
      }
    }

    method SendLogon()
      requires Writable(FreshShape(), Logon(mUserName).Fields())
      modifies mNetService
      ensures Appended(old(mNetService.mSends), mNetService.mSends, [Wire(mConnId, Logon(mUserName).Encode())])
    {
      SendRequest(Logon(mUserName));
    }

    // ------------------------------------------------------------ typed lines

    /** A typed line does what it means; where the parser would read past its end, nothing is said. */
    method HandleInput(input: bytes) returns (overran: bool)
      requires Valid() && CString(input) && LineFits(From(input, 0), mCurrentRoom.mID)
      modifies this`mCdkRunning, this`mShown, mNetService, mOwn
      ensures overran <==> LineOverruns(From(input, 0))
      ensures var a := Meant(From(input, 0), mCurrentRoom.mID, mCurrentRoom.mName);
              !overran ==>
                && mCdkRunning == (old(mCdkRunning) && a != Stop)
                && mShown == old(mShown) + Warned(a)
                && Appended(old(mNetService.mSends), mNetService.mSends, Asked(mConnId, a))
                && Appended(old(mOwn.mSends), mOwn.mSends, Kept(mConnId, a))
    {
      hide Skip, Parse, WhisperFits, Writable, FreshShape, LineOverruns, EncodeAll, HallName;
      var cmd := new Cmd();
      var parsed;
      parsed, overran := mInputParser.ParseInput(input, cmd);
      if overran {
        return;
      }
      if parsed {
        HandleCommand(From(input, 0), cmd);
      } else {
        SendRequest(Publish(mCurrentRoom.mID, From(input, 0)));
      }
    }

    /** A parsed command. */
    method HandleCommand(ghost line: bytes, cmd: Cmd)
      requires cmd.Shows(true, ParseLine(line)) && mOwn != mNetService
      modifies this`mCdkRunning, this`mShown, mNetService, mOwn
      ensures var a := Meant(line, mCurrentRoom.mID, mCurrentRoom.mName);
              && mCdkRunning == (old(mCdkRunning) && a != Stop)
              && mShown == old(mShown) + Warned(a)
              && Appended(old(mNetService.mSends), mNetService.mSends, Asked(mConnId, a))
              && Appended(old(mOwn.mSends), mOwn.mSends, Kept(mConnId, a))
    {
      hide ParseLine, EncodeAll, HallName;
      if cmd.mInvalid {
        DisplaySystemMessage(cmd.mErrStr);
      } else if cmd.mLocalCmd {
        if (cmd.mType == CmdLeaveRoom && mCurrentRoom.mName == HallName()) || cmd.mType == CmdExit {
          mCdkRunning := false;
        } else if cmd.mType == CmdHelp {
          ShowHelpInfo();
        } else {
          mOwn.Enqueue(mConnId, cmd.mMsg);
        }
      } else {
        SendMessage(cmd.mMsg);
      }
    }

    /** The commands of its own that make the client ask the server for something. */
    method HandleLocal(t: i32, msg: Msg)
      requires msg.Valid() && (t == LOCAL_LEAVE_ROOM || t == LOCAL_WHISPER_MSG)
      requires t == LOCAL_WHISPER_MSG ==> TakePair(msg.Unread()).Some? &&
                                          var (to, words) := TakePair(msg.Unread()).value;
                                          Writable(FreshShape(), Whisper(to, words).Fields())
      modifies this`mCdkRunning, this`mShown, msg`mReadOffset, mNetService
      ensures mCdkRunning == (old(mCdkRunning) && !(t == LOCAL_LEAVE_ROOM && mCurrentRoom.mName == HallName()))
      ensures var shown := ShowsTyped(mUserName, RoomViews(), t, old(msg.Unread()));
              shown.Some? && mShown == old(mShown) + shown.value
      ensures Appended(old(mNetService.mSends), mNetService.mSends,
                       Outgoing(mConnId, Asks(mCurrentRoom.mName, t, old(msg.Unread()))))
    {
      if t == LOCAL_LEAVE_ROOM {
        HandleLeaveRoom();
      } else {
        HandleLocalWhisperMsg(msg);
      }
    }

    /** The messages that rebuild the replica. */
    method HandleRemote(t: i32, msg: Msg)
      requires Valid() && !mExited && msg.Valid() && ReceiveTyped(View(), t, msg.Unread()).Some?
      modifies this`mExited, this`mOnlines, this`mRooms, mUser, mCurrentRoom, msg`mReadOffset
      ensures Valid() && Some(View()) == ReceiveTyped(old(View()), t, old(msg.Unread()))
    {
      if t == S2C_LOGON_RES {
        HandleLogonRes(msg);
      } else if t == S2C_ROOM_INFO {
        ParseRoomInfo(msg);
      } else if t == S2C_ROOM_LIST {
        HandleUpdateRoomList(msg);
      }
    }

    /** One message changes the client's objects exactly as the replica's fold says, adds to the window what it
        shows, and sends exactly what a local command asks for. */
    method RecvMessage(msg: Msg)
      requires Valid() && !mExited && msg.Valid() && Receive(View(), msg.Unread()).Some? && Relayable(msg.Unread())
      requires Shows(mUserName, RoomViews(), msg.Unread()).Some?
      modifies this`mExited, this`mOnlines, this`mRooms, this`mCdkRunning, this`mShown, mUser, mCurrentRoom
      modifies msg`mReadOffset, mNetService
      ensures Valid() && Some(View()) == Receive(old(View()), old(msg.Unread()))
      ensures mShown == old(mShown) + Shows(mUserName, old(RoomViews()), old(msg.Unread())).value
      ensures mCdkRunning == (old(mCdkRunning) && !StopsOn(old(mCurrentRoom.mName), old(msg.Unread())))
      ensures Appended(old(mNetService.mSends), mNetService.mSends,
                       OutgoingFor(mConnId, old(mCurrentRoom.mName), old(msg.Unread())))
    {
      hide TakeField, ReceiveTyped, ShowsTyped, Asks, Appended, HallName;
      var msgType := msg.Read(KI32);
      assert View() == old(View()) && RoomViews() == old(RoomViews());
      HandleTyped(msgType.i, msg);
    }

    /** The switch on the message type. */
    method HandleTyped(t: i32, msg: Msg)
      requires Valid() && !mExited && msg.Valid() && ReceiveTyped(View(), t, msg.Unread()).Some?
      requires ShowsTyped(mUserName, RoomViews(), t, msg.Unread()).Some?
      requires t == LOCAL_WHISPER_MSG ==> TakePair(msg.Unread()).Some? &&
                                          var (to, words) := TakePair(msg.Unread()).value;
                                          Writable(FreshShape(), Whisper(to, words).Fields())
      modifies this`mExited, this`mOnlines, this`mRooms, this`mCdkRunning, this`mShown, mUser, mCurrentRoom
      modifies msg`mReadOffset, mNetService
      ensures Valid() && Some(View()) == ReceiveTyped(old(View()), t, old(msg.Unread()))
      ensures mShown == old(mShown) + ShowsTyped(mUserName, old(RoomViews()), t, old(msg.Unread())).value
      ensures mCdkRunning == (old(mCdkRunning) && !(t == LOCAL_LEAVE_ROOM && old(mCurrentRoom.mName) == HallName()))
      ensures Appended(old(mNetService.mSends), mNetService.mSends,
                       Outgoing(mConnId, Asks(old(mCurrentRoom.mName), t, old(msg.Unread()))))
    {
      AppendedNothing(mNetService.mSends);
      TypesApart(View(), mUserName, RoomViews(), mCurrentRoom.mName, t, msg.Unread());
      hide ReceiveTyped, ShowsTyped, Asks, Appended, HallName, Writable, FreshShape;
      if t == LOCAL_LEAVE_ROOM || t == LOCAL_WHISPER_MSG {
        HandleLocal(t, msg);
      } else {
        HandleOther(t, msg);
      }
    }

    /** The types that ask nothing of the server. */
    method HandleOther(t: i32, msg: Msg)
      requires Valid() && !mExited && msg.Valid() && ReceiveTyped(View(), t, msg.Unread()).Some?
      requires t != LOCAL_WHISPER_MSG && ShowsTyped(mUserName, RoomViews(), t, msg.Unread()).Some?
      modifies this`mExited, this`mOnlines, this`mRooms, this`mShown, mUser, mCurrentRoom, msg`mReadOffset
      ensures Valid() && Some(View()) == ReceiveTyped(old(View()), t, old(msg.Unread()))
      ensures mShown == old(mShown) + ShowsTyped(mUserName, old(RoomViews()), t, old(msg.Unread())).value
    {
      TypesApart(View(), mUserName, RoomViews(), mCurrentRoom.mName, t, msg.Unread());
      hide ReceiveTyped, ShowsTyped;
      if t == S2C_LOGON_RES || t == S2C_ROOM_INFO || t == S2C_ROOM_LIST {
        HandleRemote(t, msg);
      } else {
        HandleText(t, msg);
      }
    }
  }

  /** No message type does two of these: change the replica, show text, ask the server; but a local whisper
      shows text too. */
  lemma {:induction false} TypesApart(c: Replica, me: bytes, rooms: map<u32, RoomRec>, roomName: bytes, t: i32,
      tail: bytes)
    ensures t !in {S2C_LOGON_RES, S2C_ROOM_INFO, S2C_ROOM_LIST} ==> ReceiveTyped(c, t, tail) == Some(c)
    ensures t in {S2C_LOGON_RES, S2C_ROOM_INFO, S2C_ROOM_LIST} ==> ShowsTyped(me, rooms, t, tail) == Some([])
    ensures t !in {LOCAL_LEAVE_ROOM, LOCAL_WHISPER_MSG} ==> Asks(roomName, t, tail) == None
  {
  }

  lemma {:induction false} SameCount<K, A, B>(m: map<K, A>, n: map<K, B>)
    requires m.Keys == n.Keys
    ensures |m| == |n|
  {
    assert |m| == |m.Keys| && |n| == |n.Keys|;
  }

  method ReadPair(msg: Msg) returns (a: bytes, b: bytes)
    requires msg.Valid() && TakePair(msg.Unread()).Some?
    modifies msg`mReadOffset
    ensures Some((a, b)) == TakePair(old(msg.Unread()))
  {
    PairKinds(msg.Unread());
    var fs := ReadAll(msg, PAIR_KINDS);
    a, b := fs[0].s, fs[1].s;
  }

  method ReadVerdict(msg: Msg) returns (err: i32, reason: bytes, roomName: bytes)
    requires msg.Valid() && TakeVerdict(msg.Unread()).Some?
    modifies msg`mReadOffset
    ensures Some((err, reason, roomName)) == TakeVerdict(old(msg.Unread()))
  {
    VerdictKinds(msg.Unread());
    var fs := ReadAll(msg, VERDICT_KINDS);
    err, reason, roomName := fs[0].i, fs[1].s, fs[2].s;
  }

  lemma {:induction false} HallFits()
    ensures Writable(FreshShape(), Join(HallName(), []).Fields())
  {
    var fs := [I32(C2S_JOIN_ROOM), Str(HallName()), Str([])];
    assert |fs[0].Bytes()| == 4 && |fs[1].Bytes()| == 12 && |fs[2].Bytes()| == 8;
    hide EncodeAll, Text, HallName, Writable, FreshShape;
    EncodeThree(fs[0], fs[1], fs[2]);
    SmallIsWritable(fs);
  }
}
