/** Lines typed at a client that shows the server's state: what they do to the server and to all windows. */
module Typing {
  import opened Octets
  import opened Codec
  import opened Chat
  import opened Commands
  import opened KeeperSpec
  import opened ReplicaSpec
  import opened Coherence
  import opened KeeperRuns
  import opened Delivery
  import opened RoomKeeping
  import opened Display
  import opened ChatClient

  /** The client of a logged-on user, showing its state. */
  ghost predicate Current(k: Keeper, c: Replica, conn: u64) {
    Inv(k) && conn in k.users && Coherent(k, c, conn) && !c.exited
  }

  lemma {:induction false} ShowsOwnRoom(k: Keeper, c: Replica, conn: u64)
    requires Current(k, c, conn)
    ensures Inv(k)
    ensures var i := k.users[conn].roomId;
            i in k.rooms && c.current.id == i && c.current.name == k.rooms[i].name && conn in k.rooms[i].users
            && (c.current.name == HallName() <==> i == HALL_ID)
  {
  }

  // ---------------------------------------------------------------- chat

  /** A line that is no command shows, word for word and under the sender's name, once in the window of each
      member of the sender's room and in no other, and as the reader's own in the sender's window alone. */
  lemma {:induction false} ChatRouting(k: Keeper, c: Replica, conn: u64, ip: bytes, port: u16, line: bytes, v: u64,
      rooms: map<u32, RoomRec>)
    requires Current(k, c, conn) && v in k.users && ParseLine(line) == NoCommand
    requires ChatMsg(k.users[conn].name, line).Fits()
    ensures var said := Publish(c.current.id, line);
            var heard := To(ChatSends(k, conn, k.users[conn].roomId, line), v);
            && Meant(line, c.current.id, c.current.name) == Ask(said)
            && ParseRequest(said.Encode()) == Some(said)
            && !Aborts(k, Received(conn, ip, port, said))
            && To(Sends(k, Received(conn, ip, port, said)), v) == heard
            && if k.users[v].roomId != k.users[conn].roomId then heard == []
               else |heard| == 1 && Shows(k.users[v].name, rooms, heard[0].Encode()) ==
                                    Some([Line(k.users[conn].name, line, v == conn)])
  {
    ShowsOwnRoom(k, c, conn);
    hide Coherent, ParseLine, Shows, EncodeAll, ChatSends, ParseRequest;
    ChatShown(k, conn, line, v, rooms);
    SaidIsHeard(k.users[conn].roomId, line);
  }

  /** What a member's window shows of a chat message, and that nobody else hears it. */
  lemma {:induction false} ChatShown(k: Keeper, conn: u64, words: bytes, v: u64, rooms: map<u32, RoomRec>)
    requires Inv(k) && conn in k.users && v in k.users && ChatMsg(k.users[conn].name, words).Fits()
    ensures k.users[conn].roomId in k.rooms && Str(words).Storable()
    ensures var heard := To(ChatSends(k, conn, k.users[conn].roomId, words), v);
            if k.users[v].roomId != k.users[conn].roomId then heard == []
            else |heard| == 1 && Shows(k.users[v].name, rooms, heard[0].Encode()) ==
                                 Some([Line(k.users[conn].name, words, v == conn)])
  {
    var body := ChatMsg(k.users[conn].name, words);
    FitCounts(body);
    assert Str(words) in body.Fields();
    NamesApart(k, conn, v);
    hide Inv, Shows, EncodeAll, ChatSends;
    ChatReachesMembersOnce(k, conn, k.users[conn].roomId, words, v);
    ReplyReads(k.users[v].name, rooms, body);
  }

  lemma {:induction false} SaidIsHeard(roomId: u32, words: bytes)
    requires Str(words).Storable()
    ensures ParseRequest(Publish(roomId, words).Encode()) == Some(Publish(roomId, words))
  {
    RequestRoundTrip(Publish(roomId, words), []);
    Alone(Publish(roomId, words).Encode());
  }

  lemma {:induction false} NamesApart(k: Keeper, u: u64, v: u64)
    requires Inv(k) && u in k.users && v in k.users
    ensures k.users[u].name == k.users[v].name <==> u == v
    ensures k.users[u].roomId in k.rooms && (v in k.rooms[k.users[u].roomId].users <==>
                                             k.users[v].roomId == k.users[u].roomId)
  {
  }

  // ---------------------------------------------------------------- leaving

  /** `/q`, at the end of the line or before a space. */
  predicate LeaveLine(line: bytes) {
    var s := Skip(line);
    |s| >= 2 && s[0] == '/' as int && s[1] == 'q' as int && (|s| > 2 ==> s[2] == ' ' as int)
  }

  /** In HALL leaving stops the client. Elsewhere the client's own message comes back, makes it ask to join HALL,
      and the server moves the user there. */
  lemma {:induction false} LeaveRouting(k: Keeper, c: Replica, conn: u64, ip: bytes, port: u16, line: bytes)
    requires Current(k, c, conn) && LeaveLine(line)
    ensures var home := Join(HallName(), []);
            var kept := [I32(LOCAL_LEAVE_ROOM)];
            if k.users[conn].roomId == HALL_ID then Meant(line, c.current.id, c.current.name) == Stop
            else
              && Meant(line, c.current.id, c.current.name) == Keep(kept)
              && OutgoingFor(conn, c.current.name, EncodeAll(kept)) == [Wire(conn, home.Encode())]
              && ParseRequest(home.Encode()) == Some(home)
              && RoomsOf(NextState(k, Received(conn, ip, port, home)), conn) == {HALL_ID}
  {
    ShowsOwnRoom(k, c, conn);
    LeaveMeant(line, c.current.id, c.current.name);
    hide Current, Inv, Meant, LeaveLine, HallName, EncodeAll, OutgoingFor, NextState, RoomsOf, ParseRequest;
    if k.users[conn].roomId != HALL_ID {
      HallOpen(k, conn, ip, port);
      LeaveRelayed(conn, c.current.name);
    }
  }

  lemma {:induction false} LeaveRelayed(conn: u64, roomName: bytes)
    requires roomName != HallName()
    ensures OutgoingFor(conn, roomName, EncodeAll([I32(LOCAL_LEAVE_ROOM)])) ==
            [Wire(conn, Join(HallName(), []).Encode())]
    ensures ParseRequest(Join(HallName(), []).Encode()) == Some(Join(HallName(), []))
  {
    hide Text, EncodeAll, TakeField;
    assert [I32(LOCAL_LEAVE_ROOM)] + [] == [I32(LOCAL_LEAVE_ROOM)];
    TypedFirst(LOCAL_LEAVE_ROOM, []);
    RequestRoundTrip(Join(HallName(), []), []);
    Alone(Join(HallName(), []).Encode());
  }

  lemma {:induction false} LeaveMeant(line: bytes, roomId: u32, roomName: bytes)
    requires LeaveLine(line)
    ensures Meant(line, roomId, roomName) == if roomName == HallName() then Stop else Keep([I32(LOCAL_LEAVE_ROOM)])
  {
    hide HallName;
  }

  lemma {:induction false} HallOpen(k: Keeper, conn: u64, ip: bytes, port: u16)
    requires Inv(k) && conn in k.users && k.users[conn].roomId != HALL_ID
    ensures RoomsOf(NextState(k, Received(conn, ip, port, Join(HallName(), []))), conn) == {HALL_ID}
  {
    assert Joinable(k, HALL_ID, conn, HallName(), []);
    hide JoinState, RoomsOf, Joinable;
    JoinGrantedExactly(k, conn, HallName(), [], conn);
  }

  // ---------------------------------------------------------------- listing

  /** `/l` with `room` as its first token. */
  predicate ListLine(line: bytes) {
    var s := Skip(line);
    |s| >= 2 && s[0] == '/' as int && s[1] == 'l' as int &&
    var ts := Tokens(s[2..], []);
    ts != [] && ts[0] == Text("room")
  }

  function RoomLine(k: Keeper, c: Replica, i: u32): bytes
    requires i in k.rooms && i in c.rooms
  {
    Text(" room name: ") + k.rooms[i].name + Text(" room id: ") + Decimal(i)
    + Text(" user count: ") + Decimal(|c.rooms[i].users|)
  }

  /** The number of the server's rooms, and then each of them, in the order created, with its id, its name and
      the number of members in the client's list. */
  ghost predicate ListsRooms(k: Keeper, c: Replica, shown: seq<Shown>) {
    && |shown| == 1 + k.nextRoom && shown[0] == Notice(Text("Total room count: ") + Decimal(k.nextRoom))
    && forall i: u32 | i < k.nextRoom :: i in k.rooms && i in c.rooms && shown[1 + i] == Notice(RoomLine(k, c, i))
  }

  /** Listing asks the server nothing and shows its rooms. */
  lemma {:induction false} ListRouting(k: Keeper, c: Replica, conn: u64, line: bytes, me: bytes)
    requires Current(k, c, conn) && ListLine(line)
    ensures var kept := [I32(LOCAL_LIST_ROOM)];
            var shown := Shows(me, c.rooms, EncodeAll(kept));
            && Meant(line, c.current.id, c.current.name) == Keep(kept)
            && OutgoingFor(conn, c.current.name, EncodeAll(kept)) == []
            && shown.Some? && ListsRooms(k, c, shown.value)
  {
    ListKept(line, c.current.id, c.current.name);
    hide Current, Meant, ListLine, EncodeAll, Shows, OutgoingFor, RoomListing, ListsRooms;
    ListingShown(c.rooms, me, conn, c.current.name);
    ListingExact(k, c, conn);
  }

  lemma {:induction false} ListingExact(k: Keeper, c: Replica, conn: u64)
    requires Current(k, c, conn)
    ensures ListsRooms(k, c, RoomListing(c.rooms))
  {
    hide Current, RoomListing, RoomLine, Text, Decimal;
    ListingCounts(k, c, conn);
    forall i: u32 | i < k.nextRoom
      ensures i in k.rooms && i in c.rooms
      ensures RoomListing(c.rooms)[1 + i] == Notice(RoomLine(k, c, i))
    {
      ListingAt(k, c, conn, i);
    }
  }

  /** The local message for a listing. */
  lemma {:induction false} ListingShown(rooms: map<u32, RoomRec>, me: bytes, conn: u64, roomName: bytes)
    ensures Shows(me, rooms, EncodeAll([I32(LOCAL_LIST_ROOM)])) == Some(RoomListing(rooms))
    ensures OutgoingFor(conn, roomName, EncodeAll([I32(LOCAL_LIST_ROOM)])) == []
  {
    assert [I32(LOCAL_LIST_ROOM)] + [] == [I32(LOCAL_LIST_ROOM)];
    TypedFirst(LOCAL_LIST_ROOM, []);
    hide EncodeAll, TakeField, RoomListing;
  }

  lemma {:induction false} ListingCounts(k: Keeper, c: Replica, conn: u64)
    requires Current(k, c, conn)
    ensures |RoomListing(c.rooms)| == 1 + k.nextRoom
    ensures RoomListing(c.rooms)[0] == Notice(Text("Total room count: ") + Decimal(k.nextRoom))
  {
    RoomsCurrent(k, c, conn);
    hide Current, Text, Decimal, RoomText;
    RoomsInOrder(c.rooms, k.nextRoom);
  }

  lemma {:induction false} ListingAt(k: Keeper, c: Replica, conn: u64, i: u32)
    requires Current(k, c, conn) && i < k.nextRoom
    ensures i in k.rooms && i in c.rooms && 1 + i < |RoomListing(c.rooms)|
    ensures RoomListing(c.rooms)[1 + i] == Notice(RoomLine(k, c, i))
  {
    RoomsCurrent(k, c, conn);
    hide Current, RoomText, RoomListing;
    ListingOf(c.rooms, k.nextRoom, i);
    RoomTextIs(k, c, i);
  }

  lemma {:induction false} ListingOf(rooms: map<u32, RoomRec>, n: u32, i: u32)
    requires i < n && forall j: u32 :: j in rooms <==> j < n
    ensures i in rooms && 1 + i < |RoomListing(rooms)| && RoomListing(rooms)[1 + i] == Notice(RoomText(rooms[i]))
  {
    hide Text, Decimal, RoomText, Ascending;
    RoomsInOrder(rooms, n);
  }

  lemma {:induction false} RoomTextIs(k: Keeper, c: Replica, i: u32)
    requires i in k.rooms && i in c.rooms && c.rooms[i].id == i && c.rooms[i].name == k.rooms[i].name
    ensures RoomText(c.rooms[i]) == RoomLine(k, c, i)
  {
    hide Text, Decimal;
  }

  lemma {:induction false} ListKept(line: bytes, roomId: u32, roomName: bytes)
    requires ListLine(line)
    ensures Meant(line, roomId, roomName) == Keep([I32(LOCAL_LIST_ROOM)])
  {
    var s := Skip(line);
    assert s[1..][1..] == s[2..];
    FirstToken(s[2..]);
    hide Tokens, Text, HallName;
  }

  lemma {:induction false} RoomsCurrent(k: Keeper, c: Replica, conn: u64)
    requires Current(k, c, conn)
    ensures forall i: u32 :: i in c.rooms <==> i < k.nextRoom
    ensures forall i: u32 | i < k.nextRoom ::
              i in k.rooms && c.rooms[i].id == i && c.rooms[i].name == k.rooms[i].name
  {
  }

  lemma {:induction false} RoomsInOrder(rooms: map<u32, RoomRec>, n: u32)
    requires forall i: u32 :: i in rooms <==> i < n
    ensures |rooms| == |Ascending(rooms.Keys)| == n
    ensures forall i: u32 | i < n :: Ascending(rooms.Keys)[i] == i
  {
    assert |rooms| == |rooms.Keys|;
    AscendingIncreases(rooms.Keys);
    FirstNumbers(Ascending(rooms.Keys), n);
  }

  /** A strictly increasing sequence of exactly the numbers below n counts them. */
  lemma {:induction false} FirstNumbers(r: seq<u64>, n: u32)
    requires Increasing(r) && forall x: u64 :: x in r <==> x < n
    ensures |r| == n && forall i | 0 <= i < n :: r[i] == i
    decreases n
  {
    if r == [] {
      var zero: u64 := 0;
      assert zero in r <==> zero < n;
    } else {
      var m := |r| - 1;
      assert r[m] in r;
      LastNumber(r, r[..m], n);
      FirstNumbers(r[..m], n - 1);
      assert forall i | 0 <= i < m :: r[i] == r[..m][i];
    }
  }

  lemma {:induction false} LastNumber(r: seq<u64>, front: seq<u64>, n: u32)
    requires Increasing(r) && n > 0 && r != [] && front == r[..|r| - 1] && forall x: u64 :: x in r <==> x < n
    ensures r[|r| - 1] == n - 1 && Increasing(front) && forall x: u64 :: x in front <==> x < n - 1
  {
    var last: u64 := n - 1;
    var m := |r| - 1;
    assert last in r && r[m] in r && r == front + [r[m]];
    var j :| 0 <= j < |r| && r[j] == last;
    assert r[j] <= r[m];
    forall x: u64
      ensures x in front <==> x < n - 1
    {
      if x in front {
        var i :| 0 <= i < m && front[i] == x;
        assert r[i] < r[m];
      }
      if x < n - 1 {
        assert x in r;
        var i :| 0 <= i < |r| && r[i] == x;
        assert r[m] == last && i != m && front[i] == x;
      }
    }
  }

  // ---------------------------------------------------------------- the other lines

  /** The line's first non-space character is a slash and this letter follows it. */
  predicate Lettered(line: bytes, letter: char) {
    var s := Skip(line);
    |s| >= 2 && s[0] == '/' as int && s[1] == letter as int
  }

  predicate TwoFine(ts: seq<bytes>) {
    |ts| >= 2 && Fine(ts[0]) && Fine(ts[1])
  }

  /** A line asks the server for something exactly if it creates or joins with two tokens of 4 to 20 characters,
      name before password, or if it is no command, and then it is chat for the room the client is in. */
  lemma {:induction false} AsksExactly(line: bytes, roomId: u32, roomName: bytes, r: Request)
    ensures Meant(line, roomId, roomName) == Ask(r) <==>
            var s := Skip(line);
            || (ParseLine(line) == NoCommand && r == Publish(roomId, line))
            || (Lettered(line, 'c') && var ts := Tokens(s[2..], []); TwoFine(ts) && r == Create(ts[0], ts[1]))
            || (Lettered(line, 'j') && var ts := Tokens(s[2..], []); TwoFine(ts) && r == Join(ts[0], ts[1]))
  {
    var s := Skip(line);
    if |s| >= 2 && s[0] == '/' as int {
      assert s[1..][1..] == s[2..];
      CreateExactly(s[2..]);
      JoinExactly(s[2..]);
    }
    hide Word, AfterWord, HallName, Text, Tokens;
  }

  /** A line stops the client exactly if it is `/e` with anything behind it, or leaves while in HALL. */
  lemma {:induction false} StopsExactly(line: bytes, roomId: u32, roomName: bytes)
    ensures Meant(line, roomId, roomName) == Stop <==>
            Lettered(line, 'e') || (LeaveLine(line) && roomName == HallName())
  {
    hide Word, AfterWord, HallName, Text;
  }

  /** It shows the help exactly if it is `/h` with anything behind it. */
  lemma {:induction false} HelpsExactly(line: bytes, roomId: u32, roomName: bytes)
    ensures Meant(line, roomId, roomName) == Help <==> Lettered(line, 'h')
  {
    hide Word, AfterWord, HallName, Text;
  }

  predicate IsLetter(ch: byte) {
    ch in {'h' as int, 'c' as int, 'j' as int, 'w' as int, 'r' as int, 'q' as int, 'e' as int, 'l' as int}
  }

  /** It warns exactly if an unknown letter follows the slash, then without a text, or if something other than
      rooms is to be listed. */
  lemma {:induction false} WarnsExactly(line: bytes, roomId: u32, roomName: bytes, reason: bytes)
    ensures Meant(line, roomId, roomName) == Warn(reason) <==>
            var s := Skip(line);
            |s| >= 2 && s[0] == '/' as int &&
            if s[1] == 'l' as int then
              Tokens(s[2..], []) != [] && Tokens(s[2..], [])[0] != Text("room")
              && reason == Text("list command with invalid target")
            else !IsLetter(s[1]) && reason == []
  {
    var s := Skip(line);
    if |s| >= 2 && s[0] == '/' as int {
      assert s[1..][1..] == s[2..];
      ListWarns(s[2..], reason);
    }
    hide Word, AfterWord, HallName, Text, Tokens, ListCommand;
  }

  lemma {:induction false} ListWarns(t: bytes, reason: bytes)
    ensures ListCommand(t) == Invalid(reason) <==>
            var ts := Tokens(t, []);
            ts != [] && ts[0] != Text("room") && reason == Text("list command with invalid target")
  {
    FirstToken(t);
    hide Tokens, Word, Text;
  }
}
