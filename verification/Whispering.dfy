/** A whisper from the keyboard of one client to the connection of another. */
module Whispering {
  import opened Octets
  import opened Codec
  import opened Chat
  import opened Commands
  import opened KeeperSpec
  import opened KeeperRuns
  import opened Coherence
  import opened Delivery
  import opened RoomKeeping
  import opened Display
  import opened ChatClient

  /** The local message of a typed whisper, once it is back, makes the client ask for the same whisper. */
  lemma {:induction false} LocalRelayed(conn: u64, roomName: bytes, to: bytes, words: bytes)
    requires Str(to).Storable() && Str(words).Storable()
    ensures OutgoingFor(conn, roomName, EncodeAll([I32(LOCAL_WHISPER_MSG), Str(to), Str(words)])) ==
            [Wire(conn, Whisper(to, words).Encode())]
  {
    var args := [Str(to), Str(words)];
    assert [I32(LOCAL_WHISPER_MSG)] + args == [I32(LOCAL_WHISPER_MSG), Str(to), Str(words)];
    hide EncodeAll, TakeField, TakePair;
    TypedFirst(LOCAL_WHISPER_MSG, args);
    PairRoundTrip(to, words);
  }

  lemma {:induction false} LocalShown(me: bytes, rooms: map<u32, RoomRec>, to: bytes, words: bytes)
    requires Str(to).Storable() && Str(words).Storable()
    ensures Shows(me, rooms, EncodeAll([I32(LOCAL_WHISPER_MSG), Str(to), Str(words)])) ==
            Some([Notice(Text("send whisper to ") + to + Text(": ") + words)])
  {
    assert [I32(LOCAL_WHISPER_MSG)] + [Str(to), Str(words)] == [I32(LOCAL_WHISPER_MSG), Str(to), Str(words)];
    hide EncodeAll, Text, Shows;
    PairReads(me, rooms, LOCAL_WHISPER_MSG, to, words);
  }

  /** A line `/w` with some text behind it, typed by a logged-on user, is kept as a local message; handling that,
      the client shows it and asks the server to whisper the words to the first token; the server understands
      the same; and exactly one message results: to the one user of that name, with the sender's own name and
      the exact words, or back to the sender if nobody has the name. */
  lemma {:induction false} WhisperRouting(k: Keeper, conn: u64, ip: bytes, port: u16, typed: bytes, roomId: u32,
      roomName: bytes, me: bytes, rooms: map<u32, RoomRec>, u: u64)
    requires Inv(k) && conn in k.users && Tokens(typed, []) != [] && |typed| < 0x1_0000_0000_0000_0000
    ensures var (line, to, words) := ([SLASH, 'w' as int] + typed, Tokens(typed, [])[0], Skip(AfterWord(Skip(typed))));
            var kept := [I32(LOCAL_WHISPER_MSG), Str(to), Str(words)];
            && Meant(line, roomId, roomName) == Keep(kept)
            && OutgoingFor(conn, roomName, EncodeAll(kept)) == [Wire(conn, Whisper(to, words).Encode())]
            && Shows(me, rooms, EncodeAll(kept)) == Some([Notice(Text("send whisper to ") + to + Text(": ") + words)])
            && ParseRequest(Whisper(to, words).Encode()) == Some(Whisper(to, words))
            && !Aborts(k, Received(conn, ip, port, Whisper(to, words)))
            && To(Sends(k, Received(conn, ip, port, Whisper(to, words))), u) == WhisperFor(k, conn, to, words, u)
  {
    var to, words := Tokens(typed, [])[0], Skip(AfterWord(Skip(typed)));
    WhisperKept(typed, roomId, roomName);
    hide Skip, AfterWord, Tokens, EncodeAll, OutgoingFor, WhisperFor, Sends, Aborts, Meant, ParseRequest, Shows, Text;
    LocalRelayed(conn, roomName, to, words);
    LocalShown(me, rooms, to, words);
    RemoteRoundTrip(to, words);
    WhisperStep(k, conn, ip, port, to, words, u);
  }

  lemma {:induction false} WhisperKept(typed: bytes, roomId: u32, roomName: bytes)
    requires Tokens(typed, []) != []
    ensures var (to, words) := (Tokens(typed, [])[0], Skip(AfterWord(Skip(typed))));
            && |to| <= |typed| && |words| <= |typed|
            && Meant([SLASH, 'w' as int] + typed, roomId, roomName) ==
               Keep([I32(LOCAL_WHISPER_MSG), Str(to), Str(words)])
  {
    FirstToken(typed);
    var line := [SLASH, 'w' as int] + typed;
    assert Skip(line) == line && line[1..][1..] == typed;
    hide Tokens, Word, HallName;
  }

  lemma {:induction false} WhisperStep(k: Keeper, conn: u64, ip: bytes, port: u16, to: bytes, words: bytes, u: u64)
    requires Inv(k) && conn in k.users
    ensures !Aborts(k, Received(conn, ip, port, Whisper(to, words)))
    ensures To(Sends(k, Received(conn, ip, port, Whisper(to, words))), u) == WhisperFor(k, conn, to, words, u)
  {
    WhisperReachesTarget(k, conn, to, words, u);
  }

  lemma {:induction false} RemoteRoundTrip(to: bytes, words: bytes)
    requires Str(to).Storable() && Str(words).Storable()
    ensures ParseRequest(Whisper(to, words).Encode()) == Some(Whisper(to, words))
  {
    RequestRoundTrip(Whisper(to, words), []);
    assert Whisper(to, words).Encode() + [] == Whisper(to, words).Encode();
  }

  /** At most one user can be the target. */
  lemma {:induction false} TargetIsUnique(k: Keeper, to: bytes, u: u64, v: u64)
    requires Inv(k) && u in k.users && v in k.users && k.users[u].name == k.users[v].name == to
    ensures u == v
  {
    assert k.userNames[k.users[u].name] == u;
  }
}
