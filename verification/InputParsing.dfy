/** The client's command parser: loops over a zero-terminated text. Every index is checked; the one scan
    that can run past the terminator says so instead of reading on. */
module InputParsing {
  import opened Octets
  import opened Codec
  import opened MsgBuffer
  import opened Framing
  import opened Chat
  import opened Commands

  /** Characters followed by the only zero. */
  predicate CString(input: bytes) {
    input != [] && input[|input| - 1] == 0 && 0 !in input[..|input| - 1]
  }

  /** The text from an index to the terminator. */
  function From(input: bytes, index: nat): bytes
    requires CString(input) && index < |input|
  {
    input[index..|input| - 1]
  }

  lemma {:induction false} FromStep(input: bytes, index: nat)
    requires CString(input) && index < |input| && input[index] != 0
    ensures index + 1 < |input| && From(input, index) != [] && From(input, index)[0] == input[index]
    ensures From(input, index)[1..] == From(input, index + 1)
  {
  }

  lemma {:induction false} FromEnd(input: bytes, index: nat)
    requires CString(input) && index < |input|
    ensures input[index] == 0 <==> From(input, index) == []
  {
    if From(input, index) != [] {
      assert input[index] in input[..|input| - 1];
    }
  }

  lemma {:induction false} TailOf(input: bytes, i: nat)
    requires CString(input) && i + 1 < |input|
    ensures CString(input[i + 1..]) && From(input[i + 1..], 0) == From(input, i)[1..]
  {
    var n := |input| - 1;
    assert input[..n] == input[..i + 1] + input[i + 1..][..n - i - 1];
  }

  method SkipSpaces(input: bytes, start: nat) returns (index: nat)
    requires CString(input) && start < |input|
    ensures start <= index < |input| && From(input, index) == Skip(From(input, start))
  {
    index := start;
    while input[index] == SPACE
      invariant start <= index < |input|
      invariant Skip(From(input, index)) == Skip(From(input, start))
      decreases |input| - index
    {
      FromStep(input, index);
      index := index + 1;
    }
    FromEnd(input, index);
  }

  lemma {:induction false} WordEnds(input: bytes, start: nat, index: nat)
    requires CString(input) && start <= index < |input| && SPACE !in input[start..index]
    requires input[index] == SPACE || input[index] == 0
    ensures From(input, index) == AfterWord(From(input, start)) && input[start..index] == Word(From(input, start))
  {
    FromEnd(input, index);
    if input[index] != 0 {
      FromStep(input, index);
    }
    assert From(input, start) == input[start..index] + From(input, index);
    WordThen(input[start..index], From(input, index));
  }

  method SkipWord(input: bytes, start: nat) returns (index: nat)
    requires CString(input) && start < |input|
    ensures start <= index < |input| && From(input, index) == AfterWord(From(input, start))
    ensures input[start..index] == Word(From(input, start))
  {
    index := start;
    while input[index] != SPACE && input[index] != 0
      invariant start <= index < |input| && SPACE !in input[start..index]
      decreases |input| - index
    {
      assert input[start..index + 1] == input[start..index] + [input[index]];
      index := index + 1;
    }
    WordEnds(input, start, index);
  }

  /** The scan for the end of the room name in the create command. It stops only at a space; where there is
      none it would read on past the terminator, and the model stops there. */
  method ScanToSpace(input: bytes, start: nat) returns (index: nat, overran: bool)
    requires CString(input) && start < |input|
    ensures overran <==> SPACE !in From(input, start)
    ensures !overran ==> start <= index < |input| && From(input, index) == AfterWord(From(input, start))
    ensures !overran ==> input[start..index] == Word(From(input, start))
  {
    index := start;
    while index < |input| && input[index] != SPACE
      invariant start <= index <= |input| && SPACE !in input[start..index]
      decreases |input| - index
    {
      assert input[start..index + 1] == input[start..index] + [input[index]];
      index := index + 1;
    }
    overran := index == |input|;
    if overran {
      assert input[start..] == From(input, start) + [0];
      assert input[start..index] == input[start..];
    } else {
      assert From(input, start)[index - start] == SPACE;
      WordEnds(input, start, index);
    }
  }

  method SkipToEnd(input: bytes, start: nat) returns (index: nat)
    requires CString(input) && start < |input|
    ensures index == |input| - 1
  {
    index := start;
    while input[index] != 0
      invariant start <= index < |input|
      decreases |input| - index
    {
      index := index + 1;
    }
    FromEnd(input, index);
  }

  class Cmd {
    var mType: CmdType
    var mMsg: Msg?
    /** Why the command is invalid. */
    var mErrStr: bytes
    var mInvalid: bool
    var mLocalCmd: bool

    constructor ()
      ensures Untouched()
    {
      mType, mMsg, mErrStr, mInvalid, mLocalCmd := CmdNull, null, [], true, true;
    }

    ghost predicate Untouched()
      reads this
    {
      mMsg == null && mErrStr == [] && mInvalid && mLocalCmd
    }

    /** The object holds what the command means. */
    ghost predicate Shows(parsed: bool, c: Command)
      reads this, mMsg, if mMsg == null then {} else {mMsg.mData}
    {
      match c
      case NoCommand => !parsed
      case Invalid(reason) => parsed && mInvalid && mErrStr == reason
      case Bare(kind) => parsed && !mInvalid && mLocalCmd && mType == kind && kind in {CmdHelp, CmdExit}
      case Local(fields) =>
        && parsed && !mInvalid && mLocalCmd && Holds(EncodeAll(fields))
        && mType != CmdExit && mType != CmdHelp && (mType == CmdLeaveRoom <==> fields == [I32(LOCAL_LEAVE_ROOM)])
      case Remote(request) => parsed && !mInvalid && !mLocalCmd && Holds(request.Encode())
    }

    ghost predicate Holds(payload: bytes)
      reads this, mMsg, if mMsg == null then {} else {mMsg.mData}
    {
      mMsg != null && mMsg.Valid() && IsFrame(mMsg.Frame(), payload)
    }

    /** The end of every command that carries two strings. */
    method AcceptTwo(local: bool, t: i32, a: bytes, b: bytes)
      requires Writable(FreshShape(), [I32(t), Str(a), Str(b)])
      modifies this
      ensures !mInvalid && mLocalCmd == local && mType == old(mType) && Holds(EncodeAll([I32(t), Str(a), Str(b)]))
    {
      var msg := NewMsg([I32(t), Str(a), Str(b)]);
      Accept(local, msg);
    }

    method Accept(local: bool, msg: Msg)
      modifies this
      ensures !mInvalid && mLocalCmd == local && mMsg == msg && mType == old(mType)
    {
      mLocalCmd := local;
      mInvalid := false;
      mMsg := msg;
    }
  }

  lemma {:induction false} TwoNamesFit(t: i32, a: bytes, b: bytes)
    requires |a| <= 20 && |b| <= 20
    ensures Writable(FreshShape(), [I32(t), Str(a), Str(b)])
  {
    EncodeThree(I32(t), Str(a), Str(b));
    SmallIsWritable([I32(t), Str(a), Str(b)]);
  }

  lemma {:induction false} TypeFits(t: i32)
    ensures Writable(FreshShape(), [I32(t)])
  {
    assert [I32(t)][1..] == [] && EncodeAll([I32(t)]) == I32(t).Bytes() + EncodeAll([]);
    SmallIsWritable([I32(t)]);
  }

  class InputParser {
    constructor () {
    }

    method ParseJoinRoom(input: bytes, cmd: Cmd) returns (parsed: bool)
      requires CString(input)
      modifies cmd
      ensures cmd.Shows(parsed, JoinCommand(From(input, 0)))
    {
      var roombegin := SkipSpaces(input, 0);
      if input[roombegin] == 0 {
        FromEnd(input, roombegin);
        cmd.mType, cmd.mErrStr := CmdNull, Text("list command with no target");
        return false;
      }
      parsed := JoinNamed(input, roombegin, cmd);
    }

    /** The rest of the join command, once the beginning of the name is found. */
    method JoinNamed(input: bytes, roombegin: nat, cmd: Cmd) returns (parsed: bool)
      requires CString(input) && roombegin < |input| && From(input, roombegin) == Skip(From(input, 0))
      modifies cmd
      ensures cmd.Shows(parsed, JoinCommand(From(input, 0)))
    {
      hide Skip, Word, AfterWord, EncodeAll, Writable, From;
      var roomend := SkipWord(input, roombegin);
      var roomName := input[roombegin..roomend];
      if |roomName| < 4 || |roomName| > 20 {
        cmd.mType, cmd.mErrStr := CmdNull, Text("join room ,but invalid room len!");
        return false;
      }
      var passwdstart := SkipSpaces(input, roomend);
      var passwdend := SkipWord(input, passwdstart);
      var passwd := input[passwdstart..passwdend];
      if |passwd| < 4 || |passwd| > 20 {
        cmd.mErrStr := Text("room passwd at least 4 at most 20 chars length!");
        return false;
      }
      TwoNamesFit(C2S_JOIN_ROOM, roomName, passwd);
      cmd.AcceptTwo(false, C2S_JOIN_ROOM, roomName, passwd);
      parsed := true;
    }

    /** The scan for the end of the name does not stop at the terminator. */
    method ParseCreateRoom(input: bytes, cmd: Cmd) returns (parsed: bool, overran: bool)
      requires CString(input)
      modifies cmd
      ensures overran <==> NameUnended(From(input, 0))
      ensures !overran ==> cmd.Shows(parsed, CreateCommand(From(input, 0)))
    {
      parsed, overran := false, false;
      var namestart := SkipSpaces(input, 0);
      FromEnd(input, namestart);
      if input[namestart] == 0 {
        cmd.mType, cmd.mErrStr := CmdCreateRoom, Text("create room but empty room name (4-20 char length)");
        return;
      }
      var nameend;
      nameend, overran := ScanToSpace(input, namestart);
      if overran {
        return;
      }
      parsed := CreateNamed(input, namestart, nameend, cmd);
    }

    /** The rest of the create command, once the end of the name is found. */
    method CreateNamed(input: bytes, namestart: nat, nameend: nat, cmd: Cmd) returns (parsed: bool)
      requires CString(input) && namestart <= nameend < |input|
      requires input[namestart..nameend] == Word(Skip(From(input, 0)))
      requires From(input, nameend) == AfterWord(Skip(From(input, 0)))
      modifies cmd
      ensures cmd.Shows(parsed, CreateCommand(From(input, 0)))
    {
      hide Skip, Word, AfterWord, EncodeAll, Writable, From;
      var name := input[namestart..nameend];
      cmd.mType := CmdCreateRoom;
      if |name| < 4 || |name| > 20 {
        cmd.mErrStr := Text("room name at least 4 at most 20 chars length!");
        return false;
      }
      var passwdstart := SkipSpaces(input, nameend);
      var passwdend := SkipWord(input, passwdstart);
      var passwd := input[passwdstart..passwdend];
      assert (name, passwd) == NameAndPassword(From(input, 0));
      if |passwd| < 4 || |passwd| > 20 {
        cmd.mErrStr := Text("room passwd at least 4 at most 20 chars length!");
        return false;
      }
      TwoNamesFit(C2S_CREATE_ROOM, name, passwd);
      cmd.AcceptTwo(false, C2S_CREATE_ROOM, name, passwd);
      parsed := true;
    }

    method ParseWhisper(input: bytes, cmd: Cmd) returns (parsed: bool)
      requires CString(input) && cmd.mType == CmdChat && LocalFits(WhisperCommand(From(input, 0)))
      modifies cmd
      ensures cmd.Shows(parsed, WhisperCommand(From(input, 0)))
    {
      var targetbegin := SkipSpaces(input, 0);
      FromEnd(input, targetbegin);
      if input[targetbegin] == 0 {
        cmd.mType, cmd.mErrStr := CmdNull, Text("list command with no target");
        return false;
      }
      WhisperFound(input, targetbegin, cmd);
      parsed := true;
    }

    /** The rest of the whisper command, once the target is found. */
    method WhisperFound(input: bytes, targetbegin: nat, cmd: Cmd)
      requires CString(input) && cmd.mType == CmdChat && targetbegin < |input|
      requires LocalFits(WhisperCommand(From(input, 0)))
      requires From(input, targetbegin) == Skip(From(input, 0)) != []
      modifies cmd
      ensures cmd.Shows(true, WhisperCommand(From(input, 0)))
    {
      hide Skip, Word, EncodeAll, Writable;
      var targetend := SkipWord(input, targetbegin);
      var wordsbegin := SkipSpaces(input, targetend);
      var wordsend := SkipToEnd(input, wordsbegin);
      assert input[wordsbegin..wordsend] == From(input, wordsbegin);
      cmd.AcceptTwo(true, LOCAL_WHISPER_MSG, input[targetbegin..targetend], input[wordsbegin..wordsend]);
    }

    method ParseReply(input: bytes, cmd: Cmd) returns (parsed: bool)
      ensures !parsed
    {
      parsed := false;
    }

    method ParseList(input: bytes, cmd: Cmd) returns (parsed: bool)
      requires CString(input) && cmd.mInvalid
      modifies cmd
      ensures cmd.Shows(parsed, ListCommand(From(input, 0)))
    {
      var targetbegin := SkipSpaces(input, 0);
      FromEnd(input, targetbegin);
      if input[targetbegin] == 0 {
        cmd.mType, cmd.mErrStr := CmdNull, Text("list command with no target");
        return false;
      }
      var targetend := SkipWord(input, targetbegin);
      var target := input[targetbegin..targetend];
      parsed := true;
      if target == Text("room") {
        cmd.mType := CmdListRoom;
        TypeFits(LOCAL_LIST_ROOM);
        var msg := NewMsg([I32(LOCAL_LIST_ROOM)]);
        cmd.Accept(true, msg);
      } else {
        cmd.mType, cmd.mErrStr := CmdNull, Text("list command with invalid target");
      }
    }

    method ParseLeaveRoom(input: bytes, cmd: Cmd) returns (parsed: bool)
      requires CString(input)
      modifies cmd
      ensures cmd.Shows(parsed, LeaveCommand(From(input, 0)))
    {
      FromEnd(input, 0);
      if input[0] != SPACE && input[0] != 0 {
        FromStep(input, 0);
        cmd.mType := CmdNull;
        return false;
      }
      TypeFits(LOCAL_LEAVE_ROOM);
      var msg := NewMsg([I32(LOCAL_LEAVE_ROOM)]);
      cmd.mType := CmdLeaveRoom;
      cmd.Accept(true, msg);
      parsed := true;
    }

    method ParseCmdMessage(input: bytes, cmd: Cmd) returns (parsed: bool, overran: bool)
      requires CString(input) && cmd.Untouched() && cmd.mType == CmdChat && WhisperFits(From(input, 0))
      modifies cmd
      ensures overran <==> Overruns(From(input, 0))
      ensures !overran ==> cmd.Shows(parsed, Parse(From(input, 0)))
    {
      parsed, overran := true, false;
      var ch := input[0] as int;
      FromEnd(input, 0);
      if ch == 0 {
        parsed := false;
        return;
      }
      FromStep(input, 0);
      TailOf(input, 0);
      var rest := input[1..];
      if ch == 'h' as int {
        cmd.mType, cmd.mInvalid := CmdHelp, false;
      } else if ch == 'c' as int {
        parsed, overran := ParseCreateRoom(rest, cmd);
      } else if ch == 'e' as int {
        cmd.mType, cmd.mInvalid := CmdExit, false;
      } else {
        parsed := ParseOther(ch, rest, cmd);
      }
    }

    /** The commands that cannot overrun. */
    method ParseOther(ch: int, rest: bytes, cmd: Cmd) returns (parsed: bool)
      requires CString(rest) && cmd.Untouched() && cmd.mType == CmdChat && 0 < ch < 0x100
      requires ch != 'h' as int && ch != 'c' as int && ch != 'e' as int
      requires WhisperFits([ch] + From(rest, 0))
      modifies cmd
      ensures cmd.Shows(parsed, Parse([ch] + From(rest, 0)))
    {
      assert ([ch] + From(rest, 0))[1..] == From(rest, 0);
      parsed := true;
      if ch == 'j' as int {
        parsed := ParseJoinRoom(rest, cmd);
      } else if ch == 'w' as int {
        parsed := ParseWhisper(rest, cmd);
      } else if ch == 'r' as int {
        parsed := ParseReply(rest, cmd);
      } else if ch == 'q' as int {
        parsed := ParseLeaveRoom(rest, cmd);
      } else if ch == 'l' as int {
        parsed := ParseList(rest, cmd);
      }
    }

    /** Whatever the line: either the parser means by it what the command language does, or it reads past
        the end of the line, and exactly for these lines it does. */
    method ParseInput(input: bytes, cmd: Cmd) returns (parsed: bool, overran: bool)
      requires CString(input) && cmd.Untouched()
      requires var s := Skip(From(input, 0)); s != [] && s[0] == SLASH ==> WhisperFits(s[1..])
      modifies cmd
      ensures overran <==> LineOverruns(From(input, 0))
      ensures !overran ==> cmd.Shows(parsed, ParseLine(From(input, 0)))
    {
      parsed, overran := false, false;
      var i := SkipSpaces(input, 0);
      FromEnd(input, i);
      if input[i] == 0 {
        cmd.mType := CmdNull;
        return;
      }
      FromStep(input, i);
      cmd.mType := CmdChat;
      if input[i] == SLASH {
        TailOf(input, i);
        parsed, overran := ParseCmdMessage(input[i + 1..], cmd);
      }
    }
  }

  /** A whisper must fit its message. */
  predicate WhisperFits(t: bytes) {
    t != [] && t[0] == 'w' as int ==> LocalFits(WhisperCommand(t[1..]))
  }

  predicate LocalFits(c: Command) {
    c.Local? ==> Writable(FreshShape(), c.fields)
  }

  // ---------------------------------------------------------------- where the parser reads too far

  /** A room name with no space after it. */
  predicate NameUnended(t: bytes) {
    Skip(t) != [] && SPACE !in Skip(t)
  }

  predicate Overruns(t: bytes) {
    t != [] && t[0] == 'c' as int && NameUnended(t[1..])
  }

  predicate LineOverruns(line: bytes) {
    var s := Skip(line);
    s != [] && s[0] == SLASH && Overruns(s[1..])
  }

  lemma {:induction false} SkipKeepsLast(t: bytes)
    requires t != []
    ensures Skip(t) == [] ==> t[|t| - 1] == SPACE
    ensures Skip(t) != [] ==> Skip(t)[|Skip(t)| - 1] == t[|t| - 1]
  {
    if t[0] == SPACE && t[1..] != [] {
      SkipKeepsLast(t[1..]);
    }
  }

  /** A create command overruns exactly when its text is one word and nothing after it. */
  lemma {:induction false} OverrunsExactly(t: bytes)
    ensures Overruns(t) <==> t != [] && t[0] == 'c' as int && |Tokens(t[1..], [])| == 1 && t[|t| - 1] != SPACE
  {
    if t != [] {
      UnendedExactly(t[1..]);
      assert t[1..] != [] ==> t[|t| - 1] == t[1..][|t| - 2];
    }
  }

  lemma {:induction false} UnendedExactly(t: bytes)
    ensures NameUnended(t) <==> t != [] && |Tokens(t, [])| == 1 && t[|t| - 1] != SPACE
  {
    var s := Skip(t);
    FirstToken(t);
    if s != [] {
      SkipKeepsLast(t);
      OneWordExactly(s);
      FirstToken(AfterWord(s));
    }
  }

  lemma {:induction false} OneWordExactly(s: bytes)
    requires s != [] && s[0] != SPACE
    ensures SPACE !in s <==> Skip(AfterWord(s)) == [] && s[|s| - 1] != SPACE
  {
    var n := |Word(s)|;
    if n == |s| {
      assert s == Word(s) && s[n - 1] in s;
    } else {
      assert s[n] == SPACE;
      SkipKeepsLast(s[n..]);
      assert s[n..][|s| - n - 1] == s[|s| - 1];
    }
  }

  /** The line that the help text gives as the usage of the create command overruns. */
  lemma {:induction false} HelpUsageOverruns()
    ensures LineOverruns(Text("/c room"))
  {
    var line := Text("/c room");
    assert Skip(line) == line && line[1..][1..] == Text(" room");
    assert Skip(Text(" room")) == Text("room") by {
      assert Text(" room")[1..] == Text("room");
    }
  }
}
