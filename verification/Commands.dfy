/** The client's command line: what a typed text means. */
module Commands {
  import opened Octets
  import opened Codec
  import opened Chat

  const SPACE: byte := 32
  const SLASH: byte := 47

  // ---------------------------------------------------------------- words

  function Skip(t: bytes): (r: bytes)
    ensures |r| <= |t|
    ensures r != [] ==> r[0] != SPACE
  {
    if t != [] && t[0] == SPACE then Skip(t[1..]) else t
  }

  function Word(t: bytes): (r: bytes)
    ensures |r| <= |t| && t[..|r|] == r
    ensures |r| < |t| ==> t[|r|] == SPACE
    ensures SPACE !in r
  {
    if t == [] || t[0] == SPACE then [] else [t[0]] + Word(t[1..])
  }

  function AfterWord(t: bytes): bytes {
    t[|Word(t)|..]
  }

  /** All maximal space-free tokens, found by one pass over the text that collects characters until a
      space ends the token. */
  function Tokens(t: bytes, current: bytes): seq<bytes> {
    if t == [] then (if current != [] then [current] else [])
    else if t[0] == SPACE then (if current != [] then [current] else []) + Tokens(t[1..], [])
    else Tokens(t[1..], current + [t[0]])
  }

  lemma {:induction false} TokensSkip(t: bytes)
    ensures Tokens(Skip(t), []) == Tokens(t, [])
  {
    if t != [] && t[0] == SPACE {
      TokensSkip(t[1..]);
    }
  }

  lemma {:induction false} TokensWord(t: bytes, current: bytes)
    requires current != []
    ensures Tokens(t, current) == [current + Word(t)] + Tokens(AfterWord(t), [])
  {
    if t != [] && t[0] != SPACE {
      TokensWord(t[1..], current + [t[0]]);
      assert current + [t[0]] + Word(t[1..]) == current + Word(t);
      assert AfterWord(t) == AfterWord(t[1..]);
    } else {
      assert current + [] == current && AfterWord(t) == t;
      assert [current] + [] == [current];
    }
  }

  lemma {:induction false} FirstToken(t: bytes)
    ensures Tokens(t, []) == if Skip(t) == [] then [] else [Word(Skip(t))] + Tokens(AfterWord(Skip(t)), [])
    ensures Skip(t) != [] ==> Word(Skip(t)) != []
  {
    TokensSkip(t);
    var s := Skip(t);
    if s != [] {
      TokensWord(s[1..], [s[0]]);
      assert [] + [s[0]] == [s[0]];
      assert AfterWord(s) == AfterWord(s[1..]);
    }
  }

  // ---------------------------------------------------------------- commands

  datatype CmdType = CmdCreateRoom | CmdJoinRoom | CmdWhisper | CmdLeaveRoom | CmdExit | CmdListRoom | CmdListUser
                   | CmdHelp | CmdChat | CmdNull

  /** What a text after the slash amounts to: no command at all (and so an ordinary chat message), an
      invalid one, one without a message, one for the client itself, one for the server. */
  datatype Command =
    | NoCommand
    | Invalid(reason: bytes)
    | Bare(kind: CmdType)
    | Local(fields: seq<Field>)
    | Remote(request: Request)

  predicate Fine(name: bytes) {
    4 <= |name| <= 20
  }

  /** Room name and password as the create and join commands take them. */
  function NameAndPassword(t: bytes): (bytes, bytes) {
    (Word(Skip(t)), Word(Skip(AfterWord(Skip(t)))))
  }

  function JoinCommand(t: bytes): Command {
    var (name, passwd) := NameAndPassword(t);
    if Fine(name) && Fine(passwd) then Remote(Join(name, passwd)) else NoCommand
  }

  function CreateCommand(t: bytes): Command {
    var (name, passwd) := NameAndPassword(t);
    if Fine(name) && Fine(passwd) then Remote(Create(name, passwd)) else NoCommand
  }

  function WhisperCommand(t: bytes): Command {
    var s := Skip(t);
    if s == [] then NoCommand else Local([I32(LOCAL_WHISPER_MSG), Str(Word(s)), Str(Skip(AfterWord(s)))])
  }

  function ListCommand(t: bytes): Command {
    var s := Skip(t);
    if s == [] then NoCommand
    else if Word(s) == Text("room") then Local([I32(LOCAL_LIST_ROOM)])
    else Invalid(Text("list command with invalid target"))
  }

  function LeaveCommand(t: bytes): Command {
    if t != [] && t[0] != SPACE then NoCommand else Local([I32(LOCAL_LEAVE_ROOM)])
  }

  function Parse(t: bytes): Command {
    if t == [] then NoCommand
    else
      var ch, rest := t[0] as int, t[1..];
      if ch == 'h' as int then Bare(CmdHelp)
      else if ch == 'c' as int then CreateCommand(rest)
      else if ch == 'j' as int then JoinCommand(rest)
      else if ch == 'w' as int then WhisperCommand(rest)
      else if ch == 'r' as int then NoCommand
      else if ch == 'q' as int then LeaveCommand(rest)
      else if ch == 'e' as int then Bare(CmdExit)
      else if ch == 'l' as int then ListCommand(rest)
      else Invalid([])
  }

  function ParseLine(t: bytes): Command {
    var s := Skip(t);
    if s == [] || s[0] != SLASH then NoCommand else Parse(s[1..])
  }

  // ---------------------------------------------------------------- what is accepted

  /** A join command is accepted exactly when the first two space-free tokens each have 4 to 20
      characters, and they are what is sent. */
  lemma {:induction false} JoinExactly(t: bytes)
    ensures var ts := Tokens(t, []);
            if |ts| >= 2 && Fine(ts[0]) && Fine(ts[1]) then JoinCommand(t) == Remote(Join(ts[0], ts[1]))
            else JoinCommand(t) == NoCommand
  {
    FirstToken(t);
    FirstToken(AfterWord(Skip(t)));
  }

  /** A create command is accepted under the same condition, and what is sent is the first token as the name
      and the second as the password. */
  lemma {:induction false} CreateExactly(t: bytes)
    ensures var ts := Tokens(t, []);
            if |ts| >= 2 && Fine(ts[0]) && Fine(ts[1]) then CreateCommand(t) == Remote(Create(ts[0], ts[1]))
            else CreateCommand(t) == NoCommand
  {
    FirstToken(t);
    FirstToken(AfterWord(Skip(t)));
  }

  function Spaces(n: nat): (s: bytes)
    ensures |s| == n
  {
    seq(n, i => SPACE)
  }

  lemma {:induction false} SkipSpacesThen(n: nat, t: bytes)
    requires t != [] ==> t[0] != SPACE
    ensures Skip(Spaces(n) + t) == t
  {
    if n > 0 {
      SkipSpacesThen(n - 1, t);
      assert (Spaces(n) + t)[1..] == Spaces(n - 1) + t;
    } else {
      assert Spaces(0) + t == t;
    }
  }

  lemma {:induction false} WordThen(w: bytes, t: bytes)
    requires SPACE !in w && (t != [] ==> t[0] == SPACE)
    ensures Word(w + t) == w && AfterWord(w + t) == t
  {
    if w != [] {
      assert (w + t)[1..] == w[1..] + t && (w + t)[0] == w[0];
      WordThen(w[1..], t);
      assert [w[0]] + w[1..] == w;
    } else {
      assert [] + t == t;
    }
  }

  /** The text of a command with two arguments. */
  function Printed(before: nat, name: bytes, between: nat, passwd: bytes, after: nat): bytes {
    Spaces(before) + (name + (Spaces(between) + (passwd + Spaces(after))))
  }

  lemma {:induction false} PrintedArguments(before: nat, name: bytes, between: nat, passwd: bytes, after: nat)
    requires SPACE !in name && SPACE !in passwd && name != [] && passwd != [] && between > 0
    ensures NameAndPassword(Printed(before, name, between, passwd, after)) == (name, passwd)
  {
    var tail := Spaces(between) + (passwd + Spaces(after));
    SkipSpacesThen(before, name + tail);
    WordThen(name, tail);
    SkipSpacesThen(between, passwd + Spaces(after));
    WordThen(passwd, Spaces(after));
  }

  /** Printing a join command, parsing it and decoding the message in the server gives back the room and
      the password, however many spaces surround them. */
  lemma {:induction false} JoinRoundTrip(before: nat, name: bytes, between: nat, passwd: bytes, after: nat)
    requires SPACE !in name && SPACE !in passwd && Fine(name) && Fine(passwd) && between > 0
    ensures ParseLine([SLASH, 'j' as int] + Printed(before, name, between, passwd, after)) == Remote(Join(name, passwd))
    ensures ParseRequest(Join(name, passwd).Encode()) == Some(Join(name, passwd))
  {
    var t := Printed(before, name, between, passwd, after);
    PrintedArguments(before, name, between, passwd, after);
    var line := [SLASH, 'j' as int] + t;
    assert Skip(line) == line && line[1..][1..] == t;
    RequestRoundTrip(Join(name, passwd), []);
    assert Join(name, passwd).Encode() + [] == Join(name, passwd).Encode();
  }

  /** The same for a create command: the server is asked for a room of that name with that password. */
  lemma {:induction false} CreateRoundTrip(before: nat, name: bytes, between: nat, passwd: bytes, after: nat)
    requires SPACE !in name && SPACE !in passwd && Fine(name) && Fine(passwd) && between > 0
    ensures ParseLine([SLASH, 'c' as int] + Printed(before, name, between, passwd, after)) ==
            Remote(Create(name, passwd))
    ensures ParseRequest(Create(name, passwd).Encode()) == Some(Create(name, passwd))
  {
    var t := Printed(before, name, between, passwd, after);
    PrintedArguments(before, name, between, passwd, after);
    var line := [SLASH, 'c' as int] + t;
    assert Skip(line) == line && line[1..][1..] == t;
    RequestRoundTrip(Create(name, passwd), []);
    assert Create(name, passwd).Encode() + [] == Create(name, passwd).Encode();
  }

  /** A printed whisper is the target and the words again, spaces inside the words included. */
  lemma {:induction false} WhisperPrinted(before: nat, to: bytes, between: nat, words: bytes)
    requires SPACE !in to && to != [] && between > 0 && (words != [] ==> words[0] != SPACE)
    ensures ParseLine([SLASH, 'w' as int] + (Spaces(before) + (to + (Spaces(between) + words)))) ==
            Local([I32(LOCAL_WHISPER_MSG), Str(to), Str(words)])
  {
    var t := Spaces(before) + (to + (Spaces(between) + words));
    SkipSpacesThen(before, to + (Spaces(between) + words));
    WordThen(to, Spaces(between) + words);
    SkipSpacesThen(between, words);
    var line := [SLASH, 'w' as int] + t;
    assert Skip(line) == line && line[1..][1..] == t;
  }

  /** Which lines go out as chat: those that start with no slash, and behind the slash nothing, an `r`, a `c` or
      `j` without two tokens of 4 to 20 characters in front, a `w` or `l` without any token, and a `q` with
      something other than a space after it. */
  lemma {:induction false} ChatExactly(line: bytes)
    ensures ParseLine(line) == NoCommand <==>
            var s := Skip(line);
            s == [] || s[0] != '/' as int || |s| == 1 ||
            var (ch, ts) := (s[1], Tokens(s[2..], []));
            || ch == 'r' as int
            || (ch in {'c' as int, 'j' as int} && !(|ts| >= 2 && Fine(ts[0]) && Fine(ts[1])))
            || (ch in {'w' as int, 'l' as int} && |ts| == 0)
            || (ch == 'q' as int && |s| > 2 && s[2] != ' ' as int)
  {
    var s := Skip(line);
    if s != [] && s[0] == '/' as int && |s| > 1 {
      var rest := s[1..][1..];
      assert rest == s[2..];
      JoinExactly(rest);
      CreateExactly(rest);
      FirstToken(rest);
    }
  }
}
