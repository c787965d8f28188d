/** The bytes written on each connection, and how many messages wait for somebody else's event. */
module Wires {
  import opened Octets
  import opened Framing
  import opened Pipeline
  import opened ContextLife
  import opened MessageLife
  import opened PipelineOrder
  import opened NoGhosts
  import opened SystemRuns
  import opened Delivered
  import opened ConnectionOrder

  function FramesOf(cs: seq<Ctx>): (fs: seq<bytes>)
    ensures |fs| == |cs|
  {
    seq(|cs|, i requires 0 <= i < |cs| => cs[i].Bytes())
  }

  lemma {:induction false} FramesOfConcat(a: seq<Ctx>, b: seq<Ctx>)
    ensures Concat(FramesOf(a + b)) == Concat(FramesOf(a)) + Concat(FramesOf(b))
  {
    assert FramesOf(a + b) == FramesOf(a) + FramesOf(b);
    ConcatConcat(FramesOf(a), FramesOf(b));
  }

  lemma {:induction false} FramesOfOne(c: Ctx)
    ensures Concat(FramesOf([c])) == c.Bytes()
  {
    assert FramesOf([c]) == [c.Bytes()];
    assert [c.Bytes()][1..] == [] && c.Bytes() + [] == c.Bytes();
  }

  // ---------------------------------------------------------------- frames of what the worker queued

  ghost predicate Framed(cs: seq<Ctx>) {
    forall c | c in cs :: c.op.OpSend? && IsFrame(c.op.frame, c.op.body.Encode())
  }

  lemma {:induction false} FramedSnoc(cs: seq<Ctx>, c: Ctx)
    requires Framed(cs) && c.op.OpSend? && IsFrame(c.op.frame, c.op.body.Encode())
    ensures Framed(cs + [c])
  {
  }

  lemma {:induction false} ExecFramed(steps: seq<Step>)
    requires Exec(steps).Some? && Running(Exec(steps).value)
    ensures Framed(Exec(steps).value.log)
  {
    if steps != [] {
      var before, step := steps[..|steps| - 1], steps[|steps| - 1];
      var s := Exec(before).value;
      RunningBefore(s, step);
      ExecFramed(before);
      LogAfter(s, step);
      if step.Emit? {
        FramedSnoc(s.log, NewSend(s, step.frame));
      } else {
        Alone(s.log);
      }
    }
  }

  // ---------------------------------------------------------------- one connection

  /** What was emitted is the frames written in full and the first part bytes of the front one. */
  ghost predicate LineOk(line: Line, done: seq<Ctx>, queue: seq<Ctx>) {
    && (if queue == [] then line.part == 0 else line.part < |queue[0].Bytes()|)
    && line.emitted == Concat(FramesOf(done)) + (if queue == [] then [] else queue[0].Bytes()[..line.part])
  }

  lemma {:induction false} LineOkIsPrefix(line: Line, done: seq<Ctx>, queue: seq<Ctx>)
    requires LineOk(line, done, queue)
    ensures line.emitted <= Concat(FramesOf(done + queue))
  {
    FramesOfConcat(done, queue);
    if queue != [] {
      assert queue == [queue[0]] + queue[1..];
      FramesOfConcat([queue[0]], queue[1..]);
      FramesOfOne(queue[0]);
    }
  }

  lemma {:induction false} LongerIsPrefix(b: bytes, cs: seq<Ctx>, more: seq<Ctx>)
    requires b <= Concat(FramesOf(cs))
    ensures b <= Concat(FramesOf(cs + more))
  {
    FramesOfConcat(cs, more);
  }

  /** The line after WriteData in which send accepted n bytes. */
  function LineWritten(s: State, conn: u64, n: nat): Line
    requires n <= Offered(s, conn)
  {
    var line, queue := LineOf(s, conn), Mine(s.out, conn);
    if conn !in s.open || queue == [] || |queue[0].Bytes()| < line.part then line
    else
      var more := line.emitted + queue[0].Bytes()[line.part..line.part + n];
      line.(emitted := more, part := if Completes(s, conn, n) then 0 else line.part + n)
  }

  function LineAfter(s: State, step: Step, u: u64): Line
    requires Enabled(s, step)
  {
    match step
    case NetHandle => if s.net.batch[0].op.OpAccept? && u == s.nextConn then Line([], 0, 0, 0) else LineOf(s, u)
    case NetWrite(n) =>
      var conn := s.net.batch[0].conn;
      if u != conn then LineOf(s, u)
      else
        var line := LineWritten(s, conn, n);
        if Completes(s, conn, n) then line else line.(short := line.short + 1)
    case Write(conn, n) =>
      if u != conn then LineOf(s, u)
      else
        var line := LineWritten(s, conn, n);
        if Completes(s, conn, n) then line.(late := line.late + 1) else line
    case _ => LineOf(s, u)
  }

  lemma {:induction false} NetHandleLine(s: State, u: u64)
    requires Enabled(s, NetHandle) && Running(s)
    ensures LineOf(NetHandled(s), u) == LineAfter(s, NetHandle, u)
  {
  }

  lemma {:induction false} WrittenLine(s: State, conn: u64, n: nat, u: u64)
    requires n <= Offered(s, conn)
    ensures LineOf(Written(s, conn, n), u) == if u == conn then LineWritten(s, conn, n) else LineOf(s, u)
  {
  }

  lemma {:induction false} NetWriteLine(s: State, n: nat, u: u64)
    requires Enabled(s, NetWrite(n))
    ensures LineOf(Next(s, NetWrite(n)), u) == LineAfter(s, NetWrite(n), u)
  {
    WrittenLine(s, s.net.batch[0].conn, n, u);
  }

  lemma {:induction false} WriteLine(s: State, conn: u64, n: nat, u: u64)
    requires Enabled(s, Write(conn, n))
    ensures LineOf(Next(s, Write(conn, n)), u) == LineAfter(s, Write(conn, n), u)
  {
    WrittenLine(s, conn, n, u);
  }

  lemma {:induction false} StepLine(s: State, step: Step, u: u64)
    requires Enabled(s, step) && Running(s) && !step.Stop?
    ensures LineOf(Next(s, step), u) == LineAfter(s, step, u)
  {
    match step
    case NetHandle => NetHandleLine(s, u);
    case NetWrite(n) => NetWriteLine(s, n, u);
    case Write(conn, n) => WriteLine(s, conn, n, u);
    case WorkerHandle => assert WorkerHandled(s).lines == s.lines;
    case _ =>
  }

  // ---------------------------------------------------------------- what was emitted

  lemma {:induction false} QueueOk(line: Line, done: seq<Ctx>, queue: seq<Ctx>, c: Ctx)
    requires LineOk(line, done, queue) && c.Bytes() != []
    ensures LineOk(line, done, queue + [c])
  {
    if queue == [] {
      assert (queue + [c])[0] == c && c.Bytes()[..0] == [];
    } else {
      assert (queue + [c])[0] == queue[0];
    }
  }

  lemma {:induction false} PartOk(line: Line, done: seq<Ctx>, queue: seq<Ctx>, n: nat)
    requires LineOk(line, done, queue) && queue != [] && line.part + n < |queue[0].Bytes()|
    ensures LineOk(line.(emitted := line.emitted + queue[0].Bytes()[line.part..line.part + n],
            part := line.part + n), done, queue)
  {
    var f := queue[0].Bytes();
    assert f[..line.part] + f[line.part..line.part + n] == f[..line.part + n];
    Associative(Concat(FramesOf(done)), f[..line.part], f[line.part..line.part + n]);
  }

  lemma {:induction false} WholeOk(line: Line, done: seq<Ctx>, queue: seq<Ctx>, n: nat)
    requires LineOk(line, done, queue) && queue != [] && line.part + n == |queue[0].Bytes()|
    requires forall c | c in queue :: c.Bytes() != []
    ensures LineOk(line.(emitted := line.emitted + queue[0].Bytes()[line.part..line.part + n], part := 0),
                   done + [queue[0]], queue[1..])
  {
    var f := queue[0].Bytes();
    assert f[..line.part] + f[line.part..line.part + n] == f;
    Associative(Concat(FramesOf(done)), f[..line.part], f[line.part..line.part + n]);
    FramesOfConcat(done, [queue[0]]);
    FramesOfOne(queue[0]);
    if queue[1..] != [] {
      assert queue[1..][0] in queue && queue[1..][0].Bytes()[..0] == [];
    }
    Alone(Concat(FramesOf(done + [queue[0]])));
  }

  /** The counters do not matter. */
  lemma {:induction false} CountersOk(a: Line, b: Line, done: seq<Ctx>, queue: seq<Ctx>)
    requires LineOk(a, done, queue) && a.emitted == b.emitted && a.part == b.part
    ensures LineOk(b, done, queue)
  {
  }

  ghost predicate OpenOk(s: State, u: u64) {
    u in s.open ==> LineOk(LineOf(s, u), Mine(s.delivered, u), Mine(s.out, u))
  }

  /** The connection's share of the state is another's. */
  lemma {:induction false} SameOk(s: State, t: State, u: u64)
    requires OpenOk(s, u) && (u in t.open ==> u in s.open)
    requires (LineOf(t, u).emitted, LineOf(t, u).part) == (LineOf(s, u).emitted, LineOf(s, u).part)
    requires Mine(t.delivered, u) == Mine(s.delivered, u) && Mine(t.out, u) == Mine(s.out, u)
    ensures OpenOk(t, u)
  {
  }

  lemma {:induction false} WrittenOk(s: State, t: State, u: u64, n: nat)
    requires OpenOk(s, u) && n <= Offered(s, u) && Pipe(t) == PipeWritten(s, u, n)
    requires (LineOf(t, u).emitted, LineOf(t, u).part) == (LineWritten(s, u, n).emitted, LineWritten(s, u, n).part)
    requires forall c | c in s.out :: c.Bytes() != []
    ensures OpenOk(t, u)
  {
    var queue := Mine(s.out, u);
    if u !in s.open || queue == [] {
      SameOk(s, t, u);
    } else if Completes(s, u, n) {
      FinishedOk(s, t, u, n);
    } else {
      PartOk(LineOf(s, u), Mine(s.delivered, u), queue, n);
      CountersOk(LineWritten(s, u, n), LineOf(t, u), Mine(s.delivered, u), queue);
    }
  }

  lemma {:induction false} FinishedOk(s: State, t: State, u: u64, n: nat)
    requires OpenOk(s, u) && n <= Offered(s, u) && Completes(s, u, n) && Pipe(t) == PipeWritten(s, u, n)
    requires (LineOf(t, u).emitted, LineOf(t, u).part) == (LineWritten(s, u, n).emitted, LineWritten(s, u, n).part)
    requires forall c | c in s.out :: c.Bytes() != []
    ensures OpenOk(t, u)
  {
    var done, queue := Mine(s.delivered, u), Mine(s.out, u);
    MineMembers(s.out, u);
    assert queue[0] in queue;
    WholeOk(LineOf(s, u), done, queue, n);
    MineSnoc(s.delivered, queue[0], u);
    MineWithoutFirst(s.out, u, u);
    CountersOk(LineWritten(s, u, n), LineOf(t, u), done + [queue[0]], queue[1..]);
  }

  lemma {:induction false} OtherWritten(s: State, t: State, conn: u64, n: nat, u: u64)
    requires n <= Offered(s, conn) && u != conn && Pipe(t) == PipeWritten(s, conn, n)
    ensures Mine(t.delivered, u) == Mine(s.delivered, u) && Mine(t.out, u) == Mine(s.out, u)
  {
    if Completes(s, conn, n) {
      var c := Mine(s.out, conn)[0];
      MineMembers(s.out, conn);
      assert c in Mine(s.out, conn);
      MineSnoc(s.delivered, c, u);
      Alone(Mine(s.delivered, u));
      MineWithoutFirst(s.out, conn, u);
    }
  }

  lemma {:induction false} WriteStepOk(s: State, t: State, conn: u64, n: nat, u: u64)
    requires OpenOk(s, u) && n <= Offered(s, conn) && Pipe(t) == PipeWritten(s, conn, n)
    requires forall c | c in s.out :: c.Bytes() != []
    requires (LineOf(t, u).emitted, LineOf(t, u).part) ==
             if u == conn then (LineWritten(s, u, n).emitted, LineWritten(s, u, n).part)
             else (LineOf(s, u).emitted, LineOf(s, u).part)
    ensures OpenOk(t, u)
  {
    if u == conn {
      WrittenOk(s, t, u, n);
    } else {
      OtherWritten(s, t, conn, n, u);
      SameOk(s, t, u);
    }
  }

  lemma {:induction false} SendOk(s: State, t: State, c: Ctx, u: u64)
    requires OpenOk(s, u) && c.Bytes() != [] && LineOf(t, u) == LineOf(s, u)
    requires Pipe(t) == (s.sent + [c], s.delivered, if c.conn in s.live then s.out + [c] else s.out, s.open)
    ensures OpenOk(t, u)
  {
    if c.conn in s.live && c.conn == u && u in s.open {
      MineSnoc(s.out, c, u);
      QueueOk(LineOf(s, u), Mine(s.delivered, u), Mine(s.out, u), c);
    } else {
      MineSnoc(s.out, c, u);
      Alone(Mine(s.out, u));
      if u in s.open && c.conn != u {
        SameOk(s, t, u);
      }
    }
  }

  lemma {:induction false} AcceptOk(s: State, t: State, u: u64)
    requires OpenOk(s, u) && FlowingAt(s, u) && forall c | c in s.sent :: c.conn < s.nextConn
    requires Pipe(t) == (s.sent, s.delivered, s.out, s.open + {s.nextConn})
    requires LineOf(t, u) == if u == s.nextConn then Line([], 0, 0, 0) else LineOf(s, u)
    ensures OpenOk(t, u)
  {
    if u == s.nextConn {
      NoneMine(s.sent, u);
      NoneMine(s.out, u);
      assert FramesOf([]) == [] && Concat([]) == [];
    } else {
      SameOk(s, t, u);
    }
  }

  lemma {:induction false} CloseOk(s: State, t: State, conn: u64, u: u64)
    requires OpenOk(s, u) && Pipe(t) == (s.sent, s.delivered, Others(s.out, conn), s.open - {conn})
    requires LineOf(t, u) == LineOf(s, u)
    ensures OpenOk(t, u)
  {
    if u != conn {
      MineOfOthers(s.out, conn, u);
      SameOk(s, t, u);
    }
  }

  lemma {:induction false} StepLineOk(s: State, step: Step, u: u64)
    requires Running(s) && Enabled(s, step) && !step.Stop? && s.open <= s.live && OpenOk(s, u)
    requires FlowingAt(s, u) && forall c | c in s.sent :: c.conn < s.nextConn
    requires forall c | c in s.sent :: c.Bytes() != []
    requires step.NetHandle? && s.net.batch[0].op.OpSend? ==> s.net.batch[0].Bytes() != []
    ensures OpenOk(Next(s, step), u)
  {
    var t := Next(s, step);
    StepPipe(s, step);
    StepLine(s, step, u);
    LineOkAfter(s, t, step, u);
  }

  lemma {:induction false} LineOkAfter(s: State, t: State, step: Step, u: u64)
    requires Enabled(s, step) && s.open <= s.live && OpenOk(s, u)
    requires FlowingAt(s, u) && forall c | c in s.sent :: c.conn < s.nextConn
    requires forall c | c in s.sent :: c.Bytes() != []
    requires step.NetHandle? && s.net.batch[0].op.OpSend? ==> s.net.batch[0].Bytes() != []
    requires Pipe(t) == PipeAfter(s, step) && LineOf(t, u) == LineAfter(s, step, u)
    ensures OpenOk(t, u)
  {
    match step
    case NetHandle =>
      if s.net.batch[0].op.OpSend? {
        SendOk(s, t, s.net.batch[0], u);
      } else if s.net.batch[0].op.OpAccept? {
        AcceptOk(s, t, u);
      } else {
        SameOk(s, t, u);
      }
    case NetWrite(n) => WriteStepOk(s, t, s.net.batch[0].conn, n, u);
    case Write(conn, n) => WriteStepOk(s, t, conn, n, u);
    case Fail(conn) => if conn in s.open { CloseOk(s, t, conn, u); }
    case Hush(conn) => CloseOk(s, t, conn, u);
    case NetDelete => CloseOk(s, t, s.net.batch[0].conn, u);
    case _ => SameOk(s, t, u);
  }

  // ---------------------------------------------------------------- also once closed

  lemma {:induction false} SentGrows(s: State, step: Step)
    requires Enabled(s, step) && Running(s) && !step.Stop?
    ensures Next(s, step).sent == s.sent + SendsOf(NetOut(s, step))
  {
    SendsLeaving(s, step);
  }

  ghost predicate Prefixed(s: State, u: u64) {
    LineOf(s, u).emitted <= Concat(FramesOf(Mine(s.sent, u)))
  }

  lemma {:induction false} OpenPrefixed(s: State, u: u64)
    requires OpenOk(s, u) && FlowingAt(s, u) && u in s.open
    ensures Prefixed(s, u)
  {
    LineOkIsPrefix(LineOf(s, u), Mine(s.delivered, u), Mine(s.out, u));
  }

  /** A closed connection emits nothing more. */
  lemma {:induction false} ClosedLine(s: State, step: Step, u: u64)
    requires Enabled(s, step) && u !in s.open
    ensures LineAfter(s, step, u).emitted == LineOf(s, u).emitted || LineAfter(s, step, u).emitted == []
  {
  }

  lemma {:induction false} StepPrefixed(s: State, step: Step, u: u64)
    requires Running(s) && Enabled(s, step) && !step.Stop? && Prefixed(s, u)
    requires OpenOk(Next(s, step), u) && FlowingAt(Next(s, step), u)
    requires u in s.open ==> u in Next(s, step).open || LineAfter(s, step, u) == LineOf(s, u)
    ensures Prefixed(Next(s, step), u)
  {
    var t := Next(s, step);
    if u in t.open {
      OpenPrefixed(t, u);
    } else {
      StepLine(s, step, u);
      if u !in s.open {
        ClosedLine(s, step, u);
      }
      SentGrows(s, step);
      MineConcat(s.sent, SendsOf(NetOut(s, step)), u);
      LongerIsPrefix(LineOf(s, u).emitted, Mine(s.sent, u), Mine(SendsOf(NetOut(s, step)), u));
    }
  }

  /** Writing closes nothing. */
  lemma {:induction false} ClosingLine(s: State, step: Step, u: u64)
    requires Enabled(s, step) && Running(s) && !step.Stop? && u in s.open && s.open <= s.live
    requires forall v | v in s.live :: v < s.nextConn
    ensures u in Next(s, step).open || LineAfter(s, step, u) == LineOf(s, u)
  {
    StepPipe(s, step);
  }

  // ---------------------------------------------------------------- in every run

  lemma {:induction false} SendsHave(cs: seq<Ctx>, c: Ctx)
    requires c in cs && c.op.OpSend?
    ensures c in SendsOf(cs)
  {
    if cs[0] != c {
      SendsHave(cs[1..], c);
    }
  }

  lemma {:induction false} HeadIsLogged(s: State)
    requires s.log == SendFlow(s) && s.net.batch != [] && s.net.stage == Ready && s.net.batch[0].op.OpSend?
    ensures s.net.batch[0] in s.log
  {
    assert s.net.batch[0] == Rest(s.net)[0];
    SendsHave(Rest(s.net), s.net.batch[0]);
  }

  lemma {:induction false} ExecWired(steps: seq<Step>, u: u64)
    requires Exec(steps).Some? && Running(Exec(steps).value) && Early(Exec(steps).value)
    ensures OpenOk(Exec(steps).value, u) && Prefixed(Exec(steps).value, u)
  {
    if steps != [] {
      var before, step := steps[..|steps| - 1], steps[|steps| - 1];
      var s := Exec(before).value;
      RunningBefore(s, step);
      EventsGrow(s, step);
      ExecWired(before, u);
      ExecFlows(before, u);
      ExecFlows(steps, u);
      ExecOrderly(before);
      ExecLogged(before);
      ExecAddressed(before);
      ExecFramed(before);
      WiredStep(s, step, u);
    }
  }

  lemma {:induction false} WiredStep(s: State, step: Step, u: u64)
    requires Running(s) && Enabled(s, step) && !step.Stop? && OpenOk(s, u) && Prefixed(s, u)
    requires FlowingAt(s, u) && FlowingAt(Next(s, step), u) && Orderly(s) && Addressed(s)
    requires s.log == SendFlow(s) && Framed(s.log)
    ensures OpenOk(Next(s, step), u) && Prefixed(Next(s, step), u)
  {
    assert forall c | c in s.sent :: c in s.log;
    if step.NetHandle? && s.net.batch[0].op.OpSend? {
      HeadIsLogged(s);
    }
    StepLineOk(s, step, u);
    if u in s.open {
      ClosingLine(s, step, u);
    }
    StepPrefixed(s, step, u);
  }

  /** In every run, however send splits them: the bytes emitted on a connection are the frames of the
      messages written in full and then a proper part of the next one's; on a closed connection they stay a
      prefix of the frames handed to it. */
  lemma {:induction false} EmittedIsFrames(steps: seq<Step>, u: u64)
    requires Exec(steps).Some? && Running(Exec(steps).value) && Early(Exec(steps).value)
    ensures var s := Exec(steps).value;
            && LineOf(s, u).emitted <= Concat(FramesOf(Mine(s.sent, u)))
            && (u in s.open ==>
                  && Mine(s.sent, u) == Mine(s.delivered, u) + Mine(s.out, u)
                  && Whole(FramesOf(Mine(s.sent, u)), |LineOf(s, u).emitted|) == |Mine(s.delivered, u)|)
  {
    var s := Exec(steps).value;
    ExecWired(steps, u);
    ExecFlows(steps, u);
    if u in s.open {
      WholeOfLine(LineOf(s, u), Mine(s.delivered, u), Mine(s.out, u));
    }
  }

  lemma {:induction false} WholeOfLine(line: Line, done: seq<Ctx>, queue: seq<Ctx>)
    requires LineOk(line, done, queue)
    ensures Whole(FramesOf(done + queue), |line.emitted|) == |done|
    decreases |done|
  {
    if done == [] {
      assert done + queue == queue && FramesOf(done) == [] && Concat(FramesOf(done)) == [];
      if queue != [] {
        assert FramesOf(queue)[0] == queue[0].Bytes();
      }
    } else {
      var f := done[0].Bytes();
      assert done == [done[0]] + done[1..];
      FramesOfConcat([done[0]], done[1..]);
      FramesOfOne(done[0]);
      assert FramesOf(done + queue)[1..] == FramesOf(done[1..] + queue);
      assert line.emitted == f + line.emitted[|f|..];
      var rest := line.(emitted := line.emitted[|f|..]);
      Associative(f, Concat(FramesOf(done[1..])), if queue == [] then [] else queue[0].Bytes()[..line.part]);
      WholeOfLine(rest, done[1..], queue);
    }
  }

  // ---------------------------------------------------------------- what stays behind

  /** A message handed to u's connection whose WriteData is still to come. */
  function Handing(s: State, u: u64): nat {
    if s.net.batch != [] && s.net.stage == Busy && s.net.batch[0].op.OpSend? && s.net.batch[0].conn == u then 1 else 0
  }

  function HandingAfter(s: State, step: Step, u: u64): nat
    requires Enabled(s, step)
  {
    match step
    case NetHandle =>
      if s.net.batch[0].op.OpSend? && s.net.batch[0].conn == u && u in s.live then 1 else 0
    case NetWrite(_) => 0
    case NetDelete => 0
    case _ => Handing(s, u)
  }

  lemma {:induction false} NetHandleHanding(s: State, u: u64)
    requires Enabled(s, NetHandle) && Running(s)
    ensures Handing(NetHandled(s), u) == HandingAfter(s, NetHandle, u)
  {
  }

  lemma {:induction false} StepHanding(s: State, step: Step, u: u64)
    requires Enabled(s, step) && Running(s) && !step.Stop?
    ensures Handing(Next(s, step), u) == HandingAfter(s, step, u)
  {
    match step
    case NetHandle => NetHandleHanding(s, u);
    case WorkerHandle => WorkerHandleNet(s);
    case Write(conn, n) => WrittenSameLife(s, conn, n);
    case _ =>
  }

  lemma {:induction false} WorkerHandleNet(s: State)
    requires Enabled(s, WorkerHandle)
    ensures (WorkerHandled(s).net.batch, WorkerHandled(s).net.stage) == (s.net.batch, s.net.stage)
  {
  }

  ghost predicate Backlogged(s: State, u: u64) {
    u in s.open ==> |Mine(s.out, u)| + LineOf(s, u).late == LineOf(s, u).short + Handing(s, u)
  }

  lemma {:induction false} BacklogHandled(s: State, t: State, u: u64)
    requires Enabled(s, NetHandle) && s.open <= s.live && Backlogged(s, u)
    requires FlowingAt(s, u) && forall c | c in s.sent :: c.conn < s.nextConn
    requires Pipe(t) == PipeAfter(s, NetHandle) && LineOf(t, u) == LineAfter(s, NetHandle, u)
    requires Handing(t, u) == HandingAfter(s, NetHandle, u)
    ensures Backlogged(t, u)
  {
    var c := s.net.batch[0];
    if c.op.OpSend? {
      MineSnoc(s.out, c, u);
    } else if c.op.OpAccept? && u == s.nextConn {
      NoneMine(s.sent, u);
      NoneMine(s.out, u);
    }
  }

  lemma {:induction false} BacklogAfter(s: State, t: State, step: Step, u: u64)
    requires Enabled(s, step) && s.open <= s.live && Backlogged(s, u)
    requires FlowingAt(s, u) && forall c | c in s.sent :: c.conn < s.nextConn
    requires Pipe(t) == PipeAfter(s, step) && LineOf(t, u) == LineAfter(s, step, u)
    requires Handing(t, u) == HandingAfter(s, step, u)
    ensures Backlogged(t, u)
  {
    match step
    case NetHandle => BacklogHandled(s, t, u);
    case NetWrite(n) => BacklogWritten(s, t, s.net.batch[0].conn, n, u);
    case Write(conn, n) => BacklogWritten(s, t, conn, n, u);
    case Fail(conn) => if u != conn { MineOfOthers(s.out, conn, u); }
    case Hush(conn) => if u != conn { MineOfOthers(s.out, conn, u); }
    case NetDelete => if u != s.net.batch[0].conn { MineOfOthers(s.out, s.net.batch[0].conn, u); }
    case _ =>
  }

  lemma {:induction false} BacklogWritten(s: State, t: State, conn: u64, n: nat, u: u64)
    requires n <= Offered(s, conn) && Pipe(t) == PipeWritten(s, conn, n)
    ensures |Mine(t.out, u)| == |Mine(s.out, u)| - if u == conn && Completes(s, conn, n) then 1 else 0
  {
    if Completes(s, conn, n) {
      MineWithoutFirst(s.out, conn, u);
    }
  }

  lemma {:induction false} StepBacklog(s: State, step: Step, u: u64)
    requires Running(s) && Enabled(s, step) && !step.Stop? && s.open <= s.live && Backlogged(s, u)
    requires FlowingAt(s, u) && forall c | c in s.sent :: c.conn < s.nextConn
    ensures Backlogged(Next(s, step), u)
  {
    StepPipe(s, step);
    StepLine(s, step, u);
    StepHanding(s, step, u);
    BacklogAfter(s, Next(s, step), step, u);
  }

  /** In every run, the messages waiting on an open connection are as many as hand-overs have finished no
      message, less those finished by later events, and the one being handed over: a message that send
      did not take whole is never made up for by the net service. */
  lemma {:induction false} BacklogExact(steps: seq<Step>, u: u64)
    requires Exec(steps).Some? && Running(Exec(steps).value) && Early(Exec(steps).value)
    requires u in Exec(steps).value.open
    ensures var s := Exec(steps).value;
            |Mine(s.out, u)| + LineOf(s, u).late == LineOf(s, u).short + Handing(s, u)
  {
    ExecBacklog(steps, u);
  }

  lemma {:induction false} ExecBacklog(steps: seq<Step>, u: u64)
    requires Exec(steps).Some? && Running(Exec(steps).value) && Early(Exec(steps).value)
    ensures Backlogged(Exec(steps).value, u)
  {
    if steps != [] {
      var before, step := steps[..|steps| - 1], steps[|steps| - 1];
      var s := Exec(before).value;
      RunningBefore(s, step);
      EventsGrow(s, step);
      ExecBacklog(before, u);
      ExecFlows(before, u);
      ExecOrderly(before);
      ExecLogged(before);
      ExecAddressed(before);
      assert forall c | c in s.sent :: c in s.log;
      StepBacklog(s, step, u);
    }
  }
}
