/** The messages of one connection: handled by the net service, queued, written. */
module ConnectionOrder {
  import opened Octets
  import opened Pipeline
  import opened MessageLife
  import opened NoGhosts
  import opened SystemRuns
  import opened Delivered

  // ---------------------------------------------------------------- one connection's share

  lemma {:induction false} MineConcat(a: seq<Ctx>, b: seq<Ctx>, u: u64)
    ensures Mine(a + b, u) == Mine(a, u) + Mine(b, u)
  {
    if a == [] {
      assert a + b == b;
    } else {
      assert (a + b)[1..] == a[1..] + b;
      MineConcat(a[1..], b, u);
      Associative(if a[0].conn == u then [a[0]] else [], Mine(a[1..], u), Mine(b, u));
    }
  }

  lemma {:induction false} MineSnoc(cs: seq<Ctx>, c: Ctx, u: u64)
    ensures Mine(cs + [c], u) == Mine(cs, u) + if c.conn == u then [c] else []
  {
    MineConcat(cs, [c], u);
    assert [c][1..] == [];
  }

  lemma {:induction false} MineOfOthers(cs: seq<Ctx>, conn: u64, u: u64)
    requires u != conn
    ensures Mine(Others(cs, conn), u) == Mine(cs, u)
  {
    if cs != [] {
      MineOfOthers(cs[1..], conn, u);
      if cs[0].conn != conn {
        assert Others(cs, conn)[1..] == Others(cs[1..], conn);
      } else {
        assert Others(cs, conn) == Others(cs[1..], conn);
      }
    }
  }

  lemma {:induction false} MineWithoutFirst(cs: seq<Ctx>, conn: u64, u: u64)
    requires Mine(cs, conn) != []
    ensures Mine(WithoutFirst(cs, conn), u) == if u == conn then Mine(cs, conn)[1..] else Mine(cs, u)
  {
    if cs[0].conn != conn {
      MineWithoutFirst(cs[1..], conn, u);
      assert ([cs[0]] + WithoutFirst(cs[1..], conn))[1..] == WithoutFirst(cs[1..], conn);
    }
  }

  lemma {:induction false} MineMembers(cs: seq<Ctx>, u: u64)
    ensures forall c | c in Mine(cs, u) :: c in cs && c.conn == u
  {
    if cs != [] {
      MineMembers(cs[1..], u);
      assert cs == [cs[0]] + cs[1..];
    }
  }

  lemma {:induction false} NoneMine(cs: seq<Ctx>, u: u64)
    requires forall c | c in cs :: c.conn != u
    ensures Mine(cs, u) == []
  {
    if cs != [] {
      assert cs[0] in cs && forall c | c in cs[1..] :: c in cs;
      NoneMine(cs[1..], u);
    }
  }

  lemma {:induction false} OthersMembers(cs: seq<Ctx>, conn: u64)
    ensures forall c | c in Others(cs, conn) :: c in cs
    ensures forall c | c in WithoutFirst(cs, conn) :: c in cs
  {
    if cs != [] {
      OthersMembers(cs[1..], conn);
      assert cs == [cs[0]] + cs[1..];
    }
  }

  // ---------------------------------------------------------------- the invariant

  /** An open connection has written, in order, all that was handled for it but what it still has
      queued; a closed one a prefix. */
  ghost predicate Flowing(sent: seq<Ctx>, delivered: seq<Ctx>, out: seq<Ctx>, open: set<u64>, u: u64) {
    && Mine(delivered, u) <= Mine(sent, u)
    && (u in open ==> Mine(sent, u) == Mine(delivered, u) + Mine(out, u))
  }

  ghost predicate FlowingAt(s: State, u: u64) {
    Flowing(s.sent, s.delivered, s.out, s.open, u) && forall c | c in s.out :: c in s.sent
  }

  function Pipe(s: State): (seq<Ctx>, seq<Ctx>, seq<Ctx>, set<u64>) {
    (s.sent, s.delivered, s.out, s.open)
  }

  function PipeWritten(s: State, conn: u64, n: nat): (seq<Ctx>, seq<Ctx>, seq<Ctx>, set<u64>) {
    if Completes(s, conn, n) then (s.sent, s.delivered + [Mine(s.out, conn)[0]], WithoutFirst(s.out, conn), s.open)
    else Pipe(s)
  }

  lemma {:induction false} WrittenPipe(s: State, conn: u64, n: nat)
    requires n <= Offered(s, conn)
    ensures Pipe(HandedOver(s, conn, n)) == Pipe(WrittenLater(s, conn, n)) == PipeWritten(s, conn, n)
  {
  }

  function PipeAfter(s: State, step: Step): (seq<Ctx>, seq<Ctx>, seq<Ctx>, set<u64>)
    requires Enabled(s, step)
  {
    match step
    case NetHandle =>
      var c := s.net.batch[0];
      if c.op.OpSend? then (s.sent + [c], s.delivered, if c.conn in s.live then s.out + [c] else s.out, s.open)
      else if c.op.OpAccept? then (s.sent, s.delivered, s.out, s.open + {s.nextConn})
      else Pipe(s)
    case Fail(conn) => if conn in s.open then (s.sent, s.delivered, Others(s.out, conn), s.open - {conn}) else Pipe(s)
    case Hush(conn) => (s.sent, s.delivered, Others(s.out, conn), s.open - {conn})
    case NetDelete =>
      var conn := s.net.batch[0].conn;
      (s.sent, s.delivered, Others(s.out, conn), s.open - {conn})
    case NetWrite(n) => PipeWritten(s, s.net.batch[0].conn, n)
    case Write(conn, n) => PipeWritten(s, conn, n)
    case _ => Pipe(s)
  }

  lemma {:induction false} NetHandlePipe(s: State)
    requires Enabled(s, NetHandle) && Running(s)
    ensures Pipe(NetHandled(s)) == PipeAfter(s, NetHandle)
  {
  }

  lemma {:induction false} StepPipe(s: State, step: Step)
    requires Enabled(s, step) && Running(s) && !step.Stop?
    ensures Pipe(Next(s, step)) == PipeAfter(s, step)
  {
    match step
    case NetHandle => NetHandlePipe(s);
    case NetWrite(n) => WrittenPipe(s, s.net.batch[0].conn, n);
    case Write(conn, n) => WrittenPipe(s, conn, n);
    case _ =>
  }

  lemma {:induction false} SendFlows(s: State, t: State, c: Ctx, u: u64)
    requires FlowingAt(s, u) && s.open <= s.live
    requires Pipe(t) == (s.sent + [c], s.delivered, if c.conn in s.live then s.out + [c] else s.out, s.open)
    ensures FlowingAt(t, u)
  {
    MineSnoc(s.sent, c, u);
    MineSnoc(s.out, c, u);
    Associative(Mine(s.delivered, u), Mine(s.out, u), [c]);
    assert Mine(s.sent, u) <= Mine(t.sent, u);
  }

  lemma {:induction false} AcceptFlows(s: State, t: State, u: u64)
    requires FlowingAt(s, u) && Pipe(t) == (s.sent, s.delivered, s.out, s.open + {s.nextConn})
    requires forall c | c in s.sent :: c.conn < s.nextConn
    ensures FlowingAt(t, u)
  {
    if u == s.nextConn {
      NoneMine(s.sent, u);
      NoneMine(s.out, u);
    }
  }

  lemma {:induction false} CloseFlows(s: State, t: State, conn: u64, u: u64)
    requires FlowingAt(s, u) && Pipe(t) == (s.sent, s.delivered, Others(s.out, conn), s.open - {conn})
    ensures FlowingAt(t, u)
  {
    OthersMembers(s.out, conn);
    if u != conn {
      MineOfOthers(s.out, conn, u);
    }
  }

  lemma {:induction false} WroteFlows(s: State, t: State, conn: u64, u: u64)
    requires FlowingAt(s, u) && conn in s.open && Mine(s.out, conn) != []
    requires Pipe(t) == (s.sent, s.delivered + [Mine(s.out, conn)[0]], WithoutFirst(s.out, conn), s.open)
    ensures FlowingAt(t, u)
  {
    MineMembers(s.out, conn);
    OthersMembers(s.out, conn);
    if u == conn {
      WroteMine(s.sent, s.delivered, s.out, s.open, u);
    } else {
      WroteOther(s.sent, s.delivered, s.out, s.open, conn, u);
    }
  }

  lemma {:induction false} WroteMine(sent: seq<Ctx>, delivered: seq<Ctx>, out: seq<Ctx>, open: set<u64>, u: u64)
    requires Flowing(sent, delivered, out, open, u) && u in open && Mine(out, u) != []
    ensures Flowing(sent, delivered + [Mine(out, u)[0]], WithoutFirst(out, u), open, u)
  {
    var c := Mine(out, u)[0];
    MineMembers(out, u);
    MineSnoc(delivered, c, u);
    MineWithoutFirst(out, u, u);
    FirstMoves(Mine(delivered, u), Mine(out, u));
  }

  lemma {:induction false} WroteOther(sent: seq<Ctx>, delivered: seq<Ctx>, out: seq<Ctx>, open: set<u64>, conn: u64,
      u: u64)
    requires Flowing(sent, delivered, out, open, u) && u != conn && Mine(out, conn) != []
    ensures Flowing(sent, delivered + [Mine(out, conn)[0]], WithoutFirst(out, conn), open, u)
  {
    var c := Mine(out, conn)[0];
    MineMembers(out, conn);
    assert c in Mine(out, conn);
    MineSnoc(delivered, c, u);
    Alone(Mine(delivered, u));
    MineWithoutFirst(out, conn, u);
  }

  lemma {:induction false} FirstMoves(done: seq<Ctx>, queue: seq<Ctx>)
    requires queue != []
    ensures done + queue == (done + [queue[0]]) + queue[1..] && queue[0] in queue
  {
    assert queue == [queue[0]] + queue[1..];
    Associative(done, [queue[0]], queue[1..]);
  }

  lemma {:induction false} StepFlows(s: State, step: Step, u: u64)
    requires FlowingAt(s, u) && Running(s) && Enabled(s, step) && !step.Stop? && s.open <= s.live
    requires forall c | c in s.sent :: c.conn < s.nextConn
    ensures FlowingAt(Next(s, step), u)
  {
    var t := Next(s, step);
    StepPipe(s, step);
    match step
    case NetHandle =>
      if s.net.batch[0].op.OpSend? {
        SendFlows(s, t, s.net.batch[0], u);
      } else if s.net.batch[0].op.OpAccept? {
        AcceptFlows(s, t, u);
      }
    case Fail(conn) => if conn in s.open { CloseFlows(s, t, conn, u); }
    case Hush(conn) => CloseFlows(s, t, conn, u);
    case NetDelete => CloseFlows(s, t, s.net.batch[0].conn, u);
    case NetWrite(n) => if Completes(s, s.net.batch[0].conn, n) { WroteFlows(s, t, s.net.batch[0].conn, u); }
    case Write(conn, n) => if Completes(s, conn, n) { WroteFlows(s, t, conn, u); }
    case _ =>
  }

  lemma {:induction false} ExecFlows(steps: seq<Step>, u: u64)
    requires Exec(steps).Some? && Running(Exec(steps).value) && Early(Exec(steps).value)
    ensures FlowingAt(Exec(steps).value, u)
  {
    if steps != [] {
      var before, step := steps[..|steps| - 1], steps[|steps| - 1];
      var s := Exec(before).value;
      RunningBefore(s, step);
      EventsGrow(s, step);
      ExecFlows(before, u);
      ExecOrderly(before);
      ExecLogged(before);
      ExecAddressed(before);
      assert forall c | c in s.sent :: c in s.log;
      StepFlows(s, step, u);
    }
  }
}
