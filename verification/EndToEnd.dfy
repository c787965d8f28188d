/** The server's threads, the wire and the client together. */
module EndToEnd {
  import opened Octets
  import opened Chat
  import opened KeeperSpec
  import opened KeeperRuns
  import opened ReplicaSpec
  import opened Coherence
  import opened Delivery
  import opened Framing
  import opened MsgBuffer
  import opened Pipeline
  import opened PipelineOrder
  import opened NoGhosts
  import opened SystemRuns
  import opened Delivered
  import opened ConnectionOrder
  import opened Wires
  import Connections

  lemma {:induction false} ToMine(cs: seq<Ctx>, u: u64)
    requires forall c | c in cs :: c.op.OpSend?
    ensures To(Emitted(cs), u) == Bodies(Mine(cs, u))
  {
    if cs != [] {
      assert cs == [cs[0]] + cs[1..];
      ToMine(cs[1..], u);
      ToConcat([Send(cs[0].conn, cs[0].op.body)], Emitted(cs[1..]), u);
      ToOne(Send(cs[0].conn, cs[0].op.body), u);
      BodiesCons(cs[0], Mine(cs[1..], u));
      assert Emitted(cs) == [Send(cs[0].conn, cs[0].op.body)] + Emitted(cs[1..]);
      assert Mine(cs, u) == if cs[0].conn == u then [cs[0]] + Mine(cs[1..], u) else Mine(cs[1..], u);
    }
  }

  function Bodies(cs: seq<Ctx>): seq<Reply> {
    if cs == [] then []
    else (match cs[0].op case OpSend(body, _) => [body] case _ => []) + Bodies(cs[1..])
  }

  lemma {:induction false} BodiesCons(c: Ctx, cs: seq<Ctx>)
    requires c.op.OpSend?
    ensures Bodies([c] + cs) == [c.op.body] + Bodies(cs)
  {
    assert ([c] + cs)[1..] == cs;
  }

  lemma {:induction false} BodiesConcat(a: seq<Ctx>, b: seq<Ctx>)
    ensures Bodies(a + b) == Bodies(a) + Bodies(b)
  {
    if a == [] {
      assert a + b == b;
    } else {
      assert (a + b)[1..] == a[1..] + b;
      BodiesConcat(a[1..], b);
      Associative(match a[0].op case OpSend(body, _) => [body] case _ => [], Bodies(a[1..]), Bodies(b));
    }
  }

  /** Still ahead of connection u: in its queue, ahead of the net service, or not yet queued. */
  function Ahead(s: State, u: u64): seq<Reply> {
    Bodies(Mine(s.out, u)) + Bodies(Mine(SendsOf(Rest(s.net)) + SendsOf(Rest(s.worker)), u)) + To(s.pending, u)
  }

  /** In every run: what was written to an open connection, followed by what is still ahead of it, is
      exactly what the worker's run sent it, in order and without gaps. */
  lemma {:induction false} WrittenThenAhead(steps: seq<Step>, u: u64)
    requires Exec(steps).Some? && Running(Exec(steps).value) && Early(Exec(steps).value)
    requires u in Exec(steps).value.open
    ensures var s := Exec(steps).value;
            Run(s.events).Some? && Bodies(Mine(s.delivered, u)) + Ahead(s, u) == To(Run(s.events).value.1, u)
  {
    var s := Exec(steps).value;
    var rest := SendsOf(Rest(s.net)) + SendsOf(Rest(s.worker));
    ExecFlows(steps, u);
    ExecLogged(steps);
    ExecFaithful(steps);
    ExecAddressed(steps);
    MineConcat(s.sent, rest, u);
    ToMine(s.log, u);
    ToConcat(Emitted(s.log), s.pending, u);
    BodiesConcat(Mine(s.sent, u), Mine(rest, u));
    BodiesConcat(Mine(s.delivered, u), Mine(s.out, u));
    Associative(Bodies(Mine(s.delivered, u)), Bodies(Mine(s.out, u)), Bodies(Mine(rest, u)));
    Associative(Bodies(Mine(s.delivered, u)), Bodies(Mine(s.out, u)) + Bodies(Mine(rest, u)), To(s.pending, u));
  }

  /** Hence, when nothing is ahead of a logged-on user's connection, a client that has applied what was
      written to it shows exactly the server's state. */
  lemma {:induction false} QuietClientIsCoherent(steps: seq<Step>, u: u64)
    requires Exec(steps).Some? && Running(Exec(steps).value) && Early(Exec(steps).value)
    requires u in Exec(steps).value.open && u in Exec(steps).value.keeper.users && Ahead(Exec(steps).value, u) == []
    ensures var s := Exec(steps).value;
            Coherent(s.keeper, ApplyAll(Start(), Bodies(Mine(s.delivered, u))), u)
  {
    var s := Exec(steps).value;
    WrittenThenAhead(steps, u);
    ExecFaithful(steps);
    ViewCoherence(s.events, u);
    assert Bodies(Mine(s.delivered, u)) + [] == Bodies(Mine(s.delivered, u));
  }

  /** Once the worker has handled a connection's drop, its id is neither logged on nor in any room, and
      no request of it is anywhere in the pipeline. */
  lemma {:induction false} NoGhostUsers(steps: seq<Step>, u: u64)
    requires Exec(steps).Some? && Running(Exec(steps).value) && Early(Exec(steps).value)
    requires Dropped(u) in Exec(steps).value.events
    ensures var s := Exec(steps).value;
            && u !in s.keeper.users && RoomsOf(s.keeper, u) == {}
            && (forall e | e in EventsOf(Rest(s.worker)) + EventsOf(Rest(s.net)) && e.conn == u :: e.Dropped?)
  {
    var s := Exec(steps).value;
    var later := EventsOf(Rest(s.worker)) + EventsOf(Rest(s.net));
    ExecOrderly(steps);
    ExecFaithful(steps);
    RunKeepsInv(s.events);
    DropsLastSplit(s.events, later, u);
    DroppedStaysOut(s.events, u);
    ExactlyOneRoom(s.keeper, u);
  }

  lemma {:induction false} DropsLastSplit(done: seq<Event>, later: seq<Event>, u: u64)
    requires DropsLast(done + later) && Dropped(u) in done
    ensures DropsLast(done) && forall e | e in later && e.conn == u :: e.Dropped?
  {
    var all := done + later;
    var i :| 0 <= i < |done| && done[i] == Dropped(u);
    assert all[i] == Dropped(u);
    forall e | e in later && e.conn == u
      ensures e.Dropped?
    {
      var j :| 0 <= j < |later| && later[j] == e;
      assert all[|done| + j] == e;
    }
    assert forall a | 0 <= a < |done| :: all[a] == done[a];
  }

  // ---------------------------------------------------------------- common order

  /** How many sends the first n events caused. */
  function Count(es: seq<Event>, n: nat): nat
    requires n <= |es|
  {
    match Run(es[..n]) case None => 0 case Some((_, log)) => |log|
  }

  /** The context was queued for event number n. */
  ghost predicate FromEvent(s: State, c: Ctx, n: nat) {
    n < |s.events| && exists i | 0 <= i < |s.log| :: Count(s.events, n) <= i < Count(s.events, n + 1) && s.log[i] == c
  }

  ghost predicate Precedes(cs: seq<Ctx>, a: Ctx, b: Ctx) {
    exists p, q | 0 <= p < q < |cs| :: cs[p] == a && cs[q] == b
  }

  lemma {:induction false} RunPrefix(es: seq<Event>, n: nat)
    requires n <= |es| && Run(es).Some?
    ensures Run(es[..n]).Some? && Run(es[..n]).value.1 <= Run(es).value.1
  {
    if n < |es| {
      var before := es[..|es| - 1];
      assert before[..n] == es[..n];
      RunPrefix(before, n);
    } else {
      assert es[..n] == es;
    }
  }

  lemma {:induction false} CountsGrow(es: seq<Event>, m: nat, n: nat)
    requires m <= n <= |es| && Run(es).Some?
    ensures Count(es, m) <= Count(es, n)
  {
    RunPrefix(es, n);
    assert es[..n][..m] == es[..m];
    RunPrefix(es[..n], m);
  }

  lemma {:induction false} EmittedAt(cs: seq<Ctx>, i: nat)
    requires i < |cs| && forall c | c in cs :: c.op.OpSend?
    ensures |Emitted(cs)| == |cs| && Emitted(cs)[i] == Send(cs[i].conn, cs[i].op.body)
  {
    assert cs == [cs[0]] + cs[1..] && cs[0] in cs;
    assert Emitted(cs) == [Send(cs[0].conn, cs[0].op.body)] + Emitted(cs[1..]);
    if |cs| > 1 {
      EmittedAt(cs[1..], if i == 0 then 0 else i - 1);
    }
  }

  lemma {:induction false} RunUnfold(es: seq<Event>)
    requires es != [] && Run(es).Some? && Run(es[..|es| - 1]).Some?
    ensures var ((k, log), e) := (Run(es[..|es| - 1]).value, es[|es| - 1]);
            !Aborts(k, e) && Run(es).value.1 == log + KeeperRuns.Sends(k, e)
  {
  }

  lemma {:induction false} SendOfEvent(es: seq<Event>, i: nat)
    requires es != [] && Run(es).Some? && Run(es[..|es| - 1]).Some?
    requires |Run(es[..|es| - 1]).value.1| <= i < |Run(es).value.1|
    ensures var k := Run(es[..|es| - 1]).value.0;
            !Aborts(k, es[|es| - 1]) && Run(es).value.1[i] in KeeperRuns.Sends(k, es[|es| - 1])
  {
    var (k, log) := Run(es[..|es| - 1]).value;
    RunUnfold(es);
    InSuffix(log, KeeperRuns.Sends(k, es[|es| - 1]), i);
  }

  lemma {:induction false} InSuffix(a: seq<Send>, b: seq<Send>, i: nat)
    requires |a| <= i < |a + b|
    ensures (a + b)[i] in b
  {
    assert (a + b)[i] == b[i - |a|];
  }

  lemma {:induction false} SendOfEarlierEvent(es: seq<Event>, n: nat, i: nat)
    requires n < |es| && Run(es).Some? && Count(es, n) <= i < Count(es, n + 1)
    ensures Run(es[..n]).Some? && !Aborts(Run(es[..n]).value.0, es[n])
    ensures i < |Run(es).value.1| && Run(es).value.1[i] in KeeperRuns.Sends(Run(es[..n]).value.0, es[n])
  {
    RunPrefix(es, n);
    RunPrefix(es, n + 1);
    assert es[..n + 1][..n] == es[..n];
    SendOfEvent(es[..n + 1], i);
  }

  /** Such a context carries one of the messages the keeper sends for that event. */
  lemma {:induction false} EventOfContext(steps: seq<Step>, c: Ctx, n: nat)
    requires Exec(steps).Some? && Running(Exec(steps).value) && Early(Exec(steps).value)
    requires FromEvent(Exec(steps).value, c, n)
    ensures var es := Exec(steps).value.events;
            Run(es[..n]).Some? && !Aborts(Run(es[..n]).value.0, es[n]) && c.op.OpSend?
            && Send(c.conn, c.op.body) in KeeperRuns.Sends(Run(es[..n]).value.0, es[n])
  {
    var s := Exec(steps).value;
    ExecFaithful(steps);
    ExecAddressed(steps);
    var i :| 0 <= i < |s.log| && Count(s.events, n) <= i < Count(s.events, n + 1) && s.log[i] == c;
    EmittedAt(s.log, i);
    SendOfEarlierEvent(s.events, n, i);
    assert (Emitted(s.log) + s.pending)[i] == Emitted(s.log)[i];
  }

  ghost predicate Ascends(cs: seq<Ctx>) {
    forall i, j | 0 <= i < j < |cs| :: cs[i].id < cs[j].id
  }

  lemma {:induction false} MineAscends(cs: seq<Ctx>, u: u64)
    requires Ascends(cs)
    ensures Ascends(Mine(cs, u)) && forall c | c in cs && c.conn == u :: c in Mine(cs, u)
  {
    if cs != [] {
      assert cs == [cs[0]] + cs[1..];
      MineAscends(cs[1..], u);
      MineMembers(cs[1..], u);
      assert forall c | c in cs[1..] :: cs[0].id < c.id;
    }
  }

  lemma {:induction false} EarlierInLog(s: State, a: Ctx, b: Ctx, m: nat, n: nat)
    requires m < n && FromEvent(s, a, m) && FromEvent(s, b, n) && Run(s.events).Some? && Ascends(s.log)
    ensures a in s.log && b in s.log && a.id < b.id
  {
    var i :| 0 <= i < |s.log| && Count(s.events, m) <= i < Count(s.events, m + 1) && s.log[i] == a;
    var j :| 0 <= j < |s.log| && Count(s.events, n) <= j < Count(s.events, n + 1) && s.log[j] == b;
    CountsGrow(s.events, m + 1, n);
  }

  /** A connection that has been written the message of a later event was written that of the earlier
      event before it. So any two recipients of two chat messages get them in the same order. */
  lemma {:induction false} CommonOrder(steps: seq<Step>, m: nat, n: nat, a: Ctx, b: Ctx)
    requires Exec(steps).Some? && Running(Exec(steps).value) && Early(Exec(steps).value)
    requires m < n && FromEvent(Exec(steps).value, a, m) && FromEvent(Exec(steps).value, b, n)
    requires a.conn == b.conn && b in Exec(steps).value.delivered
    ensures Precedes(Mine(Exec(steps).value.delivered, a.conn), a, b)
  {
    var s := Exec(steps).value;
    var u := a.conn;
    ExecFaithful(steps);
    ExecAddressed(steps);
    ExecFlows(steps, u);
    ExecLogged(steps);
    EarlierInLog(s, a, b, m, n);
    WrittenIsPrefix(s.delivered, s.sent, SendsOf(Rest(s.net)) + SendsOf(Rest(s.worker)), u);
    InDeliveredOrder(s.log, s.delivered, a, b, u);
  }

  lemma {:induction false} WrittenIsPrefix(delivered: seq<Ctx>, sent: seq<Ctx>, later: seq<Ctx>, u: u64)
    requires Mine(delivered, u) <= Mine(sent, u)
    ensures Mine(delivered, u) <= Mine(sent + later, u)
  {
    MineConcat(sent, later, u);
  }

  lemma {:induction false} InDeliveredOrder(log: seq<Ctx>, delivered: seq<Ctx>, a: Ctx, b: Ctx, u: u64)
    requires Ascends(log) && Mine(delivered, u) <= Mine(log, u)
    requires a in log && b in delivered && a.id < b.id && a.conn == b.conn == u
    ensures Precedes(Mine(delivered, u), a, b)
  {
    MineAscends(log, u);
    MineHas(delivered, b);
    var mine, got := Mine(log, u), Mine(delivered, u);
    var p :| 0 <= p < |mine| && mine[p] == a;
    var q :| 0 <= q < |got| && got[q] == b;
    assert mine[q] == b;
    assert p < q;
    assert got[p] == a;
  }

  lemma {:induction false} MineHas(cs: seq<Ctx>, c: Ctx)
    requires c in cs
    ensures c in Mine(cs, c.conn)
  {
    if cs[0] != c {
      assert cs == [cs[0]] + cs[1..];
      MineHas(cs[1..], c);
    }
  }

  // ---------------------------------------------------------------- bytes

  lemma {:induction false} FitsAdmissible(body: Reply)
    requires body.Fits()
    ensures Admissible(|body.Encode()|)
  {
    FitCounts(body);
    TypeWord(body);
    WritableIsSmall(body.Fields());
  }

  /** The frames that carry the messages. */
  ghost predicate Carrying(frames: seq<bytes>, bodies: seq<Reply>) {
    |frames| == |bodies| && forall i | 0 <= i < |frames| :: bodies[i].Fits() && IsFrame(frames[i], bodies[i].Encode())
  }

  function PayloadsIn(frames: seq<bytes>): (ps: seq<bytes>)
    ensures |ps| == |frames|
  {
    seq(|frames|, i requires 0 <= i < |frames| => if |frames[i]| >= 8 then frames[i][8..] else [])
  }

  lemma {:induction false} CarryingIsWellFramed(frames: seq<bytes>, bodies: seq<Reply>)
    requires Carrying(frames, bodies)
    ensures forall f | f in frames :: WellFramed(f)
  {
    forall i | 0 <= i < |frames|
      ensures WellFramed(frames[i])
    {
      FitsAdmissible(bodies[i]);
      FrameIsWellFramed(frames[i], bodies[i].Encode());
    }
  }

  lemma {:induction false} CarriedPayloads(frames: seq<bytes>, bodies: seq<Reply>, k: nat)
    requires Carrying(frames, bodies) && k <= |frames|
    ensures PayloadsIn(frames[..k]) == Payloads(bodies[..k])
  {
    forall i | 0 <= i < k
      ensures PayloadsIn(frames[..k])[i] == Payloads(bodies[..k])[i]
    {
      assert IsFrame(frames[i], bodies[i].Encode());
    }
  }

  /** However the stream was cut on its way: after any number of its bytes have arrived the client has
      applied exactly the messages whose frames are complete. */
  lemma {:induction false} ClientAfterBytes(frames: seq<bytes>, bodies: seq<Reply>, arrived: bytes)
    requires Carrying(frames, bodies) && AllConsistentBodies(bodies) && arrived <= Concat(frames)
    ensures var k := Whole(frames, |arrived|);
            ReceiveAll(Start(), PayloadsIn(Deframe(arrived).0)) == Some(ApplyAll(Start(), bodies[..k]))
  {
    BytesOffered(frames, bodies, arrived);
    ReceiveAllEncoded(Start(), bodies[..Whole(frames, |arrived|)]);
  }

  ghost predicate AllConsistentBodies(bodies: seq<Reply>) {
    forall b | b in bodies :: Consistent(b)
  }

  // ---------------------------------------------------------------- the connection of the state machine

  lemma {:induction false} BodiesAre(cs: seq<Ctx>)
    requires forall c | c in cs :: c.op.OpSend?
    ensures |Bodies(cs)| == |cs| && forall i | 0 <= i < |cs| :: Bodies(cs)[i] == cs[i].op.body
  {
    if cs != [] {
      assert forall c | c in cs[1..] :: c in cs;
      assert cs[0] in cs;
      BodiesAre(cs[1..]);
    }
  }

  /** The messages handed to a connection so far fit their buffers. */
  ghost predicate AllFit(cs: seq<Ctx>) {
    forall c | c in cs :: c.op.OpSend? && c.op.body.Fits()
  }

  lemma {:induction false} FramesCarryBodies(cs: seq<Ctx>)
    requires Framed(cs) && AllFit(cs)
    ensures Carrying(FramesOf(cs), Bodies(cs))
  {
    BodiesAre(cs);
    forall i | 0 <= i < |cs|
      ensures Bodies(cs)[i].Fits() && IsFrame(FramesOf(cs)[i], Bodies(cs)[i].Encode())
    {
      assert cs[i] in cs;
    }
  }

  /** What was handed to a connection is what the worker's run sent it first. */
  lemma {:induction false} HandedIsSent(steps: seq<Step>, u: u64)
    requires Exec(steps).Some? && Running(Exec(steps).value) && Early(Exec(steps).value)
    ensures var s := Exec(steps).value;
            Run(s.events).Some? && Bodies(Mine(s.sent, u)) <= To(Run(s.events).value.1, u)
  {
    var s := Exec(steps).value;
    var rest := SendsOf(Rest(s.net)) + SendsOf(Rest(s.worker));
    ExecLogged(steps);
    ExecFaithful(steps);
    ExecAddressed(steps);
    MineConcat(s.sent, rest, u);
    ToMine(s.log, u);
    ToConcat(Emitted(s.log), s.pending, u);
    BodiesConcat(Mine(s.sent, u), Mine(rest, u));
  }

  lemma {:induction false} SentIsFramed(steps: seq<Step>, u: u64)
    requires Exec(steps).Some? && Running(Exec(steps).value)
    ensures Framed(Mine(Exec(steps).value.sent, u))
  {
    var s := Exec(steps).value;
    ExecFramed(steps);
    ExecLogged(steps);
    MineMembers(s.sent, u);
    assert forall c | c in s.sent :: c in s.log;
  }

  /** What the reader at the other end of a connection has offered are the payloads of the first messages that
      the worker's run sent it: those whose frames have wholly arrived. */
  lemma {:induction false} OfferedOfConnection(steps: seq<Step>, u: u64, r: Connections.TcpConnection)
    requires Exec(steps).Some? && Running(Exec(steps).value) && Early(Exec(steps).value)
    requires AllFit(Mine(Exec(steps).value.sent, u))
    requires r.ReaderOk() && r.mSocket.mConsumed <= LineOf(Exec(steps).value, u).emitted
    ensures var s := Exec(steps).value;
            var k := Whole(FramesOf(Mine(s.sent, u)), |r.mSocket.mConsumed|);
            && Run(s.events).Some? && k <= |To(Run(s.events).value.1, u)|
            && PayloadsIn(r.mOffered) == Payloads(To(Run(s.events).value.1, u)[..k])
            && (forall b | b in To(Run(s.events).value.1, u)[..k] :: b.Fits() && Consistent(b))
  {
    var s := Exec(steps).value;
    var handed := Mine(s.sent, u);
    var frames, bodies := FramesOf(handed), Bodies(handed);
    EmittedIsFrames(steps, u);
    SentIsFramed(steps, u);
    FramesCarryBodies(handed);
    HandedIsSent(steps, u);
    ConsistentRun(s.events, bodies, u);
    BodiesAre(handed);
    BytesOffered(frames, bodies, r.mSocket.mConsumed);
    var k := Whole(frames, |r.mSocket.mConsumed|);
    assert bodies[..k] == To(Run(s.events).value.1, u)[..k];
  }

  lemma {:induction false} BytesOffered(frames: seq<bytes>, bodies: seq<Reply>, arrived: bytes)
    requires Carrying(frames, bodies) && AllConsistentBodies(bodies) && arrived <= Concat(frames)
    ensures var k := Whole(frames, |arrived|);
            && PayloadsIn(Deframe(arrived).0) == Payloads(bodies[..k])
            && forall b | b in bodies[..k] :: b.Fits() && Consistent(b)
  {
    var k := Whole(frames, |arrived|);
    CarryingIsWellFramed(frames, bodies);
    DeframeExactly(frames, |arrived|);
    assert Concat(frames)[..|arrived|] == arrived;
    CarriedPayloads(frames, bodies, k);
    assert forall b | b in bodies[..k] :: b in bodies && b.Fits();
  }

  /** Threads, queues, bytes and client together: whatever was taken so far by a reader at the other end of
      a connection, with the stream cut anywhere and short sends anywhere, the client that decodes what the
      reader has offered has applied exactly the first messages that the worker's run sent it: those whose
      frames have wholly arrived. */
  lemma {:induction false} ClientOfConnection(steps: seq<Step>, u: u64, r: Connections.TcpConnection)
    requires Exec(steps).Some? && Running(Exec(steps).value) && Early(Exec(steps).value)
    requires AllFit(Mine(Exec(steps).value.sent, u))
    requires r.ReaderOk() && r.mSocket.mConsumed <= LineOf(Exec(steps).value, u).emitted
    ensures var s := Exec(steps).value;
            var k := Whole(FramesOf(Mine(s.sent, u)), |r.mSocket.mConsumed|);
            && Run(s.events).Some? && k <= |To(Run(s.events).value.1, u)|
            && ReceiveAll(Start(), PayloadsIn(r.mOffered)) == Some(ApplyAll(Start(), To(Run(s.events).value.1, u)[..k]))
  {
    OfferedOfConnection(steps, u, r);
    var s := Exec(steps).value;
    ReceiveAllEncoded(Start(), To(Run(s.events).value.1, u)[..Whole(FramesOf(Mine(s.sent, u)), |r.mSocket.mConsumed|)]);
  }

  lemma {:induction false} ConsistentRun(es: seq<Event>, bodies: seq<Reply>, u: u64)
    requires |es| < 0xFFFF_FFFE && Run(es).Some? && bodies <= To(Run(es).value.1, u)
    ensures AllConsistentBodies(bodies)
  {
    RunConsistent(es);
    forall b | b in bodies
      ensures Consistent(b)
    {
      ToMembers(Run(es).value.1, u, b);
    }
  }

  /** When nothing is ahead of a connection and its reader has taken all that was emitted, all that the run sent
      it has arrived. */
  lemma {:induction false} AllArrived(steps: seq<Step>, u: u64, r: Connections.TcpConnection)
    requires Exec(steps).Some? && Running(Exec(steps).value) && Early(Exec(steps).value)
    requires u in Exec(steps).value.open && Ahead(Exec(steps).value, u) == []
    requires AllFit(Mine(Exec(steps).value.sent, u))
    requires r.ReaderOk() && r.mSocket.mConsumed == LineOf(Exec(steps).value, u).emitted
    ensures var s := Exec(steps).value;
            Run(s.events).Some?
            && Whole(FramesOf(Mine(s.sent, u)), |r.mSocket.mConsumed|) == |To(Run(s.events).value.1, u)|
  {
    var s := Exec(steps).value;
    EmittedIsFrames(steps, u);
    WrittenThenAhead(steps, u);
    Alone(Bodies(Mine(s.delivered, u)));
    SentIsFramed(steps, u);
    DeliveredBodies(s, u);
  }

  /** Then the client of a logged-on user shows exactly the server's state. */
  lemma {:induction false} SystemCoherence(steps: seq<Step>, u: u64, r: Connections.TcpConnection)
    requires Exec(steps).Some? && Running(Exec(steps).value) && Early(Exec(steps).value)
    requires u in Exec(steps).value.open && u in Exec(steps).value.keeper.users && Ahead(Exec(steps).value, u) == []
    requires AllFit(Mine(Exec(steps).value.sent, u))
    requires r.ReaderOk() && r.mSocket.mConsumed == LineOf(Exec(steps).value, u).emitted
    ensures var s := Exec(steps).value;
            var c := ReceiveAll(Start(), PayloadsIn(r.mOffered));
            c.Some? && Coherent(s.keeper, c.value, u)
  {
    var s := Exec(steps).value;
    ClientOfConnection(steps, u, r);
    AllArrived(steps, u, r);
    ExecFaithful(steps);
    ViewCoherence(s.events, u);
    var sent := To(Run(s.events).value.1, u);
    assert sent[..|sent|] == sent;
  }

  lemma {:induction false} DeliveredBodies(s: State, u: u64)
    requires Framed(Mine(s.sent, u)) && Mine(s.sent, u) == Mine(s.delivered, u) + Mine(s.out, u)
    ensures |Bodies(Mine(s.delivered, u))| == |Mine(s.delivered, u)|
  {
    assert forall c | c in Mine(s.delivered, u) :: c in Mine(s.sent, u);
    BodiesAre(Mine(s.delivered, u));
  }
}
