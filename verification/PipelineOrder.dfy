/** Order through the two services: what a step adds to and takes from the contexts still ahead. */
module PipelineOrder {
  import opened Octets
  import opened KeeperRuns
  import opened Pipeline
  import opened ContextLife

  // ---------------------------------------------------------------- filters

  function EventsOf(cs: seq<Ctx>): seq<Event> {
    if cs == [] then [] else (if cs[0].IsEvent() then [cs[0].AsEvent()] else []) + EventsOf(cs[1..])
  }

  function SendsOf(cs: seq<Ctx>): seq<Ctx> {
    if cs == [] then [] else (if cs[0].op.OpSend? then [cs[0]] else []) + SendsOf(cs[1..])
  }

  lemma {:induction false} FilterConcat(a: seq<Ctx>, b: seq<Ctx>)
    ensures EventsOf(a + b) == EventsOf(a) + EventsOf(b) && SendsOf(a + b) == SendsOf(a) + SendsOf(b)
  {
    if a == [] {
      assert a + b == b;
    } else {
      assert (a + b)[1..] == a[1..] + b;
      FilterConcat(a[1..], b);
      Associative(if a[0].IsEvent() then [a[0].AsEvent()] else [], EventsOf(a[1..]), EventsOf(b));
      Associative(if a[0].op.OpSend? then [a[0]] else [], SendsOf(a[1..]), SendsOf(b));
    }
  }

  lemma {:induction false} FilterOne(c: Ctx)
    ensures EventsOf([c]) == if c.IsEvent() then [c.AsEvent()] else []
    ensures SendsOf([c]) == if c.op.OpSend? then [c] else []
  {
    assert [c][1..] == [];
  }

  // ---------------------------------------------------------------- what a step moves

  /** The context a step appends to what the net service has ahead of it, if any. */
  function NetIn(s: State, step: Step): seq<Ctx>
    requires Enabled(s, step)
  {
    match step
    case Connect => [Ctx(s.next, OpAccept, 0)]
    case Arrive(conn, ip, port, request) => [Ctx(s.next, OpRecv(ip, port, request), conn)]
    case Fail(conn) => [Ctx(s.next, OpDrop, conn)]
    case WorkerHandle => if s.worker.batch[0].IsEvent() then [] else [s.worker.batch[0]]
    case _ => []
  }

  function NetOut(s: State, step: Step): seq<Ctx>
    requires Enabled(s, step)
  {
    if step.NetHandle? then [s.net.batch[0]] else []
  }

  function WorkIn(s: State, step: Step): seq<Ctx>
    requires Enabled(s, step)
  {
    match step
    case Emit(frame) => [NewSend(s, frame)]
    case NetHandle => if s.net.batch[0].IsEvent() then [s.net.batch[0]] else []
    case _ => []
  }

  function WorkOut(s: State, step: Step): seq<Ctx>
    requires Enabled(s, step)
  {
    if step.WorkerHandle? then [s.worker.batch[0]] else []
  }

  ghost predicate Moves(s: State, step: Step, t: State)
    requires Enabled(s, step)
  {
    && Rest(s.net) + NetIn(s, step) == NetOut(s, step) + Rest(t.net)
    && Rest(s.worker) + WorkIn(s, step) == WorkOut(s, step) + Rest(t.worker)
  }

  lemma {:induction false} NetHandleMoves(s: State)
    requires Linear(s.net) && Linear(s.worker) && Running(s) && Enabled(s, NetHandle)
    ensures Moves(s, NetHandle, NetHandled(s))
  {
    var c := s.net.batch[0];
    StartLinear(s.net, NetStage(s));
    PushLinear(s.worker, c);
    Alone(Rest(s.net));
    Alone(Rest(s.worker));
    Alone(Rest(NetHandled(s).worker));
    assert NetHandled(s).net == Started(s.net, NetStage(s));
    assert NetHandled(s).worker == if c.IsEvent() then Push(s.worker, c) else s.worker;
  }

  lemma {:induction false} WorkerHandleMoves(s: State)
    requires Linear(s.net) && Linear(s.worker) && Running(s) && Enabled(s, WorkerHandle)
    ensures Moves(s, WorkerHandle, WorkerHandled(s))
  {
    var c := s.worker.batch[0];
    var stage := if c.IsEvent() then Busy else Handled;
    StartLinear(s.worker, stage);
    PushLinear(s.net, c);
    Alone(Rest(s.net));
    Alone(Rest(s.worker));
    Alone(Rest(WorkerHandled(s).net));
    assert WorkerHandled(s).worker == Started(s.worker, stage);
    assert WorkerHandled(s).net == if c.IsEvent() then s.net else Push(s.net, c);
  }

  /** Each queue only ever gains at its end and loses at its front. */
  lemma {:induction false} StepMoves(s: State, step: Step)
    requires Linear(s.net) && Linear(s.worker) && Running(s) && Enabled(s, step) && !step.Stop?
    ensures Moves(s, step, Next(s, step))
  {
    var t := Next(s, step);
    Alone(Rest(s.net));
    Alone(Rest(s.worker));
    Alone(Rest(t.net));
    Alone(Rest(t.worker));
    match step
    case Connect => PushLinear(s.net, Ctx(s.next, OpAccept, 0));
    case Arrive(conn, ip, port, request) => PushLinear(s.net, Ctx(s.next, OpRecv(ip, port, request), conn));
    case Fail(conn) => PushLinear(s.net, Ctx(s.next, OpDrop, conn));
    case Drain(who) => DrainLinear(Of(s, who));
    case Finish(who) => FinishLinear(Of(s, who));
    case NetHandle => NetHandleMoves(s);
    case WorkerHandle => WorkerHandleMoves(s);
    case Emit(frame) => PushLinear(s.worker, NewSend(s, frame));
    case NetWrite(n) => WrittenSameLife(s, s.net.batch[0].conn, n);
    case Write(conn, n) => WrittenSameLife(s, conn, n);
    case _ =>
  }

  // ---------------------------------------------------------------- flows

  /** All events in the order the worker handled or will handle them. */
  function Flow(s: State): seq<Event> {
    s.events + (EventsOf(Rest(s.worker)) + EventsOf(Rest(s.net)))
  }

  function Incoming(step: Step): seq<Event> {
    match step
    case Arrive(conn, ip, port, request) => [Received(conn, ip, port, request)]
    case Fail(conn) => [Dropped(conn)]
    case _ => []
  }

  /** All sends in the order the net service handled or will handle them. */
  function SendFlow(s: State): seq<Ctx> {
    s.sent + (SendsOf(Rest(s.net)) + SendsOf(Rest(s.worker)))
  }

  lemma {:induction false} MovesFiltered(s: State, step: Step, t: State)
    requires Enabled(s, step) && Moves(s, step, t)
    ensures EventsOf(Rest(s.net)) + EventsOf(NetIn(s, step)) == EventsOf(NetOut(s, step)) + EventsOf(Rest(t.net))
    ensures EventsOf(Rest(s.worker)) + EventsOf(WorkIn(s, step)) ==
            EventsOf(WorkOut(s, step)) + EventsOf(Rest(t.worker))
    ensures SendsOf(Rest(s.net)) + SendsOf(NetIn(s, step)) == SendsOf(NetOut(s, step)) + SendsOf(Rest(t.net))
    ensures SendsOf(Rest(s.worker)) + SendsOf(WorkIn(s, step)) == SendsOf(WorkOut(s, step)) + SendsOf(Rest(t.worker))
  {
    FilterConcat(Rest(s.net), NetIn(s, step));
    FilterConcat(NetOut(s, step), Rest(t.net));
    FilterConcat(Rest(s.worker), WorkIn(s, step));
    FilterConcat(WorkOut(s, step), Rest(t.worker));
  }

  /** What leaves the second part joins the first, what leaves the first joins what is done. */
  lemma {:induction false} Shift<T>(done: seq<T>, first: seq<T>, second: seq<T>, first2: seq<T>, second2: seq<T>,
                                    leaving: seq<T>, crossing: seq<T>, added: seq<T>)
    requires first + crossing == leaving + first2 && second + added == crossing + second2
    ensures (done + leaving) + (first2 + second2) == (done + (first + second)) + added
  {
    calc {
      (done + leaving) + (first2 + second2);
    == { Regroup(done, leaving, first2, second2); }
      done + ((leaving + first2) + second2);
    == { Regroup(done, first, crossing, second2); }
      (done + first) + (crossing + second2);
    == { Regroup(done, first, second, added); }
      (done + (first + second)) + added;
    }
  }

  lemma {:induction false} Regroup<T>(a: seq<T>, b: seq<T>, c: seq<T>, d: seq<T>)
    ensures (a + b) + (c + d) == a + ((b + c) + d) == (a + (b + c)) + d
  {
  }

  lemma {:induction false} EventsEntering(s: State, step: Step)
    requires Enabled(s, step)
    ensures EventsOf(NetIn(s, step)) == Incoming(step)
  {
    if NetIn(s, step) != [] {
      FilterOne(NetIn(s, step)[0]);
    }
  }

  lemma {:induction false} EventsCrossing(s: State, step: Step)
    requires Enabled(s, step)
    ensures EventsOf(NetOut(s, step)) == EventsOf(WorkIn(s, step))
  {
    if step.NetHandle? {
      FilterOne(s.net.batch[0]);
    } else if step.Emit? {
      FilterOne(WorkIn(s, step)[0]);
    }
  }

  lemma {:induction false} EventsLeaving(s: State, step: Step)
    requires Enabled(s, step) && Running(s) && !step.Stop?
    ensures Next(s, step).events == s.events + EventsOf(WorkOut(s, step))
  {
    Alone(s.events);
    if step.NetHandle? {
      NetHandleHistories(s);
    } else if step.WorkerHandle? {
      WorkerHandleHistories(s);
      FilterOne(s.worker.batch[0]);
    }
  }

  lemma {:induction false} NetHandleHistories(s: State)
    requires Enabled(s, NetHandle) && Running(s)
    ensures NetHandled(s).events == s.events
    ensures NetHandled(s).sent == if s.net.batch[0].op.OpSend? then s.sent + [s.net.batch[0]] else s.sent
  {
  }

  lemma {:induction false} WorkerHandleHistories(s: State)
    requires Enabled(s, WorkerHandle) && Running(s)
    ensures WorkerHandled(s).events == if s.worker.batch[0].IsEvent() then s.events + [s.worker.batch[0].AsEvent()]
            else s.events
    ensures WorkerHandled(s).sent == s.sent
  {
  }

  lemma {:induction false} FlowStep(s: State, step: Step)
    requires Linear(s.net) && Linear(s.worker) && Running(s) && Enabled(s, step) && !step.Stop?
    ensures Flow(Next(s, step)) == Flow(s) + Incoming(step)
  {
    var t := Next(s, step);
    StepMoves(s, step);
    MovesFiltered(s, step, t);
    EventsEntering(s, step);
    EventsCrossing(s, step);
    EventsLeaving(s, step);
    Shift(s.events, EventsOf(Rest(s.worker)), EventsOf(Rest(s.net)), EventsOf(Rest(t.worker)), EventsOf(Rest(t.net)),
          EventsOf(WorkOut(s, step)), EventsOf(WorkIn(s, step)), EventsOf(NetIn(s, step)));
  }

  lemma {:induction false} SendsEntering(s: State, step: Step)
    requires Enabled(s, step)
    ensures SendsOf(WorkIn(s, step)) == if step.Emit? then WorkIn(s, step) else []
  {
    if WorkIn(s, step) != [] {
      FilterOne(WorkIn(s, step)[0]);
    }
  }

  lemma {:induction false} SendsCrossing(s: State, step: Step)
    requires Enabled(s, step)
    ensures SendsOf(WorkOut(s, step)) == SendsOf(NetIn(s, step))
  {
    if step.WorkerHandle? {
      FilterOne(s.worker.batch[0]);
    } else if NetIn(s, step) != [] {
      FilterOne(NetIn(s, step)[0]);
    }
  }

  lemma {:induction false} SendsLeaving(s: State, step: Step)
    requires Enabled(s, step) && Running(s) && !step.Stop?
    ensures Next(s, step).sent == s.sent + SendsOf(NetOut(s, step))
  {
    Alone(s.sent);
    if step.NetHandle? {
      NetHandleHistories(s);
      FilterOne(s.net.batch[0]);
    } else if step.WorkerHandle? {
      WorkerHandleHistories(s);
    }
  }

  /** What the worker emits joins the end of the sends ahead; nothing else changes their order. */
  lemma {:induction false} SendFlowStep(s: State, step: Step)
    requires Linear(s.net) && Linear(s.worker) && Running(s) && Enabled(s, step) && !step.Stop?
    ensures SendFlow(Next(s, step)) == SendFlow(s) + if step.Emit? then WorkIn(s, step) else []
  {
    var t := Next(s, step);
    StepMoves(s, step);
    MovesFiltered(s, step, t);
    SendsEntering(s, step);
    SendsCrossing(s, step);
    SendsLeaving(s, step);
    Shift(s.sent, SendsOf(Rest(s.net)), SendsOf(Rest(s.worker)), SendsOf(Rest(t.net)), SendsOf(Rest(t.worker)),
          SendsOf(NetOut(s, step)), SendsOf(NetIn(s, step)), SendsOf(WorkIn(s, step)));
  }
}
