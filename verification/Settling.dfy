/** The server's own steps run out, where nothing is left for it to do. */
module Settling {
  import opened Octets
  import opened Framing
  import opened KeeperRuns
  import opened ReplicaSpec
  import opened Coherence
  import opened Pipeline
  import opened ContextLife
  import opened MessageLife
  import opened PipelineOrder
  import opened NoGhosts
  import opened SystemRuns
  import opened ConnectionOrder
  import opened Wires
  import opened EndToEnd

  // ---------------------------------------------------------------- what the server does by itself

  /** Steps of the server's threads that no peer has to cause: no accepted connection, no arriving request,
      no failure, and no event that writes. A hand-over's own write is one, once send has returned. */
  predicate Own(s: State, step: Step) {
    match step
    case Release(_) => true
    case Drain(who) => Of(s, who).queue != []
    case NetHandle => true
    case NetDelete => true
    case NetWrite(_) => true
    case WorkerHandle => true
    case Emit(_) => true
    case Done => true
    case Finish(_) => true
    case _ => false
  }

  predicate Idle(sv: Service) {
    sv.queue == [] && sv.batch == [] && sv.stage == Ready
  }

  /** Both services wait for work and no creator still holds a context. Connections may have messages
      queued. */
  predicate Settled(s: State) {
    Idle(s.net) && Idle(s.worker) && s.pending == [] && s.held == multiset{}
  }

  /** The worker's next request fails an assertion of the server. */
  predicate Failing(s: State) {
    s.worker.batch != [] && s.worker.stage == Ready && s.worker.batch[0].IsEvent()
    && Aborts(s.keeper, s.worker.batch[0].AsEvent())
  }

  function Accepts(cs: seq<Ctx>): nat {
    if cs == [] then 0 else (if cs[0].op.OpAccept? then 1 else 0) + Accepts(cs[1..])
  }

  /** Connection ids given out or spoken for. */
  function Ids(s: State): nat {
    s.nextConn + (Accepts(Rest(s.net)) + Accepts(Rest(s.worker)))
  }

  // ---------------------------------------------------------------- the work left

  function EventWork(who: Who, c: Ctx): nat {
    match c.op
    case OpSend(_, _) => 0
    case OpAccept => if who == Net then 1 else 2
    case _ => if who == Net then 2 else 1
  }

  function SendWork(who: Who, c: Ctx): nat {
    if c.op.OpSend? then (if who == Net then 1 else 2) else 0
  }

  function EventsLeft(who: Who, cs: seq<Ctx>): nat {
    if cs == [] then 0 else EventWork(who, cs[0]) + EventsLeft(who, cs[1..])
  }

  function SendsLeft(who: Who, cs: seq<Ctx>): nat {
    if cs == [] then 0 else SendWork(who, cs[0]) + SendsLeft(who, cs[1..])
  }

  function StageLeft(stage: Stage): nat {
    match stage case Ready => 2 case Busy => 1 case Handled => 0
  }

  function Moves(sv: Service): nat {
    4 * |sv.queue| + 3 * |sv.batch| + StageLeft(sv.stage)
  }

  /** Events not yet handled; messages not yet handed over; positions in the services' loops, and
      references that creators hold. */
  datatype Effort = Effort(events: nat, sends: nat, moves: nat)

  function Left(s: State): Effort {
    Effort(
      EventsLeft(Net, Rest(s.net)) + EventsLeft(Work, Rest(s.worker)),
      3 * |s.pending| + SendsLeft(Work, Rest(s.worker)) + SendsLeft(Net, Rest(s.net)),
      Moves(s.net) + Moves(s.worker) + |s.held|)
  }

  predicate Less(a: Effort, b: Effort) {
    || a.events < b.events
    || (a.events == b.events && a.sends < b.sends)
    || (a.events == b.events && a.sends == b.sends && a.moves < b.moves)
  }

  lemma {:induction false} LeftConcat(who: Who, a: seq<Ctx>, b: seq<Ctx>)
    ensures EventsLeft(who, a + b) == EventsLeft(who, a) + EventsLeft(who, b)
    ensures SendsLeft(who, a + b) == SendsLeft(who, a) + SendsLeft(who, b)
  {
    if a == [] {
      assert a + b == b;
    } else {
      assert (a + b)[1..] == a[1..] + b;
      LeftConcat(who, a[1..], b);
    }
  }

  lemma {:induction false} LeftOne(who: Who, c: Ctx)
    ensures EventsLeft(who, [c]) == EventWork(who, c) && SendsLeft(who, [c]) == SendWork(who, c)
  {
    assert [c][1..] == [];
    assert EventsLeft(who, []) == 0 && SendsLeft(who, []) == 0;
  }

  /** Looking at the first context takes its share away. */
  lemma {:induction false} StartLeft(who: Who, sv: Service, stage: Stage)
    requires sv.batch != [] && sv.stage == Ready && stage != Ready
    ensures EventsLeft(who, Rest(sv)) == EventWork(who, sv.batch[0]) + EventsLeft(who, Rest(Started(sv, stage)))
    ensures SendsLeft(who, Rest(sv)) == SendWork(who, sv.batch[0]) + SendsLeft(who, Rest(Started(sv, stage)))
  {
    assert Rest(sv) == [sv.batch[0]] + Rest(Started(sv, stage));
    LeftConcat(who, [sv.batch[0]], Rest(Started(sv, stage)));
    LeftOne(who, sv.batch[0]);
  }

  lemma {:induction false} PushLeft(who: Who, sv: Service, c: Ctx)
    requires sv.running
    ensures EventsLeft(who, Rest(Push(sv, c))) == EventsLeft(who, Rest(sv)) + EventWork(who, c)
    ensures SendsLeft(who, Rest(Push(sv, c))) == SendsLeft(who, Rest(sv)) + SendWork(who, c)
  {
    assert Rest(Push(sv, c)) == Rest(sv) + [c];
    LeftConcat(who, Rest(sv), [c]);
    LeftOne(who, c);
  }

  // ---------------------------------------------------------------- every own step makes progress

  lemma {:induction false} NetForwardProgress(s: State, stage: Stage)
    requires Running(s) && Enabled(s, NetHandle) && s.net.batch[0].IsEvent() && stage != Ready
    ensures var t := s.(net := Started(s.net, stage), worker := Push(s.worker, s.net.batch[0]));
            Left(t).events < Left(s).events
  {
    StartLeft(Net, s.net, stage);
    PushLeft(Work, s.worker, s.net.batch[0]);
  }

  lemma {:induction false} NetHandleProgress(s: State)
    requires Running(s) && Enabled(s, NetHandle)
    ensures Less(Left(NetHandled(s)), Left(s))
  {
    match s.net.batch[0].op
    case OpRecv(_, _, _) => NetForwardProgress(s, Handled);
    case OpDrop => NetForwardProgress(s, Busy);
    case _ => StartLeft(Net, s.net, NetStage(s));
  }

  lemma {:induction false} WorkerHandleProgress(s: State)
    requires Running(s) && Enabled(s, WorkerHandle)
    ensures Less(Left(WorkerHandled(s)), Left(s))
  {
    var c := s.worker.batch[0];
    hide Rest, EventsLeft, SendsLeft, NextState, KeeperRuns.Sends, Aborts;
    if c.IsEvent() {
      StartLeft(Work, s.worker, Busy);
    } else {
      StartLeft(Work, s.worker, Handled);
      PushLeft(Net, s.net, c);
    }
  }

  lemma {:induction false} EmitProgress(s: State, frame: bytes)
    requires Running(s) && Enabled(s, Emit(frame))
    ensures Less(Left(EmitOne(s, frame)), Left(s))
  {
    PushLeft(Work, s.worker, NewSend(s, frame));
  }

  /** A step that changes neither what is ahead nor what is pending, and moves on in a loop. */
  lemma {:induction false} MoveProgress(s: State, t: State)
    requires Rest(t.net) == Rest(s.net) && Rest(t.worker) == Rest(s.worker) && t.pending == s.pending
    requires Moves(t.net) + Moves(t.worker) + |t.held| < Moves(s.net) + Moves(s.worker) + |s.held|
    ensures Less(Left(t), Left(s))
  {
  }

  lemma {:induction false} DrainProgress(s: State, who: Who)
    requires Enabled(s, Drain(who)) && Own(s, Drain(who))
    ensures Less(Left(Next(s, Drain(who))), Left(s))
  {
    assert Rest(Drained(Of(s, who))) == Rest(Of(s, who));
    MoveProgress(s, Next(s, Drain(who)));
  }

  lemma {:induction false} FinishProgress(s: State, who: Who)
    requires Enabled(s, Finish(who))
    ensures Less(Left(Next(s, Finish(who))), Left(s))
  {
    assert Rest(Finished(Of(s, who))) == Rest(Of(s, who));
    MoveProgress(s, Next(s, Finish(who)));
  }

  lemma {:induction false} DoneProgress(s: State)
    requires Enabled(s, Done)
    ensures Less(Left(Next(s, Done)), Left(s))
  {
    assert Rest(s.worker.(stage := Handled)) == Rest(s.worker);
    MoveProgress(s, Next(s, Done));
  }

  lemma {:induction false} ReleaseProgress(s: State, c: Ctx)
    requires Enabled(s, Release(c))
    ensures Less(Left(Next(s, Release(c))), Left(s))
  {
    assert s.held == (s.held - multiset{c}) + multiset{c};
    MoveProgress(s, Next(s, Release(c)));
  }

  /** The end of a hand-over or of a deletion. */
  lemma {:induction false} NetEndProgress(s: State, t: State)
    requires s.net.stage == Busy && t.net == s.net.(stage := Handled) && t.worker == s.worker
    requires t.pending == s.pending && t.held == s.held
    ensures Less(Left(t), Left(s))
  {
    assert Rest(t.net) == Rest(s.net);
    MoveProgress(s, t);
  }

  lemma {:induction false} NetWriteProgress(s: State, n: nat)
    requires Enabled(s, NetWrite(n))
    ensures Less(Left(Next(s, NetWrite(n))), Left(s))
  {
    var conn := s.net.batch[0].conn;
    WrittenSameLife(s, conn, n);
    assert HandedOver(s, conn, n).pending == s.pending;
    NetEndProgress(s, Next(s, NetWrite(n)));
  }

  /** However the server's threads are scheduled, each of its own steps makes the work left smaller, so
      without new input they run out. */
  lemma {:induction false} OwnStepProgress(s: State, step: Step)
    requires Running(s) && Enabled(s, step) && Own(s, step)
    ensures Less(Left(Next(s, step)), Left(s))
  {
    match step
    case Release(c) => ReleaseProgress(s, c);
    case Drain(who) => DrainProgress(s, who);
    case NetHandle => NetHandleProgress(s);
    case NetDelete => NetEndProgress(s, Next(s, NetDelete));
    case NetWrite(n) => NetWriteProgress(s, n);
    case WorkerHandle => WorkerHandleProgress(s);
    case Emit(frame) => EmitProgress(s, frame);
    case Done => DoneProgress(s);
    case Finish(who) => FinishProgress(s, who);
  }

  lemma {:induction false} OwnKeepsRunning(s: State, step: Step)
    requires Running(s) && Enabled(s, step) && Own(s, step)
    ensures Running(Next(s, step))
  {
    if step.NetWrite? {
      WrittenSameLife(s, s.net.batch[0].conn, step.n);
    }
  }

  // ---------------------------------------------------------------- and they do not run out early

  /** What a service is in the middle of. */
  predicate Staged(s: State) {
    && (s.net.stage != Ready ==> s.net.batch != [])
    && (s.net.stage == Busy ==> s.net.batch[0].op.OpDrop? || s.net.batch[0].op.OpSend?)
    && (s.worker.stage != Ready ==> s.worker.batch != [])
  }

  /** The part of a state that Staged speaks about. */
  function Stages(s: State): (seq<Ctx>, Stage, seq<Ctx>, Stage) {
    (s.net.batch, s.net.stage, s.worker.batch, s.worker.stage)
  }

  lemma {:induction false} NetHandleStaged(s: State)
    requires Enabled(s, NetHandle) && Staged(s)
    ensures Staged(NetHandled(s))
  {
    assert Stages(NetHandled(s)) == (s.net.batch, NetStage(s), s.worker.batch, s.worker.stage);
  }

  lemma {:induction false} WorkerHandleStaged(s: State)
    requires Enabled(s, WorkerHandle) && Staged(s)
    ensures Staged(WorkerHandled(s))
  {
    hide NextState, KeeperRuns.Sends;
    assert Stages(WorkerHandled(s)).0 == s.net.batch && Stages(WorkerHandled(s)).1 == s.net.stage;
  }

  lemma {:induction false} LoopStaged(s: State, step: Step)
    requires Staged(s) && Enabled(s, step)
    requires step.Drain? || step.Finish? || step.Done? || step.NetDelete? || step.Stop?
    ensures Staged(Next(s, step))
  {
  }

  lemma {:induction false} StepStaged(s: State, step: Step)
    requires Staged(s) && Enabled(s, step)
    ensures Staged(Next(s, step))
  {
    if step.NetHandle? {
      NetHandleStaged(s);
    } else if step.WorkerHandle? {
      WorkerHandleStaged(s);
    } else if step.NetWrite? {
      WrittenSameLife(s, s.net.batch[0].conn, step.n);
    } else if step.Write? {
      WrittenSameLife(s, step.conn, step.n);
    } else if step.Drain? || step.Finish? || step.Done? || step.NetDelete? || step.Stop? {
      LoopStaged(s, step);
    } else {
      assert Stages(Next(s, step)) == Stages(s);
    }
  }

  lemma {:induction false} ExecStaged(steps: seq<Step>)
    requires Exec(steps).Some?
    ensures Staged(Exec(steps).value)
  {
    if steps != [] {
      ExecStaged(steps[..|steps| - 1]);
      StepStaged(Exec(steps[..|steps| - 1]).value, steps[|steps| - 1]);
    }
  }

  /** The frame of a message whose second head word happens to be 0. */
  function FrameOf(payload: bytes): (frame: bytes)
    ensures IsFrame(frame, payload)
  {
    BE(4, |payload|) + [0, 0, 0, 0] + payload
  }

  /** A step for the server to take; for a hand-over, the one in which send takes all it is offered. */
  lemma {:induction false} OwnStepExists(s: State) returns (step: Step)
    requires Staged(s) && Faithful(s) && Ids(s) < 0xFFFF_FFFF_FFFF_FFFF && !Settled(s) && !Failing(s)
    ensures Enabled(s, step) && Own(s, step)
  {
    if s.held != multiset{} {
      var c :| c in s.held;
      step := Release(c);
    } else if s.net.stage == Busy {
      step := if s.net.batch[0].op.OpDrop? then NetDelete else NetWrite(Offered(s, s.net.batch[0].conn));
    } else if s.net.stage == Handled {
      step := Finish(Net);
    } else if s.net.batch != [] {
      step := NetHandle;
    } else if s.net.queue != [] {
      step := Drain(Net);
    } else {
      step := WorkerStep(s);
    }
  }

  lemma {:induction false} WorkerStep(s: State) returns (step: Step)
    requires Staged(s) && Faithful(s) && !Idle(s.worker) && !Failing(s)
    ensures Enabled(s, step) && Own(s, step)
  {
    if s.worker.stage == Busy {
      step := if s.pending != [] then Emit(FrameOf(s.pending[0].body.Encode())) else Done;
    } else if s.worker.stage == Handled {
      step := Finish(Work);
    } else if s.worker.batch != [] {
      step := WorkerHandle;
    } else {
      step := Drain(Work);
    }
  }

  lemma {:induction false} AcceptsConcat(a: seq<Ctx>, b: seq<Ctx>)
    ensures Accepts(a + b) == Accepts(a) + Accepts(b)
  {
    if a == [] {
      assert a + b == b;
    } else {
      assert (a + b)[1..] == a[1..] + b;
      AcceptsConcat(a[1..], b);
    }
  }

  lemma {:induction false} AcceptsAtMostOne(cs: seq<Ctx>)
    requires |cs| <= 1
    ensures Accepts(cs) == if cs != [] && cs[0].op.OpAccept? then 1 else 0
  {
    if cs != [] {
      assert cs[1..] == [] && Accepts([]) == 0;
    }
  }

  lemma {:induction false} NextConnStep(s: State, step: Step)
    requires Running(s) && Enabled(s, step) && Own(s, step)
    ensures Next(s, step).nextConn == s.nextConn + Accepts(NetOut(s, step))
  {
    AcceptsAtMostOne(NetOut(s, step));
  }

  lemma {:induction false} IdsMoved(s: State, step: Step, t: State)
    requires Enabled(s, step) && Own(s, step) && t.nextConn == s.nextConn + Accepts(NetOut(s, step))
    requires Accepts(Rest(s.net)) + Accepts(NetIn(s, step)) == Accepts(NetOut(s, step)) + Accepts(Rest(t.net))
    requires Accepts(Rest(s.worker)) + Accepts(WorkIn(s, step)) == Accepts(WorkOut(s, step)) + Accepts(Rest(t.worker))
    requires Accepts(NetIn(s, step)) == Accepts(WorkOut(s, step)) && Accepts(WorkIn(s, step)) == 0
    ensures Ids(t) == Ids(s)
  {
  }

  /** Without new connections no id is spoken for anew. */
  lemma {:induction false} IdsStep(s: State, step: Step)
    requires Linear(s.net) && Linear(s.worker) && Running(s) && Enabled(s, step) && Own(s, step)
    ensures Ids(Next(s, step)) == Ids(s)
  {
    var t := Next(s, step);
    StepMoves(s, step);
    AcceptsConcat(Rest(s.net), NetIn(s, step));
    AcceptsConcat(NetOut(s, step), Rest(t.net));
    AcceptsConcat(Rest(s.worker), WorkIn(s, step));
    AcceptsConcat(WorkOut(s, step), Rest(t.worker));
    AcceptsAtMostOne(NetIn(s, step));
    AcceptsAtMostOne(WorkIn(s, step));
    AcceptsAtMostOne(WorkOut(s, step));
    NextConnStep(s, step);
    IdsMoved(s, step, t);
  }

  // ---------------------------------------------------------------- runs of own steps

  /** Steps the server takes by itself from s on. */
  predicate AllOwn(s: State, more: seq<Step>)
    decreases |more|
  {
    more == [] || (Enabled(s, more[0]) && Own(s, more[0]) && AllOwn(Next(s, more[0]), more[1..]))
  }

  function After(s: State, more: seq<Step>): State
    requires AllOwn(s, more)
    decreases |more|
  {
    if more == [] then s else After(Next(s, more[0]), more[1..])
  }

  lemma {:induction false} OwnStepInRun(steps: seq<Step>, step: Step)
    requires Exec(steps).Some? && Running(Exec(steps).value)
    requires Enabled(Exec(steps).value, step) && Own(Exec(steps).value, step)
    ensures var s := Exec(steps).value;
            var t := Next(s, step);
            Exec(steps + [step]) == Some(t) && Running(t) && Less(Left(t), Left(s)) && Flow(t) == Flow(s)
                && Ids(t) == Ids(s)
  {
    var s := Exec(steps).value;
    ExecSnoc(steps, step);
    ExecLives(steps);
    OwnStepProgress(s, step);
    OwnKeepsRunning(s, step);
    OwnFlow(s, step);
    IdsStep(s, step);
  }

  lemma {:induction false} OwnFlow(s: State, step: Step)
    requires Linear(s.net) && Linear(s.worker) && Running(s) && Enabled(s, step) && Own(s, step)
    ensures Flow(Next(s, step)) == Flow(s)
  {
    FlowStep(s, step);
    Alone(Flow(s));
  }

  /** However the threads are scheduled, the events handled and still to be handled stay the same. */
  lemma {:induction false} OwnRun(steps: seq<Step>, more: seq<Step>)
    requires Exec(steps).Some? && Running(Exec(steps).value) && AllOwn(Exec(steps).value, more)
    ensures var s := Exec(steps).value;
            var t := After(s, more);
            Exec(steps + more) == Some(t) && Running(t) && Flow(t) == Flow(s) && Ids(t) == Ids(s)
    decreases |more|
  {
    if more == [] {
      assert steps + more == steps;
    } else {
      OwnStepInRun(steps, more[0]);
      Regrouped(steps, more);
      OwnRun(steps + [more[0]], more[1..]);
    }
  }

  lemma {:induction false} Regrouped(steps: seq<Step>, more: seq<Step>)
    requires more != []
    ensures steps + [more[0]] + more[1..] == steps + more
  {
  }

  lemma {:induction false} AllOwnCons(s: State, step: Step, rest: seq<Step>)
    requires Enabled(s, step) && Own(s, step) && AllOwn(Next(s, step), rest)
    ensures AllOwn(s, [step] + rest) && After(s, [step] + rest) == After(Next(s, step), rest)
  {
    assert ([step] + rest)[1..] == rest;
  }

  lemma {:induction false} Settles(steps: seq<Step>) returns (more: seq<Step>)
    requires Exec(steps).Some? && Running(Exec(steps).value) && Ids(Exec(steps).value) < 0xFFFF_FFFF_FFFF_FFFF
    ensures AllOwn(Exec(steps).value, more)
    ensures Settled(After(Exec(steps).value, more)) || Failing(After(Exec(steps).value, more))
    decreases Left(Exec(steps).value).events, Left(Exec(steps).value).sends, Left(Exec(steps).value).moves
  {
    var s := Exec(steps).value;
    if Settled(s) || Failing(s) {
      more := [];
    } else {
      ExecStaged(steps);
      ExecFaithful(steps);
      var step := OwnStepExists(s);
      OwnStepInRun(steps, step);
      var rest := Settles(steps + [step]);
      more := [step] + rest;
      AllOwnCons(s, step, rest);
    }
  }

  // ---------------------------------------------------------------- what they lead to

  lemma {:induction false} RestOfSettled(s: State)
    requires Settled(s)
    ensures Flow(s) == s.events && SendsOf(Rest(s.net)) + SendsOf(Rest(s.worker)) == []
  {
    assert Rest(s.net) == [] && Rest(s.worker) == [];
    assert EventsOf([]) == [] && SendsOf([]) == [];
  }

  /** A settled server has handled every request and drop that had come in, in the order they had in its
      queues, and queued exactly the messages that these call for. */
  lemma {:induction false} SettledHandledAll(steps: seq<Step>, more: seq<Step>)
    requires Exec(steps).Some? && Running(Exec(steps).value) && AllOwn(Exec(steps).value, more)
    requires Settled(After(Exec(steps).value, more))
    ensures var t := After(Exec(steps).value, more);
            t.events == Flow(Exec(steps).value) && Run(Flow(Exec(steps).value)) == Some((t.keeper, Emitted(t.log)))
  {
    var t := After(Exec(steps).value, more);
    OwnRun(steps, more);
    ExecFaithful(steps + more);
    RestOfSettled(t);
    assert Emitted(t.log) + [] == Emitted(t.log);
  }

  lemma {:induction false} HeadOfRest(sv: Service) returns (later: seq<Event>)
    requires sv.batch != [] && sv.stage == Ready && sv.batch[0].IsEvent()
    ensures EventsOf(Rest(sv)) == [sv.batch[0].AsEvent()] + later
  {
    var rest := Rest(Started(sv, Busy));
    assert Rest(sv) == [sv.batch[0]] + rest;
    FilterConcat([sv.batch[0]], rest);
    FilterOne(sv.batch[0]);
    later := EventsOf(rest);
  }

  lemma {:induction false} Inserted(es: seq<Event>, e: Event, a: seq<Event>, b: seq<Event>)
    ensures es + (([e] + a) + b) == es + [e] + (a + b)
  {
  }

  lemma {:induction false} FailingRunFails(es: seq<Event>, e: Event, later: seq<Event>)
    requires Run(es).Some? && Aborts(Run(es).value.0, e)
    ensures Run(es + [e] + later).None?
  {
    assert (es + [e])[..|es + [e]| - 1] == es;
    assert Run(es + [e]).None?;
    var all := es + [e] + later;
    assert all[..|es| + 1] == es + [e];
    if Run(all).Some? {
      RunPrefix(all, |es| + 1);
    }
  }

  /** A server whose worker meets a failing assertion has requests ahead that no order of steps can
      handle. */
  lemma {:induction false} FailingIsInFlow(s: State)
    requires Faithful(s) && Failing(s)
    ensures Run(Flow(s)).None?
  {
    var e := s.worker.batch[0].AsEvent();
    var later := HeadOfRest(s.worker);
    var more := EventsOf(Rest(s.net));
    Inserted(s.events, e, later, more);
    assert Run(s.events).value.0 == s.keeper;
    FailingRunFails(s.events, e, later + more);
  }

  /** Left alone, the server can settle exactly when the requests that have come in can be handled one
      after another. */
  lemma {:induction false} SettlesExactly(steps: seq<Step>)
    requires Exec(steps).Some? && Running(Exec(steps).value) && Ids(Exec(steps).value) < 0xFFFF_FFFF_FFFF_FFFF
    ensures var s := Exec(steps).value;
            Run(Flow(s)).Some? <==> exists more :: AllOwn(s, more) && Settled(After(s, more))
  {
    var s := Exec(steps).value;
    var more := Settles(steps);
    OwnRun(steps, more);
    ExecFaithful(steps + more);
    if Failing(After(s, more)) {
      FailingIsInFlow(After(s, more));
    }
    if other :| AllOwn(s, other) && Settled(After(s, other)) {
      SettledHandledAll(steps, other);
    }
  }

  // ---------------------------------------------------------------- contexts and messages

  /** Messages are only queued on connections in the table. */
  ghost predicate OutLive(s: State) {
    forall c | c in s.out :: c.conn in s.live
  }

  lemma {:induction false} OthersLive(s: State, t: State, conn: u64)
    requires OutLive(s) && t.out == Others(s.out, conn) && s.live - {conn} <= t.live
    ensures OutLive(t)
  {
    OthersMembers(s.out, conn);
    OthersExclude(s.out, conn);
  }

  lemma {:induction false} OthersExclude(cs: seq<Ctx>, conn: u64)
    ensures forall c | c in Others(cs, conn) :: c.conn != conn
  {
    if cs != [] {
      OthersExclude(cs[1..], conn);
    }
  }

  lemma {:induction false} WrittenLive(s: State, t: State, conn: u64, n: nat)
    requires OutLive(s) && n <= Offered(s, conn) && t.out == PipeWritten(s, conn, n).2 && s.live <= t.live
    ensures OutLive(t)
  {
    OthersMembers(s.out, conn);
  }

  lemma {:induction false} StepOutLive(s: State, t: State, step: Step)
    requires OutLive(s) && Enabled(s, step) && Running(s)
    requires Pipe(t) == PipeAfter(s, step) && Table(t) == TableAfter(s, step)
    ensures OutLive(t)
  {
    match step
    case Fail(conn) => if conn in s.open { OthersLive(s, t, conn); }
    case Hush(conn) => OthersLive(s, t, conn);
    case NetDelete => OthersLive(s, t, s.net.batch[0].conn);
    case NetWrite(n) => WrittenLive(s, t, s.net.batch[0].conn, n);
    case Write(conn, n) => WrittenLive(s, t, conn, n);
    case _ =>
  }

  lemma {:induction false} ExecOutLive(steps: seq<Step>)
    requires Exec(steps).Some? && Running(Exec(steps).value)
    ensures OutLive(Exec(steps).value)
  {
    if steps != [] {
      var before, step := steps[..|steps| - 1], steps[|steps| - 1];
      var s := Exec(before).value;
      RunningBefore(s, step);
      ExecOutLive(before);
      StepPipe(s, step);
      StepTable(s, step);
      StepOutLive(s, Next(s, step), step);
    }
  }

  /** A settled server has destroyed every context it ever created, once, and freed every message, once,
      except those waiting on a connection that is still in its table. */
  lemma {:induction false} SettledKeepsNothing(steps: seq<Step>, c: Ctx)
    requires Exec(steps).Some? && Running(Exec(steps).value) && Settled(Exec(steps).value)
    requires c in Exec(steps).value.created
    ensures var s := Exec(steps).value;
            && multiset(s.destroyed)[c] == 1 && s.burst == []
            && (c.Carrier() ==> multiset(s.out)[c] + s.freed[c] == 1 && (c in s.out ==> c.conn in s.live))
  {
    ExecLives(steps);
    DestroyedOnce(Exec(steps).value, c);
    ExecOutLive(steps);
    RunningIsLossless(steps);
    ExecKeeps(steps);
    if c.Carrier() {
      MessagesConserved(steps, c);
      NothingInFlight(Exec(steps).value);
    }
  }

  lemma {:induction false} DestroyedOnce(s: State, c: Ctx)
    requires LifeInv(s) && Settled(s) && c in s.created
    ensures multiset(s.destroyed)[c] == 1
  {
    NobodyHolds(s);
    OnceInDistinct(s.destroyed, c);
  }

  lemma {:induction false} NobodyHolds(s: State)
    requires Settled(s)
    ensures Holders(s) == multiset{}
  {
  }

  lemma {:induction false} NothingInFlight(s: State)
    requires Settled(s)
    ensures InFlight(s) == multiset{}
  {
    assert Rest(s.net) == [] && Rest(s.worker) == [];
  }

  lemma {:induction false} OnceInDistinct(cs: seq<Ctx>, c: Ctx)
    requires Distinct(cs) && c in cs
    ensures multiset(cs)[c] == 1
  {
    assert cs == [cs[0]] + cs[1..];
    if cs[0] == c {
      assert c !in cs[1..];
    } else {
      assert Distinct(cs[1..]);
      OnceInDistinct(cs[1..], c);
    }
  }

  // ---------------------------------------------------------------- connections and clients

  lemma {:induction false} SettledIsQuiet(s: State, u: u64)
    requires Settled(s)
    ensures Ahead(s, u) == Bodies(Mine(s.out, u)) && Handing(s, u) == 0
  {
    RestOfSettled(s);
    assert Mine([], u) == [] && Bodies([]) == [] && To([], u) == [];
    Alone(Bodies(Mine(s.out, u)));
  }

  /** A settled server has handed to every open connection exactly what the run of events sends it. Of this
      as many messages are still queued as hand-overs have finished none, less those that events of the
      peer finished later; so all of it was written if and only if these numbers are equal. */
  lemma {:induction false} SettledHandedAll(steps: seq<Step>, more: seq<Step>, u: u64)
    requires Exec(steps).Some? && Running(Exec(steps).value) && AllOwn(Exec(steps).value, more)
    requires |Flow(Exec(steps).value)| < 0xFFFF_FFFE
    requires Settled(After(Exec(steps).value, more)) && u in After(Exec(steps).value, more).open
    ensures var s := Exec(steps).value;
            var t := After(s, more);
            && Run(Flow(s)).Some?
            && Bodies(Mine(t.delivered, u)) + Bodies(Mine(t.out, u)) == To(Run(Flow(s)).value.1, u)
            && |Mine(t.out, u)| == LineOf(t, u).short - LineOf(t, u).late
  {
    var t := After(Exec(steps).value, more);
    OwnRun(steps, more);
    SettledHandledAll(steps, more);
    SettledIsQuiet(t, u);
    WrittenThenAhead(steps + more, u);
    BacklogExact(steps + more, u);
  }

  /** The scheduling of the threads does not matter: whatever order they take their steps in, the rooms
      and users end up the same, and every connection still open is handed the same messages. */
  lemma {:induction false} SchedulesAgree(steps: seq<Step>, one: seq<Step>, two: seq<Step>, u: u64)
    requires Exec(steps).Some? && Running(Exec(steps).value) && |Flow(Exec(steps).value)| < 0xFFFF_FFFE
    requires AllOwn(Exec(steps).value, one) && Settled(After(Exec(steps).value, one))
    requires AllOwn(Exec(steps).value, two) && Settled(After(Exec(steps).value, two))
    ensures var a, b := After(Exec(steps).value, one), After(Exec(steps).value, two);
            && a.keeper == b.keeper && Emitted(a.log) == Emitted(b.log)
            && (u in a.open && u in b.open ==>
                  Bodies(Mine(a.delivered, u)) + Bodies(Mine(a.out, u)) ==
                  Bodies(Mine(b.delivered, u)) + Bodies(Mine(b.out, u)))
  {
    var a, b := After(Exec(steps).value, one), After(Exec(steps).value, two);
    SettledHandledAll(steps, one);
    SettledHandledAll(steps, two);
    if u in a.open && u in b.open {
      SettledHandedAll(steps, one, u);
      SettledHandedAll(steps, two, u);
    }
  }

  /** A logged-on user whose connection is still open, with every hand-over that finished no message made
      up for by an event, has then been written what makes its client show exactly the state in which the
      events leave the rooms. */
  lemma {:induction false} SettledClientsAreCoherent(steps: seq<Step>, more: seq<Step>, u: u64)
    requires Exec(steps).Some? && Running(Exec(steps).value) && |Flow(Exec(steps).value)| < 0xFFFF_FFFE
    requires AllOwn(Exec(steps).value, more) && Settled(After(Exec(steps).value, more))
    requires u in After(Exec(steps).value, more).open && u in After(Exec(steps).value, more).keeper.users
    requires LineOf(After(Exec(steps).value, more), u).short == LineOf(After(Exec(steps).value, more), u).late
    ensures var s := Exec(steps).value;
            && Run(Flow(s)).Some?
            && Coherent(Run(Flow(s)).value.0, ApplyAll(Start(), Bodies(Mine(After(s, more).delivered, u))), u)
  {
    var t := After(Exec(steps).value, more);
    SettledHandedAll(steps, more, u);
    SettledHandledAll(steps, more);
    ViewCoherence(Flow(Exec(steps).value), u);
    assert Mine(t.out, u) == [];
    Alone(Bodies(Mine(t.delivered, u)));
  }
}
