/** What stopping the server does to a message under way. */
module Stopping {
  import opened Octets
  import opened Framing
  import opened Chat
  import opened KeeperSpec
  import opened KeeperRuns
  import opened Pipeline
  import opened ContextLife
  import opened MessageLife

  /** The net service has stopped and the worker comes to a message to be sent: the forward is refused, and
      the context is destroyed with the message still in its slot, where the destructor's assertion fails. */
  lemma {:induction false} RefusedForwardBursts(s: State)
    requires Enabled(s, WorkerHandle) && s.worker.running && !s.net.running && s.worker.batch[0].op.OpSend?
    requires s.worker.batch[0] in s.slots && s.refs[s.worker.batch[0]] == 1
    ensures Loses(s, WorkerHandle) && Enabled(WorkerHandled(s), Finish(Work))
    ensures Next(WorkerHandled(s), Finish(Work)).burst == s.burst + [s.worker.batch[0]]
  {
  }

  // ---------------------------------------------------------------- a run in which this happens

  /** What matters of the states of the run below. */
  datatype Scene = Scene(
    netRuns: bool, netQueue: seq<Ctx>, netBatch: seq<Ctx>, netStage: Stage,
    workQueue: seq<Ctx>, workBatch: seq<Ctx>, workStage: Stage,
    next: nat, nextConn: u64, zeroOpen: bool, held: multiset<Ctx>, pending: seq<Send>)

  function SceneOf(s: State): Scene {
    Scene(s.net.running, s.net.queue, s.net.batch, s.net.stage, s.worker.queue, s.worker.batch, s.worker.stage,
          s.next, s.nextConn, 0 in s.open, s.held, s.pending)
  }

  /** The worker still runs and has handled nothing. */
  predicate Untouched(s: State) {
    s.worker.running && s.keeper == Initial()
  }

  const REQUEST: Step := Arrive(0, [], 0, Join([], []))

  function Accepted(): Ctx {
    Ctx(0, OpAccept, 0)
  }

  function Asked(): Ctx {
    Ctx(1, OpRecv([], 0, Join([], [])), 0)
  }

  /** The worker's answer to a request of a user who is not logged on. */
  function Refusal(): Reply {
    JoinRoomRes(USER_NOT_EXIST, [])
  }

  function RefusalFrame(): (frame: bytes)
    ensures IsFrame(frame, Refusal().Encode())
  {
    var payload := Refusal().Encode();
    BE(4, |payload|) + [0, 0, 0, 0] + payload
  }

  function Answer(frame: bytes): Ctx {
    Ctx(2, OpSend(Refusal(), frame), 0)
  }

  function IdleScene(next: nat, held: multiset<Ctx>): Scene {
    Scene(true, [], [], Ready, [], [], Ready, next, 1, true, held, [])
  }

  /** A context just queued for the net service is taken up. */
  lemma {:induction false} NetTakes(s: State, c: Ctx)
    requires SceneOf(s).netQueue == [c] && SceneOf(s).netBatch == [] && SceneOf(s).netStage == Ready
    ensures Enabled(s, Drain(Net)) && SceneOf(Next(s, Drain(Net))) == SceneOf(s).(netQueue := [], netBatch := [c])
    ensures Untouched(s) ==> Untouched(Next(s, Drain(Net)))
  {
  }

  lemma {:induction false} NetFinishes(s: State, c: Ctx)
    requires SceneOf(s).netBatch == [c] && SceneOf(s).netStage == Handled
    ensures Enabled(s, Finish(Net))
    ensures SceneOf(Next(s, Finish(Net))) == SceneOf(s).(netBatch := [], netStage := Ready)
    ensures Untouched(s) ==> Untouched(Next(s, Finish(Net)))
  {
    assert [c][1..] == [];
  }

  lemma {:induction false} NetAccepts(s: State)
    requires SceneOf(s) == Scene(true, [], [Accepted()], Ready, [], [], Ready, 1, 0, false, multiset{Accepted()}, [])
    requires Untouched(s)
    ensures Enabled(s, NetHandle) && Untouched(Next(s, NetHandle))
    ensures SceneOf(Next(s, NetHandle)) == SceneOf(s).(netStage := Handled, nextConn := 1, zeroOpen := true)
  {
  }

  lemma {:induction false} NetForwards(s: State)
    requires SceneOf(s).netRuns && SceneOf(s).netBatch == [Asked()] && SceneOf(s).netStage == Ready
    requires SceneOf(s).nextConn == 1 && SceneOf(s).workQueue == [] && Untouched(s)
    ensures Enabled(s, NetHandle) && Untouched(Next(s, NetHandle))
    ensures SceneOf(Next(s, NetHandle)) == SceneOf(s).(netStage := Handled, workQueue := [Asked()])
  {
    assert [] + [Asked()] == [Asked()];
  }

  function Opening(): seq<Step> {
    [Connect] + [Drain(Net)] + [NetHandle] + [Finish(Net)]
  }

  lemma {:induction false} AfterOpening()
    ensures Exec(Opening()).Some? && Untouched(Exec(Opening()).value)
    ensures SceneOf(Exec(Opening()).value) == IdleScene(1, multiset{Accepted()})
  {
    AfterConnect();
    hide Next, Enabled, Exec, SceneOf, Untouched;
    var s := Exec([Connect]).value;
    NetTakes(s, Accepted());
    ExecSnoc([Connect], Drain(Net));
    var s1 := Next(s, Drain(Net));
    NetAccepts(s1);
    ExecSnoc([Connect] + [Drain(Net)], NetHandle);
    NetFinishes(Next(s1, NetHandle), Accepted());
    ExecSnoc([Connect] + [Drain(Net)] + [NetHandle], Finish(Net));
  }

  lemma {:induction false} AfterConnect()
    ensures Exec([Connect]).Some? && Untouched(Exec([Connect]).value)
    ensures SceneOf(Exec([Connect]).value) ==
            Scene(true, [Accepted()], [], Ready, [], [], Ready, 1, 0, false, multiset{Accepted()}, [])
  {
    hide Initial;
    ExecSnoc([], Connect);
    assert [] + [Connect] == [Connect] && [] + [Accepted()] == [Accepted()];
  }

  function Asking(): seq<Step> {
    Opening() + [REQUEST] + [Drain(Net)] + [NetHandle] + [Finish(Net)]
  }

  lemma {:induction false} RequestArrives(s: State)
    requires SceneOf(s) == IdleScene(1, multiset{Accepted()}) && Untouched(s)
    ensures Enabled(s, REQUEST) && Untouched(Next(s, REQUEST))
    ensures SceneOf(Next(s, REQUEST)) == IdleScene(2, multiset{Accepted(), Asked()}).(netQueue := [Asked()])
  {
    assert [] + [Asked()] == [Asked()];
  }

  lemma {:induction false} AfterAsking()
    ensures Exec(Asking()).Some? && Untouched(Exec(Asking()).value)
    ensures SceneOf(Exec(Asking()).value) == IdleScene(2, multiset{Accepted(), Asked()}).(workQueue := [Asked()])
  {
    AfterOpening();
    hide Next, Enabled, Exec, SceneOf, Untouched, Opening;
    var s := Exec(Opening()).value;
    RequestArrives(s);
    ExecSnoc(Opening(), REQUEST);
    var s1 := Next(s, REQUEST);
    NetTakes(s1, Asked());
    ExecSnoc(Opening() + [REQUEST], Drain(Net));
    var s2 := Next(s1, Drain(Net));
    NetForwards(s2);
    ExecSnoc(Opening() + [REQUEST] + [Drain(Net)], NetHandle);
    NetFinishes(Next(s2, NetHandle), Asked());
    ExecSnoc(Opening() + [REQUEST] + [Drain(Net)] + [NetHandle], Finish(Net));
  }

  lemma {:induction false} WorkTakes(s: State, c: Ctx)
    requires SceneOf(s).workQueue == [c] && SceneOf(s).workBatch == [] && SceneOf(s).workStage == Ready
    ensures Enabled(s, Drain(Work)) && SceneOf(Next(s, Drain(Work))) == SceneOf(s).(workQueue := [], workBatch := [c])
    ensures Next(s, Drain(Work)).worker.running == s.worker.running && Next(s, Drain(Work)).keeper == s.keeper
  {
  }

  lemma {:induction false} WorkerAnswers(s: State)
    requires SceneOf(s).workBatch == [Asked()] && SceneOf(s).workStage == Ready && Untouched(s)
    ensures Enabled(s, WorkerHandle)
    ensures SceneOf(Next(s, WorkerHandle)) == SceneOf(s).(workStage := Busy, pending := [Send(0, Refusal())])
    ensures Next(s, WorkerHandle).worker.running
  {
    InitialInv();
    assert Sends(Initial(), Asked().AsEvent()) == [] + [Send(0, Refusal())] == [Send(0, Refusal())];
  }

  lemma {:induction false} AnswerQueued(s: State, frame: bytes)
    requires SceneOf(s).workBatch == [Asked()] && SceneOf(s).workStage == Busy && SceneOf(s).workQueue == []
    requires SceneOf(s).pending == [Send(0, Refusal())] && SceneOf(s).next == 2 && s.worker.running
    requires IsFrame(frame, Refusal().Encode())
    ensures var c := Answer(frame);
            && Enabled(s, Emit(frame)) && Next(s, Emit(frame)).worker.running
            && SceneOf(Next(s, Emit(frame))) ==
               SceneOf(s).(workQueue := [c], next := 3, held := s.held + multiset{c}, pending := [])
  {
    assert s.pending[1..] == [] && [] + [Answer(frame)] == [Answer(frame)];
  }

  lemma {:induction false} AnswerReleased(s: State, c: Ctx, others: multiset<Ctx>)
    requires s.held == others + multiset{c}
    ensures Enabled(s, Release(c)) && SceneOf(Next(s, Release(c))) == SceneOf(s).(held := others)
    ensures Next(s, Release(c)).worker.running == s.worker.running
  {
    assert others + multiset{c} - multiset{c} == others;
  }

  lemma {:induction false} WorkFinishes(s: State, c: Ctx)
    requires SceneOf(s).workBatch == [c] && SceneOf(s).workStage == Busy && SceneOf(s).pending == []
    ensures Enabled(s, Done) && Enabled(Next(s, Done), Finish(Work))
    ensures SceneOf(Next(Next(s, Done), Finish(Work))) == SceneOf(s).(workBatch := [], workStage := Ready)
    ensures Next(Next(s, Done), Finish(Work)).worker.running == s.worker.running
  {
    assert [c][1..] == [];
  }

  function Answering(frame: bytes): seq<Step> {
    Asking() + [Drain(Work)] + [WorkerHandle] + [Emit(frame)] + [Release(Answer(frame))] + [Done] + [Finish(Work)]
  }

  lemma {:induction false} AfterAnswering(frame: bytes)
    requires IsFrame(frame, Refusal().Encode())
    ensures var held := multiset{Accepted(), Asked()};
            && Exec(Answering(frame)).Some? && Exec(Answering(frame)).value.worker.running
            && SceneOf(Exec(Answering(frame)).value) == IdleScene(3, held).(workQueue := [Answer(frame)])
  {
    var c, held := Answer(frame), multiset{Accepted(), Asked()};
    AfterAsking();
    assert Exec(Asking()).value.worker.running;
    assert SceneOf(Exec(Asking()).value).held == held && Exec(Asking()).value.held == held;
    hide Next, Enabled, Exec, Asking;
    var s := Exec(Asking()).value;
    WorkTakes(s, Asked());
    ExecSnoc(Asking(), Drain(Work));
    var s1 := Next(s, Drain(Work));
    WorkerAnswers(s1);
    ExecSnoc(Asking() + [Drain(Work)], WorkerHandle);
    var s2 := Next(s1, WorkerHandle);
    AnswerQueued(s2, frame);
    ExecSnoc(Asking() + [Drain(Work)] + [WorkerHandle], Emit(frame));
    var s3 := Next(s2, Emit(frame));
    AnswerReleased(s3, c, held);
    ExecSnoc(Asking() + [Drain(Work)] + [WorkerHandle] + [Emit(frame)], Release(c));
    var s4 := Next(s3, Release(c));
    WorkFinishes(s4, Asked());
    ExecSnoc(Asking() + [Drain(Work)] + [WorkerHandle] + [Emit(frame)] + [Release(c)], Done);
    ExecSnoc(Asking() + [Drain(Work)] + [WorkerHandle] + [Emit(frame)] + [Release(c)] + [Done], Finish(Work));
  }

  /** Then the destructor of the server stops the net service, and only then the worker. */
  function Closing(frame: bytes): seq<Step> {
    Answering(frame) + [Stop(Net)] + [Drain(Work)]
  }

  lemma {:induction false} AfterClosing(frame: bytes)
    requires IsFrame(frame, Refusal().Encode())
    ensures Exec(Closing(frame)).Some? && Kept(Exec(Closing(frame)).value) && LifeInv(Exec(Closing(frame)).value)
    ensures SceneOf(Exec(Closing(frame)).value) ==
            IdleScene(3, multiset{Accepted(), Asked()}).(netRuns := false, workBatch := [Answer(frame)])
    ensures Exec(Closing(frame)).value.worker.running
  {
    AfterAnswering(frame);
    var s := Exec(Answering(frame)).value;
    RunningIsLossless(Answering(frame));
    ExecKeeps(Answering(frame));
    ExecLives(Answering(frame));
    ExecSnoc(Answering(frame), Stop(Net));
    var s1 := Next(s, Stop(Net));
    assert SceneOf(s1) == SceneOf(s).(netRuns := false);
    StepKeepsExactly(s, Stop(Net));
    StepLives(s, Stop(Net));
    WorkTakes(s1, Answer(frame));
    ExecSnoc(Answering(frame) + [Stop(Net)], Drain(Work));
    StepKeepsExactly(s1, Drain(Work));
    StepLives(s1, Drain(Work));
  }

  lemma {:induction false} OnlyHolder(s: State, frame: bytes)
    requires LifeInv(s) && Kept(s)
    requires SceneOf(s) == IdleScene(3, multiset{Accepted(), Asked()}).(netRuns := false, workBatch := [Answer(frame)])
    ensures s.refs[Answer(frame)] == 1 && Answer(frame) in s.slots && s.burst == []
  {
    var c := Answer(frame);
    assert Holders(s) == multiset{Accepted(), Asked(), c};
    assert Rest(s.worker) == [c];
    CarriedCons(c, []);
    assert [c] + [] == [c];
  }

  /** A run of the server in which this happens: a client that is not logged on asks to join a room, and the
      server is shut down, net service first, before the worker has forwarded its answer. */
  lemma {:induction false} AnswerLostOnShutdown()
    ensures var c := Answer(RefusalFrame());
            var run := Closing(RefusalFrame()) + [WorkerHandle] + [Finish(Work)];
            && Exec(run).Some? && Exec(run).value.burst == [c] && !Lossless(run)
  {
    var frame := RefusalFrame();
    AfterClosing(frame);
    var s := Exec(Closing(frame)).value;
    OnlyHolder(s, frame);
    RefusedForwardBursts(s);
    ExecSnoc(Closing(frame), WorkerHandle);
    ExecSnoc(Closing(frame) + [WorkerHandle], Finish(Work));
    var run := Closing(frame) + [WorkerHandle] + [Finish(Work)];
    if Lossless(run) {
      ExecKeeps(run);
    }
  }
}
