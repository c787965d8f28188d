/** What each connection gets: the worker's messages for it, in order, without gaps. */
module Delivered {
  import opened Octets
  import opened Chat
  import opened KeeperSpec
  import opened KeeperRuns
  import opened Pipeline
  import opened MessageLife
  import opened PipelineOrder
  import opened NoGhosts
  import opened SystemRuns

  // ---------------------------------------------------------------- who is written to

  lemma {:induction false} InfoTargets(k: Keeper, i: u32, m: Send)
    requires m in PublishInfo(k, i)
    ensures m.conn in k.users
  {
  }

  lemma {:induction false} ListTargets(k: Keeper, conn: u64, m: Send)
    requires m in PublishList(k, conn)
    ensures m.conn in k.users || m.conn == conn
  {
  }

  lemma {:induction false} LogonTargets(k: Keeper, conn: u64, name: bytes, ip: bytes, port: u16, m: Send)
    requires m in LogonSends(k, conn, name, ip, port)
    ensures m.conn in LogonState(k, conn, name, ip, port).users || m.conn == conn
  {
    var next := LogonState(k, conn, name, ip, port);
    if m in PublishInfo(next, HALL_ID) {
      InfoTargets(next, HALL_ID, m);
    } else if m in PublishList(next, conn) {
      ListTargets(next, conn, m);
    }
  }

  lemma {:induction false} JoinTargets(k: Keeper, conn: u64, name: bytes, passwd: bytes, m: Send)
    requires m in JoinSends(k, conn, name, passwd)
    ensures m.conn in JoinState(k, conn, name, passwd).users || m.conn == conn
  {
    var next := JoinState(k, conn, name, passwd);
    if JoinError(k, conn, name, passwd) == 0 {
      if m in PublishInfo(next, k.roomNames[name]) {
        InfoTargets(next, k.roomNames[name], m);
      } else if m in PublishInfo(next, k.users[conn].roomId) {
        InfoTargets(next, k.users[conn].roomId, m);
      }
    }
  }

  lemma {:induction false} CreateTargets(k: Keeper, conn: u64, name: bytes, passwd: bytes, m: Send)
    requires m in CreateSends(k, conn, name, passwd)
    ensures m.conn in CreateState(k, name, passwd).users || m.conn == conn
  {
    var next := CreateState(k, name, passwd);
    if m in PublishList(next, 0) {
      ListToEverybody(next, m);
    }
  }

  lemma {:induction false} ListToEverybody(k: Keeper, m: Send)
    requires m in PublishList(k, 0)
    ensures m.conn in k.users
  {
  }

  lemma {:induction false} DropTargets(k: Keeper, conn: u64, m: Send)
    requires m in DropSends(k, conn)
    ensures m.conn in DropState(k, conn).users
  {
    InfoTargets(DropState(k, conn), k.users[conn].roomId, m);
  }

  lemma {:induction false} ChatTargets(k: Keeper, conn: u64, roomId: u32, words: bytes, m: Send)
    requires conn in k.users && Known(k, roomId) && m in ChatSends(k, conn, roomId, words)
    ensures m.conn in k.users
  {
  }

  lemma {:induction false} WhisperTargets(k: Keeper, conn: u64, to: bytes, words: bytes, m: Send)
    requires UsersIndexed(k) && conn in k.users && m in WhisperSends(k, conn, to, words)
    ensures m.conn in k.users
  {
  }

  /** The worker only writes to logged-on users and to the connection whose event it handles. */
  lemma {:induction false} Targets(k: Keeper, e: Event, m: Send)
    requires Inv(k) && !Aborts(k, e) && m in Sends(k, e)
    ensures m.conn in NextState(k, e).users || m.conn == e.conn
  {
    match e
    case Dropped(conn) => DropTargets(k, conn, m);
    case Received(conn, ip, port, r) =>
      match r
      case Logon(name) => LogonTargets(k, conn, name, ip, port, m);
      case Create(name, passwd) => CreateTargets(k, conn, name, passwd, m);
      case Join(name, passwd) => JoinTargets(k, conn, name, passwd, m);
      case Publish(roomId, words) => EveryRoomKnown(k, roomId); ChatTargets(k, conn, roomId, words, m);
      case Whisper(to, words) => WhisperTargets(k, conn, to, words, m);
      case Unknown(_) =>
  }

  // ---------------------------------------------------------------- addresses

  /** Messages are only addressed to connections that exist or have existed. */
  ghost predicate Addressed(s: State) {
    && (forall c | c in s.log :: c.conn < s.nextConn && c.op.OpSend? && c.id < s.next)
    && (forall m | m in s.pending :: m.conn < s.nextConn)
    && (forall i, j | 0 <= i < j < |s.log| :: s.log[i].id < s.log[j].id)
  }

  /** Whether the server has handled few enough events for its 32-bit room counter. */
  predicate Early(s: State) {
    |s.events| < 0xFFFF_FFFE
  }

  lemma {:induction false} UsersAreOld(s: State, u: u64)
    requires Orderly(s) && Faithful(s) && u in s.keeper.users
    ensures u < s.nextConn
  {
    UsersHaveEvents(s.events, u);
    var e :| e in s.events && e.conn == u;
    assert e in Flow(s);
  }

  lemma {:induction false} HandleAddressed(s: State)
    requires s.worker.batch != [] && s.worker.batch[0].IsEvent()
    requires Enabled(s, WorkerHandle) && Orderly(Next(s, WorkerHandle))
    requires Running(s) && Addressed(s) && Faithful(s) && Orderly(s) && Early(s)
    ensures Addressed(Next(s, WorkerHandle))
  {
    var t, e := WorkerHandled(s), s.worker.batch[0].AsEvent();
    RunKeepsInv(s.events);
    HandleFaithful(s);
    assert e in t.events && e in Flow(t);
    forall m | m in t.pending
      ensures m.conn < t.nextConn
    {
      Targets(s.keeper, e, m);
      if m.conn in t.keeper.users {
        UsersAreOld(t, m.conn);
      }
    }
  }

  lemma {:induction false} EmitAddressed(s: State, frame: bytes)
    requires Addressed(s) && Enabled(s, Emit(frame))
    ensures Addressed(EmitOne(s, frame))
  {
    assert s.pending[0] in s.pending;
    assert forall m | m in s.pending[1..] :: m in s.pending;
  }

  lemma {:induction false} LaterAddressed(s: State, t: State)
    requires Addressed(s) && t.log == s.log && t.pending == s.pending && t.nextConn >= s.nextConn && t.next >= s.next
    ensures Addressed(t)
  {
  }

  lemma {:induction false} StepAddressed(s: State, step: Step)
    requires Addressed(s) && Faithful(s) && Orderly(s) && Running(s) && Early(s)
    requires Enabled(s, step) && !step.Stop? && Orderly(Next(s, step)) && Next(s, step).next >= s.next
    ensures Addressed(Next(s, step))
  {
    hide Faithful, Orderly;
    StepTable(s, step);
    if step.Emit? {
      EmitAddressed(s, step.frame);
    } else if step.WorkerHandle? {
      if s.worker.batch[0].IsEvent() {
        HandleAddressed(s);
      } else {
        assert Story(WorkerHandled(s)) == Story(s);
        LaterAddressed(s, WorkerHandled(s));
      }
    } else {
      OtherStory(s, step);
      LaterAddressed(s, Next(s, step));
    }
  }

  lemma {:induction false} EventsGrow(s: State, step: Step)
    requires Enabled(s, step) && Running(s) && !step.Stop?
    ensures |s.events| <= |Next(s, step).events|
  {
    EventsLeaving(s, step);
  }

  lemma {:induction false} ExecAddressed(steps: seq<Step>)
    requires Exec(steps).Some? && Running(Exec(steps).value) && Early(Exec(steps).value)
    ensures Addressed(Exec(steps).value)
  {
    if steps != [] {
      var before, step := steps[..|steps| - 1], steps[|steps| - 1];
      var s := Exec(before).value;
      RunningBefore(s, step);
      EventsGrow(s, step);
      ExecAddressed(before);
      ExecFaithful(before);
      ExecOrderly(before);
      ExecOrderly(steps);
      ExecNumbered(before);
      ExecNumbered(steps);
      NextGrows(s, step);
      StepAddressed(s, step);
    }
  }

  lemma {:induction false} NextGrows(s: State, step: Step)
    requires Enabled(s, step)
    ensures Next(s, step).next >= s.next
  {
    if !step.Connect? && !step.Arrive? && !step.Fail? && !step.Emit? {
      hide Next;
      StepRegister(s, step);
    }
  }
}
