/** Whole runs of the server, from the worker's events to the messages written on connections. */
module SystemRuns {
  import opened Octets
  import opened KeeperSpec
  import opened KeeperRuns
  import opened Pipeline
  import opened ContextLife
  import opened MessageLife
  import opened PipelineOrder

  // ---------------------------------------------------------------- what the worker queued

  function Emitted(cs: seq<Ctx>): seq<Send> {
    if cs == [] then []
    else (match cs[0].op case OpSend(body, _) => [Send(cs[0].conn, body)] case _ => []) + Emitted(cs[1..])
  }

  lemma {:induction false} EmittedConcat(a: seq<Ctx>, b: seq<Ctx>)
    ensures Emitted(a + b) == Emitted(a) + Emitted(b)
  {
    if a == [] {
      assert a + b == b;
    } else {
      assert (a + b)[1..] == a[1..] + b;
      EmittedConcat(a[1..], b);
      Associative(match a[0].op case OpSend(body, _) => [Send(a[0].conn, body)] case _ => [], Emitted(a[1..]),
          Emitted(b));
    }
  }

  lemma {:induction false} EmittedOne(c: Ctx)
    requires c.op.OpSend?
    ensures Emitted([c]) == [Send(c.conn, c.op.body)]
  {
    assert [c][1..] == [];
  }

  /** The sends queued so far and those still to be queued are exactly those of the worker's run. */
  ghost predicate Faithful(s: State) {
    && Run(s.events) == Some((s.keeper, Emitted(s.log) + s.pending))
    && (s.pending != [] ==> s.worker.stage == Busy)
  }

  lemma {:induction false} EmitFaithful(s: State, frame: bytes)
    requires Faithful(s) && Enabled(s, Emit(frame))
    ensures Faithful(EmitOne(s, frame))
  {
    var c := NewSend(s, frame);
    EmittedConcat(s.log, [c]);
    EmittedOne(c);
    Associative(Emitted(s.log), [s.pending[0]], s.pending[1..]);
    assert [s.pending[0]] + s.pending[1..] == s.pending;
  }

  lemma {:induction false} HandleFaithful(s: State)
    requires Faithful(s) && Running(s) && Enabled(s, WorkerHandle) && s.worker.batch[0].IsEvent()
    ensures Faithful(Next(s, WorkerHandle))
  {
    var e := s.worker.batch[0].AsEvent();
    assert (s.events + [e])[..|s.events + [e]| - 1] == s.events;
    assert Emitted(s.log) + s.pending == Emitted(s.log);
  }

  /** What Faithful speaks about. */
  function Story(s: State): (seq<Event>, Keeper, seq<Ctx>, seq<Send>) {
    (s.events, s.keeper, s.log, s.pending)
  }

  lemma {:induction false} NetHandleStory(s: State)
    requires Enabled(s, NetHandle) && Running(s)
    ensures Story(NetHandled(s)) == Story(s) && NetHandled(s).worker.stage == s.worker.stage
  {
  }

  lemma {:induction false} OtherStory(s: State, step: Step)
    requires Enabled(s, step) && Running(s) && !step.Stop? && !step.Emit? && !step.WorkerHandle?
    ensures Story(Next(s, step)) == Story(s)
  {
    if step.NetHandle? {
      NetHandleStory(s);
    }
  }

  lemma {:induction false} StageAfter(s: State, step: Step)
    requires Enabled(s, step) && Running(s) && !step.WorkerHandle? && s.worker.stage == Busy && s.pending != []
    ensures Next(s, step).worker.stage == Busy
  {
    if step.NetHandle? {
      NetHandleStory(s);
    }
  }

  lemma {:induction false} StepFaithful(s: State, step: Step)
    requires Faithful(s) && Running(s) && Enabled(s, step) && !step.Stop?
    ensures Faithful(Next(s, step))
  {
    if step.Emit? {
      EmitFaithful(s, step.frame);
    } else if step.WorkerHandle? && s.worker.batch[0].IsEvent() {
      HandleFaithful(s);
    } else if step.WorkerHandle? {
      assert s.pending == [] && Story(WorkerHandled(s)) == Story(s);
    } else {
      OtherStory(s, step);
      if s.pending != [] {
        StageAfter(s, step);
      }
    }
  }

  lemma {:induction false} ExecFaithful(steps: seq<Step>)
    requires Exec(steps).Some? && Running(Exec(steps).value)
    ensures Faithful(Exec(steps).value)
  {
    if steps != [] {
      var before, step := steps[..|steps| - 1], steps[|steps| - 1];
      RunningBefore(Exec(before).value, step);
      ExecFaithful(before);
      StepFaithful(Exec(before).value, step);
    } else {
      assert Emitted([]) + [] == [];
    }
  }

  /** The worker's log is what the net service has handled followed by what is still ahead of it. */
  lemma {:induction false} ExecLogged(steps: seq<Step>)
    requires Exec(steps).Some? && Running(Exec(steps).value)
    ensures Exec(steps).value.log == SendFlow(Exec(steps).value)
  {
    if steps != [] {
      var before, step := steps[..|steps| - 1], steps[|steps| - 1];
      var s := Exec(before).value;
      RunningBefore(s, step);
      ExecLogged(before);
      ExecLives(before);
      SendFlowStep(s, step);
      Alone(s.log);
      LogAfter(s, step);
    }
  }

  lemma {:induction false} LogAfter(s: State, step: Step)
    requires Enabled(s, step) && Running(s) && !step.Stop?
    ensures Next(s, step).log == s.log + if step.Emit? then WorkIn(s, step) else []
  {
    Alone(s.log);
    if step.WorkerHandle? {
      assert WorkerHandled(s).log == s.log;
    } else if !step.Emit? {
      OtherStory(s, step);
    }
  }
}
