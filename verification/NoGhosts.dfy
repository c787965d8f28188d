/** After a connection's drop nothing of it ever comes back. */
module NoGhosts {
  import opened Octets
  import opened KeeperSpec
  import opened KeeperRuns
  import opened Pipeline
  import opened ContextLife
  import opened MessageLife
  import opened PipelineOrder

  /** No request of a connection follows its drop. */
  ghost predicate DropsLast(es: seq<Event>) {
    forall i, j | 0 <= i < j < |es| :: es[i].Dropped? && es[j].Received? ==> es[i].conn != es[j].conn
  }

  /** Connections still open have not been dropped anywhere in the pipeline, and ids still to be given
      out occur nowhere. */
  ghost predicate OrderlyFlow(flow: seq<Event>, nextConn: u64, live: set<u64>, open: set<u64>) {
    && DropsLast(flow)
    && (forall e | e in flow :: e.conn < nextConn)
    && (forall u | u in live :: u < nextConn)
    && open <= live
    && (forall u | u in open :: Dropped(u) !in flow)
  }

  ghost predicate Orderly(s: State) {
    OrderlyFlow(Flow(s), s.nextConn, s.live, s.open)
  }

  lemma {:induction false} DropsLastSnoc(es: seq<Event>, e: Event)
    requires DropsLast(es) && (e.Received? ==> Dropped(e.conn) !in es)
    ensures DropsLast(es + [e])
  {
    forall i, j | 0 <= i < j < |es + [e]| && (es + [e])[i].Dropped? && (es + [e])[j].Received?
      ensures (es + [e])[i].conn != (es + [e])[j].conn
    {
      if j == |es| {
        assert es[i] == Dropped(es[i].conn) && es[i] in es;
      }
    }
  }

  lemma {:induction false} ArriveOrderly(flow: seq<Event>, nextConn: u64, live: set<u64>, open: set<u64>, e: Event)
    requires OrderlyFlow(flow, nextConn, live, open) && e.Received? && e.conn in open
    ensures OrderlyFlow(flow + [e], nextConn, live, open)
  {
    DropsLastSnoc(flow, e);
  }

  lemma {:induction false} FailOrderly(flow: seq<Event>, nextConn: u64, live: set<u64>, open: set<u64>, conn: u64)
    requires OrderlyFlow(flow, nextConn, live, open) && conn in live
    ensures OrderlyFlow(flow + [Dropped(conn)], nextConn, live, open - {conn})
  {
    DropsLastSnoc(flow, Dropped(conn));
  }

  /** A new connection's id is larger than every id seen before. */
  lemma {:induction false} AcceptOrderly(flow: seq<Event>, nextConn: u64, live: set<u64>, open: set<u64>)
    requires OrderlyFlow(flow, nextConn, live, open) && nextConn < 0xFFFF_FFFF_FFFF_FFFF
    ensures OrderlyFlow(flow, nextConn + 1, live + {nextConn}, open + {nextConn})
  {
  }

  lemma {:induction false} FewerOrderly(flow: seq<Event>, nextConn: u64, live: set<u64>, open: set<u64>,
      live2: set<u64>, open2: set<u64>)
    requires OrderlyFlow(flow, nextConn, live, open) && open2 <= open && live2 <= live && open2 <= live2
    ensures OrderlyFlow(flow, nextConn, live2, open2)
  {
  }

  /** The connection table: the next id, the live connections, the open ones. */
  function Table(s: State): (u64, set<u64>, set<u64>) {
    (s.nextConn, s.live, s.open)
  }

  function TableAfter(s: State, step: Step): (u64, set<u64>, set<u64>)
    requires Enabled(s, step)
  {
    match step
    case NetHandle =>
      if s.net.batch[0].op.OpAccept? then (s.nextConn + 1, s.live + {s.nextConn}, s.open + {s.nextConn}) else Table(s)
    case Fail(conn) => (s.nextConn, s.live, s.open - {conn})
    case Hush(conn) => (s.nextConn, s.live, s.open - {conn})
    case NetDelete => (s.nextConn, s.live - {s.net.batch[0].conn}, s.open - {s.net.batch[0].conn})
    case _ => Table(s)
  }

  lemma {:induction false} NetHandleTable(s: State)
    requires Enabled(s, NetHandle) && Running(s)
    ensures Table(NetHandled(s)) == TableAfter(s, NetHandle)
  {
  }

  lemma {:induction false} FailTable(s: State, conn: u64)
    requires Enabled(s, Fail(conn))
    ensures Table(Next(s, Fail(conn))) == TableAfter(s, Fail(conn))
  {
    if conn !in s.open {
      assert s.open - {conn} == s.open;
    }
  }

  lemma {:induction false} StepTable(s: State, step: Step)
    requires Enabled(s, step) && Running(s) && !step.Stop?
    ensures Table(Next(s, step)) == TableAfter(s, step)
  {
    match step
    case NetHandle => NetHandleTable(s);
    case Fail(conn) => FailTable(s, conn);
    case _ =>
  }

  lemma {:induction false} StepOrderly(s: State, step: Step)
    requires LifeInv(s) && Orderly(s) && Running(s) && Enabled(s, step) && !step.Stop?
    ensures Orderly(Next(s, step))
  {
    var t := Next(s, step);
    FlowStep(s, step);
    Alone(Flow(s));
    StepTable(s, step);
    if step.Arrive? {
      ArriveOrderly(Flow(s), s.nextConn, s.live, s.open, Incoming(step)[0]);
    } else if step.Fail? {
      FailOrderly(Flow(s), s.nextConn, s.live, s.open, step.conn);
    } else if step.NetHandle? && s.net.batch[0].op.OpAccept? {
      AcceptOrderly(Flow(s), s.nextConn, s.live, s.open);
    } else {
      FewerOrderly(Flow(s), s.nextConn, s.live, s.open, t.live, t.open);
    }
  }

  lemma {:induction false} ExecOrderly(steps: seq<Step>)
    requires Exec(steps).Some? && Running(Exec(steps).value)
    ensures Orderly(Exec(steps).value)
  {
    if steps != [] {
      var before, step := steps[..|steps| - 1], steps[|steps| - 1];
      RunningBefore(Exec(before).value, step);
      ExecLives(before);
      ExecOrderly(before);
      StepOrderly(Exec(before).value, step);
    }
  }

  // ---------------------------------------------------------------- the keeper under such runs

  lemma {:induction false} NotHeardAfter(es: seq<Event>, e: Event, u: u64)
    requires DropsLast(es + [e]) && Dropped(u) in es
    ensures DropsLast(es) && (e.Received? ==> e.conn != u)
  {
    var all := es + [e];
    var i :| 0 <= i < |es| && es[i] == Dropped(u);
    assert all[i] == Dropped(u) && all[|es|] == e;
    assert forall j | 0 <= j < |es| :: all[j] == es[j];
  }

  /** A connection dropped and not heard of again is not logged on. */
  lemma {:induction false} DroppedStaysOut(es: seq<Event>, u: u64)
    requires Run(es).Some? && DropsLast(es) && Dropped(u) in es
    ensures u !in Run(es).value.0.users
  {
    var before, e := es[..|es| - 1], es[|es| - 1];
    assert es == before + [e];
    NextUsers(Run(before).value.0, e);
    if e != Dropped(u) {
      assert Dropped(u) in before;
      NotHeardAfter(before, e, u);
      DroppedStaysOut(before, u);
    }
  }

  lemma {:induction false} UsersHaveEvents(es: seq<Event>, u: u64)
    requires Run(es).Some? && u in Run(es).value.0.users
    ensures exists e | e in es :: e.conn == u
  {
    if es == [] {
      InitialInv();
    } else {
      var before, e := es[..|es| - 1], es[|es| - 1];
      assert es == before + [e];
      NextUsers(Run(before).value.0, e);
      if e.conn == u {
        assert e in es;
      } else {
        UsersHaveEvents(before, u);
        var x :| x in before && x.conn == u;
        assert x in es;
      }
    }
  }
}
