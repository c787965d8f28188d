/** Reference counts of contexts, and the queues they travel through. */
module ContextLife {
  import opened Octets
  import opened Pipeline

  // ---------------------------------------------------------------- invariants

  /** A service's accepted contexts are those processed, those skipped after its stop, and those not
      yet looked at, in this order. */
  ghost predicate Linear(sv: Service) {
    && sv.accepted == sv.processed + sv.skipped + Rest(sv)
    && (sv.skipped != [] ==> !sv.running)
    && (sv.stage != Ready ==> sv.batch != [])
  }

  /** mRef counts exactly the queue and batch entries holding the context, plus its creator. */
  ghost predicate Counted(s: State) {
    s.refs == Holders(s)
  }

  ghost predicate Distinct(cs: seq<Ctx>) {
    forall i, j | 0 <= i < j < |cs| :: cs[i] != cs[j]
  }

  /** Every context created is either held or destroyed, never both, and destroyed at most once. */
  ghost predicate Living(s: State) {
    && (forall c | c in s.refs :: c.id < s.next)
    && (forall c | c in s.destroyed :: c.id < s.next && c !in s.refs)
    && (forall c | c in s.created :: c in s.refs || c in s.destroyed)
    && Distinct(s.destroyed)
  }

  ghost predicate LifeInv(s: State) {
    Linear(s.net) && Linear(s.worker) && Counted(s) && Living(s)
  }

  // ---------------------------------------------------------------- linearity of one queue

  lemma {:induction false} PushLinear(sv: Service, c: Ctx)
    requires Linear(sv)
    ensures Linear(Push(sv, c)) && Rest(Push(sv, c)) == if sv.running then Rest(sv) + [c] else Rest(sv)
  {
    if sv.running {
      assert Rest(Push(sv, c)) == Rest(sv) + [c];
    }
  }

  lemma {:induction false} DrainLinear(sv: Service)
    requires Linear(sv) && sv.batch == [] && sv.stage == Ready
    ensures Linear(Drained(sv)) && Rest(Drained(sv)) == Rest(sv)
  {
    assert Rest(Drained(sv)) == Rest(sv);
  }

  lemma {:induction false} StartLinear(sv: Service, stage: Stage)
    requires Linear(sv) && sv.batch != [] && sv.stage == Ready && stage != Ready
    ensures Linear(Started(sv, stage)) && Rest(sv) == [sv.batch[0]] + Rest(Started(sv, stage))
  {
    assert sv.batch == [sv.batch[0]] + sv.batch[1..];
    assert Rest(sv) == [sv.batch[0]] + Rest(Started(sv, stage));
  }

  lemma {:induction false} FinishLinear(sv: Service)
    requires Linear(sv) && sv.batch != [] && sv.stage == Handled
    ensures Linear(Finished(sv)) && Rest(Finished(sv)) == Rest(sv)
  {
  }

  // ---------------------------------------------------------------- counting

  lemma {:induction false} BatchHead(batch: seq<Ctx>)
    requires batch != []
    ensures multiset(batch) == multiset{batch[0]} + multiset(batch[1..])
  {
    assert batch == [batch[0]] + batch[1..];
  }

  /** Dropping one reference that no holder accounts for any more. */
  lemma {:induction false} DecRefLives(s: State, c: Ctx)
    requires s.refs == Holders(s) + multiset{c} && Living(s)
    ensures Counted(DecRef(s, c)) && Living(DecRef(s, c))
  {
    DecRefCounted(s, c);
    DecRefLiving(s, c);
  }

  lemma {:induction false} DecRefCounted(s: State, c: Ctx)
    requires s.refs == Holders(s) + multiset{c}
    ensures Counted(DecRef(s, c))
  {
    assert Holders(DecRef(s, c)) == Holders(s);
  }

  lemma {:induction false} DecRefLiving(s: State, c: Ctx)
    requires c in s.refs && Living(s)
    ensures Living(DecRef(s, c))
  {
    hide Holders;
    var t := DecRef(s, c);
    forall x | x in t.created
      ensures x in t.refs || x in t.destroyed
    {
      assert x in s.refs || x in s.destroyed;
    }
  }

  lemma {:induction false} NewLives(s: State, t: State, c: Ctx)
    requires Living(s) && c.id == s.next && t.next == s.next + 1 && t.created == s.created + [c]
    requires t.destroyed == s.destroyed
    requires t.refs == s.refs + multiset{c} || t.refs == s.refs + multiset{c} + multiset{c}
    ensures Living(t)
  {
  }

  lemma {:induction false} PostLives(s: State, op: Op, conn: u64)
    requires LifeInv(s)
    ensures LifeInv(Post(s, op, conn))
  {
    var c := Ctx(s.next, op, conn);
    PushLinear(s.net, c);
    NewLives(s, Post(s, op, conn), c);
  }

  lemma {:induction false} EmitLives(s: State, frame: bytes)
    requires LifeInv(s) && s.pending != []
    ensures LifeInv(EmitOne(s, frame))
  {
    var c := NewSend(s, frame);
    PushLinear(s.worker, c);
    NewLives(s, EmitOne(s, frame), c);
  }

  lemma {:induction false} HeldOnly(s: State, t: State)
    requires Living(s) && t.next == s.next && t.created == s.created && t.refs == s.refs && t.destroyed == s.destroyed
    ensures Living(t)
  {
  }

  /** Forwarding a context that is being processed. */
  lemma {:induction false} ForwardLives(s: State, c: Ctx, to: Who)
    requires LifeInv(s) && c in s.refs
    ensures LifeInv(Forward(s, c, to))
  {
    PushLinear(Of(s, to), c);
    if Of(s, to).running {
      PushHolders(s, c, to);
      hide Linear, Rest;
      HeldOnly(s.(refs := s.refs + multiset{c}), Forward(s, c, to));
    }
  }

  lemma {:induction false} PushHolders(s: State, c: Ctx, to: Who)
    requires Of(s, to).running
    ensures Holders(Forward(s, c, to)) == Holders(s) + multiset{c}
  {
  }

  // ---------------------------------------------------------------- every step

  lemma {:induction false} SameHolders(s: State, t: State)
    requires Counted(s) && Living(s)
    requires t.next == s.next && t.created == s.created && t.refs == s.refs && t.held == s.held
             && t.destroyed == s.destroyed
    requires multiset(t.net.batch) + multiset(t.net.queue) == multiset(s.net.batch) + multiset(s.net.queue)
    requires multiset(t.worker.batch) + multiset(t.worker.queue) == multiset(s.worker.batch) + multiset(s.worker.queue)
    ensures Counted(t) && Living(t)
  {
    GroupHolders(s);
    GroupHolders(t);
  }

  lemma {:induction false} GroupHolders(s: State)
    ensures Holders(s) == s.held + (multiset(s.net.batch) + multiset(s.net.queue))
                          + (multiset(s.worker.batch) + multiset(s.worker.queue))
  {
  }

  lemma {:induction false} HeadIsHeld(s: State, who: Who)
    requires Counted(s) && Of(s, who).batch != []
    ensures Of(s, who).batch[0] in s.refs
  {
    BatchHead(Of(s, who).batch);
  }

  lemma {:induction false} DrainLives(s: State, who: Who)
    requires LifeInv(s) && Enabled(s, Drain(who))
    ensures LifeInv(Next(s, Drain(who)))
  {
    DrainLinear(Of(s, who));
    SameHolders(s, Next(s, Drain(who)));
  }

  lemma {:induction false} FinishLives(s: State, who: Who)
    requires LifeInv(s) && Enabled(s, Finish(who))
    ensures LifeInv(Next(s, Finish(who)))
  {
    var sv := Of(s, who);
    FinishLinear(sv);
    FinishHolders(s, who);
    DecRefLives(With(s, who, Finished(sv)), sv.batch[0]);
  }

  lemma {:induction false} FinishHolders(s: State, who: Who)
    requires Of(s, who).batch != []
    ensures Holders(s) == Holders(With(s, who, Finished(Of(s, who)))) + multiset{Of(s, who).batch[0]}
  {
    BatchHead(Of(s, who).batch);
  }

  /** Starting on the first context of a batch. */
  lemma {:induction false} StartLives(s: State, who: Who, stage: Stage)
    requires LifeInv(s) && Of(s, who).batch != [] && Of(s, who).stage == Ready && stage != Ready
    ensures LifeInv(With(s, who, Started(Of(s, who), stage)))
    ensures Of(s, who).batch[0] in s.refs
  {
    StartLinear(Of(s, who), stage);
    HeadIsHeld(s, who);
    SameHolders(s, With(s, who, Started(Of(s, who), stage)));
  }

  /** The fields the life of contexts depends on are the same. */
  ghost predicate SameLife(s: State, t: State) {
    && t.next == s.next && t.created == s.created && t.refs == s.refs && t.held == s.held && t.destroyed == s.destroyed
    && t.net == s.net && t.worker == s.worker
  }

  lemma {:induction false} SameLifeLives(s: State, t: State)
    requires LifeInv(s) && SameLife(s, t)
    ensures LifeInv(t)
  {
  }

  lemma {:induction false} NetHandleLives(s: State)
    requires LifeInv(s) && Enabled(s, NetHandle)
    ensures LifeInv(NetHandled(s))
  {
    var c := s.net.batch[0];
    var t := With(s, Net, Started(s.net, NetStage(s)));
    StartLives(s, Net, NetStage(s));
    NetHandledFrom(s, t);
    if s.net.running && c.IsEvent() {
      ForwardLives(t, c, Work);
    } else {
      SameLifeLives(t, NetHandled(s));
    }
  }

  /** What net processing does beyond starting on the context. */
  lemma {:induction false} NetHandledFrom(s: State, t: State)
    requires Enabled(s, NetHandle)
    requires t == With(s, Net, Started(s.net, NetStage(s)))
    ensures if s.net.running && s.net.batch[0].IsEvent() then NetHandled(s) == Forward(t, s.net.batch[0], Work)
            else SameLife(t, NetHandled(s))
  {
  }

  lemma {:induction false} WorkerHandleLives(s: State)
    requires LifeInv(s) && Enabled(s, WorkerHandle)
    ensures LifeInv(WorkerHandled(s))
  {
    var c := s.worker.batch[0];
    var stage := if s.worker.running && c.IsEvent() then Busy else Handled;
    var t := With(s, Work, Started(s.worker, stage));
    StartLives(s, Work, stage);
    if s.worker.running && !c.IsEvent() {
      ForwardLives(t, c, Net);
    } else {
      SameLifeLives(t, WorkerHandled(s));
    }
  }

  lemma {:induction false} FailLives(s: State, conn: u64)
    requires LifeInv(s) && conn in s.live
    ensures LifeInv(Next(s, Fail(conn)))
  {
    hide LifeInv, Post;
    var t := if conn in s.open then Emptied(s, conn) else s;
    SameLifeLives(s, t);
    PostLives(t, OpDrop, conn);
  }

  lemma {:induction false} ReleaseLives(s: State, c: Ctx)
    requires LifeInv(s) && c in s.held
    ensures LifeInv(Next(s, Release(c)))
  {
    hide Linear, Holders, Living, DecRef;
    var t := s.(held := s.held - multiset{c});
    ReleaseHolders(s, c);
    HeldOnly(s, t);
    DecRefInv(t, c);
  }

  lemma {:induction false} DecRefInv(s: State, c: Ctx)
    requires Linear(s.net) && Linear(s.worker) && s.refs == Holders(s) + multiset{c} && Living(s)
    ensures LifeInv(DecRef(s, c))
  {
    DecRefLives(s, c);
  }

  lemma {:induction false} ReleaseHolders(s: State, c: Ctx)
    requires c in s.held
    ensures Holders(s) == Holders(s.(held := s.held - multiset{c})) + multiset{c}
  {
    OneLess(s.held, c, multiset(s.net.batch) + multiset(s.net.queue) + multiset(s.worker.batch)
        + multiset(s.worker.queue));
    FlattenHolders(s);
    FlattenHolders(s.(held := s.held - multiset{c}));
  }

  lemma {:induction false} OneLess(m: multiset<Ctx>, c: Ctx, others: multiset<Ctx>)
    requires c in m
    ensures m + others == (m - multiset{c} + others) + multiset{c}
  {
  }

  lemma {:induction false} FlattenHolders(s: State)
    ensures Holders(s) == s.held + (multiset(s.net.batch) + multiset(s.net.queue) + multiset(s.worker.batch)
            + multiset(s.worker.queue))
  {
  }

  /** Changing the stage from busy to handled, or the running flag. */
  lemma {:induction false} ServiceLives(s: State, who: Who, sv: Service)
    requires LifeInv(s) && sv.queue == Of(s, who).queue && sv.batch == Of(s, who).batch && Linear(sv)
    ensures LifeInv(With(s, who, sv))
  {
    SameHolders(s, With(s, who, sv));
  }

  /** Writing concerns connections only. */
  lemma {:induction false} WrittenSameLife(s: State, conn: u64, n: nat)
    requires n <= Offered(s, conn)
    ensures SameLife(s, HandedOver(s, conn, n)) && SameLife(s, WrittenLater(s, conn, n))
  {
  }

  lemma {:induction false} StagedLinear(sv: Service)
    requires Linear(sv)
    ensures sv.stage == Busy ==> Linear(sv.(stage := Handled))
    ensures Linear(sv.(running := false))
  {
    assert sv.stage == Busy ==> Rest(sv.(stage := Handled)) == Rest(sv);
    assert Rest(sv.(running := false)) == Rest(sv);
  }

  lemma {:induction false} DeleteLives(s: State)
    requires LifeInv(s) && Enabled(s, NetDelete)
    ensures LifeInv(Next(s, NetDelete))
  {
    StagedLinear(s.net);
    hide Linear, Rest, Holders, Living;
    var t := With(s, Net, s.net.(stage := Handled));
    ServiceLives(s, Net, t.net);
    SameLifeLives(t, Next(s, NetDelete));
  }

  lemma {:induction false} NetWriteLives(s: State, n: nat)
    requires LifeInv(s) && Enabled(s, NetWrite(n))
    ensures LifeInv(Next(s, NetWrite(n)))
  {
    StagedLinear(s.net);
    hide Linear, Rest, Holders, Living, HandedOver;
    var t := HandedOver(s, s.net.batch[0].conn, n);
    WrittenSameLife(s, s.net.batch[0].conn, n);
    SameLifeLives(s, t);
    ServiceLives(t, Net, s.net.(stage := Handled));
  }

  lemma {:induction false} DoneLives(s: State)
    requires LifeInv(s) && Enabled(s, Done)
    ensures LifeInv(Next(s, Done))
  {
    StagedLinear(s.worker);
    hide Linear, Rest, Holders, Living;
    var t := With(s, Work, s.worker.(stage := Handled));
    ServiceLives(s, Work, t.worker);
    SameLifeLives(t, Next(s, Done));
  }

  lemma {:induction false} StopLives(s: State, who: Who)
    requires LifeInv(s) && Enabled(s, Stop(who))
    ensures LifeInv(Next(s, Stop(who)))
  {
    StagedLinear(s.net);
    StagedLinear(s.worker);
    hide Linear, Rest, Holders, Living, LifeInv;
    if who == Net {
      ServiceLives(s, Net, s.net.(running := false));
    } else {
      ServiceLives(s, Work, s.worker.(running := false));
    }
  }

  lemma {:induction false} QuietLives(s: State, step: Step)
    requires LifeInv(s) && Enabled(s, step) && (step.NetDelete? || step.NetWrite? || step.Done? || step.Stop?)
    ensures LifeInv(Next(s, step))
  {
    hide LifeInv, Enabled, Next;
    match step
    case NetDelete => DeleteLives(s);
    case NetWrite(n) => NetWriteLives(s, n);
    case Done => DoneLives(s);
    case Stop(who) => StopLives(s, who);
  }

  /** Every step of every thread keeps the counts exact and the queues linear. */
  lemma {:induction false} StepLives(s: State, step: Step)
    requires LifeInv(s) && Enabled(s, step)
    ensures LifeInv(Next(s, step))
  {
    match step
    case Connect => PostLives(s, OpAccept, 0);
    case Arrive(conn, ip, port, request) => PostLives(s, OpRecv(ip, port, request), conn);
    case Fail(conn) => FailLives(s, conn);
    case Hush(conn) => SameLifeLives(s, Next(s, step));
    case Release(c) => ReleaseLives(s, c);
    case Drain(who) => DrainLives(s, who);
    case NetHandle => NetHandleLives(s);
    case NetDelete => QuietLives(s, step);
    case NetWrite(n) => QuietLives(s, step);
    case WorkerHandle => WorkerHandleLives(s);
    case Emit(frame) => EmitLives(s, frame);
    case Done => QuietLives(s, step);
    case Finish(who) => FinishLives(s, who);
    case Write(conn, n) => WrittenSameLife(s, conn, n); SameLifeLives(s, Next(s, step));
    case Stop(who) => QuietLives(s, step);
  }

  lemma {:induction false} ExecLives(steps: seq<Step>)
    requires Exec(steps).Some?
    ensures LifeInv(Exec(steps).value)
  {
    if steps == [] {
      assert LifeInv(Initially());
    } else {
      ExecLives(steps[..|steps| - 1]);
      StepLives(Exec(steps[..|steps| - 1]).value, steps[|steps| - 1]);
    }
  }

  // ---------------------------------------------------------------- what follows

  /** The contexts a step reads, counts or forwards. */
  function Touched(s: State, step: Step): set<Ctx>
    requires Enabled(s, step)
  {
    match step
    case Release(c) => {c}
    case NetHandle => {s.net.batch[0]}
    case NetDelete => {s.net.batch[0]}
    case NetWrite(_) => {s.net.batch[0]}
    case WorkerHandle => {s.worker.batch[0]}
    case Emit(_) => {s.worker.batch[0]}
    case Done => {s.worker.batch[0]}
    case Finish(who) => {Of(s, who).batch[0]}
    case _ => {}
  }

  /** In every run, mRef is the number of entries and creators holding the context; a context is
      destroyed when and only when the last of them lets go, once; and no step touches a destroyed one. */
  lemma {:induction false} ReferencesExact(steps: seq<Step>, step: Step, c: Ctx)
    requires Exec(steps).Some? && Enabled(Exec(steps).value, step)
    ensures var s := Exec(steps).value;
            && s.refs[c] == Holders(s)[c]
            && (c in s.created ==> (c in s.destroyed <==> s.refs[c] == 0))
            && (c in Touched(s, step) ==> s.refs[c] > 0 && c !in s.destroyed)
            && Distinct(s.destroyed)
  {
    ExecLives(steps);
    hide Linear, Exec;
    var s := Exec(steps).value;
    if s.net.batch != [] { HeadIsHeld(s, Net); }
    if s.worker.batch != [] { HeadIsHeld(s, Work); }
  }

  /** Over a service's lifetime the contexts it processes are a prefix of those accepted, in order. */
  lemma {:induction false} ProcessedIsPrefix(steps: seq<Step>, who: Who)
    requires Exec(steps).Some?
    ensures var sv := Of(Exec(steps).value, who);
            sv.processed <= sv.accepted && (sv.running ==> sv.accepted == sv.processed + Rest(sv))
  {
    ExecLives(steps);
    LinearPrefix(Of(Exec(steps).value, who));
  }

  lemma {:induction false} LinearPrefix(sv: Service)
    requires Linear(sv)
    ensures sv.processed <= sv.accepted && (sv.running ==> sv.accepted == sv.processed + Rest(sv))
  {
    var rest := Rest(sv);
    assert sv.accepted == sv.processed + (sv.skipped + rest);
    assert sv.processed + [] == sv.processed;
  }
}
