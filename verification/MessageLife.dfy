/** Every message is in exactly one place, once, and which steps of a stopping server lose one. */
module MessageLife {
  import opened Octets
  import opened Chat
  import opened KeeperRuns
  import opened Pipeline
  import opened ContextLife

  function Carriers(cs: seq<Ctx>): seq<Ctx> {
    if cs == [] then [] else (if cs[0].Carrier() then [cs[0]] else []) + Carriers(cs[1..])
  }

  function Carried(cs: seq<Ctx>): multiset<Ctx> {
    multiset(Carriers(cs))
  }

  function One(c: Ctx): multiset<Ctx> {
    if c.Carrier() then multiset{c} else multiset{}
  }

  lemma {:induction false} CarriersConcat(a: seq<Ctx>, b: seq<Ctx>)
    ensures Carriers(a + b) == Carriers(a) + Carriers(b)
  {
    if a == [] {
      assert a + b == b;
    } else {
      assert (a + b)[1..] == a[1..] + b;
      CarriersConcat(a[1..], b);
      var first := if a[0].Carrier() then [a[0]] else [];
      assert first + (Carriers(a[1..]) + Carriers(b)) == (first + Carriers(a[1..])) + Carriers(b);
    }
  }

  lemma {:induction false} CarriedSnoc(cs: seq<Ctx>, c: Ctx)
    ensures Carried(cs + [c]) == Carried(cs) + One(c)
  {
    CarriersConcat(cs, [c]);
    assert [c][1..] == [];
  }

  lemma {:induction false} CarriedCons(c: Ctx, cs: seq<Ctx>)
    ensures Carried([c] + cs) == Carried(cs) + One(c)
  {
    assert ([c] + cs)[1..] == cs;
  }

  lemma {:induction false} CarriersAreMembers(cs: seq<Ctx>, c: Ctx)
    requires c in Carried(cs)
    ensures c in cs && c.Carrier()
  {
    if c in Carriers(cs[1..]) {
      CarriersAreMembers(cs[1..], c);
    }
  }

  /** The request the worker is in the middle of handling. */
  function InHand(s: State): multiset<Ctx> {
    if s.worker.stage == Busy && s.worker.batch != [] && s.worker.batch[0].op.OpRecv? then multiset{s.worker.batch[0]}
    else multiset{}
  }

  /** What is in the slots is what the two services have still to handle; what was created is in a
      slot, queued on a connection, or freed. */
  predicate Balanced(slots: multiset<Ctx>, net: multiset<Ctx>, worker: multiset<Ctx>, hand: multiset<Ctx>,
                     created: multiset<Ctx>, out: multiset<Ctx>, freed: multiset<Ctx>) {
    slots == net + worker + hand && created == slots + out + freed
  }

  /** Every message ever created is in exactly one place, once, and the slots that are not null are
      those of the contexts still to be handled. */
  ghost predicate Kept(s: State) {
    && Balanced(s.slots, Carried(Rest(s.net)), Carried(Rest(s.worker)), InHand(s), Carried(s.created),
        multiset(s.out), s.freed)
    && s.burst == []
  }

  // ---------------------------------------------------------------- connection queues

  lemma {:induction false} OutSplits(cs: seq<Ctx>, conn: u64)
    ensures multiset(cs) == multiset(Others(cs, conn)) + multiset(Mine(cs, conn))
  {
    if cs != [] {
      assert cs == [cs[0]] + cs[1..];
      OutSplits(cs[1..], conn);
    }
  }

  lemma {:induction false} FirstRemoved(cs: seq<Ctx>, conn: u64)
    requires Mine(cs, conn) != []
    ensures multiset(cs) == multiset(WithoutFirst(cs, conn)) + multiset{Mine(cs, conn)[0]}
  {
    assert cs == [cs[0]] + cs[1..];
    if cs[0].conn != conn {
      FirstRemoved(cs[1..], conn);
    }
  }

  // ---------------------------------------------------------------- steps, on the balance alone

  lemma {:induction false} FreeSome(slots: multiset<Ctx>, n: multiset<Ctx>, w: multiset<Ctx>, h: multiset<Ctx>,
                                    made: multiset<Ctx>, out: multiset<Ctx>, freed: multiset<Ctx>, d: multiset<Ctx>)
    requires Balanced(slots, n, w, h, made, out + d, freed)
    ensures Balanced(slots, n, w, h, made, out, freed + d)
  {
  }

  lemma {:induction false} AddToNet(slots: multiset<Ctx>, n: multiset<Ctx>, w: multiset<Ctx>, h: multiset<Ctx>,
                                    made: multiset<Ctx>, out: multiset<Ctx>, freed: multiset<Ctx>, d: multiset<Ctx>)
    requires Balanced(slots, n, w, h, made, out, freed)
    ensures Balanced(slots + d, n + d, w, h, made + d, out, freed)
    ensures Balanced(slots + d, n, w + d, h, made + d, out, freed)
  {
  }

  lemma {:induction false} NetToWorker(slots: multiset<Ctx>, n: multiset<Ctx>, w: multiset<Ctx>, h: multiset<Ctx>,
                                       made: multiset<Ctx>, out: multiset<Ctx>, freed: multiset<Ctx>, d: multiset<Ctx>)
    ensures Balanced(slots, n + d, w, h, made, out, freed) <==> Balanced(slots, n, w + d, h, made, out, freed)
    ensures Balanced(slots, n, w + d, h, made, out, freed) <==> Balanced(slots, n, w, h + d, made, out, freed)
  {
    assert n + d + w + h == n + (w + d) + h == n + w + (h + d);
  }

  lemma {:induction false} NetToConnection(slots: multiset<Ctx>, n: multiset<Ctx>, w: multiset<Ctx>, h: multiset<Ctx>,
                                           made: multiset<Ctx>, out: multiset<Ctx>, freed: multiset<Ctx>,
                                               d: multiset<Ctx>)
    requires Balanced(slots, n + d, w, h, made, out, freed)
    ensures Balanced(slots - d, n, w, h, made, out + d, freed) && Balanced(slots - d, n, w, h, made, out, freed + d)
  {
    assert slots == (n + w + h) + d;
  }

  lemma {:induction false} HandToFreed(slots: multiset<Ctx>, n: multiset<Ctx>, w: multiset<Ctx>, h: multiset<Ctx>,
                                       made: multiset<Ctx>, out: multiset<Ctx>, freed: multiset<Ctx>, d: multiset<Ctx>)
    requires Balanced(slots, n, w, h + d, made, out, freed)
    ensures Balanced(slots - d, n, w, h, made, out, freed + d)
  {
    assert slots == (n + w + h) + d;
  }

  // ---------------------------------------------------------------- the same, on states

  lemma {:induction false} KeptAgain(t: State, slots: multiset<Ctx>, n: multiset<Ctx>, w: multiset<Ctx>,
      h: multiset<Ctx>,
                                     made: multiset<Ctx>, out: multiset<Ctx>, freed: multiset<Ctx>)
    requires Balanced(slots, n, w, h, made, out, freed) && t.burst == []
    requires t.slots == slots && Carried(Rest(t.net)) == n && Carried(Rest(t.worker)) == w && InHand(t) == h
    requires Carried(t.created) == made && multiset(t.out) == out && t.freed == freed
    ensures Kept(t)
  {
  }

  lemma {:induction false} EmptiedKeeps(s: State, conn: u64)
    requires Kept(s)
    ensures Kept(Emptied(s, conn))
  {
    OutSplits(s.out, conn);
    FreeSome(s.slots, Carried(Rest(s.net)), Carried(Rest(s.worker)), InHand(s), Carried(s.created),
             multiset(Others(s.out, conn)), s.freed, multiset(Mine(s.out, conn)));
  }

  /** Creating a context keeps the balance unless it carries a message and cannot be pushed. */
  lemma {:induction false} PostKeeps(s: State, op: Op, conn: u64)
    requires Kept(s) && Linear(s.net)
    requires s.net.running || !Ctx(s.next, op, conn).Carrier()
    ensures Kept(Post(s, op, conn))
  {
    var c := Ctx(s.next, op, conn);
    var t := Post(s, op, conn);
    PushLinear(s.net, c);
    CarriedSnoc(Rest(s.net), c);
    CarriedSnoc(s.created, c);
    PlusNothing(s.slots);
    PlusNothing(Carried(Rest(s.net)));
    PlusNothing(Carried(s.created));
    var n, w, h, made := Carried(Rest(s.net)), Carried(Rest(s.worker)), InHand(s), Carried(s.created);
    AddToNet(s.slots, n, w, h, made, multiset(s.out), s.freed, One(c));
    KeptAgain(t, s.slots + One(c), n + One(c), w, h, made + One(c), multiset(s.out), s.freed);
  }

  lemma {:induction false} PlusNothing(m: multiset<Ctx>)
    ensures m + multiset{} == m
  {
  }

  lemma {:induction false} EmitKeeps(s: State, frame: bytes)
    requires Kept(s) && Linear(s.worker) && s.worker.running && s.pending != []
    requires s.worker.batch != []
    ensures Kept(EmitOne(s, frame))
  {
    var c, t := NewSend(s, frame), EmitOne(s, frame);
    PushLinear(s.worker, c);
    CarriedSnoc(Rest(s.worker), c);
    CarriedSnoc(s.created, c);
    var n, w, h, made := Carried(Rest(s.net)), Carried(Rest(s.worker)), InHand(s), Carried(s.created);
    AddToNet(s.slots, n, w, h, made, multiset(s.out), s.freed, One(c));
    KeptAgain(t, s.slots + One(c), n, w + One(c), h, made + One(c), multiset(s.out), s.freed);
  }

  lemma {:induction false} RestIsHeld(sv: Service, c: Ctx)
    requires c in Carried(Rest(sv))
    ensures c in multiset(sv.batch) + multiset(sv.queue)
  {
    CarriersAreMembers(Rest(sv), c);
  }

  /** A context whose message is still to be handled has a holder. */
  lemma {:induction false} FilledSlotIsHeld(s: State, c: Ctx)
    requires Kept(s) && c in s.slots
    ensures c in Holders(s)
  {
    GroupHolders(s);
    if c in Carried(Rest(s.net)) {
      RestIsHeld(s.net, c);
    } else if c in Carried(Rest(s.worker)) {
      RestIsHeld(s.worker, c);
    } else {
      assert c in InHand(s);
    }
  }

  /** So letting go of some other reference does not destroy it. */
  lemma {:induction false} DecRefKeeps(s: State, c: Ctx)
    requires Kept(s) && s.refs == Holders(s) + multiset{c}
    ensures Kept(DecRef(s, c))
  {
    if c in s.slots {
      FilledSlotIsHeld(s, c);
    }
  }

  lemma {:induction false} FinishKeeps(s: State, who: Who)
    requires Kept(s) && LifeInv(s) && Enabled(s, Finish(who))
    ensures Kept(Next(s, Finish(who)))
  {
    var sv := Of(s, who);
    var t := With(s, who, Finished(sv));
    FinishLinear(sv);
    FinishHolders(s, who);
    assert InHand(t) == InHand(s);
    DecRefKeeps(t, sv.batch[0]);
  }

  lemma {:induction false} NetForwardKeeps(s: State, stage: Stage, c: Ctx)
    requires Kept(s) && Linear(s.net) && Linear(s.worker) && Running(s)
    requires s.net.batch != [] && s.net.stage == Ready && stage != Ready && c == s.net.batch[0]
    ensures Kept(Forward(s.(net := Started(s.net, stage)), c, Work))
  {
    var next := Forward(s.(net := Started(s.net, stage)), c, Work);
    StartLinear(s.net, stage);
    CarriedCons(c, Rest(Started(s.net, stage)));
    PushLinear(s.worker, c);
    CarriedSnoc(Rest(s.worker), c);
    assert InHand(next) == InHand(s);
    NetToWorker(s.slots, Carried(Rest(Started(s.net, stage))), Carried(Rest(s.worker)), InHand(s), Carried(s.created),
                multiset(s.out), s.freed, One(c));
  }

  lemma {:induction false} NetSendKeeps(s: State, c: Ctx)
    requires Kept(s) && Linear(s.net) && s.net.running && s.net.batch != [] && s.net.stage == Ready
    requires c == s.net.batch[0] && c.op.OpSend?
    ensures Kept(NetHandled(s))
  {
    var t, n, w := NetHandled(s), Carried(Rest(Started(s.net, NetStage(s)))), Carried(Rest(s.worker));
    var h, made := InHand(s), Carried(s.created);
    StartLinear(s.net, NetStage(s));
    CarriedCons(c, Rest(Started(s.net, NetStage(s))));
    assert t.net == Started(s.net, NetStage(s)) && InHand(t) == h;
    hide Carried, Rest, Balanced, Linear, NetStage, Started, InHand;
    NetToConnection(s.slots, n, w, h, made, multiset(s.out), s.freed, One(c));
    if c.conn in s.live {
      KeptAgain(t, s.slots - One(c), n, w, h, made, multiset(s.out) + One(c), s.freed);
    } else {
      KeptAgain(t, s.slots - One(c), n, w, h, made, multiset(s.out), s.freed + One(c));
    }
  }

  lemma {:induction false} NotInSlots(s: State, c: Ctx)
    requires Kept(s) && !c.Carrier()
    ensures c !in s.slots
  {
    if c in Carried(Rest(s.net)) {
      CarriersAreMembers(Rest(s.net), c);
    }
    if c in Carried(Rest(s.worker)) {
      CarriersAreMembers(Rest(s.worker), c);
    }
  }

  lemma {:induction false} LessNothing(m: multiset<Ctx>, c: Ctx)
    requires c !in m
    ensures m - multiset{c} == m
  {
  }

  lemma {:induction false} PassRest(sv: Service, stage: Stage)
    requires Linear(sv) && sv.batch != [] && sv.stage == Ready && stage != Ready && !sv.batch[0].Carrier()
    ensures Carried(Rest(Started(sv, stage))) == Carried(Rest(sv))
  {
    StartLinear(sv, stage);
    CarriedCons(sv.batch[0], Rest(Started(sv, stage)));
    PlusNothing(Carried(Rest(Started(sv, stage))));
  }

  /** Passing over a context that carries nothing. */
  lemma {:induction false} PassKeeps(s: State, t: State, who: Who)
    requires Kept(s) && LifeInv(s) && Of(s, who).batch != [] && Of(s, who).stage == Ready
    requires !Of(s, who).batch[0].Carrier()
    requires Of(t, who) == Started(Of(s, who), Of(t, who).stage) && Of(t, who).stage != Ready
    requires if who == Net then t.worker == s.worker else t.net == s.net
    requires t.slots == s.slots - multiset{Of(s, who).batch[0]} || t.slots == s.slots
    requires (t.created, t.out, t.freed, t.burst) == (s.created, s.out, s.freed, s.burst)
    ensures Kept(t)
  {
    var c := Of(s, who).batch[0];
    PassRest(Of(s, who), Of(t, who).stage);
    NotInSlots(s, c);
    assert InHand(t) == InHand(s);
    hide Carried, Rest, InHand, Balanced, Linear;
    LessNothing(s.slots, c);
    KeptAgain(t, s.slots, Carried(Rest(s.net)), Carried(Rest(s.worker)), InHand(s), Carried(s.created),
              multiset(s.out), s.freed);
  }

  /** A forward that the other service refuses leaves everything else as it is. */
  lemma {:induction false} NetHandledPass(s: State)
    requires Enabled(s, NetHandle) && !s.net.batch[0].Carrier()
    requires s.net.running && s.worker.running ==> s.net.batch[0].op.OpAccept?
    ensures var t := NetHandled(s);
            && t.net == Started(s.net, NetStage(s)) && t.worker == s.worker
            && (t.slots == s.slots - multiset{s.net.batch[0]} || t.slots == s.slots)
            && (t.created, t.out, t.freed, t.burst) == (s.created, s.out, s.freed, s.burst)
  {
  }

  lemma {:induction false} NetHandleKeeps(s: State)
    requires Kept(s) && LifeInv(s) && Enabled(s, NetHandle) && !Loses(s, NetHandle)
    ensures Kept(NetHandled(s))
  {
    hide Kept, Rest;
    var c := s.net.batch[0];
    if s.net.running && c.op.OpSend? {
      NetSendKeeps(s, c);
    } else if Running(s) && c.IsEvent() {
      NetForwardKeeps(s, NetStage(s), c);
    } else {
      NetHandledPass(s);
      PassKeeps(s, NetHandled(s), Net);
    }
  }

  lemma {:induction false} WorkerForwardKeeps(s: State, c: Ctx)
    requires Kept(s) && Linear(s.net) && Linear(s.worker) && Running(s)
    requires s.worker.batch != [] && s.worker.stage == Ready && c == s.worker.batch[0]
    ensures Kept(Forward(s.(worker := Started(s.worker, Handled)), c, Net))
  {
    StartLinear(s.worker, Handled);
    CarriedCons(c, Rest(Started(s.worker, Handled)));
    PushLinear(s.net, c);
    CarriedSnoc(Rest(s.net), c);
    NetToWorker(s.slots, Carried(Rest(s.net)), Carried(Rest(Started(s.worker, Handled))), InHand(s), Carried(s.created),
                multiset(s.out), s.freed, One(c));
  }

  lemma {:induction false} TakeInHand(s: State, t: State)
    requires Kept(s) && Linear(s.worker) && s.worker.batch != [] && s.worker.stage == Ready
             && s.worker.batch[0].IsEvent()
    requires t.worker == Started(s.worker, Busy) && t.slots == s.slots && t.net == s.net && t.created == s.created
    requires t.out == s.out && t.freed == s.freed && t.burst == s.burst
    ensures Kept(t)
  {
    var c := s.worker.batch[0];
    StartLinear(s.worker, Busy);
    CarriedCons(c, Rest(Started(s.worker, Busy)));
    NetToWorker(s.slots, Carried(Rest(s.net)), Carried(Rest(Started(s.worker, Busy))), InHand(s), Carried(s.created),
                multiset(s.out), s.freed, One(c));
    assert InHand(t) == InHand(s) + One(c);
  }

  lemma {:induction false} WorkerHandledPass(s: State)
    requires Enabled(s, WorkerHandle) && !s.worker.batch[0].Carrier()
    requires Running(s) ==> s.worker.batch[0].IsEvent()
    ensures var t := WorkerHandled(s);
            && (t.worker == Started(s.worker, Busy) || t.worker == Started(s.worker, Handled)) && t.net == s.net
            && (t.slots == s.slots - multiset{s.worker.batch[0]} || t.slots == s.slots)
            && (t.created, t.out, t.freed, t.burst) == (s.created, s.out, s.freed, s.burst)
  {
  }

  lemma {:induction false} WorkerHandleKeeps(s: State)
    requires Kept(s) && LifeInv(s) && Enabled(s, WorkerHandle) && !Loses(s, WorkerHandle)
    ensures Kept(WorkerHandled(s))
  {
    var c := s.worker.batch[0];
    if s.worker.running && c.IsEvent() {
      TakeInHand(s, WorkerHandled(s));
    } else if Running(s) {
      WorkerForwardKeeps(s, c);
    } else {
      WorkerHandledPass(s);
      PassKeeps(s, WorkerHandled(s), Work);
    }
  }

  lemma {:induction false} DoneKeeps(s: State)
    requires Kept(s) && Enabled(s, Done)
    ensures Kept(WorkerDone(s))
  {
    var t, n, w, made := WorkerDone(s), Carried(Rest(s.net)), Carried(Rest(s.worker)), Carried(s.created);
    SameRest(s.worker);
    if s.worker.batch[0].op.OpRecv? {
      var d := multiset{s.worker.batch[0]};
      assert InHand(s) == multiset{} + d;
      HandToFreed(s.slots, n, w, multiset{}, made, multiset(s.out), s.freed, d);
      KeptAgain(t, s.slots - d, n, w, multiset{}, made, multiset(s.out), s.freed + d);
    } else {
      KeptAgain(t, s.slots, n, w, multiset{}, made, multiset(s.out), s.freed);
    }
  }

  lemma {:induction false} SameRest(sv: Service)
    requires sv.stage != Ready
    ensures Rest(sv.(stage := Handled)) == Rest(sv)
  {
  }

  lemma {:induction false} FailKeeps(s: State, conn: u64)
    requires Kept(s) && Linear(s.net) && Enabled(s, Fail(conn))
    ensures Kept(Next(s, Fail(conn)))
  {
    hide Carried, Rest, InHand;
    var t := if conn in s.open then Emptied(s, conn) else s;
    EmptiedKeeps(s, conn);
    assert Linear(t.net);
    hide Kept, Linear;
    PostKeeps(t, OpDrop, conn);
  }

  lemma {:induction false} ReleaseKeeps(s: State, c: Ctx)
    requires Kept(s) && LifeInv(s) && Enabled(s, Release(c))
    ensures Kept(Next(s, Release(c)))
  {
    ReleaseHolders(s, c);
    DecRefKeeps(s.(held := s.held - multiset{c}), c);
  }

  lemma {:induction false} DrainKeeps(s: State, who: Who)
    requires Kept(s) && LifeInv(s) && Enabled(s, Drain(who))
    ensures Kept(Next(s, Drain(who)))
  {
    DrainLinear(Of(s, who));
    assert InHand(Next(s, Drain(who))) == InHand(s);
  }

  lemma {:induction false} NetDeleteKeeps(s: State)
    requires Kept(s) && Enabled(s, NetDelete)
    ensures Kept(Next(s, NetDelete))
  {
    EmptiedKeeps(s, s.net.batch[0].conn);
    StageKeeps(Emptied(s, s.net.batch[0].conn).(live := s.live - {s.net.batch[0].conn}));
  }

  lemma {:induction false} WrittenKeeps(s: State, conn: u64, n: nat)
    requires Kept(s) && n <= Offered(s, conn)
    ensures Kept(Written(s, conn, n))
  {
    if Completes(s, conn, n) {
      FirstRemoved(s.out, conn);
      FreeSome(s.slots, Carried(Rest(s.net)), Carried(Rest(s.worker)), InHand(s), Carried(s.created),
               multiset(WithoutFirst(s.out, conn)), s.freed, multiset{Mine(s.out, conn)[0]});
    }
  }

  /** The counters do not matter. */
  lemma {:induction false} LinesKeep(s: State, t: State)
    requires Kept(s) && t == s.(lines := t.lines)
    ensures Kept(t)
  {
  }

  lemma {:induction false} HandedOverKeeps(s: State, conn: u64, n: nat)
    requires Kept(s) && n <= Offered(s, conn)
    ensures Kept(HandedOver(s, conn, n)) && Kept(WrittenLater(s, conn, n))
  {
    hide Kept, Written;
    WrittenKeeps(s, conn, n);
    LinesKeep(Written(s, conn, n), HandedOver(s, conn, n));
    LinesKeep(Written(s, conn, n), WrittenLater(s, conn, n));
  }

  /** The end of what the net service does for a context. */
  lemma {:induction false} StageKeeps(s: State)
    requires Kept(s) && s.net.stage == Busy
    ensures Kept(s.(net := s.net.(stage := Handled)))
  {
    assert Rest(s.net.(stage := Handled)) == Rest(s.net);
  }

  lemma {:induction false} NetWriteKeeps(s: State, n: nat)
    requires Kept(s) && Enabled(s, NetWrite(n))
    ensures Kept(Next(s, NetWrite(n)))
  {
    var conn := s.net.batch[0].conn;
    HandedOverKeeps(s, conn, n);
    WrittenSameLife(s, conn, n);
    StageKeeps(HandedOver(s, conn, n));
  }

  lemma {:induction false} WriteKeeps(s: State, conn: u64, n: nat)
    requires Kept(s) && Enabled(s, Write(conn, n))
    ensures Kept(Next(s, Write(conn, n)))
  {
    HandedOverKeeps(s, conn, n);
  }

  lemma {:induction false} StopKeeps(s: State, who: Who)
    requires Kept(s) && Enabled(s, Stop(who))
    ensures Kept(Next(s, Stop(who)))
  {
    assert Rest(Of(s, who).(running := false)) == Rest(Of(s, who));
  }

  // ---------------------------------------------------------------- exactly which steps lose a message

  /** Handling a context that carries a message by a stopped service, pushing one to a stopped service,
      or receiving one while the net service is stopped. */
  predicate Loses(s: State, step: Step)
    requires Enabled(s, step)
  {
    match step
    case Arrive(_, _, _, _) => !s.net.running
    case NetHandle =>
      s.net.batch[0].Carrier() && (!s.net.running || (s.net.batch[0].op.OpRecv? && !s.worker.running))
    case WorkerHandle =>
      s.worker.batch[0].Carrier() && (!s.worker.running || (s.worker.batch[0].op.OpSend? && !s.net.running))
    case Emit(_) => !s.worker.running
    case _ => false
  }

  lemma {:induction false} QuietStepKeeps(s: State, step: Step)
    requires LifeInv(s) && Enabled(s, step) && Kept(s)
    requires step.Drain? || step.Done? || step.Finish? || step.Stop? || step.Release? || step.Hush?
    ensures Kept(Next(s, step))
  {
    match step
    case Release(c) => ReleaseKeeps(s, c);
    case Hush(conn) => EmptiedKeeps(s, conn);
    case Drain(who) => DrainKeeps(s, who);
    case Done => DoneKeeps(s);
    case Finish(who) => FinishKeeps(s, who);
    case Stop(who) => StopKeeps(s, who);
  }

  lemma {:induction false} CreationKeeps(s: State, step: Step)
    requires LifeInv(s) && Enabled(s, step) && Kept(s) && !Loses(s, step)
    requires step.Connect? || step.Arrive? || step.Fail? || step.Emit?
    ensures Kept(Next(s, step))
  {
    hide Kept, Rest, Post, EmitOne;
    match step
    case Connect => PostKeeps(s, OpAccept, 0);
    case Arrive(conn, ip, port, request) => PostKeeps(s, OpRecv(ip, port, request), conn);
    case Fail(conn) => FailKeeps(s, conn);
    case Emit(frame) => EmitKeeps(s, frame);
  }

  lemma {:induction false} NetStepKeeps(s: State, step: Step)
    requires LifeInv(s) && Enabled(s, step) && Kept(s) && !Loses(s, step)
    requires step.NetHandle? || step.NetDelete? || step.NetWrite? || step.WorkerHandle? || step.Write?
    ensures Kept(Next(s, step))
  {
    hide Kept, LifeInv, Rest, NetHandled, WorkerHandled, Loses;
    match step
    case NetHandle => NetHandleKeeps(s);
    case NetDelete => NetDeleteKeeps(s);
    case NetWrite(n) => NetWriteKeeps(s, n);
    case WorkerHandle => WorkerHandleKeeps(s);
    case Write(conn, n) => WriteKeeps(s, conn, n);
  }

  lemma {:induction false} StepKeeps(s: State, step: Step)
    requires LifeInv(s) && Enabled(s, step) && Kept(s) && !Loses(s, step)
    ensures Kept(Next(s, step))
  {
    hide Kept, LifeInv, Enabled, Loses, Next;
    if step.Connect? || step.Arrive? || step.Fail? || step.Emit? {
      CreationKeeps(s, step);
    } else if step.NetHandle? || step.NetDelete? || step.NetWrite? || step.WorkerHandle? || step.Write? {
      NetStepKeeps(s, step);
    } else {
      QuietStepKeeps(s, step);
    }
  }

  /** A message that comes into being without a place. */
  lemma {:induction false} ArriveBreaks(s: State, conn: u64, ip: bytes, port: u16, request: Request)
    requires Kept(s) && !s.net.running && Enabled(s, Arrive(conn, ip, port, request))
    ensures !Kept(Next(s, Arrive(conn, ip, port, request)))
  {
    CarriedSnoc(s.created, Ctx(s.next, OpRecv(ip, port, request), conn));
  }

  lemma {:induction false} EmitBreaks(s: State, frame: bytes)
    requires Kept(s) && !s.worker.running && Enabled(s, Emit(frame))
    ensures !Kept(Next(s, Emit(frame)))
  {
    assert (s.slots + multiset{NewSend(s, frame)})[NewSend(s, frame)] == s.slots[NewSend(s, frame)] + 1;
  }

  /** A context that carries a message leaves a service and goes nowhere. */
  lemma {:induction false} PassBreaks(s: State, t: State, who: Who)
    requires Kept(s) && LifeInv(s) && Of(s, who).batch != [] && Of(s, who).stage == Ready
    requires Of(s, who).batch[0].Carrier()
    requires Of(t, who) == Started(Of(s, who), Handled)
    requires if who == Net then t.worker == s.worker else t.net == s.net
    requires t.slots == s.slots - multiset{Of(s, who).batch[0]} || t.slots == s.slots
    requires (t.created, t.out, t.freed) == (s.created, s.out, s.freed)
    ensures !Kept(t)
  {
    var c := Of(s, who).batch[0];
    StartLinear(Of(s, who), Handled);
    CarriedCons(c, Rest(Of(t, who)));
    assert (Carried(Rest(Of(t, who))) + One(c))[c] == Carried(Rest(Of(t, who)))[c] + 1;
    assert s.slots[c] >= 1;
    if t.slots == s.slots - multiset{c} {
      assert (t.slots + multiset(t.out) + t.freed)[c] < (s.slots + multiset(s.out) + s.freed)[c];
    }
  }

  lemma {:induction false} NetHandleBreaks(s: State)
    requires Kept(s) && LifeInv(s) && Enabled(s, NetHandle) && Loses(s, NetHandle)
    ensures !Kept(NetHandled(s))
  {
    PassBreaks(s, NetHandled(s), Net);
  }

  lemma {:induction false} WorkerHandleBreaks(s: State)
    requires Kept(s) && LifeInv(s) && Enabled(s, WorkerHandle) && Loses(s, WorkerHandle)
    ensures !Kept(WorkerHandled(s))
  {
    PassBreaks(s, WorkerHandled(s), Work);
  }

  /** With every message in its place, a step leaves every message in its place if and only if it is
      none of those. */
  lemma {:induction false} StepKeepsExactly(s: State, step: Step)
    requires LifeInv(s) && Enabled(s, step) && Kept(s)
    ensures Kept(Next(s, step)) <==> !Loses(s, step)
  {
    if !Loses(s, step) {
      StepKeeps(s, step);
    } else {
      match step
      case Arrive(conn, ip, port, request) => ArriveBreaks(s, conn, ip, port, request);
      case NetHandle => NetHandleBreaks(s);
      case WorkerHandle => WorkerHandleBreaks(s);
      case Emit(frame) => EmitBreaks(s, frame);
    }
  }

  /** No step of the run loses a message. */
  predicate Lossless(steps: seq<Step>)
    requires Exec(steps).Some?
  {
    steps == [] ||
    (Lossless(steps[..|steps| - 1]) && !Loses(Exec(steps[..|steps| - 1]).value, steps[|steps| - 1]))
  }

  lemma {:induction false} RunningBefore(s: State, step: Step)
    requires Enabled(s, step) && Running(Next(s, step))
    ensures Running(s) && !step.Stop?
  {
    if !step.Stop? {
      StepRunning(s, step);
    }
  }

  /** Nothing but a stop changes whether the services run. */
  lemma {:induction false} StepRunning(s: State, step: Step)
    requires Enabled(s, step) && !step.Stop?
    ensures Running(Next(s, step)) == Running(s)
  {
    if step.NetHandle? || step.WorkerHandle? {
      hide NetHandled, WorkerHandled;
      HandlingRuns(s);
    } else if step.NetWrite? || step.Write? {
      hide HandedOver, WrittenLater;
      WritingRuns(s, step);
    } else {
      OtherRuns(s, step);
    }
  }

  lemma {:induction false} WritingRuns(s: State, step: Step)
    requires Enabled(s, step) && (step.NetWrite? || step.Write?)
    ensures Running(Next(s, step)) == Running(s)
  {
    hide HandedOver, WrittenLater;
    match step
    case NetWrite(n) => WrittenSameLife(s, s.net.batch[0].conn, n);
    case Write(conn, n) => WrittenSameLife(s, conn, n);
  }

  lemma {:induction false} OtherRuns(s: State, step: Step)
    requires Enabled(s, step) && !step.Stop?
    requires !step.NetHandle? && !step.WorkerHandle? && !step.NetWrite? && !step.Write?
    ensures Running(Next(s, step)) == Running(s)
  {
  }

  lemma {:induction false} HandlingRuns(s: State)
    ensures Enabled(s, NetHandle) ==> Running(NetHandled(s)) == Running(s)
    ensures Enabled(s, WorkerHandle) ==> Running(WorkerHandled(s)) == Running(s)
  {
    hide NextState, KeeperRuns.Sends;
  }

  lemma {:induction false} ExecKeeps(steps: seq<Step>)
    requires Exec(steps).Some? && Lossless(steps)
    ensures Kept(Exec(steps).value)
  {
    if steps != [] {
      var before, step := steps[..|steps| - 1], steps[|steps| - 1];
      ExecLives(before);
      ExecKeeps(before);
      StepKeeps(Exec(before).value, step);
    }
  }

  /** While both services run nothing is lost. */
  lemma {:induction false} RunningIsLossless(steps: seq<Step>)
    requires Exec(steps).Some? && Running(Exec(steps).value)
    ensures Lossless(steps)
  {
    if steps != [] {
      var before, step := steps[..|steps| - 1], steps[|steps| - 1];
      RunningBefore(Exec(before).value, step);
      RunningIsLossless(before);
    }
  }

  // ---------------------------------------------------------------- what follows

  ghost predicate Numbered(s: State) {
    |s.created| == s.next && forall i | 0 <= i < |s.created| :: s.created[i].id == i
  }

  lemma {:induction false} ExecNumbered(steps: seq<Step>)
    requires Exec(steps).Some?
    ensures Numbered(Exec(steps).value)
  {
    if steps != [] {
      ExecNumbered(steps[..|steps| - 1]);
      StepNumbered(Exec(steps[..|steps| - 1]).value, steps[|steps| - 1]);
    }
  }

  function Register(s: State): (seq<Ctx>, nat) {
    (s.created, s.next)
  }

  lemma {:induction false} WrittenRegister(s: State, conn: u64, n: nat)
    requires n <= Offered(s, conn)
    ensures Register(HandedOver(s, conn, n)) == Register(WrittenLater(s, conn, n)) == Register(s)
  {
  }

  lemma {:induction false} StepRegister(s: State, step: Step)
    requires Enabled(s, step) && !step.Connect? && !step.Arrive? && !step.Fail? && !step.Emit?
    ensures Register(Next(s, step)) == Register(s)
  {
    match step
    case NetHandle => assert Register(NetHandled(s)) == Register(s);
    case WorkerHandle => assert Register(WorkerHandled(s)) == Register(s);
    case NetWrite(n) => WrittenRegister(s, s.net.batch[0].conn, n);
    case Write(conn, n) => WrittenRegister(s, conn, n);
    case _ =>
  }

  lemma {:induction false} PostNumbered(s: State, t: State, c: Ctx)
    requires Numbered(s) && Register(t) == (s.created + [c], s.next + 1) && c.id == s.next
    ensures Numbered(t)
  {
  }

  lemma {:induction false} StepNumbered(s: State, step: Step)
    requires Numbered(s) && Enabled(s, step)
    ensures Numbered(Next(s, step))
  {
    match step
    case Connect => PostNumbered(s, Next(s, step), Ctx(s.next, OpAccept, 0));
    case Arrive(conn, ip, port, request) => PostNumbered(s, Next(s, step),
        Ctx(s.next, OpRecv(ip, port, request), conn));
    case Fail(conn) => PostNumbered(s, Next(s, step), Ctx(s.next, OpDrop, conn));
    case Emit(frame) => PostNumbered(s, Next(s, step), NewSend(s, frame));
    case _ => StepRegister(s, step);
  }

  lemma {:induction false} CountedOnce(cs: seq<Ctx>, c: Ctx)
    requires forall i, j | 0 <= i < j < |cs| :: cs[i] != cs[j]
    requires c.Carrier()
    ensures Carried(cs)[c] == if c in cs then 1 else 0
  {
    if cs != [] {
      CountedOnce(cs[1..], c);
      assert cs == [cs[0]] + cs[1..];
      CarriedCons(cs[0], cs[1..]);
    }
  }

  /** In every run that takes none of the losing steps, in particular while both services run, every
      message ever created is in exactly one place: the slot of a context still to be handled, a
      connection's queue, or freed. No message is freed twice and no context was destroyed with a message
      in its slot. */
  lemma {:induction false} MessagesConserved(steps: seq<Step>, c: Ctx)
    requires Exec(steps).Some? && (Lossless(steps) || Running(Exec(steps).value))
    requires c in Exec(steps).value.created && c.Carrier()
    ensures var s := Exec(steps).value;
            && s.slots[c] + multiset(s.out)[c] + s.freed[c] == 1
            && s.slots[c] == InFlight(s)[c]
            && s.burst == []
  {
    if !Lossless(steps) {
      RunningIsLossless(steps);
    }
    ExecKeeps(steps);
    ExecNumbered(steps);
    CountedOnce(Exec(steps).value.created, c);
  }

  function InFlight(s: State): multiset<Ctx> {
    Carried(Rest(s.net)) + Carried(Rest(s.worker)) + InHand(s)
  }

  lemma {:induction false} ExecSnoc(steps: seq<Step>, step: Step)
    requires Exec(steps).Some? && Enabled(Exec(steps).value, step)
    ensures Exec(steps + [step]) == Some(Next(Exec(steps).value, step))
  {
    assert (steps + [step])[..|steps + [step]| - 1] == steps;
  }
}
