/** The two services, their queues, the contexts passed between them and the connections, as a
    state machine. Each step is one section that the program executes under a lock; steps of
    different threads interleave freely. */
module Pipeline {
  import opened Octets
  import opened Chat
  import opened KeeperSpec
  import opened KeeperRuns
  import opened Framing

  /** A message to be sent is its frame; the reply it carries is kept beside it. */
  datatype Op =
    | OpAccept
    | OpRecv(ip: bytes, port: u16, request: Request)
    | OpSend(body: Reply, frame: bytes)
    | OpDrop

  /** A context; the id stands for its address. */
  datatype Ctx = Ctx(id: nat, op: Op, conn: u64) {
    /** Created with a message in its slot. */
    predicate Carrier() {
      op.OpRecv? || op.OpSend?
    }

    predicate IsEvent() {
      op.OpRecv? || op.OpDrop?
    }

    function AsEvent(): Event
      requires IsEvent()
    {
      match op
      case OpRecv(ip, port, request) => Received(conn, ip, port, request)
      case OpDrop => Dropped(conn)
    }

    function Bytes(): bytes {
      if op.OpSend? then op.frame else []
    }
  }

  // ---------------------------------------------------------------- one service

  /** Where the service's thread is with the first context of its batch. */
  datatype Stage = Ready | Busy | Handled

  /** A service, with histories of what was accepted into its queue and what became of it. */
  datatype Service = Service(
    running: bool,
    queue: seq<Ctx>,
    batch: seq<Ctx>,
    stage: Stage,
    accepted: seq<Ctx>,
    processed: seq<Ctx>,
    skipped: seq<Ctx>)

  /** The contexts not yet looked at. */
  function Rest(sv: Service): seq<Ctx> {
    (if sv.stage != Ready && sv.batch != [] then sv.batch[1..] else sv.batch) + sv.queue
  }

  /** LogicService::Enqueue, apart from the reference count. */
  function Push(sv: Service, c: Ctx): Service {
    if sv.running then sv.(queue := sv.queue + [c], accepted := sv.accepted + [c]) else sv
  }

  /** The swap of queue and batch under the lock. */
  function Drained(sv: Service): Service {
    sv.(batch := sv.queue, queue := [])
  }

  function Started(sv: Service, stage: Stage): Service
    requires sv.batch != []
  {
    if sv.running then sv.(stage := stage, processed := sv.processed + [sv.batch[0]])
    else sv.(stage := stage, skipped := sv.skipped + [sv.batch[0]])
  }

  function Finished(sv: Service): Service
    requires sv.batch != []
  {
    sv.(batch := sv.batch[1..], stage := Ready)
  }

  // ---------------------------------------------------------------- the whole server

  datatype Who = Net | Work

  /** What was written on a connection: all bytes so far, how many of them belong to the front message,
      how many hand-overs finished no message, and how many messages were finished by events. */
  datatype Line = Line(emitted: bytes, part: nat, short: nat, late: nat)

  datatype State = State(
    next: nat,                 // number of contexts created
    created: seq<Ctx>,
    refs: multiset<Ctx>,       // mRef of every context
    held: multiset<Ctx>,       // references of creators
    destroyed: seq<Ctx>,
    burst: seq<Ctx>,           // contexts destroyed while still holding a message
    slots: multiset<Ctx>,      // contexts whose message slot is not null
    out: seq<Ctx>,             // messages queued on connections, named by the context that brought them
    freed: multiset<Ctx>,
    net: Service,
    worker: Service,
    nextConn: u64,
    live: set<u64>,            // connections in the table
    open: set<u64>,            // those not closed
    lines: map<u64, Line>,
    keeper: Keeper,
    events: seq<Event>,        // handled by the worker
    pending: seq<Send>,        // still to be queued for the event being handled
    log: seq<Ctx>,             // sends queued by the worker
    sent: seq<Ctx>,            // sends handled by the net service
    delivered: seq<Ctx>)       // messages written in full

  function Nothing(): Service {
    Service(true, [], [], Ready, [], [], [])
  }

  function Initially(): State {
    State(0, [], multiset{}, multiset{}, [], [], multiset{}, [], multiset{}, Nothing(), Nothing(),
          0, {}, {}, map[], Initial(), [], [], [], [], [])
  }

  predicate Running(s: State) {
    s.net.running && s.worker.running
  }

  function Holders(s: State): multiset<Ctx> {
    s.held + multiset(s.net.batch) + multiset(s.net.queue) + multiset(s.worker.batch) + multiset(s.worker.queue)
  }

  function LineOf(s: State, conn: u64): Line {
    if conn in s.lines then s.lines[conn] else Line([], 0, 0, 0)
  }

  /** The messages queued for one connection, and for the others. */
  function Mine(cs: seq<Ctx>, conn: u64): seq<Ctx> {
    if cs == [] then [] else (if cs[0].conn == conn then [cs[0]] else []) + Mine(cs[1..], conn)
  }

  function Others(cs: seq<Ctx>, conn: u64): seq<Ctx> {
    if cs == [] then [] else (if cs[0].conn == conn then [] else [cs[0]]) + Others(cs[1..], conn)
  }

  /** Without the first message queued for the connection. */
  function WithoutFirst(cs: seq<Ctx>, conn: u64): seq<Ctx> {
    if cs == [] then [] else if cs[0].conn == conn then cs[1..] else [cs[0]] + WithoutFirst(cs[1..], conn)
  }

  // ---------------------------------------------------------------- steps

  datatype Step =
    | Connect                                                       // the accepter queues OP_ACCEPT
    | Arrive(conn: u64, ip: bytes, port: u16, request: Request)     // ReadData completes a frame
    | Fail(conn: u64)                                               // ReadData or WriteData fails: OP_DROP
    | Hush(conn: u64)                                               // ReadData closes on a short frame
    | Release(ctx: Ctx)                                             // a creator's DecRef
    | Drain(who: Who)
    | NetHandle
    | NetDelete                                                     // DropConnection, after the forward
    | NetWrite(n: nat)                                              // WriteData, after the hand-over
    | WorkerHandle
    | Emit(frame: bytes)                                            // SendMessage of the worker or keeper
    | Done                                                          // the end of the worker's handler
    | Finish(who: Who)                                              // DecRef after processing
    | Write(conn: u64, n: nat)                                      // WriteData, for an event of the peer
    | Stop(who: Who)

  function Of(s: State, who: Who): Service {
    if who == Net then s.net else s.worker
  }

  function With(s: State, who: Who, sv: Service): State {
    if who == Net then s.(net := sv) else s.(worker := sv)
  }

  /** How many bytes WriteData passes to send. */
  function Offered(s: State, conn: u64): nat {
    var queue := Mine(s.out, conn);
    if conn !in s.open || queue == [] || |queue[0].Bytes()| < LineOf(s, conn).part then 0
    else |queue[0].Bytes()| - LineOf(s, conn).part
  }

  predicate Enabled(s: State, step: Step) {
    match step
    case Connect => true
    case Arrive(conn, _, _, _) => conn in s.open
    case Fail(conn) => conn in s.live
    case Hush(conn) => conn in s.open
    case Release(c) => c in s.held
    case Drain(who) => Of(s, who).batch == [] && Of(s, who).stage == Ready
    case NetHandle => s.net.batch != [] && s.net.stage == Ready && s.nextConn < 0xFFFF_FFFF_FFFF_FFFF
    case NetDelete => s.net.batch != [] && s.net.stage == Busy && s.net.batch[0].op.OpDrop?
    case NetWrite(n) =>
      s.net.batch != [] && s.net.stage == Busy && s.net.batch[0].op.OpSend? && n <= Offered(s, s.net.batch[0].conn)
    case WorkerHandle =>
      s.worker.batch != [] && s.worker.stage == Ready
      && (s.worker.running && s.worker.batch[0].IsEvent() ==> !Aborts(s.keeper, s.worker.batch[0].AsEvent()))
    case Emit(frame) =>
      s.worker.batch != [] && s.worker.stage == Busy && s.pending != [] && IsFrame(frame, s.pending[0].body.Encode())
    case Done => s.worker.batch != [] && s.worker.stage == Busy && s.pending == []
    case Finish(who) => Of(s, who).batch != [] && Of(s, who).stage == Handled
    case Write(conn, n) => conn in s.open && Mine(s.out, conn) != [] && n <= Offered(s, conn)
    case Stop(who) => Of(s, who).running
  }

  /** Creating a context and pushing it; the message slot is cleared when the push fails. */
  function Post(s: State, op: Op, conn: u64): State {
    var c := Ctx(s.next, op, conn);
    var pushed := if s.net.running then multiset{c} else multiset{};
    s.(next := s.next + 1,
       created := s.created + [c],
       refs := s.refs + multiset{c} + pushed,
       held := s.held + multiset{c},
       net := Push(s.net, c),
       slots := if c.Carrier() && s.net.running then s.slots + multiset{c} else s.slots)
  }

  function NewSend(s: State, frame: bytes): Ctx
    requires s.pending != []
  {
    Ctx(s.next, OpSend(s.pending[0].body, frame), s.pending[0].conn)
  }

  /** RoomKeeper::SendMessage and Worker::SendMessage, which ignore a failed push. */
  function EmitOne(s: State, frame: bytes): State
    requires s.pending != []
  {
    var c := NewSend(s, frame);
    var pushed := if s.worker.running then multiset{c} else multiset{};
    s.(next := s.next + 1,
       created := s.created + [c],
       refs := s.refs + multiset{c} + pushed,
       held := s.held + multiset{c},
       worker := Push(s.worker, c),
       slots := s.slots + multiset{c},
       pending := s.pending[1..],
       log := s.log + [c])
  }

  /** Enqueue of an existing context to the other service. */
  function Forward(s: State, c: Ctx, to: Who): State {
    if Of(s, to).running then With(s, to, Push(Of(s, to), c)).(refs := s.refs + multiset{c}) else s
  }

  function DecRef(s: State, c: Ctx): State {
    var last := s.refs[c] <= 1;
    s.(refs := s.refs - multiset{c},
       destroyed := if last then s.destroyed + [c] else s.destroyed,
       burst := if last && c in s.slots then s.burst + [c] else s.burst)
  }

  /** The connection stops carrying anything and frees what it had queued. */
  function Emptied(s: State, conn: u64): State {
    s.(open := s.open - {conn}, out := Others(s.out, conn), freed := s.freed + multiset(Mine(s.out, conn)))
  }

  predicate Completes(s: State, conn: u64, n: nat) {
    conn in s.open && Mine(s.out, conn) != [] && LineOf(s, conn).part + n == |Mine(s.out, conn)[0].Bytes()|
  }

  /** WriteData when send accepts n bytes: a connection that is closed or has nothing queued writes
      nothing, and a message written in full is freed. */
  function Written(s: State, conn: u64, n: nat): State
    requires n <= Offered(s, conn)
  {
    var queue := Mine(s.out, conn);
    if conn !in s.open || queue == [] || |queue[0].Bytes()| < LineOf(s, conn).part then s
    else
      var c, line := queue[0], LineOf(s, conn);
      var more := line.emitted + c.Bytes()[line.part..line.part + n];
      if Completes(s, conn, n) then
        s.(lines := s.lines[conn := line.(emitted := more, part := 0)],
           out := WithoutFirst(s.out, conn), freed := s.freed + multiset{c}, delivered := s.delivered + [c])
      else s.(lines := s.lines[conn := line.(emitted := more, part := line.part + n)])
  }

  /** The hand-over's own WriteData; the count of those that finish no message. */
  function HandedOver(s: State, conn: u64, n: nat): State
    requires n <= Offered(s, conn)
  {
    var t := Written(s, conn, n);
    if Completes(s, conn, n) then t
    else t.(lines := t.lines[conn := LineOf(t, conn).(short := LineOf(t, conn).short + 1)])
  }

  /** WriteData for an event; the count of those that finish a message. */
  function WrittenLater(s: State, conn: u64, n: nat): State
    requires n <= Offered(s, conn)
  {
    var t := Written(s, conn, n);
    if !Completes(s, conn, n) then t
    else t.(lines := t.lines[conn := LineOf(t, conn).(late := LineOf(t, conn).late + 1)])
  }

  /** Where net processing leaves off: a hand-over has still to write, a drop still to delete. */
  function NetStage(s: State): Stage
    requires s.net.batch != []
  {
    var c := s.net.batch[0];
    if s.net.running && (c.op.OpDrop? || (c.op.OpSend? && c.conn in s.live)) then Busy else Handled
  }

  function NetHandled(s: State): State
    requires s.net.batch != []
  {
    var c := s.net.batch[0];
    if !s.net.running then s.(net := Started(s.net, Handled), slots := s.slots - multiset{c})
    else
      match c.op
      case OpAccept =>
        var id := s.nextConn;
        s.(net := Started(s.net, Handled), live := s.live + {id}, open := s.open + {id},
           lines := s.lines[id := Line([], 0, 0, 0)],
           nextConn := if id < 0xFFFF_FFFF_FFFF_FFFF then id + 1 else 0)
      case OpRecv(_, _, _) => Forward(s.(net := Started(s.net, Handled)), c, Work)
      case OpSend(_, _) =>
        var t := s.(net := Started(s.net, NetStage(s)), slots := s.slots - multiset{c}, sent := s.sent + [c]);
        if c.conn in s.live then t.(out := s.out + [c]) else t.(freed := s.freed + multiset{c})
      case OpDrop => Forward(s.(net := Started(s.net, Busy)), c, Work)
  }

  function WorkerHandled(s: State): State
    requires s.worker.batch != []
    requires s.worker.running && s.worker.batch[0].IsEvent() ==> !Aborts(s.keeper, s.worker.batch[0].AsEvent())
  {
    var c := s.worker.batch[0];
    if !s.worker.running then s.(worker := Started(s.worker, Handled), slots := s.slots - multiset{c})
    else if c.IsEvent() then
      var e := c.AsEvent();
      s.(worker := Started(s.worker, Busy), keeper := NextState(s.keeper, e), events := s.events + [e],
         pending := Sends(s.keeper, e))
    else Forward(s.(worker := Started(s.worker, Handled)), c, Net)
  }

  function WorkerDone(s: State): State
    requires s.worker.batch != []
  {
    var c := s.worker.batch[0];
    var t := s.(worker := s.worker.(stage := Handled));
    if c.op.OpRecv? then t.(slots := s.slots - multiset{c}, freed := s.freed + multiset{c}) else t
  }

  function Next(s: State, step: Step): State
    requires Enabled(s, step)
  {
    match step
    case Connect => Post(s, OpAccept, 0)
    case Arrive(conn, ip, port, request) => Post(s, OpRecv(ip, port, request), conn)
    case Fail(conn) => Post(if conn in s.open then Emptied(s, conn) else s, OpDrop, conn)
    case Hush(conn) => Emptied(s, conn)
    case Release(c) => DecRef(s.(held := s.held - multiset{c}), c)
    case Drain(who) => With(s, who, Drained(Of(s, who)))
    case NetHandle => NetHandled(s)
    case NetDelete =>
      var conn := s.net.batch[0].conn;
      Emptied(s, conn).(live := s.live - {conn}, net := s.net.(stage := Handled))
    case NetWrite(n) => HandedOver(s, s.net.batch[0].conn, n).(net := s.net.(stage := Handled))
    case WorkerHandle => WorkerHandled(s)
    case Emit(frame) => EmitOne(s, frame)
    case Done => WorkerDone(s)
    case Finish(who) => DecRef(With(s, who, Finished(Of(s, who))), Of(s, who).batch[0])
    case Write(conn, n) => WrittenLater(s, conn, n)
    case Stop(who) => With(s, who, Of(s, who).(running := false))
  }

  /** The state after a run of steps; None if some step could not be taken. */
  function Exec(steps: seq<Step>): Option<State> {
    if steps == [] then Some(Initially())
    else
      match Exec(steps[..|steps| - 1])
      case None => None
      case Some(s) =>
        var step := steps[|steps| - 1];
        if Enabled(s, step) then Some(Next(s, step)) else None
  }
}
