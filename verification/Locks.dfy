/** The three kinds of mutexes, the order in which the threads take them, and what a thread can end up
    waiting for. */
module Locks {
  import opened Octets

  datatype Mutex = OfConnection(conn: u64) | OfNet | OfWorker | OfContexts {
    /** A connection's before a service's before the one for all reference counts. */
    function Rank(): nat {
      match this
      case OfConnection(_) => 0
      case OfNet => 1
      case OfWorker => 1
      case OfContexts => 2
    }

    predicate Recursive() {
      !OfContexts?
    }
  }

  /** What a thread does with mutexes; Peer is a system call that returns when the peer lets it. */
  datatype Act = Acquire(m: Mutex) | Release(m: Mutex) | Peer

  datatype Thread = Thread(todo: seq<Act>, held: seq<Mutex>)

  // ---------------------------------------------------------------- the discipline

  predicate MayTake(held: seq<Mutex>, m: Mutex) {
    (m.Recursive() && m in held) || forall h | h in held :: h.Rank() < m.Rank()
  }

  /** The mutexes held after an act; None if it breaks the discipline. */
  function Held(held: seq<Mutex>, act: Act): Option<seq<Mutex>> {
    match act
    case Acquire(m) => if MayTake(held, m) then Some(held + [m]) else None
    case Release(m) => if held != [] && held[|held| - 1] == m then Some(held[..|held| - 1]) else None
    case Peer => Some(held)
  }

  function HeldAfter(held: seq<Mutex>, acts: seq<Act>): Option<seq<Mutex>>
    decreases |acts|
  {
    if acts == [] then Some(held)
    else
      match Held(held, acts[0])
      case None => None
      case Some(h) => HeldAfter(h, acts[1..])
  }

  lemma {:induction false} HeldConcat(held: seq<Mutex>, a: seq<Act>, b: seq<Act>)
    requires HeldAfter(held, a).Some?
    ensures HeldAfter(held, a + b) == HeldAfter(HeldAfter(held, a).value, b)
    decreases |a|
  {
    if a == [] {
      assert a + b == b;
    } else {
      assert (a + b)[1..] == a[1..] + b;
      HeldConcat(Held(held, a[0]).value, a[1..], b);
    }
  }

  /** Acts that keep to the discipline and let go of all they took. */
  predicate Neat(held: seq<Mutex>, acts: seq<Act>) {
    HeldAfter(held, acts) == Some(held)
  }

  lemma {:induction false} NeatConcat(held: seq<Mutex>, a: seq<Act>, b: seq<Act>)
    requires Neat(held, a) && Neat(held, b)
    ensures Neat(held, a + b)
  {
    HeldConcat(held, a, b);
  }

  function Around(m: Mutex, acts: seq<Act>): seq<Act> {
    [Acquire(m)] + acts + [Release(m)]
  }

  lemma {:induction false} NeatAround(held: seq<Mutex>, m: Mutex, acts: seq<Act>)
    requires MayTake(held, m) && Neat(held + [m], acts)
    ensures Neat(held, Around(m, acts))
  {
    var rest := acts + [Release(m)];
    assert Around(m, acts) == [Acquire(m)] + rest && ([Acquire(m)] + rest)[1..] == rest;
    HeldConcat(held + [m], acts, [Release(m)]);
    assert (held + [m])[..|held|] == held;
    assert [Release(m)][1..] == [];
  }

  // ---------------------------------------------------------------- the program's operations

  /** OperContext::IncRef and DecRef. */
  function Count(): seq<Act> {
    Around(OfContexts, [])
  }

  /** LogicService::Enqueue. */
  function Push(service: Mutex, running: bool): seq<Act> {
    Around(service, if running then Count() else [])
  }

  /** Creating a context, pushing it and letting go of it. */
  function Post(service: Mutex, running: bool): seq<Act> {
    Push(service, running) + Count()
  }

  /** TcpConnection::Close, with FreeNotSendMsg when it is the first. */
  function Close(conn: u64, first: bool): seq<Act> {
    Around(OfConnection(conn), if first then Around(OfConnection(conn), []) else [])
  }

  function When(b: bool, acts: seq<Act>): seq<Act> {
    if b then acts else []
  }

  /** What the threads execute, with the branches taken. */
  datatype Job =
    | Read(conn: u64, waits: bool, closes: bool, completes: bool, drops: bool, running: bool)
    | Write(conn: u64, begins: bool, sends: bool, fails: bool, running: bool)
    | Hand(conn: u64)
    | Delete(conn: u64)
    | Pass(service: Mutex, running: bool)
    | New(service: Mutex, running: bool)
    | Take(service: Mutex)
    | LetGo

  predicate Fits(job: Job) {
    (job.Pass? || job.New? || job.Take?) ==> job.service.OfNet? || job.service.OfWorker?
  }

  function Acts(job: Job): seq<Act> {
    match job
    case Read(conn, waits, closes, completes, drops, running) =>      // TcpConnection::ReadData
      Around(OfConnection(conn),
             When(waits, [Peer]) + When(closes, Close(conn, true)) + When(completes, Post(OfNet, running))
             + When(drops, Post(OfNet, running)))
    case Write(conn, begins, sends, fails, running) =>                // TcpConnection::WriteData
      Around(OfConnection(conn),
             When(begins, Around(OfConnection(conn), [])) + When(sends, [Peer])
             + When(fails, Close(conn, true) + Post(OfNet, running)))
    case Hand(conn) => Around(OfConnection(conn), [])                 // TcpConnection::Enqueue
    case Delete(conn) => Around(OfConnection(conn), [])               // FreeNotSendMsg in the destructor
    case Pass(service, running) => Push(service, running)             // forwarding a context
    case New(service, running) => Post(service, running)              // SendMessage, the accepter
    case Take(service) => Around(service, [])                         // the swap in Run
    case LetGo => Count()                                             // DecRef in Run
  }

  lemma {:induction false} PostNeat(held: seq<Mutex>, service: Mutex, running: bool)
    requires service.OfNet? || service.OfWorker?
    requires forall h | h in held :: h.Rank() == 0
    ensures Neat(held, Push(service, running)) && Neat(held, Post(service, running))
  {
    CountNeat(held + [service]);
    CountNeat(held);
    NeatAround(held, service, if running then Count() else []);
    NeatConcat(held, Push(service, running), Count());
  }

  lemma {:induction false} CountNeat(held: seq<Mutex>)
    requires forall h | h in held :: h.Rank() < 2
    ensures Neat(held, Count())
  {
    NeatAround(held, OfContexts, []);
  }

  /** Within a connection's section its mutex may be taken again. */
  lemma {:induction false} AgainNeat(held: seq<Mutex>, conn: u64, inner: bool)
    requires OfConnection(conn) in held
    ensures Neat(held, Around(OfConnection(conn), [])) && Neat(held, Close(conn, inner))
  {
    var m := OfConnection(conn);
    NeatAround(held, m, []);
    NeatAround(held + [m], m, []);
    NeatAround(held, m, if inner then Around(m, []) else []);
  }

  lemma {:induction false} PeerNeat(held: seq<Mutex>)
    ensures Neat(held, [Peer]) && Neat(held, [])
  {
    assert [Peer][1..] == [];
  }

  lemma {:induction false} ReadNeat(conn: u64, waits: bool, closes: bool, completes: bool, drops: bool, running: bool)
    ensures Neat([], Acts(Read(conn, waits, closes, completes, drops, running)))
  {
    var m := OfConnection(conn);
    var held := [] + [m];
    AgainNeat(held, conn, true);
    PostNeat(held, OfNet, running);
    PeerNeat(held);
    var a, b := When(waits, [Peer]), When(closes, Close(conn, true));
    var c := When(completes, Post(OfNet, running));
    var d := When(drops, Post(OfNet, running));
    NeatConcat(held, a, b);
    NeatConcat(held, a + b, c);
    NeatConcat(held, a + b + c, d);
    NeatAround([], m, a + b + c + d);
  }

  lemma {:induction false} WriteNeat(conn: u64, begins: bool, sends: bool, fails: bool, running: bool)
    ensures Neat([], Acts(Write(conn, begins, sends, fails, running)))
  {
    var m := OfConnection(conn);
    var held := [] + [m];
    AgainNeat(held, conn, true);
    PostNeat(held, OfNet, running);
    PeerNeat(held);
    NeatConcat(held, Close(conn, true), Post(OfNet, running));
    var a, b := When(begins, Around(m, [])), When(sends, [Peer]);
    var c := When(fails, Close(conn, true) + Post(OfNet, running));
    NeatConcat(held, a, b);
    NeatConcat(held, a + b, c);
    NeatAround([], m, a + b + c);
  }

  /** Every operation of the program takes the mutexes in order and lets go of all of them. */
  lemma {:induction false} JobNeat(job: Job)
    requires Fits(job)
    ensures Neat([], Acts(job))
  {
    match job
    case Read(conn, waits, closes, completes, drops, running) =>
      ReadNeat(conn, waits, closes, completes, drops, running);
    case Write(conn, begins, sends, fails, running) => WriteNeat(conn, begins, sends, fails, running);
    case Hand(conn) => NeatAround([], OfConnection(conn), []);
    case Delete(conn) => NeatAround([], OfConnection(conn), []);
    case Pass(service, running) => PostNeat([], service, running);
    case New(service, running) => PostNeat([], service, running);
    case Take(service) => NeatAround([], service, []);
    case LetGo => CountNeat([]);
  }

  /** A thread's whole life, as the operations it executes. */
  function Life(jobs: seq<Job>): seq<Act> {
    if jobs == [] then [] else Acts(jobs[0]) + Life(jobs[1..])
  }

  lemma {:induction false} LifeNeat(jobs: seq<Job>)
    requires forall j | j in jobs :: Fits(j)
    ensures Neat([], Life(jobs))
  {
    if jobs != [] {
      assert jobs[0] in jobs && forall j | j in jobs[1..] :: j in jobs;
      JobNeat(jobs[0]);
      LifeNeat(jobs[1..]);
      NeatConcat([], Acts(jobs[0]), Life(jobs[1..]));
    }
  }

  // ---------------------------------------------------------------- threads together

  /** Nobody but thread i holds m. */
  predicate Free(ts: seq<Thread>, i: nat, m: Mutex)
    requires i < |ts|
  {
    forall j | 0 <= j < |ts| && j != i :: m !in ts[j].held
  }

  predicate AtPeer(ts: seq<Thread>, i: nat)
    requires i < |ts|
  {
    ts[i].todo != [] && ts[i].todo[0].Peer?
  }

  predicate Wants(ts: seq<Thread>, i: nat, m: Mutex)
    requires i < |ts|
  {
    ts[i].todo != [] && ts[i].todo[0] == Acquire(m)
  }

  /** The thread can go on by itself. A mutex that is not recursive blocks its own holder too. */
  predicate CanMove(ts: seq<Thread>, i: nat)
    requires i < |ts|
  {
    && ts[i].todo != [] && !AtPeer(ts, i)
    && (ts[i].todo[0].Acquire? ==>
          Free(ts, i, ts[i].todo[0].m) && (ts[i].todo[0].m.Recursive() || ts[i].todo[0].m !in ts[i].held))
  }

  /** Every thread keeps to the discipline to the end of its life, and no mutex is held twice. */
  ghost predicate Sound(ts: seq<Thread>) {
    && (forall i | 0 <= i < |ts| :: HeldAfter(ts[i].held, ts[i].todo) == Some([]))
    && (forall i, j, m | 0 <= i < |ts| && 0 <= j < |ts| && i != j && m in ts[i].held :: m !in ts[j].held)
  }

  /** The thread's next act; a system call returns when the peer lets it. */
  function Moved(ts: seq<Thread>, i: nat): seq<Thread>
    requires i < |ts| && ts[i].todo != []
  {
    match Held(ts[i].held, ts[i].todo[0])
    case None => ts
    case Some(h) => ts[i := Thread(ts[i].todo[1..], h)]
  }

  lemma {:induction false} MoveKeepsSound(ts: seq<Thread>, i: nat)
    requires Sound(ts) && i < |ts| && (CanMove(ts, i) || AtPeer(ts, i))
    ensures Sound(Moved(ts, i))
  {
    var us := Moved(ts, i);
    var act := ts[i].todo[0];
    assert HeldAfter(ts[i].held, ts[i].todo) == Some([]);
    assert forall m | m in us[i].held :: m in ts[i].held || act == Acquire(m);
  }

  /** The threads after some moves, each made by a thread that can go on or whose peer lets it. */
  function After(ts: seq<Thread>, moves: seq<nat>): Option<seq<Thread>>
    decreases |moves|
  {
    if moves == [] then Some(ts)
    else if moves[0] < |ts| && (CanMove(ts, moves[0]) || AtPeer(ts, moves[0])) then
      After(Moved(ts, moves[0]), moves[1..])
    else None
  }

  function Begin(lives: seq<seq<Job>>): seq<Thread> {
    seq(|lives|, i requires 0 <= i < |lives| => Thread(Life(lives[i]), []))
  }

  lemma {:induction false} BeginSound(lives: seq<seq<Job>>)
    requires forall jobs, j | jobs in lives && j in jobs :: Fits(j)
    ensures Sound(Begin(lives))
  {
    forall i | 0 <= i < |lives|
      ensures HeldAfter(Begin(lives)[i].held, Begin(lives)[i].todo) == Some([])
    {
      assert lives[i] in lives;
      LifeNeat(lives[i]);
    }
  }

  lemma {:induction false} AfterSound(ts: seq<Thread>, moves: seq<nat>)
    requires Sound(ts) && After(ts, moves).Some?
    ensures Sound(After(ts, moves).value) && |After(ts, moves).value| == |ts|
    decreases |moves|
  {
    if moves != [] {
      MoveKeepsSound(ts, moves[0]);
      AfterSound(Moved(ts, moves[0]), moves[1..]);
    }
  }

  // ---------------------------------------------------------------- what a thread waits for

  /** Each thread of the chain wants a mutex that the next one holds. */
  ghost predicate Chain(ts: seq<Thread>, c: seq<nat>) {
    && c != [] && (forall k | 0 <= k < |c| :: c[k] < |ts|)
    && forall k | 0 <= k < |c| - 1 :: exists m :: Wants(ts, c[k], m) && m in ts[c[k + 1]].held
  }

  function Level(ts: seq<Thread>, i: nat): nat
    requires i < |ts|
  {
    if ts[i].todo != [] && ts[i].todo[0].Acquire? then 3 - ts[i].todo[0].m.Rank() else 0
  }

  /** A thread that cannot go on, and does not wait for its peer, wants a mutex above all it holds, and
      another thread holds it. */
  lemma {:induction false} Blocked(ts: seq<Thread>, i: nat) returns (j: nat)
    requires Sound(ts) && i < |ts| && ts[i].todo != [] && !CanMove(ts, i) && !AtPeer(ts, i)
    ensures ts[i].todo[0].Acquire? && j < |ts| && j != i
    ensures var m := ts[i].todo[0].m;
            m in ts[j].held && ts[j].todo != [] && forall h | h in ts[i].held :: h.Rank() < m.Rank()
  {
    var m := ts[i].todo[0].m;
    assert HeldAfter(ts[i].held, ts[i].todo) == Some([]) && MayTake(ts[i].held, m);
    j :| 0 <= j < |ts| && j != i && m in ts[j].held;
    assert HeldAfter(ts[j].held, ts[j].todo) == Some([]);
  }

  /** Whoever waits, waits in the end for a thread that can go on or for a peer. */
  lemma {:induction false} WaitingEnds(ts: seq<Thread>, i: nat) returns (c: seq<nat>)
    requires Sound(ts) && i < |ts| && ts[i].todo != []
    ensures Chain(ts, c) && c[0] == i
    ensures CanMove(ts, c[|c| - 1]) || AtPeer(ts, c[|c| - 1])
    decreases Level(ts, i)
  {
    if CanMove(ts, i) || AtPeer(ts, i) {
      c := [i];
    } else {
      var j := Blocked(ts, i);
      if !CanMove(ts, j) && !AtPeer(ts, j) {
        var _ := Blocked(ts, j);
      }
      assert CanMove(ts, j) || AtPeer(ts, j) || Level(ts, j) < Level(ts, i);
      var rest: seq<nat>;
      if CanMove(ts, j) || AtPeer(ts, j) {
        rest := [j];
      } else {
        rest := WaitingEnds(ts, j);
      }
      c := [i] + rest;
      ChainCons(ts, i, rest);
    }
  }

  lemma {:induction false} ChainCons(ts: seq<Thread>, i: nat, rest: seq<nat>)
    requires Chain(ts, rest) && i < |ts| && ts[i].todo != [] && ts[i].todo[0].Acquire?
    requires ts[i].todo[0].m in ts[rest[0]].held
    ensures Chain(ts, [i] + rest)
  {
    var c := [i] + rest;
    assert Wants(ts, i, ts[i].todo[0].m);
    forall k | 0 <= k < |c| - 1
      ensures exists m :: Wants(ts, c[k], m) && m in ts[c[k + 1]].held
    {
      if k > 0 {
        assert c[k] == rest[k - 1] && c[k + 1] == rest[k];
        var m :| Wants(ts, rest[k - 1], m) && m in ts[rest[k - 1 + 1]].held;
        assert Wants(ts, c[k], m);
      } else {
        assert Wants(ts, c[0], ts[i].todo[0].m) && c[1] == rest[0];
      }
    }
  }

  /** Whatever operations the threads execute and however they interleave: a thread that has not finished
      can go on, or its chain of waiting ends at a thread that can, or at one in a system call whose peer
      does nothing. So the mutexes alone never bring the server to a halt. */
  lemma {:induction false} OnlyPeersBlock(lives: seq<seq<Job>>, moves: seq<nat>, i: nat) returns (c: seq<nat>)
    requires forall jobs, j | jobs in lives && j in jobs :: Fits(j)
    requires After(Begin(lives), moves).Some? && i < |lives|
    requires |After(Begin(lives), moves).value| == |lives| && After(Begin(lives), moves).value[i].todo != []
    ensures var ts := After(Begin(lives), moves).value;
            Chain(ts, c) && c[0] == i && (CanMove(ts, c[|c| - 1]) || AtPeer(ts, c[|c| - 1]))
  {
    BeginSound(lives);
    AfterSound(Begin(lives), moves);
    c := WaitingEnds(After(Begin(lives), moves).value, i);
  }

  /** A peer can: when it does not read, the thread that writes to it waits inside send with the
      connection's mutex, and the event thread waits for that mutex, with no thread able to go on. */
  lemma {:induction false} SilentPeerBlocks(conn: u64)
    ensures var writing := [Write(conn, false, true, false, true)];
            var reading := [Read(conn, false, false, true, false, true)];
            var ts := After(Begin([writing, reading]), [0]);
            && ts.Some? && |ts.value| == 2 && AtPeer(ts.value, 0)
            && ts.value[1].todo != [] && !CanMove(ts.value, 1)
  {
    var m := OfConnection(conn);
    var writing, reading := [Write(conn, false, true, false, true)], [Read(conn, false, false, true, false, true)];
    var ts := Begin([writing, reading]);
    assert Acts(writing[0]) == [Acquire(m), Peer, Release(m)];
    assert Life(writing) == [Acquire(m), Peer, Release(m)];
    assert Life(reading)[0] == Acquire(m);
    assert CanMove(ts, 0);
    var us := Moved(ts, 0);
    assert After(ts, [0]) == After(us, []);
    assert us[0].held == [m] && m in us[0].held && us[1] == ts[1];
    assert !Free(us, 1, m);
  }
}
