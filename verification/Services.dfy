/** Contexts, service queues and the network service as the program has them: objects updated in
    place. Each method is one section executed under a lock. */
module Services {
  import opened Octets
  import opened Sockets
  import opened Connections

  datatype OpType = OP_RECV | OP_SEND | OP_START | OP_STOP | OP_ACCEPT | OP_DROP

  class OperContext {
    const mType: OpType
    var mRef: nat
    var mMsg: Option<Parcel>
    var mConnID: u64
    /** The accepted client of an accept context. */
    var mClientSocket: TcpSocket?

    constructor (opType: OpType)
      ensures mType == opType && mRef == 1 && mMsg == None && mClientSocket == null
    {
      mType, mRef, mMsg, mConnID, mClientSocket := opType, 1, None, 0xFFFF_FFFF_FFFF_FFFF, null;
    }

    method SetMessage(msg: Option<Parcel>)
      modifies this`mMsg
      ensures mMsg == msg
    {
      mMsg := msg;
    }

    method IncRef()
      requires mRef > 0
      modifies this`mRef
      ensures mRef == old(mRef) + 1
    {
      mRef := mRef + 1;
    }

    /** The last reference destroys the context, whose destructor insists on an empty slot. */
    method DecRef() returns (destroyed: bool)
      requires mRef > 0 && (mRef == 1 ==> mMsg == None)
      modifies this`mRef
      ensures mRef == old(mRef) - 1 && destroyed == (mRef == 0)
    {
      mRef := mRef - 1;
      destroyed := mRef == 0;
      if destroyed {
        assert mMsg == None;
      }
    }
  }

  /** The contexts of the given types, in order. */
  function Chosen(cs: seq<OperContext>, types: set<OpType>): seq<OperContext> {
    if cs == [] then [] else (if cs[0].mType in types then [cs[0]] else []) + Chosen(cs[1..], types)
  }

  lemma {:induction false} ChosenSnoc(cs: seq<OperContext>, c: OperContext, types: set<OpType>)
    ensures Chosen(cs + [c], types) == Chosen(cs, types) + if c.mType in types then [c] else []
  {
    if cs == [] {
      assert [] + [c] == [c] && [c][1..] == [];
    } else {
      var first := if cs[0].mType in types then [cs[0]] else [];
      assert (cs + [c])[1..] == cs[1..] + [c] && (cs + [c])[0] == cs[0];
      ChosenSnoc(cs[1..], c, types);
      Associative(first, Chosen(cs[1..], types), if c.mType in types then [c] else []);
    }
  }

  lemma {:induction false} OneMore(cs: seq<OperContext>, i: nat)
    requires i < |cs|
    ensures cs[..i + 1] == cs[..i] + [cs[i]] && cs[i] in cs
    ensures multiset(cs[..i + 1]) == multiset(cs[..i]) + multiset{cs[i]}
    ensures multiset(cs[..i])[cs[i]] < multiset(cs)[cs[i]]
  {
    assert cs[..i + 1] == cs[..i] + [cs[i]];
    assert cs == cs[..i + 1] + cs[i + 1..];
  }

  lemma {:induction false} OneFurther(cs: seq<OperContext>, i: nat, a: seq<OperContext>, b: seq<OperContext>,
                                      types: set<OpType>)
    requires i < |cs|
    ensures a + cs[..i] + [cs[i]] == a + cs[..i + 1] && a + [] == a
    ensures b + Chosen(cs[..i], types) + (if cs[i].mType in types then [cs[i]] else []) ==
            b + Chosen(cs[..i + 1], types)
  {
    OneMore(cs, i);
    ChosenSnoc(cs[..i], cs[i], types);
    Associative(b, Chosen(cs[..i], types), if cs[i].mType in types then [cs[i]] else []);
  }

  /** What a batch found: the references and messages of its contexts, what had been processed, the next
      service's queue, and the types passed on. */
  datatype Found = Found(
    refs: map<OperContext, nat>, msgs: map<OperContext, Option<Parcel>>,
    processed: seq<OperContext>, queue: seq<OperContext>, passed: set<OpType>)

  /** A service. Contexts of some types it forwards to another service, the others it handles: the network
      service forwards received messages and drops to the worker, the worker forwards messages to be sent to
      the network service. */
  class LogicService {
    const mForwards: set<OpType>
    const mNext: LogicService?
    var mQueue: seq<OperContext>
    var mRunning: bool
    /** What was processed, in order. */
    var mProcessed: seq<OperContext>

    constructor (forwards: set<OpType>, next: LogicService?)
      ensures mQueue == [] && mProcessed == [] && !mRunning && mForwards == forwards && mNext == next
    {
      mForwards, mNext := forwards, next;
      mQueue, mProcessed, mRunning := [], [], false;
    }

    method Start()
      modifies this`mRunning
      ensures mRunning
    {
      mRunning := true;
    }

    method Stop()
      modifies this`mRunning
      ensures !mRunning
    {
      mRunning := false;
    }

    method Enqueue(ctx: OperContext) returns (pushed: bool)
      requires ctx.mRef > 0
      modifies this`mQueue, ctx`mRef
      ensures pushed == mRunning
      ensures mQueue == old(mQueue) + (if mRunning then [ctx] else [])
      ensures ctx.mRef == old(ctx.mRef) + (if mRunning then 1 else 0)
    {
      pushed := false;
      if mRunning {
        ctx.IncRef();
        mQueue := mQueue + [ctx];
        pushed := true;
      }
    }

    /** Whether a context is passed on, and not just handled, when it comes up. */
    predicate PassesOn(ctx: OperContext)
      reads this, mNext
    {
      ctx.mType in Passed()
    }

    /** The types that are passed on while this service and the next one run. */
    function Passed(): set<OpType>
      reads this, mNext
    {
      if mRunning && mNext != null && mNext.mRunning then mForwards else {}
    }

    /** A context either goes on with its message and one more reference, or gives its message up here. A
        stopped service takes nothing on, which only a context without a message survives. */
    method Process(ctx: OperContext)
      requires ctx.mRef > 0 && mRunning && mNext != this
      requires ctx.mType in mForwards ==> mNext != null && (mNext.mRunning || ctx.mMsg == None)
      modifies this`mProcessed, ctx`mMsg, ctx`mRef, if mNext == null then {} else {mNext}`mQueue
      ensures mProcessed == old(mProcessed) + [ctx]
      ensures mNext != null ==> mNext.mQueue == old(mNext.mQueue) + if PassesOn(ctx) then [ctx] else []
      ensures ctx.mRef == old(ctx.mRef) + if PassesOn(ctx) then 1 else 0
      ensures ctx.mMsg == if PassesOn(ctx) then old(ctx.mMsg) else None
    {
      mProcessed := mProcessed + [ctx];
      if ctx.mType in mForwards {
        var _ := mNext.Enqueue(ctx);
      } else {
        ctx.SetMessage(None);
      }
    }

    /** Every entry of the queue holds a reference of its own. */
    ghost predicate Referenced(cs: seq<OperContext>)
      reads cs
    {
      forall c | c in cs :: c.mRef >= multiset(cs)[c]
    }

    /** What the loop does with one context. */
    method HandleOne(ctx: OperContext) returns (last: bool)
      requires ctx.mRef > 0 && mNext != this
      requires mRunning && ctx.mType in mForwards ==> mNext != null && (mNext.mRunning || ctx.mMsg == None)
      modifies this`mProcessed, ctx`mMsg, ctx`mRef, if mNext == null then {} else {mNext}`mQueue
      ensures mProcessed == old(mProcessed) + (if mRunning then [ctx] else [])
      ensures mNext != null ==> mNext.mQueue == old(mNext.mQueue) + if PassesOn(ctx) then [ctx] else []
      ensures ctx.mRef == old(ctx.mRef) - if PassesOn(ctx) then 0 else 1
      ensures ctx.mMsg == if PassesOn(ctx) then old(ctx.mMsg) else None
      ensures last == (ctx.mRef == 0)
    {
      if mRunning {
        Process(ctx);
      } else {
        ctx.SetMessage(None);
      }
      last := ctx.DecRef();
    }

    /** References, messages and the destroyed ones after the first n contexts of the batch. */
    ghost predicate Counted(cs: seq<OperContext>, n: nat, at: Found, destroyed: set<OperContext>)
      requires n <= |cs|
      reads cs
    {
      && (forall c | c in cs :: c in at.refs && c in at.msgs)
      && (forall c | c in cs :: c.mRef + (if c.mType in at.passed then 0 else multiset(cs[..n])[c]) == at.refs[c])
      && (forall c | c in cs :: c.mMsg == if c in cs[..n] && c.mType !in at.passed then None else at.msgs[c])
      && destroyed == (set c | c in cs && c in cs[..n] && c.mRef == 0)
    }

    /** What was processed and passed on by then. */
    ghost predicate Recorded(cs: seq<OperContext>, n: nat, at: Found)
      requires n <= |cs|
      reads this, mNext
    {
      && at.passed == Passed()
      && mProcessed == at.processed + (if mRunning then cs[..n] else [])
      && (mNext != null ==> mNext.mQueue == at.queue + Chosen(cs[..n], at.passed))
    }

    /** Every context of a batch can be handled. */
    ghost predicate Manageable(cs: seq<OperContext>, at: Found)
      reads this, mNext
    {
      && mNext != this && (forall c | c in cs :: c in at.refs && c in at.msgs)
      && (forall c | c in cs :: at.refs[c] >= multiset(cs)[c])
      && forall c | c in cs && c.mType in mForwards && mRunning ::
           mNext != null && (mNext.mRunning || at.msgs[c] == None)
    }

    method HandleNext(cs: seq<OperContext>, i: nat, ghost at: Found, before: set<OperContext>)
      returns (destroyed: set<OperContext>)
      requires i < |cs| && Manageable(cs, at) && Counted(cs, i, at, before) && at.passed == Passed()
      modifies this`mProcessed, cs, if mNext == null then {} else {mNext}`mQueue
      ensures Manageable(cs, at) && Counted(cs, i + 1, at, destroyed) && at.passed == Passed()
      ensures mProcessed == old(mProcessed) + (if mRunning then [cs[i]] else [])
      ensures mNext != null ==>
                mNext.mQueue == old(mNext.mQueue) + if cs[i].mType in at.passed then [cs[i]] else []
    {
      OneMore(cs, i);
      var last := HandleOne(cs[i]);
      destroyed := if last then before + {cs[i]} else before;
    }

    /** One turn of Run's loop. */
    method Turn(cs: seq<OperContext>, i: nat, ghost at: Found, before: set<OperContext>)
      returns (destroyed: set<OperContext>)
      requires i < |cs| && Manageable(cs, at) && Counted(cs, i, at, before) && Recorded(cs, i, at)
      modifies this`mProcessed, cs, if mNext == null then {} else {mNext}`mQueue
      ensures Manageable(cs, at) && Counted(cs, i + 1, at, destroyed) && Recorded(cs, i + 1, at)
    {
      hide Manageable, Counted, Chosen;
      OneFurther(cs, i, at.processed, at.queue, at.passed);
      destroyed := HandleNext(cs, i, at, before);
    }

    /** Run's loop over a batch. */
    method HandleAll(cs: seq<OperContext>, ghost at: Found) returns (destroyed: set<OperContext>)
      requires Manageable(cs, at) && Counted(cs, 0, at, {}) && Recorded(cs, 0, at)
      modifies this`mProcessed, cs, if mNext == null then {} else {mNext}`mQueue
      ensures Counted(cs, |cs|, at, destroyed) && Recorded(cs, |cs|, at)
    {
      hide Counted, Recorded, Manageable;
      destroyed := {};
      for i := 0 to |cs|
        invariant Manageable(cs, at) && Counted(cs, i, at, destroyed) && Recorded(cs, i, at)
      {
        destroyed := Turn(cs, i, at, destroyed);
      }
    }

    /** The swap under the lock. */
    method TakeBatch() returns (ctxVec: seq<OperContext>, ghost at: Found)
      requires Referenced(mQueue) && mNext != this
      requires forall c | c in mQueue && c.mType in mForwards && mRunning ::
                 mNext != null && (mNext.mRunning || c.mMsg == None)
      modifies this`mQueue
      ensures mQueue == [] && ctxVec == old(mQueue)
      ensures Manageable(ctxVec, at) && Counted(ctxVec, 0, at, {}) && Recorded(ctxVec, 0, at)
      ensures at.processed == mProcessed && (mNext != null ==> at.queue == mNext.mQueue)
      ensures forall c | c in ctxVec :: at.refs[c] == c.mRef && at.msgs[c] == c.mMsg
    {
      ctxVec := mQueue;
      at := Found(map c: OperContext | c in ctxVec :: c.mRef, map c: OperContext | c in ctxVec :: c.mMsg,
                  mProcessed, if mNext == null then [] else mNext.mQueue, Passed());
      mQueue := [];
      assert ctxVec[..0] == [] && Chosen([], at.passed) == [];
    }

    /** One pass of Run's loop: the batch is taken under the lock, handled in order, and each entry's
        reference is let go exactly once. What is passed on reaches the other service in order, with its
        message; everything else gives up its message. A service stopped in the meantime only clears the
        slots. */
    method RunBatch() returns (destroyed: set<OperContext>)
      requires Referenced(mQueue) && mNext != this
      requires forall c | c in mQueue && c.mType in mForwards && mRunning ::
                 mNext != null && (mNext.mRunning || c.mMsg == None)
      modifies this, mQueue, if mNext == null then {} else {mNext}`mQueue
      ensures mQueue == [] && mRunning == old(mRunning)
      ensures mProcessed == old(mProcessed) + (if mRunning then old(mQueue) else [])
      ensures forall c | c in old(mQueue) ::
                c.mRef == old(c.mRef) - if PassesOn(c) then 0 else multiset(old(mQueue))[c]
      ensures forall c | c in old(mQueue) :: c.mMsg == if PassesOn(c) then old(c.mMsg) else None
      ensures mNext != null ==> mNext.mQueue == old(mNext.mQueue) + Chosen(old(mQueue), Passed())
      ensures destroyed == set c | c in old(mQueue) && c.mRef == 0
    {
      var ctxVec;
      ghost var at;
      ctxVec, at := TakeBatch();
      hide Chosen, Referenced, Manageable;
      destroyed := HandleAll(ctxVec, at);
      assert ctxVec[..|ctxVec|] == ctxVec;
    }
  }

  class NetService {
    var mMaxID: u64
    var mConns: map<u64, TcpConnection>
    const mServer: LogicService
    /** The service's own queue, to which its connections report. */
    const mEvents: ServiceQueue
    /** Messages freed because their connection was gone. */
    var mFreed: seq<Parcel>

    /** Every id in the table was given out, and no two connections share anything. */
    ghost predicate Valid()
      reads this
    {
      && (forall id | id in mConns :: id < mMaxID && mConns[id].mConnID == id && mConns[id].mLogicService == mEvents)
      && (forall i, j | i in mConns && j in mConns && i != j :: mConns[i].mSocket != mConns[j].mSocket)
    }

    constructor (server: LogicService, events: ServiceQueue)
      ensures Valid() && mConns == map[] && mMaxID == 0 && mFreed == []
      ensures mServer == server && mEvents == events
    {
      mServer, mEvents := server, events;
      mMaxID, mConns, mFreed := 0, map[], [];
    }

    /** A new connection gets an id that no connection ever had. */
    method AcceptConnection(ctx: OperContext)
      requires Valid() && mMaxID < 0xFFFF_FFFF_FFFF_FFFF && ctx.mClientSocket != null
      requires !ctx.mClientSocket.NoOK() && !ctx.mClientSocket.mPreRecv
      requires ctx.mClientSocket.mConsumed == [] && ctx.mClientSocket.mEmitted == []
      requires forall id | id in mConns :: mConns[id].mSocket != ctx.mClientSocket
      modifies this`mMaxID, this`mConns
      ensures Valid() && mMaxID == old(mMaxID) + 1
      ensures mConns.Keys == old(mConns.Keys) + {old(mMaxID)}
              && forall id | id in old(mConns) :: mConns[id] == old(mConns[id])
      ensures var conn := mConns[old(mMaxID)];
              fresh(conn) && conn.mSocket == ctx.mClientSocket && conn.SocketOk() && conn.ReaderOk() && conn.WriterOk()
    {
      var connID := mMaxID;
      mMaxID := mMaxID + 1;
      var conn := new TcpConnection(mEvents, ctx.mClientSocket, connID);
      assert connID !in mConns;
      mConns := mConns[connID := conn];
    }

    ghost function Target(conn: u64): set<object>
      reads this
    {
      if conn in mConns then {mConns[conn], mConns[conn].mSocket, mEvents} else {}
    }

    /** The message of the context ends up with its connection, or freed if there is none; the slot is
        cleared either way. */
    method SendMsg(ctx: OperContext)
      requires Valid() && ctx.mMsg.Some? && ctx.mMsg.value.frame != []
      requires ctx.mConnID in mConns ==> mConns[ctx.mConnID].SocketOk() && mConns[ctx.mConnID].WriterOk()
      modifies this`mFreed, ctx`mMsg, Target(ctx.mConnID)
      ensures Valid() && ctx.mMsg == None && mConns == old(mConns)
      ensures ctx.mConnID !in mConns ==> mFreed == old(mFreed) + [old(ctx.mMsg.value)]
      ensures ctx.mConnID in mConns ==>
                var conn := mConns[ctx.mConnID];
                && mFreed == old(mFreed)
                && conn.mEnqueued == old(conn.mEnqueued) + [old(ctx.mMsg.value)]
                && conn.SocketOk() && (old(conn.mClosed) || !old(conn.mSocket.WouldStall()) ==> conn.WriterOk())
    {
      if ctx.mConnID !in mConns {
        mFreed := mFreed + [ctx.mMsg.value];
      } else {
        var conn := mConns[ctx.mConnID];
        conn.Enqueue(ctx.mMsg.value);
        var _ := conn.WriteData();
      }
      ctx.SetMessage(None);
    }

    /** The connection leaves the table; what it had queued is freed by its destructor. */
    method DropConnection(ctx: OperContext)
      requires Valid() && (ctx.mConnID in mConns ==> mConns[ctx.mConnID].WriterOk())
      modifies this`mConns, Target(ctx.mConnID)
      ensures Valid() && mConns == old(mConns) - {ctx.mConnID} && mMaxID == old(mMaxID)
      ensures ctx.mConnID in old(mConns) ==>
                var conn := old(mConns[ctx.mConnID]);
                conn.mToSendMsg == [] && multiset(conn.mFreed) == multiset(conn.mEnqueued)
    {
      if ctx.mConnID in mConns {
        var conn := mConns[ctx.mConnID];
        conn.Destroy();
        mConns := mConns - {ctx.mConnID};
      }
    }

    /** Received messages and drops go on to the server's queue, each with a reference of its own. */
    method Forward(ctx: OperContext)
      requires ctx.mRef > 0
      modifies mServer`mQueue, ctx`mRef
      ensures mServer.mQueue == old(mServer.mQueue) + (if mServer.mRunning then [ctx] else [])
      ensures ctx.mRef == old(ctx.mRef) + (if mServer.mRunning then 1 else 0)
    {
      var _ := mServer.Enqueue(ctx);
    }

    /** A drop is forwarded before the connection is deleted. */
    method ProcessDrop(ctx: OperContext)
      requires Valid() && ctx.mRef > 0 && (ctx.mConnID in mConns ==> mConns[ctx.mConnID].WriterOk())
      modifies this`mConns, mServer`mQueue, ctx`mRef, Target(ctx.mConnID)
      ensures Valid() && mConns == old(mConns) - {ctx.mConnID}
      ensures mServer.mQueue == old(mServer.mQueue) + (if mServer.mRunning then [ctx] else [])
      ensures ctx.mRef == old(ctx.mRef) + (if mServer.mRunning then 1 else 0)
    {
      Forward(ctx);
      DropConnection(ctx);
    }
  }
}
