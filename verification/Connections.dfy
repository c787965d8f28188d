/** A connection: resumable reading and writing of frames over a socket. */
module Connections {
  import opened Octets
  import opened MsgBuffer
  import opened Framing
  import opened Sockets

  /** What a connection reports to its service. */
  datatype Post = Received(conn: u64, frame: bytes) | Dropped(conn: u64)

  /** A queued message: an identity, standing for its address, and the bytes to be sent. */
  datatype Parcel = Parcel(id: nat, frame: bytes)

  class ServiceQueue {
    var mRunning: bool
    var mPosted: seq<Post>

    constructor ()
      ensures mRunning && mPosted == []
    {
      mRunning, mPosted := true, [];
    }

    method Enqueue(p: Post) returns (pushed: bool)
      modifies this`mPosted
      ensures pushed == mRunning && mPosted == old(mPosted) + if mRunning then [p] else []
    {
      pushed := mRunning;
      if mRunning {
        mPosted := mPosted + [p];
      }
    }
  }

  function Frames(ps: seq<Parcel>): (fs: seq<bytes>)
    ensures |fs| == |ps|
  {
    seq(|ps|, i requires 0 <= i < |ps| => ps[i].frame)
  }

  lemma {:induction false} GrownPart(consumed: bytes, part: bytes, more: bytes, size: nat)
    requires Deframe(consumed).1 == part && |part| >= 4 && size == HEAD_LENGTH + FromBE(part[..4])
    requires Admissible(size - HEAD_LENGTH) && |part + more| <= size
    ensures Deframe(consumed + more) ==
            if |part + more| == size then (Deframe(consumed).0 + [part + more], [])
                else (Deframe(consumed).0, part + more)
    ensures (part + more)[..4] == part[..4]
    ensures more == [] ==> consumed + more == consumed
  {
    PartStep(consumed, more, size);
  }

  function Arrivals(conn: u64, frames: seq<bytes>): (ps: seq<Post>)
    ensures |ps| == |frames|
  {
    seq(|frames|, i requires 0 <= i < |frames| => Received(conn, frames[i]))
  }

  lemma {:induction false} FramesSnoc(ps: seq<Parcel>, p: Parcel)
    ensures Concat(Frames(ps + [p])) == Concat(Frames(ps)) + p.frame
  {
    assert Frames(ps + [p]) == Frames(ps) + [p.frame];
    ConcatConcat(Frames(ps), [p.frame]);
    assert [p.frame][1..] == [] && p.frame + [] == p.frame;
  }

  lemma {:induction false} FramesConcat(ps: seq<Parcel>, qs: seq<Parcel>)
    ensures Concat(Frames(ps + qs)) == Concat(Frames(ps)) + Concat(Frames(qs))
  {
    assert Frames(ps + qs) == Frames(ps) + Frames(qs);
    ConcatConcat(Frames(ps), Frames(qs));
  }

  lemma {:induction false} OneMoreAccepted(enqueued: seq<Parcel>, queue: seq<Parcel>, freed: seq<Parcel>,
                                           completed: seq<Parcel>, msg: Parcel)
    requires multiset(enqueued) == multiset(queue) + multiset(freed)
    ensures multiset(enqueued + [msg]) == multiset(queue + [msg]) + multiset(freed)
    ensures enqueued == completed + queue ==> enqueued + [msg] == completed + (queue + [msg])
    ensures forall p | p in queue + [msg] :: p in queue || p == msg
    ensures queue != [] ==> (queue + [msg])[0] == queue[0]
  {
    if enqueued == completed + queue {
      Associative(completed, queue, [msg]);
    }
  }

  class TcpConnection {
    const mSocket: TcpSocket
    const mLogicService: ServiceQueue
    const mConnID: u64
    var mClosed: bool

    var mToRecv: nat
    var mRecved: nat
    var mCurrentRecvMsg: Msg?

    var mToSend: int
    var mSent: int
    var mCurrentSendMsg: Option<Parcel>
    var mToSendMsg: seq<Parcel>

    /** Histories: frames completed by the reader; parcels accepted, written in full, and freed. */
    var mOffered: seq<bytes>
    var mEnqueued: seq<Parcel>
    var mCompleted: seq<Parcel>
    var mFreed: seq<Parcel>

    ghost predicate SocketOk()
      reads this, mSocket
    {
      mClosed <==> mSocket.NoOK()
    }

    /** The reader has offered exactly the frames that have wholly arrived, and keeps the bytes of the
        next one. */
    ghost predicate ReaderOk()
      reads this, mSocket, mCurrentRecvMsg, if mCurrentRecvMsg == null then {} else {mCurrentRecvMsg.mData}
    {
      && mOffered == Deframe(mSocket.mConsumed).0
      && (mCurrentRecvMsg == null ==> mRecved == mToRecv == 0)
      && (mCurrentRecvMsg != null ==> 4 <= mRecved < mToRecv)
      && (!mClosed ==> mSocket.mPreRecv == (mCurrentRecvMsg != null) && Partial())
    }

    ghost predicate Partial()
      reads this, mSocket, mCurrentRecvMsg, if mCurrentRecvMsg == null then {} else {mCurrentRecvMsg.mData}
    {
      var part := Deframe(mSocket.mConsumed).1;
      if mCurrentRecvMsg == null then part == []
      else
        && mCurrentRecvMsg.mData.Length == mToRecv && mRecved <= mToRecv
        && |part| >= 4 && mToRecv == HEAD_LENGTH + FromBE(part[..4]) && Admissible(mToRecv - HEAD_LENGTH)
        && part == mCurrentRecvMsg.mData[..mRecved]
    }

    constructor (logic: ServiceQueue, sock: TcpSocket, connID: u64)
      requires !sock.NoOK() && !sock.mPreRecv && sock.mConsumed == [] && sock.mEmitted == []
      ensures SocketOk() && ReaderOk() && WriterOk() && !mClosed
      ensures mSocket == sock && mLogicService == logic && mConnID == connID
      ensures mCurrentRecvMsg == null && mOffered == [] && mEnqueued == []
    {
      mSocket, mLogicService, mConnID, mClosed := sock, logic, connID, false;
      mToRecv, mRecved, mCurrentRecvMsg := 0, 0, null;
      mToSend, mSent, mCurrentSendMsg, mToSendMsg := 0, 0, None, [];
      mOffered, mEnqueued, mCompleted, mFreed := [], [], [], [];
    }

    /** Closing frees the queued messages; without closing the queue is left alone. */
    twostate predicate QueueKeptOrFreed()
      reads this
    {
      if mClosed == old(mClosed) then mToSendMsg == old(mToSendMsg) && mFreed == old(mFreed)
      else mClosed && mToSendMsg == [] && mFreed == old(mFreed) + old(mToSendMsg)
    }

    /** Every parcel accepted is queued or freed, once; while open, what is freed is what was written. */
    ghost predicate Accepted()
      reads this
    {
      && multiset(mEnqueued) == multiset(mToSendMsg) + multiset(mFreed)
      && (forall p | p in mToSendMsg :: p.frame != [])
      && (!mClosed ==> mEnqueued == mCompleted + mToSendMsg && mFreed == mCompleted)
    }

    /** The front parcel is being written. */
    ghost predicate Waiting()
      reads this
    {
      && mToSendMsg != [] && mCurrentSendMsg == Some(mToSendMsg[0])
      && 0 <= mSent && 0 < mToSend && mSent + mToSend == |mToSendMsg[0].frame|
    }

    /** What was emitted is the completed frames and the first mSent bytes of the front one; after
        closing it stays a prefix of what was accepted. */
    ghost predicate WriterOk()
      reads this, mSocket
    {
      && Accepted()
      && mSocket.mEmitted <= Concat(Frames(mEnqueued))
      && (!mClosed ==> Emitting())
    }

    ghost predicate Emitting()
      reads this, mSocket
    {
      if mCurrentSendMsg == None then mSent == mToSend == 0 && mSocket.mEmitted == Concat(Frames(mCompleted))
      else Waiting() && mSocket.mEmitted == Concat(Frames(mCompleted)) + mToSendMsg[0].frame[..mSent]
    }

    /** Reading never disturbs the writer, even when it closes the connection. */
    twostate lemma {:induction false} ReadingKeepsWriter()
      requires old(WriterOk()) && QueueKeptOrFreed()
      requires mEnqueued == old(mEnqueued) && mCompleted == old(mCompleted) && mCurrentSendMsg == old(mCurrentSendMsg)
      requires mSent == old(mSent) && mToSend == old(mToSend) && mSocket.mEmitted == old(mSocket.mEmitted)
      ensures WriterOk()
    {
      assert multiset(old(mFreed) + old(mToSendMsg)) == multiset(old(mFreed)) + multiset(old(mToSendMsg));
    }

    method ResetRecv()
      modifies this`mToRecv, this`mRecved, this`mCurrentRecvMsg, mSocket`mPreRecv
      ensures mToRecv == mRecved == 0 && mCurrentRecvMsg == null && !mSocket.mPreRecv
    {
      mToRecv, mRecved, mCurrentRecvMsg := 0, 0, null;
      mSocket.mPreRecv := false;
    }

    /** Why the reader closed: an unacceptable length word without an error, or the end of the stream
        with one. */
    ghost predicate Ended(err: nat)
      reads mSocket
    {
      var rest := Deframe(mSocket.mConsumed).1;
      if err == 0 then Short(rest) else !Short(rest) && Upcoming(mSocket.mInbound) == []
    }

    /** Reads the length word and prepares the buffer. A word below 4, or negative as an int, closes the
        connection without an error. */
    method BeginFrame() returns (err: nat)
      requires SocketOk() && ReaderOk() && !mClosed && mCurrentRecvMsg == null && Tame(mSocket.Stream())
      modifies this`mClosed, this`mToSendMsg, this`mFreed, this`mToRecv, this`mRecved, this`mCurrentRecvMsg
      modifies mSocket`mInbound, mSocket`mConsumed, mSocket`mClosed, mSocket`mError, mSocket`mPreRecv
      ensures QueueKeptOrFreed()
      ensures SocketOk() && ReaderOk() && mOffered == old(mOffered)
      ensures mSocket.Stream() == old(mSocket.Stream()) && old(mSocket.mConsumed) <= mSocket.mConsumed
      ensures !mClosed <==> err == 0 && mCurrentRecvMsg != null
      ensures Work(mSocket.mInbound) <= old(Work(mSocket.mInbound))
      ensures mClosed ==> Ended(err)
      ensures mCurrentRecvMsg != null ==> fresh(mCurrentRecvMsg) && fresh(mCurrentRecvMsg.mData)
    {
      var dataLen;
      err, dataLen := mSocket.PreRecv();
      ghost var before, word := old(mSocket.mConsumed), mSocket.mConsumed[|old(mSocket.mConsumed)|..];
      assert mSocket.mConsumed == before + word;
      WordStep(before, word);
      assert |word| == 4 ==> word[..4] == word;
      if err != 0 || dataLen < 4 {
        Close();
        return;
      }
      TameWord(before, word, Upcoming(mSocket.mInbound));
      Prepare(dataLen, word);
    }

    method Prepare(dataLen: int, ghost word: bytes)
      requires |word| == 4 && dataLen == FromBE(word) && Admissible(dataLen)
      requires SocketOk() && !mClosed && mSocket.mPreRecv
      requires Deframe(mSocket.mConsumed) == (mOffered, word)
      modifies this`mToRecv, this`mRecved, this`mCurrentRecvMsg
      ensures SocketOk() && ReaderOk()
      ensures mCurrentRecvMsg != null && fresh(mCurrentRecvMsg) && fresh(mCurrentRecvMsg.mData)
    {
      var msg := new Msg.Sized(dataLen);
      msg.SetLen(dataLen);
      BEofFromBE(word);
      mCurrentRecvMsg := msg;
      mRecved := 4;
      mToRecv := dataLen + HEAD_LENGTH;
      assert msg.mData[..4] == word == word[..4];
    }

    /** The buffered frame is complete and not yet offered. */
    ghost predicate Full()
      reads this, mSocket, mCurrentRecvMsg, if mCurrentRecvMsg == null then {} else {mCurrentRecvMsg.mData}
    {
      && mCurrentRecvMsg != null && 4 < mRecved == mToRecv == mCurrentRecvMsg.mData.Length
      && Deframe(mSocket.mConsumed) == (mOffered + [mCurrentRecvMsg.mData[..]], [])
    }

    /** Takes whatever has arrived of the current frame. */
    method ReceiveSome() returns (err: nat)
      requires SocketOk() && ReaderOk() && !mClosed && mCurrentRecvMsg != null
      modifies this`mClosed, this`mToSendMsg, this`mFreed, this`mToRecv, this`mRecved, this`mCurrentRecvMsg
      modifies mSocket`mInbound, mSocket`mConsumed, mSocket`mClosed, mSocket`mError, mSocket`mPreRecv,
               mCurrentRecvMsg.mData
      ensures QueueKeptOrFreed()
      ensures SocketOk() && mCurrentRecvMsg == old(mCurrentRecvMsg) && mOffered == old(mOffered)
      ensures mCurrentRecvMsg.mData == old(mCurrentRecvMsg.mData)
      ensures mSocket.Stream() == old(mSocket.Stream()) && old(mSocket.mConsumed) <= mSocket.mConsumed
      ensures if mRecved == mToRecv then Full() && err == 0 && !mClosed else ReaderOk()
      ensures mClosed <==> err != 0
      ensures mClosed ==> Ended(err)
      ensures !mClosed ==> Work(mSocket.mInbound) < old(Work(mSocket.mInbound))
    {
      hide Upcoming, Work, Concat, Frames, Deframe, FromBE;
      ghost var before, part := mSocket.mConsumed, mCurrentRecvMsg.mData[..mRecved];
      var received;
      err, received := mSocket.Recv(mCurrentRecvMsg.mData, mRecved, mToRecv - mRecved);
      ghost var count := if received > 0 then received else 0;
      ghost var more := mCurrentRecvMsg.mData[mRecved..mRecved + count];
      ghost var whole := mCurrentRecvMsg.mData[..mRecved + count];
      assert mCurrentRecvMsg.mData[..mRecved] == part;
      assert part + more == whole;
      GrownPart(before, part, more, mToRecv);
      if err != 0 {
        Close();
        return;
      }
      mRecved := mRecved + received;
      assert mRecved == mToRecv ==> whole == mCurrentRecvMsg.mData[..];
    }

    /** Hands the completed frame to the service; if the service has stopped, the message is lost. */
    method OfferFrame() returns (err: nat)
      requires Full()
      modifies this`mOffered, this`mToRecv, this`mRecved, this`mCurrentRecvMsg, mSocket`mPreRecv, mLogicService`mPosted
      ensures ReaderOk() && mOffered == old(mOffered + [mCurrentRecvMsg.mData[..]])
      ensures mCurrentRecvMsg == null && !mSocket.mPreRecv
      ensures err == if mLogicService.mRunning then 0 else EINVAL
      ensures mLogicService.mPosted == old(mLogicService.mPosted) +
                if mLogicService.mRunning then [Received(mConnID, old(mCurrentRecvMsg.mData[..]))] else []
    {
      var pushed := mLogicService.Enqueue(Received(mConnID, mCurrentRecvMsg.mData[..]));
      err := if pushed then 0 else EINVAL;
      mOffered := mOffered + [mCurrentRecvMsg.mData[..]];
      ResetRecv();
    }

    method Close()
      modifies this`mClosed, this`mToSendMsg, this`mFreed, mSocket`mClosed
      ensures mClosed && (old(mClosed) || mSocket.mClosed)
      ensures old(mClosed) ==>
                mToSendMsg == old(mToSendMsg) && mFreed == old(mFreed) && mSocket.mClosed == old(mSocket.mClosed)
      ensures !old(mClosed) ==> mToSendMsg == [] && mFreed == old(mFreed) + old(mToSendMsg)
    {
      if !mClosed {
        mClosed := true;
        mSocket.Close();
        FreeNotSendMsg();
      }
    }

    method FreeNotSendMsg()
      modifies this`mToSendMsg, this`mFreed
      ensures mToSendMsg == [] && mFreed == old(mFreed) + old(mToSendMsg)
    {
      while mToSendMsg != []
        invariant mFreed + mToSendMsg == old(mFreed) + old(mToSendMsg)
        decreases |mToSendMsg|
      {
        var msg := mToSendMsg[0];
        mFreed := mFreed + [msg];
        mToSendMsg := mToSendMsg[1..];
      }
    }

    /** The part of ReadData that touches the socket. */
    method TakeData() returns (err: nat)
      requires SocketOk() && ReaderOk() && Tame(mSocket.Stream())
      modifies this`mClosed, this`mToSendMsg, this`mFreed, this`mToRecv, this`mRecved, this`mCurrentRecvMsg
      modifies mSocket`mInbound, mSocket`mConsumed, mSocket`mClosed, mSocket`mError, mSocket`mPreRecv,
               if mCurrentRecvMsg == null then {} else {mCurrentRecvMsg.mData}
      ensures QueueKeptOrFreed()
      ensures SocketOk() && mOffered == old(mOffered)
      ensures mCurrentRecvMsg == old(mCurrentRecvMsg) || (fresh(mCurrentRecvMsg) && fresh(mCurrentRecvMsg.mData))
      ensures mSocket.Stream() == old(mSocket.Stream()) && old(mSocket.mConsumed) <= mSocket.mConsumed
      ensures if mRecved == mToRecv && mRecved > 4 then Full() && err == 0 && !mClosed else ReaderOk()
      ensures err != 0 ==> mClosed
      ensures old(mClosed) ==> mClosed && err != 0 && mSocket.mConsumed == old(mSocket.mConsumed)
      ensures mClosed && !old(mClosed) ==> Ended(err)
      ensures !mClosed ==> Work(mSocket.mInbound) < old(Work(mSocket.mInbound))
    {
      if mSocket.NoOK() {
        return EINVAL;
      }
      err := 0;
      if !mSocket.mPreRecv {
        err := BeginFrame();
      }
      if err == 0 && !mClosed {
        err := ReceiveSome();
      }
    }

    /** The readable event. A frame that completes is offered at once; any error drops the connection,
        and only an error does. */
    method ReadData() returns (err: nat)
      requires SocketOk() && ReaderOk() && Tame(mSocket.Stream())
      modifies this`mClosed, this`mToSendMsg, this`mFreed, this`mToRecv, this`mRecved, this`mCurrentRecvMsg,
               this`mOffered
      modifies mSocket`mInbound, mSocket`mConsumed, mSocket`mClosed, mSocket`mError, mSocket`mPreRecv,
               mLogicService`mPosted
      modifies if mCurrentRecvMsg == null then {} else {mCurrentRecvMsg.mData}
      ensures QueueKeptOrFreed()
      ensures SocketOk() && ReaderOk()
      ensures mCurrentRecvMsg == null || mCurrentRecvMsg == old(mCurrentRecvMsg) ||
              (fresh(mCurrentRecvMsg) && fresh(mCurrentRecvMsg.mData))
      ensures mSocket.Stream() == old(mSocket.Stream()) && old(mSocket.mConsumed) <= mSocket.mConsumed
      ensures old(mOffered) <= mOffered && |mOffered| <= |old(mOffered)| + 1
      ensures mLogicService.mPosted == old(mLogicService.mPosted) +
                if mLogicService.mRunning
                then Arrivals(mConnID, mOffered[|old(mOffered)|..]) + Drop(mConnID, err)
                else []
      ensures old(mClosed) ==> mClosed && err != 0 && mSocket.mConsumed == old(mSocket.mConsumed)
      ensures mClosed && !old(mClosed) ==> Ended(err)
      ensures !mClosed ==> Work(mSocket.mInbound) < old(Work(mSocket.mInbound))
      ensures mLogicService.mRunning && err != 0 ==> mClosed
    {
      hide Deframe, Upcoming, Work, Concat, Frames;
      err := TakeData();
      if mRecved == mToRecv && mRecved > 4 {
        err := OfferFrame();
      }
      if err != 0 {
        ResetRecv();
        var _ := mLogicService.Enqueue(Dropped(mConnID));
      }
    }

    /** Everything offered so far was reported, and the drop exactly if there was an error. */
    ghost predicate Reported(err: nat)
      reads this, mSocket, mLogicService
    {
      && mLogicService.mPosted == Arrivals(mConnID, mOffered) + Drop(mConnID, err)
      && (err != 0 ==> mClosed) && (mClosed ==> Ended(err))
    }

    /** The reader is somewhere in the stream, all is reported, and only an error or a bad word closes. */
    ghost predicate Underway(stream: bytes, err: nat)
      reads this, mSocket, mLogicService, mCurrentRecvMsg,
            if mCurrentRecvMsg == null then {} else {mCurrentRecvMsg.mData}
    {
      && SocketOk() && ReaderOk() && mSocket.Stream() == stream && Tame(stream) && mLogicService.mRunning
      && Reported(err) && (!mClosed ==> err == 0)
    }

    method ReadMore(ghost stream: bytes) returns (err: nat)
      requires Underway(stream, 0) && !mClosed
      modifies this`mClosed, this`mToSendMsg, this`mFreed, this`mToRecv, this`mRecved, this`mCurrentRecvMsg,
               this`mOffered
      modifies mSocket`mInbound, mSocket`mConsumed, mSocket`mClosed, mSocket`mError, mSocket`mPreRecv,
               mLogicService`mPosted
      modifies if mCurrentRecvMsg == null then {} else {mCurrentRecvMsg.mData}
      ensures Underway(stream, err)
      ensures mCurrentRecvMsg == null || mCurrentRecvMsg == old(mCurrentRecvMsg) ||
              (fresh(mCurrentRecvMsg) && fresh(mCurrentRecvMsg.mData))
      ensures !mClosed ==> err == 0 && Work(mSocket.mInbound) < old(Work(mSocket.mInbound))
    {
      hide Deframe, Upcoming, Work, Concat, Frames, Arrivals, Tame;
      ghost var before := mOffered;
      err := ReadData();
      ArrivalsStep(mConnID, before, mOffered, err);
    }

    /** Accepts a message for sending; a closed connection still keeps it until it is destroyed. */
    method Enqueue(msg: Parcel)
      requires SocketOk() && WriterOk() && msg.frame != []
      modifies this`mToSendMsg, this`mEnqueued
      ensures SocketOk() && WriterOk()
      ensures mToSendMsg == old(mToSendMsg) + [msg] && mEnqueued == old(mEnqueued) + [msg]
      ensures mSocket.mEmitted == old(mSocket.mEmitted)
    {
      hide Concat, Frames;
      FramesSnoc(mEnqueued, msg);
      OneMoreAccepted(mEnqueued, mToSendMsg, mFreed, mCompleted, msg);
      mToSendMsg := mToSendMsg + [msg];
      mEnqueued := mEnqueued + [msg];
    }

    method InitNextSend() returns (hasMsg: bool)
      requires WriterOk() && !mClosed && mCurrentSendMsg == None
      modifies this`mCurrentSendMsg, this`mToSend, this`mSent
      ensures WriterOk() && hasMsg == (mToSendMsg != []) == mCurrentSendMsg.Some?
      ensures mSent == 0 && old(mSent) == 0
    {
      hasMsg := false;
      if mToSendMsg != [] {
        var msg := mToSendMsg[0];
        mCurrentSendMsg := Some(msg);
        mToSend := |msg.frame|;
        mSent := 0;
        hasMsg := true;
        assert mSocket.mEmitted == Concat(Frames(mCompleted)) + msg.frame[..0];
      }
    }

    method ResetSend()
      modifies this`mToSend, this`mSent, this`mCurrentSendMsg
      ensures mToSend == mSent == 0 && mCurrentSendMsg == None
    {
      mToSend, mSent, mCurrentSendMsg := 0, 0, None;
    }

    /** Bytes accepted and not yet emitted. */
    ghost function Remaining(): int
      reads this
    {
      |Concat(Frames(mToSendMsg))| - mSent
    }

    /** Offers the rest of the front frame once. */
    method SendFront() returns (err: nat, sent: int)
      requires SocketOk() && WriterOk() && !mClosed && mCurrentSendMsg.Some?
      modifies mSocket`mOutbound, mSocket`mEmitted, mSocket`mError
      ensures err == 0 <==> !mSocket.NoOK()
      ensures err == 0 ==> sent <= mToSend && if old(mSocket.WouldStall()) then sent == -1 else sent >= 0
      ensures mSocket.mEmitted == old(mSocket.mEmitted) +
                if err == 0 && sent > 0 then mCurrentSendMsg.value.frame[mSent..mSent + sent] else []
      ensures old(mSocket.WouldStall()) ==> err == 0
      ensures old(mSocket.mOutbound) == [] ==> err == 0 && sent == mToSend
    {
      err, sent := mSocket.Send(mCurrentSendMsg.value.frame, mSent, mToSend);
    }

    method Advance(sent: nat)
      requires !mClosed && Accepted() && Waiting() && sent <= mToSend
      requires mSocket.mEmitted == Concat(Frames(mCompleted)) + mToSendMsg[0].frame[..mSent + sent]
      modifies this`mToSend, this`mSent, this`mCurrentSendMsg, this`mToSendMsg, this`mFreed, this`mCompleted
      ensures WriterOk() && Remaining() == old(Remaining()) - sent
      ensures Progress() == AfterSend(old(mCompleted), old(mToSendMsg), old(mSent), sent)
    {
      PrefixOfAccepted(mCompleted, mToSendMsg, mSent + sent);
      mSent := mSent + sent;
      mToSend := mToSend - sent;
      if mToSend == 0 {
        PopFront();
      }
    }

    /** The front frame has been written in full. */
    method PopFront()
      requires !mClosed && Accepted() && mToSendMsg != [] && mSent == |mToSendMsg[0].frame|
      requires mSocket.mEmitted == Concat(Frames(mCompleted)) + mToSendMsg[0].frame[..mSent]
      modifies this`mToSend, this`mSent, this`mCurrentSendMsg, this`mToSendMsg, this`mFreed, this`mCompleted
      ensures WriterOk() && Remaining() == old(Remaining())
      ensures Progress() == (old(mCompleted) + [old(mToSendMsg[0])], old(mToSendMsg[1..]), 0)
    {
      hide Concat, Frames;
      var msg := mToSendMsg[0];
      ghost var rest := mToSendMsg[1..];
      assert mToSendMsg == [msg] + rest && msg.frame[..mSent] == msg.frame;
      PrefixOfAccepted(mCompleted, mToSendMsg, mSent);
      FramesSnoc(mCompleted, msg);
      FramesCons(msg, rest);
      mToSendMsg := mToSendMsg[1..];
      mFreed := mFreed + [msg];
      mCompleted := mCompleted + [msg];
      assert mCompleted + mToSendMsg == old(mCompleted) + ([msg] + rest);
      ResetSend();
    }

    /** The writer's progress: parcels completed, parcels queued, bytes sent of the front one. */
    function Progress(): (seq<Parcel>, seq<Parcel>, int)
      reads this
    {
      (mCompleted, mToSendMsg, mSent)
    }

    predicate Stalls()
      reads this, mSocket
    {
      !mClosed && mToSendMsg != [] && mSocket.WouldStall()
    }

    /** The writable event. On a socket that would block the byte counts go wrong by one; otherwise the
        writer's invariant is kept. Nothing is emitted once the connection is closed. */
    method WriteData() returns (err: nat)
      requires SocketOk() && WriterOk()
      modifies this`mClosed, this`mToSend, this`mSent, this`mCurrentSendMsg, this`mToSendMsg, this`mFreed,
               this`mCompleted
      modifies mSocket`mOutbound, mSocket`mEmitted, mSocket`mError, mSocket`mClosed, mLogicService`mPosted
      ensures SocketOk() && (WriterOk() <==> !old(Stalls()))
      ensures old(mSocket.mEmitted) <= mSocket.mEmitted
      ensures old(mClosed) ==> mClosed && err == EINVAL && mSocket.mEmitted == old(mSocket.mEmitted)
      ensures !old(mClosed) ==> (err != 0 <==> mClosed)
      ensures mLogicService.mPosted == old(mLogicService.mPosted) +
                if mLogicService.mRunning && !old(mClosed) then Drop(mConnID, err) else []
      ensures !old(Stalls()) && !mClosed ==>
                |mSocket.mEmitted| - |old(mSocket.mEmitted)| == old(Remaining()) - Remaining()
      ensures !old(Stalls()) && !mClosed ==>
                var n := |mSocket.mEmitted| - |old(mSocket.mEmitted)|;
                && n <= (if old(mToSendMsg) == [] then 0 else |old(mToSendMsg[0].frame)| - old(mSent))
                && Progress() == AfterSend(old(mCompleted), old(mToSendMsg), old(mSent), n)
      ensures !old(mClosed) && old(mToSendMsg) != [] && old(mSocket.mOutbound) == [] ==>
                Remaining() < old(Remaining()) && !mClosed
      ensures mClosed && !old(mClosed) ==> mToSendMsg == []
    {
      assert AfterSend(mCompleted, [], mSent, 0) == (mCompleted, [], mSent);
      hide Concat, Frames, AfterSend, Accepted;
      if mClosed || mSocket.NoOK() {
        return EINVAL;
      }
      if mCurrentSendMsg == None {
        var hasMsg := InitNextSend();
        if !hasMsg {
          return 0;
        }
      }
      err := WriteFront();
    }

    /** The part of WriteData that sends. */
    method WriteFront() returns (err: nat)
      requires SocketOk() && WriterOk() && !mClosed && mCurrentSendMsg.Some?
      modifies this`mClosed, this`mToSend, this`mSent, this`mCurrentSendMsg, this`mToSendMsg, this`mFreed,
               this`mCompleted
      modifies mSocket`mOutbound, mSocket`mEmitted, mSocket`mError, mSocket`mClosed, mLogicService`mPosted
      ensures SocketOk() && (WriterOk() <==> !old(mSocket.WouldStall()))
      ensures old(mSocket.mEmitted) <= mSocket.mEmitted && (err != 0 <==> mClosed)
      ensures mLogicService.mPosted == old(mLogicService.mPosted)
              + if mLogicService.mRunning then Drop(mConnID, err) else []
      ensures !old(mSocket.WouldStall()) && !mClosed ==>
                |mSocket.mEmitted| - |old(mSocket.mEmitted)| == old(Remaining()) - Remaining()
      ensures !old(mSocket.WouldStall()) && !mClosed ==>
                var n := |mSocket.mEmitted| - |old(mSocket.mEmitted)|;
                0 <= n <= old(mToSend) && Progress() == AfterSend(old(mCompleted), old(mToSendMsg), old(mSent), n)
      ensures old(mSocket.mOutbound) == [] ==> Remaining() < old(Remaining()) && !mClosed
      ensures mClosed ==> mToSendMsg == []
    {
      hide Concat, Frames, AfterSend;
      ghost var emitted, done, frame := mSocket.mEmitted, Concat(Frames(mCompleted)), mToSendMsg[0].frame;
      var sent;
      err, sent := SendFront();
      if err != 0 {
        assert emitted + [] == emitted;
        Abandon();
        return;
      }
      if sent < 0 {
        assert emitted + [] == emitted;
        Miscount(sent);
        return;
      }
      EmittedMore(done, frame, mSent, sent);
      Advance(sent);
    }

    /** What WriteData makes of a count of -1. */
    method Miscount(sent: int)
      requires SocketOk() && WriterOk() && !mClosed && mCurrentSendMsg.Some? && sent == -1
      modifies this`mToSend, this`mSent
      ensures SocketOk() && !WriterOk()
    {
      mSent := mSent + sent;
      mToSend := mToSend - sent;
      StalledIsWrong();
    }

    /** A failed write closes the connection and reports it. */
    method Abandon()
      requires WriterOk() && !mClosed && mSocket.NoOK()
      modifies this`mClosed, this`mToSend, this`mSent, this`mCurrentSendMsg, this`mToSendMsg, this`mFreed
      modifies mSocket`mClosed, mLogicService`mPosted
      ensures SocketOk() && WriterOk() && mClosed && mToSendMsg == []
      ensures mLogicService.mPosted == old(mLogicService.mPosted)
              + if mLogicService.mRunning then [Dropped(mConnID)] else []
    {
      ResetSend();
      Close();
      ClosedKeepsWriter(old(mToSendMsg), old(mFreed));
      var _ := mLogicService.Enqueue(Dropped(mConnID));
    }

    lemma {:induction false} ClosedKeepsWriter(queue: seq<Parcel>, freed: seq<Parcel>)
      requires mClosed && mToSendMsg == [] && mFreed == freed + queue
      requires multiset(mEnqueued) == multiset(queue) + multiset(freed) && mSocket.mEmitted <= Concat(Frames(mEnqueued))
      ensures WriterOk()
    {
      assert multiset(freed + queue) == multiset(freed) + multiset(queue);
    }

    /** One byte fewer counted than emitted. */
    lemma {:induction false} StalledIsWrong()
      requires !mClosed && mToSendMsg != [] && mCurrentSendMsg == Some(mToSendMsg[0])
      requires -1 <= mSent < |mToSendMsg[0].frame|
      requires mSocket.mEmitted == Concat(Frames(mCompleted)) + mToSendMsg[0].frame[..mSent + 1]
      ensures !WriterOk()
    {
    }

    /** The destructor. */
    method Destroy()
      requires WriterOk()
      modifies this`mToSendMsg, this`mFreed
      ensures mToSendMsg == [] && multiset(mFreed) == multiset(mEnqueued)
    {
      FreeNotSendMsg();
      assert multiset(old(mFreed) + old(mToSendMsg)) == multiset(old(mFreed)) + multiset(old(mToSendMsg));
    }
  }

  lemma {:induction false} EmittedMore(done: bytes, frame: bytes, from: nat, n: nat)
    requires from + n <= |frame|
    ensures (done + frame[..from]) + (if n > 0 then frame[from..from + n] else []) == done + frame[..from + n]
    ensures |done + frame[..from + n]| == |done + frame[..from]| + n
  {
    assert frame[..from] + frame[from..from + n] == frame[..from + n];
  }

  lemma {:induction false} FramesCons(p: Parcel, ps: seq<Parcel>)
    ensures Concat(Frames([p] + ps)) == p.frame + Concat(Frames(ps))
  {
    assert Frames([p] + ps) == [p.frame] + Frames(ps);
    assert ([p.frame] + Frames(ps))[1..] == Frames(ps);
  }

  lemma {:induction false} PrefixOfAccepted(done: seq<Parcel>, queue: seq<Parcel>, n: nat)
    requires queue != [] && n <= |queue[0].frame|
    ensures Concat(Frames(done)) + queue[0].frame[..n] <= Concat(Frames(done + queue))
  {
    assert queue == [queue[0]] + queue[1..];
    FramesConcat(done, queue);
    FramesCons(queue[0], queue[1..]);
  }

  /** What send's acceptance of n bytes makes of the parcels completed, those queued, and the number of
      bytes sent of the first of these. */
  function AfterSend(done: seq<Parcel>, queue: seq<Parcel>, sent: int, n: int): (seq<Parcel>, seq<Parcel>, int) {
    if queue == [] then (done, queue, sent)
    else if sent + n == |queue[0].frame| then (done + [queue[0]], queue[1..], 0)
    else (done, queue, sent + n)
  }

  function Drop(conn: u64, err: nat): seq<Post> {
    if err != 0 then [Dropped(conn)] else []
  }

  lemma {:induction false} ArrivalsStep(conn: u64, before: seq<bytes>, now: seq<bytes>, err: nat)
    requires before <= now
    ensures Arrivals(conn, before) + [] + (Arrivals(conn, now[|before|..]) + Drop(conn, err)) ==
            Arrivals(conn, now) + Drop(conn, err)
  {
  }

  /** For every way the stream is delivered, read events report exactly the frames in it, in order, and
      then a drop, unless an unacceptable length word closed the connection silently. */
  method ReadStream(inbound: seq<Delivery>, connID: u64) returns (posted: seq<Post>)
    requires Tame(Upcoming(inbound))
    ensures posted == Arrivals(connID, Deframe(Upcoming(inbound)).0)
                      + if Short(Deframe(Upcoming(inbound)).1) then [] else [Dropped(connID)]
  {
    var service := new ServiceQueue();
    var sock := new TcpSocket(inbound, []);
    var conn := new TcpConnection(service, sock, connID);
    assert [] + Upcoming(inbound) == Upcoming(inbound);
    var err := 0;
    assert Arrivals(connID, []) + Drop(connID, 0) == [] && sock.Stream() == Upcoming(inbound);
    assert conn.Underway(Upcoming(inbound), 0);
    while !conn.mClosed
      invariant fresh(conn) && fresh(sock) && fresh(service)
      invariant conn.mSocket == sock && conn.mLogicService == service && conn.mConnID == connID
      invariant conn.Underway(Upcoming(inbound), err) && (!conn.mClosed ==> err == 0)
      invariant conn.mCurrentRecvMsg != null ==> fresh(conn.mCurrentRecvMsg) && fresh(conn.mCurrentRecvMsg.mData)
      decreases !conn.mClosed, Work(sock.mInbound)
    {
      hide TcpConnection.Underway, Work, Upcoming;
      err := conn.ReadMore(Upcoming(inbound));
    }
    posted := service.mPosted;
    StreamEnded(sock.mConsumed, Upcoming(sock.mInbound), err);
  }

  /** What was consumed when the reader closed decides what is in the whole stream. */
  lemma {:induction false} StreamEnded(consumed: bytes, later: bytes, err: nat)
    requires if err == 0 then Short(Deframe(consumed).1) else !Short(Deframe(consumed).1) && later == []
    ensures Deframe(consumed + later).0 == Deframe(consumed).0
    ensures Short(Deframe(consumed + later).1) <==> err == 0
  {
    if err == 0 {
      StuckAtWord(consumed, later);
    } else {
      assert consumed + [] == consumed;
    }
  }

  /** The two ends of a connection together: whatever the writer's and the reader's scripts are, once the
      bytes the reader has taken are among those the writer has emitted, it has offered exactly the frames
      of the messages accepted for sending that have wholly arrived, identical and in order. */
  lemma {:induction false} ReaderOffersWritten(w: TcpConnection, r: TcpConnection)
    requires w.WriterOk() && r.ReaderOk() && r.mSocket.mConsumed <= w.mSocket.mEmitted
    requires forall p | p in w.mEnqueued :: WellFramed(p.frame)
    ensures r.mOffered == Frames(w.mEnqueued)[..Whole(Frames(w.mEnqueued), |r.mSocket.mConsumed|)]
  {
    var frames, cut := Frames(w.mEnqueued), |r.mSocket.mConsumed|;
    assert forall f | f in frames :: WellFramed(f);
    DeframeExactly(frames, cut);
    assert Concat(frames)[..cut] == r.mSocket.mConsumed;
  }

  /** A peer that sends the length word 3 and anything after it: the connection closes, and the service
      never hears of it, neither of a frame nor of the drop. */
  method CloseSilently(later: bytes, connID: u64) returns (posted: seq<Post>)
    ensures posted == []
  {
    var stream := BE(4, 3) + later;
    ShortWordFirst(3, later);
    assert [Chunk(stream)][1..] == [] && Upcoming([Chunk(stream)]) == stream + Upcoming([]) == stream;
    posted := ReadStream([Chunk(stream)], connID);
    assert Arrivals(connID, []) + [] == [];
  }
}
