/** A connection object takes the steps that the state machine takes for its connection. */
module ConnectionSteps {
  import opened Octets
  import opened Framing
  import opened Connections
  import opened Pipeline
  import opened ConnectionOrder
  import opened Wires

  /** The object has completed, queued and begun the frames that the state has for connection u. */
  ghost predicate Matches(w: TcpConnection, s: State, u: u64)
    reads w, w.mSocket
  {
    && u in s.open && !w.mClosed && w.SocketOk() && w.WriterOk()
    && Frames(w.mCompleted) == FramesOf(Mine(s.delivered, u))
    && Frames(w.mToSendMsg) == FramesOf(Mine(s.out, u))
    && w.mSent == LineOf(s, u).part
  }

  /** Then both have emitted the same bytes. */
  lemma {:induction false} MatchesEmits(w: TcpConnection, s: State, u: u64)
    requires Matches(w, s, u) && OpenOk(s, u)
    ensures w.mSocket.mEmitted == LineOf(s, u).emitted
  {
    var queue := Mine(s.out, u);
    if queue != [] {
      assert Frames(w.mToSendMsg)[0] == FramesOf(queue)[0];
      assert queue[0].Bytes()[..0] == [];
    }
    Alone(Concat(FramesOf(Mine(s.delivered, u))));
  }

  lemma {:induction false} MineAfterWrite(s: State, u: u64, n: nat)
    requires n <= Offered(s, u)
    ensures var t := Written(s, u, n);
            (Mine(t.delivered, u), Mine(t.out, u)) ==
            if Completes(s, u, n) then (Mine(s.delivered, u) + [Mine(s.out, u)[0]], Mine(s.out, u)[1..])
            else (Mine(s.delivered, u), Mine(s.out, u))
  {
    if Completes(s, u, n) {
      MineMembers(s.out, u);
      assert Mine(s.out, u)[0] in Mine(s.out, u);
      MineSnoc(s.delivered, Mine(s.out, u)[0], u);
      MineWithoutFirst(s.out, u, u);
    }
  }

  /** The two notions of progress agree. */
  lemma {:induction false} SameProgress(done: seq<Parcel>, queue: seq<Parcel>, sent: nat, n: nat, s: State, u: u64)
    requires Frames(done) == FramesOf(Mine(s.delivered, u)) && Frames(queue) == FramesOf(Mine(s.out, u))
    requires sent == LineOf(s, u).part && u in s.open && OpenOk(s, u)
    requires n <= if queue == [] then 0 else |queue[0].frame| - sent
    ensures n <= Offered(s, u)
    ensures var (done2, queue2, sent2) := AfterSend(done, queue, sent, n);
            var t := Written(s, u, n);
            && Frames(done2) == FramesOf(Mine(t.delivered, u)) && Frames(queue2) == FramesOf(Mine(t.out, u))
            && sent2 == LineOf(t, u).part
  {
    var ours := Mine(s.out, u);
    if queue != [] {
      assert Frames(queue)[0] == FramesOf(ours)[0];
      assert Frames(queue[1..]) == Frames(queue)[1..];
      assert FramesOf(ours[1..]) == FramesOf(ours)[1..];
      assert Frames(done + [queue[0]]) == Frames(done) + [queue[0].frame];
      assert FramesOf(Mine(s.delivered, u) + [ours[0]]) == FramesOf(Mine(s.delivered, u)) + [ours[0].Bytes()];
    }
    MineAfterWrite(s, u, n);
    WrittenLine(s, u, n, u);
  }

  lemma {:induction false} WrittenOpen(s: State, u: u64, n: nat)
    requires n <= Offered(s, u)
    ensures Written(s, u, n).open == s.open
  {
  }

  /** WriteData is the state machine's write, for the number of bytes that send accepted; when it fails, the
      queue is emptied. */
  method WriteData(w: TcpConnection, ghost s: State, ghost u: u64) returns (err: nat, ghost n: nat)
    requires Matches(w, s, u) && OpenOk(s, u) && !w.Stalls()
    modifies w, w.mSocket, w.mLogicService
    ensures if w.mClosed then w.mToSendMsg == [] && err != 0 else n <= Offered(s, u) && Matches(w, Written(s, u, n), u)
  {
    hide Concat, AfterSend, Written, OpenOk;
    ghost var done, queue, sent := w.mCompleted, w.mToSendMsg, w.mSent;
    ghost var before := |w.mSocket.mEmitted|;
    err := w.WriteData();
    n := |w.mSocket.mEmitted| - before;
    if !w.mClosed {
      SameProgress(done, queue, sent, n, s, u);
      WrittenOpen(s, u, n);
    }
  }

  lemma {:induction false} HandedFrames(queue: seq<Parcel>, msg: Parcel, s: State, c: Ctx)
    requires Frames(queue) == FramesOf(Mine(s.out, c.conn)) && msg.frame == c.Bytes()
    ensures Frames(queue + [msg]) == FramesOf(Mine(s.out + [c], c.conn))
  {
    MineSnoc(s.out, c, c.conn);
    assert Frames(queue + [msg]) == Frames(queue) + [msg.frame];
    assert FramesOf(Mine(s.out, c.conn) + [c]) == FramesOf(Mine(s.out, c.conn)) + [c.Bytes()];
  }

  /** Enqueue is the state machine's hand-over. */
  method Enqueue(w: TcpConnection, msg: Parcel, ghost s: State, ghost c: Ctx)
    requires Matches(w, s, c.conn) && msg.frame == c.Bytes() != []
    modifies w`mToSendMsg, w`mEnqueued
    ensures Matches(w, s.(out := s.out + [c]), c.conn)
  {
    HandedFrames(w.mToSendMsg, msg, s, c);
    hide TcpConnection.WriterOk, Concat, Frames, FramesOf, Mine;
    w.Enqueue(msg);
  }
}
