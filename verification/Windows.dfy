/** The server's threads, the wire and a client's window together. */
module Windows {
  import opened Octets
  import opened Chat
  import opened KeeperRuns
  import opened ReplicaSpec
  import opened Coherence
  import opened Framing
  import opened Pipeline
  import opened Delivered
  import opened Wires
  import opened Transcript
  import opened EndToEnd

  /** What is shown of the first messages comes first in what is shown of all. */
  lemma {:induction false} FirstShows(me: bytes, bodies: seq<Reply>, k: nat)
    requires k <= |bodies|
    ensures BodiesShow(me, Start(), bodies[..k]) <= BodiesShow(me, Start(), bodies)
  {
    ShowConcat(me, Start(), bodies[..k], bodies[k..]);
    assert bodies[..k] + bodies[k..] == bodies;
  }

  /** At any time, however threads, queues, sends and reads have gone, the window of the client at the other end
      of a connection shows a first part of what the record of the handled events says. */
  lemma {:induction false} WindowOfConnection(steps: seq<Step>, u: u64, r: Connections.TcpConnection, me: bytes)
    requires Exec(steps).Some? && Running(Exec(steps).value) && Early(Exec(steps).value)
    requires AllFit(Mine(Exec(steps).value.sent, u))
    requires r.ReaderOk() && r.mSocket.mConsumed <= LineOf(Exec(steps).value, u).emitted
    ensures var shown := ShowAll(me, Start(), PayloadsIn(r.mOffered));
            shown.Some? && shown.value <= Expected(Exec(steps).value.events, u, me)
  {
    var s := Exec(steps).value;
    OfferedOfConnection(steps, u, r);
    var k, all := Whole(FramesOf(Mine(s.sent, u)), |r.mSocket.mConsumed|), To(Run(s.events).value.1, u);
    hide Exec, Running, AllFit, Expected;
    ShowAllEncoded(me, Start(), all[..k]);
    FirstShows(me, all, k);
    WindowExactly(s.events, u, me);
  }

  /** When nothing is ahead of the connection and its reader has taken all that was emitted, the window shows all
      of that. */
  lemma {:induction false} SettledWindow(steps: seq<Step>, u: u64, r: Connections.TcpConnection, me: bytes)
    requires Exec(steps).Some? && Running(Exec(steps).value) && Early(Exec(steps).value)
    requires u in Exec(steps).value.open && Ahead(Exec(steps).value, u) == []
    requires AllFit(Mine(Exec(steps).value.sent, u))
    requires r.ReaderOk() && r.mSocket.mConsumed == LineOf(Exec(steps).value, u).emitted
    ensures ShowAll(me, Start(), PayloadsIn(r.mOffered)) == Some(Expected(Exec(steps).value.events, u, me))
  {
    var s := Exec(steps).value;
    OfferedOfConnection(steps, u, r);
    AllArrived(steps, u, r);
    var k, all := Whole(FramesOf(Mine(s.sent, u)), |r.mSocket.mConsumed|), To(Run(s.events).value.1, u);
    assert all[..k] == all;
    hide Exec, Running, AllFit, Expected;
    ShowAllEncoded(me, Start(), all);
    WindowExactly(s.events, u, me);
  }
}
