/** The client object over everything it receives. */
module ClientRuns {
  import opened Octets
  import opened Codec
  import opened MsgBuffer
  import opened Chat
  import opened ReplicaSpec
  import opened Coherence
  import opened KeeperRuns
  import opened Delivery
  import opened RoomKeeping
  import opened Display
  import opened ChatClient
  import opened Transcript

  /** The message into which a payload was received. */
  method MsgWith(payload: bytes) returns (msg: Msg)
    ensures fresh(msg) && fresh(msg.mData) && msg.Valid() && msg.Unread() == payload
  {
    msg := new Msg.Sized(|payload|);
    forall i | 0 <= i < |payload| {
      msg.mData[HEAD_LENGTH + i] := payload[i];
    }
    assert msg.Unread() == payload;
  }

  ghost predicate AllRelayable(ps: seq<bytes>) {
    forall p | p in ps :: Relayable(p)
  }

  /** What the client holds and has shown, with what the rest will add, is what all payloads make. */
  ghost predicate Attending(client: Client, rest: seq<bytes>, all: (Replica, seq<Shown>))
    reads client, client.mUser, client.mCurrentRoom, client.mRooms.Values, client.mOnlines.Values
  {
    && client.Valid() && ReceiveAll(client.View(), rest) == Some(all.0)
    && ShowAll(client.mUserName, client.View(), rest).Some?
    && client.mShown + ShowAll(client.mUserName, client.View(), rest).value == all.1
  }

  lemma {:induction false} NextPayload(me: bytes, c: Replica, ps: seq<bytes>)
    requires ps != [] && !c.exited && ReceiveAll(c, ps).Some? && ShowAll(me, c, ps).Some?
    ensures Receive(c, ps[0]).Some? && Shows(me, c.rooms, ps[0]).Some?
    ensures ReceiveAll(Receive(c, ps[0]).value, ps[1..]) == ReceiveAll(c, ps)
    ensures var rest := ShowAll(me, Receive(c, ps[0]).value, ps[1..]);
            rest.Some? && ShowAll(me, c, ps).value == Shows(me, c.rooms, ps[0]).value + rest.value
  {
    hide Receive, Shows;
  }

  lemma {:induction false} NothingLeft(me: bytes, c: Replica, ps: seq<bytes>)
    requires ps == [] || c.exited
    ensures ReceiveAll(c, ps) == Some(c) && ShowAll(me, c, ps) == Some([])
    decreases |ps|
  {
    if ps != [] {
      NothingLeft(me, c, ps[1..]);
    }
  }

  method AttendOne(client: Client, payload: bytes, ghost rest: seq<bytes>, ghost all: (Replica, seq<Shown>))
    requires Attending(client, rest, all) && !client.mExited && rest != [] && rest[0] == payload && Relayable(payload)
    modifies client`mExited, client`mOnlines, client`mRooms, client`mCdkRunning, client`mShown
    modifies client.mUser, client.mCurrentRoom, client.mNetService
    ensures Attending(client, rest[1..], all)
  {
    ghost var c, shown := client.View(), client.mShown;
    NextPayload(client.mUserName, c, rest);
    hide Receive, Shows, ReceiveAll, ShowAll, Relayable;
    var msg := MsgWith(payload);
    assert client.View() == c;
    client.RecvMessage(msg);
    Associative(shown, Shows(client.mUserName, c.rooms, payload).value,
                ShowAll(client.mUserName, client.View(), rest[1..]).value);
  }

  /** Whatever payloads reach a new client: handling them one after another, until it exits, leaves its objects as
      the fold over them says, and its window with exactly what they show. */
  method Attend(userName: bytes, connId: u64, netService: SendQueue, payloads: seq<bytes>) returns (client: Client)
    requires ReceiveAll(Start(), payloads).Some? && ShowAll(userName, Start(), payloads).Some?
    requires AllRelayable(payloads)
    modifies netService
    ensures fresh(client) && client.Valid() && Some(client.View()) == ReceiveAll(Start(), payloads)
    ensures Some(client.mShown) == ShowAll(userName, Start(), payloads)
  {
    client := new Client(userName, connId, netService);
    ghost var all := (ReceiveAll(Start(), payloads).value, ShowAll(userName, Start(), payloads).value);
    var i := 0;
    assert payloads[0..] == payloads;
    Alone(all.1);
    while i < |payloads| && !client.mExited
      invariant fresh(client) && fresh(client.mUser) && fresh(client.mCurrentRoom)
      invariant client.mNetService == netService && client.mUserName == userName
      invariant i <= |payloads| && Attending(client, payloads[i..], all)
    {
      hide Attending, Relayable;
      assert payloads[i] in payloads && payloads[i..][0] == payloads[i] && payloads[i..][1..] == payloads[i + 1..];
      AttendOne(client, payloads[i], payloads[i..], all);
      i := i + 1;
    }
    NothingLeft(userName, client.View(), payloads[i..]);
    Alone(client.mShown);
  }

  lemma {:induction false} ServerPayloadsRelayable(bodies: seq<Reply>)
    requires forall b | b in bodies :: b.Fits()
    ensures AllRelayable(Payloads(bodies))
  {
    forall p | p in Payloads(bodies)
      ensures Relayable(p)
    {
      var i :| 0 <= i < |bodies| && Payloads(bodies)[i] == p;
      assert bodies[i] in bodies;
      FitCounts(bodies[i]);
      NotALocal(bodies[i]);
    }
  }

  lemma {:induction false} NotALocal(body: Reply)
    requires AllStorable(body.Fields())
    ensures Relayable(body.Encode())
  {
    hide EncodeAll, TakeField, UserFields, UsersFields, RoomFields, RoomsFields;
    TypeWord(body);
  }

  /** A client object at the other end of a connection of a server run: its window shows exactly what the record
      says, and the client of a logged-on user that has not exited shows exactly the server's state. */
  method Watch(ghost es: seq<Event>, u: u64, userName: bytes, netService: SendQueue, payloads: seq<bytes>)
    returns (client: Client)
    requires |es| < 0xFFFF_FFFE && Run(es).Some? && payloads == Payloads(To(Run(es).value.1, u))
    requires forall m | m in Run(es).value.1 && m.conn == u :: m.body.Fits()
    modifies netService
    ensures fresh(client) && client.Valid() && client.mShown == Expected(es, u, userName)
    ensures u in Run(es).value.0.users ==> Coherent(Run(es).value.0, client.View(), u)
    ensures client.mExited <==> Gone(es, u)
  {
    RunReceived(es, u, userName);
    hide Run, Coherent, Expected, Gone, ReceiveAll, ShowAll;
    client := Attend(userName, u, netService, payloads);
  }

  lemma {:induction false} RunReceived(es: seq<Event>, u: u64, me: bytes)
    requires |es| < 0xFFFF_FFFE && Run(es).Some?
    requires forall m | m in Run(es).value.1 && m.conn == u :: m.body.Fits()
    ensures var ps := Payloads(To(Run(es).value.1, u));
            var c := ReceiveAll(Start(), ps);
            && c.Some? && AllRelayable(ps) && ShowAll(me, Start(), ps) == Some(Expected(es, u, me))
            && (u in Run(es).value.0.users ==> Coherent(Run(es).value.0, c.value, u))
            && (c.value.exited <==> Gone(es, u))
  {
    var log := Run(es).value.1;
    RunConsistent(es);
    forall b | b in To(log, u)
      ensures b.Fits() && Consistent(b)
    {
      ToMembers(log, u, b);
    }
    ServerPayloadsRelayable(To(log, u));
    ReceiveAllEncoded(Start(), To(log, u));
    WireWindowExactly(es, u, me);
    WindowExactly(es, u, me);
    if u in Run(es).value.0.users {
      ViewCoherence(es, u);
    }
  }
}
