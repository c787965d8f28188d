/** A socket over an abstract byte stream: the environment decides how each call goes. */
module Sockets {
  import opened Octets

  const EINVAL := 22

  /** Error numbers other than the one for "not yet". */
  type Errno = e: nat | e > 0 witness EINVAL

  /** What one recv call meets. An exhausted script, or an empty chunk, is the peer's close. */
  datatype Delivery = Chunk(data: bytes) | NotYet | Failed(err: Errno)

  /** What one send call meets; with an exhausted script everything offered is accepted. */
  datatype Acceptance = Accept(n: nat) | WouldBlock | Refused(err: Errno)

  /** The bytes still to be received before the stream closes or fails. */
  function Upcoming(script: seq<Delivery>): bytes {
    if script == [] then []
    else
      match script[0]
      case Chunk(d) => if d == [] then [] else d + Upcoming(script[1..])
      case NotYet => Upcoming(script[1..])
      case Failed(_) => []
  }

  function Work(script: seq<Delivery>): (n: nat) {
    if script == [] then 0
    else 1 + (if script[0].Chunk? then |script[0].data| else 0) + Work(script[1..])
  }

  /** The script after n bytes of its first chunk were received. */
  function Left(d: bytes, rest: seq<Delivery>, n: nat): seq<Delivery>
    requires n <= |d|
  {
    if n == |d| then rest else [Chunk(d[n..])] + rest
  }

  lemma {:induction false} TakeFrom(d: bytes, rest: seq<Delivery>, n: nat)
    requires 0 < n <= |d|
    ensures Upcoming([Chunk(d)] + rest) == d[..n] + Upcoming(Left(d, rest, n))
    ensures Work(Left(d, rest, n)) < Work([Chunk(d)] + rest)
  {
    assert ([Chunk(d)] + rest)[1..] == rest;
    if n < |d| {
      assert ([Chunk(d[n..])] + rest)[1..] == rest;
      assert d == d[..n] + d[n..];
      Associative(d[..n], d[n..], Upcoming(rest));
    } else {
      assert d[..n] == d;
    }
  }

  /** The signed value of a 32-bit word. */
  function Signed(v: nat): int
  {
    if v < 0x8000_0000 then v else v - 0x1_0000_0000
  }

  class TcpSocket {
    var mPreRecv: bool
    var mClosed: bool
    var mError: nat
    var mInbound: seq<Delivery>
    var mOutbound: seq<Acceptance>
    /** Everything received and everything sent so far. */
    var mConsumed: bytes
    var mEmitted: bytes

    predicate NoOK()
      reads this
    {
      mClosed || mError != 0
    }

    /** All bytes that ever arrive: those received and those to come. */
    function Stream(): bytes
      reads this
    {
      mConsumed + Upcoming(mInbound)
    }

    constructor (inbound: seq<Delivery>, outbound: seq<Acceptance>)
      ensures !NoOK() && !mPreRecv && mConsumed == [] && mEmitted == []
      ensures mInbound == inbound && mOutbound == outbound
    {
      mPreRecv, mClosed, mError := false, false, 0;
      mInbound, mOutbound, mConsumed, mEmitted := inbound, outbound, [], [];
    }

    /** The next recv call fails with an error number. */
    predicate WouldFail()
      reads this
    {
      mInbound != [] && mInbound[0].Failed?
    }

    /** The recv system call: a count, 0 for the peer's close, or -1 with an error number. */
    method SysRecv(buf: array<byte>, start: nat, len: nat) returns (ret: int, errno: nat)
      requires 0 < len && start + len <= buf.Length
      modifies this`mInbound, this`mConsumed, buf
      ensures ret <= len && Stream() == old(Stream())
      ensures mConsumed == old(mConsumed) + if ret > 0 then buf[start..start + ret] else []
      ensures forall i | 0 <= i < buf.Length && !(start <= i < start + ret) :: buf[i] == old(buf[i])
      ensures ret == 0 || (ret < 0 && errno != 0) ==> Upcoming(mInbound) == []
      ensures ret > 0 || (ret < 0 && errno == 0) ==> Work(mInbound) < old(Work(mInbound))
      ensures ret == 0 || (ret < 0 && errno != 0) ==> mInbound == old(mInbound)
      ensures -1 <= ret && (ret < 0 && errno != 0 <==> old(WouldFail()))
    {
      errno := 0;
      if mInbound == [] || mInbound[0] == Chunk([]) {
        return 0, 0;
      }
      match mInbound[0]
      case NotYet =>
        mInbound := mInbound[1..];
        ret := -1;
      case Failed(e) =>
        ret, errno := -1, e;
      case Chunk(d) =>
        ret := if len < |d| then len else |d|;
        forall i | 0 <= i < ret {
          buf[start + i] := d[i];
        }
        TakeFrom(d, mInbound[1..], ret);
        Associative(mConsumed, d[..ret], Upcoming(Left(d, mInbound[1..], ret)));
        assert [Chunk(d)] + mInbound[1..] == mInbound;
        mConsumed := mConsumed + d[..ret];
        mInbound := Left(d, mInbound[1..], ret);
    }

    /** Whatever is there now, at most len bytes; nothing yet is not an error. After a failed call the
        count stays -1. */
    method Recv(buf: array<byte>, start: nat, len: nat) returns (err: nat, received: int)
      requires 0 < len && start + len <= buf.Length
      modifies this`mInbound, this`mConsumed, this`mClosed, this`mError, buf
      ensures received <= len && Stream() == old(Stream())
      ensures mConsumed == old(mConsumed) + if received > 0 then buf[start..start + received] else []
      ensures forall i | 0 <= i < buf.Length && !(start <= i < start + received) :: buf[i] == old(buf[i])
      ensures err == 0 ==> received >= 0
      ensures err != 0 ==> NoOK() && received == if old(!NoOK() && WouldFail()) then -1 else 0
      ensures err == 0 ==> !NoOK() && Work(mInbound) < old(Work(mInbound))
      ensures err != 0 && !old(NoOK()) ==> Upcoming(mInbound) == []
    {
      received := 0;
      if NoOK() {
        assert mConsumed + [] == mConsumed;
        return EINVAL, 0;
      }
      var errno;
      received, errno := SysRecv(buf, start, len);
      err := 0;
      if received < 0 {
        err := errno;
        if errno == 0 {
          received := 0;
        } else {
          mError := errno;
        }
      } else if received == 0 {
        err := EINVAL;
        mClosed := true;
      }
    }

    /** Exactly len bytes, waiting for them, unless the stream ends first. */
    method RecvAll(buf: array<byte>, len: nat) returns (err: nat)
      requires 0 < len == buf.Length
      modifies this`mInbound, this`mConsumed, this`mClosed, this`mError, buf
      ensures Stream() == old(Stream()) && old(mConsumed) <= mConsumed
      ensures err == 0 ==> !NoOK() && mConsumed == old(mConsumed) + buf[..]
      ensures err != 0 ==> NoOK() && |mConsumed| < |old(mConsumed)| + len
      ensures Work(mInbound) <= old(Work(mInbound))
      ensures err != 0 && !old(NoOK()) ==> Upcoming(mInbound) == []
    {
      if NoOK() {
        return EINVAL;
      }
      var recved := 0;
      while recved < len
        invariant 0 <= recved <= len && !NoOK() && Stream() == old(Stream())
        invariant mConsumed == old(mConsumed) + buf[..recved] && Work(mInbound) <= old(Work(mInbound))
        decreases Work(mInbound)
      {
        var ret, errno := SysRecv(buf, recved, len - recved);
        if ret < 0 && errno != 0 {
          mError := errno;
          return errno;
        } else if ret == 0 {
          mClosed := true;
          return EINVAL;
        } else if ret > 0 {
          recved := recved + ret;
        }
      }
      err := 0;
    }

    /** Reads the length word of the next frame. */
    method PreRecv() returns (err: nat, len: int)
      requires !mPreRecv
      modifies this`mInbound, this`mConsumed, this`mClosed, this`mError, this`mPreRecv
      ensures Stream() == old(Stream()) && mPreRecv == !old(NoOK()) && old(mConsumed) <= mConsumed
      ensures err == 0 ==> !NoOK() && |mConsumed| == |old(mConsumed)| + 4
      ensures err == 0 ==> len == Signed(FromBE(mConsumed[|old(mConsumed)|..]))
      ensures err != 0 ==> NoOK() && len == 0 && |mConsumed| < |old(mConsumed)| + 4
      ensures Work(mInbound) <= old(Work(mInbound))
      ensures err != 0 && !old(NoOK()) ==> Upcoming(mInbound) == []
    {
      if NoOK() {
        return EINVAL, 0;
      }
      len := 0;
      mPreRecv := true;
      var buf := new byte[4];
      err := RecvAll(buf, 4);
      if err == 0 {
        assert buf[..] == mConsumed[|old(mConsumed)|..];
        len := Signed(FromBE(buf[..]));
      }
    }

    predicate WouldStall()
      reads this
    {
      mOutbound != [] && mOutbound[0].WouldBlock?
    }

    /** Offers data[start..start + len]. Accepting fewer bytes than offered is normal; on a socket that
        would block the count stays -1 although no error is reported. */
    method Send(data: bytes, start: nat, len: nat) returns (err: nat, sent: int)
      requires start + len <= |data|
      modifies this`mOutbound, this`mEmitted, this`mError
      ensures err == 0 <==> !NoOK()
      ensures err == 0 ==> sent <= len && if old(WouldStall()) then sent == -1 else sent >= 0
      ensures err == 0 ==> mEmitted == old(mEmitted) + if sent > 0 then data[start..start + sent] else []
      ensures err != 0 ==> mEmitted == old(mEmitted)
      ensures old(!NoOK() && WouldStall()) ==> err == 0
      ensures old(!NoOK() && mOutbound == []) ==> err == 0 && sent == len
      ensures old(!NoOK() && mOutbound != [] && mOutbound[0] == Accept(len)) ==> err == 0 && sent == len
    {
      if NoOK() {
        return EINVAL, 0;
      }
      err, sent := 0, len;
      if mOutbound != [] {
        match mOutbound[0]
        case Accept(n) => sent := if n < len then n else len;
        case WouldBlock => sent := -1;
        case Refused(e) =>
          err, sent := e, -1;
          mError := e;
        mOutbound := mOutbound[1..];
      }
      if sent > 0 {
        mEmitted := mEmitted + data[start..start + sent];
      }
    }

    method Close()
      modifies this`mClosed
      ensures mClosed
    {
      mClosed := true;
    }
  }
}
