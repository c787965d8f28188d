/** User and Room as the program has them: objects that are updated, encoded and decoded in place. */
module Structs {
  import opened Octets
  import opened Codec
  import opened MsgBuffer
  import opened Chat

  class User {
    var mName: bytes
    var mIP: bytes
    var mPort: u16
    var mID: u64
    var mRoomId: u32

    function View(): UserRec
      reads this
    {
      UserRec(mName, mIP, mPort, mID, mRoomId)
    }

    constructor (name: bytes, ip: bytes, port: u16, connId: u64)
      ensures View() == UserRec(name, ip, port, connId, INVALID_ROOM_ID)
    {
      mName, mIP, mPort, mID, mRoomId := name, ip, port, connId, INVALID_ROOM_ID;
    }

    method SetRoomId(roomId: u32)
      modifies this`mRoomId
      ensures View() == old(View()).(roomId := roomId)
    {
      mRoomId := roomId;
    }

    method Encode(msg: Msg)
      requires msg.Valid() && msg.mReadOffset <= msg.mWriteOffset && Writable(msg.Extent(), UserFields(View()))
      modifies msg, msg.mData
      ensures msg.Valid() && msg.mReadOffset <= msg.mWriteOffset
      ensures msg.Frame() == old(msg.Frame()) + EncodeAll(UserFields(View()))
      ensures msg.Extent() == AfterWrites(old(msg.Extent()), Widths(UserFields(View()))).value
      ensures msg.mData == old(msg.mData) || fresh(msg.mData)
    {
      WriteAll(msg, [Str(mName), Str(mIP), U16(mPort), U64(mID), U32(mRoomId)]);
    }

    method Decode(msg: Msg)
      requires msg.Valid() && TakeUser(msg.Unread()).Some?
      modifies this, msg`mReadOffset
      ensures msg.Valid() && Some((View(), msg.Unread())) == TakeUser(old(msg.Unread()))
    {
      var u := ReadUser(msg);
      mName, mIP, mPort, mID, mRoomId := u.name, u.ip, u.port, u.id, u.roomId;
    }
  }

  method ReadUser(msg: Msg) returns (u: UserRec)
    requires msg.Valid() && TakeUser(msg.Unread()).Some?
    modifies msg`mReadOffset
    ensures msg.Valid() && Some((u, msg.Unread())) == TakeUser(old(msg.Unread()))
  {
    UserTaken(msg.Unread());
    var fs := ReadAll(msg, USER_KINDS);
    u := UserRec(fs[0].s, fs[1].s, fs[2].h, fs[3].d, fs[4].w);
  }

  class Room {
    var mID: u32
    var mName: bytes
    var mPassWord: bytes
    var mUsers: set<u64>

    function View(): RoomRec
      reads this
    {
      RoomRec(mID, mName, mPassWord, mUsers)
    }

    constructor (id: u32, name: bytes, passwd: bytes)
      ensures View() == RoomRec(id, name, passwd, {})
    {
      mID, mName, mPassWord, mUsers := id, name, passwd, {};
    }

    method IsPasswdOkay(passwd: bytes) returns (okay: bool)
      ensures okay <==> passwd == mPassWord
    {
      okay := mPassWord == passwd;
    }

    method IsUserIn(userId: u64) returns (found: bool)
      ensures found <==> userId in mUsers
    {
      found := userId in mUsers;
    }

    method Add(userId: u64)
      modifies this`mUsers
      ensures mUsers == old(mUsers) + {userId}
    {
      var found := IsUserIn(userId);
      if found {
        return;
      }
      mUsers := mUsers + {userId};
    }

    method HandleUserLeave(userId: u64)
      modifies this`mUsers
      ensures mUsers == old(mUsers) - {userId}
    {
      var found := IsUserIn(userId);
      if !found {
        return;
      }
      mUsers := mUsers - {userId};
    }

    method Encode(msg: Msg)
      requires msg.Valid() && msg.mReadOffset <= msg.mWriteOffset && Writable(msg.Extent(), RoomFields(View()))
      modifies msg, msg.mData
      ensures msg.Valid() && msg.mReadOffset <= msg.mWriteOffset
      ensures msg.Frame() == old(msg.Frame()) + EncodeAll(RoomFields(View()))
      ensures msg.Extent() == AfterWrites(old(msg.Extent()), Widths(RoomFields(View()))).value
      ensures msg.mData == old(msg.mData) || fresh(msg.mData)
    {
      var iter := Ascending(mUsers);
      ghost var head, ids := RoomHead(View()), IdFields(iter);
      WritableSplit(msg.Extent(), head, ids);
      WriteAll(msg, [U32(mID), Str(mName), U32(Low32(|mUsers|))]);
      ghost var start, before := msg.Extent(), msg.Frame();
      for i := 0 to |iter|
        invariant msg.mData == old(msg.mData) || fresh(msg.mData)
        invariant msg.Valid() && msg.mReadOffset <= msg.mWriteOffset
        invariant Writable(msg.Extent(), ids[i..])
        invariant AfterWrites(start, Widths(ids)) == AfterWrites(msg.Extent(), Widths(ids[i..]))
        invariant msg.Frame() == before + EncodeAll(ids[..i])
      {
        WritableAt(msg.Extent(), ids, i);
        EncodeSnoc(before, ids, i);
        msg.Write(U64(iter[i]));
      }
      assert ids[..|iter|] == ids;
      EncodeAllConcat(head, ids);
      Associative(old(msg.Frame()), EncodeAll(head), EncodeAll(ids));
    }

    /** Decoded members are inserted; those already there stay. */
    method Decode(msg: Msg)
      requires msg.Valid() && TakeRoom(msg.Unread()).Some?
      modifies this, msg`mReadOffset
      ensures msg.Valid()
      ensures var (r, rest) := TakeRoom(old(msg.Unread())).value;
              msg.Unread() == rest && View() == RoomRec(r.id, r.name, old(mPassWord), old(mUsers) + r.users)
    {
      RoomKinds(msg.Unread());
      var fs := ReadAll(msg, ROOM_KINDS);
      mID, mName := fs[0].w, fs[1].s;
      DecodeUsers(msg, fs[2].w);
    }

    method DecodeUsers(msg: Msg, count: u32)
      requires msg.Valid() && TakeIds(count, msg.Unread()).Some?
      modifies this`mUsers, msg`mReadOffset
      ensures msg.Valid()
      ensures var (ids, rest) := TakeIds(count, old(msg.Unread())).value;
              msg.Unread() == rest && mUsers == old(mUsers) + Members(ids)
    {
      ghost var ids := TakeIds(count, msg.Unread()).value;
      for i := 0 to count
        invariant msg.Valid() && TakeIds(count - i, msg.Unread()).Some?
        invariant TakeIds(count - i, msg.Unread()).value.1 == ids.1
        invariant mUsers + Members(TakeIds(count - i, msg.Unread()).value.0) == old(mUsers) + Members(ids.0)
      {
        TakeIdsCons(count - i, msg.Unread());
        var userId := msg.Read(KU64);
        mUsers := mUsers + {userId.d};
      }
      assert TakeIds(0, msg.Unread()).value == ([], msg.Unread());
    }
  }
}
