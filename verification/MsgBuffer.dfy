/** The message buffer: an 8-byte head (length word, unused word) followed by the payload.
    `Shape` tracks how much memory is really allocated, because the growth routine does not
    do what its callers expect of it. */
module MsgBuffer {
  import opened Octets
  import opened Codec

  const HEAD_LENGTH: nat := 8
  const PAGE: nat := 4096
  const INT_MAX: nat := 0x7FFF_FFFF

  // ---------------------------------------------------------------- memory safety of writes

  /** mMallocSize, the bytes really allocated, and mWriteOffset. */
  datatype Shape = Shape(mallocSize: nat, memory: nat, offset: nat)

  function FreshShape(): Shape {
    Shape(PAGE, PAGE, 0)
  }

  /** The room asked of malloc when the increment exceeds the recorded size. */
  function Wanted(mallocSize: nat, size: nat): (n: nat) {
    var want := if size < 2 * mallocSize then 2 * mallocSize else size;
    want + want % PAGE
  }

  /** `LeftSize() < n` compares a signed with an unsigned number: a negative rest passes as huge. */
  predicate LooksShort(s: Shape, n: nat) {
    0 <= s.mallocSize - s.offset - HEAD_LENGTH < n
  }

  predicate Grows(s: Shape, n: nat) {
    LooksShort(s, n) && n > s.mallocSize
  }

  /** One memcpy of n bytes at the write offset; None when it leaves the allocation or int. */
  function AfterWrite(s: Shape, n: nat): Option<Shape> {
    if s.offset + HEAD_LENGTH + n > INT_MAX then None
    else if Grows(s, n) && Wanted(s.mallocSize, n) > INT_MAX then None
    else
      var memory := if Grows(s, n) then 8 * Wanted(s.mallocSize, n) else s.memory;
      if s.offset + HEAD_LENGTH + n <= memory
      then Some(Shape(s.mallocSize, memory, s.offset + n))
      else None
  }

  function AfterWrites(s: Shape, ns: seq<nat>): Option<Shape>
    decreases |ns|
  {
    if ns == [] then Some(s)
    else
      match AfterWrite(s, ns[0])
      case None => None
      case Some(t) => AfterWrites(t, ns[1..])
  }

  function Sum(ns: seq<nat>): (n: nat) {
    if ns == [] then 0 else ns[0] + Sum(ns[1..])
  }

  lemma {:induction false} SumTake(ns: seq<nat>, k: nat)
    requires k < |ns|
    ensures Sum(ns[..k]) + ns[k] + Sum(ns[k + 1..]) == Sum(ns)
  {
    if k == 0 {
      assert ns[..k] == [];
    } else {
      SumTake(ns[1..], k - 1);
      assert ns[..k][1..] == ns[1..][..k - 1];
      assert ns[1..][k - 1 + 1..] == ns[k + 1..];
    }
  }

  /** The size that a write of n bytes, more than a page, asks for: two pages, or n and again what of it is in
      excess of whole pages. */
  function Requested(n: nat): nat {
    if n < 8192 then 8192 else n + n % 4096
  }

  /** Write k is larger than the whole page and the page still had room for all before it. */
  predicate GrowsAt(offset: nat, ns: seq<nat>, k: nat) {
    && k < |ns|
    && offset + Sum(ns[..k]) + HEAD_LENGTH <= PAGE < ns[k]
    && Requested(ns[k]) <= INT_MAX
    && offset + Sum(ns) + HEAD_LENGTH <= 8 * Requested(ns[k])
  }

  ghost predicate GrowsSomewhere(offset: nat, ns: seq<nat>) {
    exists k: nat :: GrowsAt(offset, ns, k)
  }

  ghost predicate FitsFrom(offset: nat, ns: seq<nat>) {
    && offset + Sum(ns) + HEAD_LENGTH <= INT_MAX
    && (offset + Sum(ns) + HEAD_LENGTH <= PAGE || GrowsSomewhere(offset, ns))
  }

  /** After the one growth that can happen, nothing ever grows again. */
  lemma {:induction false} GrownIsFinal(s: Shape, ns: seq<nat>)
    requires s.mallocSize < s.offset + HEAD_LENGTH <= s.memory && s.offset + HEAD_LENGTH <= INT_MAX
    ensures AfterWrites(s, ns).Some? <==>
            s.offset + Sum(ns) + HEAD_LENGTH <= s.memory && s.offset + Sum(ns) + HEAD_LENGTH <= INT_MAX
    decreases |ns|
  {
    if ns != [] && AfterWrite(s, ns[0]).Some? {
      GrownIsFinal(AfterWrite(s, ns[0]).value, ns[1..]);
    }
  }

  lemma {:induction false} SafeFromOffset(offset: nat, ns: seq<nat>)
    requires offset + HEAD_LENGTH <= PAGE
    ensures AfterWrites(Shape(PAGE, PAGE, offset), ns).Some? <==> FitsFrom(offset, ns)
    decreases |ns|
  {
    var s := Shape(PAGE, PAGE, offset);
    if ns != [] {
      var n := ns[0];
      assert ns[..0] == [];
      if offset + n + HEAD_LENGTH <= PAGE {
        SafeFromOffset(offset + n, ns[1..]);
        ShiftGrowth(offset, ns);
      } else {
        assert forall k: nat :: GrowsAt(offset, ns, k) ==> k == 0;
        assert Wanted(PAGE, n) == Requested(n);
        if AfterWrite(s, n).Some? {
          GrownIsFinal(AfterWrite(s, n).value, ns[1..]);
        }
        assert AfterWrites(s, ns).Some? <==> GrowsAt(offset, ns, 0) && offset + Sum(ns) + HEAD_LENGTH <= INT_MAX;
      }
    }
  }

  lemma {:induction false} ShiftGrowth(offset: nat, ns: seq<nat>)
    requires ns != [] && offset + ns[0] + HEAD_LENGTH <= PAGE
    ensures GrowsSomewhere(offset, ns) <==> GrowsSomewhere(offset + ns[0], ns[1..])
  {
    var next, rest := offset + ns[0], ns[1..];
    if GrowsSomewhere(offset, ns) {
      var k: nat :| GrowsAt(offset, ns, k);
      assert ns[..k][1..] == rest[..k - 1];
      assert GrowsAt(next, rest, k - 1);
    }
    if GrowsSomewhere(next, rest) {
      var k: nat :| GrowsAt(next, rest, k);
      assert ns[..k + 1][1..] == rest[..k];
      assert GrowsAt(offset, ns, k + 1);
    }
  }

  /** Exactly which sequences of writes to a new message stay inside its memory: those that fit
      the page, and those whose first overflowing write alone exceeds the page and leaves a
      reallocation large enough for everything. */
  lemma {:induction false} WritesSafeExactly(ns: seq<nat>)
    ensures AfterWrites(FreshShape(), ns).Some? <==> FitsFrom(0, ns)
  {
    SafeFromOffset(0, ns);
  }

  /** With no single write above the page size the routine never grows anything. */
  lemma {:induction false} SmallWritesSafeExactly(ns: seq<nat>)
    requires forall n | n in ns :: n <= PAGE
    ensures AfterWrites(FreshShape(), ns).Some? <==> Sum(ns) + HEAD_LENGTH <= PAGE
  {
    WritesSafeExactly(ns);
    if GrowsSomewhere(0, ns) {
      var k: nat :| GrowsAt(0, ns, k);
      assert ns[k] in ns;
    }
  }

  /** Two 2100-byte strings: the intended growth does not happen and the second overruns. */
  lemma {:induction false} TwoMediumStringsOverrun(a: bytes, b: bytes)
    requires |a| == |b| == 2100
    ensures AfterWrites(FreshShape(), Widths([Str(a), Str(b)])).None?
  {
    assert [Str(a), Str(b)][1..] == [Str(b)] && [Str(b)][1..] == [];
    assert Widths([Str(b)]) == [8, 2100] + Widths([]);
    assert Widths([Str(a), Str(b)]) == [8, 2100] + [8, 2100];
    SmallWritesSafeExactly([8, 2100, 8, 2100]);
    assert [8, 2100, 8, 2100][1..] == [2100, 8, 2100];
    assert Sum([2100, 8, 2100]) == 4208;
  }

  /** The memcpy sizes a sequence of fields causes. */
  function Widths(fs: seq<Field>): (ns: seq<nat>) {
    if fs == [] then [] else FieldWidths(fs[0]) + Widths(fs[1..])
  }

  function FieldWidths(f: Field): (ns: seq<nat>) {
    if f.Str? then [8, |f.s|] else [|f.Bytes()|]
  }

  lemma {:induction false} SumConcat(a: seq<nat>, b: seq<nat>)
    ensures Sum(a + b) == Sum(a) + Sum(b)
  {
    if a == [] {
      assert a + b == b;
    } else {
      assert (a + b)[1..] == a[1..] + b;
      SumConcat(a[1..], b);
    }
  }

  lemma {:induction false} WidthsSum(fs: seq<Field>)
    ensures Sum(Widths(fs)) == |EncodeAll(fs)|
  {
    if fs != [] {
      SumConcat(FieldWidths(fs[0]), Widths(fs[1..]));
      WidthsSum(fs[1..]);
    }
  }

  lemma {:induction false} AfterWritesConcat(s: Shape, a: seq<nat>, b: seq<nat>)
    ensures AfterWrites(s, a + b) ==
            match AfterWrites(s, a) case None => None case Some(t) => AfterWrites(t, b)
    decreases |a|
  {
    if a == [] {
      assert a + b == b;
    } else {
      assert (a + b)[0] == a[0] && (a + b)[1..] == a[1..] + b;
      match AfterWrite(s, a[0])
      case None =>
      case Some(t) => AfterWritesConcat(t, a[1..], b);
    }
  }

  lemma {:induction false} WidthsConcat(fs: seq<Field>, gs: seq<Field>)
    ensures Widths(fs + gs) == Widths(fs) + Widths(gs)
  {
    if fs == [] {
      assert fs + gs == gs;
    } else {
      assert (fs + gs)[1..] == fs[1..] + gs;
      WidthsConcat(fs[1..], gs);
    }
  }

  lemma {:induction false} OffsetAfterWrites(s: Shape, ns: seq<nat>)
    requires AfterWrites(s, ns).Some?
    ensures AfterWrites(s, ns).value.offset == s.offset + Sum(ns)
    ensures ns != [] ==> AfterWrites(s, ns).value.offset + HEAD_LENGTH <= INT_MAX
    decreases |ns|
  {
    if ns != [] {
      OffsetAfterWrites(AfterWrite(s, ns[0]).value, ns[1..]);
    }
  }

  /** The fields can be written, in order, to a message in shape s without leaving its memory. */
  predicate Writable(s: Shape, fs: seq<Field>) {
    AfterWrites(s, Widths(fs)).Some?
  }

  lemma {:induction false} WritableSplit(s: Shape, fs: seq<Field>, gs: seq<Field>)
    requires Writable(s, fs + gs)
    ensures Writable(s, fs) && Writable(AfterWrites(s, Widths(fs)).value, gs)
    ensures AfterWrites(s, Widths(fs + gs)) == AfterWrites(AfterWrites(s, Widths(fs)).value, Widths(gs))
  {
    WidthsConcat(fs, gs);
    AfterWritesConcat(s, Widths(fs), Widths(gs));
  }

  /** A message that can be written at all is small enough for every length and count in it. */
  lemma {:induction false} WritableIsSmall(fs: seq<Field>)
    requires Writable(FreshShape(), fs)
    ensures |EncodeAll(fs)| + HEAD_LENGTH <= INT_MAX && 2 * |fs| <= INT_MAX && AllStorable(fs)
  {
    OffsetAfterWrites(FreshShape(), Widths(fs));
    WidthsSum(fs);
    EncodingLength(fs);
  }

  /** Whatever fits the first page can be written. */
  lemma {:induction false} SmallIsWritable(fs: seq<Field>)
    requires |EncodeAll(fs)| + HEAD_LENGTH <= PAGE
    ensures Writable(FreshShape(), fs)
  {
    WidthsSum(fs);
    WritesSafeExactly(Widths(fs));
  }

  lemma {:induction false} WidthsOne(s: Shape, f: Field)
    ensures Widths([f]) == FieldWidths(f)
    ensures AfterWrites(s, Widths([f])) ==
            match AfterWrite(s, if f.Str? then 8 else |f.Bytes()|)
            case None => None
            case Some(t) => if f.Str? then AfterWrite(t, |f.s|) else Some(t)
  {
    assert Widths([f]) == FieldWidths(f) + Widths([]);
    if f.Str? {
      assert Widths([f])[1..] == [|f.s|] && [|f.s|][1..] == [];
      match AfterWrite(s, 8)
      case None =>
      case Some(t) => assert AfterWrites(t, [|f.s|]) == AfterWrite(t, |f.s|);
    } else {
      assert Widths([f])[1..] == [];
    }
  }

  lemma {:induction false} EncodeSnoc(before: bytes, fs: seq<Field>, i: nat)
    requires i < |fs|
    ensures (before + EncodeAll(fs[..i])) + fs[i].Bytes() == before + EncodeAll(fs[..i + 1])
  {
    assert fs[..i + 1] == fs[..i] + [fs[i]];
    EncodeAllConcat(fs[..i], [fs[i]]);
    assert EncodeAll([fs[i]]) == fs[i].Bytes() + EncodeAll([]);
    assert (before + EncodeAll(fs[..i])) + fs[i].Bytes() == before + (EncodeAll(fs[..i]) + fs[i].Bytes());
  }

  lemma {:induction false} WritableAt(s: Shape, fs: seq<Field>, i: nat)
    requires i < |fs| && Writable(s, fs[i..])
    ensures Writable(s, [fs[i]]) && Writable(AfterWrites(s, Widths([fs[i]])).value, fs[i + 1..])
    ensures AfterWrites(s, Widths(fs[i..])) == AfterWrites(AfterWrites(s, Widths([fs[i]])).value, Widths(fs[i + 1..]))
  {
    assert fs[i..] == [fs[i]] + fs[i + 1..];
    WritableCons(s, fs[i], fs[i + 1..]);
  }

  lemma {:induction false} WritableCons(s: Shape, f: Field, rest: seq<Field>)
    requires Writable(s, [f] + rest)
    ensures Writable(s, [f]) && Writable(AfterWrites(s, Widths([f])).value, rest)
    ensures AfterWrites(s, Widths([f] + rest)) == AfterWrites(AfterWrites(s, Widths([f])).value, Widths(rest))
    ensures AfterWrites(s, Widths([f])).value.offset + HEAD_LENGTH <= INT_MAX
  {
    WritableSplit(s, [f], rest);
    OffsetAfterWrites(s, Widths([f]));
  }

  // ---------------------------------------------------------------- the buffer itself

  class Msg {
    var mData: array<byte>
    var mReadOffset: nat
    var mWriteOffset: nat
    var mMallocSize: nat

    ghost predicate Valid()
      reads this
    {
      && HEAD_LENGTH + mWriteOffset <= mData.Length
      && HEAD_LENGTH + mReadOffset <= mData.Length
    }

    function Extent(): Shape
      reads this
    {
      Shape(mMallocSize, mData.Length, mWriteOffset)
    }

    /** Head and payload: what GetTotalLen() bytes of GetBuffer() hold. */
    function Frame(): (b: bytes)
      requires Valid()
      reads this, mData
      ensures |b| == HEAD_LENGTH + mWriteOffset
    {
      mData[..HEAD_LENGTH + mWriteOffset]
    }

    function Payload(): (b: bytes)
      requires Valid()
      reads this, mData
    {
      Frame()[HEAD_LENGTH..]
    }

    /** What the read operators have still to see. */
    function Unread(): (b: bytes)
      requires Valid()
      reads this, mData
    {
      mData[HEAD_LENGTH + mReadOffset..]
    }

    constructor ()
      ensures Valid() && fresh(mData)
      ensures Extent() == FreshShape() && Payload() == [] && mReadOffset == 0
    {
      mReadOffset, mWriteOffset, mMallocSize := 0, 0, PAGE;
      mData := new byte[PAGE];
    }

    constructor Sized(len: nat)
      ensures Valid() && fresh(mData) && mData.Length == len + HEAD_LENGTH
      ensures mMallocSize == mData.Length && mWriteOffset == 0 && mReadOffset == 0
    {
      mReadOffset, mWriteOffset, mMallocSize := 0, 0, len + HEAD_LENGTH;
      mData := new byte[len + HEAD_LENGTH];
    }

    method Reverse(size: nat)
      requires Valid() && (size <= mMallocSize || 8 * Wanted(mMallocSize, size) >= HEAD_LENGTH + mWriteOffset)
      requires HEAD_LENGTH + mReadOffset <= HEAD_LENGTH + mWriteOffset || size <= mMallocSize
      modifies this`mData
      ensures Valid() && Frame() == old(Frame())
      ensures mData == old(mData) || fresh(mData)
      ensures mData.Length == if size <= mMallocSize then old(mData.Length) else 8 * Wanted(mMallocSize, size)
    {
      if size > mMallocSize {
        var grown := new byte[8 * Wanted(mMallocSize, size)];
        forall i | 0 <= i < mWriteOffset + HEAD_LENGTH {
          grown[i] := mData[i];
        }
        mData := grown;
      }
    }

    method WriteByte(r: bytes)
      requires Valid() && AfterWrite(Extent(), |r|).Some? && mReadOffset <= mWriteOffset
      modifies this`mData, this`mWriteOffset, mData
      ensures Valid() && mReadOffset <= mWriteOffset
      ensures Extent() == AfterWrite(old(Extent()), |r|).value
      ensures Frame() == old(Frame()) + r
      ensures mData == old(mData) || fresh(mData)
    {
      if LooksShort(Extent(), |r|) {
        Reverse(|r|);
      }
      Put(HEAD_LENGTH + mWriteOffset, r);
      mWriteOffset := mWriteOffset + |r|;
    }

    /** The memcpy into the buffer. */
    method Put(start: nat, r: bytes)
      requires start + |r| <= mData.Length
      modifies mData
      ensures mData[..start + |r|] == old(mData[..start]) + r
    {
      forall i | 0 <= i < |r| {
        mData[start + i] := r[i];
      }
      assert mData[..start] == old(mData[..start]);
      assert mData[start..start + |r|] == r;
      assert mData[..start + |r|] == mData[..start] + mData[start..start + |r|];
    }

    /** operator<<, one case per overload. */
    method Write(f: Field)
      requires Valid() && Writable(Extent(), [f]) && mReadOffset <= mWriteOffset
      modifies this`mData, this`mWriteOffset, mData
      ensures Valid() && mReadOffset <= mWriteOffset
      ensures Extent() == AfterWrites(old(Extent()), Widths([f])).value
      ensures Frame() == old(Frame()) + f.Bytes()
      ensures mData == old(mData) || fresh(mData)
    {
      WidthsOne(Extent(), f);
      match f
      case Str(s) =>
        WriteByte(BE(8, |s|));
        WriteByte(s);
        assert old(Frame()) + f.Bytes() == (old(Frame()) + BE(8, |s|)) + s;
      case _ =>
        WriteByte(f.Bytes());
    }

    /** operator>>, one case per overload. The program reads without a bounds test, so the
        field must lie inside the buffer. */
    method Read(k: Kind) returns (f: Field)
      requires Valid() && TakeField(k, Unread()).Some?
      modifies this`mReadOffset
      ensures Valid() && mReadOffset >= old(mReadOffset)
      ensures Some((f, Unread())) == TakeField(k, old(Unread()))
    {
      Pow256Values();
      match k
      case KI32 =>
        var u := ReadInt(4);
        var v: int := u;
        f := I32(if v < 0x8000_0000 then v else v - 0x1_0000_0000);
      case KU16 => var v := ReadInt(2); f := U16(v);
      case KU32 => var v := ReadInt(4); f := U32(v);
      case KU64 => var v := ReadInt(8); f := U64(v);
      case KStr =>
        var len := ReadInt(8);
        var s := ReadByte(len);
        f := Str(s);
    }

    method ReadByte(len: nat) returns (r: bytes)
      requires Valid() && len <= |Unread()|
      modifies this`mReadOffset
      ensures Valid() && mReadOffset == old(mReadOffset) + len
      ensures TakeBytes(len, old(Unread())) == Some((r, Unread()))
    {
      var start := HEAD_LENGTH + mReadOffset;
      r := mData[start..start + len];
      mReadOffset := mReadOffset + len;
      assert old(Unread())[..len] == r && old(Unread())[len..] == Unread();
    }

    method ReadInt(n: nat) returns (v: nat)
      requires Valid() && n <= |Unread()|
      modifies this`mReadOffset
      ensures Valid() && mReadOffset == old(mReadOffset) + n
      ensures TakeInt(n, old(Unread())) == Some((v, Unread()))
    {
      var b := ReadByte(n);
      v := FromBE(b);
    }

    method ResetReadOffset()
      requires Valid()
      modifies this`mReadOffset
      ensures Valid() && mReadOffset == 0
    {
      mReadOffset := 0;
    }

    /** Stores a length in the first head word; the second word is never written. */
    method SetLen(len: nat)
      requires Valid()
      modifies mData
      ensures Valid() && mData[..4] == BE(4, len) && mData[4..] == old(mData[4..])
      ensures Payload() == old(Payload())
    {
      var word := BE(4, len);
      forall i | 0 <= i < 4 {
        mData[i] := word[i];
      }
      assert forall i | 4 <= i < mData.Length :: mData[i] == old(mData[i]);
      assert mData[4..] == old(mData[4..]);
      assert Payload() == mData[4..][4..][..mWriteOffset];
      assert old(Payload()) == old(mData[4..])[4..][..mWriteOffset];
    }

    /** A deep copy, as long as what was written. */
    method Dup() returns (ret: Msg)
      requires Valid()
      ensures fresh(ret) && fresh(ret.mData) && ret.Valid()
      ensures ret.mWriteOffset == mWriteOffset && ret.mReadOffset == 0
      ensures ret.mData[..] == ret.Frame() == BE(4, mWriteOffset) + Frame()[4..]
      ensures ret.Payload() == ret.Unread() == Payload()
    {
      ret := new Msg.Sized(mWriteOffset);
      forall i | 0 <= i < mWriteOffset + HEAD_LENGTH {
        ret.mData[i] := mData[i];
      }
      ret.mWriteOffset := mWriteOffset;
      ret.ResetReadOffset();
      assert ret.mData[4..] == Frame()[4..];
      ret.SetLen(mWriteOffset);
      assert ret.mData[..] == ret.mData[..4] + ret.mData[4..];
      assert Payload() == Frame()[4..][4..];
    }
  }

  method WriteAll(msg: Msg, fs: seq<Field>)
    requires msg.Valid() && msg.mReadOffset <= msg.mWriteOffset && Writable(msg.Extent(), fs)
    modifies msg, msg.mData
    ensures msg.Valid() && msg.mReadOffset <= msg.mWriteOffset
    ensures msg.Frame() == old(msg.Frame()) + EncodeAll(fs)
    ensures msg.Extent() == AfterWrites(old(msg.Extent()), Widths(fs)).value
    ensures msg.mData == old(msg.mData) || fresh(msg.mData)
  {
    assert fs[0..] == fs;
    for i := 0 to |fs|
      invariant msg.mData == old(msg.mData) || fresh(msg.mData)
      invariant msg.Valid() && msg.mReadOffset <= msg.mWriteOffset
      invariant Writable(msg.Extent(), fs[i..])
      invariant AfterWrites(old(msg.Extent()), Widths(fs)) == AfterWrites(msg.Extent(), Widths(fs[i..]))
      invariant msg.Frame() == old(msg.Frame()) + EncodeAll(fs[..i])
    {
      WritableAt(msg.Extent(), fs, i);
      EncodeSnoc(old(msg.Frame()), fs, i);
      msg.Write(fs[i]);
    }
    assert fs[..|fs|] == fs;
  }

  /** A new message holding the given fields, its length word set. */
  method NewMsg(fs: seq<Field>) returns (msg: Msg)
    requires Writable(FreshShape(), fs)
    ensures fresh(msg) && fresh(msg.mData) && msg.Valid() && msg.mReadOffset <= msg.mWriteOffset
    ensures msg.Payload() == EncodeAll(fs) && msg.mData[..4] == BE(4, |EncodeAll(fs)|)
    ensures msg.Extent() == AfterWrites(FreshShape(), Widths(fs)).value
  {
    msg := new Msg();
    WriteAll(msg, fs);
    msg.SetLen(msg.mWriteOffset);
  }

  /** Reading the kinds from position i on out of b, after fs, gives all. */
  ghost predicate Reading(ks: seq<Kind>, i: nat, b: bytes, fs: seq<Field>, all: (seq<Field>, bytes)) {
    && i <= |ks| && TakeAll(ks[i..], b).Some?
    && fs + TakeAll(ks[i..], b).value.0 == all.0
    && TakeAll(ks[i..], b).value.1 == all.1
  }

  lemma {:induction false} ReadingNext(ks: seq<Kind>, i: nat, b: bytes, fs: seq<Field>, all: (seq<Field>, bytes))
    requires i < |ks| && Reading(ks, i, b, fs, all)
    ensures TakeField(ks[i], b).Some?
    ensures Reading(ks, i + 1, TakeField(ks[i], b).value.1, fs + [TakeField(ks[i], b).value.0], all)
  {
    assert ks[i..][1..] == ks[i + 1..];
    var (f, tail) := TakeField(ks[i], b).value;
    var rest := TakeAll(ks[i + 1..], tail).value.0;
    assert fs + ([f] + rest) == fs + [f] + rest;
  }

  lemma {:induction false} ReadingEnds(ks: seq<Kind>, b: bytes, fs: seq<Field>, all: (seq<Field>, bytes))
    ensures Reading(ks, |ks|, b, fs, all) ==> (fs, b) == all
    ensures fs == [] && Some(all) == TakeAll(ks, b) ==> Reading(ks, 0, b, fs, all)
  {
    assert ks[0..] == ks && ks[|ks|..] == [];
    assert fs + [] == fs;
    if fs == [] && Some(all) == TakeAll(ks, b) {
      assert [] + all.0 == all.0;
    }
  }

  method ReadAll(msg: Msg, ks: seq<Kind>) returns (fs: seq<Field>)
    requires msg.Valid() && TakeAll(ks, msg.Unread()).Some?
    modifies msg`mReadOffset
    ensures msg.Valid() && Some((fs, msg.Unread())) == TakeAll(ks, old(msg.Unread()))
  {
    fs := [];
    ghost var all := TakeAll(ks, msg.Unread()).value;
    ReadingEnds(ks, msg.Unread(), fs, all);
    for i := 0 to |ks|
      invariant msg.Valid() && Reading(ks, i, msg.Unread(), fs, all)
    {
      ReadingNext(ks, i, msg.Unread(), fs, all);
      var f := msg.Read(ks[i]);
      fs := fs + [f];
    }
    ReadingEnds(ks, msg.Unread(), fs, all);
  }

  /** Write a sequence of fields, copy the message, read the copy with the same types. */
  method WriteDupRead(fs: seq<Field>) returns (gs: seq<Field>)
    requires Writable(FreshShape(), fs)
    ensures gs == fs
  {
    var msg := new Msg();
    WriteAll(msg, fs);
    var copy := msg.Dup();
    WritableIsSmall(fs);
    assert copy.Unread() == EncodeAll(fs) + [];
    RoundTrip(fs, []);
    gs := ReadAll(copy, Kinds(fs));
  }
}
