/** The typed fields that Msg's overloaded stream operators write and read. */
module Codec {
  import opened Octets

  datatype Kind = KI32 | KU16 | KU32 | KU64 | KStr

  datatype Field = I32(i: i32) | U16(h: u16) | U32(w: u32) | U64(d: u64) | Str(s: bytes) {
    function Kind(): Kind {
      match this
      case I32(_) => KI32
      case U16(_) => KU16
      case U32(_) => KU32
      case U64(_) => KU64
      case Str(_) => KStr
    }

    /** What std::string::length() can express in the 64-bit prefix. */
    predicate Storable() {
      Str? ==> |s| < 0x1_0000_0000_0000_0000
    }

    function Bytes(): (b: bytes) {
      match this
      case I32(v) => BE(4, if v < 0 then v + 0x1_0000_0000 else v)
      case U16(v) => BE(2, v)
      case U32(v) => BE(4, v)
      case U64(v) => BE(8, v)
      case Str(v) => BE(8, |v|) + v
    }
  }

  function EncodeAll(fs: seq<Field>): (b: bytes) {
    if fs == [] then [] else fs[0].Bytes() + EncodeAll(fs[1..])
  }

  /** Reads n bytes; None where the program would read past the end of the buffer. */
  function TakeBytes(n: nat, b: bytes): (r: Option<(bytes, bytes)>)
    ensures r.Some? ==> r.value.0 + r.value.1 == b && |r.value.0| == n
  {
    if |b| < n then None else Some((b[..n], b[n..]))
  }

  function TakeInt(n: nat, b: bytes): (r: Option<(nat, bytes)>)
    ensures r.Some? <==> n <= |b|
    ensures r.Some? ==> r.value.0 < Pow256(n) && r.value.1 == b[n..]
  {
    match TakeBytes(n, b)
    case None => None
    case Some((front, rest)) => Some((FromBE(front), rest))
  }

  /** Reads one field off the front and returns what is left. */
  function TakeField(k: Kind, b: bytes): (r: Option<(Field, bytes)>)
    ensures r.Some? ==> r.value.0.Kind() == k && r.value.0.Storable() && |r.value.1| <= |b|
  {
    Pow256Values();
    match k
    case KI32 =>
      (match TakeInt(4, b)
       case None => None
       case Some((v, rest)) => Some((I32(if v < 0x8000_0000 then v else v - 0x1_0000_0000), rest)))
    case KU16 =>
      (match TakeInt(2, b) case None => None case Some((v, rest)) => Some((U16(v), rest)))
    case KU32 =>
      (match TakeInt(4, b) case None => None case Some((v, rest)) => Some((U32(v), rest)))
    case KU64 =>
      (match TakeInt(8, b) case None => None case Some((v, rest)) => Some((U64(v), rest)))
    case KStr =>
      match TakeInt(8, b)
      case None => None
      case Some((len, tail)) =>
        match TakeBytes(len, tail)
        case None => None
        case Some((s, rest)) => Some((Str(s), rest))
  }

  function TakeAll(ks: seq<Kind>, b: bytes): (r: Option<(seq<Field>, bytes)>)
    ensures r.Some? ==> |r.value.0| == |ks| && forall i | 0 <= i < |ks| :: r.value.0[i].Kind() == ks[i]
  {
    if ks == [] then Some(([], b))
    else
      match TakeField(ks[0], b)
      case None => None
      case Some((f, tail)) =>
        match TakeAll(ks[1..], tail)
        case None => None
        case Some((fs, rest)) => Some(([f] + fs, rest))
  }

  function Kinds(fs: seq<Field>): (ks: seq<Kind>)
    ensures |ks| == |fs|
  {
    seq(|fs|, i requires 0 <= i < |fs| => fs[i].Kind())
  }

  predicate AllStorable(fs: seq<Field>) {
    forall f | f in fs :: f.Storable()
  }

  lemma {:induction false} TakeIntOfBE(n: nat, v: nat, rest: bytes)
    requires v < Pow256(n)
    ensures TakeInt(n, BE(n, v) + rest) == Some((v, rest))
  {
    var b := BE(n, v) + rest;
    assert b[..n] == BE(n, v) && b[n..] == rest;
    FromBEofBE(n, v);
  }

  /** One field round-trips and consumes exactly its own bytes. */
  lemma {:induction false} FieldRoundTrip(f: Field, rest: bytes)
    requires f.Storable()
    ensures TakeField(f.Kind(), f.Bytes() + rest) == Some((f, rest))
  {
    Pow256Values();
    match f
    case I32(v) => TakeIntOfBE(4, if v < 0 then v + 0x1_0000_0000 else v, rest);
    case U16(v) => TakeIntOfBE(2, v, rest);
    case U32(v) => TakeIntOfBE(4, v, rest);
    case U64(v) => TakeIntOfBE(8, v, rest);
    case Str(v) =>
      assert f.Bytes() + rest == BE(8, |v|) + (v + rest);
      TakeIntOfBE(8, |v|, v + rest);
      assert (v + rest)[..|v|] == v && (v + rest)[|v|..] == rest;
  }

  /** Any sequence of writes, read back with the same types, returns the same values and
      leaves exactly what followed them. */
  lemma {:induction false} RoundTrip(fs: seq<Field>, rest: bytes)
    requires AllStorable(fs)
    ensures TakeAll(Kinds(fs), EncodeAll(fs) + rest) == Some((fs, rest))
  {
    if fs == [] {
      assert EncodeAll(fs) + rest == rest;
    } else {
      Associative(fs[0].Bytes(), EncodeAll(fs[1..]), rest);
      FieldRoundTrip(fs[0], EncodeAll(fs[1..]) + rest);
      RoundTrip(fs[1..], rest);
      assert Kinds(fs)[1..] == Kinds(fs[1..]);
      assert [fs[0]] + fs[1..] == fs;
    }
  }

  /** Hence no two field sequences of the same shape share an encoding, and none is a
      prefix of another. */
  lemma {:induction false} EncodingIsPrefixFree(fs: seq<Field>, gs: seq<Field>, rest: bytes)
    requires AllStorable(fs) && AllStorable(gs) && Kinds(fs) == Kinds(gs)
    requires EncodeAll(fs) + rest == EncodeAll(gs)
    ensures fs == gs && rest == []
  {
    RoundTrip(fs, rest);
    RoundTrip(gs, []);
    assert EncodeAll(gs) + [] == EncodeAll(gs);
  }

  lemma {:induction false} EncodeAllConcat(fs: seq<Field>, gs: seq<Field>)
    ensures EncodeAll(fs + gs) == EncodeAll(fs) + EncodeAll(gs)
  {
    if fs == [] {
      assert fs + gs == gs;
    } else {
      var first, middle, last := fs[0].Bytes(), EncodeAll(fs[1..]), EncodeAll(gs);
      assert (fs + gs)[1..] == fs[1..] + gs;
      EncodeAllConcat(fs[1..], gs);
      assert EncodeAll(fs + gs) == first + (middle + last);
      Associative(first, middle, last);
    }
  }

  lemma {:induction false} StorableSplit(fs: seq<Field>, gs: seq<Field>)
    ensures AllStorable(fs + gs) <==> AllStorable(fs) && AllStorable(gs)
  {
    assert forall f | f in fs || f in gs :: f in fs + gs;
  }

  lemma {:induction false} EncodeConcatRest(fs: seq<Field>, gs: seq<Field>, rest: bytes)
    ensures EncodeAll(fs + gs) + rest == EncodeAll(fs) + (EncodeAll(gs) + rest)
  {
    EncodeAllConcat(fs, gs);
    Associative(EncodeAll(fs), EncodeAll(gs), rest);
  }

  lemma {:induction false} EncodeThree(f: Field, g: Field, h: Field)
    ensures EncodeAll([f, g, h]) == f.Bytes() + (g.Bytes() + h.Bytes())
  {
    assert [h][1..] == [] && h.Bytes() + EncodeAll([]) == h.Bytes();
    assert [g, h][1..] == [h] && EncodeAll([g, h]) == g.Bytes() + EncodeAll([h]);
    assert [f, g, h][1..] == [g, h];
  }

  /** Every field occupies at least two bytes. */
  lemma {:induction false} EncodingLength(fs: seq<Field>)
    ensures |EncodeAll(fs)| >= 2 * |fs|
    ensures forall f | f in fs && f.Str? :: |f.s| <= |EncodeAll(fs)|
  {
    if fs != [] {
      EncodingLength(fs[1..]);
      assert fs == [fs[0]] + fs[1..];
    }
  }
}
