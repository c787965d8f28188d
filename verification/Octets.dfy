/** Bytes, fixed-width integers and the big-endian encoding every message field uses. */
module Octets {

  type byte = b: int | 0 <= b < 0x100
  type bytes = seq<byte>
  type u16 = n: int | 0 <= n < 0x1_0000
  type u32 = n: int | 0 <= n < 0x1_0000_0000
  type u64 = n: int | 0 <= n < 0x1_0000_0000_0000_0000
  type i32 = n: int | -0x8000_0000 <= n < 0x8000_0000

  datatype Option<+T> = None | Some(value: T)

  lemma {:induction false} Associative<T>(a: seq<T>, b: seq<T>, c: seq<T>)
    ensures (a + b) + c == a + (b + c)
  {
  }

  lemma {:induction false} Alone<T>(s: seq<T>)
    ensures s + [] == s == [] + s
  {
  }

  /** The bytes of a C string literal. */
  function Text(s: string): (b: bytes)
    ensures |b| == |s|
  {
    seq(|s|, i requires 0 <= i < |s| => (s[i] as int) % 0x100)
  }

  /** Conversion of a size to uint32_t. */
  function Low32(n: nat): u32 {
    if n < 0x1_0000_0000 then n else n % 0x1_0000_0000
  }

  function Pow256(n: nat): (p: nat)
    ensures p >= 1
  {
    if n == 0 then 1 else 0x100 * Pow256(n - 1)
  }

  lemma {:induction false} Pow256Values()
    ensures Pow256(2) == 0x1_0000
    ensures Pow256(4) == 0x1_0000_0000
    ensures Pow256(8) == 0x1_0000_0000_0000_0000
  {
    assert Pow256(4) == 0x100 * (0x100 * Pow256(2));
    assert Pow256(6) == 0x100 * (0x100 * Pow256(4));
    assert Pow256(8) == 0x100 * (0x100 * Pow256(6));
  }

  /** The low n bytes of v, most significant first. */
  function BE(n: nat, v: nat): (b: bytes)
    ensures |b| == n
  {
    if n == 0 then [] else BE(n - 1, v / 0x100) + [v % 0x100]
  }

  function FromBE(b: bytes): (v: nat)
    ensures v < Pow256(|b|)
  {
    if b == [] then 0 else 0x100 * FromBE(b[..|b| - 1]) + b[|b| - 1]
  }

  lemma {:induction false} FromBEofBE(n: nat, v: nat)
    requires v < Pow256(n)
    ensures FromBE(BE(n, v)) == v
  {
    if n > 0 {
      FromBEofBE(n - 1, v / 0x100);
      assert BE(n, v)[..n - 1] == BE(n - 1, v / 0x100);
    }
  }

  lemma {:induction false} BEofFromBE(b: bytes)
    ensures BE(|b|, FromBE(b)) == b
  {
    if b != [] {
      BEofFromBE(b[..|b| - 1]);
      assert FromBE(b) / 0x100 == FromBE(b[..|b| - 1]);
      assert FromBE(b) % 0x100 == b[|b| - 1];
      assert b[..|b| - 1] + [b[|b| - 1]] == b;
    }
  }

  /** How a little-endian host reads memory as an integer. */
  function HostValue(b: bytes): (v: nat)
    ensures v < Pow256(|b|)
  {
    if b == [] then 0 else b[0] + 0x100 * HostValue(b[1..])
  }

  lemma {:induction false} HostValueInjective(a: bytes, b: bytes)
    requires |a| == |b| && HostValue(a) == HostValue(b)
    ensures a == b
  {
    if a != [] {
      assert HostValue(a) % 0x100 == a[0] && HostValue(b) % 0x100 == b[0];
      HostValueInjective(a[1..], b[1..]);
      assert a == [a[0]] + a[1..] && b == [b[0]] + b[1..];
    }
  }

  function Reversed(b: bytes): (r: bytes)
    ensures |r| == |b|
  {
    seq(|b|, i requires 0 <= i < |b| => b[|b| - 1 - i])
  }

  lemma {:induction false} HostValueOfReversed(b: bytes)
    ensures HostValue(Reversed(b)) == FromBE(b)
  {
    if b != [] {
      HostValueOfReversed(b[..|b| - 1]);
      assert Reversed(b)[1..] == Reversed(b[..|b| - 1]);
    }
  }

  lemma {:induction false} EightBytes(v: u64)
    ensures BE(8, v) == [v / 0x100_0000_0000_0000 % 0x100, v / 0x1_0000_0000_0000 % 0x100,
                         v / 0x100_0000_0000 % 0x100, v / 0x1_0000_0000 % 0x100,
                         v / 0x100_0000 % 0x100, v / 0x1_0000 % 0x100, v / 0x100 % 0x100, v % 0x100]
  {
    assert BE(2, v / 0x1_0000_0000_0000) == [v / 0x100_0000_0000_0000 % 0x100, v / 0x1_0000_0000_0000 % 0x100];
    assert BE(4, v / 0x1_0000_0000) == BE(2, v / 0x1_0000_0000_0000)
           + [v / 0x100_0000_0000 % 0x100, v / 0x1_0000_0000 % 0x100];
    assert BE(6, v / 0x1_0000) == BE(4, v / 0x1_0000_0000) + [v / 0x100_0000 % 0x100, v / 0x1_0000 % 0x100];
  }

  /** The bytes of `input >> 56`, `input >> 48`, ... stored in ascending addresses and
      read back as a host integer; used both ways round. */
  method Ntohll(input: u64) returns (rval: u64)
    ensures rval == HostValue(BE(8, input))
  {
    Pow256Values();
    var data := new byte[8];
    data[0] := input / 0x100_0000_0000_0000 % 0x100;
    data[1] := input / 0x1_0000_0000_0000 % 0x100;
    data[2] := input / 0x100_0000_0000 % 0x100;
    data[3] := input / 0x1_0000_0000 % 0x100;
    data[4] := input / 0x100_0000 % 0x100;
    data[5] := input / 0x1_0000 % 0x100;
    data[6] := input / 0x100 % 0x100;
    data[7] := input % 0x100;
    EightBytes(input);
    assert data[..] == BE(8, input);
    rval := HostValue(data[..]);
  }

  /** Memory holding htonll(x) is x most significant byte first, and ntohll undoes htonll. */
  lemma {:induction false} NtohllSelfInverse(x: u64)
    ensures HostValue(BE(8, HostValue(BE(8, x)))) == x
    ensures forall memory: bytes :: |memory| == 8 && HostValue(memory) == HostValue(BE(8, x)) ==> memory == BE(8, x)
  {
    Pow256Values();
    var m := BE(8, x);
    var swapped := Reversed(m);
    HostValueOfReversed(swapped);
    assert Reversed(swapped) == m;
    assert HostValue(m) == FromBE(swapped);
    BEofFromBE(swapped);
    HostValueOfReversed(m);
    FromBEofBE(8, x);
    forall memory: bytes | |memory| == 8 && HostValue(memory) == HostValue(m)
      ensures memory == m
    {
      HostValueInjective(memory, m);
    }
  }
}
