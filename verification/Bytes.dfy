/** Fixed-width integers and their little-endian byte images, as the `repr(C)` structures in guest memory hold them. */
module Bytes {

  type byte = x: int | 0 <= x < 0x100
  type u16 = x: int | 0 <= x < 0x1_0000
  type u32 = x: int | 0 <= x < 0x1_0000_0000
  type u64 = x: int | 0 <= x < 0x1_0000_0000_0000_0000

  function Pow256(n: nat): (p: nat)
    ensures p > 0
  {
    if n == 0 then 1 else 256 * Pow256(n - 1)
  }

  function FromLE(bs: seq<byte>): (v: nat)
    ensures v < Pow256(|bs|)
  {
    if bs == [] then 0 else bs[0] + 256 * FromLE(bs[1..])
  }

  function ToLE(v: nat, n: nat): (bs: seq<byte>)
    ensures |bs| == n
  {
    if n == 0 then [] else [v % 256] + ToLE(v / 256, n - 1)
  }

  lemma {:induction false} DecodeEncode(v: nat, n: nat)
    requires v < Pow256(n)
    ensures FromLE(ToLE(v, n)) == v
  {
    if n > 0 {
      DecodeEncode(v / 256, n - 1);
      assert ToLE(v, n)[1..] == ToLE(v / 256, n - 1);
    }
  }

  lemma {:induction false} EncodeDecode(bs: seq<byte>)
    ensures ToLE(FromLE(bs), |bs|) == bs
  {
    if bs != [] {
      EncodeDecode(bs[1..]);
      assert FromLE(bs) % 256 == bs[0] && FromLE(bs) / 256 == FromLE(bs[1..]);
    }
  }

  function U16(bs: seq<byte>): u16
    requires |bs| == 2
  {
    assert Pow256(2) == 0x1_0000;
    FromLE(bs)
  }

  function U32(bs: seq<byte>): u32
    requires |bs| == 4
  {
    assert Pow256(4) == 0x1_0000_0000;
    FromLE(bs)
  }

  function U64(bs: seq<byte>): u64
    requires |bs| == 8
  {
    assert Pow256(8) == 0x1_0000_0000_0000_0000;
    FromLE(bs)
  }

  function Le16(v: u16): (bs: seq<byte>)
    ensures |bs| == 2 && U16(bs) == v
  {
    assert Pow256(2) == 0x1_0000;
    DecodeEncode(v, 2);
    ToLE(v, 2)
  }

  function Le32(v: u32): (bs: seq<byte>)
    ensures |bs| == 4 && U32(bs) == v
  {
    assert Pow256(4) == 0x1_0000_0000;
    DecodeEncode(v, 4);
    ToLE(v, 4)
  }

  function Le64(v: u64): (bs: seq<byte>)
    ensures |bs| == 8 && U64(bs) == v
  {
    assert Pow256(8) == 0x1_0000_0000_0000_0000;
    DecodeEncode(v, 8);
    ToLE(v, 8)
  }

  function Zeros(n: nat): (z: seq<byte>)
    ensures |z| == n && forall i :: 0 <= i < n ==> z[i] == 0
  {
    seq(n, _ => 0)
  }

  function Splice(bytes: seq<byte>, at: nat, data: seq<byte>): (r: seq<byte>)
    requires at + |data| <= |bytes|
    ensures |r| == |bytes|
    ensures forall i {:trigger r[i]} :: 0 <= i < |r| ==>
              r[i] == if at <= i < at + |data| then data[i - at] else bytes[i]
  {
    bytes[..at] + data + bytes[at + |data|..]
  }

  lemma SpliceReadsBack(bytes: seq<byte>, at: nat, data: seq<byte>)
    requires at + |data| <= |bytes|
    ensures Splice(bytes, at, data)[at..at + |data|] == data
  {
  }
}
