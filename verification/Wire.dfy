/** Little-endian words in guest memory, byte by byte: how a driver reads and writes them, stated without the device's own
    encoders. */
module Wire {
  import opened Bytes

  function Value(b0: int, b1: int, b2: int, b3: int): int {
    b0 + 0x100 * b1 + 0x1_0000 * b2 + 0x100_0000 * b3
  }

  function Word16(bytes: seq<byte>, at: nat): u16
    requires at + 2 <= |bytes|
  {
    Value(bytes[at], bytes[at + 1], 0, 0)
  }

  function Word32(bytes: seq<byte>, at: nat): u32
    requires at + 4 <= |bytes|
  {
    Value(bytes[at], bytes[at + 1], bytes[at + 2], bytes[at + 3])
  }

  function Word64(bytes: seq<byte>, at: nat): u64
    requires at + 8 <= |bytes|
  {
    Word32(bytes, at) + 0x1_0000_0000 * Word32(bytes, at + 4)
  }

  function Image16(v: u16): (bs: seq<byte>)
    ensures |bs| == 2 && Word16(bs, 0) == v
  {
    [v % 0x100, v / 0x100]
  }

  function Image32(v: u32): (bs: seq<byte>)
    ensures |bs| == 4 && Word32(bs, 0) == v
  {
    [v % 0x100, v / 0x100 % 0x100, v / 0x100 / 0x100 % 0x100, v / 0x100 / 0x100 / 0x100]
  }

  function Image64(v: u64): (bs: seq<byte>)
    ensures |bs| == 8 && Word64(bs, 0) == v
  {
    Image32(v % 0x1_0000_0000) + Image32(v / 0x1_0000_0000)
  }

  // ------------------------------------------------------------------ the device's decoders and encoders

  lemma Reads16(bs: seq<byte>)
    requires |bs| == 2
    ensures U16(bs) == Word16(bs, 0)
  {
    assert FromLE(bs[1..]) == bs[1] + 0x100 * FromLE(bs[1..][1..]);
  }

  lemma Reads32(bs: seq<byte>)
    requires |bs| == 4
    ensures U32(bs) == Word32(bs, 0)
  {
    Reads16(bs[2..]);
    assert FromLE(bs) == bs[0] + 0x100 * FromLE(bs[1..]);
    assert bs[1..][1..] == bs[2..] && FromLE(bs[1..]) == bs[1] + 0x100 * FromLE(bs[2..]);
  }

  lemma Reads64(bs: seq<byte>)
    requires |bs| == 8
    ensures U64(bs) == Word64(bs, 0)
  {
    Reads32(bs[4..]);
    assert bs[1..][1..] == bs[2..] && bs[2..][1..] == bs[3..] && bs[3..][1..] == bs[4..];
    assert FromLE(bs) == bs[0] + 0x100 * FromLE(bs[1..]) && FromLE(bs[1..]) == bs[1] + 0x100 * FromLE(bs[2..]);
    assert FromLE(bs[2..]) == bs[2] + 0x100 * FromLE(bs[3..]) && FromLE(bs[3..]) == bs[3] + 0x100 * FromLE(bs[4..]);
  }

  lemma ReadsAt(bytes: seq<byte>, at: nat)
    ensures at + 2 <= |bytes| ==> U16(bytes[at..at + 2]) == Word16(bytes, at)
    ensures at + 4 <= |bytes| ==> U32(bytes[at..at + 4]) == Word32(bytes, at)
    ensures at + 8 <= |bytes| ==> U64(bytes[at..at + 8]) == Word64(bytes, at)
  {
    if at + 2 <= |bytes| {
      Reads16(bytes[at..at + 2]);
    }
    if at + 4 <= |bytes| {
      Reads32(bytes[at..at + 4]);
    }
    if at + 8 <= |bytes| {
      Reads64(bytes[at..at + 8]);
    }
  }

  lemma Encodes16(bs: seq<byte>)
    requires |bs| == 2
    ensures Le16(Word16(bs, 0)) == bs
  {
    Reads16(bs);
    EncodeDecode(bs);
  }

  lemma Encodes32(bs: seq<byte>)
    requires |bs| == 4
    ensures Le32(Word32(bs, 0)) == bs
  {
    Reads32(bs);
    EncodeDecode(bs);
  }

  lemma Encodes64(bs: seq<byte>)
    requires |bs| == 8
    ensures Le64(Word64(bs, 0)) == bs
  {
    Reads64(bs);
    EncodeDecode(bs);
  }

  lemma Writes16(v: u16)
    ensures Le16(v) == Image16(v)
  {
    Encodes16(Image16(v));
  }

  lemma Writes32(v: u32)
    ensures Le32(v) == Image32(v)
  {
    Encodes32(Image32(v));
  }

  lemma Writes64(v: u64)
    ensures Le64(v) == Image64(v)
  {
    Encodes64(Image64(v));
  }
}
