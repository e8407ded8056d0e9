/** Where the shared structures lie, byte by byte: descriptor slots, both rings, the request header and the disk's sectors,
    at the offsets that VirtIO 1.1 gives them (sections 2.6.5, 2.6.6, 2.6.8 and 5.2.6). */
module Layout {
  import opened Common
  import opened Bytes
  import opened Wire
  import opened Memory
  import opened WrappingCounters
  import opened Descriptors
  import opened Rings
  import opened BlockRequests
  import opened QueueEngine

  /** A part of a slice is a slice. */
  lemma SliceOfSlice(bytes: seq<byte>, at: nat, n: nat, lo: nat, hi: nat)
    requires lo <= hi <= n && at + n <= |bytes|
    ensures bytes[at..at + n][lo..hi] == bytes[at + lo..at + hi]
  {
    var whole, part := bytes[at..at + n][lo..hi], bytes[at + lo..at + hi];
    assert forall i :: 0 <= i < hi - lo ==> whole[i] == bytes[at + lo + i] && part[i] == bytes[at + lo + i];
    assert whole == part;
  }

  /** Sixteen bytes at `at`: address, length, flags, next. */
  predicate DescAt(bytes: seq<byte>, at: nat, d: Desc) {
    && at + 16 <= |bytes|
    && d.addr == Word64(bytes, at) && d.len == Word32(bytes, at + 8)
    && d.flags == Word16(bytes, at + 12) && d.next == Word16(bytes, at + 14)
  }

  lemma DescriptorDecodes(bytes: seq<byte>, at: nat)
    requires at + 16 <= |bytes|
    ensures DescAt(bytes, at, DecodeDesc(bytes[at..at + 16]))
  {
    SliceOfSlice(bytes, at, 16, 0, 8);
    SliceOfSlice(bytes, at, 16, 8, 12);
    SliceOfSlice(bytes, at, 16, 12, 14);
    SliceOfSlice(bytes, at, 16, 14, 16);
    ReadsAt(bytes, at);
    ReadsAt(bytes, at + 8);
    ReadsAt(bytes, at + 12);
    ReadsAt(bytes, at + 14);
  }

  lemma FlagBits(bytes: seq<byte>, at: nat, d: Desc)
    requires DescAt(bytes, at, d)
    ensures d.HasNext() <==> bytes[at + 12] % 2 == 1
    ensures d.IsWrite() <==> bytes[at + 12] / 2 % 2 == 1
  {
    Shift2(bytes[at + 12], bytes[at + 13]);
  }

  lemma Shift2(low: int, high: int)
    ensures (low + 0x100 * high) % 2 == low % 2 && (low + 0x100 * high) / 2 % 2 == low / 2 % 2
  {
    Halve(low, 0x80 * high);
    Halve(low / 2, 0x40 * high);
  }

  lemma Halve(a: int, b: int)
    ensures (a + 2 * b) % 2 == a % 2 && (a + 2 * b) / 2 == a / 2 + b
  {
  }

  /** Descriptor number `index` is the sixteen bytes at `16 * index`, with NEXT and WRITE the low bits of its flags; it is
      read exactly when the table is set, the index is inside it and the access translates. */
  lemma DescriptorLayout(m: Mem, t: DescriptorTable, index: nat)
    ensures var at := t.baseAddr + 16 * index;
            match ReadDesc(m, t, index)
            case Ok(d) =>
              && t.baseAddr != 0 && index < t.size && m.Accessible(at, 16) && DescAt(m.bytes, at, d)
              && (d.HasNext() <==> m.bytes[at + 12] % 2 == 1) && (d.IsWrite() <==> m.bytes[at + 12] / 2 % 2 == 1)
              && Readable(m, t, index) && Slot(m, t, index) == d
            case Err(e) =>
              && !Readable(m, t, index)
              && (e == QueueNotReady <==> t.baseAddr == 0 || t.size == 0)
              && (e == InvalidQueue <==> t.baseAddr != 0 && 0 < t.size <= index)
              && (e == InvalidAddress <==> t.baseAddr != 0 && index < t.size && !m.Accessible(at, 16))
  {
    var at := t.baseAddr + 16 * index;
    if ReadDesc(m, t, index).Ok? {
      DescriptorDecodes(m.bytes, at);
      FlagBits(m.bytes, at, ReadDesc(m, t, index).value);
    }
  }

  /** The image of a descriptor, byte by byte. */
  lemma DescriptorImage(d: Desc)
    ensures EncodeDesc(d) == Image64(d.addr) + Image32(d.len) + Image16(d.flags) + Image16(d.next)
  {
    Writes64(d.addr);
    Writes32(d.len);
    Writes16(d.flags);
    Writes16(d.next);
  }

  /** The available index is the word at offset 2, and entry `index` the word at `4 + 2 * (index mod size)`. */
  lemma AvailableLayout(m: Mem, a: AvailState, index: nat)
    ensures AvailIdx(m, a) ==
            if a.base == 0 || a.size == 0 then Err(QueueNotReady)
            else if !m.Accessible(a.base + 2, 2) then Err(InvalidAddress)
            else Ok(Word16(m.bytes, a.base + 2))
    ensures AvailEntry(m, a, index) ==
            if a.base == 0 || a.size == 0 then Err(QueueNotReady)
            else if !m.Accessible(a.base + 4 + 2 * (index % a.size), 2) then Err(InvalidAddress)
            else Ok(Word16(m.bytes, a.base + 4 + 2 * (index % a.size)))
  {
    ReadsAt(m.bytes, a.base + 2);
    if a.size > 0 {
      ReadsAt(m.bytes, a.base + 4 + 2 * (index % a.size));
    }
  }

  /** Eight bytes at `at`: head and length. */
  predicate ElemBytes(bytes: seq<byte>, at: nat, e: UsedElem) {
    at + 8 <= |bytes| && Word32(bytes, at) == e.id && Word32(bytes, at + 4) == e.len
  }

  lemma ElemStored(bytes: seq<byte>, at: nat, e: UsedElem)
    requires at + 8 <= |bytes|
    ensures ElemBytes(Splice(bytes, at, EncodeElem(e)), at, e)
  {
    var bytes' := Splice(bytes, at, EncodeElem(e));
    SpliceReadsBack(bytes, at, EncodeElem(e));
    SliceOfSlice(bytes', at, 8, 0, 4);
    SliceOfSlice(bytes', at, 8, 4, 8);
    ReadsAt(bytes', at);
    ReadsAt(bytes', at + 4);
  }

  lemma WordLands(bytes: seq<byte>, at: nat, idx: u16, lo: nat, e: UsedElem)
    requires at + 2 <= lo && ElemBytes(bytes, lo, e)
    ensures var bytes' := Splice(bytes, at, Le16(idx)); ElemBytes(bytes', lo, e) && Word16(bytes', at) == idx
  {
    SpliceReadsBack(bytes, at, Le16(idx));
    ReadsAt(Splice(bytes, at, Le16(idx)), at);
  }

  /** Appending completion number `idx` puts its head and length in the eight bytes at `4 + 8 * (idx mod size)`, then the
      advanced counter in the word at offset 2. If the first access fails nothing happens; if the second fails the element
      and the counter have moved and the index has not. */
  lemma UsedLayout(m: Mem, u: UsedState, e: UsedElem)
    requires u.base != 0 && u.size > 0
    ensures var at := u.base + 4 + 8 * (u.idx % u.size);
            var (m', u', r) := AppendUsed(m, u, e);
            if !m.Accessible(at, 8) then m' == m && u' == u && r == Err(InvalidAddress)
            else
              && SameShape(m, m') && ElemBytes(m'.bytes, at, e)
              && u' == u.(idx := (u.idx + 1) % 0x1_0000, history := u.history + [e])
              && r == (if m.Accessible(u.base + 2, 2) then Ok(()) else Err(InvalidAddress))
              && (r.Ok? ==> Word16(m'.bytes, u.base + 2) == u'.idx)
  {
    var at := u.base + 4 + 8 * (u.idx % u.size);
    if m.Accessible(at, 8) {
      ElemStored(m.bytes, at, e);
      if m.Accessible(u.base + 2, 2) {
        WordLands(m.Store(at, EncodeElem(e)).bytes, u.base + 2, Next(u.idx), at, e);
      }
    }
  }

  /** No byte changes but those eight and, if the append succeeds, the index. */
  lemma UsedFrame(m: Mem, u: UsedState, e: UsedElem, i: nat)
    requires u.base != 0 && u.size > 0 && i < |m.bytes|
    requires var at := u.base + 4 + 8 * (u.idx % u.size); i < at || at + 8 <= i
    requires AppendUsed(m, u, e).2.Ok? ==> i < u.base + 2 || u.base + 4 <= i
    ensures i < |AppendUsed(m, u, e).0.bytes| && AppendUsed(m, u, e).0.bytes[i] == m.bytes[i]
  {
  }

  /** A ring that is not set up appends nothing. */
  lemma UsedUnset(m: Mem, u: UsedState, e: UsedElem)
    requires u.base == 0 || u.size == 0
    ensures AppendUsed(m, u, e) == (m, u, Err(QueueNotReady))
  {
  }

  /** Notifications are wanted exactly when bit 0 of the used ring's first byte is clear. */
  lemma FlagLayout(m: Mem, u: UsedState)
    ensures NotifyWanted(m, u) ==
            if u.base == 0 || u.size == 0 then Err(QueueNotReady)
            else if !m.Accessible(u.base, 4) then Err(InvalidAddress)
            else Ok(m.bytes[u.base] % 2 == 0)
  {
    if m.Accessible(u.base, 4) {
      SliceOfSlice(m.bytes, u.base, 4, 0, 2);
      ReadsAt(m.bytes, u.base);
      Shift2(m.bytes[u.base], m.bytes[u.base + 1]);
    }
  }

  /** The request type is the word at offset 0 of the header, the sector the long word at offset 8. */
  lemma HeaderLayout(bytes: seq<byte>, at: nat)
    requires at + 16 <= |bytes|
    ensures DecodeHeader(bytes[at..at + 16]) ==
            BlockHeader(Word32(bytes, at), Word32(bytes, at + 4), Word64(bytes, at + 8))
  {
    SliceOfSlice(bytes, at, 16, 0, 4);
    SliceOfSlice(bytes, at, 16, 4, 8);
    ReadsAt(bytes, at + 4);
    SliceOfSlice(bytes, at, 16, 8, 16);
    ReadsAt(bytes, at);
    ReadsAt(bytes, at + 8);
  }

  /** The header of a chain: its first descriptor must be for the device to read, at least 16 bytes long and accessible. */
  lemma HeaderOutcome(m: Mem, ds: seq<Desc>)
    requires ds != []
    ensures var first := ds[0];
            HeaderOf(m, ds) ==
            if first.flags / 2 % 2 == 1 || first.len < 16 then Err(InvalidDescriptor)
            else if !m.Accessible(first.addr, 16) then Err(InvalidAddress)
            else Ok(BlockHeader(Word32(m.bytes, first.addr), Word32(m.bytes, first.addr + 4),
                                Word64(m.bytes, first.addr + 8)))
  {
    if m.Accessible(ds[0].addr, 16) {
      HeaderLayout(m.bytes, ds[0].addr);
    }
  }

  /** Sector `sector` begins at byte `512 * sector` of the disk: a read returns the bytes from there, and a write replaces
      them and no others. */
  lemma DiskLayout(d: Disk, sector: nat, data: seq<byte>)
    ensures d.CanRead(sector, |data|) <==> 512 * sector + |data| <= |d.content| && !d.refusesRead(sector, |data|)
    ensures d.CanWrite(sector, |data|) <==> 512 * sector + |data| <= |d.content| && !d.refusesWrite(sector, |data|)
    ensures d.CanRead(sector, |data|) ==>
              forall i :: 0 <= i < |data| ==> d.Read(sector, |data|)[i] == d.content[512 * sector + i]
    ensures d.CanWrite(sector, |data|) ==>
              && d.Write(sector, data) == d.(content := d.Write(sector, data).content)
              && |d.Write(sector, data).content| == |d.content|
              && forall i :: 0 <= i < |d.content| ==>
                   d.Write(sector, data).content[i] ==
                   if 512 * sector <= i < 512 * sector + |data| then data[i - 512 * sector] else d.content[i]
  {
  }
}
