/** The available and used rings. `AvailState` and `UsedState` are the values of the two ring objects; the objects
    also keep what the 16-bit counters stand for: how many entries were consumed, and every element written. */
module Rings {
  import opened Common
  import opened Bytes
  import opened Memory
  import opened WrappingCounters

  datatype UsedElem = UsedElem(id: u32, len: u32)

  function EncodeElem(e: UsedElem): (bs: seq<byte>)
    ensures |bs| == USED_ELEM_SIZE
  {
    Le32(e.id) + Le32(e.len)
  }

  function DecodeElem(bs: seq<byte>): UsedElem
    requires |bs| == USED_ELEM_SIZE
  {
    UsedElem(U32(bs[..4]), U32(bs[4..]))
  }

  lemma ElemRoundTrip(e: UsedElem)
    ensures DecodeElem(EncodeElem(e)) == e
  {
    assert EncodeElem(e)[..4] == Le32(e.id) && EncodeElem(e)[4..] == Le32(e.len);
  }

  // ------------------------------------------------------------------ available ring

  datatype AvailState = AvailState(base: nat, size: nat, last: u16, consumed: nat) {
    predicate IsValid() { base != 0 && size > 0 }
    function IdxAddr(): nat { base + 2 }
    function EntryAddr(slot: nat): nat { base + RING_HEADER_SIZE + slot * AVAIL_ENTRY_SIZE }
    /** Index field and entries: what the device reads. */
    function Extent(): Region { Region(base + 2, 2 + size * AVAIL_ENTRY_SIZE) }
  }

  function AvailIdx(m: Mem, a: AvailState): Result<u16> {
    if !a.IsValid() then Err(QueueNotReady)
    else if !m.Accessible(a.IdxAddr(), 2) then Err(InvalidAddress)
    else Ok(U16(m.Load(a.IdxAddr(), 2)))
  }

  function AvailEntry(m: Mem, a: AvailState, index: nat): Result<u16> {
    if !a.IsValid() then Err(QueueNotReady)
    else if !m.Accessible(a.EntryAddr(index % a.size), 2) then Err(InvalidAddress)
    else Ok(U16(m.Load(a.EntryAddr(index % a.size), 2)))
  }

  function Consume(a: AvailState, idx: u16): AvailState {
    a.(last := idx, consumed := a.consumed + Distance(a.last, idx))
  }

  class AvailableRing {
    const baseAddr: nat
    const size: u16
    var lastAvailIdx: u16
    ghost var consumed: nat

    ghost function View(): AvailState
      reads this
    {
      AvailState(baseAddr, size, lastAvailIdx, consumed)
    }

    constructor (base: nat, ringSize: u16)
      ensures View() == AvailState(base, ringSize, 0, 0)
    {
      baseAddr, size, lastAvailIdx, consumed := base, ringSize, 0, 0;
    }

    constructor Clone(other: AvailableRing)
      ensures View() == other.View()
    {
      baseAddr, size, lastAvailIdx, consumed := other.baseAddr, other.size, other.lastAvailIdx, other.consumed;
    }

    method RingEntryAddr(index: nat) returns (addr: Option<nat>)
      ensures addr == if index < size then Some(View().EntryAddr(index)) else None
    {
      if index >= size {
        return None;
      }
      return Some(baseAddr + (RING_HEADER_SIZE + index * AVAIL_ENTRY_SIZE));
    }

    method UpdateLastAvailIdx(idx: u16)
      modifies this
      ensures View() == Consume(old(View()), idx)
    {
      consumed := consumed + Distance(lastAvailIdx, idx);
      lastAvailIdx := idx;
    }

    method ReadAvailIdx(mem: GuestMemory) returns (r: Result<u16>)
      ensures r == AvailIdx(mem.View(), View())
    {
      if baseAddr == 0 || size == 0 {
        return Err(QueueNotReady);
      }
      var bs := mem.ReadObj(baseAddr + 2, 2);
      match bs
      case None => return Err(InvalidAddress);
      case Some(b) => return Ok(U16(b));
    }

    method ReadAvailRingEntry(mem: GuestMemory, index: u16) returns (r: Result<u16>)
      ensures r == AvailEntry(mem.View(), View(), index)
    {
      if baseAddr == 0 || size == 0 {
        return Err(QueueNotReady);
      }
      var addr := RingEntryAddr(index % size);
      var bs := mem.ReadObj(addr.value, 2);
      match bs
      case None => return Err(InvalidAddress);
      case Some(b) => return Ok(U16(b));
    }

    /** What is written is what a later read of the entry returns; no other byte changes. */
    method WriteAvailRingEntry(mem: GuestMemory, index: u16, descIndex: u16) returns (r: Result<()>)
      modifies mem
      ensures r.Ok? <==> AvailEntry(old(mem.View()), View(), index).Ok?
      ensures r.Ok? ==> mem.View() == old(mem.View()).Store(View().EntryAddr(index % size), Le16(descIndex))
      ensures r.Ok? ==> AvailEntry(mem.View(), View(), index) == Ok(descIndex)
      ensures r.Err? ==> mem.View() == old(mem.View())
    {
      if baseAddr == 0 || size == 0 {
        return Err(QueueNotReady);
      }
      var addr := RingEntryAddr(index % size);
      ghost var before := mem.View();
      var ok := mem.WriteBuffer(addr.value, Le16(descIndex));
      if !ok {
        return Err(InvalidAddress);
      }
      StoreReadsBack(before, addr.value, Le16(descIndex));
      return Ok(());
    }

    method GetAvailableCount(mem: GuestMemory) returns (r: Result<u16>)
      ensures r == match AvailIdx(mem.View(), View())
                   case Err(e) => Err(e)
                   case Ok(idx) => Ok(Distance(lastAvailIdx, idx))
    {
      var idx := ReadAvailIdx(mem);
      match idx
      case Err(e) => return Err(e);
      case Ok(i) => return Ok((i - lastAvailIdx) % 0x1_0000);
    }
  }

  // ------------------------------------------------------------------ used ring

  datatype UsedState = UsedState(base: nat, size: nat, idx: u16, history: seq<UsedElem>) {
    predicate IsValid() { base != 0 && size > 0 }
    function IdxAddr(): nat { base + 2 }
    function ElemAddr(slot: nat): nat { base + RING_HEADER_SIZE + slot * USED_ELEM_SIZE }
    /** Header and elements. */
    function Extent(): Region { Region(base, RING_HEADER_SIZE + size * USED_ELEM_SIZE) }
  }

  /** Writes the element, then advances the counter, then writes the index field; any of the two writes may fail,
      and the counter stays advanced when only the second one does. */
  function AppendUsed(m: Mem, u: UsedState, e: UsedElem): (Mem, UsedState, Result<()>) {
    if !u.IsValid() then (m, u, Err(QueueNotReady))
    else
      var at := u.ElemAddr(u.idx % u.size);
      if !m.Accessible(at, USED_ELEM_SIZE) then (m, u, Err(InvalidAddress))
      else
        var m1 := m.Store(at, EncodeElem(e));
        var u1 := u.(idx := Next(u.idx), history := u.history + [e]);
        if !m1.Accessible(u.IdxAddr(), 2) then (m1, u1, Err(InvalidAddress))
        else (m1.Store(u.IdxAddr(), Le16(u1.idx)), u1, Ok(()))
  }

  /** Bit 0 of the used ring's own flags, VIRTQ_USED_F_NO_NOTIFY, clear. */
  function NotifyWanted(m: Mem, u: UsedState): Result<bool> {
    if !u.IsValid() then Err(QueueNotReady)
    else if !m.Accessible(u.base, RING_HEADER_SIZE) then Err(InvalidAddress)
    else Ok(U16(m.Load(u.base, RING_HEADER_SIZE)[..2]) % 2 == 0)
  }

  class UsedRing {
    const baseAddr: nat
    const size: u16
    var usedIdx: u16
    ghost var history: seq<UsedElem>

    ghost function View(): UsedState
      reads this
    {
      UsedState(baseAddr, size, usedIdx, history)
    }

    constructor (base: nat, ringSize: u16)
      ensures View() == UsedState(base, ringSize, 0, [])
    {
      baseAddr, size, usedIdx, history := base, ringSize, 0, [];
    }

    constructor Clone(other: UsedRing)
      ensures View() == other.View()
    {
      baseAddr, size, usedIdx, history := other.baseAddr, other.size, other.usedIdx, other.history;
    }

    method RingEntryAddr(index: nat) returns (addr: Option<nat>)
      ensures addr == if index < size then Some(View().ElemAddr(index)) else None
    {
      if index >= size {
        return None;
      }
      return Some(baseAddr + (RING_HEADER_SIZE + index * USED_ELEM_SIZE));
    }

    method WriteUsedIdx(mem: GuestMemory) returns (r: Result<()>)
      modifies mem
      ensures mem.View() == if View().IsValid() then old(mem.View()).TryStore(View().IdxAddr(), Le16(usedIdx))
                            else old(mem.View())
      ensures r == if !View().IsValid() then Err(QueueNotReady)
                   else if !old(mem.View()).Accessible(View().IdxAddr(), 2) then Err(InvalidAddress)
                   else Ok(())
    {
      if baseAddr == 0 || size == 0 {
        return Err(QueueNotReady);
      }
      var ok := mem.WriteBuffer(baseAddr + 2, Le16(usedIdx));
      return if ok then Ok(()) else Err(InvalidAddress);
    }

    method AddUsed(mem: GuestMemory, id: u32, len: u32) returns (r: Result<()>)
      modifies this, mem
      ensures (mem.View(), View(), r) == AppendUsed(old(mem.View()), old(View()), UsedElem(id, len))
    {
      if baseAddr == 0 || size == 0 {
        return Err(QueueNotReady);
      }
      var at := RingEntryAddr(usedIdx % size);
      var elem := UsedElem(id, len);
      var ok := mem.WriteBuffer(at.value, EncodeElem(elem));
      if !ok {
        return Err(InvalidAddress);
      }
      usedIdx := (usedIdx + 1) % 0x1_0000;
      history := history + [elem];
      r := WriteUsedIdx(mem);
    }

    method ShouldNotify(mem: GuestMemory) returns (r: Result<bool>)
      ensures r == NotifyWanted(mem.View(), View())
    {
      if baseAddr == 0 || size == 0 {
        return Err(QueueNotReady);
      }
      var header := mem.ReadObj(baseAddr, RING_HEADER_SIZE);
      match header
      case None => return Err(InvalidAddress);
      case Some(h) => return Ok(U16(h[..2]) % 2 == 0);
    }
  }
}
