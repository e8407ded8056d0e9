/** One virtqueue: its configuration registers, its table and rings, and the operations the device layer calls. */
module Queues {
  import opened Common
  import opened Bytes
  import opened Memory
  import opened WrappingCounters
  import opened Bits
  import opened Descriptors
  import opened Rings

  datatype QueueState = QueueState(
    index: nat,
    size: nat,
    maxSize: nat,
    ready: bool,
    descAddr: u64,
    availAddr: u64,
    usedAddr: u64,
    desc: Option<DescriptorTable>,
    avail: Option<AvailState>,
    used: Option<UsedState>,
    nextAvail: u16,
    nextUsed: nat)
  {
    predicate IsValid() { ready && descAddr != 0 && availAddr != 0 && usedAddr != 0 }

    function LastAvail(): u16 { if avail.Some? then avail.value.last else nextAvail }
  }

  function FreshQueue(index: nat, size: nat): QueueState {
    QueueState(index, size, size, false, 0, 0, 0, None, None, None, 0, 0)
  }

  // ------------------------------------------------------------------ configuration

  predicate AcceptsSize(q: QueueState, size: u16) {
    size != 0 && size <= q.maxSize && BitAnd(size, size - 1) == 0
  }

  function SetSize(q: QueueState, size: u16): QueueState {
    if AcceptsSize(q, size) then q.(size := size) else q
  }

  function SetDescAddr(q: QueueState, addr: u64): QueueState {
    if q.descAddr != 0 || addr == 0 then q
    else q.(descAddr := addr, desc := Some(DescriptorTable(addr, q.size)))
  }

  function SetAvailAddr(q: QueueState, addr: u64): QueueState {
    if q.availAddr != 0 || addr == 0 then q
    else q.(availAddr := addr, avail := Some(AvailState(addr, q.size, 0, 0)))
  }

  function SetUsedAddr(q: QueueState, addr: u64): QueueState {
    if q.usedAddr != 0 || addr == 0 then q
    else q.(usedAddr := addr, used := Some(UsedState(addr, q.size, 0, [])))
  }

  function ResetQueue(q: QueueState): QueueState {
    FreshQueue(q.index, q.size).(maxSize := q.maxSize)
  }

  // ------------------------------------------------------------------ ring and chain access

  function QueueAvailIdx(m: Mem, q: QueueState): Result<u16> {
    if q.avail.None? then Err(QueueNotReady) else AvailIdx(m, q.avail.value)
  }

  function QueueAvailEntry(m: Mem, q: QueueState, index: nat): Result<u16> {
    if q.avail.None? then Err(QueueNotReady) else AvailEntry(m, q.avail.value, index)
  }

  function QueueConsume(q: QueueState, idx: u16): QueueState
    requires q.size > 0
  {
    if q.avail.Some? then q.(avail := Some(Consume(q.avail.value, idx)))
    else q.(nextAvail := idx % q.size)
  }

  /** `q'` is `q` with, at most, more completions: a copy of `q` is still faithful in everything but the used ring's
      counters. */
  predicate OnlyCompleted(q: QueueState, q': QueueState) {
    && q' == q.(used := q'.used, nextUsed := q'.nextUsed)
    && (q.used.Some? <==> q'.used.Some?)
    && (q.used.Some? ==>
          && q'.used.value == q.used.value.(idx := q'.used.value.idx, history := q'.used.value.history)
          && q.used.value.history <= q'.used.value.history)
  }

  function QueueAppendUsed(m: Mem, q: QueueState, e: UsedElem): (r: (Mem, QueueState, Result<()>))
    requires q.size > 0
    ensures OnlyCompleted(q, r.1)
  {
    if !q.IsValid() then (m, q, Err(QueueNotReady))
    else if q.used.None? then (m, q.(nextUsed := (q.nextUsed + 1) % q.size), Ok(()))
    else
      var (m', u, r) := AppendUsed(m, q.used.value, e);
      (m', q.(used := Some(u), nextUsed := if r.Ok? then u.idx else q.nextUsed), r)
  }

  function QueueFollow(m: Mem, q: QueueState, head: nat): Result<seq<Desc>> {
    if q.desc.None? then Err(QueueNotReady) else Follow(m, q.desc.value, head)
  }

  function QueueStatusAddr(m: Mem, q: QueueState, head: nat): Result<u64> {
    if q.desc.None? then Err(QueueNotReady) else StatusAddr(m, q.desc.value, head)
  }

  function StatusWritten(m: Mem, q: QueueState, head: nat, status: byte): (Mem, Result<()>) {
    match QueueStatusAddr(m, q, head)
    case Err(e) => (m, Err(e))
    case Ok(addr) => (m.TryStore(addr, [status]), if m.Accessible(addr, 1) then Ok(()) else Err(InvalidAddress))
  }

  function QueueNotifyWanted(m: Mem, q: QueueState): Result<bool> {
    if q.used.None? then Err(QueueNotReady) else NotifyWanted(m, q.used.value)
  }

  // ------------------------------------------------------------------ the representation invariant

  function Consumed(q: QueueState): nat { if q.avail.Some? then q.avail.value.consumed else 0 }

  function Completed(q: QueueState): nat { if q.used.Some? then |q.used.value.history| else 0 }

  /** A table or ring exists exactly when its address register is nonzero, sits there, and has a power-of-two size up
      to 256; and the 16-bit counters are the unbounded ones wrapped. */
  ghost predicate RepInv(q: QueueState) {
    && IsRingSize(q.size) && q.maxSize == DEFAULT_QUEUE_SIZE
    && (q.desc.Some? <==> q.descAddr != 0)
    && (q.avail.Some? <==> q.availAddr != 0)
    && (q.used.Some? <==> q.usedAddr != 0)
    && (q.desc.Some? ==> q.desc.value.baseAddr == q.descAddr && IsRingSize(q.desc.value.size))
    && (q.avail.Some? ==> q.avail.value.base == q.availAddr && IsRingSize(q.avail.value.size)
                          && q.avail.value.last == q.avail.value.consumed % 0x1_0000)
    && (q.used.Some? ==> q.used.value.base == q.usedAddr && IsRingSize(q.used.value.size)
                         && q.used.value.idx == |q.used.value.history| % 0x1_0000)
  }

  /** No more completions than consumed entries. */
  ghost predicate Conserved(q: QueueState) { Completed(q) <= Consumed(q) }

  /** QUEUE_NUM takes exactly the nine powers of two up to 256. */
  lemma AcceptedSizes(q: QueueState, size: u16)
    requires q.maxSize == DEFAULT_QUEUE_SIZE
    ensures AcceptsSize(q, size) <==> IsRingSize(size)
  {
    if 0 < size <= 256 {
      MaskTest(size);
    }
  }

  class VirtioQueue {
    const index: nat
    const maxSize: nat
    var size: nat
    var ready: bool
    var descAddr: u64
    var availAddr: u64
    var usedAddr: u64
    var descTable: Option<DescriptorTable>
    var availRing: AvailableRing?
    var usedRing: UsedRing?
    var nextAvail: u16
    var nextUsed: nat

    ghost function Repr(): set<object>
      reads this
    {
      {this} + (if availRing != null then {availRing} else {}) + (if usedRing != null then {usedRing} else {})
    }

    ghost function View(): QueueState
      reads this, availRing, usedRing
    {
      QueueState(index, size, maxSize, ready, descAddr, availAddr, usedAddr, descTable,
                 if availRing == null then None else Some(availRing.View()),
                 if usedRing == null then None else Some(usedRing.View()),
                 nextAvail, nextUsed)
    }

    constructor (queueIndex: nat, queueSize: nat)
      ensures View() == FreshQueue(queueIndex, queueSize)
      ensures Repr() == {this}
    {
      index, maxSize, size := queueIndex, queueSize, queueSize;
      ready, descAddr, availAddr, usedAddr := false, 0, 0, 0;
      descTable, availRing, usedRing := None, null, null;
      nextAvail, nextUsed := 0, 0;
    }

    /** The copy the notification handler works from: equal in value, sharing no ring with the original. */
    constructor Clone(other: VirtioQueue)
      ensures View() == other.View()
      ensures fresh(Repr())
    {
      index, maxSize, size := other.index, other.maxSize, other.size;
      ready, descAddr, availAddr, usedAddr := other.ready, other.descAddr, other.availAddr, other.usedAddr;
      descTable, availRing, usedRing := other.descTable, null, null;
      nextAvail, nextUsed := other.nextAvail, other.nextUsed;
      new;
      if other.availRing != null {
        availRing := new AvailableRing.Clone(other.availRing);
      }
      if other.usedRing != null {
        usedRing := new UsedRing.Clone(other.usedRing);
      }
    }

    method SetQueueSize(newSize: u16) returns (r: Result<()>)
      modifies this
      ensures View() == SetSize(old(View()), newSize) && Repr() == old(Repr())
      ensures r == if AcceptsSize(old(View()), newSize) then Ok(()) else Err(InvalidQueue)
    {
      if newSize == 0 || newSize > maxSize || BitAnd(newSize, newSize - 1) != 0 {
        return Err(InvalidQueue);
      }
      size := newSize;
      return Ok(());
    }

    method SetDescTableAddr(addr: u64) returns (r: Result<()>)
      modifies this
      ensures View() == SetDescAddr(old(View()), addr) && Repr() == old(Repr())
      ensures r == if old(descAddr) != 0 then Err(InvalidConfig) else Ok(())
    {
      if descAddr != 0 {
        return Err(InvalidConfig);
      }
      descAddr := addr;
      if addr != 0 {
        descTable := Some(DescriptorTable(addr, size));
      }
      return Ok(());
    }

    method SetAvailRingAddr(addr: u64) returns (r: Result<()>)
      requires size <= maxSize < 0x1_0000
      modifies this
      ensures View() == SetAvailAddr(old(View()), addr)
      ensures fresh(Repr() - old(Repr()))
      ensures r == if old(availAddr) != 0 then Err(InvalidConfig) else Ok(())
    {
      if availAddr != 0 {
        return Err(InvalidConfig);
      }
      availAddr := addr;
      if addr != 0 {
        availRing := new AvailableRing(addr, size);
      }
      return Ok(());
    }

    method SetUsedRingAddr(addr: u64) returns (r: Result<()>)
      requires size <= maxSize < 0x1_0000
      modifies this
      ensures View() == SetUsedAddr(old(View()), addr)
      ensures fresh(Repr() - old(Repr()))
      ensures r == if old(usedAddr) != 0 then Err(InvalidConfig) else Ok(())
    {
      if usedAddr != 0 {
        return Err(InvalidConfig);
      }
      usedAddr := addr;
      if addr != 0 {
        usedRing := new UsedRing(addr, size);
      }
      return Ok(());
    }

    method SetReady(isReady: bool)
      modifies this
      ensures View() == old(View()).(ready := isReady) && Repr() == old(Repr())
    {
      ready := isReady;
    }

    method Reset()
      modifies this
      ensures View() == ResetQueue(old(View())) && Repr() == {this}
    {
      ready := false;
      descAddr, availAddr, usedAddr := 0, 0, 0;
      nextAvail, nextUsed := 0, 0;
      descTable, availRing, usedRing := None, null, null;
    }

    method ReadAvailIdx(mem: GuestMemory) returns (r: Result<u16>)
      ensures r == QueueAvailIdx(mem.View(), View())
    {
      if availRing == null {
        return Err(QueueNotReady);
      }
      r := availRing.ReadAvailIdx(mem);
    }

    method ReadAvailEntry(mem: GuestMemory, ringIndex: u16) returns (r: Result<u16>)
      ensures r == QueueAvailEntry(mem.View(), View(), ringIndex)
    {
      if availRing == null {
        return Err(QueueNotReady);
      }
      r := availRing.ReadAvailRingEntry(mem, ringIndex);
    }

    method GetLastAvailIdx() returns (idx: u16)
      ensures idx == View().LastAvail()
    {
      idx := if availRing != null then availRing.lastAvailIdx else nextAvail;
    }

    method UpdateLastAvailIdx(idx: u16)
      requires size > 0
      modifies Repr()
      ensures View() == QueueConsume(old(View()), idx) && Repr() == old(Repr())
    {
      if availRing != null {
        availRing.UpdateLastAvailIdx(idx);
      } else {
        nextAvail := idx % size;
      }
    }

    method AddUsed(mem: GuestMemory, descIndex: u16, len: u32) returns (r: Result<()>)
      requires size > 0
      modifies Repr(), mem
      ensures (mem.View(), View(), r) == QueueAppendUsed(old(mem.View()), old(View()), UsedElem(descIndex, len))
      ensures Repr() == old(Repr())
    {
      if !(ready && descAddr != 0 && availAddr != 0 && usedAddr != 0) {
        return Err(QueueNotReady);
      }
      if usedRing != null {
        r := usedRing.AddUsed(mem, descIndex, len);
        if r.Ok? {
          nextUsed := usedRing.usedIdx;
        }
      } else {
        nextUsed := (nextUsed + 1) % size;
        r := Ok(());
      }
    }

    method ValidateBlockChain(mem: GuestMemory, head: nat, minLength: nat) returns (r: Result<bool>)
      ensures r == match QueueFollow(mem.View(), View(), head)
                   case Err(e) => Err(e)
                   case Ok(ds) => Ok(|ds| >= minLength)
    {
      if descTable.None? {
        return Err(QueueNotReady);
      }
      var chain := descTable.value.FollowChain(mem, head);
      match chain
      case Err(e) => return Err(e);
      case Ok(ds) => return Ok(|ds| >= minLength);
    }

    method GetDataBuffers(mem: GuestMemory, head: nat, device: DeviceType) returns (r: Result<seq<Buffer>>)
      ensures r == match QueueFollow(mem.View(), View(), head)
                   case Err(e) => Err(e)
                   case Ok(ds) => Ok(DataBuffers(ds, device))
    {
      if descTable.None? {
        return Err(QueueNotReady);
      }
      r := descTable.value.GetDataBuffers(mem, head, device);
    }

    method GetStatusAddr(mem: GuestMemory, head: nat) returns (r: Result<u64>)
      ensures r == QueueStatusAddr(mem.View(), View(), head)
    {
      if descTable.None? {
        return Err(QueueNotReady);
      }
      r := descTable.value.GetStatusAddr(mem, head);
    }

    method WriteStatusByte(mem: GuestMemory, head: nat, status: byte) returns (r: Result<()>)
      modifies mem
      ensures (mem.View(), r) == StatusWritten(old(mem.View()), View(), head, status)
    {
      var addr := GetStatusAddr(mem, head);
      if addr.Err? {
        return Err(addr.error);
      }
      var ok := mem.WriteBuffer(addr.value, [status]);
      return if ok then Ok(()) else Err(InvalidAddress);
    }

    method ShouldNotify(mem: GuestMemory) returns (r: Result<bool>)
      ensures r == QueueNotifyWanted(mem.View(), View())
    {
      if usedRing == null {
        return Err(QueueNotReady);
      }
      r := usedRing.ShouldNotify(mem);
    }
  }
}
