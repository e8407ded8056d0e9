/** The MMIO block device: its registers, what each register write does to the whole system, and the device object. */
module BlockDevice {
  import opened Common
  import opened Bytes
  import opened Memory
  import opened WrappingCounters
  import opened Bits
  import opened Rings
  import opened BlockRequests
  import opened Queues
  import opened QueueEngine

  /** The writable registers. */
  datatype Reg =
    | DeviceFeaturesSel
    | DriverFeatures
    | DriverFeaturesSel
    | QueueSel
    | QueueNum
    | QueueReady
    | QueueNotify
    | InterruptAck
    | Status
    | QueueDescLow
    | QueueDescHigh
    | QueueAvailLow
    | QueueAvailHigh
    | QueueUsedLow
    | QueueUsedHigh
  {
    /** The registers that configure the selected queue. */
    predicate ConfiguresQueue() {
      QueueNum? || QueueReady? || QueueDescLow? || QueueDescHigh? || QueueAvailLow? || QueueAvailHigh?
      || QueueUsedLow? || QueueUsedHigh?
    }
  }

  function Decode(offset: nat): Option<Reg> {
    if offset == 0x014 then Some(DeviceFeaturesSel)
    else if offset == 0x020 then Some(DriverFeatures)
    else if offset == 0x024 then Some(DriverFeaturesSel)
    else if offset == 0x030 then Some(QueueSel)
    else if offset == 0x038 then Some(QueueNum)
    else if offset == 0x044 then Some(QueueReady)
    else if offset == 0x050 then Some(QueueNotify)
    else if offset == 0x064 then Some(InterruptAck)
    else if offset == 0x070 then Some(Status)
    else if offset == 0x080 then Some(QueueDescLow)
    else if offset == 0x084 then Some(QueueDescHigh)
    else if offset == 0x090 then Some(QueueAvailLow)
    else if offset == 0x094 then Some(QueueAvailHigh)
    else if offset == 0x0a0 then Some(QueueUsedLow)
    else if offset == 0x0a4 then Some(QueueUsedHigh)
    else None
  }

  datatype AccessWidth = Byte | Word | Dword | Qword

  /** Configuration space begins here; below it only 32-bit accesses are accepted. */
  const CONFIG_OFFSET: nat := 0x100

  /** Inside the device, by a subtraction that stops at zero: an address below the base counts as inside. */
  predicate InRange(base: u64, length: u64, addr: u64) {
    (if addr < base then 0 else addr - base) < length
  }

  /** The distance from the base, by a subtraction that wraps. */
  function WrappedOffset(base: u64, addr: u64): u64 { (addr - base) % 0x1_0000_0000_0000_0000 }

  /** The offset an access is treated as having. One past the end of the device is treated as offset 0, which is no
      writable register. */
  function AccessOffset(base: u64, length: u64, addr: u64, width: AccessWidth): Result<u64> {
    if !InRange(base, length, addr) then Ok(0)
    else if WrappedOffset(base, addr) < CONFIG_OFFSET && width != Dword then Err(InvalidAccessWidth)
    else Ok(WrappedOffset(base, addr))
  }

  /** The register a write reaches: one of 32 bits, inside the device, at the offset of a writable register. */
  function Reached(base: u64, length: u64, addr: u64, width: AccessWidth): Option<Reg> {
    if InRange(base, length, addr) && width == Dword then Decode(WrappedOffset(base, addr)) else None
  }

  /** Below configuration space, a write inside the device but of another width is dropped without a word. */
  predicate Dropped(base: u64, length: u64, addr: u64, width: AccessWidth) {
    InRange(base, length, addr) && WrappedOffset(base, addr) < CONFIG_OFFSET && width != Dword
  }

  lemma OffsetReaches(base: u64, length: u64, addr: u64, width: AccessWidth)
    ensures AccessOffset(base, length, addr, width).Err? <==> Dropped(base, length, addr, width)
    ensures Dropped(base, length, addr, width) ==> Reached(base, length, addr, width).None?
    ensures AccessOffset(base, length, addr, width).Ok? ==>
              Decode(AccessOffset(base, length, addr, width).value) == Reached(base, length, addr, width)
  {
  }

  /** Bit numbers of the status register. */
  const DRIVER_OK_BIT: nat := 2
  const FEATURES_OK_BIT: nat := 3
  const FAILED_BIT: nat := 7

  /** VERSION_1, RING_EVENT_IDX, and the block features SIZE_MAX, SEG_MAX, BLK_SIZE and FLUSH. */
  const BLOCK_FEATURES: u64 := 0x1_2000_0246

  datatype DeviceState = DeviceState(
    status: nat,
    driverFeatures: u64,
    deviceFeaturesSel: u32,
    driverFeaturesSel: u32,
    queueSel: nat,
    queues: seq<QueueState>,
    interruptStatus: u32,
    configGeneration: u32)

  datatype World = World(mem: Mem, disk: Disk, dev: DeviceState)

  function FreshDevice(): DeviceState {
    DeviceState(0, 0, 0, 0, 0, [FreshQueue(0, DEFAULT_QUEUE_SIZE)], 0, 0)
  }

  function EngineOf(w: World, qi: nat): Engine
    requires qi < |w.dev.queues|
  {
    Engine(w.mem, w.disk, w.dev.queues[qi], w.dev.interruptStatus)
  }

  function WithEngine(w: World, qi: nat, e: Engine): World
    requires qi < |w.dev.queues|
  {
    World(e.mem, e.disk, w.dev.(queues := w.dev.queues[qi := e.queue], interruptStatus := e.irq))
  }

  function WithQueue(w: World, q: QueueState): World
    requires w.dev.queueSel < |w.dev.queues|
  {
    w.(dev := w.dev.(queues := w.dev.queues[w.dev.queueSel := q]))
  }

  /** The conditions under which a notification is served. */
  predicate Serves(dev: DeviceState, qi: nat) {
    HasBit(dev.status, DRIVER_OK_BIT) && qi < |dev.queues| && dev.queues[qi].IsValid() && dev.queues[qi].size > 0
  }

  function Notify(w: World, qi: nat): World {
    if Serves(w.dev, qi) then WithEngine(w, qi, ProcessQueue(EngineOf(w, qi))) else w
  }

  /** FEATURES_OK is refused, and FAILED set, when the driver accepted a feature the device does not offer. */
  function NegotiatedStatus(dev: DeviceState, status: u32): nat {
    if HasBit(status, FEATURES_OK_BIT) && BitAndNot(dev.driverFeatures, BLOCK_FEATURES) != 0
    then SetBit(ClearBit(status, FEATURES_OK_BIT), FAILED_BIT)
    else status
  }

  function ResetQueues(qs: seq<QueueState>): seq<QueueState> {
    seq(|qs|, i requires 0 <= i < |qs| => ResetQueue(qs[i]))
  }

  function ResetState(dev: DeviceState): DeviceState {
    DeviceState(0, 0, 0, 0, 0, ResetQueues(dev.queues), 0, 0)
  }

  /** The driver's feature word with one 32-bit half replaced; other selectors are ignored. */
  function MergeFeatures(features: u64, sel: u32, val: u32): u64 {
    if sel == 0 then WithLow(features, val)
    else if sel == 1 then WithHigh(features, val)
    else features
  }

  function WithLow(word: u64, val: u32): u64 { word - word % 0x1_0000_0000 + val }

  function WithHigh(word: u64, val: u32): u64 { val * 0x1_0000_0000 + word % 0x1_0000_0000 }

  function Low16(val: u32): u16 { val % 0x1_0000 }

  /** What a configuration register does to the queue it addresses. */
  function Configure(q: QueueState, reg: Reg, val: u32): QueueState {
    match reg
    case QueueNum => SetSize(q, Low16(val))
    case QueueReady => q.(ready := val != 0)
    case QueueDescLow => SetDescAddr(q, WithLow(q.descAddr, val))
    case QueueDescHigh => SetDescAddr(q, WithHigh(q.descAddr, val))
    case QueueAvailLow => SetAvailAddr(q, WithLow(q.availAddr, val))
    case QueueAvailHigh => SetAvailAddr(q, WithHigh(q.availAddr, val))
    case QueueUsedLow => SetUsedAddr(q, WithLow(q.usedAddr, val))
    case QueueUsedHigh => SetUsedAddr(q, WithHigh(q.usedAddr, val))
    case _ => q
  }

  function SelectedQueueWrite(w: World, reg: Reg, val: u32): World {
    if w.dev.queueSel < |w.dev.queues| then WithQueue(w, Configure(w.dev.queues[w.dev.queueSel], reg, val)) else w
  }

  /** Writing zero resets the device. */
  function StatusWrite(dev: DeviceState, val: u32): DeviceState {
    if val == 0 then ResetState(dev) else dev.(status := NegotiatedStatus(dev, val))
  }

  /** One 32-bit register write. */
  function RegisterWrite(w: World, reg: Reg, val: u32): World {
    match reg
    case DeviceFeaturesSel => w.(dev := w.dev.(deviceFeaturesSel := val))
    case DriverFeatures =>
      w.(dev := w.dev.(driverFeatures := MergeFeatures(w.dev.driverFeatures, w.dev.driverFeaturesSel, val)))
    case DriverFeaturesSel => w.(dev := w.dev.(driverFeaturesSel := val))
    case QueueSel => if Low16(val) < |w.dev.queues| then w.(dev := w.dev.(queueSel := Low16(val))) else w
    case QueueNotify => Notify(w, Low16(val))
    case InterruptAck => w.(dev := w.dev.(interruptStatus := BitAndNot(w.dev.interruptStatus, val)))
    case Status => w.(dev := StatusWrite(w.dev, val))
    case _ => SelectedQueueWrite(w, reg, val)
  }

  /** One MMIO write: one that reaches a register has the effect of its low 32 bits on it; no other has any effect, and all
      but the dropped ones are refused. */
  function MmioEffect(w: World, base: u64, length: u64, addr: u64, width: AccessWidth, val: u64): (World, Result<()>) {
    match Reached(base, length, addr, width)
    case Some(reg) => (RegisterWrite(w, reg, val % 0x1_0000_0000), Ok(()))
    case None => (w, if Dropped(base, length, addr, width) then Ok(()) else Err(InvalidRegister))
  }

  method ConfigureQueue(q: VirtioQueue, reg: Reg, val: u32)
    requires q.size <= q.maxSize < 0x1_0000
    modifies q
    ensures q.View() == Configure(old(q.View()), reg, val)
    ensures fresh(q.Repr() - old(q.Repr()))
  {
    match reg
    case QueueNum => var _ := q.SetQueueSize(Low16(val));
    case QueueReady => q.SetReady(val != 0);
    case QueueDescLow => var _ := q.SetDescTableAddr(WithLow(q.descAddr, val));
    case QueueDescHigh => var _ := q.SetDescTableAddr(WithHigh(q.descAddr, val));
    case QueueAvailLow => var _ := q.SetAvailRingAddr(WithLow(q.availAddr, val));
    case QueueAvailHigh => var _ := q.SetAvailRingAddr(WithHigh(q.availAddr, val));
    case QueueUsedLow => var _ := q.SetUsedRingAddr(WithLow(q.usedAddr, val));
    case QueueUsedHigh => var _ := q.SetUsedRingAddr(WithHigh(q.usedAddr, val));
    case _ =>
  }

  class VirtioMmioBlockDevice {
    const baseIpa: u64
    const length: u64
    const mem: GuestMemory
    const backend: BlockBackend
    var status: nat
    var driverFeatures: u64
    var deviceFeaturesSel: u32
    var driverFeaturesSel: u32
    var queueSel: nat
    var queues: seq<VirtioQueue>
    var interruptStatus: u32
    var configGeneration: u32

    /** The device is built with one queue and never gains or loses one. */
    ghost predicate Valid()
      reads this, queues
    {
      && |queues| == 1
      && queues[0].index == 0
      && 0 < queues[0].size <= queues[0].maxSize < 0x1_0000
    }

    ghost function QueueRepr(): set<object>
      requires Valid()
      reads this, queues
    {
      queues[0].Repr()
    }

    ghost function EngineView(): Engine
      requires Valid()
      reads this, mem, backend, queues, QueueRepr()
    {
      Engine(mem.View(), backend.View(), queues[0].View(), interruptStatus)
    }

    ghost function View(): World
      requires Valid()
      reads this, mem, backend, queues, QueueRepr()
    {
      World(mem.View(), backend.View(),
            DeviceState(status, driverFeatures, deviceFeaturesSel, driverFeaturesSel, queueSel,
                        [queues[0].View()], interruptStatus, configGeneration))
    }

    constructor (base: u64, size: u64, memory: GuestMemory, disk: BlockBackend)
      ensures baseIpa == base && length == size
      ensures Valid() && fresh(QueueRepr())
      ensures View() == World(memory.View(), disk.View(), FreshDevice())
    {
      baseIpa, length, mem, backend := base, size, memory, disk;
      var q := new VirtioQueue(0, DEFAULT_QUEUE_SIZE);
      queues := [q];
      status, driverFeatures, deviceFeaturesSel, driverFeaturesSel := 0, 0, 0, 0;
      queueSel, interruptStatus, configGeneration := 0, 0, 0;
    }

    method ParseBlockHeader(queue: VirtioQueue, head: nat) returns (r: Result<BlockHeader>)
      ensures r == match QueueFollow(mem.View(), queue.View(), head)
                   case Err(e) => Err(e)
                   case Ok(ds) => HeaderOf(mem.View(), ds)
    {
      if queue.descTable.None? {
        return Err(QueueNotReady);
      }
      var chain := queue.descTable.value.FollowChain(mem, head);
      if chain.Err? {
        return Err(chain.error);
      }
      var descriptors := chain.value;
      if |descriptors| == 0 {
        return Err(InvalidDescriptor);
      }
      var first := descriptors[0];
      if first.IsWrite() {
        return Err(InvalidDescriptor);
      }
      if first.len < BLOCK_HEADER_SIZE {
        return Err(InvalidDescriptor);
      }
      var bs := mem.ReadObj(first.addr, BLOCK_HEADER_SIZE);
      match bs
      case None => return Err(InvalidAddress);
      case Some(b) => return Ok(DecodeHeader(b));
    }

    /** Four walks of the same chain (header, length check, data buffers, status) agree with one. */
    method ParseVirtioRequest(queue: VirtioQueue, head: nat) returns (r: Result<BlockRequest>)
      ensures r == Parse(mem.View(), queue.View(), head)
    {
      var header := ParseBlockHeader(queue, head);
      if header.Err? {
        return Err(InvalidQueue);
      }
      var long := queue.ValidateBlockChain(mem, head, MIN_DESCRIPTOR_CHAIN_LENGTH);
      if long != Ok(true) {
        return Err(InvalidQueue);
      }
      var buffers := queue.GetDataBuffers(mem, head, Block);
      if buffers.Err? {
        return Err(InvalidQueue);
      }
      var statusAddr := queue.GetStatusAddr(mem, head);
      if statusAddr.Err? {
        return Err(InvalidQueue);
      }
      return Ok(BlockRequest(header.value.requestType, header.value.sector, buffers.value, statusAddr.value));
    }

    method ExecuteBlockRequest(request: BlockRequest) returns (s: byte)
      modifies mem, backend
      ensures mem.View() == Outcome(request, old(mem.View()), old(backend.View())).0
      ensures backend.View() == Outcome(request, old(mem.View()), old(backend.View())).1
      ensures s == StatusFor(Outcome(request, old(mem.View()), old(backend.View())).2)
    {
      var res := request.Execute(mem, backend);
      match res
      case Ok(v) =>
        return v;
      case Err(e) =>
        return if e == InvalidBufferSize then VIRTIO_BLK_S_UNSUPP else VIRTIO_BLK_S_IOERR;
    }

    method TriggerInterrupt()
      modifies this`interruptStatus
      ensures interruptStatus == Interrupt(old(interruptStatus))
    {
      interruptStatus := interruptStatus - interruptStatus % 2 + 1;
    }

    /** Publishes on the live queue. */
    method PublishLive(head: u16, len: u32)
      requires Valid()
      modifies this`interruptStatus, mem, QueueRepr()
      ensures Valid() && QueueRepr() == old(QueueRepr())
      ensures EngineView() == PublishUsed(old(EngineView()), UsedElem(head, len))
    {
      var live := queues[0];
      var added := live.AddUsed(mem, head, len);
      if added.Err? {
        return;
      }
      var wanted := live.ShouldNotify(mem);
      if wanted == Ok(true) {
        TriggerInterrupt();
      }
    }

    method AddUsedBuffer(queue: VirtioQueue, head: u16, len: u32, s: byte)
      requires Valid() && queue.Repr() !! QueueRepr()
      requires OnlyCompleted(queue.View(), queues[0].View())
      modifies this`interruptStatus, mem, QueueRepr()
      ensures Valid() && QueueRepr() == old(QueueRepr())
      ensures EngineView() == CompleteRequest(old(EngineView()), head, len, s)
    {
      var written := queue.WriteStatusByte(mem, head, s);
      if written.Err? {
        return;
      }
      PublishLive(head, len);
    }

    method ProcessDescriptorChain(queue: VirtioQueue, head: u16) returns (parsed: bool)
      requires Valid() && queue.Repr() !! QueueRepr()
      requires OnlyCompleted(queue.View(), queues[0].View())
      modifies this`interruptStatus, mem, backend, QueueRepr()
      ensures Valid() && QueueRepr() == old(QueueRepr())
      ensures parsed == Parse(old(mem.View()), old(queues[0].View()), head).Ok?
      ensures EngineView() == match Parse(old(mem.View()), old(queues[0].View()), head)
                              case Ok(req) => RunRequest(old(EngineView()), head, req)
                              case Err(_) => old(EngineView())
    {
      CopyReadsAlike(mem.View(), queue.View(), queues[0].View(), head);
      var request := ParseVirtioRequest(queue, head);
      if request.Err? {
        return false;
      }
      var s := ExecuteBlockRequest(request.value);
      AddUsedBuffer(queue, head, request.value.Size() % 0x1_0000_0000, s);
      return true;
    }

    /** A head that does not parse gets an error status and joins the deferred list. */
    method HandleEntry(queue: VirtioQueue, head: u16, processed: seq<UsedElem>) returns (processed': seq<UsedElem>)
      requires Valid() && queue.Repr() !! QueueRepr()
      requires OnlyCompleted(queue.View(), queues[0].View())
      modifies this`interruptStatus, mem, backend, QueueRepr()
      ensures Valid() && QueueRepr() == old(QueueRepr())
      ensures (EngineView(), processed') == HandleHead(old(EngineView()), head, processed)
      ensures processed' == processed || processed' == processed + [UsedElem(head, 0)]
    {
      var parsed := ProcessDescriptorChain(queue, head);
      if parsed {
        return processed;
      }
      CopyReadsAlike(mem.View(), queue.View(), queues[0].View(), head);
      var _ := queue.WriteStatusByte(mem, head, VIRTIO_BLK_S_IOERR);
      return processed + [UsedElem(head, 0)];
    }

    /** The body of the batch loop. Everything is read through the clone; only the live queue changes. */
    method ProcessEntry(queue: VirtioQueue, current: u16, processed: seq<UsedElem>) returns (processed': seq<UsedElem>)
      requires Valid() && queue.Repr() !! QueueRepr()
      requires OnlyCompleted(queue.View(), queues[0].View())
      modifies this`interruptStatus, mem, backend, QueueRepr()
      ensures Valid() && QueueRepr() == old(QueueRepr())
      ensures (EngineView(), processed') == DrainStep(old(EngineView()), current, processed)
      ensures processed <= processed'
      ensures forall i :: |processed| <= i < |processed'| ==> processed'[i].id < 0x1_0000
    {
      CopyReadsAlike(mem.View(), queue.View(), queues[0].View(), current % queue.size);
      var ringIndex := current % queue.size;
      var entry := queue.ReadAvailEntry(mem, ringIndex);
      if entry.Err? {
        return processed;
      }
      processed' := HandleEntry(queue, entry.value, processed);
    }

    /** The batch loop, reading through the clone, does to the live queue what draining it in place would. */
    method DrainAvailable(queue: VirtioQueue, start: u16, stop: u16) returns (processed: seq<UsedElem>)
      requires Valid() && queue.Repr() !! QueueRepr()
      requires queue.View() == queues[0].View()
      modifies this`interruptStatus, mem, backend, QueueRepr()
      ensures Valid() && QueueRepr() == old(QueueRepr())
      ensures forall i :: 0 <= i < |processed| ==> processed[i].id < 0x1_0000
      ensures (EngineView(), processed) == Drain(old(EngineView()), start, stop, [])
    {
      ghost var e := EngineView();
      var current: u16 := start;
      processed := [];
      while current != stop
        invariant Valid() && QueueRepr() == old(QueueRepr())
        invariant OnlyCompleted(queue.View(), queues[0].View())
        invariant forall i :: 0 <= i < |processed| ==> processed[i].id < 0x1_0000
        invariant Drain(e, start, stop, []) == Drain(EngineView(), current, stop, processed)
        decreases Distance(current, stop)
      {
        DistanceStep(current, stop);
        ghost var q := queues[0].View();
        processed := ProcessEntry(queue, current, processed);
        OnlyCompletedTrans(queue.View(), q, queues[0].View());
        current := (current + 1) % 0x1_0000;
      }
    }

    method ProcessQueueRequests(queue: VirtioQueue)
      requires Valid() && queue.Repr() !! QueueRepr()
      requires queue.View() == queues[0].View()
      modifies this`interruptStatus, mem, backend, QueueRepr()
      ensures Valid() && QueueRepr() == old(QueueRepr())
      ensures EngineView() == ProcessQueue(old(EngineView()))
    {
      var idx := queue.ReadAvailIdx(mem);
      if idx.Err? {
        return;
      }
      var last := queue.GetLastAvailIdx();
      var processed := DrainAvailable(queue, last, idx.value);
      if idx.value != last || processed != [] {
        CompleteBatch(idx.value, processed);
      }
    }

    method AppendLive(elem: UsedElem)
      requires Valid() && elem.id < 0x1_0000
      modifies mem, QueueRepr()
      ensures Valid() && QueueRepr() == old(QueueRepr())
      ensures EngineView() == AppendAll(old(EngineView()), [elem])
    {
      var _ := queues[0].AddUsed(mem, elem.id, elem.len);
    }

    /** Completes the deferred heads on the live queue; failures are only logged. */
    method AppendProcessed(processed: seq<UsedElem>)
      requires Valid()
      requires forall i :: 0 <= i < |processed| ==> processed[i].id < 0x1_0000
      modifies mem, QueueRepr()
      ensures Valid() && QueueRepr() == old(QueueRepr())
      ensures EngineView() == AppendAll(old(EngineView()), processed)
    {
      ghost var e := EngineView();
      for i := 0 to |processed|
        invariant Valid() && QueueRepr() == old(QueueRepr())
        invariant AppendAll(e, processed) == AppendAll(EngineView(), processed[i..])
      {
        assert processed[i..][0] == processed[i] && processed[i..][1..] == processed[i + 1..];
        AppendLive(processed[i]);
      }
    }

    /** The tail of the batch: advances the live queue, completes the deferred heads, and notifies. */
    method CompleteBatch(current: u16, processed: seq<UsedElem>)
      requires Valid()
      requires forall i :: 0 <= i < |processed| ==> processed[i].id < 0x1_0000
      modifies this`interruptStatus, mem, QueueRepr()
      ensures Valid() && QueueRepr() == old(QueueRepr())
      ensures EngineView() == Finish(old(EngineView()), current, processed)
    {
      queues[0].UpdateLastAvailIdx(current);
      AppendProcessed(processed);
      var wanted := queues[0].ShouldNotify(mem);
      if wanted == Ok(true) {
        TriggerInterrupt();
      }
    }

    /** Works from a copy of the queue, which is discarded afterwards. */
    method ServeFromCopy()
      requires Valid()
      modifies this`interruptStatus, mem, backend, QueueRepr()
      ensures Valid() && QueueRepr() == old(QueueRepr())
      ensures var q := old(queues[0].View());
              EngineView() == if q.descAddr != 0 && q.availAddr != 0 && q.usedAddr != 0
                              then ProcessQueue(old(EngineView())) else old(EngineView())
      ensures View() == WithEngine(old(View()), 0, EngineView())
    {
      var queueCopy := new VirtioQueue.Clone(queues[0]);
      if queueCopy.descAddr == 0 || queueCopy.availAddr == 0 || queueCopy.usedAddr == 0 {
        return;
      }
      ProcessQueueRequests(queueCopy);
    }

    method HandleQueueNotify(queueIndex: nat)
      requires Valid()
      modifies this`interruptStatus, mem, backend, QueueRepr()
      ensures Valid() && QueueRepr() == old(QueueRepr())
      ensures View() == Notify(old(View()), queueIndex)
    {
      if !HasBit(status, DRIVER_OK_BIT) {
        return;
      }
      if queueIndex >= |queues| || !queues[queueIndex].ready {
        return;
      }
      ServeFromCopy();
    }

    method ResetDevice()
      requires Valid()
      modifies this, QueueRepr()
      ensures Valid() && QueueRepr() <= old(QueueRepr())
      ensures View() == old(View()).(dev := ResetState(old(View()).dev).(status := old(status)))
    {
      driverFeatures, deviceFeaturesSel, driverFeaturesSel := 0, 0, 0;
      queueSel, interruptStatus, configGeneration := 0, 0, 0;
      queues[0].Reset();
    }

    method HandleStatusWrite(newStatus: u32)
      requires Valid()
      modifies this, QueueRepr()
      ensures Valid() && QueueRepr() <= old(QueueRepr())
      ensures View() == old(View()).(dev := StatusWrite(old(View()).dev, newStatus))
    {
      if newStatus == 0 {
        status := 0;
        ResetDevice();
        return;
      }
      var adjusted: nat := newStatus;
      if HasBit(adjusted, FEATURES_OK_BIT) {
        if BitAndNot(driverFeatures, BLOCK_FEATURES) != 0 {
          adjusted := ClearBit(adjusted, FEATURES_OK_BIT);
          adjusted := SetBit(adjusted, FAILED_BIT);
        }
      }
      status := adjusted;
    }

    method WriteQueueRegister(reg: Reg, val: u32)
      requires Valid()
      modifies QueueRepr()
      ensures Valid() && fresh(QueueRepr() - old(QueueRepr()))
      ensures View() == SelectedQueueWrite(old(View()), reg, val)
    {
      if queueSel >= |queues| {
        return;
      }
      ConfigureQueue(queues[queueSel], reg, val);
    }

    method WriteRegister(reg: Reg, val: u32)
      requires Valid()
      modifies this, mem, backend, QueueRepr()
      ensures Valid() && fresh(QueueRepr() - old(QueueRepr()))
      ensures View() == RegisterWrite(old(View()), reg, val)
    {
      match reg
      case DeviceFeaturesSel => deviceFeaturesSel := val;
      case DriverFeatures =>
        if driverFeaturesSel == 0 {
          driverFeatures := WithLow(driverFeatures, val);
        } else if driverFeaturesSel == 1 {
          driverFeatures := WithHigh(driverFeatures, val);
        }
      case DriverFeaturesSel => driverFeaturesSel := val;
      case QueueSel =>
        if Low16(val) < |queues| {
          queueSel := Low16(val);
        }
      case QueueNotify => HandleQueueNotify(Low16(val));
      case InterruptAck => interruptStatus := BitAndNot(interruptStatus, val);
      case Status => HandleStatusWrite(val);
      case _ => WriteQueueRegister(reg, val);
    }

    method WriteAt(offset: nat, val: u32) returns (r: Result<()>)
      requires Valid()
      modifies this, mem, backend, QueueRepr()
      ensures Valid() && fresh(QueueRepr() - old(QueueRepr()))
      ensures match Decode(offset)
              case Some(reg) => r == Ok(()) && View() == RegisterWrite(old(View()), reg, val)
              case None => r == Err(InvalidRegister) && View() == old(View())
    {
      var reg := Decode(offset);
      if reg.None? {
        return Err(InvalidRegister);
      }
      WriteRegister(reg.value, val);
      return Ok(());
    }

    method MmioWrite(addr: u64, width: AccessWidth, val: u64) returns (r: Result<()>)
      requires Valid()
      modifies this, mem, backend, QueueRepr()
      ensures Valid() && fresh(QueueRepr() - old(QueueRepr()))
      ensures (View(), r) == MmioEffect(old(View()), baseIpa, length, addr, width, val)
    {
      OffsetReaches(baseIpa, length, addr, width);
      var offset := AccessOffset(baseIpa, length, addr, width);
      if offset.Err? {
        return Ok(());
      }
      r := WriteAt(offset.value, val % 0x1_0000_0000);
    }
  }
}
