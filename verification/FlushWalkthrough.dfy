/** Three runs from power-on with a flush request, alike but for the length of its header and the address of its status
    byte. One meets every premise of the protocol theorems and completes the request; in another the header is short, so the
    chain is no request and is marked with an error; in the third the status byte lies outside memory, and the request runs
    and is never completed. */
module FlushWalkthrough {
  import opened Common
  import opened Bytes
  import opened Wire
  import opened Memory
  import opened Descriptors
  import opened Rings
  import opened BlockRequests
  import opened Queues
  import opened QueueEngine
  import opened Layout
  import opened BlockDevice
  import opened DeviceRuns
  import opened RegisterMap
  import opened ChainEffects
  import opened Batches
  import opened SequentialMeaning
  import opened Interrupts
  import opened DriverProtocol
  import opened BringUp
  import opened RunMeaning
  import opened Walkthrough

  const HEADER: nat := 0x3900
  const STATUS: nat := 0x3910
  /** Past the end of memory. */
  const OUTSIDE: nat := 0x8000

  function HeaderDesc(len: byte): Desc { Desc(HEADER, len, 1, 1) }

  function StatusDesc(at: u16): Desc { Desc(at, 1, 2, 0) }

  function FlushRequest(at: u64): BlockRequest { BlockRequest(4, 0, [], at) }

  // ------------------------------------------------------------------ the bytes the driver stores

  /** A header of type 4 for sector 0, and then a status byte that is not OK. */
  function Message(): (bs: seq<byte>)
    ensures |bs| == 17
  {
    EncodeHeader(4, 0) + [0xff]
  }

  /** Two descriptors: the header, `len` bytes at 0x3900, NEXT, linked to slot 1; then one byte at `at`, WRITE. */
  function Chain(len: byte, at: u16): (bs: seq<byte>)
    ensures |bs| == 32
  {
    EncodeDesc(HeaderDesc(len)) + EncodeDesc(StatusDesc(at))
  }

  /** The chain at head 0, its header, a byte at STATUS that is not OK, and notifications not suppressed. */
  ghost predicate FlushWritten(m: Mem, len: byte, at: u16) {
    && SlotShows(m, 0, HeaderDesc(len)) && SlotShows(m, 1, StatusDesc(at))
    && Shows(m, HEADER, EncodeHeader(4, 0)) && Shows(m, STATUS, [0xff]) && Shows(m, USED, [0])
  }

  function Preparation(len: byte, at: u16): seq<Action> {
    [Fill(TABLE, Chain(len, at))] + ([Fill(HEADER, Message())] + ([Publish(0)] + []))
  }

  lemma WrittenInParts(m: Mem, len: byte, at: u16)
    requires Shows(m, TABLE, Chain(len, at)) && Shows(m, HEADER, Message()) && Shows(m, USED, [0])
    ensures FlushWritten(m, len, at)
  {
    ShowsParts(m, TABLE, EncodeDesc(HeaderDesc(len)), EncodeDesc(StatusDesc(at)));
    ShowsParts(m, HEADER, EncodeHeader(4, 0), [0xff]);
  }

  /** Nothing published has been consumed, and no interrupt is pending. */
  ghost predicate Rung(s: System, len: byte, at: u16) {
    && Ready(s) && s.published == [0] && FlushWritten(s.w.mem, len, at)
    && QueueOf(s).avail.value.consumed == 0 && s.w.dev.interruptStatus == 0
  }

  lemma Prepared(s: System, len: byte, at: u16) returns (rung: System)
    requires Ready(s) && s.published == [] && QueueOf(s).avail.value.consumed == 0
    requires s.w.dev.interruptStatus == 0 && Shows(s.w.mem, USED, [0])
    ensures AllEnabled(s, Preparation(len, at)) && rung == Outcomes(s, Preparation(len, at))
    ensures Rung(rung, len, at) && rung.w.disk == s.w.disk
  {
    FillReady(s, TABLE, Chain(len, at));
    var s1 := Do(s, Fill(TABLE, Chain(len, at)));
    ShowsAfter(s.w.mem, USED, [0], TABLE, Chain(len, at));
    FillReady(s1, HEADER, Message());
    var s2 := Do(s1, Fill(HEADER, Message()));
    ShowsAfter(s1.w.mem, TABLE, Chain(len, at), HEADER, Message());
    ShowsAfter(s1.w.mem, USED, [0], HEADER, Message());
    rung := Published(s2, len, at);
    ConsActions(s2, Publish(0), []);
    ConsActions(s1, Fill(HEADER, Message()), [Publish(0)] + []);
    ConsActions(s, Fill(TABLE, Chain(len, at)), [Fill(HEADER, Message())] + ([Publish(0)] + []));
  }

  lemma Published(s: System, len: byte, at: u16) returns (rung: System)
    requires Ready(s) && s.published == [] && QueueOf(s).avail.value.consumed == 0 && s.w.dev.interruptStatus == 0
    requires Shows(s.w.mem, TABLE, Chain(len, at)) && Shows(s.w.mem, HEADER, Message()) && Shows(s.w.mem, USED, [0])
    ensures Enabled(s, Publish(0)) && rung == Do(s, Publish(0)) && Rung(rung, len, at) && rung.w.disk == s.w.disk
  {
    PublishReady(s, 0);
    PublishShows(s, 0, TABLE, Chain(len, at));
    PublishShows(s, 0, HEADER, Message());
    PublishShows(s, 0, USED, [0]);
    rung := Do(s, Publish(0));
    WrittenInParts(rung.w.mem, len, at);
  }

  /** Byte by byte: the header descriptor in slot 0, WRITE unset and NEXT set to slot 1; the status descriptor in slot 1,
      WRITE set; the header of type 4 for sector 0; and head 0 in the first entry of the available ring. */
  predicate InMemory(bytes: seq<byte>, len: byte) {
    && ChainInMemory(bytes, len) && Word16(bytes, 0x2002) == 1 && Word16(bytes, 0x2004) == 0
  }

  predicate ChainInMemory(bytes: seq<byte>, len: byte) {
    && |bytes| >= 0x4000
    && DescAt(bytes, 0x1000, Desc(0x3900, len, 1, 1)) && DescAt(bytes, 0x1010, Desc(0x3910, 1, 2, 0))
    && Word32(bytes, 0x3900) == 4 && Word64(bytes, 0x3908) == 0 && bytes[0x3910] == 0xff
  }

  lemma ChainBytes(m: Mem, q: QueueState, len: byte)
    requires LaidOut(q) && FlushWritten(m, len, STATUS)
    ensures ChainInMemory(m.bytes, len)
  {
    FirstSlots(m, q, HeaderDesc(len), StatusDesc(STATUS));
    ShownHeader(m, HEADER, 4, 0);
    StatusShown(m);
  }

  lemma FirstSlots(m: Mem, q: QueueState, d: Desc, e: Desc)
    requires LaidOut(q) && SlotShows(m, 0, d) && SlotShows(m, 1, e)
    ensures DescAt(m.bytes, 0x1000, d) && DescAt(m.bytes, 0x1010, e)
  {
    SlotBytes(m, q, 0, d);
    SlotBytes(m, q, 1, e);
  }

  lemma RungBytes(s: System, len: byte)
    requires Rung(s, len, STATUS)
    ensures InMemory(s.w.mem.bytes, len)
  {
    ChainBytes(s.w.mem, QueueOf(s), len);
    AvailRingBytes(s, 0);
  }

  /** Byte by byte: one completion, of head 0 with length zero. */
  predicate OneCompleted(bytes: seq<byte>) {
    && |bytes| >= 0x300c && Word16(bytes, 0x3002) == 1
    && Word32(bytes, 0x3004) == 0 && Word32(bytes, 0x3008) == 0
  }

  lemma ServedBytes(s: System, len: byte)
    requires Rung(s, len, STATUS) && Enabled(s, Doorbell)
    requires |Do(s, Doorbell).w.dev.queues| == 1 && Completions(QueueOf(Do(s, Doorbell))) == [UsedElem(0, 0)]
    ensures OneCompleted(Do(s, Doorbell).w.mem.bytes)
  {
    assert s.published[0..] == [0];
    DoorbellRuns(s, 0);
    DoorbellKeeps(s);
    StaysLaidOut(QueueOf(s), QueueOf(Do(s, Doorbell)));
    UsedRingBytes(Do(s, Doorbell), 0);
  }

  // ------------------------------------------------------------------ parsing

  lemma PairFollows(m: Mem, q: QueueState, d: Desc, e: Desc)
    requires LaidOut(q) && SlotShows(m, 0, d) && SlotShows(m, 1, e)
    requires d.HasNext() && d.next == 1 && !e.HasNext()
    ensures QueueFollow(m, q, 0) == Ok([d, e])
  {
    SlotReads(m, q, 0, d);
    SlotReads(m, q, 1, e);
    var t := q.desc.value;
    assert Walk(m, t, 1, t.size) == Ok([e]);
    assert [d] + [e] == [d, e] && Walk(m, t, 0, t.size + 1) == Ok([d] + [e]);
  }

  lemma PairDescribes(m: Mem, d: Desc, e: Desc, requestType: u32, sector: u64)
    requires Shows(m, d.addr, EncodeHeader(requestType, sector))
    requires !d.IsWrite() && e.IsWrite() && e.len >= 1
    ensures d.len < 16 ==> !WellFormed(m, [d, e])
    ensures d.len >= 16 ==>
              WellFormed(m, [d, e]) && RequestOf(m, [d, e]) == BlockRequest(requestType, sector, [], e.addr)
  {
    var ds := [d, e];
    HeaderDecodes(requestType, sector);
    assert d.len >= 16 ==> HeaderOf(m, ds) == Ok(BlockHeader(requestType, 0, sector));
    assert ds[1..|ds| - 1] == [];
  }

  lemma StatusIsInside(m: Mem, len: byte, at: u16)
    requires FlushWritten(m, len, at)
    ensures m.Accessible(STATUS, 1) && !m.Accessible(OUTSIDE, 1)
  {
  }

  lemma FlushParses(m: Mem, q: QueueState, len: byte, at: u16)
    requires LaidOut(q) && FlushWritten(m, len, at) && (at == STATUS || at == OUTSIDE)
    ensures Parse(m, q, 0) == if len >= 16 then Ok(FlushRequest(at)) else Err(InvalidQueue)
    ensures QueueStatusAddr(m, q, 0) == Ok(at) && ChainClear(m, q, 0)
    ensures StatusReachable(m, q, 0) <==> len < 16 || at == STATUS
  {
    PairParses(m, q, HeaderDesc(len), StatusDesc(at));
    FlushClear(m, q, len, at);
    StatusIsInside(m, len, at);
  }

  lemma PairParses(m: Mem, q: QueueState, d: Desc, e: Desc)
    requires LaidOut(q) && SlotShows(m, 0, d) && SlotShows(m, 1, e)
    requires d.HasNext() && d.next == 1 && !e.HasNext()
    requires Shows(m, d.addr, EncodeHeader(4, 0)) && !d.IsWrite() && e.IsWrite() && e.len >= 1
    ensures QueueFollow(m, q, 0) == Ok([d, e]) && QueueStatusAddr(m, q, 0) == Ok(e.addr)
    ensures Parse(m, q, 0) == if d.len >= 16 then Ok(FlushRequest(e.addr)) else Err(InvalidQueue)
  {
    PairFollows(m, q, d, e);
    PairDescribes(m, d, e, 4, 0);
  }

  lemma FlushClear(m: Mem, q: QueueState, len: byte, at: u16)
    requires LaidOut(q) && (at == STATUS || at == OUTSIDE)
    requires QueueFollow(m, q, 0) == Ok([HeaderDesc(len), StatusDesc(at)])
    ensures ChainClear(m, q, 0)
  {
    assert DescClear(q, HeaderDesc(len)) && DescClear(q, StatusDesc(at));
  }

  lemma StatusShown(m: Mem)
    requires Shows(m, STATUS, [0xff])
    ensures STATUS < |m.bytes| && m.bytes[STATUS] == 0xff
  {
    assert m.bytes[STATUS..STATUS + 1][0] == m.bytes[STATUS];
  }

  // ------------------------------------------------------------------ completed

  /** The element of the one head. */
  lemma NoData(m: Mem, q: QueueState, at: u64)
    requires Parse(m, q, 0) == Ok(FlushRequest(at)) || Parse(m, q, 0).Err?
    ensures ParsedElems(m, q, [0]) == if Parse(m, q, 0).Ok? && m.Accessible(at, 1) then [UsedElem(0, 0)] else []
    ensures RejectedElems(m, q, [0]) == if Parse(m, q, 0).Ok? then [] else [UsedElem(0, 0)]
  {
    OneHead(m, q, 0);
    assert FlushRequest(at).Size() == 0;
  }

  lemma AloneDelivered(m: Mem, q: QueueState, at: u64)
    requires (Parse(m, q, 0) == Ok(FlushRequest(at)) && m.Accessible(at, 1)) || Parse(m, q, 0).Err?
    ensures ParsedElems(m, q, [0]) + RejectedElems(m, q, [0]) == [UsedElem(0, 0)]
  {
    NoData(m, q, at);
    assert [] + [UsedElem(0, 0)] == [UsedElem(0, 0)] + [];
  }

  lemma AloneClear(m: Mem, q: QueueState)
    requires Wired(q) && ChainClear(m, q, 0) && StatusReachable(m, q, 0)
    ensures HeadsClear(m, q, [0]) && HeadsReachable(m, q, [0])
  {
  }

  /** Parsed or not, the head is completed with length zero. */
  lemma FlushDelivered(m: Mem, q: QueueState, len: byte)
    requires LaidOut(q) && FlushWritten(m, len, STATUS)
    ensures HeadsClear(m, q, [0]) && HeadsReachable(m, q, [0])
    ensures ParsedElems(m, q, [0]) + RejectedElems(m, q, [0]) == [UsedElem(0, 0)]
  {
    FlushParses(m, q, len, STATUS);
    StatusIsInside(m, len, STATUS);
    AloneDelivered(m, q, STATUS);
    AloneClear(m, q);
  }

  lemma FlushRings(s: System, len: byte)
    requires Rung(s, len, STATUS)
    ensures Enabled(s, Doorbell)
  {
    PendingIsUnconsumed(s);
    assert s.published[0..] == [0];
    FlushDelivered(s.w.mem, QueueOf(s), len);
  }

  lemma FlushCompletes(s: System, len: byte)
    requires Rung(s, len, STATUS) && Enabled(s, Doorbell)
    ensures var s' := Do(s, Doorbell); |s'.w.dev.queues| == 1 && Completions(QueueOf(s')) == [UsedElem(0, 0)]
  {
    assert s.published[0..] == [0];
    FlushDelivered(s.w.mem, QueueOf(s), len);
    DoorbellKeeps(s);
    assert QueueOf(s).used.value.history == [];
  }

  /** What is stored for a flush, and for a chain that is no request. */
  function Answer(len: byte): byte { if len >= 16 then 0 else 1 }

  lemma FlushStores(m: Mem, d: Disk, q: QueueState, len: byte)
    requires LaidOut(q) && FlushWritten(m, len, STATUS) && !d.refusesFlush
    ensures HandleAlone(m, d, q, 0).0 == m.Store(STATUS, [Answer(len)])
  {
    FlushParses(m, q, len, STATUS);
  }

  lemma StoredByte(m: Mem, m': Mem, at: nat, value: byte, r: Region)
    requires m.Accessible(at, 1) && SameOff(m', m.Store(at, [value]), r) && !r.Contains(at)
    ensures at < |m'.bytes| && m'.bytes[at] == value
  {
    assert m.Store(at, [value]).bytes[at] == value;
  }

  lemma FlushAnswered(s: System, len: byte)
    requires Rung(s, len, STATUS) && Enabled(s, Doorbell) && !s.w.disk.refusesFlush
    ensures var m := Do(s, Doorbell).w.mem; STATUS < |m.bytes| && m.bytes[STATUS] == Answer(len)
  {
    assert s.published[0..] == [0];
    DoorbellRuns(s, 0);
    FlushStores(s.w.mem, s.w.disk, QueueOf(s), len);
    StoredByte(s.w.mem, Do(s, Doorbell).w.mem, STATUS, Answer(len), UsedRegion(QueueOf(s)));
  }

  lemma FlushMayNotify(s: System, len: byte, at: u16)
    requires Rung(s, len, at)
    ensures IndexMoved(s.w.mem, QueueOf(s).avail.value) && NotSuppressed(s.w.mem, QueueOf(s).used.value)
  {
    PendingIsUnconsumed(s);
    AvailableLayout(s.w.mem, QueueOf(s).avail.value, 0);
    assert s.w.mem.bytes[USED..USED + 1][0] == s.w.mem.bytes[USED];
  }

  lemma FlushInterrupts(s: System, len: byte)
    requires Rung(s, len, STATUS) && Enabled(s, Doorbell)
    ensures Do(s, Doorbell).w.dev.interruptStatus == 1
  {
    PendingIsUnconsumed(s);
    FlushMayNotify(s, len, STATUS);
    InterruptRaisedIff(EngineOf(s.w, 0));
    DoorbellServes(s);
  }

  /** The doorbell is a 32-bit store of 0 at offset 0x050. */
  lemma DoorbellAt050(w: World)
    ensures AfterAccess(w, Here(), Mmio(0x0a00_0050, Dword, 0)) == Apply(w, Register(QueueNotify, 0))
  {
    OffsetIsInside(Here(), 0x050, Dword);
  }

  /** From power-on: five register stores, two stores that lay down a chain and its message, head 0 published, and a
      doorbell. The head is completed with length zero, its status byte goes from 255 to the answer, and the interrupt
      status from 0 to 1. */
  ghost predicate Answered(disk: Disk, len: byte, start: System, rung: System, served: System) {
    && start == System(AfterAccesses(PoweredOn(disk), Here(), SetupAccesses()), [], []) && Refines(start)
    && AllEnabled(start, Preparation(len, STATUS)) && rung == Outcomes(start, Preparation(len, STATUS))
    && STATUS < |rung.w.mem.bytes| && rung.w.mem.bytes[STATUS] == 0xff && rung.w.dev.interruptStatus == 0
    && Enabled(rung, Doorbell) && served == Do(rung, Doorbell)
    && served.w == AfterAccess(rung.w, Here(), Mmio(0x0a00_0050, Dword, 0))
    && |served.w.dev.queues| == 1 && Completions(QueueOf(served)) == [UsedElem(0, 0)]
    && STATUS < |served.w.mem.bytes| && served.w.mem.bytes[STATUS] == Answer(len)
    && served.w.dev.interruptStatus == 1
  }

  lemma FromPowerOn(disk: Disk, len: byte) returns (start: System, rung: System, served: System)
    requires !disk.refusesFlush
    ensures start == System(Run(PoweredOn(disk), Setup()), [], []) && Configures(Setup())
    ensures Answered(disk, len, start, rung, served) && Rung(rung, len, STATUS)
    ensures InMemory(rung.w.mem.bytes, len) && OneCompleted(served.w.mem.bytes)
  {
    start := StartReady(disk);
    rung := Prepared(start, len, STATUS);
    StatusShown(rung.w.mem);
    FlushRings(rung, len);
    FlushCompletes(rung, len);
    FlushAnswered(rung, len);
    FlushInterrupts(rung, len);
    DoorbellAt050(rung.w);
    RungBytes(rung, len);
    ServedBytes(rung, len);
    served := Do(rung, Doorbell);
  }

  /** Every premise of `PowerOnToCompletion` holds, and the chain parses as a flush: the answer is 0, success. */
  lemma FlushFromPowerOn(disk: Disk) returns (start: System, rung: System, served: System)
    requires !disk.refusesFlush
    ensures start == System(Run(PoweredOn(disk), Setup()), [], []) && Configures(Setup())
    ensures InMemory(rung.w.mem.bytes, 16) && OneCompleted(served.w.mem.bytes)
    ensures Answered(disk, 16, start, rung, served) && served.w.mem.bytes[0x3910] == 0
    ensures |rung.w.dev.queues| == 1 && Parse(rung.w.mem, QueueOf(rung), 0) == Ok(FlushRequest(STATUS))
  {
    start, rung, served := FromPowerOn(disk, 16);
    FlushParses(rung.w.mem, QueueOf(rung), 16, STATUS);
  }

  /** With a header descriptor of 8 bytes the chain is no request: the answer is 1, an I/O error. */
  lemma ShortHeaderFromPowerOn(disk: Disk) returns (start: System, rung: System, served: System)
    requires !disk.refusesFlush
    ensures start == System(Run(PoweredOn(disk), Setup()), [], []) && Configures(Setup())
    ensures InMemory(rung.w.mem.bytes, 8) && OneCompleted(served.w.mem.bytes)
    ensures Answered(disk, 8, start, rung, served) && served.w.mem.bytes[0x3910] == 1
    ensures |rung.w.dev.queues| == 1 && Parse(rung.w.mem, QueueOf(rung), 0).Err?
  {
    start, rung, served := FromPowerOn(disk, 8);
    FlushParses(rung.w.mem, QueueOf(rung), 8, STATUS);
  }

  // ------------------------------------------------------------------ lost

  lemma LostElems(m: Mem, q: QueueState)
    requires LaidOut(q) && FlushWritten(m, 16, OUTSIDE)
    ensures HeadsClear(m, q, [0])
    ensures ParsedElems(m, q, [0]) == [] && RejectedElems(m, q, [0]) == []
  {
    FlushParses(m, q, 16, OUTSIDE);
    StatusIsInside(m, 16, OUTSIDE);
    NoData(m, q, OUTSIDE);
  }

  lemma ServedAlone(s: System) returns (e': Engine)
    requires Ready(s) && s.published == [0] && QueueOf(s).avail.value.consumed == 0
    requires HeadsClear(s.w.mem, QueueOf(s), [0])
    ensures Pending(EngineOf(s.w, 0)) == [0] && Wired(e'.queue) && CompletesPending(EngineOf(s.w, 0), e')
    ensures Apply(s.w, Register(QueueNotify, 0)) == WithEngine(s.w, 0, e')
  {
    PendingIsUnconsumed(s);
    assert s.published[0..] == [0];
    NotificationExact(EngineOf(s.w, 0));
    DoorbellServes(s);
    e' := ProcessQueue(EngineOf(s.w, 0));
  }

  lemma LostCounters(e: Engine, e': Engine)
    requires Wired(e.queue) && Wired(e'.queue) && CompletesPending(e, e') && Pending(e) == [0]
    requires e.queue.avail.value.consumed == 0 && e.queue.used.value.history == []
    requires ParsedElems(e.mem, e.queue, [0]) == [] && RejectedElems(e.mem, e.queue, [0]) == []
    ensures e'.queue.avail.value.last == 1 && e'.queue.used.value.idx == 0 && e'.queue.used.value.history == []
  {
    NothingCompleted(e, e');
    CountersDiffer(e'.queue);
  }

  lemma FlushLost(s: System)
    requires Ready(s) && s.published == [0] && QueueOf(s).avail.value.consumed == 0
    requires HeadsClear(s.w.mem, QueueOf(s), [0])
    requires ParsedElems(s.w.mem, QueueOf(s), [0]) == [] && RejectedElems(s.w.mem, QueueOf(s), [0]) == []
    ensures var w := Apply(s.w, Register(QueueNotify, 0));
            && |w.dev.queues| == 1
            && w.dev.queues[0].avail.Some? && w.dev.queues[0].avail.value.last == 1
            && w.dev.queues[0].used.Some? && w.dev.queues[0].used.value.idx == 0
            && w.dev.queues[0].used.value.history == []
  {
    var e' := ServedAlone(s);
    assert QueueOf(s).used.value.history == [];
    LostCounters(EngineOf(s.w, 0), e');
  }

  lemma NothingCompleted(e: Engine, e': Engine)
    requires Wired(e.queue) && Wired(e'.queue) && CompletesPending(e, e') && Pending(e) == [0]
    requires e.queue.avail.value.consumed == 0 && e.queue.used.value.history == []
    requires ParsedElems(e.mem, e.queue, [0]) == [] && RejectedElems(e.mem, e.queue, [0]) == []
    ensures e'.queue.avail.value.consumed == 1 && e'.queue.used.value.history == []
  {
  }

  lemma CountersDiffer(q: QueueState)
    requires Wired(q) && q.avail.value.consumed == 1 && q.used.value.history == []
    ensures q.avail.value.last == 1 && q.used.value.idx == 0
  {
  }

  /** With the status descriptor past the end of memory: the chain still parses, the doorbell consumes the entry, and
      nothing is completed; the two 16-bit counters no longer agree. */
  lemma LostFromPowerOn(disk: Disk) returns (start: System, rung: System, w: World)
    ensures start == System(Run(PoweredOn(disk), Setup()), [], []) && Configures(Setup()) && Refines(start)
    ensures AllEnabled(start, Preparation(16, OUTSIDE)) && rung == Outcomes(start, Preparation(16, OUTSIDE))
    ensures |rung.w.dev.queues| == 1 && Parse(rung.w.mem, QueueOf(rung), 0) == Ok(FlushRequest(OUTSIDE))
    ensures w == Apply(rung.w, Register(QueueNotify, 0)) && |w.dev.queues| == 1
    ensures w.dev.queues[0].avail.Some? && w.dev.queues[0].used.Some?
    ensures w.dev.queues[0].avail.value.last == 1 && w.dev.queues[0].used.value.idx == 0
    ensures w.dev.queues[0].used.value.history == []
  {
    start := StartReady(disk);
    rung := Prepared(start, 16, OUTSIDE);
    FlushParses(rung.w.mem, QueueOf(rung), 16, OUTSIDE);
    LostElems(rung.w.mem, QueueOf(rung));
    FlushLost(rung);
    w := Apply(rung.w, Register(QueueNotify, 0));
  }
}
