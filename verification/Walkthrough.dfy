/** A driver that brings the device up with five register writes, and the steps from there on: storing, publishing, and
    what memory shows. */
module Walkthrough {
  import opened Common
  import opened Bytes
  import opened Wire
  import opened Bits
  import opened Memory
  import opened WrappingCounters
  import opened Descriptors
  import opened BlockRequests
  import opened Queues
  import opened QueueEngine
  import opened Layout
  import opened BlockDevice
  import opened DeviceRuns
  import opened RegisterHistory
  import opened RegisterMap
  import opened ChainEffects
  import opened RingContents
  import opened Batches
  import opened DriverProtocol
  import opened BringUp
  import opened RunMeaning

  const TABLE: nat := 0x1000
  const AVAIL: nat := 0x2000
  const USED: nat := 0x3000
  const MEMORY_SIZE: nat := 0x4000

  /** Zeroed memory in which every access translates, a disk, and the device as built. */
  ghost function PoweredOn(disk: Disk): World {
    World(Mem(Zeros(MEMORY_SIZE), (a, n) => true, []), disk, FreshDevice())
  }

  /** What a history has set so far; sizes are never touched. */
  ghost predicate HasSet(events: seq<Event>, table: nat, avail: nat, used: nat, ready: bool) {
    && FirstAddress(events, QueueDescLow, QueueDescHigh) == table
    && FirstAddress(events, QueueAvailLow, QueueAvailHigh) == avail
    && FirstAddress(events, QueueUsedLow, QueueUsedHigh) == used
    && ReadyFlag(events) == ready
    && LastSize(events) == DEFAULT_QUEUE_SIZE
    && (table != 0 ==> SizeWhenSet(events, QueueDescLow, QueueDescHigh) == DEFAULT_QUEUE_SIZE)
    && (avail != 0 ==> SizeWhenSet(events, QueueAvailLow, QueueAvailHigh) == DEFAULT_QUEUE_SIZE)
    && (used != 0 ==> SizeWhenSet(events, QueueUsedLow, QueueUsedHigh) == DEFAULT_QUEUE_SIZE)
    && forall i :: 0 <= i < |events| ==> !IsWriteTo(events[i], QueueNotify)
  }

  lemma SetNext(events: seq<Event>, ev: Event, table: nat, avail: nat, used: nat, ready: bool)
    requires HasSet(events, table, avail, used, ready)
    requires ev.Register? && ev.reg != QueueNotify && ev.reg != QueueNum && !IsReset(ev)
    ensures HasSet(events + [ev],
                   if table == 0 then Contribution(ev, QueueDescLow, QueueDescHigh) else table,
                   if avail == 0 then Contribution(ev, QueueAvailLow, QueueAvailHigh) else avail,
                   if used == 0 then Contribution(ev, QueueUsedLow, QueueUsedHigh) else used,
                   if ev.reg == QueueReady then ev.val != 0 else ready)
  {
    Appended(events, ev);
  }

  function Configured(): seq<Event> {
    [Register(QueueDescLow, TABLE)] + [Register(QueueAvailLow, AVAIL)] + [Register(QueueUsedLow, USED)]
    + [Register(QueueReady, 1)]
  }

  lemma SetFirst()
    ensures HasSet([Register(QueueDescLow, TABLE)], TABLE, 0, 0, false)
  {
    assert [] + [Register(QueueDescLow, TABLE)] == [Register(QueueDescLow, TABLE)];
    SetNext([], Register(QueueDescLow, TABLE), 0, 0, 0, false);
  }

  /** DRIVER_OK alone. */
  function Setup(): seq<Event> { Configured() + [Register(Status, 4)] }

  /** Where the device's registers are. */
  function Here(): Window { Window(0x0a00_0000, 0x200) }

  /** The same as five 32-bit stores to the device's registers. */
  function SetupAccesses(): seq<Access> {
    [Mmio(0x0a00_0080, Dword, TABLE)] + [Mmio(0x0a00_0090, Dword, AVAIL)] + [Mmio(0x0a00_00a0, Dword, USED)]
    + [Mmio(0x0a00_0044, Dword, 1)] + [Mmio(0x0a00_0070, Dword, 4)]
  }

  lemma OneMoreAccess(accesses: seq<Access>, a: Access)
    ensures EventsOf(Here(), accesses + [a]) == EventsOf(Here(), accesses) + EventOf(Here(), a)
  {
    assert (accesses + [a])[..|accesses|] == accesses;
  }

  lemma FiveAccesses(a: Access, b: Access, c: Access, d: Access, e: Access)
    ensures EventsOf(Here(), [a] + [b] + [c] + [d] + [e]) ==
            EventOf(Here(), a) + EventOf(Here(), b) + EventOf(Here(), c) + EventOf(Here(), d) + EventOf(Here(), e)
  {
    OneMoreAccess([], a);
    assert [] + [a] == [a] && [] + EventOf(Here(), a) == EventOf(Here(), a);
    OneMoreAccess([a], b);
    OneMoreAccess([a] + [b], c);
    OneMoreAccess([a] + [b] + [c], d);
    OneMoreAccess([a] + [b] + [c] + [d], e);
  }

  lemma AccessAt(offset: nat, val: u32, reg: Reg)
    requires offset < 0x200 && Decode(offset) == Some(reg)
    ensures EventOf(Here(), Mmio(0x0a00_0000 + offset, Dword, val)) == [Register(reg, val)]
  {
    OffsetIsInside(Here(), offset, Dword);
  }

  lemma SetupFromOffsets()
    ensures EventsOf(Here(), SetupAccesses()) == Setup()
  {
    AccessAt(0x080, TABLE, QueueDescLow);
    AccessAt(0x090, AVAIL, QueueAvailLow);
    AccessAt(0x0a0, USED, QueueUsedLow);
    AccessAt(0x044, 1, QueueReady);
    AccessAt(0x070, 4, Status);
    FiveAccesses(Mmio(0x0a00_0080, Dword, TABLE), Mmio(0x0a00_0090, Dword, AVAIL), Mmio(0x0a00_00a0, Dword, USED),
                 Mmio(0x0a00_0044, Dword, 1), Mmio(0x0a00_0070, Dword, 4));
  }

  lemma SetupConfigures()
    ensures HasSet(Setup(), TABLE, AVAIL, USED, true) && Configures(Setup())
  {
    var e1 := [Register(QueueDescLow, TABLE)];
    SetFirst();
    var e2 := e1 + [Register(QueueAvailLow, AVAIL)];
    SetNext(e1, Register(QueueAvailLow, AVAIL), TABLE, 0, 0, false);
    var e3 := e2 + [Register(QueueUsedLow, USED)];
    SetNext(e2, Register(QueueUsedLow, USED), TABLE, AVAIL, 0, false);
    SetNext(e3, Register(QueueReady, 1), TABLE, AVAIL, USED, false);
    SetNext(Configured(), Register(Status, 4), TABLE, AVAIL, USED, true);
  }

  lemma FourIsDriverOk()
    ensures HasBit(4, DRIVER_OK_BIT) && !HasBit(4, FEATURES_OK_BIT)
  {
    assert Bit(1, 0) == 1 && Bit(2, 1) == Bit(1, 0);
    assert Bit(0, 0) == 0 && Bit(1, 1) == Bit(0, 0) && Bit(2, 2) == Bit(1, 1);
  }

  lemma {:induction false} ConfigurationTouchesNoMemory(w: World, events: seq<Event>)
    requires forall i :: 0 <= i < |events| ==> events[i].Register? && events[i].reg != QueueNotify
    ensures Run(w, events).mem == w.mem && Run(w, events).disk == w.disk
    ensures w.dev.interruptStatus == 0 ==> Run(w, events).dev.interruptStatus == 0
    decreases |events|
  {
    if events != [] {
      ConfigurationTouchesNoMemory(w, Earlier(events));
      assert Latest(events).Register? && Latest(events).reg != QueueNotify;
    }
  }

  lemma StatusFour(w: World)
    ensures Apply(w, Register(Status, 4)).dev.status == 4
  {
    FourIsDriverOk();
  }

  lemma SetupServes(disk: Disk)
    ensures var w := Run(PoweredOn(disk), Setup());
            && HasBit(w.dev.status, DRIVER_OK_BIT)
            && w.mem == PoweredOn(disk).mem && w.disk == disk && w.dev.interruptStatus == 0
  {
    Appended(Configured(), Register(Status, 4));
    StatusFour(Run(PoweredOn(disk), Configured()));
    FourIsDriverOk();
    ConfigurationTouchesNoMemory(PoweredOn(disk), Setup());
  }

  /** The queue and the rings the five writes leave. */
  ghost predicate LaidOut(q: QueueState) {
    && Matched(q) && q.size == DEFAULT_QUEUE_SIZE
    && q.desc.value.size == DEFAULT_QUEUE_SIZE
    && q.descAddr == TABLE && q.availAddr == AVAIL && q.usedAddr == USED
  }

  lemma SetupLaysOut(disk: Disk)
    ensures var dev := Run(PoweredOn(disk), Setup()).dev; |dev.queues| == 1 && LaidOut(dev.queues[0])
  {
    SetupConfigures();
    MatchedIff(PoweredOn(disk), Setup());
    RegistersAreTheirHistory(PoweredOn(disk), Setup());
  }

  lemma LayoutIsGood(q: QueueState, m: Mem)
    requires LaidOut(q) && m.bytes == Zeros(MEMORY_SIZE) && m.mapped == ((a, n) => true)
    ensures RingsApart(q) && RingsMapped(m, q) && IndexesZero(m, q)
  {
    forall i | 0 <= i < q.size ensures EntryMapped(m, AVAIL, i) && ElemMapped(m, USED, i) {
    }
    assert m.bytes[AVAIL + 2..AVAIL + 4] == [0, 0] && m.bytes[USED + 2..USED + 4] == [0, 0];
    assert FromLE([0]) == 0 && FromLE([0, 0]) == 0;
  }

  /** After the five writes the driver and the device agree on empty queues. */
  lemma SetupRefines(disk: Disk)
    ensures var w := Run(PoweredOn(disk), Setup());
            && |w.dev.queues| == 1 && LaidOut(w.dev.queues[0])
            && RingsApart(w.dev.queues[0]) && RingsMapped(w.mem, w.dev.queues[0]) && IndexesZero(w.mem, w.dev.queues[0])
            && HasBit(w.dev.status, DRIVER_OK_BIT) && Refines(System(w, [], []))
  {
    var w := Run(PoweredOn(disk), Setup());
    SetupConfigures();
    SetupServes(disk);
    SetupLaysOut(disk);
    LayoutIsGood(w.dev.queues[0], w.mem);
    UnrungIsUnserved(PoweredOn(disk), Setup());
    BringUpRefines(PoweredOn(disk), Setup());
  }

  // ------------------------------------------------------------------ what memory shows

  /** Memory of the walkthrough's shape holding `data` at `at`. */
  ghost predicate Shows(m: Mem, at: nat, data: seq<byte>) {
    && |m.bytes| == MEMORY_SIZE && m.mapped == ((a, n) => true)
    && at + |data| <= MEMORY_SIZE && m.bytes[at..at + |data|] == data
  }

  lemma ShowsParts(m: Mem, at: nat, front: seq<byte>, back: seq<byte>)
    requires Shows(m, at, front + back)
    ensures Shows(m, at, front) && Shows(m, at + |front|, back)
  {
    var both := m.bytes[at..at + |front + back|];
    assert both[..|front|] == front && both[|front|..] == back;
    assert m.bytes[at..at + |front|] == both[..|front|];
    assert m.bytes[at + |front|..at + |front| + |back|] == both[|front|..];
  }

  lemma ShowsAfter(m: Mem, at: nat, data: seq<byte>, addr: nat, store: seq<byte>)
    requires Shows(m, at, data) && addr + |store| <= MEMORY_SIZE && Disjoint(Region(addr, |store|), Region(at, |data|))
    ensures Shows(Overwritten(m, addr, store), at, data)
  {
    SpliceElsewhere(m.bytes, addr, store, at, |data|);
  }

  lemma ShowsOff(m: Mem, m': Mem, x: Region, at: nat, data: seq<byte>)
    requires Shows(m, at, data) && SameOff(m', m, x) && Disjoint(Region(at, |data|), x)
    ensures Shows(m', at, data)
  {
    var was, now := m.bytes[at..at + |data|], m'.bytes[at..at + |data|];
    assert forall i :: 0 <= i < |data| ==> was[i] == m.bytes[at + i] && now[i] == m'.bytes[at + i];
    assert was == now;
  }

  function EncodeHeader(requestType: u32, sector: u64): (bs: seq<byte>)
    ensures |bs| == BLOCK_HEADER_SIZE
  {
    Le32(requestType) + Le32(0) + Le64(sector)
  }

  lemma HeaderDecodes(requestType: u32, sector: u64)
    ensures DecodeHeader(EncodeHeader(requestType, sector)) == BlockHeader(requestType, 0, sector)
  {
    var bs := EncodeHeader(requestType, sector);
    assert bs[..4] == Le32(requestType) && bs[4..8] == Le32(0) && bs[8..] == Le64(sector);
  }

  /** The table slot `index` holds the descriptor. */
  ghost predicate SlotShows(m: Mem, index: nat, d: Desc) { Shows(m, TABLE + DESC_SIZE * index, EncodeDesc(d)) }

  lemma SlotReads(m: Mem, q: QueueState, index: nat, d: Desc)
    requires LaidOut(q) && index < DEFAULT_QUEUE_SIZE && SlotShows(m, index, d)
    ensures ReadDesc(m, q.desc.value, index) == Ok(d)
  {
    DescRoundTrip(d);
  }

  /** What a slot and a header show, byte by byte. */
  lemma SlotBytes(m: Mem, q: QueueState, index: nat, d: Desc)
    requires LaidOut(q) && index < DEFAULT_QUEUE_SIZE && SlotShows(m, index, d)
    ensures DescAt(m.bytes, 0x1000 + 16 * index, d)
  {
    SlotReads(m, q, index, d);
    DescriptorLayout(m, q.desc.value, index);
  }

  lemma ShownHeader(m: Mem, at: nat, requestType: u32, sector: u64)
    requires Shows(m, at, EncodeHeader(requestType, sector))
    ensures Word32(m.bytes, at) == requestType && Word64(m.bytes, at + 8) == sector
  {
    HeaderDecodes(requestType, sector);
    HeaderLayout(m.bytes, at);
  }

  // ------------------------------------------------------------------ what the driver does

  /** Laid out, with nothing reaped. */
  ghost predicate Ready(s: System) {
    && Refines(s) && LaidOut(QueueOf(s)) && s.got == []
    && |s.w.mem.bytes| == MEMORY_SIZE && s.w.mem.mapped == ((a, n) => true)
  }

  ghost predicate AwayFromRings(at: nat, n: nat) {
    && Disjoint(Region(at, n), Region(AVAIL + 2, 2 + DEFAULT_QUEUE_SIZE * AVAIL_ENTRY_SIZE))
    && Disjoint(Region(at, n), Region(USED, RING_HEADER_SIZE + DEFAULT_QUEUE_SIZE * USED_ELEM_SIZE))
  }

  lemma FillReady(s: System, addr: nat, data: seq<byte>)
    requires Ready(s) && addr + |data| <= MEMORY_SIZE && AwayFromRings(addr, |data|)
    ensures Enabled(s, Fill(addr, data))
    ensures var s' := Do(s, Fill(addr, data));
            && Ready(s') && s'.published == s.published && s'.w.disk == s.w.disk && s'.w.dev == s.w.dev
            && s'.w.mem == Overwritten(s.w.mem, addr, data) && Shows(s'.w.mem, addr, data)
  {
    FillKeeps(s, addr, data);
    SpliceReadsBack(s.w.mem.bytes, addr, data);
  }

  lemma PublishReady(s: System, head: u16)
    requires Ready(s) && |s.published| < DEFAULT_QUEUE_SIZE
    ensures Enabled(s, Publish(head))
    ensures var s' := Do(s, Publish(head));
            && Ready(s') && s'.published == s.published + [head] && s'.w.disk == s.w.disk && s'.w.dev == s.w.dev
  {
    PublishKeepsServing(s, head);
    PublishKeeps(s, head);
  }

  /** Publishing writes the available ring and nothing else. */
  lemma PublishShows(s: System, head: u16, at: nat, data: seq<byte>)
    requires Ready(s) && |s.published| < DEFAULT_QUEUE_SIZE && Shows(s.w.mem, at, data)
    requires Disjoint(Region(at, |data|), Region(AVAIL + 2, 2 + DEFAULT_QUEUE_SIZE * AVAIL_ENTRY_SIZE))
    ensures Enabled(s, Publish(head)) && Shows(Do(s, Publish(head)).w.mem, at, data)
  {
    var a, counter := QueueOf(s).avail.value, |s.published| % 0x1_0000;
    SmallMod(counter, a.size);
    ShowsAfter(s.w.mem, at, data, EntryAt(a, counter), Le16(head));
    ShowsAfter(Overwritten(s.w.mem, EntryAt(a, counter), Le16(head)), at, data, a.base + 2, Le16(Next(counter)));
  }

  lemma ConsActions(s: System, act: Action, acts: seq<Action>)
    requires Enabled(s, act) && AllEnabled(Do(s, act), acts)
    ensures AllEnabled(s, [act] + acts) && Outcomes(s, [act] + acts) == Outcomes(Do(s, act), acts)
  {
    assert ([act] + acts)[0] == act && ([act] + acts)[1..] == acts;
  }

  lemma StaysLaidOut(q: QueueState, q': QueueState)
    requires LaidOut(q) && SamePlaces(q, q') && Matched(q')
    ensures LaidOut(q')
  {
  }

  /** Completion `k`, the count of completions, and published head `k`, in the bytes of the two rings. */
  lemma UsedRingBytes(s: System, k: nat)
    requires Refines(s) && LaidOut(QueueOf(s)) && s.got == [] && k < |Completions(QueueOf(s))| <= 256
    ensures ElemBytes(s.w.mem.bytes, 0x3004 + 8 * k, Completions(QueueOf(s))[k])
    ensures Word16(s.w.mem.bytes, 0x3002) == |Completions(QueueOf(s))|
  {
    CompletionBytes(s, k);
    SmallMod(k, 256);
  }

  lemma AvailRingBytes(s: System, k: nat)
    requires Refines(s) && LaidOut(QueueOf(s)) && QueueOf(s).avail.value.consumed <= k < |s.published| <= 256
    ensures 0x2006 + 2 * k <= |s.w.mem.bytes| && Word16(s.w.mem.bytes, 0x2004 + 2 * k) == s.published[k]
    ensures Word16(s.w.mem.bytes, 0x2002) == |s.published|
  {
    SmallMod(k, 256);
    PublishedBytes(s, k);
  }

  /** The system after bring-up: ready, with nothing published and nothing consumed. */
  lemma StartReady(disk: Disk) returns (start: System)
    ensures start == System(Run(PoweredOn(disk), Setup()), [], []) && Configures(Setup())
    ensures start.w == AfterAccesses(PoweredOn(disk), Here(), SetupAccesses())
    ensures Ready(start) && start.published == [] && QueueOf(start).avail.value.consumed == 0 && start.w.disk == disk
    ensures start.w.dev.interruptStatus == 0 && Shows(start.w.mem, USED, [0])
  {
    start := System(Run(PoweredOn(disk), Setup()), [], []);
    SetupConfigures();
    SetupRefines(disk);
    SetupServes(disk);
    SetupByAccesses(PoweredOn(disk));
    FlagIsClear(start.w.mem);
  }

  lemma SetupByAccesses(w: World)
    ensures AfterAccesses(w, Here(), SetupAccesses()) == Run(w, Setup())
  {
    AccessesAreEvents(w, Here(), SetupAccesses());
    SetupFromOffsets();
  }

  lemma FlagIsClear(m: Mem)
    requires m.bytes == Zeros(MEMORY_SIZE) && m.mapped == ((a, n) => true)
    ensures Shows(m, USED, [0])
  {
    assert m.bytes[USED..USED + 1] == [0];
  }
}
