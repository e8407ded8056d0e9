/** A run from power-on that writes 512 bytes to the disk with one request and reads them back with another: the premises
    of the data-path theorem are met together. */
module DataWalkthrough {
  import opened Common
  import opened Bytes
  import opened Wire
  import opened Memory
  import opened Descriptors
  import opened Rings
  import opened BlockRequests
  import opened Transfers
  import opened Queues
  import opened QueueEngine
  import opened Layout
  import opened DeviceRuns
  import opened RegisterMap
  import opened ChainEffects
  import opened Batches
  import opened DriverProtocol
  import opened BringUp
  import opened RunMeaning
  import opened DataPath
  import opened Walkthrough

  const BLOCK: nat := 512

  /** Where one request keeps its header, its status byte and its data. */
  datatype Place = Place(header: u64, status: u64, data: u64)

  function Out(): Place { Place(0x3900, 0x3910, 0x100) }

  function In(): Place { Place(0x3920, 0x3930, 0x400) }

  function HeaderDesc(p: Place, next: u16): Desc { Desc(p.header, 16, 1, next) }

  /** Flags NEXT, and WRITE if the device is to write. */
  function DataDesc(p: Place, isWrite: bool, next: u16): Desc { Desc(p.data, BLOCK, if isWrite then 3 else 1, next) }

  function StatusDesc(p: Place): Desc { Desc(p.status, 1, 2, 0) }

  function RequestFor(p: Place, isRead: bool): BlockRequest {
    BlockRequest(if isRead then 0 else 1, 0, [Buffer(p.data, BLOCK, isRead)], p.status)
  }

  function TypeOf(isRead: bool): u32 { if isRead then 0 else 1 }

  /** A three-descriptor chain from slot `head` on, with its header. */
  ghost predicate ChainShown(m: Mem, head: u16, p: Place, isRead: bool)
    requires head < 8
  {
    && SlotShows(m, head, HeaderDesc(p, head + 1)) && SlotShows(m, head + 1, DataDesc(p, isRead, head + 2))
    && SlotShows(m, head + 2, StatusDesc(p)) && Shows(m, p.header, EncodeHeader(TypeOf(isRead), 0))
  }

  // ------------------------------------------------------------------ parsing

  lemma TripleFollows(m: Mem, q: QueueState, head: u16, d: Desc, e: Desc, f: Desc)
    requires LaidOut(q) && head < 8 && SlotShows(m, head, d) && SlotShows(m, head + 1, e) && SlotShows(m, head + 2, f)
    requires d.HasNext() && d.next == head + 1 && e.HasNext() && e.next == head + 2 && !f.HasNext()
    ensures QueueFollow(m, q, head) == Ok([d, e, f])
  {
    SlotReads(m, q, head, d);
    SlotReads(m, q, head + 1, e);
    SlotReads(m, q, head + 2, f);
    var t := q.desc.value;
    assert Walk(m, t, head + 2, t.size - 1) == Ok([f]);
    assert Walk(m, t, head + 1, t.size) == Ok([e] + [f]);
    assert Walk(m, t, head, t.size + 1) == Ok([d] + ([e] + [f]));
    assert [d] + ([e] + [f]) == [d, e, f];
  }

  lemma TripleDescribes(m: Mem, d: Desc, e: Desc, f: Desc, requestType: u32, sector: u64)
    requires Shows(m, d.addr, EncodeHeader(requestType, sector))
    requires !d.IsWrite() && d.len == 16 && f.IsWrite() && f.len >= 1
    ensures WellFormed(m, [d, e, f])
    ensures RequestOf(m, [d, e, f]) == BlockRequest(requestType, sector, [AsBuffer(e)], f.addr)
  {
    var ds := [d, e, f];
    HeaderDecodes(requestType, sector);
    assert HeaderOf(m, ds) == Ok(BlockHeader(requestType, 0, sector));
    assert ds[1..|ds| - 1] == [e];
    assert AsBuffers([e]) == [AsBuffer(e)];
  }

  lemma TripleParses(m: Mem, q: QueueState, head: u16, d: Desc, e: Desc, f: Desc, requestType: u32)
    requires LaidOut(q) && head < 8 && SlotShows(m, head, d) && SlotShows(m, head + 1, e) && SlotShows(m, head + 2, f)
    requires d.HasNext() && d.next == head + 1 && e.HasNext() && e.next == head + 2 && !f.HasNext()
    requires Shows(m, d.addr, EncodeHeader(requestType, 0))
    requires !d.IsWrite() && d.len == 16 && f.IsWrite() && f.len >= 1
    ensures QueueFollow(m, q, head) == Ok([d, e, f])
    ensures Parse(m, q, head) == Ok(BlockRequest(requestType, 0, [AsBuffer(e)], f.addr))
  {
    TripleFollows(m, q, head, d, e, f);
    TripleDescribes(m, d, e, f, requestType, 0);
  }

  /** Away from the rings and from the table. */
  ghost predicate Placed3(p: Place) {
    && AwayFromRings(p.header, 16) && AwayFromRings(p.status, 1) && AwayFromRings(p.data, BLOCK)
    && Disjoint(Region(p.status, 1), Region(TABLE, DEFAULT_QUEUE_SIZE * DESC_SIZE))
    && Disjoint(Region(p.data, BLOCK), Region(TABLE, DEFAULT_QUEUE_SIZE * DESC_SIZE))
    && Disjoint(Region(p.data, BLOCK), Region(p.status, 1))
    && p.status < MEMORY_SIZE && p.data + BLOCK <= MEMORY_SIZE
  }

  lemma PlacesAreGood()
    ensures Placed3(Out()) && Placed3(In())
  {
  }

  lemma ChainParses(m: Mem, q: QueueState, head: u16, p: Place, isRead: bool)
    requires LaidOut(q) && head < 8 && ChainShown(m, head, p, isRead) && Placed3(p)
    ensures Parse(m, q, head) == Ok(RequestFor(p, isRead)) && ChainClear(m, q, head) && StatusReachable(m, q, head)
  {
    var d, e, f := HeaderDesc(p, head + 1), DataDesc(p, isRead, head + 2), StatusDesc(p);
    TripleParses(m, q, head, d, e, f, TypeOf(isRead));
    ChainIsClear(m, q, head, p, isRead);
  }

  lemma ChainIsClear(m: Mem, q: QueueState, head: u16, p: Place, isRead: bool)
    requires LaidOut(q) && head < 8 && Placed3(p)
    requires QueueFollow(m, q, head) == Ok([HeaderDesc(p, head + 1), DataDesc(p, isRead, head + 2), StatusDesc(p)])
    ensures ChainClear(m, q, head)
  {
    DescsAreClear(q, head, p, isRead);
  }

  lemma DescsAreClear(q: QueueState, head: u16, p: Place, isRead: bool)
    requires LaidOut(q) && head < 8 && Placed3(p)
    ensures DescClear(q, HeaderDesc(p, head + 1)) && DescClear(q, DataDesc(p, isRead, head + 2))
    ensures DescClear(q, StatusDesc(p))
  {
  }

  lemma SizeIsBlock(p: Place, isRead: bool)
    ensures RequestFor(p, isRead).Size() == BLOCK
  {
    OneBuffer(RequestFor(p, isRead).buffers[0]);
  }

  lemma OneBuffer(b: Buffer)
    ensures TotalLen([b]) == b.len
  {
    assert [b][1..] == [] && TotalLen([]) == 0;
  }

  lemma ContentsAreData(m: Mem, p: Place, isRead: bool, data: seq<byte>)
    requires |data| == BLOCK && Shows(m, p.data, data)
    ensures AllAccessible(m, RequestFor(p, isRead).buffers, isRead)
    ensures Contents(m, RequestFor(p, isRead).buffers, isRead) == data
  {
    var bufs := RequestFor(p, isRead).buffers;
    assert bufs[1..] == [] && Contents(m, bufs[1..], isRead) == [];
  }

  // ------------------------------------------------------------------ the run

  /** Both chains with their headers, and the payload. */
  ghost predicate BothShown(m: Mem, payload: seq<byte>) {
    ChainShown(m, 0, Out(), false) && ChainShown(m, 3, In(), true) && Shows(m, Out().data, payload)
  }

  function Table(): (bs: seq<byte>)
    ensures |bs| == 6 * DESC_SIZE
  {
    EncodeDesc(HeaderDesc(Out(), 1)) + (EncodeDesc(DataDesc(Out(), false, 2)) + (EncodeDesc(StatusDesc(Out()))
    + (EncodeDesc(HeaderDesc(In(), 4)) + (EncodeDesc(DataDesc(In(), true, 5)) + EncodeDesc(StatusDesc(In()))))))
  }

  /** The image of six descriptors shows each in its slot. */
  lemma SixSlots(m: Mem, a: Desc, b: Desc, c: Desc, d: Desc, e: Desc, f: Desc)
    requires Shows(m, TABLE, EncodeDesc(a) + (EncodeDesc(b) + (EncodeDesc(c)
                             + (EncodeDesc(d) + (EncodeDesc(e) + EncodeDesc(f))))))
    ensures SlotShows(m, 0, a) && SlotShows(m, 1, b) && SlotShows(m, 2, c)
    ensures SlotShows(m, 3, d) && SlotShows(m, 4, e) && SlotShows(m, 5, f)
  {
    var x4 := EncodeDesc(e) + EncodeDesc(f);
    var x3 := EncodeDesc(d) + x4;
    var x2 := EncodeDesc(c) + x3;
    var x1 := EncodeDesc(b) + x2;
    ShowsParts(m, TABLE, EncodeDesc(a), x1);
    ShowsParts(m, TABLE + 16, EncodeDesc(b), x2);
    ShowsParts(m, TABLE + 32, EncodeDesc(c), x3);
    ShowsParts(m, TABLE + 48, EncodeDesc(d), x4);
    ShowsParts(m, TABLE + 64, EncodeDesc(e), EncodeDesc(f));
  }

  /** Its four stores. */
  ghost predicate Stored(m: Mem, payload: seq<byte>) {
    && Shows(m, TABLE, Table()) && Shows(m, Out().header, EncodeHeader(1, 0))
    && Shows(m, In().header, EncodeHeader(0, 0)) && Shows(m, Out().data, payload)
  }

  lemma StoredShows(m: Mem, payload: seq<byte>)
    requires Stored(m, payload)
    ensures BothShown(m, payload)
  {
    SixSlots(m, HeaderDesc(Out(), 1), DataDesc(Out(), false, 2), StatusDesc(Out()),
             HeaderDesc(In(), 4), DataDesc(In(), true, 5), StatusDesc(In()));
  }

  lemma StoredOff(m: Mem, m': Mem, x: Region, payload: seq<byte>)
    requires |payload| == BLOCK && Stored(m, payload) && SameOff(m', m, x)
    requires Disjoint(Region(TABLE, 6 * DESC_SIZE), x) && Disjoint(Region(0x100, BLOCK), x)
    requires Disjoint(Region(Out().header, 16), x) && Disjoint(Region(In().header, 16), x)
    ensures Stored(m', payload)
  {
    ShowsOff(m, m', x, TABLE, Table());
    ShowsOff(m, m', x, Out().header, EncodeHeader(1, 0));
    ShowsOff(m, m', x, In().header, EncodeHeader(0, 0));
    ShowsOff(m, m', x, Out().data, payload);
  }

  lemma PublishStored(s: System, head: u16, payload: seq<byte>)
    requires |payload| == BLOCK && Ready(s) && |s.published| < DEFAULT_QUEUE_SIZE && Stored(s.w.mem, payload)
    ensures Enabled(s, Publish(head)) && Stored(Do(s, Publish(head)).w.mem, payload)
  {
    PublishShows(s, head, TABLE, Table());
    PublishShows(s, head, Out().header, EncodeHeader(1, 0));
    PublishShows(s, head, In().header, EncodeHeader(0, 0));
    PublishShows(s, head, Out().data, payload);
  }

  function Preparation(payload: seq<byte>): seq<Action> {
    [Fill(Out().data, payload)] + ([Fill(TABLE, Table())] + ([Fill(Out().header, EncodeHeader(1, 0))]
    + ([Fill(In().header, EncodeHeader(0, 0))] + ([Publish(0)] + []))))
  }

  lemma Prepared(start: System, payload: seq<byte>) returns (s: System)
    requires Ready(start) && start.published == [] && QueueOf(start).avail.value.consumed == 0 && |payload| == BLOCK
    ensures AllEnabled(start, Preparation(payload)) && s == Outcomes(start, Preparation(payload))
    ensures Ready(s) && s.published == [0] && s.w.disk == start.w.disk && Stored(s.w.mem, payload)
    ensures QueueOf(s).avail.value.consumed == 0
  {
    FillReady(start, Out().data, payload);
    var s1 := Do(start, Fill(Out().data, payload));
    FillReady(s1, TABLE, Table());
    var s2 := Do(s1, Fill(TABLE, Table()));
    ShowsAfter(s1.w.mem, Out().data, payload, TABLE, Table());
    FillReady(s2, Out().header, EncodeHeader(1, 0));
    var s3 := Do(s2, Fill(Out().header, EncodeHeader(1, 0)));
    ShowsAfter(s2.w.mem, Out().data, payload, Out().header, EncodeHeader(1, 0));
    ShowsAfter(s2.w.mem, TABLE, Table(), Out().header, EncodeHeader(1, 0));
    FillReady(s3, In().header, EncodeHeader(0, 0));
    var s4 := Do(s3, Fill(In().header, EncodeHeader(0, 0)));
    LastFill(s3.w.mem, payload);
    PublishReady(s4, 0);
    PublishStored(s4, 0, payload);
    s := Do(s4, Publish(0));
    ConsActions(s4, Publish(0), []);
    ConsActions(s3, Fill(In().header, EncodeHeader(0, 0)), [Publish(0)] + []);
    ConsActions(s2, Fill(Out().header, EncodeHeader(1, 0)),
                [Fill(In().header, EncodeHeader(0, 0))] + ([Publish(0)] + []));
    ConsActions(s1, Fill(TABLE, Table()),
                [Fill(Out().header, EncodeHeader(1, 0))]
                + ([Fill(In().header, EncodeHeader(0, 0))] + ([Publish(0)] + [])));
    ConsActions(start, Fill(Out().data, payload),
                [Fill(TABLE, Table())]
                + ([Fill(Out().header, EncodeHeader(1, 0))]
                   + ([Fill(In().header, EncodeHeader(0, 0))] + ([Publish(0)] + []))));
  }

  lemma LastFill(m: Mem, payload: seq<byte>)
    requires |payload| == BLOCK && Shows(m, Out().data, payload) && Shows(m, TABLE, Table())
    requires Shows(m, Out().header, EncodeHeader(1, 0))
    ensures Stored(Overwritten(m, In().header, EncodeHeader(0, 0)), payload)
  {
    var header := EncodeHeader(0, 0);
    ShowsAfter(m, Out().data, payload, In().header, header);
    ShowsAfter(m, TABLE, Table(), In().header, header);
    ShowsAfter(m, Out().header, EncodeHeader(1, 0), In().header, header);
    SpliceReadsBack(m.bytes, In().header, header);
  }

  /** One published chain, not consumed: the doorbell may be rung. */
  lemma RingsOne(s: System, head: u16, p: Place, isRead: bool)
    requires Ready(s) && Waiting(s) == [head] && head < 8 && ChainShown(s.w.mem, head, p, isRead) && Placed3(p)
    ensures Enabled(s, Doorbell) && Parse(s.w.mem, QueueOf(s), head) == Ok(RequestFor(p, isRead))
    ensures StatusReachable(s.w.mem, QueueOf(s), head)
  {
    PendingIsUnconsumed(s);
    ChainParses(s.w.mem, QueueOf(s), head, p, isRead);
  }

  /** A served write leaves the table, both headers and the payload. */
  lemma WriteServed(s: System, payload: seq<byte>)
    requires Ready(s) && Waiting(s) == [0] && Stored(s.w.mem, payload) && |payload| == BLOCK
    requires Enabled(s, Doorbell) && Parse(s.w.mem, QueueOf(s), 0) == Ok(RequestFor(Out(), false))
    ensures var s' := Do(s, Doorbell);
            && Ready(s') && Stored(s'.w.mem, payload) && s'.published == s.published
            && QueueOf(s').avail.value.consumed == |s.published|
            && s'.w.disk == Outcome(RequestFor(Out(), false), s.w.mem, s.w.disk).1
  {
    var req, s' := RequestFor(Out(), false), Do(s, Doorbell);
    DoorbellRuns(s, 0);
    DoorbellKeeps(s);
    StaysLaidOut(QueueOf(s), QueueOf(s'));
    var m := AfterRequest(s.w.mem, s.w.disk, req).0;
    WriteChangesStatus(s.w.mem, s.w.disk);
    StoredOff(s.w.mem, m, Region(Out().status, 1), payload);
    StoredOff(m, s'.w.mem, UsedRegion(QueueOf(s)), payload);
  }

  lemma WriteChangesStatus(m: Mem, d: Disk)
    ensures SameOff(AfterRequest(m, d, RequestFor(Out(), false)).0, m, Region(Out().status, 1))
  {
  }

  lemma WriteWillWrite(m: Mem, d: Disk, q: QueueState, payload: seq<byte>)
    requires Parse(m, q, 0) == Ok(RequestFor(Out(), false)) && |payload| == BLOCK && Shows(m, Out().data, payload)
    requires d.CanWrite(0, BLOCK)
    ensures WillWrite(m, d, q, 0)
  {
    SizeIsBlock(Out(), false);
    ContentsAreData(m, Out(), false, payload);
  }

  lemma ReadWillRead(m: Mem, d: Disk, q: QueueState)
    requires Parse(m, q, 3) == Ok(RequestFor(In(), true)) && d.CanRead(0, BLOCK)
    requires |m.bytes| == MEMORY_SIZE && m.mapped == ((a, n) => true)
    ensures WillRead(m, d, q, 3, RequestFor(Out(), false))
  {
    SizeIsBlock(Out(), false);
    SizeIsBlock(In(), true);
  }

  lemma WriteKeepsReadable(m: Mem, d: Disk, payload: seq<byte>)
    requires |payload| == BLOCK && Shows(m, Out().data, payload) && d.CanWrite(0, BLOCK) && d.CanRead(0, BLOCK)
    ensures Outcome(RequestFor(Out(), false), m, d).1.CanRead(0, BLOCK)
  {
    SizeIsBlock(Out(), false);
    ContentsAreData(m, Out(), false, payload);
    WriteRequestExact(RequestFor(Out(), false), m, d);
  }

  lemma PublishThree(s: System, payload: seq<byte>)
    requires Ready(s) && s.published == [0] && QueueOf(s).avail.value.consumed == 1 && Stored(s.w.mem, payload)
    requires |payload| == BLOCK
    ensures AllEnabled(s, [Publish(3)])
    ensures var t := Outcomes(s, [Publish(3)]);
            Ready(t) && Waiting(t) == [3] && Stored(t.w.mem, payload) && t.w.disk == s.w.disk && t.w.dev == s.w.dev
  {
    PublishReady(s, 3);
    PublishStored(s, 3, payload);
    SingleAction(s, Publish(3));
    assert Do(s, Publish(3)).published[1..] == [3];
  }

  lemma SingleAction(s: System, act: Action)
    requires Enabled(s, act)
    ensures AllEnabled(s, [act]) && Outcomes(s, [act]) == Do(s, act)
  {
    assert [act] + [] == [act];
    ConsActions(s, act, []);
  }

  lemma PublishSpares(s: System, head: u16, sector: nat, n: nat)
    requires Refines(s) && AllEnabled(s, [Publish(head)])
    ensures RunSpares(s, [Publish(head)], sector, n)
  {
    assert [Publish(head)][0] == Publish(head) && [Publish(head)][1..] == [];
    StepKeeps(s, Publish(head));
  }

  /** Byte by byte: from slot `head` on, a header of 16 bytes, 512 bytes of data, WRITE set for a read, and a status byte,
      linked in order; and the header, of type 0 for a read and 1 for a write, for sector 0. */
  predicate ChainAt(bytes: seq<byte>, head: nat, p: Place, isRead: bool) {
    && head < 8 && |bytes| >= 0x4000 && p.header + 16 <= 0x4000
    && DescAt(bytes, 0x1000 + 16 * head, Desc(p.header, 16, 1, head + 1))
    && DescAt(bytes, 0x1010 + 16 * head, Desc(p.data, 512, if isRead then 3 else 1, head + 2))
    && DescAt(bytes, 0x1020 + 16 * head, Desc(p.status, 1, 2, 0))
    && Word32(bytes, p.header) == (if isRead then 0 else 1) && Word64(bytes, p.header + 8) == 0
  }

  lemma ChainBytes(m: Mem, q: QueueState, head: u16, p: Place, isRead: bool)
    requires LaidOut(q) && head < 8 && ChainShown(m, head, p, isRead)
    ensures ChainAt(m.bytes, head, p, isRead)
  {
    SlotBytes(m, q, head, HeaderDesc(p, head + 1));
    SlotBytes(m, q, head + 1, DataDesc(p, isRead, head + 2));
    SlotBytes(m, q, head + 2, StatusDesc(p));
    ShownHeader(m, p.header, TypeOf(isRead), 0);
  }

  lemma PreparedBytes(m: Mem, q: QueueState, payload: seq<byte>)
    requires LaidOut(q) && Stored(m, payload)
    ensures ChainAt(m.bytes, 0, Place(0x3900, 0x3910, 0x100), false)
    ensures ChainAt(m.bytes, 3, Place(0x3920, 0x3930, 0x400), true)
  {
    StoredShows(m, payload);
    ChainBytes(m, q, 0, Out(), false);
    ChainBytes(m, q, 3, In(), true);
  }

  /** Byte by byte: two completions, of head 0 and of head 3, each of 512 bytes. */
  predicate TwoCompleted(bytes: seq<byte>) {
    && |bytes| >= 0x3014 && Word16(bytes, 0x3002) == 2
    && Word32(bytes, 0x3004) == 0 && Word32(bytes, 0x3008) == 512
    && Word32(bytes, 0x300c) == 3 && Word32(bytes, 0x3010) == 512
  }

  lemma OneMoreElem(m: Mem, q: QueueState, head: u16, p: Place, isRead: bool)
    requires Parse(m, q, head) == Ok(RequestFor(p, isRead)) && StatusReachable(m, q, head)
    ensures ParsedElems(m, q, [head]) + RejectedElems(m, q, [head]) == [UsedElem(head, 512)]
  {
    SizeIsBlock(p, isRead);
    OneHead(m, q, head);
    assert [UsedElem(head, 512)] + [] == [UsedElem(head, 512)];
  }

  lemma CompletesOne(s: System, head: u16, p: Place, isRead: bool)
    requires Ready(s) && Enabled(s, Doorbell) && Waiting(s) == [head]
    requires Parse(s.w.mem, QueueOf(s), head) == Ok(RequestFor(p, isRead))
    requires StatusReachable(s.w.mem, QueueOf(s), head)
    ensures var s' := Do(s, Doorbell);
            && Refines(s') && LaidOut(QueueOf(s')) && s'.got == []
            && Completions(QueueOf(s')) == Completions(QueueOf(s)) + [UsedElem(head, 512)]
  {
    OneMoreElem(s.w.mem, QueueOf(s), head, p, isRead);
    DoorbellKeeps(s);
    DoorbellRuns(s, head);
    StaysLaidOut(QueueOf(s), QueueOf(Do(s, Doorbell)));
  }

  lemma CompletedBytes(s: System)
    requires Refines(s) && LaidOut(QueueOf(s)) && s.got == []
    requires Completions(QueueOf(s)) == [UsedElem(0, 512), UsedElem(3, 512)]
    ensures TwoCompleted(s.w.mem.bytes)
  {
    UsedRingBytes(s, 0);
    UsedRingBytes(s, 1);
  }

  lemma BothComplete(s: System, t: System)
    requires Ready(s) && Enabled(s, Doorbell) && Waiting(s) == [0] && Completions(QueueOf(s)) == []
    requires Parse(s.w.mem, QueueOf(s), 0) == Ok(RequestFor(Out(), false)) && StatusReachable(s.w.mem, QueueOf(s), 0)
    requires Ready(t) && Enabled(t, Doorbell) && Waiting(t) == [3] && t.w.dev == Do(s, Doorbell).w.dev
    requires Parse(t.w.mem, QueueOf(t), 3) == Ok(RequestFor(In(), true)) && StatusReachable(t.w.mem, QueueOf(t), 3)
    ensures TwoCompleted(Do(t, Doorbell).w.mem.bytes)
  {
    CompletesOne(s, 0, Out(), false);
    CompletesOther(t);
  }

  lemma CompletesOther(t: System)
    requires Ready(t) && Enabled(t, Doorbell) && Waiting(t) == [3] && Completions(QueueOf(t)) == [] + [UsedElem(0, 512)]
    requires Parse(t.w.mem, QueueOf(t), 3) == Ok(RequestFor(In(), true)) && StatusReachable(t.w.mem, QueueOf(t), 3)
    ensures TwoCompleted(Do(t, Doorbell).w.mem.bytes)
  {
    CompletesOne(t, 3, In(), true);
    assert [] + [UsedElem(0, 512)] + [UsedElem(3, 512)] == [UsedElem(0, 512), UsedElem(3, 512)];
    CompletedBytes(Do(t, Doorbell));
  }

  lemma FinalData(m: Mem, payload: seq<byte>)
    requires |m.bytes| == MEMORY_SIZE && |payload| == BLOCK
    requires AllAccessible(m, RequestFor(In(), true).buffers, true)
    requires Contents(m, RequestFor(In(), true).buffers, true) == payload
    ensures m.bytes[In().data..In().data + BLOCK] == payload
  {
    var bufs := RequestFor(In(), true).buffers;
    assert bufs[1..] == [] && Contents(m, bufs[1..], true) == [];
    assert Contents(m, bufs, true) == m.Load(In().data, BLOCK);
  }

  lemma Alone(head: u16)
    ensures [] + [head] + [] == [head]
  {
  }

  /** The last step: the premises hold, so the theorem applies. */
  lemma ReadsBack(s: System, t: System, payload: seq<byte>)
    requires Ready(s) && Enabled(s, Doorbell) && Waiting(s) == [0]
    requires |payload| == BLOCK && Shows(s.w.mem, Out().data, payload)
    requires Parse(s.w.mem, QueueOf(s), 0) == Ok(RequestFor(Out(), false))
    requires WillWrite(s.w.mem, s.w.disk, QueueOf(s), 0)
    requires Ready(Do(s, Doorbell)) && AllEnabled(Do(s, Doorbell), [Publish(3)])
    requires t == Outcomes(Do(s, Doorbell), [Publish(3)])
    requires Ready(t) && Enabled(t, Doorbell) && Waiting(t) == [3]
    requires Parse(t.w.mem, QueueOf(t), 3) == Ok(RequestFor(In(), true))
    requires WillRead(t.w.mem, t.w.disk, QueueOf(t), 3, RequestFor(Out(), false))
    ensures var m := Do(t, Doorbell).w.mem;
            |m.bytes| == MEMORY_SIZE && m.bytes[In().data..In().data + BLOCK] == payload
  {
    Alone(0);
    Alone(3);
    PublishSpares(Do(s, Doorbell), 3, 0, BLOCK);
    SizeIsBlock(Out(), false);
    WriteThenReadThroughDevice(s, [], 0, [], [Publish(3)], t, [], 3, []);
    ContentsAreData(s.w.mem, Out(), false, payload);
    DoorbellMeaning(t, t.w.mem);
    FinalData(Do(t, Doorbell).w.mem, payload);
  }

  /** From power-on: the driver stores a payload, two three-descriptor chains and their headers, publishes the write, rings
      the doorbell, publishes the read, and rings again. Every premise of the data-path theorem holds, and the reader's
      buffer ends holding the payload. */
  lemma DataFromPowerOn(disk: Disk, payload: seq<byte>) returns (start: System, s: System, served: System, t: System)
    requires |payload| == BLOCK && disk.CanWrite(0, BLOCK) && disk.CanRead(0, BLOCK)
    ensures start == System(Run(PoweredOn(disk), Setup()), [], []) && Configures(Setup()) && Refines(start)
    ensures start.w == AfterAccesses(PoweredOn(disk), Here(), SetupAccesses())
    ensures AllEnabled(start, Preparation(payload)) && s == Outcomes(start, Preparation(payload))
    ensures Refines(s) && Enabled(s, Doorbell) && Waiting(s) == [0] && WillWrite(s.w.mem, s.w.disk, QueueOf(s), 0)
    ensures served == Do(s, Doorbell) && Refines(served) && AllEnabled(served, [Publish(3)])
    ensures t == Outcomes(served, [Publish(3)]) && Refines(t) && Enabled(t, Doorbell) && Waiting(t) == [3]
    ensures WillRead(t.w.mem, t.w.disk, QueueOf(t), 3, RequestFor(Out(), false))
    ensures ChainAt(s.w.mem.bytes, 0, Place(0x3900, 0x3910, 0x100), false)
    ensures ChainAt(s.w.mem.bytes, 3, Place(0x3920, 0x3930, 0x400), true)
    ensures TwoCompleted(Do(t, Doorbell).w.mem.bytes)
    ensures var m := Do(t, Doorbell).w.mem;
            |m.bytes| == MEMORY_SIZE && m.bytes[In().data..In().data + BLOCK] == payload
  {
    PlacesAreGood();
    start := StartReady(disk);
    s := Prepared(start, payload);
    assert s.published[0..] == [0];
    StoredShows(s.w.mem, payload);
    RingsOne(s, 0, Out(), false);
    WriteWillWrite(s.w.mem, s.w.disk, QueueOf(s), payload);
    WriteServed(s, payload);
    WriteKeepsReadable(s.w.mem, s.w.disk, payload);
    served := Do(s, Doorbell);
    PublishThree(served, payload);
    t := Outcomes(served, [Publish(3)]);
    StoredShows(t.w.mem, payload);
    RingsOne(t, 3, In(), true);
    ReadWillRead(t.w.mem, t.w.disk, QueueOf(t));
    ReadsBack(s, t, payload);
    PreparedBytes(s.w.mem, QueueOf(s), payload);
    BothComplete(s, t);
  }
}
