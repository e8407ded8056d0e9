/** What handling one head does to memory when the chain keeps clear of the table and the rings. */
module ChainEffects {
  import opened Common
  import opened Bytes
  import opened Wire
  import opened Memory
  import opened Descriptors
  import opened Rings
  import opened BlockRequests
  import opened Transfers
  import opened Queues
  import opened QueueEngine
  import opened Layout

  /** A queue that can be served. Its rings may have kept an earlier size than the one it has now. */
  ghost predicate Wired(q: QueueState) { RepInv(q) && q.IsValid() }

  /** Moreover both rings are as large as the queue. */
  ghost predicate Matched(q: QueueState) {
    Wired(q) && q.avail.value.size == q.size && q.used.value.size == q.size
  }

  ghost function TableRegion(q: QueueState): Region requires Wired(q) { q.desc.value.Extent() }

  ghost function AvailRegion(q: QueueState): Region requires Wired(q) { q.avail.value.Extent() }

  ghost function UsedRegion(q: QueueState): Region requires Wired(q) { q.used.value.Extent() }

  /** The one ring the device writes overlaps neither of the structures it reads. */
  ghost predicate RingsApart(q: QueueState)
    requires Wired(q)
  {
    Disjoint(UsedRegion(q), TableRegion(q)) && Disjoint(UsedRegion(q), AvailRegion(q))
  }

  ghost predicate DescClear(q: QueueState, d: Desc)
    requires Wired(q)
  {
    && Disjoint(d.Extent(), UsedRegion(q))
    && (d.IsWrite() ==> Disjoint(d.Extent(), TableRegion(q)) && Disjoint(d.Extent(), AvailRegion(q)))
  }

  /** The chain at `head`, if there is one: no buffer overlaps the used ring, and no buffer the device may write
      overlaps the table or the available ring. */
  ghost predicate ChainClear(m: Mem, q: QueueState, head: nat)
    requires Wired(q)
  {
    var chain := QueueFollow(m, q, head);
    chain.Ok? ==> forall i :: 0 <= i < |chain.value| ==> DescClear(q, chain.value[i])
  }

  /** If the chain is a request, its status byte can be written. */
  ghost predicate StatusReachable(m: Mem, q: QueueState, head: nat) {
    var req := Parse(m, q, head);
    req.Ok? ==> m.Accessible(req.value.statusAddr, 1)
  }

  /** The length a head will be completed with, if its chain is a request. */
  function Report(m: Mem, q: QueueState, head: nat): Option<u32> {
    match Parse(m, q, head)
    case Ok(req) => Some(ReportedLen(req))
    case Err(_) => None
  }

  /** A chain that is a request: at least a header and a status descriptor, the first readable by the device, at least
      16 bytes long and accessible, the last writable (flag bit 1) and not empty. */
  ghost predicate IsRequestChain(m: Mem, t: DescriptorTable, path: seq<nat>) {
    && IsChain(m, t, path) && |path| >= 2
    && var first, last := Slot(m, t, path[0]), Slot(m, t, path[|path| - 1]);
    && first.flags / 2 % 2 == 0 && first.len >= 16 && m.Accessible(first.addr, 16)
    && last.flags / 2 % 2 == 1 && last.len >= 1
  }

  /** The request such a chain describes: type and sector at offsets 0 and 8 of what its first slot points to, the status
      byte in its last slot, and one data buffer for each slot between, whole and in order. */
  ghost predicate Describes(m: Mem, t: DescriptorTable, path: seq<nat>, req: BlockRequest)
    requires IsRequestChain(m, t, path)
  {
    var header := Slot(m, t, path[0]).addr;
    && req.requestType == Word32(m.bytes, header) && req.sector == Word64(m.bytes, header + 8)
    && req.statusAddr == Slot(m, t, path[|path| - 1]).addr
    && |req.buffers| == |path| - 2
    && forall i :: 0 <= i < |req.buffers| ==> BufferOf(req.buffers[i], Slot(m, t, path[i + 1]))
  }

  /** The buffer is what the descriptor says, written by the device if flag bit 1 is set. */
  predicate BufferOf(b: Buffer, d: Desc) {
    b.addr == d.addr && b.len == d.len && (b.isWrite <==> d.flags / 2 % 2 == 1)
  }

  /** For a block device the data buffers of a followed chain are its descriptors strictly between the first and the last;
      for any other device, all of them. Each is taken whole, in order. */
  lemma DataBuffersAre(ds: seq<Desc>, device: DeviceType)
    ensures var first := if device == Block then 1 else 0;
            var count := if device != Block then |ds| else if |ds| < 2 then 0 else |ds| - 2;
            |DataBuffers(ds, device)| == count
            && forall i :: 0 <= i < count ==> BufferOf(DataBuffers(ds, device)[i], ds[first + i])
  {
  }

  lemma WellFormedIff(m: Mem, t: DescriptorTable, path: seq<nat>)
    requires IsChain(m, t, path)
    ensures WellFormed(m, Slots(m, t, path)) <==> IsRequestChain(m, t, path)
  {
    var ds := Slots(m, t, path);
    assert ds[0] == Slot(m, t, path[0]) && ds[|ds| - 1] == Slot(m, t, path[|path| - 1]);
  }

  lemma MiddleBuffer(ds: seq<Desc>, i: nat)
    requires i + 2 < |ds|
    ensures BufferOf(AsBuffers(ds[1..|ds| - 1])[i], ds[i + 1])
  {
  }

  lemma RequestWords(m: Mem, ds: seq<Desc>)
    requires WellFormed(m, ds)
    ensures ds[0].addr + 16 <= |m.bytes|
    ensures var req := RequestOf(m, ds);
            && req.requestType == Word32(m.bytes, ds[0].addr) && req.sector == Word64(m.bytes, ds[0].addr + 8)
            && req.statusAddr == ds[|ds| - 1].addr && |req.buffers| == |ds| - 2
            && forall i :: 0 <= i < |req.buffers| ==> BufferOf(req.buffers[i], ds[i + 1])
  {
    HeaderLayout(m.bytes, ds[0].addr);
    forall i | 0 <= i < |ds| - 2 ensures BufferOf(RequestOf(m, ds).buffers[i], ds[i + 1]) {
      MiddleBuffer(ds, i);
    }
  }

  lemma RequestIsDescribed(m: Mem, t: DescriptorTable, path: seq<nat>)
    requires IsRequestChain(m, t, path) && WellFormed(m, Slots(m, t, path))
    ensures Describes(m, t, path, RequestOf(m, Slots(m, t, path)))
  {
    RequestWords(m, Slots(m, t, path));
  }

  lemma ParseAlongPath(m: Mem, q: QueueState, path: seq<nat>)
    requires q.desc.Some? && IsChain(m, q.desc.value, path)
    ensures Parse(m, q, path[0]).Ok? <==> IsRequestChain(m, q.desc.value, path)
    ensures IsRequestChain(m, q.desc.value, path) ==> Describes(m, q.desc.value, path, Parse(m, q, path[0]).value)
  {
    var t := q.desc.value;
    FollowExactlyChains(m, t, path[0]);
    assert QueueFollow(m, q, path[0]) == Ok(Slots(m, t, path));
    WellFormedIff(m, t, path);
    if IsRequestChain(m, t, path) {
      RequestIsDescribed(m, t, path);
    }
  }

  /** Parsing succeeds exactly on the heads of request chains, and finds the request the chain describes. */
  lemma ParseExactlyRequests(m: Mem, q: QueueState, head: nat)
    requires q.desc.Some?
    ensures Parse(m, q, head).Ok? <==> exists path :: IsRequestChain(m, q.desc.value, path) && path[0] == head
    ensures Parse(m, q, head).Err? ==> Parse(m, q, head) == Err(InvalidQueue)
    ensures forall path :: IsRequestChain(m, q.desc.value, path) && path[0] == head ==>
              Parse(m, q, head).Ok? && Describes(m, q.desc.value, path, Parse(m, q, head).value)
  {
    var t := q.desc.value;
    forall path | IsRequestChain(m, t, path) && path[0] == head
      ensures Parse(m, q, head).Ok? && Describes(m, t, path, Parse(m, q, head).value)
    {
      ParseAlongPath(m, q, path);
    }
    if Parse(m, q, head).Ok? {
      FollowExactlyChains(m, t, head);
      var path :| IsChain(m, t, path) && path[0] == head;
      ParseAlongPath(m, q, path);
    }
  }

  /** Parsing depends on memory through the table alone, but for the two header fields. */
  lemma ParseFrame(m: Mem, m': Mem, q: QueueState, head: nat)
    requires Wired(q) && SameOn(m, m', TableRegion(q))
    ensures QueueFollow(m, q, head) == QueueFollow(m', q, head)
    ensures Parse(m, q, head).Ok? == Parse(m', q, head).Ok?
    ensures Parse(m, q, head).Ok? ==>
              && Parse(m, q, head).value.buffers == Parse(m', q, head).value.buffers
              && Parse(m, q, head).value.statusAddr == Parse(m', q, head).value.statusAddr
    ensures Report(m, q, head) == Report(m', q, head)
    ensures QueueStatusAddr(m, q, head) == QueueStatusAddr(m', q, head)
  {
    FollowFrame(m, m', q.desc.value, head);
  }

  lemma ConditionsFrame(m: Mem, m': Mem, q: QueueState, head: nat)
    requires Wired(q) && SameOn(m, m', TableRegion(q))
    ensures ChainClear(m, q, head) <==> ChainClear(m', q, head)
    ensures StatusReachable(m, q, head) <==> StatusReachable(m', q, head)
  {
    ParseFrame(m, m', q, head);
  }

  /** The data buffers and the status byte inherit the chain's clearance. */
  lemma RequestClear(m: Mem, q: QueueState, head: nat)
    requires Wired(q) && ChainClear(m, q, head) && Parse(m, q, head).Ok?
    ensures var req := Parse(m, q, head).value;
            && Clear(req.buffers, true, TableRegion(q)) && Clear(req.buffers, true, AvailRegion(q))
            && Clear(req.buffers, true, UsedRegion(q)) && Clear(req.buffers, false, UsedRegion(q))
  {
    var ds := QueueFollow(m, q, head).value;
    var req := Parse(m, q, head).value;
    forall i | 0 <= i < |req.buffers|
      ensures Disjoint(req.buffers[i].Extent(), UsedRegion(q))
      ensures req.buffers[i].isWrite ==>
                Disjoint(req.buffers[i].Extent(), TableRegion(q)) && Disjoint(req.buffers[i].Extent(), AvailRegion(q))
    {
      assert DescClear(q, ds[i + 1]);
      assert req.buffers[i] == AsBuffer(ds[i + 1]);
    }
  }

  lemma StatusClear(m: Mem, q: QueueState, head: nat)
    requires Wired(q) && ChainClear(m, q, head) && QueueStatusAddr(m, q, head).Ok?
    ensures var at := Region(QueueStatusAddr(m, q, head).value, 1);
            Disjoint(at, TableRegion(q)) && Disjoint(at, AvailRegion(q)) && Disjoint(at, UsedRegion(q))
  {
    var ds := QueueFollow(m, q, head).value;
    assert DescClear(q, ds[|ds| - 1]);
  }

  /** `m'` follows from `m` by writes clear of the table and of both rings. */
  ghost predicate AvoidsQueue(m: Mem, m': Mem, q: QueueState)
    requires Wired(q)
  {
    Avoids(m, m', TableRegion(q)) && Avoids(m, m', AvailRegion(q)) && Avoids(m, m', UsedRegion(q))
  }

  lemma StatusWriteAvoids(m0: Mem, m: Mem, q: QueueState, head: nat, status: byte)
    requires Wired(q) && ChainClear(m, q, head) && AvoidsQueue(m0, m, q)
    ensures AvoidsQueue(m0, StatusWritten(m, q, head, status).0, q)
  {
    if QueueStatusAddr(m, q, head).Ok? {
      var addr := QueueStatusAddr(m, q, head).value;
      StatusClear(m, q, head);
      AvoidsStore(m0, m, addr, [status], TableRegion(q));
      AvoidsStore(m0, m, addr, [status], AvailRegion(q));
      AvoidsStore(m0, m, addr, [status], UsedRegion(q));
    }
  }

  /** Memory and disk after a parsed request has run and its status byte has been written. */
  ghost function AfterRequest(m: Mem, d: Disk, req: BlockRequest): (Mem, Disk) {
    var (m1, d1, res) := Outcome(req, m, d);
    (m1.TryStore(req.statusAddr, [StatusFor(res)]), d1)
  }

  lemma OutcomeAvoidsQueue(m: Mem, d: Disk, q: QueueState, head: nat)
    requires Wired(q) && ChainClear(m, q, head) && Parse(m, q, head).Ok?
    ensures AvoidsQueue(m, Outcome(Parse(m, q, head).value, m, d).0, q)
  {
    var req := Parse(m, q, head).value;
    RequestClear(m, q, head);
    OutcomeAvoids(req, m, d, TableRegion(q));
    OutcomeAvoids(req, m, d, AvailRegion(q));
    OutcomeAvoids(req, m, d, UsedRegion(q));
  }

  /** The status re-walk, made after the data was copied, still finds the descriptor the parse found. */
  lemma StatusRewalkAgrees(m: Mem, d: Disk, q: QueueState, head: nat)
    requires Wired(q) && ChainClear(m, q, head) && Parse(m, q, head).Ok?
    ensures var req := Parse(m, q, head).value;
            var m1 := Outcome(req, m, d).0;
            && SameShape(m, m1) && ChainClear(m1, q, head)
            && QueueStatusAddr(m1, q, head) == Ok(req.statusAddr)
  {
    OutcomeAvoidsQueue(m, d, q, head);
    var m1 := Outcome(Parse(m, q, head).value, m, d).0;
    AvoidsSame(m, m1, TableRegion(q));
    ParseFrame(m, m1, q, head);
    ConditionsFrame(m, m1, q, head);
  }

  lemma AfterRequestAvoids(m: Mem, d: Disk, q: QueueState, head: nat)
    requires Wired(q) && ChainClear(m, q, head) && Parse(m, q, head).Ok?
    ensures AvoidsQueue(m, AfterRequest(m, d, Parse(m, q, head).value).0, q)
  {
    var req := Parse(m, q, head).value;
    var (m1, d1, res) := Outcome(req, m, d);
    OutcomeAvoidsQueue(m, d, q, head);
    StatusRewalkAgrees(m, d, q, head);
    StatusWriteAvoids(m, m1, q, head, StatusFor(res));
  }

  /** Running a parsed request touches nothing of the queue before the used element, and the element is published
      exactly when the status byte could be written. */
  lemma RunRequestStages(e: Engine, head: u16)
    requires Wired(e.queue) && ChainClear(e.mem, e.queue, head) && Parse(e.mem, e.queue, head).Ok?
    ensures var req := Parse(e.mem, e.queue, head).value;
            var (m, d) := AfterRequest(e.mem, e.disk, req);
            && AvoidsQueue(e.mem, m, e.queue)
            && RunRequest(e, head, req) ==
               if e.mem.Accessible(req.statusAddr, 1)
               then PublishUsed(e.(mem := m, disk := d), UsedElem(head, ReportedLen(req)))
               else e.(mem := m, disk := d)
  {
    AfterRequestAvoids(e.mem, e.disk, e.queue, head);
    StatusRewalkAgrees(e.mem, e.disk, e.queue, head);
  }

  /** An unparsable head: at most its status byte is written. */
  lemma RejectStages(e: Engine, head: u16)
    requires Wired(e.queue) && ChainClear(e.mem, e.queue, head)
    ensures AvoidsQueue(e.mem, StatusWritten(e.mem, e.queue, head, VIRTIO_BLK_S_IOERR).0, e.queue)
  {
    ExtendsRefl(e.mem);
    StatusWriteAvoids(e.mem, e.mem, e.queue, head, VIRTIO_BLK_S_IOERR);
  }

  lemma AvoidsQueueSame(m: Mem, m': Mem, q: QueueState)
    requires Wired(q) && AvoidsQueue(m, m', q)
    ensures SameOn(m, m', TableRegion(q)) && SameOn(m, m', AvailRegion(q)) && SameOn(m, m', UsedRegion(q))
  {
    AvoidsSame(m, m', TableRegion(q));
    AvoidsSame(m, m', AvailRegion(q));
    AvoidsSame(m, m', UsedRegion(q));
  }
}
