/** What one queue notification does, as functions of the memory, the disk, the queue and the interrupt status.
    The functions work on a single queue in place; the device class reaches the same states from a cloned queue. */
module QueueEngine {
  import opened Common
  import opened Bytes
  import opened Memory
  import opened WrappingCounters
  import opened Descriptors
  import opened Rings
  import opened BlockRequests
  import opened Queues

  datatype BlockHeader = BlockHeader(requestType: u32, ioprio: u32, sector: u64)

  function DecodeHeader(bs: seq<byte>): BlockHeader
    requires |bs| == BLOCK_HEADER_SIZE
  {
    BlockHeader(U32(bs[..4]), U32(bs[4..8]), U64(bs[8..]))
  }

  datatype Engine = Engine(mem: Mem, disk: Disk, queue: QueueState, irq: u32)

  function HeaderOf(m: Mem, ds: seq<Desc>): Result<BlockHeader> {
    if ds == [] || ds[0].IsWrite() || ds[0].len < BLOCK_HEADER_SIZE then Err(InvalidDescriptor)
    else if !m.Accessible(ds[0].addr, BLOCK_HEADER_SIZE) then Err(InvalidAddress)
    else Ok(DecodeHeader(m.Load(ds[0].addr, BLOCK_HEADER_SIZE)))
  }

  /** The chain is a request: header descriptor first, status descriptor last, anything in between. */
  predicate WellFormed(m: Mem, ds: seq<Desc>) {
    |ds| >= MIN_DESCRIPTOR_CHAIN_LENGTH && HeaderOf(m, ds).Ok? && StatusOf(ds).Ok?
  }

  function RequestOf(m: Mem, ds: seq<Desc>): BlockRequest
    requires WellFormed(m, ds)
  {
    var h := HeaderOf(m, ds).value;
    BlockRequest(h.requestType, h.sector, AsBuffers(ds[1..|ds| - 1]), StatusOf(ds).value)
  }

  /** Parsing, from one walk of the chain. */
  function Parse(m: Mem, q: QueueState, head: nat): Result<BlockRequest> {
    match QueueFollow(m, q, head)
    case Err(_) => Err(InvalidQueue)
    case Ok(ds) => if WellFormed(m, ds) then Ok(RequestOf(m, ds)) else Err(InvalidQueue)
  }

  /** A queue and a copy taken before some completions read everything alike. */
  lemma CopyReadsAlike(m: Mem, q: QueueState, q': QueueState, index: nat)
    requires OnlyCompleted(q, q')
    ensures q'.size == q.size && QueueAvailEntry(m, q', index) == QueueAvailEntry(m, q, index)
    ensures Parse(m, q', index) == Parse(m, q, index)
    ensures QueueStatusAddr(m, q', index) == QueueStatusAddr(m, q, index)
    ensures forall s: byte :: StatusWritten(m, q', index, s) == StatusWritten(m, q, index, s)
  {
  }

  lemma OnlyCompletedTrans(q: QueueState, q': QueueState, q'': QueueState)
    requires OnlyCompleted(q, q') && OnlyCompleted(q', q'')
    ensures OnlyCompleted(q, q'')
  {
  }

  /** The length a completed request reports: all data descriptors, whatever their direction, in 32 bits. */
  function ReportedLen(r: BlockRequest): u32 {
    r.Size() % 0x1_0000_0000
  }

  /** `irq | VIRTIO_MMIO_INT_VRING`: bit 0 set. */
  function Interrupt(irq: u32): u32 { irq - irq % 2 + 1 }

  function NotifyIfWanted(e: Engine): Engine {
    if QueueNotifyWanted(e.mem, e.queue) == Ok(true) then e.(irq := Interrupt(e.irq)) else e
  }

  /** Used element, then interrupt if the element was published and notifications are wanted. */
  function PublishUsed(e: Engine, elem: UsedElem): (r: Engine)
    requires e.queue.size > 0
    ensures OnlyCompleted(e.queue, r.queue)
  {
    var (m, q, added) := QueueAppendUsed(e.mem, e.queue, elem);
    var e' := e.(mem := m, queue := q);
    if added.Ok? then NotifyIfWanted(e') else e'
  }

  /** Status byte first; if it cannot be written the request is never published. */
  function CompleteRequest(e: Engine, head: u16, len: u32, status: byte): (r: Engine)
    requires e.queue.size > 0
    ensures OnlyCompleted(e.queue, r.queue)
  {
    var (m, written) := StatusWritten(e.mem, e.queue, head, status);
    if written.Err? then e else PublishUsed(e.(mem := m), UsedElem(head, len))
  }

  function RunRequest(e: Engine, head: u16, req: BlockRequest): (r: Engine)
    requires e.queue.size > 0
    ensures OnlyCompleted(e.queue, r.queue)
  {
    var (m, d, res) := Outcome(req, e.mem, e.disk);
    CompleteRequest(e.(mem := m, disk := d), head, ReportedLen(req), StatusFor(res))
  }

  /** A parsed head completes at once; an unparsable one gets an error status where possible and is deferred. */
  function HandleHead(e: Engine, head: u16, deferred: seq<UsedElem>): (r: (Engine, seq<UsedElem>))
    requires e.queue.size > 0
    ensures OnlyCompleted(e.queue, r.0.queue)
  {
    match Parse(e.mem, e.queue, head)
    case Ok(req) => (RunRequest(e, head, req), deferred)
    case Err(_) =>
      (e.(mem := StatusWritten(e.mem, e.queue, head, VIRTIO_BLK_S_IOERR).0), deferred + [UsedElem(head, 0)])
  }

  /** One iteration of the batch loop: an unreadable ring entry is skipped. */
  function DrainStep(e: Engine, cur: u16, deferred: seq<UsedElem>): (r: (Engine, seq<UsedElem>))
    requires e.queue.size > 0
    ensures OnlyCompleted(e.queue, r.0.queue)
  {
    match QueueAvailEntry(e.mem, e.queue, cur % e.queue.size)
    case Err(_) => (e, deferred)
    case Ok(head) => HandleHead(e, head, deferred)
  }

  function Drain(e: Engine, cur: u16, stop: u16, deferred: seq<UsedElem>): (r: (Engine, seq<UsedElem>))
    requires e.queue.size > 0
    ensures OnlyCompleted(e.queue, r.0.queue)
    decreases Distance(cur, stop)
  {
    if cur == stop then (e, deferred)
    else
      DistanceStep(cur, stop);
      var (e', deferred') := DrainStep(e, cur, deferred);
      Drain(e', Next(cur), stop, deferred')
  }

  function AppendAll(e: Engine, elems: seq<UsedElem>): (r: Engine)
    requires e.queue.size > 0
    ensures OnlyCompleted(e.queue, r.queue)
    decreases |elems|
  {
    if elems == [] then e
    else
      var (m, q, _) := QueueAppendUsed(e.mem, e.queue, elems[0]);
      AppendAll(e.(mem := m, queue := q), elems[1..])
  }

  /** How far the available index is ahead of the queue's cursor, as the loop counts it. */
  function Announced(e: Engine): nat {
    match QueueAvailIdx(e.mem, e.queue)
    case Err(_) => 0
    case Ok(idx) => Distance(e.queue.LastAvail(), idx)
  }

  function Finish(e: Engine, stop: u16, deferred: seq<UsedElem>): (r: Engine)
    requires e.queue.size > 0
    ensures r.queue.size == e.queue.size
  {
    NotifyIfWanted(AppendAll(e.(queue := QueueConsume(e.queue, stop)), deferred))
  }

  function ProcessQueue(e: Engine): (r: Engine)
    requires e.queue.size > 0
    ensures r.queue.size == e.queue.size
  {
    match QueueAvailIdx(e.mem, e.queue)
    case Err(_) => e
    case Ok(stop) =>
      var (e', deferred) := Drain(e, e.queue.LastAvail(), stop, []);
      if stop == e.queue.LastAvail() && deferred == [] then e' else Finish(e', stop, deferred)
  }
}
