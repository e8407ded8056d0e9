/** What handling one head does, told from the bytes its chain lies in: which disk bytes a read delivers, which a write
    replaces, and how a head that is no request is marked. */
module HeadMeaning {
  import opened Common
  import opened Bytes
  import opened Wire
  import opened Memory
  import opened Descriptors
  import opened Rings
  import opened BlockRequests
  import opened Transfers
  import opened Queues
  import opened QueueEngine
  import opened Layout
  import opened ChainEffects
  import opened SequentialMeaning
  import opened DataPath

  // ------------------------------------------------------------------ the status byte

  ghost function LastSlot(m: Mem, t: DescriptorTable, path: seq<nat>): Desc
    requires IsChain(m, t, path)
  {
    Slot(m, t, path[|path| - 1])
  }

  /** A chain's status address is that of its last slot, if flag bit 1 lets the device write it and it is not empty; short,
      unreadable or unwritable slots before it make no difference. */
  lemma StatusAddrIs(m: Mem, q: QueueState, path: seq<nat>)
    requires q.desc.Some? && IsChain(m, q.desc.value, path)
    ensures var last := LastSlot(m, q.desc.value, path);
            QueueStatusAddr(m, q, path[0]) ==
            if last.flags / 2 % 2 == 1 && last.len >= 1 then Ok(last.addr) else Err(InvalidQueue)
  {
    FollowExactlyChains(m, q.desc.value, path[0]);
    var ds := Slots(m, q.desc.value, path);
    assert ds[|ds| - 1] == LastSlot(m, q.desc.value, path);
  }

  /** Without a terminated chain there is no status address. */
  lemma NoChainNoStatus(m: Mem, q: QueueState, head: nat)
    requires q.desc.Some? && forall path :: IsChain(m, q.desc.value, path) ==> path[0] != head
    ensures QueueStatusAddr(m, q, head).Err?
  {
    FollowExactlyChains(m, q.desc.value, head);
  }

  /** The head of a chain that is no request is deferred with length zero; 1, for an I/O error, is stored where its status
      byte belongs, if there is such a place and it can be written, and nothing else changes. */
  lemma RejectedHeadIsMarked(e: Engine, path: seq<nat>, deferred: seq<UsedElem>)
    requires e.queue.size > 0 && e.queue.desc.Some? && IsChain(e.mem, e.queue.desc.value, path)
    requires path[0] < 0x1_0000 && !IsRequestChain(e.mem, e.queue.desc.value, path)
    ensures var last := LastSlot(e.mem, e.queue.desc.value, path);
            var (e', deferred') := HandleHead(e, path[0], deferred);
            && deferred' == deferred + [UsedElem(path[0], 0)]
            && e' == e.(mem := e'.mem)
            && if last.flags / 2 % 2 == 1 && last.len >= 1 && e.mem.Accessible(last.addr, 1)
               then SameOff(e.mem, e'.mem, Region(last.addr, 1)) && e'.mem.bytes[last.addr] == 1
               else e'.mem == e.mem
  {
    StatusAddrIs(e.mem, e.queue, path);
    ParseAlongPath(e.mem, e.queue, path);
  }

  // ------------------------------------------------------------------ requests

  ghost function HeaderAt(m: Mem, t: DescriptorTable, path: seq<nat>): nat
    requires IsRequestChain(m, t, path)
  {
    Slot(m, t, path[0]).addr
  }

  /** The request at the head of the chain, its type and its sector, read off the header's bytes. */
  lemma RequestAt(m: Mem, d: Disk, q: QueueState, path: seq<nat>) returns (req: BlockRequest)
    requires q.desc.Some? && IsRequestChain(m, q.desc.value, path) && path[0] < 0x1_0000
    ensures Parse(m, q, path[0]) == Ok(req) && Describes(m, q.desc.value, path, req)
    ensures HandleAlone(m, d, q, path[0]) == AfterRequest(m, d, req)
  {
    ParseAlongPath(m, q, path);
    req := Parse(m, q, path[0]).value;
  }

  /** The four bytes of the request type. */
  ghost predicate TypeBytes(m: Mem, t: DescriptorTable, path: seq<nat>, kind: seq<byte>)
    requires IsRequestChain(m, t, path)
  {
    m.bytes[HeaderAt(m, t, path)..HeaderAt(m, t, path) + 4] == kind
  }

  ghost function SectorAt(m: Mem, t: DescriptorTable, path: seq<nat>): nat
    requires IsRequestChain(m, t, path)
  {
    Word64(m.bytes, HeaderAt(m, t, path) + 8)
  }

  lemma TypeIs(m: Mem, t: DescriptorTable, path: seq<nat>, kind: byte)
    requires IsRequestChain(m, t, path) && TypeBytes(m, t, path, [kind, 0, 0, 0])
    ensures Word32(m.bytes, HeaderAt(m, t, path)) == kind
  {
    var at := HeaderAt(m, t, path);
    var bs := m.bytes[at..at + 4];
    assert bs[0] == m.bytes[at] && bs[1] == m.bytes[at + 1] && bs[2] == m.bytes[at + 2] && bs[3] == m.bytes[at + 3];
  }

  /** The disk has the bytes from `512 * sector` on, and serves them; the buffers to fill are accessible, disjoint, and
      clear of the status byte, which is accessible too. */
  ghost predicate CanDeliver(req: BlockRequest, m: Mem, d: Disk, sector: nat) {
    && 512 * sector + req.Size() <= |d.content| && !d.refusesRead(sector, req.Size())
    && AllAccessible(m, req.buffers, true) && WritablesDisjoint(req.buffers)
    && m.Accessible(req.statusAddr, 1) && Clear(req.buffers, true, Region(req.statusAddr, 1))
  }

  /** The status byte says success, and the writable buffers hold the disk's bytes. */
  ghost predicate Filled(req: BlockRequest, m: Mem, d: Disk, sector: nat) {
    var w := DirectedLen(req.buffers, true);
    && m.Accessible(req.statusAddr, 1) && m.bytes[req.statusAddr] == 0
    && AllAccessible(m, req.buffers, true) && 512 * sector + w <= |d.content|
    && Contents(m, req.buffers, true) == d.content[512 * sector..512 * sector + w]
  }

  lemma ReadDone(req: BlockRequest, m: Mem, d: Disk)
    requires req.requestType == 0 && CanDeliver(req, m, d, req.sector)
    ensures Filled(req, AfterRequest(m, d, req).0, d, req.sector)
  {
    StatusMeaning(req, m, d);
    TypeMeaning(req, m, d);
    ReadRequestExact(req, m, d);
    OutcomeKeepsShape(req, m, d);
    var m1 := ReadOutcome(req, m, d).0;
    assert SameOff(m1.TryStore(req.statusAddr, [0]), m1.TryStore(req.statusAddr, [0]), Region(0, 0));
    DeliveredStays(m1, m1.TryStore(req.statusAddr, [0]), req, 0, Region(0, 0));
    SliceOfSlice(d.content, 512 * req.sector, req.Size(), 0, DirectedLen(req.buffers, true));
  }

  lemma OutcomeKeepsShape(req: BlockRequest, m: Mem, d: Disk)
    ensures SameShape(m, Outcome(req, m, d).0)
  {
    OutcomeAvoids(req, m, d, Region(0, 0));
  }

  /** Type 0 reads: the buffers end up holding the disk's bytes from `512 * sector` on, in order, the status byte is 0,
      and the disk does not change. */
  lemma ReadHead(m: Mem, d: Disk, q: QueueState, path: seq<nat>)
    requires q.desc.Some? && IsRequestChain(m, q.desc.value, path) && path[0] < 0x1_0000
    requires TypeBytes(m, q.desc.value, path, [0, 0, 0, 0])
    ensures Parse(m, q, path[0]).Ok? && HandleAlone(m, d, q, path[0]).1 == d
    ensures var req, s := Parse(m, q, path[0]).value, SectorAt(m, q.desc.value, path);
            CanDeliver(req, m, d, s) ==> Filled(req, HandleAlone(m, d, q, path[0]).0, d, s)
  {
    var req := RequestAt(m, d, q, path);
    TypeIs(m, q.desc.value, path, 0);
    TypeMeaning(req, m, d);
    if CanDeliver(req, m, d, req.sector) {
      ReadDone(req, m, d);
    }
  }

  /** The disk takes as many bytes as all the buffers have, and the buffers to send and the status byte are accessible. */
  ghost predicate CanStore(req: BlockRequest, m: Mem, d: Disk, sector: nat) {
    && 512 * sector + req.Size() <= |d.content| && !d.refusesWrite(sector, req.Size())
    && AllAccessible(m, req.buffers, false) && m.Accessible(req.statusAddr, 1)
  }

  /** The disk after a write: from `512 * sector` on the payload, then zeros up to `n` bytes; the rest as before. */
  ghost predicate Replaced(before: seq<byte>, after: seq<byte>, sector: nat, payload: seq<byte>, n: nat) {
    && |after| == |before|
    && forall i :: 0 <= i < |before| ==>
         after[i] == if i < 512 * sector || 512 * sector + n <= i then before[i]
                     else if i - 512 * sector < |payload| then payload[i - 512 * sector]
                     else 0
  }

  lemma PayloadLands(d: Disk, sector: nat, payload: seq<byte>, n: nat)
    requires |payload| <= n && d.CanWrite(sector, n)
    ensures Replaced(d.content, d.Write(sector, PadTo(payload, n)).content, sector, payload, n)
  {
    DiskLayout(d, sector, PadTo(payload, n));
  }

  lemma WriteSucceeds(req: BlockRequest, m: Mem, d: Disk)
    requires req.requestType == 1 && CanStore(req, m, d, req.sector)
    ensures d.CanWrite(req.sector, req.Size())
    ensures AfterRequest(m, d, req) ==
            (m.TryStore(req.statusAddr, [0]),
             d.Write(req.sector, PadTo(Contents(m, req.buffers, false), req.Size())))
  {
    TypeMeaning(req, m, d);
    StatusMeaning(req, m, d);
    WriteRequestExact(req, m, d);
  }

  lemma WriteDone(req: BlockRequest, m: Mem, d: Disk)
    requires req.requestType == 1
    ensures SameOff(m, AfterRequest(m, d, req).0, Region(req.statusAddr, 1))
    ensures CanStore(req, m, d, req.sector) ==>
              var (m', d') := AfterRequest(m, d, req);
              && m'.bytes[req.statusAddr] == 0
              && Replaced(d.content, d'.content, req.sector, Contents(m, req.buffers, false), req.Size())
  {
    TypeMeaning(req, m, d);
    if CanStore(req, m, d, req.sector) {
      WriteSucceeds(req, m, d);
      PayloadLands(d, req.sector, Contents(m, req.buffers, false), req.Size());
    }
  }

  /** Type 1 writes: the disk's bytes from `512 * sector` on become the readable buffers' contents in order, then zeros up
      to the length of all buffers, and no other byte of the disk changes; in memory only the status byte does, to 0. */
  lemma WriteHead(m: Mem, d: Disk, q: QueueState, path: seq<nat>)
    requires q.desc.Some? && IsRequestChain(m, q.desc.value, path) && path[0] < 0x1_0000
    requires TypeBytes(m, q.desc.value, path, [1, 0, 0, 0])
    ensures Parse(m, q, path[0]).Ok?
    ensures var req, s := Parse(m, q, path[0]).value, SectorAt(m, q.desc.value, path);
            var (m', d') := HandleAlone(m, d, q, path[0]);
            && SameOff(m, m', Region(req.statusAddr, 1))
            && (CanStore(req, m, d, s) ==>
                  && m'.bytes[req.statusAddr] == 0
                  && Replaced(d.content, d'.content, s, Contents(m, req.buffers, false), req.Size()))
  {
    var req := RequestAt(m, d, q, path);
    TypeIs(m, q.desc.value, path, 1);
    WriteDone(req, m, d);
  }

  /** Type 4 flushes, and any other type is unsupported: neither touches anything but the status byte. */
  lemma OtherHead(m: Mem, d: Disk, q: QueueState, path: seq<nat>)
    requires q.desc.Some? && IsRequestChain(m, q.desc.value, path) && path[0] < 0x1_0000
    requires Word32(m.bytes, HeaderAt(m, q.desc.value, path)) !in {0, 1}
    ensures Parse(m, q, path[0]).Ok?
    ensures var at, kind := Parse(m, q, path[0]).value.statusAddr, Word32(m.bytes, HeaderAt(m, q.desc.value, path));
            var status: byte := if kind != 4 then 2 else if d.refusesFlush then 1 else 0;
            HandleAlone(m, d, q, path[0]) == (m.TryStore(at, [status]), d)
  {
    var req := RequestAt(m, d, q, path);
    TypeMeaning(req, m, d);
  }
}
