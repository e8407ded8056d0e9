/** Data through the whole device: what one request writes to the disk, a later one reads from it, among other requests
    and across any number of doorbells. */
module DataPath {
  import opened Common
  import opened Bytes
  import opened Memory
  import opened Descriptors
  import opened BlockRequests
  import opened Transfers
  import opened Queues
  import opened QueueEngine
  import opened ChainEffects
  import opened Batches
  import opened SequentialMeaning
  import opened DriverProtocol
  import opened RunMeaning

  // ------------------------------------------------------------------ sectors left alone

  function SectorRegion(sector: nat, n: nat): Region { Region(sector * SECTOR_SIZE, n) }

  /** The two disks serve the same reads, and hold the same in `n` bytes from `sector` on. */
  ghost predicate SameSectors(d: Disk, d': Disk, sector: nat, n: nat) {
    && |d'.content| == |d.content| && d'.refusesRead == d.refusesRead
    && (d.InRange(sector, n) ==>
          d'.content[sector * SECTOR_SIZE..sector * SECTOR_SIZE + n] ==
          d.content[sector * SECTOR_SIZE..sector * SECTOR_SIZE + n])
  }

  /** If the head is a write request, it is for other bytes of the disk. */
  ghost predicate SparesHead(m: Mem, q: QueueState, head: u16, sector: nat, n: nat) {
    var req := Parse(m, q, head);
    req.Ok? && req.value.requestType == 1 ==>
      Disjoint(SectorRegion(req.value.sector, req.value.Size()), SectorRegion(sector, n))
  }

  ghost predicate Spares(m: Mem, d: Disk, q: QueueState, heads: seq<u16>, sector: nat, n: nat)
    decreases |heads|
  {
    heads == []
    || (SparesHead(m, q, heads[0], sector, n)
        && var (m1, d1) := HandleAlone(m, d, q, heads[0]); Spares(m1, d1, q, heads[1..], sector, n))
  }

  lemma WriteElsewhere(d: Disk, at: nat, data: seq<byte>, sector: nat, n: nat)
    requires d.CanWrite(at, |data|) && Disjoint(SectorRegion(at, |data|), SectorRegion(sector, n))
    ensures SameSectors(d, d.Write(at, data), sector, n)
  {
    var lo := sector * SECTOR_SIZE;
    if d.InRange(sector, n) {
      var was, now := d.content[lo..lo + n], d.Write(at, data).content[lo..lo + n];
      assert forall i :: 0 <= i < n ==> was[i] == now[i];
    }
  }

  lemma AloneSpares(m: Mem, d: Disk, q: QueueState, head: u16, sector: nat, n: nat)
    requires SparesHead(m, q, head, sector, n)
    ensures SameSectors(d, HandleAlone(m, d, q, head).1, sector, n)
  {
    if Parse(m, q, head).Ok? {
      var req := Parse(m, q, head).value;
      if req.requestType == 1 {
        WriteRequestExact(req, m, d);
        if AllAccessible(m, req.buffers, false) && d.CanWrite(req.sector, req.Size()) {
          WriteElsewhere(d, req.sector, PadTo(Contents(m, req.buffers, false), req.Size()), sector, n);
        }
      }
    }
  }

  lemma {:induction false} SequenceSpares(m: Mem, d: Disk, q: QueueState, heads: seq<u16>, sector: nat, n: nat)
    requires Spares(m, d, q, heads, sector, n)
    ensures SameSectors(d, Sequentially(m, d, q, heads).1, sector, n)
    decreases |heads|
  {
    if heads != [] {
      var (m1, d1) := HandleAlone(m, d, q, heads[0]);
      AloneSpares(m, d, q, heads[0], sector, n);
      SequenceSpares(m1, d1, q, heads[1..], sector, n);
    }
  }

  /** The heads that a doorbell will handle. */
  ghost function Waiting(s: System): seq<u16>
    requires Refines(s)
  {
    s.published[QueueOf(s).avail.value.consumed..]
  }

  /** No doorbell of the run handles a write to those bytes. */
  ghost predicate RunSpares(s: System, acts: seq<Action>, sector: nat, n: nat)
    requires Refines(s) && AllEnabled(s, acts)
    decreases |acts|
  {
    acts == []
    || ((acts[0].Doorbell? ==> Spares(s.w.mem, s.w.disk, QueueOf(s), Waiting(s), sector, n))
        && (StepKeeps(s, acts[0]); RunSpares(Do(s, acts[0]), acts[1..], sector, n)))
  }

  lemma {:induction false} RunKeepsSectors(s: System, acts: seq<Action>, sector: nat, n: nat)
    requires Refines(s) && AllEnabled(s, acts) && RunSpares(s, acts, sector, n)
    ensures SameSectors(s.w.disk, Outcomes(s, acts).w.disk, sector, n)
    decreases |acts|
  {
    if acts != [] {
      StepKeeps(s, acts[0]);
      if acts[0].Doorbell? {
        DoorbellMeaning(s, s.w.mem);
        SequenceSpares(s.w.mem, s.w.disk, QueueOf(s), Waiting(s), sector, n);
      } else {
        QuietStep(s, acts[0]);
      }
      RunKeepsSectors(Do(s, acts[0]), acts[1..], sector, n);
    }
  }

  /** A read sees those bytes only. */
  lemma SameRead(r: BlockRequest, m: Mem, d: Disk, d': Disk)
    requires r.requestType == 0 && SameSectors(d, d', r.sector, r.Size())
    ensures Outcome(r, m, d).0 == Outcome(r, m, d').0 && Outcome(r, m, d).2 == Outcome(r, m, d').2
  {
  }

  // ------------------------------------------------------------------ memory left alone

  /** No buffer of the head's chain that the device may write overlaps the region. */
  ghost predicate WritesClear(m: Mem, q: QueueState, head: nat, x: Region) {
    var chain := QueueFollow(m, q, head);
    chain.Ok? ==> forall i :: 0 <= i < |chain.value| && chain.value[i].IsWrite() ==> Disjoint(chain.value[i].Extent(), x)
  }

  ghost predicate AllWritesClear(m: Mem, q: QueueState, heads: seq<u16>, x: Region) {
    forall i :: 0 <= i < |heads| ==> WritesClear(m, q, heads[i], x)
  }

  lemma StatusIsClear(m: Mem, q: QueueState, head: nat, x: Region)
    requires WritesClear(m, q, head, x) && QueueStatusAddr(m, q, head).Ok?
    ensures Disjoint(Region(QueueStatusAddr(m, q, head).value, 1), x)
  {
    var ds := QueueFollow(m, q, head).value;
    assert Disjoint(ds[|ds| - 1].Extent(), x);
  }

  lemma AloneAvoids(m: Mem, d: Disk, q: QueueState, head: u16, x: Region)
    requires WritesClear(m, q, head, x)
    ensures SameOn(m, HandleAlone(m, d, q, head).0, x)
  {
    ExtendsRefl(m);
    if Parse(m, q, head).Ok? {
      var req, ds := Parse(m, q, head).value, QueueFollow(m, q, head).value;
      assert QueueStatusAddr(m, q, head) == Ok(req.statusAddr);
      StatusIsClear(m, q, head, x);
      forall i | 0 <= i < |req.buffers| && req.buffers[i].isWrite ensures Disjoint(req.buffers[i].Extent(), x) {
        assert req.buffers[i] == AsBuffer(ds[i + 1]);
      }
      var (m1, _, res) := Outcome(req, m, d);
      OutcomeAvoids(req, m, d, x);
      AvoidsStore(m, m1, req.statusAddr, [StatusFor(res)], x);
      AvoidsSame(m, m1.TryStore(req.statusAddr, [StatusFor(res)]), x);
    } else if QueueStatusAddr(m, q, head).Ok? {
      var at := QueueStatusAddr(m, q, head).value;
      StatusIsClear(m, q, head, x);
      AvoidsStore(m, m, at, [VIRTIO_BLK_S_IOERR], x);
      AvoidsSame(m, m.TryStore(at, [VIRTIO_BLK_S_IOERR]), x);
    }
  }

  lemma AllWritesFrame(m: Mem, m': Mem, q: QueueState, heads: seq<u16>, x: Region)
    requires Wired(q) && SameOn(m, m', TableRegion(q)) && AllWritesClear(m, q, heads, x)
    ensures AllWritesClear(m', q, heads, x)
  {
    forall i | 0 <= i < |heads| ensures WritesClear(m', q, heads[i], x) {
      ParseFrame(m, m', q, heads[i]);
    }
  }

  lemma {:induction false} SequenceAvoids(m: Mem, d: Disk, q: QueueState, heads: seq<u16>, x: Region)
    requires Wired(q) && HeadsClear(m, q, heads) && AllWritesClear(m, q, heads, x)
    ensures SameOn(m, Sequentially(m, d, q, heads).0, x)
    decreases |heads|
  {
    if heads != [] {
      var rest := heads[1..];
      assert forall i :: 0 <= i < |rest| ==> rest[i] == heads[i + 1];
      var (m1, d1) := HandleAlone(m, d, q, heads[0]);
      AloneAvoids(m, d, q, heads[0], x);
      AloneAvoidsQueue(m, d, q, heads[0]);
      AvoidsQueueSame(m, m1, q);
      AllWritesFrame(m, m1, q, rest, x);
      AloneKeepsConditions(m, d, q, heads[0], rest, Region(0, 0));
      SequenceAvoids(m1, d1, q, rest, x);
    }
  }

  /** Buffers unchanged byte for byte hold the same contents. */
  lemma {:induction false} ContentsFrame(m: Mem, m': Mem, bufs: seq<Buffer>)
    requires AllAccessible(m, bufs, true)
    requires forall i :: 0 <= i < |bufs| && bufs[i].isWrite ==> SameOn(m, m', bufs[i].Extent())
    requires SameShape(m, m')
    ensures AllAccessible(m', bufs, true) && Contents(m', bufs, true) == Contents(m, bufs, true)
    decreases |bufs|
  {
    if bufs != [] {
      var rest := bufs[1..];
      assert forall i :: 0 <= i < |rest| ==> rest[i] == bufs[i + 1];
      AllAccessibleTail(m, bufs, true);
      ContentsFrame(m, m', rest);
      AllAccessibleTail(m', bufs, true);
      if bufs[0].isWrite {
        SameOnLoad(m, m', bufs[0].Extent(), bufs[0].addr, bufs[0].len);
      }
    }
  }

  /** Neither the status byte nor the used ring disturbs the data a read delivered. */
  lemma DeliveredStays(m: Mem, m': Mem, req: BlockRequest, status: byte, x: Region)
    requires AllAccessible(m, req.buffers, true)
    requires Clear(req.buffers, true, Region(req.statusAddr, 1)) && Clear(req.buffers, true, x)
    requires SameOff(m', m.TryStore(req.statusAddr, [status]), x)
    ensures AllAccessible(m', req.buffers, true) && Contents(m', req.buffers, true) == Contents(m, req.buffers, true)
  {
    forall i | 0 <= i < |req.buffers| && req.buffers[i].isWrite ensures SameOn(m, m', req.buffers[i].Extent()) {
      assert Disjoint(req.buffers[i].Extent(), Region(req.statusAddr, 1));
      assert Disjoint(req.buffers[i].Extent(), x);
    }
    ContentsFrame(m, m', req.buffers);
  }

  // ------------------------------------------------------------------ one write and one read

  /** The head is a write request, all of its data buffers for the device to read, and it will succeed. */
  ghost predicate WillWrite(m: Mem, d: Disk, q: QueueState, head: u16) {
    && Parse(m, q, head).Ok?
    && var out := Parse(m, q, head).value;
    && out.requestType == 1 && Succeeds(out, m, d)
    && forall i :: 0 <= i < |out.buffers| ==> !out.buffers[i].isWrite
  }

  /** The head is a read request for as many bytes of the same sectors, into disjoint buffers for the device to write,
      the status byte apart from them, and it will succeed. */
  ghost predicate WillRead(m: Mem, d: Disk, q: QueueState, head: u16, out: BlockRequest) {
    && Parse(m, q, head).Ok?
    && var inn := Parse(m, q, head).value;
    && inn.requestType == 0 && Succeeds(inn, m, d)
    && inn.sector == out.sector && inn.Size() == out.Size()
    && (forall i :: 0 <= i < |inn.buffers| ==> inn.buffers[i].isWrite)
    && WritablesDisjoint(inn.buffers) && Clear(inn.buffers, true, Region(inn.statusAddr, 1))
  }

  /** Handled on a disk that still holds what was written, the read delivers it. */
  lemma ReadDelivers(m0: Mem, d0: Disk, q0: QueueState, write: u16, m: Mem, d: Disk, q: QueueState, read: u16)
    requires WillWrite(m0, d0, q0, write)
    requires var out := Parse(m0, q0, write).value;
             WillRead(m, d, q, read, out) && SameSectors(HandleAlone(m0, d0, q0, write).1, d, out.sector, out.Size())
    ensures var out, inn, m1 := Parse(m0, q0, write).value, Parse(m, q, read).value, HandleAlone(m, d, q, read).0;
            && AllAccessible(m0, out.buffers, false) && AllAccessible(m1, inn.buffers, true)
            && Contents(m1, inn.buffers, true) == Contents(m0, out.buffers, false)
  {
    var out, inn := Parse(m0, q0, write).value, Parse(m, q, read).value;
    var written := Outcome(out, m0, d0).1;
    WriteRequestExact(out, m0, d0);
    ReadRequestExact(inn, m, d);
    SameRead(inn, m, written, d);
    SegmentationIndependence(out, inn, m0, m, d0);
    var (m2, _, res) := Outcome(inn, m, d);
    DeliveredStays(m2, HandleAlone(m, d, q, read).0, inn, StatusFor(res), Region(0, 0));
  }

  lemma Split(m: Mem, d: Disk, q: QueueState, a: seq<u16>, head: u16, b: seq<u16>)
    ensures var (m1, d1) := Sequentially(m, d, q, a);
            var (m2, d2) := HandleAlone(m1, d1, q, head);
            Sequentially(m, d, q, a + [head] + b) == Sequentially(m2, d2, q, b)
  {
    var (m1, d1) := Sequentially(m, d, q, a);
    assert a + [head] + b == a + ([head] + b);
    SequenceSplits(m, d, q, a, [head] + b);
    assert ([head] + b)[0] == head && ([head] + b)[1..] == b;
  }

  /** After a doorbell that handles a write among other requests, none of the later ones of which writes the same bytes,
      the disk holds what was written. */
  lemma WriteLands(s: System, a: seq<u16>, write: u16, b: seq<u16>, sector: nat, n: nat)
    requires Refines(s) && Enabled(s, Doorbell) && Waiting(s) == a + [write] + b
    requires var (m1, d1) := Sequentially(s.w.mem, s.w.disk, QueueOf(s), a);
             var (m2, d2) := HandleAlone(m1, d1, QueueOf(s), write);
             Spares(m2, d2, QueueOf(s), b, sector, n)
    ensures var (m1, d1) := Sequentially(s.w.mem, s.w.disk, QueueOf(s), a);
            SameSectors(HandleAlone(m1, d1, QueueOf(s), write).1, Do(s, Doorbell).w.disk, sector, n)
  {
    var (m1, d1) := Sequentially(s.w.mem, s.w.disk, QueueOf(s), a);
    var (m2, d2) := HandleAlone(m1, d1, QueueOf(s), write);
    DoorbellMeaning(s, s.w.mem);
    Split(s.w.mem, s.w.disk, QueueOf(s), a, write, b);
    SequenceSpares(m2, d2, QueueOf(s), b, sector, n);
  }

  lemma WaitingIsClear(t: System, a: seq<u16>, head: u16, b: seq<u16>)
    requires Refines(t) && Enabled(t, Doorbell) && Waiting(t) == a + [head] + b
    ensures HeadsClear(t.w.mem, QueueOf(t), a) && ChainClear(t.w.mem, QueueOf(t), head)
    ensures HeadsClear(t.w.mem, QueueOf(t), b)
  {
    PendingIsUnconsumed(t);
    var all := Waiting(t);
    assert HeadsClear(t.w.mem, QueueOf(t), all);
    assert all[|a|] == head;
    assert forall i :: 0 <= i < |a| ==> a[i] == all[i];
    assert forall i :: 0 <= i < |b| ==> b[i] == all[|a| + 1 + i];
  }

  /** Every buffer of the request is left alone by the given heads. */
  ghost predicate LeftAlone(m: Mem, q: QueueState, heads: seq<u16>, bufs: seq<Buffer>) {
    forall i :: 0 <= i < |bufs| ==> AllWritesClear(m, q, heads, bufs[i].Extent())
  }

  /** After a doorbell that handles a read among other requests, none of the later ones of which may write to its
      buffers, the buffers hold what it delivered. */
  lemma ReadStays(t: System, a: seq<u16>, read: u16, b: seq<u16>, bufs: seq<Buffer>)
    requires Refines(t) && Enabled(t, Doorbell) && Waiting(t) == a + [read] + b
    requires var (m1, d1) := Sequentially(t.w.mem, t.w.disk, QueueOf(t), a);
             && Parse(m1, QueueOf(t), read).Ok? && bufs == Parse(m1, QueueOf(t), read).value.buffers
             && AllAccessible(HandleAlone(m1, d1, QueueOf(t), read).0, bufs, true)
    requires (forall i :: 0 <= i < |bufs| ==> bufs[i].isWrite) && LeftAlone(t.w.mem, QueueOf(t), b, bufs)
    ensures var (m1, d1) := Sequentially(t.w.mem, t.w.disk, QueueOf(t), a);
            var m2, m := HandleAlone(m1, d1, QueueOf(t), read).0, Do(t, Doorbell).w.mem;
            AllAccessible(m, bufs, true) && Contents(m, bufs, true) == Contents(m2, bufs, true)
  {
    var q := QueueOf(t);
    var (m1, d1) := Sequentially(t.w.mem, t.w.disk, q, a);
    var m2, m := HandleAlone(m1, d1, q, read).0, Do(t, Doorbell).w.mem;
    ClearLater(t, a, read, b);
    RequestClear(m1, q, read);
    NothingToClear(t.w.mem, q, b);
    RegionStays(t, a, read, b, Region(0, 0));
    forall i | 0 <= i < |bufs| ensures SameOn(m2, m, bufs[i].Extent()) {
      RegionStays(t, a, read, b, bufs[i].Extent());
    }
    ContentsFrame(m2, m, bufs);
  }

  /** A region that is no part of the used ring, and that the heads after `head` do not write, is at the end of the
      doorbell as handling `head` left it. */
  lemma RegionStays(t: System, a: seq<u16>, head: u16, b: seq<u16>, x: Region)
    requires Refines(t) && Enabled(t, Doorbell) && Waiting(t) == a + [head] + b
    requires AllWritesClear(t.w.mem, QueueOf(t), b, x) && Disjoint(x, UsedRegion(QueueOf(t)))
    ensures var (m1, d1) := Sequentially(t.w.mem, t.w.disk, QueueOf(t), a);
            SameOn(HandleAlone(m1, d1, QueueOf(t), head).0, Do(t, Doorbell).w.mem, x)
  {
    var q := QueueOf(t);
    var (m1, d1) := Sequentially(t.w.mem, t.w.disk, q, a);
    var (m2, d2) := HandleAlone(m1, d1, q, head);
    var m3, m := Sequentially(m2, d2, q, b).0, Do(t, Doorbell).w.mem;
    ClearLater(t, a, head, b);
    AllWritesFrame(t.w.mem, m2, q, b, x);
    SequenceAvoids(m2, d2, q, b, x);
    DoorbellMeaning(t, t.w.mem);
    Split(t.w.mem, t.w.disk, q, a, head, b);
    SameOffOn(m, m3, UsedRegion(q), x);
    SameOnChain(m2, m3, m, x);
  }

  lemma NothingToClear(m: Mem, q: QueueState, heads: seq<u16>)
    ensures AllWritesClear(m, q, heads, Region(0, 0))
  {
  }

  lemma SameOnChain(m: Mem, m': Mem, m'': Mem, x: Region)
    requires SameOn(m, m', x) && SameOn(m'', m', x)
    ensures SameOn(m, m'', x)
  {
  }

  /** The conditions on the chains outlast the requests before them. */
  lemma ClearLater(t: System, a: seq<u16>, head: u16, b: seq<u16>)
    requires Refines(t) && Enabled(t, Doorbell) && Waiting(t) == a + [head] + b
    ensures var (m1, d1) := Sequentially(t.w.mem, t.w.disk, QueueOf(t), a);
            var m2 := HandleAlone(m1, d1, QueueOf(t), head).0;
            && ChainClear(m1, QueueOf(t), head) && HeadsClear(m2, QueueOf(t), b)
            && SameOn(t.w.mem, m2, TableRegion(QueueOf(t)))
  {
    var q := QueueOf(t);
    var (m1, d1) := Sequentially(t.w.mem, t.w.disk, q, a);
    var m2 := HandleAlone(m1, d1, q, head).0;
    WaitingIsClear(t, a, head, b);
    SequenceAvoidsQueue(t.w.mem, t.w.disk, q, a);
    ConditionsFrame(t.w.mem, m1, q, head);
    AloneAvoidsQueue(m1, d1, q, head);
    AvoidsQueueSame(m1, m2, q);
    forall i | 0 <= i < |b| ensures ChainClear(m2, q, b[i]) {
      ConditionsFrame(t.w.mem, m2, q, b[i]);
    }
  }

  lemma SectorsTrans(d: Disk, d': Disk, d'': Disk, sector: nat, n: nat)
    requires SameSectors(d, d', sector, n) && SameSectors(d', d'', sector, n)
    ensures SameSectors(d, d'', sector, n)
  {
  }

  /** Write, then read, through the whole device. A doorbell handles a write among any other requests; then any run of the
      driver, with any doorbells; then a doorbell handles a read for as many bytes of the same sectors, among any other
      requests. If none of the requests handled between them writes those sectors, and none handled after the read in
      its batch may write to its buffers, then in the end the reader's buffers hold what the writer's buffers held when
      the write was handled, however each is cut. */
  lemma WriteThenReadThroughDevice(s: System, a: seq<u16>, write: u16, b: seq<u16>, between: seq<Action>,
                                   t: System, a': seq<u16>, read: u16, b': seq<u16>)
    requires Refines(s) && Enabled(s, Doorbell) && Waiting(s) == a + [write] + b
    requires var (m1, d1) := Sequentially(s.w.mem, s.w.disk, QueueOf(s), a);
             && WillWrite(m1, d1, QueueOf(s), write)
             && var out, (m2, d2) := Parse(m1, QueueOf(s), write).value, HandleAlone(m1, d1, QueueOf(s), write);
                Spares(m2, d2, QueueOf(s), b, out.sector, out.Size())
    requires Refines(Do(s, Doorbell)) && AllEnabled(Do(s, Doorbell), between) && t == Outcomes(Do(s, Doorbell), between)
    requires Refines(t) && Enabled(t, Doorbell) && Waiting(t) == a' + [read] + b'
    requires var (m1, d1) := Sequentially(s.w.mem, s.w.disk, QueueOf(s), a);
             var (m3, d3) := Sequentially(t.w.mem, t.w.disk, QueueOf(t), a');
             var out := Parse(m1, QueueOf(s), write).value;
             && RunSpares(Do(s, Doorbell), between, out.sector, out.Size())
             && Spares(t.w.mem, t.w.disk, QueueOf(t), a', out.sector, out.Size())
             && WillRead(m3, d3, QueueOf(t), read, out)
             && LeftAlone(t.w.mem, QueueOf(t), b', Parse(m3, QueueOf(t), read).value.buffers)
    ensures var m1, m3, m := Sequentially(s.w.mem, s.w.disk, QueueOf(s), a).0,
                             Sequentially(t.w.mem, t.w.disk, QueueOf(t), a').0, Do(t, Doorbell).w.mem;
            var out, inn := Parse(m1, QueueOf(s), write).value, Parse(m3, QueueOf(t), read).value;
            && AllAccessible(m1, out.buffers, false) && AllAccessible(m, inn.buffers, true)
            && Contents(m, inn.buffers, true) == Contents(m1, out.buffers, false)
  {
    var (m1, d1) := Sequentially(s.w.mem, s.w.disk, QueueOf(s), a);
    var (m3, d3) := Sequentially(t.w.mem, t.w.disk, QueueOf(t), a');
    var out, inn := Parse(m1, QueueOf(s), write).value, Parse(m3, QueueOf(t), read).value;
    var sector, n, d2 := out.sector, out.Size(), HandleAlone(m1, d1, QueueOf(s), write).1;
    WriteLands(s, a, write, b, sector, n);
    RunKeepsSectors(Do(s, Doorbell), between, sector, n);
    SequenceSpares(t.w.mem, t.w.disk, QueueOf(t), a', sector, n);
    SectorsTrans(d2, Do(s, Doorbell).w.disk, t.w.disk, sector, n);
    SectorsTrans(d2, t.w.disk, d3, sector, n);
    ReadDelivers(m1, d1, QueueOf(s), write, m3, d3, QueueOf(t), read);
    ReadStays(t, a', read, b', inn.buffers);
  }
}
