/** When a notification raises the interrupt, exactly, and what raising it does. */
module Interrupts {
  import opened Common
  import opened Bits
  import opened Bytes
  import opened Wire
  import opened Memory
  import opened WrappingCounters
  import opened Rings
  import opened BlockRequests
  import opened Queues
  import opened QueueEngine
  import opened ChainEffects
  import opened Batches
  import opened SequentialMeaning
  import opened Layout

  /** Raising the interrupt sets bit 0 of the status, and no other bit changes. */
  lemma InterruptSetsBit(irq: u32, k: nat)
    ensures Bit(Interrupt(irq), k) == if k == 0 then 1 else Bit(irq, k)
  {
    assert Interrupt(irq) % 2 == 1 && Interrupt(irq) / 2 == irq / 2;
  }

  /** Between `e` and `e'` the driver's suppression flag did not change, and the interrupt status changed only to set
      the interrupt while the flag allowed it. */
  ghost predicate IrqTracked(e: Engine, e': Engine) {
    && QueueNotifyWanted(e'.mem, e'.queue) == QueueNotifyWanted(e.mem, e.queue)
    && (e'.irq == e.irq || (QueueNotifyWanted(e.mem, e.queue) == Ok(true) && e'.irq == Interrupt(e.irq)))
  }

  lemma IrqTrackedTrans(e: Engine, e': Engine, e'': Engine)
    requires IrqTracked(e, e') && IrqTracked(e', e'')
    ensures IrqTracked(e, e'')
  {
  }

  lemma FlagFrame(m: Mem, m': Mem, u: UsedState, u': UsedState)
    requires SameOn(m, m', Region(u.base, 2)) && u'.base == u.base && u'.size == u.size
    ensures NotifyWanted(m', u') == NotifyWanted(m, u)
  {
    if m.Accessible(u.base, RING_HEADER_SIZE) {
      var was, now := m.Load(u.base, RING_HEADER_SIZE)[..2], m'.Load(u.base, RING_HEADER_SIZE)[..2];
      forall i | 0 <= i < 2 ensures was[i] == now[i] {
        assert was[i] == m.bytes[u.base + i] && now[i] == m'.bytes[u.base + i];
      }
      assert was == now;
    }
  }

  /** The device never writes the flag it reads. */
  lemma AppendKeepsFlag(m: Mem, u: UsedState, e: UsedElem)
    ensures SameOn(m, AppendUsed(m, u, e).0, Region(u.base, 2))
  {
  }

  lemma PublishTracked(e: Engine, elem: UsedElem)
    requires Wired(e.queue)
    ensures IrqTracked(e, PublishUsed(e, elem))
    ensures var (m, q, _) := QueueAppendUsed(e.mem, e.queue, elem); IrqTracked(e, e.(mem := m, queue := q))
  {
    var u := e.queue.used.value;
    AppendKeepsFlag(e.mem, u, elem);
    FlagFrame(e.mem, AppendUsed(e.mem, u, elem).0, u, AppendUsed(e.mem, u, elem).1);
  }

  lemma MoveTracked(e: Engine, m: Mem, d: Disk)
    requires Wired(e.queue) && AvoidsQueue(e.mem, m, e.queue)
    ensures IrqTracked(e, e.(mem := m, disk := d))
  {
    AvoidsQueueSame(e.mem, m, e.queue);
    FlagFrame(e.mem, m, e.queue.used.value, e.queue.used.value);
  }

  lemma HandleTracked(e: Engine, head: u16, deferred: seq<UsedElem>)
    requires Wired(e.queue) && ChainClear(e.mem, e.queue, head)
    ensures IrqTracked(e, HandleHead(e, head, deferred).0)
  {
    if Parse(e.mem, e.queue, head).Ok? {
      var req := Parse(e.mem, e.queue, head).value;
      var (m, d) := AfterRequest(e.mem, e.disk, req);
      RunRequestStages(e, head);
      MoveTracked(e, m, d);
      PublishTracked(e.(mem := m, disk := d), UsedElem(head, ReportedLen(req)));
    } else {
      RejectStages(e, head);
      MoveTracked(e, StatusWritten(e.mem, e.queue, head, VIRTIO_BLK_S_IOERR).0, e.disk);
    }
  }

  /** The available index, two bytes at offset 2, can be read and has moved. */
  ghost predicate IndexMoved(m: Mem, a: AvailState) {
    m.Accessible(a.base + 2, 2) && Word16(m.bytes, a.base + 2) != a.last
  }

  /** The used ring's header can be read, and bit 0 of its first byte, NO_NOTIFY, is clear. */
  ghost predicate NotSuppressed(m: Mem, u: UsedState) {
    m.Accessible(u.base, 4) && m.bytes[u.base] % 2 == 0
  }

  /** Both accesses of an append can be made. */
  ghost predicate CanAppend(m: Mem, u: UsedState)
    requires u.size > 0
  {
    m.Accessible(u.base + 4 + 8 * (u.idx % u.size), 8) && m.Accessible(u.base + 2, 2)
  }

  lemma AppendAccess(m: Mem, u: UsedState, e: UsedElem)
    requires u.base != 0 && u.size > 0
    ensures AppendUsed(m, u, e).2.Ok? <==> CanAppend(m, u)
  {
  }

  lemma PublishInterrupts(e: Engine, elem: UsedElem)
    requires Wired(e.queue)
    ensures PublishUsed(e, elem).irq ==
            if CanAppend(e.mem, e.queue.used.value) && QueueNotifyWanted(e.mem, e.queue) == Ok(true)
            then Interrupt(e.irq) else e.irq
  {
    AppendAccess(e.mem, e.queue.used.value, elem);
    PublishTracked(e, elem);
  }

  /** The interrupt does not wait for the end of the batch: a request that is published raises it at once, if NO_NOTIFY is
      clear; one that is not leaves the status alone. */
  lemma RequestInterrupts(e: Engine, head: u16)
    requires Wired(e.queue) && ChainClear(e.mem, e.queue, head) && Parse(e.mem, e.queue, head).Ok?
    ensures var req, u := Parse(e.mem, e.queue, head).value, e.queue.used.value;
            RunRequest(e, head, req).irq ==
            if e.mem.Accessible(req.statusAddr, 1) && CanAppend(e.mem, u) && NotSuppressed(e.mem, u)
            then e.irq - e.irq % 2 + 1 else e.irq
  {
    var req := Parse(e.mem, e.queue, head).value;
    var (m, d) := AfterRequest(e.mem, e.disk, req);
    RunRequestStages(e, head);
    MoveTracked(e, m, d);
    AccessSame(e.mem, m, e.queue);
    FlagLayout(e.mem, e.queue.used.value);
    if e.mem.Accessible(req.statusAddr, 1) {
      PublishInterrupts(e.(mem := m, disk := d), UsedElem(head, ReportedLen(req)));
    }
  }

  lemma AccessSame(m: Mem, m': Mem, q: QueueState)
    requires Wired(q) && AvoidsQueue(m, m', q)
    ensures CanAppend(m', q.used.value) <==> CanAppend(m, q.used.value)
  {
  }

  lemma {:induction false} DrainTracked(e: Engine, cur: u16, stop: u16, deferred: seq<UsedElem>)
    requires Wired(e.queue) && RingsApart(e.queue)
    requires HeadsClear(e.mem, e.queue, Fetched(e.mem, e.queue, cur, stop))
    ensures var e' := Drain(e, cur, stop, deferred).0;
            IrqTracked(e, e') && Wired(e'.queue) && RingsApart(e'.queue) && e'.queue.avail == e.queue.avail
    decreases Distance(cur, stop)
  {
    if cur != stop {
      DistanceStep(cur, stop);
      if HeadAt(e.mem, e.queue, cur).Ok? {
        var head := HeadAt(e.mem, e.queue, cur).value;
        var rest := Fetched(e.mem, e.queue, Next(cur), stop);
        var heads := [head] + rest;
        assert heads[0] == head;
        assert forall i :: 0 <= i < |rest| ==> rest[i] == heads[i + 1];
        var (e1, deferred1) := HandleHead(e, head, deferred);
        HandleMeaning(e, head, deferred);
        HandleTracked(e, head, deferred);
        FetchedFrame(e.mem, e1.mem, e.queue, e1.queue, Next(cur), stop);
        HeadsFrame(e, e1, rest);
        DrainTracked(e1, Next(cur), stop, deferred1);
        IrqTrackedTrans(e, e1, Drain(e1, Next(cur), stop, deferred1).0);
      } else {
        DrainTracked(e, Next(cur), stop, deferred);
      }
    }
  }

  lemma {:induction false} AppendAllTracked(e: Engine, elems: seq<UsedElem>)
    requires Wired(e.queue) && RingsApart(e.queue)
    ensures IrqTracked(e, AppendAll(e, elems)) && AppendAll(e, elems).irq == e.irq
    decreases |elems|
  {
    if elems != [] {
      PublishTracked(e, elems[0]);
      PublishFrame(e, elems[0]);
      var (m, q, _) := QueueAppendUsed(e.mem, e.queue, elems[0]);
      AppendAllTracked(e.(mem := m, queue := q), elems[1..]);
    }
  }

  lemma FinishRaisesIff(e: Engine, stop: u16, deferred: seq<UsedElem>)
    requires Wired(e.queue) && RingsApart(e.queue)
    ensures Finish(e, stop, deferred).irq ==
            if QueueNotifyWanted(e.mem, e.queue) == Ok(true) then Interrupt(e.irq) else e.irq
  {
    AdvanceCounter(e.queue.avail.value.consumed, Distance(e.queue.avail.value.last, stop));
    AppendAllTracked(e.(queue := QueueConsume(e.queue, stop)), deferred);
  }

  /** The status after notifying if the flag allows it. */
  ghost function Notified(e: Engine): u32 {
    if QueueNotifyWanted(e.mem, e.queue) == Ok(true) then Interrupt(e.irq) else e.irq
  }

  lemma NotifiedTracked(e: Engine, e': Engine)
    requires IrqTracked(e, e')
    ensures Notified(e') == Notified(e)
  {
  }

  lemma BatchRaisesIff(e: Engine, cur: u16, stop: u16)
    requires Wired(e.queue) && RingsApart(e.queue)
    requires HeadsClear(e.mem, e.queue, Fetched(e.mem, e.queue, cur, stop))
    ensures var (e1, deferred) := Drain(e, cur, stop, []); Finish(e1, stop, deferred).irq == Notified(e)
  {
    var (e1, deferred) := Drain(e, cur, stop, []);
    DrainTracked(e, cur, stop, []);
    FinishRaisesIff(e1, stop, deferred);
    NotifiedTracked(e, e1);
  }

  /** A notification sets bit 0 of the interrupt status if and only if the available index had moved and the used
      ring's NO_NOTIFY flag was clear when it began, whatever accesses fail; otherwise it leaves the status alone. It
      does so even when no element could be written. */
  lemma InterruptRaisedIff(e: Engine)
    requires Wired(e.queue) && RingsApart(e.queue) && HeadsClear(e.mem, e.queue, Pending(e))
    ensures ProcessQueue(e).irq ==
            if IndexMoved(e.mem, e.queue.avail.value) && NotSuppressed(e.mem, e.queue.used.value)
            then e.irq - e.irq % 2 + 1 else e.irq
  {
    AvailableLayout(e.mem, e.queue.avail.value, 0);
    FlagLayout(e.mem, e.queue.used.value);
    if QueueAvailIdx(e.mem, e.queue).Ok? {
      var last, stop := e.queue.avail.value.last, QueueAvailIdx(e.mem, e.queue).value;
      ProcessQueueCases(e);
      if last != stop {
        BatchRaisesIff(e, last, stop);
      }
    }
  }
}
