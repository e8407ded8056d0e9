/** Whole runs of the device: any sequence of register writes, interleaved with any guest stores to memory. */
module DeviceRuns {
  import opened Common
  import opened Bytes
  import opened Memory
  import opened WrappingCounters
  import opened Bits
  import opened Rings
  import opened BlockRequests
  import opened Queues
  import opened QueueEngine
  import opened BlockDevice
  import opened Layout

  datatype Event = Register(reg: Reg, val: u32) | GuestStore(addr: nat, data: seq<byte>)

  /** Memory after the guest's own store, which is no write of the device. */
  function Overwritten(m: Mem, addr: nat, data: seq<byte>): Mem {
    if addr + |data| <= |m.bytes| then m.(bytes := Splice(m.bytes, addr, data)) else m
  }

  function Apply(w: World, ev: Event): World {
    match ev
    case Register(reg, val) => RegisterWrite(w, reg, val)
    case GuestStore(addr, data) => w.(mem := Overwritten(w.mem, addr, data))
  }

  /** A notification that is served. */
  predicate IsServed(w: World, ev: Event) {
    ev.Register? && ev.reg == QueueNotify && Serves(w.dev, Low16(ev.val))
  }

  function Run(w: World, events: seq<Event>): World
    decreases |events|
  {
    if events == [] then w else Apply(Run(w, events[..|events| - 1]), events[|events| - 1])
  }

  // ------------------------------------------------------------------ the representation invariant

  ghost predicate DeviceInv(dev: DeviceState) {
    && |dev.queues| == 1 && dev.queueSel == 0
    && dev.queues[0].index == 0
    && RepInv(dev.queues[0]) && Conserved(dev.queues[0])
    && dev.interruptStatus <= 1
  }

  lemma FreshSatisfiesInv()
    ensures DeviceInv(FreshDevice())
  {
  }

  /** The used ring's 16-bit counter is its unbounded history, wrapped. */
  ghost predicate Coherent(q: QueueState) {
    q.used.Some? ==> q.used.value.idx == |q.used.value.history| % 0x1_0000
  }

  lemma AppendUsedCounts(m: Mem, q: QueueState, elem: UsedElem)
    requires q.size > 0 && Coherent(q)
    ensures Coherent(QueueAppendUsed(m, q, elem).1)
    ensures Completed(QueueAppendUsed(m, q, elem).1) <= Completed(q) + 1
    ensures q.used.Some? ==>
              var (_, q', r) := QueueAppendUsed(m, q, elem);
              q'.nextUsed == if r.Ok? then |q'.used.value.history| % 0x1_0000 else q.nextUsed
  {
    if q.used.Some? {
      AdvanceCounter(|q.used.value.history|, 1);
    }
  }

  lemma PublishCounts(e: Engine, elem: UsedElem)
    requires e.queue.size > 0 && Coherent(e.queue) && e.irq <= 1
    ensures var e' := PublishUsed(e, elem);
            Coherent(e'.queue) && e'.irq <= 1 && Completed(e'.queue) <= Completed(e.queue) + 1
  {
    AppendUsedCounts(e.mem, e.queue, elem);
  }

  lemma CompleteCounts(e: Engine, head: u16, len: u32, status: byte)
    requires e.queue.size > 0 && Coherent(e.queue) && e.irq <= 1
    ensures var e' := CompleteRequest(e, head, len, status);
            Coherent(e'.queue) && e'.irq <= 1 && Completed(e'.queue) <= Completed(e.queue) + 1
  {
    var (m, written) := StatusWritten(e.mem, e.queue, head, status);
    if written.Ok? {
      PublishCounts(e.(mem := m), UsedElem(head, len));
      assert CompleteRequest(e, head, len, status) == PublishUsed(e.(mem := m), UsedElem(head, len));
    }
  }

  lemma StepCounts(e: Engine, cur: u16, deferred: seq<UsedElem>)
    requires e.queue.size > 0 && Coherent(e.queue) && e.irq <= 1
    ensures var (e', deferred') := DrainStep(e, cur, deferred);
            && Coherent(e'.queue) && e'.irq <= 1
            && Completed(e'.queue) + |deferred'| <= Completed(e.queue) + |deferred| + 1
  {
    var entry := QueueAvailEntry(e.mem, e.queue, cur % e.queue.size);
    if entry.Ok? {
      var parsed := Parse(e.mem, e.queue, entry.value);
      if parsed.Ok? {
        var (m, d, res) := Outcome(parsed.value, e.mem, e.disk);
        CompleteCounts(e.(mem := m, disk := d), entry.value, ReportedLen(parsed.value), StatusFor(res));
      }
    }
  }

  lemma {:induction false} DrainCounts(e: Engine, cur: u16, stop: u16, deferred: seq<UsedElem>)
    requires e.queue.size > 0 && Coherent(e.queue) && e.irq <= 1
    ensures var (e', deferred') := Drain(e, cur, stop, deferred);
            && Coherent(e'.queue) && e'.irq <= 1
            && Completed(e'.queue) + |deferred'| <= Completed(e.queue) + |deferred| + Distance(cur, stop)
    decreases Distance(cur, stop)
  {
    if cur != stop {
      DistanceStep(cur, stop);
      StepCounts(e, cur, deferred);
      var (e1, deferred1) := DrainStep(e, cur, deferred);
      DrainCounts(e1, Next(cur), stop, deferred1);
    }
  }

  lemma {:induction false} AppendAllCounts(e: Engine, elems: seq<UsedElem>)
    requires e.queue.size > 0 && Coherent(e.queue)
    ensures Coherent(AppendAll(e, elems).queue) && AppendAll(e, elems).irq == e.irq
    ensures Completed(AppendAll(e, elems).queue) <= Completed(e.queue) + |elems|
    decreases |elems|
  {
    if elems != [] {
      AppendUsedCounts(e.mem, e.queue, elems[0]);
      var (m, q, _) := QueueAppendUsed(e.mem, e.queue, elems[0]);
      AppendAllCounts(e.(mem := m, queue := q), elems[1..]);
    }
  }

  /** `q'` has the same configuration as `q`: only counters moved. */
  ghost predicate SameConfiguration(q: QueueState, q': QueueState) {
    && q' == q.(avail := q'.avail, used := q'.used, nextAvail := q'.nextAvail, nextUsed := q'.nextUsed)
    && (q.avail.Some? <==> q'.avail.Some?) && (q.used.Some? <==> q'.used.Some?)
    && (q.avail.Some? ==>
          q'.avail.value == q.avail.value.(last := q'.avail.value.last, consumed := q'.avail.value.consumed))
    && (q.used.Some? ==> q'.used.value == q.used.value.(idx := q'.used.value.idx, history := q'.used.value.history))
  }

  lemma OnlyCompletedKeepsRep(q: QueueState, q': QueueState)
    requires RepInv(q) && OnlyCompleted(q, q') && Coherent(q')
    ensures RepInv(q') && SameConfiguration(q, q') && Consumed(q') == Consumed(q) && Completed(q) <= Completed(q')
  {
  }

  lemma ConsumeKeepsRep(q: QueueState, stop: u16)
    requires RepInv(q) && q.IsValid()
    ensures var q' := QueueConsume(q, stop);
            && RepInv(q') && SameConfiguration(q, q') && Completed(q') == Completed(q)
            && Consumed(q') == Consumed(q) + Distance(q.LastAvail(), stop)
  {
    CounterAfter(q.avail.value.consumed, stop);
  }

  lemma FinishKeepsRep(e: Engine, stop: u16, deferred: seq<UsedElem>)
    requires RepInv(e.queue) && e.queue.IsValid() && e.irq <= 1
    ensures var e' := Finish(e, stop, deferred);
            && RepInv(e'.queue) && e'.irq <= 1
            && SameConfiguration(e.queue, e'.queue)
            && Consumed(e'.queue) == Consumed(e.queue) + Distance(e.queue.LastAvail(), stop)
            && Completed(e.queue) <= Completed(e'.queue) <= Completed(e.queue) + |deferred|
  {
    ConsumeKeepsRep(e.queue, stop);
    var e1 := e.(queue := QueueConsume(e.queue, stop));
    AppendAllCounts(e1, deferred);
    OnlyCompletedKeepsRep(e1.queue, AppendAll(e1, deferred).queue);
  }

  /** A whole notification, whatever memory holds and whichever accesses fail: completions, on the unbounded counters,
      never exceed what was consumed, and only counters of the queue move. */
  lemma ProcessQueueKeepsRep(e: Engine)
    requires RepInv(e.queue) && e.queue.IsValid() && e.irq <= 1
    ensures var e' := ProcessQueue(e);
            && RepInv(e'.queue) && e'.irq <= 1
            && SameConfiguration(e.queue, e'.queue)
            && Completed(e.queue) <= Completed(e'.queue)
            && Completed(e'.queue) - Completed(e.queue) <= Consumed(e'.queue) - Consumed(e.queue)
            && Consumed(e'.queue) == Consumed(e.queue) + Announced(e)
  {
    var stop := QueueAvailIdx(e.mem, e.queue);
    if stop.Ok? {
      var last := e.queue.LastAvail();
      DrainCounts(e, last, stop.value, []);
      DistanceZero(last, stop.value);
      var (e1, deferred) := Drain(e, last, stop.value, []);
      if !(stop.value == last && deferred == []) {
        FinishKeepsRep(e1, stop.value, deferred);
      }
    }
  }

  lemma CounterAfter(consumed: nat, stop: u16)
    ensures (consumed + Distance(consumed % 0x1_0000, stop)) % 0x1_0000 == stop
  {
    AdvanceCounter(consumed, Distance(consumed % 0x1_0000, stop));
  }

  ghost predicate KeepsRep(q: QueueState, q': QueueState) { RepInv(q') && Conserved(q') && q'.index == q.index }

  lemma SetSizeKeepsRep(q: QueueState, size: u16)
    requires RepInv(q) && Conserved(q)
    ensures KeepsRep(q, SetSize(q, size))
  {
    AcceptedSizes(q, size);
  }

  lemma SetDescKeepsRep(q: QueueState, addr: u64)
    requires RepInv(q) && Conserved(q)
    ensures KeepsRep(q, SetDescAddr(q, addr))
  {
  }

  lemma SetAvailKeepsRep(q: QueueState, addr: u64)
    requires RepInv(q) && Conserved(q)
    ensures KeepsRep(q, SetAvailAddr(q, addr))
  {
  }

  lemma SetUsedKeepsRep(q: QueueState, addr: u64)
    requires RepInv(q) && Conserved(q)
    ensures KeepsRep(q, SetUsedAddr(q, addr))
  {
  }

  lemma ConfigureKeepsRep(q: QueueState, reg: Reg, val: u32)
    requires RepInv(q) && Conserved(q)
    ensures KeepsRep(q, Configure(q, reg, val))
  {
    match reg
    case QueueNum => SetSizeKeepsRep(q, Low16(val));
    case QueueDescLow => SetDescKeepsRep(q, WithLow(q.descAddr, val));
    case QueueDescHigh => SetDescKeepsRep(q, WithHigh(q.descAddr, val));
    case QueueAvailLow => SetAvailKeepsRep(q, WithLow(q.availAddr, val));
    case QueueAvailHigh => SetAvailKeepsRep(q, WithHigh(q.availAddr, val));
    case QueueUsedLow => SetUsedKeepsRep(q, WithLow(q.usedAddr, val));
    case QueueUsedHigh => SetUsedKeepsRep(q, WithHigh(q.usedAddr, val));
    case _ =>
  }

  lemma NotifyKeepsInv(w: World, qi: nat)
    requires DeviceInv(w.dev)
    ensures DeviceInv(Notify(w, qi).dev)
    ensures SameConfiguration(w.dev.queues[0], Notify(w, qi).dev.queues[0])
  {
    if Serves(w.dev, qi) {
      ProcessQueueKeepsRep(EngineOf(w, qi));
    }
  }

  lemma AckStaysBit(irq: u32, val: u32)
    requires irq <= 1
    ensures BitAndNot(irq, val) == if irq == 1 && val % 2 == 0 then 1 else 0
  {
    assert BitAndNot(0, val / 2) == 0;
  }

  lemma ApplyKeepsInv(w: World, ev: Event)
    requires DeviceInv(w.dev)
    ensures DeviceInv(Apply(w, ev).dev)
  {
    if ev.Register? {
      if ev.reg == QueueNotify {
        NotifyKeepsInv(w, Low16(ev.val));
      } else if ev.reg == InterruptAck {
        AckStaysBit(w.dev.interruptStatus, ev.val);
      } else if ev.reg.ConfiguresQueue() {
        ConfigureKeepsRep(w.dev.queues[0], ev.reg, ev.val);
      }
    }
  }

  /** Every state of every run satisfies the invariant: in particular the queue selected always exists, interrupt
      status is 0 or 1, and completions never outrun consumption. */
  lemma {:induction false} RunKeepsInv(w: World, events: seq<Event>)
    requires DeviceInv(w.dev)
    ensures DeviceInv(Run(w, events).dev)
    decreases |events|
  {
    if events != [] {
      RunKeepsInv(w, events[..|events| - 1]);
      ApplyKeepsInv(Run(w, events[..|events| - 1]), events[|events| - 1]);
    }
  }

  /** Whenever a notification is served in a run, the queue has its table and both rings, so the paths taken without a
      used ring or without an available ring are dead. */
  lemma FallbacksAreDead(w: World, events: seq<Event>, qi: nat)
    requires DeviceInv(w.dev)
    requires Serves(Run(w, events).dev, qi)
    ensures var q := Run(w, events).dev.queues[qi];
            q.desc.Some? && q.avail.Some? && q.used.Some?
  {
    RunKeepsInv(w, events);
  }

  /** Guest memory and the disk change under no register write but a notification that DRIVER_OK, the ready flag and
      three nonzero addresses allow. */
  lemma OnlyServedNotificationsTouchMemory(w: World, reg: Reg, val: u32)
    ensures var w' := RegisterWrite(w, reg, val);
            (w'.mem != w.mem || w'.disk != w.disk) ==>
              && reg == QueueNotify
              && HasBit(w.dev.status, DRIVER_OK_BIT)
              && Low16(val) < |w.dev.queues|
              && w.dev.queues[Low16(val)].IsValid()
  {
  }

  // ------------------------------------------------------------------ interrupts

  lemma FinishRaises(e: Engine, stop: u16, deferred: seq<UsedElem>)
    requires e.queue.size > 0 && Coherent(e.queue) && e.irq <= 1
    requires QueueNotifyWanted(Finish(e, stop, deferred).mem, Finish(e, stop, deferred).queue) == Ok(true)
    ensures Finish(e, stop, deferred).irq == 1
  {
    AppendAllKeepsIrq(e.(queue := QueueConsume(e.queue, stop)), deferred);
  }

  /** A notification that completes something, and leaves bit 0 of the used ring's first byte clear, leaves the interrupt
      pending. */
  lemma CompletionRaisesInterrupt(w: World, qi: nat)
    requires DeviceInv(w.dev)
    requires var m', u := Notify(w, qi).mem, Notify(w, qi).dev.queues[0].used;
             && u.Some? && |u.value.history| > Completed(w.dev.queues[0])
             && m'.Accessible(u.value.base, 4) && m'.bytes[u.value.base] % 2 == 0
    ensures Notify(w, qi).dev.interruptStatus == 1
  {
    NotifyKeepsInv(w, qi);
    FlagLayout(Notify(w, qi).mem, Notify(w, qi).dev.queues[0].used.value);
    var e := EngineOf(w, 0);
    var stop := QueueAvailIdx(e.mem, e.queue).value;
    var last := e.queue.LastAvail();
    if stop != last {
      DrainCounts(e, last, stop, []);
      var (e1, deferred) := Drain(e, last, stop, []);
      FinishRaises(e1, stop, deferred);
    }
  }

  predicate ClearsInterrupt(ev: Event) {
    ev.Register? && ((ev.reg == InterruptAck && ev.val % 2 == 1) || (ev.reg == Status && ev.val == 0))
  }

  lemma {:induction false} DrainKeepsIrq(e: Engine, cur: u16, stop: u16, deferred: seq<UsedElem>)
    requires e.queue.size > 0 && e.irq == 1
    ensures Drain(e, cur, stop, deferred).0.irq == 1
    decreases Distance(cur, stop)
  {
    if cur != stop {
      DistanceStep(cur, stop);
      var (e1, deferred1) := DrainStep(e, cur, deferred);
      DrainKeepsIrq(e1, Next(cur), stop, deferred1);
    }
  }

  lemma {:induction false} AppendAllKeepsIrq(e: Engine, elems: seq<UsedElem>)
    requires e.queue.size > 0
    ensures AppendAll(e, elems).irq == e.irq
    decreases |elems|
  {
    if elems != [] {
      var (m, q, _) := QueueAppendUsed(e.mem, e.queue, elems[0]);
      AppendAllKeepsIrq(e.(mem := m, queue := q), elems[1..]);
    }
  }

  lemma NotifyKeepsIrq(w: World, qi: nat)
    requires w.dev.interruptStatus == 1
    ensures Notify(w, qi).dev.interruptStatus == 1
  {
    if Serves(w.dev, qi) {
      var e := EngineOf(w, qi);
      var stop := QueueAvailIdx(e.mem, e.queue);
      if stop.Ok? {
        DrainKeepsIrq(e, e.queue.LastAvail(), stop.value, []);
        var (e1, deferred) := Drain(e, e.queue.LastAvail(), stop.value, []);
        AppendAllKeepsIrq(e1.(queue := QueueConsume(e1.queue, stop.value)), deferred);
      }
    }
  }

  /** A pending interrupt stays pending until bit 0 is acknowledged or the device is reset. */
  lemma {:induction false} InterruptStaysPending(w: World, events: seq<Event>)
    requires w.dev.interruptStatus == 1
    requires forall i :: 0 <= i < |events| ==> !ClearsInterrupt(events[i])
    ensures Run(w, events).dev.interruptStatus == 1
    decreases |events|
  {
    if events != [] {
      InterruptStaysPending(w, events[..|events| - 1]);
      var before := Run(w, events[..|events| - 1]);
      var ev := events[|events| - 1];
      assert !ClearsInterrupt(ev);
      if ev.Register? && ev.reg == QueueNotify {
        NotifyKeepsIrq(before, Low16(ev.val));
      } else if ev.Register? && ev.reg == InterruptAck {
        AckStaysBit(1, ev.val);
      }
    }
  }
}
