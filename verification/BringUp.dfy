/** From power-on to service: which configuration histories leave a queue the driver and the device agree on, and what
    happens when the two sizes of the available ring differ. */
module BringUp {
  import opened Common
  import opened Bytes
  import opened Wire
  import opened Memory
  import opened WrappingCounters
  import opened Bits
  import opened Rings
  import opened Queues
  import opened QueueEngine
  import opened BlockDevice
  import opened DeviceRuns
  import opened RegisterHistory
  import opened ChainEffects
  import opened RingContents
  import opened Batches
  import opened DriverProtocol

  ghost predicate Untouched(q: QueueState) { Consumed(q) == 0 && Completed(q) == 0 }

  lemma ConfigureKeepsUntouched(q: QueueState, reg: Reg, val: u32)
    requires Untouched(q)
    ensures Untouched(Configure(q, reg, val))
  {
  }

  /** No notification was served since power-on or the last reset. */
  predicate Unserved(w: World, events: seq<Event>)
    decreases |events|
  {
    events == [] || IsReset(Latest(events))
    || (Unserved(w, Earlier(events)) && !IsServed(Run(w, Earlier(events)), Latest(events)))
  }

  lemma {:induction false} UnrungIsUnserved(w: World, events: seq<Event>)
    requires forall i :: 0 <= i < |events| ==> !IsWriteTo(events[i], QueueNotify)
    ensures Unserved(w, events)
    decreases |events|
  {
    if events != [] {
      UnrungIsUnserved(w, Earlier(events));
      assert !IsWriteTo(Latest(events), QueueNotify);
    }
  }

  lemma StepStaysUntouched(w: World, ev: Event)
    requires DeviceInv(w.dev) && (IsReset(ev) || (Untouched(w.dev.queues[0]) && !IsServed(w, ev)))
    ensures |Apply(w, ev).dev.queues| == 1 && Untouched(Apply(w, ev).dev.queues[0])
  {
    if !IsReset(ev) && ev.Register? && ev.reg.ConfiguresQueue() {
      ConfigureKeepsUntouched(w.dev.queues[0], ev.reg, ev.val);
    }
  }

  lemma {:induction false} StaysUntouched(w: World, events: seq<Event>)
    requires DeviceInv(w.dev) && Untouched(w.dev.queues[0]) && Unserved(w, events)
    ensures |Run(w, events).dev.queues| == 1 && Untouched(Run(w, events).dev.queues[0])
    decreases |events|
  {
    if events != [] {
      RunKeepsInv(w, Earlier(events));
      if !IsReset(Latest(events)) {
        StaysUntouched(w, Earlier(events));
      }
      StepStaysUntouched(Run(w, Earlier(events)), Latest(events));
    }
  }

  /** Both index fields, as the driver must leave them before the first notification. */
  ghost predicate IndexesZero(m: Mem, q: QueueState)
    requires Wired(q)
  {
    AvailShows(m.bytes, q.avail.value, 0) && IndexShows(m.bytes, q.used.value, 0)
  }

  /** The write history a driver must produce: the queue ready, three addresses, and both ring addresses set while the
      queue had the size it has now (the order of section 4.2.3.2 of VirtIO 1.1 is one way). */
  ghost predicate Configures(events: seq<Event>) {
    && ReadyFlag(events)
    && FirstAddress(events, QueueDescLow, QueueDescHigh) != 0
    && FirstAddress(events, QueueAvailLow, QueueAvailHigh) != 0
    && FirstAddress(events, QueueUsedLow, QueueUsedHigh) != 0
    && SizeWhenSet(events, QueueAvailLow, QueueAvailHigh) == LastSize(events)
    && SizeWhenSet(events, QueueUsedLow, QueueUsedHigh) == LastSize(events)
  }

  /** The histories that leave a served queue with rings of its own size are exactly the ones above. */
  lemma MatchedIff(w: World, events: seq<Event>)
    requires w.dev == FreshDevice()
    ensures |Run(w, events).dev.queues| == 1
    ensures Matched(Run(w, events).dev.queues[0]) <==> Configures(events)
  {
    RegistersAreTheirHistory(w, events);
  }

  /** Any such history in which no notification was served since the last reset, with DRIVER_OK set and zeroed index
      fields in mapped rings that lie apart, establishes the refinement that every later run keeps. */
  lemma BringUpRefines(w: World, events: seq<Event>)
    requires w.dev == FreshDevice() && Configures(events) && Unserved(w, events)
    ensures var w' := Run(w, events);
            && |w'.dev.queues| == 1 && Matched(w'.dev.queues[0])
            && var q := w'.dev.queues[0];
               HasBit(w'.dev.status, DRIVER_OK_BIT) && RingsApart(q) && RingsMapped(w'.mem, q) && IndexesZero(w'.mem, q)
               ==> Refines(System(w', [], []))
  {
    RegistersAreTheirHistory(w, events);
    FreshSatisfiesInv();
    StaysUntouched(w, events);
  }

  /** From power-on, through any such configuration and then any run of the driver protocol that ends with a doorbell:
      the completions are the published heads, each exactly once, and reaping reads them all, in order. */
  lemma PowerOnToCompletion(w: World, events: seq<Event>, acts: seq<Action>)
    requires w.dev == FreshDevice() && Configures(events) && Unserved(w, events)
    requires var w' := Run(w, events);
             |w'.dev.queues| == 1 && Matched(w'.dev.queues[0]) && HasBit(w'.dev.status, DRIVER_OK_BIT)
             && RingsApart(w'.dev.queues[0]) && RingsMapped(w'.mem, w'.dev.queues[0])
             && IndexesZero(w'.mem, w'.dev.queues[0])
    requires var s := System(Run(w, events), [], []);
             AllEnabled(s, acts) && Enabled(Outcomes(s, acts), Doorbell)
    ensures var s' := Do(Outcomes(System(Run(w, events), [], []), acts), Doorbell);
            && |s'.w.dev.queues| == 1
            && multiset(Ids(Completions(QueueOf(s')))) == multiset(s'.published)
            && exists reaps :: AllEnabled(s', reaps) && Outcomes(s', reaps).got == Completions(QueueOf(s'))
  {
    BringUpRefines(w, events);
    var s := System(Run(w, events), [], []);
    ExactlyOnce(s, acts);
    RunsRefine(s, acts);
    DoorbellKeeps(Outcomes(s, acts));
    ReapingReadsEverything(Do(Outcomes(s, acts), Doorbell));
  }

  // ------------------------------------------------------------------ one cursor, two sizes

  /** The slot the device reads for the `k`th entry: reduced by the queue's size, then by the ring's. */
  function DeviceSlot(k: nat, queueSize: nat, ringSize: nat): nat
    requires queueSize > 0 && ringSize > 0
  {
    k % 0x1_0000 % queueSize % ringSize
  }

  /** It is in bounds, and it is where a driver with a ring of `ringSize` entries puts the `k`th, for every `k` if and
      only if the queue was not made smaller than the ring afterwards. */
  lemma SlotsAgreeIff(queueSize: nat, ringSize: nat)
    requires IsRingSize(queueSize) && IsRingSize(ringSize)
    ensures forall k: nat :: DeviceSlot(k, queueSize, ringSize) < ringSize
    ensures (forall k: nat :: DeviceSlot(k, queueSize, ringSize) == k % ringSize) <==> ringSize <= queueSize
  {
    forall k: nat
      ensures DeviceSlot(k, queueSize, ringSize) == k % (if queueSize < ringSize then queueSize else ringSize)
      ensures DeviceSlot(k, queueSize, ringSize) < ringSize
    {
      DoubleReduction(k, queueSize, ringSize);
    }
    if queueSize < ringSize {
      SmallMod(queueSize, ringSize);
      assert DeviceSlot(queueSize, queueSize, ringSize) == 0;
    }
  }

  /** What the batch loop reads for the `k`th entry, in every reachable configuration. */
  lemma EntryForCounter(m: Mem, q: QueueState, k: nat)
    requires RepInv(q) && q.avail.Some?
    ensures var a := q.avail.value;
            var at := a.base + 4 + 2 * (k % if q.size < a.size then q.size else a.size);
            && at + 2 <= a.base + 4 + 2 * a.size
            && HeadAt(m, q, k % 0x1_0000) ==
               if m.Accessible(at, 2) then Ok(Word16(m.bytes, at)) else Err(InvalidAddress)
  {
    ReadsAt(m.bytes, q.avail.value.base + 4 + 2 * (k % if q.size < q.avail.value.size then q.size else q.avail.value.size));
    DoubleReduction(k, q.size, q.avail.value.size);
  }

  lemma ShrunkHistory()
    ensures var events := [Register(QueueAvailLow, 0x2000)] + [Register(QueueNum, 128)];
            && LastSize(events) == 128 && FirstAddress(events, QueueAvailLow, QueueAvailHigh) == 0x2000
            && SizeWhenSet(events, QueueAvailLow, QueueAvailHigh) == 256
  {
    var first := [Register(QueueAvailLow, 0x2000)];
    assert [] + first == first;
    Appended([], first[0]);
    assert LastSize([]) == 256 && FirstAddress([], QueueAvailLow, QueueAvailHigh) == 0;
    assert FirstAddress(first, QueueAvailLow, QueueAvailHigh) == 0x2000;
    assert SizeWhenSet(first, QueueAvailLow, QueueAvailHigh) == 256;
    Appended(first, Register(QueueNum, 128));
    assert IsPowerOfTwo(2) && IsPowerOfTwo(8) && IsPowerOfTwo(32) && IsPowerOfTwo(128);
  }

  lemma ShrunkQueue(w: World)
    requires w.dev == FreshDevice()
    ensures var w' := Run(w, [Register(QueueAvailLow, 0x2000)] + [Register(QueueNum, 128)]);
            && |w'.dev.queues| == 1
            && var q := w'.dev.queues[0]; q.size == 128 && q.avail.Some? && q.avail.value.size == 256
  {
    ShrunkHistory();
    RegistersAreTheirHistory(w, [Register(QueueAvailLow, 0x2000)] + [Register(QueueNum, 128)]);
  }

  lemma SameEntry(m: Mem, q: QueueState)
    requires q.size == 128
    ensures HeadAt(m, q, 128) == HeadAt(m, q, 0)
  {
    assert 128 % 128 == 0 % 128;
  }

  /** The witness: the available ring is addressed while the queue has 256 entries, then QUEUE_NUM is set to 128. The
      driver's 129th entry goes to slot 128 of its ring, and the device reads slot 0 for it, whatever memory holds. */
  lemma ShrunkQueueMisreads(w: World, m: Mem)
    requires w.dev == FreshDevice()
    ensures var w' := Run(w, [Register(QueueAvailLow, 0x2000)] + [Register(QueueNum, 128)]);
            && |w'.dev.queues| == 1
            && var q := w'.dev.queues[0];
            && q.size == 128 && q.avail.Some? && q.avail.value.size == 256
            && HeadAt(m, q, 128) == HeadAt(m, q, 0)
    ensures DeviceSlot(128, 128, 256) == 0 && 128 % 256 == 128
  {
    ShrunkQueue(w);
    SameEntry(m, Run(w, [Register(QueueAvailLow, 0x2000)] + [Register(QueueNum, 128)]).dev.queues[0]);
  }

  // ------------------------------------------------------------------ the loop as a count

  /** `n` iterations, starting from an unbounded counter. */
  function Iterate(e: Engine, k: nat, n: nat, deferred: seq<UsedElem>): (Engine, seq<UsedElem>)
    requires e.queue.size > 0
    decreases n
  {
    if n == 0 then (e, deferred)
    else
      var (e', deferred') := DrainStep(e, k % 0x1_0000, deferred);
      Iterate(e', k + 1, n - 1, deferred')
  }

  lemma OneIteration(e: Engine, cur: u16, stop: u16, deferred: seq<UsedElem>)
    requires e.queue.size > 0 && cur != stop
    ensures var (e', deferred') := DrainStep(e, cur, deferred);
            Drain(e, cur, stop, deferred) == Drain(e', Next(cur), stop, deferred')
  {
    DistanceStep(cur, stop);
  }

  /** The loop on a wrapping cursor with an inequality for its guard runs exactly as often as the unbounded counters are
      apart, whatever wraps on the way. */
  lemma {:induction false} LoopRunsDistanceTimes(e: Engine, lo: nat, hi: nat, deferred: seq<UsedElem>)
    requires e.queue.size > 0 && lo <= hi < lo + 0x1_0000
    ensures Drain(e, lo % 0x1_0000, hi % 0x1_0000, deferred) == Iterate(e, lo, hi - lo, deferred)
    decreases hi - lo
  {
    if lo < hi {
      CursorStep(lo, hi);
      var (e1, deferred1) := DrainStep(e, lo % 0x1_0000, deferred);
      LoopRunsDistanceTimes(e1, lo + 1, hi, deferred1);
      OneIteration(e, lo % 0x1_0000, hi % 0x1_0000, deferred);
    }
  }
}
