/** Conservation over whole runs: any register writes and guest stores, resets included, and batches of any length. */
module Conservation {
  import opened Bytes
  import opened Queues
  import opened QueueEngine
  import opened BlockDevice
  import opened DeviceRuns
  import opened RegisterHistory
  import opened ChainEffects
  import opened Batches

  /** If the event is a served notification, memory is mapped and the pending chains keep clear of the rings. Nothing
      is asked of the used ring's contents, of the size of the batch, or of the status bytes. */
  ghost predicate Orderly(w: World, ev: Event) {
    && |w.dev.queues| == 1
    && (IsServed(w, ev) ==>
          var q := w.dev.queues[0];
          Wired(q) && RingsApart(q) && RingsMapped(w.mem, q) && HeadsClear(w.mem, q, Pending(EngineOf(w, 0))))
  }

  ghost predicate OrderlyRun(w: World, events: seq<Event>)
    decreases |events|
  {
    events == [] || (OrderlyRun(w, Earlier(events)) && Orderly(Run(w, Earlier(events)), Latest(events)))
  }

  /** The requests that one event runs without being able to write their status byte. */
  ghost function LostIn(w: World, ev: Event): nat {
    if |w.dev.queues| == 1 && IsServed(w, ev) && Wired(w.dev.queues[0])
    then Lost(w.mem, w.dev.queues[0], Pending(EngineOf(w, 0))) else 0
  }

  /** The same over a run, since the last reset. */
  ghost function LostSince(w: World, events: seq<Event>): nat
    decreases |events|
  {
    if events == [] || IsReset(Latest(events)) then 0
    else LostSince(w, Earlier(events)) + LostIn(Run(w, Earlier(events)), Latest(events))
  }

  /** Entries consumed and not completed. */
  function Missing(q: QueueState): int { Consumed(q) - Completed(q) }

  lemma ConfigureKeepsMissing(q: QueueState, reg: Reg, val: u32)
    requires RepInv(q) && Conserved(q)
    ensures Missing(Configure(q, reg, val)) == Missing(q)
  {
  }

  lemma ResetLosesNothing(w: World, ev: Event)
    requires DeviceInv(w.dev) && IsReset(ev)
    ensures |Apply(w, ev).dev.queues| == 1 && Missing(Apply(w, ev).dev.queues[0]) == 0
  {
  }

  lemma ServedIs(w: World, ev: Event)
    requires |w.dev.queues| == 1 && IsServed(w, ev)
    ensures Apply(w, ev).dev.queues == [ProcessQueue(EngineOf(w, 0)).queue]
  {
  }

  lemma ServedMissing(w: World, ev: Event)
    requires DeviceInv(w.dev) && Orderly(w, ev) && IsServed(w, ev)
    ensures |Apply(w, ev).dev.queues| == 1
    ensures Missing(Apply(w, ev).dev.queues[0]) == Missing(w.dev.queues[0]) + LostIn(w, ev)
  {
    ServedIs(w, ev);
    NotificationExact(EngineOf(w, 0));
  }

  lemma StepMissing(w: World, ev: Event)
    requires DeviceInv(w.dev) && Orderly(w, ev) && !IsReset(ev)
    ensures |Apply(w, ev).dev.queues| == 1
    ensures Missing(Apply(w, ev).dev.queues[0]) == Missing(w.dev.queues[0]) + LostIn(w, ev)
  {
    if IsServed(w, ev) {
      ServedMissing(w, ev);
    } else if ev.Register? && ev.reg.ConfiguresQueue() {
      ConfigureKeepsMissing(w.dev.queues[0], ev.reg, ev.val);
    }
  }

  /** In every state of every such run, what was consumed is what was completed plus the lost requests since the last
      reset; so the two 16-bit counters agree if and only if the number of those is a multiple of 65536, none in
      particular. */
  lemma {:induction false} RunConserves(w: World, events: seq<Event>)
    requires DeviceInv(w.dev) && Missing(w.dev.queues[0]) == 0 && OrderlyRun(w, events)
    ensures var dev := Run(w, events).dev;
            && DeviceInv(dev)
            && Consumed(dev.queues[0]) == Completed(dev.queues[0]) + LostSince(w, events)
            && (dev.queues[0].avail.Some? && dev.queues[0].used.Some? ==>
                  (dev.queues[0].used.value.idx == dev.queues[0].avail.value.last
                   <==> LostSince(w, events) % 0x1_0000 == 0))
    decreases |events|
  {
    RunKeepsInv(w, events);
    if events != [] {
      RunConserves(w, Earlier(events));
      var before := Run(w, Earlier(events));
      if IsReset(Latest(events)) {
        ResetLosesNothing(before, Latest(events));
      } else {
        StepMissing(before, Latest(events));
      }
    }
    CountersAgree(Run(w, events).dev.queues[0], LostSince(w, events));
  }

  lemma CountersAgree(q: QueueState, lost: nat)
    requires RepInv(q) && Consumed(q) == Completed(q) + lost
    ensures q.avail.Some? && q.used.Some? ==> (q.used.value.idx == q.avail.value.last <==> lost % 0x1_0000 == 0)
  {
    SameRemainder(Completed(q), lost);
  }

  lemma SameRemainder(n: nat, lost: nat)
    ensures (n + lost) % 0x1_0000 == n % 0x1_0000 <==> lost % 0x1_0000 == 0
  {
  }
}
