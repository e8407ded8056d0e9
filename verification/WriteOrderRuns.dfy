/** The order of the device's writes over whole runs: any register writes, resets and guest stores, the used ring
    included, batches of any length, and any accesses failing. */
module WriteOrderRuns {
  import opened Memory
  import opened BlockDevice
  import opened DeviceRuns
  import opened RegisterHistory
  import opened ChainEffects
  import opened Batches
  import opened WriteOrder

  /** If the event is a served notification, the used ring lies apart from what the device reads, and the pending chains
      keep clear of it. */
  ghost predicate Tidy(w: World, ev: Event) {
    && |w.dev.queues| == 1
    && (IsServed(w, ev) ==>
          var q := w.dev.queues[0];
          Wired(q) && RingsApart(q) && HeadsClear(w.mem, q, Pending(EngineOf(w, 0))))
  }

  ghost predicate TidyRun(w: World, events: seq<Event>)
    decreases |events|
  {
    events == [] || (TidyRun(w, Earlier(events)) && Tidy(Run(w, Earlier(events)), Latest(events)))
  }

  /** Everything one event wrote, it wrote in order. */
  ghost predicate OrderedStep(w: World, w': World) {
    && |w.dev.queues| == 1 && |w'.dev.queues| == 1 && Wired(w.dev.queues[0]) && w'.dev.queues[0].used.Some?
    && AllInOrder(StartOf(EngineOf(w, 0)), w'.mem, w'.dev.queues[0].used.value.history)
  }

  lemma ServedIsOrdered(w: World, ev: Event)
    requires Tidy(w, ev) && IsServed(w, ev)
    ensures OrderedStep(w, Apply(w, ev)) && w.mem.log <= Apply(w, ev).mem.log
  {
    NotificationWritesInOrder(EngineOf(w, 0));
  }

  lemma OtherWritesNothing(w: World, ev: Event)
    requires !IsServed(w, ev)
    ensures Apply(w, ev).mem.log == w.mem.log
  {
  }

  /** Write number `j` of the log was made by event number `i`, a served notification that wrote in order throughout. */
  ghost predicate OrderedWithin(w: World, events: seq<Event>, i: nat, log: seq<Write>, j: nat)
    requires i < |events|
  {
    var before, after := Run(w, events[..i]), Run(w, events[..i + 1]);
    && IsServed(before, events[i]) && OrderedStep(before, after)
    && |before.mem.log| <= j < |after.mem.log| && after.mem.log <= log
  }

  lemma EarlierWriteIsOrdered(w: World, events: seq<Event>, ev: Event, i: nat, j: nat)
    requires Tidy(Run(w, events), ev)
    requires i < |events| && OrderedWithin(w, events, i, Run(w, events).mem.log, j)
    ensures OrderedWithin(w, events + [ev], i, Run(w, events + [ev]).mem.log, j)
  {
    var longer := events + [ev];
    LogGrows(w, events, ev);
    assert longer[..i] == events[..i] && longer[..i + 1] == events[..i + 1];
  }

  lemma LastWriteIsOrdered(w: World, init: seq<Event>, ev: Event, j: nat)
    requires Tidy(Run(w, init), ev)
    requires |Run(w, init).mem.log| <= j < |Run(w, init + [ev]).mem.log|
    ensures OrderedWithin(w, init + [ev], |init|, Run(w, init + [ev]).mem.log, j)
  {
    Appended(init, ev);
    assert (init + [ev])[..|init|] == init && (init + [ev])[..|init| + 1] == init + [ev];
    if !IsServed(Run(w, init), ev) {
      OtherWritesNothing(Run(w, init), ev);
    }
    ServedIsOrdered(Run(w, init), ev);
  }

  lemma LogGrows(w: World, init: seq<Event>, ev: Event)
    requires Tidy(Run(w, init), ev)
    ensures Run(w, init).mem.log <= Run(w, init + [ev]).mem.log
  {
    Appended(init, ev);
    if IsServed(Run(w, init), ev) {
      ServedIsOrdered(Run(w, init), ev);
    } else {
      OtherWritesNothing(Run(w, init), ev);
    }
  }

  /** Publication order over a whole run: every write the device ever makes is made by some served notification, in the
      order of that notification. */
  lemma {:induction false} EveryWriteInOrder(w: World, events: seq<Event>, j: nat) returns (i: nat)
    requires TidyRun(w, events)
    requires |w.mem.log| <= j < |Run(w, events).mem.log|
    ensures i < |events| && OrderedWithin(w, events, i, Run(w, events).mem.log, j)
    decreases |events|, 0
  {
    assert events == Earlier(events) + [Latest(events)];
    i := OrderedSoFar(w, Earlier(events), Latest(events), j);
  }

  lemma {:induction false} OrderedSoFar(w: World, init: seq<Event>, ev: Event, j: nat) returns (i: nat)
    requires TidyRun(w, init) && Tidy(Run(w, init), ev)
    requires |w.mem.log| <= j < |Run(w, init + [ev]).mem.log|
    ensures i < |init + [ev]| && OrderedWithin(w, init + [ev], i, Run(w, init + [ev]).mem.log, j)
    decreases |init|, 1
  {
    if j < |Run(w, init).mem.log| {
      i := EveryWriteInOrder(w, init, j);
      EarlierWriteIsOrdered(w, init, ev, i, j);
    } else {
      i := |init|;
      LastWriteIsOrdered(w, init, ev, j);
    }
  }
}
