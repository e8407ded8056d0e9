/** The order of the device's writes over whole runs: any register writes, guest stores and reaping, any number of
    notifications, and any accesses failing in each of them. */
module PublicationRuns {
  import opened Common
  import opened Bytes
  import opened Memory
  import opened WrappingCounters
  import opened Rings
  import opened QueueEngine
  import opened BlockDevice
  import opened DeviceRuns
  import opened RegisterHistory
  import opened ChainEffects
  import opened RingContents
  import opened BlockRequests
  import opened Batches
  import opened WriteOrderRuns
  import opened WriteOrder
  import opened Publication

  /** The machine, and the first completion the driver has not reaped. */
  datatype Observed = Observed(w: World, from: nat)

  datatype Step = Machine(ev: Event) | Reaped(upTo: nat)

  function Advance(v: Observed, step: Step): Observed {
    match step
    case Machine(ev) => Observed(Apply(v.w, ev), if IsReset(ev) then 0 else v.from)
    case Reaped(upTo) => v.(from := upTo)
  }

  function After(v: Observed, steps: seq<Step>): Observed
    decreases |steps|
  {
    if steps == [] then v else Advance(After(v, steps[..|steps| - 1]), steps[|steps| - 1])
  }

  /** The used ring as the driver may rely on it, with no more unreaped than it has slots. */
  ghost predicate Reliable(m: Mem, u: UsedState, from: nat) {
    && RingOk(u, from) && RingHolds(m.bytes, u, from)
    && (exists c :: from <= c <= |u.history| && IndexShows(m.bytes, u, c))
    && |u.history| <= from + u.size
  }

  ghost predicate Trusted(v: Observed) {
    && DeviceInv(v.w.dev)
    && var q := v.w.dev.queues[0];
       q.used.Some? ==> Reliable(v.w.mem, q.used.value, v.from)
  }

  /** How many unreaped completions the index field announces, to a driver that knows how many it has reaped. */
  function Unreaped(bytes: seq<byte>, u: UsedState, from: nat): nat {
    if u.base + 4 <= |bytes| then Distance(from % 0x1_0000, U16(bytes[u.base + 2..u.base + 4])) else 0
  }

  /** What the driver owes: it reaps no more than it reads announced, leaves the used ring to the device, points the
      device at a used ring whose index is zero, and rings the doorbell with rings that lie apart, chains that keep
      clear of them, and no more outstanding than fits. */
  ghost predicate Careful(v: Observed, step: Step) {
    && |v.w.dev.queues| == 1
    && var q := v.w.dev.queues[0];
    match step
    case Reaped(upTo) => q.used.Some? && v.from <= upTo <= v.from + Unreaped(v.w.mem.bytes, q.used.value, v.from)
    case Machine(GuestStore(addr, data)) => q.used.Some? ==> Disjoint(Region(addr, |data|), q.used.value.Extent())
    case Machine(Register(reg, val)) =>
      if IsServed(v.w, Register(reg, val)) then
        Tidy(v.w, Register(reg, val)) && BatchFits(EngineOf(v.w, 0), v.from)
      else
        var w' := Apply(v.w, Register(reg, val));
        q.used.None? && |w'.dev.queues| == 1 && w'.dev.queues[0].used.Some? ==>
          v.from == 0 && IndexShows(v.w.mem.bytes, w'.dev.queues[0].used.value, 0)
  }

  ghost predicate AllCareful(v: Observed, steps: seq<Step>)
    decreases |steps|
  {
    steps == [] || (AllCareful(v, steps[..|steps| - 1]) && Careful(After(v, steps[..|steps| - 1]), steps[|steps| - 1]))
  }

  // ------------------------------------------------------------------ every step keeps the trust

  lemma ReapedIsReliable(m: Mem, u: UsedState, from: nat, upTo: nat)
    requires Reliable(m, u, from) && from <= upTo <= from + Unreaped(m.bytes, u, from)
    ensures Reliable(m, u, upTo)
  {
    var c :| from <= c <= |u.history| && IndexShows(m.bytes, u, c);
    DistanceOfCounters(from, c);
  }

  lemma StoreIsReliable(m: Mem, u: UsedState, from: nat, addr: nat, data: seq<byte>)
    requires Reliable(m, u, from) && addr + |data| <= |m.bytes| && Disjoint(Region(addr, |data|), u.Extent())
    ensures Reliable(m.(bytes := Splice(m.bytes, addr, data)), u, from)
  {
    var m' := m.(bytes := Splice(m.bytes, addr, data));
    assert SameOn(m, m', u.Extent());
    RingFrame(m, m', u, from);
  }

  /** Safe at every prefix of what was written since `s`. */
  ghost predicate AlwaysSafe(s: Start, from: nat, history: seq<UsedElem>, writes: seq<Write>)
    requires s.queue.used.Some?
  {
    forall p :: 0 <= p <= |writes| ==> SafeAfter(s, from, history, writes[..p])
  }

  lemma ServedIsReliable(e: Engine, from: nat)
    requires Wired(e.queue) && RingsApart(e.queue) && HeadsClear(e.mem, e.queue, Pending(e))
    requires Reliable(e.mem, e.queue.used.value, from) && BatchFits(e, from)
    ensures var e' := ProcessQueue(e);
            && e'.queue.used.Some? && Reliable(e'.mem, e'.queue.used.value, from)
            && e.mem.log <= e'.mem.log
            && AlwaysSafe(StartOf(e), from, e'.queue.used.value.history, News(StartOf(e), e'.mem))
  {
    NotificationWritesInOrder(e);
    NotificationKeepsTrust(e, from);
  }

  /** A register write that serves no notification writes no memory, and either keeps the used ring, or drops it, or
      brings a fresh one. */
  lemma QuietRegister(v: Observed, reg: Reg, val: u32)
    requires DeviceInv(v.w.dev) && !IsServed(v.w, Register(reg, val))
    ensures var w' := Apply(v.w, Register(reg, val));
            && w'.mem == v.w.mem && |w'.dev.queues| == 1
            && var u, u' := v.w.dev.queues[0].used, w'.dev.queues[0].used;
               if reg == Status && val == 0 then u' == None
               else u' == u || (u == None && u'.Some? && u'.value.idx == 0 && u'.value.history == []
                                && u'.value.IsValid() && IsRingSize(u'.value.size))
  {
  }

  lemma MachineKeepsTrust(v: Observed, ev: Event)
    requires Trusted(v) && Careful(v, Machine(ev))
    ensures Trusted(Advance(v, Machine(ev)))
  {
    ApplyKeepsInv(v.w, ev);
    match ev
    case GuestStore(addr, data) =>
      if v.w.dev.queues[0].used.Some? && addr + |data| <= |v.w.mem.bytes| {
        StoreIsReliable(v.w.mem, v.w.dev.queues[0].used.value, v.from, addr, data);
      }
    case Register(reg, val) =>
      if IsServed(v.w, ev) {
        ServedIsReliable(EngineOf(v.w, 0), v.from);
      } else {
        QuietRegister(v, reg, val);
      }
  }

  lemma StepKeepsTrust(v: Observed, step: Step)
    requires Trusted(v) && Careful(v, step)
    ensures Trusted(Advance(v, step))
  {
    match step
    case Reaped(upTo) => ReapedIsReliable(v.w.mem, v.w.dev.queues[0].used.value, v.from, upTo);
    case Machine(ev) => MachineKeepsTrust(v, ev);
  }

  lemma {:induction false} RunKeepsTrust(v: Observed, steps: seq<Step>)
    requires Trusted(v) && AllCareful(v, steps)
    ensures Trusted(After(v, steps))
    decreases |steps|
  {
    if steps != [] {
      RunKeepsTrust(v, steps[..|steps| - 1]);
      StepKeepsTrust(After(v, steps[..|steps| - 1]), steps[|steps| - 1]);
    }
  }

  // ------------------------------------------------------------------ every write of the run

  ghost predicate ServedStep(v: Observed, step: Step) { step.Machine? && IsServed(v.w, step.ev) }

  lemma QuietStepKeepsLog(v: Observed, step: Step)
    requires Trusted(v) && Careful(v, step) && !ServedStep(v, step)
    ensures Advance(v, step).w.mem.log == v.w.mem.log
  {
    if step.Machine? && step.ev.Register? {
      QuietRegister(v, step.ev.reg, step.ev.val);
    }
  }

  /** One served notification, from `v` to `v'`. */
  ghost predicate SafeStep(v: Observed, v': Observed) {
    && |v.w.dev.queues| == 1 && |v'.w.dev.queues| == 1
    && Wired(v.w.dev.queues[0]) && v'.w.dev.queues[0].used.Some? && v.w.mem.log <= v'.w.mem.log
    && var s := StartOf(EngineOf(v.w, 0));
       AlwaysSafe(s, v.from, v'.w.dev.queues[0].used.value.history, News(s, v'.w.mem))
  }

  lemma ServedStepIsSafe(v: Observed, step: Step)
    requires Trusted(v) && Careful(v, step) && ServedStep(v, step)
    ensures SafeStep(v, Advance(v, step))
  {
    ServedIsReliable(EngineOf(v.w, 0), v.from);
  }

  lemma StepKeepsWrites(v: Observed, step: Step)
    requires Trusted(v) && Careful(v, step)
    ensures v.w.mem.log <= Advance(v, step).w.mem.log
  {
    if ServedStep(v, step) {
      ServedStepIsSafe(v, step);
    } else {
      QuietStepKeepsLog(v, step);
    }
  }

  /** The first `p` writes of the log end within step number `i`, a served notification that is safe throughout. */
  ghost predicate SafeWithin(v: Observed, steps: seq<Step>, i: nat, log: seq<Write>, p: nat)
    requires i < |steps|
  {
    var before, after := After(v, steps[..i]), After(v, steps[..i + 1]);
    && ServedStep(before, steps[i]) && SafeStep(before, after)
    && |before.w.mem.log| <= p <= |after.w.mem.log| && after.w.mem.log <= log
  }

  lemma SafeWithinGrows(v: Observed, steps: seq<Step>, step: Step, i: nat, log: seq<Write>, log': seq<Write>, p: nat)
    requires i < |steps| && SafeWithin(v, steps, i, log, p) && log <= log'
    ensures SafeWithin(v, steps + [step], i, log', p)
  {
    var longer := steps + [step];
    assert longer[..i] == steps[..i] && longer[..i + 1] == steps[..i + 1];
  }

  lemma LastStepIsSafe(v: Observed, init: seq<Step>, step: Step, p: nat)
    requires Trusted(After(v, init)) && Careful(After(v, init), step)
    requires |After(v, init).w.mem.log| < p <= |After(v, init + [step]).w.mem.log|
    ensures SafeWithin(v, init + [step], |init|, After(v, init + [step]).w.mem.log, p)
  {
    var steps, before := init + [step], After(v, init);
    assert steps[..|init|] == init && steps[..|init| + 1] == steps;
    if !ServedStep(before, step) {
      QuietStepKeepsLog(before, step);
    }
    ServedStepIsSafe(before, step);
  }

  /** Every prefix of the writes of a careful run, in however many notifications and whichever accesses fail, leaves the
      driver with an index that announces only completions whose elements are intact, each after its status byte. */
  lemma {:induction false} EveryPrefixIsSafe(v: Observed, steps: seq<Step>, p: nat) returns (i: nat)
    requires Trusted(v) && AllCareful(v, steps)
    requires |v.w.mem.log| < p <= |After(v, steps).w.mem.log|
    ensures i < |steps| && SafeWithin(v, steps, i, After(v, steps).w.mem.log, p)
    decreases |steps|
  {
    var init, step := steps[..|steps| - 1], steps[|steps| - 1];
    assert steps == init + [step];
    RunKeepsTrust(v, init);
    StepKeepsWrites(After(v, init), step);
    if p <= |After(v, init).w.mem.log| {
      i := EveryPrefixIsSafe(v, init, p);
      SafeWithinGrows(v, init, step, i, After(v, init).w.mem.log, After(v, steps).w.mem.log, p);
    } else {
      i := |init|;
      LastStepIsSafe(v, init, step, p);
    }
  }

  /** In particular from power-on. */
  lemma PowerOnIsSafe(m: Mem, d: Disk, steps: seq<Step>, p: nat) returns (i: nat)
    requires AllCareful(Observed(World(m, d, FreshDevice()), 0), steps)
    requires |m.log| < p <= |After(Observed(World(m, d, FreshDevice()), 0), steps).w.mem.log|
    ensures var v := Observed(World(m, d, FreshDevice()), 0);
            && Trusted(After(v, steps))
            && i < |steps| && SafeWithin(v, steps, i, After(v, steps).w.mem.log, p)
  {
    FreshSatisfiesInv();
    RunKeepsTrust(Observed(World(m, d, FreshDevice()), 0), steps);
    i := EveryPrefixIsSafe(Observed(World(m, d, FreshDevice()), 0), steps, p);
  }
}
