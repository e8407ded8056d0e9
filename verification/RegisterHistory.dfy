/** The registers as functions of the writes that were made to them: what each holds after any run, computed from the
    history alone. Also the consequences for addresses above 4 GiB, and what a reset restores. */
module RegisterHistory {
  import opened Common
  import opened Bytes
  import opened WrappingCounters
  import opened Bits
  import opened Queues
  import opened BlockDevice
  import opened DeviceRuns

  predicate IsWriteTo(ev: Event, reg: Reg) { ev.Register? && ev.reg == reg }

  predicate IsReset(ev: Event) { IsWriteTo(ev, Status) && ev.val == 0 }

  function Earlier(events: seq<Event>): seq<Event>
    requires events != []
  {
    events[..|events| - 1]
  }

  function Latest(events: seq<Event>): Event
    requires events != []
  {
    events[|events| - 1]
  }

  /** The last value written to a register since reset, 0 if there is none. */
  function LastWritten(events: seq<Event>, reg: Reg): u32
    decreases |events|
  {
    if events == [] || IsReset(Latest(events)) then 0
    else if IsWriteTo(Latest(events), reg) then Latest(events).val
    else LastWritten(Earlier(events), reg)
  }

  /** The selector of the driver's feature words. */
  function Selector(events: seq<Event>): u32 { LastWritten(events, DriverFeaturesSel) }

  /** One half of the driver's features: the last value written while that half was selected, since reset. */
  function FeatureHalf(events: seq<Event>, half: nat): u32
    decreases |events|
  {
    if events == [] || IsReset(Latest(events)) then 0
    else if IsWriteTo(Latest(events), DriverFeatures) && Selector(Earlier(events)) == half then Latest(events).val
    else FeatureHalf(Earlier(events), half)
  }

  /** What one write contributes to an address register that is still zero. */
  function Contribution(ev: Event, low: Reg, high: Reg): u64 {
    if IsWriteTo(ev, low) then ev.val else if IsWriteTo(ev, high) then ev.val * 0x1_0000_0000 else 0
  }

  /** An address: the first nonzero contribution since reset. */
  function FirstAddress(events: seq<Event>, low: Reg, high: Reg): u64
    decreases |events|
  {
    if events == [] || IsReset(Latest(events)) then 0
    else if FirstAddress(Earlier(events), low, high) != 0 then FirstAddress(Earlier(events), low, high)
    else Contribution(Latest(events), low, high)
  }

  predicate SelectsSize(ev: Event) { IsWriteTo(ev, QueueNum) && IsRingSize(Low16(ev.val)) }

  /** The queue size: the last acceptable one written, ever; a reset does not restore it. */
  function LastSize(events: seq<Event>): nat
    decreases |events|
  {
    if events == [] then DEFAULT_QUEUE_SIZE
    else if SelectsSize(Latest(events)) then Low16(Latest(events).val)
    else LastSize(Earlier(events))
  }

  /** The size a ring took with it: the queue size in force when its address became nonzero. */
  function SizeWhenSet(events: seq<Event>, low: Reg, high: Reg): nat
    requires FirstAddress(events, low, high) != 0
    decreases |events|
  {
    if FirstAddress(Earlier(events), low, high) != 0 then SizeWhenSet(Earlier(events), low, high)
    else LastSize(Earlier(events))
  }

  function ReadyFlag(events: seq<Event>): bool
    decreases |events|
  {
    if events == [] || IsReset(Latest(events)) then false
    else if IsWriteTo(Latest(events), QueueReady) then Latest(events).val != 0
    else ReadyFlag(Earlier(events))
  }

  lemma Appended(events: seq<Event>, ev: Event)
    ensures events + [ev] != [] && Earlier(events + [ev]) == events && Latest(events + [ev]) == ev
    ensures forall w: World :: Run(w, events + [ev]) == Apply(Run(w, events), ev)
  {
    assert (events + [ev])[..|events|] == events;
  }

  // ------------------------------------------------------------------ run = history

  /** An address register, with the size of the table or ring that came with it. */
  datatype Placed = Placed(addr: u64, size: Option<nat>)

  ghost function DescPlaced(q: QueueState): Placed {
    Placed(q.descAddr, if q.desc.Some? then Some(q.desc.value.size) else None)
  }

  ghost function AvailPlaced(q: QueueState): Placed {
    Placed(q.availAddr, if q.avail.Some? then Some(q.avail.value.size) else None)
  }

  ghost function UsedPlaced(q: QueueState): Placed {
    Placed(q.usedAddr, if q.used.Some? then Some(q.used.value.size) else None)
  }

  ghost predicate PlacedMatches(p: Placed, events: seq<Event>, low: Reg, high: Reg) {
    && p.addr == FirstAddress(events, low, high)
    && (p.size.Some? <==> p.addr != 0)
    && (p.size.Some? ==> p.size.value == SizeWhenSet(events, low, high))
  }

  ghost predicate QueueMatches(q: QueueState, events: seq<Event>) {
    && q.size == LastSize(events) && q.ready == ReadyFlag(events)
    && PlacedMatches(DescPlaced(q), events, QueueDescLow, QueueDescHigh)
    && PlacedMatches(AvailPlaced(q), events, QueueAvailLow, QueueAvailHigh)
    && PlacedMatches(UsedPlaced(q), events, QueueUsedLow, QueueUsedHigh)
  }

  ghost predicate FeaturesMatch(dev: DeviceState, events: seq<Event>) {
    && dev.deviceFeaturesSel == LastWritten(events, DeviceFeaturesSel)
    && dev.driverFeaturesSel == LastWritten(events, DriverFeaturesSel)
    && dev.driverFeatures == FeatureHalf(events, 1) * 0x1_0000_0000 + FeatureHalf(events, 0)
  }

  lemma HalvesMerge(high: u32, low: u32, val: u32)
    ensures WithLow(high * 0x1_0000_0000 + low, val) == high * 0x1_0000_0000 + val
    ensures WithHigh(high * 0x1_0000_0000 + low, val) == val * 0x1_0000_0000 + low
  {
  }

  /** What one event does to the feature registers. */
  lemma FeaturesAfter(w: World, ev: Event)
    ensures Apply(w, ev).dev.deviceFeaturesSel ==
            if IsReset(ev) then 0 else if IsWriteTo(ev, DeviceFeaturesSel) then ev.val else w.dev.deviceFeaturesSel
    ensures Apply(w, ev).dev.driverFeaturesSel ==
            if IsReset(ev) then 0 else if IsWriteTo(ev, DriverFeaturesSel) then ev.val else w.dev.driverFeaturesSel
    ensures Apply(w, ev).dev.driverFeatures ==
            if IsReset(ev) then 0
            else if IsWriteTo(ev, DriverFeatures) then MergeFeatures(w.dev.driverFeatures, w.dev.driverFeaturesSel, ev.val)
            else w.dev.driverFeatures
  {
  }

  lemma FeaturesStep(w: World, events: seq<Event>)
    requires events != [] && FeaturesMatch(w.dev, Earlier(events))
    ensures FeaturesMatch(Apply(w, Latest(events)).dev, events)
  {
    FeaturesAfter(w, Latest(events));
    if IsWriteTo(Latest(events), DriverFeatures) {
      HalvesMerge(FeatureHalf(Earlier(events), 1), FeatureHalf(Earlier(events), 0), Latest(events).val);
    }
  }

  lemma LowOfZero(word: u64, val: u32)
    ensures word == 0 ==> WithLow(word, val) == val
  {
  }

  lemma HighOfZero(word: u64, val: u32)
    ensures word == 0 ==> WithHigh(word, val) == val * 0x1_0000_0000
  {
  }

  /** How one event moves an address: reset clears it, the first nonzero contribution sets it, nothing else does. */
  ghost predicate PlacedMoves(p: Placed, p': Placed, queueSize: nat, ev: Event, low: Reg, high: Reg) {
    if IsReset(ev) then p' == Placed(0, None)
    else if p.addr == 0 && Contribution(ev, low, high) != 0 then p' == Placed(Contribution(ev, low, high), Some(queueSize))
    else p' == p
  }

  ghost predicate QueueMoves(q: QueueState, q': QueueState, ev: Event) {
    && q'.size == (if SelectsSize(ev) then Low16(ev.val) else q.size)
    && q'.ready == (if IsReset(ev) then false else if IsWriteTo(ev, QueueReady) then ev.val != 0 else q.ready)
    && PlacedMoves(DescPlaced(q), DescPlaced(q'), q.size, ev, QueueDescLow, QueueDescHigh)
    && PlacedMoves(AvailPlaced(q), AvailPlaced(q'), q.size, ev, QueueAvailLow, QueueAvailHigh)
    && PlacedMoves(UsedPlaced(q), UsedPlaced(q'), q.size, ev, QueueUsedLow, QueueUsedHigh)
  }

  lemma SetDescMoves(q: QueueState, addr: u64, ev: Event)
    requires IsWriteTo(ev, QueueDescLow) || IsWriteTo(ev, QueueDescHigh)
    requires q.descAddr == 0 ==> addr == Contribution(ev, QueueDescLow, QueueDescHigh)
    ensures QueueMoves(q, SetDescAddr(q, addr), ev)
  {
  }

  lemma SetAvailMoves(q: QueueState, addr: u64, ev: Event)
    requires IsWriteTo(ev, QueueAvailLow) || IsWriteTo(ev, QueueAvailHigh)
    requires q.availAddr == 0 ==> addr == Contribution(ev, QueueAvailLow, QueueAvailHigh)
    ensures QueueMoves(q, SetAvailAddr(q, addr), ev)
  {
  }

  lemma SetUsedMoves(q: QueueState, addr: u64, ev: Event)
    requires IsWriteTo(ev, QueueUsedLow) || IsWriteTo(ev, QueueUsedHigh)
    requires q.usedAddr == 0 ==> addr == Contribution(ev, QueueUsedLow, QueueUsedHigh)
    ensures QueueMoves(q, SetUsedAddr(q, addr), ev)
  {
  }

  lemma ConfigureMoves(q: QueueState, reg: Reg, val: u32)
    requires q.maxSize == DEFAULT_QUEUE_SIZE && reg.ConfiguresQueue()
    ensures QueueMoves(q, Configure(q, reg, val), Register(reg, val))
  {
    match reg
    case QueueNum => AcceptedSizes(q, Low16(val));
    case QueueReady =>
    case QueueDescLow =>
      LowOfZero(q.descAddr, val);
      SetDescMoves(q, WithLow(q.descAddr, val), Register(reg, val));
    case QueueDescHigh =>
      HighOfZero(q.descAddr, val);
      SetDescMoves(q, WithHigh(q.descAddr, val), Register(reg, val));
    case QueueAvailLow =>
      LowOfZero(q.availAddr, val);
      SetAvailMoves(q, WithLow(q.availAddr, val), Register(reg, val));
    case QueueAvailHigh =>
      HighOfZero(q.availAddr, val);
      SetAvailMoves(q, WithHigh(q.availAddr, val), Register(reg, val));
    case QueueUsedLow =>
      LowOfZero(q.usedAddr, val);
      SetUsedMoves(q, WithLow(q.usedAddr, val), Register(reg, val));
    case QueueUsedHigh =>
      HighOfZero(q.usedAddr, val);
      SetUsedMoves(q, WithHigh(q.usedAddr, val), Register(reg, val));
  }

  lemma OthersMoveNothing(q: QueueState, q': QueueState, ev: Event)
    requires SameConfiguration(q, q')
    requires !IsReset(ev) && !(ev.Register? && ev.reg.ConfiguresQueue())
    ensures QueueMoves(q, q', ev)
  {
  }

  lemma ResetMoves(q: QueueState, ev: Event)
    requires IsReset(ev)
    ensures QueueMoves(q, ResetQueue(q), ev)
  {
  }

  lemma OthersKeepConfiguration(w: World, ev: Event)
    requires DeviceInv(w.dev)
    requires !IsReset(ev) && !(ev.Register? && ev.reg.ConfiguresQueue())
    ensures |Apply(w, ev).dev.queues| == 1 && SameConfiguration(w.dev.queues[0], Apply(w, ev).dev.queues[0])
  {
    if ev.Register? && ev.reg == QueueNotify {
      NotifyKeepsInv(w, Low16(ev.val));
    }
  }

  lemma OneQueueIsSelected(w: World, ev: Event)
    requires DeviceInv(w.dev)
    requires IsReset(ev) || (ev.Register? && ev.reg.ConfiguresQueue())
    ensures Apply(w, ev).dev.queues ==
            [if IsReset(ev) then ResetQueue(w.dev.queues[0]) else Configure(w.dev.queues[0], ev.reg, ev.val)]
  {
    assert ResetQueues(w.dev.queues) == [ResetQueue(w.dev.queues[0])];
  }

  lemma QueueAfter(w: World, ev: Event)
    requires DeviceInv(w.dev)
    ensures |Apply(w, ev).dev.queues| == 1 && QueueMoves(w.dev.queues[0], Apply(w, ev).dev.queues[0], ev)
  {
    var q := w.dev.queues[0];
    if IsReset(ev) {
      OneQueueIsSelected(w, ev);
      ResetMoves(q, ev);
    } else if ev.Register? && ev.reg.ConfiguresQueue() {
      OneQueueIsSelected(w, ev);
      ConfigureMoves(q, ev.reg, ev.val);
    } else {
      OthersKeepConfiguration(w, ev);
      OthersMoveNothing(q, Apply(w, ev).dev.queues[0], ev);
    }
  }

  lemma PlacedStep(p: Placed, p': Placed, queueSize: nat, events: seq<Event>, low: Reg, high: Reg)
    requires events != [] && queueSize == LastSize(Earlier(events))
    requires PlacedMatches(p, Earlier(events), low, high)
    requires PlacedMoves(p, p', queueSize, Latest(events), low, high)
    ensures PlacedMatches(p', events, low, high)
  {
  }

  lemma QueueStep(q: QueueState, q': QueueState, events: seq<Event>)
    requires events != [] && QueueMatches(q, Earlier(events)) && QueueMoves(q, q', Latest(events))
    ensures QueueMatches(q', events)
  {
    PlacedStep(DescPlaced(q), DescPlaced(q'), q.size, events, QueueDescLow, QueueDescHigh);
    PlacedStep(AvailPlaced(q), AvailPlaced(q'), q.size, events, QueueAvailLow, QueueAvailHigh);
    PlacedStep(UsedPlaced(q), UsedPlaced(q'), q.size, events, QueueUsedLow, QueueUsedHigh);
  }

  /** After any run from power-on, every modelled configuration register holds what its own history says. */
  lemma {:induction false} RegistersAreTheirHistory(w: World, events: seq<Event>)
    requires w.dev == FreshDevice()
    ensures var dev := Run(w, events).dev;
            && DeviceInv(dev) && FeaturesMatch(dev, events)
            && QueueMatches(dev.queues[0], events)
    decreases |events|
  {
    if events == [] {
      FreshSatisfiesInv();
    } else {
      RegistersAreTheirHistory(w, Earlier(events));
      var before := Run(w, Earlier(events));
      ApplyKeepsInv(before, Latest(events));
      FeaturesStep(before, events);
      QueueAfter(before, Latest(events));
      var q, q' := before.dev.queues[0], Apply(before, Latest(events)).dev.queues[0];
      QueueStep(q, q', events);
    }
  }

  lemma FirstNonzeroWins(q: QueueState, val: u32)
    ensures Configure(q, QueueDescLow, val).descAddr == if q.descAddr != 0 then q.descAddr else val
    ensures Configure(q, QueueDescHigh, val).descAddr == if q.descAddr != 0 then q.descAddr else val * 0x1_0000_0000
  {
    LowOfZero(q.descAddr, val);
    HighOfZero(q.descAddr, val);
  }

  /** Address registers are write-once, so the two halves of an address assemble exactly when one of them is zero:
      writing LOW then HIGH (or HIGH then LOW) after a reset gives `high * 2^32 + low` if and only if low or high is
      zero. */
  lemma HalvesAssembleIff(q: QueueState, low: u32, high: u32)
    requires q.descAddr == 0
    ensures var lowFirst := Configure(Configure(q, QueueDescLow, low), QueueDescHigh, high);
            lowFirst.descAddr == high * 0x1_0000_0000 + low <==> low == 0 || high == 0
    ensures var highFirst := Configure(Configure(q, QueueDescHigh, high), QueueDescLow, low);
            highFirst.descAddr == high * 0x1_0000_0000 + low <==> low == 0 || high == 0
  {
    FirstNonzeroWins(q, low);
    FirstNonzeroWins(Configure(q, QueueDescLow, low), high);
    FirstNonzeroWins(q, high);
    FirstNonzeroWins(Configure(q, QueueDescHigh, high), low);
  }

  /** The witness: a table at 0x1_0000_1000 ends up at 0x1000. */
  lemma HighAddressIsLost(q: QueueState)
    requires q.descAddr == 0
    ensures Configure(Configure(q, QueueDescLow, 0x1000), QueueDescHigh, 1).descAddr == 0x1000
  {
  }

  /** Every accepted feature was offered. */
  ghost predicate FeaturesOffered(dev: DeviceState) {
    forall k: nat :: HasBit(dev.driverFeatures, k) ==> HasBit(BLOCK_FEATURES, k)
  }

  /** A nonzero status write stores the value written, bit for bit, but for two bits: when FEATURES_OK is asked for and
      some accepted feature was not offered, FEATURES_OK is withheld and FAILED set. */
  lemma NegotiationOutcome(dev: DeviceState, val: u32, k: nat)
    requires val != 0
    ensures Bit(StatusWrite(dev, val).status, k) ==
            if HasBit(val, FEATURES_OK_BIT) && !FeaturesOffered(dev)
            then (if k == FAILED_BIT then 1 else if k == FEATURES_OK_BIT then 0 else Bit(val, k))
            else Bit(val, k)
    ensures StatusWrite(dev, val) == dev.(status := StatusWrite(dev, val).status)
  {
    AndNotZeroIff(dev.driverFeatures, BLOCK_FEATURES);
    BitOfPow2(FEATURES_OK_BIT, k);
    BitOfAndNot(val, Pow2(FEATURES_OK_BIT), k);
    BitOfSetBit(ClearBit(val, FEATURES_OK_BIT), FAILED_BIT, k);
  }

  /** Acknowledging clears exactly the bits written. */
  lemma AcknowledgeClears(w: World, val: u32, k: nat)
    ensures Bit(RegisterWrite(w, InterruptAck, val).dev.interruptStatus, k) ==
            if HasBit(val, k) then 0 else Bit(w.dev.interruptStatus, k)
  {
    BitOfAndNot(w.dev.interruptStatus, val, k);
  }

  lemma ResetClears(dev: DeviceState, size: u16)
    requires |dev.queues| == 1 && dev.queues[0].size == size && dev.queues[0].maxSize == DEFAULT_QUEUE_SIZE
    requires dev.queues[0].index == 0
    ensures ResetState(dev) == FreshDevice().(queues := [FreshQueue(0, DEFAULT_QUEUE_SIZE).(size := size)])
  {
    assert ResetQueues(dev.queues) == [ResetQueue(dev.queues[0])];
  }

  /** From every reachable state, a reset gives the power-on state, except that the queue keeps its size. */
  lemma ResetRestoresPowerOn(w: World, events: seq<Event>)
    requires w.dev == FreshDevice()
    ensures Run(w, events + [Register(Status, 0)]).dev ==
            FreshDevice().(queues := [FreshQueue(0, DEFAULT_QUEUE_SIZE).(size := LastSize(events))])
  {
    RegistersAreTheirHistory(w, events);
    assert (events + [Register(Status, 0)])[..|events|] == events;
    ResetClears(Run(w, events).dev, LastSize(events));
  }
}
