/** The driver and the device together, over any interleaving: the driver publishes heads, fills memory, rings the
    doorbell, reaps, and accesses other registers; the device serves whole notifications. The 16-bit rings are shown to
    carry two unbounded queues, the published heads and the completed elements, without losing, repeating or
    overwriting any. */
module DriverProtocol {
  import opened Common
  import opened Bytes
  import opened Wire
  import opened Bits
  import opened Memory
  import opened WrappingCounters
  import opened Rings
  import opened Queues
  import opened QueueEngine
  import opened Layout
  import opened BlockDevice
  import opened DeviceRuns
  import opened RegisterHistory
  import opened ChainEffects
  import opened RingContents
  import opened Batches

  /** The machine, every head the driver ever published, and every element it ever read from the used ring. */
  datatype System = System(w: World, published: seq<u16>, got: seq<UsedElem>)

  datatype Action =
    | Publish(head: u16)
    | Fill(addr: nat, data: seq<byte>)
    | Doorbell
    | Reap
    | SetRegister(reg: Reg, val: u32)

  function QueueOf(s: System): QueueState
    requires |s.w.dev.queues| > 0
  {
    s.w.dev.queues[0]
  }

  // ------------------------------------------------------------------ what the driver writes and reads

  predicate AvailShows(bytes: seq<byte>, a: AvailState, c: nat) {
    a.base + 4 <= |bytes| && U16(bytes[a.base + 2..a.base + 4]) == c % 0x1_0000
  }

  /** Where a driver puts published head number `k`: after flags and index, two bytes each (section 2.6.6 of
      VirtIO 1.1). */
  function EntryAt(a: AvailState, k: nat): nat
    requires a.size > 0
  {
    a.base + 4 + 2 * (k % a.size)
  }

  predicate EntryHolds(bytes: seq<byte>, a: AvailState, k: nat, head: u16) {
    a.size > 0 && EntryAt(a, k) + 2 <= |bytes| && U16(bytes[EntryAt(a, k)..EntryAt(a, k) + 2]) == head
  }

  /** Every entry from number `from` on is in its slot. */
  ghost predicate EntriesHold(bytes: seq<byte>, a: AvailState, from: nat, published: seq<u16>) {
    forall k :: from <= k < |published| ==> EntryHolds(bytes, a, k, published[k])
  }

  /** The available ring still carries the published heads from number `from` on, and announces all of them. */
  ghost predicate AvailCarries(bytes: seq<byte>, a: AvailState, from: nat, published: seq<u16>) {
    AvailShows(bytes, a, |published|) && EntriesHold(bytes, a, from, published)
  }

  // ------------------------------------------------------------------ the transition system

  /** A register write that neither rings the queue's doorbell, nor resizes, stops or resets it: interrupt
      acknowledges, selectors, features, repeated configuration. */
  predicate Harmless(q: QueueState, reg: Reg, val: u32) {
    && (reg == QueueNotify ==> Low16(val) != 0)
    && (reg == QueueNum ==> Low16(val) == q.size || !IsRingSize(Low16(val)))
    && (reg == QueueReady ==> val != 0)
    && (reg == Status ==> HasBit(val, DRIVER_OK_BIT))
  }

  ghost predicate Enabled(s: System, act: Action) {
    && |s.w.dev.queues| == 1 && Matched(QueueOf(s))
    && match act
       case Publish(_) => |s.published| < |s.got| + QueueOf(s).size
       case Fill(addr, data) =>
         && Disjoint(Region(addr, |data|), AvailRegion(QueueOf(s)))
         && Disjoint(Region(addr, |data|), UsedRegion(QueueOf(s)))
       case Doorbell =>
         var heads := Pending(EngineOf(s.w, 0));
         Admissible(EngineOf(s.w, 0), heads) && HeadsReachable(s.w.mem, QueueOf(s), heads)
       case Reap => true
       case SetRegister(reg, val) => Harmless(QueueOf(s), reg, val)
  }

  /** The driver's view of the used ring, through its own 16-bit counter: the next element, unless the index says
      there is none. */
  ghost function NextUsed(bytes: seq<byte>, u: UsedState, counter: u16): Option<UsedElem> {
    if u.size == 0 || u.base + 4 > |bytes| then None
    else
      var at := SlotAt(u.base, u.size, counter);
      if at + 8 > |bytes| || U16(bytes[u.base + 2..u.base + 4]) == counter then None
      else Some(UsedElem(U32(bytes[at..at + 4]), U32(bytes[at + 4..at + 8])))
  }

  ghost function Do(s: System, act: Action): System
    requires Enabled(s, act)
  {
    var a, u := QueueOf(s).avail.value, QueueOf(s).used.value;
    match act
    case Publish(head) =>
      var counter := |s.published| % 0x1_0000;
      var w1 := Apply(s.w, GuestStore(EntryAt(a, counter), Le16(head)));
      System(Apply(w1, GuestStore(a.base + 2, Le16(Next(counter)))), s.published + [head], s.got)
    case Fill(addr, data) => s.(w := Apply(s.w, GuestStore(addr, data)))
    case Doorbell => s.(w := Apply(s.w, Register(QueueNotify, 0)))
    case SetRegister(reg, val) => s.(w := Apply(s.w, Register(reg, val)))
    case Reap =>
      match NextUsed(s.w.mem.bytes, u, |s.got| % 0x1_0000)
      case None => s
      case Some(e) => s.(got := s.got + [e])
  }

  ghost predicate AllEnabled(s: System, acts: seq<Action>)
    decreases |acts|
  {
    acts == [] || (Enabled(s, acts[0]) && AllEnabled(Do(s, acts[0]), acts[1..]))
  }

  ghost function Outcomes(s: System, acts: seq<Action>): System
    requires AllEnabled(s, acts)
    decreases |acts|
  {
    if acts == [] then s else Outcomes(Do(s, acts[0]), acts[1..])
  }

  // ------------------------------------------------------------------ the invariant

  ghost function Ids(elems: seq<UsedElem>): (ids: seq<int>)
    ensures |ids| == |elems|
  {
    seq(|elems|, i requires 0 <= i < |elems| => elems[i].id)
  }

  ghost predicate Serving(s: System) {
    && |s.w.dev.queues| == 1
    && HasBit(s.w.dev.status, DRIVER_OK_BIT)
    && Matched(QueueOf(s)) && Sound(EngineOf(s.w, 0), Some(|s.got|))
  }

  /** The rings carry the two unbounded queues. Everything consumed was completed, once; what the driver read is what
      the device completed, in order; what is published and not consumed, or completed and not reaped, is in memory. */
  ghost predicate Refines(s: System) {
    && Serving(s)
    && var a, u := QueueOf(s).avail.value, QueueOf(s).used.value;
    && a.consumed == |u.history| <= |s.published| <= |s.got| + QueueOf(s).size
    && s.got == u.history[..|s.got|]
    && AvailCarries(s.w.mem.bytes, a, a.consumed, s.published)
    && multiset(Ids(u.history)) == multiset(s.published[..|u.history|])
  }

  /** Nothing that was published, completed or read is revised. */
  ghost predicate Progresses(s: System, s': System) {
    && |s.w.dev.queues| == 1 && |s'.w.dev.queues| == 1
    && s.published <= s'.published && s.got <= s'.got
    && Completions(QueueOf(s)) <= Completions(QueueOf(s'))
  }

  function Completions(q: QueueState): seq<UsedElem> {
    if q.used.Some? then q.used.value.history else []
  }

  // ------------------------------------------------------------------ publishing

  lemma EntryStored(bytes: seq<byte>, a: AvailState, from: nat, published: seq<u16>, head: u16)
    requires IsRingSize(a.size) && EntriesHold(bytes, a, from, published)
    requires from <= |published| < from + a.size
    requires a.base + 4 + 2 * a.size <= |bytes|
    ensures EntriesHold(Splice(bytes, EntryAt(a, |published|), Le16(head)), a, from, published + [head])
  {
    var n := |published|;
    var bytes' := Splice(bytes, EntryAt(a, n), Le16(head));
    SpliceReadsBack(bytes, EntryAt(a, n), Le16(head));
    forall k | from <= k < n ensures EntryHolds(bytes', a, k, published[k]) {
      SlotsDistinct(k, n, a.size);
      assert EntryHolds(bytes, a, k, published[k]);
      SpliceElsewhere(bytes, EntryAt(a, n), Le16(head), EntryAt(a, k), 2);
    }
  }

  lemma IndexStored(bytes: seq<byte>, a: AvailState, from: nat, published: seq<u16>, counter: u16)
    requires EntriesHold(bytes, a, from, published) && a.base + 4 <= |bytes|
    ensures EntriesHold(Splice(bytes, a.base + 2, Le16(counter)), a, from, published)
    ensures U16(Splice(bytes, a.base + 2, Le16(counter))[a.base + 2..a.base + 4]) == counter
  {
    SpliceReadsBack(bytes, a.base + 2, Le16(counter));
    forall k | from <= k < |published|
      ensures EntryHolds(Splice(bytes, a.base + 2, Le16(counter)), a, k, published[k])
    {
      assert EntryHolds(bytes, a, k, published[k]);
      SpliceElsewhere(bytes, a.base + 2, Le16(counter), EntryAt(a, k), 2);
    }
  }

  lemma EntryOfCounter(a: AvailState, n: nat)
    requires IsRingSize(a.size)
    ensures EntryAt(a, n % 0x1_0000) == EntryAt(a, n)
  {
    SlotOfCounter(n, a.size);
  }

  /** A new entry overwrites no entry the device has yet to consume. */
  lemma PublishCarries(bytes: seq<byte>, a: AvailState, from: nat, published: seq<u16>, head: u16)
    requires a.base != 0 && IsRingSize(a.size) && AvailCarries(bytes, a, from, published)
    requires from <= |published| < from + a.size
    requires a.base + 4 + 2 * a.size <= |bytes|
    ensures var counter := |published| % 0x1_0000;
            var b1 := Splice(bytes, EntryAt(a, counter), Le16(head));
            AvailCarries(Splice(b1, a.base + 2, Le16(Next(counter))), a, from, published + [head])
  {
    var n := |published|;
    EntryOfCounter(a, n);
    AdvanceCounter(n, 1);
    EntryStored(bytes, a, from, published, head);
    IndexStored(Splice(bytes, EntryAt(a, n), Le16(head)), a, from, published + [head], (n + 1) % 0x1_0000);
  }

  lemma SpliceSameOn(m: Mem, addr: nat, data: seq<byte>, r: Region)
    requires addr + |data| <= |m.bytes| && Disjoint(Region(addr, |data|), r)
    ensures SameOn(m, m.(bytes := Splice(m.bytes, addr, data)), r)
  {
  }

  lemma AvailFrame(m: Mem, m': Mem, a: AvailState, from: nat, published: seq<u16>)
    requires SameOn(m, m', a.Extent()) && AvailCarries(m.bytes, a, from, published)
    ensures AvailCarries(m'.bytes, a, from, published)
  {
    SliceFrame(m, m', a.Extent(), a.base + 2, 2);
    forall k | from <= k < |published| ensures EntryHolds(m'.bytes, a, k, published[k]) {
      assert EntryHolds(m.bytes, a, k, published[k]);
      SliceFrame(m, m', a.Extent(), EntryAt(a, k), 2);
    }
  }

  // ------------------------------------------------------------------ fetching

  lemma FetchStep(m: Mem, q: QueueState, lo: nat, published: seq<u16>)
    requires Matched(q) && RingsMapped(m, q)
    requires AvailCarries(m.bytes, q.avail.value, lo, published) && lo < |published|
    ensures HeadAt(m, q, lo % 0x1_0000) == Ok(published[lo])
  {
    var a := q.avail.value;
    SlotOfCounter(lo, a.size);
    assert EntryHolds(m.bytes, a, lo, published[lo]);
    assert EntryMapped(m, a.base, lo % a.size);
    SmallMod(lo % a.size, a.size);
  }

  /** The device fetches exactly the heads published and not yet consumed, in order, across any wraparound. */
  lemma {:induction false} FetchedArePublished(m: Mem, q: QueueState, lo: nat, published: seq<u16>)
    requires Matched(q) && RingsMapped(m, q)
    requires AvailCarries(m.bytes, q.avail.value, lo, published)
    requires lo <= |published| <= lo + q.size
    ensures Fetched(m, q, lo % 0x1_0000, |published| % 0x1_0000) == published[lo..]
    decreases |published| - lo
  {
    if lo < |published| {
      FetchStep(m, q, lo, published);
      CursorStep(lo, |published|);
      FetchedArePublished(m, q, lo + 1, published);
      assert published[lo..] == [published[lo]] + published[lo + 1..];
    }
  }

  // ------------------------------------------------------------------ conservation of heads

  lemma IdsConcat(a: seq<UsedElem>, b: seq<UsedElem>)
    ensures Ids(a + b) == Ids(a) + Ids(b)
  {
  }

  lemma IdsCons(head: u16, len: u32, rest: seq<UsedElem>)
    ensures multiset(Ids([UsedElem(head, len)] + rest)) == multiset{head as int} + multiset(Ids(rest))
  {
    IdsConcat([UsedElem(head, len)], rest);
    assert Ids([UsedElem(head, len)]) == [head as int];
  }

  lemma PartitionHead(m: Mem, q: QueueState, heads: seq<u16>)
    requires heads != [] && StatusReachable(m, q, heads[0])
    ensures var p, r, rep := ParsedElems(m, q, heads[1..]), RejectedElems(m, q, heads[1..]), Report(m, q, heads[0]);
            && (rep.Some? ==>
                  ParsedElems(m, q, heads) == [UsedElem(heads[0], rep.value)] + p && RejectedElems(m, q, heads) == r)
            && (rep.None? ==>
                  ParsedElems(m, q, heads) == p && RejectedElems(m, q, heads) == [UsedElem(heads[0], 0)] + r)
  {
  }

  lemma HeadCounts(heads: seq<u16>)
    requires heads != []
    ensures multiset(heads) == multiset{heads[0]} + multiset(heads[1..])
  {
    assert heads == [heads[0]] + heads[1..];
  }

  lemma {:induction false} PartitionCounts(m: Mem, q: QueueState, heads: seq<u16>)
    requires HeadsReachable(m, q, heads)
    ensures multiset(Ids(ParsedElems(m, q, heads))) + multiset(Ids(RejectedElems(m, q, heads))) == multiset(heads)
  {
    if heads == [] {
    } else {
      ReachableSplit(m, q, heads);
      PartitionCounts(m, q, heads[1..]);
      PartitionHead(m, q, heads);
      HeadCounts(heads);
      var rep := Report(m, q, heads[0]);
      if rep.Some? {
        IdsCons(heads[0], rep.value, ParsedElems(m, q, heads[1..]));
      } else {
        IdsCons(heads[0], 0, RejectedElems(m, q, heads[1..]));
      }
    }
  }

  /** The elements a batch appends name its heads, each as often as it was fetched. */
  lemma PartitionKeepsHeads(m: Mem, q: QueueState, heads: seq<u16>)
    requires HeadsReachable(m, q, heads)
    ensures multiset(Ids(ParsedElems(m, q, heads) + RejectedElems(m, q, heads))) == multiset(heads)
  {
    PartitionCounts(m, q, heads);
    IdsConcat(ParsedElems(m, q, heads), RejectedElems(m, q, heads));
  }

  // ------------------------------------------------------------------ every step keeps the invariant

  /** A guest store clear of the used ring keeps the device's own picture. */
  lemma StoreKeepsServing(s: System, addr: nat, data: seq<byte>)
    requires Serving(s) && Disjoint(Region(addr, |data|), UsedRegion(QueueOf(s)))
    ensures Serving(s.(w := Apply(s.w, GuestStore(addr, data))))
  {
    if addr + |data| <= |s.w.mem.bytes| {
      var u := QueueOf(s).used.value;
      var m' := s.w.mem.(bytes := Splice(s.w.mem.bytes, addr, data));
      SpliceSameOn(s.w.mem, addr, data, u.Extent());
      RingFrame(s.w.mem, m', u, |s.got|);
      MappedFrame(s.w.mem, m', QueueOf(s), QueueOf(s));
    }
  }

  lemma FillKeeps(s: System, addr: nat, data: seq<byte>)
    requires Refines(s) && Enabled(s, Fill(addr, data))
    ensures Refines(Do(s, Fill(addr, data))) && Progresses(s, Do(s, Fill(addr, data)))
  {
    StoreKeepsServing(s, addr, data);
    if addr + |data| <= |s.w.mem.bytes| {
      var m' := s.w.mem.(bytes := Splice(s.w.mem.bytes, addr, data));
      var a := QueueOf(s).avail.value;
      SpliceSameOn(s.w.mem, addr, data, a.Extent());
      AvailFrame(s.w.mem, m', a, a.consumed, s.published);
    }
  }

  lemma InsideAvail(q: QueueState, addr: nat, n: nat)
    requires Wired(q) && RingsApart(q) && Within(Region(addr, n), AvailRegion(q))
    ensures Disjoint(Region(addr, n), UsedRegion(q))
  {
  }

  lemma AvailInBounds(m: Mem, q: QueueState)
    requires Matched(q) && RingsMapped(m, q)
    ensures q.avail.value.base + 4 + 2 * q.size <= |m.bytes|
  {
    assert EntryMapped(m, q.avail.value.base, q.size - 1);
  }

  lemma PublishKeepsServing(s: System, head: u16)
    requires Refines(s) && Enabled(s, Publish(head))
    ensures var s' := Do(s, Publish(head)); Serving(s') && QueueOf(s') == QueueOf(s)
  {
    var q := QueueOf(s);
    var a := q.avail.value;
    var counter := |s.published| % 0x1_0000;
    var at := EntryAt(a, counter);
    InsideAvail(q, at, 2);
    InsideAvail(q, a.base + 2, 2);
    StoreKeepsServing(s, at, Le16(head));
    var s1 := s.(w := Apply(s.w, GuestStore(at, Le16(head))));
    StoreKeepsServing(s1, a.base + 2, Le16(Next(counter)));
  }

  lemma PublishKeeps(s: System, head: u16)
    requires Refines(s) && Enabled(s, Publish(head))
    ensures Refines(Do(s, Publish(head))) && Progresses(s, Do(s, Publish(head)))
  {
    var a := QueueOf(s).avail.value;
    PublishKeepsServing(s, head);
    AvailInBounds(s.w.mem, QueueOf(s));
    PublishCarries(s.w.mem.bytes, a, a.consumed, s.published, head);
    assert (s.published + [head])[..a.consumed] == s.published[..a.consumed];
  }

  /** What the driver reads is the next completion it has not read, and it reads nothing exactly when there is none. */
  lemma ReapReadsNext(s: System)
    requires Refines(s)
    ensures var u := QueueOf(s).used.value;
            NextUsed(s.w.mem.bytes, u, |s.got| % 0x1_0000) ==
            if |s.got| == |u.history| then None else Some(u.history[|s.got|])
  {
    var u := QueueOf(s).used.value;
    var n := |s.got|;
    DistanceOfCounters(n, |u.history|);
    SlotOfCounter(n, u.size);
    assert ElemMapped(s.w.mem, u.base, n % u.size);
    if n < |u.history| {
      assert Holds(s.w.mem.bytes, u, n, u.history[n]);
    }
  }

  lemma ReapKeeps(s: System)
    requires Refines(s) && Enabled(s, Reap)
    ensures Refines(Do(s, Reap)) && Progresses(s, Do(s, Reap))
  {
    ReapReadsNext(s);
    var u := QueueOf(s).used.value;
    if |s.got| < |u.history| {
      assert u.history[..|s.got| + 1] == u.history[..|s.got|] + [u.history[|s.got|]];
    }
  }

  lemma HeldElem(bytes: seq<byte>, u: UsedState, k: nat, e: UsedElem)
    requires Holds(bytes, u, k, e)
    ensures ElemBytes(bytes, u.base + 4 + 8 * (k % u.size), e)
  {
    ReadsAt(bytes, SlotAt(u.base, u.size, k));
    ReadsAt(bytes, SlotAt(u.base, u.size, k) + 4);
  }

  lemma ShownIndex(bytes: seq<byte>, u: UsedState, c: nat)
    requires IndexShows(bytes, u, c)
    ensures Word16(bytes, u.base + 2) == c % 0x1_0000
  {
    ReadsAt(bytes, u.base + 2);
  }

  lemma HeldEntry(bytes: seq<byte>, a: AvailState, k: nat, head: u16)
    requires EntryHolds(bytes, a, k, head)
    ensures Word16(bytes, a.base + 4 + 2 * (k % a.size)) == head
  {
    ReadsAt(bytes, EntryAt(a, k));
  }

  /** Byte by byte: the word at offset 2 of the used ring counts the completions, and each not yet read is in the eight
      bytes of its slot. */
  lemma CompletionBytes(s: System, k: nat)
    requires Refines(s) && |s.got| <= k < |QueueOf(s).used.value.history|
    ensures var bytes, u := s.w.mem.bytes, QueueOf(s).used.value;
            && u.base + 4 <= |bytes| && Word16(bytes, u.base + 2) == |u.history| % 0x1_0000
            && ElemBytes(bytes, u.base + 4 + 8 * (k % u.size), u.history[k])
  {
    var bytes, u := s.w.mem.bytes, QueueOf(s).used.value;
    assert Holds(bytes, u, k, u.history[k]);
    HeldElem(bytes, u, k, u.history[k]);
    ShownIndex(bytes, u, |u.history|);
  }

  /** The word at offset 2 of the available ring counts the published heads, and each not yet consumed is in the two bytes
      of its slot. */
  lemma PublishedBytes(s: System, k: nat)
    requires Refines(s) && QueueOf(s).avail.value.consumed <= k < |s.published|
    ensures var bytes, a := s.w.mem.bytes, QueueOf(s).avail.value;
            && a.base + 6 + 2 * (k % a.size) <= |bytes| && Word16(bytes, a.base + 2) == |s.published| % 0x1_0000
            && Word16(bytes, a.base + 4 + 2 * (k % a.size)) == s.published[k]
  {
    var bytes, a := s.w.mem.bytes, QueueOf(s).avail.value;
    assert EntryHolds(bytes, a, k, s.published[k]);
    HeldEntry(bytes, a, k, s.published[k]);
    ReadsAt(bytes, a.base + 2);
  }

  lemma DoorbellServes(s: System)
    requires Serving(s)
    ensures Apply(s.w, Register(QueueNotify, 0)) == WithEngine(s.w, 0, ProcessQueue(EngineOf(s.w, 0)))
  {
  }

  /** At a doorbell the pending heads are the published heads that were not consumed. */
  lemma PendingIsUnconsumed(s: System)
    requires Refines(s)
    ensures QueueAvailIdx(s.w.mem, QueueOf(s)) == Ok(|s.published| % 0x1_0000)
    ensures Pending(EngineOf(s.w, 0)) == s.published[QueueOf(s).avail.value.consumed..]
  {
    FetchedArePublished(s.w.mem, QueueOf(s), QueueOf(s).avail.value.consumed, s.published);
  }

  lemma ConsumeReaches(a: AvailState, n: nat)
    requires a.last == a.consumed % 0x1_0000 && a.consumed <= n < a.consumed + 0x1_0000
    ensures Consume(a, n % 0x1_0000).consumed == n
  {
    DistanceOfCounters(a.consumed, n);
  }

  lemma ServedRefines(s: System, e': Engine)
    requires Refines(s) && Sound(e', Some(|s.got|)) && Matched(e'.queue)
    requires e'.queue.avail.value == Consume(QueueOf(s).avail.value, |s.published| % 0x1_0000)
    requires SameOn(s.w.mem, e'.mem, AvailRegion(QueueOf(s)))
    requires var h, h' := QueueOf(s).used.value.history, e'.queue.used.value.history;
             h <= h' && |h'| == |s.published| && multiset(Ids(h')) == multiset(s.published)
    ensures var s' := s.(w := WithEngine(s.w, 0, e'));
            && Refines(s') && QueueOf(s') == e'.queue
            && QueueOf(s').avail.value.consumed == |s.published|
  {
    var a := QueueOf(s).avail.value;
    ConsumeReaches(a, |s.published|);
    AvailFrame(s.w.mem, e'.mem, a, a.consumed, s.published);
    assert s.published[..|s.published|] == s.published;
    assert EngineOf(WithEngine(s.w, 0, e'), 0) == e';
  }

  lemma DoorbellAdvances(s: System) returns (e': Engine)
    requires Refines(s) && Enabled(s, Doorbell)
    ensures e' == ProcessQueue(EngineOf(s.w, 0)) && Do(s, Doorbell) == s.(w := WithEngine(s.w, 0, e'))
    ensures Sound(e', Some(|s.got|)) && Matched(e'.queue) && CompletesPending(EngineOf(s.w, 0), e')
    ensures QueueAvailIdx(s.w.mem, QueueOf(s)) == Ok(|s.published| % 0x1_0000)
    ensures Pending(EngineOf(s.w, 0)) == s.published[QueueOf(s).avail.value.consumed..]
  {
    var e := EngineOf(s.w, 0);
    PendingIsUnconsumed(s);
    ElemsLen(e.mem, e.queue, Pending(e));
    NotificationAdvances(e, Some(|s.got|));
    DoorbellServes(s);
    e' := ProcessQueue(e);
  }

  /** A doorbell completes every outstanding head exactly once: first the requests in the order published, with the
      lengths they report, then the unparsable heads in the order published, with length zero. */
  lemma DoorbellKeeps(s: System)
    requires Refines(s) && Enabled(s, Doorbell)
    ensures var s' := Do(s, Doorbell);
            var q, heads := QueueOf(s), s.published[QueueOf(s).avail.value.consumed..];
            && Refines(s') && Progresses(s, s')
            && QueueOf(s').avail.value.consumed == |s.published|
            && QueueOf(s').used.value.history ==
               q.used.value.history + (ParsedElems(s.w.mem, q, heads) + RejectedElems(s.w.mem, q, heads))
  {
    var q, e := QueueOf(s), EngineOf(s.w, 0);
    var e' := DoorbellAdvances(s);
    CountsAfter(e.mem, q, s.published, q.avail.value.consumed, q.used.value.history, e'.queue.used.value.history);
    ServedRefines(s, e');
  }

  lemma CountsAfter(m: Mem, q: QueueState, published: seq<u16>, c: nat, history: seq<UsedElem>, history': seq<UsedElem>)
    requires c <= |published| && |history| == c && HeadsReachable(m, q, published[c..])
    requires multiset(Ids(history)) == multiset(published[..c])
    requires history' == history + (ParsedElems(m, q, published[c..]) + RejectedElems(m, q, published[c..]))
    ensures multiset(Ids(history')) == multiset(published) && |history'| == |published|
    ensures history <= history'
  {
    var added := ParsedElems(m, q, published[c..]) + RejectedElems(m, q, published[c..]);
    ElemsLen(m, q, published[c..]);
    PartitionKeepsHeads(m, q, published[c..]);
    IdsConcat(history, added);
    assert published == published[..c] + published[c..];
  }

  lemma HarmlessLeavesQueue(q: QueueState, reg: Reg, val: u32)
    requires Wired(q) && Harmless(q, reg, val)
    ensures Configure(q, reg, val) == q
  {
    if reg == QueueNum {
      AcceptedSizes(q, Low16(val));
    }
  }

  lemma StatusKeepsDriverOk(dev: DeviceState, val: u32)
    requires HasBit(val, DRIVER_OK_BIT)
    ensures StatusWrite(dev, val) == dev.(status := StatusWrite(dev, val).status)
    ensures HasBit(StatusWrite(dev, val).status, DRIVER_OK_BIT)
  {
    BitOfZero(DRIVER_OK_BIT);
    NegotiationOutcome(dev, val, DRIVER_OK_BIT);
  }

  /** A harmless register write changes nothing of the memory, the disk or the queue. */
  lemma HarmlessIsQuiet(w: World, reg: Reg, val: u32)
    requires |w.dev.queues| == 1 && Wired(w.dev.queues[0]) && HasBit(w.dev.status, DRIVER_OK_BIT)
    requires Harmless(w.dev.queues[0], reg, val)
    ensures var w' := Apply(w, Register(reg, val));
            && w'.mem == w.mem && w'.disk == w.disk && w'.dev.queues == w.dev.queues
            && HasBit(w'.dev.status, DRIVER_OK_BIT)
  {
    if reg == Status {
      StatusKeepsDriverOk(w.dev, val);
    } else if reg.ConfiguresQueue() {
      HarmlessLeavesQueue(w.dev.queues[0], reg, val);
    }
  }

  lemma SetRegisterKeeps(s: System, reg: Reg, val: u32)
    requires Refines(s) && Enabled(s, SetRegister(reg, val))
    ensures Refines(Do(s, SetRegister(reg, val))) && Progresses(s, Do(s, SetRegister(reg, val)))
  {
    HarmlessIsQuiet(s.w, reg, val);
  }

  lemma StepKeeps(s: System, act: Action)
    requires Refines(s) && Enabled(s, act)
    ensures Refines(Do(s, act)) && Progresses(s, Do(s, act))
  {
    match act
    case Publish(head) => PublishKeeps(s, head);
    case Fill(addr, data) => FillKeeps(s, addr, data);
    case Doorbell => DoorbellKeeps(s);
    case Reap => ReapKeeps(s);
    case SetRegister(reg, val) => SetRegisterKeeps(s, reg, val);
  }

  // ------------------------------------------------------------------ whole runs

  /** The main theorem. Over every interleaving of publishing, memory traffic, doorbells and reaping in which the
      driver keeps at most `size` heads outstanding and rings with admissible chains, the rings refine two unbounded
      queues, the device's two 16-bit counters agree, and what was published, completed and read is never revised. */
  lemma {:induction false} RunsRefine(s: System, acts: seq<Action>)
    requires Refines(s) && AllEnabled(s, acts)
    ensures Refines(Outcomes(s, acts)) && Progresses(s, Outcomes(s, acts))
    ensures QueueOf(Outcomes(s, acts)).used.value.idx == QueueOf(Outcomes(s, acts)).avail.value.last
    decreases |acts|
  {
    if acts != [] {
      StepKeeps(s, acts[0]);
      RunsRefine(Do(s, acts[0]), acts[1..]);
    }
  }

  /** In particular, after any run that ends with a doorbell, the completions are the publications, each exactly once. */
  lemma ExactlyOnce(s: System, acts: seq<Action>)
    requires Refines(s) && AllEnabled(s, acts) && Enabled(Outcomes(s, acts), Doorbell)
    ensures var s' := Do(Outcomes(s, acts), Doorbell);
            && |QueueOf(s').used.value.history| == |s'.published|
            && multiset(Ids(QueueOf(s').used.value.history)) == multiset(s'.published)
  {
    RunsRefine(s, acts);
    var s1 := Outcomes(s, acts);
    DoorbellKeeps(s1);
    assert s1.published[..|s1.published|] == s1.published;
  }

  function Reaps(n: nat): seq<Action> {
    seq(n, _ => Reap)
  }

  lemma OneMoreReap(s: System, n: nat)
    requires n > 0 && Enabled(s, Reap) && AllEnabled(Do(s, Reap), Reaps(n - 1))
    ensures AllEnabled(s, Reaps(n)) && Outcomes(s, Reaps(n)) == Outcomes(Do(s, Reap), Reaps(n - 1))
  {
    assert Reaps(n)[0] == Reap && Reaps(n)[1..] == Reaps(n - 1);
  }

  lemma ReapTakesNext(s: System)
    requires Refines(s) && |s.got| < |QueueOf(s).used.value.history|
    ensures Enabled(s, Reap) && Refines(Do(s, Reap)) && Do(s, Reap).w == s.w
    ensures |Do(s, Reap).got| == |s.got| + 1
  {
    ReapReadsNext(s);
    ReapKeeps(s);
  }

  /** And nothing completed is out of the driver's reach: reaping as often as there are unread completions reads them
      all, in order. */
  lemma {:induction false} ReapingReadsEverything(s: System)
    requires Refines(s)
    ensures var n := |QueueOf(s).used.value.history| - |s.got|;
            && AllEnabled(s, Reaps(n))
            && Outcomes(s, Reaps(n)).got == QueueOf(s).used.value.history
    decreases |QueueOf(s).used.value.history| - |s.got|
  {
    var u := QueueOf(s).used.value;
    var n := |u.history| - |s.got|;
    if n == 0 {
      assert u.history[..|s.got|] == u.history;
    } else {
      ReapTakesNext(s);
      ReapingReadsEverything(Do(s, Reap));
      OneMoreReap(s, n);
    }
  }
}
