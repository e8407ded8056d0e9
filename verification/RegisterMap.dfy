/** What a driver's writes to the MMIO region do, register by register, at the offsets of section 4.2.2 of VirtIO 1.1: each
    as a change of the device's fields, in every reachable state. */
module RegisterMap {
  import opened Common
  import opened Bytes
  import opened WrappingCounters
  import opened Bits
  import opened Descriptors
  import opened Rings
  import opened Queues
  import opened QueueEngine
  import opened BlockDevice
  import opened DeviceRuns
  import opened RegisterHistory

  /** Where the device sits: a region that does not wrap around the address space. */
  datatype Window = Window(base: u64, length: u64) {
    predicate Fits() { base + length <= 0x1_0000_0000_0000_0000 }
  }

  /** After a 32-bit write of `val` at `offset`. */
  function Written(w: World, p: Window, offset: nat, val: u64): World
    requires p.Fits() && offset < p.length
  {
    MmioEffect(w, p.base, p.length, p.base + offset, Dword, val).0
  }

  /** The one queue of a reachable device. */
  function TheQueue(w: World): QueueState
    requires DeviceInv(w.dev)
  {
    w.dev.queues[0]
  }

  function WithTheQueue(w: World, q: QueueState): World { w.(dev := w.dev.(queues := [q])) }

  lemma OffsetIsInside(p: Window, offset: nat, width: AccessWidth)
    requires p.Fits() && offset < p.length
    ensures InRange(p.base, p.length, p.base + offset) && WrappedOffset(p.base, p.base + offset) == offset
    ensures Reached(p.base, p.length, p.base + offset, width) == if width == Dword then Decode(offset) else None
    ensures Dropped(p.base, p.length, p.base + offset, width) <==> offset < CONFIG_OFFSET && width != Dword
  {
  }

  // ------------------------------------------------------------------ selectors and features

  lemma DeviceFeaturesSelAt014(w: World, p: Window, val: u64)
    requires p.Fits() && p.length > 0x014
    ensures Written(w, p, 0x014, val) == w.(dev := w.dev.(deviceFeaturesSel := val % 0x1_0000_0000))
  {
    OffsetIsInside(p, 0x014, Dword);
  }

  /** The half that DRIVER_FEATURES_SEL names is replaced; other selectors do nothing. */
  lemma DriverFeaturesAt020(w: World, p: Window, val: u64)
    requires p.Fits() && p.length > 0x020
    ensures var f, v := w.dev.driverFeatures, val % 0x1_0000_0000;
            var f' := if w.dev.driverFeaturesSel == 0 then f / 0x1_0000_0000 * 0x1_0000_0000 + v
                      else if w.dev.driverFeaturesSel == 1 then v * 0x1_0000_0000 + f % 0x1_0000_0000
                      else f;
            Written(w, p, 0x020, val) == w.(dev := w.dev.(driverFeatures := f'))
  {
    OffsetIsInside(p, 0x020, Dword);
  }

  lemma DriverFeaturesSelAt024(w: World, p: Window, val: u64)
    requires p.Fits() && p.length > 0x024
    ensures Written(w, p, 0x024, val) == w.(dev := w.dev.(driverFeaturesSel := val % 0x1_0000_0000))
  {
    OffsetIsInside(p, 0x024, Dword);
  }

  /** The low 16 bits select a queue, if there is one of that number. */
  lemma QueueSelAt030(w: World, p: Window, val: u64)
    requires p.Fits() && p.length > 0x030
    ensures var n := val % 0x1_0000;
            Written(w, p, 0x030, val) ==
            w.(dev := w.dev.(queueSel := if n < |w.dev.queues| then n else w.dev.queueSel))
  {
    OffsetIsInside(p, 0x030, Dword);
    LowOfLow(val);
  }

  // ------------------------------------------------------------------ the queue

  lemma {:induction false} RingSizes(n: nat)
    requires 0 < n <= 256
    ensures IsPowerOfTwo(n) <==> n in {1, 2, 4, 8, 16, 32, 64, 128, 256}
  {
    if n > 1 && n % 2 == 0 {
      RingSizes(n / 2);
    }
  }

  lemma ConfiguresTheQueue(w: World, p: Window, offset: nat, val: u64, reg: Reg)
    requires DeviceInv(w.dev) && p.Fits() && offset < p.length && Decode(offset) == Some(reg) && reg.ConfiguresQueue()
    ensures Written(w, p, offset, val) == WithTheQueue(w, Configure(TheQueue(w), reg, val % 0x1_0000_0000))
  {
    OffsetIsInside(p, offset, Dword);
    var q' := Configure(TheQueue(w), reg, val % 0x1_0000_0000);
    assert w.dev.queues[0 := q'] == [q'];
  }

  /** The low 16 bits become the size if they are one of the nine powers of two up to 256. */
  lemma QueueNumAt038(w: World, p: Window, val: u64)
    requires DeviceInv(w.dev) && p.Fits() && p.length > 0x038
    ensures Written(w, p, 0x038, val) ==
            if val % 0x1_0000 in {1, 2, 4, 8, 16, 32, 64, 128, 256}
            then WithTheQueue(w, TheQueue(w).(size := val % 0x1_0000)) else w
  {
    ConfiguresTheQueue(w, p, 0x038, val, QueueNum);
    var n: nat := val % 0x1_0000;
    LowOfLow(val);
    AcceptedSizes(TheQueue(w), n);
    if 0 < n <= 256 {
      RingSizes(n);
    }
    assert WithTheQueue(w, TheQueue(w)) == w;
  }

  lemma LowOfLow(val: u64)
    ensures val % 0x1_0000_0000 % 0x1_0000 == val % 0x1_0000
  {
  }

  lemma QueueReadyAt044(w: World, p: Window, val: u64)
    requires DeviceInv(w.dev) && p.Fits() && p.length > 0x044
    ensures Written(w, p, 0x044, val) == WithTheQueue(w, TheQueue(w).(ready := val % 0x1_0000_0000 != 0))
  {
    ConfiguresTheQueue(w, p, 0x044, val, QueueReady);
  }

  /** What an address register does to the queue: while the address is zero, a nonzero value becomes the address, and a
      table or ring of the present size appears there; otherwise nothing happens. */
  ghost function DescPlacedAt(q: QueueState, addr: u64): QueueState {
    if q.descAddr == 0 && addr != 0 then q.(descAddr := addr, desc := Some(DescriptorTable(addr, q.size))) else q
  }

  lemma DescPlaces(q: QueueState, v: u32)
    ensures Configure(q, QueueDescLow, v) == DescPlacedAt(q, v)
    ensures Configure(q, QueueDescHigh, v) == DescPlacedAt(q, v * 0x1_0000_0000)
  {
    LowOfZero(q.descAddr, v);
    HighOfZero(q.descAddr, v);
  }

  ghost function AvailPlacedAt(q: QueueState, addr: u64): QueueState {
    if q.availAddr == 0 && addr != 0 then q.(availAddr := addr, avail := Some(AvailState(addr, q.size, 0, 0))) else q
  }

  lemma AvailPlaces(q: QueueState, v: u32)
    ensures Configure(q, QueueAvailLow, v) == AvailPlacedAt(q, v)
    ensures Configure(q, QueueAvailHigh, v) == AvailPlacedAt(q, v * 0x1_0000_0000)
  {
    LowOfZero(q.availAddr, v);
    HighOfZero(q.availAddr, v);
  }

  ghost function UsedPlacedAt(q: QueueState, addr: u64): QueueState {
    if q.usedAddr == 0 && addr != 0 then q.(usedAddr := addr, used := Some(UsedState(addr, q.size, 0, []))) else q
  }

  lemma UsedPlaces(q: QueueState, v: u32)
    ensures Configure(q, QueueUsedLow, v) == UsedPlacedAt(q, v)
    ensures Configure(q, QueueUsedHigh, v) == UsedPlacedAt(q, v * 0x1_0000_0000)
  {
    LowOfZero(q.usedAddr, v);
    HighOfZero(q.usedAddr, v);
  }

  /** The low half of an address is its low 32 bits, the high half the next 32. */
  lemma DescAt080And084(w: World, p: Window, val: u64)
    requires DeviceInv(w.dev) && p.Fits() && p.length > 0x084
    ensures var q, v := TheQueue(w), val % 0x1_0000_0000;
            && Written(w, p, 0x080, val) == WithTheQueue(w, DescPlacedAt(q, v))
            && Written(w, p, 0x084, val) == WithTheQueue(w, DescPlacedAt(q, v * 0x1_0000_0000))
  {
    ConfiguresTheQueue(w, p, 0x080, val, QueueDescLow);
    ConfiguresTheQueue(w, p, 0x084, val, QueueDescHigh);
    DescPlaces(TheQueue(w), val % 0x1_0000_0000);
  }

  lemma AvailAt090And094(w: World, p: Window, val: u64)
    requires DeviceInv(w.dev) && p.Fits() && p.length > 0x094
    ensures var q, v := TheQueue(w), val % 0x1_0000_0000;
            && Written(w, p, 0x090, val) == WithTheQueue(w, AvailPlacedAt(q, v))
            && Written(w, p, 0x094, val) == WithTheQueue(w, AvailPlacedAt(q, v * 0x1_0000_0000))
  {
    ConfiguresTheQueue(w, p, 0x090, val, QueueAvailLow);
    ConfiguresTheQueue(w, p, 0x094, val, QueueAvailHigh);
    AvailPlaces(TheQueue(w), val % 0x1_0000_0000);
  }

  lemma UsedAt0A0And0A4(w: World, p: Window, val: u64)
    requires DeviceInv(w.dev) && p.Fits() && p.length > 0x0a4
    ensures var q, v := TheQueue(w), val % 0x1_0000_0000;
            && Written(w, p, 0x0a0, val) == WithTheQueue(w, UsedPlacedAt(q, v))
            && Written(w, p, 0x0a4, val) == WithTheQueue(w, UsedPlacedAt(q, v * 0x1_0000_0000))
  {
    ConfiguresTheQueue(w, p, 0x0a0, val, QueueUsedLow);
    ConfiguresTheQueue(w, p, 0x0a4, val, QueueUsedHigh);
    UsedPlaces(TheQueue(w), val % 0x1_0000_0000);
  }

  // ------------------------------------------------------------------ notification, acknowledge, status

  lemma BitTwo(v: nat)
    ensures HasBit(v, 2) <==> v / 4 % 2 == 1
    ensures HasBit(v, 3) <==> v / 8 % 2 == 1
    ensures HasBit(v, 7) <==> v / 128 % 2 == 1
  {
    BitAsDivision(v, 2);
    BitAsDivision(v, 3);
    BitAsDivision(v, 7);
    assert Pow2(2) == 4 && Pow2(3) == 8 && Pow2(7) == 128;
  }

  /** The low 16 bits name the queue; the doorbell of queue 0 is served exactly when status bit 2 is set, the queue is ready
      and its three addresses are nonzero. */
  lemma QueueNotifyAt050(w: World, p: Window, val: u64)
    requires DeviceInv(w.dev) && p.Fits() && p.length > 0x050
    ensures var q := TheQueue(w);
            Written(w, p, 0x050, val) ==
            if val % 0x1_0000 == 0 && w.dev.status / 4 % 2 == 1
               && q.ready && q.descAddr != 0 && q.availAddr != 0 && q.usedAddr != 0
            then WithEngine(w, 0, ProcessQueue(EngineOf(w, 0))) else w
  {
    OffsetIsInside(p, 0x050, Dword);
    LowOfLow(val);
    BitTwo(w.dev.status);
  }

  /** Bit 0 of the interrupt status is cleared exactly when bit 0 is written. */
  lemma InterruptAckAt064(w: World, p: Window, val: u64)
    requires DeviceInv(w.dev) && p.Fits() && p.length > 0x064
    ensures var irq := w.dev.interruptStatus;
            Written(w, p, 0x064, val) == w.(dev := w.dev.(interruptStatus := if val % 2 == 1 then 0 else irq))
  {
    OffsetIsInside(p, 0x064, Dword);
    AckValue(w.dev.interruptStatus, val);
  }

  lemma AckValue(irq: u32, val: u64)
    requires irq <= 1
    ensures BitAndNot(irq, val % 0x1_0000_0000) == if val % 2 == 1 then 0 else irq
  {
    AckStaysBit(irq, val % 0x1_0000_0000);
  }

  /** The weights of the numbered bits, added up. */
  function SumOf(bits: seq<nat>): nat {
    if bits == [] then 0 else SumOf(bits[..|bits| - 1]) + Pow2(bits[|bits| - 1])
  }

  lemma {:induction false} BitsOfSum(bits: seq<nat>, k: nat)
    requires forall i, j :: 0 <= i < j < |bits| ==> bits[i] != bits[j]
    ensures HasBit(SumOf(bits), k) <==> k in bits
  {
    if bits == [] {
      BitOfZero(k);
    } else {
      var init, last := bits[..|bits| - 1], bits[|bits| - 1];
      BitsOfSum(init, last);
      BitsOfSum(init, k);
      BitOfSetBit(SumOf(init), last, k);
      assert bits == init + [last];
    }
  }

  /** The device offers features 1, 2, 6 and 9 (SIZE_MAX, SEG_MAX, BLK_SIZE, FLUSH), 29 (EVENT_IDX) and 32 (VERSION_1). */
  function OfferedFeatures(): seq<nat> { [1, 2, 6, 9, 29, 32] }

  lemma FeaturesAreOffered(k: nat)
    ensures HasBit(BLOCK_FEATURES, k) <==> k in OfferedFeatures()
  {
    BitsOfSum(OfferedFeatures(), k);
    FeatureWeights();
    SumOfSix(1, 2, 6, 9, 29, 32);
  }

  lemma SumOfLonger(bits: seq<nat>, k: nat)
    ensures SumOf(bits + [k]) == SumOf(bits) + Pow2(k)
  {
    assert (bits + [k])[..|bits|] == bits;
  }

  lemma SumOfSix(a: nat, b: nat, c: nat, d: nat, e: nat, f: nat)
    ensures SumOf([a, b, c, d, e, f]) == Pow2(a) + Pow2(b) + Pow2(c) + Pow2(d) + Pow2(e) + Pow2(f)
  {
    SumOfLonger([], a);
    assert [] + [a] == [a];
    SumOfLonger([a], b);
    SumOfLonger([a, b], c);
    SumOfLonger([a, b, c], d);
    SumOfLonger([a, b, c, d], e);
    SumOfLonger([a, b, c, d, e], f);
    assert [a] + [b] == [a, b] && [a, b] + [c] == [a, b, c] && [a, b, c] + [d] == [a, b, c, d];
    assert [a, b, c, d] + [e] == [a, b, c, d, e] && [a, b, c, d, e] + [f] == [a, b, c, d, e, f];
  }

  lemma FeatureWeights()
    ensures Pow2(1) == 2 && Pow2(2) == 4 && Pow2(6) == 64 && Pow2(9) == 512
    ensures Pow2(29) == 0x2000_0000 && Pow2(32) == 0x1_0000_0000
  {
    assert Pow2(6) == 64 && Pow2(9) == 512;
    Pow2Adds(9, 9);
    Pow2Adds(18, 9);
    Pow2Adds(27, 2);
    Pow2Adds(29, 3);
  }

  /** The driver accepted a feature that is not offered. */
  ghost predicate AcceptsTooMuch(features: u64) {
    exists k: nat :: HasBit(features, k) && k !in OfferedFeatures()
  }

  lemma TooMuchIsLeftOver(features: u64)
    ensures BitAndNot(features, BLOCK_FEATURES) != 0 <==> AcceptsTooMuch(features)
  {
    AndNotZeroIff(features, BLOCK_FEATURES);
    forall k: nat ensures HasBit(BLOCK_FEATURES, k) <==> k in OfferedFeatures() {
      FeaturesAreOffered(k);
    }
  }

  /** FEATURES_OK (8) taken away and FAILED (128) added. */
  lemma RefusedValue(v: nat)
    requires v / 8 % 2 == 1
    ensures SetBit(ClearBit(v, 3), 7) == v - 8 + if v / 128 % 2 == 1 then 0 else 128
  {
    BitTwo(v);
    ClearBitValue(v, 3);
    assert Pow2(3) == 8 && Pow2(7) == 128;
    BitOfPow2(3, 7);
    BitOfAndNot(v, Pow2(3), 7);
  }

  /** Zero resets every register and empties the queue, which keeps its size. */
  lemma ZeroAt070(w: World, p: Window, val: u64)
    requires DeviceInv(w.dev) && p.Fits() && p.length > 0x070 && val % 0x1_0000_0000 == 0
    ensures Written(w, p, 0x070, val) ==
            w.(dev := DeviceState(0, 0, 0, 0, 0,
                                  [QueueState(0, TheQueue(w).size, 256, false, 0, 0, 0, None, None, None, 0, 0)], 0, 0))
  {
    OffsetIsInside(p, 0x070, Dword);
    assert ResetQueues(w.dev.queues) == [ResetQueue(TheQueue(w))];
  }

  /** Any other value is stored, but with FEATURES_OK withheld and FAILED set if FEATURES_OK is asked for and some accepted
      feature is not offered. */
  lemma StatusAt070(w: World, p: Window, val: u64)
    requires p.Fits() && p.length > 0x070 && val % 0x1_0000_0000 != 0
    ensures var v := val % 0x1_0000_0000;
            var stored := if v / 8 % 2 == 1 && AcceptsTooMuch(w.dev.driverFeatures)
                          then v - 8 + (if v / 128 % 2 == 1 then 0 else 128) else v;
            Written(w, p, 0x070, val) == w.(dev := w.dev.(status := stored))
  {
    OffsetIsInside(p, 0x070, Dword);
    var v := val % 0x1_0000_0000;
    BitTwo(v);
    TooMuchIsLeftOver(w.dev.driverFeatures);
    if v / 8 % 2 == 1 {
      RefusedValue(v);
    }
  }

  // ------------------------------------------------------------------ every other write

  /** At any other offset, or past the end of the device, a 32-bit write is refused and changes nothing. */
  lemma OthersAreRefused(w: World, p: Window, addr: u64, val: u64)
    requires p.Fits() && p.base <= addr
    requires addr - p.base < p.length ==>
               addr - p.base !in {0x014, 0x020, 0x024, 0x030, 0x038, 0x044, 0x050, 0x064, 0x070,
                                  0x080, 0x084, 0x090, 0x094, 0x0a0, 0x0a4}
    ensures MmioEffect(w, p.base, p.length, addr, Dword, val) == (w, Err(InvalidRegister))
  {
    if addr - p.base < p.length {
      OffsetIsInside(p, addr - p.base, Dword);
    }
  }

  /** Writes of another width change nothing either: below offset 0x100 they are silently dropped, elsewhere refused. */
  lemma WidthsAreChecked(w: World, p: Window, addr: u64, width: AccessWidth, val: u64)
    requires p.Fits() && p.base <= addr && width != Dword
    ensures MmioEffect(w, p.base, p.length, addr, width, val) ==
            (w, if addr - p.base < p.length && addr - p.base < 0x100 then Ok(()) else Err(InvalidRegister))
  {
    if addr - p.base < p.length {
      OffsetIsInside(p, addr - p.base, width);
    }
  }

  /** A doorbell for queue 256, or any queue but 0, rings nothing. */
  lemma OtherDoorbellsAreSilent(w: World, p: Window, val: u64)
    requires DeviceInv(w.dev) && p.Fits() && p.length > 0x050 && val % 0x1_0000 != 0
    ensures Written(w, p, 0x050, val) == w
  {
    QueueNotifyAt050(w, p, val);
  }

  /** Below its base, where the range check saturates and the offset wraps, a device that does not lie in the last 256 bytes
      of the address space refuses every write. */
  lemma BelowBaseIsRefused(w: World, base: u64, length: u64, addr: u64, width: AccessWidth, val: u64)
    requires addr < base <= 0xFFFF_FFFF_FFFF_FF00
    ensures MmioEffect(w, base, length, addr, width, val) == (w, Err(InvalidRegister))
  {
    assert WrappedOffset(base, addr) == addr - base + 0x1_0000_0000_0000_0000;
  }

  /** The state at power-on: one queue of 256 entries, unready and without addresses, and every register zero. */
  lemma PowerOnState()
    ensures FreshDevice() ==
            DeviceState(0, 0, 0, 0, 0, [QueueState(0, 256, 256, false, 0, 0, 0, None, None, None, 0, 0)], 0, 0)
  {
  }

  // ------------------------------------------------------------------ runs of raw accesses

  /** What a guest can do: write to the device's region, at any address and width, or to memory. */
  datatype Access = Mmio(addr: u64, width: AccessWidth, val: u64) | Store(at: nat, data: seq<byte>)

  function AfterAccess(w: World, p: Window, a: Access): World {
    match a
    case Mmio(addr, width, val) => MmioEffect(w, p.base, p.length, addr, width, val).0
    case Store(at, data) => w.(mem := Overwritten(w.mem, at, data))
  }

  function AfterAccesses(w: World, p: Window, accesses: seq<Access>): World
    decreases |accesses|
  {
    if accesses == [] then w
    else AfterAccess(AfterAccesses(w, p, accesses[..|accesses| - 1]), p, accesses[|accesses| - 1])
  }

  /** The event an access amounts to, if it has any effect. */
  function EventOf(p: Window, a: Access): seq<Event> {
    match a
    case Mmio(addr, width, val) =>
      var reg := Reached(p.base, p.length, addr, width);
      if reg.Some? then [Register(reg.value, val % 0x1_0000_0000)] else []
    case Store(at, data) => [GuestStore(at, data)]
  }

  function EventsOf(p: Window, accesses: seq<Access>): seq<Event>
    decreases |accesses|
  {
    if accesses == [] then []
    else EventsOf(p, accesses[..|accesses| - 1]) + EventOf(p, accesses[|accesses| - 1])
  }

  /** Every run of raw accesses is a run of register writes and stores, so what holds of all of those holds of it. */
  lemma {:induction false} AccessesAreEvents(w: World, p: Window, accesses: seq<Access>)
    ensures AfterAccesses(w, p, accesses) == Run(w, EventsOf(p, accesses))
    decreases |accesses|
  {
    if accesses != [] {
      var init, a := accesses[..|accesses| - 1], accesses[|accesses| - 1];
      AccessesAreEvents(w, p, init);
      OneAccess(AfterAccesses(w, p, init), p, a);
      if EventOf(p, a) == [] {
        assert EventsOf(p, init) + [] == EventsOf(p, init);
      } else {
        Appended(EventsOf(p, init), EventOf(p, a)[0]);
        assert EventOf(p, a) == [EventOf(p, a)[0]];
      }
    }
  }

  lemma OneAccess(w: World, p: Window, a: Access)
    ensures |EventOf(p, a)| <= 1
    ensures AfterAccess(w, p, a) == if EventOf(p, a) == [] then w else Apply(w, EventOf(p, a)[0])
  {
  }
}
