/** The descriptor table: slots in guest memory, and the walk along NEXT links. */
module Descriptors {
  import opened Common
  import opened Bytes
  import opened Memory

  datatype Desc = Desc(addr: u64, len: u32, flags: u16, next: u16) {
    /** Flag bit 0, VIRTQ_DESC_F_NEXT. */
    predicate HasNext() { flags % 2 == 1 }

    /** Flag bit 1, VIRTQ_DESC_F_WRITE: the device may write, and only write, the buffer. */
    predicate IsWrite() { (flags / 2) % 2 == 1 }

    function Extent(): Region { Region(addr, len) }
  }

  function DecodeDesc(bs: seq<byte>): Desc
    requires |bs| == DESC_SIZE
  {
    Desc(U64(bs[..8]), U32(bs[8..12]), U16(bs[12..14]), U16(bs[14..]))
  }

  function EncodeDesc(d: Desc): (bs: seq<byte>)
    ensures |bs| == DESC_SIZE
  {
    Le64(d.addr) + Le32(d.len) + Le16(d.flags) + Le16(d.next)
  }

  lemma DescRoundTrip(d: Desc)
    ensures DecodeDesc(EncodeDesc(d)) == d
  {
    var bs := EncodeDesc(d);
    assert bs[..8] == Le64(d.addr) && bs[8..12] == Le32(d.len);
    assert bs[12..14] == Le16(d.flags) && bs[14..] == Le16(d.next);
  }

  /** A data buffer of a request: address, length, and whether the device writes it. */
  datatype Buffer = Buffer(addr: u64, len: u32, isWrite: bool) {
    function Extent(): Region { Region(addr, len) }
  }

  function AsBuffer(d: Desc): Buffer {
    Buffer(d.addr, d.len, d.IsWrite())
  }

  function AsBuffers(ds: seq<Desc>): (bufs: seq<Buffer>)
    ensures |bufs| == |ds|
  {
    seq(|ds|, i requires 0 <= i < |ds| => AsBuffer(ds[i]))
  }

  // ------------------------------------------------------------------ the walk, as a function of memory

  function ReadDesc(m: Mem, t: DescriptorTable, index: nat): Result<Desc> {
    if !t.IsValid() then Err(QueueNotReady)
    else if index >= t.size then Err(InvalidQueue)
    else if !m.Accessible(t.SlotAddr(index), DESC_SIZE) then Err(InvalidAddress)
    else Ok(DecodeDesc(m.Load(t.SlotAddr(index), DESC_SIZE)))
  }

  /** The walk from slot `cur` when the loop guard still admits `left` more descriptors. */
  function Walk(m: Mem, t: DescriptorTable, cur: nat, left: nat): Result<seq<Desc>>
    requires left > 0
    decreases left
  {
    match ReadDesc(m, t, cur)
    case Err(e) => Err(e)
    case Ok(d) =>
      if !d.HasNext() then Ok([d])
      else if left == 1 then Err(InvalidQueue)
      else match Walk(m, t, d.next, left - 1)
        case Err(e) => Err(e)
        case Ok(ds) => Ok([d] + ds)
  }

  /** The loop guard rejects only after more than `size` descriptors, so it admits `size + 1`. */
  function Follow(m: Mem, t: DescriptorTable, head: nat): Result<seq<Desc>> {
    if !t.IsValid() then Err(QueueNotReady) else Walk(m, t, head, t.size + 1)
  }

  function DataBuffers(ds: seq<Desc>, device: DeviceType): seq<Buffer> {
    if device == Block then
      if |ds| < 2 then [] else AsBuffers(ds[1..|ds| - 1])
    else AsBuffers(ds)
  }

  function StatusOf(ds: seq<Desc>): Result<u64> {
    if ds == [] || !ds[|ds| - 1].IsWrite() || ds[|ds| - 1].len < 1 then Err(InvalidQueue)
    else Ok(ds[|ds| - 1].addr)
  }

  function StatusAddr(m: Mem, t: DescriptorTable, head: nat): Result<u64> {
    match Follow(m, t, head)
    case Err(e) => Err(e)
    case Ok(ds) => StatusOf(ds)
  }

  /** NEXT on every descriptor but the last, and not on the last. */
  predicate ProperFlags(ds: seq<Desc>) {
    ds != [] && forall i :: 0 <= i < |ds| ==> (ds[i].HasNext() <==> i < |ds| - 1)
  }

  datatype DescriptorTable = DescriptorTable(baseAddr: nat, size: nat) {

    predicate IsValid() { baseAddr != 0 && size > 0 }

    function SlotAddr(index: nat): nat { baseAddr + index * DESC_SIZE }

    function DescAddr(index: nat): Option<nat> {
      if index >= size then None else Some(SlotAddr(index))
    }

    function Extent(): Region { Region(baseAddr, size * DESC_SIZE) }

    method ReadDescriptor(mem: GuestMemory, index: nat) returns (r: Result<Desc>)
      ensures r == ReadDesc(mem.View(), this, index)
    {
      if !IsValid() {
        return Err(QueueNotReady);
      }
      var addr := DescAddr(index);
      if addr.None? {
        return Err(InvalidQueue);
      }
      var bs := mem.ReadObj(addr.value, DESC_SIZE);
      match bs
      case None => return Err(InvalidAddress);
      case Some(b) => return Ok(DecodeDesc(b));
    }

    /** What is written is what a later read of the slot returns; no other byte changes. */
    method WriteDescriptor(mem: GuestMemory, index: nat, d: Desc) returns (r: Result<()>)
      modifies mem
      ensures r.Ok? <==> ReadDesc(old(mem.View()), this, index).Ok?
      ensures r.Ok? ==> ReadDesc(mem.View(), this, index) == Ok(d)
      ensures SameOff(old(mem.View()), mem.View(), Region(SlotAddr(index), DESC_SIZE))
      ensures r.Err? ==> mem.View() == old(mem.View()) && ReadDesc(old(mem.View()), this, index) == Err(r.error)
    {
      if !IsValid() {
        return Err(QueueNotReady);
      }
      var addr := DescAddr(index);
      if addr.None? {
        return Err(InvalidQueue);
      }
      DescRoundTrip(d);
      var ok := mem.WriteBuffer(addr.value, EncodeDesc(d));
      if !ok {
        return Err(InvalidAddress);
      }
      StoreReadsBack(old(mem.View()), addr.value, EncodeDesc(d));
      return Ok(());
    }

    /** Follows the chain with the program's loop, guard and error order. */
    method FollowChain(mem: GuestMemory, head: nat) returns (r: Result<seq<Desc>>)
      ensures r == Follow(mem.View(), this, head)
    {
      if !IsValid() {
        return Err(QueueNotReady);
      }
      var descriptors: seq<Desc> := [];
      var current: nat := head;
      assert forall ds: seq<Desc> :: descriptors + ds == ds;
      while true
        invariant |descriptors| <= size
        invariant Follow(mem.View(), this, head) ==
                  match Walk(mem.View(), this, current, size + 1 - |descriptors|)
                  case Err(e) => Err(e)
                  case Ok(ds) => Ok(descriptors + ds)
        decreases size - |descriptors|
      {
        if current >= size {
          return Err(InvalidQueue);
        }
        var desc := ReadDescriptor(mem, current);
        if desc.Err? {
          return Err(desc.error);
        }
        var before := descriptors;
        descriptors := descriptors + [desc.value];
        if !desc.value.HasNext() {
          break;
        }
        current := desc.value.next;
        if |descriptors| > size {
          return Err(InvalidQueue);
        }
        assert forall ds: seq<Desc> :: before + ([desc.value] + ds) == descriptors + ds;
      }
      return Ok(descriptors);
    }

    method ValidateChain(mem: GuestMemory, head: nat) returns (r: Result<bool>)
      ensures r == match Follow(mem.View(), this, head)
                   case Err(e) => Err(e)
                   case Ok(ds) => Ok(ProperFlags(ds))
    {
      var chain := FollowChain(mem, head);
      if chain.Err? {
        return Err(chain.error);
      }
      var descriptors := chain.value;
      if |descriptors| == 0 {
        return Ok(false);
      }
      for i := 0 to |descriptors|
        invariant forall j :: 0 <= j < i ==> (descriptors[j].HasNext() <==> j < |descriptors| - 1)
      {
        if i == |descriptors| - 1 && descriptors[i].HasNext() {
          return Ok(false);
        }
        if i < |descriptors| - 1 && !descriptors[i].HasNext() {
          return Ok(false);
        }
      }
      return Ok(true);
    }

    method GetDataBuffers(mem: GuestMemory, head: nat, device: DeviceType) returns (r: Result<seq<Buffer>>)
      ensures r == match Follow(mem.View(), this, head)
                   case Err(e) => Err(e)
                   case Ok(ds) => Ok(DataBuffers(ds, device))
    {
      var chain := FollowChain(mem, head);
      if chain.Err? {
        return Err(chain.error);
      }
      var ds := chain.value;
      if |ds| < 2 && device == Block {
        return Ok([]);
      }
      var lo, hi := 0, |ds|;
      if device == Block {
        lo, hi := 1, |ds| - 1;
      }
      var buffers := [];
      for i := lo to hi
        invariant buffers == AsBuffers(ds[lo..i])
      {
        assert ds[lo..i + 1] == ds[lo..i] + [ds[i]];
        buffers := buffers + [AsBuffer(ds[i])];
      }
      assert ds[0..|ds|] == ds;
      return Ok(buffers);
    }

    method GetStatusAddr(mem: GuestMemory, head: nat) returns (r: Result<u64>)
      ensures r == StatusAddr(mem.View(), this, head)
    {
      var chain := FollowChain(mem, head);
      if chain.Err? {
        return Err(chain.error);
      }
      var ds := chain.value;
      if |ds| == 0 {
        return Err(InvalidQueue);
      }
      var last := ds[|ds| - 1];
      if !last.IsWrite() || last.len < 1 {
        return Err(InvalidQueue);
      }
      return Ok(last.addr);
    }
  }

  // ------------------------------------------------------------------ chains, independently of the loop

  predicate Readable(m: Mem, t: DescriptorTable, index: nat) {
    t.IsValid() && index < t.size && m.Accessible(t.SlotAddr(index), DESC_SIZE)
  }

  function Slot(m: Mem, t: DescriptorTable, index: nat): Desc
    requires Readable(m, t, index)
  {
    DecodeDesc(m.Load(t.SlotAddr(index), DESC_SIZE))
  }

  /** `path` lists the slots of a terminated chain: all readable, each linked to the following one, the last unlinked. */
  ghost predicate IsChain(m: Mem, t: DescriptorTable, path: seq<nat>) {
    && |path| > 0
    && (forall i :: 0 <= i < |path| ==> Readable(m, t, path[i]))
    && (forall i :: 0 <= i < |path| - 1 ==> Slot(m, t, path[i]).HasNext() && Slot(m, t, path[i]).next == path[i + 1])
    && !Slot(m, t, path[|path| - 1]).HasNext()
  }

  ghost function Slots(m: Mem, t: DescriptorTable, path: seq<nat>): seq<Desc>
    requires forall i :: 0 <= i < |path| ==> Readable(m, t, path[i])
  {
    seq(|path|, i requires 0 <= i < |path| => Slot(m, t, path[i]))
  }

  ghost predicate Distinct(path: seq<nat>) {
    forall i, j :: 0 <= i < j < |path| ==> path[i] != path[j]
  }

  lemma ChainCons(m: Mem, t: DescriptorTable, cur: nat, rest: seq<nat>)
    requires IsChain(m, t, rest)
    requires Readable(m, t, cur) && Slot(m, t, cur).HasNext() && Slot(m, t, cur).next == rest[0]
    ensures IsChain(m, t, [cur] + rest)
  {
    var path := [cur] + rest;
    assert path[0] == cur && path[1] == rest[0] && path[|path| - 1] == rest[|rest| - 1];
    forall i | 0 <= i < |path| ensures Readable(m, t, path[i]) {
      if i > 0 {
        assert path[i] == rest[i - 1];
      }
    }
    forall i | 0 <= i < |path| - 1
      ensures Slot(m, t, path[i]).HasNext() && Slot(m, t, path[i]).next == path[i + 1]
    {
      if i > 0 {
        var k := i - 1;
        assert path[i] == rest[k] && path[i + 1] == rest[k + 1];
        assert Slot(m, t, rest[k]).HasNext() && Slot(m, t, rest[k]).next == rest[k + 1];
      }
    }
  }

  lemma SlotsCons(m: Mem, t: DescriptorTable, cur: nat, rest: seq<nat>)
    requires Readable(m, t, cur) && forall i :: 0 <= i < |rest| ==> Readable(m, t, rest[i])
    ensures forall i :: 0 <= i < |[cur] + rest| ==> Readable(m, t, ([cur] + rest)[i])
    ensures Slots(m, t, [cur] + rest) == [Slot(m, t, cur)] + Slots(m, t, rest)
  {
  }

  lemma {:induction false} WalkGivesChain(m: Mem, t: DescriptorTable, cur: nat, left: nat) returns (path: seq<nat>)
    requires left > 0
    requires Walk(m, t, cur, left).Ok?
    ensures IsChain(m, t, path) && path[0] == cur
    ensures Walk(m, t, cur, left).value == Slots(m, t, path)
    decreases left
  {
    var d := ReadDesc(m, t, cur).value;
    if !d.HasNext() {
      path := [cur];
    } else {
      var rest := WalkGivesChain(m, t, d.next, left - 1);
      ChainCons(m, t, cur, rest);
      SlotsCons(m, t, cur, rest);
      path := [cur] + rest;
    }
  }

  lemma ChainTail(m: Mem, t: DescriptorTable, path: seq<nat>)
    requires IsChain(m, t, path) && |path| > 1
    ensures IsChain(m, t, path[1..]) && path[1] == Slot(m, t, path[0]).next
    ensures Slots(m, t, path) == [Slot(m, t, path[0])] + Slots(m, t, path[1..])
  {
    var rest := path[1..];
    forall i | 0 <= i < |rest| ensures rest[i] == path[i + 1] && Readable(m, t, rest[i]) {
      assert Readable(m, t, path[i + 1]);
    }
    forall i | 0 <= i < |rest| - 1 ensures Slot(m, t, rest[i]).HasNext() && Slot(m, t, rest[i]).next == rest[i + 1] {
      var k := i + 1;
      assert Slot(m, t, path[k]).HasNext() && Slot(m, t, path[k]).next == path[k + 1];
    }
  }

  lemma {:induction false} ChainGivesWalk(m: Mem, t: DescriptorTable, path: seq<nat>, left: nat)
    requires IsChain(m, t, path) && |path| <= left
    ensures Walk(m, t, path[0], left) == Ok(Slots(m, t, path))
    decreases left
  {
    if |path| > 1 {
      ChainTail(m, t, path);
      ChainGivesWalk(m, t, path[1..], left - 1);
    } else {
      assert Slots(m, t, path) == [Slot(m, t, path[0])];
    }
  }

  /** A walk that meets a slot twice repeats the same links for ever, so it cannot end. */
  lemma {:induction false} ChainLockstep(m: Mem, t: DescriptorTable, path: seq<nat>, i: nat, j: nat, k: nat)
    requires IsChain(m, t, path)
    requires i < j && j + k < |path| && path[i] == path[j]
    ensures path[i + k] == path[j + k]
  {
    if k > 0 {
      ChainLockstep(m, t, path, i, j, k - 1);
    }
  }

  lemma ChainDistinct(m: Mem, t: DescriptorTable, path: seq<nat>)
    requires IsChain(m, t, path)
    ensures Distinct(path)
  {
    forall i, j | 0 <= i < j < |path| ensures path[i] != path[j] {
      if path[i] == path[j] {
        ChainLockstep(m, t, path, i, j, |path| - 1 - j);
      }
    }
  }

  lemma {:induction false} Pigeonhole(path: seq<nat>, n: nat)
    requires Distinct(path)
    requires forall i :: 0 <= i < |path| ==> path[i] < n
    ensures |path| <= n
  {
    if path == [] {
      return;
    }
    assert path[0] < n;
    if exists k :: 0 <= k < |path| && path[k] == n - 1 {
      var k :| 0 <= k < |path| && path[k] == n - 1;
      var rest := path[..k] + path[k + 1..];
      Pigeonhole(rest, n - 1);
    } else {
      Pigeonhole(path, n - 1);
    }
  }

  /** `Follow` succeeds exactly when a chain starts at the head; then it returns that chain, whose slots are
      distinct and at most `size` many, although the loop guard alone would admit one more. */
  lemma FollowExactlyChains(m: Mem, t: DescriptorTable, head: nat)
    ensures Follow(m, t, head).Ok? <==> exists path :: IsChain(m, t, path) && path[0] == head
    ensures forall path :: IsChain(m, t, path) && path[0] == head ==>
              Follow(m, t, head) == Ok(Slots(m, t, path)) && Distinct(path) && |path| <= t.size
  {
    forall path | IsChain(m, t, path) && path[0] == head
      ensures Follow(m, t, head) == Ok(Slots(m, t, path)) && Distinct(path) && |path| <= t.size
    {
      ChainDistinct(m, t, path);
      Pigeonhole(path, t.size);
      ChainGivesWalk(m, t, path, t.size + 1);
    }
    if Follow(m, t, head).Ok? {
      var path := WalkGivesChain(m, t, head, t.size + 1);
    }
  }

  /** `path` goes from `head` along NEXT links through readable slots, and leads on to slot `at`. */
  ghost predicate LeadsTo(m: Mem, t: DescriptorTable, head: nat, path: seq<nat>, at: nat)
    decreases |path|
  {
    if path == [] then head == at
    else
      path[0] == head && Readable(m, t, head) && Slot(m, t, head).HasNext()
      && LeadsTo(m, t, Slot(m, t, head).next, path[1..], at)
  }

  /** Why a walk over a valid table fails: it leads to a slot outside the table, or to one whose access fails, or on and on
      through more slots than are admitted. */
  lemma {:induction false} WalkFails(m: Mem, t: DescriptorTable, cur: nat, left: nat) returns (path: seq<nat>, at: nat)
    requires left > 0 && t.IsValid() && Walk(m, t, cur, left).Err?
    ensures LeadsTo(m, t, cur, path, at) && |path| <= left
    ensures |path| == left ==> Walk(m, t, cur, left) == Err(InvalidQueue)
    ensures |path| < left && at >= t.size ==> Walk(m, t, cur, left) == Err(InvalidQueue)
    ensures |path| < left && at < t.size ==>
              !m.Accessible(t.SlotAddr(at), DESC_SIZE) && Walk(m, t, cur, left) == Err(InvalidAddress)
    decreases left
  {
    var d := ReadDesc(m, t, cur);
    if d.Err? {
      path, at := [], cur;
    } else if left == 1 {
      path, at := [cur], d.value.next;
      assert LeadsTo(m, t, d.value.next, path[1..], at);
    } else {
      var rest;
      rest, at := WalkFails(m, t, d.value.next, left - 1);
      path := [cur] + rest;
      assert path[1..] == rest;
    }
  }

  /** A followed chain fails with the error of the first slot it cannot read, or for being longer than the table. */
  lemma FollowFails(m: Mem, t: DescriptorTable, head: nat) returns (path: seq<nat>, at: nat)
    requires Follow(m, t, head).Err? && t.baseAddr != 0 && t.size > 0
    ensures LeadsTo(m, t, head, path, at)
    ensures Follow(m, t, head).error ==
            if |path| <= t.size && at < t.size then InvalidAddress else InvalidQueue
    ensures |path| <= t.size && at < t.size ==> !m.Accessible(t.baseAddr + 16 * at, 16)
  {
    path, at := WalkFails(m, t, head, t.size + 1);
  }

  /** Every chain that is followed is proper, so chain validation never answers `Ok(false)`. */
  lemma FollowedChainsAreProper(m: Mem, t: DescriptorTable, head: nat)
    requires Follow(m, t, head).Ok?
    ensures ProperFlags(Follow(m, t, head).value)
    ensures 1 <= |Follow(m, t, head).value| <= t.size
  {
    var path := WalkGivesChain(m, t, head, t.size + 1);
    FollowExactlyChains(m, t, head);
  }

  lemma {:induction false} WalkFrame(m: Mem, m': Mem, t: DescriptorTable, cur: nat, left: nat)
    requires left > 0
    requires SameOn(m, m', t.Extent())
    ensures Walk(m, t, cur, left) == Walk(m', t, cur, left)
    decreases left
  {
    if Readable(m, t, cur) {
      SameOnLoad(m, m', t.Extent(), t.SlotAddr(cur), DESC_SIZE);
    }
    var d := ReadDesc(m, t, cur);
    assert d == ReadDesc(m', t, cur);
    if d.Ok? && d.value.HasNext() && left > 1 {
      WalkFrame(m, m', t, d.value.next, left - 1);
    }
  }

  /** A chain walk reads nothing but the table. */
  lemma FollowFrame(m: Mem, m': Mem, t: DescriptorTable, head: nat)
    requires SameOn(m, m', t.Extent())
    ensures Follow(m, t, head) == Follow(m', t, head)
  {
    if t.IsValid() {
      WalkFrame(m, m', t, head, t.size + 1);
    }
  }
}
