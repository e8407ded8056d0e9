/** The length a completed request reports, against the bytes the device really wrote into the chain's buffers. */
module ReportedLengths {
  import opened Bytes
  import opened Memory
  import opened Descriptors
  import opened BlockRequests
  import opened Transfers
  import opened QueueEngine
  import opened ChainEffects

  /** Bytes written, counted in the write log. */
  function ByteCount(writes: seq<Write>): nat
    decreases |writes|
  {
    if writes == [] then 0 else |writes[0].data| + ByteCount(writes[1..])
  }

  lemma {:induction false} ByteCountConcat(a: seq<Write>, b: seq<Write>)
    ensures ByteCount(a + b) == ByteCount(a) + ByteCount(b)
    decreases |a|
  {
    if a == [] {
      assert a + b == b;
    } else {
      assert (a + b)[1..] == a[1..] + b;
      ByteCountConcat(a[1..], b);
    }
  }

  /** What a read's loop writes: the writable buffers before the first one that is not accessible. */
  function Scattered(m: Mem, bufs: seq<Buffer>): (n: nat)
    ensures n <= DirectedLen(bufs, true)
    decreases |bufs|
  {
    if bufs == [] then 0
    else if !bufs[0].isWrite then Scattered(m, bufs[1..])
    else if !m.Accessible(bufs[0].addr, bufs[0].len) then 0
    else bufs[0].len + Scattered(m, bufs[1..])
  }

  lemma {:induction false} ScatteredShape(m: Mem, m': Mem, bufs: seq<Buffer>)
    requires SameShape(m, m')
    ensures Scattered(m, bufs) == Scattered(m', bufs)
    decreases |bufs|
  {
    if bufs != [] {
      ScatteredShape(m, m', bufs[1..]);
    }
  }

  lemma {:induction false} ScatteredAll(m: Mem, bufs: seq<Buffer>)
    ensures AllAccessible(m, bufs, true) ==> Scattered(m, bufs) == DirectedLen(bufs, true)
    decreases |bufs|
  {
    if bufs != [] {
      AllAccessibleTail(m, bufs, true);
      ScatteredAll(m, bufs[1..]);
    }
  }

  lemma {:induction false} ScatterWrites(m: Mem, bufs: seq<Buffer>, data: seq<byte>)
    requires DirectedLen(bufs, true) <= |data|
    ensures var m' := Scatter(m, bufs, data).0;
            m.log <= m'.log && ByteCount(m'.log[|m.log|..]) == Scattered(m, bufs) && SameShape(m, m')
    decreases |bufs|
  {
    if bufs != [] {
      var b, rest := bufs[0], bufs[1..];
      if !b.isWrite {
        ScatterWrites(m, rest, data);
      } else if m.Accessible(b.addr, b.len) {
        var m1 := m.Store(b.addr, data[..b.len]);
        ScatterWrites(m1, rest, data[b.len..]);
        ScatteredShape(m, m1, rest);
        var m' := Scatter(m, bufs, data).0;
        LogSplits(m.log, Write(b.addr, data[..b.len]), m'.log);
      }
    }
  }

  lemma LogSplits(log: seq<Write>, w: Write, log': seq<Write>)
    requires log + [w] <= log'
    ensures ByteCount(log'[|log|..]) == |w.data| + ByteCount(log'[|log| + 1..])
  {
    assert log'[|log|..][0] == w && log'[|log|..][1..] == log'[|log| + 1..];
  }

  /** How many bytes running the request writes, its status byte included. */
  function BytesWritten(r: BlockRequest, m: Mem, d: Disk): nat {
    (if r.requestType == 0 && d.CanRead(r.sector, r.Size()) then Scattered(m, r.buffers) else 0)
    + (if m.Accessible(r.statusAddr, 1) then 1 else 0)
  }

  lemma DataWrites(r: BlockRequest, m: Mem, d: Disk)
    ensures var m' := Outcome(r, m, d).0;
            && m.log <= m'.log && SameShape(m, m')
            && ByteCount(m'.log[|m.log|..]) ==
               if r.requestType == 0 && d.CanRead(r.sector, r.Size()) then Scattered(m, r.buffers) else 0
  {
    TypeMeaning(r, m, d);
    if d.CanRead(r.sector, r.Size()) {
      ScatterWrites(m, r.buffers, d.Read(r.sector, r.Size()));
    }
  }

  lemma OneMoreByte(log: seq<Write>, m: Mem, addr: nat, value: byte)
    requires log <= m.log
    ensures var m' := m.TryStore(addr, [value]);
            && log <= m'.log
            && ByteCount(m'.log[|log|..]) == ByteCount(m.log[|log|..]) + if m.Accessible(addr, 1) then 1 else 0
  {
    var w := Write(addr, [value]);
    if m.Accessible(addr, 1) {
      assert m.TryStore(addr, [value]).log[|log|..] == m.log[|log|..] + [w];
      ByteCountConcat(m.log[|log|..], [w]);
      assert ByteCount([w]) == 1 + ByteCount([w][1..]);
    }
  }

  /** That is the number of bytes in its writes. */
  lemma RequestWrites(r: BlockRequest, m: Mem, d: Disk)
    ensures var m' := AfterRequest(m, d, r).0;
            m.log <= m'.log && ByteCount(m'.log[|m.log|..]) == BytesWritten(r, m, d)
  {
    var (m1, _, res) := Outcome(r, m, d);
    DataWrites(r, m, d);
    OneMoreByte(m.log, m1, r.statusAddr, StatusFor(res));
  }

  lemma TruncatedSum(w: nat, r: int)
    requires w + r >= 0
    ensures (w + r) % 0x1_0000_0000 == w <==> w < 0x1_0000_0000 && r % 0x1_0000_0000 == 0
  {
  }

  /** The reported length is the number of bytes written, the status byte included, exactly under these conditions on
      the request. A read that succeeds: fewer than 2^32 bytes written, and data buffers of the other direction of one
      byte in all, modulo 2^32. Any request that moves no data to the guest: data buffers of one byte in all, modulo
      2^32. A read that stops at an inaccessible buffer: the data buffers it left out are one byte in all, modulo 2^32,
      and fewer than 2^32 bytes written. */
  lemma ReportedLenIff(r: BlockRequest, m: Mem, d: Disk)
    requires m.Accessible(r.statusAddr, 1)
    ensures r.requestType == 0 && Succeeds(r, m, d) ==>
              (ReportedLen(r) == BytesWritten(r, m, d) <==>
               DirectedLen(r.buffers, true) + 1 < 0x1_0000_0000 && DirectedLen(r.buffers, false) % 0x1_0000_0000 == 1)
    ensures r.requestType != 0 || !d.CanRead(r.sector, r.Size()) ==>
              (ReportedLen(r) == BytesWritten(r, m, d) <==> r.Size() % 0x1_0000_0000 == 1)
    ensures r.requestType == 0 && d.CanRead(r.sector, r.Size()) ==>
              (ReportedLen(r) == BytesWritten(r, m, d) <==>
               Scattered(m, r.buffers) + 1 < 0x1_0000_0000
               && (r.Size() - Scattered(m, r.buffers)) % 0x1_0000_0000 == 1)
  {
    SizeIsBothDirections(r.buffers);
    ScatteredAll(m, r.buffers);
    var w := BytesWritten(r, m, d);
    TruncatedSum(w, r.Size() - w);
    OneMore(r.Size() - w);
  }

  lemma OneMore(n: int)
    ensures n % 0x1_0000_0000 == 0 <==> (n + 1) % 0x1_0000_0000 == 1
  {
  }

  /** The witness: a 512-byte read writes 513 bytes, a 512-byte write one, and both report 512. */
  lemma ReportedLenIsOff(m: Mem, d: Disk, sector: u64, at: u64, status: u64)
    requires m.Accessible(status, 1) && m.Accessible(at, 512) && d.CanRead(sector, 512)
    ensures var r := BlockRequest(0, sector, [Buffer(at, 512, true)], status);
            ReportedLen(r) == 512 && BytesWritten(r, m, d) == 513
    ensures var r := BlockRequest(1, sector, [Buffer(at, 512, false)], status);
            ReportedLen(r) == 512 && BytesWritten(r, m, d) == 1
  {
    OneBuffer(m, Buffer(at, 512, true));
    OneBuffer(m, Buffer(at, 512, false));
  }

  lemma OneBuffer(m: Mem, b: Buffer)
    ensures TotalLen([b]) == b.len
    ensures Scattered(m, [b]) == if b.isWrite && m.Accessible(b.addr, b.len) then b.len else 0
  {
    var bufs := [b];
    assert bufs[1..] == [] && TotalLen([]) == 0 && Scattered(m, []) == 0;
  }
}
