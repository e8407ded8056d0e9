/** What scatter and gather mean: exactly which bytes move, when they succeed, what they leave alone, and that a
    payload written through one segmentation reads back through any other. */
module Transfers {
  import opened Common
  import opened Bytes
  import opened Memory
  import opened Descriptors
  import opened BlockRequests

  ghost predicate AllAccessible(m: Mem, bufs: seq<Buffer>, write: bool) {
    forall i :: 0 <= i < |bufs| && bufs[i].isWrite == write ==> m.Accessible(bufs[i].addr, bufs[i].len)
  }

  /** The bytes held, in order, by the buffers of one direction. */
  ghost function Contents(m: Mem, bufs: seq<Buffer>, write: bool): (data: seq<byte>)
    requires AllAccessible(m, bufs, write)
    ensures |data| == DirectedLen(bufs, write)
  {
    if bufs == [] then []
    else
      assert forall i :: 0 <= i < |bufs[1..]| ==> bufs[1..][i] == bufs[i + 1];
      (if bufs[0].isWrite == write then m.Load(bufs[0].addr, bufs[0].len) else []) + Contents(m, bufs[1..], write)
  }

  ghost predicate WritablesDisjoint(bufs: seq<Buffer>) {
    forall i, j :: 0 <= i < j < |bufs| && bufs[i].isWrite && bufs[j].isWrite ==> Disjoint(bufs[i].Extent(), bufs[j].Extent())
  }

  ghost predicate Clear(bufs: seq<Buffer>, write: bool, r: Region) {
    forall i :: 0 <= i < |bufs| && bufs[i].isWrite == write ==> Disjoint(bufs[i].Extent(), r)
  }

  lemma AllAccessibleTail(m: Mem, bufs: seq<Buffer>, write: bool)
    requires bufs != []
    ensures AllAccessible(m, bufs, write) <==>
            (bufs[0].isWrite == write ==> m.Accessible(bufs[0].addr, bufs[0].len)) && AllAccessible(m, bufs[1..], write)
  {
    assert forall i :: 0 <= i < |bufs[1..]| ==> bufs[1..][i] == bufs[i + 1];
    if AllAccessible(m, bufs[1..], write) && (bufs[0].isWrite == write ==> m.Accessible(bufs[0].addr, bufs[0].len)) {
      forall i | 0 <= i < |bufs| && bufs[i].isWrite == write ensures m.Accessible(bufs[i].addr, bufs[i].len) {
        assert i > 0 ==> bufs[i] == bufs[1..][i - 1];
      }
    }
  }

  // ------------------------------------------------------------------ gather

  lemma {:induction false} GatherExact(m: Mem, bufs: seq<Buffer>, room: nat)
    requires DirectedLen(bufs, false) <= room
    ensures Gather(m, bufs, room) ==
            if AllAccessible(m, bufs, false) then Ok(Contents(m, bufs, false)) else Err(MemoryError)
    decreases |bufs|
  {
    if bufs != [] {
      AllAccessibleTail(m, bufs, false);
      if bufs[0].isWrite {
        GatherExact(m, bufs[1..], room);
        if AllAccessible(m, bufs, false) {
          assert Contents(m, bufs, false) == Contents(m, bufs[1..], false);
        }
      } else {
        GatherExact(m, bufs[1..], room - bufs[0].len);
      }
    }
  }

  /** A write request hands the backend the readable buffers' bytes in order, zero-filled up to the length of all
      buffers; the "exceeds write data range" exit is never taken. */
  lemma WriteRequestExact(r: BlockRequest, m: Mem, d: Disk)
    ensures WriteOutcome(r, m, d) ==
            if !AllAccessible(m, r.buffers, false) then (d, Err(MemoryError))
            else if !d.CanWrite(r.sector, r.Size()) then (d, Err(BackendError))
            else (d.Write(r.sector, PadTo(Contents(m, r.buffers, false), r.Size())), Ok(0))
  {
    GatherLen(m, r.buffers, r.Size());
    GatherExact(m, r.buffers, r.Size());
  }

  lemma {:induction false} GatherAgree(m: Mem, m': Mem, x: Region, bufs: seq<Buffer>, room: nat)
    requires SameOff(m, m', x) && Clear(bufs, false, x)
    ensures Gather(m, bufs, room) == Gather(m', bufs, room)
    decreases |bufs|
  {
    if bufs != [] {
      assert forall i :: 0 <= i < |bufs[1..]| ==> bufs[1..][i] == bufs[i + 1];
      if bufs[0].isWrite {
        GatherAgree(m, m', x, bufs[1..], room);
      } else if bufs[0].len <= room {
        GatherAgree(m, m', x, bufs[1..], room - bufs[0].len);
        if m.Accessible(bufs[0].addr, bufs[0].len) {
          SameOffLoad(m, m', x, bufs[0].addr, bufs[0].len);
        }
      }
    }
  }

  // ------------------------------------------------------------------ scatter

  lemma {:induction false} ScatterSucceeds(m: Mem, bufs: seq<Buffer>, data: seq<byte>)
    requires DirectedLen(bufs, true) <= |data|
    ensures Scatter(m, bufs, data).1 == if AllAccessible(m, bufs, true) then Ok(()) else Err(MemoryError)
    decreases |bufs|
  {
    if bufs != [] {
      AllAccessibleTail(m, bufs, true);
      if !bufs[0].isWrite {
        ScatterSucceeds(m, bufs[1..], data);
      } else if m.Accessible(bufs[0].addr, bufs[0].len) {
        var m1 := m.Store(bufs[0].addr, data[..bufs[0].len]);
        assert AllAccessible(m1, bufs[1..], true) <==> AllAccessible(m, bufs[1..], true);
        ScatterSucceeds(m1, bufs[1..], data[bufs[0].len..]);
      }
    }
  }

  /** Scattering writes inside the writable buffers only, whether or not it completes. */
  lemma {:induction false} ScatterAvoids(m0: Mem, m: Mem, bufs: seq<Buffer>, data: seq<byte>, r: Region)
    requires Avoids(m0, m, r) && Clear(bufs, true, r)
    ensures Avoids(m0, Scatter(m, bufs, data).0, r)
    decreases |bufs|
  {
    if bufs != [] {
      assert forall i :: 0 <= i < |bufs[1..]| ==> bufs[1..][i] == bufs[i + 1];
      if !bufs[0].isWrite {
        ScatterAvoids(m0, m, bufs[1..], data, r);
      } else if bufs[0].len <= |data| && m.Accessible(bufs[0].addr, bufs[0].len) {
        assert Disjoint(bufs[0].Extent(), r);
        AvoidsStore(m0, m, bufs[0].addr, data[..bufs[0].len], r);
        ScatterAvoids(m0, m.Store(bufs[0].addr, data[..bufs[0].len]), bufs[1..], data[bufs[0].len..], r);
      }
    }
  }

  lemma {:induction false} ScatterAgree(m: Mem, m': Mem, x: Region, bufs: seq<Buffer>, data: seq<byte>)
    requires SameOff(m, m', x)
    ensures Scatter(m, bufs, data).1 == Scatter(m', bufs, data).1
    ensures SameOff(Scatter(m, bufs, data).0, Scatter(m', bufs, data).0, x)
    decreases |bufs|
  {
    if bufs != [] {
      if !bufs[0].isWrite {
        ScatterAgree(m, m', x, bufs[1..], data);
      } else if bufs[0].len <= |data| && m.Accessible(bufs[0].addr, bufs[0].len) {
        var piece := data[..bufs[0].len];
        StoreAgree(m, m', x, bufs[0].addr, piece);
        ScatterAgree(m.Store(bufs[0].addr, piece), m'.Store(bufs[0].addr, piece), x, bufs[1..], data[bufs[0].len..]);
      }
    }
  }

  /** Filling later buffers leaves the first one's contents alone. */
  lemma FirstStays(m: Mem, b: Buffer, rest: seq<Buffer>, data: seq<byte>)
    requires b.len <= |data| && m.Accessible(b.addr, b.len) && Clear(rest, true, b.Extent())
    ensures var m' := Scatter(m.Store(b.addr, data[..b.len]), rest, data[b.len..]).0;
            m'.Accessible(b.addr, b.len) && m'.Load(b.addr, b.len) == data[..b.len]
  {
    var m1 := m.Store(b.addr, data[..b.len]);
    var m' := Scatter(m1, rest, data[b.len..]).0;
    ExtendsRefl(m1);
    ScatterAvoids(m1, m1, rest, data[b.len..], b.Extent());
    AvoidsSame(m1, m', b.Extent());
    SameOnLoad(m1, m', b.Extent(), b.addr, b.len);
    StoreReadsBack(m, b.addr, data[..b.len]);
  }

  /** When the writable buffers are disjoint, they end up holding, in chain order, exactly the front of the data. */
  lemma {:induction false} ScatterDelivers(m: Mem, bufs: seq<Buffer>, data: seq<byte>)
    requires Scatter(m, bufs, data).1.Ok?
    requires WritablesDisjoint(bufs)
    ensures DirectedLen(bufs, true) <= |data|
    ensures AllAccessible(Scatter(m, bufs, data).0, bufs, true)
    ensures Contents(Scatter(m, bufs, data).0, bufs, true) == data[..DirectedLen(bufs, true)]
    decreases |bufs|
  {
    if bufs != [] {
      var rest := bufs[1..];
      assert forall i :: 0 <= i < |rest| ==> rest[i] == bufs[i + 1];
      var m' := Scatter(m, bufs, data).0;
      AllAccessibleTail(m', bufs, true);
      if !bufs[0].isWrite {
        ScatterDelivers(m, rest, data);
        assert Contents(m', bufs, true) == [] + Contents(m', rest, true);
      } else {
        var b, n := bufs[0], bufs[0].len;
        var m1 := m.Store(b.addr, data[..n]);
        ScatterDelivers(m1, rest, data[n..]);
        FirstStays(m, b, rest, data);
        FrontJoins(data, n, DirectedLen(rest, true));
        assert Contents(m', bufs, true) == m'.Load(b.addr, n) + Contents(m', rest, true);
      }
    }
  }

  lemma FrontJoins(data: seq<byte>, n: nat, k: nat)
    requires n + k <= |data|
    ensures data[..n] + data[n..][..k] == data[..n + k]
  {
  }

  /** A read request that succeeds leaves its disjoint writable buffers holding exactly the first bytes the backend
      returned, and leaves alone every region clear of them; it succeeds exactly when the backend does and every
      writable buffer is accessible, and the "exceeds read data range" exit is never taken. */
  lemma ReadRequestExact(r: BlockRequest, m: Mem, d: Disk)
    ensures ReadOutcome(r, m, d).1 ==
            if !d.CanRead(r.sector, r.Size()) then Err(BackendError)
            else if !AllAccessible(m, r.buffers, true) then Err(MemoryError)
            else Ok(0)
    ensures ReadOutcome(r, m, d).1.Ok? && WritablesDisjoint(r.buffers) ==>
              var m' := ReadOutcome(r, m, d).0;
              var w := DirectedLen(r.buffers, true);
              && AllAccessible(m', r.buffers, true)
              && Contents(m', r.buffers, true) == d.Read(r.sector, r.Size())[..w]
    ensures forall x: Region :: Clear(r.buffers, true, x) ==> SameOn(m, ReadOutcome(r, m, d).0, x)
  {
    forall x: Region | Clear(r.buffers, true, x) ensures SameOn(m, ReadOutcome(r, m, d).0, x) {
      OutcomeReadAvoids(r, m, d, x);
      AvoidsSame(m, ReadOutcome(r, m, d).0, x);
    }
    if d.CanRead(r.sector, r.Size()) {
      var data := d.Read(r.sector, r.Size());
      ScatterSucceeds(m, r.buffers, data);
      if WritablesDisjoint(r.buffers) && ReadOutcome(r, m, d).1.Ok? {
        ScatterDelivers(m, r.buffers, data);
      }
    }
  }

  lemma OutcomeReadAvoids(r: BlockRequest, m: Mem, d: Disk, x: Region)
    requires Clear(r.buffers, true, x)
    ensures Avoids(m, ReadOutcome(r, m, d).0, x)
  {
    ExtendsRefl(m);
    if d.CanRead(r.sector, r.Size()) {
      ScatterAvoids(m, m, r.buffers, d.Read(r.sector, r.Size()), x);
    }
  }

  // ------------------------------------------------------------------ whole requests

  lemma OutcomeAvoids(r: BlockRequest, m: Mem, d: Disk, x: Region)
    requires Clear(r.buffers, true, x)
    ensures Avoids(m, Outcome(r, m, d).0, x)
  {
    ExtendsRefl(m);
    OutcomeReadAvoids(r, m, d, x);
  }

  /** A request's effect does not depend on bytes outside its readable buffers. */
  lemma OutcomeAgree(r: BlockRequest, m: Mem, m': Mem, d: Disk, x: Region)
    requires SameOff(m, m', x) && Clear(r.buffers, false, x)
    ensures Outcome(r, m, d).1 == Outcome(r, m', d).1
    ensures Outcome(r, m, d).2 == Outcome(r, m', d).2
    ensures SameOff(Outcome(r, m, d).0, Outcome(r, m', d).0, x)
  {
    GatherLen(m, r.buffers, r.Size());
    GatherAgree(m, m', x, r.buffers, r.Size());
    if d.CanRead(r.sector, r.Size()) {
      ScatterAgree(m, m', x, r.buffers, d.Read(r.sector, r.Size()));
    }
  }

  /** What it takes for a request to succeed: 0 reads, 1 writes, 4 flushes. */
  ghost predicate Succeeds(r: BlockRequest, m: Mem, d: Disk) {
    || (r.requestType == 0 && d.CanRead(r.sector, r.Size()) && AllAccessible(m, r.buffers, true))
    || (r.requestType == 1 && d.CanWrite(r.sector, r.Size()) && AllAccessible(m, r.buffers, false))
    || (r.requestType == 4 && !d.refusesFlush)
  }

  /** Every status byte is 0, 1 or 2: 2 (unsupported) exactly for the unknown request types, and 0 (success) exactly when
      the disk serves the request and every buffer of the request's direction is accessible. */
  lemma StatusMeaning(r: BlockRequest, m: Mem, d: Disk)
    ensures StatusFor(Outcome(r, m, d).2) in {0, 1, 2}
    ensures StatusFor(Outcome(r, m, d).2) == 2 <==> r.requestType !in {0, 1, 4}
    ensures StatusFor(Outcome(r, m, d).2) == 0 <==> Succeeds(r, m, d)
  {
    WriteRequestExact(r, m, d);
    ReadRequestExact(r, m, d);
  }

  /** What a request of each type may touch: a read only guest memory, a write only the disk, a flush or an unknown type
      neither. */
  lemma TypeMeaning(r: BlockRequest, m: Mem, d: Disk)
    ensures r.requestType == 0 ==> Outcome(r, m, d) == (ReadOutcome(r, m, d).0, d, ReadOutcome(r, m, d).1)
    ensures r.requestType == 1 ==> Outcome(r, m, d) == (m, WriteOutcome(r, m, d).0, WriteOutcome(r, m, d).1)
    ensures r.requestType == 4 ==> Outcome(r, m, d) == (m, d, if d.refusesFlush then Err(BackendError) else Ok(0))
    ensures r.requestType !in {0, 1, 4} ==> Outcome(r, m, d) == (m, d, Ok(2))
  {
  }

  lemma DiskReadsBack(d: Disk, sector: nat, data: seq<byte>, n: nat)
    requires d.CanWrite(sector, |data|) && n <= |data|
    requires d.Write(sector, data).CanRead(sector, n)
    ensures d.Write(sector, data).Read(sector, n) == data[..n]
  {
    var at := sector * SECTOR_SIZE;
    SpliceReadsBack(d.content, at, data);
    assert Splice(d.content, at, data)[at..at + n] == Splice(d.content, at, data)[at..at + |data|][..n];
  }

  /** Round trip, for every pair of segmentations and whatever happens to guest memory in between: a successful write
      of `out`, then a successful read of no greater size at the same sector, fills the reader's disjoint writable
      buffers with the front of the written payload, zero-filled where `out` had buffers of the wrong direction. */
  lemma WriteThenRead(out: BlockRequest, inn: BlockRequest, m1: Mem, m2: Mem, d: Disk)
    requires out.requestType == 1 && inn.requestType == 0
    requires inn.sector == out.sector && inn.Size() <= out.Size()
    requires WritablesDisjoint(inn.buffers)
    requires Outcome(out, m1, d).2.Ok?
    requires Outcome(inn, m2, Outcome(out, m1, d).1).2.Ok?
    ensures AllAccessible(m1, out.buffers, false)
    ensures var m' := Outcome(inn, m2, Outcome(out, m1, d).1).0;
            && AllAccessible(m', inn.buffers, true)
            && Contents(m', inn.buffers, true) ==
               PadTo(Contents(m1, out.buffers, false), out.Size())[..DirectedLen(inn.buffers, true)]
  {
    WriteRequestExact(out, m1, d);
    var payload := PadTo(Contents(m1, out.buffers, false), out.Size());
    var d' := d.Write(out.sector, payload);
    ReadRequestExact(inn, m2, d');
    DiskReadsBack(d, out.sector, payload, inn.Size());
  }

  /** The size of a request is the lengths of its readable and of its writable buffers together. */
  lemma {:induction false} SizeIsBothDirections(bufs: seq<Buffer>)
    ensures TotalLen(bufs) == DirectedLen(bufs, false) + DirectedLen(bufs, true)
  {
    if bufs != [] {
      SizeIsBothDirections(bufs[1..]);
    }
  }

  lemma {:induction false} OneDirection(bufs: seq<Buffer>, write: bool)
    requires forall i :: 0 <= i < |bufs| ==> bufs[i].isWrite == write
    ensures DirectedLen(bufs, write) == TotalLen(bufs)
  {
    if bufs != [] {
      OneDirection(bufs[1..], write);
    }
  }

  /** Segmentation independence: an all-readable write chain and an all-writable read chain of equal total length
      transport the payload byte for byte, however each is cut into buffers. */
  lemma SegmentationIndependence(out: BlockRequest, inn: BlockRequest, m1: Mem, m2: Mem, d: Disk)
    requires out.requestType == 1 && inn.requestType == 0
    requires inn.sector == out.sector && inn.Size() == out.Size()
    requires forall i :: 0 <= i < |out.buffers| ==> !out.buffers[i].isWrite
    requires forall i :: 0 <= i < |inn.buffers| ==> inn.buffers[i].isWrite
    requires WritablesDisjoint(inn.buffers)
    requires Outcome(out, m1, d).2.Ok?
    requires Outcome(inn, m2, Outcome(out, m1, d).1).2.Ok?
    ensures AllAccessible(m1, out.buffers, false)
    ensures var m' := Outcome(inn, m2, Outcome(out, m1, d).1).0;
            && AllAccessible(m', inn.buffers, true)
            && Contents(m', inn.buffers, true) == Contents(m1, out.buffers, false)
  {
    WriteThenRead(out, inn, m1, m2, d);
    OneDirection(out.buffers, false);
    OneDirection(inn.buffers, true);
    var payload := Contents(m1, out.buffers, false);
    assert PadTo(payload, out.Size())[..inn.Size()] == payload;
  }
}
