/** A parsed block request and its execution: scattering disk bytes over writable guest buffers, gathering readable
    guest buffers into one disk write, and the status byte each outcome reports. */
module BlockRequests {
  import opened Common
  import opened Bytes
  import opened Memory
  import opened Descriptors

  // ------------------------------------------------------------------ backend

  /** A disk that returns what was last written, and that may refuse any access. */
  datatype Disk = Disk(
    content: seq<byte>,
    refusesRead: (nat, nat) -> bool,
    refusesWrite: (nat, nat) -> bool,
    refusesFlush: bool)
  {

    predicate InRange(sector: nat, n: nat) { sector * SECTOR_SIZE + n <= |content| }

    predicate CanRead(sector: nat, n: nat) { InRange(sector, n) && !refusesRead(sector, n) }

    predicate CanWrite(sector: nat, n: nat) { InRange(sector, n) && !refusesWrite(sector, n) }

    function Read(sector: nat, n: nat): (data: seq<byte>)
      requires CanRead(sector, n)
      ensures |data| == n
    {
      content[sector * SECTOR_SIZE..sector * SECTOR_SIZE + n]
    }

    function Write(sector: nat, data: seq<byte>): Disk
      requires CanWrite(sector, |data|)
    {
      this.(content := Splice(content, sector * SECTOR_SIZE, data))
    }
  }

  class BlockBackend {
    var content: seq<byte>
    const refusesRead: (nat, nat) -> bool
    const refusesWrite: (nat, nat) -> bool
    const refusesFlush: bool

    ghost function View(): Disk
      reads this
    {
      Disk(content, refusesRead, refusesWrite, refusesFlush)
    }

    constructor (image: seq<byte>, noRead: (nat, nat) -> bool, noWrite: (nat, nat) -> bool, noFlush: bool)
      ensures View() == Disk(image, noRead, noWrite, noFlush)
    {
      content, refusesRead, refusesWrite, refusesFlush := image, noRead, noWrite, noFlush;
    }

    method Read(sector: nat, buffer: array<byte>) returns (ok: bool)
      modifies buffer
      ensures ok == View().CanRead(sector, buffer.Length)
      ensures buffer[..] == if ok then View().Read(sector, buffer.Length) else old(buffer[..])
    {
      if sector * SECTOR_SIZE + buffer.Length <= |content| && !refusesRead(sector, buffer.Length) {
        forall i | 0 <= i < buffer.Length {
          buffer[i] := content[sector * SECTOR_SIZE + i];
        }
        return true;
      }
      return false;
    }

    method Write(sector: nat, data: seq<byte>) returns (ok: bool)
      modifies this
      ensures ok == old(View()).CanWrite(sector, |data|)
      ensures View() == if ok then old(View()).Write(sector, data) else old(View())
    {
      if sector * SECTOR_SIZE + |data| <= |content| && !refusesWrite(sector, |data|) {
        content := Splice(content, sector * SECTOR_SIZE, data);
        return true;
      }
      return false;
    }

    method Flush() returns (ok: bool)
      ensures ok == !View().refusesFlush
    {
      return !refusesFlush;
    }
  }

  // ------------------------------------------------------------------ scatter and gather, as functions

  function TotalLen(bufs: seq<Buffer>): (n: nat) {
    if bufs == [] then 0 else bufs[0].len + TotalLen(bufs[1..])
  }

  /** Bytes of the buffers that go in the given direction. */
  function DirectedLen(bufs: seq<Buffer>, write: bool): (n: nat)
    ensures n <= TotalLen(bufs)
  {
    if bufs == [] then 0 else (if bufs[0].isWrite == write then bufs[0].len else 0) + DirectedLen(bufs[1..], write)
  }

  /** Copies `data` over the writable buffers in order; stops at the first buffer that does not fit or cannot be written. */
  function Scatter(m: Mem, bufs: seq<Buffer>, data: seq<byte>): (Mem, Result<()>)
    decreases |bufs|
  {
    if bufs == [] then (m, Ok(()))
    else if !bufs[0].isWrite then Scatter(m, bufs[1..], data)
    else if bufs[0].len > |data| then (m, Err(InvalidBufferSize))
    else if !m.Accessible(bufs[0].addr, bufs[0].len) then (m, Err(MemoryError))
    else Scatter(m.Store(bufs[0].addr, data[..bufs[0].len]), bufs[1..], data[bufs[0].len..])
  }

  /** Concatenates the readable buffers in order, within `room` bytes. */
  function Gather(m: Mem, bufs: seq<Buffer>, room: nat): Result<seq<byte>> {
    if bufs == [] then Ok([])
    else if bufs[0].isWrite then Gather(m, bufs[1..], room)
    else if bufs[0].len > room then Err(InvalidBufferSize)
    else if !m.Accessible(bufs[0].addr, bufs[0].len) then Err(MemoryError)
    else Prepend(m.Load(bufs[0].addr, bufs[0].len), Gather(m, bufs[1..], room - bufs[0].len))
  }

  function Prepend(front: seq<byte>, r: Result<seq<byte>>): Result<seq<byte>> {
    match r
    case Err(e) => Err(e)
    case Ok(data) => Ok(front + data)
  }

  lemma PrependTwice(a: seq<byte>, b: seq<byte>, r: Result<seq<byte>>)
    ensures Prepend(a, Prepend(b, r)) == Prepend(a + b, r)
    ensures Prepend([], r) == r
  {
    if r.Ok? {
      assert a + (b + r.value) == (a + b) + r.value;
      assert [] + r.value == r.value;
    }
  }

  function PadTo(data: seq<byte>, n: nat): (r: seq<byte>)
    requires |data| <= n
    ensures |r| == n
  {
    data + Zeros(n - |data|)
  }

  /** After some buffers: the first `at` bytes of `buf` are filled, the others zero, and what is still to be gathered
      from `rest` completes the whole. */
  ghost predicate Gathered(m: Mem, whole: Result<seq<byte>>, buf: seq<byte>, at: nat, rest: seq<Buffer>) {
    && at <= |buf| && buf == PadTo(buf[..at], |buf|)
    && whole == Prepend(buf[..at], Gather(m, rest, |buf| - at))
  }

  lemma GatherStarts(m: Mem, bufs: seq<Buffer>, n: nat)
    ensures Gathered(m, Gather(m, bufs, n), Zeros(n), 0, bufs)
  {
    PrependTwice([], [], Gather(m, bufs, n));
    assert Zeros(n)[..0] == [] && PadTo([], n) == Zeros(n);
  }

  lemma GatherSkips(m: Mem, whole: Result<seq<byte>>, buf: seq<byte>, at: nat, rest: seq<Buffer>)
    requires Gathered(m, whole, buf, at, rest) && rest != [] && rest[0].isWrite
    ensures Gathered(m, whole, buf, at, rest[1..])
  {
  }

  lemma GatherFails(m: Mem, whole: Result<seq<byte>>, buf: seq<byte>, at: nat, rest: seq<Buffer>)
    requires Gathered(m, whole, buf, at, rest) && rest != [] && !rest[0].isWrite
    ensures at + rest[0].len > |buf| ==> whole == Err(InvalidBufferSize)
    ensures at + rest[0].len <= |buf| && !m.Accessible(rest[0].addr, rest[0].len) ==> whole == Err(MemoryError)
  {
  }

  lemma GatherSteps(m: Mem, whole: Result<seq<byte>>, buf: seq<byte>, at: nat, rest: seq<Buffer>)
    requires Gathered(m, whole, buf, at, rest) && rest != [] && !rest[0].isWrite
    requires at + rest[0].len <= |buf| && m.Accessible(rest[0].addr, rest[0].len)
    ensures Gathered(m, whole, Splice(buf, at, m.Load(rest[0].addr, rest[0].len)), at + rest[0].len, rest[1..])
  {
    var piece, end := m.Load(rest[0].addr, rest[0].len), at + rest[0].len;
    PrependTwice(buf[..at], piece, Gather(m, rest[1..], |buf| - end));
    FillStep(buf, at, piece);
  }

  lemma GatherEnds(m: Mem, whole: Result<seq<byte>>, buf: seq<byte>, at: nat)
    requires Gathered(m, whole, buf, at, [])
    ensures whole == Ok(buf[..at]) && buf == PadTo(buf[..at], |buf|)
  {
    assert buf[..at] + [] == buf[..at];
  }

  /** Filling the next bytes of a buffer that is zero from there on. */
  lemma FillStep(buf: seq<byte>, at: nat, piece: seq<byte>)
    requires at + |piece| <= |buf| && buf == PadTo(buf[..at], |buf|)
    ensures var buf' := Splice(buf, at, piece);
            buf'[..at + |piece|] == buf[..at] + piece && buf' == PadTo(buf[..at] + piece, |buf|)
  {
    var end := at + |piece|;
    forall i | end <= i < |buf| ensures buf[i] == 0 {
      assert PadTo(buf[..at], |buf|)[i] == 0;
    }
    assert Splice(buf, at, piece)[end..] == Zeros(|buf| - end);
  }

  /** The loop of the write path from some buffer on: how far it gets in filling `buf`, and what `buf` then holds. */
  function FillFrom(m: Mem, bufs: seq<Buffer>, buf: seq<byte>, at: nat): Result<(nat, seq<byte>)>
    requires at <= |buf|
    decreases |bufs|
  {
    if bufs == [] then Ok((at, buf))
    else if bufs[0].isWrite then FillFrom(m, bufs[1..], buf, at)
    else if at + bufs[0].len > |buf| then Err(InvalidBufferSize)
    else if !m.Accessible(bufs[0].addr, bufs[0].len) then Err(MemoryError)
    else FillFrom(m, bufs[1..], Splice(buf, at, m.Load(bufs[0].addr, bufs[0].len)), at + bufs[0].len)
  }

  lemma {:induction false} FillGathers(m: Mem, whole: Result<seq<byte>>, buf: seq<byte>, at: nat, rest: seq<Buffer>)
    requires Gathered(m, whole, buf, at, rest)
    ensures whole.Err? ==> FillFrom(m, rest, buf, at) == Err(whole.error)
    ensures whole.Ok? ==> |whole.value| <= |buf|
    ensures whole.Ok? ==> FillFrom(m, rest, buf, at) == Ok((|whole.value|, PadTo(whole.value, |buf|)))
    decreases |rest|
  {
    if rest == [] {
      GatherEnds(m, whole, buf, at);
    } else if rest[0].isWrite {
      GatherSkips(m, whole, buf, at, rest);
      FillGathers(m, whole, buf, at, rest[1..]);
    } else {
      GatherFails(m, whole, buf, at, rest);
      if at + rest[0].len <= |buf| && m.Accessible(rest[0].addr, rest[0].len) {
        var piece := m.Load(rest[0].addr, rest[0].len);
        GatherSteps(m, whole, buf, at, rest);
        FillGathers(m, whole, Splice(buf, at, piece), at + rest[0].len, rest[1..]);
      }
    }
  }

  lemma {:induction false} GatherLen(m: Mem, bufs: seq<Buffer>, room: nat)
    ensures Gather(m, bufs, room).Ok? ==> |Gather(m, bufs, room).value| == DirectedLen(bufs, false) <= room
  {
    if bufs != [] && !bufs[0].isWrite {
      if bufs[0].len <= room {
        GatherLen(m, bufs[1..], room - bufs[0].len);
      }
    } else if bufs != [] {
      GatherLen(m, bufs[1..], room);
    }
  }

  // ------------------------------------------------------------------ requests

  function ReadOutcome(r: BlockRequest, m: Mem, d: Disk): (Mem, Result<nat>) {
    if !d.CanRead(r.sector, r.Size()) then (m, Err(BackendError))
    else
      var (m', res) := Scatter(m, r.buffers, d.Read(r.sector, r.Size()));
      (m', if res.Ok? then Ok(VIRTIO_BLK_S_OK) else Err(res.error))
  }

  function WriteOutcome(r: BlockRequest, m: Mem, d: Disk): (Disk, Result<nat>) {
    GatherLen(m, r.buffers, r.Size());
    match Gather(m, r.buffers, r.Size())
    case Err(e) => (d, Err(e))
    case Ok(data) =>
      if !d.CanWrite(r.sector, r.Size()) then (d, Err(BackendError))
      else (d.Write(r.sector, PadTo(data, r.Size())), Ok(VIRTIO_BLK_S_OK))
  }

  function FlushOutcome(d: Disk): Result<nat> {
    if d.refusesFlush then Err(BackendError) else Ok(VIRTIO_BLK_S_OK)
  }

  function Outcome(r: BlockRequest, m: Mem, d: Disk): (Mem, Disk, Result<nat>) {
    if r.requestType == VIRTIO_BLK_T_IN then
      var (m', res) := ReadOutcome(r, m, d);
      (m', d, res)
    else if r.requestType == VIRTIO_BLK_T_OUT then
      var (d', res) := WriteOutcome(r, m, d);
      (m, d', res)
    else if r.requestType == VIRTIO_BLK_T_FLUSH then (m, d, FlushOutcome(d))
    else (m, d, Ok(VIRTIO_BLK_S_UNSUPP))
  }

  /** The status byte the device reports for an outcome. */
  function StatusFor(res: Result<nat>): nat {
    match res
    case Ok(s) => s
    case Err(e) => if e == InvalidBufferSize then VIRTIO_BLK_S_UNSUPP else VIRTIO_BLK_S_IOERR
  }

  datatype BlockRequest = BlockRequest(requestType: u32, sector: u64, buffers: seq<Buffer>, statusAddr: u64) {

    function Size(): nat { TotalLen(buffers) }

    method HandleRead(mem: GuestMemory, backend: BlockBackend) returns (r: Result<nat>)
      modifies mem
      ensures (mem.View(), r) == ReadOutcome(this, old(mem.View()), backend.View())
    {
      var total := Size();
      var buffer := new byte[total](_ => 0);
      var got := backend.Read(sector, buffer);
      if !got {
        return Err(BackendError);
      }
      var offset := 0;
      for i := 0 to |buffers|
        invariant offset <= total
        invariant backend.View() == old(backend.View())
        invariant buffer[..] == backend.View().Read(sector, total)
        invariant Scatter(old(mem.View()), buffers, buffer[..]) == Scatter(mem.View(), buffers[i..], buffer[offset..])
      {
        var b := buffers[i];
        assert buffers[i..][0] == b && buffers[i..][1..] == buffers[i + 1..];
        if !b.isWrite {
          continue;
        }
        var end := offset + b.len;
        if end > buffer.Length {
          return Err(InvalidBufferSize);
        }
        assert buffer[offset..][..b.len] == buffer[offset..end] && buffer[offset..][b.len..] == buffer[end..];
        var ok := mem.WriteBuffer(b.addr, buffer[offset..end]);
        if !ok {
          return Err(MemoryError);
        }
        offset := end;
      }
      return Ok(VIRTIO_BLK_S_OK);
    }

    /** The loop of the write path. */
    method FillBuffer(mem: GuestMemory, buffer: array<byte>) returns (r: Result<nat>)
      modifies buffer
      ensures match FillFrom(mem.View(), buffers, old(buffer[..]), 0)
              case Err(e) => r == Err(e)
              case Ok(filled) => r == Ok(filled.0) && buffer[..] == filled.1
    {
      var offset: nat := 0;
      for i := 0 to |buffers|
        invariant offset <= buffer.Length
        invariant FillFrom(mem.View(), buffers, old(buffer[..]), 0) ==
                  FillFrom(mem.View(), buffers[i..], buffer[..], offset)
      {
        var b := buffers[i];
        assert buffers[i..][0] == b && buffers[i..][1..] == buffers[i + 1..];
        if b.isWrite {
          continue;
        }
        var end := offset + b.len;
        if end > buffer.Length {
          return Err(InvalidBufferSize);
        }
        var ok := mem.ReadBuffer(b.addr, buffer, offset, end);
        if !ok {
          return Err(MemoryError);
        }
        offset := end;
      }
      return Ok(offset);
    }

    /** Fills the front of a zeroed buffer and returns how far it got. */
    method GatherInto(mem: GuestMemory, buffer: array<byte>) returns (r: Result<nat>)
      requires buffer.Length == Size() && buffer[..] == Zeros(Size())
      modifies buffer
      ensures match Gather(mem.View(), buffers, Size())
              case Err(e) => r == Err(e)
              case Ok(data) => r == Ok(|data|) && |data| <= Size() && buffer[..] == PadTo(data, Size())
    {
      GatherStarts(mem.View(), buffers, Size());
      FillGathers(mem.View(), Gather(mem.View(), buffers, Size()), Zeros(Size()), 0, buffers);
      r := FillBuffer(mem, buffer);
    }

    method HandleWrite(mem: GuestMemory, backend: BlockBackend) returns (r: Result<nat>)
      modifies backend
      ensures (backend.View(), r) == WriteOutcome(this, mem.View(), old(backend.View()))
    {
      var buffer := new byte[Size()](_ => 0);
      GatherLen(mem.View(), buffers, Size());
      assert buffer[..] == Zeros(Size());
      var filled := GatherInto(mem, buffer);
      if filled.Err? {
        return Err(filled.error);
      }
      var ok := backend.Write(sector, buffer[..]);
      return if ok then Ok(VIRTIO_BLK_S_OK) else Err(BackendError);
    }

    method Execute(mem: GuestMemory, backend: BlockBackend) returns (r: Result<nat>)
      modifies mem, backend
      ensures (mem.View(), backend.View(), r) == Outcome(this, old(mem.View()), old(backend.View()))
    {
      if requestType == VIRTIO_BLK_T_IN {
        r := HandleRead(mem, backend);
      } else if requestType == VIRTIO_BLK_T_OUT {
        r := HandleWrite(mem, backend);
      } else if requestType == VIRTIO_BLK_T_FLUSH {
        var ok := backend.Flush();
        return if ok then Ok(VIRTIO_BLK_S_OK) else Err(BackendError);
      } else {
        return Ok(VIRTIO_BLK_S_UNSUPP);
      }
    }
  }
}
