/** Guest memory as the device's accessor presents it: a byte image in which an access to a range either
    succeeds as a whole or fails as a whole, and a log of the writes that succeeded. */
module Memory {
  import opened Common
  import opened Bytes

  datatype Write = Write(addr: nat, data: seq<byte>)

  /** `mapped(a, n)` decides whether an in-bounds access to `n` bytes at `a` translates; it is any relation. */
  datatype Mem = Mem(bytes: seq<byte>, mapped: (nat, nat) -> bool, log: seq<Write>) {

    predicate Accessible(addr: nat, n: nat) {
      addr + n <= |bytes| && mapped(addr, n)
    }

    function Load(addr: nat, n: nat): (data: seq<byte>)
      requires Accessible(addr, n)
      ensures |data| == n
    {
      bytes[addr..addr + n]
    }

    function Store(addr: nat, data: seq<byte>): Mem
      requires Accessible(addr, |data|)
    {
      Mem(Splice(bytes, addr, data), mapped, log + [Write(addr, data)])
    }

    /** A store whose failure leaves memory as it was. */
    function TryStore(addr: nat, data: seq<byte>): Mem {
      if Accessible(addr, |data|) then Store(addr, data) else this
    }
  }

  datatype Region = Region(lo: nat, len: nat) {
    predicate Contains(i: int) { lo <= i < lo + len }
  }

  predicate Disjoint(r: Region, s: Region) {
    r.len == 0 || s.len == 0 || r.lo + r.len <= s.lo || s.lo + s.len <= r.lo
  }

  predicate Within(r: Region, s: Region) {
    r.len == 0 || (s.lo <= r.lo && r.lo + r.len <= s.lo + s.len)
  }

  ghost predicate SameShape(m: Mem, m': Mem) {
    |m.bytes| == |m'.bytes| && m.mapped == m'.mapped
  }

  ghost predicate SameOn(m: Mem, m': Mem, r: Region) {
    && SameShape(m, m')
    && forall i {:trigger m.bytes[i]} {:trigger m'.bytes[i]} ::
         0 <= i < |m.bytes| && r.Contains(i) ==> m.bytes[i] == m'.bytes[i]
  }

  ghost predicate SameOff(m: Mem, m': Mem, r: Region) {
    && SameShape(m, m')
    && forall i {:trigger m.bytes[i]} {:trigger m'.bytes[i]} ::
         0 <= i < |m.bytes| && !r.Contains(i) ==> m.bytes[i] == m'.bytes[i]
  }

  lemma SameOnLoad(m: Mem, m': Mem, r: Region, addr: nat, n: nat)
    requires SameOn(m, m', r)
    requires m.Accessible(addr, n)
    requires Within(Region(addr, n), r)
    ensures m'.Accessible(addr, n) && m.Load(addr, n) == m'.Load(addr, n)
  {
    assert forall i :: 0 <= i < n ==> m.Load(addr, n)[i] == m.bytes[addr + i] && m'.bytes[addr + i] == m.bytes[addr + i];
  }

  lemma SameOffLoad(m: Mem, m': Mem, x: Region, addr: nat, n: nat)
    requires SameOff(m, m', x)
    requires m.Accessible(addr, n)
    requires Disjoint(Region(addr, n), x)
    ensures m'.Accessible(addr, n) && m.Load(addr, n) == m'.Load(addr, n)
  {
    assert forall i :: 0 <= i < n ==> m.Load(addr, n)[i] == m.bytes[addr + i] && m'.bytes[addr + i] == m.bytes[addr + i];
  }

  lemma SameOffOn(m: Mem, m': Mem, x: Region, r: Region)
    requires SameOff(m, m', x) && Disjoint(r, x)
    ensures SameOn(m, m', r)
  {
  }

  lemma StoreReadsBack(m: Mem, addr: nat, data: seq<byte>)
    requires m.Accessible(addr, |data|)
    ensures m.Store(addr, data).Load(addr, |data|) == data
  {
    SpliceReadsBack(m.bytes, addr, data);
  }

  /** The same store made in two memories keeps them equal wherever they were equal. */
  lemma StoreAgree(m: Mem, m': Mem, x: Region, addr: nat, data: seq<byte>)
    requires SameOff(m, m', x)
    ensures SameOff(m.TryStore(addr, data), m'.TryStore(addr, data), x)
  {
  }

  /** The image that a list of writes leaves behind. */
  function Replay(bytes: seq<byte>, writes: seq<Write>): (r: seq<byte>)
    ensures |r| == |bytes|
    decreases |writes|
  {
    if writes == [] then bytes
    else
      var before := Replay(bytes, writes[..|writes| - 1]);
      var w := writes[|writes| - 1];
      if w.addr + |w.data| <= |before| then Splice(before, w.addr, w.data) else before
  }

  /** `m'` comes from `m` by the writes its log gained, in that order. */
  ghost predicate Extends(m: Mem, m': Mem) {
    && SameShape(m, m')
    && m.log <= m'.log
    && m'.bytes == Replay(m.bytes, m'.log[|m.log|..])
  }

  lemma ReplayStep(bytes: seq<byte>, writes: seq<Write>, w: Write)
    requires w.addr + |w.data| <= |bytes|
    ensures Replay(bytes, writes + [w]) == Splice(Replay(bytes, writes), w.addr, w.data)
  {
    assert (writes + [w])[..|writes|] == writes;
  }

  lemma ExtendsStore(m: Mem, m': Mem, addr: nat, data: seq<byte>)
    requires Extends(m, m')
    ensures Extends(m, m'.TryStore(addr, data))
  {
    if m'.Accessible(addr, |data|) {
      var news := m'.log[|m.log|..];
      ReplayStep(m.bytes, news, Write(addr, data));
      assert m'.Store(addr, data).log[|m.log|..] == news + [Write(addr, data)];
    }
  }

  function RegionOf(w: Write): Region { Region(w.addr, |w.data|) }

  /** `m'` comes from `m` by writes none of which touches `r`. */
  ghost predicate Avoids(m: Mem, m': Mem, r: Region) {
    && Extends(m, m')
    && forall i :: |m.log| <= i < |m'.log| ==> Disjoint(RegionOf(m'.log[i]), r)
  }

  lemma ExtendsRefl(m: Mem)
    ensures Extends(m, m)
  {
  }

  lemma AvoidsStore(m: Mem, m': Mem, addr: nat, data: seq<byte>, r: Region)
    requires Avoids(m, m', r)
    requires Disjoint(Region(addr, |data|), r)
    ensures Avoids(m, m'.TryStore(addr, data), r)
  {
    ExtendsStore(m, m', addr, data);
  }

  lemma {:induction false} ReplayConcat(bytes: seq<byte>, a: seq<Write>, b: seq<Write>)
    ensures Replay(bytes, a + b) == Replay(Replay(bytes, a), b)
    decreases |b|
  {
    if b == [] {
      assert a + b == a;
    } else {
      ReplayConcat(bytes, a, b[..|b| - 1]);
      assert (a + b)[..|a + b| - 1] == a + b[..|b| - 1];
    }
  }

  lemma ExtendsTrans(m: Mem, m': Mem, m'': Mem)
    requires Extends(m, m') && Extends(m', m'')
    ensures Extends(m, m'')
  {
    ReplayConcat(m.bytes, m'.log[|m.log|..], m''.log[|m'.log|..]);
    assert m''.log[|m.log|..] == m'.log[|m.log|..] + m''.log[|m'.log|..];
  }

  lemma {:induction false} ReplayFrame(bytes: seq<byte>, writes: seq<Write>, r: Region, i: nat)
    requires forall k :: 0 <= k < |writes| ==> Disjoint(RegionOf(writes[k]), r)
    requires i < |bytes| && r.Contains(i)
    ensures Replay(bytes, writes)[i] == bytes[i]
    decreases |writes|
  {
    if writes != [] {
      ReplayFrame(bytes, writes[..|writes| - 1], r, i);
      assert Disjoint(RegionOf(writes[|writes| - 1]), r);
    }
  }

  lemma AvoidsSame(m: Mem, m': Mem, r: Region)
    requires Avoids(m, m', r)
    ensures SameOn(m, m', r)
  {
    forall i | 0 <= i < |m.bytes| && r.Contains(i) ensures m.bytes[i] == m'.bytes[i] {
      ReplayFrame(m.bytes, m'.log[|m.log|..], r, i);
    }
  }

  class GuestMemory {
    var bytes: seq<byte>
    const mapped: (nat, nat) -> bool
    ghost var log: seq<Write>

    ghost function View(): Mem
      reads this
    {
      Mem(bytes, mapped, log)
    }

    constructor (image: seq<byte>, translates: (nat, nat) -> bool)
      ensures View() == Mem(image, translates, [])
    {
      bytes, mapped, log := image, translates, [];
    }

    method ReadObj(addr: nat, n: nat) returns (r: Option<seq<byte>>)
      ensures r == if View().Accessible(addr, n) then Some(View().Load(addr, n)) else None
    {
      if addr + n <= |bytes| && mapped(addr, n) {
        return Some(bytes[addr..addr + n]);
      }
      return None;
    }

    /** Fills `buffer[lo..hi]` from guest memory. */
    method ReadBuffer(addr: nat, buffer: array<byte>, lo: nat, hi: nat) returns (ok: bool)
      requires lo <= hi <= buffer.Length
      modifies buffer
      ensures ok == View().Accessible(addr, hi - lo)
      ensures buffer[..] == if ok then Splice(old(buffer[..]), lo, View().Load(addr, hi - lo)) else old(buffer[..])
    {
      if addr + (hi - lo) <= |bytes| && mapped(addr, hi - lo) {
        forall i | lo <= i < hi {
          buffer[i] := bytes[addr + (i - lo)];
        }
        return true;
      }
      return false;
    }

    method WriteBuffer(addr: nat, data: seq<byte>) returns (ok: bool)
      modifies this
      ensures ok == old(View()).Accessible(addr, |data|)
      ensures View() == old(View()).TryStore(addr, data)
    {
      if addr + |data| <= |bytes| && mapped(addr, |data|) {
        bytes := Splice(bytes, addr, data);
        log := log + [Write(addr, data)];
        return true;
      }
      return false;
    }
  }
}
