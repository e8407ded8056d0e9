/** What a driver reads in the used ring: which completed elements the slots still hold, and what the index says. */
module RingContents {
  import opened Common
  import opened Bytes
  import opened Memory
  import opened WrappingCounters
  import opened Rings

  lemma SpliceElsewhere(bytes: seq<byte>, at: nat, data: seq<byte>, lo: nat, n: nat)
    requires at + |data| <= |bytes| && lo + n <= |bytes|
    requires Disjoint(Region(at, |data|), Region(lo, n))
    ensures Splice(bytes, at, data)[lo..lo + n] == bytes[lo..lo + n]
  {
  }

  /** Where a driver finds completion number `k`: after flags and index, eight bytes each (section 2.6.8 of VirtIO 1.1). */
  function SlotAt(base: nat, size: nat, k: nat): nat
    requires size > 0
  {
    base + 4 + 8 * (k % size)
  }

  /** Eight bytes at `at`: the head and the length of `e`. */
  predicate ElemAt(bytes: seq<byte>, at: nat, e: UsedElem) {
    at + 8 <= |bytes| && U32(bytes[at..at + 4]) == e.id && U32(bytes[at + 4..at + 8]) == e.len
  }

  /** The slot of completion number `k` holds `e`. */
  predicate Holds(bytes: seq<byte>, u: UsedState, k: nat, e: UsedElem) {
    u.size > 0 && ElemAt(bytes, SlotAt(u.base, u.size, k), e)
  }

  lemma ElemLands(bytes: seq<byte>, at: nat, e: UsedElem)
    requires at + 8 <= |bytes|
    ensures ElemAt(Splice(bytes, at, EncodeElem(e)), at, e)
  {
    var bytes' := Splice(bytes, at, EncodeElem(e));
    assert bytes'[at..at + 4] == Le32(e.id) && bytes'[at + 4..at + 8] == Le32(e.len);
  }

  lemma ElemStays(bytes: seq<byte>, at: nat, data: seq<byte>, lo: nat, e: UsedElem)
    requires at + |data| <= |bytes| && Disjoint(Region(at, |data|), Region(lo, 8)) && ElemAt(bytes, lo, e)
    ensures ElemAt(Splice(bytes, at, data), lo, e)
  {
    SpliceElsewhere(bytes, at, data, lo, 4);
    SpliceElsewhere(bytes, at, data, lo + 4, 4);
  }

  /** Completions `from`, `from + 1`, ... up to the last written are all still in their slots. */
  ghost predicate RingHolds(bytes: seq<byte>, u: UsedState, from: nat) {
    && from <= |u.history|
    && forall k :: from <= k < |u.history| ==> Holds(bytes, u, k, u.history[k])
  }

  /** The index field announces `c` completions, modulo 65536. */
  predicate IndexShows(bytes: seq<byte>, u: UsedState, c: nat) {
    u.base + 4 <= |bytes| && U16(bytes[u.base + 2..u.base + 4]) == c % 0x1_0000
  }

  ghost predicate RingOk(u: UsedState, from: nat) {
    && u.IsValid() && IsRingSize(u.size)
    && u.idx == |u.history| % 0x1_0000
    && from <= |u.history|
  }

  /** The value the ring object takes when the element write succeeds. */
  function Pushed(u: UsedState, e: UsedElem): UsedState {
    u.(idx := Next(u.idx), history := u.history + [e])
  }

  lemma PushedOk(u: UsedState, e: UsedElem, from: nat)
    requires RingOk(u, from)
    ensures RingOk(Pushed(u, e), from)
    ensures u.idx % u.size == |u.history| % u.size
  {
    AdvanceCounter(|u.history|, 1);
    SlotOfCounter(|u.history|, u.size);
  }

  /** Writing the next element overwrites no element that has not been reaped. */
  lemma ElementStore(bytes: seq<byte>, u: UsedState, e: UsedElem, from: nat)
    requires RingOk(u, from) && RingHolds(bytes, u, from)
    requires |u.history| < from + u.size
    requires u.ElemAddr(u.idx % u.size) + USED_ELEM_SIZE <= |bytes|
    ensures var bytes' := Splice(bytes, u.ElemAddr(u.idx % u.size), EncodeElem(e));
            && RingHolds(bytes', Pushed(u, e), from)
            && bytes'[u.base + 2..u.base + 4] == bytes[u.base + 2..u.base + 4]
  {
    PushedOk(u, e, from);
    var n, at := |u.history|, u.ElemAddr(u.idx % u.size);
    var bytes', u' := Splice(bytes, at, EncodeElem(e)), Pushed(u, e);
    forall k | from <= k < |u'.history| ensures Holds(bytes', u', k, u'.history[k]) {
      if k == n {
        ElemLands(bytes, at, e);
      } else {
        SlotsDistinct(k, n, u.size);
        assert Holds(bytes, u, k, u.history[k]);
        ElemStays(bytes, at, EncodeElem(e), SlotAt(u.base, u.size, k), u.history[k]);
      }
    }
    SpliceElsewhere(bytes, at, EncodeElem(e), u.base + 2, 2);
  }

  /** Writing the index field changes no element. */
  lemma IndexStore(bytes: seq<byte>, u: UsedState, from: nat)
    requires RingOk(u, from) && RingHolds(bytes, u, from)
    requires u.base + 4 <= |bytes|
    ensures var bytes' := Splice(bytes, u.IdxAddr(), Le16(u.idx));
            RingHolds(bytes', u, from) && IndexShows(bytes', u, |u.history|)
  {
    var bytes' := Splice(bytes, u.IdxAddr(), Le16(u.idx));
    forall k | from <= k < |u.history| ensures Holds(bytes', u, k, u.history[k]) {
      assert Holds(bytes, u, k, u.history[k]);
      ElemStays(bytes, u.IdxAddr(), Le16(u.idx), SlotAt(u.base, u.size, k), u.history[k]);
    }
    SpliceReadsBack(bytes, u.IdxAddr(), Le16(u.idx));
  }

  /** Both reads are confined to the ring's own bytes. */
  lemma RingFrame(m: Mem, m': Mem, u: UsedState, from: nat)
    requires SameOn(m, m', u.Extent()) && u.size > 0
    ensures RingHolds(m.bytes, u, from) ==> RingHolds(m'.bytes, u, from)
    ensures forall c: nat :: IndexShows(m.bytes, u, c) ==> IndexShows(m'.bytes, u, c)
  {
    forall k, e | 0 <= k && Holds(m.bytes, u, k, e) ensures Holds(m'.bytes, u, k, e) {
      SliceFrame(m, m', u.Extent(), SlotAt(u.base, u.size, k), 4);
      SliceFrame(m, m', u.Extent(), SlotAt(u.base, u.size, k) + 4, 4);
    }
    if u.base + 4 <= |m.bytes| {
      SliceFrame(m, m', u.Extent(), u.base + 2, 2);
    }
  }

  lemma SliceFrame(m: Mem, m': Mem, r: Region, lo: nat, n: nat)
    requires SameOn(m, m', r) && Within(Region(lo, n), r) && lo + n <= |m.bytes|
    ensures m.bytes[lo..lo + n] == m'.bytes[lo..lo + n]
  {
    var a, b := m.bytes[lo..lo + n], m'.bytes[lo..lo + n];
    assert forall i :: 0 <= i < n ==> a[i] == b[i];
  }
}
