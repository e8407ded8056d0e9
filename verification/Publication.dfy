/** What the order of the writes is worth to a driver: if the batch fits beside what it has not reaped, then at every
    prefix of a notification's writes the index announces only completions that are intact in their slots. */
module Publication {
  import opened Bytes
  import opened Memory
  import opened WrappingCounters
  import opened Rings
  import opened Queues
  import opened QueueEngine
  import opened ChainEffects
  import opened RingContents
  import opened Batches
  import opened WriteOrder

  ghost predicate AllLogged(s: Start, writes: seq<Write>, history: seq<UsedElem>, upTo: nat)
    requires s.queue.used.Some? && upTo <= |history|
  {
    forall k :: |s.queue.used.value.history| <= k < upTo ==> StatusLogged(s, writes, k, history[k])
  }

  /** What a driver that has reaped `from` completions can rely on after these writes: every completion whose element has
      been written is intact in its slot, with its status byte written before it, and the index announces none but
      those. */
  ghost predicate SafeAfter(s: Start, from: nat, history: seq<UsedElem>, writes: seq<Write>)
    requires s.queue.used.Some?
  {
    var u, n := s.queue.used.value, ElementsBefore(s, writes, |writes|);
    var bytes := Replay(s.mem.bytes, writes);
    && from <= n <= |history|
    && (forall k :: from <= k < n ==> Holds(bytes, u, k, history[k]))
    && AllLogged(s, writes, history, n)
    && exists c :: from <= c <= n && IndexShows(bytes, u, c)
  }

  // ------------------------------------------------------------------ one write

  /** The ring object after `n` completions of the history. */
  function RingAfter(u: UsedState, history: seq<UsedElem>, n: nat): UsedState
    requires n <= |history|
  {
    u.(idx := n % 0x1_0000, history := history[..n])
  }

  /** The same, of the bytes alone. */
  ghost predicate IntactUpTo(u: UsedState, from: nat, history: seq<UsedElem>, bytes: seq<byte>, n: nat) {
    && from <= n <= |history|
    && RingOk(RingAfter(u, history, n), from) && RingHolds(bytes, RingAfter(u, history, n), from)
    && exists c :: from <= c <= n && IndexShows(bytes, u, c)
  }

  lemma RingAfterNext(u: UsedState, history: seq<UsedElem>, n: nat)
    requires n < |history|
    ensures Pushed(RingAfter(u, history, n), history[n]) == RingAfter(u, history, n + 1)
  {
    assert history[..n] + [history[n]] == history[..n + 1];
    AdvanceCounter(n, 1);
  }

  lemma ElementKeepsIntact(u: UsedState, from: nat, history: seq<UsedElem>, bytes: seq<byte>, n: nat, w: Write)
    requires IntactUpTo(u, from, history, bytes, n) && n < |history| && n < from + u.size
    requires w.addr + |w.data| <= |bytes| && w == Write(SlotAt(u.base, u.size, n), Le32(history[n].id) + Le32(history[n].len))
    ensures IntactUpTo(u, from, history, Splice(bytes, w.addr, w.data), n + 1)
  {
    var un := RingAfter(u, history, n);
    PushedOk(un, history[n], from);
    ElementStore(bytes, un, history[n], from);
    RingAfterNext(u, history, n);
    var c :| from <= c <= n && IndexShows(bytes, u, c);
    assert IndexShows(Splice(bytes, w.addr, w.data), u, c);
  }

  lemma IndexKeepsIntact(u: UsedState, from: nat, history: seq<UsedElem>, bytes: seq<byte>, n: nat, w: Write)
    requires IntactUpTo(u, from, history, bytes, n)
    requires w.addr + |w.data| <= |bytes| && w == Write(u.IdxAddr(), Le16(n % 0x1_0000))
    ensures IntactUpTo(u, from, history, Splice(bytes, w.addr, w.data), n)
  {
    IndexStore(bytes, RingAfter(u, history, n), from);
    assert IndexShows(Splice(bytes, w.addr, w.data), u, n);
  }

  lemma OtherKeepsIntact(u: UsedState, from: nat, history: seq<UsedElem>, bytes: seq<byte>, n: nat, w: Write)
    requires IntactUpTo(u, from, history, bytes, n) && Disjoint(RegionOf(w), u.Extent())
    requires w.addr + |w.data| <= |bytes|
    ensures IntactUpTo(u, from, history, Splice(bytes, w.addr, w.data), n)
  {
    var c :| from <= c <= n && IndexShows(bytes, u, c);
    var un, bytes' := RingAfter(u, history, n), Splice(bytes, w.addr, w.data);
    SpliceElsewhere(bytes, w.addr, w.data, u.base + 2, 2);
    assert IndexShows(bytes', u, c);
    forall k | from <= k < n ensures Holds(bytes', un, k, un.history[k]) {
      assert Holds(bytes, un, k, un.history[k]);
      ElemStays(bytes, w.addr, w.data, SlotAt(u.base, u.size, k), un.history[k]);
    }
  }

  /** One write away from the used ring, of the next element, or of the index, takes `n` completed elements to `n'`. */
  predicate OneWrite(u: UsedState, history: seq<UsedElem>, size: nat, w: Write, n: nat, n': nat)
    requires u.size > 0
  {
    || (Disjoint(RegionOf(w), u.Extent()) && n' == n)
    || (w.addr + |w.data| <= size && n < |history| && n' == n + 1
        && w == Write(SlotAt(u.base, u.size, n), Le32(history[n].id) + Le32(history[n].len)))
    || (w.addr + |w.data| <= size && n' == n && w == Write(u.IdxAddr(), Le16(n % 0x1_0000)))
  }

  function Landed(bytes: seq<byte>, w: Write): seq<byte> {
    if w.addr + |w.data| <= |bytes| then Splice(bytes, w.addr, w.data) else bytes
  }

  /** Such a write keeps the bytes intact, if its element has room. */
  lemma AdvanceKeepsIntact(u: UsedState, from: nat, history: seq<UsedElem>, bytes: seq<byte>, n: nat, w: Write, n': nat)
    requires u.size > 0 && OneWrite(u, history, |bytes|, w, n, n')
    requires IntactUpTo(u, from, history, bytes, n) && |history| <= from + u.size
    ensures IntactUpTo(u, from, history, Landed(bytes, w), n')
  {
    if Disjoint(RegionOf(w), u.Extent()) && n' == n {
      if w.addr + |w.data| <= |bytes| {
        OtherKeepsIntact(u, from, history, bytes, n, w);
      }
    } else if n' == n {
      IndexKeepsIntact(u, from, history, bytes, n, w);
    } else {
      ElementKeepsIntact(u, from, history, bytes, n, w);
    }
  }

  /** A write in order advances the count of elements by one exactly when it is one. */
  lemma InOrderAdvances(s: Start, history: seq<UsedElem>, writes: seq<Write>, j: nat)
    requires s.queue.used.Some? && s.queue.used.value.size > 0 && j < |writes|
    requires InOrder(s, history, writes, j)
    ensures OneWrite(s.queue.used.value, history, |s.mem.bytes|, writes[j],
                     ElementsBefore(s, writes, j), ElementsBefore(s, writes, j + 1))
  {
    assert writes[..j + 1] == writes[..j] + [writes[j]];
    ElementWritesStep(writes[..j], writes[j], Elements(s.queue.used.value));
  }

  lemma ReplayNext(bytes: seq<byte>, writes: seq<Write>, j: nat)
    requires j < |writes|
    ensures Replay(bytes, writes[..j + 1]) == Landed(Replay(bytes, writes[..j]), writes[j])
  {
    assert writes[..j + 1][..j] == writes[..j];
  }

  lemma {:induction false} PrefixIntact(s: Start, from: nat, history: seq<UsedElem>, writes: seq<Write>, p: nat)
    requires s.queue.used.Some? && s.queue.used.value.size > 0 && p <= |writes|
    requires forall j :: 0 <= j < |writes| ==> InOrder(s, history, writes, j)
    requires |history| <= from + s.queue.used.value.size
    requires IntactUpTo(s.queue.used.value, from, history, s.mem.bytes, |s.queue.used.value.history|)
    ensures IntactUpTo(s.queue.used.value, from, history, Replay(s.mem.bytes, writes[..p]), ElementsBefore(s, writes, p))
  {
    if p > 0 {
      PrefixIntact(s, from, history, writes, p - 1);
      InOrderAdvances(s, history, writes, p - 1);
      ReplayNext(s.mem.bytes, writes, p - 1);
      AdvanceKeepsIntact(s.queue.used.value, from, history, Replay(s.mem.bytes, writes[..p - 1]),
                         ElementsBefore(s, writes, p - 1), writes[p - 1], ElementsBefore(s, writes, p));
    }
  }

  // ------------------------------------------------------------------ status bytes

  lemma {:induction false} PrefixLogged(s: Start, history: seq<UsedElem>, writes: seq<Write>, p: nat)
    requires s.queue.used.Some? && s.queue.used.value.size > 0 && p <= |writes|
    requires s.queue.used.value.history <= history
    requires forall j :: 0 <= j < |writes| ==> InOrder(s, history, writes, j)
    ensures ElementsBefore(s, writes, p) <= |history|
    ensures AllLogged(s, writes[..p], history, ElementsBefore(s, writes, p))
  {
    if p > 0 {
      PrefixLogged(s, history, writes, p - 1);
      LoggedStep(s, history, writes, p - 1);
    }
  }

  lemma LoggedStep(s: Start, history: seq<UsedElem>, writes: seq<Write>, j: nat)
    requires s.queue.used.Some? && s.queue.used.value.size > 0 && j < |writes|
    requires InOrder(s, history, writes, j)
    requires ElementsBefore(s, writes, j) <= |history| && AllLogged(s, writes[..j], history, ElementsBefore(s, writes, j))
    ensures ElementsBefore(s, writes, j + 1) <= |history|
    ensures AllLogged(s, writes[..j + 1], history, ElementsBefore(s, writes, j + 1))
  {
    var w, n := writes[j], ElementsBefore(s, writes, j);
    assert writes[..j + 1] == writes[..j] + [w] && writes[..j + 1][..j] == writes[..j];
    ElementWritesStep(writes[..j], w, Elements(s.queue.used.value));
    forall k | |s.queue.used.value.history| <= k < ElementsBefore(s, writes, j + 1)
      ensures StatusLogged(s, writes[..j + 1], k, history[k])
    {
      LoggedMonotone(s, writes[..j], writes[..j + 1], k, history[k]);
    }
  }

  // ------------------------------------------------------------------ a whole notification

  /** The used ring as the driver may rely on it, with an index that need not be up to date: it announces some
      completions, all of those are in their slots, and so are the ones it does not announce yet. */
  ghost predicate Trustworthy(e: Engine, from: nat)
    requires Wired(e.queue)
  {
    var u := e.queue.used.value;
    && RingOk(u, from) && RingHolds(e.mem.bytes, u, from)
    && exists c :: from <= c <= |u.history| && IndexShows(e.mem.bytes, u, c)
  }

  /** The batch has room beside what the driver has not reaped. */
  predicate BatchFits(e: Engine, from: nat) {
    e.queue.used.Some? && Completed(e.queue) + Announced(e) <= from + e.queue.used.value.size
  }

  lemma TrustIsIntact(e: Engine, from: nat, history: seq<UsedElem>)
    requires Wired(e.queue) && e.queue.used.value.history <= history && |history| <= from + e.queue.used.value.size
    ensures var u := e.queue.used.value;
            Trustworthy(e, from) <==> IntactUpTo(u, from, history, e.mem.bytes, |u.history|)
  {
    var u := e.queue.used.value;
    assert history[..|u.history|] == u.history && RingAfter(u, history, |u.history|) == u;
  }

  /** If the driver may rely on the ring before, it may at every prefix of the writes, and after. */
  lemma NotificationKeepsTrust(e: Engine, from: nat)
    requires Wired(e.queue) && RingsApart(e.queue) && HeadsClear(e.mem, e.queue, Pending(e))
    requires Trustworthy(e, from) && BatchFits(e, from)
    ensures var e' := ProcessQueue(e);
            && Wired(e'.queue) && Trustworthy(e', from)
            && Completed(e'.queue) <= from + e'.queue.used.value.size
            && |e.mem.log| <= |e'.mem.log|
            && forall p :: 0 <= p <= |News(StartOf(e), e'.mem)| ==>
                 SafeAfter(StartOf(e), from, e'.queue.used.value.history, News(StartOf(e), e'.mem)[..p])
  {
    NotificationWritesInOrder(e);
    var s, e' := StartOf(e), ProcessQueue(e);
    var history, writes := e'.queue.used.value.history, News(s, e'.mem);
    TrustIsIntact(e, from, history);
    forall p | 0 <= p <= |writes| ensures SafeAfter(s, from, history, writes[..p]) {
      PrefixSafe(s, from, history, writes, p);
    }
    PrefixIntact(s, from, history, writes, |writes|);
    assert writes[..|writes|] == writes;
    EndTrusted(s, e', from);
  }

  lemma PrefixSafe(s: Start, from: nat, history: seq<UsedElem>, writes: seq<Write>, p: nat)
    requires s.queue.used.Some? && s.queue.used.value.size > 0 && p <= |writes|
    requires s.queue.used.value.history <= history && |history| <= from + s.queue.used.value.size
    requires forall j :: 0 <= j < |writes| ==> InOrder(s, history, writes, j)
    requires IntactUpTo(s.queue.used.value, from, history, s.mem.bytes, |s.queue.used.value.history|)
    ensures SafeAfter(s, from, history, writes[..p])
  {
    PrefixIntact(s, from, history, writes, p);
    PrefixLogged(s, history, writes, p);
    var u, n, bytes := s.queue.used.value, ElementsBefore(s, writes, p), Replay(s.mem.bytes, writes[..p]);
    assert writes[..p][..p] == writes[..p];
    var un := RingAfter(u, history, n);
    forall k | from <= k < n ensures Holds(bytes, u, k, history[k]) {
      assert Holds(bytes, un, k, un.history[k]);
    }
  }

  lemma EndTrusted(s: Start, e: Engine, from: nat)
    requires Wired(e.queue) && SameRing(s, e.queue.used.value) && AllInOrder(s, e.mem, e.queue.used.value.history)
    requires IntactUpTo(s.queue.used.value, from, e.queue.used.value.history, Replay(s.mem.bytes, News(s, e.mem)),
                    ElementsBefore(s, News(s, e.mem), |News(s, e.mem)|))
    ensures Trustworthy(e, from)
  {
    var u, h := e.queue.used.value, e.queue.used.value.history;
    assert h[..|h|] == h;
    assert RingAfter(s.queue.used.value, h, |h|) == u;
    var c :| from <= c <= |h| && IndexShows(e.mem.bytes, s.queue.used.value, c);
    assert IndexShows(e.mem.bytes, u, c);
  }
}
