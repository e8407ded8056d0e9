/** The order of the device's writes in one notification. Nothing is assumed of the used ring's contents, of the length
    of the batch, or of which accesses fail. */
module WriteOrder {
  import opened Common
  import opened Bytes
  import opened Memory
  import opened WrappingCounters
  import opened Rings
  import opened BlockRequests
  import opened Transfers
  import opened Queues
  import opened QueueEngine
  import opened ChainEffects
  import opened Batches
  import opened SequentialMeaning

  /** A pending head and the status write its request must make; none if its chain is no request. */
  datatype Expected = Expected(head: nat, status: Option<Write>)

  /** Memory and queue when the notification arrives, and what is expected of each pending head. */
  datatype Start = Start(mem: Mem, queue: QueueState, batch: seq<Expected>)

  /** The writes made since. */
  function News(s: Start, m: Mem): seq<Write>
    requires |s.mem.log| <= |m.log|
  {
    m.log[|s.mem.log|..]
  }

  function Elements(u: UsedState): Region { Region(u.base + 4, 8 * u.size) }

  /** How many of the writes fall among the elements of the used ring. */
  function ElementWrites(writes: seq<Write>, elements: Region): nat
    decreases |writes|
  {
    if writes == [] then 0
    else
      var w := writes[|writes| - 1];
      ElementWrites(writes[..|writes| - 1], elements) + if w.data != [] && elements.Contains(w.addr) then 1 else 0
  }

  /** `w` is among the writes, after exactly `done` elements. */
  ghost predicate WrittenAfter(s: Start, writes: seq<Write>, w: Write, done: int)
    requires s.queue.used.Some?
  {
    exists i :: 0 <= i < |writes| && writes[i] == w && ElementWrites(writes[..i], Elements(s.queue.used.value)) == done
  }

  /** Completion number `k` names a pending head, and if that is a request its status byte, with the value it must have,
      is among the writes, between the element before and its own. */
  ghost predicate StatusLogged(s: Start, writes: seq<Write>, k: nat, e: UsedElem)
    requires s.queue.used.Some?
  {
    exists n :: 0 <= n < |s.batch| && s.batch[n].head == e.id
                && (s.batch[n].status.Some? ==>
                      WrittenAfter(s, writes, s.batch[n].status.value, k - |s.queue.used.value.history|))
  }

  /** How many completions had their elements written before write number `j`, unbounded. */
  function ElementsBefore(s: Start, writes: seq<Write>, j: nat): nat
    requires s.queue.used.Some? && j <= |writes|
  {
    |s.queue.used.value.history| + ElementWrites(writes[..j], Elements(s.queue.used.value))
  }

  /** The element of completion number `n`, in its own slot, its status byte already written. */
  ghost predicate WritesElement(s: Start, history: seq<UsedElem>, writes: seq<Write>, j: nat, n: nat)
    requires s.queue.used.Some? && s.queue.used.value.size > 0 && j < |writes|
  {
    var u := s.queue.used.value;
    && n < |history|
    && writes[j] == Write(u.base + 4 + 8 * (n % u.size), Le32(history[n].id) + Le32(history[n].len))
    && StatusLogged(s, writes[..j], n, history[n])
  }

  /** The index field, announcing the completions whose elements are written, and no other. */
  predicate WritesIndex(s: Start, w: Write, n: nat)
    requires s.queue.used.Some?
  {
    w == Write(s.queue.used.value.base + 2, Le16(n % 0x1_0000))
  }

  /** Write number `j` leaves the used ring alone, or is the next element, or is the index of the elements so far. */
  ghost predicate InOrder(s: Start, history: seq<UsedElem>, writes: seq<Write>, j: nat)
    requires s.queue.used.Some? && s.queue.used.value.size > 0 && j < |writes|
  {
    var n := ElementsBefore(s, writes, j);
    || Disjoint(RegionOf(writes[j]), s.queue.used.value.Extent())
    || (writes[j].addr + |writes[j].data| <= |s.mem.bytes|
        && (WritesElement(s, history, writes, j, n) || WritesIndex(s, writes[j], n)))
  }

  /** Everything written since the start was in order, and the completions are those whose elements were written. */
  ghost predicate AllInOrder(s: Start, m: Mem, history: seq<UsedElem>)
    requires s.queue.used.Some? && s.queue.used.value.size > 0
  {
    && Extends(s.mem, m) && s.queue.used.value.history <= history
    && |history| == ElementsBefore(s, News(s, m), |News(s, m)|)
    && forall j :: 0 <= j < |News(s, m)| ==> InOrder(s, history, News(s, m), j)
  }

  lemma LoggedMonotone(s: Start, a: seq<Write>, b: seq<Write>, k: nat, e: UsedElem)
    requires s.queue.used.Some? && a <= b && StatusLogged(s, a, k, e)
    ensures StatusLogged(s, b, k, e)
  {
    var done := k - |s.queue.used.value.history|;
    var n :| 0 <= n < |s.batch| && s.batch[n].head == e.id
             && (s.batch[n].status.Some? ==> WrittenAfter(s, a, s.batch[n].status.value, done));
    if s.batch[n].status.Some? {
      var w := s.batch[n].status.value;
      var i :| 0 <= i < |a| && a[i] == w && ElementWrites(a[..i], Elements(s.queue.used.value)) == done;
      assert b[i] == a[i] && b[..i] == a[..i];
      assert WrittenAfter(s, b, w, done);
    }
  }

  lemma InOrderGrows(s: Start, h: seq<UsedElem>, h': seq<UsedElem>, a: seq<Write>, b: seq<Write>, j: nat)
    requires s.queue.used.Some? && s.queue.used.value.size > 0 && j < |a| && a <= b && h <= h'
    requires InOrder(s, h, a, j)
    ensures InOrder(s, h', b, j)
  {
    assert b[j] == a[j] && b[..j] == a[..j];
  }

  // ------------------------------------------------------------------ one write, and many writes elsewhere

  lemma ElementWritesStep(writes: seq<Write>, w: Write, elements: Region)
    ensures ElementWrites(writes + [w], elements) ==
            ElementWrites(writes, elements) + if w.data != [] && elements.Contains(w.addr) then 1 else 0
  {
    assert (writes + [w])[..|writes|] == writes;
  }

  lemma {:induction false} ElementWritesQuiet(a: seq<Write>, b: seq<Write>, elements: Region)
    requires forall i :: 0 <= i < |b| ==> Disjoint(RegionOf(b[i]), elements)
    ensures ElementWrites(a + b, elements) == ElementWrites(a, elements)
    decreases |b|
  {
    if b == [] {
      assert a + b == a;
    } else {
      var b0, w := b[..|b| - 1], b[|b| - 1];
      ElementWritesQuiet(a, b0, elements);
      ElementWritesStep(a + b0, w, elements);
      assert a + b == (a + b0) + [w];
      assert Disjoint(RegionOf(w), elements);
    }
  }

  /** One more write in order. */
  lemma OrderStore(s: Start, m: Mem, h: seq<UsedElem>, w: Write, h': seq<UsedElem>)
    requires s.queue.used.Some? && s.queue.used.value.size > 0 && AllInOrder(s, m, h) && h <= h'
    requires m.Accessible(w.addr, |w.data|)
    requires |h'| == |h| + if w.data != [] && Elements(s.queue.used.value).Contains(w.addr) then 1 else 0
    requires InOrder(s, h', News(s, m) + [w], |News(s, m)|)
    ensures AllInOrder(s, m.Store(w.addr, w.data), h')
  {
    var m' := m.Store(w.addr, w.data);
    var a, b := News(s, m), News(s, m');
    assert b == a + [w];
    ExtendsStore(s.mem, m, w.addr, w.data);
    assert a[..|a|] == a && b[..|b|] == b;
    ElementWritesStep(a, w, Elements(s.queue.used.value));
    forall j | 0 <= j < |b| ensures InOrder(s, h', b, j) {
      if j < |a| {
        InOrderGrows(s, h, h', a, b, j);
      }
    }
  }

  lemma OrderQuiet(s: Start, m: Mem, h: seq<UsedElem>, m': Mem)
    requires s.queue.used.Some? && s.queue.used.value.size > 0 && AllInOrder(s, m, h)
    requires Avoids(m, m', s.queue.used.value.Extent())
    ensures AllInOrder(s, m', h)
  {
    var a, b := News(s, m), News(s, m');
    var more := m'.log[|m.log|..];
    ExtendsTrans(s.mem, m, m');
    assert b == a + more && a[..|a|] == a && b[..|b|] == b;
    forall i | 0 <= i < |more|
      ensures Disjoint(RegionOf(more[i]), s.queue.used.value.Extent())
      ensures Disjoint(RegionOf(more[i]), Elements(s.queue.used.value))
    {
      assert more[i] == m'.log[|m.log| + i];
    }
    ElementWritesQuiet(a, more, Elements(s.queue.used.value));
    forall j | 0 <= j < |b| ensures InOrder(s, h, b, j) {
      if j < |a| {
        InOrderGrows(s, h, h, a, b, j);
      } else {
        assert b[j] == more[j - |a|];
      }
    }
  }

  // ------------------------------------------------------------------ one element

  /** The ring object has the place it had at the start, and its counter is its history, wrapped. */
  ghost predicate SameRing(s: Start, u: UsedState) {
    && s.queue.used.Some? && IsRingSize(u.size) && u.IsValid()
    && u.base == s.queue.used.value.base && u.size == s.queue.used.value.size
    && u.idx == |u.history| % 0x1_0000
  }

  /** Element first, index second; when the index write fails the header merely stays behind. */
  lemma AppendInOrder(s: Start, m: Mem, u: UsedState, e: UsedElem)
    requires SameRing(s, u) && AllInOrder(s, m, u.history)
    requires StatusLogged(s, News(s, m), |u.history|, e)
    ensures var (m', u', _) := AppendUsed(m, u, e); AllInOrder(s, m', u'.history) && SameRing(s, u')
  {
    var at := u.ElemAddr(u.idx % u.size);
    SlotOfCounter(|u.history|, u.size);
    AdvanceCounter(|u.history|, 1);
    if m.Accessible(at, USED_ELEM_SIZE) {
      ElementInOrder(s, m, u, e);
      var m1, h := m.Store(at, EncodeElem(e)), u.history + [e];
      assert Next(u.idx) == |h| % 0x1_0000;
      if m1.Accessible(u.IdxAddr(), 2) {
        IndexInOrder(s, m1, u, h);
      }
    }
  }

  lemma ElementInOrder(s: Start, m: Mem, u: UsedState, e: UsedElem)
    requires SameRing(s, u) && AllInOrder(s, m, u.history)
    requires StatusLogged(s, News(s, m), |u.history|, e)
    requires u.idx % u.size == |u.history| % u.size
    requires m.Accessible(u.ElemAddr(u.idx % u.size), USED_ELEM_SIZE)
    ensures AllInOrder(s, m.Store(u.ElemAddr(u.idx % u.size), EncodeElem(e)), u.history + [e])
  {
    var w := Write(u.ElemAddr(u.idx % u.size), EncodeElem(e));
    var writes := News(s, m) + [w];
    assert writes[..|News(s, m)|] == News(s, m) == News(s, m)[..|News(s, m)|];
    assert WritesElement(s, u.history + [e], writes, |News(s, m)|, |u.history|);
    OrderStore(s, m, u.history, w, u.history + [e]);
  }

  lemma IndexInOrder(s: Start, m: Mem, u: UsedState, h: seq<UsedElem>)
    requires SameRing(s, u) && AllInOrder(s, m, h) && m.Accessible(u.IdxAddr(), 2)
    ensures AllInOrder(s, m.Store(u.IdxAddr(), Le16(|h| % 0x1_0000)), h)
  {
    var w := Write(u.IdxAddr(), Le16(|h| % 0x1_0000));
    var writes := News(s, m) + [w];
    assert writes[..|News(s, m)|] == News(s, m) == News(s, m)[..|News(s, m)|];
    assert WritesIndex(s, w, |h|);
    OrderStore(s, m, h, w, h);
  }

  // ------------------------------------------------------------------ what is expected of a batch

  /** The status byte that running the request at `head` from this memory and disk reports, as a write. */
  ghost function StatusOfHead(m: Mem, d: Disk, q: QueueState, head: u16): Option<Write> {
    match Parse(m, q, head)
    case Ok(req) => Some(Write(req.statusAddr, [StatusFor(Outcome(req, m, d).2)]))
    case Err(_) => None
  }

  /** The pending heads with the status bytes that handling them one after the other, with no queue, gives. */
  ghost function ExpectedOf(m: Mem, d: Disk, q: QueueState, heads: seq<u16>): (batch: seq<Expected>)
    ensures |batch| == |heads|
  {
    seq(|heads|, n requires 0 <= n < |heads| =>
      var (m1, d1) := Sequentially(m, d, q, heads[..n]);
      Expected(heads[n], StatusOfHead(m1, d1, q, heads[n])))
  }

  ghost function StartOf(e: Engine): Start
    requires Wired(e.queue)
  {
    Start(e.mem, e.queue, ExpectedOf(e.mem, e.disk, e.queue, Pending(e)))
  }

  // ------------------------------------------------------------------ a whole notification

  /** A notification that began in `s` and has reached `e`. */
  ghost predicate Tracked(s: Start, e: Engine) {
    && Wired(s.queue) && Wired(e.queue) && RingsApart(e.queue) && e.queue.desc == s.queue.desc
    && SameOn(s.mem, e.mem, TableRegion(s.queue))
    && SameRing(s, e.queue.used.value) && AllInOrder(s, e.mem, e.queue.used.value.history)
  }

  /** Completed or deferred. */
  function Disposed(e: Engine, deferred: seq<UsedElem>): nat { Completed(e.queue) + |deferred| }

  /** Every deferred element names a pending head of which no status is expected. */
  ghost predicate AllRejected(s: Start, elems: seq<UsedElem>) {
    forall i :: 0 <= i < |elems| ==> Expected(elems[i].id, None) in s.batch
  }

  lemma TrackMove(s: Start, e: Engine, m: Mem, d: Disk)
    requires Tracked(s, e) && AvoidsQueue(e.mem, m, e.queue)
    ensures Tracked(s, e.(mem := m, disk := d))
  {
    OrderQuiet(s, e.mem, e.queue.used.value.history, m);
    AvoidsQueueSame(e.mem, m, e.queue);
  }

  lemma TrackAppend(s: Start, e: Engine, elem: UsedElem)
    requires Tracked(s, e) && StatusLogged(s, News(s, e.mem), |e.queue.used.value.history|, elem)
    ensures var (m, q, _) := QueueAppendUsed(e.mem, e.queue, elem);
            Tracked(s, e.(mem := m, queue := q)) && Completed(q) <= Completed(e.queue) + 1
  {
    PublishFrame(e, elem);
    AppendInOrder(s, e.mem, e.queue.used.value, elem);
  }

  lemma NextWrite(s: Start, m: Mem, w: Write, done: int)
    requires s.queue.used.Some? && |s.mem.log| <= |m.log| && m.Accessible(w.addr, |w.data|)
    requires ElementWrites(News(s, m), Elements(s.queue.used.value)) == done
    ensures WrittenAfter(s, News(s, m.Store(w.addr, w.data)), w, done)
  {
    var before, news := News(s, m), News(s, m.Store(w.addr, w.data));
    assert news == before + [w];
    assert news[|before|] == w && news[..|before|] == before;
  }

  lemma WrittenIsLogged(s: Start, writes: seq<Write>, k: nat, e: UsedElem, w: Write)
    requires s.queue.used.Some? && Expected(e.id, Some(w)) in s.batch
    requires WrittenAfter(s, writes, w, k - |s.queue.used.value.history|)
    ensures StatusLogged(s, writes, k, e)
  {
    var n :| 0 <= n < |s.batch| && s.batch[n] == Expected(e.id, Some(w));
  }

  lemma CountAfterData(s: Start, e: Engine, m1: Mem)
    requires Tracked(s, e) && Avoids(e.mem, m1, UsedRegion(e.queue))
    ensures |s.mem.log| <= |m1.log|
    ensures ElementWrites(News(s, m1), Elements(s.queue.used.value)) ==
            |e.queue.used.value.history| - |s.queue.used.value.history|
  {
    OrderQuiet(s, e.mem, e.queue.used.value.history, m1);
    assert News(s, m1)[..|News(s, m1)|] == News(s, m1);
  }

  lemma DataThenStatus(e: Engine, head: u16) returns (m1: Mem)
    requires Wired(e.queue) && ChainClear(e.mem, e.queue, head) && Parse(e.mem, e.queue, head).Ok?
    requires e.mem.Accessible(Parse(e.mem, e.queue, head).value.statusAddr, 1)
    ensures var w := StatusOfHead(e.mem, e.disk, e.queue, head).value;
            && Avoids(e.mem, m1, UsedRegion(e.queue)) && m1.Accessible(w.addr, |w.data|)
            && AfterRequest(e.mem, e.disk, Parse(e.mem, e.queue, head).value).0 == m1.Store(w.addr, w.data)
  {
    OutcomeAvoidsQueue(e.mem, e.disk, e.queue, head);
    m1 := Outcome(Parse(e.mem, e.queue, head).value, e.mem, e.disk).0;
  }

  /** A request that `e` runs next writes its status byte after the data and before any further element. */
  lemma StatusIsLogged(s: Start, e: Engine, head: u16, len: u32)
    requires Tracked(s, e) && ChainClear(e.mem, e.queue, head) && Parse(e.mem, e.queue, head).Ok?
    requires e.mem.Accessible(Parse(e.mem, e.queue, head).value.statusAddr, 1)
    requires Expected(head, StatusOfHead(e.mem, e.disk, e.queue, head)) in s.batch
    ensures var m := AfterRequest(e.mem, e.disk, Parse(e.mem, e.queue, head).value).0;
            && |s.mem.log| <= |m.log|
            && StatusLogged(s, News(s, m), |e.queue.used.value.history|, UsedElem(head, len))
  {
    var w := StatusOfHead(e.mem, e.disk, e.queue, head).value;
    var m1 := DataThenStatus(e, head);
    CountAfterData(s, e, m1);
    NextWrite(s, m1, w, |e.queue.used.value.history| - |s.queue.used.value.history|);
    WrittenIsLogged(s, News(s, m1.Store(w.addr, w.data)), |e.queue.used.value.history|, UsedElem(head, len), w);
  }

  lemma TrackRequest(s: Start, e: Engine, head: u16)
    requires Tracked(s, e)
    requires ChainClear(e.mem, e.queue, head) && Parse(e.mem, e.queue, head).Ok?
    requires Expected(head, StatusOfHead(e.mem, e.disk, e.queue, head)) in s.batch
    ensures var e' := RunRequest(e, head, Parse(e.mem, e.queue, head).value);
            Tracked(s, e') && Completed(e'.queue) <= Completed(e.queue) + 1
  {
    var req := Parse(e.mem, e.queue, head).value;
    var (m, d) := AfterRequest(e.mem, e.disk, req);
    RunRequestStages(e, head);
    TrackMove(s, e, m, d);
    if e.mem.Accessible(req.statusAddr, 1) {
      StatusIsLogged(s, e, head, ReportedLen(req));
      TrackAppend(s, e.(mem := m, disk := d), UsedElem(head, ReportedLen(req)));
    }
  }

  lemma TrackHead(s: Start, e: Engine, head: u16, deferred: seq<UsedElem>)
    requires Tracked(s, e) && ChainClear(e.mem, e.queue, head)
    requires AllRejected(s, deferred)
    requires Expected(head, StatusOfHead(e.mem, e.disk, e.queue, head)) in s.batch
    ensures var (e', deferred') := HandleHead(e, head, deferred);
            Tracked(s, e') && AllRejected(s, deferred')
            && Disposed(e', deferred') <= Disposed(e, deferred) + 1
  {
    if Parse(e.mem, e.queue, head).Ok? {
      TrackRequest(s, e, head);
    } else {
      RejectStages(e, head);
      TrackMove(s, e, StatusWritten(e.mem, e.queue, head, VIRTIO_BLK_S_IOERR).0, e.disk);
    }
  }

  // ------------------------------------------------------------------ along the batch

  /** `e` is where handling the first `n` of the heads leads, the used ring aside. */
  ghost predicate HandledSoFar(begin: Engine, heads: seq<u16>, n: nat, e: Engine)
    requires Wired(begin.queue) && n <= |heads|
  {
    var (m, d) := Sequentially(begin.mem, begin.disk, begin.queue, heads[..n]);
    && e.queue.desc == begin.queue.desc && e.queue.used.Some?
    && e.queue.used.value.Extent() == UsedRegion(begin.queue)
    && SameOff(e.mem, m, UsedRegion(begin.queue)) && e.disk == d
  }

  lemma SameStatus(m: Mem, m': Mem, d: Disk, q: QueueState, head: u16)
    requires Wired(q) && RingsApart(q) && ChainClear(m, q, head) && SameOff(m, m', UsedRegion(q))
    ensures StatusOfHead(m, d, q, head) == StatusOfHead(m', d, q, head)
  {
    ClearReads(m, q, head);
    ParseAgrees(m, m', q, head, UsedRegion(q));
    if Parse(m, q, head).Ok? {
      RequestReadsClear(m, q, head, UsedRegion(q));
      OutcomeAgree(Parse(m, q, head).value, m, m', d, UsedRegion(q));
    }
  }

  lemma ExpectedNext(begin: Engine, heads: seq<u16>, n: nat, e: Engine)
    requires Wired(begin.queue) && n < |heads| && HandledSoFar(begin, heads, n, e)
    requires Wired(e.queue) && RingsApart(e.queue) && ChainClear(e.mem, e.queue, heads[n])
    ensures Expected(heads[n], StatusOfHead(e.mem, e.disk, e.queue, heads[n]))
            in ExpectedOf(begin.mem, begin.disk, begin.queue, heads)
  {
    var (m, d) := Sequentially(begin.mem, begin.disk, begin.queue, heads[..n]);
    SameStatus(e.mem, m, d, e.queue, heads[n]);
    assert StatusOfHead(m, d, e.queue, heads[n]) == StatusOfHead(m, d, begin.queue, heads[n]);
    assert ExpectedOf(begin.mem, begin.disk, begin.queue, heads)[n] ==
           Expected(heads[n], StatusOfHead(e.mem, e.disk, e.queue, heads[n]));
  }

  lemma ReachNext(begin: Engine, heads: seq<u16>, n: nat, e: Engine, deferred: seq<UsedElem>)
    requires Wired(begin.queue) && n < |heads| && HandledSoFar(begin, heads, n, e)
    requires Wired(e.queue) && RingsApart(e.queue) && ChainClear(e.mem, e.queue, heads[n])
    ensures HandledSoFar(begin, heads, n + 1, HandleHead(e, heads[n], deferred).0)
  {
    var (m, d) := Sequentially(begin.mem, begin.disk, begin.queue, heads[..n]);
    RefineHead(e, m, begin.queue, heads[n], deferred);
    SequenceNext(begin.mem, begin.disk, begin.queue, heads, n);
  }

  lemma SequenceNext(m: Mem, d: Disk, q: QueueState, heads: seq<u16>, n: nat)
    requires n < |heads|
    ensures var (m1, d1) := Sequentially(m, d, q, heads[..n]);
            Sequentially(m, d, q, heads[..n + 1]) == HandleAlone(m1, d1, q, heads[n])
  {
    var (m1, d1) := Sequentially(m, d, q, heads[..n]);
    assert heads[..n + 1] == heads[..n] + [heads[n]];
    SequenceSplits(m, d, q, heads[..n], [heads[n]]);
    assert [heads[n]][1..] == [] && Sequentially(m1, d1, q, [heads[n]]) == HandleAlone(m1, d1, q, heads[n]);
  }

  lemma {:induction false} TrackDrain(begin: Engine, s: Start, e: Engine, cur: u16, stop: u16, deferred: seq<UsedElem>,
                                      heads: seq<u16>, n: nat)
    requires Tracked(s, e) && AllRejected(s, deferred)
    requires Wired(begin.queue) && s.batch == ExpectedOf(begin.mem, begin.disk, begin.queue, heads)
    requires n <= |heads| && HandledSoFar(begin, heads, n, e)
    requires heads[n..] == Fetched(e.mem, e.queue, cur, stop) && HeadsClear(e.mem, e.queue, heads[n..])
    ensures var (e', deferred') := Drain(e, cur, stop, deferred);
            Tracked(s, e') && AllRejected(s, deferred')
            && Disposed(e', deferred') <= Disposed(e, deferred) + Distance(cur, stop)
    decreases Distance(cur, stop)
  {
    if cur != stop {
      DistanceStep(cur, stop);
      if HeadAt(e.mem, e.queue, cur).Ok? {
        var rest := Fetched(e.mem, e.queue, Next(cur), stop);
        FetchedNext(heads, n, HeadAt(e.mem, e.queue, cur).value, rest);
        assert HeadsClear(e.mem, e.queue, heads[n..]) && heads[n..][0] == heads[n];
        var (e1, deferred1) := HandleHead(e, heads[n], deferred);
        HandleMeaning(e, heads[n], deferred);
        ExpectedNext(begin, heads, n, e);
        TrackHead(s, e, heads[n], deferred);
        ReachNext(begin, heads, n, e, deferred);
        FetchedFrame(e.mem, e1.mem, e.queue, e1.queue, Next(cur), stop);
        ClearRest(e, heads, n);
        HeadsFrame(e, e1, rest);
        TrackDrain(begin, s, e1, Next(cur), stop, deferred1, heads, n + 1);
      } else {
        TrackDrain(begin, s, e, Next(cur), stop, deferred, heads, n);
      }
    }
  }

  lemma FetchedNext(heads: seq<u16>, n: nat, head: u16, rest: seq<u16>)
    requires n <= |heads| && heads[n..] == [head] + rest
    ensures n < |heads| && heads[n] == head && heads[n + 1..] == rest
  {
    assert heads[n..][0] == head && heads[n..][1..] == rest;
  }

  lemma ClearRest(e: Engine, heads: seq<u16>, n: nat)
    requires Wired(e.queue) && n < |heads| && HeadsClear(e.mem, e.queue, heads[n..])
    ensures HeadsClear(e.mem, e.queue, heads[n + 1..])
  {
    var now, later := heads[n..], heads[n + 1..];
    assert forall i :: 0 <= i < |later| ==> later[i] == now[i + 1];
  }

  lemma RejectedIsLogged(s: Start, writes: seq<Write>, k: nat, elem: UsedElem)
    requires s.queue.used.Some? && Expected(elem.id, None) in s.batch
    ensures StatusLogged(s, writes, k, elem)
  {
    var n :| 0 <= n < |s.batch| && s.batch[n] == Expected(elem.id, None);
  }

  lemma {:induction false} TrackAppendAll(s: Start, e: Engine, elems: seq<UsedElem>)
    requires Tracked(s, e) && AllRejected(s, elems)
    ensures Tracked(s, AppendAll(e, elems)) && Completed(AppendAll(e, elems).queue) <= Disposed(e, elems)
    decreases |elems|
  {
    if elems != [] {
      RejectedIsLogged(s, News(s, e.mem), |e.queue.used.value.history|, elems[0]);
      TrackAppend(s, e, elems[0]);
      var (m, q, _) := QueueAppendUsed(e.mem, e.queue, elems[0]);
      TrackAppendAll(s, e.(mem := m, queue := q), elems[1..]);
    }
  }

  lemma TrackConsume(s: Start, e: Engine, stop: u16)
    requires Tracked(s, e)
    ensures Tracked(s, e.(queue := QueueConsume(e.queue, stop)))
  {
    AdvanceCounter(e.queue.avail.value.consumed, Distance(e.queue.avail.value.last, stop));
  }

  lemma StartsTracked(e: Engine)
    requires Wired(e.queue) && RingsApart(e.queue)
    ensures Tracked(StartOf(e), e) && HandledSoFar(e, Pending(e), 0, e)
  {
    ExtendsRefl(e.mem);
    assert Pending(e)[..0] == [];
  }

  /** Publication order. However long the batch, whatever the used ring holds, and whichever accesses fail, each write of
      a notification leaves the used ring alone, or is the element of the next completion, in its slot and after the
      completion's own status byte, whose place and value are those of handling the heads in order; or is the index,
      announcing exactly the completions whose elements are written. */
  lemma NotificationWritesInOrder(e: Engine)
    requires Wired(e.queue) && RingsApart(e.queue) && HeadsClear(e.mem, e.queue, Pending(e))
    ensures var e' := ProcessQueue(e);
            && Wired(e'.queue) && RingsApart(e'.queue) && SameRing(StartOf(e), e'.queue.used.value)
            && AllInOrder(StartOf(e), e'.mem, e'.queue.used.value.history)
            && Completed(e'.queue) <= Completed(e.queue) + Announced(e)
  {
    var s := StartOf(e);
    StartsTracked(e);
    if QueueAvailIdx(e.mem, e.queue).Ok? {
      var last, stop := e.queue.avail.value.last, QueueAvailIdx(e.mem, e.queue).value;
      assert Pending(e)[0..] == Pending(e);
      TrackDrain(e, s, e, last, stop, [], Pending(e), 0);
      ProcessQueueCases(e);
      var (e1, deferred) := Drain(e, last, stop, []);
      TrackConsume(s, e1, stop);
      TrackAppendAll(s, e1.(queue := QueueConsume(e1.queue, stop)), deferred);
    }
  }
}
