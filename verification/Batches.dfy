/** One notification, exactly: which heads it fetches, which elements it appends and in which order, what the driver
    finds in the used ring afterwards, and that the table and the available ring are untouched. */
module Batches {
  import opened Common
  import opened Bytes
  import opened Memory
  import opened WrappingCounters
  import opened Rings
  import opened BlockRequests
  import opened Queues
  import opened QueueEngine
  import opened ChainEffects
  import opened RingContents

  predicate EntryMapped(m: Mem, availBase: nat, i: nat) {
    m.Accessible(availBase + 4 + 2 * i, 2)
  }

  predicate ElemMapped(m: Mem, usedBase: nat, i: nat) {
    m.Accessible(usedBase + 4 + 8 * i, 8)
  }

  ghost predicate AvailMapped(m: Mem, base: nat, size: nat) {
    m.Accessible(base + 2, 2) && forall i :: 0 <= i < size ==> EntryMapped(m, base, i)
  }

  ghost predicate UsedMapped(m: Mem, base: nat, size: nat) {
    m.Accessible(base + 2, 2) && forall i :: 0 <= i < size ==> ElemMapped(m, base, i)
  }

  /** Every access to the index fields and the slots of both rings translates. */
  ghost predicate RingsMapped(m: Mem, q: QueueState)
    requires Wired(q)
  {
    && AvailMapped(m, q.avail.value.base, q.avail.value.size)
    && UsedMapped(m, q.used.value.base, q.used.value.size)
  }

  /** The entry at a 16-bit cursor. */
  function HeadAt(m: Mem, q: QueueState, cur: nat): Result<u16>
    requires q.size > 0
  {
    QueueAvailEntry(m, q, cur % q.size)
  }

  /** The heads between two cursors, in available order. */
  ghost function Fetched(m: Mem, q: QueueState, cur: u16, stop: u16): seq<u16>
    requires q.size > 0
    decreases Distance(cur, stop)
  {
    if cur == stop then []
    else
      DistanceStep(cur, stop);
      match HeadAt(m, q, cur)
      case Err(_) => Fetched(m, q, Next(cur), stop)
      case Ok(head) => [head] + Fetched(m, q, Next(cur), stop)
  }

  /** The element that handling a head appends at once, if its chain is a request whose status byte can be written. */
  function Delivered(m: Mem, q: QueueState, head: u16): seq<UsedElem> {
    var req := Parse(m, q, head);
    if req.Ok? && m.Accessible(req.value.statusAddr, 1) then [UsedElem(head, ReportedLen(req.value))] else []
  }

  /** The elements of the heads whose chains are requests, in order, each with the length its request reports. */
  ghost function ParsedElems(m: Mem, q: QueueState, heads: seq<u16>): seq<UsedElem> {
    if heads == [] then [] else Delivered(m, q, heads[0]) + ParsedElems(m, q, heads[1..])
  }

  /** The elements of the other heads, in order, each with length zero. */
  ghost function RejectedElems(m: Mem, q: QueueState, heads: seq<u16>): seq<UsedElem> {
    if heads == [] then []
    else (if Report(m, q, heads[0]).None? then [UsedElem(heads[0], 0)] else []) + RejectedElems(m, q, heads[1..])
  }

  ghost predicate HeadsClear(m: Mem, q: QueueState, heads: seq<u16>)
    requires Wired(q)
  {
    forall i :: 0 <= i < |heads| ==> ChainClear(m, q, heads[i])
  }

  ghost predicate HeadsReachable(m: Mem, q: QueueState, heads: seq<u16>) {
    forall i :: 0 <= i < |heads| ==> StatusReachable(m, q, heads[i])
  }

  /** What a driver that has reaped the first `from` completions relies on: the others are in their slots, and the
      index tells how many there are. */
  ghost predicate Intact(e: Engine, from: nat)
    requires Wired(e.queue)
  {
    && RingOk(e.queue.used.value, from)
    && RingHolds(e.mem.bytes, e.queue.used.value, from)
    && IndexShows(e.mem.bytes, e.queue.used.value, |e.queue.used.value.history|)
  }

  /** A served queue between two steps of a batch. The used ring's contents are followed too if `watch` is given; then
      it is the first completion the driver has not reaped. */
  ghost predicate Sound(e: Engine, watch: Option<nat>) {
    && Wired(e.queue) && RingsApart(e.queue) && RingsMapped(e.mem, e.queue)
    && (watch.Some? ==> Intact(e, watch.value))
  }

  /** A watched ring takes `n` more completions without overwriting one that was not reaped. */
  ghost predicate Room(e: Engine, watch: Option<nat>, n: nat)
    requires Wired(e.queue)
  {
    watch.Some? ==> |e.queue.used.value.history| + n <= watch.value + e.queue.used.value.size
  }

  /** What a batch leaves alone: the table, the available ring, and everything of the queue but its completions. */
  ghost predicate BatchFrame(e: Engine, e': Engine)
    requires Wired(e.queue)
  {
    && OnlyCompleted(e.queue, e'.queue)
    && SameOn(e.mem, e'.mem, TableRegion(e.queue)) && SameOn(e.mem, e'.mem, AvailRegion(e.queue))
  }

  lemma BatchFrameTrans(e: Engine, e': Engine, e'': Engine)
    requires Wired(e.queue) && Wired(e'.queue) && BatchFrame(e, e') && BatchFrame(e', e'')
    ensures BatchFrame(e, e'')
  {
  }

  // ------------------------------------------------------------------ frames

  lemma HeadAtFrame(m: Mem, m': Mem, q: QueueState, q': QueueState, cur: nat)
    requires Wired(q) && q'.size == q.size && q'.avail == q.avail && SameOn(m, m', AvailRegion(q))
    ensures HeadAt(m, q, cur) == HeadAt(m', q', cur)
  {
    var a := q.avail.value;
    var slot := cur % q.size % a.size;
    if m.Accessible(a.EntryAddr(slot), 2) {
      SameOnLoad(m, m', AvailRegion(q), a.EntryAddr(slot), 2);
    }
  }

  lemma {:induction false} FetchedFrame(m: Mem, m': Mem, q: QueueState, q': QueueState, cur: u16, stop: u16)
    requires Wired(q) && q'.size == q.size && q'.avail == q.avail && SameOn(m, m', AvailRegion(q))
    ensures Fetched(m, q, cur, stop) == Fetched(m', q', cur, stop)
    decreases Distance(cur, stop)
  {
    if cur != stop {
      DistanceStep(cur, stop);
      HeadAtFrame(m, m', q, q', cur);
      FetchedFrame(m, m', q, q', Next(cur), stop);
    }
  }

  lemma DeliveredFrame(m: Mem, m': Mem, q: QueueState, q': QueueState, head: u16)
    requires Wired(q) && q'.desc == q.desc && SameOn(m, m', TableRegion(q))
    ensures Delivered(m, q, head) == Delivered(m', q', head)
  {
    ParseFrame(m, m', q, head);
  }

  lemma {:induction false} ElemsFrame(m: Mem, m': Mem, q: QueueState, q': QueueState, heads: seq<u16>)
    requires Wired(q) && q'.desc == q.desc && SameOn(m, m', TableRegion(q))
    ensures ParsedElems(m, q, heads) == ParsedElems(m', q', heads)
    ensures RejectedElems(m, q, heads) == RejectedElems(m', q', heads)
  {
    if heads != [] {
      ParseFrame(m, m', q, heads[0]);
      DeliveredFrame(m, m', q, q', heads[0]);
      ElemsFrame(m, m', q, q', heads[1..]);
    }
  }

  lemma HeadsFrame(e: Engine, e': Engine, heads: seq<u16>)
    requires Wired(e.queue) && Wired(e'.queue) && BatchFrame(e, e')
    ensures HeadsClear(e.mem, e.queue, heads) ==> HeadsClear(e'.mem, e'.queue, heads)
    ensures HeadsReachable(e.mem, e.queue, heads) ==> HeadsReachable(e'.mem, e'.queue, heads)
  {
    forall i | 0 <= i < |heads|
      ensures ChainClear(e.mem, e.queue, heads[i]) ==> ChainClear(e'.mem, e'.queue, heads[i])
      ensures StatusReachable(e.mem, e.queue, heads[i]) ==> StatusReachable(e'.mem, e'.queue, heads[i])
    {
      ConditionsFrame(e.mem, e'.mem, e.queue, heads[i]);
    }
  }

  // ------------------------------------------------------------------ one element

  lemma AppendInside(m: Mem, u: UsedState, e: UsedElem)
    requires u.IsValid()
    ensures SameOff(m, AppendUsed(m, u, e).0, u.Extent())
  {
    var at := u.ElemAddr(u.idx % u.size);
    if m.Accessible(at, USED_ELEM_SIZE) {
      var m1 := m.Store(at, EncodeElem(e));
      assert SameOff(m, m1, u.Extent());
    }
  }

  lemma AppendFrame(e: Engine, elem: UsedElem)
    requires Wired(e.queue) && RingsApart(e.queue)
    ensures var (m, q, _) := QueueAppendUsed(e.mem, e.queue, elem);
            BatchFrame(e, e.(mem := m, queue := q)) && SameOff(e.mem, m, UsedRegion(e.queue))
  {
    var m := AppendUsed(e.mem, e.queue.used.value, elem).0;
    AppendInside(e.mem, e.queue.used.value, elem);
    SameOffOn(e.mem, m, UsedRegion(e.queue), TableRegion(e.queue));
    SameOffOn(e.mem, m, UsedRegion(e.queue), AvailRegion(e.queue));
  }

  /** Completing one more keeps the driver's picture right, if the ring has room for it. */
  lemma AppendContents(m: Mem, u: UsedState, elem: UsedElem, from: nat)
    requires RingOk(u, from) && RingHolds(m.bytes, u, from) && |u.history| < from + u.size
    requires m.Accessible(u.ElemAddr(u.idx % u.size), USED_ELEM_SIZE) && m.Accessible(u.IdxAddr(), 2)
    ensures var (m', u', r) := AppendUsed(m, u, elem);
            && r.Ok? && u' == Pushed(u, elem) && RingOk(u', from)
            && RingHolds(m'.bytes, u', from) && IndexShows(m'.bytes, u', |u'.history|)
  {
    var at := u.ElemAddr(u.idx % u.size);
    PushedOk(u, elem, from);
    ElementStore(m.bytes, u, elem, from);
    IndexStore(m.Store(at, EncodeElem(elem)).bytes, Pushed(u, elem), from);
  }

  lemma MappedFrame(m: Mem, m': Mem, q: QueueState, q': QueueState)
    requires Wired(q) && Wired(q') && SameShape(m, m') && RingsMapped(m, q)
    requires q'.avail.value.base == q.avail.value.base && q'.avail.value.size == q.avail.value.size
    requires q'.used.value.base == q.used.value.base && q'.used.value.size == q.used.value.size
    ensures RingsMapped(m', q')
  {
    forall i | 0 <= i < q.avail.value.size ensures EntryMapped(m', q.avail.value.base, i) {
      assert EntryMapped(m, q.avail.value.base, i);
    }
    forall i | 0 <= i < q.used.value.size ensures ElemMapped(m', q.used.value.base, i) {
      assert ElemMapped(m, q.used.value.base, i);
    }
  }

  lemma SoundMove(e: Engine, m: Mem, d: Disk, watch: Option<nat>)
    requires Sound(e, watch) && AvoidsQueue(e.mem, m, e.queue)
    ensures var e' := e.(mem := m, disk := d);
            Sound(e', watch) && BatchFrame(e, e')
  {
    AvoidsQueueSame(e.mem, m, e.queue);
    MappedFrame(e.mem, m, e.queue, e.queue);
    if watch.Some? {
      RingFrame(e.mem, m, e.queue.used.value, watch.value);
    }
  }

  /** From `e` to `e'`, exactly `added` was completed, and everything a batch must keep was kept. */
  ghost predicate Advances(e: Engine, e': Engine, watch: Option<nat>, added: seq<UsedElem>) {
    && Sound(e, watch) && Sound(e', watch) && BatchFrame(e, e')
    && e'.queue.used.value.history == e.queue.used.value.history + added
  }

  lemma AdvancesTrans(e: Engine, e': Engine, e'': Engine, watch: Option<nat>, a: seq<UsedElem>, b: seq<UsedElem>)
    requires Advances(e, e', watch, a) && Advances(e', e'', watch, b)
    ensures Advances(e, e'', watch, a + b)
  {
    BatchFrameTrans(e, e', e'');
    var h := e.queue.used.value.history;
    assert h + a + b == h + (a + b);
  }

  // ------------------------------------------------------------------ one head

  lemma AppendAdvances(e: Engine, elem: UsedElem, watch: Option<nat>)
    requires Sound(e, watch) && Room(e, watch, 1)
    ensures var (m, q, r) := QueueAppendUsed(e.mem, e.queue, elem);
            r.Ok? && Advances(e, e.(mem := m, queue := q), watch, [elem])
  {
    var u := e.queue.used.value;
    assert ElemMapped(e.mem, u.base, u.idx % u.size);
    AppendFrame(e, elem);
    AdvanceCounter(|u.history|, 1);
    var (m, q, _) := QueueAppendUsed(e.mem, e.queue, elem);
    MappedFrame(e.mem, m, e.queue, q);
    if watch.Some? {
      AppendContents(e.mem, u, elem, watch.value);
    }
  }

  lemma IrqIrrelevant(e: Engine, e': Engine, watch: Option<nat>, added: seq<UsedElem>)
    requires Advances(e, e', watch, added)
    ensures Advances(e, NotifyIfWanted(e'), watch, added)
  {
  }

  lemma MoveAdvances(e: Engine, m: Mem, d: Disk, watch: Option<nat>)
    requires Sound(e, watch) && AvoidsQueue(e.mem, m, e.queue)
    ensures Advances(e, e.(mem := m, disk := d), watch, [])
  {
    SoundMove(e, m, d, watch);
  }

  lemma RequestAdvances(e: Engine, head: u16, watch: Option<nat>)
    requires Sound(e, watch) && Room(e, watch, 1)
    requires ChainClear(e.mem, e.queue, head) && Parse(e.mem, e.queue, head).Ok?
    requires StatusReachable(e.mem, e.queue, head)
    ensures var req := Parse(e.mem, e.queue, head).value;
            Advances(e, RunRequest(e, head, req), watch, [UsedElem(head, ReportedLen(req))])
  {
    var req := Parse(e.mem, e.queue, head).value;
    var (m, d) := AfterRequest(e.mem, e.disk, req);
    RunRequestStages(e, head);
    MoveAdvances(e, m, d, watch);
    var e1 := e.(mem := m, disk := d);
    var elem := UsedElem(head, ReportedLen(req));
    AppendAdvances(e1, elem, watch);
    var (m2, q2, _) := QueueAppendUsed(e1.mem, e1.queue, elem);
    IrqIrrelevant(e1, e1.(mem := m2, queue := q2), watch, [elem]);
    AdvancesTrans(e, e1, PublishUsed(e1, elem), watch, [], [elem]);
    assert [] + [elem] == [elem];
  }

  /** A request whose status byte cannot be written runs, and is then never completed. */
  lemma LostRequestAdvances(e: Engine, head: u16, watch: Option<nat>)
    requires Sound(e, watch)
    requires ChainClear(e.mem, e.queue, head) && !StatusReachable(e.mem, e.queue, head)
    ensures Parse(e.mem, e.queue, head).Ok?
    ensures Advances(e, RunRequest(e, head, Parse(e.mem, e.queue, head).value), watch, [])
  {
    var (m, d) := AfterRequest(e.mem, e.disk, Parse(e.mem, e.queue, head).value);
    RunRequestStages(e, head);
    MoveAdvances(e, m, d, watch);
  }

  /** A head whose chain is a request appends its element at once; an unparsable one is deferred. */
  lemma HandleAdvances(e: Engine, head: u16, deferred: seq<UsedElem>, watch: Option<nat>)
    requires Sound(e, watch) && Room(e, watch, 1)
    requires ChainClear(e.mem, e.queue, head)
    ensures var (e', deferred') := HandleHead(e, head, deferred);
            && Advances(e, e', watch, ParsedElems(e.mem, e.queue, [head]))
            && deferred' == deferred + RejectedElems(e.mem, e.queue, [head])
  {
    OneHead(e.mem, e.queue, head);
    if !StatusReachable(e.mem, e.queue, head) {
      LostRequestAdvances(e, head, watch);
    } else if Parse(e.mem, e.queue, head).Ok? {
      RequestAdvances(e, head, watch);
    } else {
      RejectStages(e, head);
      MoveAdvances(e, StatusWritten(e.mem, e.queue, head, VIRTIO_BLK_S_IOERR).0, e.disk, watch);
    }
  }

  lemma OneHead(m: Mem, q: QueueState, head: u16)
    ensures ParsedElems(m, q, [head]) == Delivered(m, q, head)
    ensures RejectedElems(m, q, [head]) == if Parse(m, q, head).Err? then [UsedElem(head, 0)] else []
  {
    assert [head][1..] == [];
  }

  lemma EntryReadable(m: Mem, q: QueueState, cur: nat)
    requires Wired(q) && RingsMapped(m, q)
    ensures HeadAt(m, q, cur).Ok?
  {
    assert EntryMapped(m, q.avail.value.base, cur % q.size % q.avail.value.size);
  }

  lemma {:induction false} FetchedLen(m: Mem, q: QueueState, cur: u16, stop: u16)
    requires Wired(q) && RingsMapped(m, q)
    ensures |Fetched(m, q, cur, stop)| == Distance(cur, stop)
    decreases Distance(cur, stop)
  {
    if cur != stop {
      DistanceStep(cur, stop);
      EntryReadable(m, q, cur);
      FetchedLen(m, q, Next(cur), stop);
    }
  }

  lemma ElemsSplit(m: Mem, q: QueueState, head: u16, rest: seq<u16>)
    ensures ParsedElems(m, q, [head] + rest) == ParsedElems(m, q, [head]) + ParsedElems(m, q, rest)
    ensures RejectedElems(m, q, [head] + rest) == RejectedElems(m, q, [head]) + RejectedElems(m, q, rest)
  {
    assert ([head] + rest)[1..] == rest && [head][1..] == [];
  }

  lemma ReachableSplit(m: Mem, q: QueueState, heads: seq<u16>)
    requires heads != []
    ensures HeadsReachable(m, q, heads) <==> StatusReachable(m, q, heads[0]) && HeadsReachable(m, q, heads[1..])
  {
    assert forall i :: 0 <= i < |heads[1..]| ==> heads[1..][i] == heads[i + 1];
    if StatusReachable(m, q, heads[0]) && HeadsReachable(m, q, heads[1..]) {
      forall i | 0 <= i < |heads| ensures StatusReachable(m, q, heads[i]) {
        assert i > 0 ==> heads[i] == heads[1..][i - 1];
      }
    }
  }

  /** How many of the heads are requests whose status byte cannot be written: they run and are never completed. */
  ghost function Lost(m: Mem, q: QueueState, heads: seq<u16>): nat {
    if heads == [] then 0 else (if StatusReachable(m, q, heads[0]) then 0 else 1) + Lost(m, q, heads[1..])
  }

  /** There is one element for each head that is not lost, and none is lost if and only if every request among them has
      a status byte that can be written. */
  lemma {:induction false} ElemsLen(m: Mem, q: QueueState, heads: seq<u16>)
    ensures |ParsedElems(m, q, heads)| + |RejectedElems(m, q, heads)| + Lost(m, q, heads) == |heads|
    ensures Lost(m, q, heads) == 0 <==> HeadsReachable(m, q, heads)
  {
    if heads != [] {
      ElemsLen(m, q, heads[1..]);
      ReachableSplit(m, q, heads);
    }
  }

  // ------------------------------------------------------------------ the loop

  /** The condition a driver meets for the heads a batch will fetch. */
  ghost predicate Admissible(e: Engine, heads: seq<u16>) {
    Wired(e.queue) && HeadsClear(e.mem, e.queue, heads)
  }

  /** What is left of the batch after its first head, seen from the state that head leaves. */
  lemma RestUnchanged(e: Engine, e1: Engine, watch: Option<nat>, head: u16, rest: seq<u16>, added: seq<UsedElem>)
    requires Advances(e, e1, watch, added) && Admissible(e, [head] + rest)
    ensures Admissible(e1, rest)
    ensures ParsedElems(e.mem, e.queue, [head] + rest) ==
            ParsedElems(e.mem, e.queue, [head]) + ParsedElems(e1.mem, e1.queue, rest)
    ensures RejectedElems(e.mem, e.queue, [head] + rest) ==
            RejectedElems(e.mem, e.queue, [head]) + RejectedElems(e1.mem, e1.queue, rest)
  {
    var heads := [head] + rest;
    assert forall i :: 0 <= i < |rest| ==> rest[i] == heads[i + 1];
    HeadsFrame(e, e1, rest);
    ElemsFrame(e.mem, e1.mem, e.queue, e1.queue, rest);
    ElemsSplit(e.mem, e.queue, head, rest);
  }

  lemma FirstFetched(e: Engine, cur: u16, stop: u16, watch: Option<nat>) returns (head: u16)
    requires Sound(e, watch) && cur != stop
    ensures HeadAt(e.mem, e.queue, cur) == Ok(head)
    ensures Distance(cur, stop) == Distance(Next(cur), stop) + 1
    ensures Fetched(e.mem, e.queue, cur, stop) == [head] + Fetched(e.mem, e.queue, Next(cur), stop)
  {
    DistanceStep(cur, stop);
    EntryReadable(e.mem, e.queue, cur);
    head := HeadAt(e.mem, e.queue, cur).value;
  }

  lemma Assoc(a: seq<UsedElem>, b: seq<UsedElem>, c: seq<UsedElem>)
    ensures (a + b) + c == a + (b + c)
    ensures [] + a == a
  {
  }

  lemma DrainCons(e: Engine, e1: Engine, e2: Engine, watch: Option<nat>, head: u16, rest: seq<u16>,
                  deferred: seq<UsedElem>, deferred1: seq<UsedElem>, deferred2: seq<UsedElem>)
    requires Admissible(e, [head] + rest)
    requires Advances(e, e1, watch, ParsedElems(e.mem, e.queue, [head]))
    requires Advances(e1, e2, watch, ParsedElems(e1.mem, e1.queue, rest))
    requires deferred1 == deferred + RejectedElems(e.mem, e.queue, [head])
    requires deferred2 == deferred1 + RejectedElems(e1.mem, e1.queue, rest)
    ensures Advances(e, e2, watch, ParsedElems(e.mem, e.queue, [head] + rest))
    ensures deferred2 == deferred + RejectedElems(e.mem, e.queue, [head] + rest)
  {
    var p0, p1 := ParsedElems(e.mem, e.queue, [head]), ParsedElems(e1.mem, e1.queue, rest);
    var r0, r1 := RejectedElems(e.mem, e.queue, [head]), RejectedElems(e1.mem, e1.queue, rest);
    RestUnchanged(e, e1, watch, head, rest, p0);
    AdvancesTrans(e, e1, e2, watch, p0, p1);
    Assoc(deferred, r0, r1);
  }

  /** Draining appends the parsed heads in available order and defers the others in available order. */
  lemma {:induction false} DrainAdvances(e: Engine, cur: u16, stop: u16, deferred: seq<UsedElem>, watch: Option<nat>)
    requires Sound(e, watch) && Admissible(e, Fetched(e.mem, e.queue, cur, stop))
    requires Room(e, watch, Distance(cur, stop))
    ensures var heads := Fetched(e.mem, e.queue, cur, stop);
            var (e', deferred') := Drain(e, cur, stop, deferred);
            && Advances(e, e', watch, ParsedElems(e.mem, e.queue, heads))
            && deferred' == deferred + RejectedElems(e.mem, e.queue, heads)
    decreases Distance(cur, stop)
  {
    if cur != stop {
      var head := FirstFetched(e, cur, stop, watch);
      var rest := Fetched(e.mem, e.queue, Next(cur), stop);
      var (e1, deferred1) := HandleHead(e, head, deferred);
      HeadAdmissible(e, head, rest);
      HandleAdvances(e, head, deferred, watch);
      RestUnchanged(e, e1, watch, head, rest, ParsedElems(e.mem, e.queue, [head]));
      FetchedFrame(e.mem, e1.mem, e.queue, e1.queue, Next(cur), stop);
      ElemsLen(e.mem, e.queue, [head]);
      DrainAdvances(e1, Next(cur), stop, deferred1, watch);
      var (e2, deferred2) := Drain(e1, Next(cur), stop, deferred1);
      DrainCons(e, e1, e2, watch, head, rest, deferred, deferred1, deferred2);
    }
  }

  lemma HeadAdmissible(e: Engine, head: u16, rest: seq<u16>)
    requires Admissible(e, [head] + rest)
    ensures ChainClear(e.mem, e.queue, head)
  {
    assert ([head] + rest)[0] == head;
  }

  lemma {:induction false} AppendAllAdvances(e: Engine, elems: seq<UsedElem>, watch: Option<nat>)
    requires Sound(e, watch)
    requires Room(e, watch, |elems|)
    ensures Advances(e, AppendAll(e, elems), watch, elems)
    decreases |elems|
  {
    if elems != [] {
      AppendAdvances(e, elems[0], watch);
      var (m, q, _) := QueueAppendUsed(e.mem, e.queue, elems[0]);
      var e1 := e.(mem := m, queue := q);
      AppendAllAdvances(e1, elems[1..], watch);
      AdvancesTrans(e, e1, AppendAll(e1, elems[1..]), watch, [elems[0]], elems[1..]);
      assert elems == [elems[0]] + elems[1..];
    }
  }

  // ------------------------------------------------------------------ the notification

  ghost function Pending(e: Engine): seq<u16>
    requires Wired(e.queue)
  {
    if QueueAvailIdx(e.mem, e.queue).Err? then []
    else Fetched(e.mem, e.queue, e.queue.avail.value.last, QueueAvailIdx(e.mem, e.queue).value)
  }

  lemma SoundConsume(e: Engine, stop: u16, watch: Option<nat>)
    requires Sound(e, watch)
    ensures Sound(e.(queue := QueueConsume(e.queue, stop)), watch)
  {
    AdvanceCounter(e.queue.avail.value.consumed, Distance(e.queue.avail.value.last, stop));
  }

  lemma FinishAdvances(e: Engine, stop: u16, deferred: seq<UsedElem>, watch: Option<nat>)
    requires Sound(e, watch)
    requires Room(e, watch, |deferred|)
    ensures Advances(e.(queue := QueueConsume(e.queue, stop)), Finish(e, stop, deferred), watch, deferred)
  {
    SoundConsume(e, stop, watch);
    var e1 := e.(queue := QueueConsume(e.queue, stop));
    AppendAllAdvances(e1, deferred, watch);
    IrqIrrelevant(e1, AppendAll(e1, deferred), watch, deferred);
  }

  lemma ProcessQueueCases(e: Engine)
    requires Wired(e.queue) && QueueAvailIdx(e.mem, e.queue).Ok?
    ensures var last, stop := e.queue.avail.value.last, QueueAvailIdx(e.mem, e.queue).value;
            var (e1, deferred) := Drain(e, last, stop, []);
            && (last == stop ==> ProcessQueue(e) == e)
            && (last != stop ==> ProcessQueue(e) == Finish(e1, stop, deferred))
  {
  }

  lemma FinishCombines(e: Engine, e1: Engine, e2: Engine, watch: Option<nat>, stop: u16,
                       parsed: seq<UsedElem>, rejected: seq<UsedElem>)
    requires Advances(e, e1, watch, parsed)
    requires Advances(e1.(queue := QueueConsume(e1.queue, stop)), e2, watch, rejected)
    ensures Sound(e2, watch)
    ensures SameOn(e.mem, e2.mem, TableRegion(e.queue)) && SameOn(e.mem, e2.mem, AvailRegion(e.queue))
    ensures e2.queue.avail.value == Consume(e.queue.avail.value, stop)
    ensures e2.queue.desc == e.queue.desc && e2.queue.size == e.queue.size
    ensures e2.queue.used.value.Extent() == e.queue.used.value.Extent()
    ensures e2.queue.used.value.size == e.queue.used.value.size
    ensures e2.queue.used.value.history == e.queue.used.value.history + (parsed + rejected)
  {
    var h := e.queue.used.value.history;
    assert h + parsed + rejected == h + (parsed + rejected);
  }

  /** From `e` to `e'` every pending entry was consumed and, in this order, the requests among the pending heads were
      completed in available order, with the lengths they report, and then the unparsable heads in available order,
      with length zero. The table, the available ring and the queue's configuration are untouched. */
  ghost predicate CompletesPending(e: Engine, e': Engine)
    requires Wired(e.queue)
  {
    var q, q', heads := e.queue, e'.queue, Pending(e);
    && QueueAvailIdx(e.mem, q).Ok? && q'.avail.Some? && q'.used.Some?
    && q'.avail.value == Consume(q.avail.value, QueueAvailIdx(e.mem, q).value)
    && q'.avail.value.consumed == q.avail.value.consumed + |heads|
    && q'.used.value.history ==
       q.used.value.history + (ParsedElems(e.mem, q, heads) + RejectedElems(e.mem, q, heads))
    && q'.used.value.base == q.used.value.base && q'.used.value.size == q.used.value.size
    && q'.desc == q.desc && q'.size == q.size
    && SameOn(e.mem, e'.mem, TableRegion(q)) && SameOn(e.mem, e'.mem, AvailRegion(q))
  }

  lemma NotificationAdvances(e: Engine, watch: Option<nat>)
    requires Sound(e, watch) && Admissible(e, Pending(e)) && Room(e, watch, |Pending(e)|)
    ensures Sound(ProcessQueue(e), watch) && CompletesPending(e, ProcessQueue(e))
  {
    var last := e.queue.avail.value.last;
    var stop := QueueAvailIdx(e.mem, e.queue).value;
    var heads := Pending(e);
    FetchedLen(e.mem, e.queue, last, stop);
    ElemsLen(e.mem, e.queue, heads);
    DrainAdvances(e, last, stop, [], watch);
    DistanceZero(last, stop);
    ProcessQueueCases(e);
    Assoc(RejectedElems(e.mem, e.queue, heads), [], []);
    var (e1, deferred) := Drain(e, last, stop, []);
    if last != stop {
      FinishAdvances(e1, stop, deferred, watch);
      FinishCombines(e, e1, Finish(e1, stop, deferred), watch, stop, ParsedElems(e.mem, e.queue, heads), deferred);
    }
  }

  /** One notification, over mapped and disjoint memory, however long the batch and whatever the used ring holds: what
      is completed is the stable partition of the pending heads, and it is as much as was consumed, less the lost
      requests; so as much if and only if every pending request has a status byte that can be written. */
  lemma NotificationExact(e: Engine)
    requires Wired(e.queue) && RingsApart(e.queue) && RingsMapped(e.mem, e.queue)
    requires HeadsClear(e.mem, e.queue, Pending(e))
    ensures var e' := ProcessQueue(e);
            && CompletesPending(e, e')
            && Wired(e'.queue) && RingsApart(e'.queue) && RingsMapped(e'.mem, e'.queue)
            && Consumed(e'.queue) - Consumed(e.queue) ==
               Completed(e'.queue) - Completed(e.queue) + Lost(e.mem, e.queue, Pending(e))
            && (Completed(e'.queue) - Completed(e.queue) == Consumed(e'.queue) - Consumed(e.queue)
                <==> HeadsReachable(e.mem, e.queue, Pending(e)))
  {
    NotificationAdvances(e, None);
    ElemsLen(e.mem, e.queue, Pending(e));
  }

  /** If moreover the batch fits beside what the driver has not reaped, the driver still finds every such element in its
      slot, and the index telling how many there are. */
  lemma NotificationKeepsRing(e: Engine, from: nat)
    requires Wired(e.queue) && RingsApart(e.queue) && RingsMapped(e.mem, e.queue)
    requires HeadsClear(e.mem, e.queue, Pending(e))
    requires Intact(e, from) && |e.queue.used.value.history| + |Pending(e)| <= from + e.queue.used.value.size
    ensures Wired(ProcessQueue(e).queue) && Intact(ProcessQueue(e), from)
  {
    NotificationAdvances(e, Some(from));
  }
}
