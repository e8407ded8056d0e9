/** The meaning of a batch: apart from the used ring itself, a notification does to guest memory and to the disk exactly
    what handling its heads one after the other would, with no queue at all. */
module SequentialMeaning {
  import opened Common
  import opened Bytes
  import opened Memory
  import opened WrappingCounters
  import opened Descriptors
  import opened Rings
  import opened BlockRequests
  import opened Transfers
  import opened Queues
  import opened QueueEngine
  import opened ChainEffects
  import opened Batches

  /** Parse, execute, write status. */
  ghost function HandleAlone(m: Mem, d: Disk, q: QueueState, head: u16): (Mem, Disk) {
    match Parse(m, q, head)
    case Ok(req) => AfterRequest(m, d, req)
    case Err(_) => (StatusWritten(m, q, head, 1).0, d)
  }

  ghost function Sequentially(m: Mem, d: Disk, q: QueueState, heads: seq<u16>): (Mem, Disk)
    decreases |heads|
  {
    if heads == [] then (m, d)
    else
      var (m1, d1) := HandleAlone(m, d, q, heads[0]);
      Sequentially(m1, d1, q, heads[1..])
  }

  // ------------------------------------------------------------------ agreement outside a region

  lemma SameOffTrans(m: Mem, m': Mem, m'': Mem, x: Region)
    requires SameOff(m, m', x) && SameOff(m', m'', x)
    ensures SameOff(m, m'', x)
  {
    forall i | 0 <= i < |m.bytes| && !x.Contains(i) ensures m.bytes[i] == m''.bytes[i] {
      assert m.bytes[i] == m'.bytes[i];
    }
  }

  /** What a head's handling reads besides the table: its device-readable buffers. */
  ghost predicate ReadsClear(m: Mem, q: QueueState, head: nat, x: Region) {
    var chain := QueueFollow(m, q, head);
    chain.Ok? ==> forall i :: 0 <= i < |chain.value| && !chain.value[i].IsWrite() ==> Disjoint(chain.value[i].Extent(), x)
  }

  lemma ParseAgrees(m: Mem, m': Mem, q: QueueState, head: nat, x: Region)
    requires Wired(q) && SameOff(m, m', x) && Disjoint(TableRegion(q), x) && ReadsClear(m, q, head, x)
    ensures Parse(m, q, head) == Parse(m', q, head)
    ensures QueueStatusAddr(m, q, head) == QueueStatusAddr(m', q, head)
  {
    SameOffOn(m, m', x, TableRegion(q));
    ParseFrame(m, m', q, head);
    if Parse(m, q, head).Ok? {
      var ds := QueueFollow(m, q, head).value;
      assert Disjoint(ds[0].Extent(), x);
      SameOffLoad(m, m', x, ds[0].addr, BLOCK_HEADER_SIZE);
    }
  }

  lemma RequestReadsClear(m: Mem, q: QueueState, head: nat, x: Region)
    requires ReadsClear(m, q, head, x) && Parse(m, q, head).Ok?
    ensures Clear(Parse(m, q, head).value.buffers, false, x)
  {
    var ds := QueueFollow(m, q, head).value;
    var bufs := Parse(m, q, head).value.buffers;
    forall i | 0 <= i < |bufs| && !bufs[i].isWrite ensures Disjoint(bufs[i].Extent(), x) {
      assert bufs[i] == AsBuffer(ds[i + 1]);
    }
  }

  lemma AfterRequestAgrees(req: BlockRequest, m: Mem, m': Mem, d: Disk, x: Region)
    requires SameOff(m, m', x) && Clear(req.buffers, false, x)
    ensures SameOff(AfterRequest(m, d, req).0, AfterRequest(m', d, req).0, x)
    ensures AfterRequest(m, d, req).1 == AfterRequest(m', d, req).1
  {
    OutcomeAgree(req, m, m', d, x);
    var (m1, _, res) := Outcome(req, m, d);
    StoreAgree(m1, Outcome(req, m', d).0, x, req.statusAddr, [StatusFor(res)]);
  }

  /** Handling a head in two memories that agree outside a region it does not read keeps them agreeing there, with the
      same disk. */
  lemma AloneAgrees(m: Mem, m': Mem, d: Disk, q: QueueState, head: u16, x: Region)
    requires Wired(q) && SameOff(m, m', x) && Disjoint(TableRegion(q), x) && ReadsClear(m, q, head, x)
    ensures SameOff(HandleAlone(m, d, q, head).0, HandleAlone(m', d, q, head).0, x)
    ensures HandleAlone(m, d, q, head).1 == HandleAlone(m', d, q, head).1
  {
    ParseAgrees(m, m', q, head, x);
    if Parse(m, q, head).Ok? {
      var req := Parse(m, q, head).value;
      RequestReadsClear(m, q, head, x);
      AfterRequestAgrees(req, m, m', d, x);
    } else if QueueStatusAddr(m, q, head).Ok? {
      StoreAgree(m, m', x, QueueStatusAddr(m, q, head).value, [VIRTIO_BLK_S_IOERR]);
    }
  }

  lemma AloneAvoidsQueue(m: Mem, d: Disk, q: QueueState, head: u16)
    requires Wired(q) && ChainClear(m, q, head)
    ensures AvoidsQueue(m, HandleAlone(m, d, q, head).0, q)
  {
    if Parse(m, q, head).Ok? {
      AfterRequestAvoids(m, d, q, head);
    } else {
      ExtendsRefl(m);
      StatusWriteAvoids(m, m, q, head, VIRTIO_BLK_S_IOERR);
    }
  }

  // ------------------------------------------------------------------ one head of the engine

  /** A used element changes only the used ring and the queue's completion counters. */
  lemma PublishFrame(e: Engine, elem: UsedElem)
    requires Wired(e.queue) && RingsApart(e.queue)
    ensures var e' := PublishUsed(e, elem);
            && Wired(e'.queue) && RingsApart(e'.queue) && BatchFrame(e, e')
            && SameOff(e.mem, e'.mem, UsedRegion(e.queue)) && e'.disk == e.disk
  {
    AppendFrame(e, elem);
    AdvanceCounter(|e.queue.used.value.history|, 1);
  }

  /** Memory and used ring after at most one element was appended. */
  ghost function AfterElement(m: Mem, u: UsedState, elems: seq<UsedElem>): (Mem, Option<UsedState>) {
    if elems == [] then (m, Some(u))
    else
      var (m', u', _) := AppendUsed(m, u, elems[0]);
      (m', Some(u'))
  }

  lemma FrameFromAvoids(e: Engine, m: Mem, d: Disk)
    requires Wired(e.queue) && AvoidsQueue(e.mem, m, e.queue)
    ensures BatchFrame(e, e.(mem := m, disk := d))
  {
    AvoidsQueueSame(e.mem, m, e.queue);
  }

  /** The engine handles a head as `HandleAlone` does, and then appends the head's element if there is one. */
  lemma HandleMeaning(e: Engine, head: u16, deferred: seq<UsedElem>)
    requires Wired(e.queue) && RingsApart(e.queue) && ChainClear(e.mem, e.queue, head)
    ensures var e' := HandleHead(e, head, deferred).0;
            var (m, d) := HandleAlone(e.mem, e.disk, e.queue, head);
            && Wired(e'.queue) && RingsApart(e'.queue) && BatchFrame(e, e')
            && SameOff(m, e'.mem, UsedRegion(e.queue)) && e'.disk == d
            && (e'.mem, e'.queue.used) == AfterElement(m, e.queue.used.value, Delivered(e.mem, e.queue, head))
  {
    var (m, d) := HandleAlone(e.mem, e.disk, e.queue, head);
    var e1 := e.(mem := m, disk := d);
    AloneAvoidsQueue(e.mem, e.disk, e.queue, head);
    FrameFromAvoids(e, m, d);
    if Parse(e.mem, e.queue, head).Ok? {
      var req := Parse(e.mem, e.queue, head).value;
      RunRequestStages(e, head);
      PublishFrame(e1, UsedElem(head, ReportedLen(req)));
      if e.mem.Accessible(req.statusAddr, 1) {
        BatchFrameTrans(e, e1, RunRequest(e, head, req));
      }
    }
  }

  // ------------------------------------------------------------------ the batch

  lemma ClearReads(m: Mem, q: QueueState, head: nat)
    requires Wired(q) && ChainClear(m, q, head)
    ensures ReadsClear(m, q, head, UsedRegion(q))
  {
    var chain := QueueFollow(m, q, head);
    if chain.Ok? {
      forall i | 0 <= i < |chain.value| ensures Disjoint(chain.value[i].Extent(), UsedRegion(q)) {
        assert DescClear(q, chain.value[i]);
      }
    }
  }

  /** One step of the refinement: the engine's memory and the queue-free memory keep agreeing outside the used ring. */
  lemma RefineHead(e: Engine, m: Mem, q: QueueState, head: u16, deferred: seq<UsedElem>)
    requires Wired(e.queue) && RingsApart(e.queue) && ChainClear(e.mem, e.queue, head)
    requires Wired(q) && q.desc == e.queue.desc && UsedRegion(q) == UsedRegion(e.queue)
    requires SameOff(e.mem, m, UsedRegion(q))
    ensures var e' := HandleHead(e, head, deferred).0;
            var (m', d') := HandleAlone(m, e.disk, q, head);
            && Wired(e'.queue) && RingsApart(e'.queue) && BatchFrame(e, e')
            && SameOff(e'.mem, m', UsedRegion(q)) && e'.disk == d'
  {
    HandleMeaning(e, head, deferred);
    ClearReads(e.mem, e.queue, head);
    AloneAgrees(e.mem, m, e.disk, e.queue, head, UsedRegion(q));
    assert HandleAlone(m, e.disk, q, head) == HandleAlone(m, e.disk, e.queue, head);
    SameOffTrans(HandleHead(e, head, deferred).0.mem, HandleAlone(e.mem, e.disk, e.queue, head).0,
                 HandleAlone(m, e.disk, q, head).0, UsedRegion(q));
  }

  lemma {:induction false} DrainMeaning(e: Engine, m: Mem, q: QueueState, cur: u16, stop: u16, deferred: seq<UsedElem>)
    requires Wired(e.queue) && RingsApart(e.queue)
    requires HeadsClear(e.mem, e.queue, Fetched(e.mem, e.queue, cur, stop))
    requires Wired(q) && q.desc == e.queue.desc && UsedRegion(q) == UsedRegion(e.queue)
    requires SameOff(e.mem, m, UsedRegion(q))
    ensures var e' := Drain(e, cur, stop, deferred).0;
            var (m', d') := Sequentially(m, e.disk, q, Fetched(e.mem, e.queue, cur, stop));
            && Wired(e'.queue) && RingsApart(e'.queue) && BatchFrame(e, e')
            && SameOff(e'.mem, m', UsedRegion(q)) && e'.disk == d'
    decreases Distance(cur, stop)
  {
    if cur != stop {
      DistanceStep(cur, stop);
      if HeadAt(e.mem, e.queue, cur).Ok? {
        var head := HeadAt(e.mem, e.queue, cur).value;
        var rest := Fetched(e.mem, e.queue, Next(cur), stop);
        var heads := [head] + rest;
        assert heads[0] == head && heads[1..] == rest;
        assert forall i :: 0 <= i < |rest| ==> rest[i] == heads[i + 1];
        RefineHead(e, m, q, head, deferred);
        var (e1, deferred1) := HandleHead(e, head, deferred);
        FetchedFrame(e.mem, e1.mem, e.queue, e1.queue, Next(cur), stop);
        HeadsFrame(e, e1, rest);
        DrainMeaning(e1, HandleAlone(m, e.disk, q, head).0, q, Next(cur), stop, deferred1);
        BatchFrameTrans(e, e1, Drain(e1, Next(cur), stop, deferred1).0);
      } else {
        DrainMeaning(e, m, q, Next(cur), stop, deferred);
      }
    }
  }

  lemma {:induction false} AppendAllFrame(e: Engine, elems: seq<UsedElem>)
    requires Wired(e.queue) && RingsApart(e.queue)
    ensures var e' := AppendAll(e, elems);
            && Wired(e'.queue) && RingsApart(e'.queue) && BatchFrame(e, e')
            && SameOff(e'.mem, e.mem, UsedRegion(e.queue)) && e'.disk == e.disk
    decreases |elems|
  {
    if elems != [] {
      PublishFrame(e, elems[0]);
      var (m, q, _) := QueueAppendUsed(e.mem, e.queue, elems[0]);
      var e1 := e.(mem := m, queue := q);
      AppendAllFrame(e1, elems[1..]);
      BatchFrameTrans(e, e1, AppendAll(e1, elems[1..]));
      SameOffTrans(AppendAll(e, elems).mem, m, e.mem, UsedRegion(e.queue));
    }
  }

  lemma FinishMeaning(e: Engine, stop: u16, deferred: seq<UsedElem>)
    requires Wired(e.queue) && RingsApart(e.queue)
    ensures SameOff(Finish(e, stop, deferred).mem, e.mem, UsedRegion(e.queue)) && Finish(e, stop, deferred).disk == e.disk
  {
    var e1 := e.(queue := QueueConsume(e.queue, stop));
    AdvanceCounter(e.queue.avail.value.consumed, Distance(e.queue.avail.value.last, stop));
    AppendAllFrame(e1, deferred);
  }

  /** The main refinement. Whatever accesses fail, if the pending chains keep clear of the rings and the table, then
      after one notification the disk, and guest memory outside the used ring, are what handling the pending heads in
      available order, one at a time and with no queue, leaves. */
  lemma NotificationMeaning(e: Engine)
    requires Wired(e.queue) && RingsApart(e.queue) && HeadsClear(e.mem, e.queue, Pending(e))
    ensures var e' := ProcessQueue(e);
            var (m, d) := Sequentially(e.mem, e.disk, e.queue, Pending(e));
            SameOff(e'.mem, m, UsedRegion(e.queue)) && e'.disk == d
  {
    if QueueAvailIdx(e.mem, e.queue).Ok? {
      var last, stop := e.queue.avail.value.last, QueueAvailIdx(e.mem, e.queue).value;
      DrainMeaning(e, e.mem, e.queue, last, stop, []);
      ProcessQueueCases(e);
      var (e1, deferred) := Drain(e, last, stop, []);
      if last != stop {
        FinishMeaning(e1, stop, deferred);
        SameOffTrans(Finish(e1, stop, deferred).mem, e1.mem, Sequentially(e.mem, e.disk, e.queue, Pending(e)).0,
                     UsedRegion(e.queue));
      }
    }
  }

  // ------------------------------------------------------------------ isolation

  ghost predicate AllReadsClear(m: Mem, q: QueueState, heads: seq<u16>, x: Region) {
    forall i :: 0 <= i < |heads| ==> ReadsClear(m, q, heads[i], x)
  }

  lemma AloneKeepsConditions(m: Mem, d: Disk, q: QueueState, head: u16, heads: seq<u16>, x: Region)
    requires Wired(q) && ChainClear(m, q, head) && HeadsClear(m, q, heads) && AllReadsClear(m, q, heads, x)
    ensures var m' := HandleAlone(m, d, q, head).0; HeadsClear(m', q, heads) && AllReadsClear(m', q, heads, x)
  {
    AloneAvoidsQueue(m, d, q, head);
    var m' := HandleAlone(m, d, q, head).0;
    AvoidsQueueSame(m, m', q);
    forall i | 0 <= i < |heads| ensures ChainClear(m', q, heads[i]) && ReadsClear(m', q, heads[i], x) {
      ConditionsFrame(m, m', q, heads[i]);
      ParseFrame(m, m', q, heads[i]);
    }
  }

  lemma {:induction false} SequenceAgrees(m: Mem, m': Mem, d: Disk, q: QueueState, heads: seq<u16>, x: Region)
    requires Wired(q) && SameOff(m, m', x) && Disjoint(TableRegion(q), x)
    requires HeadsClear(m, q, heads) && AllReadsClear(m, q, heads, x)
    ensures SameOff(Sequentially(m, d, q, heads).0, Sequentially(m', d, q, heads).0, x)
    ensures Sequentially(m, d, q, heads).1 == Sequentially(m', d, q, heads).1
    decreases |heads|
  {
    if heads != [] {
      var rest := heads[1..];
      assert forall i :: 0 <= i < |rest| ==> rest[i] == heads[i + 1];
      AloneAgrees(m, m', d, q, heads[0], x);
      AloneKeepsConditions(m, d, q, heads[0], rest, x);
      var (m1, d1) := HandleAlone(m, d, q, heads[0]);
      SequenceAgrees(m1, HandleAlone(m', d, q, heads[0]).0, d1, q, rest, x);
    }
  }

  /** An unparsable chain does not change the effect of the chains after it: with or without it the disk is the same,
      and guest memory differs at most in that chain's own status byte, provided no later chain reads that byte. */
  lemma BadChainIsIsolated(m: Mem, d: Disk, q: QueueState, bad: u16, rest: seq<u16>)
    requires Wired(q) && ChainClear(m, q, bad) && HeadsClear(m, q, rest)
    requires Parse(m, q, bad).Err?
    requires QueueStatusAddr(m, q, bad).Ok? ==> AllReadsClear(m, q, rest, Region(QueueStatusAddr(m, q, bad).value, 1))
    ensures Sequentially(m, d, q, [bad] + rest).1 == Sequentially(m, d, q, rest).1
    ensures QueueStatusAddr(m, q, bad).Err? ==>
              Sequentially(m, d, q, [bad] + rest).0 == Sequentially(m, d, q, rest).0
    ensures QueueStatusAddr(m, q, bad).Ok? ==>
              SameOff(Sequentially(m, d, q, rest).0, Sequentially(m, d, q, [bad] + rest).0,
                      Region(QueueStatusAddr(m, q, bad).value, 1))
  {
    assert ([bad] + rest)[0] == bad && ([bad] + rest)[1..] == rest;
    if QueueStatusAddr(m, q, bad).Ok? {
      var x := Region(QueueStatusAddr(m, q, bad).value, 1);
      StatusClear(m, q, bad);
      var m' := HandleAlone(m, d, q, bad).0;
      assert SameOff(m, m', x);
      SequenceAgrees(m, m', d, q, rest, x);
    }
  }

  lemma {:induction false} SequenceSplits(m: Mem, d: Disk, q: QueueState, a: seq<u16>, b: seq<u16>)
    ensures var (m1, d1) := Sequentially(m, d, q, a);
            Sequentially(m, d, q, a + b) == Sequentially(m1, d1, q, b)
    decreases |a|
  {
    if a == [] {
      assert a + b == b;
    } else {
      assert (a + b)[0] == a[0] && (a + b)[1..] == a[1..] + b;
      var (m1, d1) := HandleAlone(m, d, q, a[0]);
      assert Sequentially(m, d, q, a + b) == Sequentially(m1, d1, q, a[1..] + b);
      SequenceSplits(m1, d1, q, a[1..], b);
    }
  }

  lemma {:induction false} SequenceAvoidsQueue(m: Mem, d: Disk, q: QueueState, heads: seq<u16>)
    requires Wired(q) && HeadsClear(m, q, heads)
    ensures SameOn(m, Sequentially(m, d, q, heads).0, TableRegion(q))
    decreases |heads|
  {
    if heads != [] {
      var (m1, d1) := HandleAlone(m, d, q, heads[0]);
      assert forall i :: 0 <= i < |heads[1..]| ==> heads[1..][i] == heads[i + 1];
      AloneKeepsConditions(m, d, q, heads[0], heads[1..], Region(0, 0));
      AloneAvoidsQueue(m, d, q, heads[0]);
      AvoidsQueueSame(m, m1, q);
      SequenceAvoidsQueue(m1, d1, q, heads[1..]);
    }
  }

  /** The same anywhere in a batch: taking an unparsable head out changes neither the disk nor any byte of memory but
      that head's status byte. */
  lemma BadChainAnywhere(m: Mem, d: Disk, q: QueueState, before: seq<u16>, bad: u16, after: seq<u16>)
    requires Wired(q) && HeadsClear(m, q, before) && ChainClear(m, q, bad) && HeadsClear(m, q, after)
    requires Parse(m, q, bad).Err?
    requires QueueStatusAddr(m, q, bad).Ok? ==> AllReadsClear(m, q, after, Region(QueueStatusAddr(m, q, bad).value, 1))
    ensures var x := if QueueStatusAddr(m, q, bad).Ok? then Region(QueueStatusAddr(m, q, bad).value, 1) else Region(0, 0);
            && Sequentially(m, d, q, before + ([bad] + after)).1 == Sequentially(m, d, q, before + after).1
            && SameOff(Sequentially(m, d, q, before + after).0, Sequentially(m, d, q, before + ([bad] + after)).0, x)
  {
    SequenceSplits(m, d, q, before, [bad] + after);
    SequenceSplits(m, d, q, before, after);
    SequenceAvoidsQueue(m, d, q, before);
    var (m1, d1) := Sequentially(m, d, q, before);
    ConditionsFrame(m, m1, q, bad);
    ParseFrame(m, m1, q, bad);
    forall i | 0 <= i < |after|
      ensures ChainClear(m1, q, after[i]) && QueueFollow(m1, q, after[i]) == QueueFollow(m, q, after[i])
    {
      ConditionsFrame(m, m1, q, after[i]);
      ParseFrame(m, m1, q, after[i]);
    }
    BadChainIsIsolated(m1, d1, q, bad, after);
  }
}
