/** The meaning of a whole protocol run: what a machine without rings, that handles published heads one by one, does to
    memory and disk. */
module RunMeaning {
  import opened Bytes
  import opened Memory
  import opened WrappingCounters
  import opened Rings
  import opened BlockRequests
  import opened Queues
  import opened BlockDevice
  import opened DeviceRuns
  import opened ChainEffects
  import opened Batches
  import opened SequentialMeaning
  import opened DriverProtocol

  /** A machine with no rings of its own: memory, disk, what was published, and how much of that was handled. */
  datatype Plain = Plain(mem: Mem, disk: Disk, published: seq<u16>, handled: nat)

  ghost function PlainOf(s: System): Plain
    requires |s.w.dev.queues| == 1 && Wired(QueueOf(s))
  {
    Plain(s.w.mem, s.w.disk, s.published, QueueOf(s).avail.value.consumed)
  }

  /** Memory after the driver's two stores for a published head: its entry, then the advanced index. */
  ghost function Posted(m: Mem, a: AvailState, counter: u16, head: u16): Mem
    requires a.size > 0
  {
    Overwritten(Overwritten(m, EntryAt(a, counter), Le16(head)), a.base + 2, Le16(Next(counter)))
  }

  /** The driver's stores land; a doorbell handles, in order, every head not yet handled. */
  ghost function PlainDo(p: Plain, q: QueueState, act: Action): Plain
    requires Wired(q)
  {
    match act
    case Publish(head) =>
      p.(mem := Posted(p.mem, q.avail.value, |p.published| % 0x1_0000, head), published := p.published + [head])
    case Fill(addr, data) => p.(mem := Overwritten(p.mem, addr, data))
    case Doorbell =>
      if p.handled > |p.published| then p
      else
        var (m, d) := Sequentially(p.mem, p.disk, q, p.published[p.handled..]);
        Plain(m, d, p.published, |p.published|)
    case Reap => p
    case SetRegister(_, _) => p
  }

  ghost function PlainRun(p: Plain, q: QueueState, acts: seq<Action>): Plain
    requires Wired(q)
    decreases |acts|
  {
    if acts == [] then p else PlainRun(PlainDo(p, q, acts[0]), q, acts[1..])
  }

  // ------------------------------------------------------------------ one step

  /** Two states of one queue: the table and both rings are where they were. */
  ghost predicate SamePlaces(q: QueueState, q': QueueState) {
    && Wired(q) && Wired(q') && q'.desc == q.desc
    && q'.avail.value.base == q.avail.value.base && q'.avail.value.size == q.avail.value.size
    && UsedRegion(q') == UsedRegion(q)
  }

  ghost predicate Mirrors(s: System, p: Plain, q: QueueState) {
    && Refines(s) && SamePlaces(q, QueueOf(s))
    && SameOff(s.w.mem, p.mem, UsedRegion(q)) && s.w.disk == p.disk
    && p.published == s.published && p.handled == QueueOf(s).avail.value.consumed
  }

  lemma OverwriteAgrees(m: Mem, m': Mem, x: Region, addr: nat, data: seq<byte>)
    requires SameOff(m, m', x)
    ensures SameOff(Overwritten(m, addr, data), Overwritten(m', addr, data), x)
  {
  }

  lemma {:induction false} SameTable(m: Mem, d: Disk, q: QueueState, q': QueueState, heads: seq<u16>)
    requires q'.desc == q.desc
    ensures Sequentially(m, d, q, heads) == Sequentially(m, d, q', heads)
    decreases |heads|
  {
    if heads != [] {
      assert HandleAlone(m, d, q, heads[0]) == HandleAlone(m, d, q', heads[0]);
      var (m1, d1) := HandleAlone(m, d, q, heads[0]);
      SameTable(m1, d1, q, q', heads[1..]);
    }
  }

  lemma AllClearReads(m: Mem, q: QueueState, heads: seq<u16>)
    requires Wired(q) && HeadsClear(m, q, heads)
    ensures AllReadsClear(m, q, heads, UsedRegion(q))
  {
    forall i | 0 <= i < |heads| ensures ReadsClear(m, q, heads[i], UsedRegion(q)) {
      ClearReads(m, q, heads[i]);
    }
  }

  /** One doorbell, in a driver's terms: memory outside the used ring, and the disk, as if the outstanding heads had been
      handled one by one from any memory that agrees outside the used ring. */
  lemma DoorbellMeaning(s: System, m: Mem)
    requires Refines(s) && Enabled(s, Doorbell) && SameOff(s.w.mem, m, UsedRegion(QueueOf(s)))
    ensures var s' := Do(s, Doorbell);
            var (m', d') := Sequentially(m, s.w.disk, QueueOf(s), s.published[QueueOf(s).avail.value.consumed..]);
            && SameOff(s'.w.mem, m', UsedRegion(QueueOf(s))) && s'.w.disk == d'
            && |s'.w.dev.queues| == 1 && SamePlaces(QueueOf(s), QueueOf(s'))
            && QueueOf(s').avail.value.consumed == |s.published|
  {
    var e, q := EngineOf(s.w, 0), QueueOf(s);
    var e' := DoorbellAdvances(s);
    ConsumeReaches(q.avail.value, |s.published|);
    NotificationMeaning(e);
    AllClearReads(e.mem, q, Pending(e));
    SequenceAgrees(e.mem, m, e.disk, q, Pending(e), UsedRegion(q));
    SameOffTrans(e'.mem, Sequentially(e.mem, e.disk, q, Pending(e)).0, Sequentially(m, e.disk, q, Pending(e)).0,
                 UsedRegion(q));
  }

  lemma QuietStep(s: System, act: Action)
    requires Refines(s) && Enabled(s, act) && !act.Doorbell?
    ensures |Do(s, act).w.dev.queues| == 1 && QueueOf(Do(s, act)) == QueueOf(s) && Do(s, act).w.disk == s.w.disk
    ensures act.Reap? || act.SetRegister? ==> Do(s, act).w.mem == s.w.mem && Do(s, act).published == s.published
  {
    if act.SetRegister? {
      HarmlessIsQuiet(s.w, act.reg, act.val);
    }
  }

  lemma PublishMirrors(s: System, p: Plain, q: QueueState, head: u16)
    requires Mirrors(s, p, q) && Enabled(s, Publish(head))
    ensures SameOff(Do(s, Publish(head)).w.mem, PlainDo(p, q, Publish(head)).mem, UsedRegion(q))
  {
    PostedAgrees(s.w.mem, p.mem, UsedRegion(q), QueueOf(s).avail.value, q.avail.value, |s.published| % 0x1_0000, head);
    PublishPosts(s, head);
  }

  lemma PublishPosts(s: System, head: u16)
    requires Enabled(s, Publish(head))
    ensures Do(s, Publish(head)).w.mem == Posted(s.w.mem, QueueOf(s).avail.value, |s.published| % 0x1_0000, head)
  {
  }

  lemma PostedAgrees(m: Mem, m': Mem, x: Region, a: AvailState, a': AvailState, counter: u16, head: u16)
    requires SameOff(m, m', x) && a.size > 0 && a'.base == a.base && a'.size == a.size
    ensures SameOff(Posted(m, a, counter, head), Posted(m', a', counter, head), x)
  {
    OverwriteAgrees(m, m', x, EntryAt(a, counter), Le16(head));
    OverwriteAgrees(Overwritten(m, EntryAt(a, counter), Le16(head)),
                    Overwritten(m', EntryAt(a, counter), Le16(head)), x, a.base + 2, Le16(Next(counter)));
  }

  lemma DoorbellMirrors(s: System, p: Plain, q: QueueState)
    requires Mirrors(s, p, q) && Enabled(s, Doorbell) && Refines(Do(s, Doorbell))
    ensures Mirrors(Do(s, Doorbell), PlainDo(p, q, Doorbell), q)
  {
    DoorbellMeaning(s, p.mem);
    SameTable(p.mem, p.disk, q, QueueOf(s), s.published[p.handled..]);
  }

  lemma StepMirrors(s: System, p: Plain, q: QueueState, act: Action)
    requires Mirrors(s, p, q) && Enabled(s, act)
    ensures Mirrors(Do(s, act), PlainDo(p, q, act), q)
  {
    StepKeeps(s, act);
    if act.Doorbell? {
      DoorbellMirrors(s, p, q);
    } else {
      QuietStep(s, act);
      match act
      case Publish(head) => PublishMirrors(s, p, q, head);
      case Fill(addr, data) => OverwriteAgrees(s.w.mem, p.mem, UsedRegion(q), addr, data);
      case _ =>
    }
  }

  lemma {:induction false} RunMirrors(s: System, p: Plain, q: QueueState, acts: seq<Action>)
    requires Mirrors(s, p, q) && AllEnabled(s, acts)
    ensures Mirrors(Outcomes(s, acts), PlainRun(p, q, acts), q)
    decreases |acts|
  {
    if acts != [] {
      StepMirrors(s, p, q, acts[0]);
      RunMirrors(Do(s, acts[0]), PlainDo(p, q, acts[0]), q, acts[1..]);
    }
  }

  /** After any protocol run the disk, and guest memory outside the used ring, are those of the machine with no rings. */
  lemma RunIsSequential(s: System, acts: seq<Action>)
    requires Refines(s) && AllEnabled(s, acts)
    ensures var s', p := Outcomes(s, acts), PlainRun(PlainOf(s), QueueOf(s), acts);
            && SameOff(s'.w.mem, p.mem, UsedRegion(QueueOf(s))) && s'.w.disk == p.disk
            && s'.published == p.published
  {
    RunMirrors(s, PlainOf(s), QueueOf(s), acts);
  }

  // ------------------------------------------------------------------ a single request

  /** With one head outstanding, a doorbell leaves what handling it alone leaves. */
  lemma DoorbellRuns(s: System, head: u16)
    requires Refines(s) && Enabled(s, Doorbell) && s.published[QueueOf(s).avail.value.consumed..] == [head]
    ensures var s' := Do(s, Doorbell);
            var (m, d) := HandleAlone(s.w.mem, s.w.disk, QueueOf(s), head);
            && SameOff(s'.w.mem, m, UsedRegion(QueueOf(s))) && s'.w.disk == d
            && |s'.w.dev.queues| == 1 && SamePlaces(QueueOf(s), QueueOf(s'))
            && QueueOf(s').avail.value.consumed == |s.published|
  {
    DoorbellMeaning(s, s.w.mem);
    assert [head][1..] == [];
    var (m, d) := HandleAlone(s.w.mem, s.w.disk, QueueOf(s), head);
    assert Sequentially(s.w.mem, s.w.disk, QueueOf(s), [head]) == Sequentially(m, d, QueueOf(s), []);
  }
}
