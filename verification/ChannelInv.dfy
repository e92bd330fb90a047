/** What every reachable state of a channel satisfies: well-formed queues and exact pending maps. */
module ChannelInv {
  import opened Common
  import opened Arithmetic
  import opened Configuration
  import opened Device
  import opened DeviceRuns
  import opened ReadinessFacts
  import opened Scheduler
  import opened Channel

  /** A channel exists and its address mapping lands inside it. */
  ghost predicate Usable(p: Config) {
    p.ranks >= 1 && p.bankgroups >= 1 && p.banksPerGroup >= 1 && forall a: nat :: p.HasLoc(Target(p, a))
  }

  function Target(p: Config, a: nat): Loc {
    TransToCommand(p, a, false).Place()
  }

  /** The queue that serves address `a`. */
  function Home(p: Config, a: nat): int {
    QueueIndex(p, Target(p, a))
  }

  // ----- shape

  ghost predicate QueuedAt(p: Config, c: Command, q: int) {
    c.hexAddr >= 0 && c == TransToCommand(p, c.hexAddr, c.kind.IsWrite()) && Home(p, c.hexAddr) == q
  }

  ghost predicate QueuesOk(p: Config, queues: seq<seq<Command>>) {
    |queues| == QueueCount(p) && forall q | 0 <= q < |queues| :: QueueOk(p, queues[q], q)
  }

  ghost predicate QueueOk(p: Config, queue: seq<Command>, q: int) {
    forall c | c in queue :: QueuedAt(p, c, q)
  }

  ghost predicate IsRequest(p: Config, c: Command) {
    if p.refreshPolicy.BankStaggered? then p.HasLoc(c.Place()) && c == RefreshOneBank(c.Place())
    else 0 <= c.addr.rank < p.ranks && c == RefreshRank(c.addr.rank)
  }

  ghost predicate RefreshOk(p: Config, refreshQ: seq<Command>, cq: CommandQueue) {
    (forall c | c in refreshQ :: IsRequest(p, c)) &&
    (cq.inRef ==> refreshQ != [] && cq.refQueues == RefreshQueues(p, refreshQ[0])) &&
    (!cq.inRef ==> cq.refQueues == {})
  }

  ghost predicate TimerOk(p: Config, t: RefreshTimer) {
    t.rank < p.ranks && t.bankgroup < p.bankgroups && t.bank < p.banksPerGroup
  }

  /** The device is what the history made it, and the history is legal. */
  ghost predicate DeviceOk(p: Config, s: Channel) {
    Legal(p, s.trace.hist) && s.dev == After(p, s.trace.hist) && LastTime(s.trace.hist) <= s.clk && Awake(p, s.dev) && 0 <= s.clk
  }

  ghost predicate WaitingOk(p: Config, s: Channel) {
    (if p.unifiedQueue then s.readQ == [] && s.writeBuf == [] && s.draining == 0 else s.unified == []) &&
    (forall t | t in s.readQ :: !t.isWrite) && (forall t | t in s.writeBuf :: t.isWrite) &&
    0 <= s.draining <= |s.writeBuf|
  }

  lemma HomeInRange(p: Config, l: Loc)
    requires p.HasLoc(l)
    ensures 0 <= QueueIndex(p, l) < QueueCount(p)
    ensures p.queueStructure.PerBank? ==> p.Banks() > 0 && QueueIndex(p, l) / p.Banks() == l.rank
  {
    if p.queueStructure.PerBank? {
      var inRank := l.bankgroup * p.banksPerGroup + l.bank;
      IndexBound(l.bankgroup, p.bankgroups, p.banksPerGroup);
      IndexBound(l.rank, p.ranks, p.Banks());
      QuotientIs(l.rank, p.Banks(), inRank);
    }
  }

  // ----- choosing a command

  /** Entry `i` of queue `q` is the oldest that offers anything, and it offers itself. */
  ghost predicate PickedAt(p: Config, d: Device, cq: CommandQueue, clk: int, q: int, i: int) {
    0 <= q < |cq.queues| && 0 <= i < |cq.queues[q]| &&
    Offer(p, d, cq.queues[q], i, clk) == Ready(cq.queues[q][i]) &&
    forall k | 0 <= k < i :: Offer(p, d, cq.queues[q], k, clk).NotYet?
  }

  function Without<T>(q: seq<T>, i: nat): seq<T>
    requires i < |q|
  {
    q[..i] + q[i + 1..]
  }

  /** What a choice can be: nothing, a command that opens or closes a bank or refreshes, or a column access taken off its queue. */
  ghost predicate Chosen(p: Config, d: Device, cq: CommandQueue, c: Choice) {
    !c.answer.Abort? && c.cq.clk == cq.clk && 0 <= c.cq.next < QueueCount(p) &&
    (c.answer.Ready? ==> MayIssue(p, d, c.answer.cmd, cq.clk) && !c.answer.cmd.kind.SrefEnter? && !c.answer.cmd.kind.SrefExit?) &&
    (!(c.answer.Ready? && c.answer.cmd.kind.IsReadWrite()) ==> c.cq.queues == cq.queues) &&
    (c.answer.Ready? && c.answer.cmd.kind.IsReadWrite() ==>
      exists q, i :: PickedAt(p, d, cq, cq.clk, q, i) && c.answer.cmd == cq.queues[q][i] &&
                     c.cq.queues == cq.queues[q := Without(cq.queues[q], i)])
  }

  lemma {:induction false} FirstReadyIs(p: Config, d: Device, queue: seq<Command>, i: nat, clk: int) returns (k: nat)
    requires i <= |queue|
    requires forall j | 0 <= j < i :: Offer(p, d, queue, j, clk).NotYet?
    ensures i <= k <= |queue| && forall j | 0 <= j < k :: Offer(p, d, queue, j, clk).NotYet?
    ensures FirstReady(p, d, queue, i, clk) == if k == |queue| then NotYet else Offer(p, d, queue, k, clk)
    ensures k < |queue| ==> !Offer(p, d, queue, k, clk).NotYet?
    decreases |queue| - i
  {
    if i == |queue| || !Offer(p, d, queue, i, clk).NotYet? {
      k := i;
    } else {
      k := FirstReadyIs(p, d, queue, i + 1, clk);
    }
  }

  /** Erasing by address and kind removes the entry picked: an equal one before it would have been picked instead. */
  lemma {:induction false} ErasedIs(queue: seq<Command>, cmd: Command, i: nat)
    requires i < |queue| && Matches(queue[i], cmd) && forall k | 0 <= k < i :: !Matches(queue[k], cmd)
    ensures Erased(queue, cmd) == Some(Without(queue, i))
  {
    if i > 0 {
      ErasedIs(queue[1..], cmd, i - 1);
      assert [queue[0]] + Without(queue[1..], i - 1) == Without(queue, i);
    } else {
      assert Without(queue, 0) == queue[1..];
    }
  }

  /** The offer of an entry depends on what lies before it only through the arbitration rules. */
  lemma EqualEntryOffers(p: Config, d: Device, queue: seq<Command>, k: nat, i: nat, clk: int)
    requires k < i < |queue| && queue[k] == queue[i] && queue[i].kind.IsReadWrite()
    requires Offer(p, d, queue, i, clk) == Ready(queue[i])
    ensures Offer(p, d, queue, k, clk) == Ready(queue[i])
  {
  }

  lemma QueuePick(p: Config, d: Device, cq: CommandQueue)
    requires Usable(p) && Awake(p, d) && QueuesOk(p, cq.queues) && 0 <= cq.next < QueueCount(p)
    ensures var r := FirstReady(p, d, cq.queues[cq.next], 0, cq.clk);
            !r.Abort? && 
            (r.Ready? ==> Chosen(p, d, cq, Taken(p, cq, r.cmd)) && Taken(p, cq, r.cmd).answer == r && !r.cmd.kind.IsRefresh())
  {
    var q, queue := cq.next, cq.queues[cq.next];
    var i := FirstReadyIs(p, d, queue, 0, cq.clk);
    if i < |queue| {
      assert QueueOk(p, queue, q) && queue[i] in queue;
      assert queue[i].Place() == Target(p, queue[i].hexAddr);
      ReadWriteReady(p, d, queue[i], cq.clk);
      var c := Offer(p, d, queue, i, cq.clk).cmd;
      if c.kind.IsReadWrite() {
        assert c == queue[i];
        forall k | 0 <= k < i
          ensures !Matches(queue[k], c)
        {
          assert queue[k] in queue;
          if Matches(queue[k], c) {
            EqualEntryOffers(p, d, queue, k, i, cq.clk);
          }
        }
        ErasedIs(queue, c, i);
        assert PickedAt(p, d, cq, cq.clk, q, i);
      }
    }
  }

  lemma {:induction false} VisitChooses(p: Config, d: Device, cq: CommandQueue, left: nat)
    requires Usable(p) && Awake(p, d) && QueuesOk(p, cq.queues) && 0 <= cq.next < QueueCount(p)
    ensures Chosen(p, d, cq, Visit(p, d, cq, left))
    ensures var r := Visit(p, d, cq, left).answer; r.Ready? ==> !r.cmd.kind.IsRefresh()
    ensures Visit(p, d, cq, left).cq.inRef == cq.inRef && Visit(p, d, cq, left).cq.refQueues == cq.refQueues
    decreases left
  {
    if left > 0 {
      var at := cq.(next := NextIndex(p, cq.next));
      QueuePick(p, d, at);
      VisitChooses(p, d, at, left - 1);
      assert forall q, i :: PickedAt(p, d, at, at.clk, q, i) <==> PickedAt(p, d, cq, cq.clk, q, i);
    }
  }

  /** A refresh request is answered by itself, or by a precharge of one of its open banks. */
  lemma RefreshReady(p: Config, d: Device, ref: Command, clk: int)
    requires Usable(p) && Awake(p, d) && IsRequest(p, ref)
    ensures !GetReady(p, d, ref, clk).Abort?
    ensures GetReady(p, d, ref, clk).Ready? ==>
              var c := GetReady(p, d, ref, clk).cmd;
              MayIssue(p, d, c, clk) && c.addr.rank == ref.addr.rank && (c == ref || c.kind.Precharge?)
  {
    assert Addressed(d, ref);
    if ref.kind.Refresh? {
      RankScanned(p, d, ref, clk);
    } else if GetReady(p, d, ref, clk).Ready? {
      var c := GetReady(p, d, ref, clk).cmd;
      assert forall l | l in d.banks && Touches(c, l) :: l == ref.Place();
    }
  }

  /** The first command of a cycle is always one the device may be given. */
  lemma FirstChoice(p: Config, s: Channel)
    requires Usable(p) && DeviceOk(p, s) && s.cq.clk == s.clk
    requires QueuesOk(p, s.cq.queues) && 0 <= s.cq.next < QueueCount(p) && RefreshOk(p, s.refreshQ, s.cq)
    ensures Chosen(p, s.dev, s.cq, ChooseFirst(p, s))
    ensures var c := ChooseFirst(p, s);
            if c.answer.Ready? && c.answer.cmd.kind.IsRefresh() then
              s.refreshQ != [] && c.answer.cmd == s.refreshQ[0] && !c.cq.inRef && c.cq.refQueues == {}
            else RefreshOk(p, s.refreshQ, c.cq)
  {
    if s.refreshQ != [] {
      assert s.refreshQ[0] in s.refreshQ;
      RefreshReady(p, s.dev, s.refreshQ[0], s.clk);
      var f := FinishRefresh(p, s.dev, s.cq, s.refreshQ[0]);
      if f.answer.NotYet? {
        VisitChooses(p, s.dev, f.cq, QueueCount(p));
        assert forall q, i :: PickedAt(p, s.dev, f.cq, f.cq.clk, q, i) <==> PickedAt(p, s.dev, s.cq, s.cq.clk, q, i);
      }
    } else {
      VisitChooses(p, s.dev, s.cq, QueueCount(p));
    }
  }
}
