/** Which command a cycle issues: refreshes first, then the queues in turn, and at most one more with dual issue. */
module Selection {
  import opened Arithmetic
  import opened Common
  import opened Configuration
  import opened Device
  import opened DeviceRuns
  import opened Scheduler
  import opened Channel
  import opened ChannelInv
  import opened ChannelSteps

  // ----- the queues in turn

  /** The position `k` steps ahead of `i` among `n`. */
  function Ahead(n: int, i: int, k: int): int {
    if i + k < n then i + k else i + k - n
  }

  /** A queue that is stopped for a refresh, or has nothing to offer. */
  predicate PassedOver(p: Config, d: Device, cq: CommandQueue, q: int)
    requires 0 <= q < |cq.queues|
  {
    (cq.inRef && q in cq.refQueues) || FirstReady(p, d, cq.queues[q], 0, cq.clk).NotYet?
  }

  ghost predicate Wellformed(p: Config, cq: CommandQueue) {
    0 <= cq.next < QueueCount(p) == |cq.queues|
  }

  lemma OneStepOn(n: nat, i: int, k: int)
    requires 0 <= i < n && 0 <= k <= n
    ensures Ahead(n, if i + 1 == n then 0 else i + 1, k) == if k == n then Ahead(n, i, 1) else Ahead(n, i, k + 1)
  {
  }

  /** The first queue in turn that is neither stopped nor without an offer is the one whose offer is taken. */
  lemma {:induction false} FirstInTurn(p: Config, d: Device, cq: CommandQueue, left: nat) returns (k: nat)
    requires Wellformed(p, cq) && left <= QueueCount(p)
    ensures k <= left && forall j: int | 1 <= j <= k :: PassedOver(p, d, cq, Ahead(QueueCount(p), cq.next, j))
    ensures k == left ==> Visit(p, d, cq, left) == Choice(NotYet, cq.(next := Ahead(QueueCount(p), cq.next, left)))
    ensures k < left ==> var q := Ahead(QueueCount(p), cq.next, k + 1);
                         0 <= q < |cq.queues| && !PassedOver(p, d, cq, q) &&
                         (FirstReady(p, d, cq.queues[q], 0, cq.clk).Ready? ==>
                            Visit(p, d, cq, left) == Taken(p, cq.(next := q), FirstReady(p, d, cq.queues[q], 0, cq.clk).cmd))
    decreases left
  {
    hide QueueCount, FirstReady, Taken;
    k := 0;
    if left > 0 {
      var at := cq.(next := NextIndex(p, cq.next));
      assert at.next == Ahead(QueueCount(p), cq.next, 1);
      if PassedOver(p, d, cq, at.next) {
        var m := FirstInTurn(p, d, at, left - 1);
        k := m + 1;
        forall j: int | 1 <= j <= k
          ensures PassedOver(p, d, cq, Ahead(QueueCount(p), cq.next, j))
        {
          if j > 1 {
            OneStepOn(QueueCount(p), cq.next, j - 1);
            assert PassedOver(p, d, at, Ahead(QueueCount(p), at.next, j - 1));
          }
        }
        OneStepOn(QueueCount(p), cq.next, m);
        OneStepOn(QueueCount(p), cq.next, m + 1);
      }
    }
  }

  // ----- which bank's commands stand in which queue

  /** With a queue for each bank no two banks share one, with one for each rank exactly the banks of a rank do. */
  lemma QueuesAreApart(p: Config, l: Loc, m: Loc)
    requires p.HasLoc(l) && p.HasLoc(m)
    ensures QueueIndex(p, l) == QueueIndex(p, m) <==> if p.queueStructure.PerBank? then l == m else l.rank == m.rank
  {
    if p.queueStructure.PerBank? {
      HomeInRange(p, l);
      HomeInRange(p, m);
      if QueueIndex(p, l) == QueueIndex(p, m) {
        assert l.bankgroup * p.banksPerGroup + l.bank == m.bankgroup * p.banksPerGroup + m.bank;
        QuotientIs(l.bankgroup, p.banksPerGroup, l.bank);
        QuotientIs(m.bankgroup, p.banksPerGroup, m.bank);
      }
    }
  }

  /** The bank that a queue serves, with a queue for each bank. */
  lemma BankOf(p: Config, q: nat) returns (l: Loc)
    requires Usable(p) && p.queueStructure.PerBank? && q < QueueCount(p)
    ensures p.HasLoc(l) && QueueIndex(p, l) == q && p.Banks() > 0 && l.rank == q / p.Banks()
  {
    MultiplesApart(p.bankgroups, p.banksPerGroup);
    var rank, inRank := DividesInto(q, p.Banks());
    var group, bank := DividesInto(inRank, p.banksPerGroup);
    BelowQuotient(q, p.Banks(), p.ranks);
    BelowQuotient(inRank, p.banksPerGroup, p.bankgroups);
    l := Loc(rank, group, bank);
  }

  lemma BelowQuotient(a: nat, n: nat, m: nat)
    requires n > 0 && a < n * m
    ensures a / n < m
  {
    var q, r := DividesInto(a, n);
    MultiplesApart(q - m, n);
    Distributes(n, q, -(m as int));
  }

  /** The banks a refresh request is for. */
  predicate Refreshed(ref: Command, l: Loc) {
    if ref.kind.Refresh? then l.rank == ref.addr.rank else l == ref.Place()
  }

  /** A refresh request stops exactly the queues that serve a bank to be refreshed. */
  lemma StopsExactly(p: Config, ref: Command, q: nat)
    requires Usable(p) && IsRequest(p, ref) && q < QueueCount(p)
    ensures q in RefreshQueues(p, ref) <==> exists l :: p.HasLoc(l) && Refreshed(ref, l) && QueueIndex(p, l) == q
  {
    if p.queueStructure.PerBank? {
      var l := BankOf(p, q);
      forall m | p.HasLoc(m) && QueueIndex(p, m) == q
        ensures m == l
      {
        QueuesAreApart(p, l, m);
      }
    } else if ref.kind.Refresh? {
      assert p.HasLoc(Loc(ref.addr.rank, 0, 0)) && QueueIndex(p, Loc(ref.addr.rank, 0, 0)) == ref.addr.rank;
    }
  }

  // ----- a cycle

  /**
    A refresh that waits comes before the queues: it, or a precharge towards it, is chosen whenever it is ready.
    Until then the queues are asked, but for those that serve a bank to be refreshed; they are released with it.
   */
  lemma RefreshesComeFirst(p: Config, s: Channel)
    requires Usable(p) && Inv(p, s) && s.refreshQ != []
    ensures var r := GetReady(p, s.dev, s.refreshQ[0], s.clk);
            var stopped := s.cq.(inRef := true, refQueues := RefreshQueues(p, s.refreshQ[0]));
            !r.Abort? &&
            (r.NotYet? ==> ChooseFirst(p, s) == GetCommandToIssue(p, s.dev, stopped)) &&
            (r.Ready? ==> ChooseFirst(p, s) == Choice(r, if r.cmd.kind.Precharge? then stopped else stopped.(inRef := false, refQueues := {})))
  {
    hide GetReady, GetCommandToIssue, Legal, RefreshQueues;
    assert IsRequest(p, s.refreshQ[0]);
    RefreshReady(p, s.dev, s.refreshQ[0], s.clk);
    assert {} + RefreshQueues(p, s.refreshQ[0]) == RefreshQueues(p, s.refreshQ[0]);
  }

  lemma IssuesAre(p: Config, s: Channel, c: Choice, one: Channel)
    requires IssueChoice(p, s, c) == Some(one)
    ensures one.trace.hist == (if c.answer.Ready? then s.trace.hist + [Issued(c.answer.cmd, s.clk)] else s.trace.hist) && one.clk == s.clk
    ensures one.cq == c.cq && one.readQ == s.readQ && one.writeBuf == s.writeBuf && one.unified == s.unified
  {
  }

  /** What the second choice of a cycle adds to the history: the command, if it is of the other class than the first. */
  function Second(p: Config, one: Channel, first: Command): seq<Issued> {
    var d := GetCommandToIssue(p, one.dev, one.cq).answer;
    if p.dualCommand && d.Ready? && d.cmd.kind.IsReadWrite() != first.kind.IsReadWrite() then [Issued(d.cmd, one.clk)] else []
  }

  /** A cycle issues its first choice and, with dual issue, a second one of the other class. */
  lemma CycleIssues(p: Config, s: Channel) returns (one: Channel)
    requires Usable(p) && Inv(p, s)
    ensures Step(p, s, Cycle).Some?
    ensures var asked := RefreshTick(p, DrainDone(s));
            var c := ChooseFirst(p, asked);
            IssueChoice(p, asked, c) == Some(one) &&
            Step(p, s, Cycle).value.trace.hist ==
              (if c.answer.Ready? then s.trace.hist + [Issued(c.answer.cmd, s.clk)] + Second(p, one, c.answer.cmd) else s.trace.hist)
  {
    hide Inv, Schedule, Step, ChooseFirst, GetCommandToIssue, Intact, Chosen, Doable, RefreshChoice, IssueChoice;
    var asked, c, d, two;
    asked, c, one, d, two := CycleParts(p, s);
    StepsTo(p, s, asked, c, one);
    IssuesAre(p, asked, c, one);
  }

  /** The state a cycle schedules from, by the choices made. */
  lemma StepsTo(p: Config, s: Channel, asked: Channel, c: Choice, one: Channel)
    requires Usable(p) && Inv(p, s) && asked == RefreshTick(p, DrainDone(s)) && c == ChooseFirst(p, asked) && IssueChoice(p, asked, c) == Some(one)
    ensures Step(p, s, Cycle).Some?
    ensures Step(p, s, Cycle).value.trace.hist == one.trace.hist + if c.answer.Ready? then Second(p, one, c.answer.cmd) else []
  {
    StepKeepsInv(p, s, Cycle);
    hide Inv, Schedule, ChooseFirst, GetCommandToIssue;
    var two := IssueAll(p, asked).value;
    ScheduleFrame(p, two);
    if p.dualCommand && c.answer.Ready? {
      SecondIssues(p, one, c.answer.cmd, two);
    }
  }

  lemma SecondIssues(p: Config, one: Channel, first: Command, two: Channel)
    requires p.dualCommand && IssueSecond(p, one, first) == Some(two)
    ensures two.trace.hist == one.trace.hist + Second(p, one, first)
  {
    var d := GetCommandToIssue(p, one.dev, one.cq);
    if !(d.answer.Ready? && d.answer.cmd.kind.IsReadWrite() == first.kind.IsReadWrite()) {
      IssuesAre(p, one, d, two);
    }
  }
}
