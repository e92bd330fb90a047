/**
  Runs whose data bursts collide when reads and writes are queued separately. The write that collides is served
  only once draining begins, so others come in with it (src/controller.cc:281-289).
 */
module SplitClash {
  import opened Common
  import opened Configuration
  import opened TimingSpec
  import opened Device
  import opened DeviceRuns
  import opened DataBus
  import opened Scheduler
  import opened Channel
  import opened ChannelInv
  import opened ChannelSteps
  import opened Scripts
  import opened TimingLaws
  import opened WriteBursts
  import opened BusClash

  /** Close-page channels with separate queues, `ws` writes to one row that together make draining begin. */
  ghost predicate SplitClosePage(p: Config, ws: seq<nat>) {
    ClosePage(p) && Burst(p, ws)
  }

  /** When the bank is activated for the first write. */
  function ActAt(p: Config): int {
    ClashAt(p) - OpenToWrite(p)
  }

  // ----- the writes wait in the buffer

  /** All writes have come in, a cycle before the bank can be activated again. */
  lemma AllHeld(p: Config, ws: seq<nat>) returns (es: seq<Event>, s: Channel)
    requires SplitClosePage(p, ws) && RefreshInterval(p) > ClashAt(p)
    ensures Run(p, es) == Some(s)
    ensures Holds(p, s, ActAt(p) - 1, Second(p, ws[0]), OneLine(p, Home(p, ws[0]), []), Home(p, ws[0]), ws, |ws|)
  {
    hide Run, View, Usable, Home, Second, Holds, OneRow, Silent;
    es, s := ReadServed(p, ws[0]);
    FewRefreshes(p, 0, ActAt(p));
    forall t: nat
      ensures Silent(p, s.dev, map[], t)
    {
      NoneSilent(p, s.dev, t);
    }
    es, s := WaitUntil(p, es, s, ReadAt(p) + 1, Second(p, ws[0]), map[], Home(p, ws[0]), ActAt(p) - 1);
    NoneHeld(p, ws, s, ActAt(p) - 1, Second(p, ws[0]), Home(p, ws[0]));
    AllDiffer(p, ws);
    es, s := WritesArrive(p, es, s, ActAt(p) - 1, Second(p, ws[0]), OneLine(p, Home(p, ws[0]), []), Home(p, ws[0]), ws, 0);
  }

  // ----- the writes become commands one by one

  /** The first `k` writes are commands at clock `clk`, and nothing but `h` is issued. */
  ghost predicate Feeding(p: Config, ws: seq<nat>, s: Channel, clk: int, h: seq<Issued>, k: nat)
    requires ws != []
  {
    Intact(p, s) && s.clk == clk && s.timer.clk == clk && s.trace.hist == h && k >= 1 && s.cq.next == Home(p, ws[0]) && Fed(p, ws, s, k)
  }

  lemma {:induction false} NoneFits(p: Config, cq: CommandQueue, q: seq<Transaction>, i: nat)
    requires i <= |q| && forall j | i <= j < |q| :: !WillAcceptCommand(p, cq, TransToCommand(p, q[j].addr, q[j].isWrite).Place())
    ensures FirstAcceptable(p, cq, q, i) == |q|
    decreases |q| - i
  {
    if i < |q| {
      NoneFits(p, cq, q, i + 1);
    }
  }

  /** Without room in their queue, the writes stay in the buffer. */
  lemma NothingMoves(p: Config, s: Channel, addrs: seq<nat>, q: int)
    requires !p.unifiedQueue && addrs != [] && Buffered(s.writeBuf, addrs) && s.draining == |addrs|
    requires 0 <= q < |s.cq.queues| && |s.cq.queues[q]| >= p.cmdQueueSize && forall i | 0 <= i < |addrs| :: Home(p, addrs[i]) == q
    ensures Schedule(p, s) == s
  {
    forall j | 0 <= j < |s.writeBuf|
      ensures !WillAcceptCommand(p, s.cq, TransToCommand(p, s.writeBuf[j].addr, s.writeBuf[j].isWrite).Place())
    {
      assert Home(p, addrs[j]) == q;
    }
    NoneFits(p, s.cq, s.writeBuf, 0);
  }

  /** Scheduling moves one write or none. */
  lemma Feeds(p: Config, ws: seq<nat>, x: Channel, k: nat) returns (k': nat)
    requires SplitClosePage(p, ws) && 1 <= k && Fed(p, ws, x, k) && forall i | 0 <= i < |ws| :: ws[i] !in x.pendingRd
    ensures k' >= 1 && Fed(p, ws, Schedule(p, x), k') && Schedule(p, x).cq.next == x.cq.next
  {
    hide Usable, Commands, Home, OneRow, OneLine, Schedule;
    if k == |ws| {
      k' := k;
      NothingWaits(p, x);
    } else if k < p.cmdQueueSize {
      k' := k + 1;
      assert Draining(p, x) == x.draining && x.(draining := x.draining) == x;
      NextMoves(p, ws, x, k);
    } else {
      k' := k;
      RowHome(p, ws);
      NothingMoves(p, x, ws[k..], Home(p, ws[0]));
    }
  }

  lemma FedNotPending(p: Config, ws: seq<nat>, s: Channel, k: nat)
    requires SplitClosePage(p, ws) && Intact(p, s) && Fed(p, ws, s, k)
    ensures forall i | 0 <= i < |ws| :: ws[i] !in s.pendingRd
  {
    hide Intact, Usable, Home;
    RowHome(p, ws);
    CommandsUniform(p, ws, 0, k);
    assert ws[0..k] == ws[..k];
    forall i | 0 <= i < |ws|
      ensures ws[i] !in s.pendingRd
    {
      NoReadPending(p, s, ws[i]);
    }
  }

  // ----- cycles

  lemma FeedsNow(p: Config, ws: seq<nat>, one: Channel, clk: int, h: seq<Issued>, k: nat) returns (k': nat)
    requires SplitClosePage(p, ws) && Intact(p, one) && Fed(p, ws, one, k) && k >= 1
    requires one.clk == clk && one.timer.clk == clk + 1 && one.trace.hist == h && one.cq.next == Home(p, ws[0])
    ensures var now := Advance(Schedule(p, one));
            k' >= 1 && now.clk == clk + 1 && now.timer.clk == clk + 1 && now.trace.hist == h && now.cq.next == Home(p, ws[0]) && Fed(p, ws, now, k')
  {
    hide Intact, Usable, Home, OneRow, Commands, OneLine, Schedule;
    FedNotPending(p, ws, one, k);
    ScheduleFrame(p, one);
    k' := Feeds(p, ws, one, k);
  }

  /** The writes offer the first of them as soon as the history allows. */
  lemma LineAsked(p: Config, ws: seq<nat>, cq: CommandQueue, d: Device, k: nat, answer: Readiness)
    requires SplitClosePage(p, ws) && 1 <= k <= |ws| && cq.queues == OneLine(p, Home(p, ws[0]), Commands(p, ws[..k])) && Turning(p, cq)
    requires FirstReady(p, d, Commands(p, ws[..k]), 0, cq.clk) == answer
    ensures answer.NotYet? ==> GetCommandToIssue(p, d, cq) == Choice(NotYet, cq)
    ensures answer.Ready? ==> GetCommandToIssue(p, d, cq) == Taken(p, cq.(next := Home(p, ws[0])), answer.cmd)
  {
    hide Usable, OneRow, Home, FirstReady, GetCommandToIssue, Taken, Commands;
    RowHome(p, ws);
    forall q | 0 <= q < |cq.queues| && q != Home(p, ws[0])
      ensures Asked(p, d, cq, q).NotYet?
    {
      EmptyOffersNothing(p, d, cq.clk);
    }
    if answer.NotYet? {
      NothingOffered(p, d, cq);
    } else if answer.Ready? {
      OfferTaken(p, d, cq, Home(p, ws[0]));
    }
  }

  /** While the bank is closed, only the first write is a command. */
  lemma ClosedLineOffers(p: Config, ws: seq<nat>, s: Channel, h: seq<Issued>)
    requires SplitClosePage(p, ws) && Intact(p, s) && s.trace.hist == h && |h| < 4 && LastTime(h) <= s.clk && 0 <= s.clk
    requires Allowed(p, h, Target(p, ws[0]), Activate, s.clk) && !exists i :: OpenSince(h, Target(p, ws[0]), i)
    ensures FirstReady(p, s.dev, Commands(p, ws[..1]), 0, s.clk) == Ready(Activation(WriteOf(p, ws[0])))
  {
    hide Allowed, OneRow, GetReady, Intact, Legal, After, Usable;
    WriteGoesHome(p, ws[0]);
    RowIsClosed(p, s, h, Target(p, ws[0]));
    AnswerWhenClosed(p, h, WriteOf(p, ws[0]), s.clk);
    assert Commands(p, ws[..1]) == [WriteOf(p, ws[0])];
  }

  lemma OpenLineOffers(p: Config, ws: seq<nat>, k: nat, t: int)
    requires SplitClosePage(p, ws) && 1 <= k <= |ws| && Legal(p, Third(p, ws[0])) && ActAt(p) <= t && 0 <= t
    ensures FirstReady(p, After(p, Third(p, ws[0])), Commands(p, ws[..k]), 0, t) ==
            if ActAt(p) + ActivateToWrite(p) <= t then Ready(WriteOf(p, ws[0])) else NotYet
  {
    hide Legal, After, Allowed, OneRow, FirstReady, Home, Target, WriteOf, Commands, Uniform;
    RowHome(p, ws);
    WriteGoesHome(p, ws[0]);
    CommandsUniform(p, ws, 0, k);
    assert ws[0..k] == ws[..k];
    ThirdAllows(p, ws[0], t);
    OpenThird(p, ws[0]);
    LineOffers(p, Third(p, ws[0]), Commands(p, ws[..k]), Target(p, ws[0]), WritePrecharge, 2, t);
  }

  lemma OpenThird(p: Config, a: nat)
    requires p.closePage
    ensures OpenSince(Third(p, a), Target(p, a), 2) && Third(p, a)[2].cmd.addr.row == p.AddressMapping(a).row
  {
  }

  // ----- the bank is activated, and the first write issued

  /** The first write's turn: its activation goes, and nothing after it in the same cycle. */
  lemma Activates(p: Config, ws: seq<nat>, s: Channel) returns (now: Channel, k: nat)
    requires SplitClosePage(p, ws) && !RefreshDue(p, s.timer.clk) && Feeding(p, ws, s, ActAt(p), Second(p, ws[0]), 1)
    ensures Step(p, s, Cycle) == Some(now) && Feeding(p, ws, now, ActAt(p) + 1, Third(p, ws[0]), k)
  {
    hide Intact, Usable, Target, Step, Drops, Commands, OneRow, WriteOf, Home, OneLine, Schedule;
    hide GetCommandToIssue, IssueCommand, FirstReady, Second, Allowed, Third, Legal, Turning;
    var cmd, cq := Activation(WriteOf(p, ws[0])), s.cq.(next := Home(p, ws[0]));
    InvTurns(p, s);
    ActivationChosen(p, ws, s);
    var one := CommandGoes(p, s, cmd, cq);
    IssuedIs(p, RefreshTick(p, DrainDone(s)).(cq := cq), cmd, one);
    ThirdIs(p, ws[0]);
    if p.dualCommand {
      NoSecondAfterAct(p, ws, one);
    }
    IssuingCycle(p, s, cmd, cq, one);
    k := FeedsNow(p, ws, one, ActAt(p), Third(p, ws[0]), 1);
    StepKeepsIntact(p, s, Cycle);
    now := Step(p, s, Cycle).value;
  }

  lemma ActivationChosen(p: Config, ws: seq<nat>, s: Channel)
    requires SplitClosePage(p, ws) && Feeding(p, ws, s, ActAt(p), Second(p, ws[0]), 1)
    ensures GetCommandToIssue(p, s.dev, s.cq) == Choice(Ready(Activation(WriteOf(p, ws[0]))), s.cq.(next := Home(p, ws[0])))
  {
    hide Intact, Usable, Target, Commands, OneRow, WriteOf, Home, OneLine, GetCommandToIssue, FirstReady, Second, Allowed, Legal, Turning;
    InvTurns(p, s);
    SecondAllows(p, ws[0], ActAt(p));
    ClosedAgain(p, ws[0]);
    WriteGoesHome(p, ws[0]);
    ClosedLineOffers(p, ws, s, Second(p, ws[0]));
    LineAsked(p, ws, s.cq, s.dev, 1, Ready(Activation(WriteOf(p, ws[0]))));
  }

  lemma ThirdIs(p: Config, a: nat)
    ensures Third(p, a) == Second(p, a) + [Issued(Activation(WriteOf(p, a)), ActAt(p))]
    ensures Fourth(p, a) == Third(p, a) + [Issued(WriteOf(p, a), ClashAt(p))]
  {
  }

  lemma NoSecondAfterAct(p: Config, ws: seq<nat>, one: Channel)
    requires SplitClosePage(p, ws) && p.dualCommand && Intact(p, one) && Fed(p, ws, one, 1) && one.clk == ActAt(p) && one.trace.hist == Third(p, ws[0])
    ensures GetCommandToIssue(p, one.dev, one.cq) == Choice(NotYet, one.cq)
  {
    hide Intact, Usable, Target, Commands, OneRow, WriteOf, Home, OneLine, GetCommandToIssue, FirstReady, Third, Legal, Turning;
    InvTurns(p, one);
    OpenLineOffers(p, ws, 1, ActAt(p));
    LineAsked(p, ws, one.cq, one.dev, 1, NotYet);
  }

  /** Until the first write is ready, nothing is issued. */
  lemma Idles(p: Config, ws: seq<nat>, s: Channel, clk: int, k: nat) returns (now: Channel, k': nat)
    requires SplitClosePage(p, ws) && !RefreshDue(p, s.timer.clk) && Feeding(p, ws, s, clk, Third(p, ws[0]), k) && ActAt(p) < clk < ActAt(p) + ActivateToWrite(p)
    ensures Step(p, s, Cycle) == Some(now) && Feeding(p, ws, now, clk + 1, Third(p, ws[0]), k')
  {
    hide Intact, Usable, Target, Step, Drops, Commands, OneRow, WriteOf, Home, OneLine, Schedule;
    hide GetCommandToIssue, FirstReady, Third, Legal, Turning;
    InvTurns(p, s);
    OpenLineOffers(p, ws, k, clk);
    LineAsked(p, ws, s.cq, s.dev, k, NotYet);
    IdleCycle(p, s);
    var x := RefreshTick(p, DrainDone(s));
    FedNotPending(p, ws, s, k);
    ScheduleFrame(p, x);
    k' := Feeds(p, ws, x, k);
    StepKeepsIntact(p, s, Cycle);
    now := Step(p, s, Cycle).value;
  }

  lemma FeedClock(p: Config, ws: seq<nat>, s: Channel, clk: int, h: seq<Issued>, k: nat)
    requires ws != [] && Feeding(p, ws, s, clk, h, k)
    ensures s.timer.clk == clk && 0 <= clk
  {
  }

  lemma {:induction false} IdlesUntil(p: Config, ws: seq<nat>, es: seq<Event>, s: Channel, clk: int, k: nat) returns (fs: seq<Event>, now: Channel, k': nat)
    requires SplitClosePage(p, ws) && RefreshInterval(p) > ClashAt(p) && Run(p, es) == Some(s) && Feeding(p, ws, s, clk, Third(p, ws[0]), k)
    requires ActAt(p) < clk <= ClashAt(p)
    ensures Run(p, fs) == Some(now) && Feeding(p, ws, now, ClashAt(p), Third(p, ws[0]), k')
    decreases ClashAt(p) - clk
  {
    hide Intact, Usable, Step, Run, OneRow, Third, Fed;
    if clk == ClashAt(p) {
      fs, now, k' := es, s, k;
    } else {
      FewRefreshes(p, 0, ClashAt(p));
      FeedClock(p, ws, s, clk, Third(p, ws[0]), k);
      var one, j := Idles(p, ws, s, clk, k);
      OneMore(p, es, s, Cycle, one);
      fs, now, k' := IdlesUntil(p, ws, es + [Cycle], one, clk + 1, j);
    }
  }

  /** What a cycle issues first stays in the history. */
  lemma FirstIsIssued(p: Config, s: Channel, cmd: Command)
    requires Usable(p) && Intact(p, s) && s.refreshQ == [] && !RefreshDue(p, s.timer.clk) && GetCommandToIssue(p, s.dev, s.cq).answer == Ready(cmd)
    ensures Step(p, s, Cycle).Some? && s.trace.hist + [Issued(cmd, s.clk)] <= Step(p, s, Cycle).value.trace.hist
  {
    hide Intact, Inv, Usable, GetCommandToIssue, Schedule, Step, Chosen;
    IntactIsInv(p, s);
    var asked, c, one, d, two := CycleParts(p, s);
    FirstOfCycle(p, s, cmd);
    ScheduleFrame(p, two);
    HistoryGrows(p, asked, c, one);
    HistoryGrows(p, one, d, two);
  }

  lemma FirstOfCycle(p: Config, s: Channel, cmd: Command)
    requires s.refreshQ == [] && !RefreshDue(p, s.timer.clk) && GetCommandToIssue(p, s.dev, s.cq).answer == Ready(cmd)
    ensures var asked := RefreshTick(p, DrainDone(s)); ChooseFirst(p, asked).answer == Ready(cmd) && asked.trace.hist == s.trace.hist && asked.clk == s.clk
  {
    hide GetCommandToIssue;
  }

  lemma HistoryGrows(p: Config, s: Channel, c: Choice, one: Channel)
    requires IssueChoice(p, s, c) == Some(one)
    ensures one.trace.hist == if c.answer.Ready? then s.trace.hist + [Issued(c.answer.cmd, s.clk)] else s.trace.hist
  {
  }

  lemma FirstTaken(p: Config, ws: seq<nat>, cq: CommandQueue, k: nat)
    requires SplitClosePage(p, ws) && 1 <= k <= |ws| && cq.queues == OneLine(p, Home(p, ws[0]), Commands(p, ws[..k]))
    ensures Taken(p, cq, WriteOf(p, ws[0])).answer == Ready(WriteOf(p, ws[0]))
  {
    hide Taken, Usable, OneRow, Home, Target;
    RowHome(p, ws);
    WriteGoesHome(p, ws[0]);
    HeadTaken(p, cq, Home(p, ws[0]), Commands(p, ws[..k]));
  }

  /** The first write goes when its burst will meet the read's. */
  lemma ClashingWriteGoes(p: Config, ws: seq<nat>, s: Channel, k: nat)
    requires SplitClosePage(p, ws) && !RefreshDue(p, s.timer.clk) && Feeding(p, ws, s, ClashAt(p), Third(p, ws[0]), k)
    ensures Step(p, s, Cycle).Some? && Fourth(p, ws[0]) <= Step(p, s, Cycle).value.trace.hist
  {
    hide Intact, Usable, Target, Step, Commands, OneRow, WriteOf, Home, OneLine, GetCommandToIssue, FirstReady, Third, Fourth, Legal, Turning;
    InvTurns(p, s);
    OpenLineOffers(p, ws, k, ClashAt(p));
    LineAsked(p, ws, s.cq, s.dev, k, Ready(WriteOf(p, ws[0])));
    ThirdIs(p, ws[0]);
    FirstTaken(p, ws, s.cq.(next := Home(p, ws[0])), k);
    FirstIsIssued(p, s, WriteOf(p, ws[0]));
  }

  // ----- the whole run

  lemma FirstFed(p: Config, ws: seq<nat>, s: Channel) returns (now: Channel)
    requires SplitClosePage(p, ws) && !RefreshDue(p, s.timer.clk)
    requires Holds(p, s, ActAt(p) - 1, Second(p, ws[0]), OneLine(p, Home(p, ws[0]), []), Home(p, ws[0]), ws, |ws|)
    ensures Step(p, s, Cycle) == Some(now) && Feeding(p, ws, now, ActAt(p), Second(p, ws[0]), 1)
  {
    hide Usable, Step, OneRow, Holds, Second, OneLine, Fed, Intact, Home;
    now := Begins(p, ws, s, ActAt(p) - 1, Second(p, ws[0]), Home(p, ws[0]));
  }

  /** A read, and then writes that together make draining begin, the first of them to the read's bank and row. */
  lemma SplitTightRunCollides(p: Config, ws: seq<nat>) returns (es: seq<Event>)
    requires SplitClosePage(p, ws) && RefreshInterval(p) > ClashAt(p) && TooTight(p)
    ensures Collides(p, es)
  {
    hide Usable, Run, Step, Feeding, OneRow, Holds, Second, Third, OneLine;
    var s, k;
    FewRefreshes(p, 0, ClashAt(p));
    es, s := AllHeld(p, ws);
    HoldsClock(p, ws, s, ActAt(p) - 1, Second(p, ws[0]));
    var one := FirstFed(p, ws, s);
    OneMore(p, es, s, Cycle, one);
    es, s := es + [Cycle], one;
    FeedClock(p, ws, s, ActAt(p), Second(p, ws[0]), 1);
    one, k := Activates(p, ws, s);
    OneMore(p, es, s, Cycle, one);
    es, s, k := IdlesUntil(p, ws, es + [Cycle], one, ActAt(p) + 1, k);
    FeedClock(p, ws, s, ClashAt(p), Third(p, ws[0]), k);
    ClashingWriteGoes(p, ws, s, k);
    OneMore(p, es, s, Cycle, Step(p, s, Cycle).value);
    es := es + [Cycle];
    FourthCollides(p, ws[0], Run(p, es).value.trace.hist);
  }

  lemma HoldsClock(p: Config, ws: seq<nat>, s: Channel, clk: int, h: seq<Issued>)
    requires ws != [] && Holds(p, s, clk, h, OneLine(p, Home(p, ws[0]), []), Home(p, ws[0]), ws, |ws|)
    ensures s.timer.clk == clk && 0 <= clk
  {
  }

  lemma FourthCollides(p: Config, a: nat, h: seq<Issued>)
    requires ClosePage(p) && TooTight(p) && Fourth(p, a) <= h
    ensures exists i, j | 0 <= i < j < |h| :: h[i].cmd.kind.IsReadWrite() && h[j].cmd.kind.IsReadWrite() && Collide(p, h[i], h[j])
  {
    var g := Fourth(p, a);
    assert g[1] == Issued(ReadOf(p, a), ReadAt(p)) && g[3] == Issued(WriteOf(p, a), ClashAt(p));
    assert h[1] == g[1] && h[3] == g[3];
    assert Collide(p, h[1], h[3]);
  }

  /** As with one queue: some run has colliding bursts if and only if the auto-precharge timing is not safe. */
  lemma SplitRunsCollideExactlyWhenUnsafe(p: Config, ws: seq<nat>)
    requires SplitClosePage(p, ws) && RefreshInterval(p) > ClashAt(p) && ReadDecides(p)
    ensures (exists es :: Collides(p, es)) <==> !AutoPrechargeSafe(p)
  {
    hide Collides, OneRow, Usable;
    if !AutoPrechargeSafe(p) {
      assert TooTight(p);
      var es := SplitTightRunCollides(p, ws);
    } else {
      forall es
        ensures !Collides(p, es)
      {
        SafeRunsKeepApart(p, es);
      }
    }
  }
}
