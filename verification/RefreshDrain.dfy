/** A rank refresh that has reached the front of its queue is issued within a bounded time. */
module RefreshDrain {
  import opened Common
  import opened Configuration
  import opened TimingSpec
  import opened Device
  import opened DeviceRuns
  import opened ReadinessFacts
  import opened Scheduler
  import opened Channel
  import opened ChannelInv
  import opened ChannelSteps
  import Cycles

  function OpenBanks(d: Device, r: int): set<Loc> {
    set l | l in d.banks && l.rank == r && d.banks[l].mode == Open
  }

  /** Every bank of the rank may be precharged by `pre` and refreshed by `ref`. */
  ghost predicate Bounds(d: Device, r: int, pre: int, ref: int) {
    forall l | l in d.banks && l.rank == r :: d.banks[l].At(Precharge) <= pre && d.banks[l].At(Refresh) <= ref
  }

  /**
    The cycle by which the refresh goes when `n` banks are open at `clk`: precharges follow each other
    every max(1, tPPD) cycles from the moment all are ready, and the refresh max(1, tRP) after the last.
   */
  function Deadline(p: Config, clk: int, n: nat, pre: int, ref: int): int {
    if n == 0 then Max(ref, clk)
    else Max(ref, Max(clk, pre) + (n - 1) * Max(1, p.tPPD) + Max(1, p.tRP))
  }

  lemma DeadlineAhead(p: Config, clk: int, n: nat, pre: int, ref: int)
    ensures Deadline(p, clk, n, pre, ref) >= clk
  {
    if n > 0 {
      assert (n - 1) * Max(1, p.tPPD) >= 0;
    }
  }

  /** A precharge brings the refresh nearer: with one bank fewer the deadline does not move back. */
  lemma DeadlineAfterPrecharge(p: Config, clk: int, n: nat, pre: int, ref: int)
    requires n > 0
    ensures Deadline(p, clk + 1, n - 1, Max(pre, clk + p.tPPD), Max(ref, clk + p.tRP)) <= Deadline(p, clk, n, pre, ref)
  {
    var m := Max(1, p.tPPD);
    assert (n - 1) * m >= 0;
    if n > 1 {
      assert (n - 1) * m == (n - 2) * m + m;
      assert (n - 2) * m >= 0;
    }
  }

  // ----- what an issued command changes in the rank

  /** Commands for other ranks leave the rank's states and its precharge and refresh times alone. */
  lemma OtherRankQuiet(p: Config, d: Device, cmd: Command, clk: int, r: int, l: Loc)
    requires Timed(p) && Accepts(d, cmd) && cmd.addr.rank != r && l in d.banks && l.rank == r
    ensures var now := Issue(p, d, cmd, clk).value;
            l in now.banks && now.banks[l].mode == d.banks[l].mode &&
            now.banks[l].At(Precharge) == d.banks[l].At(Precharge) && now.banks[l].At(Refresh) == d.banks[l].At(Refresh)
  {
    var c := Issued(cmd, clk);
    IssueSteps(p, d, c, l);
    IssueRaises(p, d, c, l, Precharge);
    IssueRaises(p, d, c, l, Refresh);
    assert Listed(p.delays, OtherRank, cmd.kind, Precharge) == Delay(p, OtherRank, cmd.kind, Precharge);
    assert Listed(p.delays, OtherRank, cmd.kind, Refresh) == Delay(p, OtherRank, cmd.kind, Refresh);
  }

  lemma OtherRankKeepsBounds(p: Config, d: Device, cmd: Command, clk: int, r: int, pre: int, ref: int)
    requires Timed(p) && Accepts(d, cmd) && cmd.addr.rank != r && Bounds(d, r, pre, ref)
    ensures var now := Issue(p, d, cmd, clk).value; OpenBanks(now, r) == OpenBanks(d, r) && Bounds(now, r, pre, ref)
  {
    var now := Issue(p, d, cmd, clk).value;
    forall l | l in now.banks && l.rank == r
      ensures now.banks[l].mode == d.banks[l].mode && now.banks[l].At(Precharge) <= pre && now.banks[l].At(Refresh) <= ref
    {
      OtherRankQuiet(p, d, cmd, clk, r, l);
    }
    assert forall l :: l in d.banks <==> l in now.banks;
  }

  lemma PrechargeAt(p: Config, d: Device, cmd: Command, clk: int, l: Loc, pre: int, ref: int)
    requires Timed(p) && Accepts(d, cmd) && cmd.kind.Precharge? && l in d.banks && l.rank == cmd.addr.rank
    requires d.banks[l].At(Precharge) <= pre && d.banks[l].At(Refresh) <= ref
    ensures var now := Issue(p, d, cmd, clk).value;
            l in now.banks && now.banks[l].mode == (if l == cmd.Place() then Closed else d.banks[l].mode) &&
            now.banks[l].At(Precharge) <= Max(pre, clk + p.tPPD) && now.banks[l].At(Refresh) <= Max(ref, clk + p.tRP)
  {
    var c, rel := Issued(cmd, clk), Relate(cmd, l).value;
    IssueSteps(p, d, c, l);
    IssueRaises(p, d, c, l, Precharge);
    IssueRaises(p, d, c, l, Refresh);
    assert Listed(p.delays, rel, Precharge, Precharge) == Delay(p, rel, Precharge, Precharge);
    assert Listed(p.delays, rel, Precharge, Refresh) == Delay(p, rel, Precharge, Refresh);
  }

  /** Each drain precharge closes one open bank of the rank and opens none. */
  lemma PrechargeDrains(p: Config, d: Device, cmd: Command, clk: int, pre: int, ref: int)
    requires Timed(p) && Accepts(d, cmd) && cmd.kind.Precharge? && Bounds(d, cmd.addr.rank, pre, ref)
    ensures var now, r := Issue(p, d, cmd, clk).value, cmd.addr.rank;
            cmd.Place() in OpenBanks(d, r) && OpenBanks(now, r) == OpenBanks(d, r) - {cmd.Place()} &&
            Bounds(now, r, Max(pre, clk + p.tPPD), Max(ref, clk + p.tRP))
  {
    var now, r := Issue(p, d, cmd, clk).value, cmd.addr.rank;
    assert Touches(cmd, cmd.Place());
    forall l | l in now.banks && l.rank == r
      ensures now.banks[l].mode == (if l == cmd.Place() then Closed else d.banks[l].mode)
      ensures now.banks[l].At(Precharge) <= Max(pre, clk + p.tPPD) && now.banks[l].At(Refresh) <= Max(ref, clk + p.tRP)
    {
      PrechargeAt(p, d, cmd, clk, l, pre, ref);
    }
    assert forall l :: l in d.banks <==> l in now.banks;
  }

  // ----- what a draining cycle issues

  lemma {:induction false} VisitAvoidsRank(p: Config, d: Device, cq: CommandQueue, left: nat, r: int)
    requires Usable(p) && Awake(p, d) && QueuesOk(p, cq.queues) && 0 <= cq.next < QueueCount(p)
    requires cq.inRef && cq.refQueues == RefreshQueues(p, RefreshRank(r))
    ensures var a := Visit(p, d, cq, left).answer; a.Ready? ==> a.cmd.addr.rank != r
    decreases left
  {
    if left > 0 {
      var at := cq.(next := NextIndex(p, cq.next));
      if Blocked(at) {
        VisitAvoidsRank(p, d, at, left - 1, r);
      } else {
        var queue := at.queues[at.next];
        var i := FirstReadyIs(p, d, queue, 0, at.clk);
        if i < |queue| {
          assert QueueOk(p, queue, at.next) && queue[i] in queue;
          assert queue[i].Place() == Target(p, queue[i].hexAddr);
          ReadWriteReady(p, d, queue[i], at.clk);
          HomeInRange(p, queue[i].Place());
        } else {
          VisitAvoidsRank(p, d, at, left - 1, r);
        }
      }
    }
  }

  /** The refresh of rank `r` is at the front when the cycle's refresh decision is made. */
  ghost predicate Waits(s: Channel, r: int) {
    s.refreshQ != [] && s.refreshQ[0] == RefreshRank(r)
  }

  /**
    In a cycle that finds the refresh waiting, the first command is the refresh itself, a precharge in its
    rank, or something for another rank; the last only when nothing in the rank is ready yet.
   */
  lemma DrainChoice(p: Config, s: Channel, r: int)
    requires Usable(p) && Inv(p, s) && Waits(s, r)
    ensures var c := ChooseFirst(p, s);
            (c.answer.Ready? && c.answer.cmd == RefreshRank(r)) ||
            (c.answer.Ready? && c.answer.cmd.kind.Precharge? && c.answer.cmd.addr.rank == r) ||
            ((c.answer.Ready? ==> c.answer.cmd.addr.rank != r) && NothingReady(p, s.dev, r, s.clk))
    ensures ChooseFirst(p, s).answer != Ready(RefreshRank(r)) ==>
              ChooseFirst(p, s).cq.inRef && ChooseFirst(p, s).cq.refQueues == RefreshQueues(p, RefreshRank(r))
  {
    assert s.refreshQ[0] in s.refreshQ && IsRequest(p, s.refreshQ[0]);
    var f := RankAnswer(p, s.dev, s.cq, r);
    if f.answer.NotYet? {
      VisitChooses(p, s.dev, f.cq, QueueCount(p));
      VisitAvoidsRank(p, s.dev, f.cq, QueueCount(p), r);
    }
  }

  /** How the refresh of a rank is answered, and what it stops. */
  lemma RankAnswer(p: Config, d: Device, cq: CommandQueue, r: int) returns (f: Choice)
    requires Usable(p) && Awake(p, d) && 0 <= r < p.ranks && IsRequest(p, RefreshRank(r))
    requires if cq.inRef then cq.refQueues == RefreshQueues(p, RefreshRank(r)) else cq.refQueues == {}
    ensures f == FinishRefresh(p, d, cq, RefreshRank(r)) && !f.answer.Abort?
    ensures f.answer.Ready? ==> f.answer.cmd == RefreshRank(r) || (f.answer.cmd.kind.Precharge? && f.answer.cmd.addr.rank == r)
    ensures f.answer.NotYet? ==> NothingReady(p, d, r, cq.clk)
    ensures f.answer != Ready(RefreshRank(r)) ==> f.cq == cq.(inRef := true, refQueues := RefreshQueues(p, RefreshRank(r)))
  {
    f := FinishRefresh(p, d, cq, RefreshRank(r));
    RankScanned(p, d, RefreshRank(r), cq.clk);
    RefreshReady(p, d, RefreshRank(r), cq.clk);
  }

  /** No open bank of the rank can be precharged yet, and some bank is open or cannot be refreshed yet. */
  ghost predicate NothingReady(p: Config, d: Device, r: int, clk: int) {
    (forall l | l in d.banks && l.rank == r && d.banks[l].mode == Open :: d.banks[l].At(Precharge) > clk) &&
    exists l :: l in d.banks && l.rank == r && (d.banks[l].mode != Closed || d.banks[l].At(Refresh) > clk)
  }

  lemma DeadlineWaiting(p: Config, d: Device, r: int, clk: int, pre: int, ref: int)
    requires Awake(p, d) && Bounds(d, r, pre, ref) && NothingReady(p, d, r, clk)
    ensures Deadline(p, clk + 1, |OpenBanks(d, r)|, pre, ref) == Deadline(p, clk, |OpenBanks(d, r)|, pre, ref)
  {
    if OpenBanks(d, r) == {} {
      var l :| l in d.banks && l.rank == r && (d.banks[l].mode != Closed || d.banks[l].At(Refresh) > clk);
      assert l !in OpenBanks(d, r);
    } else {
      var l :| l in OpenBanks(d, r);
    }
  }

  // ----- over cycles and runs

  /** How far a draining rank has come: its times are bounded and its deadline is `due`. */
  ghost predicate Eased(p: Config, d: Device, clk: int, r: int, pre: int, ref: int, due: int) {
    Bounds(d, r, pre, ref) && Deadline(p, clk, |OpenBanks(d, r)|, pre, ref) <= due
  }

  ghost predicate Progress(p: Config, s: Channel, r: int, pre: int, ref: int, due: int) {
    Waits(s, r) && Eased(p, s.dev, s.clk, r, pre, ref, due)
  }

  ghost predicate Stopped(p: Config, cq: CommandQueue, r: int) {
    cq.inRef && cq.refQueues == RefreshQueues(p, RefreshRank(r))
  }

  /** What the first answer of a draining cycle can be. */
  ghost predicate DrainAnswer(p: Config, d: Device, clk: int, r: int, answer: Readiness) {
    answer == Ready(RefreshRank(r)) ||
    (answer.Ready? && Accepts(d, answer.cmd) && answer.cmd.kind.Precharge? && answer.cmd.addr.rank == r) ||
    (OffRank(d, r, answer) && NothingReady(p, d, r, clk))
  }

  /** An answer, if any, that the device accepts and that goes to another rank. */
  ghost predicate OffRank(d: Device, r: int, answer: Readiness) {
    !answer.Abort? && (answer.Ready? ==> Accepts(d, answer.cmd) && answer.cmd.addr.rank != r && !answer.cmd.kind.IsRefresh())
  }

  lemma FirstAnswer(p: Config, s: Channel, r: int)
    requires Usable(p) && Inv(p, s) && Waits(s, r)
    ensures Awake(p, s.dev) && DrainAnswer(p, s.dev, s.clk, r, ChooseFirst(p, s).answer)
    ensures ChooseFirst(p, s).answer != Ready(RefreshRank(r)) ==> Stopped(p, ChooseFirst(p, s).cq, r)
  {
    DrainChoice(p, s, r);
    FirstChoice(p, s);
  }

  lemma SecondAnswer(p: Config, s: Channel, d: Choice, r: int)
    requires Usable(p) && Inv(p, s) && Stopped(p, s.cq, r) && Doable(p, s, d)
    requires d.answer.Ready? ==> !d.answer.cmd.kind.IsRefresh() && d.answer == GetCommandToIssue(p, s.dev, s.cq).answer
    ensures OffRank(s.dev, r, d.answer)
  {
    if d.answer.Ready? {
      VisitAvoidsRank(p, s.dev, s.cq, QueueCount(p), r);
    }
  }

  /** The device after an answer was carried out. */
  ghost predicate Carried(p: Config, d: Device, clk: int, answer: Readiness, now: Device) {
    match answer
    case Abort => false
    case NotYet => now == d
    case Ready(cmd) => Issue(p, d, cmd, clk) == Some(now)
  }

  /** Unless the refresh itself goes, the deadline still stands in the next cycle. */
  lemma FirstEases(p: Config, d: Device, clk: int, answer: Readiness, now: Device, r: int, pre: int, ref: int, due: int) returns (pre': int, ref': int)
    requires Timed(p) && Awake(p, d) && Eased(p, d, clk, r, pre, ref, due)
    requires DrainAnswer(p, d, clk, r, answer) && answer != Ready(RefreshRank(r)) && Carried(p, d, clk, answer, now)
    ensures Eased(p, now, clk + 1, r, pre', ref', due)
  {
    pre', ref' := pre, ref;
    if answer.Ready? && answer.cmd.addr.rank == r {
      pre', ref' := Max(pre, clk + p.tPPD), Max(ref, clk + p.tRP);
      PrechargeDrains(p, d, answer.cmd, clk, pre, ref);
      DeadlineAfterPrecharge(p, clk, |OpenBanks(d, r)|, pre, ref);
    } else {
      SecondEases(p, d, clk, clk, answer, now, r, pre, ref, due);
      DeadlineWaiting(p, d, r, clk, pre, ref);
      if answer.Ready? {
        OtherRankKeepsBounds(p, d, answer.cmd, clk, r, pre, ref);
      }
    }
  }

  /** Answers for other ranks do not touch the deadline of any cycle `at`. */
  lemma SecondEases(p: Config, d: Device, clk: int, at: int, answer: Readiness, now: Device, r: int, pre: int, ref: int, due: int)
    requires Timed(p) && Eased(p, d, at, r, pre, ref, due) && OffRank(d, r, answer) && Carried(p, d, clk, answer, now)
    ensures Eased(p, now, at, r, pre, ref, due)
  {
    if answer.Ready? {
      OtherRankKeepsBounds(p, d, answer.cmd, clk, r, pre, ref);
    }
  }

  /** Rank `r` was refreshed at a step from `from` on, at a cycle in `[t0, due]`. */
  ghost predicate RefreshedBy(h: seq<Issued>, from: int, r: int, t0: int, due: int) {
    exists k | 0 <= from <= k < |h| :: h[k].cmd == RefreshRank(r) && t0 <= h[k].at <= due
  }

  /** The two issues of a draining cycle, without the invariant's details. */
  ghost predicate DrainParts(p: Config, s: Channel, r: int, first: Readiness, one: Channel, second: Readiness, two: Channel) {
    Awake(p, s.dev) && DrainAnswer(p, s.dev, s.clk, r, first) && (first != Ready(RefreshRank(r)) ==> OffRank(one.dev, r, second)) &&
    Did(p, s, first, one) && Did(p, one, second, two)
  }

  ghost predicate Did(p: Config, s: Channel, answer: Readiness, now: Channel) {
    Carried(p, s.dev, s.clk, answer, now.dev) && now.clk == s.clk &&
    now.trace.hist == s.trace.hist + (if answer.Ready? then [Issued(answer.cmd, s.clk)] else []) &&
    (!(answer.Ready? && answer.cmd.kind.IsRefresh()) ==> now.refreshQ == s.refreshQ)
  }

  lemma ChoiceDid(p: Config, s: Channel, c: Choice, now: Channel)
    requires IssueChoice(p, s, c) == Some(now)
    ensures Did(p, s, c.answer, now) && now.cq == c.cq
  {
  }

  lemma DrainAnswers(p: Config, es: seq<Event>, r: int) returns (asked: Channel, first: Readiness, one: Channel, second: Readiness, two: Channel)
    requires Usable(p) && Run(p, es).Some? && Waits(RefreshTick(p, Run(p, es).value), r)
    ensures asked == RefreshTick(p, DrainDone(Run(p, es).value))
    ensures DrainParts(p, asked, r, first, one, second, two)
    ensures Run(p, es + [Cycle]) == Some(Advance(Schedule(p, two)))
  {
    hide Usable, Inv, Issue;
    RunKeepsInv(p, es);
    var c, d;
    asked, c, one, d, two := CycleParts(p, Run(p, es).value);
    first, second := c.answer, d.answer;
    assert Did(p, asked, first, one) && one.cq == c.cq by { ChoiceDid(p, asked, c, one); }
    assert Did(p, one, second, two) by { ChoiceDid(p, one, d, two); }
    FirstAnswer(p, asked, r);
    if first != Ready(RefreshRank(r)) {
      SecondAnswer(p, one, d, r);
    }
    assert (es + [Cycle])[..|es|] == es;
  }

  lemma DrainCycle(p: Config, es: seq<Event>, r: int, pre: int, ref: int, due: int) returns (pre': int, ref': int)
    requires Usable(p) && Timed(p) && Run(p, es).Some?
    requires Progress(p, RefreshTick(p, Run(p, es).value), r, pre, ref, due)
    ensures Run(p, es + [Cycle]).Some?
    ensures var s, now := Run(p, es).value, Run(p, es + [Cycle]).value;
            now.clk == s.clk + 1 && s.trace.hist <= now.trace.hist &&
            (RefreshedBy(now.trace.hist, |s.trace.hist|, r, s.clk, due) || Progress(p, RefreshTick(p, now), r, pre', ref', due))
  {
    var s := Run(p, es).value;
    var asked, first, one, second, two := DrainAnswers(p, es, r);
    ScheduleFrame(p, two);
    pre', ref' := PartsEase(p, asked, r, first, one, second, two, pre, ref, due);
  }

  lemma PartsEase(p: Config, s: Channel, r: int, first: Readiness, one: Channel, second: Readiness, two: Channel, pre: int, ref: int, due: int)
    returns (pre': int, ref': int)
    requires Timed(p) && DrainParts(p, s, r, first, one, second, two) && Progress(p, s, r, pre, ref, due)
    ensures s.trace.hist <= two.trace.hist && two.clk == s.clk
    ensures RefreshedBy(two.trace.hist, |s.trace.hist|, r, s.clk, due) || Progress(p, two.(clk := s.clk + 1), r, pre', ref', due)
  {
    pre', ref' := pre, ref;
    if first == Ready(RefreshRank(r)) {
      DeadlineAhead(p, s.clk, |OpenBanks(s.dev, r)|, pre, ref);
      assert two.trace.hist[|s.trace.hist|] == Issued(RefreshRank(r), s.clk);
    } else {
      pre', ref' := FirstEases(p, s.dev, s.clk, first, one.dev, r, pre, ref, due);
      SecondEases(p, one.dev, s.clk, s.clk + 1, second, two.dev, r, pre', ref', due);
    }
  }

  /** Arrivals disturb neither the device nor the requests for refresh. */
  lemma ArriveFrame(p: Config, s: Channel, addr: nat, isWrite: bool)
    ensures var now := Step(p, s, Arrive(addr, isWrite)).value;
            now.dev == s.dev && now.refreshQ == s.refreshQ && now.clk == s.clk && now.trace.hist == s.trace.hist &&
            now.timer == s.timer
  {
  }

  /** From `s` on to `now`, the refresh was issued in time or is still on its way. */
  ghost predicate OnWay(p: Config, s: Channel, now: Channel, r: int, pre: int, ref: int, due: int) {
    s.clk <= now.clk && s.trace.hist <= now.trace.hist &&
    (RefreshedBy(now.trace.hist, |s.trace.hist|, r, s.clk, due) || Progress(p, RefreshTick(p, now), r, pre, ref, due))
  }

  /** ... under some bounds on the times of its rank. */
  ghost predicate Underway(p: Config, s: Channel, now: Channel, r: int, due: int) {
    exists pre, ref :: OnWay(p, s, now, r, pre, ref, due)
  }

  lemma OneMoreStep(p: Config, s: Channel, es: seq<Event>, mid: Channel, e: Event, r: int, due: int) returns (now: Channel)
    requires Usable(p) && Timed(p) && Run(p, es) == Some(mid) && Underway(p, s, mid, r, due)
    ensures Run(p, es + [e]) == Some(now) && Underway(p, s, now, r, due)
  {
    hide Usable, Timed, Eased, Run, Step, Inv, DeviceOk;
    var pre, ref :| OnWay(p, s, mid, r, pre, ref, due);
    now := StepGrows(p, es, mid, e);
    var pre', ref' := pre, ref;
    if RefreshedBy(mid.trace.hist, |s.trace.hist|, r, s.clk, due) {
      RefreshedStays(mid.trace.hist, now.trace.hist, |s.trace.hist|, r, s.clk, due);
    } else if e.Cycle? {
      pre', ref' := DrainCycle(p, es, r, pre, ref, due);
      if RefreshedBy(now.trace.hist, |mid.trace.hist|, r, mid.clk, due) {
        RefreshedEarlier(now.trace.hist, |s.trace.hist|, |mid.trace.hist|, r, s.clk, mid.clk, due);
      }
    } else {
      ArriveFrame(p, mid, e.addr, e.isWrite);
    }
    assert OnWay(p, s, now, r, pre', ref', due);
  }

  lemma RefreshedStays(h: seq<Issued>, g: seq<Issued>, from: int, r: int, t0: int, due: int)
    requires RefreshedBy(h, from, r, t0, due) && h <= g
    ensures RefreshedBy(g, from, r, t0, due)
  {
    var k :| 0 <= from <= k < |h| && h[k].cmd == RefreshRank(r) && t0 <= h[k].at <= due;
    assert g[k] == h[k];
  }

  lemma RefreshedEarlier(h: seq<Issued>, from: int, later: int, r: int, t0: int, t1: int, due: int)
    requires RefreshedBy(h, later, r, t1, due) && 0 <= from <= later && t0 <= t1
    ensures RefreshedBy(h, from, r, t0, due)
  {
  }

  lemma {:induction false} DrainRun(p: Config, s: Channel, es: seq<Event>, fs: seq<Event>, r: int, due: int) returns (now: Channel)
    requires Usable(p) && Timed(p) && Run(p, es) == Some(s) && Underway(p, s, s, r, due)
    ensures Run(p, es + fs) == Some(now) && Underway(p, s, now, r, due)
    decreases |fs|
  {
    if fs == [] {
      assert es + fs == es;
      now := s;
    } else {
      var mid := DrainRun(p, s, es, fs[..|fs| - 1], r, due);
      now := DrainStep(p, s, es, fs, mid, r, due);
    }
  }

  lemma DrainStep(p: Config, s: Channel, es: seq<Event>, fs: seq<Event>, mid: Channel, r: int, due: int) returns (now: Channel)
    requires Usable(p) && Timed(p) && fs != [] && Run(p, es + fs[..|fs| - 1]) == Some(mid) && Underway(p, s, mid, r, due)
    ensures Run(p, es + fs) == Some(now) && Underway(p, s, now, r, due)
  {
    now := OneMoreStep(p, s, es + fs[..|fs| - 1], mid, fs[|fs| - 1], r, due);
    Appended(es, fs);
  }

  lemma Appended(es: seq<Event>, fs: seq<Event>)
    requires fs != []
    ensures (es + fs[..|fs| - 1]) + [fs[|fs| - 1]] == es + fs
  {
  }

  lemma StepGrows(p: Config, es: seq<Event>, s: Channel, e: Event) returns (now: Channel)
    requires Usable(p) && Run(p, es) == Some(s)
    ensures Run(p, es + [e]) == Some(now) && Step(p, s, e) == Some(now)
    ensures s.trace.hist <= now.trace.hist && now.clk == if e.Cycle? then s.clk + 1 else s.clk
  {
    assert (es + [e])[..|es|] == es;
    match e
    case Arrive(addr, isWrite) =>
      ArriveFrame(p, s, addr, isWrite);
      now := Step(p, s, e).value;
    case Cycle =>
      var c, one, d, two := Cycles.RunCycle(p, es);
      now := Advance(Schedule(p, two));
      CycleGrows(p, s, c, one, d, two);
  }

  lemma CycleGrows(p: Config, s: Channel, c: Choice, one: Channel, d: Choice, two: Channel)
    requires Cycles.Carried(p, RefreshTick(p, DrainDone(s)), c, one) && Cycles.Carried(p, one, d, two)
    ensures var now := Advance(Schedule(p, two)); s.trace.hist <= now.trace.hist && now.clk == s.clk + 1
  {
    ScheduleFrame(p, two);
    CarriedGrows(p, RefreshTick(p, DrainDone(s)), c, one);
    CarriedGrows(p, one, d, two);
  }

  lemma CarriedGrows(p: Config, s: Channel, c: Choice, now: Channel)
    requires Cycles.Carried(p, s, c, now)
    ensures s.trace.hist <= now.trace.hist && now.clk == s.clk
  {
  }

  /**
    Bounded drain: when a rank refresh is first in line, whatever arrives meanwhile, it has been issued
    once the clock has passed the deadline set by the rank's open banks and its precharge and refresh times.
   */
  lemma RefreshIssuedInTime(p: Config, es: seq<Event>, fs: seq<Event>, r: int, pre: int, ref: int)
    requires Usable(p) && Timed(p) && Run(p, es).Some? && Run(p, es + fs).Some?
    requires Waits(RefreshTick(p, Run(p, es).value), r) && Bounds(Run(p, es).value.dev, r, pre, ref)
    requires var s := Run(p, es).value; Run(p, es + fs).value.clk > Deadline(p, s.clk, |OpenBanks(s.dev, r)|, pre, ref)
    ensures var s := Run(p, es).value;
            RefreshedBy(Run(p, es + fs).value.trace.hist, |s.trace.hist|, r, s.clk, Deadline(p, s.clk, |OpenBanks(s.dev, r)|, pre, ref))
  {
    var s := Run(p, es).value;
    var due := Deadline(p, s.clk, |OpenBanks(s.dev, r)|, pre, ref);
    assert OnWay(p, s, s, r, pre, ref, due);
    var now := DrainRun(p, s, es, fs, r, due);
    var pre', ref' :| OnWay(p, s, now, r, pre', ref', due);
    if Progress(p, RefreshTick(p, now), r, pre', ref', due) {
      DeadlineAhead(p, now.clk, |OpenBanks(now.dev, r)|, pre', ref');
    }
  }
}
