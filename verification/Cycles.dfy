/**
  A cycle of a reachable channel, reduced to what its two issues do to the queues and records: the
  form in which the theorems about runs use it.
 */
module Cycles {
  import opened Common
  import opened Configuration
  import opened Scheduler
  import opened Channel
  import opened ChannelInv
  import opened ChannelSteps
  import opened Lines
  import opened Arbitration

  /** `now` is `s` after carrying out choice `c`, the device and the queues of commands aside. */
  ghost predicate Carried(p: Config, s: Channel, c: Choice, now: Channel) {
    MapsOk(s.trace.log, s.pendingRd, s.pendingWr) && LiveOf(p, now).rd <= LiveOf(p, s).rd && LiveOf(p, now).wr <= LiveOf(p, s).wr &&
    match c.answer
    case Abort => false
    case NotYet => now == s.(cq := now.cq)
    case Ready(cmd) =>
      now.refreshQ == (if cmd.kind.IsRefresh() then AllButFirst(s.refreshQ) else s.refreshQ) &&
      (cmd.kind.IsRefresh() ==> s.refreshQ != [] && cmd == s.refreshQ[0]) &&
      IsPending(s, cmd) && now == Retired(p, s, cmd).value.(cq := now.cq, dev := now.dev, refreshQ := now.refreshQ) &&
      (cmd.kind.IsWrite() ==> cmd.hexAddr in LiveOf(p, s).wr && cmd.hexAddr !in LiveOf(p, s).rd) &&
      (cmd.kind.IsRead() ==> cmd.hexAddr >= 0 && cmd.hexAddr in LiveOf(p, s).rd && ReadsEarliest(p, s.pendingRd, LiveOf(p, s).rd, cmd.hexAddr))
  }

  function AllButFirst(q: seq<Command>): seq<Command> {
    if q == [] then [] else q[1..]
  }

  /** Among the reads of its bank and row that have their entry, those on `a` were queued first. */
  ghost predicate ReadsEarliest(p: Config, rd: map<int, seq<Transaction>>, live: set<int>, a: nat)
    requires a in rd && live <= rd.Keys
  {
    forall b: nat | b in live && b != a && SameRow(p, b, a) :: HeadId(rd[a]) < HeadId(rd[b])
  }

  lemma IssueChoiceIs(p: Config, s: Channel, c: Choice)
    requires IssueChoice(p, s, c).Some? && c.answer.Ready? && IsPending(s, c.answer.cmd)
    ensures var now := IssueChoice(p, s, c).value;
            now == Retired(p, s, c.answer.cmd).value.(cq := now.cq, dev := now.dev, refreshQ := now.refreshQ) &&
            now.refreshQ == if c.answer.cmd.kind.IsRefresh() then RefreshServed(s.refreshQ, c.answer.cmd) else s.refreshQ
  {
  }

  lemma ChoiceCarried(p: Config, s: Channel, c: Choice, now: Channel)
    requires Usable(p) && Inv(p, s) && Doable(p, s, c) && IssueChoice(p, s, c) == Some(now)
    ensures Carried(p, s, c, now)
  {
    hide PendingOk, LiveOf, Chosen, IssueChoice;
    InvLive(p, s);
    MapsAre(p, s, LiveOf(p, s));
    if c.answer.Ready? {
      ReadyCarried(p, s, c, now);
    } else {
      NotYetCarried(p, s, c, now);
    }
  }

  lemma MapsAre(p: Config, s: Channel, v: Live)
    requires PendingOk(p, s, v)
    ensures MapsOk(s.trace.log, s.pendingRd, s.pendingWr) && v.rd <= s.pendingRd.Keys
  {
  }

  lemma NotYetCarried(p: Config, s: Channel, c: Choice, now: Channel)
    requires Doable(p, s, c) && c.answer.NotYet? && IssueChoice(p, s, c) == Some(now)
    ensures now == s.(cq := c.cq) && LiveOf(p, now).rd <= LiveOf(p, s).rd && LiveOf(p, now).wr <= LiveOf(p, s).wr
  {
    forall a, isWrite | HasEntry(p, now, a, isWrite)
      ensures HasEntry(p, s, a, isWrite)
    {
      EntriesGo(p, s.cq.queues, c.cq.queues, TransQueue(p, s, isWrite), Home(p, a), TransToCommand(p, a, isWrite));
    }
  }

  lemma EntriesGo(p: Config, queues: seq<seq<Command>>, now: seq<seq<Command>>, ts: seq<Transaction>, q: int, c: Command)
    requires NothingNew(queues, now) && 0 <= q < |queues| && c in Line(p, now, ts, q)
    ensures c in Line(p, queues, ts, q)
  {
  }

  lemma ReadyCarried(p: Config, s: Channel, c: Choice, now: Channel)
    requires Usable(p) && Inv(p, s) && PendingOk(p, s, LiveOf(p, s)) && Chosen(p, s.dev, s.cq, c) && RefreshChoice(p, s, c) && c.answer.Ready?
    requires MapsOk(s.trace.log, s.pendingRd, s.pendingWr) && IssueChoice(p, s, c) == Some(now)
    ensures Carried(p, s, c, now)
  {
    hide LiveOf, Chosen, IssueChoice, Pends, DeviceOk, MapsOk;
    var v := LiveOf(p, s);
    IssueRest(p, s, v, c);
    IssueStands(p, s, v, c);
    hide RestOk;
    LiveGoes(p, s, v, c, now);
    IssueChoiceIs(p, s, c);
    if c.answer.cmd.kind.IsReadWrite() {
      ColumnCarried(p, s, v, c);
    }
  }

  lemma LiveGoes(p: Config, s: Channel, v: Live, c: Choice, now: Channel)
    requires Usable(p) && c.answer.Ready? && IsPending(s, c.answer.cmd) && now == AfterRetire(p, s, c).(dev := now.dev)
    requires RestOk(p, AfterRetire(p, s, c)) && PendingOk(p, AfterRetire(p, s, c), LiveAfter(v, c.answer.cmd))
    ensures LiveOf(p, now) == LiveAfter(v, c.answer.cmd)
  {
    hide Pends, AfterRetire;
    LiveIs(p, AfterRetire(p, s, c), LiveAfter(v, c.answer.cmd));
  }

  lemma ColumnCarried(p: Config, s: Channel, v: Live, c: Choice)
    requires Usable(p) && RestOk(p, s) && PendingOk(p, s, v) && Chosen(p, s.dev, s.cq, c) && c.answer.Ready? && c.answer.cmd.kind.IsReadWrite()
    requires IsPending(s, c.answer.cmd)
    ensures var cmd := c.answer.cmd;
            (cmd.kind.IsWrite() ==> cmd.hexAddr in v.wr && cmd.hexAddr !in v.rd) &&
            (cmd.kind.IsRead() ==> cmd.hexAddr >= 0 && cmd.hexAddr in v.rd && v.rd <= s.pendingRd.Keys && ReadsEarliest(p, s.pendingRd, v.rd, cmd.hexAddr))
  {
    var cmd := c.answer.cmd;
    var q, i := ChosenEntry(p, s, c);
    if cmd.kind.IsWrite() {
      QueuedIsPending(p, s.cq.queues, TransQueue(p, s, true), v.wr, true, q, i);
      WriteFindsNoReader(p, s, v, q, i);
    } else {
      QueuedIsPending(p, s.cq.queues, TransQueue(p, s, false), v.rd, false, q, i);
      assert QueueOk(p, s.cq.queues[q], q) && cmd in s.cq.queues[q] && cmd.hexAddr >= 0;
      forall b: nat | b in v.rd && b != cmd.hexAddr && SameRow(p, b, cmd.hexAddr)
        ensures HeadId(s.pendingRd[cmd.hexAddr]) < HeadId(s.pendingRd[b])
      {
        EarliestOfRowIssues(p, s, v, q, i, b);
      }
    }
  }

  /** The two issues of the cycle that follows a run. */
  lemma RunCycle(p: Config, es: seq<Event>) returns (c: Choice, one: Channel, d: Choice, two: Channel)
    requires Usable(p)
    ensures Run(p, es).Some?
    ensures var s := Run(p, es).value;
            Carried(p, RefreshTick(p, DrainDone(s)), c, one) && Carried(p, one, d, two) &&
            Step(p, s, Cycle) == Some(Advance(Schedule(p, two))) &&
            LiveOf(p, RefreshTick(p, DrainDone(s))) == LiveOf(p, s) && LiveOf(p, Advance(Schedule(p, two))) == LiveOf(p, two)
  {
    hide Inv, Intact, Carried, LiveOf, Schedule, Step, Run;
    RunKeepsInv(p, es);
    var asked;
    asked, c, one, d, two := CycleParts(p, Run(p, es).value);
    FirstIsDoable(p, asked, c);
    ChoiceCarried(p, asked, c, one);
    ChoiceCarried(p, one, d, two);
    QuietLive(p, Run(p, es).value);
    ScheduleLive(p, two);
  }

  lemma FirstIsDoable(p: Config, s: Channel, c: Choice)
    requires Chosen(p, s.dev, s.cq, c) && RefreshChoice(p, s, c)
    ensures Doable(p, s, c)
  {
    ChosenTakes(p, s, c);
  }

  lemma QuietLive(p: Config, s: Channel)
    ensures LiveOf(p, RefreshTick(p, DrainDone(s))) == LiveOf(p, s)
  {
  }

  lemma ScheduleLive(p: Config, s: Channel)
    requires Usable(p) && Inv(p, s)
    ensures LiveOf(p, Advance(Schedule(p, s))) == LiveOf(p, s)
  {
    hide PendingOk, LiveOf, DeviceOk;
    var v := SomeLive(p, s);
    LiveIs(p, s, v);
    ScheduleStands(p, s, v);
    LiveIs(p, Schedule(p, s), v);
    AdvanceLive(p, Schedule(p, s));
  }

  lemma AdvanceLive(p: Config, s: Channel)
    ensures LiveOf(p, Advance(s)) == LiveOf(p, s)
  {
  }

  /** An accepted request comes in with its entry, unless it joins others. */
  lemma AcceptLive(p: Config, s: Channel, addr: nat, isWrite: bool)
    requires Usable(p) && Inv(p, s)
    ensures LiveOf(p, Accept(p, s, addr, isWrite)) == LiveWith(s, LiveOf(p, s), addr, isWrite)
  {
    hide PendingOk, LiveOf, DeviceOk, RestOk, Accept, LiveWith;
    var v := SomeLive(p, s);
    LiveIs(p, s, v);
    AcceptStands(p, s, v, addr, isWrite);
    LiveIs(p, Accept(p, s, addr, isWrite), LiveWith(s, v, addr, isWrite));
  }

  lemma RunMaps(p: Config, es: seq<Event>)
    requires Usable(p)
    ensures Run(p, es).Some?
    ensures var s := Run(p, es).value; MapsOk(s.trace.log, s.pendingRd, s.pendingWr) && 0 <= s.clk && LiveOf(p, s).rd <= s.pendingRd.Keys
  {
    hide LiveOf, Pends, Run;
    RunKeepsInv(p, es);
    InvLive(p, Run(p, es).value);
    MapsAre(p, Run(p, es).value, LiveOf(p, Run(p, es).value));
  }
}
