/** Issuing two commands in one cycle: when a request gets lost. */
module DualIssue {
  import opened Common
  import opened Configuration
  import opened Scheduler
  import opened Channel
  import opened ChannelInv
  import opened ChannelSteps
  import opened Lines
  import opened Cycles

  /** A read or write is pending on an address that has no entry left, in any command queue or waiting. */
  ghost predicate Lost(p: Config, s: Channel, a: nat, isWrite: bool) {
    a in (if isWrite then s.pendingWr else s.pendingRd) && 0 <= Home(p, a) < |s.cq.queues| &&
    TransToCommand(p, a, isWrite) !in Line(p, s.cq.queues, TransQueue(p, s, isWrite), Home(p, a))
  }

  lemma NothingLost(p: Config, s: Channel, a: nat, isWrite: bool)
    requires Intact(p, s)
    ensures !Lost(p, s, a, isWrite)
  {
    if 0 <= Home(p, a) < |s.cq.queues| {
      EntryIs(p, s, if isWrite then s.pendingWr.Keys else s.pendingRd.Keys, a, isWrite);
    }
  }

  /** A column access that was taken off its queue but not issued. */
  lemma DroppedIsLost(p: Config, s: Channel, v: Live, d: Choice)
    requires RestOk(p, s) && PendingOk(p, s, v) && Chosen(p, s.dev, s.cq, d) && RefreshChoice(p, s, d)
    requires d.answer.Ready? && d.answer.cmd.kind.IsReadWrite()
    ensures d.answer.cmd.hexAddr >= 0 && Lost(p, s.(cq := d.cq), d.answer.cmd.hexAddr, d.answer.cmd.kind.IsWrite())
  {
    hide Pends;
    var cmd := d.answer.cmd;
    var q, i := ChosenEntry(p, s, d);
    assert QueueOk(p, s.cq.queues[q], q) && cmd in s.cq.queues[q];
    DropStands(p, s, v, d, q, i);
    RetireColumn(p, s, v, d.cq, q, i);
    NotLive(p, s.(cq := d.cq), LiveAfter(v, cmd), cmd.hexAddr, cmd.kind.IsWrite());
  }

  lemma NotLive(p: Config, s: Channel, v: Live, a: nat, isWrite: bool)
    requires PendingOk(p, s, v) && 0 <= Home(p, a) < |s.cq.queues| && a !in (if isWrite then v.wr else v.rd)
    requires a in (if isWrite then s.pendingWr else s.pendingRd)
    ensures Lost(p, s, a, isWrite)
  {
    EntryIs(p, s, if isWrite then v.wr else v.rd, a, isWrite);
  }

  /**
    The second issue of a cycle loses a request exactly when both commands chosen in the cycle are column
    accesses: the second has then left its queue, is not issued, and can never be found again.
   */
  lemma SecondIssueLosesExactlyASecondColumn(p: Config, s: Channel, first: Command)
    requires Usable(p) && Intact(p, s)
    ensures IssueSecond(p, s, first).Some?
    ensures var d, now := GetCommandToIssue(p, s.dev, s.cq).answer, IssueSecond(p, s, first).value;
            (exists a: nat, isWrite :: Lost(p, now, a, isWrite)) <==> first.kind.IsReadWrite() && d.Ready? && d.cmd.kind.IsReadWrite()
  {
    hide Intact, Inv, Lost, GetCommandToIssue, RestOk, PendingOk;
    IntactIsInv(p, s);
    var d := GetCommandToIssue(p, s.dev, s.cq);
    var c := SecondChoice(p, first, s);
    if first.kind.IsReadWrite() && d.answer.Ready? && d.answer.cmd.kind.IsReadWrite() {
      VisitIs(p, s);
      InvBase(p, s);
      var v := SomeLive(p, s);
      DroppedIsLost(p, s, v, d);
    } else {
      forall a: nat, isWrite
        ensures !Lost(p, IssueSecond(p, s, first).value, a, isWrite)
      {
        NothingLost(p, IssueSecond(p, s, first).value, a, isWrite);
      }
    }
  }

  // ----- over runs

  /** Scheduling does not bring a lost request back. */
  lemma ScheduleKeepsLost(p: Config, s: Channel, a: nat, isWrite: bool)
    requires WaitingOk(p, s) && Lost(p, s, a, isWrite)
    ensures Lost(p, Advance(Schedule(p, s)), a, isWrite)
  {
    var drain := Draining(p, s) > 0;
    var ts := TransQueue(p, s, drain);
    var i := FirstAcceptable(p, s.cq, ts, 0);
    ScheduleFrame(p, s);
    if i < |ts| {
      MoveKeepsLost(p, s, drain, i, a, isWrite);
    }
  }

  lemma MoveKeepsLost(p: Config, s: Channel, writes: bool, i: nat, a: nat, isWrite: bool)
    requires WaitingOk(p, s) && Lost(p, s, a, isWrite) && i < |TransQueue(p, s, writes)|
    requires var t := TransQueue(p, s, writes)[i]; WillAcceptCommand(p, s.cq, TransToCommand(p, t.addr, t.isWrite).Place())
    ensures var t := TransQueue(p, s, writes)[i];
            var moved := WithQueue(p, s, writes, Without(TransQueue(p, s, writes), i)).(cq := AddCommand(p, s.cq, TransToCommand(p, t.addr, t.isWrite)));
            TransToCommand(p, a, isWrite) !in Line(p, moved.cq.queues, TransQueue(p, moved, isWrite), Home(p, a))
  {
    var ts, c := TransQueue(p, s, writes), TransToCommand(p, a, isWrite);
    var t := ts[i];
    assert t in ts;
    var cmd := TransToCommand(p, t.addr, t.isWrite);
    CommandsDistinct(p, t.addr, t.isWrite, a, isWrite);
    if p.unifiedQueue || writes == isWrite {
      assert Waiting(p, ts)[i] == cmd;
    }
    forall x | x in Waiting(p, Without(ts, i))
      ensures x in Waiting(p, ts)
    {
      var k :| 0 <= k < |ts| - 1 && Waiting(p, Without(ts, i))[k] == x;
      assert Waiting(p, ts)[if k < i then k else k + 1] == x;
    }
  }

  /** A cycle that drops a column access leaves a request lost. */
  lemma DropLoses(p: Config, s: Channel) returns (a: nat, isWrite: bool)
    requires Usable(p) && Inv(p, s) && Drops(p, s)
    ensures Step(p, s, Cycle).Some? && Lost(p, Step(p, s, Cycle).value, a, isWrite)
  {
    hide Inv, Lost, PhaseDrops, RestOk, PendingOk, Chosen, Usable, IssueAll, Schedule, WaitingOk, RefreshChoice, Intact;
    DrainKeepsInv(p, s);
    RefreshTickKeepsInv(p, DrainDone(s));
    var one, d := DropIs(p, RefreshTick(p, DrainDone(s)));
    InvBase(p, one);
    var v := SomeLive(p, one);
    DroppedIsLost(p, one, v, d);
    a, isWrite := d.answer.cmd.hexAddr, d.answer.cmd.kind.IsWrite();
    ScheduleKeepsLost(p, one.(cq := d.cq), a, isWrite);
  }

  lemma DropIs(p: Config, s: Channel) returns (one: Channel, d: Choice)
    requires Usable(p) && Inv(p, s) && PhaseDrops(p, s)
    ensures Inv(p, one) && WaitingOk(p, one.(cq := d.cq)) && IssueAll(p, s) == Some(one.(cq := d.cq))
    ensures Chosen(p, one.dev, one.cq, d) && RefreshChoice(p, one, d) && d.answer.Ready? && d.answer.cmd.kind.IsReadWrite()
  {
    hide Inv, Intact, RestOk, GetCommandToIssue;
    var c := ChooseFirst(p, s);
    InvBase(p, s);
    FirstIs(p, s);
    IssueKeepsInv(p, s, c);
    one := IssueChoice(p, s, c).value;
    d := GetCommandToIssue(p, one.dev, one.cq);
    VisitIs(p, one);
    StillWaiting(p, one, d.cq);
  }

  lemma FirstIs(p: Config, s: Channel)
    requires Usable(p) && DeviceOk(p, s) && RestOk(p, s)
    ensures Chosen(p, s.dev, s.cq, ChooseFirst(p, s)) && RefreshChoice(p, s, ChooseFirst(p, s))
  {
    FirstChoice(p, s);
  }

  lemma StillWaiting(p: Config, s: Channel, cq: CommandQueue)
    requires Inv(p, s)
    ensures WaitingOk(p, s.(cq := cq))
  {
  }

  /** Some request is lost at the end of the run. */
  ghost predicate Loses(p: Config, es: seq<Event>) {
    Run(p, es).Some? && exists a: nat, isWrite :: Lost(p, Run(p, es).value, a, isWrite)
  }

  lemma WholeLosesNothing(p: Config, es: seq<Event>)
    requires Usable(p) && Whole(p, es)
    ensures !Loses(p, es)
  {
    WholeRunsAreIntact(p, es);
    hide Lost, Intact;
    forall a: nat, isWrite
      ensures !Lost(p, Run(p, es).value, a, isWrite)
    {
      NothingLost(p, Run(p, es).value, a, isWrite);
    }
  }

  /** A lost request is lost for good: it is never queued again, and only queued ones are served. */
  lemma LostStays(p: Config, es: seq<Event>, e: Event, a: nat, isWrite: bool)
    requires Usable(p) && Run(p, es).Some? && Lost(p, Run(p, es).value, a, isWrite)
    ensures Step(p, Run(p, es).value, e).Some? && Lost(p, Step(p, Run(p, es).value, e).value, a, isWrite)
  {
    hide Inv, Intact, LiveOf, Schedule, Tick, Accept, Run, Lost, Carried;
    var s := Run(p, es).value;
    RunKeepsInv(p, es);
    LostIs(p, s, a, isWrite);
    match e
    case Arrive(addr, w) =>
      AcceptKeepsInv(p, s, addr, w);
      AcceptLive(p, s, addr, w);
      AllAfterAccept(p, s, addr, w);
      LostIs(p, Accept(p, s, addr, w), a, isWrite);
    case Cycle =>
      var c, one, d, two := RunCycle(p, es);
      StepKeepsInv(p, s, Cycle);
      CarriedKeepsLost(p, RefreshTick(p, DrainDone(s)), c, one, a, isWrite);
      CarriedKeepsLost(p, one, d, two, a, isWrite);
      ScheduleFrame(p, two);
      LostIs(p, Advance(Schedule(p, two)), a, isWrite);
  }

  /** Pending without an entry. */
  predicate Missing(p: Config, s: Channel, a: int, isWrite: bool) {
    if isWrite then a in s.pendingWr && a !in LiveOf(p, s).wr else a in s.pendingRd && a !in LiveOf(p, s).rd
  }

  lemma LostIs(p: Config, s: Channel, a: nat, isWrite: bool)
    requires Usable(p) && Inv(p, s)
    ensures Lost(p, s, a, isWrite) <==> Missing(p, s, a, isWrite)
  {
    InvBase(p, s);
    HomeInRange(p, Target(p, a));
  }

  lemma CarriedKeepsLost(p: Config, s: Channel, c: Choice, now: Channel, a: nat, isWrite: bool)
    requires Carried(p, s, c, now) && Missing(p, s, a, isWrite)
    ensures Missing(p, now, a, isWrite)
  {
    hide LiveOf;
  }

  /** With a request lost, it is lost at the end of every run that goes on from there. */
  lemma {:induction false} LossesAdd(p: Config, es: seq<Event>, n: nat)
    requires Usable(p) && n <= |es| && Loses(p, es[..n])
    ensures Loses(p, es)
  {
    hide Lost, Step;
    RunKeepsInv(p, es);
    if n == |es| {
      assert es[..n] == es;
    } else {
      var before := es[..|es| - 1];
      assert before[..n] == es[..n];
      LossesAdd(p, before, n);
      var a: nat, isWrite :| Lost(p, Run(p, before).value, a, isWrite);
      LostStays(p, before, es[|es| - 1], a, isWrite);
    }
  }

  /**
    Whatever the configuration: at the end of a run a request is lost if and only if in some cycle of it both
    chosen commands were column accesses.
   */
  lemma {:induction false} RunsLoseExactlyWhatTheyDrop(p: Config, es: seq<Event>)
    requires Usable(p)
    ensures Loses(p, es) <==> !Whole(p, es)
  {
    hide Loses, Drops, Usable, Step;
    if Whole(p, es) {
      WholeLosesNothing(p, es);
    } else {
      var before := es[..|es| - 1];
      RunKeepsInv(p, before);
      if Whole(p, before) {
        DroppingCycleLoses(p, before);
        assert before + [Cycle] == es;
      } else {
        RunsLoseExactlyWhatTheyDrop(p, before);
        LossesAdd(p, es, |es| - 1);
      }
    }
  }

  lemma DroppingCycleLoses(p: Config, es: seq<Event>)
    requires Usable(p) && Run(p, es).Some? && Drops(p, Run(p, es).value)
    ensures Loses(p, es + [Cycle])
  {
    hide Inv, Lost, Drops, Usable, Step, Loses;
    RunKeepsInv(p, es);
    var s := Run(p, es).value;
    var a, isWrite := DropLoses(p, s);
    LosesNext(p, es, s, Step(p, s, Cycle).value, a, isWrite);
  }

  lemma LosesNext(p: Config, es: seq<Event>, s: Channel, now: Channel, a: nat, isWrite: bool)
    requires Run(p, es) == Some(s) && Step(p, s, Cycle) == Some(now) && Lost(p, now, a, isWrite)
    ensures Loses(p, es + [Cycle])
  {
    hide Lost, Step;
    assert (es + [Cycle])[..|es|] == es;
    assert Run(p, es + [Cycle]) == Some(now);
  }

  /** With dual issue off, or column accesses a cycle apart, no run ever loses a request. */
  lemma SafeRunsLoseNothing(p: Config, es: seq<Event>)
    requires Usable(p) && DualSafe(p)
    ensures !Loses(p, es)
  {
    SafeRunsAreWhole(p, es);
    WholeLosesNothing(p, es);
  }
}
