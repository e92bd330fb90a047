/** No queue of a channel ever holds more than it is configured for (src/controller.cc:216-230, src/command_queue.cc:118-142). */
module Capacities {
  import opened Common
  import opened Configuration
  import opened Device
  import opened Scheduler
  import opened Channel

  ghost predicate Fits(p: Config, s: Channel) {
    |s.unified| <= p.transQueueSize && |s.readQ| <= p.transQueueSize && |s.writeBuf| <= p.transQueueSize && Short(p, s.cq.queues)
  }

  ghost predicate Short(p: Config, queues: seq<seq<Command>>) {
    forall q | 0 <= q < |queues| :: |queues[q]| <= p.cmdQueueSize
  }

  lemma {:induction false} ErasedIsShorter(queue: seq<Command>, cmd: Command)
    ensures Erased(queue, cmd).Some? ==> |Erased(queue, cmd).value| + 1 == |queue|
  {
    if queue != [] {
      ErasedIsShorter(queue[1..], cmd);
    }
  }

  /** The queues only lose entries to a choice. */
  lemma {:induction false} VisitTakes(p: Config, d: Device, cq: CommandQueue, left: nat)
    requires Short(p, cq.queues)
    ensures Short(p, Visit(p, d, cq, left).cq.queues)
    decreases left
  {
    if left > 0 {
      var at := cq.(next := NextIndex(p, cq.next));
      VisitTakes(p, d, at, left - 1);
      if 0 <= at.next < |at.queues| && FirstReady(p, d, at.queues[at.next], 0, at.clk).Ready? {
        var c := FirstReady(p, d, at.queues[at.next], 0, at.clk).cmd;
        if 0 <= QueueIndex(p, c.Place()) < |at.queues| {
          ErasedIsShorter(at.queues[QueueIndex(p, c.Place())], c);
        }
      }
    }
  }

  lemma ChoiceFits(p: Config, s: Channel, c: Choice, one: Channel)
    requires Fits(p, s) && Short(p, c.cq.queues) && IssueChoice(p, s, c) == Some(one)
    ensures Fits(p, one)
  {
  }

  lemma FirstTakes(p: Config, s: Channel)
    requires Fits(p, s)
    ensures Short(p, ChooseFirst(p, s).cq.queues)
  {
    hide Visit, GetReady;
    if s.refreshQ != [] {
      VisitTakes(p, s.dev, FinishRefresh(p, s.dev, s.cq, s.refreshQ[0]).cq, QueueCount(p));
    } else {
      VisitTakes(p, s.dev, s.cq, QueueCount(p));
    }
  }

  lemma SecondFits(p: Config, s: Channel, first: Command, two: Channel)
    requires Fits(p, s) && IssueSecond(p, s, first) == Some(two)
    ensures Fits(p, two)
  {
    hide Visit, IssueChoice;
    VisitTakes(p, s.dev, s.cq, QueueCount(p));
    var c := GetCommandToIssue(p, s.dev, s.cq);
    if IssueChoice(p, s, c) == Some(two) {
      ChoiceFits(p, s, c, two);
    }
  }

  lemma IssuesFit(p: Config, s: Channel, two: Channel)
    requires Fits(p, s) && IssueAll(p, s) == Some(two)
    ensures Fits(p, two)
  {
    hide ChooseFirst, IssueChoice, IssueSecond, Fits;
    var c := ChooseFirst(p, s);
    FirstTakes(p, s);
    var one := IssueChoice(p, s, c).value;
    ChoiceFits(p, s, c, one);
    if p.dualCommand && c.answer.Ready? {
      SecondFits(p, one, c.answer.cmd, two);
    }
  }

  lemma ScheduleFits(p: Config, s: Channel)
    requires Fits(p, s)
    ensures Fits(p, Schedule(p, s))
  {
  }

  lemma AcceptFits(p: Config, s: Channel, addr: nat, isWrite: bool)
    requires Fits(p, s) && WillAccept(p, s, isWrite)
    ensures Fits(p, Accept(p, s, addr, isWrite))
  {
  }

  lemma StepFits(p: Config, s: Channel, e: Event, t: Channel)
    requires Fits(p, s) && Step(p, s, e) == Some(t)
    ensures Fits(p, t)
  {
    match e
    case Arrive(addr, isWrite) =>
      if WillAccept(p, s, isWrite) {
        AcceptFits(p, s, addr, isWrite);
      }
    case Cycle =>
      var asked := RefreshTick(p, DrainDone(s));
      QuietFits(p, s);
      hide Fits, IssueAll, Schedule, RefreshTick, DrainDone;
      var two := IssueAll(p, asked).value;
      IssuesFit(p, asked, two);
      ScheduleFits(p, two);
      AdvanceFits(p, Schedule(p, two));
  }

  lemma QuietFits(p: Config, s: Channel)
    requires Fits(p, s)
    ensures Fits(p, RefreshTick(p, DrainDone(s)))
  {
  }

  lemma AdvanceFits(p: Config, s: Channel)
    requires Fits(p, s)
    ensures Fits(p, Advance(s))
  {
  }

  /** In every run no queue holds more than its size. */
  lemma {:induction false} RunsFit(p: Config, es: seq<Event>)
    requires Run(p, es).Some?
    ensures var s := Run(p, es).value;
            |s.unified| <= p.transQueueSize && |s.readQ| <= p.transQueueSize && |s.writeBuf| <= p.transQueueSize &&
            forall q | 0 <= q < |s.cq.queues| :: |s.cq.queues[q]| <= p.cmdQueueSize
  {
    hide Step;
    if es != [] {
      RunsFit(p, es[..|es| - 1]);
      StepFits(p, Run(p, es[..|es| - 1]).value, es[|es| - 1], Run(p, es).value);
    }
  }

  /** A request is taken exactly when the queue it would wait in has room; then it is the only one recorded, else nothing changes. */
  lemma TakenExactlyWithRoom(p: Config, s: Channel, addr: nat, isWrite: bool)
    ensures Step(p, s, Arrive(addr, isWrite)).Some?
    ensures var t, waiting := Step(p, s, Arrive(addr, isWrite)).value, if p.unifiedQueue then s.unified else if isWrite then s.writeBuf else s.readQ;
            if |waiting| < p.transQueueSize then t.trace.log == s.trace.log + [Request(addr, isWrite, s.clk)] else t == s
  {
  }

  /** A write waits behind the others, unless one of its address does; a read, unless a read or a write of its address does. */
  lemma ArrivalsQueueUp(p: Config, s: Channel, addr: nat, isWrite: bool)
    requires |if p.unifiedQueue then s.unified else if isWrite then s.writeBuf else s.readQ| < p.transQueueSize
    ensures var t, waits := Step(p, s, Arrive(addr, isWrite)), addr !in s.pendingWr && (isWrite || addr !in s.pendingRd);
            t.Some? &&
            var added := if waits then [Transaction(|s.trace.log|, addr, s.clk, 0, isWrite)] else [];
            t.value.unified == (if p.unifiedQueue then s.unified + added else s.unified) &&
            t.value.writeBuf == (if !p.unifiedQueue && isWrite then s.writeBuf + added else s.writeBuf) &&
            t.value.readQ == (if !p.unifiedQueue && !isWrite then s.readQ + added else s.readQ)
  {
  }
}
