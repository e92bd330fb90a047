/** Round-robin fairness of the command queues over whole runs. */
module Fairness {
  import opened Common
  import opened Configuration
  import opened Device
  import opened ReadinessFacts
  import opened Scheduler
  import opened Channel
  import opened ChannelInv
  import opened ChannelSteps

  /** One request to the command queues for a command to issue. */
  datatype Call = Call(dev: Device, cq: CommandQueue)

  function Answer(p: Config, c: Call): Choice {
    GetCommandToIssue(p, c.dev, c.cq)
  }

  /** What queue `q` would yield at a call. */
  function Yield(p: Config, c: Call, q: int): Readiness
    requires 0 <= q < |c.cq.queues|
  {
    FirstReady(p, c.dev, c.cq.queues[q], 0, c.cq.clk)
  }

  /** No refresh stops queue `q`, and some command in it can be issued. */
  ghost predicate Eligible(p: Config, c: Call, q: int) {
    !(c.cq.inRef && q in c.cq.refQueues) && 0 <= q < |c.cq.queues| && Yield(p, c, q).Ready?
  }

  /** The call returned the command that queue `q` yields. */
  ghost predicate Serves(p: Config, c: Call, q: int) {
    0 <= q < |c.cq.queues| && Answer(p, c).cq.next == q && Answer(p, c).answer == Yield(p, c, q)
  }

  /** How many queues the round robin visits from queue `i` on until it has visited `q`. */
  function Distance(n: int, i: int, q: int): int {
    if q > i then q - i else q + n - i
  }

  ghost predicate WellFormed(p: Config, c: Call) {
    Awake(p, c.dev) && QueuesOk(p, c.cq.queues) && 0 <= c.cq.next < QueueCount(p)
  }

  /** A round that meets an eligible queue serves it, or stops short of it and closer to it. */
  lemma {:induction false} VisitNears(p: Config, d: Device, cq: CommandQueue, left: nat, q: int)
    requires Usable(p) && WellFormed(p, Call(d, cq)) && Eligible(p, Call(d, cq), q)
    requires Distance(QueueCount(p), cq.next, q) <= left
    ensures var v, n := Visit(p, d, cq, left), QueueCount(p);
            0 <= v.cq.next < n && v.answer.Ready? &&
            if v.cq.next == q then v.answer == Yield(p, Call(d, cq), q)
            else Distance(n, v.cq.next, q) < Distance(n, cq.next, q)
    decreases left
  {
    var at := cq.(next := NextIndex(p, cq.next));
    QueuePick(p, d, at);
    if at.next != q && (Blocked(at) || FirstReady(p, d, at.queues[at.next], 0, at.clk).NotYet?) {
      VisitNears(p, d, at, left - 1, q);
    }
  }

  lemma CallNears(p: Config, c: Call, q: int)
    requires Usable(p) && WellFormed(p, c) && Eligible(p, c, q)
    ensures var v, n := Answer(p, c), QueueCount(p);
            0 <= v.cq.next < n && (Serves(p, c, q) || Distance(n, v.cq.next, q) < Distance(n, c.cq.next, q))
    ensures 1 <= Distance(QueueCount(p), c.cq.next, q) <= QueueCount(p)
    ensures 1 <= Distance(QueueCount(p), Answer(p, c).cq.next, q)
  {
    VisitNears(p, c.dev, c.cq, QueueCount(p), q);
  }

  // ----- the calls of a run

  function RefreshAnswer(p: Config, s: Channel): Choice {
    if s.refreshQ != [] then FinishRefresh(p, s.dev, s.cq, s.refreshQ[0]) else Choice(NotYet, s.cq)
  }

  /** The calls made in the issue phase of a cycle. */
  function PhaseCalls(p: Config, s: Channel): seq<Call> {
    var c := ChooseFirst(p, s);
    (if RefreshAnswer(p, s).answer.NotYet? then [Call(s.dev, RefreshAnswer(p, s).cq)] else []) +
    (match IssueChoice(p, s, c)
     case None => []
     case Some(one) => if p.dualCommand && c.answer.Ready? then [Call(one.dev, one.cq)] else [])
  }

  /** All calls made during a run, in order. */
  function RunCalls(p: Config, es: seq<Event>): seq<Call> {
    if es == [] then []
    else
      var before := es[..|es| - 1];
      RunCalls(p, before) +
      (if es[|es| - 1].Cycle? && Run(p, before).Some? then PhaseCalls(p, RefreshTick(p, DrainDone(Run(p, before).value))) else [])
  }

  /** Each call starts where the one before it stopped, and all of them after `from`; the last stopped at `to`. */
  ghost predicate Chained(p: Config, calls: seq<Call>, from: int, to: int) {
    (forall c | c in calls :: WellFormed(p, c)) &&
    (if calls == [] then from == to
     else calls[0].cq.next == from && Answer(p, calls[|calls| - 1]).cq.next == to) &&
    forall k | 0 < k < |calls| :: calls[k].cq.next == Answer(p, calls[k - 1]).cq.next
  }

  lemma ChainedJoin(p: Config, a: seq<Call>, b: seq<Call>, from: int, mid: int, to: int)
    requires Chained(p, a, from, mid) && Chained(p, b, mid, to)
    ensures Chained(p, a + b, from, to)
  {
    var calls := a + b;
    forall k | 0 < k < |calls|
      ensures calls[k].cq.next == Answer(p, calls[k - 1]).cq.next
    {
      if k < |a| {
        assert a[k].cq.next == Answer(p, a[k - 1]).cq.next;
      } else if k > |a| {
        assert b[k - |a|].cq.next == Answer(p, b[k - |a| - 1]).cq.next;
      }
    }
    assert b == [] ==> a + b == a;
  }

  lemma FirstCall(p: Config, s: Channel)
    requires Inv(p, s)
    ensures var calls := if RefreshAnswer(p, s).answer.NotYet? then [Call(s.dev, RefreshAnswer(p, s).cq)] else [];
            Chained(p, calls, s.cq.next, ChooseFirst(p, s).cq.next)
  {
  }

  lemma IssueKeepsQueues(p: Config, s: Channel, c: Choice, now: Channel)
    requires IssueChoice(p, s, c) == Some(now)
    ensures now.cq == c.cq
  {
  }

  lemma PhaseChained(p: Config, s: Channel)
    requires Usable(p) && Inv(p, s)
    ensures IssueAll(p, s).Some? && Chained(p, PhaseCalls(p, s), s.cq.next, IssueAll(p, s).value.cq.next)
  {
    var c, one, d, two := IssueParts(p, s);
    FirstCall(p, s);
    IssueKeepsQueues(p, s, c, one);
    var first := if RefreshAnswer(p, s).answer.NotYet? then [Call(s.dev, RefreshAnswer(p, s).cq)] else [];
    var second := if p.dualCommand && c.answer.Ready? then [Call(one.dev, one.cq)] else [];
    assert Chained(p, second, one.cq.next, two.cq.next) by {
      SecondCall(p, s, c, one, two);
    }
    ChainedJoin(p, first, second, s.cq.next, one.cq.next, two.cq.next);
  }

  lemma SecondCall(p: Config, s: Channel, c: Choice, one: Channel, two: Channel)
    requires Inv(p, one) && c == ChooseFirst(p, s) && IssueChoice(p, s, c) == Some(one) && IssueAll(p, s) == Some(two)
    ensures Chained(p, if p.dualCommand && c.answer.Ready? then [Call(one.dev, one.cq)] else [], one.cq.next, two.cq.next)
  {
    hide IssueAll, IssueChoice, ChooseFirst;
    AllIsSecond(p, s, c, one, two);
    if p.dualCommand && c.answer.Ready? {
      SecondRobin(p, one, c.answer.cmd, two);
    }
  }

  lemma AllIsSecond(p: Config, s: Channel, c: Choice, one: Channel, two: Channel)
    requires c == ChooseFirst(p, s) && IssueChoice(p, s, c) == Some(one) && IssueAll(p, s) == Some(two)
    ensures if p.dualCommand && c.answer.Ready? then IssueSecond(p, one, c.answer.cmd) == Some(two) else two == one
  {
  }

  lemma SecondRobin(p: Config, s: Channel, first: Command, two: Channel)
    requires IssueSecond(p, s, first) == Some(two)
    ensures two.cq == GetCommandToIssue(p, s.dev, s.cq).cq
  {
    var d := GetCommandToIssue(p, s.dev, s.cq);
    if !(d.answer.Ready? && d.answer.cmd.kind.IsReadWrite() == first.kind.IsReadWrite()) {
      IssueKeepsQueues(p, s, d, two);
    }
  }

  /** Neither arrivals nor scheduling nor the rest of a cycle moves the round robin. */
  lemma RobinFrame(p: Config, s: Channel, addr: nat, isWrite: bool)
    ensures Accept(p, s, addr, isWrite).cq == s.cq && Advance(Schedule(p, s)).cq.next == s.cq.next
    ensures RefreshTick(p, DrainDone(s)).cq == s.cq
  {
  }

  lemma {:induction false} RunChained(p: Config, es: seq<Event>)
    requires Usable(p)
    ensures Run(p, es).Some? && Chained(p, RunCalls(p, es), 0, Run(p, es).value.cq.next)
  {
    RunKeepsInv(p, es);
    if es != [] {
      var before := es[..|es| - 1];
      RunChained(p, before);
      RunKeepsInv(p, before);
      StepChained(p, Run(p, before).value, es[|es| - 1]);
      var added := if es[|es| - 1].Cycle? then PhaseCalls(p, RefreshTick(p, DrainDone(Run(p, before).value))) else [];
      ChainedJoin(p, RunCalls(p, before), added, 0, Run(p, before).value.cq.next, Run(p, es).value.cq.next);
    }
  }

  lemma StepChained(p: Config, s: Channel, e: Event)
    requires Usable(p) && Inv(p, s) && Step(p, s, e).Some?
    ensures var calls := if e.Cycle? then PhaseCalls(p, RefreshTick(p, DrainDone(s))) else [];
            Chained(p, calls, s.cq.next, Step(p, s, e).value.cq.next)
  {
    match e
    case Arrive(addr, isWrite) => RobinFrame(p, s, addr, isWrite);
    case Cycle =>
      CycleChained(p, s);
  }

  lemma CycleChained(p: Config, s: Channel)
    requires Usable(p) && Inv(p, s)
    ensures Tick(p, DrainDone(s)).Some?
    ensures Chained(p, PhaseCalls(p, RefreshTick(p, DrainDone(s))), s.cq.next, Tick(p, DrainDone(s)).value.cq.next)
  {
    var asked := RefreshTick(p, DrainDone(s));
    AskedKeepsInv(p, s);
    PhaseChained(p, asked);
    TickRobin(p, s, asked, IssueAll(p, asked).value);
  }

  lemma AskedKeepsInv(p: Config, s: Channel)
    requires Usable(p) && Inv(p, s)
    ensures Inv(p, RefreshTick(p, DrainDone(s))) && RefreshTick(p, DrainDone(s)).cq == s.cq
  {
    DrainKeepsInv(p, s);
    RefreshTickKeepsInv(p, DrainDone(s));
    RobinFrame(p, s, 0, false);
  }

  lemma TickRobin(p: Config, s: Channel, asked: Channel, issued: Channel)
    requires asked == RefreshTick(p, DrainDone(s)) && IssueAll(p, asked) == Some(issued)
    ensures Tick(p, DrainDone(s)).Some? && Tick(p, DrainDone(s)).value.cq.next == issued.cq.next
  {
    RobinFrame(p, issued, 0, false);
  }

  /** Among chained calls at each of which `q` is eligible, one within the distance to `q` serves it. */
  lemma {:induction false} ServedWithin(p: Config, calls: seq<Call>, i: nat, q: int) returns (k: nat)
    requires Usable(p) && (forall c | c in calls :: WellFormed(p, c)) && i < |calls|
    requires forall k | 0 < k < |calls| :: calls[k].cq.next == Answer(p, calls[k - 1]).cq.next
    requires forall k | i <= k < |calls| :: Eligible(p, calls[k], q)
    requires i + Distance(QueueCount(p), calls[i].cq.next, q) <= |calls|
    ensures i <= k < |calls| && Serves(p, calls[k], q)
    decreases |calls| - i
  {
    CallNears(p, calls[i], q);
    if Serves(p, calls[i], q) {
      k := i;
    } else {
      assert i + 1 < |calls|;
      k := ServedWithin(p, calls, i + 1, q);
    }
  }

  /**
    Fairness: in every run, a queue that no refresh stops and that has a command ready at each of as many
    consecutive calls as there are queues is served at one of them.
   */
  lemma ReadyQueueIsServed(p: Config, es: seq<Event>, i: nat, q: int) returns (k: nat)
    requires Usable(p) && 0 <= q < QueueCount(p) && i + QueueCount(p) <= |RunCalls(p, es)|
    requires forall k | i <= k < i + QueueCount(p) :: Eligible(p, RunCalls(p, es)[k], q)
    ensures i <= k < i + QueueCount(p) && Serves(p, RunCalls(p, es)[k], q)
  {
    RunChained(p, es);
    var calls := RunCalls(p, es)[..i + QueueCount(p)];
    assert forall c | c in calls :: c in RunCalls(p, es);
    CallNears(p, calls[i], q);
    k := ServedWithin(p, calls, i, q);
  }
}
