/** How many requests for an address are inside a channel: accepted and not yet called back. */
module VaultFlow {
  import opened Common
  import opened Configuration
  import opened Scheduler
  import opened Channel
  import opened ChannelInv
  import opened ChannelSteps
  import opened Cycles

  function Count(q: seq<Transaction>, a: int): nat {
    if q == [] then 0 else (if q[0].addr == a then 1 else 0) + Count(q[1..], a)
  }

  /** Waiting for DRAM as reads, or waiting to be called back. */
  function Inside(s: Channel, a: int): nat {
    Count(s.returnQ, a) + if a in s.pendingRd then |s.pendingRd[a]| else 0
  }

  lemma {:induction false} CountAppend(x: seq<Transaction>, y: seq<Transaction>, a: int)
    ensures Count(x + y, a) == Count(x, a) + Count(y, a)
  {
    if x == [] {
      assert x + y == y;
    } else {
      CountAppend(x[1..], y, a);
      assert (x + y)[1..] == x[1..] + y;
    }
  }

  lemma {:induction false} CountGroup(ts: seq<Transaction>, at: int, b: int, a: int)
    requires forall t | t in ts :: t.addr == b
    ensures Count(Completed(ts, at), a) == if a == b then |ts| else 0
  {
    if ts != [] {
      assert ts[0] in ts;
      CountGroup(ts[1..], at, b, a);
      CountAppend([ts[0].(completeCycle := at)], Completed(ts[1..], at), a);
      assert Count([ts[0].(completeCycle := at)], a) == if a == b then 1 else 0;
    }
  }

  lemma {:induction false} CountDue(q: seq<Transaction>, now: int, a: int)
    ensures Count(q, a) == Count(Due(q, now), a) + Count(NotDue(q, now), a)
  {
    if q != [] {
      CountDue(q[1..], now, a);
      CountAppend(if now >= q[0].completeCycle then [q[0]] else [], Due(q[1..], now), a);
      CountAppend(if now >= q[0].completeCycle then [] else [q[0]], NotDue(q[1..], now), a);
      assert Count([q[0]], a) == if q[0].addr == a then 1 else 0;
    }
  }

  /** An accepted request goes inside, whatever becomes of it: queued, merged, forwarded or joined to another. */
  lemma AcceptGoesInside(p: Config, s: Channel, addr: nat, isWrite: bool, a: int)
    ensures Inside(Accept(p, s, addr, isWrite), a) == Inside(s, a) + if a == addr then 1 else 0
  {
    var done := Transaction(|s.trace.log|, addr, s.clk, s.clk + 1, isWrite);
    CountAppend(s.returnQ, [done], a);
    assert Count([done], a) == if a == addr then 1 else 0;
  }

  lemma RetireKeepsInside(p: Config, s: Channel, c: Choice, now: Channel, a: int)
    requires Carried(p, s, c, now)
    ensures Inside(now, a) == Inside(s, a)
  {
    if c.answer.Ready? && c.answer.cmd.kind.IsRead() {
      var b := c.answer.cmd.hexAddr;
      assert GroupOk(s.trace.log, s.pendingRd[b], b);
      CountGroup(s.pendingRd[b], s.clk + p.ReadDelay(), b, a);
      CountAppend(s.returnQ, Completed(s.pendingRd[b], s.clk + p.ReadDelay()), a);
    }
  }

  /** A cycle lets out exactly what it calls back. */
  lemma CycleLetsOut(p: Config, es: seq<Event>, s: Channel) returns (now: Channel)
    requires Usable(p) && Run(p, es) == Some(s)
    ensures Run(p, es + [Cycle]) == Some(now) == Tick(p, DrainDone(s)) && now.clk == s.clk + 1
    ensures forall a :: Inside(s, a) == Inside(now, a) + Count(Due(s.returnQ, s.clk), a)
  {
    var c, one, d, two := RunCycle(p, es);
    OneMoreCycle(p, es);
    now := Advance(Schedule(p, two));
    AskedIs(p, s);
    LastIs(p, two);
    forall a
      ensures Inside(s, a) == Inside(now, a) + Count(Due(s.returnQ, s.clk), a) && now.clk == s.clk + 1
    {
      CycleKeepsCount(p, s, RefreshTick(p, DrainDone(s)), c, one, d, two, now, a);
    }
    CycleKeepsCount(p, s, RefreshTick(p, DrainDone(s)), c, one, d, two, now, 0);
  }

  lemma AskedIs(p: Config, s: Channel)
    ensures var asked := RefreshTick(p, DrainDone(s));
            asked.returnQ == NotDue(s.returnQ, s.clk) && asked.pendingRd == s.pendingRd && asked.clk == s.clk
  {
  }

  lemma LastIs(p: Config, s: Channel)
    ensures var last := Advance(Schedule(p, s));
            last.returnQ == s.returnQ && last.pendingRd == s.pendingRd && last.clk == s.clk + 1
  {
    ScheduleFrame(p, s);
  }

  lemma OneMoreCycle(p: Config, es: seq<Event>)
    requires Run(p, es).Some?
    ensures Run(p, es + [Cycle]) == Tick(p, DrainDone(Run(p, es).value))
  {
    assert (es + [Cycle])[..|es|] == es;
  }

  lemma CycleKeepsCount(p: Config, s: Channel, asked: Channel, c: Choice, one: Channel, d: Choice, two: Channel, last: Channel, a: int)
    requires asked.returnQ == NotDue(s.returnQ, s.clk) && asked.pendingRd == s.pendingRd && asked.clk == s.clk
    requires Carried(p, asked, c, one) && Carried(p, one, d, two)
    requires last.returnQ == two.returnQ && last.pendingRd == two.pendingRd && last.clk == two.clk + 1
    ensures Inside(s, a) == Inside(last, a) + Count(Due(s.returnQ, s.clk), a) && last.clk == s.clk + 1
  {
    hide Carried;
    CountDue(s.returnQ, s.clk, a);
    RetireKeepsInside(p, asked, c, one, a);
    RetireKeepsInside(p, one, d, two, a);
    CarriedKeepsClock(p, asked, c, one);
    CarriedKeepsClock(p, one, d, two);
  }

  lemma CarriedKeepsClock(p: Config, s: Channel, c: Choice, now: Channel)
    requires Carried(p, s, c, now)
    ensures now.clk == s.clk
  {
  }

  ghost predicate Reachable(p: Config, s: Channel) {
    exists es: seq<Event> :: Run(p, es) == Some(s)
  }

  lemma StepsReachable(p: Config, s: Channel, e: Event)
    requires Usable(p) && Reachable(p, s)
    ensures Step(p, s, e).Some? && Reachable(p, Step(p, s, e).value)
  {
    var es: seq<Event> :| Run(p, es) == Some(s);
    RunMaps(p, es + [e]);
    assert (es + [e])[..|es|] == es;
  }

  /** A cycle leads from one reachable state to another. */
  lemma CycleReachable(p: Config, s: Channel) returns (now: Channel)
    requires Usable(p) && Reachable(p, s)
    ensures Tick(p, DrainDone(s)) == Some(now) && Reachable(p, now) && now.clk == s.clk + 1
    ensures forall a :: Inside(s, a) == Inside(now, a) + Count(Due(s.returnQ, s.clk), a)
  {
    var es: seq<Event> :| Run(p, es) == Some(s);
    now := CycleLetsOut(p, es, s);
  }

  lemma NewReachable(p: Config)
    ensures Reachable(p, NewChannel(p)) && forall a :: Inside(NewChannel(p), a) == 0
  {
    assert Run(p, []) == Some(NewChannel(p));
  }
}
