/** Every accepted request is called back exactly once, and at the right cycle. */
module Completion {
  import opened Common
  import opened Configuration
  import opened DeviceRuns
  import opened Scheduler
  import opened Channel
  import opened ChannelInv
  import opened ChannelSteps
  import opened Cycles

  function Times(ts: seq<Transaction>, id: nat): nat {
    if ts == [] then 0 else (if ts[0].id == id then 1 else 0) + Times(ts[1..], id)
  }

  function TimesCalled(ds: seq<Done>, id: nat): nat {
    if ds == [] then 0 else (if ds[0].id == id then 1 else 0) + TimesCalled(ds[1..], id)
  }

  lemma {:induction false} TimesAppend(a: seq<Transaction>, b: seq<Transaction>, id: nat)
    ensures Times(a + b, id) == Times(a, id) + Times(b, id)
  {
    if a == [] {
      assert a + b == b;
    } else {
      TimesAppend(a[1..], b, id);
      assert (a + b)[1..] == a[1..] + b;
    }
  }

  lemma {:induction false} TimesCalledAppend(a: seq<Done>, b: seq<Done>, id: nat)
    ensures TimesCalled(a + b, id) == TimesCalled(a, id) + TimesCalled(b, id)
  {
    if a == [] {
      assert a + b == b;
    } else {
      TimesCalledAppend(a[1..], b, id);
      assert (a + b)[1..] == a[1..] + b;
    }
  }

  lemma {:induction false} TimesAbsent(ts: seq<Transaction>, id: nat)
    requires forall t | t in ts :: t.id != id
    ensures Times(ts, id) == 0
  {
    if ts != [] {
      TimesAbsent(ts[1..], id);
    }
  }

  /** The reads pending together with request `id`. */
  function Group(log: seq<Request>, rd: map<int, seq<Transaction>>, id: nat): seq<Transaction> {
    if id < |log| && log[id].addr in rd then rd[log[id].addr] else []
  }

  /** How often request `id` is waiting for DRAM, waiting to be called back, or has been called back. */
  function Copies(tr: Trace, rd: map<int, seq<Transaction>>, rq: seq<Transaction>, id: nat): nat {
    Times(Group(tr.log, rd, id), id) + Times(rq, id) + TimesCalled(tr.done, id)
  }

  ghost predicate Accounted(tr: Trace, rd: map<int, seq<Transaction>>, rq: seq<Transaction>) {
    forall id: nat :: Copies(tr, rd, rq, id) == if id < |tr.log| then 1 else 0
  }

  /**
    The cycle at which request `id` is due: one after acceptance for writes and forwarded reads; for a
    read served by DRAM, the read delay (at least one cycle) after its command.
   */
  function CallTime(p: Config, tr: Trace, id: nat): int
    requires id < |tr.log|
  {
    if id in tr.served && tr.served[id].FromDram? && tr.served[id].step < |tr.hist| then
      tr.hist[tr.served[id].step].at + Max(1, p.AL + p.CL + p.burstCycle)
    else tr.log[id].at + 1
  }

  /** A transaction in the return queue will be found due at its call time, which is not before `from`. */
  ghost predicate Timely(p: Config, tr: Trace, t: Transaction, from: int) {
    t.id < |tr.log| && (tr.log[t.id].isWrite || t.id in tr.served) && CallTime(p, tr, t.id) >= from &&
    (t.completeCycle == CallTime(p, tr, t.id) || t.completeCycle < CallTime(p, tr, t.id) == from)
  }

  ghost predicate CalledOnTime(p: Config, tr: Trace, d: Done) {
    d.id < |tr.log| && (tr.log[d.id].isWrite || d.id in tr.served) && d.at == CallTime(p, tr, d.id)
  }

  /** A read served by DRAM was served by a read command to its address, issued after it was accepted. */
  ghost predicate ServedByRead(tr: Trace, id: nat)
    requires id in tr.served
  {
    id < |tr.log| && !tr.log[id].isWrite &&
    (tr.served[id].FromDram? ==>
      tr.served[id].step < |tr.hist| &&
      (var c := tr.hist[tr.served[id].step]; c.cmd.kind.IsRead() && c.cmd.hexAddr == tr.log[id].addr && tr.log[id].at <= c.at))
  }

  ghost predicate Clocked(p: Config, tr: Trace, rd: map<int, seq<Transaction>>, rq: seq<Transaction>, from: int) {
    (forall t | t in rq :: Timely(p, tr, t, from)) && (forall d | d in tr.done :: CalledOnTime(p, tr, d)) &&
    (forall id | id in tr.served :: ServedByRead(tr, id)) &&
    (forall a, t | a in rd && t in rd[a] :: t.id !in tr.served)
  }

  ghost predicate Settled(p: Config, s: Channel, from: int) {
    Accounted(s.trace, s.pendingRd, s.returnQ) && Clocked(p, s.trace, s.pendingRd, s.returnQ, from) &&
    forall r | r in s.trace.log :: r.at <= s.clk
  }

  // ----- records that only grow keep call times

  /** `now` extends `tr`, and what it newly serves had been waiting for DRAM. */
  ghost predicate Extends(tr: Trace, now: Trace) {
    |tr.log| <= |now.log| && (forall i | 0 <= i < |tr.log| :: now.log[i] == tr.log[i]) &&
    |tr.hist| <= |now.hist| && (forall i | 0 <= i < |tr.hist| :: now.hist[i] == tr.hist[i]) &&
    (forall id | id in tr.served :: id in now.served && now.served[id] == tr.served[id]) &&
    (forall id | id in now.served && id < |tr.log| && tr.log[id].isWrite :: id in tr.served)
  }

  lemma CallTimeKept(p: Config, tr: Trace, now: Trace, id: nat)
    requires Extends(tr, now) && id < |tr.log| && (tr.log[id].isWrite || id in tr.served)
    requires id in tr.served ==> ServedByRead(tr, id)
    ensures CallTime(p, now, id) == CallTime(p, tr, id)
  {
  }

  lemma ClockedKept(p: Config, tr: Trace, now: Trace, rd: map<int, seq<Transaction>>, rq: seq<Transaction>, from: int)
    requires Clocked(p, tr, rd, rq, from) && Extends(tr, now)
    ensures forall t | t in rq :: Timely(p, now, t, from)
    ensures forall d | d in tr.done :: CalledOnTime(p, now, d)
    ensures forall id | id in tr.served :: ServedByRead(now, id)
  {
    forall t | t in rq
      ensures Timely(p, now, t, from)
    {
      assert Timely(p, tr, t, from);
      CallTimeKept(p, tr, now, t.id);
    }
    forall d | d in tr.done
      ensures CalledOnTime(p, now, d)
    {
      assert CalledOnTime(p, tr, d);
      CallTimeKept(p, tr, now, d.id);
    }
    assert forall id | id in tr.served :: ServedByRead(tr, id);
  }

  // ----- accepting

  /** A request that waits for DRAM joins its group. */
  lemma AccountedAfterWait(tr: Trace, rd: map<int, seq<Transaction>>, rq: seq<Transaction>, r: Request, t: Transaction)
    requires Accounted(tr, rd, rq) && t.id == |tr.log| && r.addr == t.addr
    requires forall a, u | a in rd && u in rd[a] :: u.id < |tr.log|
    ensures Accounted(tr.(log := tr.log + [r]), rd[t.addr := (if t.addr in rd then rd[t.addr] else []) + [t]], rq)
  {
    var was := if t.addr in rd then rd[t.addr] else [];
    var now, rd' := tr.(log := tr.log + [r]), rd[t.addr := was + [t]];
    forall id: nat
      ensures Copies(now, rd', rq, id) == if id < |now.log| then 1 else 0
    {
      assert Copies(tr, rd, rq, id) == if id < |tr.log| then 1 else 0;
      TimesAppend(was, [t], id);
      if id == t.id {
        TimesAbsent(was, id);
      }
    }
  }

  /** A request that is answered at once goes to the return queue. */
  lemma AccountedAfterReturn(tr: Trace, rd: map<int, seq<Transaction>>, rq: seq<Transaction>, r: Request, t: Transaction)
    requires Accounted(tr, rd, rq) && t.id == |tr.log|
    requires forall a, u | a in rd && u in rd[a] :: u.id < |tr.log|
    ensures Accounted(tr.(log := tr.log + [r]), rd, rq + [t])
  {
    var now := tr.(log := tr.log + [r]);
    forall id: nat
      ensures Copies(now, rd, rq + [t], id) == if id < |now.log| then 1 else 0
    {
      assert Copies(tr, rd, rq, id) == if id < |tr.log| then 1 else 0;
      TimesAppend(rq, [t], id);
      if id == t.id {
        TimesAbsent(Group(now.log, rd, id), id);
      }
    }
  }

  // ----- issuing a read

  lemma {:induction false} CompletedAre(ts: seq<Transaction>, at: int, id: nat)
    ensures Times(Completed(ts, at), id) == Times(ts, id)
    ensures forall u | u in Completed(ts, at) :: u.completeCycle == at && exists t :: t in ts && t.id == u.id
  {
    if ts != [] {
      CompletedAre(ts[1..], at, id);
      assert ts[0] in ts;
    }
  }

  lemma AccountedAfterRead(tr: Trace, now: Trace, rd: map<int, seq<Transaction>>, rq: seq<Transaction>, a: int, at: int)
    requires Accounted(tr, rd, rq) && a in rd && GroupOk(tr.log, rd[a], a) && now.log == tr.log && now.done == tr.done
    ensures Accounted(now, rd - {a}, rq + Completed(rd[a], at))
  {
    forall id: nat
      ensures Copies(now, rd - {a}, rq + Completed(rd[a], at), id) == if id < |now.log| then 1 else 0
    {
      assert Copies(tr, rd, rq, id) == if id < |tr.log| then 1 else 0;
      CompletedAre(rd[a], at, id);
      TimesAppend(rq, Completed(rd[a], at), id);
      if !(id < |tr.log| && tr.log[id].addr == a) {
        TimesAbsent(rd[a], id);
      }
    }
  }

  // ----- calling back

  lemma {:induction false} DueSplits(q: seq<Transaction>, now: int, id: nat)
    ensures TimesCalled(Calls(Due(q, now), now), id) + Times(NotDue(q, now), id) == Times(q, id)
  {
    if q != [] {
      DueSplits(q[1..], now, id);
      CallsAppend(if now >= q[0].completeCycle then [q[0]] else [], Due(q[1..], now), now);
      TimesCalledAppend(Calls(if now >= q[0].completeCycle then [q[0]] else [], now), Calls(Due(q[1..], now), now), id);
      TimesAppend(if now >= q[0].completeCycle then [] else [q[0]], NotDue(q[1..], now), id);
    }
  }

  lemma OneBefore<T>(x: T, a: seq<T>, b: seq<T>)
    ensures [x] + (a + b) == ([x] + a) + b
  {
  }

  lemma {:induction false} CallsAppend(a: seq<Transaction>, b: seq<Transaction>, now: int)
    ensures Calls(a + b, now) == Calls(a, now) + Calls(b, now)
  {
    if a == [] {
      assert a + b == b;
    } else {
      CallsAppend(a[1..], b, now);
      assert (a + b)[1..] == a[1..] + b && (a + b)[0] == a[0];
      OneBefore(Done(a[0].id, now), Calls(a[1..], now), Calls(b, now));
    }
  }

  lemma {:induction false} DueAre(q: seq<Transaction>, now: int)
    ensures forall t | t in Due(q, now) :: t in q && now >= t.completeCycle
    ensures forall t | t in NotDue(q, now) :: t in q && now < t.completeCycle
  {
    if q != [] {
      DueAre(q[1..], now);
    }
  }

  lemma {:induction false} CallsAre(q: seq<Transaction>, now: int)
    ensures forall d | d in Calls(q, now) :: d.at == now && exists t :: t in q && t.id == d.id
  {
    if q != [] {
      CallsAre(q[1..], now);
      assert q[0] in q;
    }
  }

  lemma DrainAccounts(tr: Trace, rd: map<int, seq<Transaction>>, rq: seq<Transaction>, now: int)
    requires Accounted(tr, rd, rq)
    ensures Accounted(tr.(done := tr.done + Calls(Due(rq, now), now)), rd, NotDue(rq, now))
  {
    var tr' := tr.(done := tr.done + Calls(Due(rq, now), now));
    forall id: nat
      ensures Copies(tr', rd, NotDue(rq, now), id) == if id < |tr.log| then 1 else 0
    {
      assert Copies(tr, rd, rq, id) == if id < |tr.log| then 1 else 0;
      DueSplits(rq, now, id);
      TimesCalledAppend(tr.done, Calls(Due(rq, now), now), id);
    }
  }

  /** After the call-backs of a cycle nothing due is left, and all of them were made on time. */
  lemma DrainSettles(p: Config, s: Channel)
    requires Settled(p, s, s.clk)
    ensures Settled(p, DrainDone(s), s.clk + 1)
    ensures forall t | t in DrainDone(s).returnQ :: t.completeCycle > s.clk
  {
    var due, rest := Due(s.returnQ, s.clk), NotDue(s.returnQ, s.clk);
    var calls := Calls(due, s.clk);
    var now := s.trace.(done := s.trace.done + calls);
    DrainAccounts(s.trace, s.pendingRd, s.returnQ, s.clk);
    DueAre(s.returnQ, s.clk);
    CallsAre(due, s.clk);
    ClockedKept(p, s.trace, now, s.pendingRd, s.returnQ, s.clk);
    forall t | t in rest
      ensures Timely(p, now, t, s.clk + 1)
    {
      assert Timely(p, now, t, s.clk);
    }
    forall d | d in calls
      ensures CalledOnTime(p, now, d)
    {
      var t :| t in due && t.id == d.id;
      assert Timely(p, now, t, s.clk);
    }
  }

  // ----- every step

  lemma AccountedApart(tr: Trace, now: Trace, rd: map<int, seq<Transaction>>, rq: seq<Transaction>)
    requires Accounted(tr, rd, rq) && now.log == tr.log && now.done == tr.done
    ensures Accounted(now, rd, rq)
  {
    forall id: nat
      ensures Copies(now, rd, rq, id) == if id < |now.log| then 1 else 0
    {
      assert Copies(tr, rd, rq, id) == if id < |tr.log| then 1 else 0;
    }
  }

  lemma GroupsLogged(log: seq<Request>, rd: map<int, seq<Transaction>>, wr: map<int, seq<Transaction>>)
    requires MapsOk(log, rd, wr)
    ensures forall a, u | a in rd && u in rd[a] :: u.id < |log| && log[u.id].addr == a && !log[u.id].isWrite
  {
    assert forall a | a in rd :: GroupOk(log, rd[a], a);
  }

  /** A write, or a read that finds its address pending as a write, is answered a cycle later. */
  lemma AcceptAnswered(p: Config, s: Channel, addr: nat, isWrite: bool)
    requires Settled(p, s, s.clk) && MapsOk(s.trace.log, s.pendingRd, s.pendingWr) && (isWrite || addr in s.pendingWr)
    ensures Settled(p, Accept(p, s, addr, isWrite), s.clk)
  {
    var r, now := Request(addr, isWrite, s.clk), Accept(p, s, addr, isWrite);
    var done := Transaction(|s.trace.log|, addr, s.clk, s.clk + 1, isWrite);
    GroupsLogged(s.trace.log, s.pendingRd, s.pendingWr);
    assert forall id | id in s.trace.served :: ServedByRead(s.trace, id);
    ClockedKept(p, s.trace, now.trace, s.pendingRd, s.returnQ, s.clk);
    AccountedAfterReturn(s.trace, s.pendingRd, s.returnQ, r, done);
    AccountedApart(s.trace.(log := s.trace.log + [r]), now.trace, s.pendingRd, s.returnQ + [done]);
    assert Timely(p, now.trace, done, s.clk);
  }

  lemma AcceptWaiting(p: Config, s: Channel, addr: nat)
    requires Settled(p, s, s.clk) && MapsOk(s.trace.log, s.pendingRd, s.pendingWr) && addr !in s.pendingWr
    ensures Settled(p, Accept(p, s, addr, false), s.clk)
  {
    hide MapsOk;
    var r, now := Request(addr, false, s.clk), Accept(p, s, addr, false);
    var t := Transaction(|s.trace.log|, addr, s.clk, 0, false);
    GroupsLogged(s.trace.log, s.pendingRd, s.pendingWr);
    assert forall id | id in s.trace.served :: ServedByRead(s.trace, id);
    ClockedKept(p, s.trace, now.trace, s.pendingRd, s.returnQ, s.clk);
    AccountedAfterWait(s.trace, s.pendingRd, s.returnQ, r, t);
    assert [] + [t] == [t];
  }

  /** The record after a read command for the reads `group`, all pending on one address. */
  function AfterRead(tr: Trace, group: seq<Transaction>, cmd: Command, clk: int): Trace {
    tr.(hist := tr.hist + [Issued(cmd, clk)],
        served := tr.served + ReadResults(group, FromDram(Cell(tr.cells, cmd.hexAddr), |tr.hist|, HeadId(group))))
  }

  /** All reads pending on the address are served by the one command, and complete together. */
  lemma ReadsCompleteTogether(p: Config, tr: Trace, rd: map<int, seq<Transaction>>, rq: seq<Transaction>, cmd: Command, clk: int)
    requires Clocked(p, tr, rd, rq, clk + 1) && cmd.kind.IsRead() && cmd.hexAddr in rd
    requires forall a, u | a in rd && u in rd[a] :: u.id < |tr.log| && tr.log[u.id].addr == a && !tr.log[u.id].isWrite
    requires forall r | r in tr.log :: r.at <= clk
    ensures var now := AfterRead(tr, rd[cmd.hexAddr], cmd, clk);
            Extends(tr, now) && (forall id | id in now.served :: ServedByRead(now, id)) &&
            forall t | t in rd[cmd.hexAddr] :: t.id in now.served && CallTime(p, now, t.id) == clk + Max(1, p.ReadDelay())
  {
    var group, now := rd[cmd.hexAddr], AfterRead(tr, rd[cmd.hexAddr], cmd, clk);
    assert forall id | id in tr.served :: ServedByRead(tr, id);
    forall t | t in group
      ensures t.id in now.served && now.served[t.id] == FromDram(Cell(tr.cells, cmd.hexAddr), |tr.hist|, HeadId(group))
    {
    }
    assert now.hist[|tr.hist|] == Issued(cmd, clk);
    forall id | id in now.served
      ensures ServedByRead(now, id)
    {
      if id in tr.served && !exists t :: t in group && t.id == id {
        assert ServedByRead(tr, id);
      } else {
        var t :| t in group && t.id == id;
        assert tr.log[id] in tr.log;
      }
    }
  }

  lemma ClockedAfterRead(p: Config, tr: Trace, rd: map<int, seq<Transaction>>, rq: seq<Transaction>, cmd: Command, clk: int, ts: seq<Transaction>)
    requires Clocked(p, tr, rd, rq, clk + 1) && cmd.kind.IsRead() && cmd.hexAddr in rd
    requires forall a, u | a in rd && u in rd[a] :: u.id < |tr.log| && tr.log[u.id].addr == a && !tr.log[u.id].isWrite
    requires forall r | r in tr.log :: r.at <= clk
    requires forall t | t in ts :: t.completeCycle == clk + p.ReadDelay() && exists u :: u in rd[cmd.hexAddr] && u.id == t.id
    ensures Clocked(p, AfterRead(tr, rd[cmd.hexAddr], cmd, clk), rd - {cmd.hexAddr}, rq + ts, clk + 1)
  {
    var group, now := rd[cmd.hexAddr], AfterRead(tr, rd[cmd.hexAddr], cmd, clk);
    ReadsCompleteTogether(p, tr, rd, rq, cmd, clk);
    ClockedKept(p, tr, now, rd, rq, clk + 1);
    forall t | t in ts
      ensures Timely(p, now, t, clk + 1)
    {
      var u :| u in group && u.id == t.id;
      assert CallTime(p, now, u.id) == clk + Max(1, p.ReadDelay());
    }
  }

  lemma RetireReadClocked(p: Config, tr: Trace, rd: map<int, seq<Transaction>>, wr: map<int, seq<Transaction>>,
                          rq: seq<Transaction>, cmd: Command, clk: int)
    requires Clocked(p, tr, rd, rq, clk + 1) && MapsOk(tr.log, rd, wr) && cmd.kind.IsRead() && cmd.hexAddr in rd
    requires forall r | r in tr.log :: r.at <= clk
    ensures Clocked(p, AfterRead(tr, rd[cmd.hexAddr], cmd, clk), rd - {cmd.hexAddr},
                    rq + Completed(rd[cmd.hexAddr], clk + p.ReadDelay()), clk + 1)
  {
    GroupsLogged(tr.log, rd, wr);
    CompletedAre(rd[cmd.hexAddr], clk + p.ReadDelay(), 0);
    ClockedAfterRead(p, tr, rd, rq, cmd, clk, Completed(rd[cmd.hexAddr], clk + p.ReadDelay()));
  }

  lemma RetireReadSettles(p: Config, s: Channel, cmd: Command)
    requires Settled(p, s, s.clk + 1) && MapsOk(s.trace.log, s.pendingRd, s.pendingWr) && cmd.kind.IsRead() && cmd.hexAddr in s.pendingRd
    ensures Settled(p, Retired(p, s, cmd).value, s.clk + 1)
  {
    var a, at := cmd.hexAddr, s.clk + p.ReadDelay();
    var now := AfterRead(s.trace, s.pendingRd[a], cmd, s.clk);
    assert Retired(p, s, cmd).value ==
      s.(trace := now, pendingRd := s.pendingRd - {a}, returnQ := s.returnQ + Completed(s.pendingRd[a], at));
    RetireReadClocked(p, s.trace, s.pendingRd, s.pendingWr, s.returnQ, cmd, s.clk);
    AccountedAfterRead(s.trace, now, s.pendingRd, s.returnQ, a, at);
  }

  lemma RetireSettles(p: Config, s: Channel, cmd: Command)
    requires Settled(p, s, s.clk + 1) && MapsOk(s.trace.log, s.pendingRd, s.pendingWr) && IsPending(s, cmd)
    ensures Settled(p, Retired(p, s, cmd).value, s.clk + 1)
  {
    if cmd.kind.IsRead() {
      RetireReadSettles(p, s, cmd);
    } else {
      var now := Retired(p, s, cmd).value;
      AccountedApart(s.trace, now.trace, s.pendingRd, s.returnQ);
      ClockedKept(p, s.trace, now.trace, s.pendingRd, s.returnQ, s.clk + 1);
    }
  }

  lemma CarriedSettles(p: Config, s: Channel, c: Choice, now: Channel)
    requires Carried(p, s, c, now) && Settled(p, s, s.clk + 1)
    ensures Settled(p, now, s.clk + 1) && now.clk == s.clk
  {
    if c.answer.Ready? {
      RetireSettles(p, s, c.answer.cmd);
    }
  }

  /** The call backs of the cycle, and a refresh request if one is due. */
  lemma AskedSettles(p: Config, s: Channel)
    requires Settled(p, s, s.clk)
    ensures Settled(p, RefreshTick(p, DrainDone(s)), s.clk + 1) && RefreshTick(p, DrainDone(s)).clk == s.clk
  {
    DrainSettles(p, s);
    var drained, now := DrainDone(s), RefreshTick(p, DrainDone(s));
    ClockedKept(p, drained.trace, now.trace, drained.pendingRd, drained.returnQ, s.clk + 1);
    AccountedApart(drained.trace, now.trace, drained.pendingRd, drained.returnQ);
  }

  lemma FinishSettles(p: Config, s: Channel)
    requires Settled(p, s, s.clk + 1)
    ensures Settled(p, Advance(Schedule(p, s)), s.clk + 1) && Advance(Schedule(p, s)).clk == s.clk + 1
  {
    ScheduleFrame(p, s);
  }

  lemma CycleSettles(p: Config, s: Channel, c: Choice, one: Channel, d: Choice, two: Channel)
    requires Settled(p, s, s.clk) && Carried(p, RefreshTick(p, DrainDone(s)), c, one) && Carried(p, one, d, two)
    ensures var now := Advance(Schedule(p, two)); Settled(p, now, now.clk)
  {
    hide Settled, Carried, Schedule;
    AskedSettles(p, s);
    CarriedSettles(p, RefreshTick(p, DrainDone(s)), c, one);
    CarriedSettles(p, one, d, two);
    FinishSettles(p, two);
  }

  lemma NewSettles(p: Config)
    ensures Settled(p, NewChannel(p), 0)
  {
    assert forall id: nat :: Copies(NewChannel(p).trace, map[], [], id) == 0;
  }

  lemma {:induction false} RunSettles(p: Config, es: seq<Event>)
    requires Usable(p)
    ensures Run(p, es).Some? && Settled(p, Run(p, es).value, Run(p, es).value.clk)
  {
    hide Usable, Tick, Schedule;
    RunMaps(p, es);
    if es == [] {
      NewSettles(p);
    } else {
      var before := es[..|es| - 1];
      RunSettles(p, before);
      match es[|es| - 1]
      case Arrive(addr, isWrite) =>
        RunMaps(p, before);
        AcceptSettles(p, Run(p, before).value, addr, isWrite);
      case Cycle =>
        var c, one, d, two := RunCycle(p, before);
        CycleSettles(p, Run(p, before).value, c, one, d, two);
    }
  }

  lemma AcceptSettles(p: Config, s: Channel, addr: nat, isWrite: bool)
    requires Settled(p, s, s.clk) && MapsOk(s.trace.log, s.pendingRd, s.pendingWr)
    ensures Settled(p, Accept(p, s, addr, isWrite), s.clk)
  {
    if isWrite || addr in s.pendingWr {
      AcceptAnswered(p, s, addr, isWrite);
    } else {
      AcceptWaiting(p, s, addr);
    }
  }

  /** In every run each accepted request is, exactly once, waiting for DRAM, waiting to be called back, or called back. */
  lemma AcceptedOnceSettledOnce(p: Config, es: seq<Event>, id: nat)
    requires Usable(p) && Run(p, es).Some?
    ensures var s := Run(p, es).value;
            Times(Group(s.trace.log, s.pendingRd, id), id) + Times(s.returnQ, id) + TimesCalled(s.trace.done, id) ==
            if id < |s.trace.log| then 1 else 0
  {
    RunSettles(p, es);
    var s := Run(p, es).value;
    assert Copies(s.trace, s.pendingRd, s.returnQ, id) == if id < |s.trace.log| then 1 else 0;
  }

  /**
    In every run every call back is made on time: for writes and forwarded reads a cycle after their acceptance,
    for the others when the last data of the read command to their address has come in.
   */
  lemma CalledBackOnTime(p: Config, es: seq<Event>, d: Done)
    requires Usable(p) && Run(p, es).Some? && d in Run(p, es).value.trace.done
    ensures var tr := Run(p, es).value.trace;
            d.id < |tr.log| &&
            if tr.log[d.id].isWrite then d.at == tr.log[d.id].at + 1
            else
              d.id in tr.served &&
              match tr.served[d.id]
              case Forwarded(_) => d.at == tr.log[d.id].at + 1
              case FromDram(_, step, _) =>
                step < |tr.hist| && tr.hist[step].cmd.kind.IsRead() && tr.hist[step].cmd.hexAddr == tr.log[d.id].addr &&
                tr.log[d.id].at <= tr.hist[step].at && d.at == tr.hist[step].at + Max(1, p.AL + p.CL + p.burstCycle)
  {
    hide Run, Usable, Accounted;
    RunSettles(p, es);
    var tr := Run(p, es).value.trace;
    assert CalledOnTime(p, tr, d);
    assert d.id in tr.served ==> ServedByRead(tr, d.id);
  }

  // ----- who has been called back

  ghost predicate CallsArePast(s: Channel) {
    forall d | d in s.trace.done :: d.at < s.clk
  }

  lemma CycleCallsPast(p: Config, s: Channel, c: Choice, one: Channel, d: Choice, two: Channel)
    requires CallsArePast(s) && Carried(p, RefreshTick(p, DrainDone(s)), c, one) && Carried(p, one, d, two)
    ensures CallsArePast(Advance(Schedule(p, two)))
  {
    CallsAre(Due(s.returnQ, s.clk), s.clk);
    CarriedCalls(p, RefreshTick(p, DrainDone(s)), c, one);
    CarriedCalls(p, one, d, two);
    ScheduleFrame(p, two);
  }

  lemma CarriedCalls(p: Config, s: Channel, c: Choice, now: Channel)
    requires Carried(p, s, c, now)
    ensures now.trace.done == s.trace.done && now.clk == s.clk
  {
  }

  lemma {:induction false} RunCallsPast(p: Config, es: seq<Event>)
    requires Usable(p)
    ensures Run(p, es).Some? && CallsArePast(Run(p, es).value)
  {
    hide Usable, Tick, Schedule;
    RunMaps(p, es);
    if es != [] {
      var before := es[..|es| - 1];
      RunCallsPast(p, before);
      match es[|es| - 1]
      case Arrive(addr, isWrite) =>
      case Cycle =>
        var c, one, d, two := RunCycle(p, before);
        CycleCallsPast(p, Run(p, before).value, c, one, d, two);
    }
  }

  lemma {:induction false} CalledExactly(ds: seq<Done>, id: nat)
    ensures TimesCalled(ds, id) > 0 <==> exists d :: d in ds && d.id == id
  {
    if ds != [] {
      CalledExactly(ds[1..], id);
      assert ds[0] in ds;
      if d :| d in ds && d.id == id {
        assert d == ds[0] || d in ds[1..];
      }
    }
  }

  lemma SettledCalls(p: Config, s: Channel, id: nat)
    requires Settled(p, s, s.clk) && MapsOk(s.trace.log, s.pendingRd, s.pendingWr) && id < |s.trace.log|
    requires (s.trace.log[id].isWrite || id in s.trace.served) && CallTime(p, s.trace, id) < s.clk
    ensures exists d :: d in s.trace.done && d.id == id
  {
    GroupsLogged(s.trace.log, s.pendingRd, s.pendingWr);
    TimesAbsent(Group(s.trace.log, s.pendingRd, id), id);
    forall t | t in s.returnQ
      ensures t.id != id
    {
      assert Timely(p, s.trace, t, s.clk);
    }
    TimesAbsent(s.returnQ, id);
    assert Copies(s.trace, s.pendingRd, s.returnQ, id) == 1;
    CalledExactly(s.trace.done, id);
  }

  /**
    In every run a request has been called back if and only if it is a write or has been served and the cycle
    it was due has gone by; nothing that is due is held back.
   */
  lemma CalledBackExactlyWhenDue(p: Config, es: seq<Event>, id: nat, at: int)
    requires Usable(p) && Run(p, es).Some?
    ensures var s := Run(p, es).value;
            Done(id, at) in s.trace.done <==>
            id < |s.trace.log| && (s.trace.log[id].isWrite || id in s.trace.served) && at == CallTime(p, s.trace, id) && at < s.clk
  {
    hide Run, Usable, Accounted;
    RunSettles(p, es);
    RunCallsPast(p, es);
    RunMaps(p, es);
    var s := Run(p, es).value;
    assert forall d | d in s.trace.done :: CalledOnTime(p, s.trace, d);
    if id < |s.trace.log| && (s.trace.log[id].isWrite || id in s.trace.served) && CallTime(p, s.trace, id) < s.clk {
      SettledCalls(p, s, id);
    }
  }
}
