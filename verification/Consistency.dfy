/** Every read returns the data of the last write accepted before it to its address. */
module Consistency {
  import opened Common
  import opened Configuration
  import opened Scheduler
  import opened Channel
  import opened ChannelInv
  import opened ChannelSteps
  import opened Cycles

  /** The last write to `a` among the first `n` accepted requests. */
  function LastWrite(log: seq<Request>, a: int, n: nat): Option<nat>
    requires n <= |log|
  {
    if n == 0 then None
    else if log[n - 1].isWrite && log[n - 1].addr == a then Some(n - 1)
    else LastWrite(log, a, n - 1)
  }

  lemma {:induction false} LastWriteGrow(log: seq<Request>, r: Request, a: int, n: nat)
    requires n <= |log|
    ensures LastWrite(log + [r], a, n) == LastWrite(log, a, n)
  {
    if n > 0 {
      LastWriteGrow(log, r, a, n - 1);
    }
  }

  /**
    Pending writes carry the newest data, idle cells hold it, and pending reads still wait for what their cell
    holds, all but those that have lost their entry: `live` are the others.
   */
  ghost predicate DataOk(tr: Trace, rd: map<int, seq<Transaction>>, live: set<int>, wr: map<int, seq<Transaction>>) {
    (forall a | a in wr :: a in tr.newest && Some(tr.newest[a]) == LastWrite(tr.log, a, |tr.log|)) &&
    (forall a | a !in wr :: Cell(tr.cells, a) == LastWrite(tr.log, a, |tr.log|)) &&
    (forall a, t | a in live && a in rd && t in rd[a] :: t.id <= |tr.log| && LastWrite(tr.log, a, t.id) == Cell(tr.cells, a))
  }

  /** Each served read got the data of the last write to its address accepted before it. */
  ghost predicate ServedOk(tr: Trace) {
    forall id | id in tr.served :: ServedRight(tr.log, tr.served, id)
  }

  ghost predicate ServedRight(log: seq<Request>, served: map<nat, Served>, id: nat)
    requires id in served
  {
    id < |log| && !log[id].isWrite && served[id].src == LastWrite(log, log[id].addr, id)
  }

  ghost predicate Consistent(s: Channel, live: set<int>) {
    DataOk(s.trace, s.pendingRd, live, s.pendingWr) && ServedOk(s.trace)
  }

  // ----- preservation

  lemma LogGrows(log: seq<Request>, r: Request)
    ensures forall a: int, n: nat | n <= |log| :: LastWrite(log + [r], a, n) == LastWrite(log, a, n)
    ensures forall a :: LastWrite(log + [r], a, |log + [r]|) == if r.isWrite && r.addr == a then Some(|log|) else LastWrite(log, a, |log|)
  {
    forall a: int, n: nat | n <= |log|
      ensures LastWrite(log + [r], a, n) == LastWrite(log, a, n)
    {
      LastWriteGrow(log, r, a, n);
    }
    forall a
      ensures LastWrite(log + [r], a, |log + [r]|) == if r.isWrite && r.addr == a then Some(|log|) else LastWrite(log, a, |log|)
    {
      LastWriteGrow(log, r, a, |log|);
    }
  }

  lemma ServedGrows(log: seq<Request>, r: Request, served: map<nat, Served>)
    requires forall id | id in served :: ServedRight(log, served, id)
    ensures forall id | id in served :: ServedRight(log + [r], served, id)
  {
    LogGrows(log, r);
    forall id | id in served
      ensures ServedRight(log + [r], served, id)
    {
      assert ServedRight(log, served, id);
    }
  }

  lemma AcceptWriteKeepsData(p: Config, s: Channel, live: set<int>, addr: nat)
    requires MapsOk(s.trace.log, s.pendingRd, s.pendingWr) && Consistent(s, live)
    ensures Consistent(Accept(p, s, addr, true), live)
  {
    var r := Request(addr, true, s.clk);
    LogGrows(s.trace.log, r);
    ServedGrows(s.trace.log, r, s.trace.served);
    assert forall a | a in s.pendingRd :: GroupOk(s.trace.log, s.pendingRd[a], a);
  }

  lemma DataAfterRead(tr: Trace, rd: map<int, seq<Transaction>>, live: set<int>, wr: map<int, seq<Transaction>>, r: Request, t: Transaction)
    requires MapsOk(tr.log, rd, wr) && DataOk(tr, rd, live, wr) && !r.isWrite && t.id == |tr.log|
    ensures DataOk(tr.(log := tr.log + [r]), rd, live, wr)
    ensures t.addr !in wr && t.addr !in rd ==> DataOk(tr.(log := tr.log + [r]), rd[t.addr := [t]], live + {t.addr}, wr)
    ensures t.addr !in wr && t.addr in rd ==> DataOk(tr.(log := tr.log + [r]), rd[t.addr := rd[t.addr] + [t]], live, wr)
  {
    LogGrows(tr.log, r);
    assert forall a | a in rd :: GroupOk(tr.log, rd[a], a);
  }

  lemma AcceptReadKeepsData(p: Config, s: Channel, v: Live, addr: nat)
    requires MapsOk(s.trace.log, s.pendingRd, s.pendingWr) && Consistent(s, v.rd)
    ensures Consistent(Accept(p, s, addr, false), LiveWith(s, v, addr, false).rd)
  {
    var r, t := Request(addr, false, s.clk), Transaction(|s.trace.log|, addr, s.clk, 0, false);
    DataAfterRead(s.trace, s.pendingRd, v.rd, s.pendingWr, r, t);
    ServedGrows(s.trace.log, r, s.trace.served);
    if addr in s.pendingWr {
      LogGrows(s.trace.log, r);
      var served := s.trace.served[t.id := Forwarded(Cell(s.trace.newest, addr))];
      forall id | id in served
        ensures ServedRight(s.trace.log + [r], served, id)
      {
        if id in s.trace.served {
          assert ServedRight(s.trace.log, s.trace.served, id);
        }
      }
      assert Accept(p, s, addr, false).trace == s.trace.(log := s.trace.log + [r], served := served);
    }
  }

  lemma RetireReadKeepsData(p: Config, s: Channel, live: set<int>, cmd: Command)
    requires MapsOk(s.trace.log, s.pendingRd, s.pendingWr) && Consistent(s, live) && cmd.kind.IsRead()
    requires cmd.hexAddr in s.pendingRd && cmd.hexAddr in live
    ensures Consistent(Retired(p, s, cmd).value, live)
  {
    var a, now := cmd.hexAddr, Retired(p, s, cmd).value;
    assert GroupOk(s.trace.log, s.pendingRd[a], a);
    forall id | id in now.trace.served
      ensures ServedRight(now.trace.log, now.trace.served, id)
    {
      if id in s.trace.served {
        assert ServedRight(s.trace.log, s.trace.served, id);
      }
    }
  }

  lemma RetireWriteKeepsData(p: Config, s: Channel, live: set<int>, cmd: Command)
    requires Consistent(s, live) && cmd.kind.IsWrite() && cmd.hexAddr in s.pendingWr && cmd.hexAddr !in live
    ensures Consistent(Retired(p, s, cmd).value, live)
  {
    assert forall id | id in s.trace.served :: ServedRight(s.trace.log, s.trace.served, id);
  }

  lemma CarriedKeepsData(p: Config, s: Channel, c: Choice, now: Channel)
    requires Carried(p, s, c, now) && Consistent(s, LiveOf(p, s).rd)
    ensures Consistent(now, LiveOf(p, now).rd)
  {
    hide LiveOf;
    if c.answer.Ready? {
      if c.answer.cmd.kind.IsRead() {
        RetireReadKeepsData(p, s, LiveOf(p, s).rd, c.answer.cmd);
      } else if c.answer.cmd.kind.IsWrite() {
        RetireWriteKeepsData(p, s, LiveOf(p, s).rd, c.answer.cmd);
      }
    }
  }

  lemma CycleKeepsData(p: Config, s: Channel, c: Choice, one: Channel, d: Choice, two: Channel)
    requires Consistent(s, LiveOf(p, s).rd) && Carried(p, RefreshTick(p, DrainDone(s)), c, one) && Carried(p, one, d, two)
    requires LiveOf(p, RefreshTick(p, DrainDone(s))) == LiveOf(p, s)
    ensures Consistent(Advance(Schedule(p, two)), LiveOf(p, two).rd)
  {
    hide LiveOf, Carried, Schedule;
    CarriedKeepsData(p, RefreshTick(p, DrainDone(s)), c, one);
    CarriedKeepsData(p, one, d, two);
    ScheduleFrame(p, two);
  }

  lemma {:induction false} RunConsistent(p: Config, es: seq<Event>)
    requires Usable(p)
    ensures Run(p, es).Some? && Consistent(Run(p, es).value, LiveOf(p, Run(p, es).value).rd)
  {
    hide Usable, Tick, Schedule, LiveOf, Carried, Inv, Consistent;
    RunKeepsInv(p, es);
    if es == [] {
      NewConsistent(p);
    } else {
      var before := es[..|es| - 1];
      RunConsistent(p, before);
      match es[|es| - 1]
      case Arrive(addr, isWrite) =>
        RunMaps(p, before);
        RunKeepsInv(p, before);
        AcceptKeepsData(p, Run(p, before).value, addr, isWrite);
      case Cycle =>
        var c, one, d, two := RunCycle(p, before);
        CycleKeepsData(p, Run(p, before).value, c, one, d, two);
    }
  }

  lemma NewConsistent(p: Config)
    ensures Consistent(NewChannel(p), LiveOf(p, NewChannel(p)).rd)
  {
  }

  lemma AcceptKeepsData(p: Config, s: Channel, addr: nat, isWrite: bool)
    requires Usable(p) && Inv(p, s) && MapsOk(s.trace.log, s.pendingRd, s.pendingWr) && Consistent(s, LiveOf(p, s).rd)
    ensures var now := Accept(p, s, addr, isWrite); Consistent(now, LiveOf(p, now).rd)
  {
    hide LiveOf, Inv, Consistent, Accept, MapsOk;
    AcceptLive(p, s, addr, isWrite);
    if isWrite {
      AcceptWriteKeepsData(p, s, LiveOf(p, s).rd, addr);
    } else {
      AcceptReadKeepsData(p, s, LiveOf(p, s), addr);
    }
  }

  /**
    In every run, whatever served a read handed it the data of the last write to that address accepted before
    it; so even where requests get lost, those that are answered are answered rightly.
   */
  lemma ReadsSeeLastWrite(p: Config, es: seq<Event>, id: nat)
    requires Usable(p) && Run(p, es).Some?
    requires id in Run(p, es).value.trace.served
    ensures var tr := Run(p, es).value.trace;
            id < |tr.log| && !tr.log[id].isWrite && tr.served[id].src == LastWrite(tr.log, tr.log[id].addr, id)
  {
    hide Run, LiveOf;
    RunConsistent(p, es);
    assert ServedRight(Run(p, es).value.trace.log, Run(p, es).value.trace.served, id);
  }
}
