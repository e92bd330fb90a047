/** First-ready, first-come scheduling: what may overtake what. */
module Ordering {
  import opened Common
  import opened Configuration
  import opened Scheduler
  import opened Channel
  import opened ChannelInv
  import opened ChannelSteps
  import opened Arbitration
  import opened Cycles

  // ----- over runs

  ghost predicate GroupsSorted(rd: map<int, seq<Transaction>>) {
    forall a, t | a in rd && t in rd[a] :: HeadId(rd[a]) <= t.id
  }

  /** Reads of one bank and row go to DRAM in the order in which the queued ones among them arrived; `live` are those with an entry. */
  ghost predicate ServedInOrder(p: Config, tr: Trace, rd: map<int, seq<Transaction>>, live: set<int>) {
    (forall id | id in tr.served && tr.served[id].FromDram? ::
      id < |tr.log| && tr.served[id].step < |tr.hist| && tr.served[id].head <= id) &&
    (forall id, a | id in tr.served && tr.served[id].FromDram? && a in live && a in rd && a >= 0 && SameRow(p, tr.log[id].addr, a) ::
      tr.served[id].head < HeadId(rd[a])) &&
    (forall x, y | x in tr.served && tr.served[x].FromDram? && y in tr.served && tr.served[y].FromDram? &&
                   SameRow(p, tr.log[x].addr, tr.log[y].addr) ::
      (tr.served[x].step < tr.served[y].step ==> tr.served[x].head < tr.served[y].head) &&
      (tr.served[x].step == tr.served[y].step ==> tr.served[x].head == tr.served[y].head))
  }

  ghost predicate OrderKept(p: Config, s: Channel, live: set<int>) {
    GroupsSorted(s.pendingRd) && ServedInOrder(p, s.trace, s.pendingRd, live)
  }

  /** A read that must wait comes after every read served or waiting so far. */
  lemma WaitingKeepsOrder(p: Config, tr: Trace, rd: map<int, seq<Transaction>>, live: set<int>, wr: map<int, seq<Transaction>>, t: Transaction, r: Request)
    requires GroupsSorted(rd) && ServedInOrder(p, tr, rd, live) && MapsOk(tr.log, rd, wr) && t.id == |tr.log|
    ensures var now := rd[t.addr := (if t.addr in rd then rd[t.addr] else []) + [t]];
            GroupsSorted(now) && ServedInOrder(p, tr.(log := tr.log + [r]), now, if t.addr in rd then live else live + {t.addr})
  {
    var now := rd[t.addr := (if t.addr in rd then rd[t.addr] else []) + [t]];
    assert t.addr in rd ==> GroupOk(tr.log, rd[t.addr], t.addr) && rd[t.addr][0] in rd[t.addr];
    assert forall a | a in rd :: HeadId(now[a]) == HeadId(rd[a]);
    assert t.addr !in rd ==> HeadId(now[t.addr]) == |tr.log|;
  }

  lemma AcceptKeepsOrder(p: Config, s: Channel, v: Live, addr: nat, isWrite: bool)
    requires OrderKept(p, s, v.rd) && MapsOk(s.trace.log, s.pendingRd, s.pendingWr)
    ensures OrderKept(p, Accept(p, s, addr, isWrite), LiveWith(s, v, addr, isWrite).rd)
  {
    var now, t := Accept(p, s, addr, isWrite), Transaction(|s.trace.log|, addr, s.clk, 0, isWrite);
    if !isWrite && addr !in s.pendingWr {
      WaitingKeepsOrder(p, s.trace, s.pendingRd, v.rd, s.pendingWr, t, Request(addr, isWrite, s.clk));
      assert [] + [t] == [t];
    }
  }

  lemma RetireReadKeepsOrder(p: Config, tr: Trace, rd: map<int, seq<Transaction>>, live: set<int>, a: nat, served: Served)
    requires GroupsSorted(rd) && ServedInOrder(p, tr, rd, live) && a in rd && a in live && live <= rd.Keys && GroupOk(tr.log, rd[a], a)
    requires served.FromDram? && served.step == |tr.hist| && served.head == HeadId(rd[a])
    requires forall b: nat | b in live && b != a && SameRow(p, b, a) :: HeadId(rd[a]) < HeadId(rd[b])
    ensures forall c :: ServedInOrder(p, tr.(served := tr.served + ReadResults(rd[a], served), hist := tr.hist + [c]), rd - {a}, live)
  {
    var results := ReadResults(rd[a], served);
    forall id | id in results
      ensures id < |tr.log| && tr.log[id].addr == a && results[id] == served && served.head <= id
    {
      var t :| t in rd[a] && t.id == id;
    }
  }

  lemma CarriedKeepsOrder(p: Config, s: Channel, c: Choice, now: Channel)
    requires Carried(p, s, c, now) && OrderKept(p, s, LiveOf(p, s).rd)
    ensures OrderKept(p, now, LiveOf(p, now).rd)
  {
    assert LiveOf(p, s).rd <= s.pendingRd.Keys;
    hide LiveOf;
    if c.answer.Ready? && c.answer.cmd.kind.IsRead() {
      var a: nat := c.answer.cmd.hexAddr;
      assert GroupOk(s.trace.log, s.pendingRd[a], a);
      RetireReadKeepsOrder(p, s.trace, s.pendingRd, LiveOf(p, s).rd, a, FromDram(Cell(s.trace.cells, a), |s.trace.hist|, HeadId(s.pendingRd[a])));
    }
  }

  lemma CycleKeepsOrder(p: Config, s: Channel, c: Choice, one: Channel, d: Choice, two: Channel)
    requires OrderKept(p, s, LiveOf(p, s).rd) && Carried(p, RefreshTick(p, DrainDone(s)), c, one) && Carried(p, one, d, two)
    requires LiveOf(p, RefreshTick(p, DrainDone(s))) == LiveOf(p, s)
    ensures OrderKept(p, Advance(Schedule(p, two)), LiveOf(p, two).rd)
  {
    hide LiveOf, Carried, Schedule;
    CarriedKeepsOrder(p, RefreshTick(p, DrainDone(s)), c, one);
    CarriedKeepsOrder(p, one, d, two);
    ScheduleFrame(p, two);
  }

  lemma AcceptOrder(p: Config, s: Channel, addr: nat, isWrite: bool)
    requires Usable(p) && Inv(p, s) && OrderKept(p, s, LiveOf(p, s).rd) && MapsOk(s.trace.log, s.pendingRd, s.pendingWr)
    ensures var now := Accept(p, s, addr, isWrite); OrderKept(p, now, LiveOf(p, now).rd)
  {
    hide LiveOf, Inv, OrderKept, Accept, MapsOk;
    AcceptLive(p, s, addr, isWrite);
    AcceptKeepsOrder(p, s, LiveOf(p, s), addr, isWrite);
  }

  lemma {:induction false} RunKeepsOrder(p: Config, es: seq<Event>)
    requires Usable(p)
    ensures Run(p, es).Some? && OrderKept(p, Run(p, es).value, LiveOf(p, Run(p, es).value).rd)
  {
    hide Usable, Tick, Schedule, LiveOf, Carried, Inv, ServedInOrder;
    RunKeepsInv(p, es);
    if es == [] {
      NewInOrder(p);
    } else {
      var before := es[..|es| - 1];
      RunKeepsOrder(p, before);
      match es[|es| - 1]
      case Arrive(addr, isWrite) =>
        RunMaps(p, before);
        RunKeepsInv(p, before);
        AcceptOrder(p, Run(p, before).value, addr, isWrite);
      case Cycle =>
        var c, one, d, two := RunCycle(p, before);
        CycleKeepsOrder(p, Run(p, before).value, c, one, d, two);
    }
  }

  lemma NewInOrder(p: Config)
    ensures OrderKept(p, NewChannel(p), LiveOf(p, NewChannel(p)).rd)
  {
  }

  /** In every run two reads of one bank and row that were queued themselves go to DRAM in acceptance order. */
  lemma ReadsOfARowIssueInOrder(p: Config, es: seq<Event>, x: nat, y: nat)
    requires Usable(p) && Run(p, es).Some? && x < y
    requires var tr := Run(p, es).value.trace;
             x < |tr.log| && y < |tr.log| && SameRow(p, tr.log[x].addr, tr.log[y].addr) &&
             x in tr.served && tr.served[x].FromDram? && tr.served[x].head == x &&
             y in tr.served && tr.served[y].FromDram? && tr.served[y].head == y
    ensures Run(p, es).value.trace.served[x].step < Run(p, es).value.trace.served[y].step
  {
    hide Run, LiveOf;
    RunKeepsOrder(p, es);
  }

  /** ... and the later one is not served while the earlier one still waits for its turn. */
  lemma NoReadOvertakesItsRow(p: Config, es: seq<Event>, a: nat, y: nat)
    requires Usable(p) && Run(p, es).Some?
    requires var s := Run(p, es).value;
             a in s.pendingRd && HasEntry(p, s, a, false) && y in s.trace.served && s.trace.served[y].FromDram? && s.trace.served[y].head == y
    requires y < |Run(p, es).value.trace.log| && SameRow(p, Run(p, es).value.trace.log[y].addr, a)
    ensures y < HeadId(Run(p, es).value.pendingRd[a])
  {
    hide Run, HasEntry;
    RunKeepsOrder(p, es);
    assert a in LiveOf(p, Run(p, es).value).rd;
  }
}
