/** Writes that come in together, with separate queues for reads and writes, and become commands one a cycle. */
module WriteBursts {
  import opened Common
  import opened Configuration
  import opened Device
  import opened DeviceRuns
  import opened Scheduler
  import opened Channel
  import opened ChannelInv
  import opened ChannelSteps
  import opened Lines
  import opened Scripts
  import opened TimingLaws

  /** Different addresses in one row. */
  ghost predicate OneRow(p: Config, ws: seq<nat>)
    requires ws != []
  {
    (forall i, j | 0 <= i < j < |ws| :: ws[i] != ws[j]) &&
    forall i | 0 <= i < |ws| :: Target(p, ws[i]) == Target(p, ws[0]) && p.AddressMapping(ws[i]).row == p.AddressMapping(ws[0]).row
  }

  lemma AllDiffer(p: Config, ws: seq<nat>)
    requires ws != [] && OneRow(p, ws)
    ensures forall i, j | 0 <= i < j < |ws| :: ws[i] != ws[j]
  {
  }

  /** As many writes as make draining begin when no command is queued. */
  function Threshold(p: Config): int {
    if p.transQueueSize < 9 then p.transQueueSize else 9
  }

  /** Writes to one row that together make draining begin. */
  ghost predicate Burst(p: Config, ws: seq<nat>) {
    Usable(p) && Roomy(p) && !p.unifiedQueue && |ws| == Threshold(p) && ws != [] && OneRow(p, ws)
  }

  lemma RowHome(p: Config, ws: seq<nat>)
    requires Usable(p) && ws != [] && OneRow(p, ws)
    ensures 0 <= Home(p, ws[0]) < QueueCount(p) && p.HasLoc(Target(p, ws[0])) && QueueIndex(p, Target(p, ws[0])) == Home(p, ws[0])
    ensures forall i | 0 <= i < |ws| :: Home(p, ws[i]) == Home(p, ws[0])
  {
    HomeInRange(p, Target(p, ws[0]));
    forall i | 0 <= i < |ws|
      ensures Home(p, ws[i]) == Home(p, ws[0])
    {
      assert Target(p, ws[i]) == Target(p, ws[0]);
    }
  }

  // ----- queues of accesses to one row

  ghost predicate Uniform(line: seq<Command>, l: Loc, k: CommandType, row: int) {
    forall i | 0 <= i < |line| :: line[i].kind == k && line[i].Place() == l && line[i].addr.row == row
  }

  /** A queue of reads, or of writes, to an open row offers its first entry as soon as the history allows. */
  lemma LineOffers(p: Config, h: seq<Issued>, line: seq<Command>, l: Loc, k: CommandType, i: int, t: int)
    requires Legal(p, h) && p.HasLoc(l) && OpenSince(h, l, i) && 0 <= t && k.IsReadWrite()
    requires Uniform(line, l, k, h[i].cmd.addr.row)
    ensures FirstReady(p, After(p, h), line, 0, t) == if line != [] && Allowed(p, h, l, k, t) then Ready(line[0]) else NotYet
  {
    hide Legal, After, Allowed;
    RowIsOpen(p, h, l, i);
    forall j | 0 <= j < |line|
      ensures Offer(p, After(p, h), line, j, t) == if Allowed(p, h, l, k, t) then Ready(line[j]) else NotYet
    {
      hide GetReady;
      AnswerOnRow(p, h, line[j], t);
    }
    hide Offer;
    var n := FirstReadyIs(p, After(p, h), line, 0, t);
  }

  /** At most one queue that is not empty. */
  function OneLine(p: Config, q: int, line: seq<Command>): (queues: seq<seq<Command>>)
    ensures |queues| == QueueCount(p)
    ensures forall x | 0 <= x < |queues| :: queues[x] == if x == q then line else []
  {
    seq(QueueCount(p), x => if x == q then line else [])
  }

  /** The commands of the writes to `addrs`. */
  function Commands(p: Config, addrs: seq<nat>): (line: seq<Command>)
    ensures |line| == |addrs| && forall i | 0 <= i < |line| :: line[i] == WriteOf(p, addrs[i])
  {
    seq(|addrs|, i requires 0 <= i < |addrs| => WriteOf(p, addrs[i]))
  }

  function WriteKind(p: Config): CommandType {
    if p.closePage then WritePrecharge else Write
  }

  lemma CommandsUniform(p: Config, ws: seq<nat>, i: nat, j: nat)
    requires ws != [] && OneRow(p, ws) && i <= j <= |ws|
    ensures Uniform(Commands(p, ws[i..j]), Target(p, ws[0]), WriteKind(p), p.AddressMapping(ws[0]).row)
  {
    forall x | 0 <= x < j - i
      ensures var c := Commands(p, ws[i..j])[x]; c.kind == WriteKind(p) && c.Place() == Target(p, ws[0]) && c.addr.row == p.AddressMapping(ws[0]).row
    {
      assert ws[i..j][x] == ws[i + x];
    }
  }

  /** With writes in one queue only, its first is chosen as soon as the history allows. */
  lemma WriteChosen(p: Config, h: seq<Issued>, cq: CommandQueue, q: int, line: seq<Command>, l: Loc, row: int, i: int)
    requires Legal(p, h) && p.HasLoc(l) && OpenSince(h, l, i) && h[i].cmd.addr.row == row && 0 <= cq.clk
    requires Turning(p, cq) && cq.queues == OneLine(p, q, line) && 0 <= q < QueueCount(p) && QueueIndex(p, l) == q
    requires Uniform(line, l, Write, row)
    ensures GetCommandToIssue(p, After(p, h), cq) ==
            if line != [] && Allowed(p, h, l, Write, cq.clk) then Choice(Ready(line[0]), cq.(queues := OneLine(p, q, line[1..]), next := q))
            else Choice(NotYet, cq)
  {
    hide Legal, After, Allowed, FirstReady, GetCommandToIssue, OpenSince, QueueIndex;
    LineOffers(p, h, line, l, Write, i, cq.clk);
    forall x | 0 <= x < |cq.queues| && x != q
      ensures Asked(p, After(p, h), cq, x).NotYet?
    {
      EmptyOffersNothing(p, After(p, h), cq.clk);
    }
    if line != [] && Allowed(p, h, l, Write, cq.clk) {
      OfferTaken(p, After(p, h), cq, q);
      HeadTaken(p, cq.(next := q), q, line);
    } else {
      NothingOffered(p, After(p, h), cq);
    }
  }

  lemma EmptyOffersNothing(p: Config, d: Device, t: int)
    ensures FirstReady(p, d, [], 0, t).NotYet?
  {
  }

  lemma HeadTaken(p: Config, cq: CommandQueue, q: int, line: seq<Command>)
    requires cq.queues == OneLine(p, q, line) && 0 <= q < QueueCount(p) && line != []
    requires QueueIndex(p, line[0].Place()) == q && line[0].kind.IsReadWrite()
    ensures Taken(p, cq, line[0]) == Choice(Ready(line[0]), cq.(queues := OneLine(p, q, line[1..])))
  {
    assert Erased(line, line[0]) == Some(line[1..]);
    var before, after := cq.queues[q := line[1..]], OneLine(p, q, line[1..]);
    assert forall x | 0 <= x < |after| :: before[x] == after[x];
    assert before == after;
  }

  // ----- arrivals

  ghost predicate Buffered(buf: seq<Transaction>, addrs: seq<nat>) {
    |buf| == |addrs| && forall i | 0 <= i < |buf| :: buf[i].addr == addrs[i] && buf[i].isWrite
  }

  /** While draining, the first write in the buffer becomes a command. */
  lemma WriteMoves(p: Config, s: Channel, addrs: seq<nat>)
    requires !p.unifiedQueue && addrs != [] && Buffered(s.writeBuf, addrs) && Draining(p, s) == |addrs|
    requires addrs[0] !in s.pendingRd && 0 <= Home(p, addrs[0]) < |s.cq.queues| && |s.cq.queues[Home(p, addrs[0])]| < p.cmdQueueSize
    ensures Schedule(p, s) ==
            s.(writeBuf := s.writeBuf[1..], draining := |addrs| - 1, cq := s.cq.(queues := Joined(s.cq.queues, Home(p, addrs[0]), WriteOf(p, addrs[0]))))
    ensures Buffered(s.writeBuf[1..], addrs[1..])
  {
    var q := s.writeBuf;
    var cmd := TransToCommand(p, q[0].addr, q[0].isWrite);
    assert WillAcceptCommand(p, s.cq, cmd.Place());
    assert FirstAcceptable(p, s.cq, q, 0) == 0;
    assert q[..0] + q[1..] == q[1..];
  }

  lemma WriteArrives(p: Config, s: Channel, a: nat)
    requires !p.unifiedQueue && |s.writeBuf| < p.transQueueSize && a !in s.pendingWr
    ensures Step(p, s, Arrive(a, true)).Some?
    ensures var t, now := Transaction(|s.trace.log|, a, s.clk, 0, true), Step(p, s, Arrive(a, true)).value;
            now.writeBuf == s.writeBuf + [t] && now.pendingWr.Keys == s.pendingWr.Keys + {a} && now.clk == s.clk && now.timer == s.timer &&
            now.refreshQ == s.refreshQ && now.unified == s.unified && now.readQ == s.readQ && now.trace.hist == s.trace.hist && now.cq == s.cq &&
            now.draining == s.draining
  {
  }

  /** No read of an address is pending whose queue holds writes only. */
  lemma NoReadPending(p: Config, s: Channel, a: nat)
    requires Usable(p) && Intact(p, s) && !p.unifiedQueue && s.readQ == []
    requires 0 <= Home(p, a) < |s.cq.queues| && forall c | c in s.cq.queues[Home(p, a)] :: !c.kind.IsRead()
    ensures a !in s.pendingRd
  {
    var line := Line(p, s.cq.queues, [], Home(p, a));
    assert line == s.cq.queues[Home(p, a)];
    assert TransToCommand(p, a, false).kind.IsRead();
    assert multiset(line)[TransToCommand(p, a, false)] == 0;
  }

  /** A scene in which the first `n` of the writes to `ws` wait in the buffer, and the others are not pending. */
  ghost predicate Holds(p: Config, s: Channel, clk: int, h: seq<Issued>, queues: seq<seq<Command>>, next: int, ws: seq<nat>, n: nat) {
    n <= |ws| && Intact(p, s) && s.clk == clk && s.timer.clk == clk && s.refreshQ == [] && s.unified == [] && s.readQ == [] &&
    s.trace.hist == h && s.cq.queues == queues && s.cq.next == next &&
    Buffered(s.writeBuf, ws[..n]) && s.draining == 0 && forall i | n <= i < |ws| :: ws[i] !in s.pendingWr
  }

  lemma OneMoreHeld(p: Config, s: Channel, clk: int, h: seq<Issued>, queues: seq<seq<Command>>, next: int, ws: seq<nat>, n: nat)
    requires Usable(p) && !p.unifiedQueue && Holds(p, s, clk, h, queues, next, ws, n) && n < |ws| <= p.transQueueSize
    requires forall i, j | 0 <= i < j < |ws| :: ws[i] != ws[j]
    ensures Step(p, s, Arrive(ws[n], true)).Some? && Holds(p, Step(p, s, Arrive(ws[n], true)).value, clk, h, queues, next, ws, n + 1)
  {
    hide Intact, Usable, Step;
    WriteArrives(p, s, ws[n]);
    StepKeepsIntact(p, s, Arrive(ws[n], true));
  }

  lemma {:induction false} WritesArrive(p: Config, es: seq<Event>, s: Channel, clk: int, h: seq<Issued>, queues: seq<seq<Command>>, next: int, ws: seq<nat>, n: nat)
    returns (fs: seq<Event>, now: Channel)
    requires Usable(p) && !p.unifiedQueue && Run(p, es) == Some(s) && Holds(p, s, clk, h, queues, next, ws, n) && |ws| <= p.transQueueSize
    requires forall i, j | 0 <= i < j < |ws| :: ws[i] != ws[j]
    ensures Run(p, fs) == Some(now) && Holds(p, now, clk, h, queues, next, ws, |ws|)
    decreases |ws| - n
  {
    hide Run, Step, Usable, Intact;
    if n == |ws| {
      fs, now := es, s;
    } else {
      OneMoreHeld(p, s, clk, h, queues, next, ws, n);
      var one := Step(p, s, Arrive(ws[n], true)).value;
      OneMore(p, es, s, Arrive(ws[n], true), one);
      fs, now := WritesArrive(p, es + [Arrive(ws[n], true)], one, clk, h, queues, next, ws, n + 1);
    }
  }

  lemma NoneHeld(p: Config, ws: seq<nat>, s: Channel, clk: int, h: seq<Issued>, next: int)
    requires Burst(p, ws) && View(p, s, clk, h, map[], next)
    ensures Holds(p, s, clk, h, OneLine(p, Home(p, ws[0]), []), next, ws, 0)
  {
    hide Intact, Usable, Target, Home;
    RowHome(p, ws);
    var before, after := Filled(p, map[]), OneLine(p, Home(p, ws[0]), []);
    assert forall x | 0 <= x < |after| :: before[x] == after[x];
    assert before == after;
    forall i | 0 <= i < |ws|
      ensures ws[i] !in s.pendingWr
    {
      NotPending(p, s, clk, h, map[], next, ws[i]);
    }
  }

  // ----- draining begins

  /** The first `k` writes are commands, none of them issued, and the others wait to be drained. */
  ghost predicate Fed(p: Config, ws: seq<nat>, s: Channel, k: nat)
    requires ws != []
  {
    k <= |ws| && s.refreshQ == [] && s.unified == [] && s.readQ == [] && s.cq.queues == OneLine(p, Home(p, ws[0]), Commands(p, ws[..k])) &&
    Buffered(s.writeBuf, ws[k..]) && s.draining == |ws| - k
  }

  lemma OneMoreCommand(p: Config, ws: seq<nat>, i: nat, k: nat)
    requires Usable(p) && ws != [] && OneRow(p, ws) && i <= k < |ws|
    ensures 0 <= Home(p, ws[0]) < QueueCount(p) && Home(p, ws[k]) == Home(p, ws[0])
    ensures Joined(OneLine(p, Home(p, ws[0]), Commands(p, ws[i..k])), Home(p, ws[k]), WriteOf(p, ws[k])) == OneLine(p, Home(p, ws[0]), Commands(p, ws[i..k + 1]))
  {
    hide Home, WriteOf;
    RowHome(p, ws);
    var q := Home(p, ws[0]);
    assert Commands(p, ws[i..k]) + [WriteOf(p, ws[k])] == Commands(p, ws[i..k + 1]);
    var before, after := Joined(OneLine(p, q, Commands(p, ws[i..k])), q, WriteOf(p, ws[k])), OneLine(p, q, Commands(p, ws[i..k + 1]));
    assert forall x | 0 <= x < |after| :: before[x] == after[x];
    assert before == after;
  }

  lemma NextMoves(p: Config, ws: seq<nat>, x: Channel, k: nat)
    requires Burst(p, ws) && k < |ws| && ws[k] !in x.pendingRd && k < p.cmdQueueSize
    requires Fed(p, ws, x.(draining := Draining(p, x)), k)
    ensures Fed(p, ws, Schedule(p, x), k + 1) && Schedule(p, x).cq.next == x.cq.next
  {
    hide TransToCommand, Joined, Usable, Commands, Home, WriteOf, OneRow, OneLine;
    assert ws[k..][0] == ws[k] && ws[k..][1..] == ws[k + 1..];
    OneMoreCommand(p, ws, 0, k);
    assert ws[0..k] == ws[..k] && ws[0..k + 1] == ws[..k + 1];
    assert x.cq.queues[Home(p, ws[0])] == Commands(p, ws[..k]);
    WriteMoves(p, x, ws[k..]);
  }

  lemma InvTurns(p: Config, s: Channel)
    requires Intact(p, s) && s.refreshQ == []
    ensures Turning(p, s.cq) && s.cq.clk == s.clk && Legal(p, s.trace.hist) && s.dev == After(p, s.trace.hist) && LastTime(s.trace.hist) <= s.clk && 0 <= s.clk
  {
  }

  /** Draining begins, and the first write becomes a command. */
  lemma Begins(p: Config, ws: seq<nat>, s: Channel, clk: int, h: seq<Issued>, next: int) returns (now: Channel)
    requires Burst(p, ws) && !RefreshDue(p, s.timer.clk)
    requires Holds(p, s, clk, h, OneLine(p, Home(p, ws[0]), []), next, ws, |ws|)
    ensures Step(p, s, Cycle) == Some(now) && Intact(p, now) && now.clk == clk + 1 && now.timer.clk == clk + 1
    ensures now.trace.hist == h && now.cq.next == next && Fed(p, ws, now, 1)
  {
    hide Intact, Usable, Target, Step, Drops, Commands, OneRow, WriteOf, Home, OneLine, Schedule;
    var x := RefreshTick(p, DrainDone(s));
    RowHome(p, ws);
    InvTurns(p, s);
    LineIsEmpty(p, ws, s);
    NothingOffered(p, s.dev, s.cq);
    IdleCycle(p, s);
    NoReadPending(p, s, ws[0]);
    assert ws[..|ws|] == ws && ws[0..] == ws;
    AllDrain(p, ws, x);
    assert Commands(p, ws[..0]) == [];
    NextMoves(p, ws, x, 0);
    ScheduleFrame(p, x);
    StepKeepsIntact(p, s, Cycle);
    now := Step(p, s, Cycle).value;
  }

  lemma LineIsEmpty(p: Config, ws: seq<nat>, s: Channel)
    requires ws != [] && s.cq.queues == OneLine(p, Home(p, ws[0]), [])
    ensures QueueEmpty(s.cq) && forall q | 0 <= q < |s.cq.queues| :: Asked(p, s.dev, s.cq, q).NotYet?
  {
    forall q | 0 <= q < |s.cq.queues|
      ensures Asked(p, s.dev, s.cq, q).NotYet?
    {
      EmptyOffersNothing(p, s.dev, s.cq.clk);
    }
  }

  lemma AllDrain(p: Config, ws: seq<nat>, s: Channel)
    requires Burst(p, ws) && s.draining == 0 && |s.writeBuf| == |ws| && QueueEmpty(s.cq)
    ensures Draining(p, s) == |ws|
  {
  }
}
