/** Runs put together step by step: a few requests, each alone in its queue, and the cycles between them. */
module Scripts {
  import opened Arithmetic
  import opened Common
  import opened Configuration
  import opened TimingSpec
  import opened Device
  import opened DeviceRuns
  import opened Scheduler
  import opened Channel
  import opened ChannelInv
  import opened ChannelSteps
  import opened Lines
  import opened ReadinessFacts
  import opened Selection
  import opened TimingLaws
  import DataBus

  // ----- readiness, read off the history

  /** A closed bank is activated for `cmd` as soon as the history allows. */
  lemma AnswerWhenClosed(p: Config, h: seq<Issued>, cmd: Command, clk: int)
    requires Legal(p, h) && p.HasLoc(cmd.Place()) && cmd.kind.IsReadWrite() && |h| < 4 && LastTime(h) <= clk && 0 <= clk
    requires cmd.Place() in After(p, h).banks && After(p, h).banks[cmd.Place()].mode == Closed
    ensures GetReady(p, After(p, h), cmd, clk) ==
            if Allowed(p, h, cmd.Place(), Activate, clk) then Ready(Command(Activate, cmd.addr, cmd.hexAddr)) else NotYet
  {
    AfterShaped(p, h);
    AllowedExactly(p, h, cmd.Place(), Activate, clk);
    DataBus.WindowTestPasses(p, h, cmd.addr.rank, clk);
  }

  /** On an open row `cmd` itself goes as soon as the history allows. */
  lemma AnswerOnRow(p: Config, h: seq<Issued>, cmd: Command, clk: int)
    requires Legal(p, h) && p.HasLoc(cmd.Place()) && cmd.kind.IsReadWrite() && 0 <= clk
    requires cmd.Place() in After(p, h).banks
    requires After(p, h).banks[cmd.Place()].mode == Open && After(p, h).banks[cmd.Place()].openRow == cmd.addr.row
    ensures GetReady(p, After(p, h), cmd, clk) == if Allowed(p, h, cmd.Place(), cmd.kind, clk) then Ready(cmd) else NotYet
  {
    AfterShaped(p, h);
    AllowedExactly(p, h, cmd.Place(), cmd.kind, clk);
  }

  // ----- the round robin

  function Asked(p: Config, d: Device, cq: CommandQueue, q: int): Readiness
    requires 0 <= q < |cq.queues|
  {
    FirstReady(p, d, cq.queues[q], 0, cq.clk)
  }

  ghost predicate Turning(p: Config, cq: CommandQueue) {
    0 <= cq.next < QueueCount(p) == |cq.queues| && !cq.inRef
  }

  /** The queues that have nothing to offer are passed over. */
  lemma {:induction false} VisitSkips(p: Config, d: Device, cq: CommandQueue, left: nat, k: nat)
    requires Turning(p, cq) && k <= left && left <= QueueCount(p)
    requires forall j: int | 1 <= j <= k :: Asked(p, d, cq, Ahead(QueueCount(p), cq.next, j)).NotYet?
    ensures Visit(p, d, cq, left) == Visit(p, d, cq.(next := Ahead(QueueCount(p), cq.next, k)), left - k)
    decreases k
  {
    if k > 0 {
      var n := QueueCount(p);
      var at := cq.(next := NextIndex(p, cq.next));
      assert at.next == Ahead(n, cq.next, 1) && Asked(p, d, cq, Ahead(n, cq.next, 1)).NotYet?;
      forall j: int | 1 <= j <= k - 1
        ensures Asked(p, d, at, Ahead(n, at.next, j)).NotYet?
      {
        assert Ahead(n, at.next, j) == Ahead(n, cq.next, j + 1);
        assert Asked(p, d, cq, Ahead(n, cq.next, j + 1)).NotYet?;
      }
      VisitSkips(p, d, at, left - 1, k - 1);
    }
  }

  lemma NothingOffered(p: Config, d: Device, cq: CommandQueue)
    requires Turning(p, cq) && forall q | 0 <= q < |cq.queues| :: Asked(p, d, cq, q).NotYet?
    ensures GetCommandToIssue(p, d, cq) == Choice(NotYet, cq)
  {
    VisitSkips(p, d, cq, QueueCount(p), QueueCount(p));
  }

  /** The first queue in turn that has something to offer is served. */
  lemma OfferTaken(p: Config, d: Device, cq: CommandQueue, q: int)
    requires Turning(p, cq) && 0 <= q < |cq.queues| && Asked(p, d, cq, q).Ready?
    requires forall r | 0 <= r < |cq.queues| && r != q && (q <= cq.next ==> r <= q || r > cq.next) && (q > cq.next ==> cq.next < r <= q) ::
               Asked(p, d, cq, r).NotYet?
    ensures GetCommandToIssue(p, d, cq) == Taken(p, cq.(next := q), Asked(p, d, cq, q).cmd)
  {
    var n := QueueCount(p);
    var k := if q > cq.next then q - cq.next else q - cq.next + n;
    forall j: int | 1 <= j <= k - 1
      ensures Asked(p, d, cq, Ahead(n, cq.next, j)).NotYet?
    {
      var r := Ahead(n, cq.next, j);
      assert 0 <= r < n && r != q;
    }
    VisitSkips(p, d, cq, n, k - 1);
    var at := cq.(next := Ahead(n, cq.next, k - 1));
    assert NextIndex(p, at.next) == q && at.(next := q) == cq.(next := q);
  }

  // ----- channels with at most one command in each queue

  function Filled(p: Config, items: map<int, Command>): (queues: seq<seq<Command>>)
    ensures |queues| == QueueCount(p)
    ensures forall q | 0 <= q < |queues| :: queues[q] == if q in items then [items[q]] else []
  {
    seq(QueueCount(p), q => if q in items then [items[q]] else [])
  }

  /**
    All of a channel that decides how it goes on, when nothing waits outside the command queues: clock, issued
    commands, queues and the round robin's place.
   */
  ghost predicate Scene(p: Config, s: Channel, clk: int, h: seq<Issued>, queues: seq<seq<Command>>, next: int) {
    Intact(p, s) && s.clk == clk && s.timer.clk == clk && s.refreshQ == [] && s.trace.hist == h && s.cq.queues == queues && s.cq.next == next &&
    s.unified == [] && s.readQ == [] && s.writeBuf == [] && s.draining == 0
  }

  /** ... with at most one command in each queue. */
  ghost predicate View(p: Config, s: Channel, clk: int, h: seq<Issued>, items: map<int, Command>, next: int) {
    Scene(p, s, clk, h, Filled(p, items), next)
  }

  lemma SceneHolds(p: Config, s: Channel, clk: int, h: seq<Issued>, queues: seq<seq<Command>>, next: int)
    requires Scene(p, s, clk, h, queues, next)
    ensures Legal(p, h) && s.dev == After(p, h) && LastTime(h) <= clk && 0 <= clk && s.cq.clk == clk && Turning(p, s.cq) && QueuesOk(p, s.cq.queues)
  {
  }

  lemma ViewHolds(p: Config, s: Channel, clk: int, h: seq<Issued>, items: map<int, Command>, next: int)
    requires View(p, s, clk, h, items, next)
    ensures Legal(p, h) && s.dev == After(p, h) && LastTime(h) <= clk && 0 <= clk && s.cq.clk == clk && Turning(p, s.cq) && QueuesOk(p, s.cq.queues)
  {
  }

  /** None of the queued commands has anything to issue at `clk`. */
  ghost predicate Silent(p: Config, d: Device, items: map<int, Command>, clk: int) {
    forall q | q in items :: GetReady(p, d, items[q], clk).NotYet?
  }

  lemma AskedOne(p: Config, d: Device, cq: CommandQueue, items: map<int, Command>, q: int)
    requires cq.queues == Filled(p, items) && 0 <= q < |cq.queues|
    ensures q !in items ==> Asked(p, d, cq, q).NotYet?
    ensures q in items && GetReady(p, d, items[q], cq.clk).NotYet? ==> Asked(p, d, cq, q).NotYet?
    ensures q in items && GetReady(p, d, items[q], cq.clk).Ready? && !GetReady(p, d, items[q], cq.clk).cmd.kind.Precharge? ==>
              Asked(p, d, cq, q) == GetReady(p, d, items[q], cq.clk)
  {
    if q in items {
      assert cq.queues[q] == [items[q]];
      assert FirstReady(p, d, [items[q]], 1, cq.clk).NotYet?;
    }
  }

  // ----- cycles

  /** A cycle in which nothing is issued. */
  lemma IdleCycle(p: Config, s: Channel)
    requires s.refreshQ == [] && !RefreshDue(p, s.timer.clk) && GetCommandToIssue(p, s.dev, s.cq) == Choice(NotYet, s.cq)
    ensures !Drops(p, s) && Step(p, s, Cycle) == Some(Advance(Schedule(p, RefreshTick(p, DrainDone(s)))))
  {
    hide GetCommandToIssue;
    var asked := RefreshTick(p, DrainDone(s));
    assert asked.(cq := s.cq) == asked;
  }

  /** Nothing to schedule. */
  lemma NothingWaits(p: Config, s: Channel)
    requires s.unified == [] && s.readQ == [] && s.writeBuf == [] && s.draining == 0
    ensures Schedule(p, s) == s
  {
  }

  /** No queue has anything to offer at `clk`. */
  ghost predicate Quiet(p: Config, d: Device, queues: seq<seq<Command>>, clk: int) {
    forall q | 0 <= q < |queues| :: FirstReady(p, d, queues[q], 0, clk).NotYet?
  }

  lemma IdleScene(p: Config, s: Channel, clk: int, h: seq<Issued>, queues: seq<seq<Command>>, next: int) returns (now: Channel)
    requires Usable(p) && Scene(p, s, clk, h, queues, next) && Quiet(p, s.dev, queues, clk) && !RefreshDue(p, s.timer.clk)
    ensures Step(p, s, Cycle) == Some(now) && Scene(p, now, clk + 1, h, queues, next)
  {
    hide Intact, Drops;
    SceneHolds(p, s, clk, h, queues, next);
    NothingOffered(p, s.dev, s.cq);
    IdleCycle(p, s);
    NothingWaits(p, RefreshTick(p, DrainDone(s)));
    StepKeepsIntact(p, s, Cycle);
    now := Step(p, s, Cycle).value;
  }

  /** Cycles without refreshes up to `end`, in which no queue has anything to offer. */
  ghost predicate QuietUntil(p: Config, d: Device, queues: seq<seq<Command>>, from: int, end: int) {
    forall t: nat | from <= t < end :: !RefreshDue(p, t) && Quiet(p, d, queues, t)
  }

  lemma {:induction false} WaitScene(p: Config, es: seq<Event>, s: Channel, clk: int, h: seq<Issued>, queues: seq<seq<Command>>, next: int, end: int)
    returns (fs: seq<Event>, now: Channel)
    requires Usable(p) && Run(p, es) == Some(s) && Scene(p, s, clk, h, queues, next)
    requires clk <= end && QuietUntil(p, s.dev, queues, clk, end)
    ensures Run(p, fs) == Some(now) && Scene(p, now, end, h, queues, next) && now.dev == s.dev
    decreases end - clk
  {
    hide Intact, Quiet, Step;
    SceneHolds(p, s, clk, h, queues, next);
    if clk == end {
      fs, now := es, s;
    } else {
      var t: nat := clk;
      assert !RefreshDue(p, t) && Quiet(p, s.dev, queues, t);
      var one := IdleScene(p, s, clk, h, queues, next);
      OneMore(p, es, s, Cycle, one);
      SceneHolds(p, one, clk + 1, h, queues, next);
      fs, now := WaitScene(p, es + [Cycle], one, clk + 1, h, queues, next, end);
    }
  }

  /** Cycles without refreshes up to `end`, in which no queued command gets ready. */
  ghost predicate SilentUntil(p: Config, d: Device, items: map<int, Command>, from: int, end: int) {
    forall t: nat | from <= t < end :: !RefreshDue(p, t) && Silent(p, d, items, t)
  }

  lemma SilentIsQuiet(p: Config, d: Device, items: map<int, Command>, clk: int)
    requires Silent(p, d, items, clk)
    ensures Quiet(p, d, Filled(p, items), clk)
  {
    var queues := Filled(p, items);
    forall q | 0 <= q < |queues|
      ensures FirstReady(p, d, queues[q], 0, clk).NotYet?
    {
      AskedOne(p, d, CommandQueue(queues, 0, false, {}, clk), items, q);
    }
  }

  lemma WaitUntil(p: Config, es: seq<Event>, s: Channel, clk: int, h: seq<Issued>, items: map<int, Command>, next: int, end: int)
    returns (fs: seq<Event>, now: Channel)
    requires Usable(p) && Run(p, es) == Some(s) && View(p, s, clk, h, items, next)
    requires clk <= end && SilentUntil(p, s.dev, items, clk, end)
    ensures Run(p, fs) == Some(now) && View(p, now, end, h, items, next) && now.dev == s.dev
  {
    hide Scene, Silent, Quiet, Filled;
    forall t: nat | clk <= t < end
      ensures !RefreshDue(p, t) && Quiet(p, s.dev, Filled(p, items), t)
    {
      SilentIsQuiet(p, s.dev, items, t);
    }
    fs, now := WaitScene(p, es, s, clk, h, Filled(p, items), next, end);
  }

  lemma OneMore(p: Config, es: seq<Event>, s: Channel, e: Event, now: Channel)
    requires Run(p, es) == Some(s) && Step(p, s, e) == Some(now)
    ensures Run(p, es + [e]) == Some(now)
  {
    hide Step;
    assert (es + [e])[..|es|] == es;
  }

  // ----- arrivals

  /** A queue with room for a command, and one transaction at a time. */
  predicate Roomy(p: Config) {
    p.transQueueSize >= 1 && p.cmdQueueSize >= 1
  }

  /** Only `t` waits outside the command queues. */
  predicate OneWaits(p: Config, s: Channel, t: Transaction) {
    s.draining == 0 && s.writeBuf == [] &&
    if p.unifiedQueue then s.unified == [t] && s.readQ == [] else s.unified == [] && s.readQ == [t] && !t.isWrite
  }

  /** An address whose queue is empty, with nothing waiting, is not pending. */
  lemma NotPending(p: Config, s: Channel, clk: int, h: seq<Issued>, items: map<int, Command>, next: int, a: nat)
    requires Usable(p) && Roomy(p) && View(p, s, clk, h, items, next) && Home(p, a) !in items
    ensures 0 <= Home(p, a) < QueueCount(p) && a !in s.pendingRd && a !in s.pendingWr
  {
    HomeInRange(p, Target(p, a));
    assert Line(p, s.cq.queues, [], Home(p, a)) == [];
    assert multiset(Line(p, s.cq.queues, [], Home(p, a)))[TransToCommand(p, a, false)] == 0;
    assert multiset(Line(p, s.cq.queues, [], Home(p, a)))[TransToCommand(p, a, true)] == 0;
  }

  lemma Arrived(p: Config, s: Channel, a: nat, isWrite: bool)
    requires Roomy(p) && (p.unifiedQueue || !isWrite) && a !in s.pendingRd && a !in s.pendingWr
    requires s.unified == [] && s.readQ == [] && s.writeBuf == [] && s.draining == 0
    ensures var t := Transaction(|s.trace.log|, a, s.clk, 0, isWrite);
            Step(p, s, Arrive(a, isWrite)).Some? &&
            var now := Step(p, s, Arrive(a, isWrite)).value;
            OneWaits(p, now, t) && now.draining == s.draining && now.dev == s.dev && now.cq == s.cq && now.refreshQ == s.refreshQ && now.timer == s.timer &&
            now.clk == s.clk && now.trace.hist == s.trace.hist
  {
  }

  /** The queues once `cmd` is added to queue `q`. */
  function Joined(queues: seq<seq<Command>>, q: int, cmd: Command): seq<seq<Command>>
    requires 0 <= q < |queues|
  {
    queues[q := queues[q] + [cmd]]
  }

  /** The one transaction waiting becomes a command. */
  lemma OneMoves(p: Config, s: Channel, t: Transaction)
    requires OneWaits(p, s, t) && 0 <= Home(p, t.addr) < |s.cq.queues| && |s.cq.queues[Home(p, t.addr)]| < p.cmdQueueSize
    ensures Schedule(p, s) ==
            s.(unified := [], readQ := [], cq := s.cq.(queues := Joined(s.cq.queues, Home(p, t.addr), TransToCommand(p, t.addr, t.isWrite))))
  {
    var cmd := TransToCommand(p, t.addr, t.isWrite);
    assert WillAcceptCommand(p, s.cq, cmd.Place());
    assert Draining(p, s) == 0;
    assert TransQueue(p, s, false) == [t] && FirstAcceptable(p, s.cq, [t], 0) == 0;
    assert [t][..0] + [t][1..] == [];
  }

  lemma EnteringCycle(p: Config, s: Channel, t: Transaction)
    requires OneWaits(p, s, t) && s.refreshQ == [] && !RefreshDue(p, s.timer.clk) && Turning(p, s.cq) && Quiet(p, s.dev, s.cq.queues, s.cq.clk)
    requires 0 <= Home(p, t.addr) < |s.cq.queues| && |s.cq.queues[Home(p, t.addr)]| < p.cmdQueueSize
    ensures !Drops(p, s) && Step(p, s, Cycle).Some?
    ensures var now := Step(p, s, Cycle).value;
            now.clk == s.clk + 1 && now.timer.clk == s.timer.clk + 1 && now.refreshQ == [] && now.trace.hist == s.trace.hist &&
            now.unified == [] && now.readQ == [] && now.writeBuf == [] && now.draining == 0 && now.dev == s.dev &&
            now.cq.queues == Joined(s.cq.queues, Home(p, t.addr), TransToCommand(p, t.addr, t.isWrite)) && now.cq.next == s.cq.next
  {
    hide Drops, Joined, Home, TransToCommand, Schedule;
    NothingOffered(p, s.dev, s.cq);
    IdleCycle(p, s);
    OneMoves(p, RefreshTick(p, DrainDone(s)), t);
  }

  /** A request comes in and is queued in the same cycle; with separate queues, a read. */
  lemma EnterScene(p: Config, es: seq<Event>, s: Channel, clk: int, h: seq<Issued>, queues: seq<seq<Command>>, next: int, a: nat, isWrite: bool)
    returns (fs: seq<Event>, now: Channel)
    requires Usable(p) && Roomy(p) && (p.unifiedQueue || !isWrite) && Run(p, es) == Some(s) && Scene(p, s, clk, h, queues, next)
    requires Quiet(p, s.dev, queues, clk) && !RefreshDue(p, s.timer.clk) && a !in s.pendingRd && a !in s.pendingWr
    requires 0 <= Home(p, a) < |queues| && |queues[Home(p, a)]| < p.cmdQueueSize
    ensures Run(p, fs) == Some(now) && now.dev == s.dev
    ensures Scene(p, now, clk + 1, h, Joined(queues, Home(p, a), TransToCommand(p, a, isWrite)), next)
  {
    hide Intact, Quiet, Drops, Step, Home, Joined, TransToCommand, Usable;
    SceneHolds(p, s, clk, h, queues, next);
    Arrived(p, s, a, isWrite);
    StepKeepsIntact(p, s, Arrive(a, isWrite));
    var mid := Step(p, s, Arrive(a, isWrite)).value;
    OneMore(p, es, s, Arrive(a, isWrite), mid);
    EnteringCycle(p, mid, Transaction(|s.trace.log|, a, s.clk, 0, isWrite));
    StepKeepsIntact(p, mid, Cycle);
    now := Step(p, mid, Cycle).value;
    OneMore(p, es + [Arrive(a, isWrite)], mid, Cycle, now);
    fs := es + [Arrive(a, isWrite)] + [Cycle];
  }

  lemma Enter(p: Config, es: seq<Event>, s: Channel, clk: int, h: seq<Issued>, items: map<int, Command>, next: int, a: nat, isWrite: bool)
    returns (fs: seq<Event>, now: Channel)
    requires Usable(p) && Roomy(p) && (p.unifiedQueue || !isWrite) && Run(p, es) == Some(s) && View(p, s, clk, h, items, next)
    requires Home(p, a) !in items && Silent(p, s.dev, items, clk) && !RefreshDue(p, s.timer.clk)
    ensures 0 <= Home(p, a) < QueueCount(p) && now.dev == s.dev
    ensures Run(p, fs) == Some(now) && View(p, now, clk + 1, h, items[Home(p, a) := TransToCommand(p, a, isWrite)], next)
  {
    hide Scene, Silent, Home, TransToCommand, Usable, Quiet;
    NotPending(p, s, clk, h, items, next, a);
    SilentIsQuiet(p, s.dev, items, clk);
    fs, now := EnterScene(p, es, s, clk, h, Filled(p, items), next, a, isWrite);
    var before, after := Joined(Filled(p, items), Home(p, a), TransToCommand(p, a, isWrite)), Filled(p, items[Home(p, a) := TransToCommand(p, a, isWrite)]);
    assert forall q | 0 <= q < |after| :: before[q] == after[q];
    assert before == after;
  }

  // ----- issues

  lemma IssuedIs(p: Config, s: Channel, cmd: Command, one: Channel)
    requires IssueCommand(p, s, cmd) == Some(one) && !cmd.kind.IsRefresh()
    ensures one.cq == s.cq && one.clk == s.clk && one.timer == s.timer && one.refreshQ == s.refreshQ
    ensures one.unified == s.unified && one.readQ == s.readQ && one.writeBuf == s.writeBuf && one.draining == s.draining
    ensures one.trace.hist == s.trace.hist + [Issued(cmd, s.clk)] && Issue(p, s.dev, cmd, s.clk) == Some(one.dev)
  {
  }

  /** A cycle whose first choice is issued and whose second, if there is one, finds nothing. */
  lemma IssuingCycle(p: Config, s: Channel, cmd: Command, cq: CommandQueue, one: Channel)
    requires s.refreshQ == [] && !RefreshDue(p, s.timer.clk) && GetCommandToIssue(p, s.dev, s.cq) == Choice(Ready(cmd), cq)
    requires IssueCommand(p, RefreshTick(p, DrainDone(s)).(cq := cq), cmd) == Some(one)
    requires p.dualCommand ==> GetCommandToIssue(p, one.dev, one.cq) == Choice(NotYet, one.cq)
    ensures !Drops(p, s) && Step(p, s, Cycle) == Some(Advance(Schedule(p, one)))
  {
    hide GetCommandToIssue, IssueCommand;
    assert one.(cq := one.cq) == one;
  }

  /** The cycle of an invariant state that issues `cmd`. */
  lemma CommandGoes(p: Config, s: Channel, cmd: Command, cq: CommandQueue) returns (one: Channel)
    requires Usable(p) && Intact(p, s) && s.refreshQ == [] && !RefreshDue(p, s.timer.clk) && GetCommandToIssue(p, s.dev, s.cq) == Choice(Ready(cmd), cq)
    ensures IssueCommand(p, RefreshTick(p, DrainDone(s)).(cq := cq), cmd) == Some(one) && Intact(p, one)
  {
    DrainKeepsInv(p, s);
    RefreshTickKeepsInv(p, DrainDone(s));
    hide Intact, GetCommandToIssue, Chosen, RefreshChoice;
    var asked := RefreshTick(p, DrainDone(s));
    one := ChosenGoes(p, asked, cmd, cq);
  }

  lemma ChosenGoes(p: Config, s: Channel, cmd: Command, cq: CommandQueue) returns (one: Channel)
    requires Usable(p) && Intact(p, s) && s.refreshQ == [] && GetCommandToIssue(p, s.dev, s.cq) == Choice(Ready(cmd), cq)
    ensures IssueCommand(p, s.(cq := cq), cmd) == Some(one) && Intact(p, one)
  {
    FirstChoice(p, s);
    IssueKeepsInv(p, s, ChooseFirst(p, s));
    hide Intact, GetCommandToIssue;
    one := IssueChoice(p, s, ChooseFirst(p, s)).value;
  }

  function Remaining(items: map<int, Command>, q: int, cmd: Command): map<int, Command> {
    if cmd.kind.IsReadWrite() then items - {q} else items
  }

  /** The queue of the only command that is ready is served. */
  lemma OneServed(p: Config, s: Channel, clk: int, h: seq<Issued>, items: map<int, Command>, next: int, q: int, cmd: Command)
    requires View(p, s, clk, h, items, next) && 0 <= q < QueueCount(p) && q in items && GetReady(p, s.dev, items[q], clk) == Ready(cmd)
    requires cmd.kind.Activate? || (cmd == items[q] && cmd.kind.IsReadWrite())
    requires forall r | r in items && r != q && (q <= next ==> r <= q || r > next) && (q > next ==> next < r <= q) :: GetReady(p, s.dev, items[r], clk).NotYet?
    ensures GetCommandToIssue(p, s.dev, s.cq) == Choice(Ready(cmd), s.cq.(queues := Filled(p, Remaining(items, q, cmd)), next := q))
  {
    hide Intact, GetReady, FirstReady, QueuesOk;
    ViewHolds(p, s, clk, h, items, next);
    forall r | 0 <= r < |s.cq.queues|
      ensures r != q && (q <= next ==> r <= q || r > next) && (q > next ==> next < r <= q) ==> Asked(p, s.dev, s.cq, r).NotYet?
    {
      AskedOne(p, s.dev, s.cq, items, r);
    }
    AskedOne(p, s.dev, s.cq, items, q);
    OfferTaken(p, s.dev, s.cq, q);
    TakenIs(p, s.cq.(next := q), items, q, cmd);
  }

  lemma TakenIs(p: Config, cq: CommandQueue, items: map<int, Command>, q: int, cmd: Command)
    requires QueuesOk(p, cq.queues) && cq.queues == Filled(p, items) && 0 <= q < QueueCount(p) && q in items
    requires cmd.kind.Activate? || (cmd == items[q] && cmd.kind.IsReadWrite())
    ensures Taken(p, cq, cmd) == Choice(Ready(cmd), cq.(queues := Filled(p, Remaining(items, q, cmd))))
  {
    if cmd.kind.IsReadWrite() {
      assert cq.queues[q] == [cmd] && QueueOk(p, cq.queues[q], q) && cmd in cq.queues[q];
      assert QueueIndex(p, cmd.Place()) == q;
      assert [cmd][1..] == [] && Erased([cmd], cmd) == Some([]);
      var before, after := cq.queues[q := []], Filled(p, items - {q});
      assert forall r | 0 <= r < |after| :: before[r] == after[r];
      assert before == after;
    }
  }

  /** The command chosen is issued, and no other in the same cycle. */
  lemma GoScene(p: Config, es: seq<Event>, s: Channel, clk: int, h: seq<Issued>, queues: seq<seq<Command>>, next: int, cmd: Command, cq: CommandQueue)
    returns (fs: seq<Event>, now: Channel)
    requires Usable(p) && Run(p, es) == Some(s) && Scene(p, s, clk, h, queues, next) && !RefreshDue(p, s.timer.clk)
    requires GetCommandToIssue(p, s.dev, s.cq) == Choice(Ready(cmd), cq) && !cmd.kind.IsRefresh() && Turning(p, cq)
    requires p.dualCommand && Issue(p, s.dev, cmd, clk).Some? ==> Quiet(p, Issue(p, s.dev, cmd, clk).value, cq.queues, cq.clk)
    ensures Run(p, fs) == Some(now) && Scene(p, now, clk + 1, h + [Issued(cmd, clk)], cq.queues, cq.next)
  {
    hide Intact, Drops, Step, Usable, Issue, GetCommandToIssue, IssueCommand, Quiet, Schedule, Run;
    var one := CommandGoes(p, s, cmd, cq);
    IssuedIs(p, RefreshTick(p, DrainDone(s)).(cq := cq), cmd, one);
    if p.dualCommand {
      QuietOffersNothing(p, one.dev, one.cq);
    }
    IssuingCycle(p, s, cmd, cq, one);
    NothingWaits(p, one);
    StepKeepsIntact(p, s, Cycle);
    now := Step(p, s, Cycle).value;
    OneMore(p, es, s, Cycle, now);
    fs := es + [Cycle];
  }

  lemma QuietOffersNothing(p: Config, d: Device, cq: CommandQueue)
    requires Turning(p, cq) && Quiet(p, d, cq.queues, cq.clk)
    ensures GetCommandToIssue(p, d, cq) == Choice(NotYet, cq)
  {
    NothingOffered(p, d, cq);
  }

  /** The only command that is ready is issued, and nothing is ready after it in the same cycle. */
  lemma Go(p: Config, es: seq<Event>, s: Channel, clk: int, h: seq<Issued>, items: map<int, Command>, next: int, q: int, cmd: Command)
    returns (fs: seq<Event>, now: Channel)
    requires Usable(p) && Run(p, es) == Some(s) && View(p, s, clk, h, items, next) && !RefreshDue(p, s.timer.clk)
    requires 0 <= q < QueueCount(p) && q in items && GetReady(p, s.dev, items[q], clk) == Ready(cmd)
    requires cmd.kind.Activate? || (cmd == items[q] && cmd.kind.IsReadWrite())
    requires forall r | r in items && r != q :: GetReady(p, s.dev, items[r], clk).NotYet?
    requires p.dualCommand && Issue(p, s.dev, cmd, clk).Some? ==> Silent(p, Issue(p, s.dev, cmd, clk).value, Remaining(items, q, cmd), clk)
    ensures Run(p, fs) == Some(now) && View(p, now, clk + 1, h + [Issued(cmd, clk)], Remaining(items, q, cmd), q)
  {
    hide Intact, Filled, Usable, GetReady, Issue, GetCommandToIssue, Remaining, Silent, Quiet;
    ViewHolds(p, s, clk, h, items, next);
    OneServed(p, s, clk, h, items, next, q, cmd);
    var cq := s.cq.(queues := Filled(p, Remaining(items, q, cmd)), next := q);
    if p.dualCommand && Issue(p, s.dev, cmd, clk).Some? {
      SilentIsQuiet(p, Issue(p, s.dev, cmd, clk).value, Remaining(items, q, cmd), clk);
    }
    fs, now := GoScene(p, es, s, clk, h, Filled(p, items), next, cmd, cq);
  }

  // ----- serving one request alone

  /** The commands that serve a read and a write of address `a`. */
  function ReadOf(p: Config, a: nat): Command {
    TransToCommand(p, a, false)
  }

  function WriteOf(p: Config, a: nat): Command {
    TransToCommand(p, a, true)
  }

  lemma RowIsOpen(p: Config, h: seq<Issued>, l: Loc, i: int)
    requires Legal(p, h) && p.HasLoc(l) && OpenSince(h, l, i)
    ensures l in After(p, h).banks && After(p, h).banks[l].mode == Open && After(p, h).banks[l].openRow == h[i].cmd.addr.row
  {
    OpenExactlySinceActivate(p, h, l);
  }

  lemma RowIsClosed(p: Config, s: Channel, h: seq<Issued>, l: Loc)
    requires Intact(p, s) && s.trace.hist == h && p.HasLoc(l) && !exists i :: OpenSince(h, l, i)
    ensures Legal(p, h) && s.dev == After(p, h) && l in s.dev.banks && s.dev.banks[l].mode == Closed
  {
    OpenExactlySinceActivate(p, h, l);
  }

  function Activation(cmd: Command): Command {
    Command(Activate, cmd.addr, cmd.hexAddr)
  }

  /** Cycles from `from` to `end` in which no refresh is asked for. */
  ghost predicate Unrefreshed(p: Config, from: int, end: int) {
    forall t: nat | from <= t <= end :: !RefreshDue(p, t)
  }

  /** A command alone in the channel has its bank activated at `act`. */
  lemma Activated(p: Config, es: seq<Event>, s: Channel, clk: int, h: seq<Issued>, next: int, q: int, cmd: Command, act: int)
    returns (fs: seq<Event>, now: Channel)
    requires Usable(p) && Run(p, es) == Some(s) && View(p, s, clk, h, map[q := cmd], next) && |h| < 4
    requires 0 <= q < QueueCount(p) && cmd.kind.IsReadWrite() && p.HasLoc(cmd.Place()) && !exists i :: OpenSince(h, cmd.Place(), i)
    requires clk <= act && Unrefreshed(p, clk, act)
    requires forall t: int | clk <= t <= act :: Allowed(p, h, cmd.Place(), Activate, t) <==> t == act
    requires p.dualCommand ==> !Allowed(p, h + [Issued(Activation(cmd), act)], cmd.Place(), cmd.kind, act)
    ensures Run(p, fs) == Some(now) && View(p, now, act + 1, h + [Issued(Activation(cmd), act)], map[q := cmd], q)
  {
    hide Drops, Step, Filled, Usable, GetReady, Issue, Allowed, Intact;
    var items := map[q := cmd];
    ViewHolds(p, s, clk, h, items, next);
    RowIsClosed(p, s, h, cmd.Place());
    forall t: nat | clk <= t < act
      ensures !RefreshDue(p, t) && Silent(p, s.dev, items, t)
    {
      AnswerWhenClosed(p, h, cmd, t);
    }
    var mid;
    fs, mid := WaitUntil(p, es, s, clk, h, items, next, act);
    AnswerWhenClosed(p, h, cmd, act);
    if p.dualCommand && Issue(p, s.dev, Activation(cmd), act).Some? {
      SecondWaits(p, mid, act, h, items, next, q, cmd);
    }
    fs, now := Go(p, fs, mid, act, h, items, next, q, Activation(cmd));
  }

  /** The column access does not follow its activation in the same cycle. */
  lemma SecondWaits(p: Config, s: Channel, act: int, h: seq<Issued>, items: map<int, Command>, next: int, q: int, cmd: Command)
    requires Usable(p) && View(p, s, act, h, items, next) && items == map[q := cmd] && cmd.kind.IsReadWrite() && p.HasLoc(cmd.Place())
    requires GetReady(p, s.dev, cmd, act) == Ready(Activation(cmd)) && Issue(p, s.dev, Activation(cmd), act).Some?
    requires !Allowed(p, h + [Issued(Activation(cmd), act)], cmd.Place(), cmd.kind, act)
    ensures Silent(p, Issue(p, s.dev, Activation(cmd), act).value, items, act)
  {
    hide Allowed, GetReady, Legal, Intact, Issue;
    ViewHolds(p, s, act, h, items, next);
    var g := h + [Issued(Activation(cmd), act)];
    GoesOn(p, s, h, cmd, Activation(cmd), act);
    assert OpenSince(g, cmd.Place(), |h|);
    RowIsOpen(p, g, cmd.Place(), |h|);
    AnswerOnRow(p, g, cmd, act);
  }

  /** The history goes on with what the device answers. */
  lemma GoesOn(p: Config, s: Channel, h: seq<Issued>, cmd: Command, c: Command, clk: int)
    requires Intact(p, s) && s.trace.hist == h && LastTime(h) <= clk && 0 <= clk && cmd.kind.IsReadWrite() && p.HasLoc(cmd.Place())
    requires GetReady(p, s.dev, cmd, clk) == Ready(c) && Issue(p, s.dev, c, clk).Some?
    ensures var g := h + [Issued(c, clk)]; Legal(p, g) && After(p, g) == Issue(p, s.dev, c, clk).value
  {
    ReadWriteReady(p, s.dev, cmd, clk);
    var g := h + [Issued(c, clk)];
    assert g[..|g| - 1] == h;
  }

  /** A command alone in the channel, its row open, is issued at `col`. */
  lemma Accessed(p: Config, es: seq<Event>, s: Channel, clk: int, h: seq<Issued>, next: int, q: int, cmd: Command, i: int, col: int)
    returns (fs: seq<Event>, now: Channel)
    requires Usable(p) && Run(p, es) == Some(s) && View(p, s, clk, h, map[q := cmd], next)
    requires 0 <= q < QueueCount(p) && cmd.kind.IsReadWrite() && p.HasLoc(cmd.Place())
    requires OpenSince(h, cmd.Place(), i) && h[i].cmd.addr.row == cmd.addr.row
    requires clk <= col && Unrefreshed(p, clk, col)
    requires forall t: int | clk <= t <= col :: Allowed(p, h, cmd.Place(), cmd.kind, t) <==> t == col
    ensures Run(p, fs) == Some(now) && View(p, now, col + 1, h + [Issued(cmd, col)], map[], q)
  {
    hide Drops, Step, Filled, Usable, GetReady, Issue, Allowed, Intact;
    var items := map[q := cmd];
    ViewHolds(p, s, clk, h, items, next);
    RowIsOpen(p, h, cmd.Place(), i);
    forall t: nat | clk <= t < col
      ensures !RefreshDue(p, t) && Silent(p, s.dev, items, t)
    {
      AnswerOnRow(p, h, cmd, t);
    }
    var mid;
    fs, mid := WaitUntil(p, es, s, clk, h, items, next, col);
    AnswerOnRow(p, h, cmd, col);
    assert Remaining(items, q, cmd) == map[];
    fs, now := Go(p, fs, mid, col, h, items, next, q, cmd);
  }

  lemma FreshView(p: Config)
    requires Usable(p)
    ensures Run(p, []) == Some(NewChannel(p)) && View(p, NewChannel(p), 0, [], map[], 0)
  {
    NewChannelInv(p);
    var empty := Filled(p, map[]);
    assert NewChannel(p).cq.queues == empty;
  }

  // ----- small facts

  lemma SameBankBound(p: Config, c: Issued, l: Loc, k: CommandType)
    requires Timed(p) && c.cmd.Place() == l && !c.cmd.kind.IsRankCommand()
    ensures Bound(p, c, l, k) == match SameBankDelay(p, c.cmd.kind, k) case None => None case Some(d) => Some(c.at + d)
  {
    assert Listed(p.delays, SameBank, c.cmd.kind, k) == Delay(p, SameBank, c.cmd.kind, k);
  }

  lemma FewRefreshes(p: Config, from: int, end: int)
    requires RefreshInterval(p) > end
    ensures Unrefreshed(p, from, end)
  {
    hide RefreshInterval;
    forall t: nat | from <= t <= end
      ensures !RefreshDue(p, t)
    {
      QuotientUnique(t, RefreshInterval(p), 0, t);
    }
  }

  lemma NothingQueued(p: Config, s: Channel, clk: int, h: seq<Issued>, next: int)
    requires View(p, s, clk, h, map[], next)
    ensures s.timer.clk == clk && Silent(p, s.dev, map[], clk) && clk >= 0
  {
  }

  lemma NothingIssued(p: Config, l: Loc, k: CommandType, t: int)
    ensures Allowed(p, [], l, k, t)
  {
  }

  lemma NoneSilent(p: Config, d: Device, t: int)
    ensures Silent(p, d, map[], t)
  {
  }

  lemma HistoryIs(p: Config, s: Channel, clk: int, h: seq<Issued>, items: map<int, Command>, next: int)
    requires View(p, s, clk, h, items, next)
    ensures s.trace.hist == h
  {
  }

  lemma OtherRankBound(p: Config, c: Issued, l: Loc, k: CommandType)
    requires Timed(p) && c.cmd.addr.rank != l.rank && !c.cmd.kind.IsRankCommand()
    ensures Bound(p, c, l, k) == match Cross(p).Between(c.cmd.kind, k) case None => None case Some(d) => Some(c.at + d)
  {
    assert Listed(p.delays, OtherRank, c.cmd.kind, k) == Delay(p, OtherRank, c.cmd.kind, k);
  }

  lemma TimerIs(p: Config, s: Channel, clk: int, h: seq<Issued>, items: map<int, Command>, next: int)
    requires View(p, s, clk, h, items, next)
    ensures s.timer.clk == clk && s.clk == clk
  {
  }
}
