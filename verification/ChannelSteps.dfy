/** The invariant of a channel through every step it can take. */
module ChannelSteps {
  import opened Common
  import opened Configuration
  import opened TimingSpec
  import opened Device
  import opened DeviceRuns
  import opened ReadinessFacts
  import opened Scheduler
  import opened Channel
  import opened ChannelInv
  import opened Lines

  /** Pending maps hold nonempty groups of logged requests to their address. */
  ghost predicate MapsOk(log: seq<Request>, rd: map<int, seq<Transaction>>, wr: map<int, seq<Transaction>>) {
    (forall a | a in rd :: a >= 0 && GroupOk(log, rd[a], a)) && forall a | a in wr :: a >= 0
  }

  ghost predicate GroupOk(log: seq<Request>, ts: seq<Transaction>, a: int) {
    ts != [] && forall t | t in ts :: t.addr == a && !t.isWrite && t.id < |log| && log[t.id].addr == a && !log[t.id].isWrite
  }

  /** With separate queues, no write is queued for an address with pending reads. */
  ghost predicate WritesAfterReads(p: Config, queues: seq<seq<Command>>, rd: map<int, seq<Transaction>>) {
    p.unifiedQueue || forall q, i | 0 <= q < |queues| && 0 <= i < |queues[q]| && queues[q][i].kind.IsWrite() :: queues[q][i].hexAddr !in rd
  }

  /** Addresses with an entry in the queues: those to be read and those to be written. */
  datatype Live = Live(rd: set<int>, wr: set<int>)

  /**
    The pending maps index the queues: `tr` and `tw` are the queues that reads and writes wait in. Whatever is
    live has one entry and is pending; with dual issue something pending may have lost its entry.
   */
  ghost predicate Pends(p: Config, log: seq<Request>, queues: seq<seq<Command>>, tr: seq<Transaction>, tw: seq<Transaction>,
                        rd: map<int, seq<Transaction>>, wr: map<int, seq<Transaction>>, v: Live)
  {
    MapsOk(log, rd, wr) && v.rd <= rd.Keys && v.wr <= wr.Keys &&
    Indexed(p, queues, tr, v.rd, false) && Indexed(p, queues, tw, v.wr, true) &&
    Ordered(p, queues, tr, rd) && WritesAfterReads(p, queues, rd)
  }

  ghost predicate PendingOk(p: Config, s: Channel, v: Live) {
    Pends(p, s.trace.log, s.cq.queues, TransQueue(p, s, false), TransQueue(p, s, true), s.pendingRd, s.pendingWr, v)
  }

  /** What holds in every run. */
  ghost predicate Inv(p: Config, s: Channel) {
    DeviceOk(p, s) && RestOk(p, s) && exists v :: PendingOk(p, s, v)
  }

  /** Everything pending. */
  function All(s: Channel): Live {
    Live(s.pendingRd.Keys, s.pendingWr.Keys)
  }

  /** What holds as long as no request is lost: everything pending has its entry. */
  ghost predicate Intact(p: Config, s: Channel) {
    DeviceOk(p, s) && RestOk(p, s) && PendingOk(p, s, All(s))
  }

  lemma IntactIsInv(p: Config, s: Channel)
    requires Intact(p, s)
    ensures Inv(p, s)
  {
  }

  /** What is live: everything pending, if nothing is lost. */
  lemma SomeLive(p: Config, s: Channel) returns (v: Live)
    requires Inv(p, s)
    ensures PendingOk(p, s, v) && (Intact(p, s) ==> v == All(s))
  {
    if Intact(p, s) {
      v := All(s);
    } else {
      v :| PendingOk(p, s, v);
    }
  }

  /** The pending addresses that do have an entry. */
  function LiveOf(p: Config, s: Channel): Live {
    Live(set a | a in s.pendingRd.Keys && HasEntry(p, s, a, false), set a | a in s.pendingWr.Keys && HasEntry(p, s, a, true))
  }

  predicate HasEntry(p: Config, s: Channel, a: int, isWrite: bool) {
    a >= 0 && 0 <= Home(p, a) < |s.cq.queues| &&
    TransToCommand(p, a, isWrite) in Line(p, s.cq.queues, TransQueue(p, s, isWrite), Home(p, a))
  }

  lemma EntryIs(p: Config, s: Channel, live: set<int>, a: nat, isWrite: bool)
    requires Indexed(p, s.cq.queues, TransQueue(p, s, isWrite), live, isWrite) && 0 <= Home(p, a) < |s.cq.queues|
    ensures HasEntry(p, s, a, isWrite) <==> a in live
  {
    var line, c := Line(p, s.cq.queues, TransQueue(p, s, isWrite), Home(p, a)), TransToCommand(p, a, isWrite);
    assert multiset(line)[c] == if a in live then 1 else 0;
    assert c in line <==> c in multiset(line);
  }

  lemma LiveIs(p: Config, s: Channel, v: Live)
    requires Usable(p) && RestOk(p, s) && PendingOk(p, s, v)
    ensures v == LiveOf(p, s)
  {
    hide HasEntry;
    forall a | a in s.pendingRd.Keys
      ensures HasEntry(p, s, a, false) <==> a in v.rd
    {
      HomeInRange(p, Target(p, a));
      EntryIs(p, s, v.rd, a, false);
    }
    forall a | a in s.pendingWr.Keys
      ensures HasEntry(p, s, a, true) <==> a in v.wr
    {
      HomeInRange(p, Target(p, a));
      EntryIs(p, s, v.wr, a, true);
    }
  }

  lemma InvLive(p: Config, s: Channel)
    requires Usable(p) && Inv(p, s)
    ensures PendingOk(p, s, LiveOf(p, s)) && (Intact(p, s) <==> LiveOf(p, s) == All(s))
  {
    hide Pends, LiveOf, RestOk;
    var v := SomeLive(p, s);
    LiveIs(p, s, v);
  }

  lemma {:induction false} NewChannelInv(p: Config)
    requires Usable(p)
    ensures Inv(p, NewChannel(p)) && Intact(p, NewChannel(p))
  {
    var s := NewChannel(p);
    HomeInRange(p, Loc(0, 0, 0));
    assert Legal(p, []);
    AfterShaped(p, []);
    assert forall q | 0 <= q < |s.cq.queues| :: Line(p, s.cq.queues, [], q) == [];
    assert PendingOk(p, s, All(s));
  }

  // ----- the device

  lemma DeviceAfterIssue(p: Config, s: Channel, cmd: Command)
    requires DeviceOk(p, s) && MayIssue(p, s.dev, cmd, s.clk) && !cmd.kind.SrefEnter? && !cmd.kind.SrefExit?
    ensures Issue(p, s.dev, cmd, s.clk).Some?
    ensures var h := s.trace.hist + [Issued(cmd, s.clk)];
            Legal(p, h) && After(p, h) == Issue(p, s.dev, cmd, s.clk).value && LastTime(h) == s.clk && Awake(p, After(p, h))
  {
    var c := Issued(cmd, s.clk);
    var h := s.trace.hist + [c];
    assert h[..|h| - 1] == s.trace.hist;
    AfterShaped(p, h);
    NoneSleeps(p, s.dev, c);
  }

  lemma NoneSleeps(p: Config, d: Device, c: Issued)
    requires Awake(p, d) && Accepts(d, c.cmd) && !c.cmd.kind.SrefEnter?
    ensures var now := Issue(p, d, c.cmd, c.at).value; forall l | l in now.banks :: now.banks[l].mode != SelfRefresh
  {
    forall l | l in d.banks
      ensures Issue(p, d, c.cmd, c.at).value.banks[l].mode != SelfRefresh
    {
      IssueSteps(p, d, c, l);
    }
  }

  // ----- queues and pending maps

  lemma QueuesAfterErase(p: Config, queues: seq<seq<Command>>, q: nat, i: nat)
    requires QueuesOk(p, queues) && q < |queues| && i < |queues[q]|
    ensures QueuesOk(p, queues[q := Without(queues[q], i)]) && queues[q][i].hexAddr >= 0
  {
    assert QueueOk(p, queues[q], q) && queues[q][i] in queues[q];
    assert forall c | c in Without(queues[q], i) :: c in queues[q];
  }

  /** What is live once `cmd` has left its queue. */
  function LiveAfter(v: Live, cmd: Command): Live {
    if cmd.kind.IsWrite() then Live(v.rd, v.wr - {cmd.hexAddr}) else if cmd.kind.IsRead() then Live(v.rd - {cmd.hexAddr}, v.wr) else v
  }

  /** A column access that leaves its queue leaves its pending map together, or is lost. */
  lemma PendsAfterErase(p: Config, log: seq<Request>, queues: seq<seq<Command>>, tr: seq<Transaction>, tw: seq<Transaction>,
                        rd: map<int, seq<Transaction>>, wr: map<int, seq<Transaction>>, v: Live, q: nat, i: nat)
    requires QueuesOk(p, queues) && Pends(p, log, queues, tr, tw, rd, wr, v) && q < |queues| && i < |queues[q]|
    ensures var cmd, now := queues[q][i], queues[q := Without(queues[q], i)];
            Pends(p, log, now, tr, tw, rd, wr, LiveAfter(v, cmd)) &&
            if cmd.kind.IsWrite() then cmd.hexAddr in wr && Pends(p, log, now, tr, tw, rd, wr - {cmd.hexAddr}, LiveAfter(v, cmd))
            else cmd.hexAddr in rd && Pends(p, log, now, tr, tw, rd - {cmd.hexAddr}, wr, LiveAfter(v, cmd))
  {
    var cmd, now := queues[q][i], queues[q := Without(queues[q], i)];
    assert QueueOk(p, queues[q], q) && cmd in queues[q];
    IndexedAfterErase(p, queues, tr, v.rd, false, q, i);
    IndexedAfterErase(p, queues, tw, v.wr, true, q, i);
    OrderedAfterErase(p, queues, tr, rd, q, i, cmd.hexAddr);
    forall x, y | 0 <= x < |now| && 0 <= y < |now[x]|
      ensures exists z :: 0 <= z < |queues[x]| && queues[x][z] == now[x][y]
    {
      assert now[x][y] == queues[x][if x == q && y >= i then y + 1 else y];
    }
  }

  ghost predicate RefreshChoice(p: Config, s: Channel, c: Choice) {
    if c.answer.Ready? && c.answer.cmd.kind.IsRefresh() then
      s.refreshQ != [] && c.answer.cmd == s.refreshQ[0] && !c.cq.inRef && c.cq.refQueues == {}
    else RefreshOk(p, s.refreshQ, c.cq)
  }

  /** Everything in a channel but the device, the record of its commands and what is pending. */
  ghost predicate RestOk(p: Config, s: Channel) {
    QueuesOk(p, s.cq.queues) && 0 <= s.cq.next < QueueCount(p) && s.cq.clk == s.clk &&
    RefreshOk(p, s.refreshQ, s.cq) && TimerOk(p, s.timer) && WaitingOk(p, s)
  }

  /** Whether an address is pending for a column access. */
  predicate IsPending(s: Channel, cmd: Command) {
    (cmd.kind.IsRead() ==> cmd.hexAddr in s.pendingRd) && (cmd.kind.IsWrite() ==> cmd.hexAddr in s.pendingWr)
  }

  lemma IssueDevice(p: Config, s: Channel, cmd: Command)
    requires DeviceOk(p, s) && MayIssue(p, s.dev, cmd, s.clk) && !cmd.kind.SrefEnter? && !cmd.kind.SrefExit?
    requires IsPending(s, cmd)
    ensures IssueCommand(p, s, cmd).Some? && DeviceOk(p, IssueCommand(p, s, cmd).value)
    ensures LastTime(IssueCommand(p, s, cmd).value.trace.hist) == s.clk
  {
    DeviceAfterIssue(p, s, cmd);
  }

  lemma RetireColumn(p: Config, s: Channel, v: Live, cq: CommandQueue, q: nat, i: nat)
    requires RestOk(p, s) && PendingOk(p, s, v) && q < |s.cq.queues| && i < |s.cq.queues[q]| && s.cq.queues[q][i].kind.IsReadWrite()
    requires cq.queues == s.cq.queues[q := Without(s.cq.queues[q], i)] && 0 <= cq.next < QueueCount(p) && cq.clk == s.clk
    requires RefreshOk(p, s.refreshQ, cq)
    ensures var cmd := s.cq.queues[q][i];
            RestOk(p, s.(cq := cq)) && PendingOk(p, s.(cq := cq), LiveAfter(v, cmd)) &&
            IsPending(s, cmd) && RestOk(p, Retired(p, s.(cq := cq), cmd).value) && PendingOk(p, Retired(p, s.(cq := cq), cmd).value, LiveAfter(v, cmd))
  {
    QueuesAfterErase(p, s.cq.queues, q, i);
    PendsAfterErase(p, s.trace.log, s.cq.queues, TransQueue(p, s, false), TransQueue(p, s, true), s.pendingRd, s.pendingWr, v, q, i);
  }

  /** Queues and records once the chosen command is retired and, if it is a refresh, struck off. */
  function AfterRetire(p: Config, s: Channel, c: Choice): Channel
    requires c.answer.Ready? && IsPending(s, c.answer.cmd)
  {
    var now, cmd := Retired(p, s.(cq := c.cq), c.answer.cmd).value, c.answer.cmd;
    now.(refreshQ := if cmd.kind.IsRefresh() then RefreshServed(s.refreshQ, cmd) else s.refreshQ)
  }

  lemma IssueRest(p: Config, s: Channel, v: Live, c: Choice)
    requires RestOk(p, s) && PendingOk(p, s, v) && Chosen(p, s.dev, s.cq, c) && c.answer.Ready? && RefreshChoice(p, s, c)
    ensures IsPending(s, c.answer.cmd) && RestOk(p, AfterRetire(p, s, c)) && PendingOk(p, AfterRetire(p, s, c), LiveAfter(v, c.answer.cmd))
  {
    var cmd := c.answer.cmd;
    if cmd.kind.IsReadWrite() {
      var q, i := ChosenEntry(p, s, c);
      hide PendingOk;
      RetireColumn(p, s, v, c.cq, q, i);
    } else {
      assert cmd.kind.IsRefresh() ==> RefreshServed(s.refreshQ, cmd) == s.refreshQ[1..];
    }
  }

  lemma ChosenEntry(p: Config, s: Channel, c: Choice) returns (q: nat, i: nat)
    requires Chosen(p, s.dev, s.cq, c) && c.answer.Ready? && c.answer.cmd.kind.IsReadWrite()
    ensures PickedAt(p, s.dev, s.cq, s.cq.clk, q, i) && c.answer.cmd == s.cq.queues[q][i]
    ensures c.cq.queues == s.cq.queues[q := Without(s.cq.queues[q], i)]
  {
    q, i :| PickedAt(p, s.dev, s.cq, s.cq.clk, q, i) && c.answer.cmd == s.cq.queues[q][i] &&
            c.cq.queues == s.cq.queues[q := Without(s.cq.queues[q], i)];
  }

  lemma IssueStands(p: Config, s: Channel, v: Live, c: Choice)
    requires DeviceOk(p, s) && RestOk(p, s) && PendingOk(p, s, v) && Chosen(p, s.dev, s.cq, c) && RefreshChoice(p, s, c) && c.answer.Ready?
    ensures IsPending(s, c.answer.cmd) && IssueChoice(p, s, c).Some?
    ensures var now := IssueChoice(p, s, c).value;
            DeviceOk(p, now) && now.clk == s.clk && Some(now.dev) == Issue(p, s.dev, c.answer.cmd, s.clk) && now == AfterRetire(p, s, c).(dev := now.dev)
  {
    IssueRest(p, s, v, c);
    ChosenMayIssue(p, s, c);
    hide RestOk, PendingOk, Chosen, RefreshChoice;
    IssueDevice(p, s.(cq := c.cq), c.answer.cmd);
  }

  lemma ChosenMayIssue(p: Config, s: Channel, c: Choice)
    requires DeviceOk(p, s) && s.cq.clk == s.clk && Chosen(p, s.dev, s.cq, c) && c.answer.Ready?
    ensures DeviceOk(p, s.(cq := c.cq)) && MayIssue(p, s.dev, c.answer.cmd, s.clk) && !c.answer.cmd.kind.SrefEnter? && !c.answer.cmd.kind.SrefExit?
  {
  }

  /** Issuing what was chosen never exits or aborts, and keeps the invariant. */
  lemma IssueKeepsInv(p: Config, s: Channel, c: Choice)
    requires Inv(p, s) && Chosen(p, s.dev, s.cq, c) && RefreshChoice(p, s, c)
    ensures IssueChoice(p, s, c).Some? && IssueChoice(p, s, c).value.clk == s.clk
    ensures Inv(p, IssueChoice(p, s, c).value) && (Intact(p, s) ==> Intact(p, IssueChoice(p, s, c).value))
    ensures c.answer.Ready? ==> Some(IssueChoice(p, s, c).value.dev) == Issue(p, s.dev, c.answer.cmd, s.clk)
  {
    var v := SomeLive(p, s);
    hide Chosen, RefreshChoice, DeviceOk;
    if c.answer.Ready? {
      IssueRest(p, s, v, c);
      IssueStands(p, s, v, c);
      RetiredStands(p, s, v, c, IssueChoice(p, s, c).value);
    } else {
      WaitKeepsInv(p, s, c);
    }
  }

  lemma RetiredStands(p: Config, s: Channel, v: Live, c: Choice, now: Channel)
    requires c.answer.Ready? && IsPending(s, c.answer.cmd) && DeviceOk(p, now) && now == AfterRetire(p, s, c).(dev := now.dev)
    requires RestOk(p, AfterRetire(p, s, c)) && PendingOk(p, AfterRetire(p, s, c), LiveAfter(v, c.answer.cmd))
    ensures Inv(p, now) && (v == All(s) ==> Intact(p, now))
  {
    hide DeviceOk, Pends;
    assert PendingOk(p, now, LiveAfter(v, c.answer.cmd));
    AllAfterRetire(p, s, c);
  }

  lemma AllAfterRetire(p: Config, s: Channel, c: Choice)
    requires c.answer.Ready? && IsPending(s, c.answer.cmd)
    ensures All(AfterRetire(p, s, c)) == LiveAfter(All(s), c.answer.cmd)
  {
    var a := c.answer.cmd.hexAddr;
    assert (s.pendingRd - {a}).Keys == s.pendingRd.Keys - {a} && (s.pendingWr - {a}).Keys == s.pendingWr.Keys - {a};
  }

  /** A column access chosen second and dropped: its address is not live any more. */
  lemma DropKeepsInv(p: Config, s: Channel, c: Choice)
    requires Inv(p, s) && Chosen(p, s.dev, s.cq, c) && RefreshChoice(p, s, c) && c.answer.Ready? && c.answer.cmd.kind.IsReadWrite()
    ensures Inv(p, s.(cq := c.cq)) && RestOk(p, s.(cq := c.cq))
  {
    var v := SomeLive(p, s);
    var q, i := ChosenEntry(p, s, c);
    DropStands(p, s, v, c, q, i);
    hide PendingOk, Chosen;
    assert exists w :: PendingOk(p, s.(cq := c.cq), w);
  }

  lemma DropStands(p: Config, s: Channel, v: Live, c: Choice, q: nat, i: nat)
    requires RestOk(p, s) && PendingOk(p, s, v) && Chosen(p, s.dev, s.cq, c) && RefreshChoice(p, s, c) && c.answer.Ready?
    requires PickedAt(p, s.dev, s.cq, s.cq.clk, q, i) && c.answer.cmd == s.cq.queues[q][i] && c.answer.cmd.kind.IsReadWrite()
    requires c.cq.queues == s.cq.queues[q := Without(s.cq.queues[q], i)]
    ensures RestOk(p, s.(cq := c.cq)) && PendingOk(p, s.(cq := c.cq), LiveAfter(v, c.answer.cmd))
  {
    hide PendingOk, Offer;
    RetireColumn(p, s, v, c.cq, q, i);
  }

  lemma WaitKeepsInv(p: Config, s: Channel, c: Choice)
    requires Inv(p, s) && Chosen(p, s.dev, s.cq, c) && RefreshChoice(p, s, c) && !c.answer.Ready?
    ensures Inv(p, s.(cq := c.cq)) && c.answer.NotYet? && (Intact(p, s) ==> Intact(p, s.(cq := c.cq)))
  {
    hide Pends;
    var v := SomeLive(p, s);
    assert PendingOk(p, s.(cq := c.cq), v);
  }

  lemma RefreshTickKeepsInv(p: Config, s: Channel)
    requires Usable(p) && Inv(p, s)
    ensures Inv(p, RefreshTick(p, s)) && (Intact(p, s) ==> Intact(p, RefreshTick(p, s)))
  {
    hide Pends;
    var v := SomeLive(p, s);
    var now := RefreshTick(p, s);
    assert now == s.(refreshQ := now.refreshQ, timer := now.timer, trace := now.trace);
    assert s.refreshQ != [] ==> now.refreshQ[0] == s.refreshQ[0];
    assert IsRequest(p, NextRefresh(p, s.timer));
    assert PendingOk(p, now, v);
  }

  // ----- dual issue

  /** Every delay between column accesses that two banks of the channel can stand in is at least a cycle. */
  ghost predicate ColumnsSpaced(p: Config) {
    Timed(p) && Positive(Near(p)) && (p.bankgroups > 1 ==> Positive(Far(p))) && (p.ranks > 1 ==> Positive(Cross(p)))
  }

  predicate Positive(s: Spacing) {
    s.readToRead >= 1 && s.readToWrite >= 1 && s.writeToRead >= 1 && s.writeToWrite >= 1
  }

  /** Dual issue is off, or a column access always keeps the next one out of its cycle. */
  ghost predicate DualSafe(p: Config) {
    p.dualCommand ==> ColumnsSpaced(p)
  }

  predicate AutoPrecharge(k: CommandType) {
    k.ReadPrecharge? || k.WritePrecharge?
  }

  lemma SpacedByACycle(p: Config, first: Command, l: Loc, to: CommandType)
    requires ColumnsSpaced(p) && first.kind.IsReadWrite() && to.IsReadWrite() && p.HasLoc(l) && p.HasLoc(first.Place())
    requires l == first.Place() ==> !AutoPrecharge(first.kind)
    ensures DelayAt(p, first, l, to).Some? && DelayAt(p, first, l, to).value >= 1
  {
    var rel := Relate(first, l).value;
    assert Listed(p.delays, rel, first.kind, to) == Delay(p, rel, first.kind, to);
  }

  /** After a column access at some cycle, no other is ready in that cycle. */
  lemma NoSecondColumn(p: Config, d: Device, first: Command, second: Command, clk: int)
    requires MayIssue(p, d, first, clk) && ColumnsSpaced(p) && second.Place() in d.banks
    requires first.kind.IsReadWrite() && second.kind.IsReadWrite() && forall l | l in d.banks :: p.HasLoc(l)
    ensures !MayIssue(p, Issue(p, d, first, clk).value, second, clk)
  {
    var l := second.Place();
    IssueSteps(p, d, Issued(first, clk), l);
    if !(l == first.Place() && AutoPrecharge(first.kind)) {
      SpacedByACycle(p, first, l, second.kind);
      IssueRaises(p, d, Issued(first, clk), l, second.kind);
      assert Bound(p, Issued(first, clk), l, second.kind).value >= clk + 1;
    }
    assert Touches(second, l);
  }

  /** Both commands chosen in a cycle are column accesses. */
  predicate Pair(first: Command, second: Readiness) {
    first.kind.IsReadWrite() && second.Ready? && second.cmd.kind.IsReadWrite()
  }

  /** The issue phase from `s` chooses a second column access, takes it off its queue and drops it. */
  predicate PhaseDrops(p: Config, s: Channel) {
    var c := ChooseFirst(p, s);
    p.dualCommand && c.answer.Ready? &&
    match IssueChoice(p, s, c)
    case None => false
    case Some(one) => Pair(c.answer.cmd, GetCommandToIssue(p, one.dev, one.cq).answer)
  }

  /** With column accesses a cycle apart this never happens. */
  lemma SpacedPhaseKeepsAll(p: Config, s: Channel)
    requires Usable(p) && DualSafe(p) && Inv(p, s)
    ensures !PhaseDrops(p, s)
  {
    var c := ChooseFirst(p, s);
    FirstChoice(p, s);
    IssueKeepsInv(p, s, c);
    var one := IssueChoice(p, s, c).value;
    if p.dualCommand && c.answer.Ready? && c.answer.cmd.kind.IsReadWrite() {
      SpacedSecond(p, s, c.answer.cmd, one);
    }
  }

  lemma SpacedSecond(p: Config, s: Channel, first: Command, one: Channel)
    requires Usable(p) && ColumnsSpaced(p) && Inv(p, s) && Inv(p, one) && one.clk == s.clk && first.kind.IsReadWrite()
    requires MayIssue(p, s.dev, first, s.clk) && one.dev == Issue(p, s.dev, first, s.clk).value
    ensures !Pair(first, GetCommandToIssue(p, one.dev, one.cq).answer)
  {
    var d := GetCommandToIssue(p, one.dev, one.cq);
    VisitChooses(p, one.dev, one.cq, QueueCount(p));
    if d.answer.Ready? && d.answer.cmd.kind.IsReadWrite() {
      NoSecondColumn(p, s.dev, first, d.answer.cmd, s.clk);
    }
  }

  /** A choice that can be carried out: one made by the queues, or none. */
  ghost predicate Doable(p: Config, s: Channel, d: Choice) {
    RefreshChoice(p, s, d) && !d.answer.Abort? && NothingNew(s.cq.queues, d.cq.queues) && (d.answer.Ready? ==> Chosen(p, s.dev, s.cq, d))
  }

  /** No queue has gained an entry. */
  ghost predicate NothingNew(queues: seq<seq<Command>>, now: seq<seq<Command>>) {
    |now| == |queues| && forall q, c | 0 <= q < |queues| && c in now[q] :: c in queues[q]
  }

  lemma ChosenTakes(p: Config, s: Channel, c: Choice)
    requires Chosen(p, s.dev, s.cq, c)
    ensures NothingNew(s.cq.queues, c.cq.queues)
  {
  }

  /**
    The parts of a cycle's issue phase: a first choice and a second one, possibly empty, each made and
    carried out in a state that satisfies the invariant. A second choice that is dropped counts as empty.
   */
  lemma IssueParts(p: Config, s: Channel) returns (c: Choice, one: Channel, d: Choice, two: Channel)
    requires Usable(p) && Inv(p, s)
    ensures Chosen(p, s.dev, s.cq, c) && RefreshChoice(p, s, c) && IssueChoice(p, s, c) == Some(one) && Inv(p, one)
    ensures Doable(p, one, d) && IssueChoice(p, one, d) == Some(two) && Inv(p, two)
    ensures IssueAll(p, s) == Some(two) && c == ChooseFirst(p, s)
    ensures d.answer.Ready? ==> !d.answer.cmd.kind.IsRefresh() && p.dualCommand && d.answer == GetCommandToIssue(p, one.dev, one.cq).answer
    ensures Intact(p, s) ==> Intact(p, one) && (!PhaseDrops(p, s) ==> Intact(p, two))
  {
    hide Inv, Intact;
    c := ChooseFirst(p, s);
    InvBase(p, s);
    FirstChoice(p, s);
    IssueKeepsInv(p, s, c);
    one := IssueChoice(p, s, c).value;
    d := SecondPart(p, s, c, one);
    two := IssueChoice(p, one, d).value;
  }

  lemma InvBase(p: Config, s: Channel)
    requires Inv(p, s)
    ensures DeviceOk(p, s) && RestOk(p, s)
  {
  }

  lemma SecondPart(p: Config, s: Channel, c: Choice, one: Channel) returns (d: Choice)
    requires Usable(p) && Inv(p, one)
    ensures Doable(p, one, d) && IssueChoice(p, one, d).Some? && Inv(p, IssueChoice(p, one, d).value)
    ensures IssueChoice(p, one, d) == if p.dualCommand && c.answer.Ready? then IssueSecond(p, one, c.answer.cmd) else Some(one)
    ensures d.answer.Ready? ==> !d.answer.cmd.kind.IsRefresh() && p.dualCommand && d.answer == GetCommandToIssue(p, one.dev, one.cq).answer
    ensures Intact(p, one) && !(p.dualCommand && c.answer.Ready? && Pair(c.answer.cmd, GetCommandToIssue(p, one.dev, one.cq).answer)) ==>
              Intact(p, IssueChoice(p, one, d).value)
  {
    hide Inv, Intact;
    if p.dualCommand && c.answer.Ready? {
      d := SecondChoice(p, c.answer.cmd, one);
    } else {
      d := NothingChosen(p, one);
    }
  }

  lemma NothingChosen(p: Config, s: Channel) returns (d: Choice)
    requires Inv(p, s)
    ensures d == Choice(NotYet, s.cq) && Doable(p, s, d) && IssueChoice(p, s, d) == Some(s)
  {
    d := Choice(NotYet, s.cq);
  }

  /** A second command of the class of the first is dropped; unless it is a column access, its request stays queued. */
  lemma SecondChoice(p: Config, first: Command, one: Channel) returns (d: Choice)
    requires Usable(p) && Inv(p, one)
    ensures Doable(p, one, d)
    ensures d.answer.Ready? ==> !d.answer.cmd.kind.IsRefresh() && d.answer == GetCommandToIssue(p, one.dev, one.cq).answer
    ensures IssueChoice(p, one, d).Some? && Inv(p, IssueChoice(p, one, d).value)
    ensures IssueSecond(p, one, first) == IssueChoice(p, one, d)
    ensures Intact(p, one) && !Pair(first, GetCommandToIssue(p, one.dev, one.cq).answer) ==> Intact(p, IssueChoice(p, one, d).value)
  {
    hide Inv, Intact, GetCommandToIssue;
    InvBase(p, one);
    d := GetCommandToIssue(p, one.dev, one.cq);
    VisitIs(p, one);
    if Pair(first, d.answer) {
      DropKeepsInv(p, one, d);
      InvBase(p, one.(cq := d.cq));
      d := Choice(NotYet, d.cq);
    } else {
      if d.answer.Ready? && d.answer.cmd.kind.IsReadWrite() == first.kind.IsReadWrite() {
        d := Choice(NotYet, d.cq);
      }
      IssueKeepsInv(p, one, d);
    }
  }

  /** What the queues answer in a state that satisfies the invariant. */
  lemma VisitIs(p: Config, s: Channel)
    requires Usable(p) && Inv(p, s)
    ensures var d := GetCommandToIssue(p, s.dev, s.cq);
            Chosen(p, s.dev, s.cq, d) && RefreshChoice(p, s, d) && !d.answer.Abort? && (d.answer.Ready? ==> !d.answer.cmd.kind.IsRefresh()) &&
            NothingNew(s.cq.queues, d.cq.queues)
  {
    VisitChooses(p, s.dev, s.cq, QueueCount(p));
    ChosenTakes(p, s, GetCommandToIssue(p, s.dev, s.cq));
  }

  // ----- moving a transaction to its command queue

  lemma {:induction false} FirstAcceptableIsFirst(p: Config, cq: CommandQueue, ts: seq<Transaction>, i: nat, k: nat)
    requires i <= |ts| && i <= k < FirstAcceptable(p, cq, ts, i)
    ensures !WillAcceptCommand(p, cq, TransToCommand(p, ts[k].addr, ts[k].isWrite).Place())
    decreases |ts| - i
  {
    if i < k {
      FirstAcceptableIsFirst(p, cq, ts, i + 1, k);
    }
  }

  lemma QueuesAfterMove(p: Config, queues: seq<seq<Command>>, t: Transaction)
    requires QueuesOk(p, queues) && 0 <= Home(p, t.addr) < |queues|
    ensures QueuesOk(p, Moved(p, queues, t))
  {
    var h := Home(p, t.addr);
    assert QueueOk(p, queues[h], h);
    assert QueuedAt(p, TransToCommand(p, t.addr, t.isWrite), h);
  }

  /** With one queue for both kinds. */
  lemma PendsAfterMove(p: Config, log: seq<Request>, queues: seq<seq<Command>>, ts: seq<Transaction>,
                       rd: map<int, seq<Transaction>>, wr: map<int, seq<Transaction>>, v: Live, i: nat)
    requires Pends(p, log, queues, ts, ts, rd, wr, v) && p.unifiedQueue
    requires i < |ts| && 0 <= Home(p, ts[i].addr) < |queues|
    requires forall k | 0 <= k < i :: Waiting(p, ts)[k].Place() != Waiting(p, ts)[i].Place()
    ensures Pends(p, log, Moved(p, queues, ts[i]), Without(ts, i), Without(ts, i), rd, wr, v)
  {
    IndexedAfterMove(p, queues, ts, i, v.rd, false);
    IndexedAfterMove(p, queues, ts, i, v.wr, true);
    OrderedAfterMove(p, queues, ts, rd, i);
  }

  lemma PendsAfterReadMove(p: Config, log: seq<Request>, queues: seq<seq<Command>>, tr: seq<Transaction>, tw: seq<Transaction>,
                           rd: map<int, seq<Transaction>>, wr: map<int, seq<Transaction>>, v: Live, i: nat)
    requires Pends(p, log, queues, tr, tw, rd, wr, v) && !p.unifiedQueue
    requires i < |tr| && 0 <= Home(p, tr[i].addr) < |queues| && !tr[i].isWrite
    requires forall k | 0 <= k < i :: Waiting(p, tr)[k].Place() != Waiting(p, tr)[i].Place()
    ensures Pends(p, log, Moved(p, queues, tr[i]), Without(tr, i), tw, rd, wr, v)
  {
    IndexedAfterMove(p, queues, tr, i, v.rd, false);
    IndexedAfterForeignMove(p, queues, tw, tr[i], v.wr, true);
    OrderedAfterMove(p, queues, tr, rd, i);
    WritesAfterMove(p, queues, rd, tr[i]);
  }

  lemma PendsAfterWriteMove(p: Config, log: seq<Request>, queues: seq<seq<Command>>, tr: seq<Transaction>, tw: seq<Transaction>,
                            rd: map<int, seq<Transaction>>, wr: map<int, seq<Transaction>>, v: Live, i: nat)
    requires Pends(p, log, queues, tr, tw, rd, wr, v) && !p.unifiedQueue
    requires i < |tw| && 0 <= Home(p, tw[i].addr) < |queues| && tw[i].isWrite && tw[i].addr !in rd
    requires forall t | t in tr :: !t.isWrite
    ensures Pends(p, log, Moved(p, queues, tw[i]), tr, Without(tw, i), rd, wr, v)
  {
    IndexedAfterMove(p, queues, tw, i, v.wr, true);
    IndexedAfterForeignMove(p, queues, tr, tw[i], v.rd, false);
    NotInLine(p, queues, tr, v.rd, false, tw[i].addr);
    OrderedAfterForeignMove(p, queues, tr, rd, tw[i]);
    WritesAfterMove(p, queues, rd, tw[i]);
  }

  lemma WritesAfterMove(p: Config, queues: seq<seq<Command>>, rd: map<int, seq<Transaction>>, t: Transaction)
    requires WritesAfterReads(p, queues, rd) && 0 <= Home(p, t.addr) < |queues| && (t.isWrite ==> t.addr !in rd)
    ensures WritesAfterReads(p, Moved(p, queues, t), rd)
  {
  }

  /** Transaction `i` of the queue being served becomes a command. */
  function MovedAt(p: Config, s: Channel, writes: bool, i: nat, draining: int): Channel
    requires i < |TransQueue(p, s, writes)| && 0 <= Home(p, TransQueue(p, s, writes)[i].addr) < |s.cq.queues|
  {
    var ts := TransQueue(p, s, writes);
    WithQueue(p, s, writes, Without(ts, i)).(cq := s.cq.(queues := Moved(p, s.cq.queues, ts[i])), draining := draining)
  }

  lemma MoveUnified(p: Config, s: Channel, v: Live, i: nat)
    requires RestOk(p, s) && PendingOk(p, s, v) && p.unifiedQueue && i < |s.unified| && 0 <= Home(p, s.unified[i].addr) < |s.cq.queues|
    requires forall k | 0 <= k < i :: Waiting(p, s.unified)[k].Place() != Waiting(p, s.unified)[i].Place()
    ensures RestOk(p, MovedAt(p, s, false, i, 0)) && PendingOk(p, MovedAt(p, s, false, i, 0), v) && MovedAt(p, s, true, i, 0) == MovedAt(p, s, false, i, 0)
  {
    QueuesAfterMove(p, s.cq.queues, s.unified[i]);
    PendsAfterMove(p, s.trace.log, s.cq.queues, s.unified, s.pendingRd, s.pendingWr, v, i);
  }

  lemma MoveRead(p: Config, s: Channel, v: Live, i: nat)
    requires RestOk(p, s) && PendingOk(p, s, v) && !p.unifiedQueue && i < |s.readQ| && 0 <= Home(p, s.readQ[i].addr) < |s.cq.queues|
    requires forall k | 0 <= k < i :: Waiting(p, s.readQ)[k].Place() != Waiting(p, s.readQ)[i].Place()
    ensures RestOk(p, MovedAt(p, s, false, i, s.draining)) && PendingOk(p, MovedAt(p, s, false, i, s.draining), v)
  {
    assert s.readQ[i] in s.readQ;
    assert forall u | u in Without(s.readQ, i) :: u in s.readQ;
    QueuesAfterMove(p, s.cq.queues, s.readQ[i]);
    PendsAfterReadMove(p, s.trace.log, s.cq.queues, s.readQ, s.writeBuf, s.pendingRd, s.pendingWr, v, i);
  }

  lemma MoveWrite(p: Config, s: Channel, v: Live, i: nat, draining: int)
    requires RestOk(p, s) && PendingOk(p, s, v) && !p.unifiedQueue && i < |s.writeBuf| && 0 <= Home(p, s.writeBuf[i].addr) < |s.cq.queues|
    requires s.writeBuf[i].addr !in s.pendingRd && 0 <= draining < |s.writeBuf|
    ensures RestOk(p, MovedAt(p, s, true, i, draining)) && PendingOk(p, MovedAt(p, s, true, i, draining), v)
  {
    assert s.writeBuf[i] in s.writeBuf;
    assert forall u | u in Without(s.writeBuf, i) :: u in s.writeBuf;
    QueuesAfterMove(p, s.cq.queues, s.writeBuf[i]);
    PendsAfterWriteMove(p, s.trace.log, s.cq.queues, s.readQ, s.writeBuf, s.pendingRd, s.pendingWr, v, i);
  }

  /** What scheduling does, in terms of the transaction it settles on. */
  lemma ScheduleIs(p: Config, s: Channel, drain: int, i: nat)
    requires Usable(p) && |s.cq.queues| == QueueCount(p) && drain == Draining(p, s)
    requires i == FirstAcceptable(p, s.cq, TransQueue(p, s, drain > 0), 0)
    ensures var ts := TransQueue(p, s, drain > 0);
            if i == |ts| then Schedule(p, s) == s.(draining := drain)
            else 0 <= Home(p, ts[i].addr) < |s.cq.queues| &&
                 (forall k | 0 <= k < i :: Waiting(p, ts)[k].Place() != Waiting(p, ts)[i].Place()) &&
                 Schedule(p, s) ==
                 if !p.unifiedQueue && ts[i].isWrite && ts[i].addr in s.pendingRd then s.(draining := 0)
                 else MovedAt(p, s, drain > 0, i, if !p.unifiedQueue && ts[i].isWrite then drain - 1 else drain)
  {
    var ts := TransQueue(p, s, drain > 0);
    if i < |ts| {
      assert TransToCommand(p, ts[i].addr, ts[i].isWrite).Place() == Target(p, ts[i].addr);
      HomeInRange(p, Target(p, ts[i].addr));
      forall k | 0 <= k < i
        ensures Waiting(p, ts)[k].Place() != Waiting(p, ts)[i].Place()
      {
        FirstAcceptableIsFirst(p, s.cq, ts, 0, k);
      }
    }
  }

  lemma ScheduleKeepsInv(p: Config, s: Channel)
    requires Usable(p) && Inv(p, s)
    ensures Inv(p, Schedule(p, s)) && (Intact(p, s) ==> Intact(p, Schedule(p, s)))
  {
    hide Pends;
    var v := SomeLive(p, s);
    ScheduleStands(p, s, v);
    ScheduleFrame(p, s);
  }

  lemma ScheduleStands(p: Config, s: Channel, v: Live)
    requires Usable(p) && RestOk(p, s) && PendingOk(p, s, v)
    ensures RestOk(p, Schedule(p, s)) && PendingOk(p, Schedule(p, s), v)
  {
    hide Pends;
    var drain := Draining(p, s);
    var ts := TransQueue(p, s, drain > 0);
    var i := FirstAcceptable(p, s.cq, ts, 0);
    ScheduleIs(p, s, drain, i);
    if i < |ts| && !(!p.unifiedQueue && ts[i].isWrite && ts[i].addr in s.pendingRd) {
      assert ts[i] in ts;
      if p.unifiedQueue {
        MoveUnified(p, s, v, i);
      } else if drain > 0 {
        MoveWrite(p, s, v, i, drain - 1);
      } else {
        MoveRead(p, s, v, i);
      }
    }
  }

  lemma AdvanceKeepsInv(p: Config, s: Channel)
    requires Inv(p, s)
    ensures Inv(p, Advance(s)) && (Intact(p, s) ==> Intact(p, Advance(s)))
  {
    hide Pends;
    var v := SomeLive(p, s);
    assert PendingOk(p, Advance(s), v);
  }

  lemma DrainKeepsInv(p: Config, s: Channel)
    requires Inv(p, s)
    ensures Inv(p, DrainDone(s)) && (Intact(p, s) ==> Intact(p, DrainDone(s)))
  {
    hide Pends;
    var v := SomeLive(p, s);
    assert PendingOk(p, DrainDone(s), v);
  }

  // ----- accepting a transaction

  lemma NoEntryAnywhere(p: Config, log: seq<Request>, queues: seq<seq<Command>>, tr: seq<Transaction>, tw: seq<Transaction>,
                        rd: map<int, seq<Transaction>>, wr: map<int, seq<Transaction>>, v: Live, a: nat, q: nat, i: nat)
    requires QueuesOk(p, queues) && Pends(p, log, queues, tr, tw, rd, wr, v) && a !in rd && a !in wr
    requires 0 <= Home(p, a) < |queues| && q < |queues| && i < |Line(p, queues, tr, q)|
    requires tr == tw || forall t | t in tr :: !t.isWrite
    ensures Line(p, queues, tr, q)[i].hexAddr != a
  {
    NotInLine(p, queues, tr, v.rd, false, a);
    NotInLine(p, queues, tw, v.wr, true, a);
    if i < |queues[q]| {
      var c := queues[q][i];
      assert QueueOk(p, queues[q], q) && c in queues[q];
      assert c in Line(p, queues, tr, q) && c in Line(p, queues, tw, q);
    } else {
      assert tr[i - |queues[q]|] in tr;
    }
  }

  lemma PendsAfterNewRead(p: Config, log: seq<Request>, queues: seq<seq<Command>>, tr: seq<Transaction>, tw: seq<Transaction>,
                          rd: map<int, seq<Transaction>>, wr: map<int, seq<Transaction>>, v: Live, t: Transaction)
    requires QueuesOk(p, queues) && Pends(p, log, queues, tr, tw, rd, wr, v) && t.addr !in rd && t.addr !in wr
    requires 0 <= Home(p, t.addr) < |queues| && !t.isWrite && t.id == |log|
    requires if p.unifiedQueue then tr == tw else forall u | u in tr :: !u.isWrite
    ensures Pends(p, log + [Request(t.addr, false, t.addedCycle)], queues, tr + [t], if p.unifiedQueue then tw + [t] else tw, rd[t.addr := [t]], wr, Live(v.rd + {t.addr}, v.wr))
  {
    var now := rd[t.addr := [t]];
    IndexedAfterArrival(p, queues, tr, t, v.rd, false);
    assert now.Keys == rd.Keys + {t.addr};
    if p.unifiedQueue {
      IndexedAfterArrival(p, queues, tw, t, v.wr, true);
    }
    forall q, i | 0 <= q < |queues| && 0 <= i < |Line(p, queues, tr, q)|
      ensures Line(p, queues, tr, q)[i].hexAddr != t.addr
    {
      NoEntryAnywhere(p, log, queues, tr, tw, rd, wr, v, t.addr, q, i);
    }
    forall q | 0 <= q < |queues|
      ensures InOrder(now, Line(p, queues, tr, q))
    {
      assert InOrder(rd, Line(p, queues, tr, q));
      assert forall i | 0 <= i < |Line(p, queues, tr, q)| :: FirstId(now, Line(p, queues, tr, q)[i].hexAddr) == FirstId(rd, Line(p, queues, tr, q)[i].hexAddr);
    }
    forall a | FirstId(now, a).Some? && a != t.addr
      ensures FirstId(now, a).value < t.id
    {
      assert GroupOk(log, rd[a], a) && rd[a][0] in rd[a];
    }
    OrderedAfterArrival(p, queues, tr, now, t);
    forall q, i | 0 <= q < |queues| && 0 <= i < |queues[q]|
      ensures queues[q][i].hexAddr != t.addr
    {
      assert Line(p, queues, tr, q)[i] == queues[q][i];
    }
    MapsGrow(log, rd, wr, Request(t.addr, false, t.addedCycle));
  }

  lemma MapsGrow(log: seq<Request>, rd: map<int, seq<Transaction>>, wr: map<int, seq<Transaction>>, r: Request)
    requires MapsOk(log, rd, wr)
    ensures MapsOk(log + [r], rd, wr)
  {
    forall a | a in rd
      ensures GroupOk(log + [r], rd[a], a)
    {
      assert GroupOk(log, rd[a], a);
    }
  }

  /** A read that joins the reads already pending on its address is not queued again. */
  lemma PendsAfterJoin(p: Config, log: seq<Request>, queues: seq<seq<Command>>, tr: seq<Transaction>, tw: seq<Transaction>,
                       rd: map<int, seq<Transaction>>, wr: map<int, seq<Transaction>>, v: Live, t: Transaction)
    requires Pends(p, log, queues, tr, tw, rd, wr, v) && t.addr in rd && !t.isWrite && t.id == |log|
    ensures Pends(p, log + [Request(t.addr, false, t.addedCycle)], queues, tr, tw, rd[t.addr := rd[t.addr] + [t]], wr, v)
  {
    var now := rd[t.addr := rd[t.addr] + [t]];
    MapsGrow(log, rd, wr, Request(t.addr, false, t.addedCycle));
    assert GroupOk(log, rd[t.addr], t.addr);
    assert now.Keys == rd.Keys;
    forall q | 0 <= q < |queues|
      ensures InOrder(now, Line(p, queues, tr, q))
    {
      assert InOrder(rd, Line(p, queues, tr, q));
      assert forall a :: FirstId(now, a) == FirstId(rd, a);
    }
  }

  lemma PendsAfterNewWrite(p: Config, log: seq<Request>, queues: seq<seq<Command>>, tr: seq<Transaction>, tw: seq<Transaction>,
                           rd: map<int, seq<Transaction>>, wr: map<int, seq<Transaction>>, v: Live, t: Transaction)
    requires Pends(p, log, queues, tr, tw, rd, wr, v) && t.addr !in wr && t.isWrite
    ensures Pends(p, log + [Request(t.addr, true, t.addedCycle)], queues, if p.unifiedQueue then tr + [t] else tr, tw + [t], rd, wr[t.addr := [t]], Live(v.rd, v.wr + {t.addr}))
  {
    MapsGrow(log, rd, wr, Request(t.addr, true, t.addedCycle));
    IndexedAfterArrival(p, queues, tw, t, v.wr, true);
    assert wr[t.addr := [t]].Keys == wr.Keys + {t.addr};
    if p.unifiedQueue {
      IndexedAfterArrival(p, queues, tr, t, v.rd, false);
      OrderedAfterArrival(p, queues, tr, rd, t);
    }
  }

  /** What is live once a request is accepted: a new address comes in with its entry. */
  function LiveWith(s: Channel, v: Live, addr: nat, isWrite: bool): Live {
    if isWrite then (if addr in s.pendingWr then v else Live(v.rd, v.wr + {addr}))
    else if addr in s.pendingWr || addr in s.pendingRd then v else Live(v.rd + {addr}, v.wr)
  }

  lemma AcceptWrite(p: Config, s: Channel, v: Live, addr: nat)
    requires RestOk(p, s) && PendingOk(p, s, v)
    ensures RestOk(p, Accept(p, s, addr, true)) && PendingOk(p, Accept(p, s, addr, true), LiveWith(s, v, addr, true))
  {
    var t := Transaction(|s.trace.log|, addr, s.clk, 0, true);
    if addr !in s.pendingWr {
      PendsAfterNewWrite(p, s.trace.log, s.cq.queues, TransQueue(p, s, false), TransQueue(p, s, true), s.pendingRd, s.pendingWr, v, t);
    } else {
      MapsGrow(s.trace.log, s.pendingRd, s.pendingWr, Request(addr, true, s.clk));
    }
  }

  lemma AcceptNewRead(p: Config, s: Channel, v: Live, addr: nat)
    requires Usable(p) && RestOk(p, s) && PendingOk(p, s, v) && addr !in s.pendingRd && addr !in s.pendingWr
    ensures RestOk(p, Accept(p, s, addr, false)) && PendingOk(p, Accept(p, s, addr, false), LiveWith(s, v, addr, false))
  {
    var t := Transaction(|s.trace.log|, addr, s.clk, 0, false);
    HomeInRange(p, Target(p, addr));
    PendsAfterNewRead(p, s.trace.log, s.cq.queues, TransQueue(p, s, false), TransQueue(p, s, true), s.pendingRd, s.pendingWr, v, t);
  }

  lemma AcceptServedRead(p: Config, s: Channel, v: Live, addr: nat)
    requires RestOk(p, s) && PendingOk(p, s, v) && (addr in s.pendingRd || addr in s.pendingWr)
    ensures RestOk(p, Accept(p, s, addr, false)) && PendingOk(p, Accept(p, s, addr, false), LiveWith(s, v, addr, false))
  {
    var t := Transaction(|s.trace.log|, addr, s.clk, 0, false);
    if addr in s.pendingWr {
      MapsGrow(s.trace.log, s.pendingRd, s.pendingWr, Request(addr, false, s.clk));
    } else {
      PendsAfterJoin(p, s.trace.log, s.cq.queues, TransQueue(p, s, false), TransQueue(p, s, true), s.pendingRd, s.pendingWr, v, t);
    }
  }

  lemma AcceptStands(p: Config, s: Channel, v: Live, addr: nat, isWrite: bool)
    requires Usable(p) && RestOk(p, s) && PendingOk(p, s, v)
    ensures RestOk(p, Accept(p, s, addr, isWrite)) && PendingOk(p, Accept(p, s, addr, isWrite), LiveWith(s, v, addr, isWrite))
  {
    hide RestOk, PendingOk, Accept, LiveWith;
    if isWrite {
      AcceptWrite(p, s, v, addr);
    } else if addr in s.pendingRd || addr in s.pendingWr {
      AcceptServedRead(p, s, v, addr);
    } else {
      AcceptNewRead(p, s, v, addr);
    }
  }

  lemma AllAfterAccept(p: Config, s: Channel, addr: nat, isWrite: bool)
    ensures var now := Accept(p, s, addr, isWrite);
            All(now) == LiveWith(s, All(s), addr, isWrite) && now.dev == s.dev && now.clk == s.clk && now.trace.hist == s.trace.hist
  {
    if isWrite {
      assert s.pendingWr[addr := []].Keys == s.pendingWr.Keys + {addr};
    }
  }

  lemma AcceptKeepsInv(p: Config, s: Channel, addr: nat, isWrite: bool)
    requires Usable(p) && Inv(p, s)
    ensures Inv(p, Accept(p, s, addr, isWrite)) && (Intact(p, s) ==> Intact(p, Accept(p, s, addr, isWrite)))
  {
    hide RestOk, PendingOk, Accept, LiveWith;
    var v := SomeLive(p, s);
    AcceptStands(p, s, v, addr, isWrite);
    AllAfterAccept(p, s, addr, isWrite);
  }

  // ----- runs

  /** The cycle from `s` drops a column access. */
  predicate Drops(p: Config, s: Channel) {
    PhaseDrops(p, RefreshTick(p, DrainDone(s)))
  }

  /** No cycle of the run drops a column access. */
  ghost predicate Whole(p: Config, es: seq<Event>) {
    es == [] ||
    (var before := es[..|es| - 1];
     Whole(p, before) && (es[|es| - 1].Cycle? && Run(p, before).Some? ==> !Drops(p, Run(p, before).value)))
  }

  lemma TickKeepsInv(p: Config, s: Channel)
    requires Usable(p) && Inv(p, s)
    ensures Tick(p, s).Some? && Inv(p, Tick(p, s).value)
    ensures Intact(p, s) && !PhaseDrops(p, RefreshTick(p, s)) ==> Intact(p, Tick(p, s).value)
  {
    hide Inv, Intact, PhaseDrops, Schedule;
    RefreshTickKeepsInv(p, s);
    var c, one, d, two := IssueParts(p, RefreshTick(p, s));
    ScheduleKeepsInv(p, two);
    AdvanceKeepsInv(p, Schedule(p, two));
  }

  /** The parts of a cycle, from the call backs to the two issues; scheduling and the clock come after. */
  lemma CycleParts(p: Config, s: Channel) returns (asked: Channel, c: Choice, one: Channel, d: Choice, two: Channel)
    requires Usable(p) && Inv(p, s)
    ensures asked == RefreshTick(p, DrainDone(s)) && Inv(p, DrainDone(s)) && Inv(p, asked)
    ensures Chosen(p, asked.dev, asked.cq, c) && RefreshChoice(p, asked, c) && IssueChoice(p, asked, c) == Some(one) && Inv(p, one)
    ensures Doable(p, one, d) && IssueChoice(p, one, d) == Some(two) && Inv(p, two)
    ensures Step(p, s, Cycle) == Some(Advance(Schedule(p, two))) && c == ChooseFirst(p, asked)
    ensures d.answer.Ready? ==> !d.answer.cmd.kind.IsRefresh() && p.dualCommand && d.answer == GetCommandToIssue(p, one.dev, one.cq).answer
    ensures Intact(p, s) ==> Intact(p, asked) && Intact(p, one)
  {
    hide Inv, Intact, PhaseDrops, Schedule;
    DrainKeepsInv(p, s);
    asked := RefreshTick(p, DrainDone(s));
    RefreshTickKeepsInv(p, DrainDone(s));
    c, one, d, two := IssueParts(p, asked);
  }

  /** Scheduling moves transactions and touches nothing else. */
  lemma ScheduleFrame(p: Config, s: Channel)
    ensures var now := Schedule(p, s);
            now.trace == s.trace && now.pendingRd == s.pendingRd && now.pendingWr == s.pendingWr && now.returnQ == s.returnQ &&
            now.clk == s.clk && now.dev == s.dev && now.refreshQ == s.refreshQ && now.timer == s.timer
  {
  }

  lemma StepKeepsInv(p: Config, s: Channel, e: Event)
    requires Usable(p) && Inv(p, s)
    ensures Step(p, s, e).Some? && Inv(p, Step(p, s, e).value)
    ensures Intact(p, s) && (e.Cycle? ==> !Drops(p, s)) ==> Intact(p, Step(p, s, e).value)
  {
    hide Inv, Intact, Tick, PhaseDrops, Accept;
    match e
    case Arrive(addr, isWrite) =>
      AcceptKeepsInv(p, s, addr, isWrite);
    case Cycle =>
      DrainKeepsInv(p, s);
      TickKeepsInv(p, DrainDone(s));
  }

  lemma StepKeepsIntact(p: Config, s: Channel, e: Event)
    requires Usable(p) && Intact(p, s) && (e.Cycle? ==> !Drops(p, s))
    ensures Step(p, s, e).Some? && Intact(p, Step(p, s, e).value)
  {
    hide Inv, Intact, Step, Drops;
    IntactIsInv(p, s);
    StepKeepsInv(p, s, e);
  }

  /** No run exits or aborts, and every state of it satisfies the invariant. */
  lemma {:induction false} RunKeepsInv(p: Config, es: seq<Event>)
    requires Usable(p)
    ensures Run(p, es).Some? && Inv(p, Run(p, es).value)
  {
    hide Inv, Intact, Step, Drops;
    if es == [] {
      NewChannelInv(p);
    } else {
      RunKeepsInv(p, es[..|es| - 1]);
      StepKeepsInv(p, Run(p, es[..|es| - 1]).value, es[|es| - 1]);
    }
  }

  /** As long as no column access is dropped, everything pending has its entry. */
  lemma {:induction false} WholeRunsAreIntact(p: Config, es: seq<Event>)
    requires Usable(p) && Whole(p, es)
    ensures Run(p, es).Some? && Intact(p, Run(p, es).value)
  {
    hide Inv, Intact, Step, Drops;
    RunKeepsInv(p, es);
    if es == [] {
      NewChannelInv(p);
    } else {
      WholeRunsAreIntact(p, es[..|es| - 1]);
      IntactIsInv(p, Run(p, es[..|es| - 1]).value);
      StepKeepsInv(p, Run(p, es[..|es| - 1]).value, es[|es| - 1]);
    }
  }

  /** With dual issue off, or column accesses a cycle apart, every run is such a run. */
  lemma {:induction false} SafeRunsAreWhole(p: Config, es: seq<Event>)
    requires Usable(p) && DualSafe(p)
    ensures Whole(p, es)
  {
    if es != [] {
      var before := es[..|es| - 1];
      SafeRunsAreWhole(p, before);
      RunKeepsInv(p, before);
      SpacedCycleKeepsAll(p, Run(p, before).value);
    }
  }

  lemma SpacedCycleKeepsAll(p: Config, s: Channel)
    requires Usable(p) && DualSafe(p) && Inv(p, s)
    ensures !Drops(p, s)
  {
    DrainKeepsInv(p, s);
    RefreshTickKeepsInv(p, DrainDone(s));
    SpacedPhaseKeepsAll(p, RefreshTick(p, DrainDone(s)));
  }
}
