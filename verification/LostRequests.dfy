/** Configurations with dual issue in which the controller loses a request. */
module LostRequests {
  import opened Common
  import opened Configuration
  import opened TimingSpec
  import opened Device
  import opened DeviceRuns
  import opened Scheduler
  import opened Channel
  import opened ChannelInv
  import opened ChannelSteps
  import opened DualIssue
  import opened Scripts
  import opened TimingLaws

  /** When the first write of a fresh channel is issued, and then the first read in another rank. */
  function WriteAt(p: Config): int {
    1 + ActivateToWrite(p)
  }

  function OpenAt(p: Config): int {
    WriteAt(p) + 2
  }

  function ReadAt(p: Config): int {
    OpenAt(p) + ActivateToRead(p)
  }

  /** When a second write to the first row gets ready. */
  function MeetAt(p: Config): int {
    Max(ReadAt(p) + Cross(p).readToWrite, WriteAt(p) + Near(p).writeToWrite)
  }

  /**
    Open-page channels with dual issue and one queue for reads and writes, room for a request, and addresses
    `w` and `r` in different ranks.
   */
  ghost predicate OpenPage(p: Config, w: nat, r: nat) {
    Usable(p) && Timed(p) && Roomy(p) && p.unifiedQueue && !p.closePage && p.dualCommand && ActivateToRead(p) >= 1 && ActivateToWrite(p) >= 1 &&
    Target(p, w).rank != Target(p, r).rank
  }

  /** A read in one rank may go with a write in the other, and is ready by the time the write is. */
  predicate Meets(p: Config) {
    Cross(p).writeToRead <= 0 && 3 <= Cross(p).readToWrite && Near(p).readToRead <= Cross(p).readToWrite
  }

  /** The commands issued so far: the write's row, the write, the read's row, the read. */
  function Opened(p: Config, w: nat): seq<Issued> {
    [Issued(Activation(WriteOf(p, w)), 1)]
  }

  function Written(p: Config, w: nat): seq<Issued> {
    Opened(p, w) + [Issued(WriteOf(p, w), WriteAt(p))]
  }

  function BothOpened(p: Config, w: nat, r: nat): seq<Issued> {
    Written(p, w) + [Issued(Activation(ReadOf(p, r)), OpenAt(p))]
  }

  function BothServed(p: Config, w: nat, r: nat): seq<Issued> {
    BothOpened(p, w, r) + [Issued(ReadOf(p, r), ReadAt(p))]
  }

  lemma OpenedAllows(p: Config, w: nat, t: int)
    requires Timed(p) && !p.closePage
    ensures Allowed(p, Opened(p, w), Target(p, w), Write, t) <==> WriteAt(p) <= t
  {
    SameBankBound(p, Opened(p, w)[0], Target(p, w), Write);
  }

  lemma WrittenAllows(p: Config, w: nat, r: nat, t: int)
    requires Timed(p) && !p.closePage && Target(p, w).rank != Target(p, r).rank
    ensures Allowed(p, Written(p, w), Target(p, r), Activate, t)
  {
    var h := Written(p, w);
    assert h[0] == Issued(Activation(WriteOf(p, w)), 1) && h[1] == Issued(WriteOf(p, w), WriteAt(p));
    OtherRankBound(p, h[0], Target(p, r), Activate);
    OtherRankBound(p, h[1], Target(p, r), Activate);
  }

  lemma BothOpenedAllows(p: Config, w: nat, r: nat, t: int)
    requires Timed(p) && !p.closePage && Target(p, w).rank != Target(p, r).rank && Cross(p).writeToRead <= 0 && WriteAt(p) <= t
    ensures Allowed(p, BothOpened(p, w, r), Target(p, r), Read, t) <==> ReadAt(p) <= t
  {
    var h := BothOpened(p, w, r);
    assert h[0] == Issued(Activation(WriteOf(p, w)), 1) && h[1] == Issued(WriteOf(p, w), WriteAt(p));
    OtherRankBound(p, h[0], Target(p, r), Read);
    OtherRankBound(p, h[1], Target(p, r), Read);
    SameBankBound(p, h[2], Target(p, r), Read);
  }

  /** The second write waits for the turnaround between ranks. */
  lemma ServedAllowsWrite(p: Config, w: nat, r: nat, t: int)
    requires Timed(p) && !p.closePage && Target(p, w).rank != Target(p, r).rank && WriteAt(p) <= t
    ensures Allowed(p, BothServed(p, w, r), Target(p, w), Write, t) <==> MeetAt(p) <= t
  {
    var h := BothServed(p, w, r);
    assert h[0] == Issued(Activation(WriteOf(p, w)), 1) && h[1] == Issued(WriteOf(p, w), WriteAt(p));
    assert h[2] == Issued(Activation(ReadOf(p, r)), OpenAt(p)) && h[3] == Issued(ReadOf(p, r), ReadAt(p));
    SameBankBound(p, h[0], Target(p, w), Write);
    SameBankBound(p, h[1], Target(p, w), Write);
    OtherRankBound(p, h[2], Target(p, w), Write);
    OtherRankBound(p, h[3], Target(p, w), Write);
  }

  /** The second read does not, not even for a write in its own cycle. */
  lemma ServedAllowsRead(p: Config, w: nat, r: nat, t: int)
    requires Timed(p) && !p.closePage && Target(p, w).rank != Target(p, r).rank && Meets(p) && MeetAt(p) <= t
    ensures Allowed(p, BothServed(p, w, r), Target(p, r), Read, t)
    ensures Allowed(p, BothServed(p, w, r) + [Issued(WriteOf(p, w), t)], Target(p, r), Read, t)
  {
    var h := BothServed(p, w, r) + [Issued(WriteOf(p, w), t)];
    assert h[0] == Issued(Activation(WriteOf(p, w)), 1) && h[1] == Issued(WriteOf(p, w), WriteAt(p));
    assert h[2] == Issued(Activation(ReadOf(p, r)), OpenAt(p)) && h[3] == Issued(ReadOf(p, r), ReadAt(p));
    OtherRankBound(p, h[0], Target(p, r), Read);
    OtherRankBound(p, h[1], Target(p, r), Read);
    SameBankBound(p, h[2], Target(p, r), Read);
    SameBankBound(p, h[3], Target(p, r), Read);
    OtherRankBound(p, h[4], Target(p, r), Read);
    assert forall i | 0 <= i < 4 :: BothServed(p, w, r)[i] == h[i];
  }

  lemma Apart(p: Config, w: nat, r: nat)
    requires Usable(p) && Target(p, w).rank != Target(p, r).rank
    ensures Home(p, w) != Home(p, r) && 0 <= Home(p, w) < QueueCount(p) && 0 <= Home(p, r) < QueueCount(p)
  {
    HomeInRange(p, Target(p, w));
    HomeInRange(p, Target(p, r));
  }

  // ----- the run

  /** The write is served alone; after it the read, in the other rank. */
  lemma WriteServed(p: Config, w: nat, r: nat) returns (es: seq<Event>, s: Channel)
    requires OpenPage(p, w, r) && RefreshInterval(p) > WriteAt(p)
    ensures Run(p, es) == Some(s) && View(p, s, WriteAt(p) + 1, Written(p, w), map[], Home(p, w))
  {
    hide Run, View, Allowed;
    var q, cmd, l := Home(p, w), WriteOf(p, w), Target(p, w);
    FreshView(p);
    FewRefreshes(p, 0, WriteAt(p));
    NothingQueued(p, NewChannel(p), 0, [], 0);
    es, s := Enter(p, [], NewChannel(p), 0, [], map[], 0, w, true);
    assert map[][q := cmd] == map[q := cmd];
    forall t: int
      ensures Allowed(p, [], l, Activate, t)
    {
      NothingIssued(p, l, Activate, t);
    }
    assert [] + Opened(p, w) == Opened(p, w);
    forall t: int
      ensures Allowed(p, Opened(p, w), l, Write, t) <==> WriteAt(p) <= t
    {
      OpenedAllows(p, w, t);
    }
    es, s := Activated(p, es, s, 1, [], 0, q, cmd, 1);
    assert OpenSince(Opened(p, w), l, 0);
    es, s := Accessed(p, es, s, 2, Opened(p, w), q, q, cmd, 0, WriteAt(p));
  }

  lemma ReadEnters(p: Config, w: nat, r: nat) returns (es: seq<Event>, s: Channel)
    requires OpenPage(p, w, r) && RefreshInterval(p) > OpenAt(p)
    ensures Run(p, es) == Some(s) && View(p, s, OpenAt(p), Written(p, w), map[Home(p, r) := ReadOf(p, r)], Home(p, w))
  {
    hide Run, View, Allowed, Usable, Target, Home, TransToCommand, Written;
    es, s := WriteServed(p, w, r);
    FewRefreshes(p, 0, WriteAt(p) + 1);
    NothingQueued(p, s, WriteAt(p) + 1, Written(p, w), Home(p, w));
    es, s := Enter(p, es, s, WriteAt(p) + 1, Written(p, w), map[], Home(p, w), r, false);
    assert map[][Home(p, r) := ReadOf(p, r)] == map[Home(p, r) := ReadOf(p, r)];
  }

  lemma CommandsGoHome(p: Config, a: nat)
    requires Usable(p) && !p.closePage
    ensures p.HasLoc(Target(p, a)) && 0 <= Home(p, a) < QueueCount(p) && QueueIndex(p, Target(p, a)) == Home(p, a)
    ensures ReadOf(p, a).Place() == Target(p, a) == WriteOf(p, a).Place() && ReadOf(p, a).kind.Read? && WriteOf(p, a).kind.Write?
  {
    HomeInRange(p, Target(p, a));
  }

  lemma ReadActivated(p: Config, w: nat, r: nat) returns (es: seq<Event>, s: Channel)
    requires OpenPage(p, w, r) && RefreshInterval(p) > OpenAt(p) && Cross(p).writeToRead <= 0
    ensures Run(p, es) == Some(s) && View(p, s, OpenAt(p) + 1, BothOpened(p, w, r), map[Home(p, r) := ReadOf(p, r)], Home(p, r))
  {
    hide Run, View, Allowed, Usable, Target, Home, ReadOf;
    es, s := ReadEnters(p, w, r);
    CommandsGoHome(p, r);
    FewRefreshes(p, OpenAt(p), OpenAt(p));
    WrittenAllows(p, w, r, OpenAt(p));
    BothOpenedAllows(p, w, r, OpenAt(p));
    NeverOpened(p, w, r);
    es, s := Activated(p, es, s, OpenAt(p), Written(p, w), Home(p, w), Home(p, r), ReadOf(p, r), OpenAt(p));
  }

  lemma ReadServed(p: Config, w: nat, r: nat) returns (es: seq<Event>, s: Channel)
    requires OpenPage(p, w, r) && RefreshInterval(p) > ReadAt(p) && Cross(p).writeToRead <= 0
    ensures Run(p, es) == Some(s) && View(p, s, ReadAt(p) + 1, BothServed(p, w, r), map[], Home(p, r))
  {
    hide Run, View, Allowed, Usable, Home;
    es, s := ReadActivated(p, w, r);
    CommandsGoHome(p, r);
    FewRefreshes(p, OpenAt(p), ReadAt(p));
    forall t: int | WriteAt(p) <= t
      ensures Allowed(p, BothOpened(p, w, r), Target(p, r), Read, t) <==> ReadAt(p) <= t
    {
      BothOpenedAllows(p, w, r, t);
    }
    assert OpenSince(BothOpened(p, w, r), Target(p, r), 2);
    es, s := Accessed(p, es, s, OpenAt(p) + 1, BothOpened(p, w, r), Home(p, r), Home(p, r), ReadOf(p, r), 2, ReadAt(p));
  }

  lemma NeverOpened(p: Config, w: nat, r: nat)
    requires Target(p, w).rank != Target(p, r).rank
    ensures !exists i :: OpenSince(Written(p, w), Target(p, r), i)
  {
    var h := Written(p, w);
    assert h[0] == Issued(Activation(WriteOf(p, w)), 1) && h[1] == Issued(WriteOf(p, w), WriteAt(p));
  }

  /** Both rows stay open. */
  lemma BothOpen(p: Config, w: nat, r: nat, t: int)
    requires !p.closePage && Target(p, w).rank != Target(p, r).rank
    ensures OpenSince(BothServed(p, w, r), Target(p, w), 0) && OpenSince(BothServed(p, w, r), Target(p, r), 2)
    ensures OpenSince(BothServed(p, w, r) + [Issued(WriteOf(p, w), t)], Target(p, r), 2)
  {
    var h := BothServed(p, w, r) + [Issued(WriteOf(p, w), t)];
    assert h[0] == Issued(Activation(WriteOf(p, w)), 1) && h[1] == Issued(WriteOf(p, w), WriteAt(p));
    assert h[2] == Issued(Activation(ReadOf(p, r)), OpenAt(p)) && h[3] == Issued(ReadOf(p, r), ReadAt(p));
    assert forall i | 0 <= i < 4 :: BothServed(p, w, r)[i] == h[i];
  }

  /** The two commands that will meet. */
  function Pending(p: Config, w: nat, r: nat): map<int, Command> {
    map[Home(p, w) := WriteOf(p, w), Home(p, r) := ReadOf(p, r)]
  }

  /** The second write comes in at once, and waits for its turn. */
  lemma WriteWaits(p: Config, w: nat, r: nat) returns (es: seq<Event>, s: Channel)
    requires OpenPage(p, w, r) && Meets(p) && RefreshInterval(p) > MeetAt(p)
    ensures Run(p, es) == Some(s) && View(p, s, MeetAt(p) - 1, BothServed(p, w, r), map[Home(p, w) := WriteOf(p, w)], Home(p, r))
    ensures Silent(p, s.dev, map[Home(p, w) := WriteOf(p, w)], MeetAt(p) - 1)
  {
    hide Run, View, Allowed, Usable, Home, Target, TransToCommand, BothServed, Silent;
    es, s := ReadServed(p, w, r);
    FewRefreshes(p, 0, MeetAt(p));
    var h, items := BothServed(p, w, r), map[Home(p, w) := WriteOf(p, w)];
    NothingQueued(p, s, ReadAt(p) + 1, h, Home(p, r));
    es, s := Enter(p, es, s, ReadAt(p) + 1, h, map[], Home(p, r), w, true);
    assert map[][Home(p, w) := WriteOf(p, w)] == items;
    forall t: nat | ReadAt(p) + 2 <= t < MeetAt(p)
      ensures Silent(p, s.dev, items, t)
    {
      WriteIsSilent(p, s, ReadAt(p) + 2, w, r, items, Home(p, r), t);
    }
    es, s := WaitUntil(p, es, s, ReadAt(p) + 2, h, items, Home(p, r), MeetAt(p) - 1);
  }

  lemma WriteIsSilent(p: Config, s: Channel, clk: int, w: nat, r: nat, items: map<int, Command>, next: int, t: int)
    requires OpenPage(p, w, r) && View(p, s, clk, BothServed(p, w, r), items, next) && items == map[Home(p, w) := WriteOf(p, w)]
    requires WriteAt(p) <= t < MeetAt(p)
    ensures Silent(p, s.dev, items, t)
  {
    hide Allowed, Intact;
    ViewHolds(p, s, clk, BothServed(p, w, r), items, next);
    WriteAnswer(p, s, clk, w, r, items, next, t);
  }

  lemma WriteAnswer(p: Config, s: Channel, clk: int, w: nat, r: nat, items: map<int, Command>, next: int, t: int)
    requires OpenPage(p, w, r) && View(p, s, clk, BothServed(p, w, r), items, next) && WriteAt(p) <= t
    ensures GetReady(p, s.dev, WriteOf(p, w), t) == if MeetAt(p) <= t then Ready(WriteOf(p, w)) else NotYet
  {
    hide Allowed, Intact, GetReady;
    var h := BothServed(p, w, r);
    ViewHolds(p, s, clk, h, items, next);
    CommandsGoHome(p, w);
    BothOpen(p, w, r, t);
    RowIsOpen(p, h, Target(p, w), 0);
    AnswerOnRow(p, h, WriteOf(p, w), t);
    ServedAllowsWrite(p, w, r, t);
  }

  /** The second read comes in just before the write is ready. */
  lemma BothWait(p: Config, w: nat, r: nat) returns (es: seq<Event>, s: Channel)
    requires OpenPage(p, w, r) && Meets(p) && RefreshInterval(p) > MeetAt(p)
    ensures Run(p, es) == Some(s) && View(p, s, MeetAt(p), BothServed(p, w, r), Pending(p, w, r), Home(p, r))
  {
    hide Run, View, Allowed, Usable, Home, Target, TransToCommand, BothServed, Silent;
    var items := map[Home(p, w) := WriteOf(p, w)];
    es, s := WriteWaits(p, w, r);
    FewRefreshes(p, 0, MeetAt(p));
    Apart(p, w, r);
    TimerIs(p, s, MeetAt(p) - 1, BothServed(p, w, r), items, Home(p, r));
    es, s := Enter(p, es, s, MeetAt(p) - 1, BothServed(p, w, r), items, Home(p, r), r, false);
    assert items[Home(p, r) := ReadOf(p, r)] == Pending(p, w, r);
  }

  lemma ReadAnswers(p: Config, s: Channel, w: nat, r: nat, items: map<int, Command>, next: int)
    requires OpenPage(p, w, r) && Meets(p) && View(p, s, MeetAt(p), BothServed(p, w, r), items, next)
    requires Issue(p, s.dev, WriteOf(p, w), MeetAt(p)).Some?
    ensures GetReady(p, Issue(p, s.dev, WriteOf(p, w), MeetAt(p)).value, ReadOf(p, r), MeetAt(p)) == Ready(ReadOf(p, r))
  {
    hide Allowed, Intact, GetReady, Issue;
    var h, t := BothServed(p, w, r), MeetAt(p);
    var g := h + [Issued(WriteOf(p, w), t)];
    ViewHolds(p, s, t, h, items, next);
    WriteAnswer(p, s, t, w, r, items, next, t);
    CommandsGoHome(p, w);
    CommandsGoHome(p, r);
    GoesOn(p, s, h, WriteOf(p, w), WriteOf(p, w), t);
    BothOpen(p, w, r, t);
    RowIsOpen(p, g, Target(p, r), 2);
    AnswerOnRow(p, g, ReadOf(p, r), t);
    ServedAllowsRead(p, w, r, t);
  }

  /** In the cycle in which both are ready the write goes first, and the read is taken off its queue and dropped. */
  lemma MeetingDrops(p: Config, s: Channel, w: nat, r: nat)
    requires OpenPage(p, w, r) && Meets(p) && RefreshInterval(p) > MeetAt(p)
    requires View(p, s, MeetAt(p), BothServed(p, w, r), Pending(p, w, r), Home(p, r))
    ensures Drops(p, s)
  {
    hide Intact, GetReady, Issue, Usable, GetCommandToIssue, IssueCommand, Target, Home, TransToCommand, Filled, Drops, BothServed;
    var t, items, q, q' := MeetAt(p), Pending(p, w, r), Home(p, w), Home(p, r);
    var left := map[q' := ReadOf(p, r)];
    Apart(p, w, r);
    CommandsGoHome(p, w);
    CommandsGoHome(p, r);
    FewRefreshes(p, t, t);
    ViewHolds(p, s, t, BothServed(p, w, r), items, q');
    WriteAnswer(p, s, t, w, r, items, q', t);
    OneServed(p, s, t, BothServed(p, w, r), items, q', q, WriteOf(p, w));
    assert Remaining(items, q, WriteOf(p, w)) == left;
    var cq := s.cq.(queues := Filled(p, left), next := q);
    var one := CommandGoes(p, s, WriteOf(p, w), cq);
    IssuedIs(p, RefreshTick(p, DrainDone(s)).(cq := cq), WriteOf(p, w), one);
    ReadAnswers(p, s, w, r, items, q');
    SecondIsRead(p, one.dev, one.cq, left, q', ReadOf(p, r));
    PairDrops(p, s, WriteOf(p, w), cq, one, ReadOf(p, r));
  }

  lemma SecondIsRead(p: Config, d: Device, cq: CommandQueue, items: map<int, Command>, q: int, cmd: Command)
    requires Turning(p, cq) && cq.queues == Filled(p, items) && 0 <= q < QueueCount(p) && items == map[q := cmd] && cmd.kind.IsReadWrite()
    requires GetReady(p, d, cmd, cq.clk) == Ready(cmd) && QueueIndex(p, cmd.Place()) == q
    ensures GetCommandToIssue(p, d, cq).answer == Ready(cmd)
  {
    hide GetReady, QueueIndex;
    forall r | 0 <= r < |cq.queues|
      ensures r != q ==> Asked(p, d, cq, r).NotYet?
    {
      AskedOne(p, d, cq, items, r);
    }
    AskedOne(p, d, cq, items, q);
    OfferTaken(p, d, cq, q);
    assert cq.queues[q] == [cmd] && Erased([cmd], cmd).Some?;
  }

  lemma PairDrops(p: Config, s: Channel, first: Command, cq: CommandQueue, one: Channel, second: Command)
    requires p.dualCommand && s.refreshQ == [] && !RefreshDue(p, s.timer.clk) && GetCommandToIssue(p, s.dev, s.cq) == Choice(Ready(first), cq)
    requires IssueCommand(p, RefreshTick(p, DrainDone(s)).(cq := cq), first) == Some(one)
    requires GetCommandToIssue(p, one.dev, one.cq).answer == Ready(second) && first.kind.IsReadWrite() && second.kind.IsReadWrite()
    ensures Drops(p, s)
  {
    hide GetCommandToIssue, IssueCommand;
  }

  // ----- what it comes to

  /** Where a read may go with a write of the other rank, a run of four requests loses the last. */
  lemma MeetingLoses(p: Config, w: nat, r: nat) returns (es: seq<Event>)
    requires OpenPage(p, w, r) && Meets(p) && RefreshInterval(p) > MeetAt(p)
    ensures Loses(p, es)
  {
    hide Run, Step, Loses, View, Lost, Drops;
    var s;
    es, s := BothWait(p, w, r);
    MeetingDrops(p, s, w, r);
    StateIsSound(p, s, MeetAt(p), BothServed(p, w, r), Pending(p, w, r), Home(p, r));
    var a, isWrite := DropLoses(p, s);
    LosesNext(p, es, s, Step(p, s, Cycle).value, a, isWrite);
    es := es + [Cycle];
  }

  lemma StateIsSound(p: Config, s: Channel, clk: int, h: seq<Issued>, items: map<int, Command>, next: int)
    requires View(p, s, clk, h, items, next)
    ensures Intact(p, s)
  {
  }

  /** All delays between column accesses are at least a cycle but, perhaps, the one from a write to a read in another rank. */
  predicate OtherwiseSpaced(p: Config) {
    Positive(Near(p)) && (p.bankgroups > 1 ==> Positive(Far(p))) &&
    Cross(p).readToRead >= 1 && Cross(p).readToWrite >= 3 && Cross(p).writeToWrite >= 1 && Near(p).readToRead <= Cross(p).readToWrite
  }

  /**
    In such a configuration some run loses a request if and only if dual issue is not safe, which is when the
    write latency and the turnaround between ranks do not make up for the read latency.
   */
  lemma RunsLoseExactlyWhenUnsafe(p: Config, w: nat, r: nat)
    requires OpenPage(p, w, r) && OtherwiseSpaced(p) && RefreshInterval(p) > MeetAt(p)
    ensures (exists es :: Loses(p, es)) <==> !DualSafe(p)
    ensures !DualSafe(p) <==> p.WriteDelay() + p.burstCycle + p.tRTRS <= p.ReadDelay()
  {
    RanksDiffer(p, w, r);
    if DualSafe(p) {
      forall es
        ensures !Loses(p, es)
      {
        SafeRunsLoseNothing(p, es);
      }
    } else {
      var es := MeetingLoses(p, w, r);
    }
  }

  lemma RanksDiffer(p: Config, w: nat, r: nat)
    requires Usable(p) && Target(p, w).rank != Target(p, r).rank
    ensures p.ranks > 1
  {
    assert p.HasLoc(Target(p, w)) && p.HasLoc(Target(p, r));
  }
}
