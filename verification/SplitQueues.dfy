/**
  Configurations with dual issue and separate queues for reads and writes in which the controller loses a
  request. Writes are only served once nine of them wait, or the write buffer is full (src/controller.cc:281-289).
 */
module SplitQueues {
  import opened Common
  import opened Configuration
  import opened TimingSpec
  import opened Device
  import opened DeviceRuns
  import opened Scheduler
  import opened Channel
  import opened ChannelInv
  import opened ChannelSteps
  import opened Lines
  import opened DualIssue
  import opened Scripts
  import opened TimingLaws
  import opened LostRequests
  import opened WriteBursts

  // ----- the configurations, and when what happens

  /** When the first read of a fresh channel is issued, and then the first read in another rank. */
  function FirstReadAt(p: Config): int {
    1 + ActivateToRead(p)
  }

  function OtherOpenAt(p: Config): int {
    FirstReadAt(p) + 2
  }

  function OtherReadAt(p: Config): int {
    Max(OtherOpenAt(p) + ActivateToRead(p), FirstReadAt(p) + Cross(p).readToRead)
  }

  /** When a write to the first row is ready. */
  function WritesAt(p: Config): int {
    Max(OtherReadAt(p) + Cross(p).readToWrite, 1 + ActivateToWrite(p))
  }

  /** A cycle by which the run is over. */
  function LastAt(p: Config): int {
    WritesAt(p) + 10 + Cross(p).readToWrite
  }

  /** Open-page channels with dual issue and separate queues, `ws` in one row, `r` in another rank. */
  ghost predicate SplitPage(p: Config, ws: seq<nat>, r: nat) {
    Usable(p) && Timed(p) && !p.unifiedQueue && !p.closePage && p.dualCommand && p.transQueueSize >= 9 && p.cmdQueueSize >= 8 &&
    ActivateToRead(p) >= 1 && |ws| == 9 && OneRow(p, ws) && Target(p, ws[0]).rank != Target(p, r).rank
  }

  /** A read in one rank may go with a write in the other; writes to one row take turns with idle cycles. */
  predicate MeetsLater(p: Config) {
    Meets(p) && 2 <= Near(p).writeToWrite <= Cross(p).readToWrite + 1
  }

  // ----- both rows are opened by reads

  function FirstOpened(p: Config, w: nat): seq<Issued> {
    [Issued(Activation(ReadOf(p, w)), 1)]
  }

  function FirstRead(p: Config, w: nat): seq<Issued> {
    FirstOpened(p, w) + [Issued(ReadOf(p, w), FirstReadAt(p))]
  }

  function OtherOpened(p: Config, w: nat, r: nat): seq<Issued> {
    FirstRead(p, w) + [Issued(Activation(ReadOf(p, r)), OtherOpenAt(p))]
  }

  function OtherRead(p: Config, w: nat, r: nat): seq<Issued> {
    OtherOpened(p, w, r) + [Issued(ReadOf(p, r), OtherReadAt(p))]
  }

  lemma FirstOpenedAllows(p: Config, w: nat, t: int)
    requires Timed(p) && !p.closePage
    ensures Allowed(p, FirstOpened(p, w), Target(p, w), Read, t) <==> FirstReadAt(p) <= t
  {
    SameBankBound(p, FirstOpened(p, w)[0], Target(p, w), Read);
  }

  lemma FirstReadAllows(p: Config, w: nat, r: nat, t: int)
    requires Timed(p) && !p.closePage && Target(p, w).rank != Target(p, r).rank
    ensures Allowed(p, FirstRead(p, w), Target(p, r), Activate, t)
    ensures !exists i :: OpenSince(FirstRead(p, w), Target(p, r), i)
  {
    var h := FirstRead(p, w);
    assert h[0] == Issued(Activation(ReadOf(p, w)), 1) && h[1] == Issued(ReadOf(p, w), FirstReadAt(p));
    OtherRankBound(p, h[0], Target(p, r), Activate);
    OtherRankBound(p, h[1], Target(p, r), Activate);
  }

  lemma OtherOpenedAllows(p: Config, w: nat, r: nat, t: int)
    requires Timed(p) && !p.closePage && Target(p, w).rank != Target(p, r).rank
    ensures Allowed(p, OtherOpened(p, w, r), Target(p, r), Read, t) <==> OtherReadAt(p) <= t
  {
    var h := OtherOpened(p, w, r);
    assert h[0] == Issued(Activation(ReadOf(p, w)), 1) && h[1] == Issued(ReadOf(p, w), FirstReadAt(p));
    OtherRankBound(p, h[0], Target(p, r), Read);
    OtherRankBound(p, h[1], Target(p, r), Read);
    SameBankBound(p, h[2], Target(p, r), Read);
  }

  lemma FirstServed(p: Config, w: nat) returns (es: seq<Event>, s: Channel)
    requires Usable(p) && Timed(p) && Roomy(p) && !p.closePage && ActivateToRead(p) >= 1 && RefreshInterval(p) > FirstReadAt(p)
    ensures Run(p, es) == Some(s) && View(p, s, FirstReadAt(p) + 1, FirstRead(p, w), map[], Home(p, w))
  {
    hide Run, View, Allowed;
    var q, cmd, l := Home(p, w), ReadOf(p, w), Target(p, w);
    FreshView(p);
    FewRefreshes(p, 0, FirstReadAt(p));
    NothingQueued(p, NewChannel(p), 0, [], 0);
    es, s := Enter(p, [], NewChannel(p), 0, [], map[], 0, w, false);
    assert map[][q := cmd] == map[q := cmd];
    forall t: int
      ensures Allowed(p, [], l, Activate, t)
    {
      NothingIssued(p, l, Activate, t);
    }
    assert [] + FirstOpened(p, w) == FirstOpened(p, w);
    forall t: int
      ensures Allowed(p, FirstOpened(p, w), l, Read, t) <==> FirstReadAt(p) <= t
    {
      FirstOpenedAllows(p, w, t);
    }
    es, s := Activated(p, es, s, 1, [], 0, q, cmd, 1);
    assert OpenSince(FirstOpened(p, w), l, 0);
    es, s := Accessed(p, es, s, 2, FirstOpened(p, w), q, q, cmd, 0, FirstReadAt(p));
  }

  lemma OtherEnters(p: Config, ws: seq<nat>, r: nat) returns (es: seq<Event>, s: Channel)
    requires SplitPage(p, ws, r) && RefreshInterval(p) > OtherOpenAt(p)
    ensures var w := ws[0];
            Run(p, es) == Some(s) && View(p, s, OtherOpenAt(p), FirstRead(p, w), map[Home(p, r) := ReadOf(p, r)], Home(p, w))
  {
    hide Run, View, Allowed, Usable, Target, Home, TransToCommand, FirstRead;
    var w := ws[0];
    es, s := FirstServed(p, w);
    FewRefreshes(p, 0, OtherOpenAt(p));
    NothingQueued(p, s, FirstReadAt(p) + 1, FirstRead(p, w), Home(p, w));
    es, s := Enter(p, es, s, FirstReadAt(p) + 1, FirstRead(p, w), map[], Home(p, w), r, false);
    assert map[][Home(p, r) := ReadOf(p, r)] == map[Home(p, r) := ReadOf(p, r)];
  }

  lemma OtherActivated(p: Config, ws: seq<nat>, r: nat) returns (es: seq<Event>, s: Channel)
    requires SplitPage(p, ws, r) && RefreshInterval(p) > OtherOpenAt(p)
    ensures Run(p, es) == Some(s) && View(p, s, OtherOpenAt(p) + 1, OtherOpened(p, ws[0], r), map[Home(p, r) := ReadOf(p, r)], Home(p, r))
  {
    hide Run, View, Allowed, Usable, Target, Home, ReadOf;
    var w := ws[0];
    es, s := OtherEnters(p, ws, r);
    CommandsGoHome(p, r);
    FewRefreshes(p, OtherOpenAt(p), OtherOpenAt(p));
    FirstReadAllows(p, w, r, OtherOpenAt(p));
    OtherOpenedAllows(p, w, r, OtherOpenAt(p));
    es, s := Activated(p, es, s, OtherOpenAt(p), FirstRead(p, w), Home(p, w), Home(p, r), ReadOf(p, r), OtherOpenAt(p));
  }

  lemma OtherServed(p: Config, ws: seq<nat>, r: nat) returns (es: seq<Event>, s: Channel)
    requires SplitPage(p, ws, r) && RefreshInterval(p) > OtherReadAt(p)
    ensures Run(p, es) == Some(s) && View(p, s, OtherReadAt(p) + 1, OtherRead(p, ws[0], r), map[], Home(p, r))
  {
    hide Run, View, Allowed, Usable, Home;
    var h := OtherOpened(p, ws[0], r);
    es, s := OtherActivated(p, ws, r);
    CommandsGoHome(p, r);
    FewRefreshes(p, OtherOpenAt(p), OtherReadAt(p));
    forall t: int
      ensures Allowed(p, h, Target(p, r), Read, t) <==> OtherReadAt(p) <= t
    {
      OtherOpenedAllows(p, ws[0], r, t);
    }
    assert OpenSince(h, Target(p, r), 2);
    es, s := Accessed(p, es, s, OtherOpenAt(p) + 1, h, Home(p, r), Home(p, r), ReadOf(p, r), 2, OtherReadAt(p));
  }

  /** The channel is idle, both rows open, just before a write can go. */
  lemma Prepared(p: Config, ws: seq<nat>, r: nat) returns (es: seq<Event>, s: Channel)
    requires SplitPage(p, ws, r) && Cross(p).readToWrite >= 3 && RefreshInterval(p) > WritesAt(p)
    ensures Run(p, es) == Some(s) && View(p, s, WritesAt(p) - 1, OtherRead(p, ws[0], r), map[], Home(p, r))
  {
    hide Run, View, Usable, Home, OtherRead;
    es, s := OtherServed(p, ws, r);
    FewRefreshes(p, 0, WritesAt(p));
    forall t: nat
      ensures Silent(p, s.dev, map[], t)
    {
      NoneSilent(p, s.dev, t);
    }
    es, s := WaitUntil(p, es, s, OtherReadAt(p) + 1, OtherRead(p, ws[0], r), map[], Home(p, r), WritesAt(p) - 1);
  }

  // ----- what the history allows once writes are under way

  /** Writes to the row of `w`, from `WritesAt` on and before `end`. */
  ghost predicate Streak(p: Config, w: nat, g: seq<Issued>, end: int) {
    forall i | 0 <= i < |g| :: g[i].cmd.kind.Write? && g[i].cmd.Place() == Target(p, w) && WritesAt(p) <= g[i].at < end
  }

  /** The rows stay open. */
  lemma {:induction false} StreakKeepsOpen(p: Config, w: nat, r: nat, g: seq<Issued>, end: int)
    requires Streak(p, w, g, end) && !p.closePage && Target(p, w).rank != Target(p, r).rank
    ensures var h := OtherRead(p, w, r) + g;
            OpenSince(h, Target(p, w), 0) && h[0] == Issued(Activation(ReadOf(p, w)), 1) &&
            OpenSince(h, Target(p, r), 2) && h[2] == Issued(Activation(ReadOf(p, r)), OtherOpenAt(p))
  {
    var o, h := OtherRead(p, w, r), OtherRead(p, w, r) + g;
    assert o[0] == Issued(Activation(ReadOf(p, w)), 1) && o[1] == Issued(ReadOf(p, w), FirstReadAt(p));
    assert o[2] == Issued(Activation(ReadOf(p, r)), OtherOpenAt(p)) && o[3] == Issued(ReadOf(p, r), OtherReadAt(p));
    assert forall i | 0 <= i < |h| :: h[i] == if i < 4 then o[i] else g[i - 4];
  }

  /** A column access that is issued leaves rows open. */
  lemma StaysOpen(h: seq<Issued>, c: Issued, l: Loc, i: int)
    requires OpenSince(h, l, i) && (c.cmd.kind.Read? || c.cmd.kind.Write?)
    ensures OpenSince(h + [c], l, i)
  {
  }

  /** Before the next read a write waits for the last one only. */
  lemma StreakAllowsWrite(p: Config, w: nat, r: nat, g: seq<Issued>, end: int, t: int)
    requires Timed(p) && Streak(p, w, g, end) && !p.closePage && Target(p, w).rank != Target(p, r).rank && WritesAt(p) <= t
    ensures Allowed(p, OtherRead(p, w, r) + g, Target(p, w), Write, t) <==> forall i | 0 <= i < |g| :: g[i].at + Near(p).writeToWrite <= t
  {
    var o, h := OtherRead(p, w, r), OtherRead(p, w, r) + g;
    assert o[0] == Issued(Activation(ReadOf(p, w)), 1) && o[1] == Issued(ReadOf(p, w), FirstReadAt(p));
    assert o[2] == Issued(Activation(ReadOf(p, r)), OtherOpenAt(p)) && o[3] == Issued(ReadOf(p, r), OtherReadAt(p));
    SameBankBound(p, o[0], Target(p, w), Write);
    SameBankBound(p, o[1], Target(p, w), Write);
    OtherRankBound(p, o[2], Target(p, w), Write);
    OtherRankBound(p, o[3], Target(p, w), Write);
    forall i | 0 <= i < |g|
      ensures Bound(p, g[i], Target(p, w), Write) == Some(g[i].at + Near(p).writeToWrite) && h[4 + i] == g[i]
    {
      SameBankBound(p, g[i], Target(p, w), Write);
    }
    assert forall i | 0 <= i < |h| :: h[i] == if i < 4 then o[i] else g[i - 4];
  }

  /** Reads in the other rank do not wait for writes at all. */
  lemma StreakAllowsRead(p: Config, w: nat, r: nat, g: seq<Issued>, end: int, t: int)
    requires Timed(p) && Streak(p, w, g, end) && !p.closePage && Target(p, w).rank != Target(p, r).rank && Meets(p)
    requires WritesAt(p) <= t && end <= t + 1
    ensures Allowed(p, OtherRead(p, w, r) + g, Target(p, r), Read, t)
  {
    var o, h := OtherRead(p, w, r), OtherRead(p, w, r) + g;
    assert o[0] == Issued(Activation(ReadOf(p, w)), 1) && o[1] == Issued(ReadOf(p, w), FirstReadAt(p));
    assert o[2] == Issued(Activation(ReadOf(p, r)), OtherOpenAt(p)) && o[3] == Issued(ReadOf(p, r), OtherReadAt(p));
    OtherRankBound(p, o[0], Target(p, r), Read);
    OtherRankBound(p, o[1], Target(p, r), Read);
    SameBankBound(p, o[2], Target(p, r), Read);
    SameBankBound(p, o[3], Target(p, r), Read);
    forall i | 0 <= i < |g|
      ensures Bound(p, g[i], Target(p, r), Read) == Some(g[i].at + Cross(p).writeToRead)
    {
      OtherRankBound(p, g[i], Target(p, r), Read);
    }
    assert forall i | 0 <= i < |h| :: h[i] == if i < 4 then o[i] else g[i - 4];
  }

  /** One more command in the history. */
  lemma AllowedAfter(p: Config, h: seq<Issued>, c: Issued, l: Loc, k: CommandType, t: int)
    ensures Allowed(p, h + [c], l, k, t) <==> Allowed(p, h, l, k, t) && (Bound(p, c, l, k).Some? ==> Bound(p, c, l, k).value <= t)
  {
    var g := h + [c];
    assert g[|h|] == c && forall i | 0 <= i < |h| :: g[i] == h[i];
  }

  // ----- draining

  /** Issues so far leave a cycle between each other. */
  ghost predicate Paced(p: Config, g: seq<Issued>) {
    |g| > 0 ==> 2 * |g| <= g[|g| - 1].at - WritesAt(p) + 2
  }

  /** Nothing of the channel is new but `k` writes in the queue, the first |g| of them issued, and the rest in the buffer. */
  ghost predicate Moved(p: Config, ws: seq<nat>, r: nat, s: Channel, k: nat, g: seq<Issued>)
    requires |ws| == 9
  {
    k <= 9 && |g| <= k && s.refreshQ == [] && s.unified == [] && s.readQ == [] && s.trace.hist == OtherRead(p, ws[0], r) + g &&
    s.cq.queues == OneLine(p, Home(p, ws[0]), Commands(p, ws[|g|..k])) &&
    s.cq.next == (if g == [] then Home(p, r) else Home(p, ws[0])) && Buffered(s.writeBuf, ws[k..]) && s.draining == 9 - k && Paced(p, g)
  }

  ghost predicate Drain(p: Config, ws: seq<nat>, r: nat, s: Channel, k: nat, g: seq<Issued>)
    requires |ws| == 9
  {
    Intact(p, s) && s.clk == WritesAt(p) - 1 + k && s.timer.clk == WritesAt(p) - 1 + k && Moved(p, ws, r, s, k, g) &&
    Streak(p, ws[0], g, s.clk) && (k >= 2 ==> g != [])
  }

  lemma OneMoreMoves(p: Config, ws: seq<nat>, r: nat, x: Channel, k: nat, g: seq<Issued>)
    requires SplitPage(p, ws, r) && Moved(p, ws, r, x, k, g) && k < 9 && k < |g| + 8 && ws[k] !in x.pendingRd
    ensures var now := Advance(Schedule(p, x)); Moved(p, ws, r, now, k + 1, g) && now.clk == x.clk + 1 && now.timer == x.timer && now.dev == x.dev
  {
    hide TransToCommand, Joined, Usable;
    var q := Home(p, ws[0]);
    HomesApart(p, ws, r);
    assert ws[k..][0] == ws[k] && ws[k..][1..] == ws[k + 1..];
    assert Target(p, ws[k]) == Target(p, ws[0]);
    WriteMoves(p, x, ws[k..]);
    OneMoreCommand(p, ws, |g|, k);
  }

  lemma HomesApart(p: Config, ws: seq<nat>, r: nat)
    requires SplitPage(p, ws, r)
    ensures var q, other := Home(p, ws[0]), Home(p, r); q != other && 0 <= q < QueueCount(p) && 0 <= other < QueueCount(p)
    ensures p.HasLoc(Target(p, ws[0])) && QueueIndex(p, Target(p, ws[0])) == Home(p, ws[0])
    ensures p.HasLoc(Target(p, r)) && QueueIndex(p, Target(p, r)) == Home(p, r)
  {
    Apart(p, ws[0], r);
    CommandsGoHome(p, ws[0]);
    CommandsGoHome(p, r);
  }

  /** What the round robin chooses while draining. */
  lemma DrainChooses(p: Config, ws: seq<nat>, r: nat, g: seq<Issued>, cq: CommandQueue, line: seq<Command>, end: int)
    requires SplitPage(p, ws, r) && Streak(p, ws[0], g, end) && Legal(p, OtherRead(p, ws[0], r) + g) && WritesAt(p) <= cq.clk && 0 <= cq.clk
    requires Turning(p, cq) && cq.queues == OneLine(p, Home(p, ws[0]), line)
    requires Uniform(line, Target(p, ws[0]), Write, p.AddressMapping(ws[0]).row)
    ensures GetCommandToIssue(p, After(p, OtherRead(p, ws[0], r) + g), cq) ==
            if line != [] && (forall i | 0 <= i < |g| :: g[i].at + Near(p).writeToWrite <= cq.clk) then
              Choice(Ready(line[0]), cq.(queues := OneLine(p, Home(p, ws[0]), line[1..]), next := Home(p, ws[0])))
            else Choice(NotYet, cq)
  {
    hide Usable, Timed, Streak, Allowed, Legal, After, GetCommandToIssue, OtherRead, Uniform, OpenSince, Turning, Home, Target;
    var h, l := OtherRead(p, ws[0], r) + g, Target(p, ws[0]);
    HomesApart(p, ws, r);
    StreakKeepsOpen(p, ws[0], r, g, end);
    StreakAllowsWrite(p, ws[0], r, g, end, cq.clk);
    WriteChosen(p, h, cq, Home(p, ws[0]), line, l, p.AddressMapping(ws[0]).row, 0);
  }

  lemma RestOfLine(p: Config, ws: seq<nat>, i: nat, k: nat)
    requires i < k <= |ws|
    ensures Commands(p, ws[i..k])[0] == WriteOf(p, ws[i]) && Commands(p, ws[i..k])[1..] == Commands(p, ws[i + 1..k])
  {
    hide WriteOf;
    assert ws[i..k][1..] == ws[i + 1..k];
  }

  /** The cycle's choice goes by the history kept in `Drain`. */
  lemma DrainTurn(p: Config, ws: seq<nat>, r: nat, s: Channel, k: nat, g: seq<Issued>)
    requires SplitPage(p, ws, r) && Drain(p, ws, r, s, k, g) && k >= 1
    ensures GetCommandToIssue(p, s.dev, s.cq) ==
            if |g| < k && (forall i | 0 <= i < |g| :: g[i].at + Near(p).writeToWrite <= s.clk) then
              Choice(Ready(WriteOf(p, ws[|g|])),
                     s.cq.(queues := OneLine(p, Home(p, ws[0]), Commands(p, ws[|g| + 1..k])), next := Home(p, ws[0])))
            else Choice(NotYet, s.cq)
  {
    hide Usable, Timed, GetCommandToIssue, OtherRead, Home, Target, WriteOf, Streak, Intact, Turning, OneRow, Commands, Uniform, Buffered, Paced;
    InvTurns(p, s);
    var line := Commands(p, ws[|g|..k]);
    CommandsUniform(p, ws, |g|, k);
    DrainChooses(p, ws, r, g, s.cq, line, s.clk);
    if |g| < k {
      RestOfLine(p, ws, |g|, k);
    }
  }

  lemma WriteNotPending(p: Config, ws: seq<nat>, r: nat, s: Channel, k: nat, g: seq<Issued>, a: nat)
    requires SplitPage(p, ws, r) && Intact(p, s) && Moved(p, ws, r, s, k, g) && Target(p, a) == Target(p, ws[0])
    ensures a !in s.pendingRd
  {
    hide Intact, Usable, Timed, OneRow, OtherRead, Buffered, Paced, Commands, TransToCommand;
    HomesApart(p, ws, r);
    CommandsUniform(p, ws, |g|, k);
    NoReadPending(p, s, a);
  }

  lemma DrainIdles(p: Config, ws: seq<nat>, r: nat, s: Channel, k: nat, g: seq<Issued>) returns (now: Channel)
    requires SplitPage(p, ws, r) && Drain(p, ws, r, s, k, g) && 1 <= k <= 8 && g != [] && !RefreshDue(p, s.timer.clk)
    requires GetCommandToIssue(p, s.dev, s.cq) == Choice(NotYet, s.cq)
    ensures Step(p, s, Cycle) == Some(now) && Drain(p, ws, r, now, k + 1, g)
  {
    hide Usable, Intact, GetCommandToIssue, Target, Drops, Schedule, OneLine, Buffered, Commands;
    var x := RefreshTick(p, DrainDone(s));
    WriteNotPending(p, ws, r, s, k, g, ws[k]);
    IdleCycle(p, s);
    OneMoreMoves(p, ws, r, x, k, g);
    StepKeepsIntact(p, s, Cycle);
    now := Step(p, s, Cycle).value;
  }

  /** After the first command of the cycle. */
  lemma IssuedInDrain(p: Config, ws: seq<nat>, r: nat, s: Channel, k: nat, g: seq<Issued>) returns (one: Channel, cq: CommandQueue)
    requires SplitPage(p, ws, r) && Near(p).writeToWrite >= 2 && Drain(p, ws, r, s, k, g) && |g| < k && !RefreshDue(p, s.timer.clk)
    requires forall i | 0 <= i < |g| :: g[i].at + Near(p).writeToWrite <= s.clk
    ensures var c := Issued(WriteOf(p, ws[|g|]), s.clk);
            GetCommandToIssue(p, s.dev, s.cq) == Choice(Ready(c.cmd), cq) &&
            IssueCommand(p, RefreshTick(p, DrainDone(s)).(cq := cq), c.cmd) == Some(one) && Intact(p, one) && one.cq == cq &&
            one.clk == s.clk && one.timer.clk == s.clk + 1 && Moved(p, ws, r, one, k, g + [c]) && Streak(p, ws[0], g + [c], s.clk + 1)
  {
    hide Usable, Intact, GetCommandToIssue, IssueCommand, Target, OneLine, Buffered, Commands, OtherRead, WriteOf, Home;
    DrainTurn(p, ws, r, s, k, g);
    var c := Issued(WriteOf(p, ws[|g|]), s.clk);
    cq := GetCommandToIssue(p, s.dev, s.cq).cq;
    CommandsGoHome(p, ws[|g|]);
    one := CommandGoes(p, s, c.cmd, cq);
    IssuedIs(p, RefreshTick(p, DrainDone(s)).(cq := cq), c.cmd, one);
    assert OtherRead(p, ws[0], r) + (g + [c]) == OtherRead(p, ws[0], r) + g + [c];
  }

  lemma DrainIssues(p: Config, ws: seq<nat>, r: nat, s: Channel, k: nat, g: seq<Issued>) returns (now: Channel)
    requires SplitPage(p, ws, r) && Near(p).writeToWrite >= 2 && Drain(p, ws, r, s, k, g) && |g| < k <= 8 && !RefreshDue(p, s.timer.clk)
    requires forall i | 0 <= i < |g| :: g[i].at + Near(p).writeToWrite <= s.clk
    ensures Step(p, s, Cycle) == Some(now) && Drain(p, ws, r, now, k + 1, g + [Issued(WriteOf(p, ws[|g|]), s.clk)])
  {
    hide Usable, Intact, GetCommandToIssue, IssueCommand, Target, Drops, Schedule, OneLine, Buffered, Commands, OtherRead, WriteOf, Home;
    var one, cq := IssuedInDrain(p, ws, r, s, k, g);
    var now' := g + [Issued(WriteOf(p, ws[|g|]), s.clk)];
    NoSecondInDrain(p, ws, r, one, k, now');
    WriteNotPending(p, ws, r, one, k, now', ws[k]);
    IssuingCycle(p, s, WriteOf(p, ws[|g|]), cq, one);
    OneMoreMoves(p, ws, r, one, k, now');
    StepKeepsIntact(p, s, Cycle);
    now := Step(p, s, Cycle).value;
  }

  /** No second write goes in the cycle of another. */
  lemma NoSecondInDrain(p: Config, ws: seq<nat>, r: nat, one: Channel, k: nat, g: seq<Issued>)
    requires SplitPage(p, ws, r) && Near(p).writeToWrite >= 2 && Intact(p, one) && Moved(p, ws, r, one, k, g)
    requires WritesAt(p) <= one.clk && Streak(p, ws[0], g, one.clk + 1) && g != [] && g[|g| - 1].at == one.clk
    ensures GetCommandToIssue(p, one.dev, one.cq) == Choice(NotYet, one.cq)
  {
    hide Usable, Intact, GetCommandToIssue, Target, Buffered, OtherRead, WriteOf, Home, OneRow, Streak, Paced, Turning;
    InvTurns(p, one);
    CommandsUniform(p, ws, |g|, k);
    DrainChooses(p, ws, r, g, one.cq, Commands(p, ws[|g|..k]), one.clk + 1);
  }

  /** A cycle of draining: a write is issued if the last one is long enough ago, and another becomes a command. */
  lemma DrainCycle(p: Config, ws: seq<nat>, r: nat, s: Channel, k: nat, g: seq<Issued>) returns (now: Channel, g': seq<Issued>)
    requires SplitPage(p, ws, r) && Near(p).writeToWrite >= 2 && Drain(p, ws, r, s, k, g) && 1 <= k <= 8 && !RefreshDue(p, s.timer.clk)
    ensures Step(p, s, Cycle) == Some(now) && Drain(p, ws, r, now, k + 1, g')
  {
    hide Usable, Intact, GetCommandToIssue, Target, OneLine, Buffered, Commands, OtherRead, WriteOf, Home, Step, Streak, Paced, OneRow;
    if |g| < k && forall i | 0 <= i < |g| :: g[i].at + Near(p).writeToWrite <= s.clk {
      g' := g + [Issued(WriteOf(p, ws[|g|]), s.clk)];
      now := DrainIssues(p, ws, r, s, k, g);
    } else {
      g' := g;
      DrainTurn(p, ws, r, s, k, g);
      now := DrainIdles(p, ws, r, s, k, g);
    }
  }

  // ----- nine writes come in

  /** The first `n` writes wait in the buffer; the channel is otherwise idle, as prepared. */
  ghost predicate Waits(p: Config, ws: seq<nat>, r: nat, s: Channel, n: nat)
    requires |ws| == 9
  {
    n <= 9 && Holds(p, s, WritesAt(p) - 1, OtherRead(p, ws[0], r), OneLine(p, Home(p, ws[0]), []), Home(p, r), ws, n)
  }

  lemma FirstWaits(p: Config, ws: seq<nat>, r: nat, s: Channel)
    requires SplitPage(p, ws, r) && View(p, s, WritesAt(p) - 1, OtherRead(p, ws[0], r), map[], Home(p, r))
    ensures Waits(p, ws, r, s, 0)
  {
    hide OtherRead, View, Holds, OneRow, Usable, Timed, OneLine, Home;
    NoneHeld(p, ws, s, WritesAt(p) - 1, OtherRead(p, ws[0], r), Home(p, r));
  }

  lemma NineArrive(p: Config, ws: seq<nat>, r: nat, es: seq<Event>, s: Channel) returns (fs: seq<Event>, now: Channel)
    requires SplitPage(p, ws, r) && Run(p, es) == Some(s) && Waits(p, ws, r, s, 0)
    ensures Run(p, fs) == Some(now) && Waits(p, ws, r, now, 9)
  {
    hide Run, Usable, Holds, OneRow;
    AllDiffer(p, ws);
    fs, now := WritesArrive(p, es, s, WritesAt(p) - 1, OtherRead(p, ws[0], r), OneLine(p, Home(p, ws[0]), []), Home(p, r), ws, 0);
  }

  /** Draining starts, and the first write becomes a command. */
  lemma DrainBegins(p: Config, ws: seq<nat>, r: nat, s: Channel) returns (now: Channel)
    requires SplitPage(p, ws, r) && Waits(p, ws, r, s, 9) && !RefreshDue(p, s.timer.clk)
    ensures Step(p, s, Cycle) == Some(now) && Drain(p, ws, r, now, 1, [])
  {
    hide Intact, Usable, OtherRead, Step, Commands, OneRow, Holds, Home, Timed, OneLine;
    now := Begins(p, ws, s, WritesAt(p) - 1, OtherRead(p, ws[0], r), Home(p, r));
    assert ws[0..1] == ws[..1];
  }

  /** Eight cycles later all nine writes are commands, and at least four are still queued. */
  lemma {:induction false} Drained(p: Config, ws: seq<nat>, r: nat, es: seq<Event>, s: Channel, k: nat, g: seq<Issued>)
    returns (fs: seq<Event>, now: Channel, g': seq<Issued>)
    requires SplitPage(p, ws, r) && Near(p).writeToWrite >= 2 && Run(p, es) == Some(s) && 1 <= k <= 9 && Drain(p, ws, r, s, k, g)
    requires RefreshInterval(p) > LastAt(p) && Cross(p).readToWrite >= 0
    ensures Run(p, fs) == Some(now) && Drain(p, ws, r, now, 9, g')
    decreases 9 - k
  {
    hide Run, Step, Usable, Intact, OneRow, Moved, Streak;
    if k == 9 {
      fs, now, g' := es, s, g;
    } else {
      FewRefreshes(p, 0, LastAt(p));
      var one, g1 := DrainCycle(p, ws, r, s, k, g);
      OneMore(p, es, s, Cycle, one);
      fs, now, g' := Drained(p, ws, r, es + [Cycle], one, k + 1, g1);
    }
  }

  // ----- a read comes in between, and another one meets a write

  /** At most two queues that are not empty. */
  function TwoLines(p: Config, q: int, line: seq<Command>, r: int, other: seq<Command>): (queues: seq<seq<Command>>)
    ensures |queues| == QueueCount(p)
    ensures forall x | 0 <= x < |queues| :: queues[x] == if x == q then line else if x == r then other else []
  {
    seq(QueueCount(p), x => if x == q then line else if x == r then other else [])
  }

  lemma Swapped(p: Config, a: int, lineA: seq<Command>, b: int, lineB: seq<Command>)
    requires a != b
    ensures TwoLines(p, a, lineA, b, lineB) == TwoLines(p, b, lineB, a, lineA)
  {
    var x, y := TwoLines(p, a, lineA, b, lineB), TwoLines(p, b, lineB, a, lineA);
    assert forall i | 0 <= i < |x| :: x[i] == y[i];
  }

  /** The queue served last is asked last. */
  lemma OtherLineChosen(p: Config, d: Device, cq: CommandQueue, a: int, lineA: seq<Command>, b: int, lineB: seq<Command>)
    requires Turning(p, cq) && cq.queues == TwoLines(p, a, lineA, b, lineB) && 0 <= a < QueueCount(p) && 0 <= b < QueueCount(p) && a != b && cq.next == a
    requires lineB != [] && FirstReady(p, d, lineB, 0, cq.clk) == Ready(lineB[0])
    requires lineB[0].kind.IsReadWrite() && QueueIndex(p, lineB[0].Place()) == b
    ensures GetCommandToIssue(p, d, cq) == Choice(Ready(lineB[0]), cq.(queues := TwoLines(p, a, lineA, b, lineB[1..]), next := b))
  {
    hide FirstReady, GetCommandToIssue, QueueIndex;
    forall x | 0 <= x < |cq.queues| && x != a && x != b
      ensures Asked(p, d, cq, x).NotYet?
    {
      EmptyOffersNothing(p, d, cq.clk);
    }
    OfferTaken(p, d, cq, b);
    assert Erased(lineB, lineB[0]) == Some(lineB[1..]);
    var before, after := cq.queues[b := lineB[1..]], TwoLines(p, a, lineA, b, lineB[1..]);
    assert forall x | 0 <= x < |after| :: before[x] == after[x];
    assert before == after;
  }

  lemma LinesQuiet(p: Config, h: seq<Issued>, q: int, line: seq<Command>, r: int, l: Loc, row: int, i: int, t: int)
    requires Legal(p, h) && p.HasLoc(l) && OpenSince(h, l, i) && h[i].cmd.addr.row == row && 0 <= t
    requires Uniform(line, l, Write, row) && !Allowed(p, h, l, Write, t)
    ensures Quiet(p, After(p, h), TwoLines(p, q, line, r, []), t)
  {
    hide Legal, After, Allowed, FirstReady, OpenSince;
    LineOffers(p, h, line, l, Write, i, t);
    EmptyOffersNothing(p, After(p, h), t);
  }

  /** `i` writes are issued, the others queued, and perhaps a read. */
  ghost predicate Stands(p: Config, ws: seq<nat>, r: nat, s: Channel, clk: int, h: seq<Issued>, i: nat, other: seq<Command>, next: int)
    requires |ws| == 9
  {
    i <= 5 && Scene(p, s, clk, h, TwoLines(p, Home(p, ws[0]), Commands(p, ws[i..]), Home(p, r), other), next)
  }

  lemma ReadJoins(p: Config, ws: seq<nat>, r: nat, es: seq<Event>, s: Channel, clk: int, h: seq<Issued>, i: nat, next: int)
    returns (fs: seq<Event>, now: Channel)
    requires SplitPage(p, ws, r) && Run(p, es) == Some(s) && Stands(p, ws, r, s, clk, h, i, [], next) && !RefreshDue(p, s.timer.clk)
    requires Quiet(p, s.dev, s.cq.queues, clk)
    ensures Run(p, fs) == Some(now) && Stands(p, ws, r, now, clk + 1, h, i, [ReadOf(p, r)], next)
  {
    hide Intact, Usable, Quiet, TransToCommand, Commands, Run, OneRow, Target;
    var q, b, line := Home(p, ws[0]), Home(p, r), Commands(p, ws[i..]);
    HomesApart(p, ws, r);
    var queues := TwoLines(p, q, line, b, []);
    NothingPends(p, s, clk, h, queues, next, r);
    fs, now := EnterScene(p, es, s, clk, h, queues, next, r, false);
    var before, after := Joined(queues, b, ReadOf(p, r)), TwoLines(p, q, line, b, [ReadOf(p, r)]);
    assert forall x | 0 <= x < |after| :: before[x] == after[x];
    assert before == after;
  }

  lemma NothingPends(p: Config, s: Channel, clk: int, h: seq<Issued>, queues: seq<seq<Command>>, next: int, a: nat)
    requires Usable(p) && !p.unifiedQueue && Scene(p, s, clk, h, queues, next) && 0 <= Home(p, a) < |queues| && queues[Home(p, a)] == []
    ensures a !in s.pendingRd && a !in s.pendingWr
  {
    assert Line(p, s.cq.queues, [], Home(p, a)) == [];
    assert multiset(Line(p, s.cq.queues, [], Home(p, a)))[TransToCommand(p, a, false)] == 0;
    assert multiset(Line(p, s.cq.queues, [], Home(p, a)))[TransToCommand(p, a, true)] == 0;
  }

  /** The writes still queued, seen after the history `h`. */
  lemma RestUniform(p: Config, ws: seq<nat>, i: nat)
    requires |ws| == 9 && OneRow(p, ws) && !p.closePage && i <= 9
    ensures Uniform(Commands(p, ws[i..]), Target(p, ws[0]), Write, p.AddressMapping(ws[0]).row)
  {
    assert ws[i..9] == ws[i..];
    CommandsUniform(p, ws, i, 9);
  }

  /** Too soon after a write, or after a read in the other rank, no queue of writes has anything to offer. */
  lemma WritesQuiet(p: Config, ws: seq<nat>, r: nat, s: Channel, clk: int, h: seq<Issued>, i: nat, next: int, t: int)
    requires SplitPage(p, ws, r) && Stands(p, ws, r, s, clk, h, i, [], next) && 0 <= t && !Allowed(p, h, Target(p, ws[0]), Write, t)
    requires OpenSince(h, Target(p, ws[0]), 0) && h[0] == Issued(Activation(ReadOf(p, ws[0])), 1)
    ensures Quiet(p, s.dev, s.cq.queues, t)
  {
    hide Intact, Usable, Quiet, Commands, OneRow, Target, OpenSince, Allowed, Uniform;
    HomesApart(p, ws, r);
    SceneHolds(p, s, clk, h, s.cq.queues, next);
    RestUniform(p, ws, i);
    LinesQuiet(p, h, Home(p, ws[0]), Commands(p, ws[i..]), Home(p, r), Target(p, ws[0]), p.AddressMapping(ws[0]).row, 0, t);
  }

  /** The last cycle of draining, with the read coming in as soon as no write is issued. */
  lemma ReadFollows(p: Config, ws: seq<nat>, r: nat, es: seq<Event>, s: Channel, g: seq<Issued>)
    returns (fs: seq<Event>, now: Channel, g': seq<Issued>, t: int)
    requires SplitPage(p, ws, r) && Near(p).writeToWrite >= 2 && Run(p, es) == Some(s) && Drain(p, ws, r, s, 9, g)
    requires RefreshInterval(p) > LastAt(p) && Cross(p).readToWrite >= 3
    ensures WritesAt(p) + 9 <= t <= WritesAt(p) + 10 && Streak(p, ws[0], g', t)
    ensures Run(p, fs) == Some(now) && |g'| <= 5 && Stands(p, ws, r, now, t, OtherRead(p, ws[0], r) + g', |g'|, [ReadOf(p, r)], Home(p, ws[0]))
  {
    hide Run, Intact, Usable, Quiet, Commands, OneRow, Target, OpenSince, Allowed, Streak, Paced, ReadOf, Home;
    FewRefreshes(p, 0, LastAt(p));
    g' := g;
    fs, now, t := es, s, WritesAt(p) + 8;
    DrainStands(p, ws, r, s, g);
    if forall i | 0 <= i < |g| :: g[i].at + Near(p).writeToWrite <= s.clk {
      fs, now, g' := LastWriteGoes(p, ws, r, es, s, g);
      t := t + 1;
      assert g'[|g'| - 1].at + Near(p).writeToWrite > t;
    }
    StreakQuiet(p, ws, r, now, t, g', Home(p, ws[0]));
    fs, now := ReadJoins(p, ws, r, fs, now, t, OtherRead(p, ws[0], r) + g', |g'|, Home(p, ws[0]));
    t := t + 1;
    StreakGrows(p, ws[0], g', t - 1);
  }

  lemma StreakGrows(p: Config, w: nat, g: seq<Issued>, end: int)
    requires Streak(p, w, g, end)
    ensures Streak(p, w, g, end + 1)
  {
  }

  lemma DrainStands(p: Config, ws: seq<nat>, r: nat, s: Channel, g: seq<Issued>)
    requires SplitPage(p, ws, r) && Drain(p, ws, r, s, 9, g)
    ensures |g| <= 4 && g != [] && Stands(p, ws, r, s, WritesAt(p) + 8, OtherRead(p, ws[0], r) + g, |g|, [], Home(p, ws[0]))
  {
    hide Intact, Usable, Commands, OneRow, Target, Home, OtherRead;
    assert ws[|g|..9] == ws[|g|..];
  }

  lemma StreakQuiet(p: Config, ws: seq<nat>, r: nat, s: Channel, clk: int, g: seq<Issued>, next: int)
    requires SplitPage(p, ws, r) && Stands(p, ws, r, s, clk, OtherRead(p, ws[0], r) + g, |g|, [], next)
    requires Streak(p, ws[0], g, clk) && WritesAt(p) <= clk && exists i :: 0 <= i < |g| && g[i].at + Near(p).writeToWrite > clk
    ensures Quiet(p, s.dev, s.cq.queues, clk)
  {
    hide Intact, Usable, Quiet, Commands, OneRow, Target, OpenSince, Allowed, Streak, ReadOf, OtherRead, Home, Timed;
    SceneHolds(p, s, clk, OtherRead(p, ws[0], r) + g, s.cq.queues, next);
    StreakKeepsOpen(p, ws[0], r, g, clk);
    StreakAllowsWrite(p, ws[0], r, g, clk, clk);
    WritesQuiet(p, ws, r, s, clk, OtherRead(p, ws[0], r) + g, |g|, next, clk);
  }

  lemma LastWriteGoes(p: Config, ws: seq<nat>, r: nat, es: seq<Event>, s: Channel, g: seq<Issued>) returns (fs: seq<Event>, now: Channel, g': seq<Issued>)
    requires SplitPage(p, ws, r) && Near(p).writeToWrite >= 2 && Run(p, es) == Some(s) && Drain(p, ws, r, s, 9, g) && !RefreshDue(p, s.timer.clk)
    requires |g| <= 4 && forall i | 0 <= i < |g| :: g[i].at + Near(p).writeToWrite <= s.clk
    ensures g' == g + [Issued(WriteOf(p, ws[|g|]), s.clk)] && Streak(p, ws[0], g', WritesAt(p) + 9)
    ensures Run(p, fs) == Some(now) && Stands(p, ws, r, now, WritesAt(p) + 9, OtherRead(p, ws[0], r) + g', |g'|, [], Home(p, ws[0]))
  {
    hide Usable, Intact, GetCommandToIssue, IssueCommand, Target, Drops, TwoLines, Commands, OtherRead, WriteOf, Home, Run, Step, OneRow, Paced;
    g' := g + [Issued(WriteOf(p, ws[|g|]), s.clk)];
    var one, cq := IssuedInDrain(p, ws, r, s, 9, g);
    NoSecondInDrain(p, ws, r, one, 9, g');
    IssuingCycle(p, s, WriteOf(p, ws[|g|]), cq, one);
    NothingWaits(p, one);
    StepKeepsIntact(p, s, Cycle);
    now := Step(p, s, Cycle).value;
    OneMore(p, es, s, Cycle, now);
    fs := es + [Cycle];
    assert ws[|g'|..9] == ws[|g'|..];
  }

  /** The history once the read is issued. */
  function AfterRead(p: Config, ws: seq<nat>, r: nat, g: seq<Issued>, t: int): seq<Issued>
    requires |ws| == 9
  {
    OtherRead(p, ws[0], r) + g + [Issued(ReadOf(p, r), t)]
  }

  /** The turnaround to the other rank is what the writes now wait for; another read waits for nothing. */
  lemma AfterReadAllows(p: Config, ws: seq<nat>, r: nat, g: seq<Issued>, t: int, now: int)
    requires SplitPage(p, ws, r) && MeetsLater(p) && Streak(p, ws[0], g, t) && WritesAt(p) <= t <= now <= t + Cross(p).readToWrite
    ensures Allowed(p, AfterRead(p, ws, r, g, t), Target(p, ws[0]), Write, now) <==> now == t + Cross(p).readToWrite
    ensures now == t + Cross(p).readToWrite ==> Allowed(p, AfterRead(p, ws, r, g, t), Target(p, r), Read, now)
  {
    hide Allowed, Usable, OtherRead, Bound;
    var c, h := Issued(ReadOf(p, r), t), OtherRead(p, ws[0], r) + g;
    StreakAllowsWrite(p, ws[0], r, g, t, now);
    AllowedAfter(p, h, c, Target(p, ws[0]), Write, now);
    OtherRankBound(p, c, Target(p, ws[0]), Write);
    StreakAllowsRead(p, ws[0], r, g, t, now);
    AllowedAfter(p, h, c, Target(p, r), Read, now);
    SameBankBound(p, c, Target(p, r), Read);
  }

  lemma AfterReadOpen(p: Config, ws: seq<nat>, r: nat, g: seq<Issued>, t: int)
    requires SplitPage(p, ws, r) && Streak(p, ws[0], g, t)
    ensures var h := AfterRead(p, ws, r, g, t);
            OpenSince(h, Target(p, ws[0]), 0) && h[0] == Issued(Activation(ReadOf(p, ws[0])), 1) &&
            OpenSince(h, Target(p, r), 2) && h[2] == Issued(Activation(ReadOf(p, r)), OtherOpenAt(p))
  {
    hide OtherRead, Usable, Timed, Target, OpenSince;
    StreakKeepsOpen(p, ws[0], r, g, t);
    StaysOpen(OtherRead(p, ws[0], r) + g, Issued(ReadOf(p, r), t), Target(p, ws[0]), 0);
    StaysOpen(OtherRead(p, ws[0], r) + g, Issued(ReadOf(p, r), t), Target(p, r), 2);
    BothThere(p, ws, r, g, t);
  }

  lemma BothThere(p: Config, ws: seq<nat>, r: nat, g: seq<Issued>, t: int)
    requires |ws| == 9
    ensures |OtherRead(p, ws[0], r) + g| >= 4
    ensures AfterRead(p, ws, r, g, t)[0] == (OtherRead(p, ws[0], r) + g)[0] && AfterRead(p, ws, r, g, t)[2] == (OtherRead(p, ws[0], r) + g)[2]
  {
  }

  /** A read to an open row, alone in its queue, is what that queue offers. */
  lemma ReadOffered(p: Config, h: seq<Issued>, r: nat, i: int, t: int)
    requires Usable(p) && !p.closePage && Legal(p, h) && OpenSince(h, Target(p, r), i) && h[i].cmd == Activation(ReadOf(p, r)) && 0 <= t
    requires Allowed(p, h, Target(p, r), Read, t)
    ensures FirstReady(p, After(p, h), [ReadOf(p, r)], 0, t) == Ready(ReadOf(p, r)) == GetReady(p, After(p, h), ReadOf(p, r), t)
  {
    hide Legal, After, FirstReady, OpenSince, Allowed, GetReady;
    CommandsGoHome(p, r);
    RowIsOpen(p, h, Target(p, r), i);
    AnswerOnRow(p, h, ReadOf(p, r), t);
    LineOffers(p, h, [ReadOf(p, r)], Target(p, r), Read, i, t);
  }

  /** The read's queue is asked before the one served last. */
  lemma ReadTurn(p: Config, ws: seq<nat>, r: nat, s: Channel, g: seq<Issued>, t: int) returns (cq: CommandQueue)
    requires SplitPage(p, ws, r) && MeetsLater(p) && Streak(p, ws[0], g, t) && WritesAt(p) <= t
    requires Stands(p, ws, r, s, t, OtherRead(p, ws[0], r) + g, |g|, [ReadOf(p, r)], Home(p, ws[0]))
    ensures cq == s.cq.(queues := TwoLines(p, Home(p, ws[0]), Commands(p, ws[|g|..]), Home(p, r), []), next := Home(p, r)) && Turning(p, cq)
    ensures GetCommandToIssue(p, s.dev, s.cq) == Choice(Ready(ReadOf(p, r)), cq)
    ensures GetReady(p, s.dev, ReadOf(p, r), t) == Ready(ReadOf(p, r))
  {
    hide Intact, Usable, Commands, OneRow, Target, OpenSince, Allowed, Streak, OtherRead, ReadOf;
    hide Home, GetCommandToIssue, FirstReady, Timed, Legal, After, Turning, TwoLines, GetReady;
    var q, b, line, cmd, h := Home(p, ws[0]), Home(p, r), Commands(p, ws[|g|..]), ReadOf(p, r), OtherRead(p, ws[0], r) + g;
    HomesApart(p, ws, r);
    CommandsGoHome(p, r);
    SceneHolds(p, s, t, h, s.cq.queues, q);
    StreakKeepsOpen(p, ws[0], r, g, t);
    StreakAllowsRead(p, ws[0], r, g, t, t);
    ReadOffered(p, h, r, 2, t);
    OtherLineChosen(p, s.dev, s.cq, q, line, b, [cmd]);
    assert [cmd][1..] == [];
    cq := s.cq.(queues := TwoLines(p, q, line, b, []), next := b);
    StillTurning(p, s.cq, TwoLines(p, q, line, b, []), b);
  }

  lemma ReadGoes(p: Config, ws: seq<nat>, r: nat, es: seq<Event>, s: Channel, g: seq<Issued>, t: int) returns (fs: seq<Event>, now: Channel)
    requires SplitPage(p, ws, r) && MeetsLater(p) && Run(p, es) == Some(s) && Streak(p, ws[0], g, t) && WritesAt(p) <= t && !RefreshDue(p, s.timer.clk)
    requires Stands(p, ws, r, s, t, OtherRead(p, ws[0], r) + g, |g|, [ReadOf(p, r)], Home(p, ws[0]))
    ensures Run(p, fs) == Some(now) && Stands(p, ws, r, now, t + 1, AfterRead(p, ws, r, g, t), |g|, [], Home(p, r))
  {
    hide Run, Intact, Usable, Quiet, Commands, OneRow, Target, Streak, OtherRead;
    hide ReadOf, Home, GetCommandToIssue, Issue, Timed, Turning, TwoLines, GetReady;
    var cq := ReadTurn(p, ws, r, s, g, t);
    SceneHolds(p, s, t, OtherRead(p, ws[0], r) + g, s.cq.queues, Home(p, ws[0]));
    CommandsGoHome(p, r);
    if Issue(p, s.dev, ReadOf(p, r), t).Some? {
      QuietAfterRead(p, ws, r, s, g, t);
    }
    fs, now := GoScene(p, es, s, t, OtherRead(p, ws[0], r) + g, s.cq.queues, Home(p, ws[0]), ReadOf(p, r), cq);
  }

  lemma StillTurning(p: Config, cq: CommandQueue, queues: seq<seq<Command>>, next: int)
    requires Turning(p, cq) && |queues| == QueueCount(p) && 0 <= next < QueueCount(p)
    ensures Turning(p, cq.(queues := queues, next := next))
  {
  }

  lemma QuietAfterRead(p: Config, ws: seq<nat>, r: nat, s: Channel, g: seq<Issued>, t: int)
    requires SplitPage(p, ws, r) && MeetsLater(p) && Streak(p, ws[0], g, t) && WritesAt(p) <= t && |g| <= 9
    requires Intact(p, s) && s.clk == t && s.trace.hist == OtherRead(p, ws[0], r) + g
    requires GetReady(p, s.dev, ReadOf(p, r), t) == Ready(ReadOf(p, r)) && Issue(p, s.dev, ReadOf(p, r), t).Some?
    ensures Quiet(p, Issue(p, s.dev, ReadOf(p, r), t).value, TwoLines(p, Home(p, ws[0]), Commands(p, ws[|g|..]), Home(p, r), []), t)
  {
    hide Usable, Quiet, Commands, OneRow, OpenSince, Allowed, Streak, OtherRead, Issue;
    hide Legal, After, TwoLines, Uniform, Target, Home, Timed, GetReady;
    var h := OtherRead(p, ws[0], r) + g;
    HomesApart(p, ws, r);
    CommandsGoHome(p, r);
    GoesOn(p, s, h, ReadOf(p, r), ReadOf(p, r), t);
    AfterReadOpen(p, ws, r, g, t);
    AfterReadAllows(p, ws, r, g, t, t);
    RestUniform(p, ws, |g|);
    LinesQuiet(p, AfterRead(p, ws, r, g, t), Home(p, ws[0]), Commands(p, ws[|g|..]), Home(p, r), Target(p, ws[0]), p.AddressMapping(ws[0]).row, 0, t);
  }

  /** The second read comes in so as to be queued when the writes get ready. */
  lemma Meeting(p: Config, ws: seq<nat>, r: nat, es: seq<Event>, s: Channel, g: seq<Issued>, t: int) returns (fs: seq<Event>, now: Channel)
    requires SplitPage(p, ws, r) && MeetsLater(p) && Run(p, es) == Some(s) && Streak(p, ws[0], g, t) && WritesAt(p) <= t <= WritesAt(p) + 10
    requires Stands(p, ws, r, s, t + 1, AfterRead(p, ws, r, g, t), |g|, [], Home(p, r)) && RefreshInterval(p) > LastAt(p)
    ensures Run(p, fs) == Some(now)
    ensures Stands(p, ws, r, now, t + Cross(p).readToWrite, AfterRead(p, ws, r, g, t), |g|, [ReadOf(p, r)], Home(p, r))
  {
    hide Run, Intact, Usable, Quiet, Commands, OneRow, Target, Streak, AfterRead, ReadOf, Home, Timed, TwoLines;
    var h, queues, end := AfterRead(p, ws, r, g, t), s.cq.queues, t + Cross(p).readToWrite;
    FewRefreshes(p, 0, LastAt(p));
    forall x: nat | t + 1 <= x < end
      ensures !RefreshDue(p, x) && Quiet(p, s.dev, queues, x)
    {
      WaitsForTurn(p, ws, r, s, g, t, t + 1, x);
    }
    fs, now := WaitScene(p, es, s, t + 1, h, queues, Home(p, r), end - 1);
    WaitsForTurn(p, ws, r, now, g, t, end - 1, end - 1);
    fs, now := ReadJoins(p, ws, r, fs, now, end - 1, h, |g|, Home(p, r));
  }

  lemma WaitsForTurn(p: Config, ws: seq<nat>, r: nat, s: Channel, g: seq<Issued>, t: int, clk: int, x: int)
    requires SplitPage(p, ws, r) && MeetsLater(p) && Streak(p, ws[0], g, t) && WritesAt(p) <= t <= x < t + Cross(p).readToWrite && x >= 0
    requires Stands(p, ws, r, s, clk, AfterRead(p, ws, r, g, t), |g|, [], Home(p, r))
    ensures Quiet(p, s.dev, s.cq.queues, x)
  {
    hide Intact, Usable, Quiet, Commands, OneRow, Target, Streak, AfterRead, ReadOf, Home, Timed, TwoLines, OpenSince, Allowed;
    AfterReadOpen(p, ws, r, g, t);
    AfterReadAllows(p, ws, r, g, t, x);
    WritesQuiet(p, ws, r, s, clk, AfterRead(p, ws, r, g, t), |g|, Home(p, r), x);
  }

  /** A write is chosen first: the read's queue was served last. */
  lemma WriteTurn(p: Config, ws: seq<nat>, r: nat, s: Channel, g: seq<Issued>, t: int) returns (cq: CommandQueue)
    requires SplitPage(p, ws, r) && MeetsLater(p) && Streak(p, ws[0], g, t) && WritesAt(p) <= t && |g| <= 5
    requires Stands(p, ws, r, s, t + Cross(p).readToWrite, AfterRead(p, ws, r, g, t), |g|, [ReadOf(p, r)], Home(p, r))
    ensures cq == s.cq.(queues := TwoLines(p, Home(p, ws[0]), Commands(p, ws[|g|..])[1..], Home(p, r), [ReadOf(p, r)]), next := Home(p, ws[0])) && Turning(p, cq)
    ensures GetCommandToIssue(p, s.dev, s.cq) == Choice(Ready(WriteOf(p, ws[|g|])), cq)
    ensures GetReady(p, s.dev, WriteOf(p, ws[|g|]), s.clk) == Ready(WriteOf(p, ws[|g|]))
  {
    hide Intact, Usable, Commands, OneRow, Target, OpenSince, Allowed, Streak, AfterRead, ReadOf, WriteOf;
    hide Home, GetCommandToIssue, FirstReady, Timed, Legal, After, Turning, TwoLines, GetReady, Uniform;
    var q, b, line, h := Home(p, ws[0]), Home(p, r), Commands(p, ws[|g|..]), AfterRead(p, ws, r, g, t);
    HomesApart(p, ws, r);
    SceneHolds(p, s, s.clk, h, s.cq.queues, b);
    AfterReadOpen(p, ws, r, g, t);
    AfterReadAllows(p, ws, r, g, t, s.clk);
    RestUniform(p, ws, |g|);
    WriteOffered(p, ws, h, |g|, s.clk);
    Swapped(p, q, line, b, [ReadOf(p, r)]);
    OtherLineChosen(p, s.dev, s.cq, b, [ReadOf(p, r)], q, line);
    Swapped(p, q, line[1..], b, [ReadOf(p, r)]);
    cq := s.cq.(queues := TwoLines(p, q, line[1..], b, [ReadOf(p, r)]), next := q);
    StillTurning(p, s.cq, cq.queues, q);
  }

  lemma WriteOffered(p: Config, ws: seq<nat>, h: seq<Issued>, i: nat, t: int)
    requires Usable(p) && !p.closePage && |ws| == 9 && OneRow(p, ws) && i <= 5 && Legal(p, h) && 0 <= t
    requires OpenSince(h, Target(p, ws[0]), 0) && h[0].cmd == Activation(ReadOf(p, ws[0])) && Allowed(p, h, Target(p, ws[0]), Write, t)
    ensures var line := Commands(p, ws[i..]);
            line != [] && line[0] == WriteOf(p, ws[i]) && FirstReady(p, After(p, h), line, 0, t) == Ready(line[0]) && line[0].kind.Write? &&
            QueueIndex(p, line[0].Place()) == Home(p, ws[0]) && GetReady(p, After(p, h), line[0], t) == Ready(line[0])
  {
    hide Legal, After, FirstReady, OpenSince, Allowed, GetReady;
    CommandsGoHome(p, ws[0]);
    CommandsGoHome(p, ws[i]);
    RestUniform(p, ws, i);
    LineOffers(p, h, Commands(p, ws[i..]), Target(p, ws[0]), Write, 0, t);
    RowIsOpen(p, h, Target(p, ws[0]), 0);
    AnswerOnRow(p, h, WriteOf(p, ws[i]), t);
  }

  /** After the write the read is chosen, in the same cycle. */
  lemma ReadMeets(p: Config, ws: seq<nat>, r: nat, s: Channel, g: seq<Issued>, t: int, cq: CommandQueue, one: Channel)
    requires SplitPage(p, ws, r) && MeetsLater(p) && Streak(p, ws[0], g, t) && WritesAt(p) <= t && |g| <= 5
    requires Intact(p, s) && s.clk == t + Cross(p).readToWrite && s.trace.hist == AfterRead(p, ws, r, g, t) && cq.clk == s.clk
    requires cq.queues == TwoLines(p, Home(p, ws[0]), Commands(p, ws[|g|..])[1..], Home(p, r), [ReadOf(p, r)]) && cq.next == Home(p, ws[0]) && Turning(p, cq)
    requires GetReady(p, s.dev, WriteOf(p, ws[|g|]), s.clk) == Ready(WriteOf(p, ws[|g|]))
    requires Issue(p, s.dev, WriteOf(p, ws[|g|]), s.clk) == Some(one.dev)
    ensures GetCommandToIssue(p, one.dev, cq).answer == Ready(ReadOf(p, r))
  {
    hide Intact, Usable, Commands, OneRow, Target, OpenSince, Allowed, Streak, AfterRead, ReadOf, WriteOf;
    hide Home, GetCommandToIssue, FirstReady, Timed, Legal, After, Turning, TwoLines, GetReady, Issue, Bound;
    var h, c := AfterRead(p, ws, r, g, t), Issued(WriteOf(p, ws[|g|]), s.clk);
    HomesApart(p, ws, r);
    CommandsGoHome(p, r);
    WriteGoesOn(p, ws, s, h, |g|);
    AfterReadOpen(p, ws, r, g, t);
    StaysOpen(h, c, Target(p, r), 2);
    AfterReadAllows(p, ws, r, g, t, s.clk);
    AllowedAfter(p, h, c, Target(p, r), Read, s.clk);
    WriteLetsRead(p, ws, r, |g|, s.clk);
    StillThere(h, c);
    ReadOffered(p, h + [c], r, 2, s.clk);
    OtherLineChosen(p, one.dev, cq, Home(p, ws[0]), Commands(p, ws[|g|..])[1..], Home(p, r), [ReadOf(p, r)]);
  }

  lemma StillThere(h: seq<Issued>, c: Issued)
    ensures |h| >= 3 ==> (h + [c])[2] == h[2]
  {
  }

  lemma WriteGoesOn(p: Config, ws: seq<nat>, s: Channel, h: seq<Issued>, i: nat)
    requires Usable(p) && !p.closePage && |ws| == 9 && i <= 5 && Intact(p, s) && s.trace.hist == h
    requires GetReady(p, s.dev, WriteOf(p, ws[i]), s.clk) == Ready(WriteOf(p, ws[i])) && Issue(p, s.dev, WriteOf(p, ws[i]), s.clk).Some?
    ensures WriteOf(p, ws[i]).kind.Write? && 0 <= s.clk
    ensures var g := h + [Issued(WriteOf(p, ws[i]), s.clk)]; Legal(p, g) && After(p, g) == Issue(p, s.dev, WriteOf(p, ws[i]), s.clk).value
  {
    hide Legal, After, GetReady, Issue;
    CommandsGoHome(p, ws[i]);
    GoesOn(p, s, h, WriteOf(p, ws[i]), WriteOf(p, ws[i]), s.clk);
  }

  lemma WriteLetsRead(p: Config, ws: seq<nat>, r: nat, i: nat, t: int)
    requires SplitPage(p, ws, r) && Cross(p).writeToRead <= 0 && i <= 5
    ensures var b := Bound(p, Issued(WriteOf(p, ws[i]), t), Target(p, r), Read); b.Some? ==> b.value <= t
  {
    CommandsGoHome(p, ws[i]);
    assert Target(p, ws[i]) == Target(p, ws[0]);
    OtherRankBound(p, Issued(WriteOf(p, ws[i]), t), Target(p, r), Read);
  }

  /** The read is taken off its queue and dropped. */
  lemma SplitMeetingDrops(p: Config, ws: seq<nat>, r: nat, s: Channel, g: seq<Issued>, t: int)
    requires SplitPage(p, ws, r) && MeetsLater(p) && Streak(p, ws[0], g, t) && WritesAt(p) <= t && |g| <= 5 && !RefreshDue(p, s.timer.clk)
    requires Stands(p, ws, r, s, t + Cross(p).readToWrite, AfterRead(p, ws, r, g, t), |g|, [ReadOf(p, r)], Home(p, r))
    ensures Drops(p, s)
  {
    hide Intact, Usable, Commands, OneRow, Target, Streak, AfterRead, ReadOf, WriteOf, Home;
    hide GetCommandToIssue, IssueCommand, Timed, Legal, After, Turning, TwoLines, GetReady, Issue, Drops;
    var cmd := WriteOf(p, ws[|g|]);
    SceneHolds(p, s, s.clk, s.trace.hist, s.cq.queues, s.cq.next);
    var cq := WriteTurn(p, ws, r, s, g, t);
    CommandsGoHome(p, ws[|g|]);
    CommandsGoHome(p, r);
    var one := CommandGoes(p, s, cmd, cq);
    IssuedIs(p, RefreshTick(p, DrainDone(s)).(cq := cq), cmd, one);
    ReadMeets(p, ws, r, s, g, t, cq, one);
    PairDrops(p, s, cmd, cq, one, ReadOf(p, r));
  }

  /** Everything up to the end of draining. */
  lemma NineWritesDrain(p: Config, ws: seq<nat>, r: nat) returns (es: seq<Event>, s: Channel, g: seq<Issued>)
    requires SplitPage(p, ws, r) && MeetsLater(p) && RefreshInterval(p) > LastAt(p)
    ensures Run(p, es) == Some(s) && Drain(p, ws, r, s, 9, g)
  {
    hide Run, Step, View, Waits, Drain, Usable, OneRow, Target;
    es, s := Prepared(p, ws, r);
    FirstWaits(p, ws, r, s);
    es, s := NineArrive(p, ws, r, es, s);
    FewRefreshes(p, 0, LastAt(p));
    WaitsTimer(p, ws, r, s);
    var one := DrainBegins(p, ws, r, s);
    OneMore(p, es, s, Cycle, one);
    es, s, g := Drained(p, ws, r, es + [Cycle], one, 1, []);
  }

  lemma WaitsTimer(p: Config, ws: seq<nat>, r: nat, s: Channel)
    requires |ws| == 9 && Waits(p, ws, r, s, 9)
    ensures s.timer.clk == WritesAt(p) - 1
  {
  }

  /** With separate queues, too, a run loses a request where a read may go with a write of the other rank. */
  lemma SplitMeetingLoses(p: Config, ws: seq<nat>, r: nat) returns (es: seq<Event>)
    requires SplitPage(p, ws, r) && MeetsLater(p) && RefreshInterval(p) > LastAt(p)
    ensures Loses(p, es)
  {
    hide Run, Step, Loses, Drain, Lost, Drops, Scene, Streak, OtherRead, AfterRead, Usable, OneRow, Target, TwoLines, Commands, Home, ReadOf;
    var s, g, t;
    es, s, g := NineWritesDrain(p, ws, r);
    es, s, g, t := ReadFollows(p, ws, r, es, s, g);
    FewRefreshes(p, 0, LastAt(p));
    TimerStands(p, ws, r, s, t, OtherRead(p, ws[0], r) + g, |g|, [ReadOf(p, r)], Home(p, ws[0]));
    es, s := ReadGoes(p, ws, r, es, s, g, t);
    es, s := Meeting(p, ws, r, es, s, g, t);
    TimerStands(p, ws, r, s, t + Cross(p).readToWrite, AfterRead(p, ws, r, g, t), |g|, [ReadOf(p, r)], Home(p, r));
    SplitMeetingDrops(p, ws, r, s, g, t);
    var a, isWrite := DropLoses(p, s);
    LosesNext(p, es, s, Step(p, s, Cycle).value, a, isWrite);
    es := es + [Cycle];
  }

  lemma TimerStands(p: Config, ws: seq<nat>, r: nat, s: Channel, clk: int, h: seq<Issued>, i: nat, other: seq<Command>, next: int)
    requires |ws| == 9 && Stands(p, ws, r, s, clk, h, i, other, next)
    ensures s.timer.clk == clk && Intact(p, s)
  {
  }

  /** As with one queue: some run loses a request if and only if dual issue is not safe. */
  lemma SplitRunsLoseExactlyWhenUnsafe(p: Config, ws: seq<nat>, r: nat)
    requires SplitPage(p, ws, r) && OtherwiseSpaced(p) && 2 <= Near(p).writeToWrite <= Cross(p).readToWrite + 1 && RefreshInterval(p) > LastAt(p)
    ensures (exists es :: Loses(p, es)) <==> !DualSafe(p)
    ensures !DualSafe(p) <==> p.WriteDelay() + p.burstCycle + p.tRTRS <= p.ReadDelay()
  {
    hide Loses;
    RanksDiffer(p, ws[0], r);
    if DualSafe(p) {
      forall es
        ensures !Loses(p, es)
      {
        SafeRunsLoseNothing(p, es);
      }
    } else {
      var es := SplitMeetingLoses(p, ws, r);
    }
  }
}
