/** When refreshes are asked for, and that they are served in that order (src/refresh.cc). */
module RefreshSchedule {
  import opened Common
  import opened Arithmetic
  import opened Configuration
  import opened DeviceRuns
  import opened Scheduler
  import opened Channel
  import opened ChannelInv
  import opened ChannelSteps
  import opened Cycles

  /** The request numbered `k`, from 0. */
  function Scheduled(p: Config, k: nat): Command
    requires p.ranks >= 1 && p.bankgroups >= 1 && p.banksPerGroup >= 1
  {
    match p.refreshPolicy
    case RankSimultaneous => RefreshRank(0)
    case RankStaggered => RefreshRank(k % p.ranks)
    case BankStaggered =>
      RefreshOneBank(Loc(k / p.bankgroups / p.banksPerGroup % p.ranks, k % p.bankgroups, k / p.bankgroups % p.banksPerGroup))
  }

  /** How many requests have been raised once the timer has ticked `n` times: one at each positive multiple of the interval. */
  function RaisedBy(p: Config, n: nat): nat
    requires RefreshInterval(p) > 0
  {
    if n == 0 then 0 else (n - 1) / RefreshInterval(p)
  }

  lemma DivisionStep(k: nat, n: nat)
    requires n >= 1
    ensures (k + 1) % n == if k % n == n - 1 then 0 else k % n + 1
    ensures (k + 1) / n == if k % n == n - 1 then k / n + 1 else k / n
  {
    var q, r := k / n, k % n;
    assert k == q * n + r;
    if r == n - 1 {
      assert k + 1 == (q + 1) * n;
      QuotientIs(q + 1, n, 0);
    } else {
      assert k + 1 == q * n + (r + 1);
      QuotientIs(q, n, r + 1);
    }
    assert k + 1 == ((k + 1) / n) * n + (k + 1) % n;
  }

  /** The timer points at request `k`. */
  ghost predicate PointsAt(p: Config, t: RefreshTimer, k: nat) {
    p.ranks >= 1 && p.bankgroups >= 1 && p.banksPerGroup >= 1 &&
    (p.refreshPolicy.RankStaggered? ==> t.rank == k % p.ranks) &&
    (p.refreshPolicy.BankStaggered? ==>
      t.bankgroup == k % p.bankgroups && t.bank == k / p.bankgroups % p.banksPerGroup &&
      t.rank == k / p.bankgroups / p.banksPerGroup % p.ranks)
  }

  lemma IterateStep(p: Config, t: RefreshTimer, k: nat)
    requires PointsAt(p, t, k)
    ensures NextRefresh(p, t) == Scheduled(p, k) && PointsAt(p, IterateNext(p, t), k + 1)
  {
    if p.refreshPolicy.BankStaggered? {
      DigitsStep(k, p.bankgroups, p.banksPerGroup, p.ranks);
    } else {
      DigitStep(k, p.ranks);
    }
  }

  lemma DigitStep(k: nat, n: nat)
    requires n >= 1
    ensures k % n < n && (k + 1) % n == Wrap(k % n, n)
    ensures (k + 1) / n == if Wrap(k % n, n) == 0 then k / n + 1 else k / n
  {
    DivisionStep(k, n);
    WrapIs(k % n, n);
  }

  /** Bankgroup, bank and rank count like the digits of a number. */
  lemma DigitsStep(k: nat, g: nat, b: nat, r: nat)
    requires g >= 1 && b >= 1 && r >= 1
    ensures (k + 1) % g == Wrap(k % g, g)
    ensures (k + 1) / g % b == if Wrap(k % g, g) == 0 then Wrap(k / g % b, b) else k / g % b
    ensures (k + 1) / g / b % r ==
            if Wrap(k % g, g) == 0 && Wrap(k / g % b, b) == 0 then Wrap(k / g / b % r, r) else k / g / b % r
  {
    DigitStep(k, g);
    DigitStep(k / g, b);
    DigitStep(k / g / b, r);
  }

  lemma WrapIs(i: nat, n: nat)
    requires n >= 1
    ensures i < n ==> Wrap(i, n) == if i == n - 1 then 0 else i + 1
  {
    DivisionStep(i, n);
    if i < n {
      QuotientIs(0, n, i);
    }
  }

  ghost predicate OnSchedule(p: Config, s: Channel) {
    RefreshInterval(p) > 0 && s.timer.clk == s.clk &&
    |s.trace.requested| == RaisedBy(p, s.timer.clk) && PointsAt(p, s.timer, |s.trace.requested|) &&
    forall k | 0 <= k < |s.trace.requested| :: s.trace.requested[k] == Scheduled(p, k)
  }

  lemma RefreshTickOnSchedule(p: Config, s: Channel)
    requires OnSchedule(p, s)
    ensures OnSchedule(p, RefreshTick(p, s).(clk := s.clk + 1))
  {
    var n, k := RefreshInterval(p), |s.trace.requested|;
    IterateStep(p, s.timer, k);
    if s.timer.clk > 0 {
      DivisionStep(s.timer.clk - 1, n);
    }
  }

  // ----- service order

  /** The refreshes in a history, in issue order. */
  function Refreshes(h: seq<Issued>): seq<Command> {
    if h == [] then []
    else Refreshes(h[..|h| - 1]) + (if h[|h| - 1].cmd.kind.IsRefresh() then [h[|h| - 1].cmd] else [])
  }

  ghost predicate ServedFirstToLast(s: Channel) {
    s.trace.requested == Refreshes(s.trace.hist) + s.refreshQ
  }

  lemma RefreshesPush(h: seq<Issued>, x: Issued)
    ensures Refreshes(h + [x]) == Refreshes(h) + (if x.cmd.kind.IsRefresh() then [x.cmd] else [])
  {
    assert (h + [x])[..|h + [x]| - 1] == h;
  }

  lemma CarriedServesFirst(p: Config, s: Channel, c: Choice, now: Channel)
    requires Carried(p, s, c, now) && ServedFirstToLast(s)
    ensures ServedFirstToLast(now) && now.timer == s.timer && now.trace.requested == s.trace.requested && now.clk == s.clk
  {
    hide MapsOk, ReadsEarliest, Refreshes;
    if c.answer.Ready? {
      assert now.trace.hist == s.trace.hist + [Issued(c.answer.cmd, s.clk)];
      RefreshesPush(s.trace.hist, Issued(c.answer.cmd, s.clk));
    }
  }

  lemma CycleOnSchedule(p: Config, s: Channel, c: Choice, one: Channel, d: Choice, two: Channel)
    requires ServedFirstToLast(s) && Carried(p, RefreshTick(p, DrainDone(s)), c, one) && Carried(p, one, d, two)
    ensures ServedFirstToLast(Advance(Schedule(p, two)))
    ensures OnSchedule(p, s) ==> OnSchedule(p, Advance(Schedule(p, two)))
  {
    hide Carried, Schedule, PointsAt;
    var asked := RefreshTick(p, DrainDone(s));
    CarriedServesFirst(p, asked, c, one);
    CarriedServesFirst(p, one, d, two);
    ScheduleFrame(p, two);
    if OnSchedule(p, s) {
      RefreshTickOnSchedule(p, DrainDone(s));
    }
  }

  lemma NewOnSchedule(p: Config)
    requires Usable(p)
    ensures ServedFirstToLast(NewChannel(p)) && (RefreshInterval(p) > 0 ==> OnSchedule(p, NewChannel(p)))
  {
  }

  lemma CycleOfRun(p: Config, es: seq<Event>)
    requires Usable(p) && Run(p, es).Some? && ServedFirstToLast(Run(p, es).value)
    ensures Step(p, Run(p, es).value, Cycle).Some? && ServedFirstToLast(Step(p, Run(p, es).value, Cycle).value)
    ensures OnSchedule(p, Run(p, es).value) ==> OnSchedule(p, Step(p, Run(p, es).value, Cycle).value)
  {
    var c, one, d, two := RunCycle(p, es);
    CycleOnSchedule(p, Run(p, es).value, c, one, d, two);
  }

  lemma ArrivalOnSchedule(p: Config, s: Channel, addr: nat, isWrite: bool)
    requires ServedFirstToLast(s)
    ensures ServedFirstToLast(Accept(p, s, addr, isWrite)) && (OnSchedule(p, s) ==> OnSchedule(p, Accept(p, s, addr, isWrite)))
  {
    hide PointsAt, Scheduled, RaisedBy, Refreshes;
  }

  lemma {:induction false} RunOnSchedule(p: Config, es: seq<Event>)
    requires Usable(p)
    ensures Run(p, es).Some? && ServedFirstToLast(Run(p, es).value)
    ensures RefreshInterval(p) > 0 ==> OnSchedule(p, Run(p, es).value)
  {
    hide Usable, Tick, ServedFirstToLast, OnSchedule, Accept;
    RunMaps(p, es);
    if es == [] {
      NewOnSchedule(p);
    } else {
      var before := es[..|es| - 1];
      RunOnSchedule(p, before);
      match es[|es| - 1]
      case Arrive(addr, isWrite) =>
        ArrivalOnSchedule(p, Run(p, before).value, addr, isWrite);
      case Cycle =>
        CycleOfRun(p, before);
    }
  }

  /** In every run refreshes are issued exactly in the order requested: the issued ones are a prefix of the requests. */
  lemma RefreshesServedInOrder(p: Config, es: seq<Event>)
    requires Usable(p) && Run(p, es).Some?
    ensures var s := Run(p, es).value; s.trace.requested == Refreshes(s.trace.hist) + s.refreshQ
  {
    RunOnSchedule(p, es);
  }

  /** In every run the requests are the scheduled ones, one for each full interval gone by. */
  lemma RequestsFollowSchedule(p: Config, es: seq<Event>, k: nat)
    requires Usable(p) && RefreshInterval(p) > 0 && Run(p, es).Some?
    ensures var s := Run(p, es).value;
            (s.clk > 0 ==> |s.trace.requested| * RefreshInterval(p) < s.clk <= (|s.trace.requested| + 1) * RefreshInterval(p)) &&
            (s.clk == 0 ==> s.trace.requested == []) && s.timer.clk == s.clk &&
            (k < |s.trace.requested| ==> s.trace.requested[k] == Scheduled(p, k))
  {
    hide Run, Scheduled;
    RunOnSchedule(p, es);
    var s, n := Run(p, es).value, RefreshInterval(p);
    if s.clk > 0 {
      var q, r := DividesInto(s.clk - 1, n);
      assert |s.trace.requested| == q && s.clk - 1 == q * n + r;
      Distributes(n, q, 1);
    }
  }

  /** The interval between requests, by policy; staggered rank refresh divides tREFI among the ranks, rounding down. */
  lemma IntervalIs(p: Config)
    requires p.ranks >= 1
    ensures p.refreshPolicy.RankSimultaneous? ==> RefreshInterval(p) == p.tREFI
    ensures p.refreshPolicy.BankStaggered? ==> RefreshInterval(p) == p.tREFIb
    ensures p.refreshPolicy.RankStaggered? ==> RefreshInterval(p) * p.ranks <= p.tREFI < (RefreshInterval(p) + 1) * p.ranks
  {
    var q, r := DividesInto(p.tREFI, p.ranks);
    Distributes(p.ranks, q, 1);
  }

  // ----- what the schedule amounts to

  /** The place of bank `l` in a round of bank refreshes. */
  function RoundIndex(p: Config, l: Loc): int {
    (l.rank * p.banksPerGroup + l.bank) * p.bankgroups + l.bankgroup
  }

  /** A round of bank refreshes visits every bank exactly once. */
  lemma RoundVisitsEachBankOnce(p: Config, k: nat, l: Loc)
    requires p.refreshPolicy.BankStaggered? && p.HasLoc(l) && k < p.ranks * p.banksPerGroup * p.bankgroups
    ensures Scheduled(p, k).Place() == l <==> k == RoundIndex(p, l)
  {
    DigitsInRound(k, p.bankgroups, p.banksPerGroup, p.ranks);
    DigitsAreUnique(k, p.bankgroups, p.banksPerGroup, l.rank, l.bank, l.bankgroup);
  }

  lemma DigitsInRound(k: nat, g: nat, b: nat, ranks: nat)
    requires g >= 1 && b >= 1 && ranks >= 1 && k < ranks * b * g
    ensures k / g / b % ranks == k / g / b
  {
    QuotientBelow(k, g, ranks * b);
    QuotientBelow(k / g, b, ranks);
    QuotientUnique(k / g / b, ranks, 0, k / g / b);
  }

  lemma QuotientBelow(a: nat, n: nat, m: nat)
    requires n >= 1 && a < m * n
    ensures a / n < m
  {
    var q, r := DividesInto(a, n);
    MultiplesApart(q - m, n);
    Distributes(n, q, -(m as int));
  }

  /** A number has these digits exactly when it is put together from them. */
  lemma DigitsAreUnique(k: nat, g: nat, b: nat, rank: nat, bank: nat, group: nat)
    requires group < g && bank < b
    ensures k / g / b == rank && k / g % b == bank && k % g == group <==> k == (rank * b + bank) * g + group
  {
    var q, r := DividesInto(k, g);
    var high, mid := DividesInto(q, b);
    if k == (rank * b + bank) * g + group {
      QuotientUnique(k, g, rank * b + bank, group);
      QuotientUnique(rank * b + bank, b, rank, bank);
    }
  }

  /** Staggered rank refresh asks for a rank again after `ranks` requests, which takes at most tREFI cycles. */
  lemma RankAskedEveryTREFI(p: Config, k: nat)
    requires p.refreshPolicy.RankStaggered? && p.ranks >= 1 && p.bankgroups >= 1 && p.banksPerGroup >= 1
    ensures Scheduled(p, k + p.ranks) == Scheduled(p, k)
    ensures p.ranks * RefreshInterval(p) <= p.tREFI
    ensures forall j | k < j < k + p.ranks :: Scheduled(p, j) != Scheduled(p, k)
  {
    var n := p.ranks;
    assert k == (k / n) * n + k % n;
    QuotientIs(k / n + 1, n, k % n);
    assert k + n == (k / n + 1) * n + k % n;
    assert (k + n) % n == k % n by {
      assert k + n == ((k + n) / n) * n + (k + n) % n;
    }
    forall j | k < j < k + n
      ensures j % n != k % n
    {
      assert j == (j / n) * n + j % n;
      MultiplesApart(j / n - k / n, n);
      assert (j / n - k / n) * n == (j / n) * n - (k / n) * n;
    }
  }

  // ----- the simultaneous policy

  lemma CarriedRequests(p: Config, s: Channel, c: Choice, now: Channel)
    requires Carried(p, s, c, now)
    ensures now.trace.requested == s.trace.requested && now.clk == s.clk
  {
  }

  /** What a cycle asks for, and that it is a cycle. */
  lemma CycleRequests(p: Config, es: seq<Event>)
    requires Usable(p)
    ensures Run(p, es).Some? && Run(p, es + [Cycle]).Some?
    ensures var s, now := Run(p, es).value, Run(p, es + [Cycle]).value;
            now.clk == s.clk + 1 && (RefreshInterval(p) == 0 ==> now.trace.requested == s.trace.requested)
  {
    hide Carried, Schedule, Step;
    var c, one, d, two := RunCycle(p, es);
    CarriedRequests(p, RefreshTick(p, DrainDone(Run(p, es).value)), c, one);
    CarriedRequests(p, one, d, two);
    ScheduleFrame(p, two);
    assert (es + [Cycle])[..|es|] == es;
  }

  lemma {:induction false} NothingAsked(p: Config, es: seq<Event>)
    requires Usable(p) && RefreshInterval(p) == 0
    ensures Run(p, es).Some? && Run(p, es).value.trace.requested == []
  {
    hide Usable, Tick;
    RunMaps(p, es);
    if es != [] {
      var before := es[..|es| - 1];
      NothingAsked(p, before);
      if es[|es| - 1].Cycle? {
        CycleRequests(p, before);
        assert before + [Cycle] == es;
      }
    }
  }

  lemma {:induction false} IdleRun(p: Config, n: nat) returns (es: seq<Event>)
    requires Usable(p)
    ensures Run(p, es).Some? && Run(p, es).value.clk == n
  {
    hide Usable, Step;
    if n == 0 {
      es := [];
    } else {
      var before := IdleRun(p, n - 1);
      CycleRequests(p, before);
      es := before + [Cycle];
    }
  }

  ghost predicate Asked(p: Config, es: seq<Event>, c: Command) {
    Run(p, es).Some? && c in Run(p, es).value.trace.requested
  }

  /** The simultaneous policy stops after the first rank: some run asks for a rank if and only if it is rank 0, and refresh is on. */
  lemma SimultaneousAsksRankZeroOnly(p: Config, r: int)
    requires Usable(p) && p.refreshPolicy.RankSimultaneous?
    ensures (exists es :: Asked(p, es, RefreshRank(r))) <==> r == 0 && p.tREFI > 0
  {
    hide Run;
    forall es | Asked(p, es, RefreshRank(r))
      ensures r == 0 && p.tREFI > 0
    {
      if p.tREFI == 0 {
        NothingAsked(p, es);
      } else {
        var k :| 0 <= k < |Run(p, es).value.trace.requested| && Run(p, es).value.trace.requested[k] == RefreshRank(r);
        RequestsFollowSchedule(p, es, k);
      }
    }
    if r == 0 && p.tREFI > 0 {
      var es := IdleRun(p, p.tREFI + 1);
      RequestsFollowSchedule(p, es, 0);
      QuotientUnique(p.tREFI, p.tREFI, 1, 0);
      assert Asked(p, es, RefreshRank(0));
    }
  }
}
