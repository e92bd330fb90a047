/**
  The timing rules in the parameters alone: what lets a command go to a bank after a history, and what every
  history keeps (src/timing.cc, src/channel_state.cc).
 */
module TimingLaws {
  import opened Common
  import opened Configuration
  import opened TimingSpec
  import opened Device
  import opened DeviceRuns
  import opened DataBus

  /** Everything in the history that has a say lets a command of kind `k` go to `l` at `clk`. */
  ghost predicate Allowed(p: Config, h: seq<Issued>, l: Loc, k: CommandType, clk: int) {
    forall i | 0 <= i < |h| :: Lets(p, h[i], l, k, clk)
  }

  ghost predicate Lets(p: Config, c: Issued, l: Loc, k: CommandType, clk: int) {
    Bound(p, c, l, k).Some? ==> Bound(p, c, l, k).value <= clk
  }

  lemma AllowedExactly(p: Config, h: seq<Issued>, l: Loc, k: CommandType, clk: int)
    requires Legal(p, h) && p.HasLoc(l) && 0 <= clk
    ensures l in After(p, h).banks && (After(p, h).banks[l].At(k) <= clk <==> Allowed(p, h, l, k, clk))
  {
    EarliestTimesExact(p, h, l, k);
  }

  // ----- the rules, for one earlier command

  /** Cycles from the end of the burst of `c` to `t`. */
  function SinceBurst(p: Config, c: Issued, t: int): int {
    t - BurstStart(p, c) - p.burstCycle
  }

  predicate SameBankAs(c: Issued, l: Loc) {
    !c.cmd.kind.IsRankCommand() && c.cmd.Place() == l
  }

  /** A command for another bank of the rank of `l`. */
  predicate ElsewhereInRank(c: Issued, l: Loc) {
    !c.cmd.kind.IsRankCommand() && c.cmd.addr.rank == l.rank && c.cmd.Place() != l
  }

  /** Whether the shorter of a pair of delays applies: across bankgroups, and when there is only one. */
  predicate Short(p: Config, c: Issued, l: Loc) {
    p.bankgroups == 1 || c.cmd.addr.bankgroup != l.bankgroup
  }

  /** Since an auto-precharge: reads count from the command, writes from the end of their burst. */
  predicate Precharged(p: Config, c: Issued, l: Loc, t: int) {
    SameBankAs(c, l) ==>
      (c.cmd.kind.Precharge? ==> t - c.at >= p.tRP) &&
      (c.cmd.kind.WritePrecharge? ==> SinceBurst(p, c, t) >= p.tWR + p.tRP)
  }

  predicate MayPrecharge(p: Config, c: Issued, l: Loc, t: int) {
    (SameBankAs(c, l) ==>
       (c.cmd.kind.Activate? ==> t - c.at >= p.tRAS) &&
       (c.cmd.kind.Read? ==> t - c.at >= p.AL + p.tRTP) &&
       (c.cmd.kind.Write? ==> SinceBurst(p, c, t) >= p.tWR)) &&
    (ElsewhereInRank(c, l) && c.cmd.kind.Precharge? && (p.IsGDDR() || p.protocol.LPDDR4?) ==> t - c.at >= p.tPPD)
  }

  predicate MayActivate(p: Config, c: Issued, l: Loc, t: int) {
    Precharged(p, c, l, t) &&
    (SameBankAs(c, l) ==>
       (c.cmd.kind.Activate? ==> t - c.at >= p.tRAS + p.tRP) &&
       (c.cmd.kind.ReadPrecharge? ==> t - c.at >= p.AL + p.burstCycle + p.tRTP + p.tRP)) &&
    (ElsewhereInRank(c, l) ==>
       (c.cmd.kind.Activate? ==> t - c.at >= if Short(p, c, l) then p.tRRD_S else p.tRRD_L) &&
       (c.cmd.kind.RefreshBank? ==> t - c.at >= p.tRFC)) &&
    (c.cmd.addr.rank == l.rank ==>
       (c.cmd.kind.Refresh? ==> t - c.at >= p.tRFC) && (c.cmd.kind.SrefExit? ==> t - c.at >= p.tXS))
  }

  /** A refresh of the bank alone. */
  predicate MayRefreshBank(p: Config, c: Issued, l: Loc, t: int) {
    Precharged(p, c, l, t) &&
    (SameBankAs(c, l) && c.cmd.kind.ReadPrecharge? ==> t - c.at >= p.AL + p.tRTP + p.tRP) &&
    (ElsewhereInRank(c, l) ==>
       (c.cmd.kind.Activate? ==> t - c.at >= p.tRAS + p.tRP) &&
       (c.cmd.kind.RefreshBank? ==> t - c.at >= p.tREFI)) &&
    (c.cmd.addr.rank == l.rank && c.cmd.kind.SrefExit? ==> t - c.at >= p.tXS)
  }

  /** A refresh of the rank, as far as bank `l` is concerned. */
  predicate MayRefresh(p: Config, c: Issued, l: Loc, t: int) {
    Precharged(p, c, l, t) &&
    (SameBankAs(c, l) && c.cmd.kind.ReadPrecharge? ==> t - c.at >= p.AL + p.tRTP + p.tRP) &&
    (c.cmd.addr.rank == l.rank ==>
       (c.cmd.kind.Refresh? ==> t - c.at >= p.tRFC) && (c.cmd.kind.SrefExit? ==> t - c.at >= p.tXS))
  }

  /** From the activation of the bank to a column access; GDDR and HBM tell reads and writes apart. */
  function RowToColumn(p: Config, isRead: bool): int {
    if !p.IsGDDR() && !p.IsHBM() then p.tRCD - p.AL else if isRead then p.tRCDRD else p.tRCDWR
  }

  /** Column accesses count among themselves unless the bank of `l` was closed by the earlier one. */
  predicate Column(c: Issued, l: Loc) {
    c.cmd.kind.Read? || c.cmd.kind.Write? || (c.cmd.kind.IsReadWrite() && c.cmd.Place() != l)
  }

  /** A read at `t`; its burst starts AL + CL later. */
  predicate MayRead(p: Config, c: Issued, l: Loc, t: int) {
    (SameBankAs(c, l) && c.cmd.kind.Activate? ==> t - c.at >= RowToColumn(p, true)) &&
    (Column(c, l) ==>
       if c.cmd.addr.rank != l.rank then SinceBurst(p, c, t + p.AL + p.CL) >= p.tRTRS
       else if c.cmd.kind.IsWrite() then SinceBurst(p, c, t) >= if Short(p, c, l) then p.tWTR_S else p.tWTR_L
       else t - c.at >= p.burstCycle && t - c.at >= if Short(p, c, l) then p.tCCD_S else p.tCCD_L)
  }

  /** A write at `t`; its burst starts AL + CWL later. Writes to different ranks may follow each other without a gap. */
  predicate MayWrite(p: Config, c: Issued, l: Loc, t: int) {
    (SameBankAs(c, l) && c.cmd.kind.Activate? ==> t - c.at >= RowToColumn(p, false)) &&
    (Column(c, l) ==>
       if c.cmd.kind.IsRead() then SinceBurst(p, c, t + p.AL + p.CWL) >= p.tRTRS
       else if c.cmd.addr.rank != l.rank then SinceBurst(p, c, t + p.AL + p.CWL) >= 0
       else t - c.at >= p.burstCycle && t - c.at >= if Short(p, c, l) then p.tCCD_S else p.tCCD_L)
  }

  // ----- the tables say the same

  predicate WaitsFor(at: int, delay: Option<int>, t: int) {
    delay.Some? ==> at + delay.value <= t
  }

  /** When the parameters let `k` go to `l` after `c`. */
  predicate May(p: Config, c: Issued, l: Loc, k: CommandType, t: int) {
    match k
    case Read => MayRead(p, c, l, t)
    case ReadPrecharge => MayRead(p, c, l, t)
    case Write => MayWrite(p, c, l, t)
    case WritePrecharge => MayWrite(p, c, l, t)
    case Activate => MayActivate(p, c, l, t)
    case Precharge => MayPrecharge(p, c, l, t)
    case RefreshBank => MayRefreshBank(p, c, l, t)
    case Refresh => MayRefresh(p, c, l, t)
    case SrefEnter => MayRefresh(p, c, l, t)
    case SrefExit => c.cmd.kind.SrefEnter? && c.cmd.addr.rank == l.rank ==> t - c.at >= p.tCKESR
  }

  /** What the tables list, by how the bank lies to the earlier command. */
  lemma LetsIs(p: Config, c: Issued, l: Loc, k: CommandType, t: int, rel: Relation)
    requires Timed(p) && Relate(c.cmd, l) == Some(rel)
    ensures Lets(p, c, l, k, t) <==> WaitsFor(c.at, Delay(p, rel, c.cmd.kind, k), t)
  {
    assert Listed(p.delays, rel, c.cmd.kind, k) == Delay(p, rel, c.cmd.kind, k);
  }

  /** For each earlier command the tables and the parameters agree. */
  lemma RuleExact(p: Config, c: Issued, l: Loc, k: CommandType, t: int)
    requires Timed(p)
    ensures Lets(p, c, l, k, t) <==> May(p, c, l, k, t)
  {
    hide Timed, Lets, May, Delay, WaitsFor;
    if c.cmd.kind.IsRankCommand() {
      RankRule(p, c, l, k, t);
    } else if c.cmd.addr.rank != l.rank {
      LetsIs(p, c, l, k, t, OtherRank);
      OtherRankRule(p, c, l, k, t);
    } else if c.cmd.Place() == l {
      LetsIs(p, c, l, k, t, SameBank);
      SameBankRule(p, c, l, k, t);
    } else if c.cmd.addr.bankgroup != l.bankgroup {
      LetsIs(p, c, l, k, t, OtherGroup);
      OtherGroupRule(p, c, l, k, t);
    } else {
      LetsIs(p, c, l, k, t, OtherBank);
      OtherBankRule(p, c, l, k, t);
    }
  }

  lemma RankRule(p: Config, c: Issued, l: Loc, k: CommandType, t: int)
    requires Timed(p) && c.cmd.kind.IsRankCommand()
    ensures Lets(p, c, l, k, t) <==> May(p, c, l, k, t)
  {
    hide Timed, Precharged, SinceBurst;
    if c.cmd.addr.rank == l.rank {
      LetsIs(p, c, l, k, t, SameRank);
    }
    assert Precharged(p, c, l, t) by {
      NothingClosed(p, c, l, t);
    }
  }

  lemma NothingClosed(p: Config, c: Issued, l: Loc, t: int)
    requires !SameBankAs(c, l)
    ensures Precharged(p, c, l, t)
  {
  }

  lemma OtherRankRule(p: Config, c: Issued, l: Loc, k: CommandType, t: int)
    requires !c.cmd.kind.IsRankCommand() && c.cmd.addr.rank != l.rank
    ensures WaitsFor(c.at, Delay(p, OtherRank, c.cmd.kind, k), t) <==> May(p, c, l, k, t)
  {
    hide Precharged;
    NothingClosed(p, c, l, t);
  }

  lemma SameBankRule(p: Config, c: Issued, l: Loc, k: CommandType, t: int)
    requires !c.cmd.kind.IsRankCommand() && c.cmd.Place() == l
    ensures WaitsFor(c.at, Delay(p, SameBank, c.cmd.kind, k), t) <==> May(p, c, l, k, t)
  {
  }

  lemma OtherGroupRule(p: Config, c: Issued, l: Loc, k: CommandType, t: int)
    requires !c.cmd.kind.IsRankCommand() && c.cmd.addr.rank == l.rank && c.cmd.addr.bankgroup != l.bankgroup
    ensures WaitsFor(c.at, Delay(p, OtherGroup, c.cmd.kind, k), t) <==> May(p, c, l, k, t)
  {
    hide Precharged;
    NothingClosed(p, c, l, t);
  }

  lemma OtherBankRule(p: Config, c: Issued, l: Loc, k: CommandType, t: int)
    requires !c.cmd.kind.IsRankCommand() && c.cmd.addr.rank == l.rank && c.cmd.addr.bankgroup == l.bankgroup && c.cmd.Place() != l
    ensures WaitsFor(c.at, Delay(p, OtherBank, c.cmd.kind, k), t) <==> May(p, c, l, k, t)
  {
    hide Precharged;
    NothingClosed(p, c, l, t);
  }

  /** A bank's table lets a command go exactly when every earlier command, by the parameters alone, does. */
  lemma EarliestByTheParameters(p: Config, h: seq<Issued>, l: Loc, k: CommandType, t: int)
    requires Timed(p) && Legal(p, h) && p.HasLoc(l) && 0 <= t
    ensures l in After(p, h).banks && (After(p, h).banks[l].At(k) <= t <==> forall i | 0 <= i < |h| :: May(p, h[i], l, k, t))
  {
    hide May, Lets;
    AllowedExactly(p, h, l, k, t);
    forall i | 0 <= i < |h|
      ensures Lets(p, h[i], l, k, t) <==> May(p, h[i], l, k, t)
    {
      RuleExact(p, h[i], l, k, t);
    }
  }

  /** Every two commands of a history keep the rules at every bank that the later one touches. */
  lemma HistoriesKeepTheRules(p: Config, h: seq<Issued>, i: nat, j: nat, l: Loc)
    requires Timed(p) && Legal(p, h) && i < j < |h| && p.HasLoc(l) && Touches(h[j].cmd, l)
    ensures May(p, h[i], l, h[j].cmd.kind, h[j].at)
  {
    hide May;
    if Bound(p, h[i], l, h[j].cmd.kind).Some? {
      PairwiseDelays(p, h, i, j, l);
    }
    RuleExact(p, h[i], l, h[j].cmd.kind, h[j].at);
  }

  // ----- what that means, command by command

  /** A row stays open for tRAS, and a bank is activated again after tRAS + tRP at the earliest. */
  lemma RowsStayOpen(p: Config, h: seq<Issued>, i: nat, j: nat)
    requires Timed(p) && Legal(p, h) && i < j < |h| && h[i].cmd.kind.Activate? && h[j].cmd.Place() == h[i].cmd.Place()
    ensures h[j].cmd.kind.Precharge? ==> h[j].at >= h[i].at + p.tRAS
    ensures h[j].cmd.kind.Activate? ==> h[j].at >= h[i].at + p.tRAS + p.tRP
    ensures h[j].cmd.kind.IsRead() ==> h[j].at >= h[i].at + if p.IsGDDR() || p.IsHBM() then p.tRCDRD else p.tRCD - p.AL
    ensures h[j].cmd.kind.IsWrite() ==> h[j].at >= h[i].at + if p.IsGDDR() || p.IsHBM() then p.tRCDWR else p.tRCD - p.AL
  {
    if !h[j].cmd.kind.IsRankCommand() {
      PlaceOf(p, h, j);
      HistoriesKeepTheRules(p, h, i, j, h[j].cmd.Place());
    }
  }

  /** Writes recover: tWR from the end of the burst to the precharge, and tRP more to an activation or a refresh. */
  lemma WritesRecover(p: Config, h: seq<Issued>, i: nat, j: nat, l: Loc)
    requires Timed(p) && Legal(p, h) && i < j < |h| && h[i].cmd.kind.IsWrite() && h[i].cmd.Place() == l
    requires p.HasLoc(l) && Touches(h[j].cmd, l)
    ensures var burstEnd := h[i].at + p.AL + p.CWL + p.burstCycle;
            (h[j].cmd.kind.Precharge? && h[i].cmd.kind.Write? ==> h[j].at >= burstEnd + p.tWR) &&
            (h[i].cmd.kind.WritePrecharge? && (h[j].cmd.kind.Activate? || h[j].cmd.kind.IsRefresh()) ==> h[j].at >= burstEnd + p.tWR + p.tRP)
  {
    HistoriesKeepTheRules(p, h, i, j, l);
  }

  /** Reads are closed tRTP after their start at the earliest, and tRP later the bank can be refreshed. */
  lemma ReadsAreClosed(p: Config, h: seq<Issued>, i: nat, j: nat, l: Loc)
    requires Timed(p) && Legal(p, h) && i < j < |h| && h[i].cmd.kind.IsRead() && h[i].cmd.Place() == l
    requires p.HasLoc(l) && Touches(h[j].cmd, l)
    ensures h[i].cmd.kind.Read? && h[j].cmd.kind.Precharge? ==> h[j].at >= h[i].at + p.AL + p.tRTP
    ensures h[i].cmd.kind.ReadPrecharge? && h[j].cmd.kind.Activate? ==> h[j].at >= h[i].at + p.AL + p.burstCycle + p.tRTP + p.tRP
    ensures h[i].cmd.kind.ReadPrecharge? && h[j].cmd.kind.IsRefresh() ==> h[j].at >= h[i].at + p.AL + p.tRTP + p.tRP
  {
    HistoriesKeepTheRules(p, h, i, j, l);
  }

  /** A read in the rank of a write waits for tWTR from the end of the write's burst. */
  lemma WritesTurnAround(p: Config, h: seq<Issued>, i: nat, j: nat)
    requires Timed(p) && Legal(p, h) && i < j < |h| && h[i].cmd.kind.IsWrite() && h[j].cmd.kind.IsRead()
    requires h[i].cmd.addr.rank == h[j].cmd.addr.rank && (h[i].cmd.kind.WritePrecharge? ==> h[i].cmd.Place() != h[j].cmd.Place())
    ensures h[j].at >= h[i].at + p.AL + p.CWL + p.burstCycle +
                       if p.bankgroups == 1 || h[i].cmd.addr.bankgroup != h[j].cmd.addr.bankgroup then p.tWTR_S else p.tWTR_L
  {
    PlaceOf(p, h, j);
    HistoriesKeepTheRules(p, h, i, j, h[j].cmd.Place());
  }

  /** Column accesses of one kind in a rank: a burst apart, and tCCD. */
  lemma ColumnsAreSpaced(p: Config, h: seq<Issued>, i: nat, j: nat)
    requires Timed(p) && Legal(p, h) && i < j < |h| && h[i].cmd.kind.IsReadWrite() && h[j].cmd.kind.IsReadWrite() && h[i].cmd.kind.IsRead() == h[j].cmd.kind.IsRead()
    requires h[i].cmd.addr.rank == h[j].cmd.addr.rank && (h[i].cmd.Place() == h[j].cmd.Place() ==> h[i].cmd.kind.Read? || h[i].cmd.kind.Write?)
    ensures h[j].at >= h[i].at + p.burstCycle
    ensures h[j].at >= h[i].at + if p.bankgroups == 1 || h[i].cmd.addr.bankgroup != h[j].cmd.addr.bankgroup then p.tCCD_S else p.tCCD_L
  {
    PlaceOf(p, h, j);
    HistoriesKeepTheRules(p, h, i, j, h[j].cmd.Place());
  }

  /** Where the data bus changes direction or rank, tRTRS passes between the bursts, but for writes after writes. */
  lemma BurstsKeepTheGap(p: Config, h: seq<Issued>, i: nat, j: nat)
    requires Timed(p) && Legal(p, h) && i < j < |h| && h[i].cmd.kind.IsReadWrite() && h[j].cmd.kind.IsReadWrite()
    requires h[i].cmd.Place() == h[j].cmd.Place() ==> h[i].cmd.kind.Read? || h[i].cmd.kind.Write?
    ensures var first, next := h[i].at + p.AL + (if h[i].cmd.kind.IsRead() then p.CL else p.CWL), h[j].at + p.AL + (if h[j].cmd.kind.IsRead() then p.CL else p.CWL);
            (h[i].cmd.kind.IsRead() && h[j].cmd.kind.IsWrite() ==> next >= first + p.burstCycle + p.tRTRS) &&
            (h[i].cmd.addr.rank != h[j].cmd.addr.rank && h[j].cmd.kind.IsRead() ==> next >= first + p.burstCycle + p.tRTRS) &&
            (h[i].cmd.addr.rank != h[j].cmd.addr.rank && h[j].cmd.kind.IsWrite() ==> next >= first + p.burstCycle)
  {
    PlaceOf(p, h, j);
    HistoriesKeepTheRules(p, h, i, j, h[j].cmd.Place());
  }

  /** Activations of different banks of a rank are tRRD apart; precharges are tPPD apart where the standard asks for it. */
  lemma BanksOfARankAreSpaced(p: Config, h: seq<Issued>, i: nat, j: nat)
    requires Timed(p) && Legal(p, h) && i < j < |h| && h[i].cmd.kind == h[j].cmd.kind
    requires h[i].cmd.addr.rank == h[j].cmd.addr.rank && h[i].cmd.Place() != h[j].cmd.Place()
    ensures h[j].cmd.kind.Activate? ==>
              h[j].at >= h[i].at + if p.bankgroups == 1 || h[i].cmd.addr.bankgroup != h[j].cmd.addr.bankgroup then p.tRRD_S else p.tRRD_L
    ensures h[j].cmd.kind.Precharge? && (p.IsGDDR() || p.protocol.LPDDR4?) ==> h[j].at >= h[i].at + p.tPPD
    ensures h[j].cmd.kind.RefreshBank? ==> h[j].at >= h[i].at + p.tREFI
  {
    if !h[j].cmd.kind.IsRankCommand() {
      PlaceOf(p, h, j);
      HistoriesKeepTheRules(p, h, i, j, h[j].cmd.Place());
    }
  }

  /** After a refresh of a rank nothing is activated in it, nor the rank refreshed, for tRFC; after a precharge, tRP. */
  lemma RefreshesTakeTheirTime(p: Config, h: seq<Issued>, i: nat, j: nat, l: Loc)
    requires Timed(p) && Legal(p, h) && i < j < |h| && h[i].cmd.addr.rank == l.rank && p.HasLoc(l) && Touches(h[j].cmd, l)
    ensures h[i].cmd.kind.Refresh? && (h[j].cmd.kind.Activate? || h[j].cmd.kind.Refresh?) ==> h[j].at >= h[i].at + p.tRFC
    ensures h[i].cmd.kind.RefreshBank? && h[j].cmd.kind.Activate? && h[i].cmd.Place() != l ==> h[j].at >= h[i].at + p.tRFC
    ensures h[i].cmd.kind.Precharge? && h[i].cmd.Place() == l && (h[j].cmd.kind.Activate? || h[j].cmd.kind.IsRefresh()) ==> h[j].at >= h[i].at + p.tRP
    ensures h[i].cmd.kind.Activate? && h[j].cmd.kind.RefreshBank? && h[i].cmd.Place() != l ==> h[j].at >= h[i].at + p.tRAS + p.tRP
  {
    HistoriesKeepTheRules(p, h, i, j, l);
  }
}
