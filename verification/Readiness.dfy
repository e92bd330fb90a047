/** What the readiness query answers. */
module ReadinessFacts {
  import opened Common
  import opened Arithmetic
  import opened Configuration
  import opened Device
  import opened DeviceRuns

  ghost predicate Awake(p: Config, d: Device) {
    Shaped(p, d) && forall l | l in d.banks :: d.banks[l].mode != SelfRefresh
  }

  /** A queued column access never aborts, and is answered by itself, an activation or a precharge of its bank. */
  lemma ReadWriteReady(p: Config, d: Device, cmd: Command, clk: int)
    requires Awake(p, d) && cmd.kind.IsReadWrite() && p.HasLoc(cmd.Place())
    ensures !GetReady(p, d, cmd, clk).Abort?
    ensures GetReady(p, d, cmd, clk).Ready? ==>
              var c := GetReady(p, d, cmd, clk).cmd;
              MayIssue(p, d, c, clk) && c.addr == cmd.addr && c.hexAddr == cmd.hexAddr &&
              (c.kind == cmd.kind || c.kind.Activate? || c.kind.Precharge?)
  {
    assert Addressed(d, cmd);
    if GetReady(p, d, cmd, clk).Ready? {
      var c := GetReady(p, d, cmd, clk).cmd;
      assert c.Place() == cmd.Place();
      assert forall l | l in d.banks && Touches(c, l) :: l == cmd.Place();
    }
  }

  /** A bank that keeps a rank refresh waiting is open or not yet ready for it. */
  predicate RefreshableAt(d: Device, l: Loc, clk: int)
    requires l in d.banks
  {
    d.banks[l].mode == Closed && d.banks[l].At(Refresh) <= clk
  }

  /** The banks of rank `r` that a scan has passed when it stands at bank `b` of bankgroup `g`. */
  predicate Passed(p: Config, l: Loc, r: int, g: int, b: int) {
    p.HasLoc(l) && l.rank == r && (l.bankgroup < g || (l.bankgroup == g && l.bank < b))
  }

  ghost predicate AllRefreshable(p: Config, d: Device, r: int, g: int, b: int, clk: int) {
    forall l | Passed(p, l, r, g, b) :: l in d.banks && RefreshableAt(d, l, clk)
  }

  /** No open bank still to be scanned can be precharged yet. */
  ghost predicate NoneToClose(p: Config, d: Device, r: int, g: int, b: int, clk: int) {
    forall l | p.HasLoc(l) && l.rank == r && !Passed(p, l, r, g, b) ::
      l in d.banks && (d.banks[l].mode == Open ==> d.banks[l].At(Precharge) > clk)
  }

  lemma PassBank(p: Config, d: Device, r: int, g: int, b: int, clk: int)
    requires Awake(p, d) && p.HasLoc(Loc(r, g, b))
    ensures AllRefreshable(p, d, r, g, b + 1, clk) <==> AllRefreshable(p, d, r, g, b, clk) && RefreshableAt(d, Loc(r, g, b), clk)
    ensures NoneToClose(p, d, r, g, b, clk) <==>
            NoneToClose(p, d, r, g, b + 1, clk) && (d.banks[Loc(r, g, b)].mode == Open ==> d.banks[Loc(r, g, b)].At(Precharge) > clk)
  {
    forall l: Loc
      ensures Passed(p, l, r, g, b + 1) <==> Passed(p, l, r, g, b) || l == Loc(r, g, b)
    {
      assert l == Loc(l.rank, l.bankgroup, l.bank);
    }
  }

  lemma PassGroup(p: Config, d: Device, r: int, g: int, clk: int)
    ensures AllRefreshable(p, d, r, g + 1, 0, clk) <==> AllRefreshable(p, d, r, g, p.banksPerGroup, clk)
    ensures NoneToClose(p, d, r, g + 1, 0, clk) <==> NoneToClose(p, d, r, g, p.banksPerGroup, clk)
  {
    assert forall l :: Passed(p, l, r, g + 1, 0) <==> Passed(p, l, r, g, p.banksPerGroup);
  }

  lemma PrechargeMayIssue(p: Config, d: Device, l: Loc, hexAddr: int, clk: int)
    requires Awake(p, d) && l in d.banks && d.banks[l].mode == Open && d.banks[l].At(Precharge) <= clk
    ensures MayIssue(p, d, Command(Precharge, Address(-1, l.rank, l.bankgroup, l.bank, -1, -1), hexAddr), clk)
  {
    var pre := Command(Precharge, Address(-1, l.rank, l.bankgroup, l.bank, -1, -1), hexAddr);
    assert pre.Place() == l;
    assert forall m | m in d.banks && Touches(pre, m) :: m == l;
  }

  /** With every bank refreshable, the refresh may go. */
  lemma RefreshMayIssue(p: Config, d: Device, ref: Command, clk: int)
    requires Awake(p, d) && ref.kind.Refresh? && 0 <= ref.addr.rank < p.ranks && AllRefreshable(p, d, ref.addr.rank, p.bankgroups, 0, clk)
    ensures MayIssue(p, d, ref, clk)
  {
    assert forall l | l in d.banks && Touches(ref, l) :: Passed(p, l, ref.addr.rank, p.bankgroups, 0);
  }

  /** The banks still to be scanned. */
  function ToScan(p: Config, g: nat, b: nat): nat
    decreases p.bankgroups - g, p.banksPerGroup - b
  {
    if g >= p.bankgroups then 0
    else if b >= p.banksPerGroup then ToScan(p, g + 1, 0)
    else 1 + ToScan(p, g, b + 1)
  }

  lemma {:induction false} ToScanIs(p: Config, g: nat, b: nat)
    requires g < p.bankgroups && b <= p.banksPerGroup
    ensures ToScan(p, g, b) == (p.bankgroups - g) * p.banksPerGroup - b
    decreases p.bankgroups - g, p.banksPerGroup - b
  {
    if b < p.banksPerGroup {
      ToScanIs(p, g, b + 1);
    } else if g + 1 < p.bankgroups {
      ToScanIs(p, g + 1, 0);
      Distributes(p.banksPerGroup, p.bankgroups - g - 1, 1);
    }
  }

  /** What the scan from bank `b` of bankgroup `g` on can answer. */
  ghost function Outcomes(p: Config, d: Device, ref: Command, clk: int, g: int, b: int): iset<Readiness> {
    iset r: Readiness |
      !r.Abort? &&
      (r.Ready? ==> MayIssue(p, d, r.cmd, clk) && r.cmd.addr.rank == ref.addr.rank &&
                    (r.cmd == ref || (r.cmd.kind.Precharge? && d.banks[r.cmd.Place()].mode == Open))) &&
      (r.NotYet? ==> !AllRefreshable(p, d, ref.addr.rank, p.bankgroups, 0, clk)) &&
      (!(r.Ready? && r.cmd.kind.Precharge?) ==> NoneToClose(p, d, ref.addr.rank, g, b, clk))
  }

  lemma OutcomePassBank(p: Config, d: Device, ref: Command, clk: int, g: int, b: int, r: Readiness)
    requires Awake(p, d) && ref.kind.Refresh? && p.HasLoc(Loc(ref.addr.rank, g, b)) && r in Outcomes(p, d, ref, clk, g, b + 1)
    requires var l := Loc(ref.addr.rank, g, b); d.banks[l].mode == Open ==> d.banks[l].At(Precharge) > clk
    ensures r in Outcomes(p, d, ref, clk, g, b)
  {
    PassBank(p, d, ref.addr.rank, g, b, clk);
  }

  /** The scan precharges some ready open bank of the rank, or refreshes when every bank is closed and ready, or waits. */
  lemma {:induction false} ScanRankAnswer(p: Config, d: Device, ref: Command, clk: int, g: nat, b: nat, ready: nat, seen: nat)
    returns (r: Readiness)
    requires Awake(p, d) && ref.kind.Refresh? && 0 <= ref.addr.rank < p.ranks && p.bankgroups > 0 && p.banksPerGroup > 0
    requires g <= p.bankgroups && b <= p.banksPerGroup && seen + ToScan(p, g, b) == p.Banks() && ready <= seen
    requires g == p.bankgroups ==> b == 0
    requires ready == seen <==> AllRefreshable(p, d, ref.addr.rank, g, b, clk)
    ensures r == ScanRank(p, d, ref, clk, g, b, ready) && r in Outcomes(p, d, ref, clk, g, b)
    decreases p.bankgroups - g, p.banksPerGroup - b, 1
  {
    if g == p.bankgroups {
      r := ScanIsOver(p, d, ref, clk, ready, seen);
    } else if b == p.banksPerGroup {
      PassGroup(p, d, ref.addr.rank, g, clk);
      r := ScanRankAnswer(p, d, ref, clk, g + 1, 0, ready, seen);
    } else {
      r := ScanBankAnswer(p, d, ref, clk, g, b, ready, seen);
    }
  }

  lemma {:induction false} ScanBankAnswer(p: Config, d: Device, ref: Command, clk: int, g: nat, b: nat, ready: nat, seen: nat)
    returns (r: Readiness)
    requires Awake(p, d) && ref.kind.Refresh? && p.HasLoc(Loc(ref.addr.rank, g, b)) && seen + ToScan(p, g, b) == p.Banks() && ready <= seen
    requires ready == seen <==> AllRefreshable(p, d, ref.addr.rank, g, b, clk)
    ensures r == ScanRank(p, d, ref, clk, g, b, ready) && r in Outcomes(p, d, ref, clk, g, b)
    decreases p.bankgroups - g, p.banksPerGroup - b, 0
  {
    var answer := BankReady(d.banks[Loc(ref.addr.rank, g, b)], ref, clk);
    if answer.Ready? && answer.cmd.kind != ref.kind {
      r := ScanCloses(p, d, ref, clk, g, b, ready);
    } else {
      var counted := CountBank(p, d, ref, clk, g, b, ready, seen);
      r := ScanRankAnswer(p, d, ref, clk, g, b + 1, counted, seen + 1);
      ScanPasses(p, d, ref, clk, g, b, ready, r);
    }
  }

  /** A bank counts as ready when it can be refreshed. */
  lemma CountBank(p: Config, d: Device, ref: Command, clk: int, g: nat, b: nat, ready: nat, seen: nat) returns (counted: nat)
    requires Awake(p, d) && ref.kind.Refresh? && p.HasLoc(Loc(ref.addr.rank, g, b)) && ready <= seen
    requires ready == seen <==> AllRefreshable(p, d, ref.addr.rank, g, b, clk)
    requires var answer := BankReady(d.banks[Loc(ref.addr.rank, g, b)], ref, clk); answer.Ready? ==> answer.cmd.kind == ref.kind
    ensures counted == if BankReady(d.banks[Loc(ref.addr.rank, g, b)], ref, clk).Ready? then ready + 1 else ready
    ensures counted == seen + 1 <==> AllRefreshable(p, d, ref.addr.rank, g, b + 1, clk)
  {
    PassBank(p, d, ref.addr.rank, g, b, clk);
    counted := if BankReady(d.banks[Loc(ref.addr.rank, g, b)], ref, clk).Ready? then ready + 1 else ready;
  }

  lemma ScanPasses(p: Config, d: Device, ref: Command, clk: int, g: nat, b: nat, ready: nat, r: Readiness)
    requires Awake(p, d) && ref.kind.Refresh? && p.HasLoc(Loc(ref.addr.rank, g, b)) && r in Outcomes(p, d, ref, clk, g, b + 1)
    requires var answer := BankReady(d.banks[Loc(ref.addr.rank, g, b)], ref, clk);
             (answer.Ready? ==> answer.cmd.kind == ref.kind) &&
             r == ScanRank(p, d, ref, clk, g, b + 1, if answer.Ready? then ready + 1 else ready)
    ensures r == ScanRank(p, d, ref, clk, g, b, ready) && r in Outcomes(p, d, ref, clk, g, b)
  {
    OutcomePassBank(p, d, ref, clk, g, b, r);
  }

  lemma ScanCloses(p: Config, d: Device, ref: Command, clk: int, g: nat, b: nat, ready: nat) returns (r: Readiness)
    requires Awake(p, d) && ref.kind.Refresh? && p.HasLoc(Loc(ref.addr.rank, g, b))
    requires var a := BankReady(d.banks[Loc(ref.addr.rank, g, b)], ref, clk); a.Ready? && a.cmd.kind != ref.kind
    ensures r == ScanRank(p, d, ref, clk, g, b, ready) && r in Outcomes(p, d, ref, clk, g, b)
  {
    var l := Loc(ref.addr.rank, g, b);
    r := Ready(Command(Precharge, Address(-1, l.rank, g, b, -1, -1), ref.hexAddr));
    PrechargeMayIssue(p, d, l, ref.hexAddr, clk);
  }

  lemma ScanIsOver(p: Config, d: Device, ref: Command, clk: int, ready: nat, seen: nat) returns (r: Readiness)
    requires Awake(p, d) && ref.kind.Refresh? && 0 <= ref.addr.rank < p.ranks && p.bankgroups > 0 && p.banksPerGroup > 0
    requires ready <= seen == p.Banks()
    requires ready == seen <==> AllRefreshable(p, d, ref.addr.rank, p.bankgroups, 0, clk)
    ensures r == ScanRank(p, d, ref, clk, p.bankgroups, 0, ready) && r in Outcomes(p, d, ref, clk, p.bankgroups, 0)
  {
    MultiplesApart(p.bankgroups, p.banksPerGroup);
    r := if ready == seen then Ready(ref) else NotYet;
    if ready == seen {
      RefreshMayIssue(p, d, ref, clk);
    }
    assert forall l | p.HasLoc(l) && l.rank == ref.addr.rank :: Passed(p, l, ref.addr.rank, p.bankgroups, 0);
  }

  /** The scan of a whole rank. */
  lemma RankScanned(p: Config, d: Device, ref: Command, clk: int)
    requires Awake(p, d) && ref.kind.Refresh? && 0 <= ref.addr.rank < p.ranks && p.bankgroups > 0 && p.banksPerGroup > 0
    ensures var r := ScanRank(p, d, ref, clk, 0, 0, 0);
            !r.Abort? && (r.Ready? ==> MayIssue(p, d, r.cmd, clk) && r.cmd.addr.rank == ref.addr.rank) &&
            (r.Ready? ==> r.cmd == ref || (r.cmd.kind.Precharge? && d.banks[r.cmd.Place()].mode == Open)) &&
            (r.NotYet? ==> exists l :: p.HasLoc(l) && l.rank == ref.addr.rank && l in d.banks && !RefreshableAt(d, l, clk)) &&
            (!(r.Ready? && r.cmd.kind.Precharge?) ==>
              forall l | p.HasLoc(l) && l.rank == ref.addr.rank :: l in d.banks && (d.banks[l].mode == Open ==> d.banks[l].At(Precharge) > clk))
  {
    assert forall l :: !Passed(p, l, ref.addr.rank, 0, 0);
    ToScanIs(p, 0, 0);
    var r := ScanRankAnswer(p, d, ref, clk, 0, 0, 0, 0);
  }
}
