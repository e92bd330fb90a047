/** The banks of a channel, its refresh requests and its activation windows as an object (src/channel_state.h, src/channel_state.cc). */
module ChannelStates {
  import opened Common
  import opened Configuration
  import opened TimingSpec
  import opened TimingTables
  import opened Device
  import opened BankStates
  import Channel

  /** Distinct banks, all as they come out of reset. */
  ghost predicate AllNew(banks: map<Loc, BankState>)
    reads banks.Values
  {
    (forall l | l in banks :: banks[l].Model() == FRESH_BANK) &&
    forall l, m | l in banks && m in banks && l != m :: banks[l] != banks[m]
  }

  function AddBank(banks: map<Loc, BankState>, l: Loc, b: BankState): (now: map<Loc, BankState>)
    reads banks.Values, b
    requires AllNew(banks) && b.Model() == FRESH_BANK && b !in banks.Values
    ensures AllNew(now) && now.Keys == banks.Keys + {l} && now.Values <= banks.Values + {b}
  {
    banks[l := b]
  }

  /** The banks that come before bank `k` of bankgroup `j` of rank `i`. */
  predicate Before(l: Loc, i: int, j: int, k: int) {
    l.rank < i || (l.rank == i && (l.bankgroup < j || (l.bankgroup == j && l.bank < k)))
  }

  method AddBankgroup(config: Config, i: nat, j: nat, before: map<Loc, BankState>) returns (banks: map<Loc, BankState>)
    requires AllNew(before) && i < config.ranks && j < config.bankgroups
    requires forall l :: l in before <==> config.HasLoc(l) && Before(l, i, j, 0)
    ensures AllNew(banks) && fresh(banks.Values - before.Values)
    ensures forall l :: l in banks <==> config.HasLoc(l) && Before(l, i, j + 1, 0)
  {
    banks := before;
    var k := 0;
    while k < config.banksPerGroup
      invariant 0 <= k <= config.banksPerGroup && AllNew(banks) && fresh(banks.Values - before.Values)
      invariant forall l :: l in banks <==> config.HasLoc(l) && Before(l, i, j, k)
    {
      var b := new BankState();
      banks := AddBank(banks, Loc(i, j, k), b);
      k := k + 1;
    }
  }

  method NewBanks(config: Config) returns (banks: map<Loc, BankState>)
    ensures AllNew(banks) && fresh(banks.Values) && forall l :: l in banks <==> config.HasLoc(l)
  {
    banks := map[];
    var i := 0;
    while i < config.ranks
      invariant 0 <= i <= config.ranks && AllNew(banks) && fresh(banks.Values)
      invariant forall l :: l in banks <==> config.HasLoc(l) && Before(l, i, 0, 0)
    {
      var j := 0;
      while j < config.bankgroups
        invariant 0 <= j <= config.bankgroups && AllNew(banks) && fresh(banks.Values)
        invariant forall l :: l in banks <==> config.HasLoc(l) && Before(l, i, j, 0)
      {
        banks := AddBankgroup(config, i, j, banks);
        j := j + 1;
      }
      i := i + 1;
    }
  }

  // ----- taking out a request

  lemma ServedHere(q: seq<Command>, i: nat, cmd: Command)
    requires i < |q| && Channel.SameTarget(q[i], cmd)
    ensures Channel.RefreshServed(q[i..], cmd) == q[i + 1..]
  {
    assert q[i..][1..] == q[i + 1..];
  }

  lemma ServedLater(q: seq<Command>, i: nat, cmd: Command)
    requires i < |q| && !Channel.SameTarget(q[i], cmd)
    ensures q[..i] + Channel.RefreshServed(q[i..], cmd) == q[..i + 1] + Channel.RefreshServed(q[i + 1..], cmd)
  {
    assert q[i..][1..] == q[i + 1..] && q[..i] + [q[i]] == q[..i + 1];
  }

  // ----- the scan of a rank, one bank at a time

  lemma ScanBank(p: Config, d: Device, cmd: Command, clk: int, g: nat, b: nat, ready: nat)
    requires g < p.bankgroups && b < p.banksPerGroup && Loc(cmd.addr.rank, g, b) in d.banks
    ensures ScanRank(p, d, cmd, clk, g, b, ready) ==
            match BankReady(d.banks[Loc(cmd.addr.rank, g, b)], cmd, clk)
            case Abort => Abort
            case NotYet => ScanRank(p, d, cmd, clk, g, b + 1, ready)
            case Ready(c) =>
              if c.kind != cmd.kind then Ready(Command(c.kind, Address(-1, cmd.addr.rank, g, b, -1, -1), c.hexAddr))
              else ScanRank(p, d, cmd, clk, g, b + 1, ready + 1)
  {
    hide BankReady;
  }

  lemma ScanNextGroup(p: Config, d: Device, cmd: Command, clk: int, g: nat, ready: nat)
    requires g < p.bankgroups
    ensures ScanRank(p, d, cmd, clk, g, p.banksPerGroup, ready) == ScanRank(p, d, cmd, clk, g + 1, 0, ready)
  {
  }

  lemma ScanEnds(p: Config, d: Device, cmd: Command, clk: int, ready: nat)
    ensures ScanRank(p, d, cmd, clk, p.bankgroups, 0, ready) == if 0 < ready == p.Banks() then Ready(cmd) else NotYet
  {
  }

  lemma FreshBanks(p: Config, banks: map<Loc, Bank>)
    requires (forall l :: l in banks <==> p.HasLoc(l)) && forall l | l in banks :: banks[l] == FRESH_BANK
    ensures Device(banks, seq(p.ranks, _ => []), seq(p.ranks, _ => [])) == NewDevice(p)
  {
    assert banks == NewDevice(p).banks;
  }

  class ChannelState {
    const config: Config
    const timing: Timing
    const bankStates: map<Loc, BankState>
    var refreshQ: seq<Command>
    var fourAw: seq<seq<int>>
    var thirtyTwoAw: seq<seq<int>>

    ghost predicate Valid()
      reads `fourAw, `thirtyTwoAw, timing
    {
      timing.Valid() && timing.config == config && Timed(config) &&
      (forall l :: l in bankStates <==> config.HasLoc(l)) &&
      (forall l, m | l in bankStates && m in bankStates && l != m :: bankStates[l] != bankStates[m]) &&
      |fourAw| == config.ranks && |thirtyTwoAw| == config.ranks
    }

    ghost function Model(): Device
      reads `fourAw, `thirtyTwoAw, bankStates.Values
    {
      Device(map l | l in bankStates :: bankStates[l].Model(), fourAw, thirtyTwoAw)
    }

    constructor (config: Config, timing: Timing)
      requires timing.Valid() && timing.config == config && Timed(config)
      ensures this.config == config && this.timing == timing && Valid() && fresh(bankStates.Values)
      ensures Model() == NewDevice(config) && refreshQ == []
    {
      var banks := NewBanks(config);
      this.config, this.timing, bankStates, refreshQ := config, timing, banks, [];
      fourAw, thirtyTwoAw := seq(config.ranks, _ => []), seq(config.ranks, _ => []);
      new;
      hide ChannelState.Valid, NewDevice;
      FreshBanks(config, Model().banks);
    }

    // ----- refresh requests

    method BankNeedRefresh(rank: int, bankgroup: int, bank: int, need: bool)
      modifies `refreshQ
      ensures var ref := Channel.RefreshOneBank(Loc(rank, bankgroup, bank));
              refreshQ == if need then old(refreshQ) + [ref] else Channel.RefreshServed(old(refreshQ), ref)
    {
      var ref := Command(RefreshBank, Address(-1, rank, bankgroup, bank, -1, -1), -1);
      if need {
        refreshQ := refreshQ + [ref];
      } else {
        var i := 0;
        while i < |refreshQ|
          invariant 0 <= i <= |refreshQ| && refreshQ == old(refreshQ)
          invariant Channel.RefreshServed(refreshQ, ref) == refreshQ[..i] + Channel.RefreshServed(refreshQ[i..], ref)
        {
          if refreshQ[i].addr.rank == rank && refreshQ[i].addr.bankgroup == bankgroup && refreshQ[i].addr.bank == bank {
            ServedHere(refreshQ, i, ref);
            refreshQ := refreshQ[..i] + refreshQ[i + 1..];
            return;
          }
          ServedLater(refreshQ, i, ref);
          i := i + 1;
        }
      }
    }

    method RankNeedRefresh(rank: int, need: bool)
      modifies `refreshQ
      ensures var ref := Channel.RefreshRank(rank);
              refreshQ == if need then old(refreshQ) + [ref] else Channel.RefreshServed(old(refreshQ), ref)
    {
      var ref := Command(Refresh, Address(-1, rank, -1, -1, -1, -1), -1);
      if need {
        refreshQ := refreshQ + [ref];
      } else {
        var i := 0;
        while i < |refreshQ|
          invariant 0 <= i <= |refreshQ| && refreshQ == old(refreshQ)
          invariant Channel.RefreshServed(refreshQ, ref) == refreshQ[..i] + Channel.RefreshServed(refreshQ[i..], ref)
        {
          if refreshQ[i].addr.rank == rank {
            ServedHere(refreshQ, i, ref);
            refreshQ := refreshQ[..i] + refreshQ[i + 1..];
            return;
          }
          ServedLater(refreshQ, i, ref);
          i := i + 1;
        }
      }
    }

    // ----- activation windows

    predicate IsFAWReady(rank: int, now: int)
      requires 0 <= rank < |fourAw|
      reads this
    {
      if fourAw[rank] != [] then !(now < fourAw[rank][0] && |fourAw[rank]| >= 4) else true
    }

    predicate Is32AWReady(rank: int, now: int)
      requires 0 <= rank < |thirtyTwoAw|
      reads this
    {
      if thirtyTwoAw[rank] != [] then !(now < thirtyTwoAw[rank][0] && |thirtyTwoAw[rank]| >= 32) else true
    }

    method WindowsAllowActivation(rank: int, now: int) returns (ok: bool)
      requires 0 <= rank < |fourAw| == |thirtyTwoAw|
      ensures ok == ActivationWindowOk(config, Model(), rank, now)
    {
      ok := IsFAWReady(rank, now);
      if config.IsGDDR() {
        ok := ok && Is32AWReady(rank, now);
      }
    }

    method UpdateActivationTimes(rank: int, now: int)
      requires 0 <= rank < |fourAw| == |thirtyTwoAw|
      modifies `fourAw, `thirtyTwoAw
      ensures fourAw == old(fourAw)[rank := Pushed(old(fourAw)[rank], now, config.tFAW)]
      ensures thirtyTwoAw ==
              if config.IsGDDR() then old(thirtyTwoAw)[rank := Pushed(old(thirtyTwoAw)[rank], now, config.t32AW)] else old(thirtyTwoAw)
    {
      if fourAw[rank] != [] && now >= fourAw[rank][0] {
        fourAw := fourAw[rank := fourAw[rank][1..]];
      }
      fourAw := fourAw[rank := fourAw[rank] + [now + config.tFAW]];
      if config.IsGDDR() {
        if thirtyTwoAw[rank] != [] && now >= thirtyTwoAw[rank][0] {
          thirtyTwoAw := thirtyTwoAw[rank := thirtyTwoAw[rank][1..]];
        }
        thirtyTwoAw := thirtyTwoAw[rank := thirtyTwoAw[rank] + [now + config.t32AW]];
      }
    }

    // ----- readiness

    method GetReadyCommand(cmd: Command, clk: int) returns (r: Readiness)
      requires Valid()
      ensures r == GetReady(config, Model(), cmd, clk)
    {
      if !(0 <= cmd.addr.rank < |fourAw|) {
        return Abort;
      }
      if cmd.kind.IsRankCommand() {
        r := GetReadyRankCommand(cmd, clk);
      } else if cmd.Place() !in bankStates {
        r := Abort;
      } else {
        r := bankStates[cmd.Place()].GetReadyCommand(cmd, clk);
        if r.Ready? && r.cmd.kind.Activate? {
          var ok := WindowsAllowActivation(r.cmd.addr.rank, clk);
          if !ok {
            r := NotYet;
          }
        }
      }
    }

    /** What the bank at `l` says. */
    method AskBank(l: Loc, cmd: Command, clk: int) returns (r: Readiness)
      requires Valid() && config.HasLoc(l)
      ensures l in Model().banks && r == BankReady(Model().banks[l], cmd, clk)
    {
      r := bankStates[l].GetReadyCommand(cmd, clk);
    }

    method GetReadyRankCommand(cmd: Command, clk: int) returns (r: Readiness)
      requires Valid() && cmd.kind.IsRankCommand() && 0 <= cmd.addr.rank < config.ranks
      ensures r == ScanRank(config, Model(), cmd, clk, 0, 0, 0)
    {
      hide Config.Banks, ChannelState.Valid, ChannelState.Model, ScanRank, BankReady;
      ghost var d := Model();
      var numReady := 0;
      var j := 0;
      while j < config.bankgroups
        invariant 0 <= j <= config.bankgroups && 0 <= numReady
        invariant ScanRank(config, d, cmd, clk, 0, 0, 0) == ScanRank(config, d, cmd, clk, j, 0, numReady)
      {
        var k := 0;
        while k < config.banksPerGroup
          invariant 0 <= k <= config.banksPerGroup && 0 <= numReady
          invariant ScanRank(config, d, cmd, clk, 0, 0, 0) == ScanRank(config, d, cmd, clk, j, k, numReady)
        {
          var l := Loc(cmd.addr.rank, j, k);
          assert config.HasLoc(l);
          var ready := AskBank(l, cmd, clk);
          ScanBank(config, d, cmd, clk, j, k, numReady);
          match ready {
            case Abort => return Abort;
            case NotYet =>
            case Ready(c) =>
              if c.kind != cmd.kind {
                return Ready(Command(c.kind, Address(-1, cmd.addr.rank, j, k, -1, -1), c.hexAddr));
              }
              numReady := numReady + 1;
          }
          k := k + 1;
        }
        ScanNextGroup(config, d, cmd, clk, j, numReady);
        j := j + 1;
      }
      ScanEnds(config, d, cmd, clk, numReady);
      r := if 0 < numReady == config.Banks() then Ready(cmd) else NotYet;
    }

    // ----- states

    /** The result is false where the program aborts; nothing is promised about the banks then. */
    method UpdateState(cmd: Command) returns (ok: bool)
      requires Valid()
      modifies `refreshQ, bankStates.Values
      ensures ok == Accepts(old(Model()), cmd)
      ensures ok ==> forall l | l in bankStates ::
                Follows(old(bankStates[l].Model()), bankStates[l].Model(), cmd, Touches(cmd, l))
      ensures ok ==> refreshQ == if cmd.kind.IsRefresh() then Channel.RefreshServed(old(refreshQ), cmd) else old(refreshQ)
    {
      ghost var d := Model();
      assert forall l | l in bankStates :: l in d.banks && d.banks[l] == bankStates[l].Model();
      if !(0 <= cmd.addr.rank < |fourAw|) {
        return false;
      }
      if cmd.kind.IsRankCommand() {
        ok := UpdateRankState(cmd);
        assert ok <==> forall l | l in d.banks && Touches(cmd, l) :: BankUpdate(d.banks[l], cmd).Some?;
        if ok && cmd.kind.Refresh? {
          RankNeedRefresh(cmd.addr.rank, false);
          ServedAlike(old(refreshQ), Channel.RefreshRank(cmd.addr.rank), cmd);
        }
      } else if cmd.Place() !in bankStates {
        ok := false;
      } else {
        ok := bankStates[cmd.Place()].UpdateState(cmd);
        assert Touches(cmd, cmd.Place()) && forall l | l in d.banks && Touches(cmd, l) :: l == cmd.Place();
        if ok && cmd.kind.IsRefresh() {
          BankNeedRefresh(cmd.addr.rank, cmd.addr.bankgroup, cmd.addr.bank, false);
          ServedAlike(old(refreshQ), Channel.RefreshOneBank(cmd.Place()), cmd);
        }
      }
    }

    method UpdateRankState(cmd: Command) returns (ok: bool)
      requires Valid() && cmd.kind.IsRankCommand() && 0 <= cmd.addr.rank < config.ranks
      modifies bankStates.Values
      ensures ok <==> forall l | l in bankStates && l.rank == cmd.addr.rank :: BankUpdate(old(bankStates[l].Model()), cmd).Some?
      ensures ok ==> forall l | l in bankStates ::
                Follows(old(bankStates[l].Model()), bankStates[l].Model(), cmd, l.rank == cmd.addr.rank)
    {
      var r := cmd.addr.rank;
      var j := 0;
      while j < config.bankgroups
        invariant 0 <= j <= config.bankgroups
        invariant forall l | l in bankStates ::
                    Follows(old(bankStates[l].Model()), bankStates[l].Model(), cmd, l.rank == r && Before(l, r, j, 0))
      {
        var k := 0;
        while k < config.banksPerGroup
          invariant 0 <= k <= config.banksPerGroup
          invariant forall l | l in bankStates ::
                      Follows(old(bankStates[l].Model()), bankStates[l].Model(), cmd, l.rank == r && Before(l, r, j, k))
        {
          assert config.HasLoc(Loc(r, j, k));
          ok := bankStates[Loc(r, j, k)].UpdateState(cmd);
          if !ok {
            return;
          }
          k := k + 1;
        }
        j := j + 1;
      }
      ok := true;
    }

    // ----- timing

    method UpdateBankTiming(l: Loc, list: DelayList, clk: int)
      requires l in bankStates
      modifies bankStates[l]
      ensures Delayed(old(bankStates[l].Model()), bankStates[l].Model(), list, clk, true)
    {
      var i := 0;
      while i < |list|
        invariant 0 <= i <= |list| && Delayed(old(bankStates[l].Model()), bankStates[l].Model(), list[..i], clk, true)
      {
        bankStates[l].UpdateTiming(list[i].0, clk + list[i].1);
        assert list[..i + 1][..i] == list[..i];
        i := i + 1;
      }
      assert list[..i] == list;
    }

    method UpdateSameBankTiming(addr: Address, list: DelayList, clk: int)
      requires Valid() && Loc(addr.rank, addr.bankgroup, addr.bank) in bankStates
      modifies bankStates.Values
      ensures forall l | l in bankStates ::
                Delayed(old(bankStates[l].Model()), bankStates[l].Model(), list, clk, l == Loc(addr.rank, addr.bankgroup, addr.bank))
    {
      UpdateBankTiming(Loc(addr.rank, addr.bankgroup, addr.bank), list, clk);
    }

    method UpdateOtherBanksSameBankgroupTiming(addr: Address, list: DelayList, clk: int)
      requires Valid() && Loc(addr.rank, addr.bankgroup, addr.bank) in bankStates
      modifies bankStates.Values
      ensures forall l | l in bankStates ::
                Delayed(old(bankStates[l].Model()), bankStates[l].Model(), list, clk,
                        l.rank == addr.rank && l.bankgroup == addr.bankgroup && l.bank != addr.bank)
    {
      var k := 0;
      while k < config.banksPerGroup
        invariant 0 <= k <= config.banksPerGroup
        invariant forall l | l in bankStates ::
                    Delayed(old(bankStates[l].Model()), bankStates[l].Model(), list, clk,
                            l.rank == addr.rank && l.bankgroup == addr.bankgroup && l.bank != addr.bank && l.bank < k)
      {
        if k != addr.bank {
          assert config.HasLoc(Loc(addr.rank, addr.bankgroup, k));
          UpdateBankTiming(Loc(addr.rank, addr.bankgroup, k), list, clk);
        }
        k := k + 1;
      }
    }

    /** The loop over the banks of bankgroup `j`. */
    method UpdateBankgroupTiming(rank: int, j: int, list: DelayList, clk: int)
      requires Valid() && 0 <= rank < config.ranks && 0 <= j < config.bankgroups
      modifies bankStates.Values
      ensures forall l | l in bankStates ::
                Delayed(old(bankStates[l].Model()), bankStates[l].Model(), list, clk, l.rank == rank && l.bankgroup == j)
    {
      var k := 0;
      while k < config.banksPerGroup
        invariant 0 <= k <= config.banksPerGroup
        invariant forall l | l in bankStates ::
                    Delayed(old(bankStates[l].Model()), bankStates[l].Model(), list, clk, l.rank == rank && l.bankgroup == j && l.bank < k)
      {
        assert config.HasLoc(Loc(rank, j, k));
        UpdateBankTiming(Loc(rank, j, k), list, clk);
        k := k + 1;
      }
    }

    method UpdateOtherBankgroupsSameRankTiming(addr: Address, list: DelayList, clk: int)
      requires Valid() && 0 <= addr.rank < config.ranks
      modifies bankStates.Values
      ensures forall l | l in bankStates ::
                Delayed(old(bankStates[l].Model()), bankStates[l].Model(), list, clk, l.rank == addr.rank && l.bankgroup != addr.bankgroup)
    {
      var j := 0;
      while j < config.bankgroups
        invariant 0 <= j <= config.bankgroups
        invariant forall l | l in bankStates ::
                    Delayed(old(bankStates[l].Model()), bankStates[l].Model(), list, clk,
                            l.rank == addr.rank && l.bankgroup != addr.bankgroup && l.bankgroup < j)
      {
        if j != addr.bankgroup {
          UpdateBankgroupTiming(addr.rank, j, list, clk);
        }
        j := j + 1;
      }
    }

    method UpdateOtherRanksTiming(addr: Address, list: DelayList, clk: int)
      requires Valid()
      modifies bankStates.Values
      ensures forall l | l in bankStates ::
                Delayed(old(bankStates[l].Model()), bankStates[l].Model(), list, clk, l.rank != addr.rank)
    {
      var i := 0;
      while i < config.ranks
        invariant 0 <= i <= config.ranks
        invariant forall l | l in bankStates ::
                    Delayed(old(bankStates[l].Model()), bankStates[l].Model(), list, clk, l.rank != addr.rank && l.rank < i)
      {
        if i != addr.rank {
          UpdateSameRankTiming(Address(-1, i, -1, -1, -1, -1), list, clk);
        }
        i := i + 1;
      }
    }

    method UpdateSameRankTiming(addr: Address, list: DelayList, clk: int)
      requires Valid() && 0 <= addr.rank < config.ranks
      modifies bankStates.Values
      ensures forall l | l in bankStates ::
                Delayed(old(bankStates[l].Model()), bankStates[l].Model(), list, clk, l.rank == addr.rank)
    {
      var j := 0;
      while j < config.bankgroups
        invariant 0 <= j <= config.bankgroups
        invariant forall l | l in bankStates ::
                    Delayed(old(bankStates[l].Model()), bankStates[l].Model(), list, clk, l.rank == addr.rank && l.bankgroup < j)
      {
        UpdateBankgroupTiming(addr.rank, j, list, clk);
        j := j + 1;
      }
    }

    method UpdateFourScopes(addr: Address, same: DelayList, otherBanks: DelayList, otherGroups: DelayList, otherRanks: DelayList, clk: int)
      requires Valid() && Loc(addr.rank, addr.bankgroup, addr.bank) in bankStates
      modifies bankStates.Values
      ensures forall l | l in bankStates ::
                Delayed(old(bankStates[l].Model()), bankStates[l].Model(),
                        if l.rank != addr.rank then otherRanks else if l.bankgroup != addr.bankgroup then otherGroups
                        else if l.bank != addr.bank then otherBanks else same, clk, true)
    {
      UpdateSameBankTiming(addr, same, clk);
      UpdateOtherBanksSameBankgroupTiming(addr, otherBanks, clk);
      UpdateOtherBankgroupsSameRankTiming(addr, otherGroups, clk);
      UpdateOtherRanksTiming(addr, otherRanks, clk);
    }

    /** The switch over command kinds: which lists go to which banks. */
    method UpdateScopes(cmd: Command, clk: int)
      requires Valid() && 0 <= cmd.addr.rank < config.ranks && (cmd.kind.IsRankCommand() || cmd.Place() in bankStates)
      modifies bankStates.Values
      ensures forall l | l in bankStates ::
                Scoped(timing, cmd, l, clk, old(bankStates[l].Model()), bankStates[l].Model())
    {
      var i := cmd.kind.Index();
      TablesSized(timing);
      hide ChannelState.Valid, BankState.Model, Delayed, Scoped;
      if cmd.kind.IsRankCommand() {
        UpdateSameRankTiming(cmd.addr, timing.sameRank[i], clk);
        forall l | l in bankStates
          ensures Scoped(timing, cmd, l, clk, old(bankStates[l].Model()), bankStates[l].Model())
        {
          RankScope(timing, cmd, l, clk, old(bankStates[l].Model()), bankStates[l].Model());
        }
      } else {
        UpdateFourScopes(cmd.addr, timing.sameBank[i], timing.otherBanksSameBankgroup[i], timing.otherBankgroupsSameRank[i],
                         timing.otherRanks[i], clk);
        forall l | l in bankStates
          ensures Scoped(timing, cmd, l, clk, old(bankStates[l].Model()), bankStates[l].Model())
        {
          BankScope(timing, cmd, l, clk, old(bankStates[l].Model()), bankStates[l].Model());
        }
      }
    }

    method UpdateTiming(cmd: Command, clk: int)
      requires Valid() && 0 <= cmd.addr.rank < config.ranks && (cmd.kind.IsRankCommand() || cmd.Place() in bankStates)
      modifies `fourAw, `thirtyTwoAw, bankStates.Values
      ensures Valid()
      ensures forall l | l in bankStates ::
                bankStates[l].Model() == old(bankStates[l].Model()).(earliest := Raised(config, cmd, l, clk, old(bankStates[l].Model()).earliest))
      ensures var r := cmd.addr.rank;
              fourAw == (if cmd.kind.Activate? then old(fourAw)[r := Pushed(old(fourAw)[r], clk, config.tFAW)] else old(fourAw)) &&
              thirtyTwoAw == (if cmd.kind.Activate? && config.IsGDDR() then old(thirtyTwoAw)[r := Pushed(old(thirtyTwoAw)[r], clk, config.t32AW)]
                              else old(thirtyTwoAw))
    {
      if cmd.kind.Activate? {
        UpdateActivationTimes(cmd.addr.rank, clk);
      }
      UpdateScopes(cmd, clk);
      forall l | l in bankStates
        ensures bankStates[l].Model() == old(bankStates[l].Model()).(earliest := Raised(config, cmd, l, clk, old(bankStates[l].Model()).earliest))
      {
        ListRaises(timing, cmd, l, clk, old(bankStates[l].Model()), bankStates[l].Model());
      }
    }

    /** The result is false where the program aborts. */
    method UpdateTimingAndStates(cmd: Command, clk: int) returns (ok: bool)
      requires Valid()
      modifies this, bankStates.Values
      ensures ok == Issue(config, old(Model()), cmd, clk).Some?
      ensures ok ==> Valid() && Some(Model()) == Issue(config, old(Model()), cmd, clk)
      ensures ok ==> refreshQ == if cmd.kind.IsRefresh() then Channel.RefreshServed(old(refreshQ), cmd) else old(refreshQ)
    {
      ghost var d := Model();
      assert forall l | l in bankStates :: l in d.banks && d.banks[l] == bankStates[l].Model();
      ok := UpdateState(cmd);
      if ok {
        UpdateTiming(cmd, clk);
        hide ChannelState.Valid;
        forall l | l in bankStates
          ensures bankStates[l].Model() == Stepped(config, d, cmd, clk, l)
        {
          StepsWhole(config, d, cmd, clk, l, bankStates[l].Model());
        }
        assert Model().banks == Issue(config, d, cmd, clk).value.banks;
      }
    }
  }

  /** A state step followed by the timing step makes the whole step of a bank. */
  lemma StepsWhole(p: Config, d: Device, cmd: Command, clk: int, l: Loc, now: Bank)
    requires Accepts(d, cmd) && l in d.banks
    requires exists mid :: Follows(d.banks[l], mid, cmd, Touches(cmd, l)) && now == mid.(earliest := Raised(p, cmd, l, clk, mid.earliest))
    ensures now == Stepped(p, d, cmd, clk, l)
  {
  }

  /** A bank in the scope of a list has its earliest times raised by it; any other stays as it is. */
  ghost predicate Delayed(was: Bank, now: Bank, list: DelayList, clk: int, hit: bool) {
    now == if hit then was.(earliest := Applied(was.earliest, list, clk)) else was
  }

  lemma TablesSized(t: Timing)
    requires t.Valid()
    ensures |t.sameBank| == 10 && |t.otherBanksSameBankgroup| == 10 && |t.otherBankgroupsSameRank| == 10
    ensures |t.otherRanks| == 10 && |t.sameRank| == 10
  {
    assert Lists(t.Table(SameBank), t.config, SameBank) && Lists(t.Table(OtherBank), t.config, OtherBank);
    assert Lists(t.Table(OtherGroup), t.config, OtherGroup) && Lists(t.Table(OtherRank), t.config, OtherRank);
    assert Lists(t.Table(SameRank), t.config, SameRank);
  }

  /** The bank saw exactly the list of its relation to the command. */
  ghost predicate Scoped(t: Timing, cmd: Command, l: Loc, clk: int, was: Bank, now: Bank)
    reads t
  {
    match Relate(cmd, l)
    case None => now == was
    case Some(rel) => |t.Table(rel)| == 10 && Delayed(was, now, t.Table(rel)[cmd.kind.Index()], clk, true)
  }

  lemma RankScope(t: Timing, cmd: Command, l: Loc, clk: int, was: Bank, now: Bank)
    requires |t.sameRank| == 10 && cmd.kind.IsRankCommand() && Delayed(was, now, t.sameRank[cmd.kind.Index()], clk, l.rank == cmd.addr.rank)
    ensures Scoped(t, cmd, l, clk, was, now)
  {
  }

  lemma BankScope(t: Timing, cmd: Command, l: Loc, clk: int, was: Bank, now: Bank)
    requires |t.sameBank| == 10 && |t.otherBanksSameBankgroup| == 10 && |t.otherBankgroupsSameRank| == 10 && |t.otherRanks| == 10
    requires !cmd.kind.IsRankCommand()
    requires var i := cmd.kind.Index();
             Delayed(was, now, if l.rank != cmd.addr.rank then t.otherRanks[i] else if l.bankgroup != cmd.addr.bankgroup then t.otherBankgroupsSameRank[i]
                               else if l.bank != cmd.addr.bank then t.otherBanksSameBankgroup[i] else t.sameBank[i], clk, true)
    ensures Scoped(t, cmd, l, clk, was, now)
  {
  }

  lemma ListRaises(t: Timing, cmd: Command, l: Loc, clk: int, was: Bank, now: Bank)
    requires t.Valid() && Timed(t.config) && Scoped(t, cmd, l, clk, was, now)
    ensures now == was.(earliest := Raised(t.config, cmd, l, clk, was.earliest))
  {
    match Relate(cmd, l)
    case None => assert Raised(t.config, cmd, l, clk, was.earliest) == was.earliest;
    case Some(rel) =>
      IndexApart();
      assert Lists(t.Table(rel), t.config, rel);
      PrescribedListRaises(t.config, cmd, l, rel, clk, was.earliest);
  }

  /** A bank that `cmd` drives takes the step it allows; any other stays as it is. */
  ghost predicate Follows(was: Bank, now: Bank, cmd: Command, driven: bool) {
    if driven then BankUpdate(was, cmd) == Some(now) else now == was
  }

  lemma {:induction false} ServedAlike(q: seq<Command>, ref: Command, cmd: Command)
    requires forall c :: Channel.SameTarget(c, ref) <==> Channel.SameTarget(c, cmd)
    ensures Channel.RefreshServed(q, ref) == Channel.RefreshServed(q, cmd)
  {
    if q != [] {
      ServedAlike(q[1..], ref, cmd);
    }
  }
}
