/** One bank as an object (src/bankstate.h, src/bankstate.cc). */
module BankStates {
  import opened Common
  import opened Configuration
  import opened TimingSpec
  import opened TimingTables
  import opened Device

  class BankState {
    var mode: BankMode
    var openRow: int
    var rowHitCount: nat
    var cmdTiming: EarliestTimes

    ghost function Model(): Bank
      reads this
    {
      Bank(mode, openRow, rowHitCount, cmdTiming)
    }

    constructor ()
      ensures Model() == FRESH_BANK
    {
      mode, openRow, rowHitCount, cmdTiming := Closed, -1, 0, NO_DELAYS;
    }

    method GetReadyCommand(cmd: Command, clk: int) returns (r: Readiness)
      ensures r == BankReady(Model(), cmd, clk)
    {
      var required: CommandType;
      match mode {
        case Closed =>
          match cmd.kind {
            case Read | ReadPrecharge | Write | WritePrecharge => required := Activate;
            case Refresh | RefreshBank | SrefEnter => required := cmd.kind;
            case _ => return Abort;
          }
        case Open =>
          match cmd.kind {
            case Read | ReadPrecharge | Write | WritePrecharge =>
              required := if cmd.addr.row == openRow then cmd.kind else Precharge;
            case Refresh | RefreshBank | SrefEnter => required := Precharge;
            case _ => return Abort;
          }
        case SelfRefresh =>
          match cmd.kind {
            case Read | ReadPrecharge | Write | WritePrecharge => required := SrefExit;
            case _ => return Abort;
          }
      }
      if clk >= cmdTiming[required.Index()] {
        return Ready(Command(required, cmd.addr, cmd.hexAddr));
      }
      return NotYet;
    }

    /** The result is false where the program aborts. */
    method UpdateState(cmd: Command) returns (ok: bool)
      modifies `mode, `openRow, `rowHitCount
      ensures ok <==> BankUpdate(old(Model()), cmd).Some?
      ensures Model() == if ok then BankUpdate(old(Model()), cmd).value else old(Model())
    {
      ok := true;
      match mode {
        case Open =>
          match cmd.kind {
            case Read | Write => rowHitCount := rowHitCount + 1;
            case ReadPrecharge | WritePrecharge | Precharge => mode, openRow, rowHitCount := Closed, -1, 0;
            case _ => ok := false;
          }
        case Closed =>
          match cmd.kind {
            case Refresh | RefreshBank =>
            case Activate => mode, openRow := Open, cmd.addr.row;
            case SrefEnter => mode := SelfRefresh;
            case _ => ok := false;
          }
        case SelfRefresh =>
          match cmd.kind {
            case SrefExit => mode := Closed;
            case _ => ok := false;
          }
      }
    }

    method UpdateTiming(kind: CommandType, time: int)
      modifies `cmdTiming
      ensures cmdTiming == old(cmdTiming)[kind.Index() := Max(old(cmdTiming)[kind.Index()], time)]
    {
      cmdTiming := cmdTiming[kind.Index() := Max(cmdTiming[kind.Index()], time)];
    }
  }

  // ----- a whole list of delays

  /** The earliest times after the entries of `list`, each counted from `clk`. */
  function Applied(e: EarliestTimes, list: DelayList, clk: int): EarliestTimes {
    if list == [] then e
    else
      var n := |list| - 1;
      var before := Applied(e, list[..n], clk);
      before[list[n].0.Index() := Max(before[list[n].0.Index()], clk + list[n].1)]
  }

  /** Entries that agree with `delay` raise just the kinds they mention, whatever their order. */
  lemma {:induction false} AppliedAt(e: EarliestTimes, list: DelayList, clk: int, k: CommandType, delay: Option<int>)
    requires forall i | 0 <= i < |list| && list[i].0 == k :: delay == Some(list[i].1)
    ensures Applied(e, list, clk)[k.Index()] ==
            if Mentions(list, k) then Max(e[k.Index()], clk + delay.value) else e[k.Index()]
  {
    if list != [] {
      var n := |list| - 1;
      AppliedAt(e, list[..n], clk, k, delay);
      IndexApart();
      if Mentions(list[..n], k) {
        var i :| 0 <= i < n && list[..n][i].0 == k;
        assert list[i].0 == k;
      } else {
        assert forall i | 0 <= i < n :: list[..n][i] == list[i];
      }
    }
  }

  /** Going through the prescribed list raises a bank's earliest times as specified. */
  lemma PrescribedListRaises(p: Config, cmd: Command, l: Loc, rel: Relation, clk: int, e: EarliestTimes)
    requires Timed(p) && Relate(cmd, l) == Some(rel)
    ensures Applied(e, Prescribed(p, rel, cmd.kind), clk) == Raised(p, cmd, l, clk, e)
  {
    PrescribedIsRight(p, rel, cmd.kind);
    var list := Prescribed(p, rel, cmd.kind);
    forall i | 0 <= i < 10
      ensures Applied(e, list, clk)[i] == Raised(p, cmd, l, clk, e)[i]
    {
      var k := KindAt(i);
      assert Listed(p.delays, rel, cmd.kind, k) == Delay(p, rel, cmd.kind, k);
      AppliedAt(e, list, clk, k, Delay(p, rel, cmd.kind, k));
    }
  }
}
