/** The command queues as an object (src/command_queue.h, src/command_queue.cc). */
module CommandQueues {
  import opened Common
  import opened Configuration
  import opened Device
  import opened ChannelStates
  import Scheduler

  class CommandQueue {
    const config: Config
    const channelState: ChannelState
    var queues: seq<seq<Command>>
    var queueIdx: int
    var isInRef: bool
    var refQIndices: set<int>
    var clk: int

    ghost function Model(): Scheduler.CommandQueue
      reads this
    {
      Scheduler.CommandQueue(queues, queueIdx, isInRef, refQIndices, clk)
    }

    ghost function Device(): Device
      reads channelState`fourAw, channelState`thirtyTwoAw, channelState.bankStates.Values
    {
      channelState.Model()
    }

    constructor (config: Config, channelState: ChannelState)
      ensures this.config == config && this.channelState == channelState && Model() == Scheduler.NewCommandQueue(config)
    {
      this.config, this.channelState := config, channelState;
      queues := seq(Scheduler.QueueCount(config), _ => []);
      queueIdx, isInRef, refQIndices, clk := 0, false, {}, 0;
    }

    // ----- arbitration

    method ArbitratePrecharge(queue: seq<Command>, i: nat) returns (ok: bool)
      requires i < |queue| && queue[i].Place() in channelState.bankStates
      ensures ok == Scheduler.ArbitratePrecharge(Device().banks[queue[i].Place()], queue, i)
    {
      var cmd, bank := queue[i], channelState.bankStates[queue[i].Place()];
      assert Device().banks[queue[i].Place()] == bank.Model();
      var prev := 0;
      while prev < i
        invariant 0 <= prev <= i && forall k | 0 <= k < prev :: queue[k].Place() != cmd.Place()
      {
        if queue[prev].addr.rank == cmd.addr.rank && queue[prev].addr.bankgroup == cmd.addr.bankgroup && queue[prev].addr.bank == cmd.addr.bank {
          assert queue[prev].Place() == cmd.Place();
          return false;
        }
        prev := prev + 1;
      }
      var pendingRowHitsExist := false;
      var pending := i;
      while pending < |queue|
        invariant i <= pending <= |queue| && !pendingRowHitsExist
        invariant forall k | i <= k < pending :: !(queue[k].Place() == cmd.Place() && queue[k].addr.row == bank.openRow)
      {
        if queue[pending].addr.row == bank.openRow && queue[pending].Place() == cmd.Place() {
          pendingRowHitsExist := true;
          break;
        }
        pending := pending + 1;
      }
      ok := !pendingRowHitsExist || bank.rowHitCount >= 4;
    }

    method HasRWDependency(queue: seq<Command>, i: nat) returns (found: bool)
      requires i < |queue|
      ensures found == Scheduler.HasReadBefore(queue, i)
    {
      var k := 0;
      while k < i
        invariant 0 <= k <= i && forall j | 0 <= j < k :: !(queue[j].kind.IsRead() && Scheduler.SameCell(queue[j].addr, queue[i].addr))
      {
        var a, b := queue[k].addr, queue[i].addr;
        if queue[k].kind.IsRead() && a.row == b.row && a.column == b.column && a.bank == b.bank && a.bankgroup == b.bankgroup {
          assert Scheduler.SameCell(queue[k].addr, queue[i].addr);
          return true;
        }
        k := k + 1;
      }
      found := false;
    }

    method GetFirstReadyInQueue(queue: seq<Command>) returns (r: Readiness)
      requires channelState.Valid() && channelState.config == config
      ensures r == Scheduler.FirstReady(config, Device(), queue, 0, clk)
    {
      var i := 0;
      while i < |queue|
        invariant 0 <= i <= |queue|
        invariant Scheduler.FirstReady(config, Device(), queue, 0, clk) == Scheduler.FirstReady(config, Device(), queue, i, clk)
      {
        r := Offered(queue, i);
        if !r.NotYet? {
          return;
        }
        i := i + 1;
      }
      r := NotYet;
    }

    /** The body of the loop over a queue. */
    method Offered(queue: seq<Command>, i: nat) returns (r: Readiness)
      requires channelState.Valid() && channelState.config == config && i < |queue|
      ensures r == Scheduler.Offer(config, Device(), queue, i, clk)
    {
      r := channelState.GetReadyCommand(queue[i], clk);
      assert forall l :: l in Device().banks <==> l in channelState.bankStates;
      if r.Ready? && r.cmd.kind.Precharge? {
        var ok := false;
        if queue[i].Place() in channelState.bankStates {
          ok := ArbitratePrecharge(queue, i);
        }
        if !ok {
          r := NotYet;
        }
      } else if r.Ready? && r.cmd.kind.IsWrite() {
        var depends := HasRWDependency(queue, i);
        if depends {
          r := NotYet;
        }
      }
    }

    // ----- choosing a command

    method GetNextQueue()
      modifies `queueIdx
      ensures queueIdx == Scheduler.NextIndex(config, old(queueIdx))
    {
      queueIdx := queueIdx + 1;
      if queueIdx == Scheduler.QueueCount(config) {
        queueIdx := 0;
      }
    }

    /** The result is false where the program exits because the command is not there. */
    method EraseRWCommand(cmd: Command) returns (ok: bool)
      modifies `queues
      ensures var i := Scheduler.QueueIndex(config, cmd.Place());
              if !(0 <= i < |old(queues)|) then !ok
              else match Scheduler.Erased(old(queues)[i], cmd)
                   case None => !ok
                   case Some(rest) => ok && queues == old(queues)[i := rest]
    {
      var i := Scheduler.QueueIndex(config, cmd.Place());
      if !(0 <= i < |queues|) {
        return false;
      }
      var queue := queues[i];
      var k := 0;
      assert queue[k..] == queue && (Scheduler.Erased(queue, cmd).Some? ==> queue[..k] + Scheduler.Erased(queue, cmd).value == Scheduler.Erased(queue, cmd).value);
      while k < |queue|
        invariant 0 <= k <= |queue| && queues == old(queues)
        invariant Scheduler.Erased(queue, cmd) ==
                  match Scheduler.Erased(queue[k..], cmd) case None => None case Some(rest) => Some(queue[..k] + rest)
      {
        if cmd.hexAddr == queue[k].hexAddr && cmd.kind == queue[k].kind {
          assert queue[k..][1..] == queue[k + 1..];
          queues := queues[i := queue[..k] + queue[k + 1..]];
          return true;
        }
        EraseSkips(queue, k, cmd);
        k := k + 1;
      }
      ok := false;
    }

    /** The answer is `Abort` where the program exits. */
    method GetCommandToIssue() returns (r: Readiness)
      requires channelState.Valid() && channelState.config == config
      modifies this
      ensures r == Scheduler.GetCommandToIssue(config, Device(), old(Model())).answer
      ensures !r.Abort? ==> Model() == Scheduler.GetCommandToIssue(config, Device(), old(Model())).cq
    {
      var n := Scheduler.QueueCount(config);
      var i := 0;
      while i < n
        invariant 0 <= i <= n
        invariant Scheduler.GetCommandToIssue(config, Device(), old(Model())) == Scheduler.Visit(config, Device(), Model(), n - i)
      {
        GetNextQueue();
        i := i + 1;
        if isInRef && queueIdx in refQIndices {
          continue;
        }
        if !(0 <= queueIdx < |queues|) {
          return Abort;
        }
        r := GetFirstReadyInQueue(queues[queueIdx]);
        if r.Abort? {
          return;
        }
        if r.Ready? {
          if r.cmd.kind.IsReadWrite() {
            var ok := EraseRWCommand(r.cmd);
            if !ok {
              r := Abort;
            }
          }
          return;
        }
      }
      r := NotYet;
    }

    // ----- refresh

    method GetRefQIndices(ref: Command)
      modifies `refQIndices
      ensures refQIndices == old(refQIndices) + Scheduler.RefreshQueues(config, ref)
    {
      if ref.kind.Refresh? {
        if config.queueStructure.PerBank? {
          var n, i := Scheduler.QueueCount(config), 0;
          while i < n
            invariant 0 <= i <= n
            invariant refQIndices == old(refQIndices) + set j | 0 <= j < i && config.Banks() != 0 && j / config.Banks() == ref.addr.rank
          {
            if config.Banks() != 0 && i / config.Banks() == ref.addr.rank {
              refQIndices := refQIndices + {i};
            }
            i := i + 1;
          }
        } else {
          refQIndices := refQIndices + {ref.addr.rank};
        }
      } else {
        refQIndices := refQIndices + {Scheduler.QueueIndex(config, ref.Place())};
      }
    }

    method FinishRefresh() returns (r: Readiness)
      requires channelState.Valid() && channelState.config == config && channelState.refreshQ != []
      modifies this
      ensures var c := Scheduler.FinishRefresh(config, Device(), old(Model()), channelState.refreshQ[0]);
              r == c.answer && (!r.Abort? ==> Model() == c.cq)
    {
      hide GetReady, Scheduler.RefreshQueues;
      var ref := channelState.refreshQ[0];
      if !isInRef {
        GetRefQIndices(ref);
        isInRef := true;
      }
      r := channelState.GetReadyCommand(ref, clk);
      if r.Ready? && r.cmd.kind.IsRefresh() {
        refQIndices := {};
        isInRef := false;
      }
    }

    // ----- new commands

    predicate WillAcceptCommand(l: Loc)
      reads this
    {
      var i := Scheduler.QueueIndex(config, l);
      0 <= i < |queues| && |queues[i]| < config.cmdQueueSize
    }

    method AddCommand(cmd: Command) returns (ok: bool)
      modifies `queues
      ensures ok == Scheduler.WillAcceptCommand(config, old(Model()), cmd.Place())
      ensures Model() == if ok then Scheduler.AddCommand(config, old(Model()), cmd) else old(Model())
    {
      ok := WillAcceptCommand(cmd.Place());
      if ok {
        var i := Scheduler.QueueIndex(config, cmd.Place());
        queues := queues[i := queues[i] + [cmd]];
      }
    }

    method QueueEmpty() returns (empty: bool)
      ensures empty == Scheduler.QueueEmpty(Model())
    {
      var i := 0;
      while i < |queues|
        invariant 0 <= i <= |queues| && forall j | 0 <= j < i :: queues[j] == []
      {
        if queues[i] != [] {
          assert queues[i] in queues;
          return false;
        }
        i := i + 1;
      }
      empty := true;
    }

    method ClockTick()
      modifies `clk
      ensures Model() == old(Model()).(clk := old(clk) + 1)
    {
      clk := clk + 1;
    }
  }

  lemma EraseSkips(queue: seq<Command>, k: nat, cmd: Command)
    requires k < |queue| && !Scheduler.Matches(queue[k], cmd)
    ensures match Scheduler.Erased(queue[k + 1..], cmd)
            case None => Scheduler.Erased(queue[k..], cmd) == None
            case Some(rest) =>
              Scheduler.Erased(queue[k..], cmd).Some? && queue[..k] + Scheduler.Erased(queue[k..], cmd).value == queue[..k + 1] + rest
  {
    assert queue[k..][1..] == queue[k + 1..] && queue[..k] + [queue[k]] == queue[..k + 1];
  }
}
