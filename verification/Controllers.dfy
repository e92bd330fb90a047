/** The memory controller of one channel as an object (src/controller.h, src/controller.cc). */
module Controllers {
  import opened Common
  import opened Configuration
  import opened TimingSpec
  import opened TimingTables
  import opened Device
  import opened DeviceRuns
  import opened ChannelStates
  import opened CommandQueues
  import opened Refreshes
  import Scheduler
  import Channel
  import ChannelSteps

  class Controller {
    const config: Config
    const channelState: ChannelState
    const cmdQueue: CommandQueue
    const refresh: Refresh
    var clk: int
    var unifiedQueue: seq<Transaction>
    var readQueue: seq<Transaction>
    var writeBuffer: seq<Transaction>
    // multimaps: the pending transactions of an address in the order of insertion
    var pendingRdQ: map<int, seq<Transaction>>
    var pendingWrQ: map<int, seq<Transaction>>
    var returnQueue: seq<Transaction>
    var writeDraining: int
    // numbers the accepted transactions; belongs to the model
    var accepted: nat
    ghost var trace: Channel.Trace

    ghost predicate Valid()
      reads `accepted, `trace, channelState`fourAw, channelState`thirtyTwoAw, channelState.timing
    {
      channelState.Valid() && channelState.config == config && cmdQueue.config == config && cmdQueue.channelState == channelState &&
      refresh.Valid() && refresh.config == config && refresh.channelState == channelState && accepted == |trace.log|
    }

    ghost function Model(): Channel.Channel
      reads this, channelState, channelState.bankStates.Values, cmdQueue, refresh
    {
      Channel.Channel(clk, channelState.Model(), channelState.refreshQ, cmdQueue.Model(), refresh.Model(), unifiedQueue, readQueue, writeBuffer,
                      pendingRdQ, pendingWrQ, returnQueue, writeDraining, trace)
    }

    /** The objects that make up the channel. */
    ghost function Repr(): set<object> {
      {this, channelState, cmdQueue, refresh} + channelState.bankStates.Values
    }

    constructor (config: Config, timing: Timing)
      requires timing.Valid() && timing.config == config && Timed(config)
      requires config.ranks >= 1 && config.bankgroups >= 1 && config.banksPerGroup >= 1
      ensures this.config == config && Valid() && clk == 0 && Model() == Channel.NewChannel(config)
      ensures fresh(Repr())
    {
      hide NewDevice, ChannelState.Valid;
      var channelState := new ChannelState(config, timing);
      var cmdQueue := new CommandQueue(config, channelState);
      var refresh := new Refresh(config, channelState);
      this.config, this.channelState, this.cmdQueue, this.refresh := config, channelState, cmdQueue, refresh;
      clk, unifiedQueue, readQueue, writeBuffer, pendingRdQ, pendingWrQ := 0, [], [], [], map[], map[];
      returnQueue, writeDraining, accepted := [], 0, 0;
      trace := Channel.Trace([], [], map[], map[], map[], [], []);
    }

    // ----- accepting transactions

    function TransQueue(isWrite: bool): seq<Transaction>
      reads this
    {
      if config.unifiedQueue then unifiedQueue else if isWrite then writeBuffer else readQueue
    }

    predicate WillAcceptTransaction(isWrite: bool)
      reads this
    {
      |TransQueue(isWrite)| < config.transQueueSize
    }

    /** Puts a transaction into the queue it waits in. */
    method Enqueue(trans: Transaction)
      modifies `unifiedQueue, `readQueue, `writeBuffer
      ensures unifiedQueue == if config.unifiedQueue then old(unifiedQueue) + [trans] else old(unifiedQueue)
      ensures writeBuffer == if !config.unifiedQueue && trans.isWrite then old(writeBuffer) + [trans] else old(writeBuffer)
      ensures readQueue == if !config.unifiedQueue && !trans.isWrite then old(readQueue) + [trans] else old(readQueue)
    {
      if config.unifiedQueue {
        unifiedQueue := unifiedQueue + [trans];
      } else if trans.isWrite {
        writeBuffer := writeBuffer + [trans];
      } else {
        readQueue := readQueue + [trans];
      }
    }

    method AddTransaction(addr: nat, isWrite: bool)
      requires Valid()
      modifies this
      ensures Valid() && Model() == Channel.Accept(config, old(Model()), addr, isWrite)
    {
      var trans := Transaction(accepted, addr, clk, 0, isWrite);
      accepted := accepted + 1;
      if isWrite {
        AddWrite(trans);
      } else {
        AddRead(trans);
      }
    }

    method AddWrite(trans: Transaction)
      requires trans == Transaction(|trace.log|, trans.addr, clk, 0, true)
      modifies `pendingWrQ, `unifiedQueue, `readQueue, `writeBuffer, `returnQueue, `trace
      ensures Model() == Channel.Accept(config, old(Model()), trans.addr, true) && |trace.log| == |old(trace.log)| + 1
    {
      hide ChannelState.Model, CommandQueue.Model, Refresh.Model;
      trace := trace.(log := trace.log + [Channel.Request(trans.addr, true, clk)], newest := trace.newest[trans.addr := trans.id]);
      if trans.addr !in pendingWrQ {
        pendingWrQ := pendingWrQ[trans.addr := [trans]];
        Enqueue(trans);
      }
      returnQueue := returnQueue + [trans.(completeCycle := clk + 1)];
    }

    method AddRead(trans: Transaction)
      requires trans == Transaction(|trace.log|, trans.addr, clk, 0, false)
      modifies `pendingRdQ, `unifiedQueue, `readQueue, `writeBuffer, `returnQueue, `trace
      ensures Model() == Channel.Accept(config, old(Model()), trans.addr, false) && |trace.log| == |old(trace.log)| + 1
    {
      hide ChannelState.Model, CommandQueue.Model, Refresh.Model;
      trace := trace.(log := trace.log + [Channel.Request(trans.addr, false, clk)]);
      if trans.addr in pendingWrQ {
        trace := trace.(served := trace.served[trans.id := Channel.Forwarded(Channel.Cell(trace.newest, trans.addr))]);
        returnQueue := returnQueue + [trans.(completeCycle := clk + 1)];
      } else if trans.addr in pendingRdQ {
        pendingRdQ := pendingRdQ[trans.addr := pendingRdQ[trans.addr] + [trans]];
      } else {
        pendingRdQ := pendingRdQ[trans.addr := [trans]];
        Enqueue(trans);
      }
    }

    // ----- completion

    /** The first transaction that is due leaves the return queue. */
    method ReturnDoneTrans(now: int) returns (t: Option<Transaction>)
      modifies `returnQueue
      ensures var due := Channel.Due(old(returnQueue), now);
              if due == [] then t == None && returnQueue == old(returnQueue)
              else t == Some(due[0]) && Channel.Due(returnQueue, now) == due[1..] &&
                   Channel.NotDue(returnQueue, now) == Channel.NotDue(old(returnQueue), now)
    {
      var i := 0;
      assert returnQueue[..0] == [] && returnQueue[0..] == returnQueue;
      while i < |returnQueue|
        invariant 0 <= i <= |returnQueue| && returnQueue == old(returnQueue)
        invariant Channel.Due(returnQueue[..i], now) == []
      {
        DueJoin(returnQueue[..i], returnQueue[i..], now);
        assert returnQueue[..i] + returnQueue[i..] == returnQueue && returnQueue[i..][1..] == returnQueue[i + 1..];
        if now >= returnQueue[i].completeCycle {
          t := Some(returnQueue[i]);
          DueJoin(returnQueue[..i], returnQueue[i + 1..], now);
          NotDueJoin(returnQueue[..i], returnQueue[i..], now);
          NotDueJoin(returnQueue[..i], returnQueue[i + 1..], now);
          returnQueue := returnQueue[..i] + returnQueue[i + 1..];
          return;
        }
        DueJoin(returnQueue[..i], [returnQueue[i]], now);
        assert returnQueue[..i] + [returnQueue[i]] == returnQueue[..i + 1];
        i := i + 1;
      }
      assert returnQueue[..i] == returnQueue;
      t := None;
    }

    // ----- issuing commands

    /** The result is false where the program exits or aborts. */
    method IssueCommand(cmd: Command) returns (ok: bool)
      requires Valid()
      modifies this, channelState, channelState.bankStates.Values
      ensures match Channel.IssueCommand(config, old(Model()), cmd)
              case None => !ok
              case Some(s) => ok && Valid() && Model() == s
    {
      hide CommandQueue.Model, Refresh.Model, ChannelState.Valid;
      ok := Retire(cmd);
      if ok {
        ok := channelState.UpdateTimingAndStates(cmd, clk);
      }
    }

    /** Completes the pending reads or strikes off the pending write that a column access answers. */
    method Retire(cmd: Command) returns (ok: bool)
      modifies `pendingRdQ, `pendingWrQ, `returnQueue, `trace
      ensures match Channel.Retired(config, old(Model()), cmd)
              case None => !ok
              case Some(s) => ok && Model() == s && |trace.log| == |old(trace.log)|
    {
      ok := true;
      if cmd.kind.IsRead() {
        ok := CompleteReads(cmd);
      } else if cmd.kind.IsWrite() {
        var a := cmd.hexAddr;
        if a !in pendingWrQ {
          return false;
        }
        pendingWrQ := pendingWrQ - {a};
        trace := trace.(hist := trace.hist + [Issued(cmd, clk)],
                        cells := if a in trace.newest then trace.cells[a := trace.newest[a]] else trace.cells,
                        newest := trace.newest - {a});
      } else {
        trace := trace.(hist := trace.hist + [Issued(cmd, clk)]);
      }
    }

    method CompleteReads(cmd: Command) returns (ok: bool)
      requires cmd.kind.IsRead()
      modifies `pendingRdQ, `returnQueue, `trace
      ensures match Channel.Retired(config, old(Model()), cmd)
              case None => !ok
              case Some(s) => ok && Model() == s && |trace.log| == |old(trace.log)|
    {
      hide ChannelState.Model, CommandQueue.Model, Refresh.Model;
      var a := cmd.hexAddr;
      if a !in pendingRdQ {
        return false;
      }
      ghost var group, rest := pendingRdQ[a], pendingRdQ - {a};
      trace := trace.(hist := trace.hist + [Issued(cmd, clk)],
                      served := trace.served + Channel.ReadResults(group, Channel.FromDram(Channel.Cell(trace.cells, a), |trace.hist|, Channel.HeadId(group))));
      ghost var recorded := trace;
      var numReads := |pendingRdQ[a]|;
      while numReads > 0
        invariant trace == recorded && a in pendingRdQ && numReads == |pendingRdQ[a]| && pendingRdQ - {a} == rest
        invariant old(returnQueue) + Channel.Completed(group, clk + config.ReadDelay()) ==
                  returnQueue + Channel.Completed(pendingRdQ[a], clk + config.ReadDelay())
      {
        returnQueue := returnQueue + [pendingRdQ[a][0].(completeCycle := clk + config.ReadDelay())];
        pendingRdQ := pendingRdQ[a := pendingRdQ[a][1..]];
        numReads := numReads - 1;
      }
      assert returnQueue + [] == returnQueue;
      pendingRdQ := pendingRdQ - {a};
      ok := true;
    }

    // ----- scheduling

    method ScheduleTransaction()
      requires Valid()
      modifies this, cmdQueue
      ensures Valid() && Model() == Channel.Schedule(config, old(Model()))
    {
      ghost var s := Model();
      StartDraining();
      ghost var now := Model();
      var queue := TransQueue(writeDraining > 0);
      var i := FirstAcceptable(queue);
      ScheduleIs(config, s, now);
      if i < |queue| {
        Admit(writeDraining > 0, i);
      }
    }

    method StartDraining()
      requires Valid()
      modifies `writeDraining
      ensures Model() == old(Model()).(draining := Channel.Draining(config, old(Model())))
    {
      if writeDraining == 0 && !config.unifiedQueue {
        var idle := cmdQueue.QueueEmpty();
        if |writeBuffer| >= config.transQueueSize || (|writeBuffer| > 8 && idle) {
          writeDraining := |writeBuffer|;
        }
      }
    }

    /** The search for a transaction whose command queue has room. */
    method FirstAcceptable(queue: seq<Transaction>) returns (i: nat)
      requires cmdQueue.config == config
      ensures i == Channel.FirstAcceptable(config, cmdQueue.Model(), queue, 0)
    {
      i := 0;
      while i < |queue|
        invariant 0 <= i <= |queue|
        invariant Channel.FirstAcceptable(config, cmdQueue.Model(), queue, 0) == Channel.FirstAcceptable(config, cmdQueue.Model(), queue, i)
      {
        var cmd := Channel.TransToCommand(config, queue[i].addr, queue[i].isWrite);
        if cmdQueue.WillAcceptCommand(cmd.Place()) {
          break;
        }
        i := i + 1;
      }
    }

    /** Turns transaction `i` of the queue being served into a command, unless it is a write that must wait for reads. */
    method Admit(writes: bool, i: nat)
      requires Valid() && writes == (writeDraining > 0) && i < |TransQueue(writes)| && Fits(config, Model(), i)
      modifies this, cmdQueue
      ensures Valid() && Model() == Admitted(config, old(Model()), i)
    {
      hide ChannelState.Model, ChannelState.Valid;
      var trans := TransQueue(writes)[i];
      var cmd := Channel.TransToCommand(config, trans.addr, trans.isWrite);
      if !config.unifiedQueue && cmd.kind.IsWrite() {
        if trans.addr in pendingRdQ {
          writeDraining := 0;
          return;
        }
        writeDraining := writeDraining - 1;
      }
      var added := cmdQueue.AddCommand(cmd);
      Erase(writes, i);
    }

    method Erase(writes: bool, i: nat)
      requires i < |TransQueue(writes)|
      modifies `unifiedQueue, `writeBuffer, `readQueue
      ensures Model() == Channel.WithQueue(config, old(Model()), writes, old(TransQueue(writes))[..i] + old(TransQueue(writes))[i + 1..])
    {
      var queue := TransQueue(writes);
      queue := queue[..i] + queue[i + 1..];
      if config.unifiedQueue {
        unifiedQueue := queue;
      } else if writes {
        writeBuffer := queue;
      } else {
        readQueue := queue;
      }
    }

    // ----- one cycle

    method TickRefresh()
      requires Valid()
      modifies `trace, refresh, channelState`refreshQ
      ensures Valid() && Model() == Channel.RefreshTick(config, old(Model()))
    {
      if Channel.RefreshDue(config, refresh.clk) {
        trace := trace.(requested := trace.requested + [Channel.NextRefresh(config, refresh.Model())]);
      }
      refresh.ClockTick();
    }

    /** A waiting refresh comes before the queues. */
    method ChooseFirst() returns (cmd: Readiness)
      requires Valid()
      modifies cmdQueue
      ensures cmd == Channel.ChooseFirst(config, old(Model())).answer
      ensures !cmd.Abort? ==> Model() == old(Model()).(cq := Channel.ChooseFirst(config, old(Model())).cq)
    {
      cmd := NotYet;
      if channelState.refreshQ != [] {
        cmd := cmdQueue.FinishRefresh();
      }
      if cmd.NotYet? {
        cmd := cmdQueue.GetCommandToIssue();
      }
    }

    /** The result is false where the program exits or aborts. */
    method IssueCommands() returns (ok: bool)
      requires Valid()
      modifies this, channelState, channelState.bankStates.Values, cmdQueue
      ensures match Channel.IssueAll(config, old(Model()))
              case None => !ok
              case Some(s) => ok && Valid() && Model() == s
    {
      var cmd := ChooseFirst();
      if cmd.Abort? {
        return false;
      }
      ok := true;
      if cmd.Ready? {
        ok := IssueCommand(cmd.cmd);
        if ok && config.dualCommand {
          ok := IssueSecond(cmd.cmd);
        }
      }
    }

    method IssueSecond(first: Command) returns (ok: bool)
      requires Valid()
      modifies this, channelState, channelState.bankStates.Values, cmdQueue
      ensures match Channel.IssueSecond(config, old(Model()), first)
              case None => !ok
              case Some(s) => ok && Valid() && Model() == s
    {
      var second := cmdQueue.GetCommandToIssue();
      if second.Abort? {
        return false;
      }
      ok := true;
      if second.Ready? && second.cmd.kind.IsReadWrite() != first.kind.IsReadWrite() {
        ok := IssueCommand(second.cmd);
      }
    }

    /** The result is false where the program exits or aborts. */
    method ClockTick() returns (ok: bool)
      requires Valid()
      modifies this, channelState, channelState.bankStates.Values, cmdQueue, refresh
      ensures match Channel.Tick(config, old(Model()))
              case None => !ok
              case Some(s) => ok && Valid() && Model() == s
    {
      TickRefresh();
      ok := IssueCommands();
      if ok {
        ScheduleTransaction();
        AdvanceClocks();
      }
    }

    method AdvanceClocks()
      requires Valid()
      modifies `clk, cmdQueue
      ensures Valid() && Model() == Channel.Advance(old(Model()))
    {
      clk := clk + 1;
      cmdQueue.ClockTick();
    }
  }

  lemma TickAdvances(p: Config, s: Channel.Channel)
    ensures Channel.Tick(p, s).Some? ==> Channel.Tick(p, s).value.clk == s.clk + 1
  {
    var issued := Channel.IssueAll(p, Channel.RefreshTick(p, s));
    if issued.Some? {
      ChannelSteps.ScheduleFrame(p, issued.value);
      IssueKeepsClock(p, Channel.RefreshTick(p, s));
    }
  }

  lemma IssueKeepsClock(p: Config, s: Channel.Channel)
    ensures Channel.IssueAll(p, s).Some? ==> Channel.IssueAll(p, s).value.clk == s.clk
  {
    var c := Channel.ChooseFirst(p, s);
    var one := Channel.IssueChoice(p, s, c);
    if one.Some? {
      ChoiceKeepsClock(p, s, c);
      if p.dualCommand && c.answer.Ready? {
        ChoiceKeepsClock(p, one.value, Scheduler.GetCommandToIssue(p, one.value.dev, one.value.cq));
      }
    }
  }

  lemma ChoiceKeepsClock(p: Config, s: Channel.Channel, c: Scheduler.Choice)
    ensures Channel.IssueChoice(p, s, c).Some? ==> Channel.IssueChoice(p, s, c).value.clk == s.clk
  {
  }

  lemma {:induction false} NothingDue(q: seq<Transaction>, now: int)
    requires Channel.Due(q, now) == []
    ensures Channel.NotDue(q, now) == q
  {
    if q != [] {
      NothingDue(q[1..], now);
    }
  }

  predicate Fits(p: Config, s: Channel.Channel, i: nat) {
    var q := Channel.TransQueue(p, s, s.draining > 0);
    i < |q| && Scheduler.WillAcceptCommand(p, s.cq, Channel.TransToCommand(p, q[i].addr, q[i].isWrite).Place())
  }

  lemma ScheduleIs(p: Config, s: Channel.Channel, now: Channel.Channel)
    requires now == s.(draining := Channel.Draining(p, s))
    ensures var q := Channel.TransQueue(p, now, now.draining > 0);
            var i := Channel.FirstAcceptable(p, now.cq, q, 0);
            Channel.Schedule(p, s) == if i == |q| then now else Admitted(p, now, i)
  {
  }

  /** Scheduling once the queue is chosen and `i` is the first transaction in it that fits. */
  function Admitted(p: Config, s: Channel.Channel, i: nat): Channel.Channel
    requires Fits(p, s, i)
  {
    var q := Channel.TransQueue(p, s, s.draining > 0);
    var cmd := Channel.TransToCommand(p, q[i].addr, q[i].isWrite);
    var drained := !p.unifiedQueue && cmd.kind.IsWrite();
    if drained && q[i].addr in s.pendingRd then s.(draining := 0)
    else
      Channel.WithQueue(p, s, s.draining > 0, q[..i] + q[i + 1..])
        .(cq := Scheduler.AddCommand(p, s.cq, cmd), draining := if drained then s.draining - 1 else s.draining)
  }

  lemma {:induction false} DueJoin(a: seq<Transaction>, b: seq<Transaction>, now: int)
    ensures Channel.Due(a + b, now) == Channel.Due(a, now) + Channel.Due(b, now)
  {
    if a == [] {
      assert a + b == b;
    } else {
      DueJoin(a[1..], b, now);
      assert (a + b)[1..] == a[1..] + b;
    }
  }

  lemma {:induction false} NotDueJoin(a: seq<Transaction>, b: seq<Transaction>, now: int)
    ensures Channel.NotDue(a + b, now) == Channel.NotDue(a, now) + Channel.NotDue(b, now)
  {
    if a == [] {
      assert a + b == b;
    } else {
      NotDueJoin(a[1..], b, now);
      assert (a + b)[1..] == a[1..] + b;
    }
  }
}
