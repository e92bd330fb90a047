/** The per-bank or per-rank command queues and their scheduling (src/command_queue.cc). */
module Scheduler {
  import opened Common
  import opened Configuration
  import opened Device

  function QueueCount(p: Config): nat {
    if p.queueStructure.PerBank? then p.Banks() * p.ranks else p.ranks
  }

  function QueueIndex(p: Config, l: Loc): int {
    if p.queueStructure.PerRank? then l.rank
    else l.rank * p.Banks() + l.bankgroup * p.banksPerGroup + l.bank
  }

  datatype CommandQueue = CommandQueue(queues: seq<seq<Command>>, next: int, inRef: bool, refQueues: set<int>, clk: int)

  function NewCommandQueue(p: Config): CommandQueue {
    CommandQueue(seq(QueueCount(p), _ => []), 0, false, {}, 0)
  }

  /** No queued command before position `i` goes to the bank of `q[i]`. */
  predicate OldestOfBank(q: seq<Command>, i: nat)
    requires i < |q|
  {
    forall k | 0 <= k < i :: q[k].Place() != q[i].Place()
  }

  predicate RowHitPending(q: seq<Command>, i: nat, openRow: int)
    requires i < |q|
  {
    exists k | i <= k < |q| :: q[k].Place() == q[i].Place() && q[k].addr.row == openRow
  }

  /** Whether the command at `i` may close its bank's row. */
  predicate ArbitratePrecharge(b: Bank, q: seq<Command>, i: nat)
    requires i < |q|
  {
    OldestOfBank(q, i) && (!RowHitPending(q, i, b.openRow) || b.rowHits >= 4)
  }

  /** A read of the same location waits ahead of the write at `i`. Ranks are not compared. */
  predicate HasReadBefore(q: seq<Command>, i: nat)
    requires i < |q|
  {
    exists k | 0 <= k < i :: q[k].kind.IsRead() && SameCell(q[k].addr, q[i].addr)
  }

  predicate SameCell(a: Address, b: Address) {
    a.row == b.row && a.column == b.column && a.bank == b.bank && a.bankgroup == b.bankgroup
  }

  /** What the queued command at `i` lets the channel issue now. */
  function Offer(p: Config, d: Device, q: seq<Command>, i: nat, clk: int): Readiness
    requires i < |q|
  {
    match GetReady(p, d, q[i], clk)
    case Abort => Abort
    case NotYet => NotYet
    case Ready(c) =>
      if c.kind.Precharge? && !(q[i].Place() in d.banks && ArbitratePrecharge(d.banks[q[i].Place()], q, i)) then NotYet
      else if c.kind.IsWrite() && HasReadBefore(q, i) then NotYet
      else Ready(c)
  }

  /** The first offer in queue order, from position `i` on. */
  function FirstReady(p: Config, d: Device, q: seq<Command>, i: nat, clk: int): Readiness
    requires i <= |q|
    decreases |q| - i
  {
    if i == |q| then NotYet
    else if Offer(p, d, q, i, clk).NotYet? then FirstReady(p, d, q, i + 1, clk)
    else Offer(p, d, q, i, clk)
  }

  predicate Matches(c: Command, cmd: Command) {
    c.hexAddr == cmd.hexAddr && c.kind == cmd.kind
  }

  /** The queue without its first entry for `cmd`; None where the program exits because there is none. */
  function Erased(q: seq<Command>, cmd: Command): Option<seq<Command>> {
    if q == [] then None
    else if Matches(q[0], cmd) then Some(q[1..])
    else
      match Erased(q[1..], cmd)
      case None => None
      case Some(rest) => Some([q[0]] + rest)
  }

  /** A readiness answer together with the queues it leaves behind. */
  datatype Choice = Choice(answer: Readiness, cq: CommandQueue)

  function NextIndex(p: Config, i: int): int {
    if i + 1 == QueueCount(p) then 0 else i + 1
  }

  predicate Blocked(cq: CommandQueue) {
    cq.inRef && cq.next in cq.refQueues
  }

  /** Round robin from the queue after `next`, visiting at most `left` queues. */
  function Visit(p: Config, d: Device, cq: CommandQueue, left: nat): Choice
    decreases left
  {
    if left == 0 then Choice(NotYet, cq)
    else
      var at := cq.(next := NextIndex(p, cq.next));
      if Blocked(at) then Visit(p, d, at, left - 1)
      else if !(0 <= at.next < |at.queues|) then Choice(Abort, at)
      else
        match FirstReady(p, d, at.queues[at.next], 0, at.clk)
        case Abort => Choice(Abort, at)
        case NotYet => Visit(p, d, at, left - 1)
        case Ready(c) => Taken(p, at, c)
  }

  /** A column access leaves its queue when chosen; other commands leave their request queued. */
  function Taken(p: Config, cq: CommandQueue, c: Command): Choice {
    if !c.kind.IsReadWrite() then Choice(Ready(c), cq)
    else
      var i := QueueIndex(p, c.Place());
      if !(0 <= i < |cq.queues|) then Choice(Abort, cq)
      else
        match Erased(cq.queues[i], c)
        case None => Choice(Abort, cq)
        case Some(rest) => Choice(Ready(c), cq.(queues := cq.queues[i := rest]))
  }

  function GetCommandToIssue(p: Config, d: Device, cq: CommandQueue): Choice {
    Visit(p, d, cq, QueueCount(p))
  }

  /** The queues a refresh request stops. */
  function RefreshQueues(p: Config, ref: Command): set<int> {
    if ref.kind.Refresh? then
      if p.queueStructure.PerBank? then set i | 0 <= i < QueueCount(p) && p.Banks() != 0 && i / p.Banks() == ref.addr.rank
      else {ref.addr.rank}
    else {QueueIndex(p, ref.Place())}
  }

  function FinishRefresh(p: Config, d: Device, cq: CommandQueue, ref: Command): Choice {
    var stopped := if cq.inRef then cq else cq.(inRef := true, refQueues := cq.refQueues + RefreshQueues(p, ref));
    match GetReady(p, d, ref, cq.clk)
    case Abort => Choice(Abort, stopped)
    case NotYet => Choice(NotYet, stopped)
    case Ready(c) =>
      Choice(Ready(c), if c.kind.IsRefresh() then stopped.(inRef := false, refQueues := {}) else stopped)
  }

  predicate WillAcceptCommand(p: Config, cq: CommandQueue, l: Loc) {
    0 <= QueueIndex(p, l) < |cq.queues| && |cq.queues[QueueIndex(p, l)]| < p.cmdQueueSize
  }

  function AddCommand(p: Config, cq: CommandQueue, cmd: Command): CommandQueue
    requires WillAcceptCommand(p, cq, cmd.Place())
  {
    var i := QueueIndex(p, cmd.Place());
    cq.(queues := cq.queues[i := cq.queues[i] + [cmd]])
  }

  predicate QueueEmpty(cq: CommandQueue) {
    forall q | q in cq.queues :: q == []
  }
}
