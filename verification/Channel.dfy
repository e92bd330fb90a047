/**
  One memory channel as a clocked state machine: transaction queues, pending maps, scheduling, issue
  and completion (src/controller.cc, src/refresh.cc, src/dram_system.cc). `None` stands for the runs
  on which the program exits or aborts.
 */
module Channel {
  import opened Common
  import opened Configuration
  import opened Device
  import opened DeviceRuns
  import opened Scheduler

  // ----- what the model records beside the program's own state

  datatype Request = Request(addr: nat, isWrite: bool, at: int)

  /**
    Where a read got its data: from the pending write `src`, or from DRAM by the command at `step` of the
    history, which was queued for read `head`.
   */
  datatype Served = Forwarded(src: Option<nat>) | FromDram(src: Option<nat>, step: nat, head: nat)

  datatype Done = Done(id: nat, at: int)

  /**
    `log`: accepted requests; `hist`: issued commands; `cells`: the write each DRAM address holds;
    `newest`: the write a pending address would store; `served`: how each finished read was served;
    `done`: calls back to the processor; `requested`: refreshes asked for. No decision reads it.
   */
  datatype Trace = Trace(
    log: seq<Request>, hist: seq<Issued>, cells: map<int, nat>, newest: map<int, nat>,
    served: map<nat, Served>, done: seq<Done>, requested: seq<Command>)

  datatype RefreshTimer = RefreshTimer(clk: nat, rank: nat, bankgroup: nat, bank: nat)

  datatype Channel = Channel(
    clk: int, dev: Device, refreshQ: seq<Command>, cq: CommandQueue, timer: RefreshTimer,
    unified: seq<Transaction>, readQ: seq<Transaction>, writeBuf: seq<Transaction>,
    pendingRd: map<int, seq<Transaction>>, pendingWr: map<int, seq<Transaction>>,
    returnQ: seq<Transaction>, draining: int, trace: Trace)

  function NewChannel(p: Config): Channel {
    Channel(0, NewDevice(p), [], NewCommandQueue(p), RefreshTimer(0, 0, 0, 0), [], [], [], map[], map[], [], 0,
            Trace([], [], map[], map[], map[], [], []))
  }

  // ----- refresh requests

  function RefreshInterval(p: Config): nat {
    match p.refreshPolicy
    case RankSimultaneous => p.tREFI
    case BankStaggered => p.tREFIb
    case RankStaggered => if p.ranks == 0 then 0 else p.tREFI / p.ranks
  }

  function RefreshRank(rank: int): Command {
    Command(Refresh, Address(-1, rank, -1, -1, -1, -1), -1)
  }

  function RefreshOneBank(l: Loc): Command {
    Command(RefreshBank, Address(-1, l.rank, l.bankgroup, l.bank, -1, -1), -1)
  }

  /** The request raised next; the simultaneous policy stops after the first rank. */
  function NextRefresh(p: Config, t: RefreshTimer): Command {
    match p.refreshPolicy
    case RankSimultaneous => RefreshRank(0)
    case RankStaggered => RefreshRank(t.rank)
    case BankStaggered => RefreshOneBank(Loc(t.rank, t.bankgroup, t.bank))
  }

  function Wrap(i: nat, n: nat): nat {
    if n == 0 then 0 else (i + 1) % n
  }

  function IterateNext(p: Config, t: RefreshTimer): RefreshTimer {
    match p.refreshPolicy
    case RankSimultaneous => t
    case RankStaggered => t.(rank := Wrap(t.rank, p.ranks))
    case BankStaggered =>
      var g := Wrap(t.bankgroup, p.bankgroups);
      if g != 0 then t.(bankgroup := g)
      else
        var b := Wrap(t.bank, p.banksPerGroup);
        if b != 0 then t.(bankgroup := 0, bank := b)
        else RefreshTimer(t.clk, Wrap(t.rank, p.ranks), 0, 0)
  }

  predicate RefreshDue(p: Config, clk: nat) {
    RefreshInterval(p) != 0 && clk % RefreshInterval(p) == 0 && clk > 0
  }

  function RefreshTick(p: Config, s: Channel): Channel {
    var t := s.timer;
    if RefreshDue(p, t.clk) then
      s.(refreshQ := s.refreshQ + [NextRefresh(p, t)],
         timer := IterateNext(p, t).(clk := t.clk + 1),
         trace := s.trace.(requested := s.trace.requested + [NextRefresh(p, t)]))
    else s.(timer := t.(clk := t.clk + 1))
  }

  /** The requests left after one for the target of `cmd` is served: the first that matches goes. */
  function RefreshServed(q: seq<Command>, cmd: Command): seq<Command> {
    if q == [] then []
    else if SameTarget(q[0], cmd) then q[1..]
    else [q[0]] + RefreshServed(q[1..], cmd)
  }

  predicate SameTarget(c: Command, cmd: Command) {
    if cmd.kind.Refresh? then c.addr.rank == cmd.addr.rank else c.Place() == cmd.Place()
  }

  // ----- accepting transactions

  predicate WillAccept(p: Config, s: Channel, isWrite: bool) {
    |TransQueue(p, s, isWrite)| < p.transQueueSize
  }

  /** The queue a transaction waits in. */
  function TransQueue(p: Config, s: Channel, isWrite: bool): seq<Transaction> {
    if p.unifiedQueue then s.unified else if isWrite then s.writeBuf else s.readQ
  }

  function WithQueue(p: Config, s: Channel, isWrite: bool, q: seq<Transaction>): Channel {
    if p.unifiedQueue then s.(unified := q) else if isWrite then s.(writeBuf := q) else s.(readQ := q)
  }

  function Accept(p: Config, s: Channel, addr: nat, isWrite: bool): Channel {
    var id := |s.trace.log|;
    var t := Transaction(id, addr, s.clk, 0, isWrite);
    var logged := s.trace.(log := s.trace.log + [Request(addr, isWrite, s.clk)]);
    var done := t.(completeCycle := s.clk + 1);
    if isWrite then
      var queued := if addr in s.pendingWr then s
                    else WithQueue(p, s, true, TransQueue(p, s, true) + [t]).(pendingWr := s.pendingWr[addr := [t]]);
      queued.(returnQ := s.returnQ + [done], trace := logged.(newest := logged.newest[addr := id]))
    else if addr in s.pendingWr then
      s.(returnQ := s.returnQ + [done],
         trace := logged.(served := logged.served[id := Forwarded(Cell(logged.newest, addr))]))
    else if addr in s.pendingRd then
      s.(pendingRd := s.pendingRd[addr := s.pendingRd[addr] + [t]], trace := logged)
    else
      WithQueue(p, s, false, TransQueue(p, s, false) + [t]).(pendingRd := s.pendingRd[addr := [t]], trace := logged)
  }

  // ----- issuing commands

  function Completed(ts: seq<Transaction>, at: int): seq<Transaction> {
    if ts == [] then [] else [ts[0].(completeCycle := at)] + Completed(ts[1..], at)
  }

  function HeadId(ts: seq<Transaction>): nat {
    if ts == [] then 0 else ts[0].id
  }

  function ReadResults(ts: seq<Transaction>, served: Served): map<nat, Served> {
    map t | t in ts :: t.id := served
  }

  function Cell(m: map<int, nat>, addr: int): Option<nat> {
    if addr in m then Some(m[addr]) else None
  }

  /** Queues and records after issuing `cmd`; a read answers every read pending on its address. */
  function Retired(p: Config, s: Channel, cmd: Command): Option<Channel> {
    var a, tr := cmd.hexAddr, s.trace;
    var issued := tr.(hist := tr.hist + [Issued(cmd, s.clk)]);
    if cmd.kind.IsRead() then
      if a !in s.pendingRd then None
      else Some(s.(returnQ := s.returnQ + Completed(s.pendingRd[a], s.clk + p.ReadDelay()),
                   pendingRd := s.pendingRd - {a},
                   trace := issued.(served := tr.served + ReadResults(s.pendingRd[a], FromDram(Cell(tr.cells, a), |tr.hist|, HeadId(s.pendingRd[a]))))))
    else if cmd.kind.IsWrite() then
      if a !in s.pendingWr then None
      else Some(s.(pendingWr := s.pendingWr - {a},
                   trace := issued.(cells := if a in tr.newest then tr.cells[a := tr.newest[a]] else tr.cells,
                                    newest := tr.newest - {a})))
    else Some(s.(trace := issued))
  }

  function IssueCommand(p: Config, s: Channel, cmd: Command): Option<Channel> {
    var retired :- Retired(p, s, cmd);
    var dev :- Issue(p, s.dev, cmd, s.clk);
    Some(retired.(dev := dev, refreshQ := if cmd.kind.IsRefresh() then RefreshServed(s.refreshQ, cmd) else s.refreshQ))
  }

  // ----- moving transactions to the command queues

  function TransToCommand(p: Config, addr: nat, isWrite: bool): Command {
    var kind := if p.closePage then (if isWrite then WritePrecharge else ReadPrecharge)
                else (if isWrite then Write else Read);
    Command(kind, p.AddressMapping(addr), addr)
  }

  /** The first transaction from `i` on whose command queue has room; `|q|` when there is none. */
  function FirstAcceptable(p: Config, cq: CommandQueue, q: seq<Transaction>, i: nat): (k: nat)
    requires i <= |q|
    ensures i <= k <= |q|
    ensures k < |q| ==> WillAcceptCommand(p, cq, TransToCommand(p, q[k].addr, q[k].isWrite).Place())
    decreases |q| - i
  {
    if i == |q| then i
    else if WillAcceptCommand(p, cq, TransToCommand(p, q[i].addr, q[i].isWrite).Place()) then i
    else FirstAcceptable(p, cq, q, i + 1)
  }

  /** Write draining starts when the write buffer is full, or well filled with nothing else to do. */
  function Draining(p: Config, s: Channel): int {
    if s.draining == 0 && !p.unifiedQueue &&
       (|s.writeBuf| >= p.transQueueSize || (|s.writeBuf| > 8 && QueueEmpty(s.cq))) then |s.writeBuf|
    else s.draining
  }

  function Schedule(p: Config, s: Channel): Channel {
    var drain := Draining(p, s);
    var q := TransQueue(p, s, drain > 0);
    var i := FirstAcceptable(p, s.cq, q, 0);
    if i == |q| then s.(draining := drain)
    else
      var cmd := TransToCommand(p, q[i].addr, q[i].isWrite);
      var drained := !p.unifiedQueue && cmd.kind.IsWrite();
      if drained && q[i].addr in s.pendingRd then s.(draining := 0)
      else
        WithQueue(p, s, drain > 0, q[..i] + q[i + 1..])
          .(cq := AddCommand(p, s.cq, cmd), draining := if drained then drain - 1 else drain)
  }

  // ----- one clock cycle

  /** The first command of a cycle, if any: a waiting refresh comes before the queues. */
  function ChooseFirst(p: Config, s: Channel): Choice {
    var refresh := if s.refreshQ != [] then FinishRefresh(p, s.dev, s.cq, s.refreshQ[0]) else Choice(NotYet, s.cq);
    if refresh.answer.NotYet? then GetCommandToIssue(p, s.dev, refresh.cq) else refresh
  }

  function IssueChoice(p: Config, s: Channel, c: Choice): Option<Channel> {
    match c.answer
    case Abort => None
    case NotYet => Some(s.(cq := c.cq))
    case Ready(cmd) => IssueCommand(p, s.(cq := c.cq), cmd)
  }

  /** The second command of a cycle with dual issue. One of the same class as the first is dropped after being chosen. */
  function IssueSecond(p: Config, s: Channel, first: Command): Option<Channel> {
    var c := GetCommandToIssue(p, s.dev, s.cq);
    if c.answer.Ready? && c.answer.cmd.kind.IsReadWrite() == first.kind.IsReadWrite() then Some(s.(cq := c.cq))
    else IssueChoice(p, s, c)
  }

  function IssueAll(p: Config, s: Channel): Option<Channel> {
    var c := ChooseFirst(p, s);
    var one :- IssueChoice(p, s, c);
    if p.dualCommand && c.answer.Ready? then IssueSecond(p, one, c.answer.cmd) else Some(one)
  }

  function Advance(s: Channel): Channel {
    s.(clk := s.clk + 1, cq := s.cq.(clk := s.cq.clk + 1))
  }

  function Tick(p: Config, s: Channel): Option<Channel> {
    var issued :- IssueAll(p, RefreshTick(p, s));
    Some(Advance(Schedule(p, issued)))
  }

  // ----- calls back to the processor

  function Due(q: seq<Transaction>, now: int): seq<Transaction> {
    if q == [] then [] else (if now >= q[0].completeCycle then [q[0]] else []) + Due(q[1..], now)
  }

  function NotDue(q: seq<Transaction>, now: int): seq<Transaction> {
    if q == [] then [] else (if now >= q[0].completeCycle then [] else [q[0]]) + NotDue(q[1..], now)
  }

  function Calls(q: seq<Transaction>, now: int): seq<Done> {
    if q == [] then [] else [Done(q[0].id, now)] + Calls(q[1..], now)
  }

  function DrainDone(s: Channel): Channel {
    s.(returnQ := NotDue(s.returnQ, s.clk),
       trace := s.trace.(done := s.trace.done + Calls(Due(s.returnQ, s.clk), s.clk)))
  }

  // ----- runs

  datatype Event = Arrive(addr: nat, isWrite: bool) | Cycle

  function Step(p: Config, s: Channel, e: Event): Option<Channel> {
    match e
    case Arrive(addr, isWrite) => Some(if WillAccept(p, s, isWrite) then Accept(p, s, addr, isWrite) else s)
    case Cycle => Tick(p, DrainDone(s))
  }

  function Run(p: Config, es: seq<Event>): Option<Channel> {
    if es == [] then Some(NewChannel(p))
    else
      var before :- Run(p, es[..|es| - 1]);
      Step(p, before, es[|es| - 1])
  }
}
