/** What the queues guarantee about the command they yield. */
module Arbitration {
  import opened Common
  import opened Configuration
  import opened Device
  import opened DeviceRuns
  import opened ReadinessFacts
  import opened Scheduler
  import opened Channel
  import opened ChannelInv
  import opened Lines
  import opened ChannelSteps

  /** A write chosen for issue has no read of its address waiting for its turn any more. */
  lemma WriteFindsNoReader(p: Config, s: Channel, v: Live, q: int, i: int)
    requires Usable(p) && RestOk(p, s) && PendingOk(p, s, v) && PickedAt(p, s.dev, s.cq, s.cq.clk, q, i) && s.cq.queues[q][i].kind.IsWrite()
    ensures s.cq.queues[q][i].hexAddr !in v.rd
  {
    var queue := s.cq.queues[q];
    assert QueueOk(p, queue, q) && queue[i] in queue;
    if p.unifiedQueue && queue[i].hexAddr in v.rd {
      var j := StandsInLine(p, s.cq.queues, s.unified, v.rd, false, queue[i].hexAddr, q);
      ReaderIsAhead(s.pendingRd, queue, Waiting(p, s.unified), i, j);
      OfferedWrite(p, s.dev, queue, i, s.cq.clk);
    }
  }

  /** A pending address stands somewhere in its line. */
  lemma StandsInLine(p: Config, queues: seq<seq<Command>>, ts: seq<Transaction>, pending: set<int>, isWrite: bool, a: nat, q: int)
    returns (j: nat)
    requires Indexed(p, queues, ts, pending, isWrite) && a in pending && q == Home(p, a) && 0 <= q < |queues|
    ensures j < |Line(p, queues, ts, q)| && Line(p, queues, ts, q)[j] == TransToCommand(p, a, isWrite)
  {
    var line, c := Line(p, queues, ts, q), TransToCommand(p, a, isWrite);
    assert multiset(line)[c] == 1 && c in multiset(line) && c in line;
    j :| 0 <= j < |line| && line[j] == c;
  }

  lemma ReaderIsAhead(rd: map<int, seq<Transaction>>, queue: seq<Command>, rest: seq<Command>, i: nat, j: nat)
    requires InOrder(rd, queue + rest) && i < |queue| && j < |queue + rest|
    requires var read := (queue + rest)[j];
             queue[i].kind.IsWrite() && read.kind.IsRead() && read.hexAddr == queue[i].hexAddr && SameCell(read.addr, queue[i].addr)
    ensures HasReadBefore(queue, i)
  {
    var line := queue + rest;
    assert line[i] == queue[i];
    assert OutOfOrder(rd, line[i], line[j]);
    if j < i {
      assert queue[j] == line[j];
    }
  }

  lemma OfferedWrite(p: Config, d: Device, queue: seq<Command>, i: nat, clk: int)
    requires i < |queue| && Offer(p, d, queue, i, clk) == Ready(queue[i]) && queue[i].kind.IsWrite()
    ensures !HasReadBefore(queue, i)
  {
  }

  function Row(p: Config, a: nat): int {
    p.AddressMapping(a).row
  }

  predicate SameRow(p: Config, a: nat, b: nat) {
    Target(p, a) == Target(p, b) && Row(p, a) == Row(p, b)
  }

  /** A read chosen for issue is the earliest of the queued reads for its bank and row. */
  lemma EarliestOfRowIssues(p: Config, s: Channel, v: Live, q: int, i: int, b: nat)
    requires Usable(p) && RestOk(p, s) && PendingOk(p, s, v) && PickedAt(p, s.dev, s.cq, s.cq.clk, q, i) && s.cq.queues[q][i].kind.IsRead()
    requires var a := s.cq.queues[q][i].hexAddr; b in v.rd && b != a && a >= 0 && Target(p, b) == Target(p, a) && Row(p, b) == Row(p, a)
    ensures s.cq.queues[q][i].hexAddr in v.rd && v.rd <= s.pendingRd.Keys
    ensures HeadId(s.pendingRd[s.cq.queues[q][i].hexAddr]) < HeadId(s.pendingRd[b])
  {
    hide Offer, Indexed, MapsOk, InOrder, Usable;
    var queue, ts := s.cq.queues[q], TransQueue(p, s, false);
    assert QueueOk(p, queue, q) && queue[i] in queue;
    var j := StandsInLine(p, s.cq.queues, ts, v.rd, false, b, q);
    QueuedIsPending(p, s.cq.queues, ts, v.rd, false, q, i);
    if j < |queue| {
      PickedIsFirst(p, s.dev, s.cq, q, i, j);
    }
    GroupsNotEmpty(s.trace.log, s.pendingRd, s.pendingWr, queue[i].hexAddr, b);
    EarlierHead(s.pendingRd, queue, Waiting(p, ts), i, j);
  }

  lemma GroupsNotEmpty(log: seq<Request>, rd: map<int, seq<Transaction>>, wr: map<int, seq<Transaction>>, a: int, b: int)
    requires MapsOk(log, rd, wr) && a in rd && b in rd
    ensures rd[a] != [] && rd[b] != []
  {
  }

  /** Of two reads of one bank and row in a queue, the one in front is picked. */
  lemma PickedIsFirst(p: Config, d: Device, cq: CommandQueue, q: int, i: int, j: int)
    requires PickedAt(p, d, cq, cq.clk, q, i) && 0 <= j < |cq.queues[q]|
    requires cq.queues[q][i].kind.IsRead() && cq.queues[q][j].kind == cq.queues[q][i].kind
    requires cq.queues[q][j].Place() == cq.queues[q][i].Place() && cq.queues[q][j].addr.row == cq.queues[q][i].addr.row
    ensures i <= j
  {
    SameRowOffers(p, d, cq.queues[q], j, i, cq.clk);
  }

  lemma QueuedIsPending(p: Config, queues: seq<seq<Command>>, ts: seq<Transaction>, pending: set<int>, isWrite: bool, q: nat, i: nat)
    requires QueuesOk(p, queues) && Indexed(p, queues, ts, pending, isWrite) && q < |queues| && i < |queues[q]|
    requires if isWrite then queues[q][i].kind.IsWrite() else queues[q][i].kind.IsRead()
    ensures queues[q][i].hexAddr in pending
  {
    var cmd, line := queues[q][i], Line(p, queues, ts, q);
    assert QueueOk(p, queues[q], q) && cmd in queues[q];
    assert line[i] == cmd && cmd in multiset(line);
  }

  lemma EarlierHead(rd: map<int, seq<Transaction>>, queue: seq<Command>, rest: seq<Command>, i: nat, j: nat)
    requires InOrder(rd, queue + rest) && i < |queue| && i < j < |queue + rest|
    requires queue[i].kind.IsRead() && (queue + rest)[j].kind.IsRead() && queue[i].Place() == (queue + rest)[j].Place()
    requires queue[i].hexAddr in rd && rd[queue[i].hexAddr] != [] && (queue + rest)[j].hexAddr in rd && rd[(queue + rest)[j].hexAddr] != []
    ensures HeadId(rd[queue[i].hexAddr]) < HeadId(rd[(queue + rest)[j].hexAddr])
  {
    var line := queue + rest;
    assert line[i] == queue[i] && !OutOfOrder(rd, line[i], line[j]);
  }

  /** Two reads of one bank and row are ready together. */
  lemma SameRowOffers(p: Config, d: Device, queue: seq<Command>, j: nat, i: nat, clk: int)
    requires j < |queue| && i < |queue| && queue[j].kind == queue[i].kind && queue[i].kind.IsRead()
    requires queue[j].Place() == queue[i].Place() && queue[j].addr.row == queue[i].addr.row
    requires Offer(p, d, queue, i, clk) == Ready(queue[i])
    ensures Offer(p, d, queue, j, clk).Ready?
  {
  }

  // ----- closing rows

  /** Entry `i` of queue `q` made the scheduler close its bank's row. */
  ghost predicate ClosedFor(p: Config, s: Channel, c: Command, q: int, i: int) {
    0 <= q < |s.cq.queues| && 0 <= i < |s.cq.queues[q]| && s.cq.queues[q][i].Place() == c.Place() &&
    (forall r, j | 0 <= r < |s.cq.queues| && 0 <= j < |s.cq.queues[r]| && s.cq.queues[r][j].Place() == c.Place() ::
      r == q && j >= i)
  }

  /** What a precharge answers: entry `i` of queue `q`, which wants another row and wins the arbitration. */
  ghost predicate ClosingEntry(p: Config, d: Device, queues: seq<seq<Command>>, c: Command, q: int, i: int) {
    0 <= q < |queues| && 0 <= i < |queues[q]| && queues[q][i].Place() == c.Place() && c.Place() in d.banks &&
    d.banks[c.Place()].mode == Open && ArbitratePrecharge(d.banks[c.Place()], queues[q], i) && queues[q][i].addr.row != d.banks[c.Place()].openRow
  }

  lemma QueueCloses(p: Config, d: Device, cq: CommandQueue, q: int) returns (i: int)
    requires Usable(p) && Awake(p, d) && QueuesOk(p, cq.queues) && 0 <= q < |cq.queues|
    requires FirstReady(p, d, cq.queues[q], 0, cq.clk).Ready? && FirstReady(p, d, cq.queues[q], 0, cq.clk).cmd.kind.Precharge?
    ensures ClosingEntry(p, d, cq.queues, FirstReady(p, d, cq.queues[q], 0, cq.clk).cmd, q, i)
  {
    i := FirstReadyIs(p, d, cq.queues[q], 0, cq.clk);
    assert QueueOk(p, cq.queues[q], q) && cq.queues[q][i] in cq.queues[q];
    assert cq.queues[q][i].Place() == Target(p, cq.queues[q][i].hexAddr);
    ReadWriteReady(p, d, cq.queues[q][i], cq.clk);
  }

  lemma {:induction false} VisitCloses(p: Config, d: Device, cq: CommandQueue, left: nat) returns (q: int, i: int)
    requires Usable(p) && Awake(p, d) && QueuesOk(p, cq.queues) && 0 <= cq.next < QueueCount(p)
    requires Visit(p, d, cq, left).answer.Ready? && Visit(p, d, cq, left).answer.cmd.kind.Precharge?
    ensures ClosingEntry(p, d, cq.queues, Visit(p, d, cq, left).answer.cmd, q, i)
    decreases left
  {
    var at := cq.(next := NextIndex(p, cq.next));
    if Blocked(at) || FirstReady(p, d, at.queues[at.next], 0, at.clk).NotYet? {
      q, i := VisitCloses(p, d, at, left - 1);
    } else {
      q := at.next;
      i := QueueCloses(p, d, at, q);
    }
  }

  /** All queued commands of a bank stand in one queue. */
  lemma OneQueuePerBank(p: Config, queues: seq<seq<Command>>, q: nat, i: nat, r: nat, j: nat)
    requires QueuesOk(p, queues) && q < |queues| && i < |queues[q]| && r < |queues| && j < |queues[r]|
    requires queues[q][i].Place() == queues[r][j].Place()
    ensures q == r
  {
    assert QueueOk(p, queues[q], q) && queues[q][i] in queues[q];
    assert QueueOk(p, queues[r], r) && queues[r][j] in queues[r];
    assert queues[q][i].Place() == Target(p, queues[q][i].hexAddr) && queues[r][j].Place() == Target(p, queues[r][j].hexAddr);
  }

  /**
    A precharge made for the queues serves the oldest queued command of its bank, and closes the row only
    when no queued command of the bank goes to it, or after four plain reads and writes since it was opened.
   */
  lemma PrechargeDiscipline(p: Config, s: Channel) returns (q: int, i: int, since: int)
    requires Usable(p) && Inv(p, s)
    requires var r := GetCommandToIssue(p, s.dev, s.cq).answer; r.Ready? && r.cmd.kind.Precharge?
    ensures var c, h := GetCommandToIssue(p, s.dev, s.cq).answer.cmd, s.trace.hist;
            ClosedFor(p, s, c, q, i) && OpenSince(h, c.Place(), since) && s.cq.queues[q][i].addr.row != h[since].cmd.addr.row &&
            (Accesses(h, c.Place(), since) >= 4 ||
             forall r, j | 0 <= r < |s.cq.queues| && 0 <= j < |s.cq.queues[r]| && s.cq.queues[r][j].Place() == c.Place() ::
               s.cq.queues[r][j].addr.row != h[since].cmd.addr.row)
  {
    hide Inv, GetCommandToIssue, ArbitratePrecharge;
    StateIs(p, s);
    q, i := ChoiceCloses(p, s);
    var c, h := GetCommandToIssue(p, s.dev, s.cq).answer.cmd, s.trace.hist;
    AfterShaped(p, h);
    OpenExactlySinceActivate(p, h, c.Place());
    since :| OpenSince(h, c.Place(), since);
    HitsAreAccesses(p, h, c.Place(), since);
    forall r, j | 0 <= r < |s.cq.queues| && 0 <= j < |s.cq.queues[r]| && s.cq.queues[r][j].Place() == s.cq.queues[q][i].Place()
      ensures r == q && j >= i && (s.dev.banks[c.Place()].rowHits < 4 ==> s.cq.queues[r][j].addr.row != h[since].cmd.addr.row)
    {
      OneQueuePerBank(p, s.cq.queues, q, i, r, j);
      NoHitPending(s.dev.banks[c.Place()], s.cq.queues[q], i, j);
    }
  }

  lemma StateIs(p: Config, s: Channel)
    requires Inv(p, s)
    ensures Legal(p, s.trace.hist) && s.dev == After(p, s.trace.hist) && Awake(p, s.dev) && QueuesOk(p, s.cq.queues) && 0 <= s.cq.next < QueueCount(p)
  {
  }

  lemma ChoiceCloses(p: Config, s: Channel) returns (q: int, i: int)
    requires Usable(p) && Inv(p, s)
    requires var r := GetCommandToIssue(p, s.dev, s.cq).answer; r.Ready? && r.cmd.kind.Precharge?
    ensures ClosingEntry(p, s.dev, s.cq.queues, GetCommandToIssue(p, s.dev, s.cq).answer.cmd, q, i)
  {
    hide Inv;
    StateIs(p, s);
    q, i := VisitCloses(p, s.dev, s.cq, QueueCount(p));
  }

  /** The entry that wins the arbitration is the oldest of its bank, and unless four accesses were made, no entry is a hit. */
  lemma NoHitPending(b: Bank, queue: seq<Command>, i: nat, j: nat)
    requires i < |queue| && j < |queue| && ArbitratePrecharge(b, queue, i) && queue[j].Place() == queue[i].Place()
    ensures j >= i && (b.rowHits < 4 ==> queue[j].addr.row != b.openRow)
  {
  }
}
