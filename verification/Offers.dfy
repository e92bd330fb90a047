/** What each queued command lets the channel issue, read off the history of the run and the queue. */
module Offers {
  import opened Common
  import opened Configuration
  import opened TimingSpec
  import opened Device
  import opened DeviceRuns
  import opened ReadinessFacts
  import opened Scheduler
  import opened Channel
  import opened ChannelInv
  import opened ChannelSteps
  import opened TimingLaws

  /** Nothing issued so far keeps a command of kind `k` from `l` at `t`. */
  ghost predicate Timely(p: Config, h: seq<Issued>, l: Loc, k: CommandType, t: int) {
    forall i | 0 <= i < |h| :: May(p, h[i], l, k, t)
  }

  /** Activations of the rank are few enough for another. */
  ghost predicate WindowsOpen(p: Config, h: seq<Issued>, rank: int, t: int) {
    Recent(Activations(h, rank), p.tFAW, t) < 4 && (p.IsGDDR() ==> Recent(Activations(h, rank), p.t32AW, t) < 32)
  }

  /** An earlier entry reads the same row and column of a bank of the same number and bankgroup. */
  ghost predicate ReadAhead(queue: seq<Command>, i: nat)
    requires i < |queue|
  {
    exists k | 0 <= k < i ::
      queue[k].kind.IsRead() && queue[k].addr.bankgroup == queue[i].addr.bankgroup && queue[k].addr.bank == queue[i].addr.bank &&
      queue[k].addr.row == queue[i].addr.row && queue[k].addr.column == queue[i].addr.column
  }

  /** The entry is the first of its bank, and the row is not wanted any more or was used four times. */
  ghost predicate MayClose(h: seq<Issued>, queue: seq<Command>, i: nat, since: nat)
    requires i < |queue| && since < |h|
  {
    (forall k | 0 <= k < i :: queue[k].Place() != queue[i].Place()) &&
    ((forall k | 0 <= k < |queue| && queue[k].Place() == queue[i].Place() :: queue[k].addr.row != h[since].cmd.addr.row) ||
     Accesses(h, queue[i].Place(), since) >= 4)
  }

  /** An entry of a command queue in some state of a run. */
  ghost predicate Stands(p: Config, s: Channel, q: int, i: int) {
    Usable(p) && Inv(p, s) && 0 <= q < |s.cq.queues| && 0 <= i < |s.cq.queues[q]|
  }

  lemma StandsWell(p: Config, s: Channel, q: int, i: int)
    requires Stands(p, s, q, i)
    ensures var cmd, h := s.cq.queues[q][i], s.trace.hist;
            Legal(p, h) && s.dev == After(p, h) && LastTime(h) <= s.clk == s.cq.clk && 0 <= s.clk && Awake(p, s.dev) &&
            cmd.kind.IsReadWrite() && p.HasLoc(cmd.Place()) && cmd.Place() in s.dev.banks
  {
    var queue := s.cq.queues[q];
    assert QueueOk(p, queue, q) && queue[i] in queue;
  }

  lemma TimelyExactly(p: Config, h: seq<Issued>, l: Loc, k: CommandType, t: int)
    requires Timed(p) && Legal(p, h) && p.HasLoc(l) && 0 <= t
    ensures l in After(p, h).banks && (After(p, h).banks[l].At(k) <= t <==> Timely(p, h, l, k, t))
  {
    EarliestByTheParameters(p, h, l, k, t);
  }

  lemma ReadAheadIs(queue: seq<Command>, i: nat)
    requires i < |queue|
    ensures HasReadBefore(queue, i) <==> ReadAhead(queue, i)
  {
    assert forall k | 0 <= k < i && queue[k].kind.IsRead() && SameCell(queue[k].addr, queue[i].addr) :: ReadAhead(queue, i);
    assert forall k | 0 <= k < i && queue[k].kind.IsRead() && queue[k].addr.bankgroup == queue[i].addr.bankgroup &&
                      queue[k].addr.bank == queue[i].addr.bank && queue[k].addr.row == queue[i].addr.row &&
                      queue[k].addr.column == queue[i].addr.column :: SameCell(queue[k].addr, queue[i].addr);
  }

  /** On its row a queued access goes when its time has come; a write not before a read of its place. */
  lemma OpenRowOffers(p: Config, s: Channel, q: int, i: int, since: int)
    requires Timed(p) && Stands(p, s, q, i) && OpenSince(s.trace.hist, s.cq.queues[q][i].Place(), since)
    requires s.trace.hist[since].cmd.addr.row == s.cq.queues[q][i].addr.row
    ensures var queue, cmd := s.cq.queues[q], s.cq.queues[q][i];
            Offer(p, s.dev, queue, i, s.clk) ==
            if Timely(p, s.trace.hist, cmd.Place(), cmd.kind, s.clk) && !(cmd.kind.IsWrite() && ReadAhead(queue, i)) then Ready(cmd) else NotYet
  {
    hide Inv, Legal, After, Timely, ReadAhead, HasReadBefore;
    StandsWell(p, s, q, i);
    var queue, cmd, h := s.cq.queues[q], s.cq.queues[q][i], s.trace.hist;
    OpenExactlySinceActivate(p, h, cmd.Place());
    TimelyExactly(p, h, cmd.Place(), cmd.kind, s.clk);
    ReadAheadIs(queue, i);
  }

  /** On another row it asks for a precharge, when its time has come and the arbitration lets it. */
  lemma OtherRowOffers(p: Config, s: Channel, q: int, i: int, since: int)
    requires Timed(p) && Stands(p, s, q, i) && OpenSince(s.trace.hist, s.cq.queues[q][i].Place(), since)
    requires s.trace.hist[since].cmd.addr.row != s.cq.queues[q][i].addr.row
    ensures var queue, cmd := s.cq.queues[q], s.cq.queues[q][i];
            Offer(p, s.dev, queue, i, s.clk) ==
            if Timely(p, s.trace.hist, cmd.Place(), Precharge, s.clk) && MayClose(s.trace.hist, queue, i, since)
            then Ready(Command(Precharge, cmd.addr, cmd.hexAddr)) else NotYet
  {
    hide Inv, Legal, After, Timely, MayClose, ArbitratePrecharge;
    StandsWell(p, s, q, i);
    var queue, cmd, h := s.cq.queues[q], s.cq.queues[q][i], s.trace.hist;
    OpenExactlySinceActivate(p, h, cmd.Place());
    HitsAreAccesses(p, h, cmd.Place(), since);
    TimelyExactly(p, h, cmd.Place(), Precharge, s.clk);
    MayCloseIs(h, queue, i, since, s.dev.banks[cmd.Place()]);
  }

  lemma {:induction false} MayCloseIs(h: seq<Issued>, queue: seq<Command>, i: nat, since: nat, b: Bank)
    requires i < |queue| && since < |h| && b.openRow == h[since].cmd.addr.row && b.rowHits == Accesses(h, queue[i].Place(), since)
    ensures ArbitratePrecharge(b, queue, i) <==> MayClose(h, queue, i, since)
  {
    assert OldestOfBank(queue, i) && RowHitPending(queue, i, b.openRow) ==>
             exists k :: 0 <= k < |queue| && queue[k].Place() == queue[i].Place() && queue[k].addr.row == b.openRow;
  }

  /** With its bank closed it asks for an activation, when its time has come and the rank's windows have room. */
  lemma ClosedBankOffers(p: Config, s: Channel, q: int, i: int)
    requires Timed(p) && Stands(p, s, q, i) && !exists since :: OpenSince(s.trace.hist, s.cq.queues[q][i].Place(), since)
    ensures var queue, cmd := s.cq.queues[q], s.cq.queues[q][i];
            Offer(p, s.dev, queue, i, s.clk) ==
            if Timely(p, s.trace.hist, cmd.Place(), Activate, s.clk) && WindowsOpen(p, s.trace.hist, cmd.addr.rank, s.clk)
            then Ready(Command(Activate, cmd.addr, cmd.hexAddr)) else NotYet
  {
    hide Inv, Legal, After, Timely;
    StandsWell(p, s, q, i);
    var cmd, h := s.cq.queues[q][i], s.trace.hist;
    OpenExactlySinceActivate(p, h, cmd.Place());
    TimelyExactly(p, h, cmd.Place(), Activate, s.clk);
    ActivationTestExact(p, h, cmd.addr.rank, s.clk);
  }

  /** A queue yields what the first of its entries that offers anything does. */
  lemma FirstOfferTaken(p: Config, s: Channel, q: int, i: int)
    requires Stands(p, s, q, i) && !Offer(p, s.dev, s.cq.queues[q], i, s.clk).NotYet?
    requires forall k | 0 <= k < i :: Offer(p, s.dev, s.cq.queues[q], k, s.clk).NotYet?
    ensures FirstReady(p, s.dev, s.cq.queues[q], 0, s.clk) == Offer(p, s.dev, s.cq.queues[q], i, s.clk)
  {
    hide Offer, Inv;
    var k := FirstReadyIs(p, s.dev, s.cq.queues[q], 0, s.clk);
  }
}
