/** The delay tables as the program lays them out (src/timing.h, src/timing.cc). */
module TimingTables {
  import opened Common
  import opened Configuration
  import opened TimingSpec

  /** The commands that one command delays, with their delays. */
  type DelayList = seq<(CommandType, int)>

  predicate Mentions(list: DelayList, to: CommandType) {
    exists i | 0 <= i < |list| :: list[i].0 == to
  }

  /** The list holds exactly the delays that `from` imposes on banks in relation `rel`. */
  ghost predicate Tabulates(list: DelayList, p: Config, rel: Relation, from: CommandType) {
    (forall i | 0 <= i < |list| :: Delay(p, rel, from, list[i].0) == Some(list[i].1)) &&
    forall to :: Delay(p, rel, from, to).Some? ==> Mentions(list, to)
  }

  lemma IndexApart()
    ensures forall j: CommandType, k: CommandType :: j.Index() == k.Index() ==> j == k
  {
  }

  /** Rank commands consult the same-rank table, all others the four other tables. */
  predicate Consulted(rel: Relation, from: CommandType) {
    rel.SameRank? <==> from.IsRankCommand()
  }

  /** The entries for the four kinds of column access. */
  function Columns(read: int, write: int): DelayList {
    [(Read, read), (Write, write), (ReadPrecharge, read), (WritePrecharge, write)]
  }

  function ColumnsAndPrecharge(read: int, write: int, precharge: int): DelayList {
    Columns(read, write) + [(Precharge, precharge)]
  }

  function AfterActivate(activate: int, read: int, write: int, precharge: int): DelayList {
    [(Activate, activate)] + Columns(read, write) + [(Precharge, precharge)]
  }

  function ActivateAndRefreshBank(activate: int, refreshBank: int): DelayList {
    [(Activate, activate), (RefreshBank, refreshBank)]
  }

  function AfterRefresh(delay: int): DelayList {
    [(Activate, delay), (Refresh, delay), (SrefEnter, delay)]
  }

  /** The entries for the commands that need a closed bank. */
  function WhenClosed(activate: int, others: int): DelayList {
    [(Activate, activate), (Refresh, others), (RefreshBank, others), (SrefEnter, others)]
  }

  lemma ColumnsTabulate(p: Config, rel: Relation, from: CommandType, read: int, write: int)
    requires forall to :: Delay(p, rel, from, to) == if to.IsRead() then Some(read) else if to.IsWrite() then Some(write) else None
    ensures Tabulates(Columns(read, write), p, rel, from)
  {
    var l := Columns(read, write);
    assert l[0].0.Read? && l[1].0.Write? && l[2].0.ReadPrecharge? && l[3].0.WritePrecharge?;
  }

  lemma ColumnsAndPrechargeTabulate(p: Config, rel: Relation, from: CommandType, read: int, write: int, precharge: int)
    requires forall to :: Delay(p, rel, from, to) ==
               if to.IsRead() then Some(read) else if to.IsWrite() then Some(write) else if to.Precharge? then Some(precharge) else None
    ensures Tabulates(ColumnsAndPrecharge(read, write, precharge), p, rel, from)
  {
    var l := ColumnsAndPrecharge(read, write, precharge);
    assert l[0].0.Read? && l[1].0.Write? && l[2].0.ReadPrecharge? && l[3].0.WritePrecharge? && l[4].0.Precharge?;
  }

  lemma ActivateTabulate(p: Config, activate: int, read: int, write: int, precharge: int)
    requires forall to :: Delay(p, SameBank, Activate, to) ==
               if to.Activate? then Some(activate) else if to.IsRead() then Some(read) else if to.IsWrite() then Some(write)
               else if to.Precharge? then Some(precharge) else None
    ensures Tabulates(AfterActivate(activate, read, write, precharge), p, SameBank, Activate)
  {
    var l := AfterActivate(activate, read, write, precharge);
    assert l[0].0.Activate? && l[1].0.Read? && l[2].0.Write? && l[3].0.ReadPrecharge? && l[4].0.WritePrecharge? && l[5].0.Precharge?;
  }

  lemma WhenClosedTabulates(p: Config, rel: Relation, from: CommandType, activate: int, others: int)
    requires forall to :: Delay(p, rel, from, to) ==
               if to.Activate? then Some(activate) else if NeedsClosed(to) then Some(others) else None
    ensures Tabulates(WhenClosed(activate, others), p, rel, from)
  {
    var l := WhenClosed(activate, others);
    assert l[0].0.Activate? && l[1].0.Refresh? && l[2].0.RefreshBank? && l[3].0.SrefEnter?;
  }

  lemma PairTabulates(p: Config, rel: Relation, from: CommandType, activate: int, refreshBank: int)
    requires forall to :: Delay(p, rel, from, to) ==
               if to.Activate? then Some(activate) else if to.RefreshBank? then Some(refreshBank) else None
    ensures Tabulates(ActivateAndRefreshBank(activate, refreshBank), p, rel, from)
  {
    var l := ActivateAndRefreshBank(activate, refreshBank);
    assert l[0].0.Activate? && l[1].0.RefreshBank?;
  }

  lemma RefreshTabulates(p: Config)
    ensures Tabulates(AfterRefresh(p.tRFC), p, SameRank, Refresh)
    ensures Tabulates([(SrefExit, p.tCKESR as int)], p, SameRank, SrefEnter)
  {
    var refresh, enter := AfterRefresh(p.tRFC), [(SrefExit, p.tCKESR as int)];
    assert refresh[0].0.Activate? && refresh[1].0.Refresh? && refresh[2].0.SrefEnter? && enter[0].0.SrefExit?;
  }

  /** The list that the parameters prescribe for a command and a relation. */
  function Prescribed(p: Config, rel: Relation, from: CommandType): DelayList {
    match rel
    case SameBank => SameBankList(p, from)
    case OtherBank => InRankList(p, Near(p), if p.bankgroups == 1 then p.tRRD_S else p.tRRD_L, from)
    case OtherGroup => InRankList(p, Far(p), p.tRRD_S, from)
    case OtherRank => ColumnList(Cross(p), from)
    case SameRank => SameRankList(p, from)
  }

  function ColumnList(s: Spacing, from: CommandType): DelayList {
    if from.IsRead() then Columns(s.readToRead, s.readToWrite)
    else if from.IsWrite() then Columns(s.writeToRead, s.writeToWrite)
    else []
  }

  function SameBankList(p: Config, from: CommandType): DelayList {
    match from
    case Read => ColumnsAndPrecharge(Near(p).readToRead, Near(p).readToWrite, ReadToPrecharge(p))
    case Write => ColumnsAndPrecharge(Near(p).writeToRead, Near(p).writeToWrite, WriteToPrecharge(p))
    case ReadPrecharge => WhenClosed(p.AL + p.burstCycle + p.tRTP + p.tRP, ReadToPrecharge(p) + p.tRP)
    case WritePrecharge => WhenClosed(WriteToPrecharge(p) + p.tRP, WriteToPrecharge(p) + p.tRP)
    case Activate => AfterActivate(p.tRC(), ActivateToRead(p), ActivateToWrite(p), p.tRAS)
    case Precharge => WhenClosed(p.tRP, p.tRP)
    case _ => []
  }

  function InRankList(p: Config, s: Spacing, activate: int, from: CommandType): DelayList {
    match from
    case Activate => ActivateAndRefreshBank(activate, p.tRC())
    case Precharge => if NeedsPPD(p) then [(Precharge, p.tPPD)] else []
    case RefreshBank => ActivateAndRefreshBank(p.tRFC, p.tREFI)
    case _ => ColumnList(s, from)
  }

  function SameRankList(p: Config, from: CommandType): DelayList {
    match from
    case RefreshBank => WhenClosed(p.tRFCb, p.tRFCb)
    case Refresh => AfterRefresh(p.tRFC)
    case SrefEnter => [(SrefExit, p.tCKESR as int)]
    case SrefExit => WhenClosed(p.tXS, p.tXS)
    case _ => []
  }

  lemma SameBankRight(p: Config, from: CommandType)
    requires !from.IsRankCommand()
    ensures Tabulates(SameBankList(p, from), p, SameBank, from)
  {
    var near := Near(p);
    match from
    case Read => ColumnsAndPrechargeTabulate(p, SameBank, from, near.readToRead, near.readToWrite, ReadToPrecharge(p));
    case Write => ColumnsAndPrechargeTabulate(p, SameBank, from, near.writeToRead, near.writeToWrite, WriteToPrecharge(p));
    case ReadPrecharge => WhenClosedTabulates(p, SameBank, from, p.AL + p.burstCycle + p.tRTP + p.tRP, ReadToPrecharge(p) + p.tRP);
    case WritePrecharge => WhenClosedTabulates(p, SameBank, from, WriteToPrecharge(p) + p.tRP, WriteToPrecharge(p) + p.tRP);
    case Activate => ActivateTabulate(p, p.tRC(), ActivateToRead(p), ActivateToWrite(p), p.tRAS);
    case Precharge => WhenClosedTabulates(p, SameBank, from, p.tRP, p.tRP);
    case _ =>
  }

  lemma InRankRight(p: Config, rel: Relation, s: Spacing, activate: int, from: CommandType)
    requires !from.IsRankCommand()
    requires (rel == OtherBank && s == Near(p) && activate == if p.bankgroups == 1 then p.tRRD_S else p.tRRD_L) ||
             (rel == OtherGroup && s == Far(p) && activate == p.tRRD_S)
    ensures Tabulates(InRankList(p, s, activate, from), p, rel, from)
  {
    match from
    case Activate => PairTabulates(p, rel, from, activate, p.tRC());
    case Precharge => assert NeedsPPD(p) ==> InRankList(p, s, activate, from)[0].0.Precharge?;
    case RefreshBank => PairTabulates(p, rel, from, p.tRFC, p.tREFI);
    case _ =>
      if from.IsRead() {
        ColumnsTabulate(p, rel, from, s.readToRead, s.readToWrite);
      } else {
        ColumnsTabulate(p, rel, from, s.writeToRead, s.writeToWrite);
      }
  }

  lemma OtherRankRight(p: Config, from: CommandType)
    requires !from.IsRankCommand()
    ensures Tabulates(ColumnList(Cross(p), from), p, OtherRank, from)
  {
    var s := Cross(p);
    if from.IsRead() {
      ColumnsTabulate(p, OtherRank, from, s.readToRead, s.readToWrite);
    } else if from.IsWrite() {
      ColumnsTabulate(p, OtherRank, from, s.writeToRead, s.writeToWrite);
    }
  }

  lemma SameRankRight(p: Config, from: CommandType)
    requires from.IsRankCommand()
    ensures Tabulates(SameRankList(p, from), p, SameRank, from)
  {
    match from
    case SrefExit => WhenClosedTabulates(p, SameRank, from, p.tXS, p.tXS);
    case _ => RefreshTabulates(p);
  }

  /** The prescribed lists hold exactly the delays of the specification. */
  lemma PrescribedIsRight(p: Config, rel: Relation, from: CommandType)
    requires Consulted(rel, from)
    ensures Tabulates(Prescribed(p, rel, from), p, rel, from)
  {
    match rel
    case SameBank => SameBankRight(p, from);
    case OtherBank => InRankRight(p, rel, Near(p), if p.bankgroups == 1 then p.tRRD_S else p.tRRD_L, from);
    case OtherGroup => InRankRight(p, rel, Far(p), p.tRRD_S, from);
    case OtherRank => OtherRankRight(p, from);
    case SameRank => SameRankRight(p, from);
  }

  ghost predicate Lists(table: seq<DelayList>, p: Config, rel: Relation) {
    |table| == 10 && forall i | 0 <= i < 10 :: table[i] == Prescribed(p, rel, KindAt(i))
  }

  class Timing {
    const config: Config
    var sameBank: seq<DelayList>
    var otherBanksSameBankgroup: seq<DelayList>
    var otherBankgroupsSameRank: seq<DelayList>
    var otherRanks: seq<DelayList>
    var sameRank: seq<DelayList>

    ghost predicate Sized()
      reads this
    {
      |sameBank| == |otherBanksSameBankgroup| == |otherBankgroupsSameRank| == |otherRanks| == |sameRank| == 10
    }

    function Table(rel: Relation): seq<DelayList>
      reads this
    {
      match rel
      case SameBank => sameBank
      case OtherBank => otherBanksSameBankgroup
      case OtherGroup => otherBankgroupsSameRank
      case OtherRank => otherRanks
      case SameRank => sameRank
    }

    /** Every table lists what the parameters prescribe; what that means is `PrescribedIsRight`. */
    ghost predicate Valid()
      reads this
    {
      forall rel :: Lists(Table(rel), config, rel)
    }

    // In each table the lists stand in the order of the enumeration of command kinds.

    method EnterSameBank(s: Spacing, readToPrecharge: int, readpToAct: int, readToActivate: int, writeToPrecharge: int, writeToActivate: int,
                         activateToActivate: int, activateToRead: int, activateToWrite: int, activateToPrecharge: int, prechargeToActivate: int)
      requires s == Near(config) && readToPrecharge == ReadToPrecharge(config) && writeToPrecharge == WriteToPrecharge(config)
      requires readpToAct == config.AL + config.burstCycle + config.tRTP + config.tRP
      requires readToActivate == readToPrecharge + config.tRP && writeToActivate == writeToPrecharge + config.tRP
      requires activateToActivate == config.tRC() && activateToRead == ActivateToRead(config) && activateToWrite == ActivateToWrite(config)
      requires activateToPrecharge == config.tRAS && prechargeToActivate == config.tRP
      modifies this`sameBank
      ensures Lists(sameBank, config, SameBank)
    {
      sameBank := [
        ColumnsAndPrecharge(s.readToRead, s.readToWrite, readToPrecharge), WhenClosed(readpToAct, readToActivate),
        ColumnsAndPrecharge(s.writeToRead, s.writeToWrite, writeToPrecharge), WhenClosed(writeToActivate, writeToActivate),
        AfterActivate(activateToActivate, activateToRead, activateToWrite, activateToPrecharge),
        WhenClosed(prechargeToActivate, prechargeToActivate), [], [], [], []];
    }

    static method EnterInRank(config: Config, rel: Relation, s: Spacing, activateToActivate: int, activateToRefresh: int,
                              toPrecharge: DelayList, refreshToActivate: int, refreshToRefresh: int)
      returns (table: seq<DelayList>)
      requires (rel.OtherBank? && s == Near(config) && activateToActivate == if config.bankgroups == 1 then config.tRRD_S else config.tRRD_L) ||
               (rel.OtherGroup? && s == Far(config) && activateToActivate == config.tRRD_S)
      requires activateToRefresh == config.tRC() && toPrecharge == if NeedsPPD(config) then [(Precharge, config.tPPD as int)] else []
      requires refreshToActivate == config.tRFC && refreshToRefresh == config.tREFI
      ensures Lists(table, config, rel)
    {
      var afterRead, afterWrite := Columns(s.readToRead, s.readToWrite), Columns(s.writeToRead, s.writeToWrite);
      table := [
        afterRead, afterRead, afterWrite, afterWrite, ActivateAndRefreshBank(activateToActivate, activateToRefresh), toPrecharge,
        ActivateAndRefreshBank(refreshToActivate, refreshToRefresh), [], [], []];
    }

    method EnterOtherRanks(s: Spacing)
      requires s == Cross(config)
      modifies this`otherRanks
      ensures Lists(otherRanks, config, OtherRank)
    {
      var afterRead, afterWrite := Columns(s.readToRead, s.readToWrite), Columns(s.writeToRead, s.writeToWrite);
      otherRanks := [afterRead, afterRead, afterWrite, afterWrite, [], [], [], [], [], []];
    }

    method EnterSameRank(refreshToActivateBank: int, refreshToActivate: int, entryToExit: int, exit: int)
      requires refreshToActivateBank == config.tRFCb && refreshToActivate == config.tRFC && entryToExit == config.tCKESR && exit == config.tXS
      modifies this`sameRank
      ensures Lists(sameRank, config, SameRank)
    {
      sameRank := [
        [], [], [], [], [], [],
        WhenClosed(refreshToActivateBank, refreshToActivateBank), // never consulted
        AfterRefresh(refreshToActivate), [(SrefExit, entryToExit)], WhenClosed(exit, exit)];
    }

    constructor (config: Config)
      ensures Valid() && this.config == config
    {
      this.config := config;
      sameBank, otherBanksSameBankgroup, otherBankgroupsSameRank, otherRanks, sameRank := [], [], [], [], [];
      new;
      var readToReadL := Max(config.burstCycle, config.tCCD_L);
      var readToReadS := Max(config.burstCycle, config.tCCD_S);
      var readToReadO := config.burstCycle + config.tRTRS;
      var readToWrite := config.RL() + config.burstCycle - config.WL() + config.tRTRS;
      var readToWriteO := config.ReadDelay() + config.burstCycle + config.tRTRS - config.WriteDelay();
      var readToPrecharge := config.AL + config.tRTP;
      var readpToAct := config.AL + config.burstCycle + config.tRTP + config.tRP;

      var writeToReadL := config.WriteDelay() + config.tWTR_L;
      var writeToReadS := config.WriteDelay() + config.tWTR_S;
      var writeToReadO := config.WriteDelay() + config.burstCycle + config.tRTRS - config.ReadDelay();
      var writeToWriteL := Max(config.burstCycle, config.tCCD_L);
      var writeToWriteS := Max(config.burstCycle, config.tCCD_S);
      var writeToWriteO := config.burstCycle;
      var writeToPrecharge := config.WL() + config.burstCycle + config.tWR;

      var prechargeToActivate := config.tRP;
      var prechargeToPrecharge := config.tPPD;
      var readToActivate := readToPrecharge + prechargeToActivate;
      var writeToActivate := writeToPrecharge + prechargeToActivate;

      var activateToActivate := config.tRC();
      var activateToActivateL := config.tRRD_L;
      var activateToActivateS := config.tRRD_S;
      var activateToPrecharge := config.tRAS;
      var activateToRead, activateToWrite := config.tRCD - config.AL, config.tRCD - config.AL;
      if config.IsGDDR() || config.IsHBM() {
        activateToRead, activateToWrite := config.tRCDRD, config.tRCDWR;
      }
      var activateToRefresh := config.tRC();

      var refreshToRefresh := config.tREFI;
      var refreshToActivate := config.tRFC;
      var refreshToActivateBank := config.tRFCb;
      var selfRefreshEntryToExit := config.tCKESR;
      var selfRefreshExit := config.tXS;

      if config.bankgroups == 1 {
        readToReadL := Max(config.burstCycle, config.tCCD_S);
        writeToReadL := config.WriteDelay() + config.tWTR_S;
        writeToWriteL := Max(config.burstCycle, config.tCCD_S);
        activateToActivateL := config.tRRD_S;
      }

      EnterSameBank(Spacing(readToReadL, readToWrite, writeToReadL, writeToWriteL), readToPrecharge, readpToAct, readToActivate,
                    writeToPrecharge, writeToActivate, activateToActivate, activateToRead, activateToWrite, activateToPrecharge,
                    prechargeToActivate);
      var toPrecharge := if config.IsGDDR() || config.protocol.LPDDR4? then [(Precharge, prechargeToPrecharge)] else [];
      otherBanksSameBankgroup :=
        EnterInRank(config, OtherBank, Spacing(readToReadL, readToWrite, writeToReadL, writeToWriteL), activateToActivateL, activateToRefresh,
                    toPrecharge, refreshToActivate, refreshToRefresh);
      otherBankgroupsSameRank :=
        EnterInRank(config, OtherGroup, Spacing(readToReadS, readToWrite, writeToReadS, writeToWriteS), activateToActivateS, activateToRefresh,
                    toPrecharge, refreshToActivate, refreshToRefresh);
      EnterOtherRanks(Spacing(readToReadO, readToWriteO, writeToReadO, writeToWriteO));
      EnterSameRank(refreshToActivateBank, refreshToActivate, selfRefreshEntryToExit, selfRefreshExit);
    }
  }
}
