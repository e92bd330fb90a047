/** Command-to-command delays (src/timing.cc). */
module TimingSpec {
  import opened Common
  import opened Configuration

  /** What separates two column accesses, whichever banks they go to. */
  datatype Spacing = Spacing(readToRead: int, readToWrite: int, writeToRead: int, writeToWrite: int) {
    function Between(from: CommandType, to: CommandType): Option<int> {
      if from.IsRead() then
        if to.IsRead() then Some(readToRead) else if to.IsWrite() then Some(readToWrite) else None
      else if from.IsWrite() then
        if to.IsRead() then Some(writeToRead) else if to.IsWrite() then Some(writeToWrite) else None
      else None
    }
  }

  /** Column spacing inside a bankgroup; with one bankgroup the short delays apply. */
  function Near(p: Config): Spacing {
    var long := p.bankgroups != 1;
    var ccd := Max(p.burstCycle, if long then p.tCCD_L else p.tCCD_S);
    Spacing(ccd, ReadToWrite(p), p.WriteDelay() + (if long then p.tWTR_L else p.tWTR_S), ccd)
  }

  /** Column spacing between bankgroups of a rank. */
  function Far(p: Config): Spacing {
    var ccd := Max(p.burstCycle, p.tCCD_S);
    Spacing(ccd, ReadToWrite(p), p.WriteDelay() + p.tWTR_S, ccd)
  }

  /** Column spacing between ranks. */
  function Cross(p: Config): Spacing {
    Spacing(p.burstCycle + p.tRTRS,
            p.ReadDelay() + p.burstCycle + p.tRTRS - p.WriteDelay(),
            p.WriteDelay() + p.burstCycle + p.tRTRS - p.ReadDelay(),
            p.burstCycle)
  }

  function ReadToWrite(p: Config): int {
    p.RL() + p.burstCycle - p.WL() + p.tRTRS
  }

  function ReadToPrecharge(p: Config): int {
    p.AL + p.tRTP
  }

  function WriteToPrecharge(p: Config): int {
    p.WL() + p.burstCycle + p.tWR
  }

  function ActivateToRead(p: Config): int {
    if p.IsGDDR() || p.IsHBM() then p.tRCDRD else p.tRCD - p.AL
  }

  function ActivateToWrite(p: Config): int {
    if p.IsGDDR() || p.IsHBM() then p.tRCDWR else p.tRCD - p.AL
  }

  /** Precharge-to-precharge spacing inside a rank is a matter of GDDR and LPDDR4 only. */
  predicate NeedsPPD(p: Config) {
    p.IsGDDR() || p.protocol.LPDDR4?
  }

  /** Commands that need a bank to be precharged. */
  predicate NeedsClosed(k: CommandType) {
    k.Activate? || k.Refresh? || k.RefreshBank? || k.SrefEnter?
  }

  /**
    The delay that issuing `from` imposes on `to` at a bank standing in relation `rel`, or None when
    the program consults no table for it.
   */
  function Delay(p: Config, rel: Relation, from: CommandType, to: CommandType): Option<int> {
    match rel
    case SameBank => SameBankDelay(p, from, to)
    case OtherBank =>
      if from.Activate? then
        if to.Activate? then Some(if p.bankgroups == 1 then p.tRRD_S else p.tRRD_L) else RefreshBankSpacing(p, to)
      else OtherInRankDelay(p, Near(p), from, to)
    case OtherGroup =>
      if from.Activate? then
        if to.Activate? then Some(p.tRRD_S) else RefreshBankSpacing(p, to)
      else OtherInRankDelay(p, Far(p), from, to)
    case OtherRank => Cross(p).Between(from, to)
    case SameRank =>
      match from
      case Refresh => if to.Activate? || to.Refresh? || to.SrefEnter? then Some(p.tRFC) else None
      case SrefEnter => if to.SrefExit? then Some(p.tCKESR) else None
      case SrefExit => if NeedsClosed(to) then Some(p.tXS) else None
      case _ => None
  }

  function SameBankDelay(p: Config, from: CommandType, to: CommandType): Option<int> {
    match from
    case Read => if to.Precharge? then Some(ReadToPrecharge(p)) else Near(p).Between(from, to)
    case Write => if to.Precharge? then Some(WriteToPrecharge(p)) else Near(p).Between(from, to)
    case ReadPrecharge =>
      if to.Activate? then Some(p.AL + p.burstCycle + p.tRTP + p.tRP)
      else if NeedsClosed(to) then Some(ReadToPrecharge(p) + p.tRP)
      else None
    case WritePrecharge => if NeedsClosed(to) then Some(WriteToPrecharge(p) + p.tRP) else None
    case Activate =>
      if to.Activate? then Some(p.tRC())
      else if to.IsRead() then Some(ActivateToRead(p))
      else if to.IsWrite() then Some(ActivateToWrite(p))
      else if to.Precharge? then Some(p.tRAS)
      else None
    case Precharge => if NeedsClosed(to) then Some(p.tRP) else None
    case _ => None
  }

  function RefreshBankSpacing(p: Config, to: CommandType): Option<int> {
    if to.RefreshBank? then Some(p.tRC()) else None
  }

  function OtherInRankDelay(p: Config, s: Spacing, from: CommandType, to: CommandType): Option<int> {
    match from
    case Precharge => if NeedsPPD(p) && to.Precharge? then Some(p.tPPD) else None
    case RefreshBank => if to.Activate? then Some(p.tRFC) else if to.RefreshBank? then Some(p.tREFI) else None
    case _ => s.Between(from, to)
  }

  /** How `l` lies relative to the target of a command; None when the command does not concern it. */
  function Relate(cmd: Command, l: Loc): Option<Relation> {
    if cmd.kind.IsRankCommand() then
      if l.rank == cmd.addr.rank then Some(SameRank) else None
    else if l.rank != cmd.addr.rank then Some(OtherRank)
    else if l.bankgroup != cmd.addr.bankgroup then Some(OtherGroup)
    else if l.bank != cmd.addr.bank then Some(OtherBank)
    else Some(SameBank)
  }

  /** The delay that `cmd` imposes on commands of kind `to` at bank `l`. */
  function DelayAt(p: Config, cmd: Command, l: Loc, to: CommandType): Option<int> {
    match Relate(cmd, l)
    case None => None
    case Some(rel) => Listed(p.delays, rel, cmd.kind, to)
  }

  /** The tables hold what the parameters prescribe. */
  ghost predicate Timed(p: Config) {
    forall rel, from, to :: Listed(p.delays, rel, from, to) == Delay(p, rel, from, to)
  }

  function Listed(t: DelayTable, rel: Relation, from: CommandType, to: CommandType): Option<int> {
    if (rel, from, to) in t then Some(t[(rel, from, to)]) else None
  }
}
