/** The banks of a channel, what each accepts, and what an issued command changes (src/bankstate.cc, src/channel_state.cc). */
module Device {
  import opened Common
  import opened Configuration
  import opened TimingSpec

  datatype BankMode = Open | Closed | SelfRefresh

  /** Earliest issue time of each command kind. */
  type EarliestTimes = s: seq<int> | |s| == 10 witness [0, 0, 0, 0, 0, 0, 0, 0, 0, 0]

  datatype Bank = Bank(mode: BankMode, openRow: int, rowHits: nat, earliest: EarliestTimes) {
    function At(k: CommandType): int {
      earliest[k.Index()]
    }
  }

  const NO_DELAYS: EarliestTimes := [0, 0, 0, 0, 0, 0, 0, 0, 0, 0]

  const FRESH_BANK := Bank(Closed, -1, 0, NO_DELAYS)

  /** The command a bank must see next on the way to `cmd`; None where the program aborts. */
  function Required(b: Bank, cmd: Command): Option<CommandType> {
    match b.mode
    case Closed =>
      if cmd.kind.IsReadWrite() then Some(Activate)
      else if cmd.kind.IsRefresh() || cmd.kind.SrefEnter? then Some(cmd.kind)
      else None
    case Open =>
      if cmd.kind.IsReadWrite() then Some(if cmd.addr.row == b.openRow then cmd.kind else Precharge)
      else if cmd.kind.IsRefresh() || cmd.kind.SrefEnter? then Some(Precharge)
      else None
    case SelfRefresh =>
      if cmd.kind.IsReadWrite() then Some(SrefExit) else None
  }

  function BankReady(b: Bank, cmd: Command, clk: int): Readiness {
    match Required(b, cmd)
    case None => Abort
    case Some(k) => if clk >= b.At(k) then Ready(Command(k, cmd.addr, cmd.hexAddr)) else NotYet
  }

  /** The bank after `cmd`, timing aside; None where the program aborts. */
  function BankUpdate(b: Bank, cmd: Command): Option<Bank> {
    match b.mode
    case Open =>
      (match cmd.kind
       case Read => Some(b.(rowHits := b.rowHits + 1))
       case Write => Some(b.(rowHits := b.rowHits + 1))
       case ReadPrecharge => Some(b.(mode := Closed, openRow := -1, rowHits := 0))
       case WritePrecharge => Some(b.(mode := Closed, openRow := -1, rowHits := 0))
       case Precharge => Some(b.(mode := Closed, openRow := -1, rowHits := 0))
       case _ => None)
    case Closed =>
      (match cmd.kind
       case Refresh => Some(b)
       case RefreshBank => Some(b)
       case Activate => Some(b.(mode := Open, openRow := cmd.addr.row))
       case SrefEnter => Some(b.(mode := SelfRefresh))
       case _ => None)
    case SelfRefresh =>
      if cmd.kind.SrefExit? then Some(b.(mode := Closed)) else None
  }

  /** The entry of `k` at `l` once `cmd` is issued: never lowered, and raised to `clk` plus the delay where one is consulted. */
  function Later(p: Config, cmd: Command, l: Loc, clk: int, e: EarliestTimes, k: CommandType): int {
    match DelayAt(p, cmd, l, k)
    case None => e[k.Index()]
    case Some(d) => Max(e[k.Index()], clk + d)
  }

  function Raised(p: Config, cmd: Command, l: Loc, clk: int, e: EarliestTimes): EarliestTimes {
    seq(10, i requires 0 <= i < 10 => Later(p, cmd, l, clk, e, KindAt(i)))
  }

  /** The banks and the activation windows of a channel. */
  datatype Device = Device(banks: map<Loc, Bank>, fourAw: seq<seq<int>>, thirtyTwoAw: seq<seq<int>>)

  function NewDevice(p: Config): Device {
    Device(
      map r, g, b | 0 <= r < p.ranks && 0 <= g < p.bankgroups && 0 <= b < p.banksPerGroup :: Loc(r, g, b) := FRESH_BANK,
      seq(p.ranks, _ => []), seq(p.ranks, _ => []))
  }

  /** The banks whose state machine `cmd` drives. */
  predicate Touches(cmd: Command, l: Loc) {
    if cmd.kind.IsRankCommand() then l.rank == cmd.addr.rank else l == cmd.Place()
  }

  predicate Addressed(d: Device, cmd: Command) {
    0 <= cmd.addr.rank < |d.fourAw| && |d.thirtyTwoAw| == |d.fourAw| &&
    (cmd.kind.IsRankCommand() || cmd.Place() in d.banks)
  }

  /** A window list holds the expiry times of the most recent activations; one expired entry goes per activation. */
  function Pushed(window: seq<int>, clk: int, length: int): seq<int> {
    (if window != [] && clk >= window[0] then window[1..] else window) + [clk + length]
  }

  predicate WindowReady(window: seq<int>, clk: int, size: nat) {
    window == [] || !(clk < window[0] && |window| >= size)
  }

  predicate ActivationWindowOk(p: Config, d: Device, rank: int, clk: int)
    requires 0 <= rank < |d.fourAw| && |d.thirtyTwoAw| == |d.fourAw|
  {
    WindowReady(d.fourAw[rank], clk, 4) && (p.IsGDDR() ==> WindowReady(d.thirtyTwoAw[rank], clk, 32))
  }

  /** The command to issue now on behalf of `cmd`, if any. */
  function GetReady(p: Config, d: Device, cmd: Command, clk: int): Readiness {
    if !Addressed(d, cmd) then Abort
    else if cmd.kind.IsRankCommand() then ScanRank(p, d, cmd, clk, 0, 0, 0)
    else
      match BankReady(d.banks[cmd.Place()], cmd, clk)
      case Abort => Abort
      case NotYet => NotYet
      case Ready(c) =>
        if c.kind.Activate? && !ActivationWindowOk(p, d, cmd.addr.rank, clk) then NotYet else Ready(c)
  }

  /** The scan of a rank's banks from bank `b` of bankgroup `g` on, with `ready` banks ready so far. */
  function ScanRank(p: Config, d: Device, cmd: Command, clk: int, g: nat, b: nat, ready: nat): Readiness
    decreases p.bankgroups - g, p.banksPerGroup - b
  {
    if g >= p.bankgroups then
      if 0 < ready == p.Banks() then Ready(cmd) else NotYet
    else if b >= p.banksPerGroup then ScanRank(p, d, cmd, clk, g + 1, 0, ready)
    else if Loc(cmd.addr.rank, g, b) !in d.banks then Abort
    else
      match BankReady(d.banks[Loc(cmd.addr.rank, g, b)], cmd, clk)
      case Abort => Abort
      case NotYet => ScanRank(p, d, cmd, clk, g, b + 1, ready)
      case Ready(c) =>
        if c.kind != cmd.kind then Ready(Command(c.kind, Address(-1, cmd.addr.rank, g, b, -1, -1), c.hexAddr))
        else ScanRank(p, d, cmd, clk, g, b + 1, ready + 1)
  }

  predicate Accepts(d: Device, cmd: Command) {
    Addressed(d, cmd) && forall l | l in d.banks && Touches(cmd, l) :: BankUpdate(d.banks[l], cmd).Some?
  }

  function Stepped(p: Config, d: Device, cmd: Command, clk: int, l: Loc): Bank
    requires Accepts(d, cmd) && l in d.banks
  {
    var b := if Touches(cmd, l) then BankUpdate(d.banks[l], cmd).value else d.banks[l];
    b.(earliest := Raised(p, cmd, l, clk, b.earliest))
  }

  /** The device after issuing `cmd` at `clk`: states, then earliest times, then activation windows. */
  function Issue(p: Config, d: Device, cmd: Command, clk: int): Option<Device> {
    if !Accepts(d, cmd) then None
    else
      var r := cmd.addr.rank;
      Some(Device(
        map l | l in d.banks :: Stepped(p, d, cmd, clk, l),
        if cmd.kind.Activate? then d.fourAw[r := Pushed(d.fourAw[r], clk, p.tFAW)] else d.fourAw,
        if cmd.kind.Activate? && p.IsGDDR() then d.thirtyTwoAw[r := Pushed(d.thirtyTwoAw[r], clk, p.t32AW)]
        else d.thirtyTwoAw))
  }
}
