/** Commands, addresses and transactions (src/common.h). */
module Common {

  datatype Option<+T> = None | Some(value: T) {
    predicate IsFailure() {
      None?
    }

    function PropagateFailure<U>(): Option<U>
      requires None?
    {
      None
    }

    function Extract(): T
      requires Some?
    {
      value
    }
  }

  datatype CommandType =
    | Read
    | ReadPrecharge
    | Write
    | WritePrecharge
    | Activate
    | Precharge
    | RefreshBank
    | Refresh
    | SrefEnter
    | SrefExit
  {
    predicate IsRead() {
      Read? || ReadPrecharge?
    }

    predicate IsWrite() {
      Write? || WritePrecharge?
    }

    predicate IsReadWrite() {
      IsRead() || IsWrite()
    }

    predicate IsRefresh() {
      Refresh? || RefreshBank?
    }

    /** Commands addressed to a whole rank. */
    predicate IsRankCommand() {
      Refresh? || SrefEnter? || SrefExit?
    }

    /** Position in the enumeration, used to index the per-bank table of earliest times. */
    function Index(): (n: nat)
      ensures n < 10
    {
      match this
      case Read => 0
      case ReadPrecharge => 1
      case Write => 2
      case WritePrecharge => 3
      case Activate => 4
      case Precharge => 5
      case RefreshBank => 6
      case Refresh => 7
      case SrefEnter => 8
      case SrefExit => 9
    }
  }

  /** The inverse of `Index`. */
  function KindAt(i: nat): (k: CommandType)
    requires i < 10
    ensures k.Index() == i
  {
    match i
    case 0 => Read
    case 1 => ReadPrecharge
    case 2 => Write
    case 3 => WritePrecharge
    case 4 => Activate
    case 5 => Precharge
    case 6 => RefreshBank
    case 7 => Refresh
    case 8 => SrefEnter
    case _ => SrefExit
  }

  /** The place of a bank in its channel. */
  datatype Loc = Loc(rank: int, bankgroup: int, bank: int)

  datatype Address = Address(channel: int, rank: int, bankgroup: int, bank: int, row: int, column: int)

  datatype Command = Command(kind: CommandType, addr: Address, hexAddr: int) {
    function Place(): Loc {
      Loc(addr.rank, addr.bankgroup, addr.bank)
    }
  }

  /**
    A request of the processor side. `id` is the request's position in acceptance order: the model
    carries it along to tell requests to one address apart, and no decision ever reads it.
   */
  datatype Transaction = Transaction(id: nat, addr: nat, addedCycle: int, completeCycle: int, isWrite: bool)

  /** The answer of a readiness query: the process exits, nothing can go now, or `cmd` can go now. */
  datatype Readiness = Abort | NotYet | Ready(cmd: Command)

  function Max(x: int, y: int): int {
    if x < y then y else x
  }
}
