/** Device parameters and the address mapping (src/configuration.h, src/configuration.cc, src/common.cc). */
module Configuration {
  import opened Common

  datatype Protocol = DDR3 | DDR4 | GDDR5 | GDDR5X | GDDR6 | LPDDR | LPDDR3 | LPDDR4 | HBM | HBM2 | HMC

  datatype RefreshPolicy = RankSimultaneous | RankStaggered | BankStaggered

  datatype QueueStructure = PerRank | PerBank

  /** How a bank lies relative to the bank or rank a command addresses. */
  datatype Relation = SameBank | OtherBank | OtherGroup | OtherRank | SameRank

  /** The delay one command imposes on another kind at a bank in some relation; absent where no table lists it. */
  type DelayTable = map<(Relation, CommandType, CommandType), int>

  /** The six coordinates of an address. */
  datatype Field = Ch | Ra | Bg | Ba | Ro | Co

  datatype SixFields = SixFields(ch: nat, ra: nat, bg: nat, ba: nat, ro: nat, co: nat) {
    function Get(f: Field): nat {
      match f
      case Ch => ch
      case Ra => ra
      case Bg => bg
      case Ba => ba
      case Ro => ro
      case Co => co
    }

    function Set(f: Field, v: nat): SixFields {
      match f
      case Ch => this.(ch := v)
      case Ra => this.(ra := v)
      case Bg => this.(bg := v)
      case Ba => this.(ba := v)
      case Ro => this.(ro := v)
      case Co => this.(co := v)
    }
  }

  datatype Config = Config(
    protocol: Protocol,
    channels: nat, ranks: nat, bankgroups: nat, banksPerGroup: nat, rows: nat, columns: nat, BL: nat,
    busWidth: nat,
    // timing, in DRAM cycles
    burstCycle: nat, AL: nat, CL: nat, CWL: nat,
    tCCD_L: nat, tCCD_S: nat, tRTRS: nat, tRTP: nat, tWTR_L: nat, tWTR_S: nat, tWR: nat, tRP: nat,
    tRRD_L: nat, tRRD_S: nat, tRAS: nat, tRCD: nat, tRCDRD: nat, tRCDWR: nat, tRFC: nat, tRFCb: nat,
    tREFI: nat, tREFIb: nat, tCKESR: nat, tXS: nat, tFAW: nat, t32AW: nat, tPPD: nat,
    // controller
    queueStructure: QueueStructure, closePage: bool, cmdQueueSize: nat, transQueueSize: nat, unifiedQueue: bool,
    refreshPolicy: RefreshPolicy, dualCommand: bool,
    // what is drawn up from the parameters above: the delay tables and the address mapping
    delays: DelayTable, AddressMapping: nat -> Address)
  {
    predicate IsGDDR() {
      protocol.GDDR5? || protocol.GDDR5X? || protocol.GDDR6?
    }

    predicate IsHBM() {
      protocol.HBM? || protocol.HBM2?
    }

    function Banks(): nat {
      bankgroups * banksPerGroup
    }

    function RL(): nat {
      AL + CL
    }

    function WL(): nat {
      AL + CWL
    }

    function ReadDelay(): nat {
      RL() + burstCycle
    }

    function WriteDelay(): nat {
      WL() + burstCycle
    }

    function tRC(): nat {
      tRAS + tRP
    }

    function Count(f: Field): nat {
      match f
      case Ch => channels
      case Ra => ranks
      case Bg => bankgroups
      case Ba => banksPerGroup
      case Ro => rows
      case Co => columns
    }

    predicate HasLoc(l: Loc) {
      0 <= l.rank < ranks && 0 <= l.bankgroup < bankgroups && 0 <= l.bank < banksPerGroup
    }
  }

  function Pow2(n: nat): (p: nat)
    ensures p >= 1
  {
    if n == 0 then 1 else 2 * Pow2(n - 1)
  }

  /** `a >> n`. */
  function Shifted(a: nat, n: nat): nat {
    if n == 0 then a else Shifted(a / 2, n - 1)
  }

  /** `a & ((1 << width) - 1)`. */
  function LowBits(a: nat, width: nat): nat {
    if width == 0 then 0 else a % 2 + 2 * LowBits(a / 2, width - 1)
  }

  /** Where each field starts above the `shiftBits` that address within a request, and how wide it is. */
  datatype AddressMap = AddressMap(shiftBits: nat, pos: SixFields, width: SixFields)

  /** The fields of a byte address, by shift and mask. */
  function Decode(m: AddressMap, hexAddr: nat): Address {
    var a := Shifted(hexAddr, m.shiftBits);
    Address(Slice(m, a, Ch), Slice(m, a, Ra), Slice(m, a, Bg), Slice(m, a, Ba), Slice(m, a, Ro), Slice(m, a, Co))
  }

  function Slice(m: AddressMap, a: nat, f: Field): nat {
    LowBits(Shifted(a, m.pos.Get(f)), m.width.Get(f))
  }
}
