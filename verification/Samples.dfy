/** Particular configurations (configs/HBM2_4Gb_x128.ini and variations), and what the theorems say of them. */
module Samples {
  import opened Common
  import opened Arithmetic
  import opened Configuration
  import opened TimingSpec
  import opened AddressLayout
  import opened ChannelInv
  import opened ChannelSteps
  import Channel
  import DataBus
  import BusClash
  import DualIssue
  import LostRequests
  import SplitClash
  import SplitQueues
  import WriteBursts

  /** The delay tables drawn up from the parameters. */
  function Drawn(p: Config): Config {
    p.(delays := map rel: Relation, from: CommandType, to: CommandType | Delay(p, rel, from, to).Some? :: (rel, from, to) := Delay(p, rel, from, to).value)
  }

  lemma DrawnIsTimed(p: Config)
    ensures Timed(Drawn(p))
  {
    hide Delay;
    var q := Drawn(p);
    forall rel, from, to
      ensures Listed(q.delays, rel, from, to) == Delay(q, rel, from, to)
    {
      TablesDoNotMatter(p, q.delays, rel, from, to);
    }
  }

  lemma TablesDoNotMatter(p: Config, delays: DelayTable, rel: Relation, from: CommandType, to: CommandType)
    ensures Delay(p.(delays := delays), rel, from, to) == Delay(p, rel, from, to)
  {
  }

  /** Row, rank, bankgroup, bank, channel and column, from the top, above six bits within a request. */
  function HbmLayout(rankBits: nat): AddressMap {
    AddressMap(6, SixFields(5, 12, 10, 8, 12 + rankBits, 0), SixFields(3, rankBits, 2, 2, 14, 5))
  }

  /**
    The shipped parameters, for some number of ranks, with separate queues for reads and writes or with one for both.
    The 64 columns of the file are 128 of the width of the bus (src/configuration.cc:153-162).
   */
  function HbmParameters(ranks: nat, rankBits: nat, unified: bool): Config {
    Config(
      protocol := HBM, channels := 8, ranks := ranks, bankgroups := 4, banksPerGroup := 4, rows := 16384, columns := 128, BL := 4, busWidth := 128,
      burstCycle := 2, AL := 0, CL := 14, CWL := 4, tCCD_L := 2, tCCD_S := 1, tRTRS := 2, tRTP := 5, tWTR_L := 8, tWTR_S := 6, tWR := 16, tRP := 14,
      tRRD_L := 6, tRRD_S := 4, tRAS := 34, tRCD := 10, tRCDRD := 14, tRCDWR := 14, tRFC := 260, tRFCb := 20,
      tREFI := 3900, tREFIb := 128, tCKESR := 12, tXS := 268, tFAW := 30, t32AW := 330, tPPD := 0,
      queueStructure := PerBank, closePage := false, cmdQueueSize := 8, transQueueSize := 32, unifiedQueue := unified,
      refreshPolicy := RankStaggered, dualCommand := true,
      delays := map[], AddressMapping := (x: nat) => Decode(HbmLayout(rankBits), x))
  }

  function Hbm(ranks: nat, rankBits: nat, unified: bool): Config {
    Drawn(HbmParameters(ranks, rankBits, unified))
  }

  lemma Powers()
    ensures Pow2(0) == 1 && Pow2(1) == 2 && Pow2(2) == 4 && Pow2(3) == 8 && Pow2(5) == 32 && Pow2(6) == 64 && Pow2(7) == 128 && Pow2(12) == 4096 && Pow2(14) == 16384
  {
  }

  const HBM_ORDER: seq<Field> := [Co, Ch, Ba, Bg, Ra, Ro]

  /** The layout is the one that the mapping of the file and the parameters make. */
  lemma HbmLayoutIs(ranks: nat, rankBits: nat, unified: bool)
    requires ranks == Pow2(rankBits)
    ensures Spells("rorabgbachco", HBM_ORDER) && Packed(HbmLayout(rankBits), HBM_ORDER)
    ensures var p := HbmParameters(ranks, rankBits, unified);
            Wide(p, HbmLayout(rankBits).width) && Pow2(HbmLayout(rankBits).shiftBits) == p.busWidth / 8 * p.BL
  {
    TextSpells();
    hide Spells, Wide;
    OrderIsComplete();
    FieldsArePacked(rankBits);
    HbmIsWide(ranks, rankBits, unified);
    hide HbmLayout;
    Powers();
    assert HbmLayout(rankBits).shiftBits == 6 by {
      ShiftIsSix(rankBits);
    }
  }

  lemma ShiftIsSix(rankBits: nat)
    ensures HbmLayout(rankBits).shiftBits == 6
  {
  }

  lemma TextSpells()
    ensures Spells("rorabgbachco", HBM_ORDER)
  {
    var text := "rorabgbachco";
    assert text[0..2] == "ro" && text[2..4] == "ra" && text[4..6] == "bg" && text[6..8] == "ba" && text[8..10] == "ch" && text[10..12] == "co";
  }

  lemma OrderIsComplete()
    ensures Complete(HBM_ORDER)
  {
    var order := HBM_ORDER;
    forall f: Field
      ensures f in order
    {
      match f
      case Ch => assert order[1] == f;
      case Ra => assert order[4] == f;
      case Bg => assert order[3] == f;
      case Ba => assert order[2] == f;
      case Ro => assert order[5] == f;
      case Co => assert order[0] == f;
    }
  }

  lemma FieldsArePacked(rankBits: nat)
    ensures forall i | 0 <= i < 6 :: HbmLayout(rankBits).pos.Get(HBM_ORDER[i]) == Start(HbmLayout(rankBits).width, HBM_ORDER, i)
  {
    var m, order := HbmLayout(rankBits), HBM_ORDER;
    StartsAre(m, order);
    hide Start;
    assert order[0] == Co && order[1] == Ch && order[2] == Ba && order[3] == Bg && order[4] == Ra && order[5] == Ro;
  }

  lemma StartsAre(m: AddressMap, order: seq<Field>)
    requires |order| == 6
    ensures Start(m.width, order, 0) == 0
    ensures forall i | 0 <= i < 6 :: Start(m.width, order, i + 1) == Start(m.width, order, i) + m.width.Get(order[i])
  {
  }

  lemma StillWide(p: Config, width: SixFields)
    requires Wide(p, width)
    ensures Wide(Drawn(p), width)
  {
    var low: nat :| ColumnsFit(p, width, low);
    assert ColumnsFit(Drawn(p), width, low);
    assert forall f: Field :: Drawn(p).Count(f) == p.Count(f);
  }

  lemma HbmIsWide(ranks: nat, rankBits: nat, unified: bool)
    requires ranks == Pow2(rankBits)
    ensures Wide(HbmParameters(ranks, rankBits, unified), HbmLayout(rankBits).width)
  {
    hide Decode;
    var p, m := HbmParameters(ranks, rankBits, unified), HbmLayout(rankBits);
    Powers();
    assert ColumnsFit(p, m.width, 2);
    forall f: Field | !f.Co?
      ensures Pow2(m.width.Get(f)) <= p.Count(f) < 2 * Pow2(m.width.Get(f))
    {
      match f
      case Ch => case Ra => case Bg => case Ba => case Ro =>
    }
  }

  lemma HbmIsUsable(ranks: nat, rankBits: nat, unified: bool)
    requires ranks == Pow2(rankBits)
    ensures Usable(Hbm(ranks, rankBits, unified)) && Timed(Hbm(ranks, rankBits, unified))
  {
    var p, m := Hbm(ranks, rankBits, unified), HbmLayout(rankBits);
    HbmIsWide(ranks, rankBits, unified);
    StillWide(HbmParameters(ranks, rankBits, unified), m.width);
    Powers();
    LayoutIsUsable(p, m);
    DrawnIsTimed(HbmParameters(ranks, rankBits, unified));
  }

  lemma SpacedInARank(ranks: nat, rankBits: nat, unified: bool)
    requires ranks <= 1 && Timed(Hbm(ranks, rankBits, unified))
    ensures DualSafe(Hbm(ranks, rankBits, unified)) && Cross(Hbm(ranks, rankBits, unified)).writeToRead == -6
  {
    hide Decode, Delay, Timed;
    var p := Hbm(ranks, rankBits, unified);
    assert Near(p) == Spacing(2, 14, 14, 2) && Far(p) == Spacing(2, 14, 12, 2);
  }

  /** As shipped, with one rank, dual issue is safe: the spacing between ranks does not matter. */
  lemma OneRankIsSafe(unified: bool)
    ensures Usable(Hbm(1, 0, unified)) && DualSafe(Hbm(1, 0, unified)) && Cross(Hbm(1, 0, unified)).writeToRead == -6
  {
    hide Hbm, Usable, Timed, DualSafe, Cross, Pow2;
    assert Pow2(0) == 1 by {
      Powers();
    }
    HbmIsUsable(1, 0, unified);
    SpacedInARank(1, 0, unified);
  }

  const OTHER_RANK: nat := 262144

  lemma RanksOf(unified: bool)
    ensures Target(Hbm(2, 1, unified), 0).rank == 0 && Target(Hbm(2, 1, unified), OTHER_RANK).rank == 1
  {
    hide Target, Hbm;
    RankOf(0, unified);
    RankOf(OTHER_RANK, unified);
  }

  lemma RankOf(x: nat, unified: bool)
    ensures Target(Hbm(2, 1, unified), x).rank == x / 64 / 4096 % 2
  {
    hide Decode;
    RankBit(x);
    assert Hbm(2, 1, unified).AddressMapping(x) == Decode(HbmLayout(1), x);
  }

  lemma RankBit(x: nat)
    ensures Decode(HbmLayout(1), x).rank == x / 64 / 4096 % 2
  {
    Powers();
    ShiftedIs(x, 6);
    ShiftedIs(x / 64, 12);
    LowBitsAre(x / 64 / 4096, 1);
  }

  lemma TwoRanksAreUnsafe()
    ensures !DualSafe(Hbm(2, 1, true))
  {
    hide Decode, Delay, Timed;
    assert Cross(Hbm(2, 1, true)).writeToRead == -6;
  }

  lemma IntervalIs(ranks: nat, end: nat)
    requires 1 <= ranks && (end + 1) * ranks <= 3900
    ensures 3900 / ranks > end
  {
    var q, r := DividesInto(3900, ranks);
    MultiplesApart(end - (q as int), ranks);
    Distributes(ranks, end, -(q as int));
  }

  lemma RefreshesAreRare(ranks: nat, rankBits: nat, unified: bool)
    requires 1 <= ranks <= 50
    ensures Channel.RefreshInterval(Hbm(ranks, rankBits, unified)) > 69
  {
    hide Decode, Delay;
    assert Channel.RefreshInterval(Hbm(ranks, rankBits, unified)) == 3900 / ranks;
    IntervalIs(ranks, 69);
  }

  lemma RanksMeet(ranks: nat, rankBits: nat, unified: bool)
    ensures LostRequests.Meets(Hbm(ranks, rankBits, unified)) && LostRequests.MeetAt(Hbm(ranks, rankBits, unified)) == 45
  {
    hide Decode, Delay;
    var p := Hbm(ranks, rankBits, unified);
    assert Cross(p) == Spacing(4, 14, -6, 2);
    assert LostRequests.ReadAt(p) == 31 && Near(p).readToRead == 2 && Near(p).writeToWrite == 2;
  }

  lemma TwoRanksOpenPage()
    ensures LostRequests.OpenPage(Hbm(2, 1, true), 0, OTHER_RANK)
  {
    hide Decode, Delay, Target, Usable, Timed, Pow2;
    assert Pow2(1) == 2 by {
      Powers();
    }
    HbmIsUsable(2, 1, true);
    RanksOf(true);
  }

  /** With twice the memory, so two ranks, and one queue for reads and writes, some run of the shipped part loses a read. */
  lemma TwoRanksLose() returns (es: seq<Channel.Event>)
    ensures !DualSafe(Hbm(2, 1, true)) && DualIssue.Loses(Hbm(2, 1, true), es)
  {
    hide DualIssue.Loses, DualSafe, LostRequests.OpenPage, LostRequests.Meets, LostRequests.MeetAt, Hbm, Channel.RefreshInterval;
    TwoRanksAreUnsafe();
    RanksMeet(2, 1, true);
    RefreshesAreRare(2, 1, true);
    TwoRanksOpenPage();
    es := LostRequests.MeetingLoses(Hbm(2, 1, true), 0, OTHER_RANK);
  }

  // ----- the same with separate queues, as shipped

  lemma {:induction false} ShiftedOut(a: nat, n: nat, k: nat)
    requires a < Pow2(k) && k <= n
    ensures Shifted(a, n) == 0
  {
    if n > 0 {
      ShiftedOut(a / 2, n - 1, if k == 0 then 0 else k - 1);
    }
  }

  lemma {:induction false} NoneSet(w: nat)
    ensures LowBits(0, w) == 0
  {
    if w > 0 {
      NoneSet(w - 1);
    }
  }

  /** The first columns of the first row of the first bank. */
  lemma FirstRow(x: nat)
    requires x < 2048
    ensures var a := Decode(HbmLayout(1), x); a.rank == 0 && a.bankgroup == 0 && a.bank == 0 && a.row == 0
  {
    var m, a := HbmLayout(1), Shifted(x, 6);
    Powers();
    ShiftedIs(x, 6);
    assert a < Pow2(5);
    forall f: Field | f.Ra? || f.Bg? || f.Ba? || f.Ro?
      ensures Slice(m, a, f) == 0
    {
      ShiftedOut(a, m.pos.Get(f), 5);
      NoneSet(m.width.Get(f));
    }
  }

  const NINE_COLUMNS: seq<nat> := [0, 64, 128, 192, 256, 320, 384, 448, 512]

  lemma NineInOneRow()
    ensures WriteBursts.OneRow(Hbm(2, 1, false), NINE_COLUMNS)
  {
    hide Decode, Delay;
    var p := Hbm(2, 1, false);
    forall i | 0 <= i < 9
      ensures Target(p, NINE_COLUMNS[i]) == Loc(0, 0, 0) && p.AddressMapping(NINE_COLUMNS[i]).row == 0
    {
      var x: nat := NINE_COLUMNS[i];
      FirstRow(x);
      assert p.AddressMapping(x) == Decode(HbmLayout(1), x);
    }
  }

  lemma RanksMeetLater(ranks: nat, rankBits: nat, unified: bool)
    ensures SplitQueues.MeetsLater(Hbm(ranks, rankBits, unified)) && SplitQueues.LastAt(Hbm(ranks, rankBits, unified)) == 69
  {
    hide Decode, Delay;
    var p := Hbm(ranks, rankBits, unified);
    assert Cross(p) == Spacing(4, 14, -6, 2) && Near(p).readToRead == 2 && Near(p).writeToWrite == 2;
    assert SplitQueues.FirstReadAt(p) == 15 && SplitQueues.OtherReadAt(p) == 31;
  }

  lemma TwoRanksSplit()
    ensures SplitQueues.SplitPage(Hbm(2, 1, false), NINE_COLUMNS, OTHER_RANK)
  {
    hide Decode, Delay, Target, Usable, Timed, Pow2, WriteBursts.OneRow;
    assert Pow2(1) == 2 by {
      Powers();
    }
    HbmIsUsable(2, 1, false);
    RanksOf(false);
    NineInOneRow();
  }

  /** The shipped part with twice the memory and nothing else changed: some run loses a read. */
  lemma TwoRanksSplitLose() returns (es: seq<Channel.Event>)
    ensures DualIssue.Loses(Hbm(2, 1, false), es)
  {
    hide DualIssue.Loses, SplitQueues.SplitPage, SplitQueues.MeetsLater, SplitQueues.LastAt, Hbm, Channel.RefreshInterval;
    TwoRanksSplit();
    RanksMeetLater(2, 1, false);
    RefreshesAreRare(2, 1, false);
    es := SplitQueues.SplitMeetingLoses(Hbm(2, 1, false), NINE_COLUMNS, OTHER_RANK);
  }

  /** A part whose write latency is far below its read latency, with close pages, and one queue for reads and writes or two. */
  function LopsidedParameters(unified: bool): Config {
    Config(
      protocol := DDR4, channels := 1, ranks := 1, bankgroups := 1, banksPerGroup := 1, rows := 1, columns := 1, BL := 1, busWidth := 64,
      burstCycle := 4, AL := 0, CL := 30, CWL := 10, tCCD_L := 6, tCCD_S := 4, tRTRS := 2, tRTP := 4, tWTR_L := 5, tWTR_S := 5, tWR := 10, tRP := 5,
      tRRD_L := 4, tRRD_S := 4, tRAS := 14, tRCD := 6, tRCDRD := 24, tRCDWR := 20, tRFC := 74, tRFCb := 20,
      tREFI := 7800, tREFIb := 1950, tCKESR := 12, tXS := 432, tFAW := 50, t32AW := 330, tPPD := 0,
      queueStructure := PerBank, closePage := true, cmdQueueSize := 16, transQueueSize := 32, unifiedQueue := unified,
      refreshPolicy := RankStaggered, dualCommand := false,
      delays := map[], AddressMapping := (x: nat) => Address(0, 0, 0, 0, 0, 0))
  }

  function Lopsided(unified: bool): Config {
    Drawn(LopsidedParameters(unified))
  }

  /** A read and a write of one address, and their bursts collide. */
  lemma LopsidedCollides() returns (es: seq<Channel.Event>)
    ensures Usable(Lopsided(true)) && !DataBus.AutoPrechargeSafe(Lopsided(true)) && BusClash.Collides(Lopsided(true), es)
  {
    hide BusClash.Collides;
    DrawnIsTimed(LopsidedParameters(true));
    es := BusClash.TightRunCollides(Lopsided(true), 0);
  }

  const NINE_WRITES: seq<nat> := [0, 1, 2, 3, 4, 5, 6, 7, 8]

  /** With separate queues, as is the default, it takes a read and nine writes. */
  lemma LopsidedSplitCollides() returns (es: seq<Channel.Event>)
    ensures Usable(Lopsided(false)) && !DataBus.AutoPrechargeSafe(Lopsided(false)) && BusClash.Collides(Lopsided(false), es)
  {
    hide BusClash.Collides, Delay;
    DrawnIsTimed(LopsidedParameters(false));
    es := SplitClash.SplitTightRunCollides(Lopsided(false), NINE_WRITES);
  }
}
