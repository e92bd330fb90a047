/** When data bursts can collide on the channel's data bus. */
module DataBus {
  import opened Common
  import opened Configuration
  import opened TimingSpec
  import opened Device
  import opened DeviceRuns

  /** First cycle of the burst of a column access; the burst takes the `burstCycle` cycles from there. */
  function BurstStart(p: Config, c: Issued): int {
    c.at + p.AL + (if c.cmd.kind.IsRead() then p.CL else p.CWL)
  }

  predicate Collide(p: Config, c: Issued, d: Issued) {
    BurstStart(p, c) < BurstStart(p, d) + p.burstCycle && BurstStart(p, d) < BurstStart(p, c) + p.burstCycle
  }

  /** An auto-precharging read and the write that follows on its bank after the next activation are far enough apart. */
  predicate AutoPrechargeSafe(p: Config) {
    p.CL <= p.AL + p.tRTP + p.tRP + Max(0, ActivateToWrite(p)) + p.CWL
  }

  ghost predicate BusExclusive(p: Config) {
    forall h: seq<Issued>, i: int, j: int | Legal(p, h) && 0 <= i < j < |h| && h[i].cmd.kind.IsReadWrite() && h[j].cmd.kind.IsReadWrite() ::
      !Collide(p, h[i], h[j])
  }

  /** Column accesses that a table separates directly: their bursts come one after the other. */
  lemma DirectSpacing(p: Config, c: Issued, d: Issued, rel: Relation)
    requires Timed(p) && c.cmd.kind.IsReadWrite() && d.cmd.kind.IsReadWrite()
    requires Relate(c.cmd, d.cmd.Place()) == Some(rel)
    requires rel == SameBank ==> c.cmd.kind.Read? || c.cmd.kind.Write?
    requires DelayAt(p, c.cmd, d.cmd.Place(), d.cmd.kind).Some? ==>
               d.at >= c.at + DelayAt(p, c.cmd, d.cmd.Place(), d.cmd.kind).value
    ensures BurstStart(p, c) + p.burstCycle <= BurstStart(p, d)
  {
    assert Listed(p.delays, rel, c.cmd.kind, d.cmd.kind) == Delay(p, rel, c.cmd.kind, d.cmd.kind);
  }

  /** After an auto-precharge the bank must be activated again before the next column access. */
  lemma {:induction false} ActivateBetween(p: Config, h: seq<Issued>, i: nat, j: nat) returns (k: nat)
    requires Legal(p, h) && i < j < |h| && h[i].cmd.Place() == h[j].cmd.Place()
    requires h[i].cmd.kind.ReadPrecharge? || h[i].cmd.kind.WritePrecharge?
    requires h[j].cmd.kind.IsReadWrite()
    ensures i < k < j && h[k].cmd.kind.Activate? && h[k].cmd.Place() == h[j].cmd.Place()
  {
    k := AccessesHitTheActivatedRow(p, h, j);
    if k <= i {
      assert h[..j][i] == h[i] && Touches(h[i].cmd, h[j].cmd.Place());
    }
  }

  lemma PlaceOf(p: Config, h: seq<Issued>, j: nat)
    requires Legal(p, h) && j < |h| && !h[j].cmd.kind.IsRankCommand()
    ensures p.HasLoc(h[j].cmd.Place()) && Touches(h[j].cmd, h[j].cmd.Place())
  {
    LegalPrefix(p, h, j + 1);
    assert h[..j + 1][..j] == h[..j];
    AfterShaped(p, h[..j]);
  }

  /** Bursts follow each other in issue order, except perhaps behind an auto-precharging read when the timing is unsafe. */
  lemma BurstsInIssueOrder(p: Config, h: seq<Issued>, i: nat, j: nat)
    requires Timed(p) && Legal(p, h) && i < j < |h|
    requires h[i].cmd.kind.IsReadWrite() && h[j].cmd.kind.IsReadWrite()
    requires AutoPrechargeSafe(p) || !h[i].cmd.kind.ReadPrecharge?
    ensures BurstStart(p, h[i]) + p.burstCycle <= BurstStart(p, h[j])
  {
    var l := h[j].cmd.Place();
    PlaceOf(p, h, j);
    var rel := Relate(h[i].cmd, l).value;
    if rel == SameBank && !(h[i].cmd.kind.Read? || h[i].cmd.kind.Write?) {
      var k := ActivateBetween(p, h, i, j);
      TimesMonotone(p, h, k, j);
      assert Listed(p.delays, SameBank, h[i].cmd.kind, Activate) == Delay(p, SameBank, h[i].cmd.kind, Activate);
      assert Listed(p.delays, SameBank, Activate, h[j].cmd.kind) == Delay(p, SameBank, Activate, h[j].cmd.kind);
      PairwiseDelays(p, h, i, k, l);
      PairwiseDelays(p, h, k, j, l);
    } else {
      if DelayAt(p, h[i].cmd, l, h[j].cmd.kind).Some? {
        PairwiseDelays(p, h, i, j, l);
      }
      DirectSpacing(p, h[i], h[j], rel);
    }
  }

  /** Under the open-page policy no read precharges by itself, and the bus is exclusive whatever the timing. */
  lemma OpenPageBusExclusive(p: Config, h: seq<Issued>, i: nat, j: nat)
    requires Timed(p) && Legal(p, h) && i < j < |h|
    requires h[i].cmd.kind.Read? || h[i].cmd.kind.Write?
    requires h[j].cmd.kind.IsReadWrite()
    ensures !Collide(p, h[i], h[j])
  {
    BurstsInIssueOrder(p, h, i, j);
  }

  // ----- the condition is also necessary

  /** What suffices to issue a command for one bank after a short history. */
  lemma CanIssue(p: Config, h: seq<Issued>, c: Issued)
    requires Legal(p, h) && |h| < 4 && LastTime(h) <= c.at && p.HasLoc(c.cmd.Place())
    requires c.cmd.kind.Activate? || c.cmd.kind.IsReadWrite()
    requires forall i | 0 <= i < |h| && Bound(p, h[i], c.cmd.Place(), c.cmd.kind).Some? ::
               Bound(p, h[i], c.cmd.Place(), c.cmd.kind).value <= c.at
    requires 0 <= c.at
    requires c.cmd.Place() in After(p, h).banks
    requires var b := After(p, h).banks[c.cmd.Place()];
             if c.cmd.kind.Activate? then b.mode == Closed else b.mode == Open && b.openRow == c.cmd.addr.row
    ensures MayIssue(p, After(p, h), c.cmd, c.at)
  {
    AfterShaped(p, h);
    EarliestTimesExact(p, h, c.cmd.Place(), c.cmd.kind);
    WindowTestPasses(p, h, c.cmd.addr.rank, c.at);
    OneBankMayIssue(p, After(p, h), c);
  }

  lemma OneBankMayIssue(p: Config, d: Device, c: Issued)
    requires Shaped(p, d) && c.cmd.Place() in d.banks && (c.cmd.kind.Activate? || c.cmd.kind.IsReadWrite())
    requires ActivationWindowOk(p, d, c.cmd.addr.rank, c.at) && d.banks[c.cmd.Place()].At(c.cmd.kind) <= c.at
    requires var b := d.banks[c.cmd.Place()];
             if c.cmd.kind.Activate? then b.mode == Closed else b.mode == Open && b.openRow == c.cmd.addr.row
    ensures MayIssue(p, d, c.cmd, c.at)
  {
    assert forall m | m in d.banks && Touches(c.cmd, m) :: m == c.cmd.Place();
  }

  lemma WindowTestPasses(p: Config, h: seq<Issued>, r: int, now: int)
    requires Legal(p, h) && |h| < 4 && LastTime(h) <= now && 0 <= r < p.ranks
    ensures |After(p, h).fourAw| == p.ranks == |After(p, h).thirtyTwoAw|
    ensures ActivationWindowOk(p, After(p, h), r, now)
  {
    ActivationTestExact(p, h, r, now);
    WindowsExact(p, h, r);
    FewActivations(h, r);
    FewRecent(Activations(h, r), p.tFAW, 4, now);
    FewRecent(Activations(h, r), p.t32AW, 32, now);
  }

  lemma {:induction false} FewActivations(h: seq<Issued>, r: int)
    ensures |Activations(h, r)| <= |h|
  {
    if h != [] {
      FewActivations(h[..|h| - 1], r);
    }
  }

  const HOME := Address(0, 0, 0, 0, 0, 0)

  function On(k: CommandType, at: int): Issued {
    Issued(Command(k, HOME, 0), at)
  }

  /** Activate, read with auto-precharge, activate again as soon as allowed, write. */
  function ClashRun(p: Config): seq<Issued> {
    var read := Max(p.tRC(), Max(0, ActivateToRead(p)));
    var act := read + p.AL + p.burstCycle + p.tRTP + p.tRP;
    var write := Max(act + Max(0, ActivateToWrite(p)), read + p.RL() - p.WL());
    [On(Activate, 0), On(ReadPrecharge, read), On(Activate, act), On(WritePrecharge, write)]
  }

  ghost predicate Spaced(p: Config, c: Issued, d: Issued) {
    c.at <= d.at &&
    (Bound(p, c, d.cmd.Place(), d.cmd.kind).Some? ==> Bound(p, c, d.cmd.Place(), d.cmd.kind).value <= d.at)
  }

  lemma ClashRunSpaced(p: Config, i: nat, j: nat)
    requires Timed(p) && i < j < 4
    ensures Spaced(p, ClashRun(p)[i], ClashRun(p)[j])
  {
    var h := ClashRun(p);
    assert Listed(p.delays, SameBank, h[i].cmd.kind, h[j].cmd.kind) == Delay(p, SameBank, h[i].cmd.kind, h[j].cmd.kind);
  }

  lemma {:induction false} ClashRunLegal(p: Config, h: seq<Issued>)
    requires Timed(p) && p.HasLoc(Loc(0, 0, 0)) && h <= ClashRun(p)
    ensures Legal(p, h)
  {
    if h != [] {
      var n := |h| - 1;
      ClashRunLegal(p, h[..n]);
      assert h[..n] == ClashRun(p)[..n] && h[n] == ClashRun(p)[n];
      ClashRunGrows(p, h[..n], h[n]);
    }
  }

  lemma ClashRunGrows(p: Config, h: seq<Issued>, c: Issued)
    requires Timed(p) && p.HasLoc(Loc(0, 0, 0)) && Legal(p, h) && |h| < 4 && h == ClashRun(p)[..|h|] && c == ClashRun(p)[|h|]
    ensures MayIssue(p, After(p, h), c.cmd, c.at) && 0 <= c.at && (h != [] ==> h[|h| - 1].at <= c.at)
  {
    forall i | 0 <= i < |h|
      ensures Spaced(p, h[i], c)
    {
      ClashRunSpaced(p, i, |h|);
    }
    ClashRunAlternates(p, |h|);
    var d := ClashRunMode(p, h);
    ClashCommand(p, |h|);
    CanIssue(p, h, c);
  }

  lemma ClashCommand(p: Config, n: nat)
    requires n < 4
    ensures ClashRun(p)[n].cmd.addr == HOME && 0 <= ClashRun(p)[n].at
    ensures var k := ClashRun(p)[n].cmd.kind; if n % 2 == 0 then k.Activate? else k.ReadPrecharge? || k.WritePrecharge?
  {
  }

  /** Activations and auto-precharging accesses of one bank in turn. */
  ghost predicate Alternates(h: seq<Issued>) {
    forall i | 0 <= i < |h| ::
      h[i].cmd.addr == HOME && if i % 2 == 0 then h[i].cmd.kind.Activate? else h[i].cmd.kind.ReadPrecharge? || h[i].cmd.kind.WritePrecharge?
  }

  lemma ClashRunAlternates(p: Config, n: nat)
    requires n <= 4
    ensures Alternates(ClashRun(p)[..n])
  {
    forall i | 0 <= i < n
      ensures ClashRun(p)[i].cmd.addr == HOME
      ensures var k := ClashRun(p)[i].cmd.kind; if i % 2 == 0 then k.Activate? else k.ReadPrecharge? || k.WritePrecharge?
    {
      ClashCommand(p, i);
    }
  }

  /** Along such a run the bank is open after each activation and closed after each access. */
  lemma ClashRunMode(p: Config, h: seq<Issued>) returns (now: Device)
    requires Legal(p, h) && p.HasLoc(Loc(0, 0, 0)) && Alternates(h)
    ensures now == After(p, h) && Loc(0, 0, 0) in now.banks
    ensures var b := now.banks[Loc(0, 0, 0)]; if |h| % 2 == 0 then b.mode == Closed else b.mode == Open && b.openRow == 0
  {
    if h == [] {
      now := NewDevice(p);
    } else {
      LastOfAlternating(h);
      now := ClashLast(p, h);
    }
  }

  lemma ClashLast(p: Config, h: seq<Issued>) returns (now: Device)
    requires Legal(p, h) && p.HasLoc(Loc(0, 0, 0)) && h != []
    requires var c := h[|h| - 1].cmd;
             c.addr == HOME && if |h| % 2 == 0 then c.kind.ReadPrecharge? || c.kind.WritePrecharge? else c.kind.Activate?
    ensures now == After(p, h) && Loc(0, 0, 0) in now.banks
    ensures var b := now.banks[Loc(0, 0, 0)]; if |h| % 2 == 0 then b.mode == Closed else b.mode == Open && b.openRow == 0
  {
    var prefix, last, d := LastStep(p, h);
    AfterShaped(p, prefix);
    now := After(p, h);
    ClashStep(p, d, last, now);
  }

  lemma LastOfAlternating(h: seq<Issued>)
    requires Alternates(h) && h != []
    ensures var c := h[|h| - 1].cmd;
            c.addr == HOME && if |h| % 2 == 0 then c.kind.ReadPrecharge? || c.kind.WritePrecharge? else c.kind.Activate?
  {
    assert |h| % 2 == 0 <==> (|h| - 1) % 2 != 0;
  }

  lemma ClashStep(p: Config, d: Device, c: Issued, now: Device)
    requires Accepts(d, c.cmd) && c.cmd.addr == HOME && Loc(0, 0, 0) in d.banks && Issue(p, d, c.cmd, c.at) == Some(now)
    requires c.cmd.kind.Activate? || c.cmd.kind.ReadPrecharge? || c.cmd.kind.WritePrecharge?
    ensures Loc(0, 0, 0) in now.banks
    ensures var b := now.banks[Loc(0, 0, 0)]; if c.cmd.kind.Activate? then b.mode == Open && b.openRow == 0 else b.mode == Closed
  {
    IssueSteps(p, d, c, Loc(0, 0, 0));
  }

  /** Over all histories, bursts never collide exactly when they are empty or the timing is safe. */
  lemma BusExclusiveExactlyWhenSafe(p: Config)
    requires Timed(p) && p.HasLoc(Loc(0, 0, 0))
    ensures BusExclusive(p) <==> p.burstCycle == 0 || AutoPrechargeSafe(p)
  {
    if p.burstCycle > 0 && !AutoPrechargeSafe(p) {
      var h := ClashRun(p);
      ClashRunLegal(p, h);
      assert Legal(p, h) && h[1].cmd.kind.IsReadWrite() && h[3].cmd.kind.IsReadWrite() && Collide(p, h[1], h[3]);
    } else if p.burstCycle > 0 {
      forall h: seq<Issued>, i: int, j: int | Legal(p, h) && 0 <= i < j < |h| && h[i].cmd.kind.IsReadWrite() && h[j].cmd.kind.IsReadWrite()
        ensures !Collide(p, h[i], h[j])
      {
        BurstsInIssueOrder(p, h, i, j);
      }
    }
  }
}
