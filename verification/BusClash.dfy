/** Runs of the controller whose data bursts collide. */
module BusClash {
  import opened Common
  import opened Configuration
  import opened TimingSpec
  import opened Device
  import opened DeviceRuns
  import opened DataBus
  import opened Scheduler
  import opened Channel
  import opened ChannelInv
  import opened Scripts
  import opened TimingLaws
  import Safety

  /** When the first read of a fresh channel is issued: its bank is activated at cycle 1. */
  function ReadAt(p: Config): int {
    Max(2, 1 + ActivateToRead(p))
  }

  /** The earliest cycle in which the bank can be activated again for a request that comes in after that read. */
  function ReopenAt(p: Config): int {
    Max(ReadAt(p) + 2, Max(1 + p.tRC(), ReadAt(p) + p.AL + p.burstCycle + p.tRTP + p.tRP))
  }

  /** From an activation to the write it is for. */
  function OpenToWrite(p: Config): int {
    Max(1, ActivateToWrite(p))
  }

  /** The write comes in so that its burst starts with the read's, or as soon after as the bank allows. */
  function ClashAt(p: Config): int {
    Max(ReopenAt(p) + OpenToWrite(p), ReadAt(p) + p.RL() - p.WL())
  }

  /** The read's burst is not over when the earliest write's begins. */
  predicate TooTight(p: Config) {
    ReopenAt(p) + OpenToWrite(p) + p.WL() < ReadAt(p) + p.RL() + p.burstCycle
  }

  /** Close-page channels with room for a request; with dual issue, no access goes in the cycle of its activation. */
  ghost predicate ClosePage(p: Config) {
    Usable(p) && Timed(p) && Roomy(p) && p.closePage && p.burstCycle > 0 &&
    (p.dualCommand ==> ActivateToRead(p) >= 1 && ActivateToWrite(p) >= 1)
  }

  function First(p: Config, a: nat): seq<Issued> {
    [Issued(Activation(ReadOf(p, a)), 1)]
  }

  function Second(p: Config, a: nat): seq<Issued> {
    First(p, a) + [Issued(ReadOf(p, a), ReadAt(p))]
  }

  function Third(p: Config, a: nat): seq<Issued> {
    Second(p, a) + [Issued(Activation(WriteOf(p, a)), ClashAt(p) - OpenToWrite(p))]
  }

  function Fourth(p: Config, a: nat): seq<Issued> {
    Third(p, a) + [Issued(WriteOf(p, a), ClashAt(p))]
  }

  lemma FirstAllows(p: Config, a: nat, t: int)
    requires Timed(p) && p.closePage
    ensures Allowed(p, First(p, a), Target(p, a), ReadPrecharge, t) <==> 1 + ActivateToRead(p) <= t
  {
    var h := First(p, a);
    SameBankBound(p, h[0], Target(p, a), ReadPrecharge);
  }

  lemma SecondAllows(p: Config, a: nat, t: int)
    requires Timed(p) && p.closePage
    ensures Allowed(p, Second(p, a), Target(p, a), Activate, t) <==>
            1 + p.tRC() <= t && ReadAt(p) + p.AL + p.burstCycle + p.tRTP + p.tRP <= t
  {
    var h := Second(p, a);
    assert h[0] == Issued(Activation(ReadOf(p, a)), 1) && h[1] == Issued(ReadOf(p, a), ReadAt(p));
    SameBankBound(p, h[0], Target(p, a), Activate);
    SameBankBound(p, h[1], Target(p, a), Activate);
  }

  lemma ThirdAllows(p: Config, a: nat, t: int)
    requires Timed(p) && p.closePage && ReopenAt(p) <= ClashAt(p) - OpenToWrite(p) <= t
    ensures Allowed(p, Third(p, a), Target(p, a), WritePrecharge, t) <==> ClashAt(p) - OpenToWrite(p) + ActivateToWrite(p) <= t
  {
    var h := Third(p, a);
    assert h[0] == Issued(Activation(ReadOf(p, a)), 1) && h[1] == Issued(ReadOf(p, a), ReadAt(p));
    SameBankBound(p, h[0], Target(p, a), WritePrecharge);
    SameBankBound(p, h[1], Target(p, a), WritePrecharge);
    SameBankBound(p, h[2], Target(p, a), WritePrecharge);
  }

  /** The read is served alone. */
  lemma ReadServed(p: Config, a: nat) returns (es: seq<Event>, s: Channel)
    requires ClosePage(p) && RefreshInterval(p) > ReadAt(p)
    ensures 0 <= Home(p, a) < QueueCount(p)
    ensures Run(p, es) == Some(s) && View(p, s, ReadAt(p) + 1, Second(p, a), map[], Home(p, a))
  {
    hide Run, View, Allowed;
    var q, cmd, l := Home(p, a), ReadOf(p, a), Target(p, a);
    FreshView(p);
    FewRefreshes(p, 0, ReadAt(p));
    NothingQueued(p, NewChannel(p), 0, [], 0);
    es, s := Enter(p, [], NewChannel(p), 0, [], map[], 0, a, false);
    assert map[][q := cmd] == map[q := cmd];
    forall t: int
      ensures Allowed(p, [], l, Activate, t)
    {
      NothingIssued(p, l, Activate, t);
    }
    assert [] + First(p, a) == First(p, a);
    FirstAllows(p, a, 1);
    es, s := Activated(p, es, s, 1, [], 0, q, cmd, 1);
    forall t: int
      ensures Allowed(p, First(p, a), l, ReadPrecharge, t) <==> 1 + ActivateToRead(p) <= t
    {
      FirstAllows(p, a, t);
    }
    assert OpenSince(First(p, a), l, 0);
    es, s := Accessed(p, es, s, 2, First(p, a), q, q, cmd, 0, ReadAt(p));
  }

  /** A write comes in so that its bank is activated at `act`. */
  lemma Reopened(p: Config, a: nat, act: int) returns (es: seq<Event>, s: Channel)
    requires ClosePage(p) && p.unifiedQueue && RefreshInterval(p) > act >= ReopenAt(p) && act == ClashAt(p) - OpenToWrite(p)
    ensures 0 <= Home(p, a) < QueueCount(p)
    ensures Run(p, es) == Some(s) && View(p, s, act + 1, Third(p, a), map[Home(p, a) := WriteOf(p, a)], Home(p, a))
  {
    hide Run, View, Allowed, Silent, Home, Target, TransToCommand, Usable;
    var q, cmd := Home(p, a), WriteOf(p, a);
    es, s := ReadServed(p, a);
    FewRefreshes(p, 0, act);
    forall t: nat
      ensures Silent(p, s.dev, map[], t)
    {
      NoneSilent(p, s.dev, t);
    }
    es, s := WaitUntil(p, es, s, ReadAt(p) + 1, Second(p, a), map[], q, act - 1);
    NothingQueued(p, s, act - 1, Second(p, a), q);
    es, s := Enter(p, es, s, act - 1, Second(p, a), map[], q, a, true);
    assert map[][q := cmd] == map[q := cmd];
    es, s := ReopenNow(p, es, s, a, act, q);
  }

  lemma WriteGoesHome(p: Config, a: nat)
    requires Usable(p) && p.closePage
    ensures p.HasLoc(Target(p, a)) && WriteOf(p, a).Place() == Target(p, a) && WriteOf(p, a).kind.WritePrecharge? && |Second(p, a)| == 2
  {
  }

  lemma ReopenNow(p: Config, es: seq<Event>, s: Channel, a: nat, act: int, q: int) returns (fs: seq<Event>, now: Channel)
    requires ClosePage(p) && RefreshInterval(p) > act >= ReopenAt(p) && act == ClashAt(p) - OpenToWrite(p) && 0 <= q < QueueCount(p)
    requires Run(p, es) == Some(s) && View(p, s, act, Second(p, a), map[q := WriteOf(p, a)], q)
    ensures Run(p, fs) == Some(now) && View(p, now, act + 1, Third(p, a), map[q := WriteOf(p, a)], q)
  {
    hide Run, View, Allowed, Usable, Second, WriteOf, Target, Home;
    FewRefreshes(p, act, act);
    SecondAllows(p, a, act);
    ClosedAgain(p, a);
    WriteGoesHome(p, a);
    ThirdAllows(p, a, act);
    fs, now := Activated(p, es, s, act, Second(p, a), q, q, WriteOf(p, a), act);
  }

  /** The write comes in when its burst will meet the read's. */
  lemma WriteServed(p: Config, a: nat) returns (es: seq<Event>, s: Channel)
    requires ClosePage(p) && p.unifiedQueue && RefreshInterval(p) > ClashAt(p)
    ensures Run(p, es) == Some(s) && s.trace.hist == Fourth(p, a)
  {
    hide Run, View, Allowed;
    var q, cmd, l, act := Home(p, a), WriteOf(p, a), Target(p, a), ClashAt(p) - OpenToWrite(p);
    es, s := Reopened(p, a, act);
    FewRefreshes(p, 0, ClashAt(p));
    forall t: int | act < t
      ensures Allowed(p, Third(p, a), l, WritePrecharge, t) <==> act + ActivateToWrite(p) <= t
    {
      ThirdAllows(p, a, t);
    }
    assert OpenSince(Third(p, a), l, 2);
    es, s := Accessed(p, es, s, act + 1, Third(p, a), q, q, cmd, 2, ClashAt(p));
    HistoryIs(p, s, ClashAt(p) + 1, Fourth(p, a), map[], q);
  }

  /** The read has closed its bank. */
  lemma ClosedAgain(p: Config, a: nat)
    requires p.closePage
    ensures !exists i :: OpenSince(Second(p, a), Target(p, a), i)
  {
    var h := Second(p, a);
    assert h[0] == Issued(Activation(ReadOf(p, a)), 1) && h[1] == Issued(ReadOf(p, a), ReadAt(p));
    assert Touches(h[1].cmd, Target(p, a));
  }

  /** A run with two bursts that overlap. */
  ghost predicate Collides(p: Config, es: seq<Event>) {
    Run(p, es).Some? &&
    var h := Run(p, es).value.trace.hist;
    exists i, j | 0 <= i < j < |h| :: h[i].cmd.kind.IsReadWrite() && h[j].cmd.kind.IsReadWrite() && Collide(p, h[i], h[j])
  }

  /** A read and then a write of one address collide on the bus when the timing is too tight. */
  lemma TightRunCollides(p: Config, a: nat) returns (es: seq<Event>)
    requires ClosePage(p) && p.unifiedQueue && RefreshInterval(p) > ClashAt(p) && TooTight(p)
    ensures Collides(p, es)
  {
    var s;
    es, s := WriteServed(p, a);
    var h := Fourth(p, a);
    assert h[1] == Issued(ReadOf(p, a), ReadAt(p)) && h[3] == Issued(WriteOf(p, a), ClashAt(p));
    assert Collide(p, h[1], h[3]);
  }

  /** The read is issued as soon as its bank allows, and it rather than the row cycle says when the bank can be reopened. */
  predicate ReadDecides(p: Config) {
    ActivateToRead(p) >= 1 && ActivateToWrite(p) >= 1 && p.tRAS <= ActivateToRead(p) + p.AL + p.burstCycle + p.tRTP &&
    p.AL + p.burstCycle + p.tRTP + p.tRP >= 2
  }

  /**
    Where the read decides when its bank is reopened, some run has colliding bursts if and only if the
    auto-precharge timing is not safe.
   */
  lemma RunsCollideExactlyWhenUnsafe(p: Config, a: nat)
    requires ClosePage(p) && p.unifiedQueue && RefreshInterval(p) > ClashAt(p) && ReadDecides(p)
    ensures (exists es :: Collides(p, es)) <==> !AutoPrechargeSafe(p)
  {
    if !AutoPrechargeSafe(p) {
      assert TooTight(p);
      var es := TightRunCollides(p, a);
    } else {
      forall es
        ensures !Collides(p, es)
      {
        SafeRunsKeepApart(p, es);
      }
    }
  }

  lemma SafeRunsKeepApart(p: Config, es: seq<Event>)
    requires Usable(p) && Timed(p) && AutoPrechargeSafe(p)
    ensures !Collides(p, es)
  {
    if Collides(p, es) {
      var h := Run(p, es).value.trace.hist;
      var i, j :| 0 <= i < j < |h| && h[i].cmd.kind.IsReadWrite() && h[j].cmd.kind.IsReadWrite() && Collide(p, h[i], h[j]);
      Safety.RunsKeepTheBusExclusive(p, es, i, j);
    }
  }
}
