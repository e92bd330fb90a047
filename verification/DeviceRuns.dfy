/** Every history of commands a channel can be driven through, and what all of them have in common. */
module DeviceRuns {
  import opened Common
  import opened Configuration
  import opened TimingSpec
  import opened Device

  datatype Issued = Issued(cmd: Command, at: int)

  ghost predicate Shaped(p: Config, d: Device) {
    (forall l :: l in d.banks <==> p.HasLoc(l)) && |d.fourAw| == p.ranks == |d.thirtyTwoAw|
  }

  /** What the program has established about `cmd` when it issues it. */
  ghost predicate MayIssue(p: Config, d: Device, cmd: Command, clk: int) {
    Accepts(d, cmd) &&
    (forall l | l in d.banks && Touches(cmd, l) :: d.banks[l].At(cmd.kind) <= clk) &&
    (cmd.kind.IsReadWrite() ==> d.banks[cmd.Place()].openRow == cmd.addr.row) &&
    (cmd.kind.Activate? ==> ActivationWindowOk(p, d, cmd.addr.rank, clk))
  }

  /** A history in which each command was allowed when issued, in time order. */
  ghost predicate Legal(p: Config, h: seq<Issued>)
    decreases |h|, 0
  {
    h == [] ||
    (var prefix, last := h[..|h| - 1], h[|h| - 1];
     Legal(p, prefix) && MayIssue(p, After(p, prefix), last.cmd, last.at) &&
     0 <= last.at && (prefix != [] ==> prefix[|prefix| - 1].at <= last.at))
  }

  ghost function After(p: Config, h: seq<Issued>): Device
    requires Legal(p, h)
    decreases |h|, 1
  {
    if h == [] then NewDevice(p)
    else Issue(p, After(p, h[..|h| - 1]), h[|h| - 1].cmd, h[|h| - 1].at).value
  }

  lemma {:induction false} AfterShaped(p: Config, h: seq<Issued>)
    requires Legal(p, h)
    ensures Shaped(p, After(p, h))
  {
    if h != [] {
      AfterShaped(p, h[..|h| - 1]);
    }
  }

  lemma {:induction false} LegalPrefix(p: Config, h: seq<Issued>, n: nat)
    requires Legal(p, h) && n <= |h|
    ensures Legal(p, h[..n])
  {
    if n == |h| {
      assert h[..n] == h;
    } else {
      LegalPrefix(p, h[..|h| - 1], n);
      assert h[..|h| - 1][..n] == h[..n];
    }
  }

  lemma {:induction false} TimesMonotone(p: Config, h: seq<Issued>, i: nat, j: nat)
    requires Legal(p, h) && i <= j < |h|
    ensures h[i].at <= h[j].at
    decreases |h|
  {
    if i < j {
      if j < |h| - 1 {
        TimesMonotone(p, h[..|h| - 1], i, j);
      } else {
        TimesMonotone(p, h[..|h| - 1], i, j - 1);
      }
    }
  }

  // ----- earliest times are maxima over the history

  /** `t` is the largest of 0 and the issue times in `h` plus the delays they impose on `k` at `l`. */
  ghost predicate IsEarliest(p: Config, h: seq<Issued>, l: Loc, k: CommandType, t: int) {
    t >= 0 &&
    (forall i | 0 <= i < |h| && Bound(p, h[i], l, k).Some? :: Bound(p, h[i], l, k).value <= t) &&
    (t == 0 || exists i | 0 <= i < |h| :: Bound(p, h[i], l, k) == Some(t))
  }

  /** When `cmd`, issued at `at`, first lets a command of kind `k` go to `l`; None when it has no say. */
  ghost function Bound(p: Config, c: Issued, l: Loc, k: CommandType): Option<int> {
    match DelayAt(p, c.cmd, l, k)
    case None => None
    case Some(d) => Some(c.at + d)
  }

  lemma IssueRaises(p: Config, d: Device, c: Issued, l: Loc, k: CommandType)
    requires Accepts(d, c.cmd) && l in d.banks
    ensures l in Issue(p, d, c.cmd, c.at).value.banks
    ensures var was, now := d.banks[l].At(k), Issue(p, d, c.cmd, c.at).value.banks[l].At(k);
            now == match Bound(p, c, l, k) case None => was case Some(b) => Max(was, b)
  {
    var b := Stepped(p, d, c.cmd, c.at, l);
    assert b.At(k) == Later(p, c.cmd, l, c.at, d.banks[l].earliest, k);
  }

  /** The incrementally kept table is exact after every legal history. */
  lemma {:induction false} EarliestTimesExact(p: Config, h: seq<Issued>, l: Loc, k: CommandType)
    requires Legal(p, h) && p.HasLoc(l)
    ensures l in After(p, h).banks && IsEarliest(p, h, l, k, After(p, h).banks[l].At(k))
  {
    AfterShaped(p, h);
    if h != [] {
      var prefix, last, d := LastStep(p, h);
      EarliestTimesExact(p, prefix, l, k);
      EarliestStep(p, prefix, last, d, l, k);
    }
  }

  /** A history ends in a command issued to the device its prefix leads to. */
  lemma LastStep(p: Config, h: seq<Issued>) returns (prefix: seq<Issued>, last: Issued, d: Device)
    requires Legal(p, h) && h != []
    ensures prefix == h[..|h| - 1] && last == h[|h| - 1] && h == prefix + [last]
    ensures Legal(p, prefix) && d == After(p, prefix) && Accepts(d, last.cmd) && Issue(p, d, last.cmd, last.at) == Some(After(p, h))
  {
    prefix, last := h[..|h| - 1], h[|h| - 1];
    d := After(p, prefix);
  }

  lemma EarliestStep(p: Config, h: seq<Issued>, c: Issued, d: Device, l: Loc, k: CommandType)
    requires Accepts(d, c.cmd) && l in d.banks && IsEarliest(p, h, l, k, d.banks[l].At(k))
    ensures var now := Issue(p, d, c.cmd, c.at).value; l in now.banks && IsEarliest(p, h + [c], l, k, now.banks[l].At(k))
  {
    IssueRaises(p, d, c, l, k);
    IsEarliestExtend(p, h, c, l, k, d.banks[l].At(k));
  }

  lemma IsEarliestExtend(p: Config, h: seq<Issued>, c: Issued, l: Loc, k: CommandType, was: int)
    requires IsEarliest(p, h, l, k, was)
    ensures IsEarliest(p, h + [c], l, k, match Bound(p, c, l, k) case None => was case Some(b) => Max(was, b))
  {
    var g, b := h + [c], Bound(p, c, l, k);
    assert g[|h|] == c;
    if was != 0 && (b.None? || b.value < was) {
      var i :| 0 <= i < |h| && Bound(p, h[i], l, k) == Some(was);
      assert g[i] == h[i];
    }
  }

  /** Every ordered pair of issued commands respects the delay consulted for it, at every bank the later one touches. */
  lemma {:induction false} PairwiseDelays(p: Config, h: seq<Issued>, i: nat, j: nat, l: Loc)
    requires Legal(p, h) && i < j < |h| && p.HasLoc(l) && Touches(h[j].cmd, l)
    requires DelayAt(p, h[i].cmd, l, h[j].cmd.kind).Some?
    ensures h[j].at >= h[i].at + DelayAt(p, h[i].cmd, l, h[j].cmd.kind).value
  {
    LegalPrefix(p, h, j + 1);
    assert h[..j + 1][..j] == h[..j];
    EarliestTimesExact(p, h[..j], l, h[j].cmd.kind);
    assert h[..j][i] == h[i] && Bound(p, h[i], l, h[j].cmd.kind).Some?;
  }

  // ----- the state machine of a bank, read off the history

  /** Bank `l` was activated at step `i` and only plain column accesses have reached it since. */
  ghost predicate OpenSince(h: seq<Issued>, l: Loc, i: int) {
    0 <= i < |h| && h[i].cmd.kind.Activate? && h[i].cmd.Place() == l &&
    forall k | i < k < |h| && Touches(h[k].cmd, l) :: h[k].cmd.kind.Read? || h[k].cmd.kind.Write?
  }

  /** The state of a bank after a command, its earliest times aside. */
  lemma IssueSteps(p: Config, d: Device, c: Issued, l: Loc)
    requires Accepts(d, c.cmd) && l in d.banks
    ensures l in Issue(p, d, c.cmd, c.at).value.banks
    ensures var now := Issue(p, d, c.cmd, c.at).value.banks[l].(earliest := d.banks[l].earliest);
            if Touches(c.cmd, l) then BankUpdate(d.banks[l], c.cmd) == Some(now) else d.banks[l] == now
  {
  }

  ghost predicate ModeOf(h: seq<Issued>, l: Loc, b: Bank) {
    (b.mode == Open <==> exists i :: OpenSince(h, l, i)) &&
    (forall i | OpenSince(h, l, i) :: b.openRow == h[i].cmd.addr.row) &&
    (b.mode != Open ==> b.openRow == -1 && b.rowHits == 0)
  }

  lemma ModeExtend(h: seq<Issued>, c: Issued, l: Loc, was: Bank, now: Bank)
    requires ModeOf(h, l, was)
    requires if Touches(c.cmd, l) then BankUpdate(was, c.cmd) == Some(now) else was == now
    ensures ModeOf(h + [c], l, now)
  {
    var g, n := h + [c], |h|;
    assert g[n] == c && forall i | 0 <= i < n :: g[i] == h[i];
    forall i | OpenSince(g, l, i) && i < n
      ensures OpenSince(h, l, i)
    {
      assert forall k | i < k < n && Touches(h[k].cmd, l) :: Touches(g[k].cmd, l);
    }
    if Touches(c.cmd, l) && c.cmd.kind.Activate? {
      assert OpenSince(g, l, n);
    } else if now.mode == Open {
      var i :| OpenSince(h, l, i);
      assert OpenSince(g, l, i);
    }
  }

  /** Exactly the banks with such an activation are open, on the activated row; the others hold no row and no hits. */
  lemma {:induction false} OpenExactlySinceActivate(p: Config, h: seq<Issued>, l: Loc)
    requires Legal(p, h) && p.HasLoc(l)
    ensures l in After(p, h).banks && ModeOf(h, l, After(p, h).banks[l])
  {
    AfterShaped(p, h);
    if h != [] {
      var prefix, last, d := LastStep(p, h);
      OpenExactlySinceActivate(p, prefix, l);
      ModeStep(p, prefix, last, d, l);
    }
  }

  lemma ModeStep(p: Config, h: seq<Issued>, c: Issued, d: Device, l: Loc)
    requires Accepts(d, c.cmd) && l in d.banks && ModeOf(h, l, d.banks[l])
    ensures var now := Issue(p, d, c.cmd, c.at).value; l in now.banks && ModeOf(h + [c], l, now.banks[l])
  {
    IssueSteps(p, d, c, l);
    var now := Issue(p, d, c.cmd, c.at).value.banks[l];
    ModeExtend(h, c, l, d.banks[l], now.(earliest := d.banks[l].earliest));
  }

  /** How many plain reads and writes went to `l` after step `i`. */
  ghost function Accesses(h: seq<Issued>, l: Loc, i: int): nat
    requires 0 <= i
  {
    if |h| <= i + 1 then 0
    else
      var c := h[|h| - 1].cmd;
      Accesses(h[..|h| - 1], l, i) + (if c.Place() == l && (c.kind.Read? || c.kind.Write?) then 1 else 0)
  }

  lemma HitsExtend(h: seq<Issued>, c: Issued, l: Loc, i: int, was: Bank, now: Bank)
    requires OpenSince(h + [c], l, i) && ModeOf(h, l, was) && (i < |h| ==> was.rowHits == Accesses(h, l, i))
    requires if Touches(c.cmd, l) then BankUpdate(was, c.cmd) == Some(now) else was == now
    ensures now.rowHits == Accesses(h + [c], l, i)
  {
    var g := h + [c];
    assert g[..|g| - 1] == h && g[|h|] == c;
    if i < |h| {
      OpenBefore(g, l, i);
      assert OpenSince(h, l, i);
      assert Touches(c.cmd, l) ==> c.cmd.kind.Read? || c.cmd.kind.Write?;
    }
  }

  lemma OpenBefore(h: seq<Issued>, l: Loc, i: int)
    requires OpenSince(h, l, i) && i < |h| - 1
    ensures OpenSince(h[..|h| - 1], l, i)
  {
    var g := h[..|h| - 1];
    assert forall k | 0 <= k < |g| :: g[k] == h[k];
  }

  /** The hits of an open row are the plain reads and writes since its activation. */
  lemma {:induction false} HitsAreAccesses(p: Config, h: seq<Issued>, l: Loc, i: int)
    requires Legal(p, h) && p.HasLoc(l) && OpenSince(h, l, i)
    ensures l in After(p, h).banks && After(p, h).banks[l].rowHits == Accesses(h, l, i)
  {
    hide ModeOf, BankUpdate, Touches, Issue, Accepts, Accesses;
    AfterShaped(p, h);
    var prefix, last, d := LastStep(p, h);
    AfterShaped(p, prefix);
    OpenExactlySinceActivate(p, prefix, l);
    if i < |prefix| {
      OpenBefore(h, l, i);
      HitsAreAccesses(p, prefix, l, i);
    }
    HitStep(p, prefix, last, d, l, i);
  }

  lemma HitStep(p: Config, h: seq<Issued>, c: Issued, d: Device, l: Loc, i: int)
    requires Accepts(d, c.cmd) && l in d.banks && ModeOf(h, l, d.banks[l]) && OpenSince(h + [c], l, i)
    requires i < |h| ==> d.banks[l].rowHits == Accesses(h, l, i)
    ensures var now := Issue(p, d, c.cmd, c.at).value; l in now.banks && now.banks[l].rowHits == Accesses(h + [c], l, i)
  {
    hide ModeOf, BankUpdate, Accesses, OpenSince;
    IssueSteps(p, d, c, l);
    var now := Issue(p, d, c.cmd, c.at).value.banks[l];
    HitsExtend(h, c, l, i, d.banks[l], now.(earliest := d.banks[l].earliest));
  }

  /** A column access goes to the row of the bank's latest activation, with nothing in between that closes it. */
  lemma {:induction false} AccessesHitTheActivatedRow(p: Config, h: seq<Issued>, j: nat) returns (i: nat)
    requires Legal(p, h) && j < |h| && h[j].cmd.kind.IsReadWrite()
    ensures i < j && OpenSince(h[..j], h[j].cmd.Place(), i) && h[i].cmd.addr.row == h[j].cmd.addr.row
  {
    LegalPrefix(p, h, j + 1);
    assert h[..j + 1][..j] == h[..j];
    var l := h[j].cmd.Place();
    AfterShaped(p, h[..j]);
    assert Touches(h[j].cmd, l);
    OpenExactlySinceActivate(p, h[..j], l);
    i :| OpenSince(h[..j], l, i);
  }

  /** A rank is refreshed, and a bank activated or refreshed, only while every bank concerned is closed. */
  lemma {:induction false} RefreshAndActivateFindBanksClosed(p: Config, h: seq<Issued>, j: nat, l: Loc)
    requires Legal(p, h) && j < |h| && p.HasLoc(l) && Touches(h[j].cmd, l)
    requires h[j].cmd.kind.IsRefresh() || h[j].cmd.kind.Activate?
    ensures !exists i :: OpenSince(h[..j], l, i)
  {
    LegalPrefix(p, h, j + 1);
    assert h[..j + 1][..j] == h[..j];
    AfterShaped(p, h[..j]);
    OpenExactlySinceActivate(p, h[..j], l);
  }

  // ----- activation windows

  /** The times at which rank `r` was activated, in order. */
  ghost function Activations(h: seq<Issued>, r: int): seq<int> {
    if h == [] then []
    else
      var last := h[|h| - 1];
      Activations(h[..|h| - 1], r) + (if last.cmd.kind.Activate? && last.cmd.addr.rank == r then [last.at] else [])
  }

  /** How many of the activations `acts` lie in the `length` cycles before `now`. */
  ghost function Recent(acts: seq<int>, length: int, now: int): nat {
    if acts == [] then 0
    else Recent(acts[..|acts| - 1], length, now) + (if acts[|acts| - 1] + length > now then 1 else 0)
  }

  ghost predicate SortedUpTo(acts: seq<int>, now: int) {
    (forall i, j | 0 <= i < j < |acts| :: acts[i] <= acts[j]) && (acts != [] ==> acts[|acts| - 1] <= now)
  }

  /** `window` lists the expiry times of the latest activations, and the ones it forgot have expired by `now`. */
  ghost predicate WindowOf(window: seq<int>, acts: seq<int>, length: int, size: nat, now: int) {
    |window| <= size && |window| <= |acts| &&
    (forall i | 0 <= i < |window| :: window[i] == acts[|acts| - |window| + i] + length) &&
    (forall i | 0 <= i < |acts| - |window| :: acts[i] + length <= now)
  }

  lemma {:induction false} FewRecent(acts: seq<int>, length: int, size: nat, now: int)
    requires SortedUpTo(acts, now) && size > 0
    ensures Recent(acts, length, now) < size <==> |acts| < size || acts[|acts| - size] + length <= now
    ensures Recent(acts, length, now) <= |acts|
  {
    if acts != [] {
      var rest := acts[..|acts| - 1];
      if size == 1 {
        if acts[|acts| - 1] + length <= now {
          NoneRecent(rest, length, now);
        }
      } else {
        FewRecent(rest, length, size - 1, now);
        FewRecent(rest, length, 1, now);
        if acts[|acts| - 1] + length <= now {
          NoneRecent(rest, length, now);
        }
      }
      FewRecent(rest, length, size, now);
    }
  }

  lemma {:induction false} NoneRecent(acts: seq<int>, length: int, now: int)
    requires forall i | 0 <= i < |acts| :: acts[i] + length <= now
    ensures Recent(acts, length, now) == 0
  {
    if acts != [] {
      NoneRecent(acts[..|acts| - 1], length, now);
    }
  }

  /** A window list answers exactly whether fewer than `size` activations are recent. */
  lemma WindowReadyExact(window: seq<int>, acts: seq<int>, length: int, size: nat, before: int, now: int)
    requires WindowOf(window, acts, length, size, before) && SortedUpTo(acts, before) && before <= now && size > 0
    ensures WindowReady(window, now, size) <==> Recent(acts, length, now) < size
  {
    FewRecent(acts, length, size, now);
  }

  lemma WindowAfterPush(window: seq<int>, acts: seq<int>, length: int, size: nat, before: int, now: int)
    requires WindowOf(window, acts, length, size, before) && SortedUpTo(acts, before) && before <= now && size > 0
    requires WindowReady(window, now, size)
    ensures WindowOf(Pushed(window, now, length), acts + [now], length, size, now)
    ensures SortedUpTo(acts + [now], now)
  {
  }

  ghost function LastTime(h: seq<Issued>): int {
    if h == [] then 0 else h[|h| - 1].at
  }

  lemma IssueWindows(p: Config, d: Device, c: Issued, r: int)
    requires Accepts(d, c.cmd) && 0 <= r < |d.fourAw| == |d.thirtyTwoAw|
    ensures var now, on := Issue(p, d, c.cmd, c.at).value, c.cmd.kind.Activate? && c.cmd.addr.rank == r;
            |now.fourAw| == |now.thirtyTwoAw| == |d.fourAw| &&
            now.fourAw[r] == (if on then Pushed(d.fourAw[r], c.at, p.tFAW) else d.fourAw[r]) &&
            now.thirtyTwoAw[r] == (if on && p.IsGDDR() then Pushed(d.thirtyTwoAw[r], c.at, p.t32AW) else d.thirtyTwoAw[r])
  {
  }

  ghost predicate WindowsMatch(p: Config, d: Device, acts: seq<int>, r: int, now: int) {
    0 <= r < |d.fourAw| == |d.thirtyTwoAw| && SortedUpTo(acts, now) &&
    WindowOf(d.fourAw[r], acts, p.tFAW, 4, now) && (p.IsGDDR() ==> WindowOf(d.thirtyTwoAw[r], acts, p.t32AW, 32, now))
  }

  lemma WindowsExtend(p: Config, d: Device, c: Issued, acts: seq<int>, r: int, before: int)
    requires Accepts(d, c.cmd) && WindowsMatch(p, d, acts, r, before) && before <= c.at
    requires c.cmd.kind.Activate? ==> ActivationWindowOk(p, d, c.cmd.addr.rank, c.at)
    ensures WindowsMatch(p, Issue(p, d, c.cmd, c.at).value,
                         acts + (if c.cmd.kind.Activate? && c.cmd.addr.rank == r then [c.at] else []), r, c.at)
  {
    IssueWindows(p, d, c, r);
    var on := c.cmd.kind.Activate? && c.cmd.addr.rank == r;
    WindowStep(d.fourAw[r], acts, p.tFAW, 4, before, c.at, on);
    if p.IsGDDR() {
      WindowStep(d.thirtyTwoAw[r], acts, p.t32AW, 32, before, c.at, on);
    }
  }

  lemma WindowStep(window: seq<int>, acts: seq<int>, length: int, size: nat, before: int, now: int, on: bool)
    requires WindowOf(window, acts, length, size, before) && SortedUpTo(acts, before) && before <= now && size > 0
    requires on ==> WindowReady(window, now, size)
    ensures WindowOf(if on then Pushed(window, now, length) else window, acts + (if on then [now] else []), length, size, now)
    ensures SortedUpTo(acts + (if on then [now] else []), now)
  {
    if on {
      WindowAfterPush(window, acts, length, size, before, now);
    } else {
      assert acts + [] == acts;
    }
  }

  lemma {:induction false} WindowsExact(p: Config, h: seq<Issued>, r: int)
    requires Legal(p, h) && 0 <= r < p.ranks
    ensures WindowsMatch(p, After(p, h), Activations(h, r), r, LastTime(h))
    ensures |After(p, h).fourAw| == p.ranks
  {
    AfterShaped(p, h);
    if h != [] {
      var prefix, last := h[..|h| - 1], h[|h| - 1];
      WindowsExact(p, prefix, r);
      WindowsExtend(p, After(p, prefix), last, Activations(prefix, r), r, LastTime(prefix));
    }
  }

  /** The activation test says yes exactly when fewer than 4 (for GDDR, also fewer than 32) activations are recent. */
  lemma ActivationTestExact(p: Config, h: seq<Issued>, r: int, now: int)
    requires Legal(p, h) && 0 <= r < p.ranks && LastTime(h) <= now
    ensures |After(p, h).fourAw| == p.ranks == |After(p, h).thirtyTwoAw|
    ensures ActivationWindowOk(p, After(p, h), r, now) <==>
            Recent(Activations(h, r), p.tFAW, now) < 4 && (p.IsGDDR() ==> Recent(Activations(h, r), p.t32AW, now) < 32)
  {
    WindowsExact(p, h, r);
    WindowReadyExact(After(p, h).fourAw[r], Activations(h, r), p.tFAW, 4, LastTime(h), now);
    if p.IsGDDR() {
      WindowReadyExact(After(p, h).thirtyTwoAw[r], Activations(h, r), p.t32AW, 32, LastTime(h), now);
    }
  }

  /** An activation and the fourth one after it are at least tFAW apart; for GDDR, the 32nd after it at least t32AW. */
  lemma {:induction false} ActivationsSpread(p: Config, h: seq<Issued>, r: int, i: nat)
    requires Legal(p, h) && 0 <= r < p.ranks
    ensures i + 4 < |Activations(h, r)| ==> Activations(h, r)[i + 4] >= Activations(h, r)[i] + p.tFAW
    ensures p.IsGDDR() && i + 32 < |Activations(h, r)| ==> Activations(h, r)[i + 32] >= Activations(h, r)[i] + p.t32AW
  {
    if h != [] {
      var prefix, last := h[..|h| - 1], h[|h| - 1];
      ActivationsSpread(p, prefix, r, i);
      if last.cmd.kind.Activate? && last.cmd.addr.rank == r {
        WindowsExact(p, prefix, r);
        var acts := Activations(prefix, r);
        SpreadStep(After(p, prefix).fourAw[r], acts, p.tFAW, 4, LastTime(prefix), last.at, i);
        if p.IsGDDR() {
          SpreadStep(After(p, prefix).thirtyTwoAw[r], acts, p.t32AW, 32, LastTime(prefix), last.at, i);
        }
      }
    }
  }

  lemma SpreadStep(window: seq<int>, acts: seq<int>, length: int, size: nat, before: int, now: int, i: nat)
    requires WindowOf(window, acts, length, size, before) && SortedUpTo(acts, before) && before <= now && size > 0
    requires WindowReady(window, now, size)
    ensures i + size == |acts| ==> now >= acts[i] + length
  {
    WindowReadyExact(window, acts, length, size, before, now);
    FewRecent(acts, length, size, now);
  }
}
