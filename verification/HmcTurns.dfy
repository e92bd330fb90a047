/** In a logic cycle every waiting link, and every waiting quadrant, has its turn once (src/hmc.cc:465-492, 508-542). */
module HmcTurns {
  import opened Common
  import opened Hmc
  import opened HmcSystem
  import opened Configuration
  import Channel
  import ChannelSteps
  import Scheduler

  /** The queue and age of a position after its turn: its head has gone, or it has waited a cycle longer. */
  ghost predicate HadItsTurn<T>(was: seq<T>, age: int, now: seq<T>, nowAge: int) {
    if was == [] then now == was && nowAge == age
    else (now == was[1..] && nowAge == (if |was| == 1 then 0 else 1)) || (now == was && nowAge == age + 1)
  }

  lemma LinkTakesItsTurn(u: Setup, x: Crossbar, src: int)
    requires |x.linkReq| == |x.linkAge|
    ensures var y := LinkSent(u, x, src);
            |y.linkReq| == |y.linkAge| == |x.linkReq| &&
            forall i | 0 <= i < |x.linkReq| ::
              if i == src then HadItsTurn(x.linkReq[i], x.linkAge[i], y.linkReq[i], y.linkAge[i])
              else y.linkReq[i] == x.linkReq[i] && y.linkAge[i] == x.linkAge[i]
  {
  }

  /** Those listed have had their turn, the others not. */
  ghost predicate TurnsTaken<T>(queue: seq<int>, was: seq<seq<T>>, age: seq<int>, now: seq<seq<T>>, nowAge: seq<int>) {
    |was| == |age| == |now| == |nowAge| &&
    forall i | 0 <= i < |was| ::
      if i in queue then HadItsTurn(was[i], age[i], now[i], nowAge[i]) else now[i] == was[i] && nowAge[i] == age[i]
  }

  lemma {:induction false} LinksTakeTurns(u: Setup, x: Crossbar, queue: seq<int>)
    requires |x.linkReq| == |x.linkAge| && Distinct(queue)
    ensures var y := LinksSent(u, x, queue); TurnsTaken(queue, x.linkReq, x.linkAge, y.linkReq, y.linkAge)
    decreases |queue|
  {
    hide LinkSent, HadItsTurn;
    if queue != [] {
      LinkTakesItsTurn(u, x, queue[0]);
      LinksTakeTurns(u, LinkSent(u, x, queue[0]), queue[1..]);
      assert forall i :: i in queue <==> i == queue[0] || i in queue[1..];
      assert queue[0] !in queue[1..];
    }
  }

  lemma QuadTakesItsTurn(u: Setup, x: Crossbar, src: int)
    requires |x.quadResp| == |x.quadAge|
    ensures var y := QuadAnswered(u, x, src);
            |y.quadResp| == |y.quadAge| == |x.quadResp| &&
            forall i | 0 <= i < |x.quadResp| ::
              if i == src then HadItsTurn(x.quadResp[i], x.quadAge[i], y.quadResp[i], y.quadAge[i])
              else y.quadResp[i] == x.quadResp[i] && y.quadAge[i] == x.quadAge[i]
  {
  }

  lemma {:induction false} QuadsTakeTurns(u: Setup, x: Crossbar, queue: seq<int>)
    requires |x.quadResp| == |x.quadAge| && Distinct(queue)
    ensures var y := QuadsAnswered(u, x, queue); TurnsTaken(queue, x.quadResp, x.quadAge, y.quadResp, y.quadAge)
    decreases |queue|
  {
    hide QuadAnswered, HadItsTurn;
    if queue != [] {
      QuadTakesItsTurn(u, x, queue[0]);
      QuadsTakeTurns(u, QuadAnswered(u, x, queue[0]), queue[1..]);
      assert forall i :: i in queue <==> i == queue[0] || i in queue[1..];
      assert queue[0] !in queue[1..];
    }
  }

  /** The turns go to the positions of positive age, each once. */
  lemma OrderLists(age: seq<int>, logicClk: nat)
    ensures Distinct(Order(age, logicClk)) && forall i :: i in Order(age, logicClk) <==> 0 <= i < |age| && age[i] > 0
  {
    if age != [] {
      AgeQueueLists(age, logicClk % |age|, |age|);
    }
  }

  lemma {:induction false} ServingLeavesLinks(u: Setup, x: Crossbar, i: nat)
    requires |x.quadReq| == 4 == |x.quadResp| && i <= 4
    ensures var y := QuadsServed(u, x, i); y.linkReq == x.linkReq && y.linkAge == x.linkAge && y.logicClk == x.logicClk
  {
    if i > 0 {
      ServingLeavesLinks(u, x, i - 1);
    }
  }

  lemma {:induction false} DeliveringLeavesQuads(x: Crossbar, n: nat)
    requires n <= |x.linkResp|
    ensures var y := AllDelivered(x, n); y.quadResp == x.quadResp && y.quadAge == x.quadAge && y.logicClk == x.logicClk
  {
    if n > 0 {
      DeliveringLeavesQuads(x, n - 1);
    }
  }

  lemma TurnsGoRound<T>(queue: seq<int>, was: seq<seq<T>>, age: seq<int>, now: seq<seq<T>>, nowAge: seq<int>)
    requires TurnsTaken(queue, was, age, now, nowAge) && Aged(was, age) && forall i :: i in queue <==> 0 <= i < |age| && age[i] > 0
    ensures forall i | 0 <= i < |was| :: HadItsTurn(was[i], age[i], now[i], nowAge[i])
  {
  }

  /** When requests move, every link with a request either sends its first one or is a cycle older. */
  lemma EveryLinkHasItsTurn(u: Setup, x: Crossbar)
    requires x in Sound(u)
    ensures var y := RequestsMoved(u, x);
            |x.linkReq| == |x.linkAge| == |y.linkReq| == |y.linkAge| == u.links &&
            forall i | 0 <= i < u.links :: HadItsTurn(x.linkReq[i], x.linkAge[i], y.linkReq[i], y.linkAge[i])
  {
    hide IsSound, HadItsTurn, LinksSent, QuadsServed, Order, Aged;
    SoundShape(u, x);
    ServingLeavesLinks(u, x, 4);
    var queue, y := Order(x.linkAge, x.logicClk), QuadsServed(u, x, 4);
    OrderLists(x.linkAge, x.logicClk);
    LinksTakeTurns(u, y.(quadBusy := Cooled(y.quadBusy)), queue);
    TurnsGoRound(queue, x.linkReq, x.linkAge, RequestsMoved(u, x).linkReq, RequestsMoved(u, x).linkAge);
  }

  /** The same for quadrants with responses. */
  lemma EveryQuadHasItsTurn(u: Setup, x: Crossbar)
    requires x in Sound(u)
    ensures var y := ResponsesMoved(u, x);
            |x.quadResp| == |x.quadAge| == |y.quadResp| == |y.quadAge| == 4 &&
            forall i | 0 <= i < 4 :: HadItsTurn(x.quadResp[i], x.quadAge[i], y.quadResp[i], y.quadAge[i])
  {
    hide IsSound, HadItsTurn, QuadsAnswered, AllDelivered, Order, Aged;
    SoundShape(u, x);
    DeliveringLeavesQuads(x, |x.linkResp|);
    var queue, y := Order(x.quadAge, x.logicClk), AllDelivered(x, |x.linkResp|);
    OrderLists(x.quadAge, x.logicClk);
    QuadsTakeTurns(u, y.(linkBusy := Cooled(y.linkBusy)), queue);
    TurnsGoRound(queue, x.quadResp, x.quadAge, ResponsesMoved(u, x).quadResp, ResponsesMoved(u, x).quadAge);
  }

  // ----- the order of turns

  /** Some position asked before `x`, and listed at `i` or before, is itself below the age of `x`. */
  ghost predicate Outranked(queue: seq<int>, age: seq<int>, start: int, i: int, x: int) {
    0 <= x < |age| && exists k :: 0 <= k <= i && k < |queue| && Offset(queue[k], start, |age|) < Offset(x, start, |age|) && queue[k] < age[x]
  }

  /**
    Of two positions the one asked later comes first exactly when its age exceeds the number of the other, or of
    a position asked before it and listed before the other.
   */
  ghost predicate Arranged(queue: seq<int>, age: seq<int>, start: int) {
    forall i, j | 0 <= i < |queue| && 0 <= j < |queue| && Offset(queue[i], start, |age|) < Offset(queue[j], start, |age|) ::
      j < i <==> Outranked(queue, age, start, i, queue[j])
  }

  /** `queue` with `x` put in at `k`. */
  function With(queue: seq<int>, k: nat, x: int): (now: seq<int>)
    requires k <= |queue|
    ensures |now| == |queue| + 1 && forall i | 0 <= i < |now| :: now[i] == if i < k then queue[i] else if i == k then x else queue[i - 1]
  {
    queue[..k] + [x] + queue[k..]
  }

  lemma StaysArranged(queue: seq<int>, age: seq<int>, start: int, pos: int)
    requires Arranged(queue, age, start) && 0 <= pos < |age| && forall x | x in queue :: Offset(x, start, |age|) < Offset(pos, start, |age|)
    ensures Arranged(Queued(queue, age[pos], pos), age, start)
  {
    hide Offset, With, Outranked;
    if age[pos] > 0 {
      var k := Place(queue, age[pos]);
      var now := With(queue, k, pos);
      assert Queued(queue, age[pos], pos) == now by {
        assert With(queue, k, pos) == queue[..k] + [pos] + queue[k..] by {
          WithIs(queue, k, pos);
        }
      }
      forall i, j | 0 <= i < |now| && 0 <= j < |now| && Offset(now[i], start, |age|) < Offset(now[j], start, |age|)
        ensures j < i <==> Outranked(now, age, start, i, now[j])
      {
        if j == k {
          assert i != k;
          NewcomerArranged(queue, age, start, pos, k, i);
        } else {
          OthersArranged(queue, age, start, pos, k, i, j);
        }
      }
    }
  }

  lemma WithIs(queue: seq<int>, k: nat, x: int)
    requires k <= |queue|
    ensures With(queue, k, x) == queue[..k] + [x] + queue[k..]
  {
  }

  lemma NewcomerArranged(queue: seq<int>, age: seq<int>, start: int, pos: int, k: nat, i: nat)
    requires 0 <= pos < |age| && k == Place(queue, age[pos]) && i <= |queue| && i != k
    requires forall x | x in queue :: Offset(x, start, |age|) < Offset(pos, start, |age|)
    ensures k < i <==> Outranked(With(queue, k, pos), age, start, i, pos)
  {
    hide Offset, Place, Outranked;
    PlaceIs(queue, age[pos]);
    if k < i {
      assert queue[k] in queue;
      NewcomerFirst(queue, age, start, pos, k, i);
    } else {
      NewcomerLast(queue, age, start, pos, k, i);
    }
  }

  lemma NewcomerFirst(queue: seq<int>, age: seq<int>, start: int, pos: int, k: nat, i: nat)
    requires 0 <= pos < |age| && k < i <= |queue| && queue[k] < age[pos] && Offset(queue[k], start, |age|) < Offset(pos, start, |age|)
    ensures Outranked(With(queue, k, pos), age, start, i, pos)
  {
    hide Offset;
    assert With(queue, k, pos)[k + 1] == queue[k];
  }

  lemma NewcomerLast(queue: seq<int>, age: seq<int>, start: int, pos: int, k: nat, i: nat)
    requires 0 <= pos < |age| && i < k <= |queue| && forall j | 0 <= j < k :: queue[j] >= age[pos]
    ensures !Outranked(With(queue, k, pos), age, start, i, pos)
  {
    hide Offset;
    assert forall m | 0 <= m <= i :: With(queue, k, pos)[m] == queue[m];
  }

  lemma PlaceIs(queue: seq<int>, age: int)
    ensures var k := Place(queue, age); k <= |queue| && (k < |queue| ==> queue[k] < age) && forall j | 0 <= j < k :: queue[j] >= age
  {
  }

  lemma OthersArranged(queue: seq<int>, age: seq<int>, start: int, pos: int, k: nat, i: nat, j: nat)
    requires Arranged(queue, age, start) && 0 <= pos < |age| && k <= |queue| && i <= |queue| && j <= |queue| && j != k
    requires forall x | x in queue :: Offset(x, start, |age|) < Offset(pos, start, |age|)
    requires var now := With(queue, k, pos); Offset(now[i], start, |age|) < Offset(now[j], start, |age|)
    ensures var now := With(queue, k, pos); j < i <==> Outranked(now, age, start, i, now[j])
  {
    hide Offset, Outranked;
    var now := With(queue, k, pos);
    assert now[j] in queue;
    assert i != k;
    var a, b := if i < k then i else i - 1, if j < k then j else j - 1;
    assert now[i] == queue[a] && now[j] == queue[b];
    assert b < a <==> j < i;
    SameRank(queue, age, start, pos, k, i, a, now[j]);
  }

  /** Putting in a position asked later than `x` changes nothing for `x`. */
  lemma SameRank(queue: seq<int>, age: seq<int>, start: int, pos: int, k: nat, i: nat, a: nat, x: int)
    requires k <= |queue| && i <= |queue| && i != k && a == (if i < k then i else i - 1)
    requires Offset(x, start, |age|) < Offset(pos, start, |age|)
    ensures Outranked(With(queue, k, pos), age, start, i, x) <==> Outranked(queue, age, start, a, x)
  {
    hide Offset;
    var now := With(queue, k, pos);
    if Outranked(now, age, start, i, x) {
      var m :| 0 <= m <= i && m < |now| && Offset(now[m], start, |age|) < Offset(x, start, |age|) && now[m] < age[x];
      assert m != k && now[m] == queue[if m < k then m else m - 1];
    }
    if Outranked(queue, age, start, a, x) {
      var m :| 0 <= m <= a && m < |queue| && Offset(queue[m], start, |age|) < Offset(x, start, |age|) && queue[m] < age[x];
      assert now[if m < k then m else m + 1] == queue[m];
    }
  }

  lemma {:induction false} AgeQueueIsArranged(age: seq<int>, start: nat, n: nat)
    requires n <= |age| && start < |age|
    ensures Arranged(AgeQueue(age, start, n), age, start)
  {
    hide Turn, Arranged, Queued;
    if n == 0 {
      NothingArranged(age, start);
    } else {
      var pos := Turn(n - 1, start, |age|);
      AgeQueueIsArranged(age, start, n - 1);
      AgeQueueLists(age, start, n - 1);
      WrapAt(n - 1, start, |age|);
      StaysArranged(AgeQueue(age, start, n - 1), age, start, pos);
    }
  }

  lemma NothingArranged(age: seq<int>, start: int)
    ensures Arranged([], age, start)
  {
  }

  /** The order of turns in a logic cycle, which starts asking at the clock's position. */
  lemma TurnsAreArranged(age: seq<int>, logicClk: nat)
    requires age != []
    ensures Arranged(Order(age, logicClk), age, logicClk % |age|)
  {
    AgeQueueIsArranged(age, logicClk % |age|, |age|);
  }

  // ----- the order within a cycle

  /** The head of quadrant `q` goes to a vault that no other quadrant's head goes to. */
  predicate HasVaultAlone(x: Crossbar, q: int) {
    0 <= q < |x.quadReq| && x.quadReq[q] != [] && 0 <= x.quadReq[q][0].vault < |x.vaults| &&
    forall r | 0 <= r < |x.quadReq| && r != q && x.quadReq[r] != [] :: x.quadReq[r][0].vault != x.quadReq[q][0].vault
  }

  predicate MayEnter(u: Setup, x: Crossbar, q: int) {
    0 <= q < |x.quadReq| && x.quadReq[q] != [] && x.quadReq[q][0].exitTime <= x.logicClk && 0 <= x.quadReq[q][0].vault < |x.vaults| &&
    Channel.WillAccept(u.p, x.vaults[x.quadReq[q][0].vault], x.quadReq[q][0].isWrite)
  }

  lemma {:induction false} QuadsServeInTurn(u: Setup, x: Crossbar, i: nat, q: nat)
    requires |x.quadReq| == 4 == |x.quadResp| && i <= 4 && q < 4
    ensures var y := QuadsServed(u, x, i);
            y.quadResp == x.quadResp && y.logicClk == x.logicClk && |y.vaults| == |x.vaults| && (i <= q ==> y.quadReq[q] == x.quadReq[q]) &&
            (i > q && |x.quadResp[q]| >= u.depth ==> y.quadReq[q] == x.quadReq[q]) &&
            (i <= q && HasVaultAlone(x, q) ==> y.vaults[x.quadReq[q][0].vault] == x.vaults[x.quadReq[q][0].vault]) &&
            (i > q && |x.quadResp[q]| < u.depth && MayEnter(u, x, q) && HasVaultAlone(x, q) ==> y.quadReq[q] == x.quadReq[q][1..])
  {
    if i > 0 {
      QuadsServeInTurn(u, x, i - 1, q);
      QuadsServeInTurn(u, x, i - 1, i - 1);
    }
  }

  lemma LinkSends(u: Setup, x: Crossbar, src: int)
    ensures var y := LinkSent(u, x, src);
            y.quadResp == x.quadResp && y.vaults == x.vaults && |y.quadReq| == |x.quadReq| && forall q | 0 <= q < |x.quadReq| :: x.quadReq[q] <= y.quadReq[q]
  {
  }

  lemma {:induction false} SendingAppends(u: Setup, x: Crossbar, queue: seq<int>)
    ensures var y := LinksSent(u, x, queue);
            y.quadResp == x.quadResp && y.vaults == x.vaults && |y.quadReq| == |x.quadReq| && forall q | 0 <= q < |x.quadReq| :: x.quadReq[q] <= y.quadReq[q]
    decreases |queue|
  {
    hide LinkSent;
    if queue != [] {
      LinkSends(u, x, queue[0]);
      SendingAppends(u, LinkSent(u, x, queue[0]), queue[1..]);
    }
  }

  lemma RequestsEnter(u: Setup, x: Crossbar, q: nat)
    requires |x.quadReq| == 4 == |x.quadResp| && q < 4
    ensures var y := RequestsMoved(u, x);
            |y.quadReq| == 4 && y.quadResp == x.quadResp &&
            (|x.quadResp[q]| >= u.depth ==> x.quadReq[q] <= y.quadReq[q]) &&
            (|x.quadResp[q]| < u.depth && MayEnter(u, x, q) && HasVaultAlone(x, q) ==> x.quadReq[q][1..] <= y.quadReq[q])
  {
    hide LinksSent, QuadsServed, MayEnter, HasVaultAlone, Order, Cooled;
    QuadsServeInTurn(u, x, 4, q);
    var y := QuadsServed(u, x, 4);
    SendingAppends(u, y.(quadBusy := Cooled(y.quadBusy)), Order(x.linkAge, x.logicClk));
  }

  lemma {:induction false} DeliveringLeavesRequests(x: Crossbar, n: nat)
    requires n <= |x.linkResp|
    ensures var y := AllDelivered(x, n); y.quadReq == x.quadReq && y.vaults == x.vaults && y.logicClk == x.logicClk && |y.quadResp| == |x.quadResp|
  {
    if n > 0 {
      DeliveringLeavesRequests(x, n - 1);
    }
  }

  lemma {:induction false} AnsweringLeavesRequests(u: Setup, x: Crossbar, queue: seq<int>)
    ensures var y := QuadsAnswered(u, x, queue); y.quadReq == x.quadReq && y.vaults == x.vaults && y.logicClk == x.logicClk && |y.quadResp| == |x.quadResp|
    decreases |queue|
  {
    if queue != [] {
      AnsweringLeavesRequests(u, QuadAnswered(u, x, queue[0]), queue[1..]);
    }
  }

  lemma ResponsesLeaveRequests(u: Setup, x: Crossbar)
    ensures var y := ResponsesMoved(u, x); y.quadReq == x.quadReq && y.vaults == x.vaults && y.logicClk == x.logicClk && |y.quadResp| == |x.quadResp|
  {
    hide AllDelivered, QuadsAnswered, Order;
    DeliveringLeavesRequests(x, |x.linkResp|);
    var y := AllDelivered(x, |x.linkResp|);
    AnsweringLeavesRequests(u, y.(linkBusy := Cooled(y.linkBusy)), Order(x.quadAge, x.logicClk));
  }

  /**
    In a logic cycle responses move first: a quadrant that has room for a response afterwards lets its first
    request in, if that has come through and its vault takes it; one that has none lets nothing in.
   */
  lemma RoomIsMadeFirst(u: Setup, x: Crossbar, q: nat)
    requires |x.quadReq| == 4 == |x.quadResp| && q < 4
    ensures var y := LogicStep(u, x);
            |y.quadReq| == 4 == |y.quadResp| &&
            (|y.quadResp[q]| >= u.depth ==> x.quadReq[q] <= y.quadReq[q]) &&
            (|y.quadResp[q]| < u.depth && MayEnter(u, x, q) && HasVaultAlone(x, q) ==> x.quadReq[q][1..] <= y.quadReq[q])
  {
    hide ResponsesMoved, RequestsMoved;
    ResponsesLeaveRequests(u, x);
    RequestsEnter(u, ResponsesMoved(u, x), q);
  }

  // ----- the vaults' cycle comes in between

  lemma IssueKeepsLog(p: Config, s: Channel.Channel, c: Scheduler.Choice, one: Channel.Channel)
    requires Channel.IssueChoice(p, s, c) == Some(one)
    ensures one.trace.log == s.trace.log && one.clk == s.clk
  {
  }

  lemma SecondKeepsLog(p: Config, s: Channel.Channel, first: Command, two: Channel.Channel)
    requires Channel.IssueSecond(p, s, first) == Some(two)
    ensures two.trace.log == s.trace.log && two.clk == s.clk
  {
    hide Channel.IssueChoice;
    var c := Scheduler.GetCommandToIssue(p, s.dev, s.cq);
    if Channel.IssueChoice(p, s, c) == Some(two) {
      IssueKeepsLog(p, s, c, two);
    }
  }

  /** A vault's cycle takes in no requests. */
  lemma CycleKeepsLog(p: Config, v: Channel.Channel)
    ensures var w := Ticked(p, Channel.DrainDone(v)); w.trace.log == v.trace.log
    ensures Channel.Tick(p, Channel.DrainDone(v)).Some? ==> Ticked(p, Channel.DrainDone(v)).clk == v.clk + 1
  {
    hide Channel.IssueChoice, Channel.IssueSecond, Channel.ChooseFirst, Channel.Schedule;
    if Channel.Tick(p, Channel.DrainDone(v)).Some? {
      var asked := Channel.RefreshTick(p, Channel.DrainDone(v));
      var c := Channel.ChooseFirst(p, asked);
      var one := Channel.IssueChoice(p, asked, c).value;
      IssueKeepsLog(p, asked, c, one);
      if p.dualCommand && c.answer.Ready? {
        SecondKeepsLog(p, one, c.answer.cmd, Channel.IssueAll(p, asked).value);
      }
      ChannelSteps.ScheduleFrame(p, Channel.IssueAll(p, asked).value);
    }
  }

  /** The vaults have taken in nothing but requests at time `at`. */
  ghost predicate TakenAt(was: seq<Channel.Channel>, now: seq<Channel.Channel>, at: int) {
    |now| == |was| && forall v | 0 <= v < |was| ::
      was[v].trace.log <= now[v].trace.log && now[v].clk == was[v].clk &&
      forall k | |was[v].trace.log| <= k < |now[v].trace.log| :: now[v].trace.log[k].at == at
  }

  lemma {:induction false} ServingTakesNow(u: Setup, x: Crossbar, i: nat, at: int)
    requires |x.quadReq| == 4 == |x.quadResp| && i <= 4 && forall v | 0 <= v < |x.vaults| :: x.vaults[v].clk == at
    ensures TakenAt(x.vaults, QuadsServed(u, x, i).vaults, at)
  {
    if i > 0 {
      ServingTakesNow(u, x, i - 1, at);
      var y := QuadsServed(u, x, i - 1);
      if CanEnter(u, y, i - 1) {
        AcceptLogs(u.p, y.vaults[y.quadReq[i - 1][0].vault], y.quadReq[i - 1][0].addr, y.quadReq[i - 1][0].isWrite);
      }
    }
  }

  lemma AcceptLogs(p: Config, v: Channel.Channel, addr: nat, isWrite: bool)
    ensures var w := Channel.Accept(p, v, addr, isWrite); w.clk == v.clk && w.trace.log == v.trace.log + [Channel.Request(addr, isWrite, v.clk)]
  {
  }

  lemma RequestsMovedTakeNow(u: Setup, x: Crossbar, at: int)
    requires |x.quadReq| == 4 == |x.quadResp| && forall v | 0 <= v < |x.vaults| :: x.vaults[v].clk == at
    ensures TakenAt(x.vaults, RequestsMoved(u, x).vaults, at)
  {
    hide LinksSent, QuadsServed, Order, Cooled, TakenAt;
    ServingTakesNow(u, x, 4, at);
    var y := QuadsServed(u, x, 4);
    QuadsServeInTurn(u, x, 4, 0);
    SendingAppends(u, y.(quadBusy := Cooled(y.quadBusy)), Order(x.linkAge, x.logicClk));
  }

  /** Responses that come out of the vaults queue up behind those that wait already. */
  ghost predicate Queueing(was: seq<seq<Response>>, now: seq<seq<Response>>) {
    |now| == |was| && forall q | 0 <= q < |was| :: was[q] <= now[q]
  }

  lemma {:induction false} ReturnsQueueUp(x: Crossbar, ts: seq<Transaction>)
    ensures Queueing(x.quadResp, AllReturned(x, ts).quadResp)
    decreases |ts|
  {
    if ts != [] {
      ReturnsQueueUp(Returned(x, ts[0].addr), ts[1..]);
    }
  }

  lemma {:induction false} VaultsQueueUp(x: Crossbar, n: nat)
    requires n <= |x.vaults|
    ensures Queueing(x.quadResp, VaultsEmptied(x, n).quadResp)
  {
    hide AllReturned;
    if n > 0 {
      VaultsQueueUp(x, n - 1);
      var y := VaultsEmptied(x, n - 1);
      ReturnsQueueUp(VaultOpened(y, n - 1), Channel.Due(y.vaults[n - 1].returnQ, y.vaults[n - 1].clk));
    }
  }

  /** After the vaults' cycle, none has taken in anything new, and all are a cycle on. */
  lemma VaultsGoOn(u: Setup, x: Crossbar)
    requires x in Sound(u)
    ensures var y := DramTicked(u, x);
            |y.vaults| == |x.vaults| && forall v | 0 <= v < |x.vaults| :: y.vaults[v].trace.log == x.vaults[v].trace.log && y.vaults[v].clk == x.clk + 1
  {
    VaultsAfterCycle(u, x);
    VaultsEmptiedAre(x, |x.vaults|);
    var y := DramTicked(u, x);
    forall v | 0 <= v < |x.vaults|
      ensures y.vaults[v].trace.log == x.vaults[v].trace.log && y.vaults[v].clk == x.clk + 1
    {
      assert x.vaults[v] in x.vaults;
      CycleKeepsLog(u.p, x.vaults[v]);
    }
  }

  /**
    When both clocks start a cycle together, the vaults' cycle comes between: responses that leave a vault do not
    cross in the same logic cycle, and requests enter their vault after its cycle.
   */
  lemma VaultsComeBetween(u: Setup, x: Crossbar)
    requires x in Sound(u)
    ensures var y := JointStep(u, x);
            Queueing(ResponsesMoved(u, x).quadResp, y.quadResp) && |y.vaults| == |x.vaults| &&
            forall v, k | 0 <= v < |x.vaults| && |x.vaults[v].trace.log| <= k < |y.vaults[v].trace.log| :: y.vaults[v].trace.log[k].at == x.clk + 1
  {
    hide ResponsesMoved, RequestsMoved, IsSound, DramTicked;
    ResponsesStaySound(u, x);
    var y := ResponsesMoved(u, x);
    var z := DramTicked(u, y);
    ResponsesLeaveRequests(u, x);
    VaultsGoOn(u, y);
    DramTickedIsSound(u, y);
    SoundShape(u, z);
    CycleQueuesUp(u, y);
    RequestsMovedTakeNow(u, z, y.clk + 1);
    RequestsEnter(u, z, 0);
  }

  lemma ResponsesStaySound(u: Setup, x: Crossbar)
    requires x in Sound(u)
    ensures ResponsesMoved(u, x) in Sound(u) && ResponsesMoved(u, x).clk == x.clk
  {
    hide IsSound;
    ResponsesDrainedIsSound(u, x, Order(x.quadAge, x.logicClk));
    DeliveringKeepsClock(x, |x.linkResp|);
    var y := AllDelivered(x, |x.linkResp|);
    AnsweringKeepsClock(u, y.(linkBusy := Cooled(y.linkBusy)), Order(x.quadAge, x.logicClk));
  }

  lemma {:induction false} DeliveringKeepsClock(x: Crossbar, n: nat)
    requires n <= |x.linkResp|
    ensures AllDelivered(x, n).clk == x.clk
  {
    if n > 0 {
      DeliveringKeepsClock(x, n - 1);
    }
  }

  lemma {:induction false} AnsweringKeepsClock(u: Setup, x: Crossbar, queue: seq<int>)
    ensures QuadsAnswered(u, x, queue).clk == x.clk
    decreases |queue|
  {
    if queue != [] {
      AnsweringKeepsClock(u, QuadAnswered(u, x, queue[0]), queue[1..]);
    }
  }

  lemma CycleQueuesUp(u: Setup, x: Crossbar)
    ensures Queueing(x.quadResp, DramTicked(u, x).quadResp)
  {
    VaultsQueueUp(x, |x.vaults|);
  }
}
