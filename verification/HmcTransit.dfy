/**
  How long packets take through the crossbar (src/hmc.cc:444-542): a packet of f flits is on its way for f logic
  cycles, and keeps the other side busy until its flits have drained, two a cycle.
 */
module HmcTransit {
  import opened Common
  import opened Hmc
  import opened HmcSystem
  import Channel

  // ----- one side of the crossbar: a quadrant for requests, a link for responses

  /** How long a packet is, when it has come through, and where it goes. */
  datatype Kind<!T> = Kind(flits: T -> nat, exit: T -> int, to: T -> int)

  const REQUESTS: Kind<Request> := Kind((r: Request) => r.flits, (r: Request) => r.exitTime, (r: Request) => r.quad)

  const RESPONSES: Kind<Response> := Kind((r: Response) => r.flits, (r: Response) => r.exitTime, (r: Response) => r.link)

  /**
    The queue of side `q` holds what crossed to it and has not left yet, in order; nothing left before all its
    flits had come through.
   */
  ghost predicate InTransit<T>(k: Kind<T>, q: int, queue: seq<T>, crossed: seq<Crossing<T>>, left: seq<int>) {
    |left| + |queue| == |crossed| &&
    (forall n | 0 <= n < |crossed| :: k.to(crossed[n].packet) == q) &&
    (forall n | 0 <= n < |left| :: left[n] >= crossed[n].at + k.flits(crossed[n].packet)) &&
    forall n | 0 <= n < |queue| :: queue[n] == crossed[|left| + n].packet && k.exit(queue[n]) == crossed[|left| + n].at + k.flits(queue[n])
  }

  /** Two packets that cross to the same side leave room for the flits of the first, two a cycle. */
  ghost predicate Spaced<T>(k: Kind<T>, crossed: seq<Crossing<T>>) {
    forall a, b | 0 <= a < b < |crossed| ::
      crossed[a].at <= crossed[b].at && 2 * (crossed[b].at - crossed[a].at) >= k.flits(crossed[a].packet)
  }

  /** After `cooled` coolings, one each logic cycle, `busy` is what is left of the last packet's flits. */
  ghost predicate BusyWith<T>(k: Kind<T>, busy: int, crossed: seq<Crossing<T>>, cooled: int) {
    (forall a | 0 <= a < |crossed| :: crossed[a].at < cooled) &&
    if crossed == [] then busy <= 0
    else
      var last := crossed[|crossed| - 1];
      var since := cooled - last.at - 1;
      if busy > 0 then busy == k.flits(last.packet) - 2 * since else k.flits(last.packet) <= 2 * since
  }

  ghost predicate Side<T>(k: Kind<T>, q: int, queue: seq<T>, busy: int, crossed: seq<Crossing<T>>, left: seq<int>, cooled: int) {
    InTransit(k, q, queue, crossed, left) && Spaced(k, crossed) && BusyWith(k, busy, crossed, cooled)
  }

  /** A side is free at a logic cycle exactly when the flits of all that crossed to it have drained. */
  lemma FreeExactly<T>(k: Kind<T>, q: int, queue: seq<T>, busy: int, crossed: seq<Crossing<T>>, left: seq<int>, now: int)
    requires Side(k, q, queue, busy, crossed, left, now + 1)
    ensures busy <= 0 <==> forall n | 0 <= n < |crossed| :: 2 * (now - crossed[n].at) >= k.flits(crossed[n].packet)
  {
    if crossed != [] {
      var m := |crossed| - 1;
      assert forall n | 0 <= n < m :: crossed[n].at <= crossed[m].at && 2 * (crossed[m].at - crossed[n].at) >= k.flits(crossed[n].packet);
    }
  }

  lemma Pushed<T>(k: Kind<T>, q: int, queue: seq<T>, busy: int, crossed: seq<Crossing<T>>, left: seq<int>, now: int, packet: T)
    requires Side(k, q, queue, busy, crossed, left, now + 1) && busy <= 0
    requires k.to(packet) == q && k.exit(packet) == now + k.flits(packet)
    ensures Side(k, q, queue + [packet], k.flits(packet), crossed + [Crossing(packet, now)], left, now + 1)
  {
    FreeExactly(k, q, queue, busy, crossed, left, now);
  }

  lemma Popped<T>(k: Kind<T>, q: int, queue: seq<T>, busy: int, crossed: seq<Crossing<T>>, left: seq<int>, cooled: int, now: int)
    requires Side(k, q, queue, busy, crossed, left, cooled) && queue != [] && k.exit(queue[0]) <= now
    ensures Side(k, q, queue[1..], busy, crossed, left + [now], cooled)
  {
    assert queue[0] == crossed[|left|].packet;
  }

  lemma CooledOnce<T>(k: Kind<T>, q: int, queue: seq<T>, busy: int, crossed: seq<Crossing<T>>, left: seq<int>, cooled: int)
    requires Side(k, q, queue, busy, crossed, left, cooled)
    ensures Side(k, q, queue, if busy > 0 then busy - 2 else busy, crossed, left, cooled + 1)
  {
  }

  // ----- the whole crossbar

  ghost predicate Requesting(x: Crossbar, cooled: int) {
    |x.quadReq| == |x.quadResp| == |x.quadBusy| == |x.passed.crossings| == |x.passed.entries| == 4 &&
    forall q | 0 <= q < 4 :: Side(REQUESTS, q, x.quadReq[q], x.quadBusy[q], x.passed.crossings[q], x.passed.entries[q], cooled)
  }

  ghost predicate Answering(x: Crossbar, cooled: int) {
    |x.linkResp| == |x.linkBusy| == |x.passed.answers| == |x.passed.deliveries| &&
    forall q | 0 <= q < |x.linkResp| :: Side(RESPONSES, q, x.linkResp[q], x.linkBusy[q], x.passed.answers[q], x.passed.deliveries[q], cooled)
  }

  /** What moving requests leaves alone, and what moving responses does. */
  predicate SameAnswers(x: Crossbar, y: Crossbar) {
    y.linkResp == x.linkResp && y.linkBusy == x.linkBusy && y.passed.answers == x.passed.answers && y.passed.deliveries == x.passed.deliveries && y.logicClk == x.logicClk
  }

  predicate SameRequests(x: Crossbar, y: Crossbar) {
    y.quadReq == x.quadReq && y.quadBusy == x.quadBusy && y.passed.crossings == x.passed.crossings && y.passed.entries == x.passed.entries && y.logicClk == x.logicClk &&
    |y.quadResp| == |x.quadResp|
  }

  // ----- requests

  lemma ServedInTransit(u: Setup, x: Crossbar, i: nat, cooled: int)
    requires i < 4 && Requesting(x, cooled)
    ensures Requesting(QuadServed(u, x, i), cooled) && SameAnswers(x, QuadServed(u, x, i))
  {
    hide Side;
    if CanEnter(u, x, i) {
      Popped(REQUESTS, i, x.quadReq[i], x.quadBusy[i], x.passed.crossings[i], x.passed.entries[i], cooled, x.logicClk);
    }
  }

  lemma {:induction false} AllServedInTransit(u: Setup, x: Crossbar, i: nat, cooled: int) returns (y: Crossbar)
    requires i <= 4 && Requesting(x, cooled)
    ensures y == QuadsServed(u, x, i) && Requesting(y, cooled) && SameAnswers(x, y)
  {
    hide Requesting, QuadServed;
    RequestingShape(x, cooled);
    y := x;
    if i > 0 {
      var before := AllServedInTransit(u, x, i - 1, cooled);
      RequestingShape(before, cooled);
      ServedInTransit(u, before, i - 1, cooled);
      y := QuadServed(u, before, i - 1);
    }
  }

  lemma RequestingShape(x: Crossbar, cooled: int)
    requires Requesting(x, cooled)
    ensures |x.quadReq| == 4 == |x.quadResp|
  {
  }

  lemma CooledInTransit(x: Crossbar, cooled: int)
    requires Requesting(x, cooled)
    ensures Requesting(x.(quadBusy := Cooled(x.quadBusy)), cooled + 1)
  {
    hide Side;
    forall q | 0 <= q < 4
      ensures Side(REQUESTS, q, x.quadReq[q], Cooled(x.quadBusy)[q], x.passed.crossings[q], x.passed.entries[q], cooled + 1)
    {
      CooledOnce(REQUESTS, q, x.quadReq[q], x.quadBusy[q], x.passed.crossings[q], x.passed.entries[q], cooled);
    }
  }

  lemma SentInTransit(u: Setup, x: Crossbar, src: int)
    requires Requesting(x, x.logicClk + 1)
    ensures Requesting(LinkSent(u, x, src), x.logicClk + 1) && SameAnswers(x, LinkSent(u, x, src))
  {
    hide Side;
    var y := LinkSent(u, x, src);
    if y.passed.crossings != x.passed.crossings {
      var r := x.linkReq[src][0];
      Pushed(REQUESTS, r.quad, x.quadReq[r.quad], x.quadBusy[r.quad], x.passed.crossings[r.quad], x.passed.entries[r.quad], x.logicClk,
             r.(exitTime := x.logicClk + r.flits));
    }
  }

  lemma {:induction false} AllSentInTransit(u: Setup, x: Crossbar, queue: seq<int>)
    requires Requesting(x, x.logicClk + 1)
    ensures Requesting(LinksSent(u, x, queue), x.logicClk + 1) && SameAnswers(x, LinksSent(u, x, queue))
    decreases |queue|
  {
    hide Requesting, LinkSent;
    if queue != [] {
      SentInTransit(u, x, queue[0]);
      AllSentInTransit(u, LinkSent(u, x, queue[0]), queue[1..]);
    }
  }

  lemma RequestsMoveInTransit(u: Setup, x: Crossbar)
    requires Requesting(x, x.logicClk)
    ensures Requesting(RequestsMoved(u, x), x.logicClk + 1) && SameAnswers(x, RequestsMoved(u, x))
  {
    hide Requesting, Order, QuadsServed, LinksSent, Cooled;
    RequestingShape(x, x.logicClk);
    var y := AllServedInTransit(u, x, 4, x.logicClk);
    CooledInTransit(y, x.logicClk);
    AllSentInTransit(u, y.(quadBusy := Cooled(y.quadBusy)), Order(x.linkAge, x.logicClk));
  }

  // ----- responses

  lemma DeliveredInTransit(x: Crossbar, i: nat, cooled: int)
    requires i < |x.linkResp| && Answering(x, cooled)
    ensures Answering(Delivered(x, i), cooled) && SameRequests(x, Delivered(x, i))
  {
    hide Side;
    if Delivered(x, i) != x {
      Popped(RESPONSES, i, x.linkResp[i], x.linkBusy[i], x.passed.answers[i], x.passed.deliveries[i], cooled, x.logicClk);
    }
  }

  lemma {:induction false} AllDeliveredInTransit(x: Crossbar, n: nat, cooled: int) returns (y: Crossbar)
    requires n <= |x.linkResp| && Answering(x, cooled)
    ensures y == AllDelivered(x, n) && Answering(y, cooled) && SameRequests(x, y)
  {
    hide Answering, Delivered;
    y := x;
    if n > 0 {
      var before := AllDeliveredInTransit(x, n - 1, cooled);
      DeliveredInTransit(before, n - 1, cooled);
      y := Delivered(before, n - 1);
    }
  }

  lemma LinksCooled(x: Crossbar, cooled: int)
    requires Answering(x, cooled)
    ensures Answering(x.(linkBusy := Cooled(x.linkBusy)), cooled + 1)
  {
    hide Side;
    forall q | 0 <= q < |x.linkResp|
      ensures Side(RESPONSES, q, x.linkResp[q], Cooled(x.linkBusy)[q], x.passed.answers[q], x.passed.deliveries[q], cooled + 1)
    {
      CooledOnce(RESPONSES, q, x.linkResp[q], x.linkBusy[q], x.passed.answers[q], x.passed.deliveries[q], cooled);
    }
  }

  lemma CrossedBackInTransit(x: Crossbar, src: nat)
    requires Answering(x, x.logicClk + 1) && src < |x.quadResp| && src < |x.quadAge| && x.quadResp[src] != []
    requires var q := x.quadResp[src][0].link; 0 <= q < |x.linkResp| && x.linkBusy[q] <= 0
    ensures Answering(CrossedBack(x, src), x.logicClk + 1) && SameRequests(x, CrossedBack(x, src))
  {
    hide Side;
    var r := x.quadResp[src][0];
    Pushed(RESPONSES, r.link, x.linkResp[r.link], x.linkBusy[r.link], x.passed.answers[r.link], x.passed.deliveries[r.link], x.logicClk,
           r.(exitTime := x.logicClk + r.flits));
  }

  lemma AnsweredInTransit(u: Setup, x: Crossbar, src: int)
    requires Answering(x, x.logicClk + 1)
    ensures Answering(QuadAnswered(u, x, src), x.logicClk + 1) && SameRequests(x, QuadAnswered(u, x, src))
  {
    hide Side, CrossedBack;
    if 0 <= src < |x.quadResp| && src < |x.quadAge| && x.quadResp[src] != [] {
      var q := x.quadResp[src][0].link;
      if 0 <= q < |x.linkResp| && x.linkBusy[q] <= 0 {
        CrossedBackInTransit(x, src);
      }
    }
  }

  lemma {:induction false} AllAnsweredInTransit(u: Setup, x: Crossbar, queue: seq<int>)
    requires Answering(x, x.logicClk + 1)
    ensures Answering(QuadsAnswered(u, x, queue), x.logicClk + 1) && SameRequests(x, QuadsAnswered(u, x, queue))
    decreases |queue|
  {
    hide Answering, QuadAnswered;
    if queue != [] {
      AnsweredInTransit(u, x, queue[0]);
      AllAnsweredInTransit(u, QuadAnswered(u, x, queue[0]), queue[1..]);
    }
  }

  lemma ResponsesMoveInTransit(u: Setup, x: Crossbar)
    requires Answering(x, x.logicClk)
    ensures Answering(ResponsesMoved(u, x), x.logicClk + 1) && SameRequests(x, ResponsesMoved(u, x))
  {
    hide Answering, Order, AllDelivered, QuadsAnswered, Cooled;
    var y := AllDeliveredInTransit(x, |x.linkResp|, x.logicClk);
    LinksCooled(y, x.logicClk);
    AllAnsweredInTransit(u, y.(linkBusy := Cooled(y.linkBusy)), Order(x.quadAge, x.logicClk));
  }

  // ----- the vaults' cycle touches none of this

  lemma {:induction false} ReturnedFrame(x: Crossbar, ts: seq<Transaction>)
    ensures SameRequests(x, AllReturned(x, ts)) && SameAnswers(x, AllReturned(x, ts))
    decreases |ts|
  {
    if ts != [] {
      ReturnedFrame(Returned(x, ts[0].addr), ts[1..]);
    }
  }

  lemma {:induction false} EmptiedFrame(x: Crossbar, n: nat)
    requires n <= |x.vaults|
    ensures SameRequests(x, VaultsEmptied(x, n)) && SameAnswers(x, VaultsEmptied(x, n))
  {
    hide AllReturned;
    if n > 0 {
      EmptiedFrame(x, n - 1);
      var y := VaultsEmptied(x, n - 1);
      ReturnedFrame(VaultOpened(y, n - 1), Channel.Due(y.vaults[n - 1].returnQ, y.vaults[n - 1].clk));
    }
  }

  lemma DramFrame(u: Setup, x: Crossbar)
    ensures SameRequests(x, DramTicked(u, x)) && SameAnswers(x, DramTicked(u, x))
  {
    EmptiedFrame(x, |x.vaults|);
  }

  // ----- runs

  /** Between logic cycles. */
  ghost predicate AtRest(x: Crossbar) {
    Requesting(x, x.logicClk) && Answering(x, x.logicClk)
  }

  lemma StillRequesting(x: Crossbar, y: Crossbar, cooled: int)
    requires Requesting(x, cooled) && SameRequests(x, y)
    ensures Requesting(y, cooled)
  {
  }

  lemma StillAnswering(x: Crossbar, y: Crossbar, cooled: int)
    requires Answering(x, cooled) && SameAnswers(x, y)
    ensures Answering(y, cooled)
  {
  }

  lemma LogicStepInTransit(u: Setup, x: Crossbar)
    requires AtRest(x)
    ensures AtRest(LogicStep(u, x))
  {
    hide Requesting, Answering, ResponsesMoved, RequestsMoved;
    ResponsesMoveInTransit(u, x);
    var y := ResponsesMoved(u, x);
    StillRequesting(x, y, x.logicClk);
    RequestsMoveInTransit(u, y);
    StillAnswering(y, RequestsMoved(u, y), x.logicClk + 1);
    Tick(RequestsMoved(u, y));
  }

  lemma JointStepInTransit(u: Setup, x: Crossbar)
    requires AtRest(x)
    ensures AtRest(JointStep(u, x))
  {
    hide Requesting, Answering, ResponsesMoved, RequestsMoved, DramTicked;
    ResponsesMoveInTransit(u, x);
    var y := ResponsesMoved(u, x);
    var z := DramTicked(u, y);
    DramFrame(u, y);
    StillRequesting(x, y, x.logicClk);
    StillRequesting(y, z, x.logicClk);
    StillAnswering(y, z, x.logicClk + 1);
    RequestsMoveInTransit(u, z);
    StillAnswering(z, RequestsMoved(u, z), x.logicClk + 1);
    Tick(RequestsMoved(u, z));
  }

  lemma Tick(x: Crossbar)
    requires Requesting(x, x.logicClk + 1) && Answering(x, x.logicClk + 1)
    ensures AtRest(LogicTicked(x))
  {
  }

  lemma {:induction false} LogicStepsInTransit(u: Setup, x: Crossbar, n: int)
    requires AtRest(x)
    ensures AtRest(LogicSteps(u, x, n))
    decreases n
  {
    hide AtRest, LogicStep;
    if n > 0 {
      LogicStepsInTransit(u, x, n - 1);
      LogicStepInTransit(u, LogicSteps(u, x, n - 1));
    }
  }

  lemma SystemStepInTransit(u: Setup, psPerDram: nat, psPerLogic: nat, x: Crossbar)
    requires AtRest(x) && psPerLogic > 0
    ensures AtRest(SystemStep(u, psPerDram, psPerLogic, x))
  {
    hide Requesting, Answering, LogicSteps, JointStep, DramTicked, LogicCycles;
    JointStepInTransit(u, x);
    DramFrame(u, x);
    StillRequesting(x, DramTicked(u, x), x.logicClk);
    StillAnswering(x, DramTicked(u, x), x.logicClk);
    var y := if x.clk * psPerDram == x.logicClk * psPerLogic then JointStep(u, x) else DramTicked(u, x);
    LogicStepsInTransit(u, y, LogicCycles(x.clk + 1, psPerDram, psPerLogic) - y.logicClk);
  }

  /** What a run of the system is made of: requests put in at a link, or refused, with the turn going to `next`; and DRAM cycles. */
  datatype Event = Put(r: Request, link: nat, next: nat) | Refuse(next: nat) | Cycle

  function Run(u: Setup, psPerDram: nat, psPerLogic: nat, es: seq<Event>): Crossbar
    requires psPerLogic > 0
  {
    if es == [] then NewCrossbar(u)
    else
      var x := Run(u, psPerDram, psPerLogic, es[..|es| - 1]);
      match es[|es| - 1]
      case Put(r, link, next) => if link < |x.linkReq| && link < |x.linkAge| then Inserted(x, r, link).(nextLink := next) else x
      case Refuse(next) => x.(nextLink := next)
      case Cycle => SystemStep(u, psPerDram, psPerLogic, x)
  }

  lemma {:induction false} RunsInTransit(u: Setup, psPerDram: nat, psPerLogic: nat, es: seq<Event>)
    requires psPerLogic > 0
    ensures AtRest(Run(u, psPerDram, psPerLogic, es))
  {
    hide SystemStep;
    if es != [] {
      hide AtRest;
      var x := Run(u, psPerDram, psPerLogic, es[..|es| - 1]);
      RunsInTransit(u, psPerDram, psPerLogic, es[..|es| - 1]);
      SystemStepInTransit(u, psPerDram, psPerLogic, x);
      match es[|es| - 1]
      case Put(r, link, next) =>
        if link < |x.linkReq| && link < |x.linkAge| {
          InsertedAtRest(x, r, link, next);
        }
      case Refuse(next) =>
        RefusedAtRest(x, next);
      case Cycle =>
    }
  }

  lemma InsertedAtRest(x: Crossbar, r: Request, link: nat, next: nat)
    requires AtRest(x) && link < |x.linkReq| && link < |x.linkAge|
    ensures AtRest(Inserted(x, r, link).(nextLink := next))
  {
  }

  lemma RefusedAtRest(x: Crossbar, next: nat)
    requires AtRest(x)
    ensures AtRest(x.(nextLink := next))
  {
  }

  // ----- which responses cross first

  /** What crosses back from logic cycle `from` on comes behind what did before. */
  ghost predicate CrossLater(x: Crossbar, y: Crossbar, from: int) {
    |y.passed.answers| == |x.passed.answers| && y.logicClk >= x.logicClk &&
    forall q | 0 <= q < |x.passed.answers| ::
      x.passed.answers[q] <= y.passed.answers[q] &&
      forall n | |x.passed.answers[q]| <= n < |y.passed.answers[q]| :: y.passed.answers[q][n].at >= from
  }

  lemma {:induction false} QuadsCrossNow(u: Setup, x: Crossbar, queue: seq<int>)
    ensures CrossLater(x, QuadsAnswered(u, x, queue), x.logicClk) && QuadsAnswered(u, x, queue).logicClk == x.logicClk
    decreases |queue|
  {
    if queue != [] {
      var y := QuadAnswered(u, x, queue[0]);
      QuadsCrossNow(u, y, queue[1..]);
    }
  }

  lemma {:induction false} DeliveriesCrossNothing(x: Crossbar, n: nat)
    requires n <= |x.linkResp|
    ensures AllDelivered(x, n).passed.answers == x.passed.answers && AllDelivered(x, n).logicClk == x.logicClk
  {
    if n > 0 {
      DeliveriesCrossNothing(x, n - 1);
    }
  }

  lemma ResponsesCrossNow(u: Setup, x: Crossbar)
    ensures CrossLater(x, ResponsesMoved(u, x), x.logicClk) && ResponsesMoved(u, x).logicClk == x.logicClk
  {
    hide AllDelivered, QuadsAnswered, Order;
    DeliveriesCrossNothing(x, |x.linkResp|);
    var y := AllDelivered(x, |x.linkResp|);
    QuadsCrossNow(u, y.(linkBusy := Cooled(y.linkBusy)), Order(x.quadAge, x.logicClk));
  }

  lemma RequestsCrossNothingBack(u: Setup, x: Crossbar)
    requires Requesting(x, x.logicClk)
    ensures RequestsMoved(u, x).passed.answers == x.passed.answers && RequestsMoved(u, x).logicClk == x.logicClk
  {
    RequestsMoveInTransit(u, x);
  }

  lemma LogicStepCrosses(u: Setup, x: Crossbar)
    requires AtRest(x)
    ensures CrossLater(x, LogicStep(u, x), x.logicClk)
  {
    hide Requesting, Answering, ResponsesMoved, RequestsMoved;
    ResponsesCrossNow(u, x);
    ResponsesMoveInTransit(u, x);
    StillRequesting(x, ResponsesMoved(u, x), x.logicClk);
    RequestsCrossNothingBack(u, ResponsesMoved(u, x));
  }

  lemma {:induction false} LogicStepsCross(u: Setup, x: Crossbar, n: int)
    requires AtRest(x)
    ensures CrossLater(x, LogicSteps(u, x, n), x.logicClk)
    decreases n
  {
    hide AtRest, LogicStep, CrossLater;
    if n > 0 {
      LogicStepsCross(u, x, n - 1);
      LogicStepsInTransit(u, x, n - 1);
      LaterIsLater(u, x, LogicSteps(u, x, n - 1));
    } else {
      NothingCrosses(x);
    }
  }

  lemma NothingCrosses(x: Crossbar)
    ensures CrossLater(x, x, x.logicClk)
  {
  }

  lemma LaterIsLater(u: Setup, x: Crossbar, y: Crossbar)
    requires CrossLater(x, y, x.logicClk) && AtRest(y)
    ensures CrossLater(x, LogicStep(u, y), x.logicClk)
  {
    LogicStepCrosses(u, y);
  }

  /**
    When both clocks start a cycle together, what crosses back in that logic cycle had left its vault before; when
    not, what leaves a vault in the DRAM cycle can cross at once.
   */
  lemma VaultsAnswerForTheNextCycle(u: Setup, psPerDram: nat, psPerLogic: nat, x: Crossbar)
    requires AtRest(x) && psPerLogic > 0
    ensures var y := SystemStep(u, psPerDram, psPerLogic, x);
            if x.clk * psPerDram == x.logicClk * psPerLogic then CrossLater(ResponsesMoved(u, x), y, x.logicClk + 1)
            else CrossLater(DramTicked(u, x), y, x.logicClk)
  {
    hide Requesting, Answering, LogicSteps, JointStep, DramTicked, LogicCycles, CrossLater, ResponsesMoved;
    JointStepInTransit(u, x);
    DramFrame(u, x);
    StillRequesting(x, DramTicked(u, x), x.logicClk);
    StillAnswering(x, DramTicked(u, x), x.logicClk);
    var y := if x.clk * psPerDram == x.logicClk * psPerLogic then JointStep(u, x) else DramTicked(u, x);
    LogicStepsCross(u, y, LogicCycles(x.clk + 1, psPerDram, psPerLogic) - y.logicClk);
    if x.clk * psPerDram == x.logicClk * psPerLogic {
      JointStepCrosses(u, x);
      SameCrossings(ResponsesMoved(u, x), y, SystemStep(u, psPerDram, psPerLogic, x));
    }
  }

  lemma JointStepCrosses(u: Setup, x: Crossbar)
    requires AtRest(x)
    ensures JointStep(u, x).passed.answers == ResponsesMoved(u, x).passed.answers && JointStep(u, x).logicClk == x.logicClk + 1
    ensures ResponsesMoved(u, x).logicClk == x.logicClk
  {
    hide Requesting, Answering, ResponsesMoved, RequestsMoved, DramTicked;
    ResponsesMoveInTransit(u, x);
    var y := ResponsesMoved(u, x);
    DramFrame(u, y);
    StillRequesting(x, y, x.logicClk);
    StillRequesting(y, DramTicked(u, y), x.logicClk);
    RequestsCrossNothingBack(u, DramTicked(u, y));
  }

  lemma SameCrossings(w: Crossbar, x: Crossbar, y: Crossbar)
    requires CrossLater(x, y, x.logicClk) && x.passed.answers == w.passed.answers && w.logicClk < x.logicClk
    ensures CrossLater(w, y, x.logicClk)
  {
  }

  // ----- what that means

  /**
    In every run, a request of f flits that crossed to its quadrant at logic cycle c enters its vault at c + f or
    later, in the order of crossing; the next one crosses to the quadrant no sooner than the f flits have drained,
    two a cycle.
   */
  lemma RequestsTakeTheirTime(u: Setup, psPerDram: nat, psPerLogic: nat, es: seq<Event>, q: nat)
    requires psPerLogic > 0 && q < 4
    ensures var x := Run(u, psPerDram, psPerLogic, es);
            |x.quadReq| == |x.passed.crossings| == |x.passed.entries| == 4 && |x.passed.entries[q]| + |x.quadReq[q]| == |x.passed.crossings[q]| &&
            (forall n | 0 <= n < |x.quadReq[q]| :: x.quadReq[q][n] == x.passed.crossings[q][|x.passed.entries[q]| + n].packet) &&
            (forall n | 0 <= n < |x.passed.crossings[q]| :: x.passed.crossings[q][n].packet.quad == q) &&
            (forall n | 0 <= n < |x.passed.entries[q]| :: x.passed.entries[q][n] >= x.passed.crossings[q][n].at + x.passed.crossings[q][n].packet.flits) &&
            forall a, b | 0 <= a < b < |x.passed.crossings[q]| :: 2 * (x.passed.crossings[q][b].at - x.passed.crossings[q][a].at) >= x.passed.crossings[q][a].packet.flits
  {
    hide Run;
    RunsInTransit(u, psPerDram, psPerLogic, es);
    var x := Run(u, psPerDram, psPerLogic, es);
    assert Side(REQUESTS, q, x.quadReq[q], x.quadBusy[q], x.passed.crossings[q], x.passed.entries[q], x.logicClk);
  }

  /** The same for responses: from the crossing to their link to the delivery. */
  lemma ResponsesTakeTheirTime(u: Setup, psPerDram: nat, psPerLogic: nat, es: seq<Event>, q: nat)
    requires psPerLogic > 0 && q < |Run(u, psPerDram, psPerLogic, es).linkResp|
    ensures var x := Run(u, psPerDram, psPerLogic, es);
            |x.linkResp| == |x.passed.answers| == |x.passed.deliveries| && |x.passed.deliveries[q]| + |x.linkResp[q]| == |x.passed.answers[q]| &&
            (forall n | 0 <= n < |x.linkResp[q]| :: x.linkResp[q][n] == x.passed.answers[q][|x.passed.deliveries[q]| + n].packet) &&
            (forall n | 0 <= n < |x.passed.answers[q]| :: x.passed.answers[q][n].packet.link == q) &&
            (forall n | 0 <= n < |x.passed.deliveries[q]| :: x.passed.deliveries[q][n] >= x.passed.answers[q][n].at + x.passed.answers[q][n].packet.flits) &&
            forall a, b | 0 <= a < b < |x.passed.answers[q]| :: 2 * (x.passed.answers[q][b].at - x.passed.answers[q][a].at) >= x.passed.answers[q][a].packet.flits
  {
    hide Run;
    RunsInTransit(u, psPerDram, psPerLogic, es);
    var x := Run(u, psPerDram, psPerLogic, es);
    assert Side(RESPONSES, q, x.linkResp[q], x.linkBusy[q], x.passed.answers[q], x.passed.deliveries[q], x.logicClk);
  }

  /** A quadrant has drained what crossed to it, and has room: then, and only then, a link's head crosses. */
  lemma CrossesExactly(u: Setup, x: Crossbar, src: nat)
    requires Requesting(x, x.logicClk + 1) && src < |x.linkReq| == |x.linkAge| && x.linkReq[src] != [] && 0 <= x.linkReq[src][0].quad < 4
    ensures var r, y := x.linkReq[src][0], LinkSent(u, x, src);
            if |x.quadReq[r.quad]| < u.depth &&
               forall n | 0 <= n < |x.passed.crossings[r.quad]| :: 2 * (x.logicClk - x.passed.crossings[r.quad][n].at) >= x.passed.crossings[r.quad][n].packet.flits
            then y.linkReq[src] == x.linkReq[src][1..] &&
                 y.quadReq[r.quad] == x.quadReq[r.quad] + [r.(exitTime := x.logicClk + r.flits)]
            else y.linkReq == x.linkReq && y.quadReq == x.quadReq
  {
    var q := x.linkReq[src][0].quad;
    FreeExactly(REQUESTS, q, x.quadReq[q], x.quadBusy[q], x.passed.crossings[q], x.passed.entries[q], x.logicClk);
  }

  lemma CrossesBackExactly(u: Setup, x: Crossbar, src: nat)
    requires Answering(x, x.logicClk + 1) && src < |x.quadResp| == |x.quadAge| && x.quadResp[src] != []
    requires 0 <= x.quadResp[src][0].link < |x.linkResp|
    ensures var r, y := x.quadResp[src][0], QuadAnswered(u, x, src);
            if |x.linkResp[r.link]| < u.depth &&
               forall n | 0 <= n < |x.passed.answers[r.link]| :: 2 * (x.logicClk - x.passed.answers[r.link][n].at) >= x.passed.answers[r.link][n].packet.flits
            then y.quadResp[src] == x.quadResp[src][1..] &&
                 y.linkResp[r.link] == x.linkResp[r.link] + [r.(exitTime := x.logicClk + r.flits)]
            else y.quadResp == x.quadResp && y.linkResp == x.linkResp
  {
    var q := x.quadResp[src][0].link;
    FreeExactly(RESPONSES, q, x.linkResp[q], x.linkBusy[q], x.passed.answers[q], x.passed.deliveries[q], x.logicClk);
  }

  /** The head of a quadrant enters its vault exactly when all its flits have come through and there is room for it and its response. */
  lemma EntersExactly(u: Setup, x: Crossbar, q: nat, cooled: int)
    requires Requesting(x, cooled) && q < 4 && x.quadReq[q] != [] && 0 <= x.quadReq[q][0].vault < |x.vaults|
    ensures var r, y, n := x.quadReq[q][0], QuadServed(u, x, q), |x.passed.entries[q]|;
            n < |x.passed.crossings[q]| &&
            if x.logicClk >= x.passed.crossings[q][n].at + r.flits && |x.quadResp[q]| < u.depth && Channel.WillAccept(u.p, x.vaults[r.vault], r.isWrite)
            then y.quadReq[q] == x.quadReq[q][1..] && y.vaults == x.vaults[r.vault := Channel.Accept(u.p, x.vaults[r.vault], r.addr, r.isWrite)]
            else y == x
  {
  }

  /** A link's head is delivered exactly when all its flits have come through. */
  lemma DeliversExactly(x: Crossbar, q: nat, cooled: int)
    requires Answering(x, cooled) && q < |x.linkResp| && x.linkResp[q] != []
    ensures var r, y, n := x.linkResp[q][0], Delivered(x, q), |x.passed.deliveries[q]|;
            n < |x.passed.answers[q]| &&
            if x.logicClk >= x.passed.answers[q][n].at + r.flits then y.linkResp[q] == x.linkResp[q][1..] && y.called == x.called + [r.addr]
            else y == x
  {
  }
}
