/** The HMC memory system as an object with two clocks (src/hmc.h, src/hmc.cc). */
module HmcSystem {
  import opened Common
  import opened Arithmetic
  import opened Totals
  import opened Hmc
  import Channel
  import VaultFlow

  /** `queue` lists the positions of positive age, each once. */
  ghost predicate ListsAged(queue: seq<int>, age: seq<int>) {
    Distinct(queue) && forall x :: x in queue <==> 0 <= x < |age| && age[x] > 0
  }

  /** From `k` on, `queue` lists positions of queues that are not empty, each once. */
  ghost predicate StillToCome<T>(queue: seq<int>, k: nat, queues: seq<seq<T>>) {
    Distinct(queue) && forall i | k <= i < |queue| :: 0 <= queue[i] < |queues| && queues[queue[i]] != []
  }

  lemma AgedAreToCome<T>(queue: seq<int>, age: seq<int>, queues: seq<seq<T>>)
    requires ListsAged(queue, age) && Aged(queues, age)
    ensures StillToCome(queue, 0, queues)
  {
    assert forall i | 0 <= i < |queue| :: queue[i] in queue;
  }

  lemma ComesNow<T>(queue: seq<int>, k: nat, queues: seq<seq<T>>)
    requires StillToCome(queue, k, queues) && k < |queue|
    ensures 0 <= queue[k] < |queues| && queues[queue[k]] != []
  {
  }

  lemma OneLess<T>(queue: seq<int>, k: nat, was: seq<seq<T>>, now: seq<seq<T>>)
    requires StillToCome(queue, k, was) && k < |queue| && |now| == |was| && forall j | 0 <= j < |was| && j != queue[k] :: now[j] == was[j]
    ensures StillToCome(queue, k + 1, now)
  {
  }

  lemma NothingLeft(u: Setup, x: Crossbar, queue: seq<int>)
    requires queue == []
    ensures LinksSent(u, x, queue) == x == QuadsAnswered(u, x, queue)
  {
  }

  lemma OneLinkSent(u: Setup, x: Crossbar, queue: seq<int>, k: nat)
    requires k < |queue|
    ensures LinksSent(u, x, queue[k..]) == LinksSent(u, LinkSent(u, x, queue[k]), queue[k + 1..])
  {
    assert queue[k..][1..] == queue[k + 1..];
  }

  lemma OneQuadAnswered(u: Setup, x: Crossbar, queue: seq<int>, k: nat)
    requires k < |queue|
    ensures QuadsAnswered(u, x, queue[k..]) == QuadsAnswered(u, QuadAnswered(u, x, queue[k]), queue[k + 1..])
  {
    assert queue[k..][1..] == queue[k + 1..];
  }

  /** The order in which waiting positions take their turn at a logic cycle. */
  function Order(age: seq<int>, logicClk: nat): seq<int> {
    if age == [] then [] else AgeQueue(age, logicClk % |age|, |age|)
  }

  /** Responses move on, the quadrants in their order. */
  function ResponsesMoved(u: Setup, x: Crossbar): Crossbar {
    ResponsesDrained(u, x, Order(x.quadAge, x.logicClk))
  }

  /** Requests move on, the links in their order. */
  function RequestsMoved(u: Setup, x: Crossbar): Crossbar {
    if |x.quadReq| == 4 == |x.quadResp| then RequestsDrained(u, x, Order(x.linkAge, x.logicClk)) else x
  }

  function LogicTicked(x: Crossbar): Crossbar {
    x.(logicClk := x.logicClk + 1)
  }

  /** A logic cycle: responses before requests. */
  function LogicStep(u: Setup, x: Crossbar): Crossbar {
    LogicTicked(RequestsMoved(u, ResponsesMoved(u, x)))
  }

  /** A logic cycle with a DRAM cycle between responses and requests. */
  function JointStep(u: Setup, x: Crossbar): Crossbar {
    LogicTicked(RequestsMoved(u, DramTicked(u, ResponsesMoved(u, x))))
  }

  /** `n` logic cycles, one after the other. */
  function LogicSteps(u: Setup, x: Crossbar, n: int): Crossbar
    decreases n
  {
    if n <= 0 then x else LogicStep(u, LogicSteps(u, x, n - 1))
  }

  /** The logic cycles begun before the end of `n` DRAM cycles. */
  function LogicCycles(n: int, psPerDram: nat, psPerLogic: nat): int
    requires psPerLogic > 0
  {
    (n * psPerDram + psPerLogic - 1) / psPerLogic
  }

  /**
    A DRAM cycle, with a logic cycle around it when both clocks start it together, then logic cycles alone until
    the logic has caught up.
   */
  function SystemStep(u: Setup, psPerDram: nat, psPerLogic: nat, x: Crossbar): Crossbar
    requires psPerLogic > 0
  {
    var y := if x.clk * psPerDram == x.logicClk * psPerLogic then JointStep(u, x) else DramTicked(u, x);
    LogicSteps(u, y, LogicCycles(x.clk + 1, psPerDram, psPerLogic) - y.logicClk)
  }

  /**
    Picoseconds of a logic cycle: what the speed of the logic makes of them, but never more than a DRAM cycle; and
    zero for a logic faster than 1000000 MHz.
   */
  method SetClockRatio(linkWidth: nat, linkSpeed: nat, psPerDram: nat) returns (psPerLogic: nat)
    requires 0 < linkWidth <= 128 && linkSpeed >= 128 / linkWidth > 0
    ensures 1000000 / (linkSpeed / (128 / linkWidth)) <= psPerDram ==> psPerLogic == 1000000 / (linkSpeed / (128 / linkWidth))
    ensures 1000000 / (linkSpeed / (128 / linkWidth)) > psPerDram ==> psPerLogic == psPerDram
    ensures psPerDram > 0 ==> (psPerLogic > 0 <==> linkSpeed / (128 / linkWidth) <= 1000000)
  {
    var linkCyclesPerFlit := 128 / linkWidth;
    var logicSpeed := linkSpeed / linkCyclesPerFlit;
    LogicRuns(linkSpeed, linkCyclesPerFlit);
    MegahertzToPicoseconds(logicSpeed);
    psPerLogic := 1000000 / logicSpeed;
    if psPerLogic > psPerDram {
      psPerLogic := psPerDram;
    }
  }

  lemma LogicRuns(speed: nat, cycles: nat)
    requires speed >= cycles > 0
    ensures speed / cycles > 0
  {
  }

  lemma MegahertzToPicoseconds(speed: nat)
    requires speed > 0
    ensures 1000000 / speed > 0 <==> speed <= 1000000
  {
  }

  /** With the logic ahead of the DRAM by less than a logic cycle, its cycle count is the DRAM time in logic cycles, rounded up. */
  lemma ClocksStayLocked(n: nat, psPerDram: nat, psPerLogic: nat, logicClk: nat)
    requires psPerLogic > 0 && n * psPerDram <= logicClk * psPerLogic < n * psPerDram + psPerLogic
    ensures logicClk == LogicCycles(n, psPerDram, psPerLogic)
  {
    var ahead := logicClk * psPerLogic - n * psPerDram;
    QuotientUnique(n * psPerDram + psPerLogic - 1, psPerLogic, logicClk, psPerLogic - 1 - ahead);
  }

  class HMCMemorySystem {
    const u: Setup
    const psPerDram: nat
    const psPerLogic: nat
    var linkReq: seq<seq<Request>>
    var linkResp: seq<seq<Response>>
    var quadReq: seq<seq<Request>>
    var quadResp: seq<seq<Response>>
    var linkBusy: seq<int>
    var quadBusy: seq<int>
    var linkAge: seq<int>
    var quadAge: seq<int>
    var nextLink: nat
    // a multimap: the responses of an address in the order of insertion
    var lookup: map<int, seq<Response>>
    var vaults: seq<Channel.Channel>
    var clk: int
    var logicClk: nat
    var logicPs: nat
    var dramPs: nat
    // requests taken in and calls back made, for the record
    ghost var inserted: seq<int>
    ghost var called: seq<int>
    // packets that passed the crossbar, for the record
    ghost var passed: Passages

    ghost function State(): Crossbar
      reads this
    {
      Crossbar(linkReq, linkResp, quadReq, quadResp, linkBusy, quadBusy, linkAge, quadAge, nextLink, lookup, vaults, clk, logicClk, inserted, called, passed)
    }

    /** The logic clock is where the DRAM clock is, or ahead by less than a logic cycle. */
    ghost predicate InStep()
      reads this
    {
      0 < psPerLogic <= psPerDram && clk >= 0 && dramPs == clk * psPerDram && logicPs == logicClk * psPerLogic &&
      dramPs <= logicPs < dramPs + psPerLogic
    }

    constructor (u: Setup, psPerLogic: nat)
      requires Hmc.Usable(u) && 0 < psPerLogic <= 800
      ensures State() in Sound(u) && InStep() && this.u == u && this.psPerLogic == psPerLogic && psPerDram == 800
      ensures State() == NewCrossbar(u)
    {
      this.u, this.psPerLogic, psPerDram := u, psPerLogic, 800;
      linkReq, linkResp := seq(u.links, _ => []), seq(u.links, _ => []);
      quadReq, quadResp := [[], [], [], []], [[], [], [], []];
      linkBusy, linkAge, quadBusy, quadAge := seq(u.links, _ => 0), seq(u.links, _ => 0), [0, 0, 0, 0], [0, 0, 0, 0];
      nextLink, lookup, clk, logicClk, logicPs, dramPs := 0, map[], 0, 0, 0, 0;
      vaults := seq(u.p.channels, _ => Channel.NewChannel(u.p));
      inserted, called := [], [];
      passed := Passages([[], [], [], []], [[], [], [], []], seq(u.links, _ => []), seq(u.links, _ => []));
      new;
      NewIsSound(u, State());
    }

    // ----- inserting requests

    method WillAcceptTransaction() returns (insertable: bool)
      requires |linkReq| == u.links
      ensures insertable <==> exists l | 0 <= l < u.links :: |linkReq[l]| < u.depth
    {
      insertable := false;
      var l := 0;
      while l < u.links
        invariant 0 <= l <= u.links && !insertable && forall k | 0 <= k < l :: |linkReq[k]| >= u.depth
      {
        if |linkReq[l]| < u.depth {
          insertable := true;
          break;
        }
        l := l + 1;
      }
    }

    method InsertReqToLink(r: Request, link: nat) returns (ok: bool)
      requires link < |linkReq| == |linkAge|
      modifies `linkReq, `lookup, `linkAge, `inserted
      ensures ok == (|old(linkReq)[link]| < u.depth)
      ensures State() == if ok then Inserted(old(State()), r, link) else old(State())
      ensures ok ==> linkReq == old(linkReq)[link := old(linkReq)[link] + [r.(link := link)]] && linkAge == old(linkAge)[link := 1]
      ensures ok ==> lookup == old(lookup)[r.addr as int := (if r.addr as int in old(lookup) then old(lookup)[r.addr] else []) +
                                                            [Response(r.addr, r.readReply, link, r.quad, r.replyFlits, 0)]]
    {
      ok := |linkReq[link]| < u.depth;
      if ok {
        linkReq := linkReq[link := linkReq[link] + [r.(link := link)]];
        lookup := Entered(lookup, ReplyTo(r, link));
        linkAge := linkAge[link := 1];
        inserted := inserted + [r.addr];
      }
    }

    method IterateNextLink()
      requires nextLink < u.links
      modifies `nextLink
      ensures nextLink == if old(nextLink) + 1 == u.links then 0 else old(nextLink) + 1
    {
      if nextLink + 1 < u.links {
        QuotientUnique(nextLink + 1, u.links, 0, nextLink + 1);
      } else {
        QuotientUnique(nextLink + 1, u.links, 1, 0);
      }
      nextLink := (nextLink + 1) % u.links;
    }

    /** Tries the link in turn, and turns to the next one either way. */
    method TryNextLink(r: Request) returns (ok: bool)
      requires nextLink < u.links == |linkReq| == |linkAge|
      modifies `linkReq, `lookup, `linkAge, `inserted, `nextLink
      ensures ok == (|old(linkReq)[old(nextLink)]| < u.depth)
      ensures nextLink == if old(nextLink) + 1 == u.links then 0 else old(nextLink) + 1
      ensures State() == (if ok then Inserted(old(State()), r, old(nextLink)) else old(State())).(nextLink := nextLink)
    {
      ok := InsertReqToLink(r, nextLink);
      IterateNextLink();
    }

    /**
      Inserts into the first link with room, from the next in turn on. Insertion succeeds exactly when some link
      has room, and touches no other link.
     */
    method InsertHMCReq(r: Request) returns (ok: bool, ghost link: nat)
      requires nextLink < u.links == |linkReq| == |linkAge|
      modifies `linkReq, `lookup, `linkAge, `inserted, `nextLink
      ensures ok <==> exists l | 0 <= l < u.links :: |old(linkReq)[l]| < u.depth
      ensures nextLink < u.links && link < u.links
      ensures State() == (if ok then Inserted(old(State()), r, link) else old(State())).(nextLink := nextLink)
      ensures forall l | 0 <= l < u.links && Offset(l, old(nextLink), u.links) < Offset(link, old(nextLink), u.links) :: |old(linkReq)[l]| >= u.depth
    {
      var startLink := nextLink;
      link := nextLink;
      ok := TryNextLink(r);
      ghost var k := 1;
      while !ok && startLink != nextLink
        invariant 1 <= k <= u.links && link < u.links && Offset(link, startLink, u.links) == k - 1 && ok == (|old(linkReq)[link]| < u.depth)
        invariant nextLink == if startLink + k < u.links then startLink + k else startLink + k - u.links
        invariant forall l | 0 <= l < u.links && Offset(l, startLink, u.links) < k - 1 :: |old(linkReq)[l]| >= u.depth
        invariant State() == (if ok then Inserted(old(State()), r, link) else old(State())).(nextLink := nextLink)
        decreases u.links - k
      {
        link := nextLink;
        ok := TryNextLink(r);
        k := k + 1;
      }
    }

    /**
      The interface shared with other protocols; None where the program aborts for an unknown block size. The
      request made of the block size goes to the first link with room from the next in turn on, and its response
      to the table, or nothing but the turn changes.
     */
    method AddTransaction(addr: nat, isWrite: bool, blockSize: nat, vault: nat) returns (ok: Option<bool>, ghost link: nat)
      requires State() in Sound(u) && vault < u.p.channels
      modifies `linkReq, `lookup, `linkAge, `inserted, `nextLink
      ensures State() in Sound(u) && (ok.None? <==> blockSize !in {0, 32, 64, 128, 256})
      ensures ok.None? ==> State() == old(State())
      ensures ok.Some? ==> (ok.value <==> exists l | 0 <= l < u.links :: |old(linkReq)[l]| < u.depth)
      ensures ok.Some? ==>
                link < u.links && PlainRequest(addr, isWrite, blockSize, vault).Some? &&
                State() == (if ok.value then Inserted(old(State()), PlainRequest(addr, isWrite, blockSize, vault).value, link)
                            else old(State())).(nextLink := nextLink) &&
                forall l | 0 <= l < u.links && Offset(l, old(nextLink), u.links) < Offset(link, old(nextLink), u.links) :: |old(linkReq)[l]| >= u.depth
    {
      link := 0;
      var r := PlainRequest(addr, isWrite, blockSize, vault);
      if r.None? {
        return None, link;
      }
      ghost var x := State();
      var placed;
      placed, link := InsertHMCReq(r.value);
      InsertionIsSound(u, x, State(), r.value, link, placed);
      ok := Some(placed);
    }

    // ----- requests on their way to the vaults

    method ServeQuad(i: nat)
      requires State() in Sound(u) && i < 4
      modifies `quadReq, `vaults, `passed
      ensures State() in Sound(u) && State() == QuadServed(u, old(State()), i)
    {
      hide Noted;
      QuadServedIsSound(u, State(), i);
      if quadReq[i] != [] && |quadResp[i]| < u.depth {
        var r := quadReq[i][0];
        assert quadReq[i] in quadReq && r in quadReq[i];
        if r.exitTime <= logicClk {
          if Channel.WillAccept(u.p, vaults[r.vault], r.isWrite) {
            vaults := vaults[r.vault := Channel.Accept(u.p, vaults[r.vault], r.addr, r.isWrite)];
            quadReq := quadReq[i := quadReq[i][1..]];
            passed := passed.(entries := Noted(passed.entries, i, logicClk));
          }
        }
      }
    }

    method CrossToQuad(src: nat)
      requires src < |linkReq| == |linkAge| && linkReq[src] != [] && 0 <= linkReq[src][0].quad < |quadReq| == |quadBusy|
      modifies `linkReq, `quadReq, `quadBusy, `linkAge, `passed
      ensures State() == Crossed(old(State()), src)
    {
      var r := linkReq[src][0];
      var sent := r.(exitTime := logicClk + r.flits);
      linkReq := linkReq[src := linkReq[src][1..]];
      quadReq := quadReq[r.quad := quadReq[r.quad] + [sent]];
      passed := passed.(crossings := Noted(passed.crossings, r.quad, Crossing(sent, logicClk)));
      quadBusy := quadBusy[r.quad := r.flits];
      linkAge := linkAge[src := if linkReq[src] == [] then 0 else 1];
    }

    method SendLink(src: nat)
      requires src < |linkReq| == |linkAge| && linkReq[src] != [] && 0 <= linkReq[src][0].quad < |quadReq| == |quadBusy|
      modifies `linkReq, `quadReq, `quadBusy, `linkAge, `passed
      ensures State() == LinkSent(u, old(State()), src)
    {
      hide Crossed;
      var destQuad := linkReq[src][0].quad;
      if |quadReq[destQuad]| < u.depth && quadBusy[destQuad] <= 0 {
        CrossToQuad(src);
      } else {
        linkAge := linkAge[src := linkAge[src] + 1];
      }
    }

    method SendSoundly(src: nat)
      requires State() in Sound(u) && src < u.links && linkReq[src] != []
      modifies `linkReq, `quadReq, `quadBusy, `linkAge, `passed
      ensures State() in Sound(u) && State() == LinkSent(u, old(State()), src)
    {
      LinkSentIsSound(u, State(), src);
      assert linkReq[src] in linkReq && linkReq[src][0] in linkReq[src];
      SendLink(src);
    }

    method Cool(busy: seq<int>) returns (now: seq<int>)
      ensures now == Cooled(busy)
    {
      now := [];
      var i := 0;
      while i < |busy|
        invariant 0 <= i <= |busy| && now == Cooled(busy)[..i]
      {
        now := now + [if busy[i] > 0 then busy[i] - 2 else busy[i]];
        i := i + 1;
      }
    }

    method ServeQuads()
      requires State() in Sound(u)
      modifies `quadReq, `vaults, `passed
      ensures State() in Sound(u) && State() == QuadsServed(u, old(State()), 4)
    {
      hide IsSound;
      SoundShape(u, State());
      var i := 0;
      while i < 4
        invariant 0 <= i <= 4 && State() in Sound(u) && State() == QuadsServed(u, old(State()), i)
      {
        ServeQuad(i);
        i := i + 1;
      }
    }

    /** Links send in the order of `queue`; none of them is empty when its turn comes. */
    method SendLinks(queue: seq<int>)
      requires State() in Sound(u) && ListsAged(queue, linkAge)
      modifies `linkReq, `quadReq, `quadBusy, `linkAge, `passed
      ensures State() in Sound(u) && State() == LinksSent(u, old(State()), queue)
    {
      hide IsSound, LinkSent, LinksSent, StillToCome;
      SoundShape(u, State());
      AgedAreToCome(queue, linkAge, linkReq);
      assert queue[0..] == queue;
      var k := 0;
      while k < |queue|
        invariant 0 <= k <= |queue| && State() in Sound(u) && LinksSent(u, State(), queue[k..]) == LinksSent(u, old(State()), queue)
        invariant |linkReq| == u.links && StillToCome(queue, k, linkReq)
      {
        ghost var x := State();
        OtherLinksStay(u, x, queue[k]);
        OneLinkSent(u, x, queue, k);
        ComesNow(queue, k, linkReq);
        SendSoundly(queue[k]);
        OneLess(queue, k, x.linkReq, linkReq);
        k := k + 1;
      }
      NothingLeft(u, State(), queue[k..]);
    }

    method DrainRequests()
      requires State() in Sound(u)
      modifies `quadReq, `vaults, `linkReq, `quadBusy, `linkAge, `passed
      ensures State() in Sound(u) && State() == RequestsMoved(u, old(State()))
    {
      hide IsSound;
      SoundShape(u, State());
      ServeQuads();
      SoundShape(u, State());
      var cooled := Cool(quadBusy);
      BusyIsFree(u, State(), cooled, linkBusy);
      quadBusy := cooled;
      var ageQueue := BuildAgeQueue(linkAge, logicClk);
      SendLinks(ageQueue);
    }

    // ----- responses on their way back

    method Deliver(i: nat)
      requires State() in Sound(u) && i < u.links
      modifies `linkResp, `called, `passed
      ensures State() in Sound(u) && State() == Delivered(old(State()), i)
    {
      DeliveredIsSound(u, State(), i);
      if linkResp[i] != [] {
        if linkResp[i][0].exitTime <= logicClk {
          called := called + [linkResp[i][0].addr];
          linkResp := linkResp[i := linkResp[i][1..]];
          passed := passed.(deliveries := Noted(passed.deliveries, i, logicClk));
        }
      }
    }

    method DeliverAll()
      requires State() in Sound(u)
      modifies `linkResp, `called, `passed
      ensures State() in Sound(u) && State() == AllDelivered(old(State()), u.links)
    {
      hide IsSound;
      SoundShape(u, State());
      var i := 0;
      while i < u.links
        invariant 0 <= i <= u.links && State() in Sound(u) && |old(State()).linkResp| == u.links && State() == AllDelivered(old(State()), i)
      {
        Deliver(i);
        i := i + 1;
      }
    }

    method CrossToLink(src: nat)
      requires src < |quadResp| == |quadAge| && quadResp[src] != [] && 0 <= quadResp[src][0].link < |linkResp| == |linkBusy|
      modifies `quadResp, `linkResp, `linkBusy, `quadAge, `passed
      ensures State() == CrossedBack(old(State()), src)
    {
      var r := quadResp[src][0];
      var sent := r.(exitTime := logicClk + r.flits);
      quadResp := quadResp[src := quadResp[src][1..]];
      linkResp := linkResp[r.link := linkResp[r.link] + [sent]];
      passed := passed.(answers := Noted(passed.answers, r.link, Crossing(sent, logicClk)));
      linkBusy := linkBusy[r.link := r.flits];
      quadAge := quadAge[src := if quadResp[src] == [] then 0 else 1];
    }

    method AnswerQuad(src: nat)
      requires src < |quadResp| == |quadAge| && quadResp[src] != [] && 0 <= quadResp[src][0].link < |linkResp| == |linkBusy|
      modifies `quadResp, `linkResp, `linkBusy, `quadAge, `passed
      ensures State() == QuadAnswered(u, old(State()), src)
    {
      hide CrossedBack;
      var destLink := quadResp[src][0].link;
      if |linkResp[destLink]| < u.depth && linkBusy[destLink] <= 0 {
        CrossToLink(src);
      } else {
        quadAge := quadAge[src := quadAge[src] + 1];
      }
    }

    method AnswerSoundly(src: nat)
      requires State() in Sound(u) && src < 4 && quadResp[src] != []
      modifies `quadResp, `linkResp, `linkBusy, `quadAge, `passed
      ensures State() in Sound(u) && State() == QuadAnswered(u, old(State()), src)
    {
      QuadAnsweredIsSound(u, State(), src);
      assert quadResp[src] in quadResp && quadResp[src][0] in quadResp[src];
      AnswerQuad(src);
    }

    method AnswerQuads(queue: seq<int>)
      requires State() in Sound(u) && ListsAged(queue, quadAge)
      modifies `quadResp, `linkResp, `linkBusy, `quadAge, `passed
      ensures State() in Sound(u) && State() == QuadsAnswered(u, old(State()), queue)
    {
      hide IsSound, QuadAnswered, QuadsAnswered, StillToCome;
      SoundShape(u, State());
      AgedAreToCome(queue, quadAge, quadResp);
      assert queue[0..] == queue;
      var k := 0;
      while k < |queue|
        invariant 0 <= k <= |queue| && State() in Sound(u) && QuadsAnswered(u, State(), queue[k..]) == QuadsAnswered(u, old(State()), queue)
        invariant |quadResp| == 4 && StillToCome(queue, k, quadResp)
      {
        ghost var x := State();
        OtherQuadsStay(u, x, queue[k]);
        OneQuadAnswered(u, x, queue, k);
        ComesNow(queue, k, quadResp);
        AnswerSoundly(queue[k]);
        OneLess(queue, k, x.quadResp, quadResp);
        k := k + 1;
      }
      NothingLeft(u, State(), queue[k..]);
    }

    method DrainResponses()
      requires State() in Sound(u)
      modifies `linkResp, `called, `quadResp, `linkBusy, `quadAge, `passed
      ensures State() in Sound(u) && State() == ResponsesMoved(u, old(State()))
    {
      hide IsSound;
      DeliverAll();
      SoundShape(u, State());
      var cooled := Cool(linkBusy);
      BusyIsFree(u, State(), quadBusy, cooled);
      linkBusy := cooled;
      var ageQueue := BuildAgeQueue(quadAge, logicClk);
      AnswerQuads(ageQueue);
    }

    // ----- the vaults' cycle

    /** A vault is done with a request: its response is found by the address, always. */
    method VaultCallback(ghost ts: seq<Transaction>, addr: nat)
      requires State() in Owed(u, ts) && ts != [] && addr == ts[0].addr
      modifies `lookup, `quadResp, `quadAge
      ensures State() in Owed(u, ts[1..]) && State() == Returned(old(State()), addr)
      ensures addr as int in old(lookup) && old(lookup)[addr] != [] &&
              var r := old(lookup)[addr][0];
              0 <= r.quad < |old(quadResp)| == |old(quadAge)| && quadResp == old(quadResp)[r.quad := old(quadResp)[r.quad] + [r]] && quadAge == old(quadAge)[r.quad := 1] &&
              lookup == if |old(lookup)[addr]| == 1 then old(lookup) - {addr as int} else old(lookup)[addr as int := old(lookup)[addr][1..]]
    {
      ReturnedIsSound(u, State(), ts);
      TabledAt(lookup, addr, u.links);
      var resp := lookup[addr][0];
      lookup := Struck(lookup, addr);
      quadResp := quadResp[resp.quad := quadResp[resp.quad] + [resp]];
      quadAge := quadAge[resp.quad := 1];
    }

    method EmptyVault(i: nat)
      requires State() in Owed(u, []) && i < u.p.channels
      modifies `lookup, `quadResp, `quadAge, `vaults
      ensures State() in Owed(u, []) && State() == VaultEmptied(old(State()), i)
    {
      VaultOpenedIsSound(u, State(), i);
      var due := Channel.Due(vaults[i].returnQ, vaults[i].clk);
      vaults := vaults[i := Channel.DrainDone(vaults[i])];
      var k := 0;
      assert due[0..] == due;
      while k < |due|
        invariant 0 <= k <= |due| && State() in Owed(u, due[k..]) && AllReturned(State(), due[k..]) == VaultEmptied(old(State()), i)
      {
        assert due[k..][1..] == due[k + 1..];
        VaultCallback(due[k..], due[k].addr);
        k := k + 1;
      }
    }

    method EmptyVaults()
      requires State() in Owed(u, [])
      modifies `lookup, `quadResp, `quadAge, `vaults
      ensures State() in Owed(u, []) && |old(State()).vaults| == u.p.channels && State() == VaultsEmptied(old(State()), u.p.channels)
    {
      hide IsOwed, VaultEmptied;
      OwedShape(u, State());
      var i := 0;
      while i < u.p.channels
        invariant 0 <= i <= u.p.channels && State() in Owed(u, []) && |old(State()).vaults| == u.p.channels
        invariant State() == VaultsEmptied(old(State()), i)
      {
        EmptyVault(i);
        i := i + 1;
      }
    }

    method TickVaults(ghost y: Crossbar)
      requires y == State() && forall i | 0 <= i < |vaults| :: Channel.Tick(u.p, vaults[i]).Some?
      modifies `vaults, `clk
      ensures State() == VaultsTicked(u, y)
    {
      var i := 0;
      while i < |vaults|
        invariant 0 <= i <= |vaults| == |y.vaults| && clk == y.clk
        invariant forall j | 0 <= j < |vaults| :: vaults[j] == if j < i then Ticked(u.p, y.vaults[j]) else y.vaults[j]
      {
        assert Channel.Tick(u.p, y.vaults[i]).Some?;
        vaults := vaults[i := Channel.Tick(u.p, vaults[i]).value];
        i := i + 1;
      }
      clk := clk + 1;
      assert vaults == VaultsTicked(u, y).vaults;
    }

    /** All vaults call back what is due, then go through a cycle; none fails. */
    method DRAMClockTick()
      requires State() in Sound(u)
      modifies `lookup, `quadResp, `quadAge, `vaults, `clk
      ensures State() in Sound(u) && State() == DramTicked(u, old(State())) && clk == old(clk) + 1
    {
      ghost var x := State();
      DramTickedIsSound(u, x);
      VaultsAfterCycle(u, x);
      OwesNothing(u, x);
      EmptyVaults();
      TickVaults(State());
    }

    // ----- two clocks

    method LogicTick()
      requires logicPs == logicClk * psPerLogic
      modifies `logicPs, `logicClk
      ensures State() == old(State()).(logicClk := old(logicClk) + 1)
      ensures logicPs == old(logicPs) + psPerLogic && logicPs == logicClk * psPerLogic
    {
      OneMore(logicClk, psPerLogic);
      logicPs := logicPs + psPerLogic;
      logicClk := logicClk + 1;
    }

    /** A logic cycle on its own. */
    method LogicCycle()
      requires State() in Sound(u) && logicPs == logicClk * psPerLogic
      modifies `linkResp, `called, `quadResp, `linkBusy, `quadAge, `quadReq, `vaults, `linkReq, `quadBusy, `linkAge, `logicPs, `logicClk, `passed
      ensures State() in Sound(u) && State() == LogicStep(u, old(State())) && logicClk == old(logicClk) + 1
      ensures logicPs == old(logicPs) + psPerLogic && logicPs == logicClk * psPerLogic
    {
      hide IsSound, ResponsesMoved, RequestsMoved;
      DrainResponses();
      DrainRequests();
      LogicIsFree(u, State());
      LogicTick();
    }

    method JointCycle()
      requires State() in Sound(u) && logicPs == logicClk * psPerLogic
      modifies `linkResp, `called, `quadResp, `linkBusy, `quadAge, `quadReq, `vaults, `linkReq, `quadBusy, `linkAge, `logicPs, `logicClk, `passed, `lookup, `clk
      ensures State() in Sound(u) && State() == JointStep(u, old(State())) && logicClk == old(logicClk) + 1
      ensures logicPs == old(logicPs) + psPerLogic && logicPs == logicClk * psPerLogic && clk == old(clk) + 1
    {
      hide IsSound, ResponsesMoved, RequestsMoved, DramTicked;
      DrainResponses();
      DRAMClockTick();
      DrainRequests();
      LogicIsFree(u, State());
      LogicTick();
    }

    /** Logic cycles until the logic has caught up with the end of the DRAM cycle. */
    method CatchUp()
      requires State() in Sound(u) && logicPs == logicClk * psPerLogic && psPerLogic > 0 && dramPs <= logicPs < dramPs + psPerDram + psPerLogic
      modifies `linkResp, `called, `quadResp, `linkBusy, `quadAge, `quadReq, `vaults, `linkReq, `quadBusy, `linkAge, `logicPs, `logicClk, `passed
      ensures State() in Sound(u) && State() == LogicSteps(u, old(State()), logicClk - old(logicClk))
      ensures logicPs == logicClk * psPerLogic && dramPs + psPerDram <= logicPs < dramPs + psPerDram + psPerLogic
    {
      hide IsSound, LogicStep;
      while logicPs < dramPs + psPerDram
        invariant State() in Sound(u) && logicPs == logicClk * psPerLogic && dramPs <= logicPs < dramPs + psPerDram + psPerLogic
        invariant old(logicClk) <= logicClk && State() == LogicSteps(u, old(State()), logicClk - old(logicClk))
        decreases dramPs + psPerDram + psPerLogic - logicPs
      {
        LogicCycle();
      }
    }

    /**
      One DRAM cycle and the logic cycles that fit into it. Whatever moves, nothing is lost, no response is
      missed, and the clocks stay in step.
     */
    method ClockTick()
      requires State() in Sound(u) && InStep()
      modifies this
      ensures State() in Sound(u) && State() == SystemStep(u, psPerDram, psPerLogic, old(State()))
      ensures InStep() && clk == old(clk) + 1 && inserted == old(inserted)
    {
      hide IsSound, JointStep, LogicSteps, DramTicked;
      OneMore(clk, psPerDram);
      if dramPs == logicPs {
        JointCycle();
      } else {
        DRAMClockTick();
      }
      CatchUp();
      dramPs := dramPs + psPerDram;
      LogicClockIs();
    }

    /** While the clocks are in step, the count of logic cycles follows from that of DRAM cycles. */
    lemma LogicClockIs()
      requires InStep()
      ensures logicClk == LogicCycles(clk, psPerDram, psPerLogic)
    {
      ClocksStayLocked(clk, psPerDram, psPerLogic, logicClk);
    }
  }

  lemma LogicIsFree(u: Setup, x: Crossbar)
    requires x in Sound(u)
    ensures x.(logicClk := x.logicClk + 1) in Sound(u)
  {
  }

  lemma OneMore(n: int, k: int)
    ensures (n + 1) * k == n * k + k
  {
  }

  lemma TabledAt(lookup: map<int, seq<Response>>, a: int, links: int)
    requires Tabled(lookup, links) && a in lookup
    ensures lookup[a] != [] && Answerable(lookup[a][0], links)
  {
    assert lookup[a][0] in lookup[a];
  }

  lemma InsertionIsSound(u: Setup, x: Crossbar, now: Crossbar, r: Request, link: nat, placed: bool)
    requires x in Sound(u) && Routed(r, u.p.channels) && link < u.links && now.nextLink < u.links
    requires now == (if placed then Inserted(x, r, link) else x).(nextLink := now.nextLink)
    ensures now in Sound(u)
  {
    if placed {
      InsertedIsSound(u, x, r, link);
    }
  }

  lemma NewIsSound(u: Setup, x: Crossbar)
    requires Hmc.Usable(u) && Shaped(u, x) && x.lookup == map[] && x.clk == 0 && x.inserted == [] && x.called == []
    requires (forall q | q in x.linkReq :: q == []) && (forall q | q in x.quadReq :: q == []) && (forall q | q in x.linkResp :: q == [])
    requires (forall q | q in x.quadResp :: q == []) && (forall i | 0 <= i < |x.linkAge| :: x.linkAge[i] == 0) && (forall i | 0 <= i < 4 :: x.quadAge[i] == 0)
    requires forall v | v in x.vaults :: v == Channel.NewChannel(u.p)
    ensures x in Sound(u)
  {
    VaultFlow.NewReachable(u.p);
    assert forall i | 0 <= i < |x.linkReq| :: x.linkReq[i] in x.linkReq;
    assert forall i | 0 <= i < |x.quadResp| :: x.quadResp[i] in x.quadResp;
    forall a
      ensures Requests(x.linkReq, x.quadReq, x.vaults, a) == 0 && Responses(x.quadResp, x.linkResp, a) == 0
    {
      TotalZero(x.linkReq, RequestsIn(a));
      TotalZero(x.quadReq, RequestsIn(a));
      TotalZero(x.vaults, InVault(a));
      TotalZero(x.quadResp, ResponsesIn(a));
      TotalZero(x.linkResp, ResponsesIn(a));
    }
  }
}
