/** The HMC crossbar: requests through link and quadrant queues to the vaults and back (src/hmc.h, src/hmc.cc). */
module Hmc {
  import opened Common
  import opened Configuration
  import opened Arithmetic
  import opened Totals
  import Channel
  import ChannelInv
  import VaultFlow

  /** `readReply` and `replyFlits` are what the response to this kind of request will carry. */
  datatype Request = Request(addr: nat, isWrite: bool, link: int, quad: int, vault: int, flits: nat, exitTime: int, readReply: bool, replyFlits: nat)

  datatype Response = Response(addr: nat, isRead: bool, link: int, quad: int, flits: nat, exitTime: int)

  /** A request of the given block size from the plain interface; None for a size the program aborts on. */
  function PlainRequest(addr: nat, isWrite: bool, blockSize: nat, vault: nat): Option<Request> {
    if blockSize !in {0, 32, 64, 128, 256} then None
    else
      var data := blockSize / 16;
      var long := if blockSize == 0 then 0 else data + 1;
      Some(Request(addr, isWrite, 0, vault % 4, vault,
                   if isWrite then long else if blockSize == 0 then 0 else 1, 0,
                   !isWrite, if !isWrite then long else if blockSize == 0 then 0 else 1))
  }

  /**
    A packet that carries data has a flit for every 16 bytes of the block and one more, any other a single one, and
    with no block there are none; the quadrant is the vault's.
   */
  lemma PacketsCarryTheBlock(addr: nat, isWrite: bool, blockSize: nat, vault: nat)
    requires PlainRequest(addr, isWrite, blockSize, vault).Some?
    ensures var r := PlainRequest(addr, isWrite, blockSize, vault).value;
            r.addr == addr && r.isWrite == isWrite && r.readReply == !isWrite && r.vault == vault && r.quad == vault % 4 &&
            var (data, other) := if isWrite then (r.flits, r.replyFlits) else (r.replyFlits, r.flits);
            if blockSize == 0 then data == other == 0 else 16 * (data - 1) == blockSize && other == 1
  {
  }

  /** A packet that left one side of the crossbar for the other at a logic cycle. */
  datatype Crossing<T> = Crossing(packet: T, at: int)

  /**
    For each quadrant, the requests that crossed to it and when they entered their vaults; for each link, the
    responses that crossed to it and when they were delivered.
   */
  datatype Passages = Passages(crossings: seq<seq<Crossing<Request>>>, entries: seq<seq<int>>,
                               answers: seq<seq<Crossing<Response>>>, deliveries: seq<seq<int>>)

  function Noted<T>(lists: seq<seq<T>>, i: int, x: T): seq<seq<T>> {
    if 0 <= i < |lists| then lists[i := lists[i] + [x]] else lists
  }

  function ReplyTo(r: Request, link: int): Response {
    Response(r.addr, r.readReply, link, r.quad, r.replyFlits, 0)
  }

  // ----- how often an address occurs

  function RequestWeight(a: int): Request -> nat {
    (r: Request) => if r.addr == a then 1 else 0
  }

  function ResponseWeight(a: int): Response -> nat {
    (r: Response) => if r.addr == a then 1 else 0
  }

  function RequestsIn(a: int): seq<Request> -> nat {
    (q: seq<Request>) => Total(q, RequestWeight(a))
  }

  function ResponsesIn(a: int): seq<Response> -> nat {
    (q: seq<Response>) => Total(q, ResponseWeight(a))
  }

  function InVault(a: int): Channel.Channel -> nat {
    (v: Channel.Channel) => VaultFlow.Inside(v, a)
  }

  function IsAddress(a: int): int -> nat {
    (b: int) => if b == a then 1 else 0
  }

  function Known(lookup: map<int, seq<Response>>, a: int): nat {
    if a in lookup then |lookup[a]| else 0
  }

  // ----- queues

  ghost predicate RoutedAll(qs: seq<seq<Request>>, channels: int) {
    forall q, r | q in qs && r in q :: Routed(r, channels)
  }

  predicate Routed(r: Request, channels: int) {
    0 <= r.quad < 4 && 0 <= r.vault < channels
  }

  ghost predicate AnswerableAll(qs: seq<seq<Response>>, links: int) {
    forall q, r | q in qs && r in q :: Answerable(r, links)
  }

  predicate Answerable(r: Response, links: int) {
    0 <= r.quad < 4 && 0 <= r.link < links
  }

  /** The responses waiting for their vault, none listed under an address without any. */
  ghost predicate Tabled(lookup: map<int, seq<Response>>, links: int) {
    forall a | a in lookup :: lookup[a] != [] && forall r | r in lookup[a] :: Answerable(r, links) && r.addr == a
  }

  /** Age counters are positive exactly on queues that are not empty. */
  ghost predicate Aged<T>(qs: seq<seq<T>>, age: seq<int>) {
    |age| == |qs| && forall i | 0 <= i < |qs| :: age[i] >= 0 && (age[i] > 0 <==> qs[i] != [])
  }

  function Hit(b: int, a: int): nat {
    if b == a then 1 else 0
  }

  lemma RequestPushed(qs: seq<seq<Request>>, i: nat, r: Request, channels: int)
    requires i < |qs| && RoutedAll(qs, channels) && Routed(r, channels)
    ensures RoutedAll(qs[i := qs[i] + [r]], channels)
    ensures forall a :: Total(qs[i := qs[i] + [r]], RequestsIn(a)) == Total(qs, RequestsIn(a)) + Hit(r.addr, a)
  {
    forall a
      ensures Total(qs[i := qs[i] + [r]], RequestsIn(a)) == Total(qs, RequestsIn(a)) + Hit(r.addr, a)
    {
      TotalUpdate(qs, i, qs[i] + [r], RequestsIn(a));
      TotalPush(qs[i], r, RequestWeight(a));
    }
    forall q, x | q in qs[i := qs[i] + [r]] && x in q
      ensures Routed(x, channels)
    {
      assert q in qs || q == qs[i] + [r];
      assert qs[i] in qs;
    }
  }

  lemma RequestPopped(qs: seq<seq<Request>>, i: nat, channels: int)
    requires i < |qs| && RoutedAll(qs, channels) && qs[i] != []
    ensures RoutedAll(qs[i := qs[i][1..]], channels) && Routed(qs[i][0], channels)
    ensures forall a :: Total(qs[i := qs[i][1..]], RequestsIn(a)) + Hit(qs[i][0].addr, a) == Total(qs, RequestsIn(a))
  {
    assert qs[i] in qs && qs[i][0] in qs[i];
    forall a
      ensures Total(qs[i := qs[i][1..]], RequestsIn(a)) + Hit(qs[i][0].addr, a) == Total(qs, RequestsIn(a))
    {
      TotalUpdate(qs, i, qs[i][1..], RequestsIn(a));
      assert Total(qs[i], RequestWeight(a)) == Hit(qs[i][0].addr, a) + Total(qs[i][1..], RequestWeight(a));
    }
    forall q, x | q in qs[i := qs[i][1..]] && x in q
      ensures Routed(x, channels)
    {
      assert q in qs || (q == qs[i][1..] && x in qs[i]);
    }
  }

  lemma ResponsePushed(qs: seq<seq<Response>>, i: nat, r: Response, links: int)
    requires i < |qs| && AnswerableAll(qs, links) && Answerable(r, links)
    ensures AnswerableAll(qs[i := qs[i] + [r]], links)
    ensures forall a :: Total(qs[i := qs[i] + [r]], ResponsesIn(a)) == Total(qs, ResponsesIn(a)) + Hit(r.addr, a)
  {
    forall a
      ensures Total(qs[i := qs[i] + [r]], ResponsesIn(a)) == Total(qs, ResponsesIn(a)) + Hit(r.addr, a)
    {
      TotalUpdate(qs, i, qs[i] + [r], ResponsesIn(a));
      TotalPush(qs[i], r, ResponseWeight(a));
    }
    forall q, x | q in qs[i := qs[i] + [r]] && x in q
      ensures Answerable(x, links)
    {
      assert q in qs || q == qs[i] + [r];
      assert qs[i] in qs;
    }
  }

  lemma ResponsePopped(qs: seq<seq<Response>>, i: nat, links: int)
    requires i < |qs| && AnswerableAll(qs, links) && qs[i] != []
    ensures AnswerableAll(qs[i := qs[i][1..]], links) && Answerable(qs[i][0], links)
    ensures forall a :: Total(qs[i := qs[i][1..]], ResponsesIn(a)) + Hit(qs[i][0].addr, a) == Total(qs, ResponsesIn(a))
  {
    assert qs[i] in qs && qs[i][0] in qs[i];
    forall a
      ensures Total(qs[i := qs[i][1..]], ResponsesIn(a)) + Hit(qs[i][0].addr, a) == Total(qs, ResponsesIn(a))
    {
      TotalUpdate(qs, i, qs[i][1..], ResponsesIn(a));
      assert Total(qs[i], ResponseWeight(a)) == Hit(qs[i][0].addr, a) + Total(qs[i][1..], ResponseWeight(a));
    }
    forall q, x | q in qs[i := qs[i][1..]] && x in q
      ensures Answerable(x, links)
    {
      assert q in qs || (q == qs[i][1..] && x in qs[i]);
    }
  }

  function Entered(lookup: map<int, seq<Response>>, r: Response): map<int, seq<Response>> {
    lookup[r.addr as int := (if r.addr as int in lookup then lookup[r.addr] else []) + [r]]
  }

  function Struck(lookup: map<int, seq<Response>>, a: int): map<int, seq<Response>>
    requires a in lookup && lookup[a] != []
  {
    if |lookup[a]| == 1 then lookup - {a} else lookup[a := lookup[a][1..]]
  }

  lemma LookupEntered(lookup: map<int, seq<Response>>, r: Response, links: int)
    requires Tabled(lookup, links) && Answerable(r, links)
    ensures Tabled(Entered(lookup, r), links)
    ensures forall a :: Known(Entered(lookup, r), a) == Known(lookup, a) + Hit(r.addr, a)
  {
  }

  lemma LookupStruck(lookup: map<int, seq<Response>>, b: int, links: int)
    requires Tabled(lookup, links) && b in lookup
    ensures lookup[b] != [] && Tabled(Struck(lookup, b), links) && Answerable(lookup[b][0], links) && lookup[b][0].addr == b
    ensures forall a :: Known(Struck(lookup, b), a) + Hit(b, a) == Known(lookup, a)
  {
    assert lookup[b][0] in lookup[b];
    assert forall r | r in lookup[b][1..] :: r in lookup[b];
  }

  lemma Recorded(s: seq<int>, b: int)
    ensures forall a :: Total(s + [b], IsAddress(a)) == Total(s, IsAddress(a)) + Hit(b, a)
  {
    forall a
      ensures Total(s + [b], IsAddress(a)) == Total(s, IsAddress(a)) + Hit(b, a)
    {
      TotalPush(s, b, IsAddress(a));
    }
  }

  // ----- conservation

  /** The requests for `a` on their way to a vault or inside one. */
  function Requests(lr: seq<seq<Request>>, qr: seq<seq<Request>>, vs: seq<Channel.Channel>, a: int): nat {
    Total(lr, RequestsIn(a)) + Total(qr, RequestsIn(a)) + Total(vs, InVault(a))
  }

  /** The responses for `a` on their way back. */
  function Responses(qp: seq<seq<Response>>, lp: seq<seq<Response>>, a: int): nat {
    Total(qp, ResponsesIn(a)) + Total(lp, ResponsesIn(a))
  }

  /**
    For every address, the lookup table holds one response for each request still on its way or inside a
    vault, and whatever was inserted is there, on its way back, or called back.
   */
  ghost predicate Balanced(lookup: map<int, seq<Response>>, lr: seq<seq<Request>>, qr: seq<seq<Request>>, vs: seq<Channel.Channel>,
                           qp: seq<seq<Response>>, lp: seq<seq<Response>>, inserted: seq<int>, called: seq<int>)
  {
    forall a :: Known(lookup, a) == Requests(lr, qr, vs, a) &&
                Total(inserted, IsAddress(a)) == Total(called, IsAddress(a)) + Known(lookup, a) + Responses(qp, lp, a)
  }

  lemma InsertBalances(lookup: map<int, seq<Response>>, lr: seq<seq<Request>>, qr: seq<seq<Request>>, vs: seq<Channel.Channel>,
                       qp: seq<seq<Response>>, lp: seq<seq<Response>>, inserted: seq<int>, called: seq<int>,
                       i: nat, r: Request, reply: Response, channels: int, links: int)
    requires Balanced(lookup, lr, qr, vs, qp, lp, inserted, called) && i < |lr| && reply.addr == r.addr
    requires RoutedAll(lr, channels) && Routed(r, channels) && Tabled(lookup, links) && Answerable(reply, links)
    ensures Balanced(Entered(lookup, reply), lr[i := lr[i] + [r]], qr, vs, qp, lp, inserted + [r.addr], called)
    ensures RoutedAll(lr[i := lr[i] + [r]], channels) && Tabled(Entered(lookup, reply), links)
  {
    RequestPushed(lr, i, r, channels);
    LookupEntered(lookup, reply, links);
    Recorded(inserted, r.addr);
  }

  lemma ForwardBalances(lookup: map<int, seq<Response>>, lr: seq<seq<Request>>, qr: seq<seq<Request>>, vs: seq<Channel.Channel>,
                        qp: seq<seq<Response>>, lp: seq<seq<Response>>, inserted: seq<int>, called: seq<int>,
                        i: nat, j: nat, exitTime: int, channels: int)
    requires Balanced(lookup, lr, qr, vs, qp, lp, inserted, called) && i < |lr| && lr[i] != [] && j < |qr|
    requires RoutedAll(lr, channels) && RoutedAll(qr, channels)
    ensures Balanced(lookup, lr[i := lr[i][1..]], qr[j := qr[j] + [lr[i][0].(exitTime := exitTime)]], vs, qp, lp, inserted, called)
    ensures RoutedAll(lr[i := lr[i][1..]], channels) && RoutedAll(qr[j := qr[j] + [lr[i][0].(exitTime := exitTime)]], channels)
  {
    RequestPopped(lr, i, channels);
    RequestPushed(qr, j, lr[i][0].(exitTime := exitTime), channels);
  }

  lemma EnterVaultBalances(lookup: map<int, seq<Response>>, lr: seq<seq<Request>>, qr: seq<seq<Request>>, vs: seq<Channel.Channel>,
                           qp: seq<seq<Response>>, lp: seq<seq<Response>>, inserted: seq<int>, called: seq<int>,
                           i: nat, p: Config)
    requires Balanced(lookup, lr, qr, vs, qp, lp, inserted, called) && i < |qr| && qr[i] != [] && RoutedAll(qr, |vs|)
    requires Routed(qr[i][0], |vs|)
    ensures var r := qr[i][0];
            Balanced(lookup, lr, qr[i := qr[i][1..]], vs[r.vault := Channel.Accept(p, vs[r.vault], r.addr, r.isWrite)], qp, lp, inserted, called) &&
            RoutedAll(qr[i := qr[i][1..]], |vs|)
  {
    var r := qr[i][0];
    RequestPopped(qr, i, |vs|);
    VaultChanged(vs, r.vault, Channel.Accept(p, vs[r.vault], r.addr, r.isWrite));
    forall a
      ensures VaultFlow.Inside(Channel.Accept(p, vs[r.vault], r.addr, r.isWrite), a) == VaultFlow.Inside(vs[r.vault], a) + Hit(r.addr, a)
    {
      VaultFlow.AcceptGoesInside(p, vs[r.vault], r.addr, r.isWrite, a);
    }
  }

  lemma VaultChanged(vs: seq<Channel.Channel>, i: nat, v: Channel.Channel)
    requires i < |vs|
    ensures forall a :: Total(vs[i := v], InVault(a)) + VaultFlow.Inside(vs[i], a) == Total(vs, InVault(a)) + VaultFlow.Inside(v, a)
  {
    forall a
      ensures Total(vs[i := v], InVault(a)) + VaultFlow.Inside(vs[i], a) == Total(vs, InVault(a)) + VaultFlow.Inside(v, a)
    {
      TotalUpdate(vs, i, v, InVault(a));
    }
  }

  // ----- arbitration

  /** How many steps after `start` a round robin over `n` positions comes to `x`. */
  function Offset(x: int, start: int, n: int): int {
    if x >= start then x - start else x - start + n
  }

  /** The position visited at step `i` of the round robin. */
  function Turn(i: nat, start: nat, n: nat): (x: nat)
    requires n > 0
    ensures x < n
  {
    (i + start) % n
  }

  lemma WrapAt(i: nat, start: nat, n: nat)
    requires i < n && start < n
    ensures Turn(i, start, n) == if i + start < n then i + start else i + start - n
  {
    if i + start < n {
      QuotientUnique(i + start, n, 0, i + start);
    } else {
      QuotientUnique(i + start, n, 1, i + start - n);
    }
  }

  predicate Distinct(q: seq<int>) {
    forall a, b | 0 <= a < b < |q| :: q[a] != q[b]
  }

  lemma DistinctInsert(q: seq<int>, k: nat, x: int)
    requires Distinct(q) && k <= |q| && x !in q
    ensures Distinct(q[..k] + [x] + q[k..]) && forall y :: y in q[..k] + [x] + q[k..] <==> y in q || y == x
  {
    var now := q[..k] + [x] + q[k..];
    assert q == q[..k] + q[k..];
    forall a, b | 0 <= a < b < |now|
      ensures now[a] != now[b]
    {
      assert now[a] == if a < k then q[a] else if a == k then x else q[a - 1];
      assert now[b] == if b < k then q[b] else if b == k then x else q[b - 1];
    }
  }

  /** The first place whose entry is below `age`. */
  function Place(queue: seq<int>, age: int): (k: nat)
    ensures k <= |queue| && (k < |queue| ==> queue[k] < age) && forall j | 0 <= j < k :: queue[j] >= age
  {
    if queue == [] || queue[0] < age then 0 else 1 + Place(queue[1..], age)
  }

  /** A position that waits goes before the first entry below its age. */
  function Queued(queue: seq<int>, age: int, pos: int): seq<int> {
    if age <= 0 then queue else queue[..Place(queue, age)] + [pos] + queue[Place(queue, age)..]
  }

  /** The queue after `n` positions from `start` on; an age is compared with the positions listed, not with their ages. */
  function AgeQueue(age: seq<int>, start: nat, n: nat): seq<int>
    requires n <= |age|
  {
    if n == 0 then []
    else
      var pos := Turn(n - 1, start, |age|);
      Queued(AgeQueue(age, start, n - 1), age[pos], pos)
  }

  /** The positions of positive age among the first `n` from `start` on. */
  ghost predicate ListsAges(queue: seq<int>, age: seq<int>, start: int, n: int) {
    Distinct(queue) && forall x :: x in queue <==> 0 <= x < |age| && Offset(x, start, |age|) < n && age[x] > 0
  }

  lemma OneMoreListed(queue: seq<int>, age: seq<int>, start: int, pos: int)
    requires 0 <= pos < |age| && 0 <= start < |age| && ListsAges(queue, age, start, Offset(pos, start, |age|))
    ensures ListsAges(Queued(queue, age[pos], pos), age, start, Offset(pos, start, |age|) + 1)
  {
    if age[pos] > 0 {
      DistinctInsert(queue, Place(queue, age[pos]), pos);
    }
  }

  lemma NothingListed(age: seq<int>, start: nat)
    requires start < |age|
    ensures ListsAges([], age, start, 0)
  {
  }

  lemma {:induction false} AgeQueueLists(age: seq<int>, start: nat, n: nat)
    requires n <= |age| && start < |age|
    ensures ListsAges(AgeQueue(age, start, n), age, start, n)
  {
    hide Turn, ListsAges, Queued;
    if n == 0 {
      NothingListed(age, start);
    } else {
      var queue, pos := AgeQueue(age, start, n - 1), Turn(n - 1, start, |age|);
      AgeQueueLists(age, start, n - 1);
      WrapAt(n - 1, start, |age|);
      OneMoreListed(queue, age, start, pos);
    }
  }

  /** The positions of positive age, each once, starting from a position that moves with the clock. */
  method BuildAgeQueue(age: seq<int>, logicClk: nat) returns (queue: seq<int>)
    requires age != []
    ensures queue == AgeQueue(age, logicClk % |age|, |age|)
    ensures Distinct(queue) && forall x :: x in queue <==> 0 <= x < |age| && age[x] > 0
  {
    queue := [];
    var n := |age|;
    var startPos := logicClk % n;
    var i := 0;
    while i < n
      invariant 0 <= i <= n && queue == AgeQueue(age, startPos, i)
    {
      var pos := Turn(i, startPos, n);
      if age[pos] > 0 {
        var k := 0;
        while k < |queue| && age[pos] <= queue[k]
          invariant 0 <= k <= |queue| && forall j | 0 <= j < k :: queue[j] >= age[pos]
        {
          k := k + 1;
        }
        assert k == Place(queue, age[pos]);
        queue := queue[..k] + [pos] + queue[k..];
      }
      i := i + 1;
    }
    AgeQueueLists(age, startPos, n);
  }

  /** What the queue is meant to be: the longest waiting position comes first. */
  ghost predicate OldestFirst(age: seq<int>, queue: seq<int>) {
    forall i, j | 0 <= i < j < |queue| && 0 <= queue[i] < |age| && 0 <= queue[j] < |age| :: age[queue[i]] >= age[queue[j]]
  }

  /** Only position 0 and, for less long, position 1 wait. */
  function TwoWait(n: nat): seq<int>
    requires n >= 2
  {
    [2, 1] + seq(n - 2, _ => 0)
  }

  lemma {:induction false} YoungerGoesFirst(n: nat, i: nat)
    requires 2 <= i <= n
    ensures AgeQueue(TwoWait(n), 0, i) == [1, 0]
  {
    hide Turn;
    var age := TwoWait(n);
    WrapAt(i - 1, 0, n);
    if i == 2 {
      WrapAt(0, 0, n);
      assert AgeQueue(age, 0, 1) == [0];
      assert Place([0], 1) == 0;
    } else {
      YoungerGoesFirst(n, i - 1);
    }
  }

  /** The queue is in order of age, whatever the ages and the clock, if and only if there is at most one position. */
  lemma OldestFirstExactlyWhenAlone(n: nat)
    requires n >= 1
    ensures (forall age: seq<int>, logicClk: nat | |age| == n :: OldestFirst(age, AgeQueue(age, logicClk % n, n))) <==> n == 1
  {
    if n == 1 {
      forall age: seq<int>, logicClk: nat | |age| == n
        ensures OldestFirst(age, AgeQueue(age, logicClk % n, n))
      {
        assert AgeQueue(age, logicClk % n, 0) == [];
      }
    } else {
      YoungerGoesFirst(n, n);
      var age, queue := TwoWait(n), AgeQueue(TwoWait(n), 0, n);
      assert queue[0] == 1 && queue[1] == 0;
      assert !OldestFirst(age, queue);
      WrapAt(0, 0, n);
      var logicClk: nat := 0;
      assert |age| == n && !OldestFirst(age, AgeQueue(age, logicClk % n, n));
    }
  }

  // ----- the state, and what every operation keeps

  /**
    `inserted` and `called` record requests taken in and calls back made, `passed` the packets that passed the crossbar.
   */
  datatype Crossbar = Crossbar(
    linkReq: seq<seq<Request>>, linkResp: seq<seq<Response>>, quadReq: seq<seq<Request>>, quadResp: seq<seq<Response>>,
    linkBusy: seq<int>, quadBusy: seq<int>, linkAge: seq<int>, quadAge: seq<int>, nextLink: nat,
    lookup: map<int, seq<Response>>, vaults: seq<Channel.Channel>, clk: int, logicClk: nat,
    inserted: seq<int>, called: seq<int>, passed: Passages)

  /** Links, queue depth and vault configuration. */
  datatype Setup = Setup(p: Config, links: nat, depth: nat)

  /** Empty queues, and vaults at their start. */
  function NewCrossbar(u: Setup): Crossbar {
    Crossbar(seq(u.links, _ => []), seq(u.links, _ => []), [[], [], [], []], [[], [], [], []],
             seq(u.links, _ => 0), [0, 0, 0, 0], seq(u.links, _ => 0), [0, 0, 0, 0], 0,
             map[], seq(u.p.channels, _ => Channel.NewChannel(u.p)), 0, 0, [], [],
             Passages([[], [], [], []], [[], [], [], []], seq(u.links, _ => []), seq(u.links, _ => [])))
  }

  ghost predicate Usable(u: Setup) {
    ChannelInv.Usable(u.p) && u.links >= 1 && u.p.channels >= 1
  }

  ghost predicate Shaped(u: Setup, x: Crossbar) {
    |x.linkReq| == u.links && |x.linkResp| == u.links && |x.linkBusy| == u.links && |x.linkAge| == u.links && x.nextLink < u.links &&
    |x.quadReq| == 4 && |x.quadResp| == 4 && |x.quadBusy| == 4 && |x.quadAge| == 4 && |x.vaults| == u.p.channels
  }

  /** Everything in a queue can be delivered. */
  ghost predicate Deliverable(u: Setup, x: Crossbar) {
    RoutedAll(x.linkReq, u.p.channels) && RoutedAll(x.quadReq, u.p.channels) && AnswerableAll(x.linkResp, u.links) &&
    AnswerableAll(x.quadResp, u.links) && Tabled(x.lookup, u.links)
  }

  ghost predicate Conserved(x: Crossbar) {
    Balanced(x.lookup, x.linkReq, x.quadReq, x.vaults, x.quadResp, x.linkResp, x.inserted, x.called)
  }

  ghost predicate VaultsRun(u: Setup, x: Crossbar) {
    forall v | v in x.vaults :: VaultFlow.Reachable(u.p, v) && v.clk == x.clk
  }

  ghost predicate IsSound(u: Setup, x: Crossbar) {
    Usable(u) && Shaped(u, x) && Deliverable(u, x) && Aged(x.linkReq, x.linkAge) && Aged(x.quadResp, x.quadAge) && Conserved(x) && VaultsRun(u, x)
  }

  /** The sound states. */
  ghost function Sound(u: Setup): iset<Crossbar> {
    iset x: Crossbar | IsSound(u, x)
  }

  lemma BusyIsFree(u: Setup, x: Crossbar, quadBusy: seq<int>, linkBusy: seq<int>)
    requires x in Sound(u) && |quadBusy| == 4 && |linkBusy| == u.links
    ensures x.(quadBusy := quadBusy, linkBusy := linkBusy) in Sound(u)
  {
  }

  lemma SoundShape(u: Setup, x: Crossbar)
    requires x in Sound(u)
    ensures Shaped(u, x) && Aged(x.linkReq, x.linkAge) && Aged(x.quadResp, x.quadAge)
  {
  }

  /** A request enters a link's queue, and its response the lookup table. */
  function Inserted(x: Crossbar, r: Request, link: nat): Crossbar
    requires link < |x.linkReq| && link < |x.linkAge|
  {
    x.(linkReq := x.linkReq[link := x.linkReq[link] + [r.(link := link)]], lookup := Entered(x.lookup, ReplyTo(r, link)),
       linkAge := x.linkAge[link := 1], inserted := x.inserted + [r.addr])
  }

  lemma InsertedIsSound(u: Setup, x: Crossbar, r: Request, link: nat)
    requires x in Sound(u) && Routed(r, u.p.channels) && link < u.links
    ensures Inserted(x, r, link) in Sound(u)
  {
    InsertBalances(x.lookup, x.linkReq, x.quadReq, x.vaults, x.quadResp, x.linkResp, x.inserted, x.called,
                   link, r.(link := link), ReplyTo(r, link), u.p.channels, u.links);
  }

  /** The head of a quadrant's queue can enter its vault: it has come through, and both have room. */
  predicate CanEnter(u: Setup, x: Crossbar, i: nat)
    requires i < |x.quadReq| && i < |x.quadResp|
  {
    x.quadReq[i] != [] && |x.quadResp[i]| < u.depth && x.quadReq[i][0].exitTime <= x.logicClk &&
    0 <= x.quadReq[i][0].vault < |x.vaults| && Channel.WillAccept(u.p, x.vaults[x.quadReq[i][0].vault], x.quadReq[i][0].isWrite)
  }

  function QuadServed(u: Setup, x: Crossbar, i: nat): Crossbar
    requires i < |x.quadReq| && i < |x.quadResp|
  {
    if !CanEnter(u, x, i) then x
    else
      var r := x.quadReq[i][0];
      x.(quadReq := x.quadReq[i := x.quadReq[i][1..]], passed := x.passed.(entries := Noted(x.passed.entries, i, x.logicClk)),
         vaults := x.vaults[r.vault := Channel.Accept(u.p, x.vaults[r.vault], r.addr, r.isWrite)])
  }

  lemma AcceptStep(p: Config, v: Channel.Channel, addr: nat, isWrite: bool)
    requires ChannelInv.Usable(p) && VaultFlow.Reachable(p, v) && Channel.WillAccept(p, v, isWrite)
    ensures VaultFlow.Reachable(p, Channel.Accept(p, v, addr, isWrite)) && Channel.Accept(p, v, addr, isWrite).clk == v.clk
  {
    VaultFlow.StepsReachable(p, v, Channel.Arrive(addr, isWrite));
  }

  lemma QuadServedIsSound(u: Setup, x: Crossbar, i: nat)
    requires x in Sound(u) && i < 4
    ensures QuadServed(u, x, i) in Sound(u)
  {
    if CanEnter(u, x, i) {
      var r := x.quadReq[i][0];
      assert x.quadReq[i] in x.quadReq && r in x.quadReq[i];
      assert x.vaults[r.vault] in x.vaults;
      AcceptStep(u.p, x.vaults[r.vault], r.addr, r.isWrite);
      EnterVaultBalances(x.lookup, x.linkReq, x.quadReq, x.vaults, x.quadResp, x.linkResp, x.inserted, x.called, i, u.p);
    }
  }

  function QuadsServed(u: Setup, x: Crossbar, i: nat): (y: Crossbar)
    requires |x.quadReq| == 4 == |x.quadResp| && i <= 4
    ensures |y.quadReq| == 4 == |y.quadResp|
  {
    if i == 0 then x else QuadServed(u, QuadsServed(u, x, i - 1), i - 1)
  }

  lemma {:induction false} QuadsServedIsSound(u: Setup, x: Crossbar, i: nat)
    requires x in Sound(u) && i <= 4
    ensures QuadsServed(u, x, i) in Sound(u)
  {
    hide IsSound;
    SoundShape(u, x);
    if i > 0 {
      QuadsServedIsSound(u, x, i - 1);
      QuadServedIsSound(u, QuadsServed(u, x, i - 1), i - 1);
    }
  }

  /** A queue that was busy is two flits less so. */
  function Cooled(busy: seq<int>): (now: seq<int>)
    ensures |now| == |busy|
  {
    seq(|busy|, i requires 0 <= i < |busy| => if busy[i] > 0 then busy[i] - 2 else busy[i])
  }

  /** The head of a link's queue crosses to its quadrant, or the link ages. */
  function LinkSent(u: Setup, x: Crossbar, src: int): Crossbar {
    if !(0 <= src < |x.linkReq| && src < |x.linkAge| && x.linkReq[src] != []) then x
    else
      var r := x.linkReq[src][0];
      if 0 <= r.quad < |x.quadReq| && r.quad < |x.quadBusy| && |x.quadReq[r.quad]| < u.depth && x.quadBusy[r.quad] <= 0 then
        Crossed(x, src)
      else x.(linkAge := x.linkAge[src := x.linkAge[src] + 1])
  }

  function Crossed(x: Crossbar, src: nat): Crossbar
    requires src < |x.linkReq| && src < |x.linkAge| && x.linkReq[src] != []
    requires 0 <= x.linkReq[src][0].quad < |x.quadReq| && x.linkReq[src][0].quad < |x.quadBusy|
  {
    var r := x.linkReq[src][0];
    var stamped := r.(exitTime := x.logicClk + r.flits);
    x.(linkReq := x.linkReq[src := x.linkReq[src][1..]],
       quadReq := x.quadReq[r.quad := x.quadReq[r.quad] + [stamped]], passed := x.passed.(crossings := Noted(x.passed.crossings, r.quad, Crossing(stamped, x.logicClk))),
       quadBusy := x.quadBusy[r.quad := r.flits],
       linkAge := x.linkAge[src := if |x.linkReq[src]| == 1 then 0 else 1])
  }

  lemma LinkSentIsSound(u: Setup, x: Crossbar, src: int)
    requires x in Sound(u)
    ensures LinkSent(u, x, src) in Sound(u)
  {
    if 0 <= src < u.links && x.linkReq[src] != [] {
      CrossedIsSound(u, x, src);
      LinkAgedIsSound(u, x, src);
    }
  }

  lemma CrossedIsSound(u: Setup, x: Crossbar, src: nat)
    requires x in Sound(u) && src < u.links && x.linkReq[src] != []
    ensures 0 <= x.linkReq[src][0].quad < 4 && Crossed(x, src) in Sound(u)
  {
    hide Balanced;
    var r := x.linkReq[src][0];
    assert x.linkReq[src] in x.linkReq && r in x.linkReq[src];
    ForwardBalances(x.lookup, x.linkReq, x.quadReq, x.vaults, x.quadResp, x.linkResp, x.inserted, x.called,
                    src, r.quad, x.logicClk + r.flits, u.p.channels);
  }

  lemma LinkAgedIsSound(u: Setup, x: Crossbar, src: nat)
    requires x in Sound(u) && src < u.links && x.linkReq[src] != []
    ensures x.(linkAge := x.linkAge[src := x.linkAge[src] + 1]) in Sound(u)
  {
  }

  /** Sending leaves the other links' queues as they are. */
  lemma OtherLinksStay(u: Setup, x: Crossbar, src: int)
    ensures var y := LinkSent(u, x, src);
            |y.linkReq| == |x.linkReq| && forall j | 0 <= j < |x.linkReq| && j != src :: y.linkReq[j] == x.linkReq[j]
  {
  }

  function LinksSent(u: Setup, x: Crossbar, queue: seq<int>): Crossbar
    decreases |queue|
  {
    if queue == [] then x else LinksSent(u, LinkSent(u, x, queue[0]), queue[1..])
  }

  lemma {:induction false} LinksSentIsSound(u: Setup, x: Crossbar, queue: seq<int>)
    requires x in Sound(u)
    ensures LinksSent(u, x, queue) in Sound(u)
    decreases |queue|
  {
    hide IsSound;
    if queue != [] {
      LinkSentIsSound(u, x, queue[0]);
      LinksSentIsSound(u, LinkSent(u, x, queue[0]), queue[1..]);
    }
  }

  /** Requests move on: quadrants to vaults, then links to quadrants in the order of `queue`. */
  function RequestsDrained(u: Setup, x: Crossbar, queue: seq<int>): Crossbar
    requires |x.quadReq| == 4 == |x.quadResp|
  {
    var y := QuadsServed(u, x, 4);
    LinksSent(u, y.(quadBusy := Cooled(y.quadBusy)), queue)
  }

  lemma RequestsDrainedIsSound(u: Setup, x: Crossbar, queue: seq<int>)
    requires x in Sound(u)
    ensures RequestsDrained(u, x, queue) in Sound(u)
  {
    QuadsServedIsSound(u, x, 4);
    var y := QuadsServed(u, x, 4);
    LinksSentIsSound(u, y.(quadBusy := Cooled(y.quadBusy)), queue);
  }

  // ----- responses

  lemma DeliverBalances(lookup: map<int, seq<Response>>, lr: seq<seq<Request>>, qr: seq<seq<Request>>, vs: seq<Channel.Channel>,
                        qp: seq<seq<Response>>, lp: seq<seq<Response>>, inserted: seq<int>, called: seq<int>, i: nat, links: int)
    requires Balanced(lookup, lr, qr, vs, qp, lp, inserted, called) && i < |lp| && lp[i] != [] && AnswerableAll(lp, links)
    ensures Balanced(lookup, lr, qr, vs, qp, lp[i := lp[i][1..]], inserted, called + [lp[i][0].addr]) && AnswerableAll(lp[i := lp[i][1..]], links)
  {
    ResponsePopped(lp, i, links);
    Recorded(called, lp[i][0].addr);
  }

  lemma AnswerBalances(lookup: map<int, seq<Response>>, lr: seq<seq<Request>>, qr: seq<seq<Request>>, vs: seq<Channel.Channel>,
                       qp: seq<seq<Response>>, lp: seq<seq<Response>>, inserted: seq<int>, called: seq<int>,
                       i: nat, j: nat, exitTime: int, links: int)
    requires Balanced(lookup, lr, qr, vs, qp, lp, inserted, called) && i < |qp| && qp[i] != [] && j < |lp|
    requires AnswerableAll(qp, links) && AnswerableAll(lp, links)
    ensures Balanced(lookup, lr, qr, vs, qp[i := qp[i][1..]], lp[j := lp[j] + [qp[i][0].(exitTime := exitTime)]], inserted, called)
    ensures AnswerableAll(qp[i := qp[i][1..]], links) && AnswerableAll(lp[j := lp[j] + [qp[i][0].(exitTime := exitTime)]], links)
  {
    ResponsePopped(qp, i, links);
    ResponsePushed(lp, j, qp[i][0].(exitTime := exitTime), links);
  }

  /** A response that has come through goes to the processor. */
  function Delivered(x: Crossbar, i: nat): Crossbar
    requires i < |x.linkResp|
  {
    if x.linkResp[i] != [] && x.linkResp[i][0].exitTime <= x.logicClk then
      x.(linkResp := x.linkResp[i := x.linkResp[i][1..]], passed := x.passed.(deliveries := Noted(x.passed.deliveries, i, x.logicClk)), called := x.called + [x.linkResp[i][0].addr])
    else x
  }

  lemma DeliveredIsSound(u: Setup, x: Crossbar, i: nat)
    requires x in Sound(u) && i < u.links
    ensures Delivered(x, i) in Sound(u)
  {
    if x.linkResp[i] != [] {
      DeliverBalances(x.lookup, x.linkReq, x.quadReq, x.vaults, x.quadResp, x.linkResp, x.inserted, x.called, i, u.links);
    }
  }

  function AllDelivered(x: Crossbar, n: nat): (y: Crossbar)
    requires n <= |x.linkResp|
    ensures |y.linkResp| == |x.linkResp|
  {
    if n == 0 then x else Delivered(AllDelivered(x, n - 1), n - 1)
  }

  lemma {:induction false} AllDeliveredIsSound(u: Setup, x: Crossbar, n: nat) returns (y: Crossbar)
    requires x in Sound(u) && n <= u.links == |x.linkResp|
    ensures y == AllDelivered(x, n) && y in Sound(u)
  {
    hide IsSound;
    if n == 0 {
      y := x;
    } else {
      var before := AllDeliveredIsSound(u, x, n - 1);
      DeliveredIsSound(u, before, n - 1);
      y := Delivered(before, n - 1);
    }
  }

  /** The head of a quadrant's responses crosses to its link, or the quadrant ages. */
  function QuadAnswered(u: Setup, x: Crossbar, src: int): Crossbar {
    if !(0 <= src < |x.quadResp| && src < |x.quadAge| && x.quadResp[src] != []) then x
    else
      var r := x.quadResp[src][0];
      if 0 <= r.link < |x.linkResp| && r.link < |x.linkBusy| && |x.linkResp[r.link]| < u.depth && x.linkBusy[r.link] <= 0 then
        CrossedBack(x, src)
      else x.(quadAge := x.quadAge[src := x.quadAge[src] + 1])
  }

  function CrossedBack(x: Crossbar, src: nat): Crossbar
    requires src < |x.quadResp| && src < |x.quadAge| && x.quadResp[src] != []
    requires 0 <= x.quadResp[src][0].link < |x.linkResp| && x.quadResp[src][0].link < |x.linkBusy|
  {
    var r := x.quadResp[src][0];
    var stamped := r.(exitTime := x.logicClk + r.flits);
    x.(quadResp := x.quadResp[src := x.quadResp[src][1..]],
       linkResp := x.linkResp[r.link := x.linkResp[r.link] + [stamped]], passed := x.passed.(answers := Noted(x.passed.answers, r.link, Crossing(stamped, x.logicClk))),
       linkBusy := x.linkBusy[r.link := r.flits],
       quadAge := x.quadAge[src := if |x.quadResp[src]| == 1 then 0 else 1])
  }

  lemma QuadAnsweredIsSound(u: Setup, x: Crossbar, src: int)
    requires x in Sound(u)
    ensures QuadAnswered(u, x, src) in Sound(u)
  {
    if 0 <= src < 4 && x.quadResp[src] != [] {
      CrossedBackIsSound(u, x, src);
      QuadAgedIsSound(u, x, src);
    }
  }

  lemma CrossedBackIsSound(u: Setup, x: Crossbar, src: nat)
    requires x in Sound(u) && src < 4 && x.quadResp[src] != []
    ensures 0 <= x.quadResp[src][0].link < u.links && CrossedBack(x, src) in Sound(u)
  {
    hide Balanced;
    var r := x.quadResp[src][0];
    assert x.quadResp[src] in x.quadResp && r in x.quadResp[src];
    AnswerBalances(x.lookup, x.linkReq, x.quadReq, x.vaults, x.quadResp, x.linkResp, x.inserted, x.called,
                   src, r.link, x.logicClk + r.flits, u.links);
  }

  lemma QuadAgedIsSound(u: Setup, x: Crossbar, src: nat)
    requires x in Sound(u) && src < 4 && x.quadResp[src] != []
    ensures x.(quadAge := x.quadAge[src := x.quadAge[src] + 1]) in Sound(u)
  {
  }

  lemma OtherQuadsStay(u: Setup, x: Crossbar, src: int)
    ensures var y := QuadAnswered(u, x, src);
            |y.quadResp| == |x.quadResp| && forall j | 0 <= j < |x.quadResp| && j != src :: y.quadResp[j] == x.quadResp[j]
  {
  }

  function QuadsAnswered(u: Setup, x: Crossbar, queue: seq<int>): Crossbar
    decreases |queue|
  {
    if queue == [] then x else QuadsAnswered(u, QuadAnswered(u, x, queue[0]), queue[1..])
  }

  lemma {:induction false} QuadsAnsweredIsSound(u: Setup, x: Crossbar, queue: seq<int>)
    requires x in Sound(u)
    ensures QuadsAnswered(u, x, queue) in Sound(u)
    decreases |queue|
  {
    hide IsSound;
    if queue != [] {
      QuadAnsweredIsSound(u, x, queue[0]);
      QuadsAnsweredIsSound(u, QuadAnswered(u, x, queue[0]), queue[1..]);
    }
  }

  /** Responses move on: links to the processor, then quadrants to links in the order of `queue`. */
  function ResponsesDrained(u: Setup, x: Crossbar, queue: seq<int>): Crossbar {
    var y := AllDelivered(x, |x.linkResp|);
    QuadsAnswered(u, y.(linkBusy := Cooled(y.linkBusy)), queue)
  }

  lemma ResponsesDrainedIsSound(u: Setup, x: Crossbar, queue: seq<int>)
    requires x in Sound(u)
    ensures ResponsesDrained(u, x, queue) in Sound(u)
  {
    var y := AllDeliveredIsSound(u, x, u.links);
    QuadsAnsweredIsSound(u, y.(linkBusy := Cooled(y.linkBusy)), queue);
  }

  // ----- the vaults' cycle

  /** Balanced but for the requests `ts`, which have left their vault and not yet been looked up. */
  ghost predicate Owing(x: Crossbar, ts: seq<Transaction>) {
    forall a :: Known(x.lookup, a) == Requests(x.linkReq, x.quadReq, x.vaults, a) + VaultFlow.Count(ts, a) &&
                Total(x.inserted, IsAddress(a)) == Total(x.called, IsAddress(a)) + Known(x.lookup, a) + Responses(x.quadResp, x.linkResp, a)
  }

  /** Soundness up to the vaults' states and the transactions `ts` between vault and crossbar. */
  ghost predicate IsOwed(u: Setup, x: Crossbar, ts: seq<Transaction>) {
    Usable(u) && Shaped(u, x) && Deliverable(u, x) && Aged(x.linkReq, x.linkAge) && Aged(x.quadResp, x.quadAge) && Owing(x, ts)
  }

  /** The states that are sound but for `ts`. */
  ghost function Owed(u: Setup, ts: seq<Transaction>): iset<Crossbar> {
    iset x: Crossbar | IsOwed(u, x, ts)
  }

  lemma OwedShape(u: Setup, x: Crossbar)
    requires x in Owed(u, [])
    ensures Shaped(u, x)
  {
  }

  /** A vault is done with a request for `a`: its response is looked up by the address and sent off. */
  function Returned(x: Crossbar, a: int): Crossbar {
    if !(a in x.lookup && x.lookup[a] != []) then x
    else
      var r := x.lookup[a][0];
      if !(0 <= r.quad < |x.quadResp| && r.quad < |x.quadAge|) then x
      else
        x.(lookup := Struck(x.lookup, a), quadResp := x.quadResp[r.quad := x.quadResp[r.quad] + [r]], quadAge := x.quadAge[r.quad := 1])
  }

  /** The lookup never misses, and the response is on its way back. */
  lemma ReturnedIsSound(u: Setup, x: Crossbar, ts: seq<Transaction>)
    requires x in Owed(u, ts) && ts != []
    ensures ts[0].addr as int in x.lookup && Returned(x, ts[0].addr) in Owed(u, ts[1..])
  {
    hide Owing;
    var a := ts[0].addr as int;
    OwedIsKnown(x, ts);
    LookupStruck(x.lookup, a, u.links);
    ResponsePushed(x.quadResp, x.lookup[a][0].quad, x.lookup[a][0], u.links);
    ReturnedOwes(x, ts, u.links);
  }

  lemma OwedIsKnown(x: Crossbar, ts: seq<Transaction>)
    requires Owing(x, ts) && ts != []
    ensures ts[0].addr as int in x.lookup
  {
    var a := ts[0].addr as int;
    assert Known(x.lookup, a) == Requests(x.linkReq, x.quadReq, x.vaults, a) + VaultFlow.Count(ts, a);
  }

  lemma ReturnedOwes(x: Crossbar, ts: seq<Transaction>, links: int)
    requires Owing(x, ts) && ts != [] && Tabled(x.lookup, links) && AnswerableAll(x.quadResp, links) && |x.quadResp| == 4 == |x.quadAge|
    ensures Owing(Returned(x, ts[0].addr), ts[1..])
  {
    var a := ts[0].addr as int;
    OwedIsKnown(x, ts);
    LookupStruck(x.lookup, a, links);
    ResponsePushed(x.quadResp, x.lookup[a][0].quad, x.lookup[a][0], links);
  }

  function AllReturned(x: Crossbar, ts: seq<Transaction>): Crossbar
    decreases |ts|
  {
    if ts == [] then x else AllReturned(Returned(x, ts[0].addr), ts[1..])
  }

  lemma {:induction false} AllReturnedIsSound(u: Setup, x: Crossbar, ts: seq<Transaction>)
    requires x in Owed(u, ts)
    ensures AllReturned(x, ts) in Owed(u, []) && AllReturned(x, ts).vaults == x.vaults && AllReturned(x, ts).clk == x.clk
    decreases |ts|
  {
    hide IsOwed;
    if ts != [] {
      ReturnedIsSound(u, x, ts);
      AllReturnedIsSound(u, Returned(x, ts[0].addr), ts[1..]);
    }
  }

  /** What is due in vault `i` comes out of it. */
  function VaultOpened(x: Crossbar, i: nat): Crossbar
    requires i < |x.vaults|
  {
    x.(vaults := x.vaults[i := Channel.DrainDone(x.vaults[i])])
  }

  /** ... and is answered. */
  function VaultEmptied(x: Crossbar, i: nat): Crossbar
    requires i < |x.vaults|
  {
    AllReturned(VaultOpened(x, i), Channel.Due(x.vaults[i].returnQ, x.vaults[i].clk))
  }

  lemma VaultOpenedIsSound(u: Setup, x: Crossbar, i: nat)
    requires x in Owed(u, []) && i < u.p.channels
    ensures VaultOpened(x, i) in Owed(u, Channel.Due(x.vaults[i].returnQ, x.vaults[i].clk))
  {
    hide Owing;
    VaultOpenedOwes(x, i);
  }

  lemma VaultOpenedOwes(x: Crossbar, i: nat)
    requires Owing(x, []) && i < |x.vaults|
    ensures Owing(VaultOpened(x, i), Channel.Due(x.vaults[i].returnQ, x.vaults[i].clk))
  {
    var v := x.vaults[i];
    var due := Channel.Due(v.returnQ, v.clk);
    VaultChanged(x.vaults, i, Channel.DrainDone(v));
    forall a
      ensures VaultFlow.Inside(v, a) == VaultFlow.Inside(Channel.DrainDone(v), a) + VaultFlow.Count(due, a)
    {
      VaultFlow.CountDue(v.returnQ, v.clk, a);
    }
  }

  lemma VaultEmptiedIsSound(u: Setup, x: Crossbar, i: nat)
    requires x in Owed(u, []) && i < u.p.channels
    ensures VaultEmptied(x, i) in Owed(u, [])
    ensures VaultEmptied(x, i).vaults == x.vaults[i := Channel.DrainDone(x.vaults[i])] && VaultEmptied(x, i).clk == x.clk
  {
    VaultOpenedIsSound(u, x, i);
    AllReturnedIsSound(u, VaultOpened(x, i), Channel.Due(x.vaults[i].returnQ, x.vaults[i].clk));
  }

  function VaultsEmptied(x: Crossbar, n: nat): (y: Crossbar)
    requires n <= |x.vaults|
    ensures |y.vaults| == |x.vaults|
    decreases n
  {
    if n == 0 then x
    else
      var y := VaultsEmptied(x, n - 1);
      ReturnsKeepVaults(y, n - 1);
      VaultEmptied(y, n - 1)
  }

  lemma {:induction false} AllReturnedFrame(x: Crossbar, ts: seq<Transaction>)
    ensures AllReturned(x, ts).vaults == x.vaults && AllReturned(x, ts).clk == x.clk
    decreases |ts|
  {
    if ts != [] {
      AllReturnedFrame(Returned(x, ts[0].addr), ts[1..]);
    }
  }

  lemma ReturnsKeepVaults(x: Crossbar, i: nat)
    requires i < |x.vaults|
    ensures |VaultEmptied(x, i).vaults| == |x.vaults|
  {
    var v := x.vaults[i];
    AllReturnedFrame(VaultOpened(x, i), Channel.Due(v.returnQ, v.clk));
  }

  lemma {:induction false} VaultsEmptiedIsSound(u: Setup, x: Crossbar, n: nat) returns (y: Crossbar)
    requires x in Owed(u, []) && n <= |x.vaults| == u.p.channels
    ensures y == VaultsEmptied(x, n) && y in Owed(u, []) && |y.vaults| == u.p.channels
  {
    hide IsOwed;
    if n == 0 {
      y := x;
    } else {
      var before := VaultsEmptiedIsSound(u, x, n - 1);
      VaultEmptiedIsSound(u, before, n - 1);
      y := VaultEmptied(before, n - 1);
    }
  }

  /** All vaults counted in `n` have called back what was due. */
  lemma {:induction false} VaultsEmptiedAre(x: Crossbar, n: nat)
    requires n <= |x.vaults|
    ensures var y := VaultsEmptied(x, n);
            y.clk == x.clk && forall i | 0 <= i < |x.vaults| :: y.vaults[i] == if i < n then Channel.DrainDone(x.vaults[i]) else x.vaults[i]
  {
    if n > 0 {
      VaultsEmptiedAre(x, n - 1);
      var y := VaultsEmptied(x, n - 1);
      var v := y.vaults[n - 1];
      AllReturnedFrame(VaultOpened(y, n - 1), Channel.Due(v.returnQ, v.clk));
    }
  }

  /** Every vault goes through its cycle; none of them can fail. */
  function VaultsTicked(u: Setup, x: Crossbar): Crossbar {
    x.(vaults := seq(|x.vaults|, i requires 0 <= i < |x.vaults| => Ticked(u.p, x.vaults[i])), clk := x.clk + 1)
  }

  function Ticked(p: Config, v: Channel.Channel): Channel.Channel {
    match Channel.Tick(p, v)
    case None => v
    case Some(w) => w
  }

  function DramTicked(u: Setup, x: Crossbar): Crossbar {
    VaultsTicked(u, VaultsEmptied(x, |x.vaults|))
  }

  lemma VaultCycle(p: Config, v: Channel.Channel)
    requires ChannelInv.Usable(p) && VaultFlow.Reachable(p, v)
    ensures Channel.Tick(p, Channel.DrainDone(v)).Some?
    ensures var w := Ticked(p, Channel.DrainDone(v));
            VaultFlow.Reachable(p, w) && w.clk == v.clk + 1 && forall a :: VaultFlow.Inside(w, a) == VaultFlow.Inside(Channel.DrainDone(v), a)
  {
    var w := VaultFlow.CycleReachable(p, v);
    forall a
      ensures VaultFlow.Inside(w, a) == VaultFlow.Inside(Channel.DrainDone(v), a)
    {
      VaultFlow.CountDue(v.returnQ, v.clk, a);
    }
  }

  lemma {:induction false} SameTotals(vs: seq<Channel.Channel>, ws: seq<Channel.Channel>, a: int)
    requires |vs| == |ws| && forall i | 0 <= i < |vs| :: VaultFlow.Inside(vs[i], a) == VaultFlow.Inside(ws[i], a)
    ensures Total(vs, InVault(a)) == Total(ws, InVault(a))
  {
    if vs != [] {
      SameTotals(vs[1..], ws[1..], a);
    }
  }

  /** The vaults after their cycle: still in states a vault can reach, with the same requests inside as after the call backs. */
  lemma VaultsAfterCycle(u: Setup, x: Crossbar)
    requires Usable(u) && VaultsRun(u, x)
    ensures VaultsRun(u, DramTicked(u, x))
    ensures forall i | 0 <= i < |x.vaults| :: Channel.Tick(u.p, VaultsEmptied(x, |x.vaults|).vaults[i]).Some?
    ensures forall a :: Total(DramTicked(u, x).vaults, InVault(a)) == Total(VaultsEmptied(x, |x.vaults|).vaults, InVault(a))
  {
    var n := |x.vaults|;
    VaultsEmptiedAre(x, n);
    var y, z := VaultsEmptied(x, n), DramTicked(u, x);
    forall i | 0 <= i < n
      ensures Channel.Tick(u.p, y.vaults[i]).Some?
      ensures VaultFlow.Reachable(u.p, z.vaults[i]) && z.vaults[i].clk == z.clk
      ensures forall a :: VaultFlow.Inside(y.vaults[i], a) == VaultFlow.Inside(z.vaults[i], a)
    {
      assert x.vaults[i] in x.vaults;
      VaultCycle(u.p, x.vaults[i]);
    }
    forall a
      ensures Total(z.vaults, InVault(a)) == Total(y.vaults, InVault(a))
    {
      SameTotals(y.vaults, z.vaults, a);
    }
  }

  /** A cycle of the vaults keeps everything: no lookup misses, no vault fails, nothing is lost. */
  lemma DramTickedIsSound(u: Setup, x: Crossbar)
    requires x in Sound(u)
    ensures DramTicked(u, x) in Sound(u)
  {
    OwesNothing(u, x);
    var y := VaultsEmptiedIsSound(u, x, |x.vaults|);
    VaultsAfterCycle(u, x);
    SoundAgain(u, y, DramTicked(u, x));
  }

  lemma OwesNothing(u: Setup, x: Crossbar)
    requires x in Sound(u)
    ensures x in Owed(u, [])
  {
  }

  lemma SoundAgain(u: Setup, y: Crossbar, z: Crossbar)
    requires y in Owed(u, []) && z == y.(vaults := z.vaults, clk := z.clk) && |z.vaults| == |y.vaults| && VaultsRun(u, z)
    requires forall a :: Total(z.vaults, InVault(a)) == Total(y.vaults, InVault(a))
    ensures z in Sound(u)
  {
  }
}
