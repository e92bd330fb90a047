/** When the controller turns from reads to the write buffer, and what it takes out of it (src/controller.cc:277-310). */
module WriteDraining {
  import opened Common
  import opened Configuration
  import opened Scheduler
  import opened Channel
  import opened ChannelInv
  import opened ChannelSteps

  /** The writes are so many that they go first: the buffer is full, or nine wait and no command is queued. */
  predicate MustDrain(p: Config, s: Channel) {
    |s.writeBuf| >= p.transQueueSize || (|s.writeBuf| >= 9 && forall q | 0 <= q < |s.cq.queues| :: s.cq.queues[q] == [])
  }

  /** Position `i` of `ts` is the first whose command queue has room. */
  ghost predicate FirstWithRoom(p: Config, s: Channel, ts: seq<Transaction>, i: nat) {
    i < |ts| && HasRoom(p, s, ts[i].addr) && forall k | 0 <= k < i :: !HasRoom(p, s, ts[k].addr)
  }

  predicate HasRoom(p: Config, s: Channel, a: nat) {
    0 <= Home(p, a) < |s.cq.queues| && |s.cq.queues[Home(p, a)]| < p.cmdQueueSize
  }

  /** The command queues with the command for `t` at the end of its own. */
  function Queued(p: Config, s: Channel, t: Transaction): CommandQueue
    requires HasRoom(p, s, t.addr)
  {
    var q := Home(p, t.addr);
    s.cq.(queues := s.cq.queues[q := s.cq.queues[q] + [TransToCommand(p, t.addr, t.isWrite)]])
  }

  lemma {:induction false} FirstAcceptableIs(p: Config, s: Channel, q: seq<Transaction>, from: nat) returns (i: nat)
    requires from <= |q| && forall k | 0 <= k < from :: !HasRoom(p, s, q[k].addr)
    ensures i == FirstAcceptable(p, s.cq, q, from) && i <= |q|
    ensures if i < |q| then FirstWithRoom(p, s, q, i) else forall k | 0 <= k < |q| :: !HasRoom(p, s, q[k].addr)
    decreases |q| - from
  {
    i := from;
    if from < |q| && !HasRoom(p, s, q[from].addr) {
      i := FirstAcceptableIs(p, s, q, from + 1);
    }
  }

  lemma NothingQueuedExactly(cq: CommandQueue)
    ensures QueueEmpty(cq) <==> forall q | 0 <= q < |cq.queues| :: cq.queues[q] == []
  {
    assert forall q | 0 <= q < |cq.queues| :: cq.queues[q] in cq.queues;
  }

  /** No drain is under way, and the writes need not go first: the first read with room moves, and the writes stay. */
  lemma ReadsMove(p: Config, s: Channel) returns (i: nat)
    requires !p.unifiedQueue && s.draining == 0 && !MustDrain(p, s) && forall t | t in s.readQ :: !t.isWrite
    ensures if i < |s.readQ| then
              FirstWithRoom(p, s, s.readQ, i) && Schedule(p, s) == s.(readQ := s.readQ[..i] + s.readQ[i + 1..], cq := Queued(p, s, s.readQ[i]))
            else (forall t | t in s.readQ :: !HasRoom(p, s, t.addr)) && Schedule(p, s) == s
  {
    NothingQueuedExactly(s.cq);
    i := FirstAcceptableIs(p, s, s.readQ, 0);
    if i < |s.readQ| {
      assert s.readQ[i] in s.readQ;
    }
  }

  /**
    Writes go first, `n` of them to begin with: the first with room moves, unless reads of its address are
    pending, which ends the drain at once.
   */
  lemma WritesMove(p: Config, s: Channel, n: int) returns (i: nat)
    requires !p.unifiedQueue && n > 0 && (if s.draining == 0 then MustDrain(p, s) && n == |s.writeBuf| else n == s.draining)
    requires forall t | t in s.writeBuf :: t.isWrite
    ensures i < |s.writeBuf| ==> FirstWithRoom(p, s, s.writeBuf, i)
    ensures i >= |s.writeBuf| ==> forall t | t in s.writeBuf :: !HasRoom(p, s, t.addr)
    ensures Schedule(p, s) ==
            if i >= |s.writeBuf| then s.(draining := n)
            else if s.writeBuf[i].addr in s.pendingRd then s.(draining := 0)
            else s.(writeBuf := s.writeBuf[..i] + s.writeBuf[i + 1..], cq := Queued(p, s, s.writeBuf[i]), draining := n - 1)
  {
    NothingQueuedExactly(s.cq);
    i := FirstAcceptableIs(p, s, s.writeBuf, 0);
    if i < |s.writeBuf| {
      assert s.writeBuf[i] in s.writeBuf;
    }
  }

  /** With one queue for reads and writes the first with room moves, whatever it is. */
  lemma EitherMoves(p: Config, s: Channel) returns (i: nat)
    requires p.unifiedQueue && s.draining == 0
    ensures if i < |s.unified| then
              FirstWithRoom(p, s, s.unified, i) && Schedule(p, s) == s.(unified := s.unified[..i] + s.unified[i + 1..], cq := Queued(p, s, s.unified[i]))
            else (forall t | t in s.unified :: !HasRoom(p, s, t.addr)) && Schedule(p, s) == s
  {
    i := FirstAcceptableIs(p, s, s.unified, 0);
  }

  // ----- over a run

  /** What waits outside the command queues is left alone by issues. */
  lemma IssueLeavesBuffers(p: Config, s: Channel, c: Choice, one: Channel)
    requires IssueChoice(p, s, c) == Some(one)
    ensures one.readQ == s.readQ && one.writeBuf == s.writeBuf && one.draining == s.draining && one.pendingRd.Keys <= s.pendingRd.Keys
  {
  }

  /** A cycle schedules from a state with the buffers it began with. */
  lemma CycleSchedules(p: Config, s: Channel) returns (two: Channel)
    requires Usable(p) && Inv(p, s)
    ensures Inv(p, two) && two.readQ == s.readQ && two.writeBuf == s.writeBuf && two.draining == s.draining && two.pendingRd.Keys <= s.pendingRd.Keys
    ensures Step(p, s, Cycle) == Some(Advance(Schedule(p, two)))
  {
    hide Inv, Schedule, Step;
    var asked, c, one, d;
    asked, c, one, d, two := CycleParts(p, s);
    QuietLeavesBuffers(p, s);
    IssueLeavesBuffers(p, asked, c, one);
    IssueLeavesBuffers(p, one, d, two);
  }

  lemma QuietLeavesBuffers(p: Config, s: Channel)
    ensures var asked := RefreshTick(p, DrainDone(s)); asked.readQ == s.readQ && asked.writeBuf == s.writeBuf && asked.draining == s.draining && asked.pendingRd == s.pendingRd
  {
  }

  /** Some write in the buffer goes to an address with reads pending. */
  ghost predicate ReadsInTheWay(s: Channel) {
    exists i | 0 <= i < |s.writeBuf| :: s.writeBuf[i].addr in s.pendingRd
  }

  /** A step of a drain: no read moves, and a cycle moves one write, none, or ends the drain for a read's sake. */
  ghost predicate DrainStep(s: Channel, e: Event, t: Channel) {
    s.readQ <= t.readQ &&
    if e.Arrive? then t.draining == s.draining && s.writeBuf <= t.writeBuf
    else
      t.readQ == s.readQ &&
      ((t.draining == s.draining && t.writeBuf == s.writeBuf) ||
       (t.draining == s.draining - 1 && |t.writeBuf| == |s.writeBuf| - 1) ||
       (t.draining == 0 && t.writeBuf == s.writeBuf && ReadsInTheWay(s)))
  }

  lemma DrainSteps(p: Config, s: Channel, e: Event) returns (t: Channel)
    requires Usable(p) && !p.unifiedQueue && Inv(p, s) && s.draining > 0
    ensures Step(p, s, e) == Some(t) && DrainStep(s, e, t)
  {
    hide Inv, Schedule, Step, Usable;
    match e
    case Cycle =>
      t := CycleDrains(p, s);
    case Arrive(addr, isWrite) =>
      ArrivalsWait(p, s, addr, isWrite);
      t := Step(p, s, e).value;
  }

  lemma CycleDrains(p: Config, s: Channel) returns (t: Channel)
    requires Usable(p) && !p.unifiedQueue && Inv(p, s) && s.draining > 0
    ensures Step(p, s, Cycle) == Some(t) && DrainStep(s, Cycle, t)
  {
    hide Inv, Schedule, Step, Usable, FirstWithRoom, HasRoom, Queued, MustDrain;
    var two := CycleSchedules(p, s);
    OnlyWrites(p, two);
    var i := WritesMove(p, two, s.draining);
    t := Step(p, s, Cycle).value;
    if i < |two.writeBuf| && two.writeBuf[i].addr in two.pendingRd {
      assert s.writeBuf[i].addr in s.pendingRd;
    }
  }

  lemma OnlyWrites(p: Config, s: Channel)
    requires Inv(p, s)
    ensures forall t | t in s.writeBuf :: t.isWrite
  {
  }

  lemma ArrivalsWait(p: Config, s: Channel, addr: nat, isWrite: bool)
    requires !p.unifiedQueue
    ensures var t := Step(p, s, Arrive(addr, isWrite)); t.Some? && t.value.draining == s.draining && s.writeBuf <= t.value.writeBuf && s.readQ <= t.value.readQ
  {
  }

  /** A drain is under way all through `fs`, after the run `es`. */
  ghost predicate Drains(p: Config, es: seq<Event>, fs: seq<Event>) {
    Run(p, es + fs).Some? && Run(p, es + fs).value.draining > 0 && (fs == [] || Drains(p, es, fs[..|fs| - 1]))
  }

  /** How many cycles of `fs` move a write. */
  ghost function WritesMoved(p: Config, es: seq<Event>, fs: seq<Event>): nat {
    if fs == [] then 0
    else
      var before, after := Run(p, es + fs[..|fs| - 1]), Run(p, es + fs);
      WritesMoved(p, es, fs[..|fs| - 1]) + (if before.Some? && after.Some? && |after.value.writeBuf| < |before.value.writeBuf| then 1 else 0)
  }

  /** While a drain is under way no read moves, and what is left of it is what was, less the writes moved. */
  lemma {:induction false} DrainCounts(p: Config, es: seq<Event>, fs: seq<Event>)
    requires Usable(p) && !p.unifiedQueue && Drains(p, es, fs)
    ensures Run(p, es).Some? && Run(p, es).value.readQ <= Run(p, es + fs).value.readQ
    ensures Run(p, es + fs).value.draining + WritesMoved(p, es, fs) == Run(p, es).value.draining
  {
    hide Run, Step, Inv, Usable;
    if fs == [] {
      assert es + fs == es;
    } else {
      DrainCounts(p, es, fs[..|fs| - 1]);
      var t := LastStepOf(p, es, fs);
    }
  }

  lemma LastStepOf(p: Config, es: seq<Event>, fs: seq<Event>) returns (t: Channel)
    requires Usable(p) && !p.unifiedQueue && fs != [] && Drains(p, es, fs[..|fs| - 1])
    ensures Run(p, es + fs) == Some(t) && DrainStep(Run(p, es + fs[..|fs| - 1]).value, fs[|fs| - 1], t)
  {
    hide Inv, Step, DrainStep;
    var before := es + fs[..|fs| - 1];
    RunKeepsInv(p, before);
    assert (es + fs)[..|es + fs| - 1] == before && (es + fs)[|es + fs| - 1] == fs[|fs| - 1];
    t := DrainSteps(p, Run(p, before).value, fs[|fs| - 1]);
  }

  /** A drain takes out as many writes as it set out to, unless it meets a write whose address has reads pending. */
  lemma DrainTakesOut(p: Config, es: seq<Event>, fs: seq<Event>, e: Event)
    requires Usable(p) && !p.unifiedQueue && Drains(p, es, fs) && Run(p, es + (fs + [e])).Some? && Run(p, es + (fs + [e])).value.draining == 0
    ensures Run(p, es).Some? && Run(p, es).value.readQ <= Run(p, es + (fs + [e])).value.readQ
    ensures WritesMoved(p, es, fs + [e]) == Run(p, es).value.draining || ReadsInTheWay(Run(p, es + fs).value)
  {
    hide Run, Inv, Usable, Step;
    DrainCounts(p, es, fs);
    assert (fs + [e])[..|fs + [e]| - 1] == fs && (fs + [e])[|fs|] == e;
    var t := LastStepOf(p, es, fs + [e]);
  }
}
