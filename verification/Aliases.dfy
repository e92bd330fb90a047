/**
  Data by DRAM cell. Requests are forwarded and merged by their full address, but several addresses may
  be decoded to one cell (src/controller.cc, src/configuration.cc).
 */
module Aliases {
  import opened Common
  import opened Configuration
  import opened Scheduler
  import opened Channel
  import opened ChannelInv
  import opened ChannelSteps
  import opened Cycles
  import opened Consistency
  import opened AddressLayout

  /** The last write to a cell among the first `n` accepted requests, whichever address it used. */
  function LastCellWrite(p: Config, log: seq<Request>, cell: Address, n: nat): (last: Option<nat>)
    requires n <= |log|
    ensures last.Some? ==> last.value < n && log[last.value].isWrite && p.AddressMapping(log[last.value].addr) == cell
  {
    if n == 0 then None
    else if log[n - 1].isWrite && p.AddressMapping(log[n - 1].addr) == cell then Some(n - 1)
    else LastCellWrite(p, log, cell, n - 1)
  }

  /** Read `id` was handed the data of the last write to its cell accepted before it. */
  ghost predicate CellRight(p: Config, tr: Trace, id: nat)
    requires id in tr.served
  {
    id < |tr.log| && tr.served[id].src == LastCellWrite(p, tr.log, p.AddressMapping(tr.log[id].addr), id)
  }

  ghost predicate CellsRight(p: Config, es: seq<Event>) {
    Run(p, es).Some? && forall id | id in Run(p, es).value.trace.served :: CellRight(p, Run(p, es).value.trace, id)
  }

  /** The last write to the address is the last to the cell if and only if no other address wrote the cell since. */
  lemma {:induction false} LastWritesAgree(p: Config, log: seq<Request>, a: nat, n: nat)
    requires n <= |log|
    ensures var last := LastCellWrite(p, log, p.AddressMapping(a), n);
            LastWrite(log, a, n) == last <==> last.None? || log[last.value].addr == a
  {
    if n > 0 {
      LastWritesAgree(p, log, a, n - 1);
      LastWriteBefore(log, a, n - 1);
    }
  }

  lemma {:induction false} LastWriteBefore(log: seq<Request>, a: int, n: nat)
    requires n <= |log|
    ensures var last := LastWrite(log, a, n); last.Some? ==> last.value < n && log[last.value].isWrite && log[last.value].addr == a
  {
    if n > 0 {
      LastWriteBefore(log, a, n - 1);
    }
  }

  /** In every run a read gets the last data of its cell if and only if that was written by its own address, or not at all. */
  lemma ReadsSeeCellExactly(p: Config, es: seq<Event>, id: nat)
    requires Usable(p) && Run(p, es).Some?
    requires id in Run(p, es).value.trace.served
    ensures var tr := Run(p, es).value.trace;
            id < |tr.log| &&
            (var last := LastCellWrite(p, tr.log, p.AddressMapping(tr.log[id].addr), id);
             CellRight(p, tr, id) <==> last.None? || tr.log[last.value].addr == tr.log[id].addr)
  {
    hide Run, Usable;
    ReadsSeeLastWrite(p, es, id);
    var tr := Run(p, es).value.trace;
    LastWritesAgree(p, tr.log, tr.log[id].addr, id);
  }

  // ----- runs over a set of addresses

  ghost predicate Over(addrs: iset<nat>, es: seq<Event>) {
    forall i | 0 <= i < |es| :: es[i].Arrive? ==> es[i].addr in addrs
  }

  /** No two of the addresses share a cell. */
  ghost predicate Apart(p: Config, addrs: iset<nat>) {
    forall a: nat, b: nat | a in addrs && b in addrs && p.AddressMapping(a) == p.AddressMapping(b) :: a == b
  }

  lemma CarriedLog(p: Config, s: Channel, c: Choice, now: Channel)
    requires Carried(p, s, c, now)
    ensures now.trace.log == s.trace.log
  {
  }

  lemma CycleLog(p: Config, s: Channel, c: Choice, one: Channel, d: Choice, two: Channel)
    requires Carried(p, RefreshTick(p, DrainDone(s)), c, one) && Carried(p, one, d, two)
    ensures Advance(Schedule(p, two)).trace.log == s.trace.log
  {
    CarriedLog(p, RefreshTick(p, DrainDone(s)), c, one);
    CarriedLog(p, one, d, two);
    ScheduleFrame(p, two);
  }

  lemma AcceptLog(p: Config, s: Channel, addr: nat, isWrite: bool)
    ensures Accept(p, s, addr, isWrite).trace.log == s.trace.log + [Request(addr, isWrite, s.clk)]
  {
  }

  lemma {:induction false} RunOver(p: Config, addrs: iset<nat>, es: seq<Event>)
    requires Usable(p) && Over(addrs, es)
    ensures Run(p, es).Some? && forall r | r in Run(p, es).value.trace.log :: r.addr in addrs
  {
    hide Usable, Tick, Schedule, Accept, Carried, MapsOk, LiveOf;
    RunMaps(p, es);
    if es != [] {
      var before := es[..|es| - 1];
      RunOver(p, addrs, before);
      match es[|es| - 1]
      case Arrive(addr, isWrite) =>
        AcceptLog(p, Run(p, before).value, addr, isWrite);
      case Cycle =>
        var c, one, d, two := RunCycle(p, before);
        CycleLog(p, Run(p, before).value, c, one, d, two);
    }
  }

  lemma ApartIsRight(p: Config, addrs: iset<nat>, es: seq<Event>)
    requires Usable(p) && Over(addrs, es) && Apart(p, addrs)
    ensures CellsRight(p, es)
  {
    hide Run, Usable;
    RunOver(p, addrs, es);
    var tr := Run(p, es).value.trace;
    forall id | id in tr.served
      ensures CellRight(p, tr, id)
    {
      ReadsSeeCellExactly(p, es, id);
      var last := LastCellWrite(p, tr.log, p.AddressMapping(tr.log[id].addr), id);
      if last.Some? {
        assert tr.log[last.value] in tr.log && tr.log[id] in tr.log;
      }
    }
  }

  /** Two writes to one cell under different addresses, then a read under the first. */
  function Crossing(a: nat, b: nat): seq<Event> {
    [Arrive(a, true)] + [Arrive(b, true)] + [Arrive(a, false)]
  }

  lemma Accepted(p: Config, es: seq<Event>, s: Channel, addr: nat, isWrite: bool)
    requires Run(p, es) == Some(s) && WillAccept(p, s, isWrite)
    ensures Run(p, es + [Arrive(addr, isWrite)]) == Some(Accept(p, s, addr, isWrite))
  {
    hide Accept, WillAccept;
    assert (es + [Arrive(addr, isWrite)])[..|es|] == es;
  }

  /** Room for two writes and a read. */
  predicate TakesThree(p: Config) {
    p.transQueueSize >= if p.unifiedQueue then 3 else 2
  }

  lemma CrossingForwards(p: Config, a: nat, b: nat)
    requires a != b && TakesThree(p)
    ensures Run(p, Crossing(a, b)).Some?
    ensures var tr := Run(p, Crossing(a, b)).value.trace;
            tr.log == [Request(a, true, 0)] + [Request(b, true, 0)] + [Request(a, false, 0)] && 2 in tr.served && tr.served[2] == Forwarded(Some(0))
  {
    assert Run(p, []) == Some(NewChannel(p));
    hide Run, NewCommandQueue;
    var s := NewChannel(p);
    var one := Accept(p, s, a, true);
    var two := Accept(p, one, b, true);
    assert [] + [Arrive(a, true)] == [Arrive(a, true)];
    Accepted(p, [], s, a, true);
    Accepted(p, [Arrive(a, true)], one, b, true);
    Accepted(p, [Arrive(a, true)] + [Arrive(b, true)], two, a, false);
    assert Accept(p, two, a, false).trace.log == [] + [Request(a, true, 0)] + [Request(b, true, 0)] + [Request(a, false, 0)];
  }

  lemma CrossingIsWrong(p: Config, a: nat, b: nat)
    requires a != b && TakesThree(p) && p.AddressMapping(a) == p.AddressMapping(b)
    ensures !CellsRight(p, Crossing(a, b))
  {
    hide Run;
    CrossingForwards(p, a, b);
    var tr := Run(p, Crossing(a, b)).value.trace;
    assert LastCellWrite(p, tr.log, p.AddressMapping(a), 2) == Some(1);
    assert !CellRight(p, tr, 2);
  }

  /**
    Over a set of addresses, reads see the last write to their cell in all runs if no two addresses share one,
    and only if, provided that the channel takes three requests.
   */
  lemma CellsRightExactlyWhenApart(p: Config, addrs: iset<nat>)
    requires Usable(p)
    ensures Apart(p, addrs) ==> forall es | Over(addrs, es) :: CellsRight(p, es)
    ensures TakesThree(p) ==> ((forall es | Over(addrs, es) :: CellsRight(p, es)) <==> Apart(p, addrs))
  {
    hide Usable, CellsRight;
    if Apart(p, addrs) {
      forall es | Over(addrs, es)
        ensures CellsRight(p, es)
      {
        ApartIsRight(p, addrs, es);
      }
    } else if TakesThree(p) {
      var a: nat, b: nat :| a in addrs && b in addrs && p.AddressMapping(a) == p.AddressMapping(b) && a != b;
      CrossingIsWrong(p, a, b);
      assert Over(addrs, Crossing(a, b));
    }
  }

  /** With a configured layout: no two of the addresses agree on all the bits that are decoded. */
  lemma ApartByBits(p: Config, m: AddressMap, order: seq<Field>, addrs: iset<nat>)
    requires Packed(m, order) && forall x: nat :: p.AddressMapping(x) == Decode(m, x)
    ensures Apart(p, addrs) <==>
            forall a: nat, b: nat | a in addrs && b in addrs && a != b ::
              Shifted(a, m.shiftBits) % Pow2(Width(m, order)) !=
              Shifted(b, m.shiftBits) % Pow2(Width(m, order))
  {
    forall a: nat, b: nat
      ensures p.AddressMapping(a) == p.AddressMapping(b) <==>
              Shifted(a, m.shiftBits) % Pow2(Width(m, order)) ==
              Shifted(b, m.shiftBits) % Pow2(Width(m, order))
    {
      assert p.AddressMapping(a) == Decode(m, a) && p.AddressMapping(b) == Decode(m, b);
      SameCellExactly(m, order, a, b);
    }
  }
}
