/** The system around the channels: routing, call backs and the common clock (src/dram_system.h, src/dram_system.cc). */
module Systems {
  import opened Common
  import opened Configuration
  import opened TimingSpec
  import opened TimingTables
  import opened Controllers
  import ChannelStates
  import Channel
  import ChannelInv
  import ChannelSteps

  ghost predicate Disjoint(cs: seq<Controller>) {
    forall i, j | 0 <= i < |cs| && 0 <= j < |cs| && i != j :: cs[i].Repr() !! cs[j].Repr()
  }

  class JedecDRAMSystem {
    const config: Config
    const ctrls: seq<Controller>
    var clk: int

    /** No two channels share an object, and none holds the system. */
    ghost predicate Apart() {
      Disjoint(ctrls) && forall i | 0 <= i < |ctrls| :: this !in ctrls[i].Repr()
    }

    /** The channels are in order, and the first `n` are a cycle ahead of the system. */
    ghost predicate Ticked(n: int)
      reads this, set c | c in ctrls, set c | c in ctrls :: c.channelState, set c | c in ctrls :: c.channelState.timing
    {
      Apart() && |ctrls| == config.channels &&
      forall i | 0 <= i < |ctrls| :: ctrls[i].Valid() && ctrls[i].config == config && ctrls[i].clk == if i < n then clk + 1 else clk
    }

    ghost predicate Valid()
      reads this, set c | c in ctrls, set c | c in ctrls :: c.channelState, set c | c in ctrls :: c.channelState.timing
    {
      Ticked(0)
    }

    ghost function Objects(): set<object> {
      set c, o: object | c in ctrls && o in c.Repr() :: o
    }

    /** The program refuses a configuration of the hybrid memory cube here. */
    constructor (config: Config)
      requires Timed(config) && config.ranks >= 1 && config.bankgroups >= 1 && config.banksPerGroup >= 1 && !config.protocol.HMC?
      ensures this.config == config && Valid() && fresh(Objects())
      ensures forall i | 0 <= i < |ctrls| :: ctrls[i].Model() == Channel.NewChannel(config)
    {
      hide Controller.Model, Controller.Valid, Channel.NewChannel, Disjoint;
      var timing := new Timing(config);
      var cs := NewControllers(config, timing);
      this.config, ctrls, clk := config, cs, 0;
    }

    static method NewControllers(config: Config, timing: Timing) returns (cs: seq<Controller>)
      requires timing.Valid() && timing.config == config && Timed(config)
      requires config.ranks >= 1 && config.bankgroups >= 1 && config.banksPerGroup >= 1
      ensures |cs| == config.channels && Disjoint(cs) && forall c | c in cs :: fresh(c.Repr())
      ensures forall c | c in cs :: c.Valid() && c.config == config && c.clk == 0 && c.Model() == Channel.NewChannel(config)
    {
      hide Controller.Model, Controller.Valid, Channel.NewChannel;
      cs := [];
      while |cs| < config.channels
        invariant |cs| <= config.channels && Disjoint(cs) && forall c | c in cs :: fresh(c.Repr())
        invariant forall c | c in cs :: c.Valid() && c.config == config && c.clk == 0 && c.Model() == Channel.NewChannel(config)
      {
        var c := new Controller(config, timing);
        assert forall i | 0 <= i < |cs| :: cs[i] in cs && cs[i].Repr() !! c.Repr();
        cs := cs + [c];
      }
    }

    /** The channel a request is sent to. */
    function GetChannel(hexAddr: nat): int {
      config.AddressMapping(hexAddr).channel
    }

    predicate WillAcceptTransaction(hexAddr: nat, isWrite: bool)
      requires 0 <= GetChannel(hexAddr) < |ctrls|
      reads ctrls[GetChannel(hexAddr)]
    {
      ctrls[GetChannel(hexAddr)].WillAcceptTransaction(isWrite)
    }

    /** The result is false where the program finds no room. */
    method AddTransaction(hexAddr: nat, isWrite: bool) returns (ok: bool)
      requires Valid() && 0 <= GetChannel(hexAddr) < |ctrls|
      modifies ctrls[GetChannel(hexAddr)]
      ensures Valid() && ok == Channel.WillAccept(config, old(ctrls[GetChannel(hexAddr)].Model()), isWrite)
      ensures forall i | 0 <= i < |ctrls| ::
                if i == GetChannel(hexAddr) then Some(ctrls[i].Model()) == Channel.Step(config, old(ctrls[i].Model()), Channel.Arrive(hexAddr, isWrite))
                else ctrls[i].Model() == old(ctrls[i].Model())
    {
      hide ChannelStates.ChannelState.Valid, ChannelStates.ChannelState.Model, Channel.Step, Channel.WillAccept;
      var c := GetChannel(hexAddr);
      assert forall i | 0 <= i < |ctrls| && i != c :: ctrls[c] in ctrls[c].Repr() && ctrls[c] !in ctrls[i].Repr();
      RoomIs(ctrls[c], hexAddr, isWrite);
      ok := WillAcceptTransaction(hexAddr, isWrite);
      if ok {
        ctrls[c].AddTransaction(hexAddr, isWrite);
      }
    }

    lemma RoomIs(ctrl: Controller, hexAddr: nat, isWrite: bool)
      ensures ctrl.WillAcceptTransaction(isWrite) == Channel.WillAccept(ctrl.config, ctrl.Model(), isWrite)
      ensures Channel.Step(ctrl.config, ctrl.Model(), Channel.Arrive(hexAddr, isWrite)) ==
              Some(if ctrl.WillAcceptTransaction(isWrite) then Channel.Accept(ctrl.config, ctrl.Model(), hexAddr, isWrite) else ctrl.Model())
    {
    }

    /** Calls back for everything that is due in a channel; the calls are recorded in its trace. */
    method ReturnAllDone(ctrl: Controller)
      modifies ctrl`returnQueue, ctrl`trace
      ensures ctrl.returnQueue == Channel.NotDue(old(ctrl.returnQueue), clk)
      ensures ctrl.trace == old(ctrl.trace).(done := old(ctrl.trace).done + Channel.Calls(Channel.Due(old(ctrl.returnQueue), clk), clk))
    {
      ghost var calls: seq<Channel.Done> := [];
      assert ctrl.trace.done + calls == ctrl.trace.done;
      while true
        invariant Channel.NotDue(ctrl.returnQueue, clk) == Channel.NotDue(old(ctrl.returnQueue), clk)
        invariant Channel.Calls(Channel.Due(old(ctrl.returnQueue), clk), clk) == calls + Channel.Calls(Channel.Due(ctrl.returnQueue, clk), clk)
        invariant ctrl.trace == old(ctrl.trace).(done := old(ctrl.trace).done + calls)
        decreases |Channel.Due(ctrl.returnQueue, clk)|
      {
        var t := ctrl.ReturnDoneTrans(clk);
        if t.None? {
          break;
        }
        calls := calls + [Channel.Done(t.value.id, clk)];
        ctrl.trace := ctrl.trace.(done := ctrl.trace.done + [Channel.Done(t.value.id, clk)]);
      }
      NothingDue(ctrl.returnQueue, clk);
    }

    /** The call backs of one channel leave the others alone. */
    method DrainChannel(i: nat)
      requires Valid() && i < |ctrls|
      modifies ctrls[i]
      ensures Valid() && ctrls[i].Model() == Channel.DrainDone(old(ctrls[i].Model()))
      ensures forall j | 0 <= j < |ctrls| && j != i :: ctrls[j].Model() == old(ctrls[j].Model())
    {
      hide ChannelStates.ChannelState.Valid, ChannelStates.ChannelState.Model;
      assert forall j | 0 <= j < |ctrls| && j != i :: ctrls[i] in ctrls[i].Repr() && ctrls[i] !in ctrls[j].Repr();
      ReturnAllDone(ctrls[i]);
    }

    /** The call backs of every channel, before any of them goes on. */
    method DrainChannels()
      requires Valid()
      modifies set c | c in ctrls
      ensures Valid() && forall i | 0 <= i < |ctrls| :: ctrls[i].Model() == Channel.DrainDone(old(ctrls[i].Model()))
    {
      hide *;
      var i := 0;
      while i < |ctrls|
        invariant 0 <= i <= |ctrls| && Valid()
        invariant forall j | 0 <= j < |ctrls| :: ctrls[j].Model() == if j < i then Channel.DrainDone(old(ctrls[j].Model())) else old(ctrls[j].Model())
      {
        DrainChannel(i);
        i := i + 1;
      }
    }

    /** A cycle of one channel leaves the others alone. The result is false where the program exits or aborts. */
    method TickChannel(i: nat) returns (ok: bool)
      requires Ticked(i) && i < |ctrls|
      modifies ctrls[i].Repr()
      ensures ok <==> Channel.Tick(config, old(ctrls[i].Model())).Some?
      ensures ok ==> Ticked(i + 1) && Channel.Tick(config, old(ctrls[i].Model())) == Some(ctrls[i].Model())
      ensures forall j | 0 <= j < |ctrls| && j != i :: ctrls[j].Model() == old(ctrls[j].Model())
    {
      hide ChannelStates.ChannelState.Valid, ChannelStates.ChannelState.Model, Channel.Tick;
      TickAdvances(config, ctrls[i].Model());
      ok := ctrls[i].ClockTick();
    }

    lemma HoldsRepr(i: nat)
      requires i < |ctrls|
      ensures ctrls[i].Repr() <= Objects()
    {
    }

    method TickChannels() returns (ok: bool)
      requires Ticked(0)
      modifies Objects()
      ensures ok <==> forall i | 0 <= i < |ctrls| :: Channel.Tick(config, old(ctrls[i].Model())).Some?
      ensures ok ==> Ticked(|ctrls|) && forall i | 0 <= i < |ctrls| :: Channel.Tick(config, old(ctrls[i].Model())) == Some(ctrls[i].Model())
    {
      hide *;
      ok := true;
      var i := 0;
      while i < |ctrls| && ok
        invariant 0 <= i <= |ctrls| && (ok ==> Ticked(i))
        invariant !ok ==> exists j | 0 <= j < |ctrls| :: Channel.Tick(config, old(ctrls[j].Model())).None?
        invariant ok ==> forall j | 0 <= j < i :: Channel.Tick(config, old(ctrls[j].Model())) == Some(ctrls[j].Model())
        invariant ok ==> forall j | i <= j < |ctrls| :: ctrls[j].Model() == old(ctrls[j].Model())
      {
        HoldsRepr(i);
        ok := TickChannel(i);
        i := i + 1;
      }
    }

    /** One cycle of every channel; the result is false where the program exits or aborts. */
    method ClockTick() returns (ok: bool)
      requires Valid()
      modifies this, Objects()
      ensures ok <==> forall i | 0 <= i < |ctrls| :: Channel.Step(config, old(ctrls[i].Model()), Channel.Cycle).Some?
      ensures ok ==> Valid() && forall i | 0 <= i < |ctrls| :: Channel.Step(config, old(ctrls[i].Model()), Channel.Cycle) == Some(ctrls[i].Model())
    {
      hide Channel.Tick, Channel.DrainDone, Controller.Model, Controller.Valid, Ticked, Objects;
      CallBacks();
      ok := TickChannels();
      if ok {
        Advance();
      }
    }

    method CallBacks()
      requires Valid()
      modifies Objects()
      ensures Ticked(0) && forall i | 0 <= i < |ctrls| :: ctrls[i].Model() == Channel.DrainDone(old(ctrls[i].Model()))
    {
      hide Channel.DrainDone, Controller.Model, Controller.Valid, Ticked;
      assert forall c | c in ctrls :: c in c.Repr();
      DrainChannels();
    }

    method Advance()
      requires Ticked(|ctrls|)
      modifies `clk
      ensures Valid() && forall i | 0 <= i < |ctrls| :: ctrls[i].Model() == old(ctrls[i].Model())
    {
      hide Controller.Model, Controller.Valid;
      assert forall i | 0 <= i < |ctrls| :: ctrls[i] in ctrls;
      clk := clk + 1;
    }
  }

  /** What channel `i` sees of the events of the system: the requests that are sent to it, and every cycle. */
  function Routed(p: Config, es: seq<Channel.Event>, i: int): seq<Channel.Event> {
    if es == [] then []
    else
      var e := es[|es| - 1];
      Routed(p, es[..|es| - 1], i) + (if e.Arrive? && p.AddressMapping(e.addr).channel != i then [] else [e])
  }

  /** Each channel sees every cycle, and of the requests exactly those whose address is decoded to it. */
  lemma {:induction false} RoutedExactly(p: Config, es: seq<Channel.Event>, i: int, e: Channel.Event)
    ensures multiset(Routed(p, es, i))[e] == if e.Arrive? && p.AddressMapping(e.addr).channel != i then 0 else multiset(es)[e]
  {
    if es != [] {
      RoutedExactly(p, es[..|es| - 1], i, e);
      assert es == es[..|es| - 1] + [es[|es| - 1]];
    }
  }

  /** Addresses are decoded to channels there are. */
  ghost predicate Drivable(p: Config) {
    forall x: nat :: 0 <= p.AddressMapping(x).channel < p.channels
  }

  /** The channel's part of the next event does not fail. */
  lemma ChannelGoesOn(p: Config, es: seq<Channel.Event>, n: nat, i: int)
    requires ChannelInv.Usable(p) && n < |es|
    ensures Channel.Run(p, Routed(p, es[..n + 1], i)).Some?
    ensures Routed(p, es[..n + 1], i) ==
            Routed(p, es[..n], i) + (if es[n].Arrive? && p.AddressMapping(es[n].addr).channel != i then [] else [es[n]])
  {
    hide Channel.Run, ChannelInv.Usable;
    ChannelSteps.RunKeepsInv(p, Routed(p, es[..n + 1], i));
    assert es[..n + 1][..n] == es[..n] && es[..n + 1][n] == es[n];
  }

  lemma RunOn(p: Config, fs: seq<Channel.Event>, e: Channel.Event)
    requires Channel.Run(p, fs).Some?
    ensures Channel.Run(p, fs + [e]) == Channel.Step(p, Channel.Run(p, fs).value, e)
  {
    hide Channel.Step;
    assert (fs + [e])[..|fs|] == fs;
  }

  /**
    Drives a fresh system through a run. No assertion, exit or abort is met on the way, and every channel ends
    in the state of its own part of the run; so whatever is proved about runs holds of the objects.
   */
  method Drive(config: Config, es: seq<Channel.Event>) returns (sys: JedecDRAMSystem)
    requires ChannelInv.Usable(config) && Timed(config) && !config.protocol.HMC? && Drivable(config)
    ensures sys.Valid() && sys.config == config && |sys.ctrls| == config.channels
    ensures forall i | 0 <= i < |sys.ctrls| :: Channel.Run(config, Routed(config, es, i)) == Some(sys.ctrls[i].Model())
  {
    sys := new JedecDRAMSystem(config);
    assert es[..0] == [];
    var n := 0;
    while n < |es|
      invariant 0 <= n <= |es| && sys.Valid() && sys.config == config && fresh(sys) && fresh(sys.Objects())
      invariant forall i | 0 <= i < |sys.ctrls| :: Channel.Run(config, Routed(config, es[..n], i)) == Some(sys.ctrls[i].Model())
    {
      Proceed(sys, es, n);
      n := n + 1;
    }
    assert es[..n] == es;
  }

  method Proceed(sys: JedecDRAMSystem, es: seq<Channel.Event>, n: nat)
    requires sys.Valid() && n < |es| && ChannelInv.Usable(sys.config) && Drivable(sys.config)
    requires forall i | 0 <= i < |sys.ctrls| :: Channel.Run(sys.config, Routed(sys.config, es[..n], i)) == Some(sys.ctrls[i].Model())
    modifies sys, sys.Objects()
    ensures sys.Valid()
    ensures forall i | 0 <= i < |sys.ctrls| :: Channel.Run(sys.config, Routed(sys.config, es[..n + 1], i)) == Some(sys.ctrls[i].Model())
  {
    hide Channel.Run, Channel.Step, Controller.Model, Controller.Valid, ChannelInv.Usable, Channel.WillAccept;
    forall i | 0 <= i < |sys.ctrls|
      ensures Channel.Run(sys.config, Routed(sys.config, es[..n + 1], i)).Some? &&
              Channel.Run(sys.config, Routed(sys.config, es[..n + 1], i)) ==
              if es[n].Arrive? && sys.GetChannel(es[n].addr) != i then Some(sys.ctrls[i].Model())
              else Channel.Step(sys.config, sys.ctrls[i].Model(), es[n])
    {
      ChannelGoesOn(sys.config, es, n, i);
      RunOn(sys.config, Routed(sys.config, es[..n], i), es[n]);
      assert Routed(sys.config, es[..n], i) + [] == Routed(sys.config, es[..n], i);
    }
    var ok;
    match es[n] {
      case Arrive(addr, isWrite) =>
        sys.HoldsRepr(sys.GetChannel(addr));
        ok := sys.AddTransaction(addr, isWrite);
      case Cycle =>
        ok := sys.ClockTick();
    }
  }
}
