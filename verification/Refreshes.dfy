/** The refresh generator as an object (src/refresh.h, src/refresh.cc). */
module Refreshes {
  import opened Configuration
  import opened ChannelStates
  import Channel

  class Refresh {
    const config: Config
    const channelState: ChannelState
    const refreshInterval: nat
    var clk: nat
    var nextRank: nat
    var nextBg: nat
    var nextBank: nat

    ghost function Model(): Channel.RefreshTimer
      reads this
    {
      Channel.RefreshTimer(clk, nextRank, nextBg, nextBank)
    }

    ghost predicate Valid() {
      config.ranks >= 1 && config.bankgroups >= 1 && config.banksPerGroup >= 1 && refreshInterval == Channel.RefreshInterval(config)
    }

    constructor (config: Config, channelState: ChannelState)
      requires config.ranks >= 1 && config.bankgroups >= 1 && config.banksPerGroup >= 1
      ensures this.config == config && this.channelState == channelState && Valid() && Model() == Channel.RefreshTimer(0, 0, 0, 0)
    {
      this.config, this.channelState := config, channelState;
      clk, nextRank, nextBg, nextBank := 0, 0, 0, 0;
      match config.refreshPolicy {
        case RankSimultaneous => refreshInterval := config.tREFI;
        case BankStaggered => refreshInterval := config.tREFIb;
        case RankStaggered => refreshInterval := config.tREFI / config.ranks;
      }
    }

    /** An interval of zero, for which the program divides by zero, never raises a request here. */
    method ClockTick()
      requires Valid()
      modifies this, channelState`refreshQ
      ensures var due, t := Channel.RefreshDue(config, old(clk)), old(Model());
              Model() == (if due then Channel.IterateNext(config, t) else t).(clk := old(clk) + 1) &&
              channelState.refreshQ == if due then old(channelState.refreshQ) + [Channel.NextRefresh(config, t)] else old(channelState.refreshQ)
    {
      if refreshInterval != 0 && clk % refreshInterval == 0 && clk > 0 {
        InsertRefresh();
      }
      clk := clk + 1;
    }

    method InsertRefresh()
      requires Valid()
      modifies this, channelState`refreshQ
      ensures Model() == Channel.IterateNext(config, old(Model()))
      ensures channelState.refreshQ == old(channelState.refreshQ) + [Channel.NextRefresh(config, old(Model()))]
    {
      match config.refreshPolicy {
        case RankSimultaneous =>
          // the loop over ranks stops after the first one that is not in self-refresh
          channelState.RankNeedRefresh(0, true);
        case RankStaggered =>
          channelState.RankNeedRefresh(nextRank, true);
          IterateNext();
        case BankStaggered =>
          channelState.BankNeedRefresh(nextRank, nextBg, nextBank, true);
          IterateNext();
      }
    }

    method IterateNext()
      requires Valid() && !config.refreshPolicy.RankSimultaneous?
      modifies this
      ensures Model() == Channel.IterateNext(config, old(Model()))
    {
      if config.refreshPolicy.RankStaggered? {
        nextRank := (nextRank + 1) % config.ranks;
      } else {
        nextBg := (nextBg + 1) % config.bankgroups;
        if nextBg == 0 {
          nextBank := (nextBank + 1) % config.banksPerGroup;
          if nextBank == 0 {
            nextRank := (nextRank + 1) % config.ranks;
          }
        }
      }
    }
  }
}
