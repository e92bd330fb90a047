/** What the laws of legal histories say about the runs of a channel. */
module Safety {
  import opened Common
  import opened Configuration
  import opened TimingSpec
  import opened DeviceRuns
  import opened DataBus
  import opened Channel
  import opened ChannelInv
  import opened ChannelSteps

  /** No run exits or aborts; the commands of every run form a legal history, and the device is what that history makes of it. */
  lemma RunsAreLegal(p: Config, es: seq<Event>)
    requires Usable(p)
    ensures Run(p, es).Some?
    ensures var s := Run(p, es).value; Legal(p, s.trace.hist) && s.dev == After(p, s.trace.hist) && LastTime(s.trace.hist) <= s.clk
  {
    RunKeepsInv(p, es);
  }

  /** In every run the data bursts follow each other in issue order, and with open pages or safe timing never overlap. */
  lemma RunsKeepTheBusExclusive(p: Config, es: seq<Event>, i: nat, j: nat)
    requires Usable(p) && Timed(p) && Run(p, es).Some?
    requires i < j < |Run(p, es).value.trace.hist|
    requires var h := Run(p, es).value.trace.hist; h[i].cmd.kind.IsReadWrite() && h[j].cmd.kind.IsReadWrite()
    requires AutoPrechargeSafe(p) || Run(p, es).value.trace.hist[i].cmd.kind != ReadPrecharge
    ensures var h := Run(p, es).value.trace.hist; BurstStart(p, h[i]) + p.burstCycle <= BurstStart(p, h[j])
  {
    RunsAreLegal(p, es);
    BurstsInIssueOrder(p, Run(p, es).value.trace.hist, i, j);
  }
}
