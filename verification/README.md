# DRAMsim3: proofs about the memory controller, the HMC crossbar, address mapping and the thermal grid

DRAMsim3 simulates DRAM cycle by cycle. This project models one channel of it as a clocked state machine and
proves what holds in every run, and does the same for three smaller cores: the HMC crossbar with its two
clocks, the address mapping, and the thermal grid with its time stepping.

## How the model is laid out

A run is a sequence of events: a request arrives, or a clock cycle passes. `Channel.Run` is the state after a
sequence of events, built from functions that follow the branches of `Controller`, `CommandQueue`,
`ChannelState`, `BankState` and `Refresh`. Where the program exits or aborts, the function has no value; that
no reachable state gets there is a theorem. Next to these functions stand classes with the program's fields and
loops, whose methods are proved to compute exactly those functions; `Systems.Drive` ties a whole run of the
objects, with any number of channels, to `Channel.Run`. The HMC object starts in `Hmc.NewCrossbar` and its
methods take the steps of `HmcTransit.Run`. Both states carry a record the program does not have and no decision
reads: the requests accepted, the commands issued with their cycles, what DRAM cells hold, who was called back
when, and the packets that crossed. The theorems compare the incrementally kept tables with that record.

By file:

- Channel: `Common`, `Configuration`, `Timing` (delays), `Device` (banks and activation windows), `Scheduler`
  (command queues), `Channel` (controller, refresh, runs).
- Theorems about the device: `DeviceRuns`, `DataBus`, `TimingLaws`, `Readiness`. About runs: `ChannelInv`, `Lines`,
  `ChannelSteps`, `Arbitration`, `Offers`, `Selection`, `WriteDraining`, `Capacities`, `Cycles`, `Consistency`,
  `Aliases`, `Completion`, `Ordering`, `RefreshSchedule`, `RefreshDrain`, `Fairness`, `DualIssue`, `Safety`. Runs
  put together to show what can go wrong: `Scripts`, `WriteBursts`, `LostRequests`, `SplitQueues`, `BusClash`,
  `SplitClash`, and with particular parameters `Samples`.
- Objects: `TimingTables`, `BankStates`, `ChannelStates`, `CommandQueues`, `Refreshes`, `Controllers`, `Systems`.
- Address mapping: `AddressLayout`. Thermal grid: `ThermalGrid`, `ThermalNetwork`, `ThermalAssembly`,
  `ThermalSolver`, `ThermalBounds`, `ThermalSafety`, `ThermalEuler`, `ThermalCalculators`. HMC: `VaultFlow`, `Hmc`,
  `HmcSystem`, `HmcTransit`, `HmcTurns`.

What a function of the model computes is stated a second time where it matters, in other terms: the delays in the
parameters alone (`TimingLaws`), what each queued command offers in the issued commands alone (`Offers`), the
matrix in the given resistances (`ThermalNetwork`), the crossbar in the flits and times of packets (`HmcTransit`).

Conditions that recur in the theorems:

- `ChannelInv.Usable`: there is a rank, a bankgroup and a bank, and the mapping sends every address into the
  channel. `AddressLayout.LayoutIsUsable` shows that the configured mapping does.
- `ChannelSteps.Inv` holds in every run: every queued or waiting entry stands for a pending address, and each
  address has at most one. The theorems about runs rest on it alone, so they hold with dual issue, too.
- `ChannelSteps.Intact` says more: every pending address has its entry. It holds in the runs that are
  `ChannelSteps.Whole`, that is, in which no cycle drops a column access it has taken off its queue, as dual issue
  can (src/controller.cc:108-116). These are exactly the runs that lose no request
  (`DualIssue.RunsLoseExactlyWhatTheyDrop`), and all runs without dual issue are among them.
- `ChannelSteps.DualSafe`: dual issue is off, or column accesses are at least a cycle apart in the same rank and, if
  there are several ranks, between ranks. It is a matter of the configuration alone, makes every run whole
  (`ChannelSteps.SafeRunsAreWhole`), and holds of the shipped HBM2 part (`Samples.OneRankIsSafe`).
- `TimingSpec.Timed`: the delay tables hold what the parameters prescribe; the constructor of `Timing` makes
  such tables.
- Self-refresh is off. Clocks and delays are integers, thermal quantities exact reals. Two requests are the same
  to the program when their raw addresses are, because its pending maps are keyed by the address.

## What the code does that its names or comments do not suggest

- With auto-precharge, a read and the write that follows it in the same bank are kept apart only through the
  activation between them, so bursts can collide: `DataBus.BusExclusiveExactlyWhenSafe` has the exact condition, and
  `BusClash.TightRunCollides` and `SplitClash.SplitTightRunCollides` the requests that bring it about, with one queue
  for reads and writes and with two.
- With dual issue, a second column access chosen in a cycle has left its queue when it is dropped, and its
  request stays pending without any queue entry (`DualIssue.SecondIssueLosesExactlyASecondColumn`), for good
  (`DualIssue.LostStays`). With two ranks,
  the shipped HBM2 part does so once its memory is doubled (`Samples.TwoRanksSplitLose`).
- Requests are forwarded and merged by their full address, while several addresses may decode to one cell, so a
  read can be handed data older than the last write to its cell (`Aliases.CellsRightExactlyWhenApart`).
- The simultaneous refresh policy returns from the loop after the first rank, so no other rank is ever asked for
  (`RefreshSchedule.SimultaneousAsksRankZeroOnly`).
- The table for a refreshed bank's own recovery (src/timing.cc:227-232) is never consulted for a bank refresh
  (src/channel_state.cc:171-197); it is not among the delays the theorems speak of.
- The read-before-write check compares bankgroup, bank, row and column, but not the rank (src/command_queue.cc:239-251).
- The power of cell (i, j) of a die is entered at index i * dimZ + j while the grid numbers its node j * dimX + i;
  the two agree for every cell exactly when the grid is one cell wide or deep
  (`ThermalSafety.PowerLandsOnItsNodeExactly`).
- A field count that is not a power of two leaves some of its values without any address
  (`AddressLayout.EveryValueReachedExactly`).
- A logic clock above 1000000 MHz would get a period of zero (`HmcSystem.SetClockRatio`).
- `BuildAgeQueue` is to put the oldest first, but compares an age with a position (src/hmc.cc:601): with two
  positions or more some ages come out in the wrong order (`Hmc.OldestFirstExactlyWhenAlone`).

## Model

| member | source | states |
|---|---|---|
| DeviceRuns.EarliestTimesExact | src/bankstate.cc:184-188 | After every legal command history, each bank's earliest-issue entry of each kind is the maximum, over all issued commands, of issue time plus consulted delay, or 0 |
| DeviceRuns.PairwiseDelays | src/channel_state.cc:162-288 | Any two commands of a legal history, however far apart, respect the delay consulted for that pair at every bank the later one touches |
| DeviceRuns.OpenExactlySinceActivate | src/bankstate.cc:112-182 | A bank is open exactly when some activation of it has been followed only by plain column accesses, and then on that activation's row; otherwise it holds row -1 and no hits |
| DeviceRuns.HitsAreAccesses | src/bankstate.cc:112-135 | The hit counter of an open bank is the number of plain reads and writes issued to it since its activation |
| DeviceRuns.AccessesHitTheActivatedRow | src/bankstate.cc:29-102 | Every column access goes to the row of the bank's latest activation, with nothing in between that closes it |
| DeviceRuns.RefreshAndActivateFindBanksClosed | src/channel_state.cc:98-136 | Refreshes and activations are issued only while every bank they touch is closed |
| DeviceRuns.ActivationTestExact | src/channel_state.cc:296-339 | Although one expired entry at most goes per activation, the window test passes exactly when fewer than 4 (for GDDR, also fewer than 32) activations of the rank are recent |
| DeviceRuns.ActivationsSpread | src/channel_state.cc:307-339 | An activation and the fourth after it in its rank are at least tFAW apart, for GDDR it and the 32nd at least t32AW |
| TimingLaws.EarliestByTheParameters | src/timing.cc:13-267 | A bank's table lets a command of some kind go at some cycle if and only if every earlier command does by the parameters alone: bursts, tRAS, tRP, tRCD, tWR, tRTP, tWTR, tCCD, tRTRS, tRRD, tPPD, tRFC, tREFI |
| TimingLaws.HistoriesKeepTheRules | src/timing.cc:13-267 | Any two commands of a legal history keep these rules at every bank the later one touches |
| TimingLaws.RowsStayOpen | src/timing.cc:38-49 | From an activation tRAS to the precharge, tRAS + tRP to the next activation of the bank, and tRCD, or its GDDR and HBM forms, to a column access |
| TimingLaws.WritesRecover | src/timing.cc:31-36 | From the end of a write's burst tWR to the precharge of its bank, and tRP more to an activation or refresh after an auto-precharge |
| TimingLaws.ReadsAreClosed | src/timing.cc:20-35 | From a read AL + tRTP to the precharge of its bank; after an auto-precharging read a burst, tRTP and tRP to the next activation, tRTP and tRP to a refresh |
| TimingLaws.WritesTurnAround | src/timing.cc:24-25 | A read comes tWTR after the end of the burst of a write in its rank, the short or the long one by bankgroup |
| TimingLaws.ColumnsAreSpaced | src/timing.cc:13-14 | Reads after reads and writes after writes in a rank are a burst apart, and tCCD by bankgroup |
| TimingLaws.BurstsKeepTheGap | src/timing.cc:15-30 | tRTRS passes between the bursts of a read and a later write, and between bursts of different ranks unless the later is a write |
| TimingLaws.BanksOfARankAreSpaced | src/timing.cc:34-55 | Activations of different banks of a rank are tRRD apart, precharges tPPD for GDDR and LPDDR4, bank refreshes tREFI |
| TimingLaws.RefreshesTakeTheirTime | src/timing.cc:33-57 | After a rank refresh nothing in the rank is activated, nor the rank refreshed again, for tRFC; after a precharge tRP passes to an activation or refresh |
| DataBus.BurstsInIssueOrder | src/timing.cc:13-193 | Data bursts follow each other without overlap in the order of issue, to any ranks and banks, for safe timing or when the earlier access is not an auto-precharging read |
| DataBus.OpenPageBusExclusive | src/timing.cc:78-193 | After a plain read or write no later burst overlaps its own, whatever the parameters |
| DataBus.BusExclusiveExactlyWhenSafe | src/timing.cc:13-193 | Over all legal command histories bursts never overlap if and only if bursts are empty or read-to-precharge, precharge and activate-to-write together make up for the shorter write latency; otherwise a concrete colliding history is given |
| ReadinessFacts.RankScanned | src/channel_state.cc:98-123 | The scan of a rank answers a precharge of an open bank that is ready for it, or the refresh when every bank is closed and ready, or waits, and then no open bank can be precharged yet |
| ChannelInv.RefreshReady | src/channel_state.cc:98-136 | A refresh request is answered without abort by itself or by a precharge in its rank, either of which may be issued |
| ChannelInv.ErasedIs | src/command_queue.cc:219-229 | Erasing by address and kind removes the very entry that was picked |
| ChannelInv.QueuePick | src/command_queue.cc:192-217 | What the first-ready search of a queue yields may be issued, a column access is taken off its queue, and the lookup for it cannot miss |
| ChannelInv.VisitChooses | src/command_queue.cc:37-60 | The round robin yields nothing or a command that may be issued, never a refresh, and leaves the refresh block alone |
| ChannelInv.FirstChoice | src/controller.cc:83-107 | The first command of a cycle is always one the device may be given, and the refresh block stays in line with the request at the front |
| Lines.IndexedAfterErase | src/command_queue.cc:219-229 | Issuing a column access takes its address out of the pending set and its one entry out of the queues, and keeps the exact correspondence of both |
| Lines.IndexedAfterArrival | src/controller.cc:232-274 | A new request keeps the correspondence: every pending address has exactly one entry among its queue and the waiting transactions, every other none |
| Lines.IndexedAfterMove | src/controller.cc:293-308 | Turning a waiting transaction into a command keeps that correspondence |
| Lines.OrderedAfterMove | src/controller.cc:293-308 | Taking the first acceptable transaction, past those whose queue is full, keeps reads of a bank in order within its line |
| ChannelSteps.AcceptKeepsInv | src/controller.cc:232-274 | Accepting a request, with its forwarding, joining and merging, keeps the invariant, and if the pending maps indexed the queues exactly they still do |
| ChannelSteps.IssueKeepsInv | src/controller.cc:315-362 | Issuing what was chosen neither exits nor aborts, keeps the invariant, and leaves no pending address without its entry if none was |
| ChannelSteps.ScheduleKeepsInv | src/controller.cc:277-310 | Moving a transaction to the command queues keeps the invariant, with it 0 <= write_draining <= size of the write buffer, and no queued write beside a pending read of its address in split mode |
| ChannelSteps.StepKeepsInv | src/controller.cc:83-183 | Every arrival and every cycle keeps the invariant and never exits or aborts; if it drops no column access, everything pending keeps its entry |
| ChannelSteps.RunKeepsInv | src/controller.cc:83-183 | In every run the invariant holds and none of the exits of src/controller.cc:327-354, src/command_queue.cc:219-229 and src/bankstate.cc:29-182 is reached |
| ChannelSteps.WholeRunsAreIntact | src/controller.cc:83-183 | As long as no cycle drops a column access, every pending address has exactly one entry, and all entries stand for pending addresses |
| ChannelSteps.SafeRunsAreWhole | src/controller.cc:108-116 | When column accesses are a cycle apart in a rank and, with several ranks, between ranks, no cycle of any run drops one |
| Safety.RunsAreLegal | src/controller.cc:83-183 | No run exits or aborts; the commands of every run form a legal history, and the device is what that history makes of it |
| Safety.RunsKeepTheBusExclusive | src/timing.cc:78-193 | In every run the data bursts follow each other in issue order, with open pages or safe timing |
| BusClash.TightRunCollides | src/timing.cc:78-193 | With close pages, one queue for reads and writes, and too tight a timing between the activation after a read and the next burst, a read and a write of one address make a run whose bursts collide |
| BusClash.RunsCollideExactlyWhenUnsafe | src/timing.cc:78-193 | In those of these configurations in which the read alone decides when the bank is activated again, some run has colliding bursts if and only if the timing is not safe |
| WriteBursts.Begins | src/controller.cc:277-310 | When as many writes wait as the threshold asks for, or the buffer is full, and no command is queued, draining begins and the first of them becomes a command |
| SplitClash.SplitTightRunCollides | src/controller.cc:277-310 | With separate queues, and dual issue or not, too tight a timing lets a read collide with the first of the writes that make draining begin |
| SplitClash.SplitRunsCollideExactlyWhenUnsafe | src/timing.cc:78-193 | With separate queues, too, where the read decides, some run has colliding bursts if and only if the timing is not safe |
| Samples.LopsidedCollides | src/timing.cc:78-193 | A run with a collision, for particular parameters and one queue |
| Samples.LopsidedSplitCollides | src/timing.cc:78-193 | ... and for the same parameters with separate queues |
| Arbitration.WriteFindsNoReader | src/command_queue.cc:192-217 | In every state of every run, a write chosen for issue has no read of its address with an entry any more, in split and in unified mode |
| Arbitration.EarliestOfRowIssues | src/command_queue.cc:192-217 | In every state of every run, a read chosen for issue is the earliest of the reads that have an entry and go to its bank and row, waiting transactions included |
| Arbitration.PrechargeDiscipline | src/command_queue.cc:83-116 | A precharge chosen by the queues is for the oldest queued command of its bank, which wants another row, and closes the row only if no queued command of the bank goes to it or four plain reads and writes did since its activation |
| Offers.OpenRowOffers | src/command_queue.cc:192-217 | A queued command whose row is open is offered if and only if no issued command keeps it waiting and, for a write, no earlier entry reads the same bankgroup, bank, row and column |
| Offers.OtherRowOffers | src/command_queue.cc:83-116 | With another row open a queued command offers a precharge if and only if its time has come, it is the first of its bank, and no entry goes to the open row or four plain accesses did |
| Offers.ClosedBankOffers | src/channel_state.cc:98-136 | With its bank closed a queued command offers an activation if and only if its time has come and fewer than four, for GDDR also fewer than 32, activations of the rank are recent |
| Offers.FirstOfferTaken | src/command_queue.cc:192-217 | A queue yields what the first of its entries that offers anything does |
| Selection.FirstInTurn | src/command_queue.cc:37-60 | The queue served is the first after the one served last that is neither stopped for a refresh nor without an offer; without any, nothing is chosen |
| Selection.QueuesAreApart | src/command_queue.cc:171-190 | With a queue for each bank no two banks share one; with one for each rank exactly the banks of a rank do |
| Selection.StopsExactly | src/command_queue.cc:153-169 | A refresh request stops exactly the queues that serve a bank to be refreshed |
| Selection.RefreshesComeFirst | src/controller.cc:83-107 | A waiting refresh, or a precharge towards it, is chosen whenever it is ready; until then its queues are stopped, and they are released when it is issued |
| Selection.CycleIssues | src/controller.cc:83-118 | A cycle adds to the issued commands its first choice and, with dual issue, the second one if it is of the other class |
| WriteDraining.ReadsMove | src/controller.cc:277-310 | While no drain is under way, the buffer is not full, and it holds fewer than nine writes or some command is queued, scheduling leaves the writes alone and moves the first read whose queue has room |
| WriteDraining.WritesMove | src/controller.cc:277-310 | Otherwise the first write whose queue has room moves, and the drain has one less to go; if reads of its address are pending the drain ends at once |
| WriteDraining.EitherMoves | src/controller.cc:277-310 | With one queue for reads and writes the first transaction whose command queue has room moves |
| WriteDraining.DrainCounts | src/controller.cc:277-310 | While a drain is under way no read moves, and what is left of it is what was, less the writes moved, whatever arrives |
| WriteDraining.DrainTakesOut | src/controller.cc:277-310 | A drain takes out as many writes as it set out to, unless a buffered write's address has reads pending |
| Capacities.RunsFit | src/controller.cc:216-230 | In every run no transaction queue and no command queue holds more than its size |
| Capacities.TakenExactlyWithRoom | src/controller.cc:216-230 | A request is taken if and only if the queue it would wait in has room, and changes nothing otherwise |
| Capacities.ArrivalsQueueUp | src/controller.cc:232-274 | A write waits behind the others unless one of its address is pending, a read unless a read or write of its address is |
| Cycles.RunCycle | src/controller.cc:83-118 | The cycle after any run consists of at most two issues, each of which retires exactly the requests pending for its address and no write that a queued read still waits for; what else has an entry keeps it, but for a column access that is dropped |
| Consistency.AcceptReadKeepsData | src/controller.cc:239-256 | A forwarded read gets the newest pending write; a queued read will see what the cells and pending writes say at its acceptance |
| Consistency.ReadsSeeLastWrite | src/controller.cc:232-274 | In every run each read answered, forwarded or from DRAM, returns the value of the last write to its address accepted before it |
| Aliases.ReadsSeeCellExactly | src/controller.cc:239-256 | In every run a read gets the last data written to its DRAM cell if and only if the last write there used the same address, or there was none |
| Aliases.CellsRightExactlyWhenApart | src/controller.cc:232-274 | Over a set of addresses, reads of all runs get the last data of their cells if no two of the addresses share a cell, and, provided there is room for two writes and a read, only if |
| Aliases.ApartByBits | src/configuration.cc:36-45 | With a configured layout, no two share a cell if and only if no two agree on the bits from the request size to the total width |
| Completion.DrainSettles | src/controller.cc:57-75 | After the loop that returns what is done, nothing due is left in the return queue, and every call made in it was on time |
| Completion.AcceptedOnceSettledOnce | src/controller.cc:232-274 | In every run each accepted request is exactly once among the waiting, the returning and the called back, and nothing else is |
| Completion.CalledBackOnTime | src/dram_system.cc:236-276 | In every run every call back comes at its time: one cycle after acceptance for writes and forwarded reads; for the others AL + CL and a burst, and at least one cycle, after a read command to their address that was issued after acceptance |
| Completion.CalledBackExactlyWhenDue | src/dram_system.cc:236-276 | In every run a request has been called back, at its time, if and only if it is a write or has been served and that time has gone by |
| Ordering.ReadsOfARowIssueInOrder | src/controller.cc:293-308 | In every run two reads of one bank and row that stand for their addresses are issued in the order they were accepted |
| Ordering.NoReadOvertakesItsRow | src/command_queue.cc:192-217 | In every run a read that still has its entry was accepted after every read of its row already issued |
| DualIssue.SecondIssueLosesExactlyASecondColumn | src/controller.cc:108-116 | When nothing is lost yet, the second issue of a cycle leaves some pending request without any queue entry if and only if both commands chosen in the cycle are column accesses |
| DualIssue.RunsLoseExactlyWhatTheyDrop | src/controller.cc:108-116 | For every configuration and sequence of events, some request is pending without any queue entry in the end if and only if some cycle on the way dropped a column access |
| DualIssue.LostStays | src/controller.cc:232-274 | A request that has lost its entry never gets one again, whatever arrives |
| DualIssue.SafeRunsLoseNothing | src/controller.cc:108-116 | With dual issue off, or column accesses a cycle apart, no run loses a request |
| LostRequests.MeetingLoses | src/controller.cc:108-116 | With open pages, one queue for reads and writes and dual issue, when a read in one rank may go with a write in another, a run of four requests loses the last |
| LostRequests.RunsLoseExactlyWhenUnsafe | src/timing.cc:13-77 | In such a configuration, its other delays at least a cycle, some run loses a request if and only if write delay, burst and turnaround between ranks do not exceed the read delay, which is when dual issue is not safe |
| Samples.HbmLayoutIs | configs/HBM2_4Gb_x128.ini:55 | The layout used for the shipped part is the one that its mapping text and its parameters make |
| Samples.OneRankIsSafe | configs/HBM2_4Gb_x128.ini:1-65 | The shipped parameters, one rank, are safe although the write-to-read delay between ranks would be negative |
| SplitQueues.SplitMeetingLoses | src/controller.cc:277-310 | The same with separate queues: nine writes to an open row make the buffer drain, and of two reads of the other rank the second meets a write and is lost |
| SplitQueues.SplitRunsLoseExactlyWhenUnsafe | src/timing.cc:13-77 | With separate queues, too, some run loses a request if and only if dual issue is not safe, by the same inequality |
| Samples.TwoRanksLose | configs/HBM2_4Gb_x128.ini:1-65 | With twice the memory, so two ranks, and one queue for reads and writes, a run loses a request |
| Samples.TwoRanksSplitLose | configs/HBM2_4Gb_x128.ini:1-65 | With twice the memory and all else as shipped, a run loses a request |
| RefreshSchedule.IterateStep | src/refresh.cc:29-82 | The generator's counters step through the requests in mixed-radix order |
| RefreshSchedule.RefreshesServedInOrder | src/channel_state.cc:65-95 | In every run the refreshes requested are the ones issued, in order, followed by the ones still queued |
| RefreshSchedule.RequestsFollowSchedule | src/refresh.cc:21-60 | In every run as many requests have been raised as full intervals have gone by, and the k-th is the k-th of the closed-form schedule |
| RefreshSchedule.IntervalIs | src/refresh.cc:8-20 | The interval is tREFI, for bank refresh tREFIb, and for staggered rank refresh tREFI over the number of ranks, rounded down |
| RefreshSchedule.RoundVisitsEachBankOnce | src/refresh.cc:62-82 | In a round of bank refreshes each bank is visited at exactly one index, given by its place |
| RefreshSchedule.RankAskedEveryTREFI | src/refresh.cc:8-20 | Staggered rank refresh comes back to a rank after exactly as many requests as there are ranks, which takes at most tREFI cycles |
| RefreshSchedule.SimultaneousAsksRankZeroOnly | src/refresh.cc:29-38 | Under the simultaneous policy some run asks for the refresh of a rank if and only if that is rank 0 and refresh is on |
| RefreshDrain.VisitAvoidsRank | src/command_queue.cc:37-60 | While a rank's queues are stopped for refresh, the round robin never yields a command for that rank |
| RefreshDrain.DrainChoice | src/command_queue.cc:62-81 | A cycle that finds a rank refresh waiting issues it, or a precharge in the rank, or something for another rank, the last only when nothing in the rank is ready |
| RefreshDrain.DrainCycle | src/controller.cc:83-118 | A cycle issues the waiting refresh by its deadline or leaves the deadline standing for the next cycle |
| RefreshDrain.RefreshIssuedInTime | src/command_queue.cc:62-81 | From any run on, whatever arrives, a rank refresh first in line is issued by max(R, max(t0, P) + n * max(1, tPPD) + max(1, tRP)), with n open banks and P and R bounds on the rank's precharge and refresh times |
| Fairness.VisitNears | src/command_queue.cc:144-151 | A call that does not serve an eligible queue stops at a queue nearer to it in cyclic order |
| Fairness.ReadyQueueIsServed | src/command_queue.cc:37-60 | In every run a queue that no refresh stops and that has a command ready at each of as many consecutive calls as there are queues is served at one of them |
| TimingTables.PrescribedIsRight | src/timing.cc:76-268 | Each list of the tables holds, for each kind of command, exactly the delay that the formulas give for it |
| TimingTables.Timing.constructor | src/timing.cc:7-268 | The five tables, entered list by list, are the prescribed ones for every configuration |
| BankStates.BankState.GetReadyCommand | src/bankstate.cc:29-110 | Answers which command the bank needs next and whether its time has come, aborting in the same states |
| BankStates.BankState.UpdateState | src/bankstate.cc:112-182 | Steps the bank's state machine, or reports the abort and changes nothing |
| BankStates.BankState.UpdateTiming | src/bankstate.cc:184-188 | Raises one entry and never lowers any |
| BankStates.AppliedAt | src/channel_state.cc:213-222 | Applying a list of delays entry by entry raises each listed kind once, whatever the order of the list |
| BankStates.PrescribedListRaises | src/channel_state.cc:213-222 | Applying the prescribed list has the effect the delay function describes |
| ChannelStates.ChannelState.GetReadyCommand | src/channel_state.cc:98-136 | Scans the banks of a rank, or asks one bank and the activation windows, with the specified answer |
| ChannelStates.ChannelState.UpdateOtherBanksSameBankgroupTiming | src/channel_state.cc:224-237 | The loop reaches exactly the other banks of the bankgroup |
| ChannelStates.ChannelState.UpdateOtherBankgroupsSameRankTiming | src/channel_state.cc:239-254 | The loop reaches exactly the banks of the rank's other bankgroups |
| ChannelStates.ChannelState.UpdateOtherRanksTiming | src/channel_state.cc:256-273 | The loop reaches exactly the banks of the other ranks |
| ChannelStates.ChannelState.UpdateSameRankTiming | src/channel_state.cc:275-288 | The loop reaches exactly the banks of the rank |
| ChannelStates.ChannelState.UpdateTimingAndStates | src/channel_state.cc:138-294 | States, earliest times, windows and the refresh queue change together as issuing the command requires, or an abort is reported |
| ChannelStates.ChannelState.UpdateActivationTimes | src/channel_state.cc:307-320 | Both window lists drop at most one expired entry and gain one |
| ChannelStates.ChannelState.RankNeedRefresh | src/channel_state.cc:82-95 | Appends a request, or takes out the first for the rank |
| ChannelStates.ChannelState.BankNeedRefresh | src/channel_state.cc:65-80 | Appends a request, or takes out the first for the bank |
| CommandQueues.CommandQueue.ArbitratePrecharge | src/command_queue.cc:83-116 | The scans for an older command and for a row hit decide as specified |
| CommandQueues.CommandQueue.HasRWDependency | src/command_queue.cc:239-251 | Finds a read of the same cell in front of the entry, if there is one |
| CommandQueues.CommandQueue.GetFirstReadyInQueue | src/command_queue.cc:192-217 | Finds the first entry that has something to offer, and offers it |
| CommandQueues.CommandQueue.EraseRWCommand | src/command_queue.cc:219-229 | Removes the first entry for the command, or reports the exit |
| CommandQueues.CommandQueue.GetCommandToIssue | src/command_queue.cc:37-60 | Visits the queues in cyclic order, skipping stopped ones, and takes a column access off its queue |
| CommandQueues.CommandQueue.GetRefQIndices | src/command_queue.cc:153-169 | Stops exactly the queues that serve the rank or bank to be refreshed |
| CommandQueues.CommandQueue.FinishRefresh | src/command_queue.cc:62-81 | Stops queues at the first call, releases them when the refresh itself is ready |
| CommandQueues.CommandQueue.AddCommand | src/command_queue.cc:133-142 | Appends the command to its bank's queue exactly when there is room |
| Refreshes.Refresh.ClockTick | src/refresh.cc:21-27 | Raises the next request at each positive multiple of the interval, and only then |
| Refreshes.Refresh.InsertRefresh | src/refresh.cc:29-60 | Queues the request the counters point at and moves them on |
| Controllers.Controller.AddTransaction | src/controller.cc:232-274 | Queues, merges, forwards or joins the request, and changes nothing else |
| Controllers.Controller.ReturnDoneTrans | src/controller.cc:57-75 | Hands out the first transaction that is due and removes only it |
| Controllers.Controller.IssueCommand | src/controller.cc:315-362 | Completes the reads or strikes off the write pending on the address and updates the device, or reports the exit |
| Controllers.Controller.ScheduleTransaction | src/controller.cc:277-310 | Moves the first acceptable transaction, with the draining rules for writes |
| Controllers.Controller.ClockTick | src/controller.cc:83-183 | A whole cycle of the objects is a cycle of the model |
| Systems.JedecDRAMSystem.constructor | src/dram_system.cc:154-172 | As many fresh channels as configured, no two sharing an object |
| Systems.JedecDRAMSystem.ReturnAllDone | src/dram_system.cc:241-258 | The loop calls back everything that is due in a channel, in order, and leaves the rest |
| Systems.JedecDRAMSystem.AddTransaction | src/dram_system.cc:217-234 | Sends the request to the channel of its address, which takes it exactly when its queue has room; no other channel changes |
| Systems.JedecDRAMSystem.ClockTick | src/dram_system.cc:236-286 | First the call backs of all channels, then a cycle of each: for every channel just its own step, failing if and only if one of them does |
| Systems.Drive | src/dram_system.cc:217-286 | Driven by any events, every channel ends in the state of the run of the events sent to it, and nothing exits or aborts, so that every theorem about runs is one about the objects |
| Systems.RoutedExactly | src/dram_system.cc:217-234 | Each channel sees every cycle, and of the requests exactly those whose address is decoded to it |
| AddressLayout.LogBase2 | src/common.cc:51-58 | The largest power of two that is not above a positive argument |
| AddressLayout.FieldWidths | src/configuration.cc:359-380 | Each field is as wide as its count allows, rounding down, the column less the bits of a burst |
| AddressLayout.SetAddressMapping | src/configuration.cc:359-422 | Succeeds exactly for texts that name all six fields once, and then packs the fields without gaps in the order of the text |
| AddressLayout.SlicedAfterAssembled | src/configuration.cc:36-45 | Any field values in range, put together, are decoded again |
| AddressLayout.AssembledAfterSliced | src/configuration.cc:36-45 | The decoded fields, put together, give the shifted address modulo two to the total width |
| AddressLayout.DecodingIsBijective | src/configuration.cc:36-45 | Decoding maps the shifted addresses below two to the total width one-to-one onto the product of the field ranges |
| AddressLayout.SameCellExactly | src/configuration.cc:36-45 | Two addresses share a DRAM cell if and only if they agree between the request size and the total width |
| AddressLayout.DecodeInBounds | src/configuration.cc:359-422 | Every address decodes to a place that exists, even when counts are not powers of two |
| AddressLayout.LayoutIsUsable | src/configuration.cc:359-422 | A configuration with such a mapping meets what the theorems about runs ask |
| AddressLayout.EveryValueReachedExactly | src/configuration.cc:359-380 | Every value of a field below its count is decoded from some address if and only if the count is a power of two |
| AddressLayout.GetChannel | src/dram_system.cc:42-45 | The system sends an address to the channel it decodes to |
| AddressLayout.Geometry.CalculateSize | src/configuration.cc:48-75 | There is at least one rank; the channel consists of whole ranks and is the largest such within the requested size, or one rank |
| AddressLayout.RankHoldsItsCells | src/configuration.cc:48-62 | Where nothing is rounded, the megabytes of a rank are the bits of all cells of all its devices |
| ThermalGrid.NodeAt | src/thermal_solver.c:295-393 | Numbering the grid's nodes is one-to-one onto the row numbers of the matrix |
| ThermalGrid.RowsIncrease | src/thermal_solver.c:374-388 | Each row lists its columns in strictly increasing order |
| ThermalGrid.RowSums | src/thermal_solver.c:355-371 | Each row sums to zero, or on the heat sink to the conductance to the ambient |
| ThermalGrid.InMatrixExactly | src/thermal_solver.c:295-393 | An entry is in the matrix if and only if it is in the row it names |
| ThermalGrid.MatrixIsSymmetric | src/thermal_solver.c:295-393 | With every entry the matrix holds its mirror image |
| ThermalNetwork.MatrixIsNetwork | src/thermal_solver.c:302-352 | Between two different nodes stands one entry if and only if they are neighbours: minus one over the lateral resistance of the layer in that direction, or over the mean of the two vertical resistances |
| ThermalAssembly.OrdersAgree | src/thermal_solver.c:258-272 | Counting neighbours along i and then j, or along j and then i, gives the same number |
| ThermalAssembly.CountEntries | src/thermal_solver.c:258-278 | The first traversal counts exactly the entries of the matrix |
| ThermalAssembly.SiftLast | src/thermal_solver.c:374-388 | The swaps carry the last entry of a row to its place and keep everything else in order |
| ThermalAssembly.FillRow | src/thermal_solver.c:302-388 | Fills one row, its diagonal sifted in, behind what was there |
| ThermalAssembly.CalculateMidx | src/thermal_solver.c:258-393 | The array is exactly filled, with the rows of all nodes in the order of their numbers, and is the network of the given resistances |
| ThermalAssembly.CompressMatrix | src/thermal_solver.c:475-485 | The values, columns and row starts describe the matrix |
| ThermalAssembly.CompressedByColumns | src/thermal_solver.c:475-485 | Read as a compressed-column form, the compressed rows give the same matrix |
| ThermalSolver.StepBoundIs | src/thermal.cc:735-749 | The bound on the time step is positive and the least of 100 and capacity over conductance of the diagonal entries |
| ThermalSolver.CalculateTimeStep | src/thermal.cc:735-760 | The fewest iterations, from 10 on, whose step stays below the bound; the search ends |
| ThermalSolver.SweepBlock | src/thermal_solver.c:641-688 | The loop over entries gathers, for every node, the contributions of its row |
| ThermalSolver.Sweep | src/thermal_solver.c:641-688 | A pass over all entries in blocks of eight makes the temperatures of the next iteration |
| ThermalSolver.Iterate | src/thermal_solver.c:610-704 | With the two arrays swapped after each pass, the result is that many iterations of the scheme |
| ThermalSolver.IterationsCompose | src/thermal_solver.c:610-704 | Iterations follow one another: a and then b of them are a + b |
| ThermalEuler.StepsTheHeatEquation | src/thermal_solver.c:641-688 | An iteration is an explicit Euler step: at every node capacity times the change of temperature is the time step times the heat that enters less the heat that leaves through its row |
| ThermalBounds.GatheredFromRow | src/thermal_solver.c:655-680 | Only a node's own row contributes to its new temperature |
| ThermalBounds.NodeStays | src/thermal_solver.c:655-680 | A node stays at or above any bound that its neighbours, itself and the ambient keep |
| ThermalSafety.DiagonalPositive | src/thermal_solver.c:355-371 | Every diagonal entry is positive |
| ThermalSafety.BoundedStepIsStable | src/thermal.cc:735-760 | A step within the bound leaves every node a non-negative weight of its own |
| ThermalSafety.StepStays | src/thermal_solver.c:641-688 | When every node and the ambient are at a bound or above, so is every node after an iteration |
| ThermalSafety.IterationsStay | src/thermal_solver.c:641-688 | ... and after any number of iterations |
| ThermalSafety.IterationsStayBelow | src/thermal_solver.c:641-688 | Without power no temperature ever exceeds the highest of the old ones and the ambient |
| ThermalSafety.PowerLandsOnItsNodeExactly | src/thermal_solver.c:610-640 | The index a cell's power is entered at is its node's for every cell if and only if the grid is one cell wide or deep |
| ThermalCalculators.EnterHeat | src/thermal_solver.c:610-640 | The loops give every node the heat of the ambient, of the cell that its number belongs to, or none |
| ThermalCalculators.HeatEnters | src/thermal_solver.c:610-640 | The power of cell (i, j) of die l enters node dimX * dimZ * (3l + 1) + i * dimZ + j, and the ambient temperature over its resistance every node of the heat sink |
| ThermalCalculators.HeatHasACell | src/thermal_solver.c:610-640 | Outside the heat sink no other node takes in heat |
| ThermalCalculators.ThermalCalculator.constructor | src/thermal.cc:688-705 | Matrix, number of iterations and ambient start temperatures as the solver needs them |
| ThermalCalculators.ThermalCalculator.CalcTransT | src/thermal.cc:625-634 | Over every epoch with power nowhere negative all nodes stay at the ambient temperature or above, and without power none rises above the old maximum |
| VaultFlow.AcceptGoesInside | src/controller.cc:232-274 | An accepted request is inside the vault, whatever becomes of it |
| VaultFlow.CycleLetsOut | src/dram_system.cc:236-286 | A vault's cycle lets out exactly what it calls back, for every address |
| Hmc.PacketsCarryTheBlock | src/hmc.cc:7-155 | A packet with data has a flit for every 16 bytes of the block and one more, any other one, and none without a block; the quadrant is the vault's number modulo four |
| Hmc.BuildAgeQueue | src/hmc.cc:589-613 | Lists every position of positive age exactly once and no other, each before the first listed position below its age |
| Hmc.OldestFirstExactlyWhenAlone | src/hmc.cc:589-613 | The queue is in order of age for all ages and clocks if and only if there is a single position |
| Hmc.InsertedIsSound | src/hmc.cc:397-417 | Inserting a request with its response keeps the balance of queues, vaults and lookup table for every address |
| Hmc.QuadServedIsSound | src/hmc.cc:444-463 | A request entering its vault keeps the balance |
| Hmc.LinkSentIsSound | src/hmc.cc:464-492 | A request crossing to its quadrant keeps the balance, and ages stay positive exactly on non-empty queues |
| Hmc.DeliveredIsSound | src/hmc.cc:494-507 | A response leaving its link is counted as called back |
| Hmc.QuadAnsweredIsSound | src/hmc.cc:508-542 | A response crossing to its link keeps the balance and the ages |
| Hmc.ReturnedIsSound | src/hmc.cc:621-635 | The lookup for a request that comes out of a vault never misses, and its response is on its way |
| Hmc.VaultEmptiedIsSound | src/hmc.cc:544-567 | A vault's call backs are all answered |
| Hmc.DramTickedIsSound | src/hmc.cc:544-567 | A cycle of all vaults loses nothing, misses nothing and cannot fail |
| Hmc.RequestsDrainedIsSound | src/hmc.cc:444-492 | Moving all requests on keeps everything, in whatever order the links are taken |
| Hmc.ResponsesDrainedIsSound | src/hmc.cc:494-542 | Moving all responses on keeps everything, in whatever order the quadrants are taken |
| HmcSystem.SetClockRatio | src/hmc.cc:305-319 | The logic period is the lesser of 1000000 over the logic speed and the DRAM period, and positive exactly up to 1000000 MHz |
| HmcSystem.ClocksStayLocked | src/hmc.cc:569-587 | With the logic ahead of the DRAM by less than a logic cycle, its count is the DRAM time in logic cycles, rounded up |
| HmcSystem.HMCMemorySystem.WillAcceptTransaction | src/hmc.cc:330-341 | Says yes if and only if some link has room |
| HmcSystem.HMCMemorySystem.InsertHMCReq | src/hmc.cc:419-442 | Inserts into the first link with room from the next in turn on, and succeeds if and only if some link has room |
| HmcSystem.HMCMemorySystem.AddTransaction | src/hmc.cc:343-395 | Aborts exactly for an unknown block size; otherwise the request with its packet lengths goes to the first link with room and its response to the table, or nothing changes but the turn, and the balance is kept |
| HmcSystem.HMCMemorySystem.DrainRequests | src/hmc.cc:444-492 | Quadrants to vaults, then links to quadrants, one waiting link after the other in the order of the age queue; exactly this state, and the balance is kept |
| HmcSystem.HMCMemorySystem.DrainResponses | src/hmc.cc:494-542 | Links to the processor, then quadrants to links, one waiting quadrant after the other in the order of the age queue; exactly this state, and the balance is kept |
| HmcSystem.HMCMemorySystem.VaultCallback | src/hmc.cc:621-635 | Finds the first response of the address, takes it off the table and puts it at the end of its quadrant's, whose age starts again |
| HmcSystem.HMCMemorySystem.DRAMClockTick | src/hmc.cc:544-567 | All vaults call back and go through a cycle |
| HmcSystem.HMCMemorySystem.ClockTick | src/hmc.cc:569-587 | The new state is a function of the old: one DRAM cycle with the logic cycles that fit, responses before vaults before requests; nothing lost or made up, the clocks stay in step, and the catch-up loop ends |
| HmcSystem.HMCMemorySystem.LogicClockIs | src/hmc.cc:569-587 | After n DRAM cycles the logic clock is n times the DRAM period over the logic period, rounded up |
| HmcTransit.RequestsTakeTheirTime | src/hmc.cc:444-492 | In every run of the two clocks requests enter their vaults in the order they crossed to their quadrant, each at least as many logic cycles later as it has flits; before the next one crosses there the flits have drained, two a cycle |
| HmcTransit.ResponsesTakeTheirTime | src/hmc.cc:494-542 | The same for responses, from the crossing to their link to the delivery |
| HmcTransit.CrossesExactly | src/hmc.cc:465-492 | The first request of a link crosses if and only if its quadrant has room and the flits of all that crossed there have drained |
| HmcTransit.CrossesBackExactly | src/hmc.cc:508-542 | The same for the first response of a quadrant and its link |
| HmcTransit.EntersExactly | src/hmc.cc:444-463 | The first request of a quadrant enters its vault if and only if all its flits have come through, a response has room, and the vault takes it |
| HmcTransit.DeliversExactly | src/hmc.cc:494-507 | The first response of a link is delivered if and only if all its flits have come through |
| HmcTransit.VaultsAnswerForTheNextCycle | src/hmc.cc:569-587 | When both clocks start a cycle together, what crosses back in that logic cycle had left its vault before; when not, what leaves a vault can cross at once |
| HmcTurns.EveryLinkHasItsTurn | src/hmc.cc:465-492 | In a logic cycle every link with requests either sends its first one, its age starting again, or is a cycle older |
| HmcTurns.EveryQuadHasItsTurn | src/hmc.cc:508-542 | The same for quadrants with responses |
| HmcTurns.TurnsAreArranged | src/hmc.cc:589-613 | Of two positions the one asked later has its turn first if and only if its age exceeds the number of the other, or of a position asked before it and listed before the other |
| HmcTurns.RoomIsMadeFirst | src/hmc.cc:569-587 | Responses move before requests: a quadrant with room for a response afterwards lets its first request in, if it has come through and its vault takes it; one without lets none in |
| HmcTurns.VaultsComeBetween | src/hmc.cc:569-587 | The vaults' cycle comes between: their responses queue up behind those of the quadrant, and requests of that logic cycle reach a vault after its cycle |

## Left out

- Self-refresh: with it on, waking up reaches an abort (src/controller.cc:148-157 with src/bankstate.cc:80-92); it is taken to be off, and `rank_is_sref_` is not modelled.
- Statistics, energy, printing, and the counters kept for them (`activate_by_who`, in-serve and parallelism counts): no decision reads them.
- Machine integers: clocks and delays do not wrap; a negative delay is an integer added to a clock (src/channel_state.cc:218-219).
- Vector capacities: a queue's limit is the size it was configured with, where the program compares with the reserved capacity.
- Maps: the program's multimaps are maps to non-empty sequences in insertion order, and the nested vectors of banks a map keyed by place.
- A refresh interval of zero: the program divides by it; the schedule is stated for positive intervals.
- Liveness from end to end: a full write buffer can keep the controller draining while a read it waits for stays queued (src/controller.cc:281-303), so only the drain bound and the round robin's fairness are claimed.
- A drain bound for bank refresh: activations of other banks keep pushing it back (src/timing.cc:195-203).
- DataBus.BusExclusiveExactlyWhenSafe: necessity is shown by a legal command history. Requests that make the controller produce one are given for the close-page configurations of `BusClash` and `SplitClash` in which a read issued as early as its bank allows decides when the bank is activated again; where the row cycle decides, collisions are shown under `BusClash.TooTight` only, and not those that need other traffic to delay the read.
- LostRequests.RunsLoseExactlyWhenUnsafe, and its like for separate queues: the losing runs need open pages, room for the requests and no refresh on the way, so no losing run is shown for close pages; which runs lose is `DualIssue.RunsLoseExactlyWhatTheyDrop` for all configurations.
- Aliases.CellsRightExactlyWhenApart: in runs with shared cells only the answers are compared, not what the cells would physically hold.
- HmcSystem.HMCMemorySystem.AddTransaction: models the request kinds of the plain interface by block size, not the full tables of HMC commands (src/hmc.cc:5-241).
- HMC vaults: a vault is the channel state machine as a value, not the controller object; that a response's kind fits its request is not claimed, since they are matched by address alone.
- ThermalSolver.Iterate: exact reals, no rounding; resistances, capacities and powers are given, the formulas for them and for through-silicon vias are not part of the model.
- The rest of the thermal model: SuperLU, the floorplan and power maps, several cases side by side, and final temperatures.
- `IdealDRAMSystem`, whose erase loop skips elements (src/dram_system.cc:335-348).
- INI parsing, CPU front ends, trace reading, callbacks' contents and `main`.
