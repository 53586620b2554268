# PIMSim: verified models of the memory simulator and its tools

This project models the cycle-stepped DDR memory of PIMSim and several smaller algorithms of the same repository, and
proves what they are for over all inputs, runs and states.

**The DDR scheduler.** `rank.dfy`, `command_queue.dfy`, `refresh_schedule.dfy`, `memory_controller.dfy` and
`memory_system.dfy` give each component's step as a function on its state; a run is any sequence of arriving requests
and clock ticks from reset. The controller keeps its own, optimistic copy of the bank table, one command-bus cycle ahead
of the rank's, and the rank stops the program on a command it does not allow. The central result is that this never
happens (`Runs.NoFault`). It rests on one invariant: the controller's table implies the rank's
(`table_refinement.dfy`), every queued ACTIVATE stands directly before its own column command
(`queue_discipline.dfy`, `pop_discipline.dfy`), bursts on the data bus keep their distance (`bus_timing.dfy`), and per
address the reads in flight are the reads pending (`read_conservation.dfy`). `system_safety.dfy` carries it through every
phase of an update and `runs.dfy` through every run. Order, spacing, the activation window, the refresh times and the
sharing of the data bus follow in `run_order.dfy`, `run_spacing.dfy`, `run_timing.dfy` and `run_data_bus.dfy`; the
round-robin search is `round_robin.dfy` and the order of arrival `arrival_order.dfy`. `rank_guard.dfy` says exactly what a rank
accepts, `run_ready.dfy` that in a run the controller's table allows exactly what the commands sent so far allow,
`run_accesses.dfy` how often an open row is accessed, `run_latency.dfy` in which cycle every read is answered and every write
completed, and `run_power.dfy` when the rank sleeps.

Safety is not all. `settled.dfy`, `liveness.dfy`, `progress.dfy`, `run_progress.dfy` and `run_served.dfy` prove that work
gets done. From every reachable state the scheduler sends a command within a horizon, the sum of the table's delays,
whenever there is work, and every command but a refresh takes from the work left. If the refresh period is longer than
tRFC and the queues have room for a transaction and for its two packets, every run that stops receiving requests serves all
of them, each once and in order, within a bound (`RunServed.EverythingServed`). Otherwise a request can wait for ever:
`run_starved.dfy` gives the runs and shows the condition exact (`RunStarved.ServedIff`).

`quiet_run.dfy`, `data_paths.dfy`, `turnaround_gap.dfy`, `bus_gap.dfy`, `bank_pair.dfy`, `handover_gap.dfy` and
`closing_gap.dfy` follow single requests cycle by cycle through any configuration to show that the conditions of the
spacing and data-bus theorems are exact, and where the closing of rows is unfair. `shipped_config.dfy` says which conditions the parameters of the repository's examples meet: all but one, the bound
on the row cycle time with which the spacing condition is shown exact for several banks.

The classes in `rank_device.dfy`, `queue_device.dfy`, `controller_device.dfy`, `deque.dfy` and `system_device.dfy` are the
objects as the simulator has them, with mutable fields, arrays and loops. Each method is proved to perform the step of the
corresponding function, and the run invariant is the object invariant of the whole memory system.

**Addresses.** `address_mapping.dfy` (the six reachable mapping schemes and their inverse), `channel_select.dfy` (the
logarithm and the choice of a channel) and `address_range.dfy` (interleaved ranges), over the shifts and bitwise
operators of `bit_ops.dfy`.

**Tools.** `trie.dfy` (TeraSort's partitioner against linear search), `clock_domain.dfy` (the clock-domain crosser),
`reorder_window.dfy` (the pipeline viewer's print queue), `checkpoint_upgrade.dfy` (the dependency-ordered upgrader) and
`message_stream.dfy` (varint-framed messages).

Promises that the code does not keep everywhere, with a witness and the condition under which it keeps them:

- A request can overtake an older one: `MemorySystem.addTransaction` asks only whether the controller has room and
  ignores requests that already wait in `pendingTransactions`. `ArrivalOrder.AddKeepsOrderIff` says when the order is
  kept and `ArrivalOrder.ReadOvertakesWrite` gives a run in which a read passes an older write of the same address.
  `RowOrder` is therefore stated from the controller's acceptance on; `ArrivalOrder.RunKeepsOrderIff` says for which runs
  it extends to the order of arrival.
- Column commands to one bank can come closer than the bus turnaround allows: in close page a read or write with
  auto-precharge replaces its own bank's next column times by the end of the precharge. All other distances are kept by
  every valid configuration with low power off, and these are where the time a bank takes to come back covers the turnaround
  (`RunSpacing.RunSpaced`, for open page always). `TurnaroundGap.SpacedIff` shows the condition exact for one bank, and for
  several if the row cycle time is no longer than the bank takes to come back; in both cases for a refresh period that
  leaves two requests undisturbed and tRP at most tRFC.
- The data bus is handed over a cycle late: with tRTRS zero a write can start while the rank still drives the last beats of
  a read, in open page (`BusGap.Overlap`) and in close page with several banks (`HandoverGap.TwoBanksOverlap`).
  `HandoverGap.BusSharedIff` shows that these are the only cases, with room for the packets, no refresh before the write, and
  tRRD at most a burst in close page.
- The round robin of the row closing is not fair: its pointer stays at the bank it has closed, and a bank that opens again is
  closed before one further on. `ClosingGap.ClosingIsUnfair` gives the run, which lasts until the next refresh. If no bank is
  closed twice in a row every closable bank gets its turn (`RoundRobin.BoundedClosing`).
- Refreshes can take all the time there is: with a refresh period of at most tRFC the next refresh is asked for before a
  bank can be activated, and requests wait for ever (`RunStarved.Starves`, `RunStarved.ServedIff`).
- The base-2 logarithm is one too large on the powers of two from 2^32 on, and on no other value
  (`ChannelSelect.Log2CorrectIff`).
- The trie's child array is indexed by a signed byte, so some keys with bytes from 128 up raise an exception
  (`Trie.Configure`, `Trie.SplitPointRefused`). The wrong prefix byte of child 255 does no harm, since no key reaches it.
- Hashed interleaving loses information exactly when both slices start at the same bit of the word, which the
  constructor's checks exclude for high bits below 64 and not beyond (`AddressRanges.RemoveInjectiveIff`). More than eight
  interleaving bits cannot be matched by a byte (`AddressRanges.MatchTooNarrow`, `AddressRanges.MergedExceedsUnion`).
- The crosser's 64-bit counters overflow exactly if the clocks' least common multiple does
  (`ClockDomain.NeverOverflowsIff`).
- An empty payload ends a message stream early, and one of 2^32 bytes or more is cut (`MessageStream.StreamRoundTrip`).
- The viewer's documentation asks for a bound on how far instructions are out of order; `ReorderWindow.OutputSortedIff`
  gives the exact requirement, which the bound implies.

`dafny verify dfyconfig.toml` checks the project.

## Model

| member | source | states |
|---|---|---|
| `Runs.NoFault` | Fast Simulation/PIMSim/Memory/DDR/Rank.cs:56-229 | In every run from reset, for every interleaving of requests and ticks, no exit is reached: the rank accepts every command and power change, no bus collides, no queue overflows, every returned read finds its transaction; the run invariant holds at the end |
| `Runs.CycleSteady` | Fast Simulation/PIMSim/Memory/DDR/MemorySystem.cs:65-95 | One cycle from any state with the run invariant raises no fault and re-establishes the invariant |
| `Runs.ResetSteady` | Fast Simulation/PIMSim/Memory/DDR/MemorySystem.cs:18-63 | The state after construction has the run invariant |
| `Runs.AddSteady` | Fast Simulation/PIMSim/Memory/DDR/MemorySystem.cs:100-117 | A request that arrives between cycles keeps the run invariant |
| `Runs.BeginAhead` | Fast Simulation/PIMSim/Memory/DDR/MemorySystem.cs:72-85 | The rank's update and the admission of a pending transaction raise no fault and leave the rank exactly one cycle ahead of the controller |
| `RunOrder.RowOrder` | Fast Simulation/PIMSim/Memory/DDR/CommandQueue.cs:179-435 | Per bank and row, over every run: the column commands issued, then those queued, then the transactions still to be split are exactly the accepted transactions in order; both page policies and both queue structures |
| `RunOrder.ReadOrder` | Fast Simulation/PIMSim/Memory/DDR/MemoryController.cs:993-1036 | Per address, over every run: the answers given followed by the reads still open are exactly the accepted reads in order, so each is answered at most once and with its own callback |
| `RunOrder.WriteOrder` | Fast Simulation/PIMSim/Memory/DDR/MemoryController.cs:514-572 | Over every run the data bursts completed, then the one on the bus and those waiting, are exactly the write commands issued, in order |
| `RunSpacing.RunSpaced` | Fast Simulation/PIMSim/Memory/DDR/MemoryController.cs:611-784 | With low power off, in every run of every valid configuration any two commands of which at most one is a column command are the required distance apart, which is written in the device's parameters alone (tRC, tRRD, tRCD - AL, tRAS, tRP, tRFC, AL + BL/2 + max(tRTP - tCCD, 0), AL + CL - 1 + BL/2 + tWR, AL + tRTP + tRP, AL + CL - 1 + BL/2 + tWR + tRP); two column commands (max(tCCD, BL/2), BL/2 + tRTRS + 1, AL + CL - 1 + BL/2 + tWTR) are so too where the turnaround is covered: in open page always, in close page where a bank comes back no sooner, for which a single bank also has to wait for its row cycle time |
| `RunReady.RunReadyIff` | Fast Simulation/PIMSim/Memory/DDR/MemoryController.cs:466-784 | With low power off, in every run the table lets a bank take a command if and only if the trace does: its row is open or closed as the commands sent leave it, every earlier command is as long ago as the device's parameters demand, and the last precharge, self-closing access or refresh is over; for column commands from table to trace where the turnaround is covered |
| `RunReady.RunIssuableIff` | Fast Simulation/PIMSim/Memory/DDR/CommandQueue.cs:537-600 | With low power off and the turnaround covered, the scheduler's test of a queued packet holds in every run if and only if in addition fewer than four ACTIVATEs went out in the last tFAW - 1 cycles and an open row has accesses left |
| `RankGuard.AcceptsIff` | Fast Simulation/PIMSim/Memory/DDR/Rank.cs:56-229 | Taken alone, the rank accepts a sequence of commands, whoever sends it, if and only if each is legal after those before it: row open or closed as needed, an ACTIVATE far enough from all commands since the last refresh, other commands from those since their bank was opened, a refresh with all rows closed |
| `RunLatency.RunLatencyIs` | Fast Simulation/PIMSim/Memory/DDR/Rank.cs:268-312 | In every run a cycle answers a read exactly if a read was sent AL + CL + BL/2 + 1 cycles earlier, with one of its address, and completes a write exactly if one was sent AL + CL - 1 + BL/2 cycles earlier, with its data; low power on or off |
| `RunAccesses.RunShare` | Fast Simulation/PIMSim/Memory/DDR/CommandQueue.cs:381-505 | In every run in open page a bank's access counter is the number of column commands since its row was opened without the first, and a row serves at most one more than the limit before it is closed |
| `RunPower.PowerRun` | Fast Simulation/PIMSim/Memory/DDR/MemoryController.cs:900-947 | With low power on, in every run: a cycle puts the awake rank to sleep if and only if it ends with no packet queued, no refresh waiting and all banks idle; it wakes it up if and only if a packet is queued or a refresh waits or is due within tXP, and tCKE have passed since it fell asleep; a sleeping rank is sent nothing, and for tXP after it has woken up no ACTIVATE and no REFRESH goes out |
| `RunPower.CyclePower` | Fast Simulation/PIMSim/Memory/DDR/Rank.cs:313-361 | One cycle from any state with the run invariant: falling asleep sets the wake-up time of all banks in both tables to tCKE later, waking up makes all banks idle with their next ACTIVATE tXP later |
| `RunSpacing.IssueSole` | Fast Simulation/PIMSim/Memory/DDR/CommandQueue.cs:131-531 | In close page with one bank a pop and its table update keep that an open bank is not overdue for its column command and cannot be activated again before a row cycle has passed since its ACTIVATE, refreshes included |
| `Settled.OpenBankServed` | Fast Simulation/PIMSim/Memory/DDR/CommandQueue.cs:163-296 | The only bank, when open, is sent its column command as soon as its times have come, a waiting refresh or not |
| `TurnaroundGap.SpacedIff` | Fast Simulation/PIMSim/Memory/DDR/MemoryController.cs:611-784 | In close page, low power off, requests queueable, a refresh period longer than two requests, tRP at most tRFC and, with several banks only, tRC at most the time a bank takes to come back: all commands of all runs are spaced if and only if the turnaround is covered. With one bank this is exact for every tRC |
| `TurnaroundGap.TwoRequests` | Fast Simulation/PIMSim/Memory/DDR/MemoryController.cs:611-784 | For any close-page configuration, the run of two requests for one bank: its column commands are exactly the longer of the row cycle time and the closing time plus the first-column delay apart |
| `TurnaroundGap.SpacingNeedsTurnaround` | Fast Simulation/PIMSim/Memory/DDR/MemoryController.cs:615-673 | Such configurations exist outside the condition, and there a run breaks the spacing: the auto-precharge overwrites the bank's own column times |
| `QuietRun.CycleSchedules` | Fast Simulation/PIMSim/Memory/DDR/MemoryController.cs:596-898 | Without a due refresh and pending transactions, what a cycle does to the queues and the waiting transactions is one pop and one split; to the table too unless the rank falls asleep or wakes up, and it does not fall asleep over queued packets |
| `QuietRun.OnlyChoice` | Fast Simulation/PIMSim/Memory/DDR/CommandQueue.cs:226-296 | Whatever queue the round robin starts with, the only eligible packet is chosen |
| `RunTiming.RunWindow` | Fast Simulation/PIMSim/Memory/DDR/CommandQueue.cs:138-152 | In every run the fifth of five consecutive ACTIVATEs comes at least tFAW cycles after the first; the countdown list is strictly increasing, within 1..tFAW and at most four long |
| `RunTiming.RunCountdown` | Fast Simulation/PIMSim/Memory/DDR/MemoryController.cs:576-586 | In every run the refresh counters are those of the closed refresh schedule after as many updates |
| `RunTiming.RunRefresh` | Fast Simulation/PIMSim/Memory/DDR/MemoryController.cs:576-592 | After every run the rank's refresh is due exactly at the positive multiples of the period, and its counter is positive when it comes to be decremented |
| `RunDataBus.RunApart` | Fast Simulation/PIMSim/Memory/DDR/MemoryController.cs:514-572 | With tRTRS positive, or one bank in close page, in every run the bursts under way and still to come, of writes and of reads, never overlap; low power on or off |
| `RunDataBus.OneDriver` | Fast Simulation/PIMSim/Memory/DDR/Rank.cs:273-303 | Under the same condition controller and rank never drive the data bus in the same cycle |
| `HandoverGap.BusSharedIff` | Fast Simulation/PIMSim/Memory/DDR/MemoryController.cs:514-572 | Under both page policies, low power on or off: controller and rank never drive the data bus together in any run if and only if tRTRS is positive or a single bank closes itself after every access; for requests queueable (three packets to a shared queue in close page), no refresh due before the write, and in close page tRRD at most a burst |
| `HandoverGap.TwoBanksOverlap` | Fast Simulation/PIMSim/Memory/DDR/Rank.cs:273-303 | With tRTRS zero in close page, for every such configuration, the run of a read and a write of two banks whose bursts share a cycle |
| `HandoverGap.TwoBanksCollide` | Fast Simulation/PIMSim/Memory/DDR/Rank.cs:273-303 | Such configurations exist: two banks with queues of their own, CL 2 and a burst of one cycle |
| `BankPair.HeadsOnly` | Fast Simulation/PIMSim/Memory/DDR/CommandQueue.cs:226-296 | In either queue structure a packet of two busy banks is eligible if and only if it is the first of its bank and the bank lets it go |
| `BusGap.Overlap` | Fast Simulation/PIMSim/Memory/DDR/Rank.cs:273-303 | With tRTRS zero in open page, low power on or off, the run of a read and a write of one row whose bursts share a cycle |
| `RunServed.EverythingServed` | Fast Simulation/PIMSim/Memory/DDR/MemoryController.cs:462-1042 | Where the refresh period exceeds tRFC and there is room for a transaction and its two packets, every run, continued by ticks alone, serves every request that has arrived: all are accepted, their commands issued in order per row, their reads answered in order per address, their writes completed; nothing is left in any queue, no column command or data on any bus, nothing in the rank or among the finished reads. The ticks are at most four response times for each request plus the read latency, a burst and one; both page policies, both queue structures, low power on or off |
| `RunStarved.ServedIff` | Fast Simulation/PIMSim/Memory/DDR/MemoryController.cs:576-592 | Every run of a valid configuration can be continued by ticks until everything is served if and only if the refresh period exceeds tRFC, the transaction queue has a place and a command queue has two |
| `RunStarved.Starves` | Fast Simulation/PIMSim/Memory/DDR/CommandQueue.cs:163-217 | With a refresh period of at most tRFC, a request that arrives just before the first refresh is asked for is never served: no command but REFRESH is ever sent |
| `RunServed.WorkArrives` | Fast Simulation/PIMSim/Memory/DDR/MemoryController.cs:462-1042 | In every run the work left is at most four times the number of requests |
| `RunServed.RunPrompt` | Fast Simulation/PIMSim/Memory/DDR/MemoryController.cs:993-1036 | After every cycle of a run no finished read is kept waiting, and no data is further away than its latency |
| `RunProgress.Drains` | Fast Simulation/PIMSim/Memory/DDR/CommandQueue.cs:131-531 | From every reachable state all packets are sent within the remaining effort times the response time, if the refresh period exceeds tRFC |
| `RunProgress.AwakeProgress` | Fast Simulation/PIMSim/Memory/DDR/CommandQueue.cs:163-505 | While packets are queued, an awake controller sends a command that does some of the work within the horizon, the sum of the table's delays, plus tRFC * (tRFC + 2) cycles, if the refresh period exceeds tRFC |
| `RunProgress.RefreshRounds` | Fast Simulation/PIMSim/Memory/DDR/CommandQueue.cs:163-217 | After a refresh in cycle x, with nothing but refreshes to wait for and the next one asked for no earlier than cycle a, some work is done within tRFC * (x + tRFC - a + 2) cycles, 2 * tRFC at most when a is later than x + tRFC: every further refresh moves the next request away |
| `Progress.UpdateActivates` | Fast Simulation/PIMSim/Memory/DDR/CommandQueue.cs:163-296 | A refresh goes out only when every bank may be activated and holds up all of them for tRFC; with all banks closed nothing else is sent while one waits, while no packet is queued and until a bank may be activated |
| `RunProgress.RunLively` | Fast Simulation/PIMSim/Memory/DDR/MemoryController.cs:466-784 | In every state of a run whatever the scheduler waits for is over within the horizon |
| `Settled.SettledSends` | Fast Simulation/PIMSim/Memory/DDR/CommandQueue.cs:131-531 | Pop sends a command whenever all times have come and there is a packet or a waiting refresh, so no combination of open rows, access counters and queue order deadlocks |
| `Settled.OpenRowMoves` | Fast Simulation/PIMSim/Memory/DDR/CommandQueue.cs:381-505 | In open page, a queue whose head waits for another row gets a command of the open row sent or the row closed |
| `Settled.RefreshMoves` | Fast Simulation/PIMSim/Memory/DDR/CommandQueue.cs:163-217 | While a refresh waits, the first open bank is served or closed, and then the refresh goes out |
| `Liveness.PopLively` | Fast Simulation/PIMSim/Memory/DDR/CommandQueue.cs:131-531 | A pop puts the scheduler off only by sending a command, keeps in close page a waiter for every open bank, and keeps the access counters within the limit |
| `Progress.UpdateEffort` | Fast Simulation/PIMSim/Memory/DDR/MemoryController.cs:462-1042 | No update adds to the work left, and every command but a refresh takes from it |
| `Progress.UpdateLively` | Fast Simulation/PIMSim/Memory/DDR/MemoryController.cs:462-1042 | One update keeps these bounds, sends a command when its time has come, and neither falls asleep nor stays asleep over queued packets |
| `DataPaths.CyclePaths` | Fast Simulation/PIMSim/Memory/DDR/Rank.cs:268-312 | What a cycle does to the countdowns and bursts of both data paths |
| `TableRefinement.ReadyMeansAllowed` | Fast Simulation/PIMSim/Memory/DDR/Rank.cs:56-229 | A command the controller's table allows is one the rank's table allows a cycle later |
| `TableRefinement.CommandKeepsRel` | Fast Simulation/PIMSim/Memory/DDR/MemoryController.cs:611-784 | Both tables' updates for the same command keep the controller's bank at least as restrictive as the rank's |
| `TableRefinement.AgeKeepsRel` | Fast Simulation/PIMSim/Memory/DDR/MemoryController.cs:466-500 | The controller's countdowns (end of auto-precharge, precharge, refresh) keep the relation |
| `TableRefinement.LinkIssues` | Fast Simulation/PIMSim/Memory/DDR/MemoryController.cs:596-808 | Issuing a ready command keeps the tables linked with the command on the bus and acceptable to the rank |
| `TableRefinement.LinkDelivers` | Fast Simulation/PIMSim/Memory/DDR/MemoryController.cs:503-511 | The command on the bus is accepted by the rank and the tables stay linked |
| `TableRefinement.LinkPower` | Fast Simulation/PIMSim/Memory/DDR/MemoryController.cs:904-943 | Entering and leaving power-down raises no fault and keeps the tables linked; when it happens is `RunPower.PowerRun` |
| `SystemSafety.UpdateSound` | Fast Simulation/PIMSim/Memory/DDR/MemoryController.cs:462-1042 | One controller update raises no fault and keeps the whole system invariant |
| `SystemSafety.SentIsReady` | Fast Simulation/PIMSim/Memory/DDR/CommandQueue.cs:131-531 | Whatever pop sends is ready by the controller's table, including the commands of the refresh sequence |
| `SystemSafety.IssueSound` | Fast Simulation/PIMSim/Memory/DDR/MemoryController.cs:596-808 | Issuing keeps every part of the invariant: tables, queues, write and read pipelines, open reads |
| `SystemSafety.SplitSound` | Fast Simulation/PIMSim/Memory/DDR/MemoryController.cs:812-898 | Splitting a transaction never overflows a queue and keeps the invariant |
| `PopDiscipline.PopKeepsDiscipline` | Fast Simulation/PIMSim/Memory/DDR/CommandQueue.cs:131-531 | Pop keeps every queued ACTIVATE directly before its own column command, and every column command left without one is the oldest of its row on the open bank |
| `PopDiscipline.ClosedRowHasNoWaiter` | Fast Simulation/PIMSim/Memory/DDR/CommandQueue.cs:451-505 | A bank is only closed when no column command without an ACTIVATE waits for its open row |
| `QueueDiscipline.PickedInOrder` | Fast Simulation/PIMSim/Memory/DDR/CommandQueue.cs:239-435 | A packet picked by the search is the oldest column command, or the oldest ACTIVATE, of its row in the queue |
| `QueueFlow.PoppedCollect` | Fast Simulation/PIMSim/Memory/DDR/CommandQueue.cs:131-531 | What a pop removes from a row's commands in its queue is exactly the command it sends, from the front |
| `ActivationWindow.PopKeepsWindow` | Fast Simulation/PIMSim/Memory/DDR/CommandQueue.cs:138-152 | One pop keeps the countdown list's meaning and the four-per-window rule for the whole history |
| `ReadConservation.ReturnMatches` | Fast Simulation/PIMSim/Memory/DDR/MemoryController.cs:993-1036 | With the conservation invariant, the oldest finished read finds a pending transaction of its address, and the invariant is kept |
| `ReadConservation.ReturnPathKeeps` | Fast Simulation/PIMSim/Memory/DDR/Rank.cs:268-312 | Moving data through the rank's return pipeline to the controller keeps, per address, the reads in flight in order |
| `ReadConservation.SplitKeeps` | Fast Simulation/PIMSim/Memory/DDR/MemoryController.cs:812-898 | Splitting a read adds it at the same end of the pending list and of the reads in flight |
| `TransactionFlow.UpdateLine` | Fast Simulation/PIMSim/Memory/DDR/MemoryController.cs:462-1042 | One update moves at most one column command per row from the front of its line to the trace |
| `TransactionFlow.UpdateReads` | Fast Simulation/PIMSim/Memory/DDR/MemoryController.cs:462-1042 | One update answers at most the oldest open read of an address |
| `TransactionFlow.UpdateWrites` | Fast Simulation/PIMSim/Memory/DDR/MemoryController.cs:514-605 | One update completes at most the oldest unfinished write and queues data for the write it issues |
| `CommandSpacing.ReadyIsSpaced` | Fast Simulation/PIMSim/Memory/DDR/CommandQueue.cs:537-600 | A command allowed by a table that remembers an earlier command comes no sooner than the required distance |
| `CommandSpacing.CommandRemembers` | Fast Simulation/PIMSim/Memory/DDR/MemoryController.cs:611-784 | No later command makes the table forget a distance it owes, with the time a closed bank needs to come back counted in |
| `CommandSpacing.AutoPrechargeReturns` | Fast Simulation/PIMSim/Memory/DDR/MemoryController.cs:615-730 | A bank that closes itself is not sent another column command before its reopening and first-column time |
| `BusTiming.FlowAges` | Fast Simulation/PIMSim/Memory/DDR/MemoryController.cs:536-572 | A countdown list whose entries are a burst apart stays so as it ages, and a burst starts only on a free bus |
| `RoundRobin.SingleCycle` | Fast Simulation/PIMSim/Memory/DDR/CommandQueue.cs:659-694 | Under both policies every rank and bank pair is reached from every other after exactly one number of steps below ranks * banks |
| `RoundRobin.NextIsSuccessor` | Fast Simulation/PIMSim/Memory/DDR/CommandQueue.cs:659-694 | The next pair is the cyclic successor in the policy's numbering of all pairs |
| `RoundRobin.SingleRankTurn` | Fast Simulation/PIMSim/Memory/DDR/CommandQueue.cs:659-694 | With one rank both policies step to the next bank in turn |
| `RoundRobin.PopIdleIff` | Fast Simulation/PIMSim/Memory/DDR/CommandQueue.cs:226-505 | Pop sends nothing if and only if no refresh step is possible, no queue outside a waiting refresh holds an eligible issuable command and, for open page, no open bank may be closed |
| `RoundRobin.PassedOverGetsCloser` | Fast Simulation/PIMSim/Memory/DDR/CommandQueue.cs:510-521 | A ready queue that is passed over moves closer to the round-robin pointer, posted CAS included |
| `RoundRobin.BoundedWait` | Fast Simulation/PIMSim/Memory/DDR/CommandQueue.cs:226-521 | A queue that stays ready is passed over fewer than 2 * banks times in a row |
| `RoundRobin.PostedCas` | Fast Simulation/PIMSim/Memory/DDR/CommandQueue.cs:510-521 | With an additive latency every other command holds the pointer, so that the queue served is served again if it is ready; otherwise it comes last in turn |
| `RoundRobin.PassedOverClosing` | Fast Simulation/PIMSim/Memory/DDR/CommandQueue.cs:467-502 | A closable bank that the search passes over comes closer to the pointer by the distance of the bank that is closed instead: strictly if and only if the pointer does not stand at that bank |
| `RoundRobin.BoundedClosing` | Fast Simulation/PIMSim/Memory/DDR/CommandQueue.cs:467-502 | If no bank is closed by the search twice in a row, a bank that stays closable is passed over at most as often as it is turns away from the pointer, and once more if the pointer stands at the first bank closed |
| `RoundRobin.ClosedAgain` | Fast Simulation/PIMSim/Memory/DDR/CommandQueue.cs:467-502 | Without that condition any number of searches can pass a closable bank over: the pointer stays at the bank it has closed, which is first again if it has opened again |
| `ClosingGap.ClosingIsUnfair` | Fast Simulation/PIMSim/Memory/DDR/CommandQueue.cs:451-505 | For any number of rounds, a run of requests in which a bank with its row open, no packet queued for it and its precharge time come is passed over in every third cycle, while the bank at the pointer is opened, read and closed again; no refresh in between |
| `TransactionFlow.SplitOldest` | Fast Simulation/PIMSim/Memory/DDR/MemoryController.cs:812-898 | At most one transaction is split: the oldest whose bank's queue has two places left; its ACTIVATE and its column command, with the fields of its address and the kind of the row policy, join the end of that queue, and a read joins the pending reads |
| `RefreshSchedule.RequestTimes` | Fast Simulation/PIMSim/Memory/DDR/MemoryController.cs:402-405 | For any number of ranks, rank i's refresh is requested in update n if and only if n = q(i + 1) + mP for some m >= 0 |
| `RefreshSchedule.NeverWraps` | Fast Simulation/PIMSim/Memory/DDR/MemoryController.cs:1039-1042 | No refresh counter is ever decremented at zero if and only if the period is at least one cycle per rank |
| `ArrivalOrder.AddKeepsOrderIff` | Fast Simulation/PIMSim/Memory/DDR/MemorySystem.cs:100-117 | A new request stays behind all earlier ones if and only if it is not accepted past a different pending one |
| `ArrivalOrder.RunKeepsOrderIff` | Fast Simulation/PIMSim/Memory/DDR/MemorySystem.cs:65-117 | All along a run the requests accepted and then pending are those that arrived, in order, if and only if no request of the run overtakes another |
| `ArrivalOrder.DistinctInOrderIff` | Fast Simulation/PIMSim/Memory/DDR/MemorySystem.cs:65-117 | For requests that can be told apart the same at the end of the run alone: one that overtakes stays out of place |
| `ArrivalOrder.ArrivalOrderHolds` | Fast Simulation/PIMSim/Memory/DDR/MemorySystem.cs:65-117 | Without overtaking, column commands per row and answers per address are in order of arrival |
| `ArrivalOrder.NothingLost` | Fast Simulation/PIMSim/Memory/DDR/MemorySystem.cs:65-117 | Over every run the accepted and the pending requests together are those that arrived, as a multiset |
| `ArrivalOrder.ReadOvertakesWrite` | Fast Simulation/PIMSim/Memory/DDR/MemorySystem.cs:100-117 | A reachable run in which a read goes past an earlier pending write of the same address |
| `ArrivalOrder.AdmissionKeepsOrder` | Fast Simulation/PIMSim/Memory/DDR/MemorySystem.cs:77-84 | Moving a pending transaction into the controller does not reorder requests |
| `ShippedConfig.ShippedIsCovered` | Fast Simulation/PIMSim/examples/1cpu1pu_function_detail/DRAM.ini:3-60 | The parameters shipped with the examples, under both page policies, both queue structures and low power on or off: they are valid, the turnaround is covered, the data bus is handed over in time, the refresh period leaves time for requests, and the side conditions of `HandoverGap.BusSharedIff` hold; those of `TurnaroundGap.SpacedIff` do not, as tRC is longer than a bank takes to come back |
| `RankDevice.RankObject.ReceiveFromBus` | Fast Simulation/PIMSim/Memory/DDR/Rank.cs:44-255 | The in-place legality checks and bank updates give exactly the specified new rank state or fault |
| `RankDevice.RankObject.Update` | Fast Simulation/PIMSim/Memory/DDR/Rank.cs:268-312 | The read-return pipeline steps as specified and hands over the packet whose burst has ended |
| `RankDevice.RankObject.PowerUp` | Fast Simulation/PIMSim/Memory/DDR/Rank.cs:313-336 | Wakes all banks or reports the illegal power-up |
| `RankDevice.RankObject.PowerDown` | Fast Simulation/PIMSim/Memory/DDR/Rank.cs:337-361 | Puts all banks to sleep or reports the illegal power-down |
| `QueueDevice.CommandQueueObject.Pop` | Fast Simulation/PIMSim/Memory/DDR/CommandQueue.cs:131-531 | The loops over queues and banks compute the specified choice and leave exactly the specified queues, counters and pointers |
| `QueueDevice.CommandQueueObject.FindInQueues` | Fast Simulation/PIMSim/Memory/DDR/CommandQueue.cs:226-296 | The do-while search over the queues terminates and finds the first ready queue in turn and its first eligible packet |
| `QueueDevice.CommandQueueObject.FindRowToClose` | Fast Simulation/PIMSim/Memory/DDR/CommandQueue.cs:451-505 | The do-while search over banks terminates and finds the first closable one in turn |
| `QueueDevice.CommandQueueObject.FindRefresh` | Fast Simulation/PIMSim/Memory/DDR/CommandQueue.cs:163-217 | The refresh logic picks a last column command, a precharge, the refresh or nothing, as specified |
| `QueueDevice.CommandQueueObject.IsIssuable` | Fast Simulation/PIMSim/Memory/DDR/CommandQueue.cs:537-600 | The test of a packet against the bank table |
| `QueueDevice.CommandQueueObject.Enqueue` | Fast Simulation/PIMSim/Memory/DDR/CommandQueue.cs:96-130 | Appends at the end of the packet's queue, a queue past its depth being a fault |
| `ControllerDevice.MemoryControllerObject.Update` | Fast Simulation/PIMSim/Memory/DDR/MemoryController.cs:462-1042 | One update in place gives exactly the specified controller and rank states, outputs or fault |
| `ControllerDevice.MemoryControllerObject.IssueCommand` | Fast Simulation/PIMSim/Memory/DDR/MemoryController.cs:596-808 | Pops, records the command in the table, queues write data and drives the command bus |
| `ControllerDevice.MemoryControllerObject.SplitTransaction` | Fast Simulation/PIMSim/Memory/DDR/MemoryController.cs:812-898 | Splits the oldest transaction whose queue has room for two packets |
| `ControllerDevice.MemoryControllerObject.AnswerRead` | Fast Simulation/PIMSim/Memory/DDR/MemoryController.cs:993-1036 | Returns the first pending transaction of the oldest finished read's address, a missing one being a fault |
| `ControllerDevice.MemoryControllerObject.AddTransaction` | Fast Simulation/PIMSim/Memory/DDR/MemoryController.cs:410-422 | Appends when there is room and refuses otherwise |
| `ControllerDevice.MemoryControllerObject.ReceiveFromBus` | Fast Simulation/PIMSim/Memory/DDR/MemoryController.cs:434-457 | Data becomes a finished read, anything else a fault |
| `SystemDevice.MemorySystemObject.Update` | Fast Simulation/PIMSim/Memory/DDR/MemorySystem.cs:65-95 | Between any two calls the run invariant holds; an update never reports a fault and performs exactly one cycle |
| `SystemDevice.MemorySystemObject.AddTransaction` | Fast Simulation/PIMSim/Memory/DDR/MemorySystem.cs:100-117 | Hands the request to the controller or to the pending deque, keeping the run invariant |
| `LinkedDeque.Deque.PushFront` | Fast Simulation/PIMSim/Memory/DDR/GenericDeque.cs:150-187 | The chain of links and its mirror image grow by one node in front; the contents are the new item before the old ones |
| `LinkedDeque.Deque.PushBack` | Fast Simulation/PIMSim/Memory/DDR/GenericDeque.cs:194-231 | The same at the back |
| `LinkedDeque.Deque.PopFront` | Fast Simulation/PIMSim/Memory/DDR/GenericDeque.cs:242-284 | Removes the first item, or nothing and None when empty, and keeps both chains |
| `LinkedDeque.Deque.PopBack` | Fast Simulation/PIMSim/Memory/DDR/GenericDeque.cs:295-337 | Removes the last item, or nothing and None when empty, and keeps both chains |
| `LinkedDeque.Deque.Clear` | Fast Simulation/PIMSim/Memory/DDR/GenericDeque.cs:106-119 | Leaves the empty deque |
| `LinkedDeque.Deque.ToArray` | Fast Simulation/PIMSim/Memory/DDR/GenericDeque.cs:391-403 | Copies the contents from front to back |
| `LinkedDeque.Deque.AssertValid` | Fast Simulation/PIMSim/Memory/DDR/GenericDeque.cs:429-462 | The walk over the links in both directions always succeeds on a valid deque |
| `AddressMapping.SameLocationIff` | Fast Simulation/PIMSim/Memory/DDR/MemoryController.cs:17-250 | Two addresses map to the same location if and only if they agree on the mapped bits |
| `AddressMapping.EncodeInvertsDecode` | Fast Simulation/PIMSim/Memory/DDR/MemoryController.cs:17-250 | A transaction-aligned address below capacity is recovered from its location |
| `AddressMapping.DecodeInvertsEncode` | Fast Simulation/PIMSim/Memory/DDR/MemoryController.cs:17-250 | Every location with fields in range is hit by an aligned address below capacity |
| `AddressMapping.MapAddress` | Fast Simulation/PIMSim/Memory/DDR/MultiChannelMemorySystem.cs:16-249 | The shift-and-xor sequence of each of the six schemes computes the decoded location, whose fields `AddressMapping.FieldsOf` gives; both copies of the code are this sequence |
| `AddressMapping.FieldsOf` | Fast Simulation/PIMSim/Memory/DDR/MemoryController.cs:17-250 | For each of the six schemes, the bits of the address that make up each of the five fields, as slices at explicit positions |
| `AddressMapping.TakeField` | Fast Simulation/PIMSim/Memory/DDR/MemoryController.cs:76-79 | Shift out, shift back in and xor give the low bits of the address |
| `ChannelSelect.Log2CorrectIff` | Fast Simulation/PIMSim/Configs/DRAMConfig.cs:134-146 | The computed logarithm is the ceiling logarithm if and only if the value is below 2^32 or not a power of two |
| `ChannelSelect.ComputeLog2` | Fast Simulation/PIMSim/Memory/DDR/MultiChannelMemorySystem.cs:296-309 | The loop, with its 32-bit shift, computes the specified logarithm |
| `ChannelSelect.IsPowerOfTwo` | Fast Simulation/PIMSim/Memory/DDR/MultiChannelMemorySystem.cs:310-313 | True exactly for the powers of two below 2^32 |
| `ChannelSelect.FindChannelNumber` | Fast Simulation/PIMSim/Memory/DDR/MultiChannelMemorySystem.cs:475-503 | Refuses exactly when the channel count is not a power of two below 2^32, and otherwise gives a channel below the count |
| `AddressRanges.Partition` | Fast Simulation/PIMSim/General/AddressRange.cs:299-325 | With at most eight interleaving bits, each address from start to end belongs to exactly one of the ranges that differ in the match, plain or hashed; no other address to any |
| `AddressRanges.ContainsBySelector` | Fast Simulation/PIMSim/General/AddressRange.cs:299-330 | An address belongs to an interleaved range if and only if it lies between start and end and the slice of its bits, xor the hash slice if there is one, is the match |
| `AddressRanges.MatchTooNarrow` | Fast Simulation/PIMSim/General/AddressRange.cs:299-330 | With nine or more bits, plain or hashed, some address matches no byte-wide match value |
| `AddressRanges.RemoveIsInjective` | Fast Simulation/PIMSim/General/AddressRange.cs:299-363 | Removing the slice keeps the addresses of a range apart whatever the overlap of slice and hash slice, shift counts taken modulo 64 |
| `AddressRanges.RemoveInjectiveIff` | Fast Simulation/PIMSim/General/AddressRange.cs:348-363 | Over the whole address space, with one to 63 interleaving bits, it does so for all match values if and only if the two slices start at different bits or nothing is removed |
| `AddressRanges.SameSliceCollides` | Fast Simulation/PIMSim/General/AddressRange.cs:348-363 | With one to 63 interleaving bits, the colliding addresses when both slices start at the same bit |
| `AddressRanges.RemoveIsOnto` | Fast Simulation/PIMSim/General/AddressRange.cs:348-363 | Over the whole address space, for slices inside the word that do not overlap, the values left in a range are exactly the numbers of the remaining bits: a contiguous range from 0 |
| `AddressRanges.OffsetsDiffer` | Fast Simulation/PIMSim/General/AddressRange.cs:380-395 | Different addresses of a range have different offsets, 64-bit wrap-around included |
| `AddressRanges.OffsetsCount` | Fast Simulation/PIMSim/General/AddressRange.cs:380-395 | The offset of the start is 0, offsets count up by one where nothing is interleaved, otherwise they count what is left of the address modulo 2^64 from what is left of the start, and an address outside the range has all ones |
| `AddressRanges.RemoveForm` | Fast Simulation/PIMSim/General/AddressRange.cs:348-363 | What is left of an address without its slice: the bits above the slice moved down onto those below it |
| `AddressRanges.Create` | Fast Simulation/PIMSim/General/AddressRange.cs:47-84 | The constructor refuses exactly the match values not below the 32-bit shift and the overlapping slices, for every number of bits; what passes with high bits below 64 is separated, and fits its slice below 31 bits |
| `AddressRanges.Merge` | Fast Simulation/PIMSim/General/AddressRange.cs:104-143 | Merging succeeds exactly on the full list of ranges in match order, with the 8-bit match counter and the 32-bit shift |
| `AddressRanges.MergedIsUnion` | Fast Simulation/PIMSim/General/AddressRange.cs:104-143 | With at most eight bits the merged range contains exactly the union |
| `AddressRanges.MergedExceedsUnion` | Fast Simulation/PIMSim/General/AddressRange.cs:104-143 | With nine or more bits merging can succeed on ranges whose union is smaller |
| `Trie.Configure` | SomeBenchmark/Terasort/TeraSort.java:175-215 | A lookup in the built trie fails exactly on the keys with a first byte from 128 up at a position below maxDepth whose preceding bytes some split shares; on all other keys it returns the number of splits below the key |
| `Trie.BuildTrie` | SomeBenchmark/Terasort/TeraSort.java:175-204 | The loops with the mutable trial prefix build a subtree that serves every key with the prefix, child 255 and its prefix byte 127 included |
| `Trie.FindPartition` | SomeBenchmark/Terasort/TeraSort.java:86-131 | Inner lookup by signed byte and leaf scan compute the specified partition |
| `Trie.InnerServes` | SomeBenchmark/Terasort/TeraSort.java:86-92 | Children that serve their own next byte make a node that serves all keys with its prefix, or fails as described |
| `Trie.ChildCovers` | SomeBenchmark/Terasort/TeraSort.java:188-199 | The bounds found for a child are exactly the splits with its byte next |
| `Trie.BoundStep` | SomeBenchmark/Terasort/TeraSort.java:186-194 | The inner loop stops exactly behind the splits whose next byte is at most the child's |
| `Trie.PlainKeysArePlaced` | SomeBenchmark/Terasort/TeraSort.java:86-131 | Keys with bytes 0..127 in the first maxDepth positions always get the number of splits below them |
| `Trie.PartitionMonotone` | SomeBenchmark/Terasort/TeraSort.java:124-131 | The partition is the count of smaller splits and grows with the key |
| `Trie.SplitPointRefused` | SomeBenchmark/Terasort/TeraSort.java:91 | A concrete key that is refused although its partition is 0 |
| `ClockDomain.CallbackTotal` | Fast Simulation/PIMSim/Memory/DDR/ClockDomain.cs:75-104 | For all clocks, n updates make exactly ceil(n * clock1 / clock2) callbacks, whatever the resets, and none without a callback |
| `ClockDomain.CountersBounded` | Fast Simulation/PIMSim/Memory/DDR/ClockDomain.cs:99-103 | For all clocks, the counters never exceed clock1 * clock2 |
| `ClockDomain.NeverOverflowsIff` | Fast Simulation/PIMSim/Memory/DDR/ClockDomain.cs:83-103 | No sum of the counters ever leaves 64 bits if and only if they meet below 2^64, that is, if the least common multiple of the clocks fits |
| `ClockDomain.ClockDomainCrosser.Update` | Fast Simulation/PIMSim/Memory/DDR/ClockDomain.cs:75-104 | The loop with 64-bit additions, for clocks whose counters meet below 2^64, makes the callbacks due for this update |
| `ReorderWindow.OutputSortedIff` | GEM5Simulation/gem5/util/o3-pipeview.py:159-188 | What leaves the queue over a whole trace is the stably sorted trace if and only if no instruction arrives after a larger one has left |
| `ReorderWindow.WindowSuffices` | GEM5Simulation/gem5/util/o3-pipeview.py:47-52 | It is if every instruction arrives within minThreshold places of its sorted position; no relation between the thresholds is needed |
| `ReorderWindow.PositionInSorted` | GEM5Simulation/gem5/util/o3-pipeview.py:154-169 | The counted sorted position is the position in the sorted trace |
| `ReorderWindow.SortSorts` | GEM5Simulation/gem5/util/o3-pipeview.py:169 | Sorting by sequence number orders and keeps equal numbers in their order |
| `ReorderWindow.PrintQueue.PrintInsts` | GEM5Simulation/gem5/util/o3-pipeview.py:167-188 | The pop loop empties the sorted queue down to the threshold; printed is, in order, every instruction taken off whose number and fetch tick lie within the bounds that are set, ends included, and which has retired if only those are wanted |
| `ReorderWindow.PrintQueue.QueueInst` | GEM5Simulation/gem5/util/o3-pipeview.py:159-165 | Appends and flushes past the upper threshold |
| `ReorderWindow.PrintQueue.ProcessTrace` | GEM5Simulation/gem5/util/o3-pipeview.py:127-151 | Printed are, in order, the instructions within the bounds of the whole output, and of the sorted trace when the trace is in time, in particular within the documented bound |
| `ReorderWindow.TurnsOver` | GEM5Simulation/gem5/util/o3-pipeview.py:159-170 | An arrival below the upper threshold takes nothing off the queue; one that exceeds it takes the smallest instructions off in order and leaves as many as the lower threshold |
| `ReorderWindow.OutCount` | GEM5Simulation/gem5/util/o3-pipeview.py:159-170 | How many instructions have left after any number of arrivals, in closed form |
| `CheckpointUpgrade.ApplyUpgrades` | GEM5Simulation/gem5/util/cpt_upgrader.py:240-252 | The loop terminates; it aborts exactly when no dependency-respecting order of the missing tags exists, reporting the largest set of tags that block one another, and otherwise applies each missing tag once, each dependency of a tag being in the checkpoint or applied earlier, and ends with every known tag |
| `CheckpointUpgrade.ApplyReady` | GEM5Simulation/gem5/util/cpt_upgrader.py:247-249 | One round applies the ready tags in whatever order the set yields them, each after its dependencies |
| `CheckpointUpgrade.StuckNeverApplied` | GEM5Simulation/gem5/util/cpt_upgrader.py:140-144 | Tags that block one another are reached by no dependency-respecting order |
| `CheckpointUpgrade.DeadlockPreventsOrder` | GEM5Simulation/gem5/util/cpt_upgrader.py:242-246 | Such tags rule out every order |
| `CheckpointUpgrade.NothingReady` | GEM5Simulation/gem5/util/cpt_upgrader.py:242-246 | When nothing is ready the remaining tags are the largest such set |
| `CheckpointUpgrade.Checkpoint.Update` | GEM5Simulation/gem5/util/cpt_upgrader.py:146-150 | An upgrader runs and its tag is added |
| `MessageStream.VarintRoundTrip` | GEM5Simulation/gem5/util/protolib.py:101-158 | Decoding takes exactly the bytes written and gives the value back if and only if it has at most 32 bits; it fails from 2^70 on |
| `MessageStream.VarintBytes` | GEM5Simulation/gem5/util/protolib.py:146-158 | A varint is the number's digits to the base 128, lowest first and as many as it needs, with the top bit set on all but the last |
| `MessageStream.ReadsVarint` | GEM5Simulation/gem5/util/protolib.py:101-129 | On any file the decoder takes the bytes up to the first without top bit and gives the 32 low bits of their number, less 2^32 if it does not fit in 63 bits; ten bytes that all go on are an error, and fewer the end of the file |
| `MessageStream.StreamRoundTrip` | GEM5Simulation/gem5/util/protolib.py:131-166 | A list of payloads is read back unchanged if and only if each is non-empty and shorter than 2^32 bytes |
| `MessageStream.ReadFrame` | GEM5Simulation/gem5/util/protolib.py:131-144 | A frame is read back whole exactly when its payload is non-empty and short enough |
| `MessageStream.EncodeVarint32` | GEM5Simulation/gem5/util/protolib.py:146-158 | The mask-and-shift loop writes the base 128 varint |
| `MessageStream.DecodeVarint32` | GEM5Simulation/gem5/util/protolib.py:101-129 | The loop computes the specified value, (0, 0) at the end of the file, or the error after ten bytes |
| `MessageStream.DecodeMessage` | GEM5Simulation/gem5/util/protolib.py:131-144 | Size 0, end of file and the error answer False; a negative size reads the rest |
| `MessageStream.EncodeMessage` | GEM5Simulation/gem5/util/protolib.py:160-166 | Appends the varint of the payload's length and the payload |
| `MessageStream.DecodeAll` | GEM5Simulation/gem5/util/decode_packet_trace.py:92-110 | The reader's loop collects every message up to the first that cannot be read |

## Left out

Of the DDR memory:

- Several ranks: the bus packet never stores its rank and all ranks share one list of queues, so claims about more than
  one rank would not be about what the code does. The refresh schedule and the round robin are proved for any number.
- Configurations outside `Config.Valid`: a command bus of one cycle, a burst of at least two beats, positive write
  latency, tRP, tRFC, tFAW and row-access limit, AL at most tRCD, and an auto-precharge delay of at least the
  read-to-precharge delay. Other settings make the unsigned delay formulas wrap or the buses collide.
- RunSpaced: with low power off, since waking up overwrites the next-activate time. A refresh that cuts a precharge short
  lets a bank come back sooner, which the condition `TurnaroundCovered` allows for.
- SpacedIff: the converse needs refreshes out of the way (tRP at most tRFC, a period longer than two requests) and, with
  several banks, a row cycle time no longer than the bank takes to come back. With a longer one, which the shipped parameters
  have, the condition is sufficient and not shown necessary: how long the other banks can hold up a column command decides.
- RunApart: in close page with several banks and tRTRS zero nothing is claimed.
- OneDriver: the same.
- BusSharedIff: in close page with tRTRS zero nothing is claimed when tRRD is longer than a burst, when a shared queue has no
  place for three packets, or when a refresh comes before the write.
- EverythingServed: the bound counts from the last request. While requests keep arriving no bound is given for a single
  answer; the round robin's share is `RoundRobin.BoundedWait`.
- RunReadyIff: with low power off, for the reason given at RunSpaced.
- BoundedClosing, BoundedWait: about sequences of searches, with the banks in between as they come.
- Scheme7 of the address mapping: its branch is behind a second test for Scheme6 and is never taken.
- The data payload and the time stamp of a transaction, bank storage, energy, statistics, latency histograms and logging.
- Wrap-around of the 64-bit clock.
- The refresh period is a number of cycles; its computation from floating-point times is not modelled.
- The callbacks: the rank's delivery to the controller and the controller's completions are returned as results instead.
- The enumerators, the copying constructor and the synchronized wrapper of the deque.

Of the other parts:

- Request merging in the DDR front end, processors, caches, coherence, page conversion, ports, HMC records and traces.
- Intersection and subset tests of address ranges.
- CallbackTotal: counts with unbounded counters, to which the 64-bit ones are equal where `NeverOverflowsIff` says so. With
  clock2 = 0 the loop does not end. The constructor that approximates a ratio by continued fractions is not modelled.
- OutputSortedIff: about everything that leaves the queue; `ProcessTrace` adds the filters. The early stop of the viewer
  is not modelled, since its call lacks an argument, and neither are parsing and drawing.
- ApplyUpgrades: with upgraders only; what an upgrader does to the file is represented by its tag in the order of
  application. Downgraders, legacy version numbers and the loading of upgrader files are not modelled.
- StreamRoundTrip: for payloads shorter than 2^63 bytes, the longest string the language has. Parsing of a payload is
  outside; a message is the byte string handed to the parser.
- Configure: reading the partition file; the split points are a sorted list of byte strings.
