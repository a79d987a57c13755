# Power supply firmware: model and proofs

A Dafny model of the concurrent, timed core of the power supply firmware, with proofs over whole
runs. `dafny verify dfyconfig.toml` checks everything.

| file | models |
|---|---|
| `watchdog.dfy` | one hardware watchdog shared by up to sixteen tickets |
| `power_ext.dfy`, `power_ext_runs.dfy` | the output supervisor (fault, back-off, stabilise) and its whole runs |
| `record.dfy`, `record_timing.dfy` | the write-behind record of overcurrent events, and how much of it a restart can lose |
| `supervision.dfy` | the supervisor as a client of the watchdog and as the source of the record |
| `stusb4500_chip.dfy`, `stusb4500.dfy`, `usb_pd.dfy` | the USB-PD controller's memory: device, driver, boot sequence |
| `thread_executor.dfy` | the thread executor's sleep and wake-up, and its idle accounting |
| `tps55289.dfy` | the converter's fixed-point voltage and current conversion |
| `config.dfy`, `storage.dfy` | settings with partial updates; the marked key-value store |
| `time.dfy`, `wrappers.dfy` | ticks; option and result types |

How to read it. Time is a natural number of ticks (1 MHz, the time driver's default), and every
`Instant::now()` is its own clock read. What the firmware does under a lock is one step, and every
await outside a lock is a point where other steps may come in between. Objects that the firmware
updates in place are classes; each method's contract equates the new state with a step function on
values, and the properties are lemmas about runs of those step functions. A run is a sequence of
inputs with the states in between, restarts and interruptions among the inputs.

## Results worth knowing

- **Watchdog.** If every ticket feeds at gaps below 30 s the hardware never resets the chip
  (`NoFalseReset`), and without any assumption on the other tickets a hung task is reset within 60 s
  of its last feed (`HungTicketIsReset`). The comment in `ticket()` suggests that registering
  protects against an expiry that is about to happen. It does so only for the first ticket: a
  registration restarts the hardware counter if and only if no ticket is registered yet
  (`RegistrationFeedsIff`), and `RegistrationDoesNotSave` is a run in which a second ticket registers
  one tick before the expiry and the chip is reset all the same.
- **Back-off.** The output is never switched on until strictly after the last fault's read plus the
  duration in force then (`BackoffRespected`), and is switched on soon after (`ReenabledInTime`). The
  deadline of an *earlier* fault of the same outage is not kept if a shorter duration is persisted and
  another fault is read before it: `ShortenedBackoff` is such a run, and `EarlierDeadlineHoldsIff`
  says exactly when it is kept.
- **Flash wear.** From power-up to time T the record is written at most T / 10 s times
  (`WearBound`), restarts included. From a later point on the same bound holds for everything that may
  follow if and only if at that point no copy is being written and no sync falls due within the next
  10 s (`WearFromIff`); `WriteInOneTick` is a run in which a sync is due in one tick and the record is
  written within it.
- **Bounded loss.** If no step of the sync task or of a logger is held up for longer than a delay, a
  restart at any moment, while logging goes on, loses at most the events of the last 10 s (or three
  delays, if that is longer) plus four delays (`BoundedLoss`).
- **Controller memory.** From any state of the chip, interrupted requests included, a completed boot
  leaves the wanted content, locked, and no later boot wears it (`Init`, `SelfRepairing`), nor does
  the traffic of the running firmware (`LockedKeepsMemory`).
- **Idle share.** Each report covers exactly the sleeps since the report before it; it divides by zero
  exactly if the window is empty (`WindowExact`), as for a second report in one tick
  (`SecondReportInTickPanics`). The firmware's one caller reads three ADC channels between reports
  (sw/fw/src/systems/stats.rs:82-102) and so relies on these taking at least a tick.
- **Store.** Once the marker is readable nothing is lost (`MarkedNeverErased`). Initialising, however
  often it is cut short, gives a fresh store if and only if no erase that is cut short leaves a marker
  together with something else, which needs unreadable flash to begin with (`FreshIff`);
  `EraseCutShort` is a run in which one does and a stale
  entry passes for a stored one.
- **Voltage.** The release profile wraps on overflow. The conversion is right for exactly 798 to
  21312 mV (`RealisedIffInRange`), there within 28 mV and never above (`OutputWithin28Millivolts`).

## Model

| member | source | states |
|---|---|---|
| Watchdog.Multiplexer.constructor | sw/fw/src/systems/watchdog.rs:30-40 | starts with no ticket, an empty mask and the hardware running |
| Watchdog.Multiplexer.Ticket | sw/fw/src/systems/watchdog.rs:42-56 | hands out the next index and takes exactly a registration step of the barrier |
| Watchdog.Multiplexer.FeedTicket | sw/fw/src/systems/watchdog.rs:79-82 | takes exactly a feed step of the barrier |
| Watchdog.Multiplexer.FeedIndex | sw/fw/src/systems/watchdog.rs:60-75 | the in-place mask update is the barrier's: one bit, or a hardware feed and a cleared mask when all registered bits are set |
| Watchdog.RoundNeverLeftFull | sw/fw/src/systems/watchdog.rs:60-75 | in every run, bits of unregistered tickets are clear and some registered ticket always still has to feed |
| Watchdog.BitOrder | sw/fw/src/systems/watchdog.rs:60-75 | in every run, a ticket's bit tells whether it has fed since the last hardware feed |
| Watchdog.RoundCompletedBy | sw/fw/src/systems/watchdog.rs:42-75 | while any other ticket is registered, a round is completed only by a feed of a registered ticket whose bit was clear, and then all other bits were set |
| Watchdog.RegistrationFeedsIff | sw/fw/src/systems/watchdog.rs:42-75 | registering a ticket restarts the hardware counter if and only if it is the first ticket |
| Watchdog.RegistrationDoesNotSave | sw/fw/src/systems/watchdog.rs:42-75 | a run in which a registration one tick before the expiry does not prevent the reset |
| Watchdog.NoFalseReset | sw/fw/src/systems/watchdog.rs:22-27 | if every ticket feeds within a gap, so does the hardware, while tickets keep registering; with a gap below 30 s the chip is never reset |
| Watchdog.HardwareGaps | sw/fw/src/systems/watchdog.rs:60-75 | consecutive hardware feeds in the peripheral's own log are at most that gap apart |
| Watchdog.OneFeedPerRound | sw/fw/src/systems/watchdog.rs:60-75 | over any stretch of a run, hardware feeds plus the change of a pending bit never exceed the ticket's own feeds |
| Watchdog.StoppedTicketStarvesHardware | sw/fw/src/systems/watchdog.rs:60-75 | after a ticket stops, the hardware is fed at most once more, and not at all if its bit was clear |
| Watchdog.HungTicketIsReset | sw/fw/src/systems/watchdog.rs:22-75 | in a run without reset every ticket fed less than 60 s ago, whatever the others do |
| Watchdog.LoneHungTicket | sw/fw/src/systems/watchdog.rs:22-75 | if all others feed within a gap, a hung ticket is reset within that gap plus 30 s |
| PowerSupervisor.EarliestDeadline | sw/fw/src/systems/power_ext.rs:120-134 | returns the least deadline that is set, and none exactly if none is set |
| PowerSupervisor.PowerExt.constructor | sw/fw/src/systems/power_ext.rs:62-88 | starts disabled, output off and discharging, with the back-off duration, reference and current limit of the stored settings |
| PowerSupervisor.PowerExt.PersistSettings | sw/fw/src/systems/power_ext.rs:91-112 | changes only reference, current limit and back-off duration, in milliseconds; the reference gives the wanted output to 28 mV from 798 to 21312 mV, the limit is the wanted one to a step up to 3199 mA; a back-off in progress is untouched |
| PowerSupervisor.PowerExt.Monitor | sw/fw/src/systems/power_ext.rs:156-237 | one round simulates one step of the four-state machine, watchdog feed included, and returns the sleep's deadline; overcurrent or a short circuit leaves the output off, discharging, and Ocp published, neither leaves an output that was on as it is; output bit, discharge bit, pin and published state agree |
| PowerSupervisor.PowerExt.React | sw/fw/src/systems/power_ext.rs:157-224 | the critical section feeds the ticket first, then switches off on either of the two fault bits, whatever over-voltage says, and otherwise takes the machine's transition; logs what the machine logs |
| PowerSupervisor.PowerExt.SwitchOff | sw/fw/src/systems/power_ext.rs:165-184 | a fault switches off from any state, publishes Ocp, restarts the back-off and keeps the start of an episode in progress |
| PowerSupervisor.PowerExt.SwitchOn | sw/fw/src/systems/power_ext.rs:185-208 | without a pending back-off the output comes on, Enabling is published and the stabilisation time starts |
| PowerSupervisor.PowerExt.Stabilize | sw/fw/src/systems/power_ext.rs:209-223 | a stable output is published as enabled and ends the episode with one log entry |
| PowerSupervisor.PowerExt.SleepDeadline | sw/fw/src/systems/power_ext.rs:226-229 | the sleep ends at a pending event, never after one, or else after exactly 29 s |
| SupervisorRuns.DisabledOnlyBeforeFirstIteration | sw/fw/src/systems/power_ext.rs:72-77 | in every run, Disabled is published exactly until the monitor first runs |
| SupervisorRuns.OutputFollowsFaultBits | sw/fw/src/systems/power_ext.rs:157-214 | an iteration that reads overcurrent or a short circuit leaves the output off and Ocp published; one that reads neither leaves it on, or switches it on at the start, over-voltage or not |
| SupervisorRuns.PublishedOcpIff | sw/fw/src/systems/power_ext.rs:165-214 | Enabling and Enabled are published exactly while the output is on; Ocp exactly if a fault has been read and the output not switched on since |
| SupervisorRuns.WakesEarlyForAReason | sw/fw/src/systems/power_ext.rs:226-233 | the monitor sleeps 29 s unless an iteration at any read after an earlier deadline, without a fault, changes the state |
| SupervisorRuns.SinceFault | sw/fw/src/systems/power_ext.rs:165-208 | between faults the machine waits for the last fault's deadline or has been switched on since |
| SupervisorRuns.BackoffRespected | sw/fw/src/systems/power_ext.rs:165-208 | after a fault the output is not switched on until strictly after fault read plus duration in force, whatever is persisted meanwhile |
| SupervisorRuns.EarlierDeadlineHoldsIff | sw/fw/src/systems/power_ext.rs:165-191 | an earlier fault's deadline still holds exactly if the last fault's is no earlier or the clock has passed it |
| SupervisorRuns.NoShorterBackoff | sw/fw/src/systems/power_ext.rs:92-112 | every fault's deadline holds, further faults included, as long as nothing shorter is persisted |
| SupervisorRuns.ShortenedBackoff | sw/fw/src/systems/power_ext.rs:101-177 | a run in which a 10 s back-off ends after 3 ticks because zero was persisted and a second fault read |
| SupervisorRuns.ReenabledInTime | sw/fw/src/systems/power_ext.rs:185-233 | once faults stop, the output comes back within two processing times and one latency of the deadline |
| SupervisorRuns.EnabledMeansStable | sw/fw/src/systems/power_ext.rs:153-214 | the clock read of the iteration that publishes Enabled is strictly more than 100 ms after the one of the last switch-on, without a fault read in between |
| SupervisorRuns.StabilizedInTime | sw/fw/src/systems/power_ext.rs:209-233 | without faults, Enabled is published within one processing time of the end of the stabilisation time |
| SupervisorRuns.FeedGap | sw/fw/src/systems/power_ext.rs:154-233 | the monitor's watchdog feeds are at most 29 s, two processing times and one latency apart |
| SupervisorRuns.OpenSince | sw/fw/src/systems/power_ext.rs:180-182 | the instant kept for an episode is the clock read of its first fault since the output was last stable |
| SupervisorRuns.EpisodeStep | sw/fw/src/systems/power_ext.rs:165-223 | an input closes and logs the open episode, opens one, or does neither |
| SupervisorRuns.LoggedOncePerEpisode | sw/fw/src/systems/power_ext.rs:215-221 | the log is exactly the closed episodes, in order, in whole seconds |
| SupervisorRuns.EpisodesDisjoint | sw/fw/src/systems/power_ext.rs:180-221 | episodes are disjoint and ordered, and the open one comes last |
| SupervisorRuns.EveryFaultCounted | sw/fw/src/systems/power_ext.rs:165-221 | every fault read lies in a closed episode or in the open one |
| Supervision.MonitorFeedsSpaced | sw/fw/src/systems/power_ext.rs:156-233 | over a whole run the monitor's feeds keep to its gap |
| Supervision.MonitorFeedsTaken | sw/fw/src/systems/power_ext.rs:156-161 | the feeds that the machine records are one per iteration, each at its own read within the iteration |
| Supervision.SpacedIsPunctual | sw/fw/src/systems/watchdog.rs:22-27 | feeds within a gap up to the end of a run make a ticket punctual at every event in between |
| Supervision.FedWithinGap | sw/fw/src/systems/power_ext.rs:154-233 | as long as the monitor is not overdue after its last sleep, its last feed is at most the gap ago |
| Supervision.MonitorNeverCausesReset | sw/fw/src/systems/power_ext.rs:154-233 | composed: a prompt monitor that is not overdue, among punctual tickets, never causes a reset if its delays fit in the one second of slack |
| Supervision.OvercurrentAccounting | sw/fw/src/systems/record.rs:68-73 | from fault reads to flash, for a run of the record fed by the supervisor's log: the count grows by the closed episodes, the seconds by at most their total and less than one second per episode below, and flash comes to hold both |
| Record.Recorder.constructor | sw/fw/src/systems/record.rs:46-66 | boots from what flash holds, or from zero, with no sync pending |
| Record.Recorder.Elapse | sw/fw/src/systems/record.rs:97-104 | time passing keeps the invariants and is what lets the sync task's timer fire |
| Record.Recorder.LogOvercurrent | sw/fw/src/systems/record.rs:68-82 | counts the event and schedules a sync unless one is pending, as the three interleavable steps would |
| Record.Recorder.AwaitToken | sw/fw/src/systems/record.rs:97-104 | takes the token and sleeps until the scheduled time, which is set |
| Record.Recorder.TakeCopy | sw/fw/src/systems/record.rs:104-110 | clears the schedule and copies the counters in one step |
| Record.Recorder.StoreCopy | sw/fw/src/systems/record.rs:112 | puts the copy, not the current counters, in flash |
| Record.StepKeepsToken | sw/fw/src/systems/record.rs:75-110 | every step of every task keeps: a sync is scheduled exactly while the token is in the channel or the task holds it, never both |
| Record.StepLosesNothing | sw/fw/src/systems/record.rs:46-114 | RAM, copy and flash stay sums over prefixes of one log, and what is not copied has a sync pending |
| Record.StepKeepsRation | sw/fw/src/systems/record.rs:17-110 | copies stay a sync period apart, across restarts, and no sync is put off further than a period |
| Record.RunInv | sw/fw/src/systems/record.rs:46-114 | the three invariants hold in every interleaving with restarts at any point |
| Record.NeverBlocksNeverPanics | sw/fw/src/systems/record.rs:75-102 | the logger's send never waits while it holds the lock, and the sync task never unwraps None |
| Record.NoLostUpdate | sw/fw/src/systems/record.rs:68-112 | if flash differs from RAM, a sync is pending or the copy in flight equals RAM |
| Record.FlashMonotone | sw/fw/src/systems/record.rs:68-112 | flash never decreases in either counter, restarts included, and is never ahead of RAM |
| Record.FlashHoldsPastValue | sw/fw/src/systems/record.rs:46-112 | what a restart at any step resumes from is a value RAM had earlier |
| Record.WearBound | sw/fw/src/systems/record.rs:17-112 | from power-up to time T at most T / 10 s writes, for any logging and any restarts |
| Record.CopiesFrom | sw/fw/src/systems/record.rs:17-112 | from any state without a sync due within 10 s on, copies are at most the elapsed time over 10 s, through any logging and restarts |
| Record.DueSoonCopiesSoon | sw/fw/src/systems/record.rs:96-114 | left alone, a state with a sync due within less than 10 s is followed by a copy in less than 10 s |
| Record.WearFromIff | sw/fw/src/systems/record.rs:17-112 | from a point of a run on, every continuation writes at most once per 10 s if and only if at that point no copy is being written and no sync is due within 10 s |
| Record.WriteInOneTick | sw/fw/src/systems/record.rs:75-112 | a run, whatever is logged, in which the record is written within one tick of a state with a sync due in one tick |
| Record.WearInWindow | sw/fw/src/systems/record.rs:17-112 | in any window at most its length over 10 s plus one copies |
| Record.SettlesWithinPeriod | sw/fw/src/systems/record.rs:96-114 | left alone, the sync task brings flash up to date exactly when the pending sync is due, within 10 s |
| RecordTiming.StaysTimely | sw/fw/src/systems/record.rs:68-114 | if no task is held up longer than a delay, every stage of a sync begins in time after its scheduling, and every event not copied has a sync scheduled soon after it |
| RecordTiming.BoundedLoss | sw/fw/src/systems/record.rs:17-114 | a restart at any moment comes up with all events but those logged within the last sync period (or three delays, if longer) plus four delays, while logging goes on |
| NvmChip.ControlBytesDecode | sw/fw/src/drivers/stusb4500/ll.rs:187-212 | the control bytes that the driver composes decode to the sector and flags, the operation and the erase bits it meant |
| NvmChip.ProgramYieldsDataIff | sw/fw/src/drivers/stusb4500/mod.rs:9-24 | programming yields the data exactly if no bit of the sector is set that the data has clear, and a blank sector meets that for all data; hence erase before write |
| NvmChip.EraseBlanksIff | sw/fw/src/drivers/stusb4500/hl.rs:157-179 | an erase blanks the memory exactly if every sector that is not blank was latched before; hence the load of the erase register |
| NvmChip.FixedPdoMeans | sw/fw/src/drivers/stusb4500/mod.rs:47-72 | a power data object built for a voltage and a current decodes to them |
| NvmChip.LockedKeepsMemory | sw/fw/src/drivers/stusb4500/hl.rs:125-133 | from a locked idle chip, no sequence of transactions that leaves the password alone changes or wears the memory, requests through the control registers included |
| Stusb4500.Driver.WriteRegister | sw/fw/src/drivers/stusb4500/ll.rs:22-37 | sends address and data in one frame of exact size |
| Stusb4500.Driver.WriteBuffer | sw/fw/src/drivers/stusb4500/ll.rs:56-66 | sends a full nine-byte frame, zero-padded |
| Stusb4500.Driver.UnlockNvm | sw/fw/src/drivers/stusb4500/hl.rs:61-73 | from any state leaves the chip unlocked, powered and idle, and the memory alone unless a write was in progress |
| Stusb4500.Driver.LockNvm | sw/fw/src/drivers/stusb4500/hl.rs:125-133 | leaves the chip locked, without power to the memory, idle and with no operation selected, the memory unchanged |
| Stusb4500.Driver.GpioSetLevel | sw/fw/src/drivers/stusb4500/hl.rs:97-104 | sets the inverted level in the pin's register and changes nothing else, the memory included |
| Stusb4500.Driver.SetPdo2 | sw/fw/src/drivers/stusb4500/hl.rs:109-117 | puts the object into the second slot and changes nothing else |
| Stusb4500.Driver.SetPdoNumber | sw/fw/src/drivers/stusb4500/hl.rs:119-121 | sets the number of objects and keeps the other bits of its register |
| Stusb4500.Driver.IssuePdReset | sw/fw/src/drivers/stusb4500/hl.rs:75-86 | makes the chip announce the objects it has been told by then |
| Stusb4500.Driver.IssueRequestWithSector | sw/fw/src/drivers/stusb4500/hl.rs:135-150 | returns only when the selected operation has been carried out, once |
| Stusb4500.Driver.EraseSectors | sw/fw/src/drivers/stusb4500/hl.rs:157-179 | leaves all five sectors blank, whatever the erase register held |
| Stusb4500.Driver.ReadSector | sw/fw/src/drivers/stusb4500/hl.rs:181-198 | returns the sector's content and never changes or wears the memory |
| Stusb4500.Driver.WriteSector | sw/fw/src/drivers/stusb4500/hl.rs:200-224 | programs that sector with the data and leaves the others as they are; without an erase the data is there exactly if the sector had no bit set that the data has clear |
| Stusb4500.Driver.ReadSectors | sw/fw/src/drivers/stusb4500/hl.rs:226-239 | returns the whole memory, unchanged |
| Stusb4500.Driver.WriteSectors | sw/fw/src/drivers/stusb4500/hl.rs:241-248 | makes the memory equal to the buffer from any content; fails only if the bus does |
| Stusb4500.Driver.WriteAndReadBack | sw/fw/src/drivers/stusb4500/hl.rs:226-248 | round trip: reading back gives what was written |
| UsbPd.Init | sw/fw/src/systems/usb_pd.rs:34-52 | a completed boot leaves the wanted content, locked, and 20 V at 1 A announced, from any state; a boot that finds the content, completed or not, never changes or wears it |
| UsbPd.AnnouncePdos | sw/fw/src/systems/usb_pd.rs:46-52 | two objects, the second 20 V at 1 A, are set and then announced by a soft reset; memory and lock stay as they are |
| UsbPd.Boots | sw/fw/src/systems/usb_pd.rs:26-62 | any sequence of boots interrupted anywhere, each with its own delays and wreckage, with traffic while running and with or without power loss, takes such boot steps and ends clean if one completed |
| UsbPd.SelfRepairing | sw/fw/src/systems/usb_pd.rs:34-44 | from the first completed boot on, the content is right and never erased or programmed again, by boots or by traffic |
| ThreadExecutor.StepInv | sw/fw/src/executors/thread.rs:82-113 | every interleaving step keeps: queued work is signalled or about to be taken, and none is queued while interrupts are masked for sleep |
| ThreadExecutor.NoLostWakeup | sw/fw/src/executors/thread.rs:82-113 | from any wake, or the spawning, of a task until it runs, the task is owed a run and the core is never blocked in wfi |
| ThreadExecutor.WakeOwes | sw/fw/src/executors/thread.rs:14-17 | a wake by a running task or by an interrupt makes its task owed a run at once |
| ThreadExecutor.RunsAreWakes | sw/fw/src/executors/thread.rs:82-113 | a task runs at most as often as it has been woken, less what it is still owed |
| ThreadExecutor.ComesToRest | sw/fw/src/executors/thread.rs:82-113 | from any reachable state, without new wakes, the loop reaches a blocking wfi after finitely many of its own steps |
| ThreadExecutor.EveryWokenTaskRuns | sw/fw/src/executors/thread.rs:82-113 | by the time the core blocks in wfi, every task woken before has been run since its wake |
| ThreadExecutor.SleepsOnlyWhenIdle | sw/fw/src/executors/thread.rs:95-113 | in wfi no task is queued, no signal is set, and no handler runs |
| ThreadExecutor.PendForcesPoll | sw/fw/src/executors/thread.rs:14-17 | once the signal is set, by a task or an interrupt, the next check goes back to polling instead of sleeping |
| ThreadExecutor.Executor.Pend | sw/fw/src/executors/thread.rs:14-17 | setting the signal is exactly that part of a task's wake or of an interrupt in the interleaving, and keeps its invariant |
| ThreadExecutor.Executor.WaitImpl | sw/fw/src/executors/thread.rs:95-113 | takes exactly the check, and without a signal the sleep, its end and the leaving of the critical section; always goes on to a poll, leaves no signal, and keeps the wakes that arrived; accounts for the sleep and only for it |
| ThreadExecutor.Executor.CurrentRestart | sw/fw/src/executors/thread.rs:28-35 | reports the window and starts the next at the first of its two clock reads |
| ThreadExecutor.AccountStep | sw/fw/src/executors/thread.rs:27-40 | sleeps and restarts keep: no window has more sleep than time, and windows plus counter make up all sleep |
| ThreadExecutor.SleepAccounted | sw/fw/src/executors/thread.rs:27-111 | over any run, windows plus the running counter equal the time slept |
| ThreadExecutor.WindowExact | sw/fw/src/executors/thread.rs:27-40 | each report is the sleeps since the restart before it over the time since that restart's first read, in whole thousandths; it divides by zero if and only if no time has passed |
| ThreadExecutor.PermilleExact | sw/fw/src/executors/thread.rs:37-39 | a report is the share of time slept in thousandths, rounded down |
| ThreadExecutor.SecondReportInTickPanics | sw/fw/src/executors/thread.rs:28-39 | the second of two reports in one tick divides by zero, the first exactly at time 0 |
| ThreadExecutor.ReportsAtMostThousand | sw/fw/src/executors/thread.rs:37-39 | every report is at most 1000 permille; only an empty window panics |
| Tps55289.CodeBound | sw/fw/src/drivers/tps55289/mod.rs:41-47 | for references in range nothing wraps and the code is the number of whole steps |
| Tps55289.ConversionBound | sw/fw/src/drivers/tps55289/mod.rs:18-55 | for every ratio the code fits 11 bits and the realised reference is below the wanted one by less than a millivolt plus a step |
| Tps55289.OutputWithin28Millivolts | sw/fw/src/systems/power_ext.rs:44-93 | for 798 to 21312 mV the output is never above target and less than 28 mV below |
| Tps55289.RealisedIffInRange | sw/fw/src/drivers/tps55289/mod.rs:18-55 | exactly the targets in range are realised, for each ratio with its limits, on this board 798 to 21312 mV |
| Tps55289.WrapsOnce | sw/fw/src/drivers/tps55289/mod.rs:18-55 | for every target the code is the wanted reference less the base modulo 2^32, in whole steps, cut to 16 bits |
| Tps55289.Monotone | sw/fw/src/drivers/tps55289/mod.rs:49-54 | a higher target never gets a lower code |
| Tps55289.RoundTripIff | sw/fw/src/drivers/tps55289/mod.rs:41-47 | the two conversions are inverse exactly up to code 7608, hence on all 11-bit codes |
| Tps55289.LimitFitsIff | sw/fw/src/systems/power_ext.rs:95-97 | the current limit is right, to a step, exactly up to 3199 mA |
| Config.Integrate | sw/fw/src/systems/config.rs:38-50 | field by field, what is present replaces and what is absent stays |
| Config.StepInv | sw/fw/src/systems/config.rs:67-105 | update steps and restarts keep RAM and flash folds of the same updates, up to the one being stored |
| Config.Agreement | sw/fw/src/systems/config.rs:67-105 | whenever the lock is free, flash, RAM and the fold of the updates received in order agree, those left out that a restart hit before their store; without restarts none is left out; a restart then changes nothing, and flash was written once per change |
| Config.FoldIsLatest | sw/fw/src/systems/config.rs:38-50 | after any updates each field is the latest value given for that field, or the original one |
| Config.LatestWins | sw/fw/src/systems/config.rs:67-105 | over runs with restarts, each field is the latest value received for it and not lost |
| Config.KeptSurvives | sw/fw/src/systems/config.rs:88-105 | the updates kept are exactly those received whose change was not followed by a restart instead of its store |
| Config.KeptWithoutRestart | sw/fw/src/systems/config.rs:88-105 | without a restart the updates kept are the updates received, in order |
| Config.Configuration.constructor | sw/fw/src/systems/config.rs:67-86 | boots from what flash holds, or 9 V, 500 mA and 500 ms |
| Config.Configuration.Update | sw/fw/src/systems/config.rs:88-105 | integrates, and stores exactly if something changed |
| Storage.Store.EnsureInitialized | sw/fw/src/systems/storage.rs:98-121 | wherever it is cut short, flash is as the model says; completes exactly if it finds the marker or is not cut short |
| Storage.Store.StoreItem | sw/fw/src/systems/storage.rs:139-151 | sets one entry, or fails and changes nothing on unreadable flash |
| Storage.BootKeepsIffMarked | sw/fw/src/systems/storage.rs:98-121 | a completed boot leaves the marker, and keeps all other entries exactly if it found the marker or there were none |
| Storage.FreshIff | sw/fw/src/systems/storage.rs:98-121 | boots cut short and then one that completes leave a fresh store if and only if no interrupted erase left a marker with other content, which only unreadable flash can do |
| Storage.EraseCutShort | sw/fw/src/systems/storage.rs:98-121 | a run in which an interrupted erase leaves the marker and a stale entry, and the next boot accepts both |
| Storage.MarkedNeverErased | sw/fw/src/systems/storage.rs:98-151 | once marked, flash is what it was plus the writes since, through any interrupted boots |
| Storage.WritesAreToMarkedFlash | sw/fw/src/systems/storage.rs:139-189 | entries are only ever written to marked flash, and read back |
| Storage.OtherKeysUntouched | sw/fw/src/systems/storage.rs:29-35 | writes to other keys leave an entry as it is |
| Storage.LastWriteReadsBack | sw/fw/src/systems/storage.rs:98-200 | the last value written to a key is there later, through writes to other keys and boots cut short anywhere |
| Storage.SerializeInto | sw/fw/src/systems/storage.rs:45-66 | writes one byte that reads back as the key, or fails on an empty buffer |
| Storage.KeyBytes | sw/fw/src/systems/storage.rs:29-66 | exactly the bytes 1, 2 and 3 deserialise, each to its own key |

## Left out

- Watchdog.Multiplexer.Ticket: a seventeenth ticket panics in the firmware; the contract requires that it is not asked for.
- PowerSupervisor.PowerExt.Monitor: does not call the watchdog and record objects; it records its feeds and its log entries, and `supervision.dfy` composes the runs.
- Record.StepInv: the counters are unbounded; wrap-around at 64 bits is out of reach of one event per 100 ms.
- ThreadExecutor.StepInv: an interrupt handler's wakes are one step with respect to the executor's, since the executor does not run in between.
- NvmChip.ProgramYieldsDataIff: that erased bits read as zero and programming sets bits is the model's choice; the driver does not depend on the polarity.
- Stusb4500.Driver.IssueRequestWithSector: the firmware polls without a timeout; the device model answers after a finite number of polls, any number.
- UsbPd.Init: waiting for the device identifier at power-up, the reset pin and what `state_task` reads are left out.
- Storage.Store.EnsureInitialized: an interrupted erase may leave anything, but no marker on readable flash that had none; storing one entry is atomic, as the storage library has it.
- Storage.Store.Fetch: whether an entry is present is modelled, not its encoding in bytes.
- Mutexes, channels, timers and the run queue are reduced to mutual exclusion, a one-slot channel, a deadline that fires once it has passed, and a set of tasks.
- I2C failures of the power converter, which make the firmware panic, are left out; those of the USB-PD controller are modelled.
- Publishing settings waits for subscribers while the lock is held; nothing is claimed about how long, nor about deadlock with the subscribers.
- Wi-Fi, MQTT, JSON, logging, ADC readings, board bring-up, the partition table and the interrupt executor's initialisation are left out.
