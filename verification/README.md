# beemon, modelled and proved

beemon watches processes with kernel programs and publishes what it sees over HTTP. This project models
four parts of it and proves what each keeps in every run.

- **Tracing on demand.** Subscribers, their guards and receivers, the map of broadcast senders and the kernel's
  `target_pids` map form one state machine whose steps are the critical sections of `src/stream.rs` and the
  lookups and updates of the kernel's fork handler (`Tracing`, `Subscriptions`, `Arming`, `Teardown`,
  `Provenance`, `Gates`). The registry itself is a class whose methods are proved to be those steps
  (`StreamRegistries`).
- **Bytes, from probe to published rate.** Handlers on different CPUs interleave between their lookups and their
  updates of a per-CPU map and a shared flow map (`IoAccounting`, `IoConservation`, `FlowBounds`,
  `FlowWitnesses`, `KernelMaps`), and both maps are held to what the probes were told (`IoLedger`, `FlowLedger`).
  Userspace sums over CPUs and turns successive samples into rates (`IoConservation`, `Rates`, `EndToEnd`).
  System calls are paired with their returns through maps keyed by thread (`Scratch`, `ScratchProbes`).
- **Caches.** A per-process cache, a reverse index over namespaces and a cache of cgroup limits, each a class
  (`ProcCaches`, `NamespaceTrees`, `CgroupTrees`), the scan that fills them (`Scanner`), the events that evict from
  them (`Invalidators`), and all of these over whole runs with `/proc` as a function of time and pid
  (`CacheRuns`, `CacheGuarantees`, `ScanRuns`, `MissedMove`, `OldParent`).
- **Ancestry and text.** The walk up the parent links that finds a process manager (`Managers`) and the readers of
  `/proc/<pid>/stat`, `/proc/<pid>/ns` and `/proc/<pid>/cgroup`, proved against the kernel's text formats
  (`Text`, `ProcStat`, `NsLinks`, `CgroupPath`).

`Common` and `Sums` hold shared vocabulary and facts about sums over sequences and maps.

Where the code changes things step by step the model does too: classes with the source's fields, methods with the
source's loops. A protocol with several actors is a state machine: `Enabled` says when a step may be taken, `Apply`
what it does, `Runs` and `Exec` extend both to sequences of steps. Fields described as history are never read by a
step's own logic.

Results about the code that a reader may not expect:

- A `subscribe` that falls between a guard's two critical sections leaves a live subscriber untraced
  (`Arming.WindowRun`). With the subscriber's own map insert succeeding and no fork handler losing its parent between
  its two lookups, that window is the only way (`Arming.SubscribeIsSafeExactlyOutsideTheWindow`).
- The event-stream route keeps the receiver and lets the guard go first (`src/http/routes.rs:94-109`), and the
  WebSocket route may drop them in either order (`src/http/ws.rs:58-85`). A pid whose last guard goes while a
  receiver is listening stays in `streams` until somebody subscribes again
  (`Teardown.LeakExactlyWhenAReceiverOutlivesTheLastGuard`), and the kernel goes on tracing it
  (`Teardown.TracingLeaksExactly`, `Teardown.LeakRun`).
- A fork handler whose parent is unmapped between its two lookups gives the child one flag of two, and then the
  x86_64 and arm64 programs report different events (`Gates.InterruptedForkTellsThemApart`,
  `Gates.InterruptedForkRun`). Interrupting a handler does no other harm: both flags are everywhere exactly as long
  as no second lookup finds its parent gone (`Provenance.EveryTargetIsFullyTracedExactly`), and the programs are
  interchangeable over a run exactly when no handler of it writes one flag alone (`Gates.InterchangeableExactly`).
- Between an atomic addition of bytes and that of its packet a flow can show bytes and no packet
  (`FlowWitnesses.BytesWithoutPackets`; exact condition in `FlowBounds.PacketsWithinBytes`), and of two overlapping
  creations it shows one (`FlowWitnesses.OverlapShowsTheSecond`; `FlowBounds.FlowIsExactExactly` says exactly when a
  flow is exact).
- An open entered untraced and left traced can be reported with the name and flags of an earlier open
  (`Scratch.StaleReportExactly`, `Scratch.StaleRun`).
- A namespace change handled between a scan's copy of the cache and the rebuild of the index is missed by the
  index for a whole time to live (`MissedMove.IndexMissesAMove`;
  exact condition in `CacheGuarantees.FreshExactlyAfterAQuietWindow`).
- On a reload the manager is searched for from the parent recorded in the expired entry, because that entry is
  still in the map the walk consults. A process that has changed parents can be reported without its manager
  (`OldParent.ReloadFollowsTheOldParent`; exact condition in `ProcCaches.ReloadIsRightExactly`).
- `total_paths_seen` is documented as the number of distinct cgroups cached since startup
  (`src/snapshot/cgroup_tree_cache.rs:35-37`); it counts a path again when it is reloaded after an invalidation
  (`CgroupTrees.CountsDistinctPathsExactly`, `CgroupTrees.RecountRun`). Nothing in the program invalidates a path yet
  (`src/snapshot/cgroup_tree_cache.rs:72-75`), so this awaits a caller.
- A process in the root cgroup resolves to the empty path, although a test in
  `src/snapshot/proc_cache.rs:328-334` expects a non-empty one for pid 1 (`CgroupPath.RootFileIsEmptyPath`; exact
  condition in `CgroupPath.RootCgroupIsEmptyPath`).
- A cgroup whose name ends in a carriage return is read without it, because the reader takes it for part of the
  line break (`CgroupPath.CarriageReturnIsLost`; exact condition in `CgroupPath.FileRoundTrip`).
- Both readers of a stat line panic on text in which the first `(` comes after the last `)`
  (`ProcStat.ParseStatPanicsExactly`). The manager's reader panics as well when the last `)` ends the text or is
  followed by a character that is not ASCII (`ProcStat.ProcInfoPanicsExactly`). The kernel prints no such line.

## Model

| member | source | states |
|---|---|---|
| Tracing.TargetPids.Insert | kernelspace/x86_64/beemon.bpf.c:210-215 | an update fails exactly when a new key finds the map full, and a failed one changes nothing |
| Tracing.TargetPids.Remove | src/stream.rs:63-69 | removal takes out that pid alone and reports whether it was there |
| StreamRegistries.StreamRegistry.constructor | src/stream.rs:78-85 | a new registry is the initial state of the protocol |
| StreamRegistries.StreamRegistry.Subscribe | src/stream.rs:89-118 | the critical section is the protocol's subscribe step: arm unless somebody is listening, keep or create the sender, attach a new receiver |
| StreamRegistries.StreamRegistry.ReceiverCount | src/stream.rs:93-96 | zero exactly when no receiver of that sender is listening |
| StreamRegistries.StreamRegistry.DropReceiver | src/stream.rs:33-43 | a dropped receiver stops counting and nothing else changes |
| StreamRegistries.StreamRegistry.LeaveStreams | src/stream.rs:51-62 | first half of a guard's drop: the pid leaves `streams` exactly when nobody listens |
| StreamRegistries.StreamRegistry.LeaveTargets | src/stream.rs:63-69 | second half: the pid leaves `target_pids` |
| StreamRegistries.StreamRegistry.DropGuard | src/stream.rs:50-71 | run without interruption, the last guard clears its pid from both maps and any other guard from neither |
| StreamRegistries.StreamRegistry.Forward | src/stream.rs:123-138 | a send reaches every attached receiver of the pid's current sender and changes nothing else |
| StreamRegistries.TraceSchedProcessFork | kernelspace/x86_64/beemon.bpf.c:426-434 | an uninterrupted fork handler writes the parent's very flags for the child, if the parent has the metrics bit and the map takes the entry, and otherwise nothing |
| Subscriptions.SubscribeArms | src/stream.rs:93-110 | in every state the protocol keeps, a `subscribe` gives its pid both flags exactly when nobody is listening for it and the map takes the entry; otherwise it changes no entry |
| Subscriptions.ForkCopiesTheEntry | kernelspace/x86_64/beemon.bpf.c:426-434 | a fork by a parent with the metrics bit copies that parent's entry, and any other changes nothing at all |
| Subscriptions.AtomicForkIsTheHandler | kernelspace/x86_64/beemon.bpf.c:426-434 | the atomic fork step equals the handler's three map operations run back to back |
| Subscriptions.StepKeepsInv | src/stream.rs:50-138 | every step of every actor keeps receivers attached to the current sender and senders unshared |
| Subscriptions.AlwaysAttached | src/stream.rs:50-138 | in every reachable state, whatever the interleaving and drop order, each live receiver is attached to the sender `forward` would use |
| Subscriptions.ForwardReachesExactly | src/stream.rs:120-138 | one `forward` reaches exactly the live receivers of its pid |
| Subscriptions.LiveReceiverGetsWhatItIsOwed | src/stream.rs:120-138 | over any run a live receiver gets exactly the events of its pid forwarded while it lives, in order |
| Subscriptions.DeliveryIsExact | src/stream.rs:89-138 | from its own `subscribe` to its drop, in any run, a receiver gets exactly the events forwarded for its pid, in forwarding order |
| Subscriptions.StepKeepsFullExactly | kernelspace/x86_64/beemon.bpf.c:431-434 | a step leaves both flags on every entry, and on every entry about to be written, if and only if it is not a second lookup that finds its parent gone |
| Subscriptions.AlwaysFullExactly | kernelspace/x86_64/beemon.bpf.c:426-434 | the same for every state of a run, however fork handlers interleave |
| Subscriptions.WholeForksKeepFullFlags | kernelspace/x86_64/beemon.bpf.c:426-434 | in particular uninterrupted fork handlers keep both flags on every entry |
| Arming.ClosingAfter | src/stream.rs:50-71 | a guard starts closing a pid only as that pid leaves `streams` |
| Arming.OrderlyKeepsSafe | src/stream.rs:52-110 | every step outside the window, with the subscriber's own insert succeeding and no parent lost, keeps the subscribed pid armed |
| Arming.SubscribedImpliesArmed | src/stream.rs:52-110 | in every orderly run a pid in `streams` has both flags in `target_pids` |
| Arming.SubscribeIsSafeExactlyOutsideTheWindow | src/stream.rs:52-110 | a subscriber stays armed whatever happens next if and only if no earlier guard of its pid was still closing |
| Arming.NextSubscriberRepairs | src/stream.rs:89-118 | after any run, windows and leaks included, the next subscription of a pid nobody listens for leaves it with both flags; one that finds a listener changes no entry |
| Arming.WindowRun | src/stream.rs:52-110 | a five-step run from the start that leaves a live subscriber untraced |
| Teardown.FieldOrderKeepsGuarded | src/stream.rs:33-71 | with receivers dropped before guards, every pid in `streams` always has a guard |
| Teardown.StepKeepsAccounted | src/stream.rs:50-110 | every entry of `target_pids` is subscribed, about to be removed, or written by a fork |
| Teardown.TeardownIsComplete | src/stream.rs:33-71 | once all subscriptions of a pid are gone it is in neither map, unless a fork wrote its entry last |
| Teardown.InheritedNeedsAFork | kernelspace/x86_64/beemon.bpf.c:426-434 | an entry written by a fork needs a fork event into that pid |
| Teardown.NothingIsLeft | src/stream.rs:33-71 | once every subscription is gone `streams` is empty and each pid left in `target_pids` was forked into |
| Teardown.UntouchedStream | src/stream.rs:50-118 | a pid without guards neither enters nor leaves `streams` until somebody subscribes to it |
| Teardown.LeakExactlyWhenAReceiverOutlivesTheLastGuard | src/http/routes.rs:85-109 | after the last guard goes, its pid stays in `streams` for good if and only if a receiver was listening then |
| Teardown.LastGuardDecides | src/stream.rs:50-71 | the drop of a pid's last guard leaves its entry to nobody, or sets it on its way out |
| Teardown.TracingLeaksExactly | src/http/routes.rs:85-109 | once every drop has run to its end and without forks, the pid stays in `target_pids` if and only if it was armed, a receiver was listening when its last guard went, and no earlier guard was still closing it |
| Teardown.LeakRun | src/http/routes.rs:85-109 | a run from the start that leaves a pid in both maps with neither receiver nor guard |
| Teardown.StrandedMeansOutOfOrder | src/stream.rs:33-71 | a sender with neither receiver nor guard proves that some guard went before its receiver |
| Provenance.StepKeepsRooted | kernelspace/x86_64/beemon.bpf.c:426-434 | every step keeps each entry, and each entry about to be written, descended from a subscriber |
| Provenance.StepKeepsMetered | kernelspace/x86_64/beemon.bpf.c:426-434 | every step keeps the metrics bit on every entry |
| Provenance.EveryTargetDescendsFromASubscriber | kernelspace/x86_64/beemon.bpf.c:220-242 | in every run each traced pid is joined by a finite chain of traced forks to a once-subscribed pid and passes the metrics gate |
| Provenance.EveryTargetIsFullyTracedExactly | kernelspace/x86_64/beemon.bpf.c:426-434 | every state of a run has both flags everywhere if and only if no fork handler of it found its parent gone at its second lookup |
| Provenance.EveryTargetIsFullyTraced | kernelspace/x86_64/beemon.bpf.c:426-434 | so a run in which no handler lost its parent, interleaved or not, ends with both flags on every entry |
| Gates.ReportsItself | kernelspace/x86_64/beemon.bpf.c:232-242 | a firing writes at most one record, of the thread and the process that fired, and only for a process in the map |
| Gates.BothFlagsReport | kernelspace/x86_64/beemon.bpf.c:220-248 | with both flags on its process every probe writes its record, whichever thread fires it, unless the ring is full or an accept was handed no socket |
| Gates.BitDecides | kernelspace/x86_64/beemon.bpf.c:225-248 | which bit of the entry decides for which hook on which program, and that a process without an entry reports nothing |
| Gates.RecordTellsTheProbe | kernelspace/x86_64/beemon.bpf.c:395-720 | two of the named probes that write the same record are the same hook with the same arguments, thread and process |
| Gates.SubscribedIsReported | src/stream.rs:89-118 | in every orderly run a firing in a process somebody listens for is written by either program |
| Gates.EveryRecordIsAccounted | kernelspace/x86_64/beemon.bpf.c:220-242 | in every run each record either program writes is of a probe whose process was in the map as it fired, or of a fork whose parent passed the gate |
| Gates.ReportsOnlyDescendants | kernelspace/x86_64/beemon.bpf.c:220-242 | in every run, interrupted forks included, each record either program writes is about a process joined by traced forks to a once-subscribed pid |
| Gates.EverythingDueIsReported | kernelspace/x86_64/beemon.bpf.c:225-242 | over every run in which no fork handler loses its parent either program writes exactly one record per firing in a process that is in the map then and one per fork of such a process, in order |
| Gates.ProgramsAgreeExactlyOnEvenMaps | kernelspace/arm64/beemon.bpf.c:699-822 | the two programs emit the same for every probe if and only if no entry carries one flag alone |
| Gates.InterchangeableExactly | kernelspace/arm64/beemon.bpf.c:699-822 | whatever probes fire into a run, both programs write the same records if and only if no fork handler of the run writes an entry with one flag alone |
| Gates.StepKeepsEvenExactly | kernelspace/x86_64/beemon.bpf.c:431-434 | a step leaves an even map even if and only if it is not such a write |
| Gates.FullFlagsHideTheDifference | kernelspace/arm64/beemon.bpf.c:223-242 | from a state with both flags everywhere both write the same while no fork handler loses its parent |
| Gates.ArchitecturesEmitTheSame | kernelspace/x86_64/beemon.bpf.c:225-242 | over every run in which no fork handler loses its parent, interleaved or not, both programs write the same records, fork records included |
| Gates.AtomicForkReportsTheSame | kernelspace/x86_64/beemon.bpf.c:426-453 | an atomic fork writes the record that the handler's three operations write |
| Gates.InterruptedForkTellsThemApart | kernelspace/x86_64/beemon.bpf.c:426-434 | an unmap between the handler's lookups yields a child with one flag and a probe on which the programs differ |
| Gates.InterruptedForkRun | kernelspace/x86_64/beemon.bpf.c:426-434 | a run from the start that does so |
| IoAccounting.StepKeepsWellFormed | kernelspace/x86_64/beemon.bpf.c:322-390 | handlers always carry calls they accept and point at elements that existed |
| IoLedger.AddedIsWhatWasReported | kernelspace/x86_64/beemon.bpf.c:322-390 | in every run the history of added bytes, with what handlers still hold, is the sum of the bytes the probes were told, counter by counter |
| IoConservation.UpdateConserves | kernelspace/x86_64/beemon.bpf.c:327-336 | an update counts the new bytes, or they (or what it overwrites) are reported lost |
| IoConservation.StepConserves | kernelspace/x86_64/beemon.bpf.c:322-390 | each step keeps counted plus lost equal to added, for every pid and counter |
| IoConservation.EveryByteIsCountedOrLost | kernelspace/x86_64/beemon.bpf.c:322-390 | in every interleaving, with evictions and refused inserts, the sum over CPUs plus the losses plus what handlers still hold is what the read, write, receive and send probes were told for the pid |
| IoConservation.TotalIsExact | src/bpf/maps.rs:50-59 | while a pid's entry is neither evicted nor refused, the sum over CPUs plus what handlers still hold is exactly what the probes were told |
| IoConservation.TotalIsExactExactly | src/bpf/maps.rs:50-59 | in any run that equation holds if and only if no step lost bytes: by eviction, refusal, overwriting a slot, or updating an entry that had left the map |
| IoConservation.GrowthIsExact | src/bpf/maps.rs:50-59 | between evictions a reading grows by exactly what is added |
| IoConservation.EvictionStartsAfresh | kernelspace/x86_64/beemon.bpf.c:377-390 | an eviction starts a new exact stretch if and only if no handler still points at the old entry |
| IoConservation.SlotWithinTotal | src/bpf/maps.rs:50-59 | no CPU's counter exceeds the total |
| IoConservation.SumPerCpu | src/bpf/maps.rs:50-59 | each counter of the result is that counter's sum over the CPUs |
| IoConservation.IoStatsSummed | src/bpf/maps.rs:111-119 | the reading fails exactly when a step of the walk fails; otherwise each entry comes out with its sum over CPUs |
| IoConservation.EveryPidOnce | src/bpf/maps.rs:111-119 | whatever order the map is walked in, every pid comes out once with its totals |
| FlowLedger.KeyIsTheTuple | kernelspace/x86_64/beemon.bpf.c:341-355 | two calls share a flow key exactly when they agree on pid, both addresses, both ports, family and protocol |
| FlowLedger.KeyFields | kernelspace/x86_64/beemon.bpf.c:341-355 | each part of the tuple is in its own field, the local port as it is |
| FlowLedger.NtohsSwaps | kernelspace/x86_64/beemon.bpf.c:347-349 | the two bytes of the remote port change places |
| FlowLedger.AdditionPays | kernelspace/x86_64/beemon.bpf.c:357-366 | each addition takes off what its handler owes exactly what it credits |
| FlowLedger.CreditedIsWhatWasAsked | kernelspace/x86_64/beemon.bpf.c:357-374 | in every run the bytes and packets credited to a flow, with what handlers past its lookup still owe, are what the calls that looked it up were told: their bytes, and a packet for each direction with bytes |
| FlowBounds.AdditionMoves | kernelspace/x86_64/beemon.bpf.c:357-366 | an atomic addition leaves flow plus pending unchanged, in both directions, when the found flow is still in the map, and only lowers it otherwise |
| FlowBounds.FlowsNeverExceedWhatWasAdded | kernelspace/x86_64/beemon.bpf.c:322-375 | in every run a pid's flows together hold no more bytes than were added for it |
| FlowBounds.FlowsNeverExceedTheCounters | kernelspace/x86_64/beemon.bpf.c:322-375 | while its entry is kept, no more than its counters summed over CPUs |
| FlowBounds.AdditionIsBalanced | kernelspace/x86_64/beemon.bpf.c:359-366 | each addition brings packets, landed or in flight, exactly when it brings bytes, and no more of them |
| FlowBounds.PacketsWithinBytes | kernelspace/x86_64/beemon.bpf.c:357-374 | in every run a flow has no more packets than bytes; both are zero together if and only if there is a packet already or no handler is between the byte and the packet addition of that flow |
| FlowWitnesses.BytesWithoutPackets | kernelspace/x86_64/beemon.bpf.c:357-374 | for any send and receive of one flow, a run from the start after which the flow has received bytes and no received packet |
| FlowBounds.FlowUndercounts | kernelspace/x86_64/beemon.bpf.c:357-374 | whatever the races, what a flow shows plus what was dropped is the bytes told to the calls that looked it up, less what handlers have still to add; so it never shows more |
| FlowBounds.FlowIsExactExactly | kernelspace/x86_64/beemon.bpf.c:357-374 | a flow shows exactly that many bytes if and only if no step of the run lost bytes: by adding to a flow that had left the map, by a refused creation, or by replacing a flow that had bytes |
| FlowBounds.OverlapLosesTheFirst | kernelspace/x86_64/beemon.bpf.c:367-374 | of two overlapping creations the later wins and the flow misses exactly the bytes of the earlier |
| FlowWitnesses.OverlapShowsTheSecond | kernelspace/x86_64/beemon.bpf.c:367-374 | for any two calls of one flow, a run from the start in which both create it and it shows the second alone |
| FlowBounds.FlowIsExactWithoutOverlap | kernelspace/x86_64/beemon.bpf.c:367-374 | in particular a flow is exact when no two creations of its key overlap and none is refused |
| KernelMaps.StatMaps.AddIo | kernelspace/x86_64/beemon.bpf.c:327-336 | one uninterrupted call moves every total that was not evicted by exactly its amount |
| KernelMaps.StatMaps.AddFileIo | kernelspace/x86_64/beemon.bpf.c:377-390 | file bytes are added to the pid's totals, which the call never evicts, and to nothing for pid 0 |
| KernelMaps.StatMaps.AddNetIo | kernelspace/x86_64/beemon.bpf.c:322-375 | the pid's totals always grow and are never evicted by the call; the flow grows, with its packets, exactly when the pid is traced and the flow map has it or has room |
| Rates.ComputeRates | src/rates.rs:120-166 | per-pid rates and host rates, times the time since the previous poll, are the bytes of that interval to within one rounding, or 64 bits' most if that is less, whatever order the map is walked in |
| Rates.PerSecIsRate | src/rates.rs:145-159 | a rate times its seconds is at most the bytes, and with one more byte per second exceeds them; a capped rate is 64 bits' most and the bytes reach it |
| Rates.OneRate | src/rates.rs:145-159 | that description has one rate |
| Rates.AccumulatorsFit | src/rates.rs:133-144 | no accumulator overflows at any point of the loop while the counters together fit in 64 bits |
| Rates.HostDeltaFits | src/rates.rs:133-144 | nor does the host total of the deltas |
| Rates.FloorsOfParts | src/rates.rs:145-159 | rounding each part down loses less than one per part |
| Rates.HostRateIsAccountedFor | src/rates.rs:131-160 | the host rate, capped or not, is at most the sum of the per-pid rates plus one per pid after the first |
| Rates.RatesAddUp | src/rates.rs:131-160 | per-pid rates sum to at most the host rate if and only if the host rate is below its cap, or the rounded rates together fit in 64 bits, or at most one pid has a rate at all |
| Rates.CapBreaksTheSum | src/rates.rs:145-159 | two pids and a short interval for which the cap makes per-pid rates exceed the host rate |
| Rates.DeltasTelescope | src/rates.rs:135-140 | a pid's deltas cover its growth over any polls, with equality if and only if its samples never go down |
| Rates.HostDeltaIsGrowthPlusDrops | src/rates.rs:131-151 | one poll's host delta is the host's growth if and only if no pid went down |
| Rates.HostDeltasTelescope | src/rates.rs:55-71 | over any polls the host deltas cover the growth since the first, with equality if and only if no pid ever went down |
| Rates.Poller.Tick | src/rates.rs:57-81 | each tick publishes rates against the previous sample over the actual time since it, at least a ten-thousandth of a second, and keeps the new one |
| EndToEnd.PolledGrowthIsTraffic | src/rates.rs:86-100 | the delta of two polls is exactly what the probes were told in between, give or take what handlers hold at the two ends, as long as the entry stayed in the map |
| Scratch.SlotIsPrivate | kernelspace/x86_64/beemon.bpf.c:524-618 | other threads leave a thread's saved arguments alone and report nothing for it |
| Scratch.OpenCallReports | kernelspace/x86_64/beemon.bpf.c:572-618 | what one whole call reports, whatever else happens while it runs |
| Scratch.SteadyOpenCallReportsItself | kernelspace/x86_64/beemon.bpf.c:524-618 | with the same trace status at both ends, at most one open, for a non-negative result, with this call's own flags and at most 255 characters of its name |
| Scratch.FailedOpenReportsNothing | kernelspace/x86_64/beemon.bpf.c:590-618 | a call that returned an error number reports nothing, and if traced at its exit leaves no arguments behind |
| Scratch.DescriptorIsReported | kernelspace/x86_64/beemon.bpf.c:572-618 | a call traced throughout that returned a descriptor reports that descriptor |
| Scratch.StaleReportExactly | kernelspace/x86_64/beemon.bpf.c:572-618 | a report carries another call's arguments if and only if the call was entered untraced and left traced by a thread with a leftover slot |
| Scratch.StaleRun | kernelspace/x86_64/beemon.bpf.c:572-618 | a run from the start whose only report carries the name and flags of an earlier call |
| Scratch.UdpReceiveCreditsItsSocket | kernelspace/x86_64/beemon.bpf.c:1213-1242 | a receive is credited to the socket of its own entry, and the slot is empty afterwards |
| Scratch.UdpReceiveCountsItsBytes | kernelspace/x86_64/beemon.bpf.c:1222-1242 | with exactly the bytes it returned, and not at all if it failed or returned none |
| ScratchProbes.Probes.SysEnterOpen | kernelspace/x86_64/beemon.bpf.c:572-588 | the handler over the real maps is the entry step |
| ScratchProbes.Probes.SysExitOpen | kernelspace/x86_64/beemon.bpf.c:590-618 | the handler is the exit step and submits exactly that step's reports |
| ScratchProbes.Probes.UdpRecvmsg | kernelspace/x86_64/beemon.bpf.c:1213-1220 | the probe is the receive entry step |
| ScratchProbes.Probes.UdpRecvmsgRet | kernelspace/x86_64/beemon.bpf.c:1222-1242 | the return probe is the receive exit step and accounts exactly that step's bytes |
| Text.SplitSpaced | src/snapshot/procfields.rs:54-57 | splitting at white space undoes joining with spaces |
| Text.ParseDecimal | src/snapshot/procfields.rs:62-69 | a printed number is read back, at either integer type, if and only if it fits |
| Text.ParseDecimalInt | src/snapshot/procfields.rs:62-69 | a signed number likewise, down to the least 32-bit integer |
| ProcStat.ParseFields | src/snapshot/procfields.rs:55-70 | one pass over the fields yields fields 1, 2, 12 and 13 after the command, or fails at the first missing or bad one |
| ProcStat.CutStat | src/snapshot/procfields.rs:51-55 | the text is cut at the first opening and the last closing parenthesis, panics if they are reversed and fails if one is missing |
| ProcStat.ParseStat | src/snapshot/procfields.rs:48-71 | the command is cut at the outermost parentheses, then the fields are read |
| ProcStat.BracketsSplit | src/snapshot/procfields.rs:49-54 | the cut gives back any command, with parentheses or spaces in it or not |
| ProcStat.StatRoundTrip | src/snapshot/procfields.rs:44-71 | for every command, a line of the kernel's format comes back with command, state, ppid, utime and stime unchanged, and the manager's reader agrees |
| ProcStat.ReadersAgree | src/snapshot/manager.rs:38-46 | on every parsed line with a space after the command both readers give the same command and parent; a negative parent fails in the second |
| ProcStat.ParseStatPanicsExactly | src/snapshot/procfields.rs:51-53 | the reader panics exactly when the first opening parenthesis comes after the last closing one |
| ProcStat.ProcInfoPanicsExactly | src/snapshot/manager.rs:40-43 | the manager's reader panics exactly then, or when the last closing parenthesis ends the text or is followed by a character that is not ASCII |
| NsLinks.NsLinkRoundTrip | src/snapshot/proc_cache.rs:141-152 | the inode in a link's text is read back |
| NsLinks.ReadNsInodes | src/snapshot/proc_cache.rs:127-155 | the result holds exactly the names whose links can be read and parsed, each with its last inode |
| NsLinks.DirectoryIsReadBack | src/snapshot/proc_cache.rs:127-155 | with distinct names every readable link is in the result under its own inode |
| CgroupPath.PlaceLine | src/snapshot/proc_cache.rs:178-189 | one line goes to the slot it belongs to: v2, memory, or the first other |
| CgroupPath.ResolveLines | src/snapshot/proc_cache.rs:166-193 | the fold yields the last v2 path, else the last memory path, else the first other, and nothing if a line is broken |
| CgroupPath.ResolveCgroupV2Path | src/snapshot/proc_cache.rs:166-193 | the same for the whole text, and the path never starts with a slash |
| CgroupPath.ResolvesUniquely | src/snapshot/proc_cache.rs:157-165 | that rule has one answer |
| CgroupPath.SplitJoined | src/snapshot/proc_cache.rs:185 | splitting at commas undoes joining with commas |
| CgroupPath.MemoryLineExactly | src/snapshot/proc_cache.rs:178-189 | a line is a memory line if and only if `memory` is one of the controllers it was printed with and its path is not empty |
| CgroupPath.LineRoundTrip | src/snapshot/proc_cache.rs:173-177 | a printed line is split back into its three fields, colons in the path included |
| CgroupPath.LinesRoundTrip | src/snapshot/proc_cache.rs:172 | printed lines come back as they were, but for one carriage return at the end of each |
| CgroupPath.FileReadBack | src/snapshot/proc_cache.rs:172-177 | a whole printed file is read back record by record, each path without a final carriage return |
| CgroupPath.FileRoundTrip | src/snapshot/proc_cache.rs:172-177 | a whole printed file gives back its records if and only if no path ends in a carriage return |
| CgroupPath.CarriageReturnIsLost | src/snapshot/proc_cache.rs:172-177 | a record whose path ends in a carriage return is read back without it, whatever the path |
| CgroupPath.DecidingLineIsTheAnswer | src/snapshot/proc_cache.rs:162-192 | the answer is the trimmed path of the last v2 line, else the last memory line, else the first other |
| CgroupPath.RootCgroupIsEmptyPath | src/snapshot/proc_cache.rs:181-192 | the answer is the empty path if and only if the deciding line's path is all slashes |
| CgroupPath.RootFileIsEmptyPath | src/snapshot/proc_cache.rs:181-192 | the text `0::/` resolves to the empty path |
| Managers.DetectManager | src/snapshot/manager.rs:48-92 | the loop stops on every parent relation, cycles included, and computes the walk |
| Managers.DetectedIsNearest | src/snapshot/manager.rs:48-92 | the answer is the manager at the least depth of the duplicate-free, non-zero, readable lineage, and none exactly when there is none |
| Managers.OneAnswer | src/snapshot/manager.rs:48-92 | that description has one answer |
| Managers.DetectedByName | src/snapshot/manager.rs:67-79 | a manager is the answer if and only if the first member of the lineage that bears a manager's command where it counts bears that manager's: `containerd` or `containerd-shim`, `dockerd`, `podman`, `crio`, `conmon` from the parent up, `systemd` as the parent only |
| Managers.SystemdExactlyAsTheParent | src/snapshot/manager.rs:70-71 | systemd is the answer if and only if the parent runs it |
| Managers.UndetectedByName | src/snapshot/manager.rs:67-79 | there is no answer if and only if no member of the lineage bears such a command where it counts |
| Managers.ConsistentCacheIsInvisible | src/snapshot/manager.rs:59-65 | a cache that agrees with `/proc` gives the answer of the empty cache |
| Managers.DetectedFromTheParent | src/snapshot/manager.rs:59-65 | a cache that may be wrong about one pid alone decides only the parent its walk goes up from |
| Managers.DepthFits | src/snapshot/manager.rs:51-89 | no lineage is long enough to overflow the depth counter |
| ProcCaches.ProcCache.constructor | src/snapshot/proc_cache.rs:47-52 | a new cache is empty |
| ProcCaches.ProcCache.GetOrLoad | src/snapshot/proc_cache.rs:58-76 | an entry is reloaded when missing or expired, removed when the process is gone, and returned as cached |
| ProcCaches.ProcCache.Invalidate | src/snapshot/proc_cache.rs:81-83 | that pid's entry goes, no other |
| ProcCaches.ProcCache.Sweep | src/snapshot/proc_cache.rs:87-89 | exactly the entries of alive pids stay |
| ProcCaches.GetIsIdempotent | src/snapshot/proc_cache.rs:58-76 | asked again within a time to live of a load, the cache answers from memory |
| ProcCaches.DetectionIgnoresAConsistentCache | src/snapshot/proc_cache.rs:103-112 | while the cache agrees with `/proc`, a manager is found as if there were no cache |
| ProcCaches.ReloadSearchesAboveTheRecordedParent | src/snapshot/proc_cache.rs:103-112 | with every other entry agreeing with `/proc`, a reload finds the manager above the recorded parent |
| ProcCaches.ReloadIsRightExactly | src/snapshot/proc_cache.rs:103-112 | it finds what `/proc` alone would give if and only if the recorded parent and the one just read lead to the same manager, and always when the parent is unchanged |
| OldParent.ReloadFollowsTheOldParent | src/snapshot/proc_cache.rs:58-112 | a run from the start in which a process changes parents and is reloaded without the manager `/proc` would give |
| NamespaceTrees.NamespaceTreeCache.AddProcess | src/snapshot/namespace_tree_cache.rs:38-42 | one process is added under each of its namespaces, in any order |
| NamespaceTrees.NamespaceTreeCache.RebuildFrom | src/snapshot/namespace_tree_cache.rs:35-46 | a pid is under a key exactly when its cached entry says so, and no bucket is empty |
| NamespaceTrees.OneIndex | src/snapshot/namespace_tree_cache.rs:35-46 | that describes one index, so iteration order does not matter |
| NamespaceTrees.NamespaceTreeCache.Invalidate | src/snapshot/namespace_tree_cache.rs:51-53 | only the build time is forgotten |
| NamespaceTrees.NamespaceTreeCache.FindAnyPid | src/snapshot/namespace_tree_cache.rs:65-69 | some member of the bucket, and none exactly when it is empty |
| NamespaceTrees.NamespaceTreeCache.PidsIn | src/snapshot/namespace_tree_cache.rs:73-83 | exactly the bucket's members, strictly ascending |
| NamespaceTrees.OneAscendingList | src/snapshot/namespace_tree_cache.rs:71-83 | that describes one list |
| CgroupTrees.CgroupTreeCache.GetOrLoad | src/snapshot/cgroup_tree_cache.rs:53-70 | both maps and the counter move together; no path, no answer and no change |
| CgroupTrees.CgroupTreeCache.Invalidate | src/snapshot/cgroup_tree_cache.rs:75-78 | the path leaves both maps and the counter stays |
| CgroupTrees.GetIsIdempotent | src/snapshot/cgroup_tree_cache.rs:53-70 | asked again within a time to live of a load, the cache answers from memory and nothing in it changes |
| CgroupTrees.StepKeepsInv | src/snapshot/cgroup_tree_cache.rs:53-78 | every call keeps the key sets equal, the counts balanced and the cached limits true when stamped |
| CgroupTrees.MapsStayInStep | src/snapshot/cgroup_tree_cache.rs:53-84 | in every run both maps have the same keys and the counter is the length plus the effective invalidations |
| CgroupTrees.CountsDistinctPathsExactly | src/snapshot/cgroup_tree_cache.rs:35-37 | the counter is the number of distinct paths if and only if no evicted path was loaded again |
| CgroupTrees.RecountRun | src/snapshot/cgroup_tree_cache.rs:53-78 | a run from the start that counts one path twice |
| CgroupTrees.LimitsAreRecent | src/snapshot/cgroup_tree_cache.rs:50-70 | limits returned were true at most a time to live plus one load ago |
| CacheRuns.StepKeepsInv | src/snapshot/scanner.rs:186-199 | every step of the scanner and of the event task keeps entries honest, evictions final and the index exact for its copy |
| CacheGuarantees.EntryIsRecent | src/snapshot/proc_cache.rs:54-76 | in every run an entry returned was true at most a time to live plus one load before it was asked for |
| CacheGuarantees.EvictedForGood | src/snapshot/mod.rs:33-58 | once an exit, setns or unshare is handled no entry loaded before it is returned again |
| CacheGuarantees.ForwardedAfterEviction | src/ringbuf.rs:73-81 | an event is forwarded only after its eviction and its reset have taken effect |
| CacheGuarantees.IndexIsTimely | src/snapshot/namespace_tree_cache.rs:51-61 | an index that is not stale is exact for its copy, at most a time to live old, and each answer was true within one cache lifetime before that scan |
| CacheGuarantees.StepKeepsFresh | src/snapshot/scanner.rs:186-199 | outside the window every step keeps the index fresh |
| CacheGuarantees.IndexMissesNothing | src/snapshot/scanner.rs:186-199 | when no namespace move is handled between copy and rebuild, an index in force has missed none, in every run |
| CacheGuarantees.AnswersFollowEveryMove | src/snapshot/scanner.rs:186-199 | in such a run every pid the index answers with was read at or after each setns and unshare of it handled so far |
| CacheGuarantees.FreshExactlyAfterAQuietWindow | src/snapshot/scanner.rs:186-199 | a rebuilt index is fresh if and only if no namespace move was wholly handled since the copy |
| CacheGuarantees.ManagerIsStable | src/snapshot/proc_cache.rs:58-76 | between two removals a pid's manager is unknown for a while and then one constant |
| MissedMove.IndexMissesAMove | src/snapshot/scanner.rs:186-199 | a run from the start whose index is not stale and still gives a namespace the process has left, after the event was forwarded |
| Invalidators.CacheInvalidators.OnEvent | src/snapshot/mod.rs:33-58 | the handler is the eviction step followed by the reset step |
| Invalidators.WhatEachEventDrops | src/snapshot/mod.rs:33-58 | exit, setns and unshare drop the pid's entry, and the last two the index's build time as well |
| Invalidators.HandleSample | src/ringbuf.rs:64-82 | a short sample does nothing; otherwise the event is forwarded, and the caches are evicted from if it has a payload and left alone if not |
| Scanner.CpuPct | src/snapshot/scanner.rs:212-238 | 0 for a first sample; otherwise the percentage times the elapsed seconds is the user and system ticks since the previous sample, or what one processor could use if that is less |
| Scanner.OnePct | src/snapshot/scanner.rs:212-238 | that determines the percentage |
| Scanner.CpuPctMeasures | src/snapshot/scanner.rs:212-238 | below the cap, percentage times elapsed seconds gives back the user and system ticks used |
| Scanner.PublishedExactly | src/snapshot/scanner.rs:122-184 | with distinct directory entries the published pids are the non-zero alive pids once each |
| Scanner.GetKeepsRecent | src/snapshot/scanner.rs:138-148 | a process asked for in a scan has an entry no older than one time to live at its start |
| Scanner.AliveStep | src/snapshot/scanner.rs:122-184 | visiting one alive process keeps all that the scan has established for the earlier ones |
| Scanner.ProcessScanner.ScanProcess | src/snapshot/scanner.rs:127-178 | a process is published with its own reading, its cached entry, and the limits of that entry's cgroup |
| Scanner.ProcessScanner.VisitAll | src/snapshot/scanner.rs:122-184 | the loop leaves both caches as if the alive pids had been asked for one by one in listing order, with samples, alive set and published list to match |
| Scanner.ProcessScanner.ScanOnce | src/snapshot/scanner.rs:81-210 | a failed listing changes nothing; otherwise samples are over the alive pids, the caches are those of the visits swept to the alive pids, the published pids are the non-zero alive ones with their own data and cached entry, and a stale index is rebuilt from the swept cache |
| ScanRuns.ScanIsARun | src/snapshot/scanner.rs:81-210 | a successful scan is a stretch of run: it begins, waits and asks for each alive pid, sweeps and copies, waits and rebuilds |
| ScanRuns.ScanWithinARun | src/snapshot/scanner.rs:81-210 | run on the caches a run shows, the scanner leaves them as that run's next steps do |

## Left out

- Broadcast capacity and lag, lock poisoning, the ring buffer, file-descriptor polling and the async runtime: a channel is the list of what it delivered to its attached receivers.
- The steps inside `subscribe`: it is one step, because it holds the `streams` lock throughout and what others may do meanwhile (drop a receiver, remove or write an entry of `target_pids`) has the same effect before or after it.
- Kernel map policy: which entry an LRU map evicts, memory recycling and read-copy-update. Eviction is a step of the environment, and updates of a full hash map fail.
- Widths of the byte counters: they are unbounded here; `IoConservation.SlotWithinTotal` and `Rates.AccumulatorsFit` say when nothing overflows. The wrap of the rate accumulators and the cap of a rate at 64 bits are modelled. `utime + stime` is also unbounded.
- Rounding of 32-bit floats in rates and percentages: both are exact rationals.
- Gates: event payloads are the values the context held; handlers whose code is the same on both sides are one case. Opening and closing a file through `open_args` is in `Scratch`.
- The machines in `IoAccounting`, `Scratch`, `CacheRuns` and `CgroupTrees` are on values, so that steps of different actors can interleave; the classes in `KernelMaps`, `ScratchProbes`, `ProcCaches`, `NamespaceTrees` and `CgroupTrees` show the same updates in place, one call at a time.
- The `udp_recv_msg` map: the accounting function never uses the message it is handed.
- When a load reads `/proc`: all readings of one load are at one instant and its stamp may be later. Parsing is modelled apart from loading, in `ProcStat`, `NsLinks` and `CgroupPath`.
- Files that are not valid UTF-8, which the readers refuse as unreadable; resident memory from `/proc/<pid>/status`, state labels and host CPU samples.
- When a namespace change takes effect: the kernel programs report setns and unshare on entry to the call (`kernelspace/x86_64/beemon.bpf.c:701-717`), so an entry reloaded between the event and the change is old until it expires; only the time to live bounds that.
- CacheGuarantees.IndexIsTimely: about an index that is not stale; `find_any_pid` and `pids_in` do not look at staleness, so a reset index goes on answering until it is rebuilt.
- The search for a cgroup's directory (`find_cgroup_dir`) and the parsing of limit files: limits are a function of time and path.
- Conversion of events to protobuf, the web interface, configuration, namespace details, and loading and attaching the kernel programs.
