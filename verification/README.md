# Verified model of the proxies' network core

A Dafny model of the state machines that sit between the game and the network: the receive-side reorder
buffer, the send pacer, the round-trip sampler, the duplicate suppressor, the governor read-back, and two
drivers built around them, the completion-port hook and the capture ring with its decoder.

    dafny verify dfyconfig.toml

Each part has the same shape. `XModel` says on values what every operation does to its state, branch for
branch as the source does. The files beside it prove what the part promises about those functions: what
every step keeps, what holds over every run, round trips, conservation. `XCore` is the same code as the
source writes it: classes whose methods update fields, slot arrays and circular queues in place with
loops, each method proved to take the state exactly where the function of `XModel` takes its value. So
the theorems are about what the loops do.

| part | source | model | proofs | in place |
|---|---|---|---|---|
| sequence arithmetic | `shared/reorder_core.h` | `Serial` | | |
| reorder buffer | `shared/reorder_core.h` | `ReorderModel` | `ReorderRings`, `ReorderRuns` | `ReorderCore` |
| receive hook | `dsound_proxy.cpp` | `HookModel` | `HookConservation`, `HookOrder`, `HookPassing`, `HookWaits` | `ReceiveHook` |
| send pacer | `shared/send_pace.h`, `dsound_proxy.cpp` | `PaceModel` | `PaceTiming`, `PaceRuns`, `PaceSchedule`, `BurstMeter` | `PaceCore` |
| peer tables of the two below | `shared/net_rtt.h`, `shared/send_dampen.h` | `PeerTable` | `PeerTable` | `RttCore`, `DampenCore` |
| round-trip sampler | `shared/net_rtt.h` | `RttModel` | `RttSmoothing`, `RttKarn`, `RttInOrder`, `RttComplete`, `RttCounts`, `RttTable` | `RttCore` |
| duplicate suppressor | `shared/send_dampen.h` | `DampenModel` | `DampenRun`, `DampenTable`, `DampenBackoff`, `DampenWindows`, `DampenSafety`, `DampenEpoch`, `DampenRestart` | `DampenCore` |
| governor read-back | `shared/gov_trace.h` | `GovModel` | `GovVerdicts`, `GovHistory` | `GovCore` |
| completion-port hook | `netcode_hooks.cpp` | `IocpModel` | `IocpConservation`, `IocpOrder`, `IocpTiming`, `IocpWaits`, `IocpWatchdog`, `IocpRecvs`, `IocpScript` | `IocpCore` |
| capture ring and decoder | `dsound_proxy.cpp`, `decode_buffer_log.py` | `CaptureFormat` | `CaptureReader` | `CaptureCore`, `CaptureReader.Parse` |

Table sizes, ring depths and tuning values are symbolic, so every result holds for the shipped constants
and for any others.

What is assumed throughout: clock readings do not decrease in the order in which the locked regions run
(stated as a precondition wherever a result needs it); configuration does not change after start; ring
depth and table size are at least one and the smallest window is no larger than the largest; a source has
a non-zero address, since an all-zero key matches a free table entry; each locked region is one atomic
step.

## Where the code does something other than its comments say

For each there is a theorem with the exact condition and one with an input or a run that shows it.

- "Never a wrong number" (`shared/net_rtt.h:64-68`). A sample can time the second of two sends of a
  sequence: when the ring evicted it in between (`RttInOrder.EvictionBreaksKarn`, for every capacity), or
  when acks of sequences never sent carry the cursor around the circle (`RttInOrder.StrayAcksBreakKarn`).
  `RttKarn.SampleSoundIff` says exactly when a sample times a sequence's one and only send. With first
  transmissions in order a wrong one goes back to an eviction at or below its own number
  (`RttInOrder.KarnSoundUnlessEvicted`), though not always of its own slot (`RttInOrder.OvertakenBreaksKarn`).
- "A retransmit of a message still in the ring is never below the oldest"
  (`shared/send_dampen.h:201-208`). The head is the oldest by insertion. Copies of retained sequences are
  safe from the reset exactly as long as each copy that pushes the head out of a full ring leaves a head
  that neither it nor any other sequence lies behind, whatever the order of the copies
  (`DampenEpoch.RetainedSafeIff`); so before the first overflow they always are
  (`DampenEpoch.SafeWithoutOverflow`). With one late first copy and one overflow, the next copy of a retained
  sequence wipes the ring (`DampenEpoch.LateFirstWipes`, for every capacity of two or more).
- A sequence below the ring "can only be a restart" (`shared/send_dampen.h:196-201`). A restart always
  fires the reset (`DampenRestart.RestartResets`), but so do a repeat of a sequence the ring has evicted
  (`DampenRestart.EvictedRepeatWipes`, first copies in order) and a late first copy, with room to spare
  (`DampenRestart.LateFirstFires`). In any order there is one more cause, an overflow that leaves a head
  which is not the least, and no other (`DampenRestart.ResetCause`). Exactly: until the ring next overflows
  or is reset, a copy fires it when its sequence lies behind the one that started the ring
  (`DampenRestart.FiresIffBehindStart`); with first copies in order, when it restarts or repeats what the
  ring has lost, until an epoch is first disturbed so (`DampenRestart.ResetIff`).
- `min_ms` is the least sample exactly unless the latest is positive and an earlier one was 0
  (`shared/net_rtt.h:274`): `RttSmoothing.ReportedLeastIff`, `RttSmoothing.ReportedLeastFails`.
- A forced release can destroy younger held packets (`shared/reorder_core.h:504-525`):
  `ReorderRings.ForcedDestroysExactly` says which, and that the fallback to the oldest packet is never
  the one chosen; `ReorderRings.ForcedMayDestroy` is such a ring. A first release can too, when what is held
  spans half the sequence circle (`ReorderRings.FirstDestroysNothingIff`, `ReorderRings.FirstMayDestroy`).
- Datagrams `pace_take` refuses to look at go out past the queue without a flush
  (`dsound_proxy.cpp:485-489`), so sequenced datagrams leave in the order offered exactly when none of
  those is sent while something is queued: `PaceRuns.SequencedOrderIff`, `PaceRuns.OversizedOvertakes`.
- The hold window is to widen on evidence of reordering, a late packet or the one that closes a gap
  (`shared/reorder_core.h:418-427`). The completion hook offers it only packets beyond the gap
  (`netcode_hooks.cpp:837-840`), which never widen it (`IocpWaits.AdaptationIsIdle`), and its releases do not
  narrow it: on that path every source keeps the window its entry was claimed with
  (`IocpWaits.WindowsNeverAdapt`).
- "Nothing is held past the peer's reorder window" (`netcode_hooks.cpp:525-527`). The hook makes its real
  call only while everything held is younger than its own source's window (`IocpTiming.AskedWhileYoung`), but
  that call may wait for what is left of the whole budget. Keeping to that wait, it can bring something held
  past its window exactly when the window ends by the time the call was entered plus its budget
  (`IocpTiming.CallOverdueIff`, for every round of every call); `IocpTiming.OutlivesWindow` is a run in which a
  packet with a window of 10 ms is held for 150.
- The watchdog acts "if a hold ever overruns, falling back to stock behaviour" (`netcode_hooks.cpp:528-529`). It
  fires exactly when a round that defers ends more than five budgets after the call was entered
  (`IocpWatchdog.DoggedIff`). An overrun hold is not enough (`IocpTiming.OutlivesWindow`) and not needed: a
  call that does not want to wait has no budget, and one deferral of a millisecond fires it
  (`IocpWatchdog.PollingFires`, `IocpWatchdog.FiresOnYoungHold`). It fires only with a completion in its hands
  (`IocpWatchdog.DoggedStrands`, `IocpWatchdog.WatchdogCanFire`), and a held completion can still reach the
  game exactly while it has not fired (`IocpWatchdog.CanGoOutIff`).

## Model

| member | source | states |
|---|---|---|
| `Serial.Cmp` | shared/reorder_core.h:251-253 | the signed 32-bit difference: within the half circle, and zero only for equal sequences |
| `Serial.Next` | shared/reorder_core.h:256-258 | the successor is the one sequence exactly one ahead, across the wrap |
| `Serial.CmpExact` | shared/reorder_core.h:245-253 | on the images of naturals less than half the circle apart the comparison is the true difference |
| `Serial.CmpFlip` | shared/reorder_core.h:251-253 | the comparison is antisymmetric except at the exact half-way distance, which reads as behind from both sides |
| `ReorderModel.HeaderBytes` | shared/reorder_core.h:264-281 | a payload's sequence is exactly the number whose four bytes, most significant first, lie from offset 10, and its ack the one from offset 14 |
| `ReorderModel.KeysDiffer` | shared/reorder_core.h:372-374 | two sources have the same key only if address and port are the same |
| `ReorderModel.LeastActive` | shared/reorder_core.h:391-402 | the entry reclaimed is the least recently active of all |
| `ReorderModel.GetPeer` | shared/reorder_core.h:371-415 | an entry that is found carries the source's key, and the table keeps its size |
| `ReorderRings.InsertKeeps` | shared/reorder_core.h:582-629 | after any insertion the held sequences are distinct and ahead of the cursor and the fill count is exact |
| `ReorderRings.InsertWithRoom` | shared/reorder_core.h:582-629 | a ring that is not full never displaces a packet |
| `ReorderRings.NoteKeeps` | shared/reorder_core.h:533-566 | noting a delivery leaves only distinct sequences strictly ahead of the cursor, counted exactly |
| `ReorderRings.TakeKeeps` | shared/reorder_core.h:733-745 | so does a release |
| `ReorderRings.PickHeld` | shared/reorder_core.h:634-707 | what is chosen is a held packet: first without a cursor, in order exactly for the successor, else one that waited out its window |
| `ReorderRings.ForcedChoice` | shared/reorder_core.h:673-707 | a forced release takes the serially nearest of the packets that waited long enough; the fallback to the oldest is never needed |
| `ReorderRings.NothingReadyIff` | shared/reorder_core.h:634-707 | nothing is chosen exactly when every held packet is younger than its window, none is the successor and there is a cursor |
| `ReorderRings.WindowKept` | shared/reorder_core.h:321-327 | arrivals only widen and decay only narrows the window, always between its bounds; the hold is capped |
| `ReorderRings.ArrivalWidens` | shared/reorder_core.h:418-471 | an arrival behind the cursor leaves a window that covers the time since the last delivery, and one that fills the gap a window that covers the wait of every held packet, both with 5 ms to spare and up to the ceiling; it widens for nothing else and no further |
| `ReorderRings.ReleaseNarrows` | shared/reorder_core.h:473-494 | a release half a second or more after the window last changed takes a quarter of its excess over the floor, to within a millisecond; an earlier one leaves it |
| `ReorderRings.DecayIsGeometric` | shared/reorder_core.h:478-494 | k decay steps leave an excess over the floor of at most (3/4)^k of what it was, floored divisions included |
| `ReorderRings.DecayReachesFloor` | shared/reorder_core.h:478-494 | enough quiet steps bring the window to its floor exactly |
| `ReorderRings.InOrderDestroysNothing` | shared/reorder_core.h:504-525 | the purge behind an in-order release destroys no held packet |
| `ReorderRings.ForcedDestroysExactly` | shared/reorder_core.h:504-525 | a forced release destroys exactly the held packets serially between the cursor and it, all of which arrived later and have not aged out |
| `ReorderRings.ForcedMayDestroy` | shared/reorder_core.h:504-525 | a ring of two, one aged and one not, whose forced release destroys the other |
| `ReorderRings.FirstDestroysNothingIff` | shared/reorder_core.h:640-663 | a first release destroys nothing exactly when the held sequences have a serial minimum |
| `ReorderRings.FirstOverNarrowSpan` | shared/reorder_core.h:640-663 | so never when they lie within half the circle ahead of some origin |
| `ReorderRings.FirstMayDestroy` | shared/reorder_core.h:640-663 | three sequences around the circle of which the first release destroys one |
| `ReorderRuns.StepKeeps` | shared/reorder_core.h:504-629 | every operation keeps the ring invariant |
| `ReorderRuns.CursorNeverMovesBack` | shared/reorder_core.h:533-566 | the cursor moves only with a release, to the released sequence and ahead; one ahead is in order, more is forced |
| `ReorderRuns.RunArrivalCovers` | shared/reorder_core.h:418-471 | over any run of one entry: a late packet leaves a window that covers the time since the last release of the run, and a gap filler one that covers every held wait |
| `ReorderRuns.NarrowingIsSpaced` | shared/reorder_core.h:473-494 | half a second passes between any change of the window and its next narrowing, whatever comes between |
| `ReorderRuns.StartsAtFloor` | shared/reorder_core.h:407-415 | an entry starts at the least window and keeps it until an arrival shows it too short; with adaptation off it has the greatest throughout |
| `ReorderRuns.ReleasesAreChained` | shared/reorder_core.h:733-745 | over any run each release is ahead of the one before |
| `ReorderRuns.OrderedDelivery` | shared/reorder_core.h:245-262 | over any run of one entry the released sequences are the image of a strictly increasing natural sequence, whose gaps number exactly the forced releases |
| `ReorderRuns.ReadyPeerIsServed` | shared/reorder_core.h:714-730 | at a fixed instant a peer with something ready is served within as many releases as there are entries from the rotating cursor to it |
| `ReorderCore.PeerBuf.constructor` | shared/reorder_core.h:371-415 | an empty entry |
| `ReorderCore.PeerBuf.Claim` | shared/reorder_core.h:407-415 | wipes the entry and starts it with the floor or the ceiling window |
| `ReorderCore.PeerBuf.PurgeStale` | shared/reorder_core.h:504-525 | in place, frees exactly the slots the cursor has passed, keeps the fill count exact, and returns how many |
| `ReorderCore.PeerBuf.NoteDelivery` | shared/reorder_core.h:533-566 | advances the cursor if ahead, purges, stamps the entry |
| `ReorderCore.PeerBuf.Insert` | shared/reorder_core.h:582-629 | stale, duplicate, buffered in the first free slot, or in place of the oldest, which is returned |
| `ReorderCore.PeerBuf.AdaptOnArrival` | shared/reorder_core.h:428-471 | widens the window to the wait just measured, never past the ceiling |
| `ReorderCore.PeerBuf.DecayWindow` | shared/reorder_core.h:478-494 | one decay step, at least one millisecond, or the floor |
| `ReorderCore.PeerBuf.PickSlot` | shared/reorder_core.h:634-707 | the scans choose as the model does |
| `ReorderCore.PeerBuf.Take` | shared/reorder_core.h:733-745 | the packet that was in the slot, and the ring after its release; counts exactly the packets it destroys |
| `ReorderCore.ReorderCtx.constructor` | shared/reorder_core.h:329-344 | a table of empty entries with disjoint slot arrays |
| `ReorderCore.ReorderCtx.GetPeer` | shared/reorder_core.h:371-415 | finds, claims a free entry, reclaims the idlest after thirty seconds and counts what it loses, or refuses |
| `ReorderCore.ReorderCtx.DrainSaturated` | shared/reorder_core.h:359-366 | true exactly when a live peer's ring is full |
| `ReorderCore.ReorderCtx.NextReady` | shared/reorder_core.h:714-730 | the first peer with something to release after the rotating cursor, which moves just past it |
| `ReorderCore.ReorderCtx.TakeReady` | shared/reorder_core.h:733-745 | releases what was chosen and touches no other entry |
| `ReorderCore.ReorderCtx.NoteEntry` | shared/reorder_core.h:533-566 | notes a delivery on one entry, with its statistics |
| `HookModel.NeverEvicts` | Linux/proton_dsound_proxy/src/dsound_proxy.cpp:1615-1617 | past the saturation guard an arrival never displaces a held packet |
| `HookModel.CallKeeps` | Linux/proton_dsound_proxy/src/dsound_proxy.cpp:1614-1738 | a whole call keeps the table sound and never takes the eviction branch |
| `HookConservation.CallConserves` | Linux/proton_dsound_proxy/src/dsound_proxy.cpp:1614-1738 | in one call, of every datagram: held before plus drained equals handed over plus held after plus purged plus reclaimed |
| `HookConservation.RunConserves` | Linux/proton_dsound_proxy/src/dsound_proxy.cpp:1614-1738 | the same over any run of calls, bytes and source included; the purge and reclaim counters are exactly what was lost |
| `HookConservation.RunNeverEvicts` | Linux/proton_dsound_proxy/src/dsound_proxy.cpp:1687-1697 | the eviction branch is unreachable in every run |
| `HookConservation.HoldIsBounded` | Linux/proton_dsound_proxy/src/dsound_proxy.cpp:1717-1728 | when a call reports nothing, every held packet is younger than its window, at most the ceiling and the hold cap, and none is its peer's successor |
| `HookConservation.RunHolds` | shared/reorder_core.h:547-558 | in every run the histogram of waits counts exactly the deliveries, and no wait is longer than their sum |
| `HookOrder.CallOrder` | Linux/proton_dsound_proxy/src/dsound_proxy.cpp:1614-1738 | a call's drain leaves a source's cursor or, if it reclaims the entry, takes it; what the call then releases of that source follows the cursor and becomes it, and no other cursor moves |
| `HookOrder.EmptyIsFiled` | shared/reorder_core.h:329-344 | a table that holds nothing satisfies what those results ask of the table at the start |
| `HookOrder.DeliveredInOrder` | Linux/proton_dsound_proxy/src/dsound_proxy.cpp:1614-1738 | in every run of the hook, the buffered packets of one source handed to the game until its entry is reclaimed are in order, read from their own bytes: the image of increasing numbers with a gap for each forced release |
| `HookOrder.UncountedKeeps` | shared/reorder_core.h:391-406 | while the counter of reclaimed entries stands still no source loses its cursor |
| `HookPassing.ArriveIff` | shared/reorder_core.h:582-629 | a sequenced datagram goes straight to the game exactly when its source has no entry and can get none, or when its sequence is at or behind the cursor or already held; any other is in the table afterwards |
| `HookPassing.ReadCounts` | Linux/proton_dsound_proxy/src/dsound_proxy.cpp:1625-1710 | each read moves exactly the counters its kind calls for: stale, duplicate, table full, entry taken over with what it held, short, oversized |
| `HookPassing.PassesExactlyRepeats` | Linux/proton_dsound_proxy/src/dsound_proxy.cpp:1662-1710 | the same at every receive call of every run, against the table as that call finds it |
| `HookPassing.StraightFromKernel` | Linux/proton_dsound_proxy/src/dsound_proxy.cpp:1662-1710 | what a call hands over without having buffered it is what its last receive call brought |
| `HookPassing.CallGoesOn` | Linux/proton_dsound_proxy/src/dsound_proxy.cpp:1614-1711 | a call whose drain no read ended has made all its receive calls, taken all there was, or filled a ring |
| `HookPassing.FreshInOrder` | Linux/proton_dsound_proxy/src/dsound_proxy.cpp:1614-1738 | in every run, all sequenced datagrams of one source the game gets, other than repeats and those there was no entry for, are in order until its entry is reclaimed: the image of increasing numbers with a gap for each forced release |
| `HookWaits.RunSlots` | shared/reorder_core.h:582-629 | in every run what is held came with an earlier read, at the time its slot says, or was held at the start |
| `HookWaits.ForcedWaitsOut` | shared/reorder_core.h:634-707 | in every run a packet released past a gap has waited its source's window since it was read; a release is counted once, as first, in order or forced by where the cursor was, and with that wait |
| `HookWaits.ReadIsHeard` | shared/reorder_core.h:371-383 | a sequenced datagram there is an entry for shows its source active at that read |
| `HookWaits.ReleaseIsHeard` | shared/reorder_core.h:533-566 | a release shows its own source active, and leaves the others as they were |
| `HookWaits.HeardKeepsEntry` | shared/reorder_core.h:388-406 | in every run a source active at some time keeps its entry and cursor through every call whose clock readings lie within thirty seconds of it |
| `ReceiveHook.Accept` | Linux/proton_dsound_proxy/src/dsound_proxy.cpp:1662-1710 | what becomes of one sequenced datagram: buffered, passed through, or refused by a full table |
| `ReceiveHook.Receive` | Linux/proton_dsound_proxy/src/dsound_proxy.cpp:1625-1710 | what one real receive call leads to, its errors, wake datagrams and short datagrams included |
| `ReceiveHook.DrainKernel` | Linux/proton_dsound_proxy/src/dsound_proxy.cpp:1614-1711 | the drain loop stops at saturation, its cap, an empty socket or an outcome, as the model's recursion does |
| `ReceiveHook.Call` | Linux/proton_dsound_proxy/src/dsound_proxy.cpp:1614-1738 | drain, then release at most one packet |
| `ReceiveHook.ScatterCopy` | Linux/proton_dsound_proxy/src/dsound_proxy.cpp:1375-1389 | every buffer there is ends with its stretch of the datagram over what it held before, where several are the same one the later over the earlier; the count is the lesser of datagram and room |
| `ReceiveHook.WrittenOnce` | Linux/proton_dsound_proxy/src/dsound_proxy.cpp:1375-1389 | a buffer passed once has its own stretch and nothing else |
| `PaceModel.FloorDivBounds` | shared/send_pace.h:165-189 | the divisions are floors: at most the quotient, less than one below |
| `PaceTiming.DebtAges` | shared/send_pace.h:165-189 | under floored refills, the time a debt still takes shrinks by at least the time that passed |
| `PaceTiming.RefillExtendsHorizon` | shared/send_pace.h:165-173 | a refill, capped at the burst, never brings the horizon below what was queued for |
| `PaceTiming.AdmitKeeps` | shared/send_pace.h:151-217 | every decision keeps due times sorted and within the horizon; a queued datagram is due within the longest delay; debt is forgiven only with nothing queued |
| `PaceTiming.RunKeeps` | shared/send_pace.h:151-262 | so in every reachable state the queued due times are nondecreasing and bounded by the last refill plus the debt |
| `PaceTiming.TickSendsExactlyDue` | shared/send_pace.h:242-250 | in every reachable state a tick sends exactly the entries that are due, wherever they are in the queue |
| `PaceRuns.WireRefinesOffered` | Linux/proton_dsound_proxy/src/dsound_proxy.cpp:467-535 | for every interleaving of sends and ticks, the wire then the queue, restricted to the datagrams the pacer shapes, is the sequence offered: none lost, repeated or reordered |
| `PaceRuns.EnqueueNeverFails` | shared/send_pace.h:221-239 | a datagram told to queue can always be stored |
| `PaceRuns.SmallGoesAtOnce` | shared/send_pace.h:155-163 | a datagram too short to carry a sequence goes out at admission and costs no tokens |
| `PaceRuns.SequencedOrderIff` | Linux/proton_dsound_proxy/src/dsound_proxy.cpp:483-508 | all sequenced datagrams leave in the order offered exactly when none the pacer refuses is sent while something is queued |
| `PaceRuns.OversizedOvertakes` | Linux/proton_dsound_proxy/src/dsound_proxy.cpp:485-489 | three datagrams of which the last, too large for the pacer, leaves before the second |
| `PaceRuns.DelayIsBounded` | shared/send_pace.h:196-216 | nothing is still queued after a tick that was offered the longest delay ago |
| `PaceRuns.BucketConformance` | shared/send_pace.h:170-216 | over any interval without a forgiving pass the bytes admitted are at most the burst, the rate times the interval, and the rate times the longest delay and one millisecond |
| `PaceSchedule.WaitsOnlyWhenExhausted` | shared/send_pace.h:165-216 | in every run, passes included, a shaped datagram waits only behind others or until some interval's offers have used up its bucket and all the rate earned in it; it is counted queue-full only with a full queue, and over budget only when the longest delay would not cover them either |
| `PaceSchedule.EmptyQueueGoesAtOnce` | shared/send_pace.h:165-185 | so with nothing queued it goes at once unless some interval up to that instant offered more than was supplied |
| `PaceSchedule.IdleGoesAtOnce` | shared/send_pace.h:165-185 | after a pause in which the rate earns the bucket and the longest delay, whatever came before |
| `PaceSchedule.ScheduleConforms` | shared/send_pace.h:165-216 | between any two shaped datagrams with no pass after the first, the bytes after the first up to the second are fewer than the bucket and what the rate earns from when the first may leave to a millisecond after the second may |
| `PaceSchedule.BurstIsTwentieth` | shared/send_pace.h:102-115 | the bucket is a twentieth of a second's traffic, but one whole datagram at least |
| `PaceSchedule.CountersCount` | shared/send_pace.h:151-239 | in every run the counters are the number of small datagrams, of those made to wait, the longest wait given and the longest the queue has been |
| `BurstMeter.StreamingEqualsBatch` | shared/send_pace.h:121-147 | the streaming meter's window start, peaks and burst seconds are those of one-second buckets counted over the whole history, across idle gaps |
| `BurstMeter.TotalsAreTrue` | shared/send_pace.h:140-147 | the totals count every datagram once, across idle gaps |
| `PaceCore.PaceCtx.constructor` | shared/send_pace.h:102-115 | a full bucket of a twentieth of a second, at least one datagram, and an empty queue |
| `PaceCore.PaceCtx.Tick` | shared/send_pace.h:121-138 | closes the window on its one-second grid |
| `PaceCore.PaceCtx.Admit` | shared/send_pace.h:151-217 | observes, then decides and moves the bucket as the model does |
| `PaceCore.PaceCtx.Enqueue` | shared/send_pace.h:221-239 | appends to the circular queue or refuses, and says which |
| `PaceCore.PaceCtx.PopDue` | shared/send_pace.h:242-250 | takes the oldest entry exactly when it is due |
| `PaceCore.PaceCtx.PopAny` | shared/send_pace.h:254-262 | takes the oldest entry |
| `PaceCore.PaceCtx.PurgeSocket` | shared/send_pace.h:266-279 | compacts the ring in place to exactly the entries of other sockets, in order |
| `PaceCore.Sender.Flush` | Linux/proton_dsound_proxy/src/dsound_proxy.cpp:467-477 | empties the queue onto the wire in order |
| `PaceCore.Sender.Take` | Linux/proton_dsound_proxy/src/dsound_proxy.cpp:483-508 | owns the datagram or leaves it to the caller, whose send then completes the step of the model |
| `PaceCore.Sender.WakeUp` | Linux/proton_dsound_proxy/src/dsound_proxy.cpp:512-535 | closes the meter's window and sends the due prefix of the queue |
| `RttSmoothing.RoundingDrift` | shared/net_rtt.h:282-291 | against the exact recurrence of section 2 of RFC 6298 over reals, for every sequence of samples, the estimate is low by less than 7 ms and the variation off by between -7 and 10 ms |
| `RttSmoothing.EstimateWithinSamples` | shared/net_rtt.h:282-291 | the smoothed estimate stays between the least and the greatest sample |
| `RttSmoothing.ReportedLeastIff` | shared/net_rtt.h:274-275 | the reported minimum is the least sample exactly unless the latest sample is positive and an earlier one was 0 |
| `RttSmoothing.ReportedLeastFails` | shared/net_rtt.h:274-275 | samples of 0 and 5 ms are reported with 5 as their least |
| `RttKarn.SampleSoundIff` | shared/net_rtt.h:191-293 | in every run, with no hypothesis: a sample is the time since its sequence's last send, with one send since it was tracked; and since its only send exactly when that was no resend of a forgotten sequence |
| `RttKarn.MatchesDiffer` | shared/net_rtt.h:251-268 | in every run two acks that match a slot use up the sends of two different events, in the order those were tracked: no send is measured twice |
| `RttKarn.RunTrue` | shared/net_rtt.h:191-225 | in every run each slot comes from a send of its sequence and is ambiguous if that was sent again; no sequence is held twice |
| `RttKarn.RecordSummarisesSamples` | shared/net_rtt.h:270-292 | the running estimate and spread are those of the whole list of samples |
| `RttInOrder.WrongSampleCause` | shared/net_rtt.h:40-69 | with first transmissions in serial order within half the circle, a sample that does not time the only send goes back to an event that evicted its own slot, or to the ack of a lower number that retired it and whose slot had itself been tracked anew |
| `RttInOrder.KarnSoundUnlessEvicted` | shared/net_rtt.h:40-69 | so while nothing numbered at or below the acked sequence is evicted, a sample times the one and only reliable send of it so far |
| `RttInOrder.KarnSoundInOrder` | shared/net_rtt.h:40-47 | in particular while nothing at all is |
| `RttInOrder.EvictionBreaksKarn` | shared/net_rtt.h:64-69 | for every capacity, a run in which an evicted and resent sequence yields a sample |
| `RttInOrder.OvertakenBreaksKarn` | shared/net_rtt.h:64-69 | a run with first transmissions in order in which a sequence whose own slot is never evicted is sampled after two sends |
| `RttInOrder.StrayAcksBreakKarn` | shared/net_rtt.h:238-243 | a run in which acks of sequences never sent make a sequence sent twice yield a sample, in order and without eviction |
| `RttComplete.AckedByIsLastAdvance` | shared/net_rtt.h:229-249 | the ack cursor is the last ack of the traffic that went beyond all acks before it |
| `RttComplete.OutcomeIff` | shared/net_rtt.h:229-269 | in every run and for every ack: ignored exactly when it does not go beyond all before it; else unmatched exactly when no send of its sequence is outstanding; else ambiguous if that was sent again, out of range beyond thirty seconds or back in time, and otherwise sampled as the time since |
| `RttComplete.OnlySendIsSampled` | shared/net_rtt.h:251-269 | conversely to soundness: the only send of a sequence, while neither pushed out nor passed by a matching ack, is sampled at the time between exactly when the ack comes within thirty seconds |
| `RttCounts.CountsAddUp` | shared/net_rtt.h:113-123 | in every run of the table, advancing acks are samples plus unmatched plus both kinds of discard; and matched acks, evicted slots and those still held together are no more than the tracked sends |
| `RttCounts.SendingCounts` | shared/net_rtt.h:191-225 | a send counts as tracked when its sequence is not outstanding, evicting when the ring is full, ambiguous when it is outstanding and unmarked |
| `RttCounts.OutcomesAreCounted` | shared/net_rtt.h:229-293 | in every run of the table samples, unmatched acks and both kinds of discard are counted exactly as often as they occur |
| `RttTable.LifeIsRun` | shared/net_rtt.h:142-180 | from claim to end a record in the table goes through the run of its own peer's traffic, whatever the other peers do |
| `RttTable.TableAckIsRunAck` | shared/net_rtt.h:229-293 | an ack in the table has the outcome it has in that run |
| `RttTable.TableOutcomeIff` | shared/net_rtt.h:229-269 | so every ack in the table has exactly the outcome its own peer's traffic in the record's life calls for |
| `RttTable.TableOnlySendIsSampled` | shared/net_rtt.h:251-269 | and the only reliable send of a sequence in a record's life is sampled within thirty seconds while it stays outstanding |
| `RttTable.TableSampleSound` | shared/net_rtt.h:191-293 | so in the table too a sample is the time since the peer was last sent that sequence |
| `RttTable.TableMatchesDiffer` | shared/net_rtt.h:251-268 | nor is any send measured twice in the life of a record in the table |
| `RttTable.TableKarnUnlessEvicted` | shared/net_rtt.h:40-69 | in the table, with the peer's first transmissions in serial order and nothing of its numbered at or below the acked sequence evicted, a sample times the one and only send of it |
| `RttTable.TableKarnSound` | shared/net_rtt.h:40-47 | in the table, while its eviction counter has not moved since the record was claimed and the peer's first transmissions went out in serial order, a sample times the one and only send of its sequence |
| `PeerTable.Oldest` | shared/net_rtt.h:154-160 | the record evicted is the one touched longest ago |
| `PeerTable.RunUnique` | shared/net_rtt.h:142-180 | over any run of a table no peer has two records |
| `PeerTable.GivesUpLeastRecent` | shared/net_rtt.h:154-166 | in every run the record given up is that of the peer whose own last use is the longest ago |
| `PeerTable.LifeIsFold` | shared/net_rtt.h:142-180 | from its claim to its end a record is where its own peer's events take a blank one, whatever happens to the rest of the table |
| `RttCore.RttPeer.OnSend` | shared/net_rtt.h:191-225 | marks a held sequence ambiguous once, else appends it to the circular array, forgetting the oldest when full |
| `RttCore.RttPeer.OnAck` | shared/net_rtt.h:229-293 | ignores what does not advance; retires the acked slot and all before it in place; samples what Karn allows |
| `RttCore.RttPeer.TakeSample` | shared/net_rtt.h:270-292 | both spreads and the smoothed pair |
| `RttCore.RttCtx.GetPeer` | shared/net_rtt.h:142-167 | finds, claims the first free record or evicts the stalest |
| `RttCore.RttCtx.OnSend` | shared/net_rtt.h:191-225 | only reliable datagrams long enough to carry a sequence are recorded |
| `RttCore.RttCtx.OnRecv` | shared/net_rtt.h:229-293 | the sample in ms, or 0 |
| `RttCore.RttCtx.PurgePeer` | shared/net_rtt.h:173-180 | forgets one peer and no other |
| `DampenModel.WindowFor` | shared/send_dampen.h:109-114 | 1.2 times the estimate, rounded down, within 60 and 400 ms, exactly where it meets either bound, as long as twelve times the estimate fits 32 bits; within them for every estimate |
| `DampenModel.Averaged` | shared/send_dampen.h:274-287 | seven eighths of the old estimate and an eighth of the sample, rounded down, so between the two; the sample if there was no estimate |
| `DampenSafety.SuppressedWasJustSent` | shared/send_dampen.h:172-254 | in every run of the table: a suppressed copy repeats one actually sent to the same peer, since that peer was last purged, less than 400 ms before; and less than the window of its record's last send, 1.2 times the estimate at the first doubled for each resend |
| `DampenSafety.FirstCopyGoes` | shared/send_dampen.h:9-13 | a sequence not sent to the peer since its last purge always goes out |
| `DampenSafety.RunBacked` | shared/send_dampen.h:118-159 | in every run each entry remembers an actual send to its peer and no peer has two records |
| `DampenTable.LifeIsRun` | shared/send_dampen.h:118-146 | from claim to end a record in the table goes through the run of its own peer's events |
| `DampenBackoff.ResendsBackOff` | shared/send_dampen.h:226-253 | while a sequence is retained, its log is exactly its actual sends, and the k-th resend comes no earlier than the first send plus the sum of min(400, 60 * 2^i) for i below k |
| `DampenBackoff.TableBacksOff` | shared/send_dampen.h:172-254 | the same of every record alive in the table, over its own peer's traffic, whatever the others do |
| `DampenWindows.HeldBackIff` | shared/send_dampen.h:224-253 | in every run a copy of a retained sequence that does not fire the reset is held back exactly while less time has passed since its last actual send than 1.2 times the estimate at its first, within 60 and 400 ms, doubled for each resend up to 400 |
| `DampenWindows.TableHeldBackIff` | shared/send_dampen.h:172-254 | the same along the life of every record in the table |
| `DampenWindows.AckTimesLastSend` | shared/send_dampen.h:259-293 | in every run an ack of a retained sequence moves the estimate toward the time since its last actual send, and any other leaves the record alone |
| `DampenWindows.AdmitCounts` | shared/send_dampen.h:172-254 | each decision counts a reset for a sequence behind the head, an overflow for a first copy into a full ring, and the bytes it holds back |
| `DampenWindows.SavingsAreTrue` | shared/send_dampen.h:239-245 | in every run the counters are how many datagrams were held back and their bytes in all |
| `DampenBackoff.BackoffGrows` | shared/send_dampen.h:53-54 | those windows are 60, 120, 240, then 400 each |
| `DampenBackoff.CopiesAreFew` | shared/send_dampen.h:226-253 | so after four copies at most one goes out in 400 ms |
| `DampenEpoch.OrderKeptIff` | shared/send_dampen.h:150-159 | a ring in serial order stays so when a copy is retained, a restart or beyond the ring, overflow and wrap included; and only then while there is room |
| `DampenEpoch.ResetExact` | shared/send_dampen.h:190-217 | in a ring in order a copy of a retained sequence never fires the reset, a copy is new exactly when not retained, and a restart leaves only itself |
| `DampenEpoch.RingAscends` | shared/send_dampen.h:150-159 | over every run with first copies in order the ring stays in serial order |
| `DampenRestart.RestartResets` | shared/send_dampen.h:196-217 | a copy that opens a new epoch, behind all of the last, always fires the reset and leaves only itself |
| `DampenRestart.ResetIsRestart` | shared/send_dampen.h:196-217 | with first copies in order within each epoch, the reset fires only on a new epoch or on a repeat of a sequence the ring has lost since it was first sent in this one |
| `DampenRestart.ResetIff` | shared/send_dampen.h:196-217 | until a copy other than its first has fired it within an epoch, the reset fires exactly on a new epoch or on a repeat of a sequence no longer retained |
| `DampenRestart.EvictedRepeatWipes` | shared/send_dampen.h:196-217 | for every capacity, a run with first copies in order and no restart in which the repeat of an evicted sequence fires the reset |
| `DampenRestart.FiresIffBehindStart` | shared/send_dampen.h:190-217 | in any order: until the ring next overflows or is reset, a copy fires the reset exactly when its sequence lies behind the one that started the ring |
| `DampenRestart.ResetCause` | shared/send_dampen.h:196-217 | in every run, for any marking of epochs: a copy that fires the reset opens an epoch, or is a late first copy of one, or repeats a sequence the ring lost in it, or follows an overflow that left a head which is not the least |
| `DampenRestart.LateFirstFires` | shared/send_dampen.h:196-217 | for every capacity of two or more, a late first copy that fires the reset with room to spare, after which a copy of what went out a millisecond before goes out again |
| `DampenEpoch.RetainedSafeIff` | shared/send_dampen.h:201-208 | over every run, in any order: no copy of a retained sequence would at any point fire the reset exactly if at each overflowing copy neither it nor any other sequence lay behind the second oldest, the next head |
| `DampenEpoch.StepHeadLeastIff` | shared/send_dampen.h:150-217 | one event keeps the head the least of the ring exactly when it is no such overflow or leaves the least in front |
| `DampenEpoch.SafeWithoutOverflow` | shared/send_dampen.h:201-208 | so before the first overflow no copy of a retained sequence fires the reset |
| `DampenEpoch.LateFirstWipes` | shared/send_dampen.h:201-208 | for every capacity of two or more, a run in which a copy of a retained sequence sent a millisecond before fires the reset |
| `DampenCore.DampenPeer.AddSlot` | shared/send_dampen.h:150-159 | appends to the circular array, over the oldest when full |
| `DampenCore.DampenPeer.OnCopy` | shared/send_dampen.h:180-253 | resets if the sequence is behind the head, then sends, resends with a doubled window, or suppresses |
| `DampenCore.DampenCtx.GetPeer` | shared/send_dampen.h:118-146 | a peer is never refused |
| `DampenCore.DampenCtx.Admit` | shared/send_dampen.h:172-254 | the decision and every counter; disabled, short and unreliable datagrams always go |
| `DampenCore.DampenCtx.ObserveAck` | shared/send_dampen.h:259-293 | times an exact match against the last actual send |
| `DampenCore.DampenCtx.SetRtt` | shared/send_dampen.h:312-322 | takes over a measured estimate for a known peer only |
| `DampenCore.DampenCtx.PurgePeer` | shared/send_dampen.h:326-333 | forgets one peer; the statistics survive |
| `GovVerdicts.TalliesHold` | shared/gov_trace.h:121-161 | in every reachable state armed is the bumps less the verdicts, and the totals count the events |
| `GovVerdicts.OneVerdictPerBump` | shared/gov_trace.h:307-311 | between two successive bumps there is exactly one verdict |
| `GovVerdicts.VerdictInTime` | shared/gov_trace.h:328-345 | the verdict comes no later than the first poll at or past the deadline |
| `GovVerdicts.ArmedFrom` | shared/gov_trace.h:263-270 | whatever is armed was armed by a bump with no verdict since |
| `GovVerdicts.VerdictIff` | shared/gov_trace.h:299-345 | clamped exactly on a read at or under the floor and further below the target than the governor steps, that follows another since the bump or comes at the deadline; held exactly at the deadline on a read that is not so low |
| `GovHistory.RunStartExact` | shared/gov_trace.h:220-231 | the run of equal observations is the longest one ending there |
| `GovHistory.HistoryRemembered` | shared/gov_trace.h:218-231 | the value, duration and time the machine remembers are those of the previous run of equal observations in the whole poll history |
| `GovHistory.ClassifiedByHistory` | shared/gov_trace.h:237-285 | a sentinel read is reported as a match start or a floor rescue exactly as the whole history classifies it, when every bump has its verdict and the last report of its kind is a window old |
| `GovHistory.EventsAreSpaced` | shared/gov_trace.h:263-285 | any two bumps are a verify window apart and any two rescues a descent window, so their numbers are bounded by the time elapsed |
| `GovHistory.PeakIsGreatest` | shared/gov_trace.h:232-235 | the peak is the greatest rate ever observed |
| `GovHistory.TraceIff` | shared/gov_trace.h:347-351 | a poll with nothing else to report is traced exactly when tracing is on and an interval has passed since the last line |
| `GovHistory.TracesAreSpaced` | shared/gov_trace.h:347-351 | any two trace lines are an interval apart |
| `GovHistory.ReportsWhatWasRead` | shared/gov_trace.h:263-354 | every report carries the rate just read, and a verdict the time since its bump |
| `GovHistory.WindowSpans` | shared/gov_trace.h:287-289 | the window counts every read that is neither a bump nor a rescue and spans exactly those |
| `GovCore.GovTrace.constructor` | shared/gov_trace.h:181-202 | the initial state |
| `GovCore.GovTrace.Step` | shared/gov_trace.h:218-354 | updates every field as the model does and returns its event |
| `GovCore.GovTrace.ReadWindow` | shared/gov_trace.h:358-365 | the spread since the last line, 0 as the low if there was no sample, and a fresh window |
| `IocpModel.PickOldest` | Microslop/winmm_proxy/src/netcode_hooks.cpp:692-701 | of all held completions, one that arrived first |
| `IocpConservation.RoundConserves` | Microslop/winmm_proxy/src/netcode_hooks.cpp:741-872 | a round hands over what the real call returned or something held, never both, or holds what it returned |
| `IocpConservation.RoundKeeps` | Microslop/winmm_proxy/src/netcode_hooks.cpp:741-872 | a round keeps the shared peer table sound, and only successful completions of known sources held |
| `IocpConservation.TimeoutIff` | Microslop/winmm_proxy/src/netcode_hooks.cpp:764-778 | the game is told of a timeout exactly when the real call timed out and nothing is held |
| `IocpConservation.DequeueConserves` | Microslop/winmm_proxy/src/netcode_hooks.cpp:733-875 | one call, of every completion: held before plus obtained equals handed over plus held after; and it makes at most one more real call than there are free slots, the watchdog's included |
| `IocpConservation.RunConserves` | Microslop/winmm_proxy/src/netcode_hooks.cpp:710-875 | over every run each completion obtained is handed to the game exactly once and unchanged, or is held |
| `IocpWatchdog.DoggedStrands` | Microslop/winmm_proxy/src/netcode_hooks.cpp:864-872 | the watchdog fires only at the end of a round past five times the budget, and always with what the last real call but one returned held |
| `IocpWatchdog.DoggedIff` | Microslop/winmm_proxy/src/netcode_hooks.cpp:864-872 | the watchdog fires exactly when, in a reordering call, some round that defers, as all before it did, ends more than five budgets after entry |
| `IocpWatchdog.PollingFires` | Microslop/winmm_proxy/src/netcode_hooks.cpp:737-741 | with a timeout of 0 one deferring round that ends a millisecond after entry fires it |
| `IocpWatchdog.FiresOnYoungHold` | Microslop/winmm_proxy/src/netcode_hooks.cpp:864-872 | a run from an idle hook in which it fires with a packet held for one of its ten milliseconds |
| `IocpWatchdog.WatchdogStrands` | Microslop/winmm_proxy/src/netcode_hooks.cpp:717-722 | after it every call goes straight through and what was held stays held for good |
| `IocpWatchdog.TimeoutHandsOver` | Microslop/winmm_proxy/src/netcode_hooks.cpp:764-774 | before it, a call whose real call times out while something is held hands over something held |
| `IocpWatchdog.CanGoOutIff` | Microslop/winmm_proxy/src/netcode_hooks.cpp:710-875 | what a slot holds can still be handed to the game in some run exactly while the watchdog has not fired |
| `IocpWatchdog.WatchdogCanFire` | Microslop/winmm_proxy/src/netcode_hooks.cpp:864-872 | a run from an idle hook in which it fires, stranding a completion that no later run hands over |
| `IocpConservation.DefersIff` | Microslop/winmm_proxy/src/netcode_hooks.cpp:797-859 | exactly the sequenced receives of a known peer whose sequence is beyond the awaited one are deferred, while there is room |
| `IocpConservation.PickedInOrder` | Microslop/winmm_proxy/src/netcode_hooks.cpp:662-688 | what is released as in order is its peer's awaited packet; `IocpOrder.CallOrder` says what becomes of the cursor |
| `IocpOrder.GivenIsHandedOver` | Microslop/winmm_proxy/src/netcode_hooks.cpp:741-862 | a round hands over a held completion as it was, freeing its slot, or what the real call returned; sequenced unless that timed out, failed or is none of the receives |
| `IocpOrder.CallOrder` | Microslop/winmm_proxy/src/netcode_hooks.cpp:646-657 | a call that hands over a sequenced completion, held or straight from the real call, takes the cursor of its source, if that has an entry, to the later of its sequence and the old cursor; no other cursor moves, short of a reclaim |
| `IocpOrder.FreshInOrder` | Microslop/winmm_proxy/src/netcode_hooks.cpp:710-875 | in every run the sequenced completions of one source handed over ahead of its cursor are in order until its entry is reclaimed: the image of increasing numbers, the last of which is the cursor |
| `IocpOrder.FilledGapGoesNext` | Microslop/winmm_proxy/src/netcode_hooks.cpp:662-688 | once what a held completion waits for has gone out, the next call hands over a held completion one ahead of its source's cursor without a real call |
| `IocpWaits.HandsOverIff` | Microslop/winmm_proxy/src/netcode_hooks.cpp:662-755 | a round hands over something held without a real call exactly when something held is its source's awaited packet or has been held for its source's window, and then one such |
| `IocpWaits.HeldSinceObtained` | Microslop/winmm_proxy/src/netcode_hooks.cpp:848-858 | in every run everything held was returned by an earlier real call, and its wait is counted from then |
| `IocpWaits.RoundCounts` | Microslop/winmm_proxy/src/netcode_hooks.cpp:646-859 | what each round counts: a completed sequenced receive, a deferral, and a delivery as in order or forced by where the cursor then was |
| `IocpWaits.RoundNotes` | Microslop/winmm_proxy/src/netcode_hooks.cpp:646-657 | what a round notes in the shared table: the delivery as first, in order or forced by where the cursor was, after a wait counted from when a held completion was obtained; nothing for a source without an entry or a packet the cursor has passed |
| `IocpWaits.AdaptationIsIdle` | Microslop/winmm_proxy/src/netcode_hooks.cpp:837-840 | the one arrival the hook adapts a window to is beyond the awaited packet, where that does nothing |
| `IocpWaits.WindowsNeverAdapt` | Microslop/winmm_proxy/src/netcode_hooks.cpp:837-840 | so in every run each source keeps the window its entry was claimed with |
| `IocpTiming.NeverBlocksLonger` | Microslop/winmm_proxy/src/netcode_hooks.cpp:733-762 | every real call may wait until the one deadline set on entry, the lesser of the game's timeout and the longest window off, and not at all past it; the watchdog's last call never waits |
| `IocpTiming.AskedWhileYoung` | Microslop/winmm_proxy/src/netcode_hooks.cpp:662-688 | the real call is made only while everything held is younger than the window of its own source, as the scan leaves the table |
| `IocpTiming.HeldAcrossCall` | Microslop/winmm_proxy/src/netcode_hooks.cpp:757-774 | when a real call comes back in time, everything held has been so for less than its window and that call's wait together |
| `IocpTiming.OverdueIff` | Microslop/winmm_proxy/src/netcode_hooks.cpp:757-762 | the wait a round gives its real call can bring something held past its window exactly when the window ends by the deadline |
| `IocpTiming.CallOverdueIff` | Microslop/winmm_proxy/src/netcode_hooks.cpp:733-762 | of everything held across any real call of any reordering call: that real call, keeping to the wait it was given, can come back after its window exactly when that ends by the time of entry plus the budget |
| `IocpTiming.CallInWindow` | Microslop/winmm_proxy/src/netcode_hooks.cpp:733-762 | so a real call that kept to its wait leaves nothing overdue whose window ends later |
| `IocpTiming.OutlivesWindow` | Microslop/winmm_proxy/src/netcode_hooks.cpp:733-774 | a run from an idle hook in which a packet with a window of 10 ms is handed over 150 ms after it came, after two real calls that may each wait until then |
| `IocpRecvs.LandsWherePosted` | Microslop/winmm_proxy/src/netcode_hooks.cpp:582-603 | in every run each tracked receive has one entry, with the place where it was last posted to land, from which its packet is read |
| `IocpModel.DeferTakesRoom` | Microslop/winmm_proxy/src/netcode_hooks.cpp:840-858 | each round that does not return takes a free slot, so the loop ends |
| `IocpCore.IocpHook.TrackRecv` | Microslop/winmm_proxy/src/netcode_hooks.cpp:582-603 | remembers a receive and where it lands: where it already is, else in the first free entry, else not at all |
| `IocpCore.IocpHook.PickReadySlot` | Microslop/winmm_proxy/src/netcode_hooks.cpp:662-688 | the scan's choice, and what its lookups do to the peer table |
| `IocpCore.IocpHook.ReleaseSlot` | Microslop/winmm_proxy/src/netcode_hooks.cpp:646-657 | hands back the completion as it was deferred, frees the slot and notes the delivery |
| `IocpCore.IocpHook.Classify` | Microslop/winmm_proxy/src/netcode_hooks.cpp:780-859 | through or deferred, with the tables updated in place |
| `IocpCore.IocpHook.GetStatus` | Microslop/winmm_proxy/src/netcode_hooks.cpp:710-875 | the loop, which terminates, returns what the model returns after the same real calls with the same waits; not ready or disabled, it passes the call on |
| `CaptureFormat.DecodeEncoded` | buffer-logging/decode_buffer_log.py:64-66 | a little-endian field reads back as the number written, for every width |
| `CaptureFormat.FieldUnpacks` | buffer-logging/decode_buffer_log.py:64-66 | the fourteen fields of the packed 52-byte header come apart at the decoder's offsets |
| `CaptureFormat.RecordReadsBack` | buffer-logging/decode_buffer_log.py:138-160 | a record found in a file carries the magic and decodes to its event, every field intact and the payload cut to the room |
| `CaptureReader.Parse` | buffer-logging/decode_buffer_log.py:138-160 | the loop over the file: records failing the magic check counted, the session filter, the limit |
| `CaptureReader.ParseAny` | buffer-logging/decode_buffer_log.py:138-160 | of any bytes whatever, decoding at a given stride gives the wanted records of exactly the stretches that begin with the magic, in order, and counts the others |
| `CaptureReader.LimitCuts` | buffer-logging/decode_buffer_log.py:138-160 | and a limit cuts those to the first so many |
| `CaptureReader.ParseImage` | buffer-logging/decode_buffer_log.py:138-160 | decoding a written file gives exactly the events it holds that pass the filter, in order, up to the limit, with nothing unreadable |
| `CaptureReader.AllSelected` | buffer-logging/decode_buffer_log.py:138-160 | with neither filter nor limit none is left out |
| `CaptureReader.WrittenStrideAccepted` | buffer-logging/decode_buffer_log.py:120-127 | a complete file passes the test of the stride it was written with |
| `CaptureCore.WriteKeeps` | Linux/proton_dsound_proxy/src/dsound_proxy.cpp:700-732 | overwriting the slot at the head moves every event one back and drops only the one that no longer fits |
| `CaptureCore.CaptureRing.constructor` | Linux/proton_dsound_proxy/src/dsound_proxy.cpp:606-638 | an empty ring in one flat buffer |
| `CaptureCore.CaptureRing.PutHeader` | Linux/proton_dsound_proxy/src/dsound_proxy.cpp:705-719 | the fourteen fields packed in order, nothing else touched |
| `CaptureCore.CaptureRing.PutRecord` | Linux/proton_dsound_proxy/src/dsound_proxy.cpp:705-726 | the slot holds the whole record, the rest of its room zero, and no other byte changes |
| `CaptureCore.CaptureRing.LogEvent` | Linux/proton_dsound_proxy/src/dsound_proxy.cpp:664-734 | an event of a peer that is not filtered out is logged under the next sequence number and the ring still holds the newest records, each in its slot; a payload announced but missing logs the bytes the slot had in its place |
| `CaptureCore.CaptureRing.Accepts` | shared/buffer_filter.h:119-132 | an event passes if no peers were asked for, it has none, or its is among them |
| `CaptureCore.CaptureRing.Flush` | Linux/proton_dsound_proxy/src/dsound_proxy.cpp:736-757 | the file holds the newest records, oldest first |
| `CaptureCore.RoundTrip` | buffer-logging/decode_buffer_log.py:120-160 | after any number of events the flushed file decodes, at the written stride, to exactly the last of them the ring has room for |

## Left out

- Threads and critical sections: each locked region is one atomic step. The clock is a parameter, in
  unbounded milliseconds; the wrap of 64-bit times and counters is not modelled.
- `ReorderCore.PeerBuf.NoteDelivery`: the entry's part of a delivery; the counters and the histogram of waits
  are the table's, counted by `ReorderCore.ReorderCtx.NoteEntry` and `ReorderCore.ReorderCtx.TakeReady`.
- `ReceiveHook.DrainKernel`: `max_drain_depth` and the socket the wake thread targets are not modelled; they
  decide nothing here.
- `ReceiveHook.ScatterCopy`: buffers that overlap in part.
- The peer tables hold the configured number of entries and the rings the configured depth, where the
  source has arrays of the largest size and uses a prefix of them.
- `ReorderRuns.OrderedDelivery`: one entry from its claim to its reclaim; `HookOrder.DeliveredInOrder` and
  `HookPassing.FreshInOrder` carry it to the hook.
- `ReorderRings.ArrivalWidens`: clock readings below 2^32 - 5 ms, past which the source truncates the measured wait.
- `IocpOrder.FreshInOrder`: what is handed over at or behind the cursor, a repeat or something held that a forced
  packet of its source overtook, is not in that order.
- `RttInOrder.KarnSoundUnlessEvicted`: one record's lifetime, with the acks in the same half circle as the sends,
  without which it is false; `RttTable.TableKarnUnlessEvicted` carries it to the table.
- `DampenBackoff.ResendsBackOff`: one record's lifetime; `DampenBackoff.TableBacksOff` carries it to the table.
- `DampenRestart.ResetIsRestart`: one record's lifetime; eviction or purge of the record starts another. What
  fires the reset again in an epoch already disturbed by one is bounded, not characterised.
- `RttModel.Smooth`: sums and samples are unbounded numbers; samples are at most 30 s, so the source's
  32-bit fields do not overflow.
- `PaceModel.Admit`: tokens and products are unbounded integers, where the source has 64 bits.
- `PaceRuns.WireRefinesOffered`: runs without a socket purge, which drops its entries on purpose.
- `DampenModel.Averaged`: the average is exact for estimates and samples whose difference fits 32 signed
  bits, about 24 days; beyond that the source's arithmetic is undefined.
- `DampenCore.DampenCtx.Admit`: the datagram's send itself, which one thread makes before the next decision.
- `GovCore.GovTrace.ReadWindow`: a method of the class only; the theorems are about runs of polls.
- `IocpCore.IocpHook.GetStatus`: one caller at a time. The outside is a script of turns, which gives the
  clock readings, the real calls' results and what they leave in memory; what makes the hook not ready is
  one input, and logging is not modelled.
- `CaptureCore.CaptureRing.LogEvent`: the check that the log is on, the parsing of the list of peers, and the
  numbering of sockets, whose result is an input.
- `CaptureReader.Parse`: the recovery of an unknown stride by scanning for the magic, the meta file's text,
  and the dotted form of addresses.
- The overlapped path's bypass, the duplicate-send queue, the wake thread, socket teardown and resets,
  environment parsing, import patching, formatting, logging and the log analysers.
