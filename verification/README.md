# Verified models of the USB streaming stack

The repository joins libusb 1.0.23, changed for Android, with the RTL-SDR driver that streams through
it. This project models the code that is hard to get right by reading: one bulk transfer over many
kernel requests, the in-flight list and the locks around it, who may handle events and who wakes whom,
what keeps a device alive, when a stream may free its buffers, a parser for untrusted lengths, and the
register and ratio arithmetic of the tuner. `dafny verify dfyconfig.toml` checks all of it.

| file | what it models |
|---|---|
| UrbEngine, UrbKernel, UrbSessions, UrbTransfer | the bulk engine of `linux_usbfs.c`: the steps, the kernel as an environment with theorems over all runs, several submissions with stale URBs, and the code in place |
| IntrusiveList, FlyingSpec, FlyingList | the circular lists of `libusbi.h` on the heap; the in-flight list as a sequence; the code of `io.c` and `core.c` on the ring |
| EventData, EventProtocol | the data under `event_data_lock` with the event pipe and the poll array; the threads of `libusb_handle_events`, `libusb_wait_for_event` and `libusb_close` |
| CancelRace, DeviceRefs | one transfer cancelled by its user and its timeout at once, with disconnect and close; the reference count of a device |
| Streaming, StreamingSafety, StreamingRuns, StreamingStatus | `rtlsdr_read_async`, its callback and teardown against everything that can happen meanwhile, callbacks on other threads included: the machine, when it is safe, what one more stream can do, and what the status says |
| RtlSdrDev | the same code of `librtlsdr.c` in place |
| Descriptors, DescriptorParser | the configuration-descriptor parser with a printer; the same loops in place |
| RegisterBits, TunerCache, TunerPll, Resampler | masked register bytes; the register cache of the R82xx, its synthesiser, and the sample-rate ratio |

Concurrent code is a state machine whose steps are the stretches between two lock operations (or, for
plain shared integers, between two accesses); runs are sequences of steps from an initial state, and
the theorems hold in every state of every run. Code that changes memory is a class whose methods are
proved equal to the functions the theorems are about.

## Assumptions

- Kernel, bulk: URBs come back in submission order while `reap_action` is NORMAL; URBs that carry
  data come back in index order; after a stall or disconnect that left a hole no later URB has data;
  only the last URB overflows; no URB brings more than its length. `StallThenReverseOrderReportsEarly`
  shows what happens without the first, and `PrematureReportIff` says when exactly.
- A section under `event_data_lock` is one step, since every access to that data holds the lock. Poll
  returns on the pipe if there is a byte to read.
- Stale URBs: `op_handle_events` takes the descriptor out of the poll set before
  `usbi_handle_disconnect` and reaps nothing for the handle afterwards, so no URB it leaves behind is
  reaped. UrbSessions does not rely on that: it says exactly what the guards against stale URBs are
  worth. It assumes that a stale URB writes nothing into the user's buffer, and that arrays overlap by
  whole URBs if at all.
- A transfer is submitted by one thread at a time. A handle is not closed while a call that submits on
  it is running, nor from within a callback, and its transfers are not submitted afterwards.
- A submission on a lost handle fails; that is what ends the loop of `usbi_handle_disconnect`.
- An I2C message that is not acknowledged changes no register.
- Allocation fails only where a parameter says so (`SubmitBulkTransfer`, `RebuildPollfds`). Otherwise it
  succeeds.
- Only theorems whose contract says so (`ExpectedRun`, `ByStreamer`) restrict callbacks to the thread in
  `rtlsdr_read_async`.

## Where the code falls short of what it promises

- Every synchronous control transfer handles events while it waits (`sync.c:50`), so setting a frequency
  or a gain from another thread while streaming can run the stream's callbacks there. A stream can then
  free a transfer that such a callback is about to submit again (`ForeignCallbackFreesLinked`), from
  every state it can start in while nobody is in a callback (`MayFreeLinkedIff`); `FreedUnusedIff` and `SafeIffNoCallbackOnFree` say
  exactly which runs are safe.
- A leak in `_rtlsdr_free_async_buffers` is safe for the close that follows, but its comment also says
  the next `rtlsdr_read_async` simply allocates a fresh set. It may return -2 instead, for the leaking
  stream can leave CANCELING behind (`LeakCanStick`). If it does start, it can free a linked transfer
  exactly as long as something is still linked (`MayFreeLinkedIff`, `RunAfterLeakFreesLinked`).
- `rtlsdr_read_async` can return -2 for good (`StuckForGood`), exactly if a stream has written CANCELING
  back, or a cancel or the callback of a leaked transfer has written it while no stream was on
  (`StuckIff`; one run of each: `LeakCanStick`, `LateCancelCanStick`, `LateCallbackCanStick`).
  `NextCancelingIff` says when a stream writes it back, and `StuckOnlyByLeak` what a caller can rely on.
- `rtlsdr_close` waits two seconds and then closes and frees the device in any case. If the status is
  then not INACTIVE, `rtlsdr_read_async` is still using it, unless the device is stuck
  (`OnIffStatusSays`, `WaitForEnd`).
- If the kernel refuses a later URB with EREMOTEIO, the transfer is reported as completed even if the
  URBs before it failed (`ShortRefusalMisreports`). `ReportsAreTruthful` says when such a report is true.
- A disconnect before the last URB turns a cancel or timeout that had succeeded into NO_DEVICE
  (`DisconnectOvertakesTimeout`); `TimeoutVersusCancel` says exactly when.
- A submission whose first URB is refused frees its array without zeroing `usercontext`
  (`RefusedIsHandled`, `StaleHandledIff`). As things are no stale URB is reaped, so nothing comes of it.
- A configuration whose interface is followed by a truncated class-specific descriptor is accepted with
  `bNumEndpoints` as declared and no endpoint array (`EndpointsMissingIff`, `EndpointsMissingExample`).
- After a failed register write the cache holds values the chip does not, and the retry is elided with
  success (`FailedWriteAgreesIff`, `RetryIsHeldBack`). `r82xx_init` does not look at the outcome either.
- A transfer that `do_close` unlinks keeps its device reference for good (`OrphanPinsTheDevice`).
- Dividing by 2 with a fine tune above the reference wraps the divider field to 7 (`DivFieldIff`).
- With a backend that queues completed transfers the event pipe can keep a stale byte
  (`CompletionsLeaveAByte`). The Linux backend queues none.

## Model

| member | source | states |
|---|---|---|
| `UrbEngine.LayoutTiles` | libusb-andro/libusb/os/linux_usbfs.c:2034-2088 | the URBs of a bulk transfer tile its buffer in order without gap or overlap; SHORT_NOT_OK, continuation and zero-packet flags sit on exactly the URBs they belong to |
| `UrbEngine.LayoutSizes` | libusb-andro/libusb/os/linux_usbfs.c:2012-2042 | one URB for the whole transfer where the kernel takes any size, otherwise 16 KiB in each but the last; continuation only where supported and not replaced by scatter-gather |
| `UrbEngine.DiscardSucceedsIff` | libusb-andro/libusb/os/linux_usbfs.c:1924-1959 | a cancel is accepted exactly if no discard fails and the last URB was still with the kernel |
| `UrbEngine.DiscardResultIs` | libusb-andro/libusb/os/linux_usbfs.c:1924-1959 | which error a cancel returns: that of the first URB whose discard failed; without one, NOT_FOUND exactly if the last URB was no longer with the kernel |
| `UrbEngine.RefusedReportsNothing` | libusb-andro/libusb/os/linux_usbfs.c:2095-2107 | a submission whose first URB is refused never leads to a report; late URBs are dropped |
| `UrbEngine.PrematureReportIff` | libusb-andro/libusb/os/linux_usbfs.c:2442-2585 | exactly which reaps report a completion while URBs are outstanding: out of order while NORMAL, or an overflow before the last URB |
| `UrbEngine.MoveFacts` | libusb-andro/libusb/os/linux_usbfs.c:2476-2486 | closing a hole appends exactly the moved bytes to the data received so far and leaves what lies above untouched |
| `UrbEngine.StallThenReverseOrderReportsEarly` | libusb-andro/libusb/os/linux_usbfs.c:2506-2567 | why the submission-order assumption is needed: after a stall, discards returned last URB first end in a report with a URB still in the kernel; in submission order they do not |
| `UrbKernel.ReapStaysInside` | libusb-andro/libusb/os/linux_usbfs.c:2476-2486 | no reap the kernel may make touches memory outside the user's buffer |
| `UrbKernel.ReapKeepsLanded` | libusb-andro/libusb/os/linux_usbfs.c:2476-2486 | the move that closes a hole overwrites no data that is still to be reaped |
| `UrbKernel.ReapKeepsReceived` | libusb-andro/libusb/os/linux_usbfs.c:2476-2498 | after any reap the front of the buffer is the data of all URBs reaped so far, in index order |
| `UrbKernel.BulkDataConserved` | libusb-andro/libusb/os/linux_usbfs.c:2476-2498 | in every run what is reported is the concatenation, in order and without holes, of the data of all URBs reaped before, `transferred` is its length, and it is at most the requested length |
| `UrbKernel.ExactlyOneCompletion` | libusb-andro/libusb/os/linux_usbfs.c:2488-2585 | in every run `num_retired` counts unsubmitted and reaped URBs, there is never a second completion, none before all submitted URBs are back (unless the disconnect path took over), and always one once they are |
| `UrbKernel.PartialSubmitNeverCompletes` | libusb-andro/libusb/os/linux_usbfs.c:2107-2139 | a transfer of which only some URBs were accepted is never reported COMPLETED, if the kernel refused the next one with anything but EREMOTEIO |
| `UrbKernel.ShortRefusalAlwaysCompletes` | libusb-andro/libusb/os/linux_usbfs.c:2115-2133 | if it refused it with EREMOTEIO, every report that no cancel and no disconnect caused says COMPLETED, whatever the URBs came back with |
| `UrbKernel.ShortRefusalMisreports` | libusb-andro/libusb/os/linux_usbfs.c:2115-2133 | so each such transfer whose one submitted URB fails without data has a run that reports COMPLETED with no bytes |
| `UrbKernel.ReportsAreTruthful` | libusb-andro/libusb/os/linux_usbfs.c:2500-2585 | for every COMPLETED in every run: a reaped URB ended the transfer after full, error-free ones if and only if all URBs had been submitted or the data ended inside those that were; a cancellation is reported exactly when a cancel has set `reap_action` to CANCELLED and the disconnect did not come first |
| `UrbKernel.CancelledIff` | libusb-andro/libusb/os/linux_usbfs.c:2357-2382 | in every run the action is CANCELLED if and only if a cancel has been accepted: a transfer in flight, its last URB given back, no discard failed, and not a bulk transfer that had failed |
| `UrbKernel.ReportIsExact` | libusb-andro/libusb/os/linux_usbfs.c:2442-2585 | every report a reap makes, in every run, to the letter: a cancellation if and only if a cancel was accepted; otherwise, with all URBs submitted, what the first URB says that is not full and error-free: COMPLETED (also if there is none), NO_DEVICE, STALL unless a device that is gone follows it, OVERFLOW or ERROR; with one refused, COMPLETED after EREMOTEIO and ERROR after anything else |
| `UrbKernel.EveryEnabledStepHappens` | libusb-andro/libusb/os/linux_usbfs.c:2420-2585 | in reachable states the model blocks no step the kernel or the user may take |
| `UrbSessions.StaleHandledIff` | libusb-andro/libusb/os/linux_usbfs.c:2767-2796 | over any number of submissions of one transfer: the first stale URB that gets past both guards does so exactly if the transfer is in flight again and the URB lies in a slot this submission got to (accepted URBs and the refused one), or in one whose first-URB refusal ended a submission |
| `UrbSessions.FreshIsDiscarded` | libusb-andro/libusb/os/linux_usbfs.c:2787-2796 | if no submission gets to a slot where the kernel still holds a URB, every stale URB is discarded |
| `UrbSessions.EverySubmissionKept` | libusb-andro/libusb/os/linux_usbfs.c:2571-2577 | then data conservation and all invariants of a single submission hold for each, and there is one report for each submission |
| `UrbSessions.UnzeroedIsHandled` | libusb-andro/libusb/os/linux_usbfs.c:2395-2406 | without the zeroing of usercontext a disconnect and a new submission in another array suffice for a stale URB to be taken for one of the new ones |
| `UrbSessions.ReusedIsHandled` | libusb-andro/libusb/os/linux_usbfs.c:2395-2406 | with it, a disconnect and a new submission in the same memory do |
| `UrbSessions.RefusedIsHandled` | libusb-andro/libusb/os/linux_usbfs.c:2102-2107 | with it, and the new array elsewhere, a submission in between in the old memory that ends with its first URB does, because that path frees the array without zeroing |
| `UrbTransfer.BulkTransfer.SubmitBulkTransfer` | libusb-andro/libusb/os/linux_usbfs.c:1974-2143 | in place: URB array, counters, action and result for every capability, length and kernel answer, equal to the specification |
| `UrbTransfer.BulkTransfer.SubmitUrbs` | libusb-andro/libusb/os/linux_usbfs.c:2046-2140 | the submission loop stops at the first URB the kernel refuses and has filled in the ones up to it |
| `UrbTransfer.BulkTransfer.DiscardUrbs` | libusb-andro/libusb/os/linux_usbfs.c:1924-1959 | the backwards discard loop computes the specified result |
| `UrbTransfer.BulkTransfer.OpCancelTransfer` | libusb-andro/libusb/os/linux_usbfs.c:2357-2382 | in place: a cancel succeeds exactly if the transfer is in flight, its last URB is given back and no discard failed; then, and only then, the action becomes CANCELLED, but for the kept ERROR of bulk transfers |
| `UrbTransfer.BulkTransfer.OpClearTransferPriv` | libusb-andro/libusb/os/linux_usbfs.c:2384-2418 | the disconnect path drops the URBs and zeroes the usercontext of each, and changes nothing else |
| `UrbTransfer.BulkTransfer.HandleBulkCompletion` | libusb-andro/libusb/os/linux_usbfs.c:2420-2585 | in place: one reap of one URB equals the specified step, report included; from which URB on the rest is discarded; every usercontext is zero once there is a report, and none is touched before; a late URB of a dropped transfer changes nothing |
| `IntrusiveList.ListInit` | libusb-andro/libusb/libusbi.h:137-140 | a node alone is a ring |
| `IntrusiveList.ListAdd` | libusb-andro/libusb/libusbi.h:142-149 | puts the entry directly behind a node of any ring, linked to it and to the old next one; the result is that ring with next and prev still inverse; only the nodes named are written |
| `IntrusiveList.ListAddTail` | libusb-andro/libusb/libusbi.h:151-159 | puts the entry directly before a node of any ring |
| `IntrusiveList.ListDel` | libusb-andro/libusb/libusbi.h:161-166 | takes one entry out of any ring and clears its links |
| `IntrusiveList.ListCut` | libusb-andro/libusb/libusbi.h:168-179 | moves all entries in order to another head and leaves an empty ring |
| `IntrusiveList.MoveToTail` | libusb-andro/libusb/io.c:2743-2744 | moving an entry from one list to the end of another keeps both rings: an operation on one leaves a disjoint one alone |
| `FlyingSpec.AbsoluteTimeoutMeaning` | libusb-andro/libusb/io.c:1214-1243 | the stored timeout is clock plus request, normalised, rounded down to microseconds, and set exactly if one was asked for |
| `FlyingSpec.InsertKeepsSorted` | libusb-andro/libusb/io.c:1385-1450 | insertion adds exactly the transfer and keeps the list sorted by timeout, infinite ones last, ties in submission order |
| `FlyingSpec.DueMeans` | libusb-andro/libusb/io.c:2021-2061 | a transfer is timed out by a scan exactly if it has a timeout, in microseconds at or before the clock, that neither a scan nor the kernel has dealt with |
| `FlyingSpec.CancelMeans` | libusb-andro/libusb/io.c:1578-1609 | a cancel fails on a transfer not in flight or cancelled before; any other is marked and the answer of the backend passed on |
| `FlyingSpec.TimeoutMarksSuccessOnly` | libusb-andro/libusb/io.c:2006-2019 | an expired transfer is marked handled in any case and timed out only if this cancel succeeded; afterwards no cancel can succeed |
| `FlyingSpec.EarlyScanIsFullScan` | libusb-andro/libusb/io.c:2021-2061 | on a sorted list the scan that stops early does exactly what looking at every transfer would do |
| `FlyingSpec.EarlyScanIsIdempotent` | libusb-andro/libusb/io.c:2006-2061 | no transfer is timed out twice: a second scan at the same time changes nothing |
| `FlyingSpec.FirstPendingIsLeast` | libusb-andro/libusb/io.c:2596-2651 | the first transfer with an unhandled timeout has the least timeout of all that wait, and none is found exactly if none waits |
| `FlyingSpec.NextTimeoutIsMinimum` | libusb-andro/libusb/io.c:2596-2651 | the remaining time answered is the minimum over all waiting transfers, clamped at zero |
| `FlyingSpec.DrainStep` | libusb-andro/libusb/io.c:2818-2866 | completing the first in-flight transfer of a handle is one step of the drain, and the measure goes down by one |
| `FlyingSpec.WithoutHandleAt` | libusb-andro/libusb/core.c:1428-1464 | a close keeps exactly the transfers of other handles, each in its place |
| `FlyingSpec.DrainedAt` | libusb-andro/libusb/io.c:2839-2864 | a drain completes exactly the transfers of the handle that are in flight and keeps exactly the others, each in its place |
| `FlyingSpec.DrainUnderInterference` | libusb-andro/libusb/io.c:2839-2864 | however the disconnect and other threads take turns at the list (linking, accepted or refused submissions, cancels, timeouts), every transfer of the handle in flight at the start or accepted since is completed once or still waits, and in list order if none was accepted since |
| `FlyingSpec.DrainSparesOthers` | libusb-andro/libusb/io.c:2839-2864 | a turn of the loop leaves every transfer of another handle where it is, and changes nothing exactly if none of the handle is in flight |
| `FlyingSpec.RunStaysSorted` | libusb-andro/libusb/io.c:1385-1471 | over every sequence of submissions, completions, scans, cancels, closes and disconnects the list stays sorted |
| `FlyingSpec.ScanIsExactOverRuns` | libusb-andro/libusb/io.c:2021-2061 | after any such run the early-exit scan handles exactly the expired unhandled transfers, and the first waiting one is the least |
| `FlyingList.FlyingTransfers.CalculateTimeout` | libusb-andro/libusb/io.c:1214-1243 | the carry loop computes the absolute timeout; without a clock it fails if and only if a timeout was asked for |
| `FlyingList.FlyingTransfers.FindPlace` | libusb-andro/libusb/io.c:1410-1426 | the search loop over the ring finds the specified place |
| `FlyingList.FlyingTransfers.AddToFlyingList` | libusb-andro/libusb/io.c:1385-1450 | in place on the heap ring: the new list is the sorted insertion, or nothing changed if the clock failed |
| `FlyingList.FlyingTransfers.RemoveFromFlyingList` | libusb-andro/libusb/io.c:1456-1471 | takes exactly the given transfer out and keeps the others in order |
| `FlyingList.FlyingTransfers.HandleTimeoutsLocked` | libusb-andro/libusb/io.c:2021-2061 | the walk over the ring equals the early-exit scan; if the clock cannot be read it fails without change, unless the list is empty |
| `FlyingList.FlyingTransfers.FindNextTimeout` | libusb-andro/libusb/io.c:2603-2630 | the walk finds the first transfer that is not skipped |
| `FlyingList.FlyingTransfers.GetNextTimeout` | libusb-andro/libusb/io.c:2596-2651 | on a sorted list the answer is the least remaining time of the waiting transfers, or none if none waits or the clock cannot be read |
| `FlyingList.FlyingTransfers.DoCloseUnlink` | libusb-andro/libusb/core.c:1428-1464 | deleting while iterating unlinks exactly the transfers of the handle, clears their handle, and keeps the rest in order |
| `FlyingList.FlyingTransfers.HandleDisconnect` | libusb-andro/libusb/io.c:2818-2866 | in place, undisturbed: the loop terminates; each in-flight transfer of the handle gets one NO_DEVICE completion, in list order; other handles' transfers are untouched |
| `EventData.SignalKeeps` | libusb-andro/libusb/io.c:1910-1924 | "signal if nothing was pending" keeps pending events visible on the pipe, and keeps exactly one byte if there was the exact number |
| `EventData.ClearKeeps` | libusb-andro/libusb/io.c:2246-2248 | "clear if nothing is pending any more" keeps both |
| `EventData.SectionsSet` | libusb-andro/libusb/hotplug.c:210-232 | the sections for hotplug messages, deregistration and completed transfers set their event and write a byte exactly if nothing was pending |
| `EventData.CompletionsLeaveAByte` | libusb-andro/libusb/io.c:2235-2248 | why the exact byte count needs a backend without completed transfers: two of them leave a byte behind |
| `EventData.Context.constructor` | libusb-andro/libusb/io.c:1135-1148 | after initialisation the pipe is the only descriptor and the invariants hold |
| `EventData.Context.AddFd` | libusb-andro/libusb/io.c:2703-2721 | appends the descriptor, flags the change, signals only if nothing was pending; keeps both invariants |
| `EventData.Context.RemoveFd` | libusb-andro/libusb/io.c:2724-2751 | moves the first entry with the descriptor to the removed ones, or changes nothing |
| `EventData.Context.InterruptEventHandler` | libusb-andro/libusb/io.c:1910-1924 | sets the flag, signals only if nothing was pending |
| `EventData.Context.BeginClose` | libusb-andro/libusb/core.c:1508-1517 | counts the closer, signals only if nothing was pending |
| `EventData.Context.EndClose` | libusb-andro/libusb/core.c:1526-1533 | uncounts it, clears the pipe only if nothing is pending |
| `EventData.Context.RebuildPollfds` | libusb-andro/libusb/io.c:2135-2172 | frees the removed entries; the copied array equals the list in order and length with the pipe in entry 0; without memory the flag stays set |
| `EventData.Context.DispatchPipe` | libusb-andro/libusb/io.c:2207-2250 | acknowledges interrupt, deregistration and messages, then takes a completed transfer if there is one, and otherwise reads the pipe exactly if no close and no change of descriptors is pending |
| `EventData.Context.AfterCompletion` | libusb-andro/libusb/io.c:2236-2248 | with the lock taken again: the next completed transfer, or, at the end or after an error, the pipe read only if nothing is pending |
| `EventProtocol.NoLostWakeup` | libusb-andro/libusb/io.c:1987-2004 | in every run a thread blocked in libusb_wait_for_event is owed a broadcast by another thread |
| `EventProtocol.DebtLastsUntilBroadcast` | libusb-andro/libusb/io.c:1819-1831 | the debt ends only by that thread's broadcast, after which nobody is blocked |
| `EventProtocol.DebtorProgresses` | libusb-andro/libusb/io.c:2376-2422 | every step of a debtor's own brings its broadcast nearer, completed transfers aside |
| `EventProtocol.NoDeadlock` | libusb-andro/libusb/io.c:1762-1831 | in every run a thread that wants no held lock can step, and the holder of any wanted lock can |
| `EventProtocol.SingleHandler` | libusb-andro/libusb/core.c:1503-1523 | no two threads handle events or close a device at once |
| `EventProtocol.HandlersYield` | libusb-andro/libusb/io.c:1762-1797 | in every run: while a thread is counted as closing, no thread that is not already about to try events_lock comes to try it |
| `EventProtocol.OvertakesOnce` | libusb-andro/libusb/core.c:1503-1523 | so each thread gets events_lock in front of the one that closes once at most |
| `EventProtocol.PipeAgreesWithEvents` | libusb-andro/libusb/libusbi.h:415-417 | in every run pending events mean an unread byte; without completed transfers exactly one byte if events are pending and none otherwise |
| `EventProtocol.ClearNeverBlocks` | libusb-andro/libusb/core.c:1219-1232 | wherever the pipe is about to be read there is a byte, so the read never blocks under event_data_lock |
| `EventProtocol.ArrayIsList` | libusb-andro/libusb/io.c:2135-2173 | with no change pending the cached poll array is the descriptor list in order, led by the pipe, with the counted length |
| `EventProtocol.PollSleepsOnlyWhenFree` | libusb-andro/libusb/io.c:2143-2183 | a handler sleeps in poll only on an up-to-date array and only while no thread waits to close a device |
| `CancelRace.TimeoutVersusCancel` | libusb-andro/libusb/io.c:1704-1721 | in every run a callback reports TIMED_OUT exactly if the timeout's cancel had succeeded, CANCELLED exactly if the user's had, if no URB of a bulk transfer had failed first and no disconnect came before the last URB; NO_DEVICE by the disconnect exactly in that last case. An interrupt transfer forgets a failure when a cancel succeeds |
| `CancelRace.OneCallbackEach` | libusb-andro/libusb/io.c:1656-1696 | one callback for each accepted submission, by its last URB or by the disconnect |
| `CancelRace.OrphanIsNeverCalledBack` | libusb-andro/libusb/core.c:1428-1464 | once the handle is closed nothing calls back: a transfer in flight then stays so for good |
| `CancelRace.CancelMeans` | libusb-andro/libusb/io.c:1578-1609 | a cancel succeeds exactly if the transfer is in flight, not cancelled before, and its URBs are discarded; then it is marked, unless a bulk transfer had failed; one that reaches the backend is never tried again |
| `CancelRace.WinnerIsFinal` | libusb-andro/libusb/io.c:1578-1609 | the first cancel that succeeds decides until the next submission |
| `CancelRace.NoDeadlock` | libusb-andro/libusb/io.c:2839-2864 | events_lock, flying_transfers_lock and the transfer's lock are taken in one order in submission, cancel, timeout, completion, disconnect and close, so the holder of the last one held can always go on |
| `CancelRace.ReadingUnlockedWouldMisreport` | libusb-andro/libusb/io.c:1704-1710 | a run in which TIMED_OUT, read without flying_transfers_lock, would be missed |
| `CancelRace.DisconnectOvertakesTimeout` | libusb-andro/libusb/io.c:2850-2863 | a run in which the timeout's cancel had succeeded and no URB failed, and the disconnect reports NO_DEVICE |
| `DeviceRefs.ReferencesConserved` | libusb-andro/libusb/io.c:1550-1559 | in every run the count is handles, in-flight transfers (also those a close unlinked), callbacks under way and outside references |
| `DeviceRefs.DestroyedWithTheLast` | libusb-andro/libusb/core.c:1167-1194 | a device is destroyed exactly when nothing of that is left |
| `DeviceRefs.NeverDestroyedWhileNamed` | libusb-andro/libusb/core.c:1422-1475 | while a transfer names a handle the handle is open and the device alive |
| `DeviceRefs.OrphanPinsTheDevice` | libusb-andro/libusb/core.c:1428-1464 | a transfer unlinked by a close keeps its reference: the device is never destroyed after it |
| `DeviceRefs.CloseUnlinksAll` | libusb-andro/libusb/core.c:1428-1464 | a close leaves no transfer naming the handle, touches no other, and gives no transfer's reference back; there is an orphan afterwards exactly if there was one or a transfer named the handle |
| `DeviceRefs.Device.Unref` | libusb-andro/libusb/core.c:1167-1194 | in place: with one holder for each reference not yet given back, the device is destroyed by this call exactly if its caller is the last |
| `Streaming.RunCounts` | rtl-sdr/src/librtlsdr.c:1752-1784 | in every run, whoever handles events, whatever was leaked before and whatever updates are lost, the count is the number of linked transfers up to how far it is off and the updates under way |
| `StreamingSafety.FreedUnusedIff` | rtl-sdr/src/librtlsdr.c:1893-1942 | for every run, with callbacks on any thread, whose streams start with nothing in flight: no freed transfer is ever linked or in a callback if and only if each time something is freed nobody is in a callback and the count is right |
| `StreamingSafety.CountIsExact` | rtl-sdr/src/librtlsdr.c:1752-1784 | the count is right as long as no callback updates it while the submission loop does |
| `StreamingSafety.SafeIffNoCallbackOnFree` | rtl-sdr/src/librtlsdr.c:1893-1942 | without that overlap the streams are safe if and only if nothing is freed while a callback is under way |
| `StreamingSafety.NeverFreesLinked` | rtl-sdr/src/librtlsdr.c:1901-1942 | in every run whose frees are like that, no freed transfer is linked and no callback runs for one, so the walk of a later close meets live transfers only |
| `StreamingSafety.NeverUsesFreed` | rtl-sdr/src/librtlsdr.c:1986-2087 | nor is a freed transfer submitted, cancelled (in the event loop or in the drain) or completed |
| `StreamingSafety.FreesAllOrLeaksAll` | rtl-sdr/src/librtlsdr.c:2074-2103 | at the end of any stream everything is freed or nothing, and with nobody in a callback and a right count it is freed exactly if nothing is linked |
| `StreamingSafety.FreesOnce` | rtl-sdr/src/librtlsdr.c:1901-1942 | in every run, whoever handles events: what is freed are the transfers of the stream that ends, all different, and none of them had been freed before |
| `StreamingSafety.ExpectedIsQuiet` | rtl-sdr/src/librtlsdr.c:2074-2103 | if callbacks run on the streaming thread and streams start with nothing in flight, every free is like that |
| `StreamingSafety.RunOverSaysSo` | rtl-sdr/src/librtlsdr.c:2095-2101 | then a stream that leaves nothing linked ends with INACTIVE |
| `StreamingSafety.WindDownOnlyShrinks` | rtl-sdr/src/librtlsdr.c:1771-1783 | once the stream winds down nothing is put back on the flying list until the next start |
| `StreamingSafety.FatalEndDrains` | rtl-sdr/src/librtlsdr.c:1775-1799 | after an unplug, a failed new submission or too many errors in a row, whoever handles events, the flying list only drains until the next start, once the submission loop is over |
| `StreamingSafety.FatalEndDrainsAlways` | rtl-sdr/src/librtlsdr.c:1775-1799 | with callbacks on the streaming thread only, it does without that condition |
| `StreamingRuns.MayFreeLinkedIff` | rtl-sdr/src/librtlsdr.c:1893-1909 | for every reachable state in which a stream may start and nobody is in a callback: one more stream can free a transfer that is linked in the end if and only if something is linked now or callbacks may run on another thread |
| `StreamingRuns.ForeignCallbackFreesLinked` | rtl-sdr/src/librtlsdr.c:1763-1784 | the first stream on a fresh device, a callback on another thread and a cancel: transfer 0 is freed and then submitted |
| `StreamingRuns.RunAfterLeakFreesLinked` | rtl-sdr/src/librtlsdr.c:1893-1909 | with callbacks on the streaming thread only: a stream leaks transfer 0, and the next frees transfer 1 while it is linked |
| `StreamingStatus.StuckIff` | rtl-sdr/src/librtlsdr.c:2095-2118 | in every run, whoever handles events: no stream is on and none can begin if and only if a stream has written CANCELING back, or, with none on, a cancel has been written or a callback has given the device up |
| `StreamingStatus.NextCancelingIff` | rtl-sdr/src/librtlsdr.c:2025-2101 | in every run: a stream writes CANCELING back if and only if a cancel was accepted in its last round of cancels and the count was not zero when it looked |
| `StreamingStatus.StuckForGood` | rtl-sdr/src/librtlsdr.c:1960-1963 | from then on no stream ever begins |
| `StreamingStatus.StuckOnlyByLeak` | rtl-sdr/src/librtlsdr.c:2086-2103 | with callbacks on the streaming thread, streams that start with nothing in flight and no cancel written after the end: stuck only by a stream that ended with something linked, which still is unless a close has taken it off |
| `StreamingStatus.LostIsNoticed` | rtl-sdr/src/librtlsdr.c:2021-2025 | in every run: where the event loop decides whether to cancel, a lost device is never still RUNNING |
| `StreamingStatus.OnIffStatusSays` | rtl-sdr/src/librtlsdr.c:1694-1735 | in every run a stream is on if and only if the status is not INACTIVE and the device is not stuck; so it is exactly then, if rtlsdr_close gives up waiting, that it frees the device under a running stream |
| `StreamingStatus.LeakCanStick` | rtl-sdr/src/librtlsdr.c:2025-2101 | from every state in which a stream may start: one that leaks its transfer and writes CANCELING back, with no cancel left on its way |
| `StreamingStatus.LateCallbackCanStick` | rtl-sdr/src/librtlsdr.c:1784-1793 | from every state with no stream on and a leaked transfer linked: its callback on another thread writes CANCELING |
| `StreamingStatus.LateCancelCanStick` | rtl-sdr/src/librtlsdr.c:2106-2118 | from every state in which a stream may start: one that ends well and frees what it used, after which a cancel is written late |
| `RtlSdrDevice.CallbackIsItsSteps` | rtl-sdr/src/librtlsdr.c:1752-1800 | the interleaved steps of a callback add up to the callback run in one go |
| `RtlSdrDevice.CancelIsItsSteps` | rtl-sdr/src/librtlsdr.c:2106-2125 | the reading and the writing step of a cancel add up to rtlsdr_cancel_async |
| `RtlSdrDevice.RtlSdrDev.WaitForEnd` | rtl-sdr/src/librtlsdr.c:1694-1704 | in place: the wait of rtlsdr_close succeeds if and only if one of its 2001 looks finds INACTIVE |
| `RtlSdrDevice.RtlSdrDev.Callback` | rtl-sdr/src/librtlsdr.c:1752-1800 | in place: the error count, the flags and the status after a callback, and exactly when the device is given up; the count drops by one unless the transfer was submitted again |
| `RtlSdrDevice.RtlSdrDev.FreeAsyncBuffers` | rtl-sdr/src/librtlsdr.c:1885-1942 | in place: frees every transfer, and every buffer there is, once and in order if the count is zero, otherwise none and returns -2; both pointers are dropped in both cases |
| `RtlSdrDevice.PresentKeepsEach` | rtl-sdr/src/librtlsdr.c:1921-1938 | the buffers freed are those that could be allocated, each once and in order |
| `Descriptors.RoundTrip` | libusb-andro/libusb/descriptor.c:371-487 | parsing the printed form of any well-formed configuration tree gives the tree back with no bytes left |
| `Descriptors.ParsesEndpoint` | libusb-andro/libusb/descriptor.c:100-188 | the same for one endpoint in front of anything the loops stop at |
| `Descriptors.ParsesInterface` | libusb-andro/libusb/descriptor.c:213-357 | the same for all settings of one interface |
| `Descriptors.KnownTypes` | libusb-andro/libusb/descriptor.c:139-161 | the types the skipping loops stop at are 1, 2, 4 and 5, device, configuration, interface and endpoint of Table 9-5 of the USB 2.0 specification |
| `Descriptors.FieldOffsets` | libusb-andro/libusb/descriptor.c:100-134 | which byte of each descriptor holds which field, by Tables 9-10, 9-12 and 9-13 of that specification |
| `Descriptors.HeaderChecks` | libusb-andro/libusb/descriptor.c:100-262 | which headers the three parsers refuse, and with which result |
| `Descriptors.OrdinaryExample` | libusb-andro/libusb/descriptor.c:371-487 | an ordinary configuration in literal bytes, with a class-specific descriptor and two endpoints, and the tree it is parsed to |
| `Descriptors.NothingLost` | libusb-andro/libusb/descriptor.c:371-487 | for every accepted input, unless the bytes left begin with a descriptor that is cut off, the bytes taken are exactly the descriptors of the tree one after the other |
| `Descriptors.BytesConserved` | libusb-andro/libusb/descriptor.c:371-487 | for every accepted input the bytes left are the end of the input |
| `Descriptors.InterfacesKept` | libusb-andro/libusb/descriptor.c:453-467 | no second run of class-specific descriptors is ever dropped in front of a later interface |
| `Descriptors.EndpointsMissingIff` | libusb-andro/libusb/descriptor.c:264-341 | a setting promises more endpoints than it stores exactly if a class-specific descriptor before them is cut off; then the declared number (at most 32) stays with no array |
| `Descriptors.EndpointsMissingInConfiguration` | libusb-andro/libusb/descriptor.c:371-487 | for every accepted configuration: every stored setting promises as many endpoints as it stores, except the last one, which does not exactly if it declares endpoints and a descriptor before the first of them is cut off; then it stores none and the bytes left begin with that descriptor |
| `Descriptors.EndpointsMissingExample` | libusb-andro/libusb/descriptor.c:288-293 | an accepted 20-byte configuration for which that happens |
| `Descriptors.ParseConfiguration` | libusb-andro/libusb/descriptor.c:371-487 | total on all byte strings; never takes more than there is; at most 32 interfaces, and the number says how many are stored |
| `DescriptorParser.FieldsRoundTrip` | libusb-andro/libusb/descriptor.c:45-93 | for every format the fields come out as they were put in, little-endian |
| `DescriptorParser.WidthsAre` | libusb-andro/libusb/descriptor.c:53-85 | a byte, a word, a double word and a UUID take 1, 2, 4 and 16 bytes; three of them in an example |
| `DescriptorParser.ParseDescriptor` | libusb-andro/libusb/descriptor.c:45-93 | the format loop computes the fields, where in the destination each goes, and the number of bytes taken |
| `DescriptorParser.PlacesFit` | libusb-andro/libusb/descriptor.c:57-79 | the places lie one behind the other in the destination, and words and double words at even addresses |
| `DescriptorParser.SkipExtras` | libusb-andro/libusb/descriptor.c:139-164 | the skipping loop that the three parsers repeat |
| `DescriptorParser.ParseEndpointAt` | libusb-andro/libusb/descriptor.c:100-188 | return value and structure equal the specified result |
| `DescriptorParser.ParseEndpointsAt` | libusb-andro/libusb/descriptor.c:320-342 | the endpoint loop equals the specified result |
| `DescriptorParser.ParseAltAt` | libusb-andro/libusb/descriptor.c:228-342 | one turn of the loop over settings equals the specified result |
| `DescriptorParser.ParseInterfaceAt` | libusb-andro/libusb/descriptor.c:213-357 | the loop over alternate settings equals the specified result |
| `DescriptorParser.ParseBodyAt` | libusb-andro/libusb/descriptor.c:417-482 | the loop over interfaces equals the specified result |
| `DescriptorParser.ParseConfigurationOf` | libusb-andro/libusb/descriptor.c:371-487 | return value and tree equal the specified result |
| `RegisterBits.MaskedBits` | rtl-sdr/src/tuner_r82xx.c:449-452 | a masked update takes the bits under the mask from the new value and all others from the old one |
| `RegisterBits.UpperFieldOfMasked` | rtl-sdr/src/tuner_r82xx.c:520-521 | a three-bit number shifted up and masked in reads back as that number |
| `TunerCache.MessagesAddUp` | rtl-sdr/src/tuner_r82xx.c:286-311 | a write cut into messages that all arrive is the whole write |
| `TunerCache.ChunksAreSeven` | rtl-sdr/src/tuner_r82xx.c:286-311 | a write goes out in messages of seven bytes, the last with what is left, which add up to it |
| `TunerCache.MessagesAreChunks` | rtl-sdr/src/tuner_r82xx.c:286-311 | a write that may break off is these messages one after the other, as many as are acknowledged |
| `TunerCache.CachedRegisters` | rtl-sdr/src/tuner_r82xx.c:245-272 | the cache covers registers 0x05 to 0x22 |
| `TunerCache.StoreFollowsPut` | rtl-sdr/src/tuner_r82xx.c:245-261 | the cache stores exactly what the chip's cached registers will hold, for writes inside, across and outside its range |
| `TunerCache.HeldBackChangesNothing` | rtl-sdr/src/tuner_r82xx.c:263-272 | a write the cache holds back would not have changed the chip |
| `TunerCache.CacheIsInvisible` | rtl-sdr/src/tuner_r82xx.c:245-341 | over every sequence of full, masked, block and initialising writes that all arrive, cache and chip agree and the chip is as without any cache |
| `TunerCache.CacheIsInvisibleFromInit` | rtl-sdr/src/tuner_r82xx.c:1371-1376 | the same from any chip and cache once the registers are initialised |
| `TunerCache.InitialValues` | rtl-sdr/src/tuner_r82xx.c:1371-1376 | what registers 0x05 to 0x22 hold after an initialisation that arrives |
| `TunerCache.FailedWriteAgreesIff` | rtl-sdr/src/tuner_r82xx.c:283-308 | after a write that broke off, inside, across or outside the cached registers, cache and chip agree exactly if the chip already held what did not arrive of the cached part |
| `TunerCache.RetryIsHeldBack` | rtl-sdr/src/tuner_r82xx.c:279-284 | writing the same again after a failure sends nothing and reports success if all of it lies in the cached registers; otherwise it is sent, and if it arrives cache and chip agree |
| `TunerCache.Tuner.StoreShadow` | rtl-sdr/src/tuner_r82xx.c:245-261 | in place: the clipped copy into the cache |
| `TunerCache.Tuner.EqualShadow` | rtl-sdr/src/tuner_r82xx.c:263-272 | compares the write with the cache, and says no outside its range |
| `TunerCache.Tuner.WriteBlock` | rtl-sdr/src/tuner_r82xx.c:274-313 | in place: cache, chip and result of a write whose messages arrive up to any point |
| `TunerCache.Tuner.WriteRegMask` | rtl-sdr/src/tuner_r82xx.c:330-341 | in place: the masked write from the cached value; refused outside the cache |
| `TunerCache.Tuner.InitRegs` | rtl-sdr/src/tuner_r82xx.c:1371-1376 | in place: the registers are initialised; if every message arrives cache and chip agree |
| `TunerPll.FindDivider` | rtl-sdr/src/tuner_r82xx.c:487-499 | the search loops find the divider that puts the VCO into its range and its number, the binary logarithm less one, or 128 and 0 exactly if none does |
| `TunerPll.DividerIsUnique` | rtl-sdr/src/tuner_r82xx.c:487-499 | no two dividers fit |
| `TunerPll.DividerExistsIff` | rtl-sdr/src/tuner_r82xx.c:487-499 | one fits exactly from 27657 to below 1770000 kHz |
| `TunerPll.DivFieldIff` | rtl-sdr/src/tuner_r82xx.c:510-521 | the register field holds the corrected number, except that dividing by 2 with a fine tune above the reference comes out as 7 |
| `TunerPll.RoundingError` | rtl-sdr/src/tuner_r82xx.c:523-531 | the fixed-point divider misses the VCO frequency by at most reference / 65536 |
| `TunerPll.NintDecodesIff` | rtl-sdr/src/tuner_r82xx.c:538-541 | the byte of ni and si says the integer part exactly if it is at least 13 |
| `TunerPll.PllIsValid` | rtl-sdr/src/tuner_r82xx.c:533-536 | "No valid PLL" is unreachable for the supported crystals and references |
| `TunerPll.SupportedIsAccurate` | rtl-sdr/src/tuner_r82xx.c:523-548 | for supported crystals the registers make the VCO run within crystal / 65536 Hz of frequency times divider |
| `TunerPll.RegistersDecode` | rtl-sdr/src/tuner_r82xx.c:538-548 | registers 0x14 to 0x16 say the computed divider to the last bit |
| `TunerPll.TunedIs` | rtl-sdr/src/tuner_r82xx.c:454-583 | every bit of the chip after the writes of a successful call: divider number, reference divider, VCO current, integer mode and autotune clock; registers other than 0x10, 0x12, 0x14 to 0x16 and 0x1a as before |
| `TunerPll.HundredMegahertz` | rtl-sdr/src/tuner_r82xx.c:454-548 | the numbers for 100 MHz with the usual crystal |
| `TunerPll.SetPll` | rtl-sdr/src/tuner_r82xx.c:454-583 | the whole function, with any write or read failing: success means that everything arrived, cache and chip agree, and lock and divider registers are as specified, the divider field says the divider once the fine tune is taken into account, and every other bit is as in `TunedIs`; without a fault it fails exactly for a divider out of range; for supported crystals it is accurate whenever a divider fits |
| `Resampler.UnderstoodIff` | rtl-sdr/src/librtlsdr.c:1064-1074 | for every rate, the 28-bit ratio with bit 27 copied to bit 28 is the true ratio without its two low bits exactly above 225000 up to 300000 and above 900000 |
| `Resampler.AcceptedIsExact` | rtl-sdr/src/librtlsdr.c:1064-1080 | for every accepted rate the chip runs at it or faster by less than 4 * rate / ratio, under one hertz, and the driver remembers it to the hertz |
| `Resampler.Demodulator.SetSampleRate` | rtl-sdr/src/librtlsdr.c:1054-1091 | in place: rejects exactly the other rates without change; on success the two registers make the chip run as above; with a write that fails the rate is remembered all the same and the other register is written; the result is 0 exactly if these writes, the correction and the reset all succeed |

## Left out

- Isochronous and control transfers, streams, device memory and zero-copy buffers: weaker copies of the bulk engine, or calls into the kernel.
- The discards that `submit_bulk_transfer` and `handle_bulk_completion` make for other URBs: their answers are not used; the kernel returns the URBs either way.
- `USBI_TRANSFER_OS_HANDLES_TIMEOUT` beyond being skipped, and the timerfd branches, which this build does not have.
- FlyingList.FlyingTransfers.CompleteNoDevice: the callback is reduced to an attempt to submit again, which fails on the lost handle.
- EventProtocol.DebtorProgresses: completed transfers may keep a handler busy; each one it takes is counted, but how many a backend queues is not bounded.
- FlyingList.FlyingTransfers.HandleDisconnect: as a method it runs undisturbed; what other threads do to the list between two transfers is FlyingSpec.DrainUnderInterference.
- The use `handle_events` makes of the removed descriptors, ignoring events raised on them; the thread-local flag against recursive event handling; the `libusb_lock_events` form for callers that poll themselves.
- CancelRace: the list and the timeout values; whether a timeout has expired is left to chance there, since FlyingSpec covers it. A cancel after the close, which follows a NULL handle in the code, is a cancel that changes flags only.
- StreamingRuns.MayFreeLinkedIff: states in which another thread is still inside a callback when the stream starts.
- DeviceRefs.CloseUnlinksAll: a close while another thread is inside a submission on the same handle is excluded, as is freeing a transfer that a close unlinked.
- DeviceRefs.Device.Unref: the device lock is not modelled; the count is one step.
- What `rtlsdr_close` does to a stream that is still on when it gives up waiting; a close is a step only once `rtlsdr_read_async` has returned.
- The loops of `rtlsdr_read_async` are steps of a thread, because callbacks interleave with them; their single pieces are methods. Its return value is not modelled.
- DescriptorParser.ParseDescriptor: a big-endian host, on which the two forms of the function differ.
- The bytes of an interface or endpoint descriptor beyond the standard fields are skipped as the code does; the tree does not keep them, so the printer needs standard lengths.
- The BOS, device and string descriptors.
- The sections of EventData for hotplug messages, deregistration and queueing a completed transfer are functions in the protocol; as code in place they would repeat `InterruptEventHandler`.
- Other registers that r82xx_set_freq and r82xx_set_tv_standard write: they go through the same cache; reads of the chip are parameters.
- TunerPll.SetPll: all errors are -1; what a failed write leaves in cache and chip is TunerCache.FailedWriteAgreesIff.
- Resampler.Demodulator.SetSampleRate: what the calls for bandwidth, frequency correction, soft reset and offset tuning write; the first and last of them do not enter the result.
- Resampler.AcceptedIsExact: doubles are replaced by exact division. For these operands a double rounds the quotient by far less than its distance from the next integer, so the truncated values are the same. A changed `rtl_xtal` is not covered.
- E4000, FC0012, FC0013 and FC2580 tuners, gain tables, filters, EEPROM, device enumeration, netlink, logging.
