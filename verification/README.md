# Protocols of the Windows USB modem drivers, modelled and proved in Dafny

The drivers under `QMI/win/qcwwan` mostly call the kernel. What they decide themselves is a set of small
protocols: requests that move between lists while cancel routines, purges and a worker thread race for them;
requests that resubmit themselves; timers that re-arm themselves or are cancelled; counters that gate a removal;
and a few parsers and rewriters of bytes. This project models those protocols and proves what they promise, for
all inputs and over all runs.

The method is the same throughout. The state is a datatype, one region of code that runs without interference (a
section under a spin lock, an `Interlocked*` operation, `IoSetCancelRoutine` as an atomic swap, one move of a
thread) is an event, and `Step` says what the event does. A run is any list of enabled events, so every
interleaving is covered. Beside the step functions stand classes whose fields are the driver's fields; their
methods change them in place, with the driver's loops, and are proved to do exactly what the step says. The
properties are lemmas over runs. A lemma whose name ends in `ExactlyWhen` states a property that the code does not
have in all cases, with the condition under which it has it, in both directions.

| files | component |
|---|---|
| `Machine.dfy` | integer widths, bytes, `Option` |
| `ClientModel.dfy`, `ClientOwnership.dfy`, `ClientRuns.dfy`, `ClientOrder.dfy`, `ClientMessages.dfy`, `ClientDevice.dfy` | requests of the control-channel client (`ndis/MPIOC.c`) |
| `DrainModel.dfy`, `DrainSafety.dfy`, `DrainTermination.dfy`, `DrainControl.dfy`, `DrainDevice.dfy` | pipe drain and removal handshake (`QDSS/QDBRD.c`, `QDSS/QDBPNP.c`) |
| `Qmap.dfy` | QMAP packet splitter (`QDSS/QDBRD.c`) |
| `UsbDescriptor.dfy`, `MuxTable.dfy`, `FilterDevice.dfy` | descriptor rewriting and mux lookup (`filter/qcfilter.c`) |
| `FlowControl.dfy`, `FlowDevice.dfy` | QMAP flow-control queues (`ndis/MPMain.c`, `ndis/MPTX.c`) |
| `ResetTimer.dfy`, `ResetDevice.dfy` | reset state machine (`ndis/MPMain.c`) |
| `RemovalGate.dfy` | PnP events with removal (`ndis/MPMain.c`) |
| `ReconfigTimer.dfy` | reconfiguration timer (`ndis/MPIP.c`, `ndis/MPMain.c`) |
| `ExclusiveOpen.dfy` | creates and closes (`ndis/MPIOC.c`) |
| `DeviceSearch.dfy` | device search and broadcast (`ndis/MPIOC.c`, `ndis/MPQMUX.c`) |
| `SerialNumber.dfy` | the `_SN:` scanner (`QDSS/QDBPNP.c`) |

## What the proofs found

Ten expectations hold only under a condition, which the `ExactlyWhen` and counterexample lemmas make precise.

- Requests of the client are lost exactly by three events: a dequeue or a start of the write thread while
  `pWriteCurrent` is set, a notification-cancel routine that finds neither its device nor a slot, and a post for a
  slot whose cancel routine failed that way. Allocation failure, a restart and a failed look-up each lead there from
  a fresh device. A lost request keeps the delete loop waiting for ever.
- `IrpCount` at zero does not mean that no code of the device is left to run. Freeing the device at count zero is
  safe exactly when no cancel routine was called and is yet to run, and no routine has a last access to make. Four
  runs from a fresh device, with every assumption respected, get there otherwise: a read that is being cancelled is
  purged and counted out before its cancel routine takes the lock; a close or a failed create comes back to the device
  after its decrement; so does the completion loop, which takes the lock again; and a write is purged and counted out
  before its dispatch routine has kicked the write thread.
- The drain frees its buffers early if a completion routine that saw the counter reach zero is delayed past further
  sends (of the same start, or of a new one when there is a single request) and a removal: it then sets the event for
  work that is still in flight. Otherwise the handshake is safe.
- A drain whose completions all fail comes to rest exactly if the threshold is not the largest ULONG, although the
  failure counter wraps around: each time it does, at least one request has stopped for good.
- The rewritten configuration descriptor is well formed exactly when both header fields are wide enough and no
  virtual number wraps to one in use. Lookup inverts numbering up to 128 virtual interfaces, and beyond exactly
  where the wrapped number does not collide. Number 0 is never refused, because free slots hold it.
- The descriptors are written inside the transfer buffer exactly when it has room for the total that is announced;
  the code does not compare the two.
- A media disconnect clears the flow-control flag without moving packets. Order is kept exactly when every packet
  that was overtaken in this way is purged.
- A reset that finds the queues empty does not clear `nResetTimerCount`; in the older build it fails at once exactly
  when earlier resets used the count up, which one timed-out reset does, and so do all such resets after it.
- Each arming of the reconfiguration timer is released once exactly when the timer is never set while it is set and
  never expires while its routine is queued. Waits that end on the event make sure of that; a timed-out wait can
  lose a remove lock for good, and can be harmless. It is safe to arm exactly when no earlier arming is alive.
- A broadcast goes on with the adapter of the last client found. It reaches all matching clients exactly when that
  never narrows the search.

## Model

| member | source | states |
|---|---|---|
| ClientOwnership.StepConservesOwners | QMI/win/qcwwan/ndis/MPIOC.c:2938-3101 | for every event and every request, the number of its holders changes by exactly one up if the event accepts it, one down if it is lost, and not otherwise |
| ClientOwnership.StepKeepsInv | QMI/win/qcwwan/ndis/MPIOC.c:4149-4232 | at most one holder per request, distinct slots, a request with a cancel routine is being completed by nobody, and the request count, after every event |
| ClientRuns.UniqueOwnership | QMI/win/qcwwan/ndis/MPIOC.c:3867-4012 | over every run no request has two holders or is completed twice, and each accepted request has exactly one holder if and only if no losing event occurred |
| ClientRuns.CarefulRunsOwnEverything | QMI/win/qcwwan/ndis/MPIOC.c:3397-3705 | with buffers to be had, one life of the write thread and look-ups that succeed, each accepted request always has exactly one holder |
| ClientRuns.NoCancelRoutineAtCompletion | QMI/win/qcwwan/ndis/MPIOC.c:3867-3942 | a request that can still be cancelled is never on the completion list, popped or completed |
| ClientRuns.NoReaderWaitsBesideData | QMI/win/qcwwan/ndis/MPQMUX.c:762-885 | no read waits while a message is queued |
| ClientRuns.WaitersCanBeCancelled | QMI/win/qcwwan/ndis/MPIOC.c:2992-3005 | over every run whose look-ups succeed, a request in a queue or a slot still has its cancel routine, or that routine was called and has yet to run |
| ClientRuns.CancelTakesEffect | QMI/win/qcwwan/ndis/MPIOC.c:3069-3091 | and when that routine runs, the request leaves queue and slot and is listed for completion |
| ClientRuns.CountZeroMeansEmpty | QMI/win/qcwwan/ndis/MPIOC.c:2021-2042 | IrpCount is the number of requests counted in and not out; when the delete loop reads zero, every list, slot and pWriteCurrent is empty, and the only requests not completed are those that their dispatch routines have counted out and are about to complete |
| ClientRuns.CountZeroLeavesOnly | QMI/win/qcwwan/ndis/MPIOC.c:1487-1510 | at count zero, all that can still be done for an accepted request is its completion by a dispatch routine after the decrement, a cancel routine called for a read or write that was completed and counted out, or a last access: the kick of a write, the completion loop after its decrement, a close or failed create after its own |
| ClientRuns.FreeingIsSafeExactlyWhen | QMI/win/qcwwan/ndis/MPIOC.c:2024-2036 | at count zero, no continuation by steps for accepted requests uses the device if and only if no cancel routine was called and is yet to run and no last access is outstanding |
| ClientRuns.RoutineOutlivesCount | QMI/win/qcwwan/ndis/MPIOC.c:3056-3072 | a state where only a cancel routine is left is reached from a fresh device, with every assumption respected: a read is cancelled, purged, completed and counted out before its routine takes IoLock |
| ClientRuns.ReturnOutlivesCount | QMI/win/qcwwan/ndis/MPIOC.c:435-445 | so is one where only a close or a failed create is past its decrement and comes back to the device, no cancel routine ever having been called |
| ClientRuns.LoopAndKickOutliveCount | QMI/win/qcwwan/ndis/MPIOC.c:3275-3301 | and one where only the completion loop and the kick of a purged write are left |
| ClientRuns.LossBlocksDeletion | QMI/win/qcwwan/ndis/MPIOC.c:2024-2033 | after a loss the count stays above zero for good |
| ClientRuns.OneWriteInUsb | QMI/win/qcwwan/ndis/MPIOC.c:3425-3629 | in careful runs at most one write is with the USB stack, and it is pWriteCurrent |
| ClientRuns.BuffersAreNeeded | QMI/win/qcwwan/ndis/MPIOC.c:3489-3552 | a run from a fresh device that respects the other two assumptions loses a write: a failed allocation leaves the buffer pointer set, so the next write is not sent and the one after overwrites it |
| ClientRuns.OneLifeIsNeeded | QMI/win/qcwwan/ndis/MPIOC.c:3397-3420 | the same for one life of the thread: a write still active when the thread leaves its loop is lost by the next start |
| ClientRuns.LookUpsAreNeeded | QMI/win/qcwwan/ndis/MPIOC.c:4804-4815 | the same for look-ups: a notification whose cancel routine did not find its device is dropped by the next post |
| ClientRuns.EachAssumptionIsNeeded | QMI/win/qcwwan/ndis/MPIOC.c:3397-3705 | so none of the three assumptions of careful runs can be dropped |
| ClientOrder.WritesSentInOrder | QMI/win/qcwwan/ndis/MPIOC.c:3280-3298 | over every run, accepted writes without those cancelled, purged or dropped are the writes sent in their order, the one in hand, and the queue; none is sent twice |
| ClientOrder.CarefulRunsSendAllButWithdrawn | QMI/win/qcwwan/ndis/MPIOC.c:3425-3442 | in careful runs only cancelled and purged writes are missing from that order |
| ClientMessages.MessagesReachReadsInOrder | QMI/win/qcwwan/ndis/MPIOC.c:2958-2990 | over every run, the messages that found a read or memory are those given to a read or discarded, in the order in which they came, followed by those queued; each fits the read it went to, and no read got two |
| ClientMessages.NoneIsDiscarded | QMI/win/qcwwan/ndis/MPIOC.c:4493-4508 | without a clean-up of the queue, every message that left it went to a read |
| ClientMessages.ReadTakesHeadExactlyWhen | QMI/win/qcwwan/ndis/MPIOC.c:2969-2989 | a read takes the first queued message exactly if it has room for it, and leaves it where it is otherwise |
| ClientMessages.MessageFillsExactlyWhen | QMI/win/qcwwan/ndis/MPQMUX.c:788-885 | a message goes straight to a waiting read exactly if one can still be cancelled and has room, to the first such; otherwise it is appended to the queue if there is memory |
| ClientDevice.MpIocDevice.Read | QMI/win/qcwwan/ndis/MPIOC.c:2938-3020 | a read takes the first message exactly if it has room for it, leaves a longer one in place, and without a message waits at the end of the queue with a cancel routine |
| ClientDevice.MpIocDevice.Write | QMI/win/qcwwan/ndis/MPIOC.c:3273-3301 | a write joins the queue and is made cancellable; the thread is kicked exactly if the queue was empty |
| ClientDevice.MpIocDevice.CacheNotificationIrp | QMI/win/qcwwan/ndis/MPIOC.c:4679-4769 | a notification is pended exactly if its slot is free |
| ClientDevice.MpIocDevice.TakeFromQueue | QMI/win/qcwwan/ndis/MPIOC.c:4112-4147 | finds an entry exactly if it is in the list and unlinks that one |
| ClientDevice.MpIocDevice.CancelReadRoutine | QMI/win/qcwwan/ndis/MPIOC.c:3023-3101 | a queued read is cut out of the queue, the others in their order, and listed for completion; any other is left alone |
| ClientDevice.MpIocDevice.CancelWriteRoutine | QMI/win/qcwwan/ndis/MPIOC.c:4149-4232 | the active write gets its routine back; a queued one is cut out and listed for completion; any other is left alone |
| ClientDevice.MpIocDevice.CancelNotificationRoutine | QMI/win/qcwwan/ndis/MPIOC.c:4771-4844 | the request leaves its slot, if it is in one, and moves to the completion list |
| ClientDevice.MpIocDevice.PurgeList | QMI/win/qcwwan/ndis/MPIOC.c:3944-4012 | the loop moves every entry in order and takes every cancel routine off |
| ClientDevice.MpIocDevice.PurgeReadQueue | QMI/win/qcwwan/ndis/MPIOC.c:3944-4012 | left alone, a purge completes everything queued or listed once, in order of the lists, counts each out and leaves no cancel routine on a purged read |
| ClientDevice.MpIocDevice.PurgeWriteQueue | QMI/win/qcwwan/ndis/MPIOC.c:3944-4012 | the same for the writes |
| ClientDevice.MpIocDevice.FillReads | QMI/win/qcwwan/ndis/MPQMUX.c:788-862 | takes reads off up to the first that can be cancelled and has room; none before it does; all of them if there is none |
| ClientDevice.MpIocDevice.DeliverMessage | QMI/win/qcwwan/ndis/MPQMUX.c:788-885 | the reads up to the first that takes the message are listed for completion; the message is appended to the queue exactly if none took it and there is memory |
| ClientDevice.MpIocDevice.ClearReadData | QMI/win/qcwwan/ndis/MPIOC.c:4493-4508 | the loop discards every queued message |
| ClientDevice.MpIocDevice.PostNotificationIrp | QMI/win/qcwwan/ndis/MPIOC.c:4858-4912 | the slot is emptied; the request goes to the completion list exactly if its cancel routine was still installed |
| ClientDevice.MpIocDevice.CancelNotificationIrp | QMI/win/qcwwan/ndis/MPIOC.c:5062-5140 | the slot is emptied and the request completed exactly if its cancel routine was still installed |
| ClientDevice.MpIocDevice.PopCompletionQueue | QMI/win/qcwwan/ndis/MPIOC.c:3884-3931 | takes the head of the completion list and its cancel routine |
| ClientDevice.MpIocDevice.EmptyIrpCompletionQueue | QMI/win/qcwwan/ndis/MPIOC.c:3867-3942 | left alone, the loop pops, completes and counts out until the list is empty; each listed request is completed once |
| ClientDevice.EmptiedCompletesAll | QMI/win/qcwwan/ndis/MPIOC.c:3867-3942 | popping, completing and counting out to the end moves exactly the list to the completed requests and changes no other place |
| ClientDevice.MpIocDevice.DequeueWrite | QMI/win/qcwwan/ndis/MPIOC.c:3425-3444 | the head of the queue becomes pWriteCurrent; with a buffer left over it is not sent |
| ClientDevice.MpIocDevice.WriteAllocationFails | QMI/win/qcwwan/ndis/MPIOC.c:3489-3545 | the write is completed and the buffer pointer stays set |
| ClientDevice.MpIocDevice.HandToUsb | QMI/win/qcwwan/ndis/MPIOC.c:3620-3640 | bWriteActive is set and pWriteCurrent goes to the USB stack |
| ClientDevice.MpIocDevice.WriteIrpCompletion | QMI/win/qcwwan/ndis/MPIOC.c:4030-4110 | pWriteCurrent moves to the completion list and both pointers are cleared |
| DrainSafety.CounterCountsOutstandingWork | QMI/win/qcwwan/QDSS/QDBRD.c:582-701 | over every run DrainingRx is the number of requests on their way or in flight and of completion routines before their decrement; no request is in flight twice |
| DrainSafety.RemovalIsSafeExactlyWhen | QMI/win/qcwwan/QDSS/QDBPNP.c:285-358 | every continuation of a removal frees the buffers only when nothing is in flight and nothing can be resent, if and only if no completion routine was still between its decrement and its signal, or the counter was zero |
| DrainSafety.StaleSignalFreesEarly | QMI/win/qcwwan/QDSS/QDBPNP.c:316-358 | with a routine still to signal and requests in flight, a removal frees the buffers while all of them are still in flight |
| DrainSafety.StaleSignalHappens | QMI/win/qcwwan/QDSS/QDBRD.c:801-842 | for any number of requests that situation is reached from a fresh device, with a single start if there are two or more |
| DrainSafety.BuffersCanBeFreedEarly | QMI/win/qcwwan/QDSS/QDBPNP.c:316-358 | so every device with at least one request has a run that frees the buffers with requests in flight |
| DrainSafety.StepKeepsInv | QMI/win/qcwwan/QDSS/QDBRD.c:582-701 | counter, IsPending and exclusive hold of each request survive every event, the check, set, count and send of SendIOBlock among them |
| DrainSafety.WholeStartIsARun | QMI/win/qcwwan/QDSS/QDBRD.c:526-580 | what the start loop computes is a run of the model: the locked part, one send for each request in order, the return |
| DrainSafety.SendFromSendsAll | QMI/win/qcwwan/QDSS/QDBRD.c:562-566 | with nothing pending, a start puts every request on its way once, in order |
| DrainTermination.FailingDrainIsBounded | QMI/win/qcwwan/QDSS/QDBRD.c:772-832 | when every completion fails and nobody starts the drain, with any threshold but the largest ULONG: the drain takes at most as many steps as the measure says and sends at most the credit plus the resends already decided, wrap-around of the counter included |
| DrainTermination.CreditWithoutWrap | QMI/win/qcwwan/QDSS/QDBRD.c:772-787 | with no more live requests than values above the threshold, the credit is max(0, threshold - count) |
| DrainTermination.RestsExactlyWhenZero | QMI/win/qcwwan/QDSS/QDBRD.c:741-842 | after any run, no step of the drain is possible if and only if DrainingRx is zero and no signal is due, and then nothing is in flight |
| DrainTermination.FailingDrainReachesZero | QMI/win/qcwwan/QDSS/QDBRD.c:772-842 | from every such state, with any requests under way, some run of at most that many failing steps ends at rest with DrainingRx at zero |
| DrainTermination.FailingRunExtendsToZero | QMI/win/qcwwan/QDSS/QDBRD.c:772-842 | and every failing run extends to such an end within the same bound |
| DrainTermination.OutstandingDrainCanStep | QMI/win/qcwwan/QDSS/QDBRD.c:741-842 | while DrainingRx is not zero some step of the drain is possible |
| DrainTermination.RetriesGoOn | QMI/win/qcwwan/QDSS/QDBRD.c:772-787 | a drain that runs with a request on its way answers n failures with n resends, for every n up to threshold - count, and for every n at the largest ULONG |
| DrainTermination.ResendsUnlimitedExactlyWhen | QMI/win/qcwwan/QDSS/QDBRD.c:772-787 | resends of a failing drain are unlimited if and only if the threshold is the largest ULONG |
| DrainControl.StoppedDrainIsBounded | QMI/win/qcwwan/QDSS/QDBRD.c:801-842 | after a stop or a flagged removal, whatever the completions report and until somebody starts the drain, it takes boundedly many steps and resends at most the requests whose routines had read the flags before |
| DrainControl.StoppedRunExtendsToZero | QMI/win/qcwwan/QDSS/QDBRD.c:801-842 | and every such run extends, within the bound, to one at rest with DrainingRx at zero |
| DrainControl.RemovalCompletes | QMI/win/qcwwan/QDSS/QDBPNP.c:285-358 | every run after a removal was flagged extends, within four steps more, to one in which the buffers are freed |
| DrainControl.SuccessGoesOn | QMI/win/qcwwan/QDSS/QDBRD.c:783-815 | a running drain whose reads succeed goes on for any number of reads, whatever threshold and count, and each success clears the count |
| DrainDevice.DeviceContext.PipeDrainStart | QMI/win/qcwwan/QDSS/QDBRD.c:526-580 | the loop sends every request in order, once, unless the drain is running |
| DrainDevice.DeviceContext.AccountStatus | QMI/win/qcwwan/QDSS/QDBRD.c:760-800 | success clears the failure count, a retryable failure counts modulo 2^32 and stops above the threshold, any other failure stops |
| DrainDevice.DeviceContext.PipeDrainCompletion | QMI/win/qcwwan/QDSS/QDBRD.c:741-842 | the request is sent again exactly if it succeeded or may be retried, the drain was not told to stop, the device is not being removed and the request could be formatted; the counts, and the event exactly at zero during a removal |
| DrainDevice.WholeCompletionIsARun | QMI/win/qcwwan/QDSS/QDBRD.c:741-842 | a completion routine that nobody interrupts is a run of the model, so what holds over every run holds after it |
| Qmap.SplitInvertsEncode | QMI/win/qcwwan/QDSS/QDBRD.c:844-917 | splitting any encoded frames, whatever flags and mux ids, followed by anything that starts no frame, gives those frames and that rest |
| Qmap.EncodeInvertsSplit | QMI/win/qcwwan/QDSS/QDBRD.c:844-917 | any block at all is the encoding of the frames found followed by a rest that starts no frame |
| Qmap.SplitIsLongest | QMI/win/qcwwan/QDSS/QDBRD.c:844-860 | the frames found are the longest valid row that the block starts with |
| Qmap.LocateFindsFrame | QMI/win/qcwwan/QDSS/QDBRD.c:862-917 | every packet lies inside the block and holds the payload of its frame |
| Qmap.LocateOrdered | QMI/win/qcwwan/QDSS/QDBRD.c:844-860 | every packet lies after the end of every earlier one |
| Qmap.LocateCounts | QMI/win/qcwwan/QDSS/QDBRD.c:844-860 | there are as many packets as frames, at most one for each five bytes |
| Qmap.RetrievePacket | QMI/win/qcwwan/QDSS/QDBRD.c:862-917 | finds a packet exactly if the bytes start with a valid frame, and how far pointer and length move in each case |
| Qmap.DrainStats.ProcessDrainedDPLBlock | QMI/win/qcwwan/QDSS/QDBRD.c:844-860 | on any bytes the loop ends, sees exactly the located packets, and counts them modulo 2^32 |
| UsbDescriptor.ReplyIsAChain | QMI/win/qcwwan/filter/qcfilter.c:2890-2921 | the rewritten descriptors are the old row with two header fields changed, then exactly N*M endpoint-free interface descriptors |
| UsbDescriptor.AddedIfaceFields | QMI/win/qcwwan/filter/qcfilter.c:2905-2917 | each added descriptor is nine bytes of an interface with the next virtual number modulo 256, no alternate setting, endpoints or name, vendor-specific class |
| UsbDescriptor.ReplyWellFormedExactlyWhen | QMI/win/qcwwan/filter/qcfilter.c:2878-2924 | the reply fills its announced length and counts its interfaces exactly when both fields are wide enough and no virtual number is in use |
| UsbDescriptor.VirtualNumbersAreNew | QMI/win/qcwwan/filter/qcfilter.c:2908-2917 | with physical numbers below 0x80 and at most 128 virtual interfaces no virtual number is in use |
| UsbDescriptor.HeaderReplyAgrees | QMI/win/qcwwan/filter/qcfilter.c:1379-1405 | the header-only reply announces the totals of the full one |
| UsbDescriptor.ImageHoldsReply | QMI/win/qcwwan/filter/qcfilter.c:2890-2898 | of the buffer that the filter leaves, the part it fills is that reply |
| UsbDescriptor.RewritesExactly | QMI/win/qcwwan/filter/qcfilter.c:2890-2921 | outside the two header fields and the new descriptors every byte stays, and the new descriptors do not depend on what was there |
| UsbDescriptor.WritesInsideExactlyWhen | QMI/win/qcwwan/filter/qcfilter.c:2890-2921 | every store of a full rewriting is inside a transfer buffer of given length if and only if it has room for the old total and nine bytes for each of the N*M |
| MuxTable.LookupInvertsExactlyWhen | QMI/win/qcwwan/filter/qcfilter.c:1101-1132 | a virtual number is found in the row it was made for exactly when it did not wrap, or wrapped to a number that is neither an earlier physical one nor a free slot |
| MuxTable.LookupIsDivision | QMI/win/qcwwan/filter/qcfilter.c:1117-1130 | with at most 128 virtual interfaces the row is the quotient (k - 0x80) / M |
| MuxTable.PhysicalReturnsItselfExactlyWhen | QMI/win/qcwwan/filter/qcfilter.c:1107-1116 | a physical number is found in its own row exactly when no wrapped number of an earlier row took it |
| MuxTable.OtherNumbersFail | QMI/win/qcwwan/filter/qcfilter.c:1104-1132 | any other number but 0 is in no row |
| MuxTable.ZeroAlwaysFound | QMI/win/qcwwan/filter/qcfilter.c:1105-1130 | number 0 is always found, and where |
| MuxTable.NumberedAgain | QMI/win/qcwwan/filter/qcfilter.c:2900-2917 | asking for the descriptors again leaves the table as it is |
| FilterDevice.AnswersInvertNumbering | QMI/win/qcwwan/filter/qcfilter.c:1101-1132 | with at most 128 virtual interfaces every answer for a number other than 0 is the physical interface it was numbered for, itself, or a failure |
| FilterDevice.FilterDevice.SelectAndAddInterfaces | QMI/win/qcwwan/filter/qcfilter.c:2878-2924 | in place: header rewritten within its field widths, interface descriptors written after the old total, table filled, nothing else touched |
| FilterDevice.FilterDevice.AddInterfaces | QMI/win/qcwwan/filter/qcfilter.c:2900-2921 | the nested loops write the N*M descriptors and number every row |
| FilterDevice.FilterDevice.OnConfigDescriptor | QMI/win/qcwwan/filter/qcfilter.c:1376-1455 | when a reply is refused, left alone, rewritten in the header only, or rewritten in full; for any length but 9 the stores are inside the transfer buffer if and only if it has room for what is announced |
| FilterDevice.FilterDevice.MuxAppliesExactlyWhen | QMI/win/qcwwan/filter/qcfilter.c:1401 | the reply is rewritten exactly with multiplexing and at least start + count - 1 announced interfaces, never for start + count at 0, and modulo 2^32 beyond |
| FilterDevice.FilterDevice.GetMuxInterface | QMI/win/qcwwan/filter/qcfilter.c:1074-1145 | the double scan answers from the first row that holds the number, or fails; without mux support it echoes the number |
| FlowControl.RunConserves | QMI/win/qcwwan/ndis/MPMain.c:5148-5262 | over every run each arrival is in exactly one place: sent, failed, held or pending |
| FlowControl.FirstInFirstOutExactlyWhen | QMI/win/qcwwan/ndis/MPMain.c:5148-5192 | arrivals without failed ones are sent ++ held ++ pending exactly when every packet held back during a transmit has been purged |
| FlowControl.WithoutDisconnectNothingIsOvertaken | QMI/win/qcwwan/ndis/MPMain.c:5175-5190 | without a media disconnect no packet is ever overtaken, so the order always holds |
| FlowControl.DisconnectCanReorder | QMI/win/qcwwan/ndis/MPMain.c:4677-4678 | with one, a later packet can be sent first |
| FlowControl.FlowOffSendsAll | QMI/win/qcwwan/ndis/MPMain.c:5164-5181 | after any run, the end of flow control lets everything go: as many transmissions as packets wait send exactly the packets held, then those pending, in order |
| FlowControl.FlowOnSendsNothing | QMI/win/qcwwan/ndis/MPMain.c:5155-5163 | from a flow-control call until it ends or the media is disconnected, nothing is sent, whatever is offered |
| FlowDevice.TxQueues.FlowControlCall | QMI/win/qcwwan/ndis/MPMain.c:5148-5181 | on: the pending list is empty and its packets follow those held; off: the held list is empty and its packets precede those pending; the flag is as called |
| FlowDevice.TxQueues.MiniportTxPackets | QMI/win/qcwwan/ndis/MPTX.c:48-90 | the packets are offered in order, to the list that the flag selects |
| FlowDevice.TxQueues.PurgeFlowControlledPackets | QMI/win/qcwwan/ndis/MPMain.c:5194-5262 | everything held is failed, in order |
| FlowDevice.TxQueues.ProcessPendingHead | QMI/win/qcwwan/ndis/MPTX.c:133-178 | the head is sent, failed, or put back where it was |
| ResetTimer.DpcArmsOrCompletes | QMI/win/qcwwan/ndis/MPMain.c:896-1197 | every timer routine sets the timer again or reports one outcome, never both |
| ResetTimer.RunIsBalanced | QMI/win/qcwwan/ndis/MPMain.c:797-1197 | over every run, pending replies are completions, the one the timer is set for, and resets accepted while it was set |
| ResetTimer.SerialResetsCompleteOnce | QMI/win/qcwwan/ndis/MPMain.c:797-1197 | with resets one after the other each pending reply has exactly one completion or is the current one |
| ResetTimer.BusyResetIsBounded | QMI/win/qcwwan/ndis/MPMain.c:839-1197 | a reset begun at START_CLEANUP is reported within RESET_TIMEOUT + 4 timer routines, whatever they find |
| ResetTimer.BoundIsReached | QMI/win/qcwwan/ndis/MPMain.c:896-1197 | in both builds some run needs that many |
| ResetTimer.BusyResetOutcome | QMI/win/qcwwan/ndis/MPMain.c:896-1197 | such a reset reports exactly one outcome, success exactly if the count stayed within RESET_TIMEOUT, and only if the queues were once found empty |
| ResetTimer.BusySuccessSawInOrder | QMI/win/qcwwan/ndis/MPMain.c:932-1173 | in the older build, a busy reset reported as a success has, in this order, found the queues empty, had its work item scheduled, and found all reads posted |
| ResetTimer.AllSetSucceedsExactlyWhen | QMI/win/qcwwan/ndis/MPMain.c:896-1197 | a busy reset whose routines find everything set is a success at the fifth, or fourth in the newer build, exactly when RESET_TIMEOUT leaves time for two counts |
| ResetTimer.RefusedWhileDraining | QMI/win/qcwwan/ndis/MPMain.c:812-818 | with serial resets none is refused once the earlier one was reported, and every one is while the queues drain |
| ResetTimer.RankBoundsFires | QMI/win/qcwwan/ndis/MPMain.c:896-1197 | from any state the number of timer routines is bounded by phase and remaining count |
| ResetTimer.EmptyResetGivesUpExactlyWhen | QMI/win/qcwwan/ndis/MPMain.c:851-855 | in the older build a reset with empty queues gives up at its first timer routine, whatever it finds, exactly when the count left over is at least RESET_TIMEOUT |
| ResetTimer.OneTimeoutSpendsTheCount | QMI/win/qcwwan/ndis/MPMain.c:896-1197 | an idle adapter gets there: one reset whose queues never empty uses the count up |
| ResetTimer.EmptyResetsKeepFailing | QMI/win/qcwwan/ndis/MPMain.c:1093-1137 | from then on every completion reported by any number of serial resets that find the queues empty is a failure |
| ResetTimer.SpentResetIsShort | QMI/win/qcwwan/ndis/MPMain.c:1093-1137 | each of them is reported as failed after two timer routines, whatever they find |
| ResetDevice.ResetDevice.MiniportReset | QMI/win/qcwwan/ndis/MPMain.c:797-867 | which reply and which phase in each case; a reply is pending exactly if one more completion is owed, by a timer that is then set; the account stays balanced |
| ResetDevice.ResetDevice.ResetCompleteTimerDpc | QMI/win/qcwwan/ndis/MPMain.c:870-1197 | the routine sets the timer again or reports one outcome, never both, comes closer to the end by the rank, and keeps the account balanced |
| RemovalGate.AtMostOneRemovalAndNothingAfter | QMI/win/qcwwan/ndis/MPMain.c:2130-2273 | over every run, with any number of callers, at most one is in the body, at most one removal is sent, and nothing is sent after it |
| RemovalGate.AtMostOneMoreAfterRemoved | QMI/win/qcwwan/ndis/MPMain.c:2141-2216 | once the device was marked as removed, by whomever, at most one more request is sent, by a caller that had passed its test before |
| RemovalGate.StepKeepsInv | QMI/win/qcwwan/ndis/MPMain.c:2130-2152 | the counter is the number of callers in the body or backing off, after every step |
| RemovalGate.PnpGate.TryEnter | QMI/win/qcwwan/ndis/MPMain.c:2131-2140 | a caller gets into the body exactly when no other caller is counted |
| RemovalGate.PnpGate.Body | QMI/win/qcwwan/ndis/MPMain.c:2141-2270 | with nobody in between, a call sends its request exactly if the device is present and all steps succeed, sets UsbRemoved exactly if it was such a removal, and sends the removal once and last |
| RemovalGate.PnpGate.Pass | QMI/win/qcwwan/ndis/MPMain.c:2130-2273 | one whole pass gives the counter back as it was, changes nothing if another caller is counted, and otherwise ends the call with the outcome of the body |
| ReconfigTimer.RunIsBalanced | QMI/win/qcwwan/ndis/MPIP.c:697-835 | over every run, lock acquisitions are releases by routine and canceller, unfinished timers and routines, the steps under way, and armings that were set over or coalesced |
| ReconfigTimer.EachArmingReleasedExactlyWhen | QMI/win/qcwwan/ndis/MPIP.c:697-835 | each arming is released exactly once, by the routine or the canceller, or is still to be, if and only if in the run the timer was never set while set and never expired while its routine was queued |
| ReconfigTimer.ArmingIsSafeExactlyWhen | QMI/win/qcwwan/ndis/MPIP.c:697-720 | when the timer is about to be armed and nothing is lost so far, every continuation whose waits end on the event releases each arming once if and only if no earlier arming is alive |
| ReconfigTimer.EachArmingReleasedOnce | QMI/win/qcwwan/ndis/MPIP.c:783-835 | if waits end on the event that is so, and never is more than one arming short of its locked section |
| ReconfigTimer.WaitIsAnswered | QMI/win/qcwwan/ndis/MPMain.c:1228-1256 | a waiting canceller has its event set or a routine that will set it |
| ReconfigTimer.TimedOutWaitLosesARelease | QMI/win/qcwwan/ndis/MPIP.c:797-817 | a run from the start with a timed-out wait after which, in every continuation, acquisitions exceed releases and what is still to be released |
| ReconfigTimer.TimedOutWaitCanBeHarmless | QMI/win/qcwwan/ndis/MPIP.c:797-817 | and one with a timed-out wait in which both armings are released and nothing is left |
| ReconfigTimer.ReconfigDevice.BeginCancel | QMI/win/qcwwan/ndis/MPIP.c:788-795 | in an orderly device, a canceller that need not wait leaves no earlier arming short of its locked section, and one that waits has its event set or one such arming left |
| ReconfigTimer.ReconfigDevice.ArmTimer | QMI/win/qcwwan/ndis/MPIP.c:715-720 | in an orderly device nothing is set over and the new arming is the only one alive |
| ReconfigTimer.ReconfigDevice.SignalCompletion | QMI/win/qcwwan/ndis/MPMain.c:1226-1253 | in an orderly device no arming is left alive and a waiting canceller can go on |
| ExclusiveOpen.CountIsExactAndClientsExclusive | QMI/win/qcwwan/ndis/MPIOC.c:168-256 | over every run DeviceOpenCount is the number of open handles and creates in progress, and a client device has at most one successful open |
| ExclusiveOpen.CreateSucceedsExactlyWhenAlone | QMI/win/qcwwan/ndis/MPIOC.c:195-246 | a create passes its test exactly when the device is acquired and nobody else is counted |
| ExclusiveOpen.CloseAlwaysLowers | QMI/win/qcwwan/ndis/MPIOC.c:435-438 | a close never finds the count at zero |
| ExclusiveOpen.DeviceOpens.TestCreate | QMI/win/qcwwan/ndis/MPIOC.c:190-256 | on a client device the test passes exactly when the device is acquired and no other handle or create is counted |
| ExclusiveOpen.DeviceOpens.Create | QMI/win/qcwwan/ndis/MPIOC.c:168-256 | a whole create opens the device exactly when the miniport is initialised and, for a client device, it is acquired, alone and its thread starts; a failed one leaves no count behind |
| ExclusiveOpen.DeviceOpens.Close | QMI/win/qcwwan/ndis/MPIOC.c:435-438 | a whole close takes the handle and exactly its count |
| DeviceSearch.Find | QMI/win/qcwwan/ndis/MPIOC.c:2648-2736 | the first match, or the first match strictly after the reference, or nothing |
| DeviceSearch.FirstIsAddressee | QMI/win/qcwwan/ndis/MPIOC.c:2684-2706 | a message for one client goes to the first listed client of its type and link with that id, its own or its IPv6 one, and to nobody exactly if there is none |
| DeviceSearch.FindNextStepsThroughMatching | QMI/win/qcwwan/ndis/MPIOC.c:2708-2727 | with one adapter, find first and repeated find next visit exactly the matching clients, each once, in list order |
| DeviceSearch.MatchingMembers | QMI/win/qcwwan/ndis/MPIOC.c:2708-2727 | a client is among them exactly if it is listed, has a nonzero client id and matches type and adapter |
| DeviceSearch.Broadcast | QMI/win/qcwwan/ndis/MPQMUX.c:699-735 | the loop ends and visits what a search going on with the last adapter reaches |
| DeviceSearch.BroadcastReachesAllExactlyWhen | QMI/win/qcwwan/ndis/MPQMUX.c:699-735 | a broadcast reaches exactly the matching clients, if and only if no client of an adapter without multiplexing comes before a client of another adapter |
| SerialNumber.Extract | QMI/win/qcwwan/QDSS/QDBPNP.c:495-554 | on any bytes: the field after the first marker up to the first stop, no field exactly if there is no marker, the whole string without prefix matching or when it is empty |
| SerialNumber.ScanFindsSerial | QMI/win/qcwwan/QDSS/QDBPNP.c:495-554 | for one-byte characters in UTF-16LE the byte scan finds exactly the text after the first "_SN:" up to the next space, underscore or end |
| SerialNumber.SliceOfText | QMI/win/qcwwan/QDSS/QDBPNP.c:521-541 | and its bytes are the encoding of that text |

## Left out

- Client: GetServiceFileIrp and the DispatchQueue thread of the filter, where cancel and dequeue leave a request to each other; NamedEvents, whose handle array is filled from the event array.
- ClientDevice.MpIocDevice.EmptyIrpCompletionQueue: states a run that nobody interferes with; the code drops the lock for each completion, and what others do then is covered by the events of the model and `ClientRuns.UniqueOwnership`, not by this method.
- ClientDevice.MpIocDevice.PurgeReadQueue: the same, because it ends with that loop.
- ClientDevice.MpIocDevice.PurgeWriteQueue: the same, because it ends with that loop.
- ClientRuns.FreeingIsSafeExactlyWhen: speaks of dispatch routines, cancel routines, completion loops and the USB stack, the steps taken for accepted requests; the write thread, which the delete routine waits for, and threads that bring messages or post events act for no request. Look-up and locked section of a cancel routine are one event, so a routine that would look its device up too late to find it counts as one that can.
- Client: MTU notifications are posted under IoLock in the model; MPIOC.c:5052 does not take it.
- Client: requests rejected or cancelled before they are counted, and requests whose memory is used again, which would be new identities here.
- Client: the conditions on which the write thread looks at its queue, waits or stops are free choices of the model, which only adds runs.
- Client: the code reads the count of a device again before it deletes it; a create that arrives in between is not part of the count argument.
- Drain: IsPending is checked and set in one step, as the code assumes; no start runs beside the cleanup of the device; a completion may run before the send routine looks at its result.
- Drain: allocation of the requests and the buffers, and the waiting times of the cleanup, which are free choices.
- FilterDevice.FilterDevice.SelectAndAddInterfaces: assumes that N and M are at most 16, the size of InterfaceMuxList, because the code relies on it. Its buffer is the memory from the start of the transfer buffer on, as far as the code writes; a store past the transfer buffer is described as a store, not as what it would destroy.
- FilterDevice.FilterDevice.AddInterfaces: the same bounds on N and M, and the same memory.
- FilterDevice.FilterDevice.OnConfigDescriptor: the same bounds on N and M, and the same memory; `UsbDescriptor.WritesInsideExactlyWhen` says when it is only the transfer buffer.
- Descriptors: descriptors of other kinds, string descriptors and the URB around them are not modelled.
- MuxTable.LookupInvertsExactlyWhen: like the other lemmas on numbers, assumes physical numbers that are not 0 and end below 0x80, and a table that started empty, because other settings are not in use.
- Flow control: completion queues, busy counters and the NET_BUFFER form of the same loops; the halting miniport, which fails what is pending.
- Reset: what the phases clean up, cancellation of the timer by a halting miniport, and timer routines that overlap on two processors.
- Removal gate: whether a caller that backs off ever gets in; the completion of the PnP requests.
- Reconfiguration timer: its IPv6 twin, and the two other cancellers (MPMain.c:561, MPQMUX.c:1407), which would be a second thread.
- DeviceSearch.Broadcast: assumes that 0xFF is never assigned as a client id, that IsQmiWorking holds for every adapter found, and that the list stays as it is, because the list is the model's input.
- Device search: the branch that looks for a control device object.
- Serial number: characters above one byte, and the registry value that the field is written to.
- Names, registry, debugging output, USB transfers, NDIS attributes and the installer have no property to prove.
