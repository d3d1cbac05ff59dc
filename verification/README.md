# Verification of the DPA packet sender

The packet sender forwards Ethernet frames on an NVIDIA DPA. NIC hardware rings feed worker threads; a worker exchanges the
MAC addresses of a received frame in place, patches a send WQE that was built once, rings the send doorbell and reposts the
receive entry. Schedulers dispatch the workers through a status word per worker and a wake-up interrupt, and account for the
cycles the workers spend. This project models those parts in Dafny and proves what they guarantee in every interleaving.

| file | contents |
|---|---|
| `Words.dfy` | masks, 32-bit wrap-around, slots and laps of a ring |
| `MacSwap.dfy` | `swap_macs` and `swap_mac` on bytes and little-endian 64-bit words |
| `CompletionQueue.dfy` | `cq_ctx_t`: consumer index, phase bit, `com_step_cq`, `com_cq_poll` |
| `SendQueue.dfy` | `sq_ctx_t` and `dt_ctx_t`: WQE templates, patching, doorbells, `send_packet` |
| `HostRings.dfy` | the rings and buffers the host prepares, and memory-key coverage |
| `RingProtocol.dfy` | the NIC against one worker, one access to shared memory per step, and its inductive invariant |
| `RingTheorems.dfy` | what that protocol guarantees in every run, and progress |
| `RingWitness.dfy` | runs exist, and the in-flight bounds are reached |
| `PacketPath.dfy` | `pp_queue`, the packet loop of `flexio_pp_dev_2` and the NIC's deliveries on arrays and objects, proved to be that protocol and to serve a bounded queue |
| `SetUp.dfy` | the set-up as a whole, and an activation that starts from it |
| `Dispatch.dfy` | any number of schedulers and workers, one atomic access per step, and the invariant of one queue |
| `DispatchTheorems.dfy` | the guarantees for all schedulers and workers, over all runs |
| `DispatchProgress.dfy` | what the visits of a scheduler to a queue achieve, over runs, and how a lost wake-up is made good |
| `DispatchTurns.dfy` | what the start-up and the reports of a scheduler do to a queue, and which interrupts it sends, over runs |
| `DispatchLimits.dfy` | exactly which workers never lose a wake-up, in every configuration |
| `Sender.dfy` | both protocols together: any number of schedulers, workers and queues, with queues and workers apart, proved to be many runs of the ring protocol under one run of the dispatch protocol |
| `Accounting.dfy`, `Sums.dfy` | budget split, report loop, report rate |

How the two protocols are modelled. In `RingProtocol` a state is the queue's memory (completion ring, receive ring,
doorbell record, the 256 KiB of buffers as one byte sequence), the worker's send ring, its program counter and locals,
and a history of the run. A run is any sequence of NIC deliveries, single worker accesses, activations and `send_packet`
calls. Reads of the CQE, the receive entry and the frame, both stores to the frame, the doorbell and the repost are a
step each; patching the WQE and `com_step_cq`, which the NIC does not look at, are one step each as well. The NIC looks
only at the 16-bit doorbell record: it delivers whenever that differs from its own counter, writes the frame to the
buffer of the next posted entry and writes a completion with its lap's phase. What a doorbell forwarded is defined by
what the device fetches for that doorbell value, not by what the code meant to send.

In `Dispatch` a state holds every scheduler, every `offload_info` cell and every worker; loads, stores, interrupts,
arming and rescheduling are separate steps, interrupts reach a worker only if its completion queue is armed, and CQ
events and unexplained activations may happen at any time. Each worker of a configuration has its own handler and CQ
number, and each scheduler may or may not be entered again. What holds in every configuration (ownership, accounting,
the answer to a spinning worker), what needs a worker that has not yet skipped a spin, and what needs more, is proved
separately. In `Sender` the two are put together. A worker there works on whatever queue its tenant pointer names, and a
queue could have several workers or none; that it has one is proved, which `RingProtocol` takes for granted.

Machine integers wrap where the C types do: 32-bit indices, the 16-bit `wqe_counter` and doorbell, 64-bit cycle words. The
histories count without bound, and the lemmas tie the two together.

## Model

| member | source | states |
|---|---|---|
| Words.MaskIsMod | common/dev/com_dev.h:20-23 | masking with `L2M(l)`, taken bit by bit, is reduction modulo `2^l`, for every word and depth |
| MacSwap.WordSwapRefinesByteSwap | common/dev/com_dev.c:28-34 | the two overlapping 64-bit stores give byte for byte the frame with destination and source exchanged; nothing before the frame or from byte 12 on changes |
| MacSwap.MacSwappedIsInvolution | common/dev/com_dev.c:17-26 | exchanging twice restores every frame, and bytes 12 and onward never change |
| MacSwap.SwapMac | common/dev/com_dev.c:28-34 | the word version in place: the new memory is the old one with the frame's addresses exchanged |
| MacSwap.SwapMacs | common/dev/com_dev.c:17-26 | the six-step byte loop in place reaches the same memory |
| CompletionQueue.CqCtx.constructor | common/dev/com_dev.c:64-75 | the fresh context is in step with zero consumed completions over a ring whose owner bits are all 1 |
| CompletionQueue.CqCtx.Step | common/dev/com_dev.c:131-142 | one step moves index, pointer, phase and doorbell word together, and nothing else |
| CompletionQueue.StepSynced | common/dev/com_dev.c:131-142 | index, pointer and phase stay those of the unbounded consumer count, across the `2^32` wrap, for every depth below `2^32` |
| CompletionQueue.PhaseExact | common/dev/com_dev.c:131-142 | with at most a ringful outstanding, the owner test holds exactly when an unconsumed completion exists |
| CompletionQueue.PhaseFailsBeyondDepth | common/dev/com_dev.c:131-142 | one more than a ringful outstanding makes the same test read "empty" |
| CompletionQueue.Poll | common/dev/com_dev.c:188-204 | terminates having counted and consumed exactly the requester completions before the first other one, which stays unconsumed; 0 if all were consumed, 255 (the `uint8_t` of -1) otherwise and on a null pointer |
| CompletionQueue.RequesterRunIsMaximal | common/dev/com_dev.c:194-201 | the count `Poll` reports is the longest run of requester completions |
| SendQueue.SqCtx.constructor | common/dev/com_dev.c:96-101 | number, ring and a zero segment index; the producer index is left as the zero of the globals |
| SendQueue.SqCtx.GetNextSqe | common/dev/com_dev.c:178-181 | the segment at the index modulo 512, and the index moved on with wrap |
| SendQueue.SqCtx.BuildTemplates | packet_sender/dev/flexio_ps_dev_utils.c:148-163 | segments 0..511 are visited once each in order; control k, Ethernet and data segments stand at 4k, 4k+1, 4k+2 and 4k+3 is untouched; the send path's invariant is established |
| SendQueue.PatchKeeps | packet_sender/dev/flexio_ps_dev_utils.c:84-86 | patching puts the next descriptor at its WQE's slot and keeps the last 128 descriptors and the template, whatever the wrapped index |
| SendQueue.DoorbellFetchesPatched | packet_sender/dev/flexio_ps_dev_utils.c:97-99 | the doorbell value rung next makes the device fetch the descriptor just patched |
| SendQueue.SqCtx.PatchNext | packet_sender/dev/flexio_ps_dev_utils.c:245-252 | keeps the send invariant with the descriptor added: at any wrapped index it takes the next WQE's data slot, the last 128 descriptors stay where the device will look for them and no template segment changes |
| SendQueue.SqCtx.Ring | packet_sender/dev/flexio_ps_dev_utils.c:254-258 | the descriptor the device fetches for the doorbell is the one patched last, and all that was patched has then been rung |
| SendQueue.DtCtx.GetNextDte | common/dev/com_dev.c:168-172 | the address of transmit buffer `idx mod 128`, and the index moved on with wrap |
| SendQueue.SendPacket | packet_sender/dev/flexio_ps_dev_utils.c:211-273 | the next transmit buffer gets the given destination, the fixed source address and the type of IPv4 in network order, the rest of memory stays; its descriptor is the one the device fetches |
| SendQueue.PreparePacket | packet_sender/dev/flexio_ps_dev_utils.c:211-226 | bytes 0-5 are the destination, the low 48 bits of the little-endian word at 6 are 0x400432c288a0, the big-endian word at 12 is 0x0800, and no other byte changes |
| HostRings.AllocCqRing | packet_sender/host/flexio_ps_host_utils.c:106-118 | a ring of 128 zeroed entries owned by phase 1, which is the ring before the first completion |
| HostRings.InitRqRing | packet_sender/host/flexio_ps_host_utils.c:326-332 | entry k points at buffer k under the region's key, although the address is only ever advanced |
| HostRings.InitRqDbr | packet_sender/host/flexio_ps_host_utils.c:355-358 | the masked receive counter is 128 |
| HostRings.BuffersTileRegion | packet_sender/host/flexio_ps_host_utils.c:326-332 | the buffers are pairwise disjoint and a byte lies in the memory-key region exactly if it lies in one of them |
| HostRings.LookupFindsBuffer | packet_sender/dev/flexio_ps_dev_utils.c:67-74 | for the 16-bit counter of the n-th packet the masked lookup selects buffer `n mod 128`, inside its key's region |
| HostRings.SendPacketKeyCovers | packet_sender/dev/flexio_ps_dev_utils.c:245-252 | the receive key that `prepare_send_packet` uses covers every transmit descriptor if and only if the transmit region starts at the receive region, up to the slack of a short packet |
| HostRings.SendPacketKeyNeverCovers | packet_sender/host/flexio_ps_host_utils.c:134-157 | with the two regions allocated apart, as `same_queue == 0` does, it covers none of them |
| RingProtocol.PostedExactly | packet_sender/dev/flexio_ps_dev_utils.c:100 | the 16-bit doorbell record differs from the NIC's counter exactly when fewer than 128 packets wait for their repost |
| RingProtocol.NextKeeps | packet_sender/dev/flexio_ps_dev_utils.c:51-101 | every delivery, worker access, activation and `send_packet` call keeps the ring invariant |
| RingProtocol.BehaviourInv | packet_sender/dev/flexio_ps_dev_utils.c:51-101 | every state of every run satisfies the ring invariant |
| RingProtocol.GuardExact | packet_sender/dev/flexio_ps_dev_tnt1.c:32 | wherever the worker stands before its next step of the queue, the guard tells whether a packet waits, and the completion it sees is the oldest |
| RingTheorems.ExactlyOnceInOrder | packet_sender/dev/flexio_ps_dev_utils.c:51-101 | the k-th doorbell of `pp_queue` carries the send queue's number and fetches the buffer address, size and key of the k-th packet received, and the buffer then holds exactly that packet with its addresses exchanged |
| RingTheorems.ForwardedIsConsumed | packet_sender/dev/flexio_ps_dev_utils.c:97-100 | doorbells and consumed completions agree, one ahead only between doorbell and `com_step_cq`: none skipped, none repeated |
| RingTheorems.RunExtends | packet_sender/dev/flexio_ps_dev_utils.c:51-101 | histories only grow along a run: no later step rewrites what was received or forwarded |
| RingTheorems.InFlightBound | packet_sender/dev/flexio_ps_dev_tnt1.c:32-37 | at most 128 completions are outstanding, 129 between the repost and `com_step_cq` |
| RingTheorems.PhaseExactInRun | packet_sender/dev/flexio_ps_dev_tnt1.c:32 | at every loop head of every run the guard is exact and sees the oldest unconsumed completion; the index is the count modulo `2^32` |
| RingTheorems.DeliveryOverwritesNothingLive | packet_sender/dev/flexio_ps_dev_utils.c:66-100 | a delivery changes no completion still to be read and no buffer still to be reposted |
| RingTheorems.SendWindow | packet_sender/dev/flexio_ps_dev_utils.c:84-99 | after any calls of `pp_queue` and `send_packet`, segment index = 4 * producer index modulo `2^32`, the last 128 descriptors are in place, and the number of the queue and every control and Ethernet segment are those of the set-up |
| RingTheorems.RoundIsExact | packet_sender/dev/flexio_ps_dev_tnt2.c:47-59 | an activation of `flexio_pp_dev_2` that ends has forwarded exactly 1000000 packets |
| RingTheorems.BacklogIsForwarded | packet_sender/dev/flexio_ps_dev_tnt1.c:31-49 | for both handlers: a worker whose queue gets nothing more forwards its whole backlog, in thirteen accesses a packet, whenever its clock or its count ends an activation |
| RingTheorems.PacketIsForwarded | packet_sender/dev/flexio_ps_dev_tnt1.c:31-49 | under load, for both handlers and over any number of activations: whatever is delivered and sent in between, a received packet is forwarded after at most thirteen accesses of the worker for it and for each unconsumed packet before it |
| RingWitness.InFlightBoundIsReached | packet_sender/dev/flexio_ps_dev_tnt1.c:32-37 | states with 128 completions at a loop head and 129 before `com_step_cq` are reachable |
| PacketPath.PpQueue | packet_sender/dev/flexio_ps_dev_utils.c:51-101 | the device after the call, memory, send queue and doorbell record, as one function of the device before |
| PacketPath.ForwardIsTheWorker | packet_sender/dev/flexio_ps_dev_utils.c:66-100 | that function is what the protocol's worker does between the loop guard and `com_step_cq` |
| PacketPath.PacketRound | packet_sender/dev/flexio_ps_dev_tnt2.c:37-61 | an activation, while packets keep arriving: the arrays end as those of a protocol state reached by worker accesses and deliveries; the packets forwarded are, in order, those a queue of 128 places with drops serves at one a turn; it stops exactly after 1000000 |
| PacketPath.Deliver | packet_sender/dev/flexio_ps_dev_utils.c:66-100 | a delivery into the same arrays is the protocol's: it is taken exactly if it fits a buffer and fewer than 128 packets wait |
| PacketPath.BusyLoopServesAlways | packet_sender/dev/flexio_ps_dev_tnt2.c:37-61 | with a packet for every test of the guard every turn forwards one, until the round is full, so the loop can end by its count |
| PacketPath.QuietLoopServesBacklog | packet_sender/dev/flexio_ps_dev_tnt2.c:37-61 | without arrivals exactly the waiting packets are forwarded |
| SetUp.SetUpQueue | packet_sender/dev/flexio_ps_dev_utils.c:103-165 | host rings, contexts and templates put together, for any keys, numbers and base address, are a state where the ring protocol starts, on arrays that do not overlap; the CQ and SQ numbers are in their own contexts, the SQ number in every control segment, the transmit key in every data segment |
| SetUp.FirstActivation | packet_sender/dev/flexio_ps_dev_tnt2.c:37-61 | end to end, from set-up: the first activation forwards what the bounded queue serves of the arrivals, at most 1000000, in order; doorbell k carries the send queue's number and packet k's size, key and buffer address, and the buffer holds it with the addresses exchanged |
| Dispatch.ThdInjective | packet_sender/dev/flexio_ps_dev_sch.c:188-189 | scheduler and queue index are determined by the cell number, so no two queues share a cell |
| Dispatch.TouchKeepsOwn | packet_sender/dev/flexio_ps_dev_sch.c:166-212 | every scheduler access keeps the invariant of the queue it touches |
| Dispatch.WorkerKeeps | packet_sender/dev/flexio_ps_dev_tnt1.c:14-47 | every worker access keeps it, whatever the scheduler is doing |
| Dispatch.InterruptKeeps | packet_sender/dev/flexio_ps_dev_sch.c:170 | interrupts, activations nobody asked for and the start of a pending activation keep it |
| DispatchTheorems.RunInv | packet_sender/dev/flexio_ps_dev_sch.c:147-237 | the invariants of all queues and all reports hold in every state of every run of every configuration: any number of schedulers and queues, any mix of handlers, with and without CQ numbers and re-entry |
| DispatchTheorems.NoLostWakeup | packet_sender/dev/flexio_ps_dev_sch.c:166-212 | for both handlers: while a worker on a numbered CQ, under a scheduler entered once, has spun on every activation so far, it is active or has a pending activation whenever its status is HANG; `NeverLosesExactly` shows that each of these is needed |
| DispatchTheorems.HandshakeStates | packet_sender/dev/flexio_ps_dev_tnt1.c:14-47 | OFF only before the spin or after the loop, in every configuration; FREE only while spinning and HANG throughout the packet loop, while the worker has spun on every activation so far: always for `flexio_pp_dev_1`, until the second activation for `flexio_pp_dev_2` |
| DispatchTheorems.ExclusiveOwnership | packet_sender/dev/flexio_ps_dev_sch.c:188-195 | in every configuration a worker in its packet loop holds its own scheduler's queue, and no two hold the same one |
| DispatchTheorems.CyclesConserved | packet_sender/dev/flexio_ps_dev_tnt1.c:33-36 | per worker, in every configuration, from when its counter is cleared: the cycles its actions added = drained + left in the counter, modulo `2^64`, and exactly while the total fits the word; what the counter held before is gone |
| DispatchTheorems.MeasuredIsAdded | packet_sender/dev/flexio_ps_dev_tnt1.c:33-36 | what a cell has on record as measured is the sum of what the run's actions added for its worker |
| DispatchTheorems.SchedulerConserves | packet_sender/dev/flexio_ps_dev_sch.c:213-228 | per scheduler, in every configuration: all cycles that its workers' actions added = all cycles its reports drained + what is left in the counters, modulo `2^64`, over any interleaving |
| DispatchTheorems.PartitionHolds | packet_sender/dev/flexio_ps_dev_sch.c:188-212 | a scheduler's step leaves every cell and worker of every other scheduler alone |
| DispatchTheorems.ThdFitsWord | packet_sender/dev/flexio_ps_dev_sch.c:189 | within the 190 entries of `offload_info` the 32-bit cell number does not wrap |
| DispatchTurns.InterruptsAreSends | packet_sender/dev/flexio_ps_dev_sch.c:166-206 | in every configuration and run, the interrupts of a queue are its scheduler's sends in wake-up loop and visits, and none without a CQ number |
| DispatchTurns.VisitInterrupts | packet_sender/dev/flexio_ps_dev_sch.c:200-212 | in every configuration, a visit sends one interrupt if its load reads OFF and the CQ has a number, and otherwise none |
| DispatchTurns.StartUpInterrupts | packet_sender/dev/flexio_ps_dev_sch.c:166-195 | in every configuration and every activation, from its begin to its store of HANG for a queue, a scheduler sends that queue one interrupt if the wake-up loop reads OFF and the CQ has a number, and otherwise none |
| DispatchTurns.StartUpRouses | packet_sender/dev/flexio_ps_dev_sch.c:166-195 | in every activation, a worker on a numbered CQ that the wake-up loop finds at OFF will look or be woken when HANG is stored for it, if it has spun on every activation so far or its status stays OFF |
| DispatchTurns.ReentryWakes | packet_sender/dev/flexio_ps_dev_sch.c:166-195 | from the end of one activation to the next one's store of HANG, a worker on a numbered CQ whose status stays OFF is sent exactly one interrupt, and will look or be woken |
| DispatchTurns.StartUpPublishes | packet_sender/dev/flexio_ps_dev_sch.c:188-195 | the store of HANG that ends a start-up leaves the queue published and a roused worker called, and sends nothing |
| DispatchTurns.StartUpComes | packet_sender/dev/flexio_ps_dev_sch.c:147-195 | a scheduler that may be entered again gets by its own steps to its next store of HANG for any of its queues |
| DispatchTurns.QueueDrained | packet_sender/dev/flexio_ps_dev_sch.c:217-222 | during a report, each queue's counter is emptied when the report reaches it and not before or again, and the report lists what was in it |
| DispatchTurns.ReportCharges | packet_sender/dev/flexio_ps_dev_sch.c:214-222 | at any point of a report each tenant is charged with what was taken out of its own queues' counters since the report began, modulo `2^64`; a complete report takes from every queue once, and the charges add up to all that was taken, exactly while it fits the word |
| DispatchTurns.ReportStarts | packet_sender/dev/flexio_ps_dev_sch.c:213-216 | after the visits of a turn a due report begins with every tenant at zero; without one, or without tenants, none does |
| DispatchTurns.ReportHappens | packet_sender/dev/flexio_ps_dev_sch.c:196-228 | as long as its activation goes on, a scheduler's own steps lead to the end of a turn of visits and, if a report is due there, through a complete report |
| DispatchProgress.VisitOutcome | packet_sender/dev/flexio_ps_dev_sch.c:200-212 | a whole visit, its load included, to a worker on a numbered CQ that has spun on every activation so far, also after re-entries of the scheduler: it sends one interrupt if its load reads OFF and none otherwise; after OFF it leaves HANG stored and a worker that will look at it, after FREE a worker spinning on HANG; it reads one of the two if the status is not HANG when it begins |
| DispatchProgress.ParkedIsCalled | packet_sender/dev/flexio_ps_dev_sch.c:202-208 | under the same conditions, a visit whose load comes first and finds OFF sends exactly one interrupt and leaves the worker called with HANG |
| DispatchProgress.OffVisitCalls | packet_sender/dev/flexio_ps_dev_sch.c:202-208 | under the same conditions, the rest of a visit that has loaded OFF ends with exactly one interrupt sent, HANG stored, and a worker that will look at it |
| DispatchProgress.FreeVisitReleases | packet_sender/dev/flexio_ps_dev_sch.c:209-211 | a visit that finds its worker spinning on FREE, in an activation whose spin it does not skip, ends with the worker spinning on HANG, without an interrupt, whatever interleaves |
| DispatchProgress.FreeVisitAnswers | packet_sender/dev/flexio_ps_dev_sch.c:209-211 | in every configuration, a worker that a visit finds on its way to the spin at FREE is released or past its spin in the course of the visit |
| DispatchProgress.VisitIsShort | packet_sender/dev/flexio_ps_dev_sch.c:200-212 | a visit takes at most three steps of its scheduler, and no other step prolongs it |
| DispatchProgress.VisitCompletes | packet_sender/dev/flexio_ps_dev_sch.c:200-212 | from wherever a visit stands, at most three steps of its own scheduler complete it |
| DispatchProgress.VisitComesAround | packet_sender/dev/flexio_ps_dev_sch.c:147-230 | as long as its activation goes on, a scheduler's own steps bring it to the next visit of any of its queues |
| DispatchProgress.CalledMoves | packet_sender/dev/flexio_ps_dev_tnt1.c:14-26 | a called worker always has a step of its own to take, and nothing but its own steps brings it to its spin or back |
| DispatchProgress.CalledSpins | packet_sender/dev/flexio_ps_dev_tnt1.c:14-26 | in any run a called worker spins after at most four steps of its own |
| DispatchProgress.SpinnerIsAnswered | packet_sender/dev/flexio_ps_dev_sch.c:209-211 | over runs, in every configuration: a worker that spins, on FREE or HANG, is spinning on HANG or past its spin at the latest when the first complete visit that begins afterwards ends |
| DispatchProgress.CalledAnswers | packet_sender/dev/flexio_ps_dev_sch.c:200-212 | over runs, in every configuration: a worker called with HANG, which it may overwrite with FREE, is released or past its spin once four steps of its own and then one complete visit have happened |
| DispatchProgress.ReleasedStays | packet_sender/dev/flexio_ps_dev_utils.c:204-209 | a worker spinning on HANG is never un-released: only its own step changes that, and that step passes the spin, or is the step to the spin that it must not skip |
| DispatchProgress.AnsweredRuns | packet_sender/dev/flexio_ps_dev_utils.c:204-209 | over runs, in every configuration: a released worker is past its spin after at most two steps of its own |
| DispatchProgress.ParkedWorkerRuns | packet_sender/dev/flexio_ps_dev_sch.c:200-212 | bounded progress end to end, also after re-entries of the scheduler: a worker on a numbered CQ that has spun on every activation so far, and whose visit loads OFF, gets exactly one interrupt from it and, four own steps, one later complete visit and two own steps on, has passed its spin, whatever else interleaves |
| DispatchProgress.SuchRunsExist | packet_sender/dev/flexio_ps_dev_sch.c:198-230 | from every state in which a visit to such a worker at OFF begins there are runs with all these parts |
| DispatchProgress.LostRuns | packet_sender/dev/flexio_ps_dev_tnt1.c:14-47 | in every configuration: a worker that has lost its wake-up has its CQ armed; the next completion there wakes it, and four own steps later at most it is past its spin |
| DispatchLimits.NeverLosesExactly | packet_sender/dev/flexio_ps_dev_sch.c:147-237 | for every configuration, of any size and mix, and every worker of it: no run loses a wake-up of that worker if and only if it spins on every activation, its CQ has a number, and its own scheduler is not entered again, whatever other schedulers do |
| DispatchLimits.HandshakeExactly | packet_sender/dev/flexio_ps_dev_tnt2.c:14-29 | for every configuration and worker: the status word tells where the worker is in every run if and only if it spins on every activation |
| DispatchLimits.SkippedSpinLoses | packet_sender/dev/flexio_ps_dev_tnt2.c:26-29 | in every configuration each worker that skips its later spins has a run that leaves it parked under HANG |
| DispatchLimits.ReentryLoses | packet_sender/dev/flexio_ps_dev_sch.c:188-195 | in every configuration each worker of a scheduler that may be entered again has a run in which its second activation stores HANG over the worker while it is parked |
| DispatchLimits.UnnumberedLoses | packet_sender/dev/flexio_ps_dev_sch.c:168-169 | in every configuration each worker whose CQ has no number has a run in which it is told to run and never woken |
| DispatchLimits.VisitsHappen | packet_sender/dev/flexio_ps_dev_sch.c:200-212 | in every configuration and for each worker, visits to it parked at OFF and spinning on FREE are reachable, and so is the middle of one that loaded OFF |
| Sender.QueuesAreRings | packet_sender/dev/flexio_ps_dev_tnt1.c:28-49 | in every run of the whole sender, every queue together with the worker of its number is a run of `RingProtocol` from its set-up on: all that schedulers and other workers do is a pause in it |
| Sender.DispatchIsARun | packet_sender/dev/flexio_ps_dev_sch.c:147-237 | schedulers and workers of such a run make a run of `Dispatch` |
| Sender.OneWorkerPerQueue | packet_sender/dev/flexio_ps_dev_sch.c:188-195 | in such a run a worker in its packet loop works on the queue of its own number, so a queue never has two |
| Sender.SenderForwards | packet_sender/dev/flexio_ps_dev_utils.c:51-101 | in such a run the n-th doorbell for a queue carries the n-th packet that queue received, from its own buffer and with its addresses exchanged, none skipped or repeated |
| Sender.PacketsAreMeasured | packet_sender/dev/flexio_ps_dev_tnt1.c:33-37 | every packet is measured once: the additions to a worker's counter keep in step with the packets consumed from its queue, one ahead between addition and `com_step_cq` in `flexio_pp_dev_1`, one behind between `com_step_cq` and addition in `flexio_pp_dev_2` |
| Sender.NeverStuck | packet_sender/dev/flexio_ps_dev_tnt1.c:14-47 | in such a run a worker that is not parked has a step to take: its own access or its handler's, so the two protocols do not block each other |
| Sender.SenderStarts | packet_sender/dev/flexio_ps_dev_utils.c:103-165 | in every configuration such runs exist |
| Accounting.SplitBudget | packet_sender/dev/flexio_ps_dev_sch.c:68-90 | in 64-bit words: usage cleared, targets zero without weight, otherwise they sum exactly to the budget and every target but the last is the floor of its share |
| Accounting.PrefixFits | packet_sender/dev/flexio_ps_dev_sch.c:80-87 | `remaining_cycles` never underflows |
| Accounting.LastTargetExcess | packet_sender/dev/flexio_ps_dev_sch.c:82-83 | the last target is at least its exact share and exceeds it by less than n-1 cycles |
| Accounting.NoOverflow | packet_sender/dev/flexio_ps_dev_sch.c:70-85 | for 32-bit weights neither the sum nor any product overflows 64 bits |
| Accounting.ChargeKeeps | packet_sender/dev/flexio_ps_dev_sch.c:219-221 | draining one more queue charges that queue's tenant and no other |
| Accounting.ChargesAddUp | packet_sender/dev/flexio_ps_dev_sch.c:214-222 | the charges add up to the drained cycles modulo `2^64`, and exactly while those fit the word |
| Accounting.Report | packet_sender/dev/flexio_ps_dev_sch.c:214-222 | each tenant gets the cycles of its own queues modulo `2^64`, their counters are cleared, no other is touched |
| Accounting.TotalsPartition | packet_sender/dev/flexio_ps_dev_sch.c:219-221 | the tenants' totals add up to the cycles of all queues |
| Accounting.Timeline | packet_sender/dev/flexio_ps_dev_sch.c:175-229 | the loop's reports are an interval apart from the first due time on, at most 15, and at no reading the loop makes is a report overdue |
| Accounting.NoReportMissed | packet_sender/dev/flexio_ps_dev_sch.c:196-227 | every reading the loop makes lies before the first due time or less than an interval after a report |
| Accounting.ReportsAreReadings | packet_sender/dev/flexio_ps_dev_sch.c:196-227 | every report is made at a reading of the loop, while the activation lasted at the reading before |
| Accounting.ReportsSpaced | packet_sender/dev/flexio_ps_dev_sch.c:213-227 | successive reports are at least an interval apart, and only the last may come after the activation's end |
| Accounting.AtMostFifteenReports | packet_sender/dev/flexio_ps_dev_sch.c:175-198 | one activation makes at most 15 reports on any monotone clock, although the clock is re-read after the loop test |
| Accounting.FifteenReportsHappen | packet_sender/dev/flexio_ps_dev_sch.c:175-198 | a clock for which there are exactly 15 |

## Where the code and its documentation differ

The model follows the code.

- packet_sender/README says the handler inserts text into the packet; the code only exchanges the addresses.
- The comment on `report_interval_cycles` (packet_sender/dev/flexio_ps_dev_sch.c:177) says 100 ms; the value is one second.
- `com_cq_poll` (common/dev/com_dev.c:184) is documented to return -1; its type is `uint8_t`, so it returns 255.
- The host (packet_sender/host/flexio_ps_host_main.c:150) starts every worker with `flexio_pp_dev_2` and no scheduler.
  Ownership, accounting and forwarding hold for such workers too. `NoLostWakeup`, `HandshakeStates` and the progress of
  visits hold for them until their second activation, which skips the spin; `NeverLosesExactly` and `HandshakeExactly`
  show that they can fail from there on.
- `prepare_send_packet` pairs the receive region's key with a transmit address; `SendPacketKeyCovers` and
  `SendPacketKeyNeverCovers` state what follows.

## Left out

- Host set-up, teardown and flow steering beyond the initial rings: calls into FlexIO, ibverbs and mlx5dv whose code is not part of this model.
- Wire-level completion of sends: the code reposts a buffer right after the doorbell and never polls the send queue's CQ, so claims about sent data hold at doorbell time.
- Weak memory, fences and writebacks: steps are sequentially consistent.
- `send_packet` running inside a `pp_queue` call on the same send queue: calls are taken one at a time.
- Contents of transmit buffers in `RingProtocol`: `send_packet` appears there by its descriptor; `SendQueue.SendPacket` has its memory.
- Clock and packet counts in `Dispatch`: a packet loop may end after any packet, which covers both workers' rules and makes the safety results stronger; the runs of `SkippedSpinLoses` and `HandshakeExactly` stand for loops of 1000000 packets.
- Arming at the start: `Dispatch.Initial` takes every worker's CQ as armed when the schedulers first run; the SDK's initial arming is not part of this model.
- `LOG_SQE_NUM_SEGS` comes from a header that is not part of this model; it is 2, as the four `get_next_sqe` calls per WQE and the `+= 4` require. The receive doorbell record counts modulo `2^16`.
- The template loop of `sch_ctx_init`: the same loop as `BuildTemplates`, once per queue.
- `process_packet`, `forward_packet`, `save_set_dstmac`, `get_swap_mac`, `change_status`: not called by the live handlers, or near-duplicates.
- The commented-out deficit round-robin loop, checksums, delays, `com_step_eq`, printing and windows.
- PacketPath.PacketRound: packets arrive between the turns of the loop, any number at a time; deliveries between two accesses of one turn are in `RingProtocol`. It ends when the given batches do, because the source's loop does not end before its round is full.
- Entering the packet loop in `Sender`: one step with the load of the tenant pointer; the queue is not touched in between.
- Accounting.Timeline: clock readings are monotone and do not wrap; `clock` is the finite list of readings made so far.
