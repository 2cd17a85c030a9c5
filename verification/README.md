# GaspiCxx in Dafny

GaspiCxx is a library of distributed collectives over one-sided "write and notify" communication.
This project models its collectives as state machines over that transport, for any number of ranks
and any interleaving of calls and deliveries, together with the allocator, the rendezvous, the
lifecycle and the serializer beneath them, and proves what they are for.

## The transport

`Transport` is shared by every collective. A posted write stays pending until a delivery, in any
order, copies the current contents of its source and raises the notification at its destination, so
a buffer that is changed too early breaks the result. Checking a notification tests and resets it. A
transfer of size zero is a bare notification. Endpoints made by copying are the same cell with
notifications of their own. In alltoallv a transfer names a part of a flat source buffer and a part
of a flat target buffer, and copies the elements that the source part holds when it is delivered.

## How a collective is modelled

Each collective has

- a machine: what each call does to one rank's own memory, notifications and counters, as functions,
  and the steps of all ranks and of the transport;
- an invariant, whose core is a balance: how often a message is under way equals how often it has
  been posted minus how often it has been consumed, both read off the positions of sender and
  receiver;
- theorems over every reachable state: the result, the absence of races, the absence of deadlock and
  a measure;
- a class with the fields of the source's object, whose methods update them in place, with the
  source's loops, and are proved to do what the machine's local steps do.

Ring allreduce, the barrier, alltoallv and the rendezvous are proved over any number of executions.
Recursive doubling, ring allgatherv and the two broadcasts are modelled for one execution: they
acknowledge, or finish, before the data has been consumed, so nothing keeps a second execution away
from the data of the first.

A rank acts atomically between two polls of the transport. Where a call polls more than once
(the fold step and the main step of recursive doubling, the polling loop of the send-to-all root, the
loops of the barrier and of alltoallv) each poll is a step of its own. That deliveries cannot
interfere inside a step is what the CallsDoNotRace lemmas are for.

| files | what they hold |
|---|---|
| Transport, Waiting, RingIndex, Bits, Reduction, PrefixSums, Buffers, Descriptions | transport, blocking waits, index and bit arithmetic, reduction operators, offsets, buffer copies |
| RingAllreduce, RingInvariant, RingCounts, RingContents, RingTheorems, AllreduceRing | ring allreduce |
| RecursiveDoubling, DoublingInvariant, DoublingTheorems, AllreduceDoubling | recursive-doubling allreduce |
| DisseminationBarrier, BarrierTheorems, Barrier | dissemination barrier |
| RingAllgatherv, AllgathervTheorems, AllgathervRing | ring allgatherv |
| Alltoallv, AlltoallvTheorems, AlltoallvProgress, BlockingAlltoallv | blocking alltoallv and allgatherv |
| LinearBroadcast, BroadcastBasicLinear, SendToAllBroadcast, BroadcastSendToAll | the two broadcasts |
| FreeList, MemoryManager, NotificationManager | the first-fit allocators |
| Rendezvous, RendezvousTheorems, Endpoint | tagged rendezvous, endpoints |
| Lifecycle, CollectiveLowLevel | the thread-safe lifecycle |
| Serialization, Serializer | serializer and deserializer |

## Where the code falls short of what one might expect

- The 16-bit rank formulas of the barrier are right exactly in groups of up to 32768 ranks
  (`Barrier.RankRange`).
- The element count of allgatherv is right exactly for totals below 2^31 and for the last 2^31 below
  2^64 (`AllgathervRing.OutputCountExact`).
- deallocate ignores address zero, so an allocation there cannot be undone
  (`MemoryManager.AllocateDeallocate`, `MemoryManager.AllocationAtZeroStays`).
- alltoallv does not check that sizes agree: a block smaller than its target leaves the rest of the
  target as it was, and one that is larger makes its sender throw, so that no rank that waits for it
  returns (`AlltoallvTheorems.CallsTranspose`, `AlltoallvTheorems.ThrowsExactly`,
  `AlltoallvProgress.SomeRunThrowsExactly`).
- The ring index formulas are right exactly while index - 1 + ring size is below 2^64
  (`RingIndex.DecrementIndexOnRing`).
- In the linear broadcast the root learns that the data has arrived exactly if there are two ranks
  (`LinearBroadcast.RootKnowsExactlyForTwo`).

## Model

| member | source | states |
|---|---|---|
| `Transport.ActMovement` | src/CommunicationContext.cpp:46-112 | What a call posts and consumes changes the number of messages under way by exactly that, message by message |
| `Transport.DeliverMovement` | src/CommunicationContext.cpp:46-112 | A delivery turns a pending message into a raised notification and changes the number under way of no message, if the notification was down and is used by no other message |
| `RingIndex.DecrementIndexOnRing` | src/group/Utilities.cpp:38-41 | For an index on the ring, the unsigned-word formula is the predecessor, the wrap of 0 - 1 included, if and only if the sum stays in the word |
| `RingIndex.IncrementIndexOnRing` | src/group/Utilities.cpp:28-31 | For an index on the ring, the unsigned-word formula is the successor; decrementing undoes it exactly if its own sum stays in the word |
| `RingIndex.OutsideRing` | src/group/Utilities.cpp:28-41 | An index beyond the ring is brought back into it, as long as the sums stay in the word |
| `RingTheorems.OutputIsRingFold` | include/GaspiCxx/collectives/non_blocking/collectives_lowlevel/AllreduceRing.hpp:167-309 | Main result. In any run of any number of ranks over any number of executions, element j of output k of every rank is x[c-1] op (x[c-2] op (... op x[c])) of the inputs to execution k, c being the chunk of j: no algebra assumed, so all ranks agree exactly |
| `RingTheorems.OutputIsReduction` | include/GaspiCxx/collectives/non_blocking/collectives_lowlevel/AllreduceRing.hpp:167-309 | With an associative and commutative operator, the same element is the reduction of all ranks' inputs from one fixed starting point, for every chunk |
| `RingTheorems.Covered` | include/GaspiCxx/collectives/non_blocking/collectives_lowlevel/AllreduceRing.hpp:118-119 | With chunks of ceil(n/p) elements every element lies in exactly the chunk and place the copy loops give it, and the p chunks together hold all n |
| `RingTheorems.CeilDiv` | include/GaspiCxx/collectives/non_blocking/collectives_lowlevel/AllreduceRing.hpp:118-118 | The chunk length is the least one with which p chunks hold all elements |
| `RingTheorems.CallsDoNotRace` | include/GaspiCxx/collectives/non_blocking/collectives_lowlevel/AllreduceRing.hpp:129-134 | No cell that copyIn, a reduction, or copyOut reads or writes at its next call is the source or the target of a pending transfer, in any round |
| `RingTheorems.DeliveriesDoNotRace` | include/GaspiCxx/collectives/non_blocking/collectives_lowlevel/AllreduceRing.hpp:129-134 | No two pending writes have the same target cell, and no pending write overwrites the source of another one, the in-place gather included |
| `RingTheorems.NoOverrun` | include/GaspiCxx/collectives/non_blocking/collectives_lowlevel/AllreduceRing.hpp:185-205 | A notification is posted only once before it is consumed, and is down while its transfer is pending: the one ack per execution is enough |
| `RingTheorems.NoDeadlock` | include/GaspiCxx/collectives/non_blocking/collectives_lowlevel/AllreduceRing.hpp:179-240 | As long as every rank has started execution k and some rank has not finished it, a delivery or the triggerProgress of some running rank changes the state, even where other ranks have finished it or gone on to later executions |
| `RingTheorems.ClockAdvances` | include/GaspiCxx/collectives/non_blocking/collectives_lowlevel/AllreduceRing.hpp:179-240 | Start and every productive triggerProgress advance the clock of their rank by exactly one, 2p ticks per execution: 2(p-1) receive steps and the ack step after the start |
| `RingTheorems.MeasureDecreases` | include/GaspiCxx/collectives/non_blocking/collectives_lowlevel/AllreduceRing.hpp:179-240 | Every delivery, start and productive call decreases a measure that the other calls leave alone |
| `RingTheorems.MeasureBounded` | include/GaspiCxx/collectives/non_blocking/collectives_lowlevel/AllreduceRing.hpp:179-240 | That measure is not negative while no rank is past a given number of executions, so only finitely many steps fit |
| `RingTheorems.ReachableInv` | include/GaspiCxx/collectives/non_blocking/collectives_lowlevel/AllreduceRing.hpp:99-309 | The invariant of all transfer counts and buffer contents holds in every reachable state |
| `RingInvariant.Chain` | include/GaspiCxx/collectives/non_blocking/collectives_lowlevel/AllreduceRing.hpp:185-240 | If a message is n hops behind another one on the way round the ring, the later one has been sent only after the earlier one was received |
| `RingInvariant.AtMostOnce` | include/GaspiCxx/collectives/non_blocking/collectives_lowlevel/AllreduceRing.hpp:185-240 | No reduce or gather message is under way twice |
| `RingInvariant.ReduceInFlight` | include/GaspiCxx/collectives/non_blocking/collectives_lowlevel/AllreduceRing.hpp:211-223 | While a reduce transfer is under way its sender runs in that round, and no gather write into the memory it is sent from is under way |
| `RingInvariant.GatherInFlight` | include/GaspiCxx/collectives/non_blocking/collectives_lowlevel/AllreduceRing.hpp:224-234 | While a gather write is under way its sender runs in the same round, past the send and before the step that would overwrite the chunk |
| `RingInvariant.GatherAlone` | include/GaspiCxx/collectives/non_blocking/collectives_lowlevel/AllreduceRing.hpp:129-134 | While a gather write into a chunk is under way, no transfer out of that same memory is |
| `RingCounts.TriggerCounts` | include/GaspiCxx/collectives/non_blocking/collectives_lowlevel/AllreduceRing.hpp:179-240 | Every triggerProgress keeps sent minus received equal to under way, for every message of the ring |
| `RingCounts.DeliverCounts` | include/GaspiCxx/collectives/non_blocking/collectives_lowlevel/AllreduceRing.hpp:185-240 | So does every delivery |
| `RingContents.ReduceCell` | include/GaspiCxx/collectives/non_blocking/collectives_lowlevel/AllreduceRing.hpp:213-213 | The reduction of a chunk takes the partial fold of d ranks to the one of d+1 ranks, local operand first |
| `RingContents.CopyOutResult` | include/GaspiCxx/collectives/non_blocking/collectives_lowlevel/AllreduceRing.hpp:276-309 | What copyOut of a finished rank collects is the result of the execution just finished |
| `RingContents.TriggerContents` | include/GaspiCxx/collectives/non_blocking/collectives_lowlevel/AllreduceRing.hpp:179-240 | triggerProgress keeps every chunk buffer equal to the partial or full fold its position calls for |
| `RingContents.DeliverContents` | include/GaspiCxx/collectives/non_blocking/collectives_lowlevel/AllreduceRing.hpp:185-240 | So does every delivery, the in-place gather writes included |
| `AllreduceRing.Ring.constructor` | include/GaspiCxx/collectives/non_blocking/collectives_lowlevel/AllreduceRing.hpp:100-156 | Builds the chunk buffers so that the gather source and target of a chunk are the memory of its reduce source, and all other buffers are different |
| `AllreduceRing.Ring.StartImpl` | include/GaspiCxx/collectives/non_blocking/collectives_lowlevel/AllreduceRing.hpp:168-177 | Does to the object what the start step of the machine does, and nothing with no elements or one rank |
| `AllreduceRing.Ring.TriggerProgressImpl` | include/GaspiCxx/collectives/non_blocking/collectives_lowlevel/AllreduceRing.hpp:180-240 | Updates buffers, counters, notifications and posted transfers exactly as one trigger step of the machine, in every branch |
| `AllreduceRing.Ring.CopyInImpl` | include/GaspiCxx/collectives/non_blocking/collectives_lowlevel/AllreduceRing.hpp:243-274 | The loop with its early break fills the chunks with consecutive elements and leaves the padding alone |
| `AllreduceRing.Ring.CopyOutImpl` | include/GaspiCxx/collectives/non_blocking/collectives_lowlevel/AllreduceRing.hpp:277-309 | The loop with its early break collects the live part of every chunk in order |
| `Reduction.ApplyReduceOp` | include/GaspiCxx/collectives/non_blocking/collectives_lowlevel/AllreduceCommon.hpp:76-101 | The source buffer is overwritten in place by op(local, received), element by element, in that operand order |
| `DoublingTheorems.OutputIsReduction` | include/GaspiCxx/collectives/non_blocking/collectives_lowlevel/AllreduceRecursiveDoubling.hpp:283-424 | Main result. In any run of any number of ranks, power of two or not, the output of every finished rank, folded-out odd ranks included, is the value of a bracketing that contains every rank's input exactly once |
| `DoublingTheorems.RanksAgree` | include/GaspiCxx/collectives/non_blocking/collectives_lowlevel/AllreduceRecursiveDoubling.hpp:283-424 | With a commutative operator all finished ranks hold the same output |
| `DoublingTheorems.OutputIsRankFold` | include/GaspiCxx/collectives/non_blocking/collectives_lowlevel/AllreduceRecursiveDoubling.hpp:283-424 | With an associative and commutative operator it is the fold over the ranks in rank order |
| `DoublingTheorems.PlanIsBlock` | include/GaspiCxx/collectives/non_blocking/collectives_lowlevel/AllreduceRecursiveDoubling.hpp:229-245 | After i iterations the contributions of a rank are exactly the aligned block of 2^i relabelled ranks around it, each original rank once |
| `DoublingTheorems.ValueIsPlan` | include/GaspiCxx/collectives/non_blocking/collectives_lowlevel/AllreduceRecursiveDoubling.hpp:364-364 | The buffer contents follow that bracketing element by element |
| `DoublingTheorems.CallsDoNotRace` | include/GaspiCxx/collectives/non_blocking/collectives_lowlevel/AllreduceRecursiveDoubling.hpp:353-371 | No cell that the next call of a rank reads or writes is the source or target of a pending transfer: the shared source never changes between initTransfer and delivery |
| `DoublingTheorems.DeliveriesDoNotRace` | include/GaspiCxx/collectives/non_blocking/collectives_lowlevel/AllreduceRecursiveDoubling.hpp:225-226 | No pending write has the target of another one or overwrites the source of another one |
| `DoublingTheorems.NoDeadlock` | include/GaspiCxx/collectives/non_blocking/collectives_lowlevel/AllreduceRecursiveDoubling.hpp:302-384 | When all ranks have started and some has not finished, a delivery is possible or some call makes progress |
| `DoublingTheorems.MeasureDecreases` | include/GaspiCxx/collectives/non_blocking/collectives_lowlevel/AllreduceRecursiveDoubling.hpp:302-384 | Every step that changes the state decreases a natural-number measure |
| `RecursiveDoubling.RelabelBijection` | include/GaspiCxx/collectives/non_blocking/collectives_lowlevel/AllreduceRecursiveDoubling.hpp:232-237 | Relabelling is a bijection from the active ranks onto [0, 2^floor(log2 p)) |
| `RecursiveDoubling.NeighborPairs` | include/GaspiCxx/collectives/non_blocking/collectives_lowlevel/AllreduceRecursiveDoubling.hpp:231-237 | At every iteration the neighbours form pairs of distinct active ranks |
| `DoublingInvariant.NotRaised` | include/GaspiCxx/collectives/non_blocking/collectives_lowlevel/AllreduceRecursiveDoubling.hpp:302-384 | Nothing is posted twice, and no notification is raised while it is still raised |
| `DoublingInvariant.MainCounts` | include/GaspiCxx/collectives/non_blocking/collectives_lowlevel/AllreduceRecursiveDoubling.hpp:319-384 | Every call keeps each transfer balanced against the progress of its sender and its receiver |
| `DoublingInvariant.DeliverCounts` | include/GaspiCxx/collectives/non_blocking/collectives_lowlevel/AllreduceRecursiveDoubling.hpp:340-351 | So does every delivery |
| `DoublingTheorems.ReduceSource` | include/GaspiCxx/collectives/non_blocking/collectives_lowlevel/AllreduceRecursiveDoubling.hpp:364-364 | A reduction takes the value of i iterations to that of i+1 iterations |
| `Bits.XorPow2IsFlip` | include/GaspiCxx/collectives/non_blocking/collectives_lowlevel/AllreduceRecursiveDoubling.hpp:231-234 | Exclusive or with 2^i inverts bit i and no other |
| `Bits.FlipInvolution` | include/GaspiCxx/collectives/non_blocking/collectives_lowlevel/AllreduceRecursiveDoubling.hpp:234-234 | Inverting a bit twice gives the number back, and once never does |
| `Bits.FlipBound` | include/GaspiCxx/collectives/non_blocking/collectives_lowlevel/AllreduceRecursiveDoubling.hpp:234-234 | Inverting a bit below k keeps a number below 2^k |
| `AllreduceDoubling.NearestPowerOfTwoLessEqual` | include/GaspiCxx/collectives/non_blocking/collectives_lowlevel/AllreduceRecursiveDoubling.hpp:204-205 | The largest power of two up to its argument |
| `AllreduceDoubling.Doubling.Partners` | include/GaspiCxx/collectives/non_blocking/collectives_lowlevel/AllreduceRecursiveDoubling.hpp:229-244 | The loop computes the neighbour of every iteration |
| `AllreduceDoubling.Doubling.constructor` | include/GaspiCxx/collectives/non_blocking/collectives_lowlevel/AllreduceRecursiveDoubling.hpp:198-272 | Sizes, iteration count, neighbours and the sharing of the source memory are as the algorithm needs them |
| `AllreduceDoubling.Doubling.StartImpl` | include/GaspiCxx/collectives/non_blocking/collectives_lowlevel/AllreduceRecursiveDoubling.hpp:284-299 | Does what the start step of the machine does |
| `AllreduceDoubling.Doubling.TriggerProgressImpl` | include/GaspiCxx/collectives/non_blocking/collectives_lowlevel/AllreduceRecursiveDoubling.hpp:302-384 | Does what the call of the machine does, in every branch; it returns true in the final step only, to an odd rank exactly when it takes the result and acknowledges it, to an even rank exactly when it takes that ack |
| `AllreduceDoubling.CallIsMachine` | include/GaspiCxx/collectives/non_blocking/collectives_lowlevel/AllreduceRecursiveDoubling.hpp:302-384 | In any state of the machine, a call is the main step of that rank, or the fold step of an even rank in its initial step, followed by the main step if it has been taken on |
| `AllreduceDoubling.Doubling.CopyInImpl` | include/GaspiCxx/collectives/non_blocking/collectives_lowlevel/AllreduceRecursiveDoubling.hpp:387-404 | Puts the input where an active, or a folded-out, rank sends from |
| `AllreduceDoubling.Doubling.CopyOutImpl` | include/GaspiCxx/collectives/non_blocking/collectives_lowlevel/AllreduceRecursiveDoubling.hpp:407-424 | Takes the output from where an active, or a folded-out, rank has it |
| `BarrierTheorems.Safety` | src/collectives/Barrier.cpp:61-70 | Main result. Over any number of episodes and any interleaving, when a rank has returned from its k-th execute every rank has entered its k-th execute |
| `BarrierTheorems.CountsDifferByOne` | src/collectives/Barrier.cpp:61-70 | So the counts of completed executes never differ by more than one |
| `BarrierTheorems.KnownPredecessors` | src/collectives/Barrier.cpp:61-70 | A rank that has received the signal of step i knows of the 2^(i+1) ranks that end at itself: the doubling behind the safety |
| `BarrierTheorems.AtMostOneInFlight` | src/collectives/Barrier.cpp:61-70 | Each data or ack notification is consumed before the next of its kind is posted |
| `BarrierTheorems.NoDeadlock` | src/collectives/Barrier.cpp:61-70 | As long as every rank has entered its k-th execute and some rank has not returned from it, something can move |
| `BarrierTheorems.MeasureDecreases` | src/collectives/Barrier.cpp:61-70 | Without a new call of execute only finitely many productive steps are possible |
| `BarrierTheorems.WaitsForOneBehind` | src/collectives/Barrier.cpp:61-70 | A stuck rank waits for a rank that is behind it |
| `DisseminationBarrier.PartnersInverse` | src/collectives/Barrier.cpp:37-47 | Targets and sources of a step are inverse permutations, and no rank signals itself |
| `Barrier.RankRange` | src/group/Rank.cpp:77-106 | The 16-bit rank formulas give rank plus and minus 2^i modulo p for all ranks and steps if and only if p is at most 32768 (for 2 <= p < 65536) |
| `Bits.CeilLog2` | src/collectives/Barrier.cpp:17-17 | The number of steps is the least one with 2^steps >= p |
| `Barrier.Barrier.Partners` | src/collectives/Barrier.cpp:37-47 | The loop of the constructor computes the partners of every step |
| `Barrier.Barrier.constructor` | src/collectives/Barrier.cpp:15-59 | A new barrier has its partners and has posted nothing |
| `Barrier.Barrier.ExecuteStep` | src/collectives/Barrier.cpp:65-68 | One pass of the loop is the four actions of the machine in their order, each posting what the machine posts; it completes exactly if both notifications come, or stops at the first of them that does not |
| `Barrier.Barrier.Execute` | src/collectives/Barrier.cpp:61-70 | execute returns if and only if the data and the ack of every step are raised or arrive; message 2i goes to the rank 2^i ahead and message 2i + 1, the ack, to the rank 2^i behind, in order; otherwise it is left at the first wait that does not end, with exactly the messages before it posted. What it consumes and leaves over is fixed |
| `Barrier.PostedGrows` | src/collectives/Barrier.cpp:65-68 | Each action of the machine adds exactly its own posts to what a rank has posted since it entered |
| `Barrier.ExecuteReturns` | src/collectives/Barrier.cpp:61-70 | The waits of an execute all end if and only if both notifications of every step are raised or arrive, in whatever order |
| `Barrier.Barrier.WaitFor` | src/CommunicationContext.cpp:83-112 | Waiting ends if and only if the notification is raised or arrives, resets it, and leaves the rest of what is raised and of what arrives as AfterWait says |
| `Waiting.WaitOutcome` | src/CommunicationContext.cpp:83-112 | A wait consumes its own notification, exactly if it comes, and loses no other one |
| `Waiting.AllCome` | src/CommunicationContext.cpp:83-112 | Waits for different notifications, one after the other, all end if and only if each of them comes, whatever the order, and lose no other one |
| `AllgathervTheorems.OutputIsConcatenation` | include/GaspiCxx/collectives/non_blocking/collectives_lowlevel/AllgathervRing.hpp:156-210 | Main result. In any run of one execution, with any counts including zeros, the output of every finished rank is the concatenation of all inputs in rank order |
| `AllgathervTheorems.ForwardedCellIsStable` | include/GaspiCxx/collectives/non_blocking/collectives_lowlevel/AllgathervRing.hpp:98-98 | No buffer that is being forwarded is overwritten, and no cell has two pending writes |
| `AllgathervTheorems.NoDeadlock` | include/GaspiCxx/collectives/non_blocking/collectives_lowlevel/AllgathervRing.hpp:157-180 | When all ranks have started, a delivery is possible, a call makes progress, or all have finished |
| `AllgathervTheorems.CallsClimb` | include/GaspiCxx/collectives/non_blocking/collectives_lowlevel/AllgathervRing.hpp:157-180 | Every productive call moves its rank exactly one level on: p - 1 receive steps and the ack step |
| `AllgathervTheorems.MeasureDecreases` | include/GaspiCxx/collectives/non_blocking/collectives_lowlevel/AllgathervRing.hpp:157-180 | Every step that changes the state decreases a natural-number measure |
| `AllgathervTheorems.SourceHolds` | include/GaspiCxx/collectives/non_blocking/collectives_lowlevel/AllgathervRing.hpp:177-177 | A pending transfer copies the input of the rank whose data it carries |
| `RingAllgatherv.SizesMatch` | include/GaspiCxx/collectives/non_blocking/collectives_lowlevel/AllgathervRing.hpp:87-100 | The two ends of every connection have the size of the same rank's input |
| `AllgathervRing.Allgatherv.constructor` | include/GaspiCxx/collectives/non_blocking/collectives_lowlevel/AllgathervRing.hpp:71-116 | Builds targets of the right sizes; source i > 0 is the memory of target i - 1 |
| `AllgathervRing.Allgatherv.StartImpl` | include/GaspiCxx/collectives/non_blocking/collectives_lowlevel/AllgathervRing.hpp:128-135 | Does what the start step of the machine does |
| `AllgathervRing.Allgatherv.InitTransfer` | src/RoundRobinQueuesContext.cpp:90-94 | Posts a write, or a bare notification when there is nothing to send |
| `AllgathervRing.Allgatherv.TriggerProgressImpl` | include/GaspiCxx/collectives/non_blocking/collectives_lowlevel/AllgathervRing.hpp:157-180 | Does what the trigger step of the machine does, in every branch |
| `AllgathervRing.Allgatherv.CopyInImpl` | include/GaspiCxx/collectives/non_blocking/collectives_lowlevel/AllgathervRing.hpp:138-154 | Puts the input into the first source buffer |
| `AllgathervRing.Allgatherv.CopyOutImpl` | include/GaspiCxx/collectives/non_blocking/collectives_lowlevel/AllgathervRing.hpp:183-210 | The loop that walks the ring backwards leaves every rank's piece at its offset, and all pieces together are the output |
| `AllgathervRing.OutputCountExact` | src/collectives/non_blocking/collectives_lowlevel/AllgathervCommon.cpp:35-35 | The total, summed in an int and converted back, is the sum of the counts if and only if that sum is below 2^31, or below 2^64 by at most 2^31 |
| `PrefixSums.Offsets` | src/collectives/non_blocking/collectives_lowlevel/AllgathervCommon.cpp:37-39 | The partial sums are the offsets of the pieces |
| `AlltoallvTheorems.CallsTranspose` | src/collectives/Alltoall.cpp:179-327 | Main result. In any run of any number of calls, at the return of a rank's k-th alltoallv, elements Sum(targetSizes, j) to Sum(targetSizes, j + 1) of its target are rank j's source block for it, at its own prefix-sum offset, if and only if the sizes passed at the two ends agree |
| `AlltoallvTheorems.CallsDeliver` | src/collectives/Alltoall.cpp:293-295 | Whatever the sizes, at the return of a call every block fits, each target block begins with the block its sender passed, and the rest of it is what the target held before |
| `AlltoallvTheorems.ThrowsExactly` | src/RoundRobinQueuesContext.cpp:100-104 | Once it has the description for a write, a rank has thrown at that write if and only if the block is larger than the described target, and has gone past it otherwise |
| `AlltoallvProgress.SomeRunThrowsExactly` | src/RoundRobinQueuesContext.cpp:100-104 | For any number of ranks and calls: some run has a rank that throws in one of its first k calls if and only if, in one of these calls, some block is larger than the target described for it |
| `AlltoallvProgress.MeasureDecreases` | src/collectives/Alltoall.cpp:179-327 | While no rank goes beyond k calls, every step that changes the state lowers a natural number: k calls take only finitely many steps in any order |
| `AlltoallvProgress.StoppedExactly` | src/collectives/Alltoall.cpp:281-323 | Where a run of k calls can go no further, some rank has thrown if and only if some block of these calls is too large, and if none has, every rank has returned from all k calls |
| `AlltoallvProgress.CallsComplete` | src/collectives/Alltoall.cpp:179-327 | If all blocks of k calls fit, every run of at most k calls leads on to one in which all ranks have returned from all of them |
| `AlltoallvTheorems.SpliceSlice` | src/collectives/Alltoall.cpp:245-250 | Writing a block at its prefix-sum offset changes that block of the buffer and no other |
| `AlltoallvTheorems.NothingPendingOutside` | src/collectives/Alltoall.cpp:303-313 | A rank that has returned has no transfer pending out of its source or into its target, in any round |
| `AlltoallvTheorems.NoDeadlock` | src/collectives/Alltoall.cpp:281-323 | As long as every rank has begun its k-th call and some rank has not returned from it, something can move, unless some rank has thrown because its block was too large: blocks that fit never leave a call stuck |
| `AlltoallvTheorems.Order` | src/collectives/Alltoall.cpp:281-323 | i's k-th return follows j's k-th ack, which follows the arrival of i's k-th block, which follows j's k-th description for i |
| `AlltoallvTheorems.NoOverrun` | src/collectives/Alltoall.cpp:281-323 | No notification is posted again before it is consumed |
| `AlltoallvTheorems.DescriptionOnItsWay` | src/collectives/Alltoall.cpp:258-260 | A description under way holds the offset and size that its receiver needs in its current call |
| `AlltoallvTheorems.BlockOnItsWay` | src/collectives/Alltoall.cpp:293-295 | A block under way fits its target part, still stands in the source part it leaves, and belongs to the call its receiver is in, which has not collected it |
| `AlltoallvTheorems.Allgatherv` | src/collectives/Allgather.cpp:177-319 | When every rank passes its whole source buffer to everyone and all agree on the counts, the target buffer at the return is the concatenation of all source buffers in rank order |
| `BlockingAlltoallv.DescribeBlocks` | src/collectives/Alltoall.cpp:206-250 | The running offsets are the prefix sums of the sizes |
| `PrefixSums.BlocksApart` | src/collectives/Alltoall.cpp:225-250 | The blocks follow one another without overlap inside the buffer |
| `BlockingAlltoallv.Caller.PostDescriptions` | src/collectives/Alltoall.cpp:209-279 | The first loop offers one description to every rank and asks every rank for one, in order, each pass two actions of the machine; each offered description stands in the send buffer for its rank |
| `BlockingAlltoallv.Caller.WriteBlock` | src/RoundRobinQueuesContext.cpp:84-106 | A block of no elements is a bare notification, a block larger than the target is refused, any other one is written from its source offset to the described offset |
| `BlockingAlltoallv.Caller.ExchangePass` | src/collectives/Alltoall.cpp:285-295 | Waits for rank i's description and does with it what the exchange step of the machine does: it writes the block if it fits and throws otherwise; no buffer changes but those that descriptions arrive in |
| `BlockingAlltoallv.Caller.CollectPass` | src/collectives/Alltoall.cpp:303-308 | Waits for rank i's block and acknowledges it, as the machine's step does; no buffer changes but those that descriptions arrive in |
| `BlockingAlltoallv.Caller.FinishPass` | src/collectives/Alltoall.cpp:315-322 | Waits for rank i's ack and for the own description to have left, as the machine's steps do; no buffer changes but those that descriptions arrive in |
| `BlockingAlltoallv.WaitsEnd` | src/collectives/Alltoall.cpp:281-323 | The first n waits of a call all end if and only if their notifications are raised or arrive, in whatever order |
| `BlockingAlltoallv.Caller.Call` | src/collectives/Alltoall.cpp:180-327 | A call is over if and only if all notifications it waits for, up to the first block that does not fit, are raised or arrive; it throws at that block, or else returns after writing one block to every rank and then acknowledging one of every rank, in order; a waiting call has posted exactly what comes before the wait. It offers one description to every rank, asks for one of every rank, and changes neither its source nor its target, where blocks land by delivery alone |
| `BlockingAlltoallv.SoFarIs` | src/collectives/Alltoall.cpp:281-308 | What a rank has posted at any point of a call, message by message: its blocks in rank order, then its acks |
| `MemoryManager.RunRefines` | src/segment/MemoryManager.cpp:60-165 | Main result. After any sequence of calls, failing ones included, the blocks tile the arena with no two free ones touching, and every reply is the one of the allocator on sets of live extents |
| `MemoryManager.AbstractDeterministic` | src/segment/MemoryManager.cpp:60-165 | That abstract allocator leaves no choice of reply or of live set |
| `FreeList.AllocateLowest` | src/segment/MemoryManager.cpp:70-98 | Allocation succeeds if and only if some contiguous free run is long enough, and returns the lowest such run |
| `MemoryManager.CanAllocateExact` | src/segment/MemoryManager.cpp:103-118 | canAllocate(n) holds exactly if allocate(n) succeeds, exactly if a free run of n units exists |
| `FreeList.CanonicalForm` | src/segment/MemoryManager.cpp:75-92 | The block list is determined by the arena and the set of live allocations |
| `FreeList.AllReleased` | src/segment/MemoryManager.cpp:139-159 | Nothing is live if and only if one free block of the full size is left |
| `FreeList.ReleaseCommutes` | src/segment/MemoryManager.cpp:139-159 | The order in which two allocations are released does not matter |
| `MemoryManager.AllocateDeallocate` | src/segment/MemoryManager.cpp:126-128 | Deallocating what allocate returned restores the exact list if and only if the address is not zero (or the size was) |
| `MemoryManager.AllocationAtZeroStays` | src/segment/MemoryManager.cpp:126-128 | The failing case: in an arena at address zero, four units are allocated there and deallocating them changes nothing |
| `MemoryManager.LiveDisjoint` | src/segment/MemoryManager.cpp:75-92 | Live allocations lie in the arena and do not overlap |
| `FreeList.CarveValid` | src/segment/MemoryManager.cpp:75-92 | Taking the front of a free block keeps the invariant and adds exactly one live allocation |
| `FreeList.ReleaseValid` | src/segment/MemoryManager.cpp:139-159 | Merging on release keeps the invariant and removes exactly one live allocation |
| `FreeList.FindRefines` | src/segment/MemoryManager.cpp:131-138 | A search by address finds a block exactly where a live allocation or a maximal gap of that size starts |
| `MemoryManager.DeallocateRefines` | src/segment/MemoryManager.cpp:122-165 | A wrong size, an unknown address and a free block give the errors, and the no-op, of the code |
| `MemoryManager.MemoryManager.Allocate` | src/segment/MemoryManager.cpp:62-99 | The loop that splits a block in place does what the abstract allocator allows: the lowest free run becomes live; on failure there is none and nothing changes |
| `MemoryManager.MemoryManager.CanAllocate` | src/segment/MemoryManager.cpp:103-118 | The scan answers whether a free run of that length exists |
| `MemoryManager.MemoryManager.Deallocate` | src/segment/MemoryManager.cpp:122-165 | The loop that merges and erases in place does what the abstract allocator allows |
| `NotificationManager.RunRefines` | src/segment/NotificationManager.cpp:48-128 | The same main result for notification ids, where empty requests are errors and ids are released by start alone |
| `NotificationManager.AllocateDeallocate` | src/segment/NotificationManager.cpp:51-128 | Releasing what allocate returned restores the exact list, id zero included |
| `NotificationManager.NotificationManager.Allocate` | src/segment/NotificationManager.cpp:50-87 | The loop does what the abstract allocator of ids allows |
| `NotificationManager.NotificationManager.Deallocate` | src/segment/NotificationManager.cpp:91-128 | So does the release loop |
| `RendezvousTheorems.HandleHoldsPartner` | src/singlesided/Endpoint.cpp:187-263 | Main result. In any run of any endpoints connecting any number of times, the k-th completed connect of an endpoint holds the local description that its one partner (complementary role, same tag) sent out in its own k-th connect |
| `RendezvousTheorems.KeysNeverShared` | src/passive/Passive.cpp:675-779 | On every process the pending offers and requests never share a key, and no key is ever inserted twice |
| `RendezvousTheorems.PostedIsMatchedPlusPending` | src/passive/Passive.cpp:675-779 | What is offered minus what waits equals what is asked for minus what waits or is on its way, for every pair of partners |
| `RendezvousTheorems.AtMostOneOutstanding` | src/passive/Passive.cpp:675-779 | Matched lies between done and posted, and posted is at most one ahead of done, on both sides |
| `RendezvousTheorems.NoDeadlock` | src/singlesided/Endpoint.cpp:50-67 | While an endpoint is connecting and its partner has posted its part, something other than a new connect can happen |
| `RendezvousTheorems.SrcEffect` | src/passive/Passive.cpp:675-727 | An offer meets exactly the request of its partner, if that waits, and waits itself otherwise |
| `RendezvousTheorems.RcvEffect` | src/passive/Passive.cpp:729-779 | A request meets exactly the offer of its partner, if that waits, and waits itself otherwise |
| `RendezvousTheorems.OfferedDescription` | src/passive/Passive.cpp:693-702 | The description handed over at a match is the one the requester has to learn next |
| `Rendezvous.TagsMeet` | src/singlesided/Endpoint.cpp:206-233 | The tag of an offer equals the tag of a request exactly for equal tags and complementary roles |
| `Endpoint.Passive.HandleTaggedSrcBufferDesc` | src/passive/Passive.cpp:675-727 | The map is searched, erased from or inserted into as specified; if the request of the partner waits, exactly one write is made, from the offered buffer into the requested one, and the owner of the offered one is told once; otherwise nothing is communicated; a duplicate is reported |
| `Endpoint.Passive.HandleTaggedRcvBufferDesc` | src/passive/Passive.cpp:729-779 | The same for requests, with the offer that waits |
| `Endpoint.Passive.IRecvTagMessg` | src/passive/Passive.cpp:302-347 | A request to the own process is handled at once, with the write and the notification it leads to, another one is sent to its process |
| `Endpoint.Passive.ReceiveRequest` | src/passive/Passive.cpp:471-493 | The passive thread handles a received request under the sender's rank, with the write and the notification it leads to |
| `Endpoint.ExchangeKeepsOrder` | src/passive/Passive.cpp:349-368 | In the log of writes, flushes and notifications, every notification of a source follows a write out of that source and a flush between the two; the methods of the passive service keep this |
| `Endpoint.OperationsAre` | src/passive/Passive.cpp:349-368 | A match adds exactly one write, from the offer's buffer into the request's, and exactly one notification, of the offer's owner, after that write and a flush; any other reply adds nothing |
| `Endpoint.HandlersSimulate` | src/passive/Passive.cpp:675-779 | With the buffers of the endpoints in place of the endpoints, the maps and replies of the passive service are those of the machine |
| `Endpoint.OperationsCommunicate` | src/passive/Passive.cpp:349-368 | At a match of the machine, the operations carried out send exactly the description, to exactly the endpoint, and exactly the news that the offer has left, that the machine does |
| `Endpoint.Endpoint.ConnectToRemotePartner` | src/singlesided/Endpoint.cpp:187-263 | Rejects ranks outside the group and tags out of bounds without side effects; otherwise offers and asks under the two tags of its role, carries out exactly the matches that these two meet, writing the offer into the buffer of the request it meets, and fails exactly at a duplicate |
| `Endpoint.ConnectHandle.WaitForCompletion` | src/singlesided/Endpoint.cpp:48-67 | The endpoint is connected to the description its partner serialized as soon as that arrives, and not before; the call ends if and only if that and the departure of the own description come |
| `Endpoint.Copy` | src/singlesided/Endpoint.cpp:159-170 | A copy shares the memory, has a notification id of its own, which its description carries, and is not connected |
| `Lifecycle.CallsFollowLifecycle` | src/collectives/non_blocking/collectives_lowlevel/CollectiveLowLevel.cpp:31-111 | Main result. Under any number of threads the finished Impl calls are setup (copyIn start progress* copyOut)*, cut off where the state says |
| `Lifecycle.ImplsExclude` | src/collectives/non_blocking/collectives_lowlevel/CollectiveLowLevel.cpp:33-94 | Impl calls never overlap |
| `Lifecycle.CompletionAnnouncedOnce` | src/collectives/non_blocking/collectives_lowlevel/CollectiveLowLevel.cpp:68-111 | Every completed execution is announced by exactly one triggerProgress that returns true, and by at most one waitForCompletion |
| `Lifecycle.HolderMoves` | src/collectives/non_blocking/collectives_lowlevel/CollectiveLowLevel.cpp:31-96 | Whoever holds the mutex can go on |
| `CollectiveLowLevel.MethodsAreMachine` | src/collectives/non_blocking/collectives_lowlevel/CollectiveLowLevel.cpp:31-96 | What a call does in the machine, to state and trace, is what the method of the object does, for each of the five |
| `CollectiveLowLevel.Collective.WaitForSetup` | src/collectives/non_blocking/collectives_lowlevel/CollectiveLowLevel.cpp:31-41 | One Impl call in the required state, an error and no change in any other |
| `CollectiveLowLevel.Collective.CopyIn` | src/collectives/non_blocking/collectives_lowlevel/CollectiveLowLevel.cpp:43-53 | The same for copyIn |
| `CollectiveLowLevel.Collective.Start` | src/collectives/non_blocking/collectives_lowlevel/CollectiveLowLevel.cpp:55-66 | The same for start |
| `CollectiveLowLevel.Collective.CopyOut` | src/collectives/non_blocking/collectives_lowlevel/CollectiveLowLevel.cpp:86-96 | The same for copyOut |
| `CollectiveLowLevel.Collective.TriggerProgress` | src/collectives/non_blocking/collectives_lowlevel/CollectiveLowLevel.cpp:68-84 | Calls the Impl exactly if the try-lock succeeds in the running state, and returns true exactly if that call completes the collective |
| `CollectiveLowLevel.Collective.WaitForCompletion` | src/collectives/non_blocking/collectives_lowlevel/CollectiveLowLevel.cpp:103-111 | Returns true exactly if it was running and one of its own attempts completed the collective |
| `LinearBroadcast.FinishedHoldsInput` | include/GaspiCxx/collectives/non_blocking/collectives_lowlevel/BroadcastBasicLinear.hpp:150-199 | Every rank that has finished holds the root's input |
| `LinearBroadcast.OrderOfArrival` | include/GaspiCxx/collectives/non_blocking/collectives_lowlevel/BroadcastBasicLinear.hpp:178-194 | The data reaches the ranks in order of their distance from the root |
| `LinearBroadcast.SecondLastFinishesLast` | include/GaspiCxx/collectives/non_blocking/collectives_lowlevel/BroadcastBasicLinear.hpp:168-176 | The rank before the last one finishes only when every rank holds the data |
| `LinearBroadcast.RootKnowsExactlyForTwo` | include/GaspiCxx/collectives/non_blocking/collectives_lowlevel/BroadcastBasicLinear.hpp:168-176 | That the root has finished tells that all ranks hold the data if and only if there are two ranks: with more, a run is given in which only the root has acted |
| `LinearBroadcast.ForwardedBufferIsStable` | include/GaspiCxx/collectives/non_blocking/collectives_lowlevel/BroadcastBasicLinear.hpp:137-137 | No buffer is overwritten while it is being forwarded |
| `LinearBroadcast.NoDeadlock` | include/GaspiCxx/collectives/non_blocking/collectives_lowlevel/BroadcastBasicLinear.hpp:161-199 | While some rank has not finished, a delivery is possible or a call makes progress |
| `LinearBroadcast.CallsClimb` | include/GaspiCxx/collectives/non_blocking/collectives_lowlevel/BroadcastBasicLinear.hpp:161-199 | Every productive call moves its rank one iteration on or finishes it: p - 1 calls after the start, and the last one |
| `BroadcastBasicLinear.Broadcast.constructor` | include/GaspiCxx/collectives/non_blocking/collectives_lowlevel/BroadcastBasicLinear.hpp:79-141 | Distances, ends, neighbours and buffer sharing are as the algorithm needs them |
| `BroadcastBasicLinear.Broadcast.StartImpl` | include/GaspiCxx/collectives/non_blocking/collectives_lowlevel/BroadcastBasicLinear.hpp:151-158 | Does what the start step of the machine does |
| `BroadcastBasicLinear.Broadcast.TriggerProgressImpl` | include/GaspiCxx/collectives/non_blocking/collectives_lowlevel/BroadcastBasicLinear.hpp:161-199 | Does what the trigger step of the machine does, in every branch |
| `SendToAllBroadcast.RootFinishedMeansAllReceived` | include/GaspiCxx/collectives/non_blocking/collectives_lowlevel/BroadcastSendToAll.hpp:158-166 | When the root has finished, every other rank has received the root's input |
| `SendToAllBroadcast.CounterCountsMissingAcks` | include/GaspiCxx/collectives/non_blocking/collectives_lowlevel/BroadcastSendToAll.hpp:160-165 | transfers_in_progress is the number of endpoints whose ack has not been consumed, and is never decremented at zero |
| `SendToAllBroadcast.FinishedHoldsInput` | include/GaspiCxx/collectives/non_blocking/collectives_lowlevel/BroadcastSendToAll.hpp:169-174 | Every rank that has finished holds the root's input |
| `SendToAllBroadcast.NoDeadlock` | include/GaspiCxx/collectives/non_blocking/collectives_lowlevel/BroadcastSendToAll.hpp:154-177 | When all ranks have started and the root has not finished, a delivery is possible, or a poll of another rank finishes that rank, or within p polls of its own the root consumes a further ack or finishes |
| `SendToAllBroadcast.MeasureDecreases` | include/GaspiCxx/collectives/non_blocking/collectives_lowlevel/BroadcastSendToAll.hpp:154-177 | Every start, delivery and poll that finds something lowers a natural number; a poll that finds nothing changes at most the polling position of the root |
| `SendToAllBroadcast.DestinationsBijective` | include/GaspiCxx/collectives/non_blocking/collectives_lowlevel/BroadcastSendToAll.hpp:213-227 | The source endpoints and the other ranks are in bijection |
| `SendToAllBroadcast.SendsCount` | include/GaspiCxx/collectives/non_blocking/collectives_lowlevel/BroadcastSendToAll.hpp:143-150 | The root's start posts exactly one transfer to every other rank |
| `BroadcastSendToAll.Broadcast.GenerateNonRootRanks` | include/GaspiCxx/collectives/non_blocking/collectives_lowlevel/BroadcastSendToAll.hpp:216-227 | The loop lists all ranks but the root in order |
| `BroadcastSendToAll.Broadcast.constructor` | include/GaspiCxx/collectives/non_blocking/collectives_lowlevel/BroadcastSendToAll.hpp:83-118 | The destinations are those of the machine, the last non-root rank first |
| `BroadcastSendToAll.Broadcast.StartImpl` | include/GaspiCxx/collectives/non_blocking/collectives_lowlevel/BroadcastSendToAll.hpp:139-151 | The loop posts one transfer per endpoint and sets the counter to their number |
| `BroadcastSendToAll.Broadcast.TriggerProgressImpl` | include/GaspiCxx/collectives/non_blocking/collectives_lowlevel/BroadcastSendToAll.hpp:154-177 | At the root, the endpoints newly acknowledged are exactly those whose ack is raised; these notifications are reset, the counter drops by their number, and the call returns true exactly if it is zero then. Another rank polls once and acknowledges |
| `BroadcastSendToAll.PollsAreRootPolls` | include/GaspiCxx/collectives/non_blocking/collectives_lowlevel/BroadcastSendToAll.hpp:158-166 | In every state a run can be in, n polls of the object are n polls of the machine's root, up to the one that finishes it |
| `Serialization.RoundTrip` | include/GaspiCxx/utility/serialization.hpp:156-239 | Main result. For nested scalars, strings, pairs of scalars, sequences, sets and maps: deserializing the serialized value followed by any bytes yields the value and returns exactly the number of bytes written, which is the announced size |
| `Serialization.RoundTripSet` | include/GaspiCxx/utility/serialization.hpp:328-414 | The case of sets: inserting the elements in iteration order lists them in the same order |
| `Serialization.RoundTripMap` | include/GaspiCxx/utility/serialization.hpp:417-515 | The case of maps, with the count taken from the cursor |
| `Serialization.DecodeEncode` | src/utility/serialization.cpp:50-77 | Copying the bytes of a scalar out and in again gives the scalar |
| `Serialization.InsertAllSorted` | include/GaspiCxx/utility/serialization.hpp:406-411 | Inserting sorted keys one by one keeps all of them, in order |
| `Serializer.SerializeTo` | include/GaspiCxx/utility/serialization.hpp:191-204 | Writes exactly the serialized bytes at the cursor, nothing else, and returns their number |
| `Serializer.SerializeElements` | include/GaspiCxx/utility/serialization.hpp:362-375 | The loop that advances the cursor writes the length and then every element |
| `Serializer.SerializeEntries` | include/GaspiCxx/utility/serialization.hpp:454-468 | The same for the keys and values of a map |
| `Serializer.ReadItems` | include/GaspiCxx/utility/serialization.hpp:226-239 | The decoding loop moves on by what each element returns |
| `Serializer.ReadContainer` | include/GaspiCxx/utility/serialization.hpp:399-414 | Reads a sequence, or a set by inserts |
| `Serializer.DescriptionRoundTrip` | src/singlesided/BufferDescription.cpp:57-102 | A serialized buffer description decodes to itself wherever it stands |
| `Serializer.BackToBack` | src/collectives/Alltoall.cpp:258-260 | Two descriptions written back to back decode one after the other, each to itself |
| `Serializer.DeserializeDescription` | src/singlesided/BufferDescription.cpp:87-102 | The cursor reads the five fields in order and returns their total width |

## Left out

- GPI-2 itself, segment registration, queues and the retry when a queue is full: replaced by the abstract transport.
- Several executions of recursive doubling, ring allgatherv and the two broadcasts: the code acknowledges before the data is consumed, so the results would not carry over.
- Floating-point rounding and overflow of element values: the reduction operator is an arbitrary function of two elements.
- log2, exp2 and pow on doubles: replaced by exact functions on integers.
- The reduction operators SUM and PROD as such: the results hold for every operator, with the algebra each of them needs stated.
- AlltoallvTheorems.NoDeadlock: after a rank has thrown, the others may be left waiting; what the application does about that is not modelled.
- BlockingAlltoallv.Caller.Call: the notifications that arrive while it waits, and the descriptions they announce, are parameters, and the descriptions are those that `AlltoallvTheorems.DescriptionOnItsWay` shows them to be; the source descriptions that travel with them only say where to acknowledge, which the machine knows. The blocks that arrive meanwhile are in the machine.
- Barrier.Barrier.Execute: the notifications that arrive while it waits are a parameter; a call that is still waiting when they run out is not resumed.
- Endpoint.ConnectHandle.WaitForCompletion: what arrives while it waits is a parameter, and the description is the one that `RendezvousTheorems.HandleHoldsPartner` shows it to be.
- RendezvousTheorems.HandleHoldsPartner: an endpoint has one connect outstanding at a time, as the duplicate check of the code demands.
- CollectiveLowLevel.Collective.WaitForCompletion: one thread on its own, with the outcomes of its attempts as a parameter; many threads are in `Lifecycle`.
- Serializer.ReadItems: decodes its elements by the specification function; the loop is the one of the code.
- Serialization.RoundTrip: pairs hold scalars only, because the size of a pair is the size of its members in memory; scalars are unsigned and stored least significant byte first.
- Serializer.DescriptionRoundTrip: the widths of the five fields are parameters, because the headers that define them are not part of this model.
- MemoryManager.RunRefines: addresses are unbounded numbers; every address the code computes lies inside the arena, so nothing wraps around.
- The pthread mutexes of the allocators and of the passive service: their calls are atomic here.
- Passive sendMessg and recvMessg, shutdown and error messages of the passive service: thread plumbing without a data result.
- The uniform alltoall and allgather: the variable-size forms with equal sizes.
- Stream variants of the serializer, runtime, factories, segment pools, progress threads, Python bindings, file-system helpers and Environment.cpp, which the build does not list.
