# Verified models of EAF

EAF is a C framework of single-threaded service groups that exchange
reference-counted messages. This project models its core in Dafny and proves
what the code promises, for every input, every run and every interleaving.

| file | models |
|---|---|
| `Trees`, `InsertSteps`, `EraseSteps`, `Unlink`, `Height` | red-black trees as values: a tree, the way from a subtree up to the root, and what each rotation, colour flip and unlinking does to colours, heights and order |
| `MapLow` | `src/utils/map_low.c` on the heap: class `Root` over nodes with `left`, `right`, `parent`, `red`; every method ties the links to a ghost tree |
| `Map` | `src/utils/map.c`: class `Map` with search, insert, erase, size, iteration |
| `Scheduler` | one group of `src/core/service.c` and the message counts of `src/core/message.c` as a step system: the worker, and any number of threads that send, resume, load, exit, and hold messages |
| `SchedLists`, `SchedPhase`, `SchedService`, `SchedCore`, `SchedWake`, `SchedFlow`, `SchedRefs`, `SchedRecords`, `SchedCapacity` | one invariant of that system each, over one step |
| `SchedRuns` | the promises of the scheduler, over whole runs |
| `SchedEffects`, `SchedOrder` | what every step of a run does, on the fields of the states, and the order of the busy services |
| `SchedTeardown`, `SchedProgress` | what the teardown and the exit have done when they are over; that the worker comes to rest by itself, and what it has done then |
| `SchedLoads`, `SchedExited` | what `eaf_load`, `eaf_exit` and `eaf_teardown` do to each other when their calls meet |
| `Clock` | the clock arithmetic of powerpack `time.c`, with 64-bit seconds and 32-bit nanoseconds |
| `Watchdog` | the three indexes of powerpack `watchdog.c`, on three objects of class `Map` |
| `Calls`, `CallRuns`, `CallFailures` | calls over powerpack `message.c` as steps on values: callers, requests, responses, queues and reference counts, over whole runs; and the runs in which calls go wrong |
| `MessageCall` | powerpack `message.c` itself: class `Service`, on two objects of class `Map`, whose methods do those steps |
| `Timer`, `TimerAnswers`, `TimerOrder`, `TimerWait` | the delay records of powerpack `timer.c` as steps of the service thread and the libuv thread; what requests are answered with, in which order they are taken, and the wait at the end |
| `Messages`, `NodeLists`, `Errno`, `Wrappers` | reference counts; intrusive lists as sequences; the error codes; options |

## How the parts are modelled

**Trees.** The packed parent and colour word is two fields, and a `node**` link
slot is a parent and a side. A subtree `t` and its surroundings `c` are held
apart (`Ctx` is the way up), so that a rotation or a step of a fix-up loop
concerns three or four nodes, and the black-height deficit of an erasure sits
at one spot (`Deficit`). `Root.Valid` is the whole red-black condition with
consistent links; `Inorder` is the order of the nodes. The two mirror halves of
both fix-up loops are separate methods, as they are separate code.

**Map.** A comparator looks at the record around a node. The map `keys` gives
the key of each linked node and stands for `EAF_CONTAINER_OF`; that no key
changes while its node is linked is part of the watchdog's and the calls'
invariants, not an assumption there.

**Scheduler.** `WorkerNext` and `ThreadNext` give the next state. A step of the
worker is described by where it goes (`FreePc`, `TargetPc`), what it does to
its service (`TargetChange`), to the semaphore (`WorkerSem`) and to the message
counts (`WorkerRefs`); a step of a thread inside the library by `PcNext`,
`PcChange`, `PcCtx` and `PcRefs`. Each critical section, each post or wait on
the semaphore, and each read outside the lock (the capacity check, the state
of the context, `eaf_send_req`'s lookup) is one step. A handler finishes or
asks to yield, a hook accepts or rejects, as the action says. Thread 0 is the
user code that the worker runs: it may send, resume, exit or hold messages
while the worker is inside a handler. `accepted`, `finished` and `exits` are
history. `WorkerSafe` and `ThreadSafe` say that no pointer followed by a step
dangles; they are proved of every run, not assumed.

**Indexes and calls.** `Watchdog.Watchdog` and `MessageCall.Service` are
classes over real red-black maps. Each step is also a function on values
(`OutOfIdle`, `IntoBusy`, `Begun`, `Delivered`, ...), lemmas show that the steps
keep the index consistent, and the methods are proved to do exactly those
steps. So the insertions into the maps that the source asserts succeed always
do. A request has a serial number, which no code reads, and a response that of
the request it was created from: the identity in a message is only an address,
and may be used again. `CallRuns` says, over every run in which requests are
called, answered, queued and resumed in any order, when the response that a
call gets is its own.

## What the code does not do

Where the code and its documentation differ, the model follows the code. Each
property below comes with the condition under which it holds, and with an input
at which it fails.

- `eaf_map_find_upper` is documented to return the first element greater than the key. When the key is present this holds exactly under the condition in `Map.Map.FindUpper`; in every map of six nodes or more it fails for some key (`Map.Map.MissUpper`), and `Map.UpperMissesSuccessor` gives a tree.
- `eaf_map_find_lower` is documented to return the first element not less than the key. It returns the greatest one not above it, which is the promised one exactly when the key is present or the map is empty (`Map.Map.FindLower`); `Map.LowerMisses` builds a map where it is not.
- With the ignore flag, `eaf_time_addclock_ext` misses an overflow exactly when two of its marks cancel (`Clock.Cancels` says which inputs do so, `Clock.CancelsFor` gives one). The difference that `eaf_time_diffclock` stores is exact exactly under `Clock.DiffExact`; `Clock.DiffInexactFor` gives two clocks where it is not.
- `_watchdog_check_busy` reports no service, however late, so its reports are right exactly when no record is late (`Watchdog.Watchdog.CheckBusy`); `Watchdog.LateGoesUnreported` gives an index with a late record.
- `eaf_watchdog_exit` leaves the map of tokens as it is: the indexes agree afterwards, and after the next initialization, exactly when no heartbeat was outstanding (`Watchdog.Watchdog.Exit`, `Watchdog.Watchdog.Init`).
- The subtraction that compares tokens is an order on the tokens that the watchdog gives out, but on all 32-bit tokens it is none (`Watchdog.TokenSign`, `Watchdog.TokenCycle`).
- `eaf_message_internal_finalize` returns success and no response when the send has failed: it returns the stored result exactly when a response has come (`MessageCall.Service.Finalize`, `CallFailures.ErrorHidden`).
- A response finds the record of the request it was created from exactly when the call of that request is open (`CallRuns.HandledByOwn`). While at most one response is sent to each request, and only after the request was sent, that is always so: every response finds its own call, no step meets a record in the wrong table, and a call ends with its own response (`CallRuns.ResponsesFindTheirCalls`, `CallRuns.NothingUnexpected`, `CallRuns.OwnResponse`). With two responses, the second may come to a later call whose request has the same address (`CallFailures.WrongResponse`), and the error path of that call's proxy erases its record from a table it is not in (`CallFailures.WrongTable`).
- The response handler asserts that it could resume the caller: it could exactly when the caller is still parked (`MessageCall.Service.OnResponse`), which it is when nobody else resumes it (`CallRuns.ResumeSucceeds`), and need not be otherwise (`CallFailures.ResumeFails`).
- `eaf_load` checks the context outside the lock. When two calls pass the check, an exited service is taken back to init1 (`SchedLoads.ExitUndone`), in the step `SchedLoads.FixUndoes` describes and in no other (`SchedExited.OnlyFixUndoes`). References, the order of records and their destruction are right in all runs; the states of services and the wakeups in the runs in which no two calls pass.
- A requested exit is overwritten in exactly the steps in which `eaf_load` or `eaf_teardown` sets the context (`SchedLoads.ExitOverwrittenBy`). Without such a step it is noticed: the worker is not blocked, unless a post is to come (`SchedLoads.ExitNoticed`). `SchedLoads.ExitLost` is a run in which `eaf_exit` has returned and `eaf_load` sets the context to busy; in `SchedLoads.ExitThenTeardown` a teardown follows the exit, and the worker stays blocked.
- `_timer_on_exit` waits until three sizes, read one after the other, add up to zero. `TimerWait.WaitEnds` says exactly when all records are freed at that point. The wait is sure to hold the service back until they are exactly when they were freed before it began (`TimerWait.WaitGuarantees`): a record may be in the hand of the libuv thread, and its timer be started after the exit (`TimerWait.ExitsTooEarly`), or move from a queue not yet read to one that has been read, with nothing in hand (`TimerWait.ReadsApart`).

## Model

| member | source | states |
|---|---|---|
| MapLow.Root.ChangeChild | src/utils/map_low.c:55-78 | the child slot, or the root, that held the old node holds the new one, and the rest of the way up is as before |
| MapLow.Root.RotateSetParents | src/utils/map_low.c:80-87 | the new node takes parent, colour and place of the old one, which becomes its child of the given colour |
| MapLow.Root.InsertColor | src/utils/map_low.c:89-208 | from any tree that is red-black but for a red node below a red parent, the fix-up ends in a valid red-black tree with the same in-order sequence |
| InsertSteps.FlipOk | src/utils/map_low.c:112-132 | a red parent has a parent that is black; with a red uncle the colour flip moves the violation two levels up and leaves everything below red-black |
| InsertSteps.RestructureOk | src/utils/map_low.c:134-172 | with a black uncle the one or two rotations at the grandparent leave no violation |
| EraseSteps.SiblingExists | src/utils/map_low.c:321-333 | at a deficit the sibling exists; if it is red, the parent is black and both its children exist and are black, so the fix-up follows no null pointer |
| EraseSteps.RedSiblingOk | src/utils/map_low.c:331-346 | rotating a red sibling up leaves the same deficit below a red parent with a black sibling, so that a finishing case follows |
| EraseSteps.RecolorOk | src/utils/map_low.c:351-378 | with no red nephew, recolouring the sibling ends the repair at a red parent or at the root, and otherwise moves the deficit one level up |
| EraseSteps.BorrowOk | src/utils/map_low.c:379-419 | with a red nephew, one or two rotations end the repair: heights and colours are right at the parent's place |
| MapLow.Root.EraseColor | src/utils/map_low.c:317-470 | from a tree with one deficit at a missing child, the fix-up on either side ends in a valid red-black tree with the same in-order sequence |
| Unlink.SpliceOk | src/utils/map_low.c:221-249 | a node with at most one child is replaced by it: the child is red and takes the colour, or a black leaf leaves a deficit exactly where it was, or nothing is wrong |
| Unlink.RenameOk | src/utils/map_low.c:287-307 | putting the successor in the place and colour of the erased node changes neither heights nor colours, with or without a deficit below |
| Unlink.SuccessorOrder | src/utils/map_low.c:262-307 | with the leftmost node of the right subtree moved to the erased node's place, the in-order sequence is the old one without the erased node |
| MapLow.Root.EraseAugmented | src/utils/map_low.c:215-310 | in all three unlinking cases the node is gone, the order is the old one without it, and the result is red-black or has its one deficit at the returned node |
| MapLow.Root.Erase | src/utils/map_low.c:487-493 | erasing any node of any valid tree leaves a valid red-black tree whose in-order sequence is the old one without exactly that node |
| MapLow.Root.LinkNode | src/utils/map_low.c:472-480 | the new red leaf hangs in the given slot, below the given parent, and nothing else changes |
| MapLow.Root.First | src/utils/map_low.c:498-507 | the first node of the order, or null for the empty tree |
| MapLow.Root.Last | src/utils/map_low.c:509-518 | the last node of the order, or null for the empty tree |
| MapLow.Root.Next | src/utils/map_low.c:520-549 | the node after the given one in the order, null after the last one and for an unlinked node |
| MapLow.Root.Prev | src/utils/map_low.c:551-577 | the node before the given one in the order, null before the first one and for an unlinked node |
| Height.LogBound | src/utils/map_low.c:13-16 | a red-black tree of black height b has at least 2^b - 1 nodes, paths of at most 2b nodes, and so a depth of at most 2*log2(n+1) |
| Map.Map.constructor | src/utils/map.c:4-10 | a new map is valid and empty |
| Map.Map.Insert | src/utils/map.c:12-41 | fails exactly when an equal key is linked, and then changes nothing; otherwise the node is put at its sorted place, size grows, and the tree is valid; at most 2*log2(size+1) comparisons |
| Map.Map.Erase | src/utils/map.c:43-47 | the node leaves the order, everything else keeps its place, and size is the number of nodes left |
| Map.Map.Find | src/utils/map.c:54-77 | a node with an equal key, and null exactly when there is none; at most 2*log2(size+1) comparisons |
| Map.Map.FindWith | src/utils/map.c:54-77 | the search with any comparator: what it finds is equal, and it misses nothing when the comparator is the order of the map at a key |
| Map.Map.FindLower | src/utils/map.c:79-102 | the greatest node whose key is not above the given one, and null exactly when there is none; it is the documented first element not less than the key exactly when the key is present or the map is empty |
| Map.LowerMisses | src/utils/map.c:79-102 | builds a map, with a key, for which the documented result is not returned |
| Map.Map.FindUpper | src/utils/map.c:104-133 | null only when nothing is above the key; any result is above it; the least such node when the key is absent, and when it is present exactly under the stated condition |
| Map.Map.MissUpper | src/utils/map.c:104-133 | in any map of six nodes or more, finds a linked key for which the documented first element greater than the key is not returned |
| Map.UpperMissesSuccessor | src/utils/map.c:122-129 | a red-black tree with the key present in which the condition of FindUpper fails |
| Map.Map.Begin | src/utils/map.c:135-138 | the least node, or null for the empty map |
| Map.Map.End | src/utils/map.c:140-143 | the greatest node, or null for the empty map |
| Map.Map.Next | src/utils/map.c:145-148 | the next greater node |
| Map.Map.Prev | src/utils/map.c:150-153 | the next smaller node, so that it undoes Next |
| Map.SortedUnique | src/utils/map.c:12-41 | the keys alone determine the order of the nodes: two sorted listings of the same nodes are the same |
| Map.Map.Drain | powerpack/src/powerpack/watchdog.c:305-314 | the loop that saves the next node and erases the current one visits every node once, in order, and leaves the map empty |
| SchedLists.ListsStep | src/core/service.c:234-271 | every step keeps each service in busy_list or wait_list, exactly once, as its state dictates |
| SchedLists.Touches | src/core/service.c:234-271 | what a change of the group makes of a service depends on that service and the change alone, not on the lists or on other services |
| SchedPhase.ThreadPhase | src/core/service.c:1068-1098 | a step of a thread, in which no second call of eaf_load passes its check, keeps: before loading is complete no message is on its way, and afterwards the services never look unloaded again |
| SchedService.TargetSvcOk | src/core/service.c:415-460 | the worker's step at a service keeps what its state says about queue, current message and exit count |
| SchedService.ThreadSvcOk | src/core/service.c:704-772 | a push, a resume or the loading keeps it too, at any moment |
| SchedCore.CoreStep | src/core/service.c:612-669 | the invariants of phases, lists and services hold together over every step of every thread in which no second call of eaf_load passes its check |
| SchedCore.GroundedStep | src/core/service.c:612-669 | those of lists, of the places of worker and threads, and of the current record the worker relies on hold over every step, whatever calls of eaf_load do |
| SchedWake.WakeStep | src/core/service.c:462-477 | every step keeps: what the worker saw before it waits is still so, or a post has been made or is about to be |
| SchedRefs.StepPointers | src/core/message.c:64-92 | no step changes the difference between a message's count and the number of handles and records that point to it |
| SchedRefs.WorkerIsSafe | src/core/service.c:209-213 | every record that the worker destroys points to a message that exists |
| SchedRefs.ThreadIsSafe | src/core/service.c:704-772 | every message and service that a sender uses exists, also when a failed push gives its reference back |
| SchedRecords.RecordsStep | src/core/service.c:714-766 | each record gets a new identity and is accepted at most once, by one service |
| SchedFlow.TargetPending | src/core/service.c:549-585 | a step of the worker destroys the oldest record of a service or none, whether it comes from the queue, the current message or the teardown's hands |
| SchedCapacity.BoundedStep | src/core/service.c:704-712 | the requests queued for a service or past its check stay below its capacity plus the number of concurrent senders |
| SchedRuns.RunInv | src/core/service.c:612-669 | the invariants of phases, services and wakeups hold in every state of every run in which no two calls of eaf_load pass its check |
| SchedRuns.RunSound | src/core/service.c:612-669 | those of references, records and their order hold in every state of every run |
| SchedRuns.NeverFaults | src/core/service.c:415-460 | in every reachable state, whatever a thread is ready to do follows only pointers to things that exist |
| SchedRuns.ServiceStates | src/core/service.c:415-424 | in every interleaving with one load, each service is in the list of its state; idle and init2 mean an empty queue and no current message, yield means a current message, init1 in the event loop means a message waits, a lazy service is initialized for a message only; and the asserted BUSY state always holds |
| SchedRuns.NoLostWakeup | src/core/service.c:462-477 | with one load, a worker blocked with no post made or pending has seen the context state as it is then, and no service is busy or to be initialized |
| SchedLoads.ExitStays | src/core/service.c:871-893 | once the context is set to teardown or exit and no load is under way, it is never busy again |
| SchedLoads.ExitOverwrittenBy | src/core/service.c:885 | a requested exit is overwritten in exactly the steps in which a call of eaf_load or of eaf_teardown sets the context |
| SchedLoads.ExitNoticed | src/core/service.c:462-477 | without such a step the exit stays requested, and the worker is not blocked unless a post is to come |
| SchedLoads.RequestNoticed | src/core/service.c:462-477 | after a request to tear down or to exit with no load under way, the worker is blocked with no post to come in a teardown only, and then no service is busy |
| SchedLoads.ExitThenTeardown | src/core/service.c:1100-1107 | a run in which an exit is requested, then a teardown, and the worker tears the service down and is blocked with no post to come |
| SchedLoads.OverwrittenBy | src/core/service.c:1082 | the context becomes busy in exactly the steps in which a call of eaf_load sets it |
| SchedLoads.ExitLost | src/core/service.c:1082 | a run in which eaf_exit has returned, eaf_load is about to set the context, and the context is busy afterwards |
| SchedLoads.FixUndoes | src/core/service.c:1077 | when a call of eaf_load fixes the states, every service takes its first state again, whatever it was |
| SchedExited.OnlyFixUndoes | src/core/service.c:493-519 | in every run, a registered service leaves exit1 in exactly the steps in which a call of eaf_load fixes the states |
| SchedLoads.ExitUndone | src/core/service.c:1068-1098 | a run in which a second call of eaf_load takes a service from exit1 to init1 |
| SchedRuns.FirstInFirstOut | src/core/service.c:335-368 | until cleanup the accepted records are the destroyed ones, then the one in progress, then the queue, in order, over any yields, resumes and teardown |
| SchedRuns.DestroyedOnce | src/core/service.c:672-686 | no record is destroyed twice, by normal completion, rejection, teardown, cleanup or a failed push |
| SchedRuns.CleanedUp | src/core/service.c:688-702 | after cleanup every accepted record has been destroyed, every count is the number of handles that user code holds, and with none held every message is freed |
| SchedEffects.ResumeWakes | src/core/service.c:1241-1277 | in every run, a resume makes a parked service busy, in busy_list, with its message and queue as they were, and goes on to a post; for a service in any other state it changes nothing |
| SchedEffects.SendLooksUp | src/core/service.c:1201-1212 | a send goes on exactly when the context is busy and the receiver is registered |
| SchedEffects.SendCounts | src/core/service.c:704-712 | a request passes exactly when the queue is below its capacity, a response always |
| SchedEffects.SendTakesRef | src/core/service.c:714-725 | the record that is made has a number of its own and takes one reference |
| SchedEffects.PushAppends | src/core/service.c:731-760 | the record is appended unless the service is in exit0; init2 turns to init1 and idle to busy, any other state stays |
| SchedEffects.RevertDrops | src/core/service.c:763-768 | a push that was refused gives the reference back, and frees the message with the last one |
| SchedEffects.PostWakes | src/core/service.c:770-771 | a call that has changed something makes one post and returns |
| SchedEffects.ExitChecks | src/core/service.c:1100-1118 | eaf_teardown and eaf_exit refuse exactly when the context is in their own state already |
| SchedEffects.ExitSets | src/core/service.c:885-890 | the context is set to teardown or exit, and a post follows |
| SchedEffects.LoadChecks | src/core/service.c:1071-1074 | eaf_load goes on exactly when the context is initial |
| SchedEffects.LoadFixes | src/core/service.c:987-1018 | an unregistered service is sent to exit1, a lazy one to init2, and any other to init1, with nothing else changed |
| SchedEffects.LoadSets | src/core/service.c:1082-1086 | the context is busy, and a post follows |
| SchedEffects.CallsBegin | src/core/service.c:1201-1277 | user code may begin any call at any time before cleanup, with no other effect |
| SchedEffects.HandlesMove | src/core/message.c:34-92 | user code may create a message at a free address, take a reference to one it holds, and give one up, with exactly these effects on the count |
| SchedEffects.HandlerKeeps | src/core/message.c:64-73 | a handler may keep the message it handles |
| SchedEffects.WaitsForLoad | src/core/service.c:626-634 | the worker waits, taking posts, while the context is initial; then it begins if the context is busy, and ends otherwise |
| SchedEffects.FirstRound | src/core/service.c:527-547 | the first round initializes exactly the services that are in init1, in order, and counts them |
| SchedEffects.BeginsLoop | src/core/service.c:647-651 | the event loop begins exactly when some service was initialized |
| SchedEffects.InitEnds | src/core/service.c:378-392 | after its initialization a service is busy exactly when a message waits, and idle otherwise |
| SchedEffects.LoopGoesOn | src/core/service.c:654-668 | the loop goes on exactly while the context is in its state; then comes the teardown, or the last round |
| SchedEffects.ServesFirst | src/core/service.c:462-470 | the first service of busy_list is served, and with none the worker waits |
| SchedEffects.PendTakes | src/core/service.c:467 | the wait takes one post |
| SchedEffects.TryPendTakes | src/core/service.c:470 | serving takes a post, if there is one |
| SchedEffects.HandleInits | src/core/service.c:417-421 | a service in init1 is initialized before it is served |
| SchedEffects.Dispatches | src/core/service.c:426-450 | a message in progress is gone on with; else the oldest one is taken; else the service is idle |
| SchedEffects.HookDecides | src/core/service.c:453-457 | a message that the hook rejects is destroyed with its reference, any other is handled |
| SchedEffects.HandlerDecides | src/core/service.c:335-368 | a handler that yields goes on to park its service, any other to finish its message |
| SchedEffects.YieldParks | src/core/service.c:355-361 | the service is parked, in wait_list, before the yield hook is called |
| SchedEffects.HandlerEnds | src/core/service.c:362-368 | the record of a message that is handled to its end is destroyed with its reference |
| SchedEffects.TearDecides | src/core/service.c:660-663 | the teardown is done exactly when the context asks for it then |
| SchedEffects.LastRound | src/core/service.c:493-516 | the last round goes over all services from the last to the first, and begins the exit of each that is registered and has not ended |
| SchedEffects.ExitEnds | src/core/service.c:517 | after on_exit a service is in exit1 |
| SchedEffects.CleanupGoesOn | src/core/service.c:672-686 | cleanup destroys the queue and then the current message of each service, in order |
| SchedOrder.BusyInOrder | src/core/service.c:234-271 | in every run, a step that is not the fixing of states concerns one service: the others keep their order in busy_list, and it leaves the list, stays, or goes to the end |
| SchedTeardown.TearsDown | src/core/service.c:587-610 | with one load, when the worker found the context in teardown and comes to its second loop, every registered service that is not to be kept alive is in exit1, with one call of on_exit, and has finished all that it accepted before it ended |
| SchedTeardown.TearSpares | src/core/service.c:593-596 | on the way the worker changes no service that is to be kept alive or not registered |
| SchedTeardown.AllExited | src/core/service.c:493-519 | at the end of the last round every registered service is in exit1, with one call of on_exit |
| SchedProgress.ComesToRest | src/core/service.c:613-669 | from any state of any run with one load, the worker comes to rest by its own steps, if handlers run to their end |
| SchedProgress.AllServed | src/core/service.c:462-477 | with no call under way in a busy context, it ends, or blocks with every service parked, ended, or with all it has accepted finished |
| SchedProgress.ExitCleansUp | src/core/service.c:664-686 | with no call under way after an exit, it runs to the end of cleanup |
| SchedRuns.Overshoot | src/core/service.c:704-772 | with at most n senders past the check at a time, a queue holds at most capacity + n - 1 requests, whatever responses are forced in |
| SchedRuns.OvershootByThreads | src/core/service.c:704-772 | in every run a queue holds at most its capacity and one request less than there are threads |
| SchedRuns.OneEdge | src/core/service.c:234-271 | with one load, a state changes along the edges of the life cycle only, on_exit is called on the way to exit0 only, and nothing is accepted during exit0 |
| SchedRuns.LifeCycle | src/core/service.c:493-519 | with one load, exit0 leads to exit1 only, exit1 is for good under push and resume, and on_exit runs at most once per service over teardown and exit |
| Clock.FmtClockExt | powerpack/src/powerpack/time.c:232-252 | the normalised time of the same number of nanoseconds, or -1 and nothing stored when its seconds do not fit, also in place |
| Clock.AddClockExt | powerpack/src/powerpack/time.c:254-328 | without the flag 0 and the exact normalised sum exactly when it fits, else -1 and nothing stored; with the flag the sum modulo 2^64 seconds, and the exact condition under which the result misses the overflow; any aliasing |
| Clock.AddClock | powerpack/src/powerpack/time.c:227-230 | the same, in place |
| Clock.AddClockMsec | powerpack/src/powerpack/time.c:330-340 | the same, for milliseconds |
| Clock.CancelsFor | powerpack/src/powerpack/time.c:262-277 | an overflow that the result misses under the flag |
| Clock.AddedTwice | powerpack/src/powerpack/time.c:254-328 | two additions are one addition of the sum, and fail exactly when it does |
| Clock.DiffClock | powerpack/src/powerpack/time.c:196-225 | the sign is the order by seconds and then nanoseconds; the stored difference is exact exactly when no nanoseconds are borrowed, or half a second is, and else wrong by the stated amount |
| Clock.DiffInexactFor | powerpack/src/powerpack/time.c:196-225 | two clocks for which a wrong difference is stored |
| Clock.CompareTotal | powerpack/src/powerpack/time.c:196-225 | on normalised clocks this is the order of the times |
| Clock.CompareOrder | powerpack/src/powerpack/time.c:196-225 | on any clocks it is a total order that holds only equal clocks for equal |
| Clock.AddedLater | powerpack/src/powerpack/time.c:227-230 | an addition that succeeds moves a clock forward by exactly the amount |
| Watchdog.Orders | powerpack/src/powerpack/watchdog.c:80-129 | on the keys that the maps link, the three comparators are total orders: by time and service, by time and place, and by token |
| Watchdog.TokenSign | powerpack/src/powerpack/watchdog.c:122-129 | on all 32-bit tokens the difference is zero on equal ones only, and its sign is that of their order exactly when the subtraction does not wrap |
| Watchdog.TokenCycle | powerpack/src/powerpack/watchdog.c:122-129 | three tokens each of which compares as less than the next, in a circle |
| Watchdog.OneMoves | powerpack/src/powerpack/watchdog.c:37-62 | when one record changes its place and its own links, all records are still idle, busy in both maps, or dropped, under their current keys |
| Watchdog.Watchdog.Init | powerpack/src/powerpack/watchdog.c:327-374 | fails as duplicate when initialized already or when two entries watch one service, and else with what the registration returns; on success every record is idle, on failure nothing is linked; the indexes agree exactly when no tokens were left behind by an exit |
| Watchdog.Watchdog.Send | powerpack/src/powerpack/watchdog.c:232-256 | the first due record begins now and ends one timeout later, cut to 64 bits of seconds; it goes to both busy maps, or out of all when the send fails; both inserts succeed, and no other record changes |
| Watchdog.Watchdog.CheckIdle | powerpack/src/powerpack/watchdog.c:221-257 | exactly the records that were due have left the idle map, in the order of their times; each has been sent or dropped, with its answer expected one timeout from now, and no other record is touched |
| Watchdog.Watchdog.FindByToken | powerpack/src/powerpack/watchdog.c:161-166 | for any 32-bit token, finds the record exactly when its heartbeat is outstanding |
| Watchdog.Watchdog.OnHeartbeatRsp | powerpack/src/powerpack/watchdog.c:168-205 | for any token: the record is found exactly when the heartbeat is outstanding; it leaves both busy maps and is idle again, due one interval from now, or now if that does not fit; its error count grows by one when the answer is late, and is cleared otherwise; the report follows the count, and no other record changes |
| Watchdog.Watchdog.CheckBusy | powerpack/src/powerpack/watchdog.c:141-159 | the loop looks at exactly the busy records whose end has passed, in order, so at every late one; no service is ever reported, and that is right exactly when no record is late |
| Watchdog.LateGoesUnreported | powerpack/src/powerpack/watchdog.c:141-159 | an index in agreement with a late record, whose token map agrees with no records after an exit |
| Watchdog.Watchdog.Exit | powerpack/src/powerpack/watchdog.c:376-390 | nothing happens when it is not initialized; else idle and busy map are empty, the map of tokens is as before, and the indexes agree exactly when it is empty |
| Calls.CreatedIsNew | src/core/message.c:34-48 | the address of a new request is the identity of no call under way, because a call holds a reference to its request to its end |
| Calls.UuidFree | powerpack/src/powerpack/message.c:103-108 | the identity of a request that is about to be called is in neither table |
| Calls.ReadyAt | powerpack/src/powerpack/message.c:158-190 | a ready record belongs to one call whose request is alive, and holds a live response with its identity, or the error and no response |
| CallRuns.StepConsistent | powerpack/src/powerpack/message.c:85-190 | every step keeps calls, records, tables, reference counts and identities in agreement |
| CallRuns.NothingDangles | powerpack/src/powerpack/message.c:85-190 | in every run, whatever a thread is ready to do uses messages and records that exist |
| CallRuns.HandledByOwn | powerpack/src/powerpack/message.c:129-156 | in every run, the record found for a response is that of the request the response was created from exactly when the call of that request is open |
| CallRuns.ResponsesFindTheirCalls | powerpack/src/powerpack/message.c:129-156 | with at most one response sent per request, every response on its way finds its own call |
| CallRuns.NothingUnexpected | powerpack/src/powerpack/message.c:110-142 | then the record that the handler asserts is found, and the one that the error path takes out of the pending table is in it |
| CallRuns.OwnResponse | powerpack/src/powerpack/message.c:158-190 | then a call ends with a response exactly when its send has succeeded, and that response was created from its own request |
| CallRuns.ResumeSucceeds | powerpack/src/powerpack/message.c:154-155 | when nobody else resumes the caller of an open call, it is parked until its response or its failed send resumes it |
| CallFailures.ErrorHidden | powerpack/src/powerpack/message.c:158-190 | a run in which a call ends with a stored error, for which success is returned |
| CallFailures.ResumeFails | powerpack/src/powerpack/message.c:154-155 | a run with the response to an open call in the queue, and its caller not parked |
| CallFailures.WrongResponse | powerpack/src/powerpack/message.c:129-156 | a run with two responses to one request, in which a later call ends with the second one |
| CallFailures.WrongTable | powerpack/src/powerpack/message.c:116-122 | a run in which the error path is about to take a record out of the pending table that is in the ready table |
| MessageCall.Service.Create | src/core/message.c:34-48 | a new request is alive with one handle, its address is its identity, and it is no call |
| MessageCall.Service.Begin | powerpack/src/powerpack/message.c:85-108 | the record of a new call is pending under the identity of its request, and the insert succeeds |
| MessageCall.Service.Send | src/core/service.c:797-844 | the send succeeds exactly when the context is busy, the receiver is registered, has a handler and room, and is not in exit0, and gives each error exactly for the first of these that fails; one that succeeds gives the queue a reference of its own, one that fails none |
| MessageCall.Service.SendFailed | powerpack/src/powerpack/message.c:116-127 | after a failed send the record goes over to the ready table with the error, and the caller is resumed |
| MessageCall.Service.Respond | src/core/message.c:50-62 | a response has the identity of the request, which may be gone, and no receipt or token, and a count of its own; any number of responses |
| MessageCall.Service.Reply | src/core/service.c:846-863 | a response is queued, with a reference of its own, exactly when the context is busy and the receiver is registered and not in exit0, whatever its capacity; any number of times |
| MessageCall.Service.Release | src/core/message.c:75-92 | a queue record that goes takes its reference with it, and the message is freed exactly when that was the last |
| MessageCall.Service.Drop | src/core/message.c:75-92 | so does user code that gives up its reference |
| MessageCall.Service.Resume | src/core/service.c:1241-1277 | a resume succeeds exactly when the service is parked, and leaves the calls as they are |
| MessageCall.Service.OnResponse | powerpack/src/powerpack/message.c:129-156 | a record is found exactly when a call with the identity of the response is open, and is that of the response's own request exactly when that one's call is; it goes over to the ready table with that response, which gains a reference, and the caller is resumed exactly when it is parked |
| MessageCall.Service.Finalize | powerpack/src/powerpack/message.c:158-190 | hands back exactly the response that came to the record with that identity, once, or none after a failed send, and drops the request's reference; the result is the stored one exactly when a response has come |
| Timer.InvStep | powerpack/src/powerpack/timer.c:41-214 | every step of both threads keeps each record in one place, with a running timer exactly while it is busy |
| Timer.OnePlace | powerpack/src/powerpack/timer.c:66-106 | in every run a record is in at most one of idle, busy and dead queue, or in one thread's hands, or freed; a running timer is busy and a closing one dead |
| Timer.ForwardOnly | powerpack/src/powerpack/timer.c:108-155 | a record moves from idle over busy and dead to freed, never back, so it is freed once |
| Timer.AnsweredOnce | powerpack/src/powerpack/timer.c:177-214 | a request is answered at most once, exactly once when its record is freed unless a shutdown discarded it, and only a shutdown discards |
| TimerAnswers.Answers | powerpack/src/powerpack/timer.c:50-106 | a request is answered with success only if its timer fired, with a state error exactly when no timers were run at its arrival, with an unknown error only if the signal, the initialization or the start failed for it; a freed record has the answer that goes with what happened, or none if a shutdown discarded it |
| TimerOrder.ServiceRuns | powerpack/src/powerpack/timer.c:216-224 | timers are run from the initialization to the exit, which clears the mark and then signals the libuv loop |
| TimerOrder.RequestQueued | powerpack/src/powerpack/timer.c:177-214 | a request that arrives in between is queued at the end and signalled; if the signal fails it is not queued, answered, and freed |
| TimerOrder.TimerRuns | powerpack/src/powerpack/timer.c:66-87 | an initialized timer is started after its record is busy; a fired one is closed |
| TimerOrder.TakesOldest | powerpack/src/powerpack/timer.c:134-155 | the callback takes requests while timers are run, and closes all otherwise; it takes the oldest queued request, until none is left |
| TimerOrder.WaitSawEmpty | powerpack/src/powerpack/timer.c:227-233 | the service exits only when each of the three queues was empty at the moment the last round of the wait has read its size |
| TimerWait.WaitEnds | powerpack/src/powerpack/timer.c:221-234 | once the three sizes have been read, in any order, and add up to zero, the idle queue is empty, and all records are freed exactly when busy and dead queue are empty too and the libuv thread holds no record |
| TimerWait.WaitGuarantees | powerpack/src/powerpack/timer.c:221-234 | the wait lasts, in every continuation, until all records are freed exactly when they are all freed before it begins |
| TimerWait.ExitsTooEarly | powerpack/src/powerpack/timer.c:221-234 | a run in which a timer is started after the service has exited |
| TimerWait.ReadsApart | powerpack/src/powerpack/timer.c:227-230 | a run in which the sizes are read as zero at different moments, and a timer runs after the exit with no record between two queues |

## Left out

- Form of the scheduler and the timer: their threads interleave, so `src/core/service.c` and `timer.c` are step systems on values, with one step per critical section, and not classes updated in place; the watchdog, the calls, the clocks and the maps are classes.
- Threads: the locks, the semaphore and thread storage are primitives; a critical section is one step, and the memory model below it is not modelled.
- Other groups: the scheduler is one group; threads of other groups are among its senders. The semaphore `ready` that eaf_load waits on is not modelled.
- Registration: services are registered before loading begins; eaf_register and the message table lookup are not modelled (a request without handler is rejected by `Reject`).
- Handles: a thread sends a message that its own user code holds, and takes further handles from its own or from the current message; passing a handle from one thread to another is not modelled.
- Default responses of the teardown: the send is refused by the source at that point, so only the destruction of the record is modelled.
- Cleanup: begins when all callers have returned, as its documentation asks; calls during or after it are not modelled.
- Progress: that user code returns, and that the worker is scheduled, is not stated; `SchedProgress.ComesToRest` is about a worker that takes steps, while no other thread does.
- Allocation failure: no allocation fails, in any module.
- Sizes: sequence lengths, reference counts and error counts are unbounded; the clock fields, the watch list and the tokens have the width of the source.
- MapLow.Root.UnlinkCase3: the store that reparents the successor's right child is made before the successor is moved, and not after; it concerns another node.
- Tokens: a response created by eaf_msg_create_rsp carries no token of its own, so the service that answers a heartbeat must set it; that it does is not stated.
- Watchdog.Watchdog.Init: requires a watch list that an `int` can count, as the loop of the source does, and a callback that is not null.
- Watchdog.Watchdog.Exit: the records stay allocated; in the source the nodes that the map of tokens still links have been freed, and using it again follows pointers to them.
- MessageCall.Service.Begin: a request is called once, by the code that created it; a second call with the same message is not modelled.
- MessageCall.Service.Send: what the send finds at the receiver is a parameter; the group and the hooks around the send are those of the scheduler model.
- MessageCall.Service.SendFailed: requires the record to be in the pending table, as the source takes for granted; `CallRuns.NothingUnexpected` says when it is. What the erasure of a node from a tree it is not in does is not modelled.
- MessageCall.Service.Finalize: is called by the caller, after its proxy has returned, because one thread runs both.
- SchedRuns.RunInv: and the theorems on service states, wakeups and the life cycle assume that no two calls of eaf_load pass its check; `SchedLoads.ExitUndone` shows what happens otherwise.
- SchedPhase.ThreadPhase: excludes the step in which a second call of eaf_load passes its check, as does `SchedCore.CoreStep`, because it breaks them.
- Clock reading: `eaf_time_getclock` is a parameter; that it succeeds, as the watchdog asserts, is not stated.
- libuv: a started timer fires at most once and not after it has been closed, and a close callback comes once.
- Message headers: of receipt, token and type bits only what a message starts with is modelled (`Calls.Message`); src/core/message.h is not part of this model.
- list.c and ringbuffer.c: not part of this model; lists are sequences.
- Sockets, logging, random numbers, hashing, monitor, calendar time, coroutine macros and hook tables.
