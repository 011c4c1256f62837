# libep in Dafny

libep is a small event loop in C. This project models its four layers and proves what
they promise:

- **The skip list** (`src/skiplist.h`) as nodes on the heap with an array of forward
  pointers each, any number of levels and arbitrary tower heights. Two invariants are
  used. *Strong*: every level links exactly the nodes whose towers reach it, which is what
  insert, delete and extract_lte keep. *Weak*: every pointer leads to a later node of the
  list and level 0 links the list, which is also what shift keeps. Both make level 0 a
  stable priority queue (`StableQueue`).
- **The timer scheduler** (`src/ep_timer.h`) as an object around such a list, proved
  against an abstract scheduler (`TimerSpec`) for all callbacks: what a callback does to
  the timers is an arbitrary script of registrations, clears of pending or abandoned
  timers and clock updates. `TimerLaws`, `TimerLives` and `WaitSpec` hold the theorems
  over calls and whole runs.
- **The ring list and the task queue** (`src/list.h`, `src/ep_task_queue.h`) as linked
  nodes on the heap. Every single call of a task comes with its own script of pushes and
  cancels by handle. `TaskSpec` says what a pass and a walk call when every call may edit
  the queue.
- **The loop** (`src/ep.h`) with the select back end (`src/ep_select.h`). A run is a
  sequence of calls of `ep_iterate`, of `ep_for_each` with a body that acts on the loop and
  may break out of it in any round, and of calls from outside; each wait comes with its
  surroundings: two clock readings, the scripts of the callbacks, their effects on the
  structures of the other phases, descriptor registrations included, and what select
  reports. `LoopSpec` is the abstract loop; `LoopLaws`, `LoopTimers` and `LoopPolls` hold the
  theorems about its runs, `SelectLaws` those about registered descriptors.

Where the code does less than one might expect, the exact condition is proved:

- the limit of `ep_timer_execute` drops the rest of the due timers
  (`TimerSpec.NothingAbandoned`, `LoopTimers.TurnFires` for the limit 128 of the loop, with
  `TimerSpec.LimitLosesTimer` as an instance), and a
  limit of 0 still fires one (`TimerSpec.FireTakesPrefix`);
- the narrowing of the distance to int can make a wait endless (`WaitSpec.WakesInTimeIff`,
  `WaitSpec.SleepsPastFarTimer`);
- a descriptor in two sets is counted twice but listed once, so that fetches hand out stale
  slots too (`SelectSpec.CountIffOneSetEach`, `SelectSpec.BatchIsListing`, with
  `SelectSpec.CountedTwice` as an instance); it cannot happen exactly if no descriptor is
  registered for two kinds of events (`SelectSpec.NeverTwiceIffDisjoint`);
- a fetch reads behind the buffer exactly if select counts more bits than there are entries
  (`SelectSpec.BeyondIff`, with `SelectSpec.ReadsBeyond` as an instance), which cannot happen
  exactly if no more bits are registered (`SelectSpec.NeverBeyondIff`);
- a modified descriptor is watched for what was requested, and the others as before, exactly
  if it is not above the largest that was added, or nothing was requested
  (`SelectLaws.ModWatchesIff`, with `SelectLaws.ModInVain` as an instance);
- deleting the largest descriptor stops the watch over the others
  (`SelectLaws.DelUnwatchesOthers`, with `SelectLaws.DelBlinds` as an instance);
- shift drops upper levels (`SkipLists.SkipList.Shift`, `SkipLists.ShiftedIsStrong`).

How C is rendered: a struct embedded in another is an object with that struct as its
payload (`item`); an integer of type `uint64_t` is an integer with addition modulo 2^64,
and `int` results are narrowed explicitly; `forward[level]` is a sequence-valued field,
because the array is part of its node and cannot be shared; pointers given out as handles
are numbered (`Timers.EpTimer.handles`, `TaskQueues.TaskQueue.handles`). Effects of a
callback on a structure that the current phase of the loop does not read are applied at
the end of that phase. A slot behind the select buffer is a value of its own
(`SelectSpec.Delivery.Beyond`) about which nothing is claimed. select is taken to report on
no descriptor above the largest one it is told about; a system that leaves the bits of words
wholly above it as they were passed in would list such descriptors too, which can only be
seen after a delete of the largest descriptor or a modification above it.

`dafny verify dfyconfig.toml` checks everything.

## Model

| member | source | states |
|---|---|---|
| SkipLists.SkipList.Insert | src/skiplist.h:55-74 | puts the node behind every score <= its own in level-0 order, with an arbitrary height; keeps the weak structure, and the exact structure if it held |
| SkipLists.SkipList.InsertTower | src/skiplist.h:56-74 | the same for one given height: the height enters only the tower heights, never the list |
| SkipLists.SkipList.PassAbove | src/skiplist.h:61-66 | the first loop of insert: levels above the tower get a null pointer in the new node and stay, weak or exact, the level of the longer list |
| SkipLists.SkipList.ThreadBelow | src/skiplist.h:67-73 | the second loop: with the node spliced into the levels of its tower every level is, weak or exact, that of the longer list |
| SkipLists.SkipList.CutAll | src/skiplist.h:125-130 | the loop of extract_lte gives the header, level by level, the pointer of the last due node, and ends at the last due node of level 0 |
| SkipLists.SkipList.BypassAll | src/skiplist.h:79-92 | the loop of delete bypasses the node on exactly the levels its tower reaches |
| SkipLists.SkipList.Delete | src/skiplist.h:75-93 | unlinks exactly the given node, by identity, from every level of the exact structure inside a run of equal scores; an absent node changes no pointer |
| SkipLists.SkipList.FindInRun | src/skiplist.h:83-92 | the search through a run of equal scores finds the predecessor if and only if the node is listed and its tower reaches the level, and never steps past the node |
| SkipLists.SkipList.ExtractLte | src/skiplist.h:119-137 | splits at the first score above the bound: the chain returned is null-terminated and is the due prefix in order, the rest is the list on every level; nodes behind the cut are not written |
| SkipLists.SkipList.Shift | src/skiplist.h:138-147 | pops the first entry and keeps the weak structure; from the exact structure it keeps that if and only if the list was empty or no later tower is higher than the popped one |
| SkipLists.SkipList.Clear | src/skiplist.h:167-174 | hands over every node once, in order, and leaves the empty list |
| SkipLists.SkipList.constructor | src/skiplist.h:45-47 | an empty list satisfies the exact structure |
| SkipLists.ColumnAfterInsert | src/skiplist.h:61-73 | splicing a node into one level, or passing it by, keeps that level weak, and exact if it was |
| SkipLists.ColumnAfterRemove | src/skiplist.h:79-92 | handing the pointer of a removed node to its predecessor leaves exactly the level of the shorter list |
| SkipLists.ColumnAfterCut | src/skiplist.h:125-130 | giving the header the pointer of the last due node reached on a level leaves the level of the rest |
| SkipLists.ShiftedIsStrong | src/skiplist.h:141-144 | a level stays exact under shift if and only if the popped tower reaches it or no later one does |
| SkipLists.SkipList.StrongIsWeak | src/skiplist.h:55-137 | the exact structure implies the weak one |
| SkipListLaws.LevelsNest | src/skiplist.h:30-38 | in the exact structure every level followed from the header is null-terminated, a subsequence of the level below, and level 0 is the sorted list |
| SkipListLaws.NoEscape | src/skiplist.h:119-137 | no pointer of the header or a listed node leads outside the list, so a detached chain cannot be reached |
| SkipListLaws.InsertThenDelete | src/skiplist.h:55-93 | insert and then delete of the same node restores every pointer of every other node on every level, for any height |
| SkipListLaws.Replay | src/skiplist.h:55-147 | any legal run of insert, delete, extract_lte and shift, whatever heights are drawn, keeps the weak structure, and the exact one if there is no shift, and equals the abstract run, in which no height occurs; deletes are legal up to the first shift |
| SkipListLaws.Drain | src/skiplist.h:161-162 | the loop down a detached chain visits its entries in order |
| StableQueue.InsertSorted | src/skiplist.h:55-74 | insertion keeps the list sorted |
| StableQueue.InsertStable | src/skiplist.h:62-70 | a new entry comes last within its score and moves no other entry of any score |
| StableQueue.InsertAllIsStableSort | src/skiplist.h:55-74 | inserting any sequence is a stable sort of it |
| StableQueue.StableSortUnique | src/skiplist.h:55-74 | a stable sort of given entries is unique |
| StableQueue.SplitTwice | src/skiplist.h:119-137 | extracting up to a and then up to b >= a is extracting up to b |
| Timers.EpTimer.RunAfter | src/ep_timer.h:74-89 | refines registration of a one-shot timer at now + ms modulo 2^64 |
| Timers.EpTimer.RunEvery | src/ep_timer.h:91-106 | refines registration of an interval |
| Timers.EpTimer.Clear | src/ep_timer.h:142-147 | refines removal of the one pending timer with that handle; for an abandoned timer, whose node is in no list, the list is unchanged |
| Timers.EpTimer.UpdateTime | src/ep_timer.h:64-68 | the clock reading is stored; nothing else changes |
| Timers.EpTimer.FireOne | src/ep_timer.h:113-120 | one turn of the loop: the callback acts on the list, then an interval is re-armed by its period and re-inserted |
| Timers.EpTimer.RunChain | src/ep_timer.h:111-125 | the loop down the detached chain refines the abstract firing although callbacks change the list meanwhile |
| Timers.EpTimer.Execute | src/ep_timer.h:108-126 | final list and firings are those of the abstract call, for all callbacks |
| Timers.EpTimer.ExecuteNow | src/ep_timer.h:173-175 | the same with the clock refreshed first |
| Timers.EpTimer.Handle | src/ep_timer.h:74-175 | one call from outside, ep_timer_execute at any time included, refines one abstract event |
| Timers.EpTimer.Drive | src/ep_timer.h:74-175 | any legal run of registrations, clears, clock updates, ep_timer_execute at any time and ep_timer_execute_now on the heap object equals the abstract run |
| Timers.EpTimer.NearestDiff | src/ep_timer.h:128-140 | the head of level 0 gives the narrowed distance to the nearest deadline, -1 for no timer |
| Timers.EpTimer.Fini | src/ep_timer.h:149-153 | every pending timer is destroyed once, in order |
| TimerSpec.FiresDuePrefix | src/ep_timer.h:108-126 | a call fires a prefix of the timers due at entry in deadline order with ties in list order, each at most once, none later than now and none added or re-armed during the call |
| TimerSpec.FireTakesPrefix | src/ep_timer.h:111-125 | how many: all without a limit, else as many as the limit and at least one, even for limit 0; the others are abandoned |
| TimerSpec.NothingAbandoned | src/ep_timer.h:122-124 | nothing due is lost if and only if the limit is negative or at least the due count, or only one timer is due |
| TimerSpec.LimitLosesTimer | src/ep_timer.h:122-124 | two due timers and a limit of 1: one fires, the other is in no list afterwards |
| TimerSpec.ExecuteKeeps | src/ep_timer.h:108-126 | every call keeps the pending timers sorted with distinct handles |
| TimerLaws.Conservation | src/ep_timer.h:108-126 | pending before + registered + re-armed = pending after + fired + cleared + abandoned, timer by timer |
| TimerLaws.RunConservation | src/ep_timer.h:74-126 | over any run of calls: pending at the start + registered + re-armed = pending at the end + fired + cleared + abandoned, timer by timer |
| TimerLaws.FiredIntervalIsPending | src/ep_timer.h:115-117 | a fired interval is pending again with its deadline moved on by exactly its period, unless the call cleared it |
| TimerLaws.IntervalCall | src/ep_timer.h:108-126 | an undisturbed interval fires once if due and moves on by its period, else it stays |
| TimerLaws.DriftFree | src/ep_timer.h:91-126 | over any run, with any clock readings and anything else in between, an interval that is neither cleared nor abandoned nor wraps has deadline d + j*ms after j firings |
| TimerLaws.CatchUp | src/ep_timer.h:91-126 | in a run whose calls are all made for one time such an interval fires once per call until it has caught up, and no more |
| TimerLaws.CaughtUp | src/ep_timer.h:91-126 | once such a run has floor((now-d)/ms)+1 calls the interval has fired that often and its deadline is in (now, now+ms] |
| TimerLaws.OneShotRunInOrder | src/ep_timer.h:74-126 | over any run of one-shot timers with a clock that does not go back all firings together, and then the pending timers, are in deadline order, ties in registration order |
| TimerLaws.OneShotTraceSorted | src/ep_timer.h:74-175 | from a new timer the trace and the pending timers are in that order and are together exactly what was registered and neither cleared nor abandoned |
| TimerLives.RegistersAt | src/ep_timer.h:74-106 | registration adds one timer under the next number, with the stored time plus ms modulo 2^64 as deadline and period 0 or ms |
| TimerLives.SetsTimeout | src/ep.h:122-125 | ep_settimeout refreshes the clock first: the deadline is the reading plus ms modulo 2^64 |
| TimerLives.SetsInterval | src/ep.h:127-130 | likewise ep_setinterval |
| TimerLives.RearmsAt | src/ep_timer.h:115-117 | a fired interval's next deadline is its old one plus its period modulo 2^64 |
| TimerLives.CallbackRegistersAt | src/ep_timer.h:108-126 | what the first callback of a call registers is for the time that ep_timer_execute_now read, or that was stored before ep_timer_execute |
| TimerLives.RearmedGoesLast | src/ep_timer.h:113-120 | an interval is re-armed after its callback: it goes behind what the callback left pending with the same deadline |
| TimerLives.FiresWhenDue | src/ep_timer.h:108-126 | over any run a timer, one-shot or interval, that is neither cleared nor abandoned fires for the first time, and once, in the first call that reaches its deadline, and in no call before |
| TimerLives.StaysUntilDue | src/ep_timer.h:108-126 | until then it is pending |
| TimerLives.NeverAgain | src/ep_timer.h:108-147 | a timer that a step of a run clears, from outside or in a callback, abandons, or fires as a one-shot has no firing in the rest of the run, whatever happens there |
| TimerLives.GoneForGood | src/ep_timer.h:74-147 | a timer that was registered and is not pending is never pending and never fires again over any run |
| TimerLives.OneShotFiresOnce | src/ep_timer.h:74-126 | over any run a one-shot timer is still pending and has not fired, or has fired at most once and is gone |
| TimerLives.AbandonedMayBeCleared | src/ep_timer.h:122-147 | an abandoned timer may be cleared, once |
| TimerLives.PendingMayBeCleared | src/ep_timer.h:142-147 | a pending timer may be cleared, once |
| WaitSpec.WaitIsNearest | src/ep.h:80-91 | with the nearest deadline less than 2^31 ms ahead the wait is the minimum over all pending timers, capped by the hint |
| WaitSpec.WaitIs | src/ep.h:80-91 | with the smallest deadline less than 2^31 ms ahead the wait is max(0, deadline - now), or a smaller hint that is not negative |
| WaitSpec.WaitIsHint | src/ep.h:80-91 | without a pending timer the distance is -1 and the wait is the hint |
| WaitSpec.WakesInTimeIff | src/ep_timer.h:128-140 | the poll cannot sleep past a pending timer if and only if none is pending, the hint is not negative, or the distance to the nearest is not negative as an int |
| WaitSpec.SleepsPastFarTimer | src/ep_timer.h:128-140 | a concrete timer 2^31 ms ahead makes the wait endless |
| WaitSpec.NarrowingShrinks | src/ep_timer.h:139 | the conversion from 64 bits to int is congruent modulo 2^32, never exceeds the distance, and keeps it below 2^31 |
| RingLists.ListAddBetween | src/list.h:34-42 | a node put between neighbours at index k makes the ring of the longer sequence |
| RingLists.ListAdd | src/list.h:52-55 | the node becomes the first entry |
| RingLists.ListAddTail | src/list.h:65-68 | the node becomes the last entry |
| RingLists.ListDelBetween | src/list.h:77-81 | joining the neighbours of index k makes the ring of the shorter sequence |
| RingLists.ListDel | src/list.h:88-93 | the entry leaves its ring and its pointers are null |
| RingLists.ListDelInit | src/list.h:99-103 | the entry leaves its ring and is a ring of its own |
| RingLists.ListMove | src/list.h:110-114 | the entry leaves its ring for the front of another, disjoint, or of the same ring |
| RingLists.ListMoveTail | src/list.h:121-126 | likewise for the back |
| RingLists.ListEmpty | src/list.h:132-135 | true if and only if the sequence is empty |
| RingLists.ListIsLast | src/list.h:137-141 | true if and only if the entry is the last |
| RingLists.Splice | src/list.h:143-155 | the entries of one ring come in front of those of a disjoint one |
| RingLists.ListSplice | src/list.h:162-166 | the same, also for an empty source |
| RingLists.ListSpliceInit | src/list.h:175-182 | the target is source ++ target and the source is empty |
| RingLists.MutuallyInverse | src/list.h:34-42 | next and prev are mutually inverse all around a ring |
| RingLists.RingOfNeighbours | src/list.h:143-155 | nodes that name their neighbours in order form a ring |
| TaskQueues.TaskQueue.Push | src/ep_task_queue.h:47-61 | appends one task under the next number and hands out its node |
| TaskQueues.TaskQueue.Cancel | src/ep_task_queue.h:102-105 | removes exactly the task of the handle |
| TaskQueues.TaskQueue.Run | src/ep_task_queue.h:73-82 | calls and remaining queue are those of the abstract pass, although each callback pushes and cancels at will but for the running task and the saved successor |
| TaskQueues.TaskQueue.RunKeep | src/ep_task_queue.h:84-91 | calls and queue are those of the abstract walk, although each callback pushes and cancels at will but for the running task |
| TaskQueues.TaskQueue.RunOnce | src/ep_task_queue.h:93-100 | calls the first task only, and its callback acts on the queue without it |
| TaskQueues.TaskQueue.Fini | src/ep_task_queue.h:63-71 | empties the queue |
| TaskSpec.PassIsFifo | src/ep_task_queue.h:73-82 | calls followed by the remaining queue = old queue followed by all pushes, in order, without what was cancelled |
| TaskSpec.LeftByLastCall | src/ep_task_queue.h:73-82 | the remaining queue is exactly what the last callback makes of an empty queue |
| TaskSpec.PassStops | src/list.h:225-227 | the pass takes tasks first in, first out and ends with the first task that is alone in the queue when it is called |
| TaskSpec.PassUnique | src/list.h:225-227 | this stopping rule determines the pass |
| TaskSpec.PassesOfDrain | src/ep_task_queue.h:73-82 | any number of passes make the first calls of a drain and leave the others to be made |
| TaskSpec.PassesDrain | src/ep_task_queue.h:73-82 | one pass per task queued or pushed is always enough to drain the queue |
| TaskSpec.DrainIsFifo | src/ep_task_queue.h:73-82 | draining calls every task queued or pushed, and not cancelled, exactly once, in push order |
| TaskSpec.WalkCalls | src/ep_task_queue.h:84-91 | a walk calls every task queued or pushed during the walk exactly once in push order, but for those cancelled before their turn |
| TaskSpec.WalkSettles | src/ep_task_queue.h:84-91 | after a walk the queue is what was queued and what was pushed, in push order, without what was cancelled |
| TaskSpec.ScriptSettles | src/ep_task_queue.h:47-105 | after any legal history the queue is exactly what was queued and what was pushed, in push order, without what was cancelled |
| TaskSpec.HistoryThenWalk | src/ep_task_queue.h:47-105 | after any legal history of a new queue a walk that nobody disturbs calls exactly the pushes not cancelled, in push order |
| Selects.SelectState.Add | src/ep_select.h:87-110 | the descriptor joins exactly the sets of the requested bits and keeps its others, its data is stored, every other descriptor's sets and data are unchanged, and the largest descriptor is kept up to date; -1 and no change beyond FD_SETSIZE |
| Selects.SelectState.Mod | src/ep_select.h:112-137 | the descriptor is in exactly the sets of the requested bits, its data is stored, every other descriptor's sets and data and the largest descriptor are unchanged; -1 and no change beyond FD_SETSIZE |
| Selects.SelectState.Del | src/ep_select.h:139-160 | the descriptor leaves all sets and every other descriptor stays in its own; data is unchanged; if it was the largest, the largest becomes -1, because the set that is searched is never filled |
| Selects.SelectState.EventsOf | src/ep_select.h:187-199 | the mask has bit 1, 2 or 4 set exactly if the descriptor is ready for reading, writing or exceptions, and no other bit |
| Selects.SelectState.Wait | src/ep_select.h:162-209 | lists all ready descriptors, each once, in ascending order in front of the buffer however many bits select counted |
| Selects.SelectState.Scan | src/ep_select.h:184-206 | the compaction loop stops early only when all ready descriptors are listed |
| Selects.SelectState.Fetch | src/ep_select.h:211-228 | returns the number of slots left and takes the last; 0 and no change if none is left |
| Selects.SelectState.Sweep | src/ep_select.h:211-228 | the fetches of an ep_for_each that is left in any round deliver the buffer from the last slot on with returns n, n-1, ..., and leave the other slots |
| Selects.SelectState.Drain | src/ep_select.h:211-228 | fetching to the end delivers the buffer reversed with returns n, n-1, ..., 1 |
| Selects.SelectState.WaitAndDrain | src/ep_select.h:162-228 | a wait and its fetches deliver, last, each ready descriptor in descending order with its registered data and a mask with exactly its ready bits; and nothing else if and only if no descriptor is in two sets, whatever the count |
| SelectSpec.CountIffOneSetEach | src/ep_select.h:182-206 | the bits counted by select equal the entries listed if and only if no descriptor is in two sets |
| SelectSpec.BatchIsListing | src/ep_select.h:182-206 | the slots to fetch after a wait are exactly one entry per ready descriptor, ascending, if and only if no descriptor is in two sets |
| SelectSpec.NeverTwiceIffDisjoint | src/ep_select.h:166-182 | no report can have a descriptor in two sets if and only if no descriptor is registered in two |
| SelectSpec.BeyondIff | src/ep_select.h:208-228 | a slot to be fetched lies behind the buffer if and only if select counts more than 1024 bits |
| SelectSpec.NeverBeyondIff | src/ep_select.h:166-228 | no report can lead behind the buffer if and only if no more than 1024 bits are registered |
| SelectSpec.ReadsBeyond | src/ep_select.h:208-228 | a report with all descriptors ready for reading and one also for writing leads behind the buffer |
| SelectSpec.CountedTwice | src/ep_select.h:182-206 | a concrete report with one descriptor in two sets: count 2, one entry |
| SelectSpec.FdsAscend | src/ep_select.h:186-206 | the listed descriptors ascend and are exactly the ready ones |
| SelectSpec.MaskTells | src/ep_select.h:187-199 | the mask's bits 1, 2 and 4 are set exactly for the ready kinds, and no other bit is |
| SelectSpec.ListingInOrder | src/ep_select.h:201-205 | entry k holds the registered data of the k-th ready descriptor and a mask with exactly its ready bits |
| SelectLaws.BatchSlots | src/ep_select.h:182-228 | after a wait slot k is for the k-th ready descriptor; behind those it is the entry that was there before, and from 1024 on it lies behind the buffer |
| SelectLaws.WaitStores | src/ep_select.h:182-206 | a wait stores what select returned and changes no registration; an error leaves the entries as they were |
| SelectLaws.ModWatchesIff | src/ep_select.h:112-137 | after a modification the descriptor is watched for exactly the kinds whose bits are requested, and the others as before, if and only if it is not above the largest added one or no kind is requested |
| SelectLaws.ModUnwatched | src/ep_select.h:112-137 | above the largest added one a modification changes nothing in what select watches, also beyond FD_SETSIZE |
| SelectLaws.ModInVain | src/ep_select.h:112-137 | a concrete run: add 3, modify 5; 5 is wanted but not watched |
| SelectLaws.DelUnwatchesOthers | src/ep_select.h:139-160 | after a deletion the others are watched for the same kinds as before if and only if the deleted one is not the largest added one or no other is watched |
| SelectLaws.DelForgets | src/ep_select.h:139-143 | a deleted descriptor is wanted and watched for nothing |
| SelectLaws.DelBlinds | src/ep_select.h:139-160 | a concrete run: add 3, add 5, delete 5; 3 is wanted but not watched |
| SelectLaws.RegisteredLast | src/ep_select.h:87-160 | after any sequence of registrations a descriptor is wanted for a kind if and only if some add or mod asked for it, or it was wanted before, and no later del and no later mod without it followed; its data is that of the last add or mod, or as before |
| SelectLaws.RegisteredTop | src/ep_select.h:104-157 | the largest descriptor after any sequence of registrations |
| Loops.EpState.WaitTime | src/ep.h:80-91 | refreshes the clock and returns the capped distance to the nearest timer |
| Loops.EpState.Do | src/ep.h:68-78 | callbacks or the program edit both queues, act on the timers and add, modify and delete descriptors, as the abstract effects say |
| Loops.EpState.TickAndWait | src/ep.h:93-99 | tick tasks, walk, timers with limit 128 and wait, each once, in this order, refine the abstract turn |
| Loops.EpState.Iterate | src/ep.h:104-120 | one iteration on the objects equals the abstract iteration: a fetch if slots are left, else a turn, a wait and a fetch |
| Loops.EpState.ForEach | src/ep.h:93-102 | an ep_for_each on the objects, left in any round or run to its end, with whatever its body does and whatever was left to fetch before, equals the abstract one: it delivers the slots of its own wait from the last on and keeps those not taken |
| Loops.EpState.Drive | src/ep.h:68-150 | any legal run of ep_iterate, ep_for_each and outside calls, pushes, cancels, timer calls and registrations, on the objects equals the abstract run |
| Loops.EpState.Fini | src/ep.h:60-66 | timers and both queues end empty |
| LoopLaws.EveryWait | src/ep.h:93-120 | along every run, whichever way each wait was entered, it fills as many slots as select counted; ep_iterate takes the last and ep_for_each the last ones; the following iterations return the others in descending order with returns m, m-1, ..., 1 before the loop waits again, and only an ep_for_each in between loses them; the slots are one entry per ready descriptor if and only if none is in two sets, which disjoint registration ensures; none lies behind the buffer unless more than 1024 bits are counted; the wait sleeps past a timer only in the one case of WakesInTimeIff |
| LoopLaws.RunDrains | src/ep.h:93-120 | a run that begins with slots left first fetches them, unless an ep_for_each loses them |
| LoopLaws.EachSlotOnce | src/ep.h:93-120 | delivered + lost to an ep_for_each + still in the buffer = in the buffer before + filled by the waits, slot by slot |
| LoopLaws.ForEachIsIterations | src/ep.h:93-120 | from a drained buffer an ep_for_each, left in any round or run to its end, equals one ep_iterate per slot taken, or one if there is none, and then what its body does: same state, same deliveries in the same order |
| LoopLaws.TicksAreFifo | src/ep.h:93-150 | over every run the calls of next-tick tasks followed by the tasks still queued are the queue at the start followed by all pushes, from callbacks and from outside, in order, without those cancelled |
| LoopLaws.EveryQueueSettles | src/ep.h:93-150 | over every run the tasks of every tick are those queued at the start and those pushed since, in order, without those cancelled |
| LoopLaws.EveryWalk | src/ep.h:93-150 | every turn of every run walks exactly the every-tick tasks queued at the start or pushed since, also during the walk, in push order, without those cancelled before their turn |
| LoopTimers.LoopDrivesTimers | src/ep.h:93-120 | seen from the timers every run of the loop is a run of the scheduler |
| LoopTimers.LoopFiresInOrder | src/ep.h:93-130 | over whole runs of a loop without timers yet one-shot timers fire in deadline order, ties in registration order, and those fired or pending are exactly those registered and neither cleared nor abandoned |
| LoopTimers.LoopIsDriftFree | src/ep.h:104-130 | over every run of the loop an undisturbed interval has deadline d + j*ms after j firings |
| LoopTimers.TurnFires | src/ep.h:93-112 | in a turn behind any run exactly the first 128 of the due timers fire, all of them if and only if they are no more than 128; the others are gone |
| LoopTimers.LoopFiresWhenDue | src/ep.h:93-120 | over every run of the loop an undisturbed timer fires for the first time in the first turn whose clock reaches its deadline, and not before |
| LoopTimers.LoopWakesFor | src/ep.h:80-120 | and every wait before that ends by its deadline, unless the distance to the nearest one does not fit in an int and there is no hint |
| LoopTimers.LoopNeverAgain | src/ep.h:93-120 | a timer that has gone never fires in any run of the loop |
| LoopPolls.RunRegisters | src/ep.h:68-120 | over every run the registered descriptors and their data are those that all registrations together, of callbacks, bodies and from outside, make of those at the start |
| LoopPolls.EveryWaitAsks | src/ep.h:68-120 | at every wait of every run select is asked about exactly the descriptors and kinds that the registrations so far leave wanted, up to the largest one; the data is that of the last add or mod |
| LoopPolls.DeliversLastData | src/ep.h:68-120 | the slot that a wait fills for a ready descriptor holds the data of its last add or mod in the run and exactly the bits of its ready kinds, each of which was asked for |

## Left out

- `skiplist_extract` (`src/skiplist.h:94-118`): its result is read after the link was overwritten and an empty range makes it read a null pointer; the timer does not use it.
- Delete after shift: shift drops upper levels, so that delete unlinks a node from every level is claimed for the exact structure only.
- `src/singly_list.h`: only push and then drain works there, which would add easy members.
- Negative descriptors, and `ep_select_del` beyond FD_SETSIZE: FD_SET and FD_CLR are not defined for them.
- What a fetch reads behind the 1024 slots of the buffer is not modelled.
- Callbacks that clear the running timer, a timer of the detached chain, the running task or the saved next task: the C code then uses freed memory.
- Callbacks, and bodies of `ep_for_each`, that call `ep_iterate` or `ep_for_each` themselves.
- Callbacks that push forever: a pass or a walk has finitely many scripts, later calls leave the queue alone, as its termination needs.
- `src/ep_epoll.h`, `src/ep_kqueue.h`, `src/ep_sock.h`, `src/ep_fcntl.h`, `src/platform.h`: system calls and thin wrappers.
- `gettimeofday`, failing allocation, `free` and the probabilities of `random()`: the clock is an input, allocation succeeds, nothing is freed, heights are arbitrary; no statement about expected cost is made.
- `list_for_each_prev` and the other unused iteration macros; `container_of` arithmetic and token pasting.
