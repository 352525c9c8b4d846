# Models of the application middleware

This project models the parts of the middleware whose correctness is hardest to see in the C
text, and proves what they promise. To check it, run `dafny verify dfyconfig.toml`.

**The handle library (`mw/handle.c`).** A slot allocator in one growable array, with three
kinds of list threaded through the same slots by 16-bit index. `HandleModel` gives every API
call as a function on values: each list is a sequence of slot numbers, and a client callback
is a finite script of library calls, to any depth, together with the callback's answer. A run
is a list of such calls. An abort of the library, or a call its documentation forbids and the
code does not check, stops the run and is recorded in `halt`. `HandleInv` is the global shape
of the array and its preservation by each step; `HandleRuns` carries it, together with what a
call leaves as it was, through all nestings of callbacks; `HandleTheorems`, `HandleParse`,
`HandleFreeAll` and `HandleFreed` are the results clients rely on, `HandleAnswers` says when each
call gives which answer, and `HandleScenarios` has runs from initialisation that show where they end. `HandleThreads` and `HandleLibrary` are the C
form: class `HandleLib` holds the slot array, the free-list head and the counters, re-threads
`hNext`, `hPrev`, `auxNext`, `auxPrev` in place, and every method is proved to leave exactly
the state its function computes. `AeeTeardown` is the loop of `aee_free_handle` on top of it.

**The timer daemon (`timerd/_timer.c`).** `TimerModel` has the daemon on values, in
nanoseconds; `TimerList` the sorted list and the argument blocks; `TimerExpiry` the expiry
loop; `TimerRuns` whole runs. A round of the loop has two halves, since the daemon unlocks before
it reads the timer again to call back; API calls of other threads may come in between any two
rounds and between the halves of one. `TimerWindow` says what calls of the second kind do.
`TimerService` is the C form: a circular doubly linked ring spliced in
place, seconds and nanoseconds with their carries, and a heap of argument blocks.

**Starting and exiting applications (`am/amb/amb.c`, `am/am.c`, `am/aee/appman.c`).**
`AmProtocol` is a transition system: clients, the manager's thread and application threads,
FIFO queues, two binary semaphores, retry loops. `AmInvariant` and `AmTheorems` prove what
every interleaving keeps, `AmAnswers` what each request does and each call returns.
`AppLoop` is the message loop of one application.

**The console (`cli/cli_parser.c`, `cli/cli_input.c`).** `CliTokens` splits a line,
`CliTables` attaches and detaches command tables in two parallel arrays, `CliDirs` and
`CliConsole` are `cd` and dotted commands, `CliLookup` says which entries they find, and
`CliDecrypt` is the auto-key decoder.

`Seqs` holds facts about sequences used by the list models.

## Where the code does not do what its comments or callers suggest

- `handle_parse` can abort on a shrinking count when parses nest: `HandleParse.ParseAbortReachable`
  says exactly when, `HandleScenarios.NestedParseAborts` is a run, and `HandleParse.ParseNeverLost`
  that it cannot without nesting.
- It can also go on, unnoticed, with a handle that is no longer on the list:
  `HandleParse.CursorLostReachable` says exactly when, `HandleScenarios.NestedParseLoses` is a run.
- A slot freed by `u_handle_free_all` can be in use again when the call returns, if a later
  callback allocates: `HandleScenarios.FreedSlotInUse`, and `HandleFreed.FreeExactly` for when;
  `HandleFreed.FreedStayFree` is the guarantee when none does.
- A handle value is issued again after 128 cycles of one slot, not later: `HandleTheorems.HandleReissued`.
- The block of a repeating timer, and that of a rejected `u_timer_start`, is never released,
  although the comment at `timerd/_timer.c:48` says blocks are: `TimerRuns.NeverFreed`.
- The timer daemon unlocks before it reads the timer it is about to call back for
  (`timerd/_timer.c:168-177`). If another thread (starts and deletes come from application
  threads, as in `doc/sample/sample.c:211-214`) starts or deletes it in between, the daemon
  follows a NULL pointer (`TimerWindow.RestartedOnceFaults`), sends the message of the new start
  at once (`TimerWindow.RestartedRepeatEarly`) or reads memory given back
  (`TimerWindow.DeletedFaults`); a timer stopped there still calls back.
  `TimerWindow.OnTimeExactly` is the exact condition.
- With two synchronous clients at once, one can be told that its request succeeded before it
  was received: `AmTheorems.WrongCallerWakes`, `AmTheorems.StartReportedTooEarly`. The mutex is
  taken only by `u_amb_register_app`. The manager's answer is then written through the address
  of a result that is no longer there: `AmTheorems.StaleReply`.
- An exit whose `pf_exit` fails is answered with OK and the handle is dropped while the
  application runs on: `AmTheorems.ExitOutcome`; `AmTheorems.ExitedButAlive` is a run.
- A broadcast is answered with what became of the last application tried, whatever became of the
  others: `AmTheorems.BroadcastOutcome`.
- A line of `~` alone makes the decoder's 32-bit loop bound wrap and leave the buffer:
  `CliDecrypt.DecryptCmd`.
- At the depth limit `cd name` succeeds and returns to the root: `CliDirs.UpUndoesDown`.
- Attaching a table without an abbreviation over one of its name that has one compares a NULL
  string: `CliTables.AttachReadsNull`.
- The root entry's link stays on a first table that is replaced or detached:
  `CliTables.AttachKeepsRoot`, `CliTables.DetachKeepsRoot`.

## Model

| member | source | states |
|---|---|---|
| HandleTheorems.RunKeepsShape | mw/handle.c:567-1163 | after any run of calls from initialisation, whatever the callbacks do: each slot is inactive and on the free list exactly once, or active; primary lists are disjoint and hold exactly the slots linked to them; the slots naming an auxiliary head are exactly those on its list and the head is active; in-use, per-group and peak statistics are right; no PARSING, FREE_ALL or FREEING mark is left behind |
| HandleRuns.ExecAllKeeps | mw/handle.c:885-1163 | every run keeps the shape and its caller's guarantee: generations only grow, slots being freed or parsed by an enclosing call stay so, lists being parsed lose only flagged members and gain only at the tail |
| HandleRuns.ExecKeeps | mw/handle.c:567-1850 | the same for one call of any kind with all its nested callbacks |
| HandleRuns.CallFreeKeeps | mw/handle.c:906-989 | one freeing keeps them across the client's free callback |
| HandleRuns.FreeAllLoopKeeps | mw/handle.c:1063-1144 | the loop of u_handle_free_all keeps them across all its callbacks |
| HandleRuns.CallParseKeeps | mw/handle.c:1784-1796 | one parse callback keeps them |
| HandleRuns.ParseLoopKeeps | mw/handle.c:1772-1841 | the loop of handle_parse keeps them across all its callbacks |
| HandleInv.InitInv | mw/handle.c:1302-1428 | initialisation establishes the shape |
| HandleInv.AllocInv | mw/handle.c:567-664 | allocation, with or without growth, keeps it |
| HandleInv.GrowInv | mw/handle.c:1430-1519 | growth adds inactive slots to array and free list and changes no list and no count |
| HandleInv.LinkInv | mw/handle.c:1563-1633 | linking keeps it |
| HandleInv.DelinkInv | mw/handle.c:770-863 | delinking keeps it |
| HandleInv.LinkAuxInv | mw/handle.c:2062-2121 | linking to an auxiliary head keeps it |
| HandleInv.LeaveAuxInv | mw/handle.c:351-388 | leaving an auxiliary list keeps it and changes only that list |
| HandleInv.RetireFacts | mw/handle.c:945-978 | a freed slot either was still linked, and the library aborts, or leaves its auxiliary list and joins the free list |
| HandleTheorems.HandleDecodes | mw/handle.c:213-251 | the handle of an active slot is not NULL_HANDLE and decodes to that slot; the only value that does is the slot number plus 65536 times the count modulo 256 |
| HandleTheorems.HandlesDistinct | mw/handle.c:213-251 | two active slots never share a handle value |
| HandleTheorems.HandleAfterRun | mw/handle.c:232-251 | a handle valid before a run is valid after it exactly if its slot is active and its count advanced by a multiple of 256; otherwise it is rejected, never taken for another slot |
| HandleTheorems.StaleHandleRejected | mw/handle.c:648-652 | with n the number of allocations and frees of the slot in a run: for n = 0 a handle decodes to the same slot and type, for 0 < n < 256 it is rejected, and it is accepted exactly if n is a multiple of 256; it is never taken for another slot |
| HandleTheorems.GenCounts | mw/handle.c:648-652 | in every well-shaped state the count of a slot is the number of its allocations and frees so far |
| HandleTheorems.HandleReissued | mw/handle.c:959-960 | the same value comes back after exactly each 128th free-and-allocate cycle: the bound of StaleHandleRejected is tight |
| HandleTheorems.CyclesReuseSlot | mw/handle.c:597-664 | the free list is last-in first-out: n cycles reuse one slot and bump its count 2n times |
| HandleTheorems.AllocSucceeds | mw/handle.c:597-633 | allocation succeeds exactly if the 16-bit range has room, and then issues a handle of the first free slot with the given type, object and tag |
| HandleTheorems.AllocTransparent | mw/handle.c:1430-1519 | every handle valid before an allocation, growing or not, decodes to the same unchanged slot after it |
| HandleParse.CallbackKeepsRest | mw/handle.c:1784-1796 | a parse callback can remove from its list only its own slot and slots of enclosing parses; it is called once with the position and the count |
| HandleParse.OnlyCurrentLeaves | mw/handle.c:803-805 | if only the current slot is flagged every other member survives the callback and the count drops by at most one |
| HandleParse.ParseAbortReachable | mw/handle.c:1800-1826 | some callback makes the count drop by two, hence the abort, exactly if another member of the list is flagged by an enclosing parse |
| HandleParse.CursorLostReachable | mw/handle.c:1776-1826 | some callback takes the saved next slot off the list, so that the loop goes on with it unnoticed, exactly if that slot is flagged by an enclosing parse |
| HandleScenarios.NestedParseAborts | mw/handle.c:1800-1826 | a run from initialisation, for every size, in which a parse nested in a parse takes the abort |
| HandleScenarios.NestedParseLoses | mw/handle.c:1776-1821 | a run from initialisation in which a nested parse goes on with a handle that is not on its list |
| HandleParse.ParseNeverLost | mw/handle.c:1740-1850 | without nested parses the saved next slot is always still on the list and that abort is never taken |
| HandleParse.ParseVisitsAll | mw/handle.c:1740-1850 | if callbacks link nothing into the list and answer HP_NEXT each original member is visited exactly once, in order, with an index equal to its current position |
| HandleParse.DelinkWorks | mw/handle.c:770-863 | delinking a member by its handle takes exactly that member out and changes no other slot |
| HandleFreeAll.FreeAllEffect | mw/handle.c:1022-1163 | with well-behaved callbacks, HR_OK exactly if every callback accepts, and then the list is empty; otherwise the rest is the suffix from the refused handle, alive and unmarked; every slot in front of it was freed |
| HandleFreeAll.FreeLoopEnds | mw/handle.c:1063-1144 | with well-behaved callbacks the loop ends by the length of the list: it makes no callback beyond one for each member |
| HandleFreed.FreedStayFree | mw/handle.c:1022-1163 | if no callback allocates, at any depth, each freed member is inactive, on the free list and freed exactly once when the call returns, and the free list ends as it was and has grown by at least their number |
| HandleFreed.FreeExactly | mw/handle.c:1022-1163 | with any well-behaved callbacks, allocating ones too, a freed member is free when the call returns exactly if its slot was allocated and freed an odd number of times in it |
| HandleFreed.FreeListExact | mw/handle.c:959-976 | if the callbacks neither allocate nor free, the free list is the freed members, the last one first, in front of what it was |
| HandleFreed.ExecThrift | mw/handle.c:885-1850 | a call that allocates nothing, with all its nested callbacks, only frees: free slots stay free in place, each other slot keeps its count or was freed once |
| HandleScenarios.FreedSlotInUse | mw/handle.c:1063-1144 | a run from initialisation in which u_handle_free_all succeeds and a slot it freed is in use again when it returns |
| HandleAnswers.AllocAnswers | mw/handle.c:567-664 | allocation refuses the reserved type and fails without room, and only then; a new handle holds the type, object and tag given and is on no list |
| HandleAnswers.AllocGrowth | mw/handle.c:1430-1519 | the array grows by 1000 slots exactly if an allocation leaves 10 or fewer free, and the new ones are then the first free ones, the highest in front |
| HandleAnswers.LinkAnswers | mw/handle.c:1563-1633 | each answer of linking exactly: invalid or reserved, already on a list, or last on the list with nothing else changed; an error changes nothing |
| HandleAnswers.DelinkAnswers | mw/handle.c:770-863 | each answer of delinking exactly: invalid, on no list, not allowed during a parse unless it is the one called back for, or off its list with nothing else changed |
| HandleAnswers.LinkAuxAnswers | mw/handle.c:2062-2121 | each answer exactly; after OK the slot names the head and is the first on its list, and no other slot changed |
| HandleAnswers.DelinkAuxAnswers | mw/handle.c:2134-2168 | each answer exactly; after OK the slot names no head and is off the list it was on, and no other slot changed |
| HandleAnswers.NextAuxAnswers | mw/handle.c:2186-2227 | from a head the first member, from the member at position k the one at k + 1, and NULL_HANDLE at the end and for a handle on no list |
| HandleAnswers.NextAuxInvalid | mw/handle.c:2186-2227 | the code is HR_INV_HANDLE exactly for an invalid handle, with NULL_HANDLE |
| HandleAnswers.SetObjAnswers | mw/handle.c:1936-1960 | OK exactly for a valid handle, whose object is then the new one and nothing else changed |
| HandleAnswers.FreeAnswers | mw/handle.c:885-1003 | HR_FREE_NOT_ALLOWED exactly if the slot is being freed already, the callback refuses or an auxiliary head has members, and then the handle stays valid and, if the callback made no calls, nothing changed; HR_OK exactly if this call freed the slot, which is then the first free one |
| HandleAnswers.FreeAllGuards | mw/handle.c:1022-1060 | refused exactly during a parse of the list or inside itself, changing nothing |
| HandleAnswers.ParseGuards | mw/handle.c:1740-1771 | refused exactly inside itself for the same list, changing nothing; otherwise OK |
| HandleAnswers.ParseGoesOn | mw/handle.c:1784-1841 | after HP_BREAK no further callback for the list; after HP_RESTART the next one is for the then first member with index 0; after HP_NEXT it is for the member that was behind the current one, the index not advanced if the count went down; any other answer aborts |
| HandleFreeAll.RoundEffect | mw/handle.c:1069-1143 | one round removes the head and invalidates its handle if the callback accepts, and changes nothing of the list if it refuses |
| HandleFreeAll.AcceptTakesOne | mw/handle.c:1084-1092 | a callback that delinks its own handle leaves all other members as they were |
| HandleFreeAll.ExecAllAlone | mw/handle.c:770-1163 | calls that do not name a list leave its members, their order and their handles alone |
| HandleLibrary.HandleLib.constructor | mw/handle.c:1302-1428 | slots threaded on the free list, slot 0 sacrificed, counters clear |
| HandleLibrary.HandleLib.Alloc | mw/handle.c:567-664 | the array after the call is the one of the model's allocation: popped, grown when 10 or fewer are left, count bumped, statistics updated, handle issued |
| HandleLibrary.HandleLib.Expand | mw/handle.c:1430-1519 | 1000 more slots threaded in front of the free list, old slots untouched |
| HandleLibrary.HandleLib.Link | mw/handle.c:1563-1633 | the in-place list is the model's list with the slot at the tail, or the error and no change |
| HandleLibrary.HandleLib.Delink | mw/handle.c:770-863 | the in-place list is the model's without the slot, for head, tail and middle, or the error and no change |
| HandleLibrary.HandleLib.LinkAux | mw/handle.c:2062-2121 | the slot is threaded in behind the auxiliary head, count and back links right |
| HandleLibrary.HandleLib.DelinkAux | mw/handle.c:2134-2168 | the slot is unthreaded from its auxiliary list |
| HandleLibrary.HandleLib.NextAux | mw/handle.c:2186-2227 | the handle of the next slot on the auxiliary list, from the head or a member |
| HandleLibrary.HandleLib.SetObj | mw/handle.c:1936-1960 | the object of a valid handle is replaced |
| HandleLibrary.HandleLib.GetTypeObj | mw/handle.c:1233-1290 | type and object of a valid handle |
| HandleLibrary.HandleLib.Free | mw/handle.c:885-1003 | freeing with its callback: FREEING set, callback run, slot retired or mark taken back; the code and the state are the model's, told by `HandleAnswers.FreeAnswers` |
| HandleLibrary.HandleLib.ReleaseSlot | mw/handle.c:959-976 | the slot is inactivated and becomes the first free one, statistics updated |
| HandleLibrary.HandleLib.FreeAll | mw/handle.c:1022-1163 | the guards and the loop leave the state of the model's free-all |
| HandleLibrary.HandleLib.FreeMembers | mw/handle.c:1063-1144 | the loop over the head of the list computes the model's loop |
| HandleLibrary.HandleLib.Parse | mw/handle.c:1740-1850 | the guards and the loop leave the state of the model's parse |
| HandleLibrary.HandleLib.ParseMembers | mw/handle.c:1772-1841 | the loop over saved next links computes the model's loop, callbacks included |
| HandleLibrary.HandleLib.Run | mw/handle.c:567-1850 | a whole run on the array ends in the state of the model's run |
| AeeTeardown.TeardownEffect | am/aee/aee.c:677-722 | the teardown never aborts; the auxiliary head and every secondary member are free, every primary member is active, unlinked and otherwise unchanged, no other slot and no primary list changed |
| AeeTeardown.DrainEffect | am/aee/aee.c:691-713 | the loop visits each member once and empties the list |
| AeeTeardown.FreeOwned | am/aee/aee.c:691-716 | the loop by handles, saving the next one before each delink, performs exactly those calls |
| AeeTeardown.AutoFree | mw/handle.c:2327-2370 | auto-free of any handle on the array: ignored, nothing, freed, the abort, or the read past the registered table, as specified |
| AeeTeardown.AutoFreeEffect | mw/handle.c:2327-2370 | auto-free goes through exactly for an invalid handle, a primary one, and a secondary one that is unlinked and not being freed; only the last is freed, everything else aborts and changes nothing |
| AeeTeardown.FreeHeadStep | mw/handle.c:301-333 | an auxiliary head without members can be freed |
| TimerList.InsertStable | timerd/_timer.c:60-84 | a timer is added behind every timer due no later and in front of every timer due later, and the list stays sorted |
| TimerList.RemoveUndoesAdd | timerd/_timer.c:87-113 | removing a timer undoes adding it |
| TimerList.RunInv | timerd/_timer.c:116-316 | on every run, API calls falling anywhere between the halves of the rounds, the list is sorted without duplicates, listed timers hold live blocks, no two timers share one, every block is live or was released exactly once, and everything delivered was the contents of the block it is logged for |
| TimerList.TakeInv | timerd/_timer.c:134-316 | every API call and each half of a round keeps that |
| TimerList.FireEffect | timerd/_timer.c:134-180 | an uninterrupted round: the head fires with its deadline and its block's bytes; a one-shot leaves the list and gives up its block, a repeating timer is listed exactly one interval later |
| TimerList.BeginEffect | timerd/_timer.c:136-168 | the first half of a round does that to list and blocks and leaves the copy of what a one-shot is to deliver |
| TimerList.CallInv | timerd/_timer.c:169-178 | the second half sends the copy, or the contents of the block the timer now holds, or faults; it changes no list and no block |
| TimerExpiry.FireWork | timerd/_timer.c:134-180 | each round leaves one firing fewer to come: the loop ends for every list and clock |
| TimerExpiry.FiresExact | timerd/_timer.c:157-167 | the number of firings of a repeating timer is the number of its deadlines before now |
| TimerExpiry.ExpiryLoop | timerd/_timer.c:134-180 | callbacks come in order of deadline; every timer fires exactly as often as it has deadlines before now, the k-th time exactly k intervals after the first; a fired one-shot is off the list; afterwards no listed timer is before now |
| TimerRuns.DeliversLatestStart | timerd/_timer.c:192-269 | from a successful start, made while no callback for the timer is due, to the next call that names it, with any calls for other timers at any point: it calls back only with the bytes of that start, the k-th time for the deadline start + k * delay; a repeating timer stays listed with its block; a one-shot expires at most once and its block is released exactly when it has |
| TimerWindow.WindowOutcome | timerd/_timer.c:168-178 | after any calls between the halves of a round: deleted, the thread reads freed memory; not started again, or a one-shot last started as one, the message of the expiry is sent; a repeating timer last started as a one-shot, the NULL copy is followed; last started as repeating, the message of that start is sent at once |
| TimerWindow.OnTimeExactly | timerd/_timer.c:168-178 | the message of the expiry, and nothing else, is sent exactly if none of those calls deletes the timer and it is not started again, or was a one-shot and last started as one |
| TimerWindow.NoFault | timerd/_timer.c:116-190 | on every run in which no timer is deleted, or started as a one-shot after it expired as a repeating one, while its callback is due, the thread never faults |
| TimerWindow.RestartedOnceFaults | timerd/_timer.c:169-173 | a run from initialisation in which the thread follows the NULL pointer |
| TimerWindow.RestartedRepeatEarly | timerd/_timer.c:174-176 | a run in which a message is sent a second before its timer is due for the first time |
| TimerWindow.DeletedFaults | timerd/_timer.c:169-177 | a run in which the thread reads a deleted timer |
| TimerRuns.NeverFreed | timerd/_timer.c:87-97 | the block of a repeating timer or of a rejected start is never released |
| TimerRuns.TakingOffList | timerd/_timer.c:209-316 | stop, delete and restart release the block of a listed timer exactly if it is a one-shot; a stopped timer keeps the remaining time |
| TimerRuns.StartEffect | timerd/_timer.c:192-269 | a start is accepted exactly for a positive delay and a flag of once or repeat; the timer is then listed at now plus delay milliseconds with a fresh block; a rejected one changes no timer and no list, but the block it allocated stays; other timers keep fields and order either way |
| TimerRuns.StopEffect | timerd/_timer.c:270-316 | stopping an unlisted timer changes nothing; a listed one leaves the list with its remaining time and, if it repeats, its block; deleting takes it off, removes it, and marks a callback due for it; other timers keep fields and order |
| TimerService.TimesAreExact | timerd/_timer.c:39 | on normalised times comparison, carrying sum and borrowing difference are exact and normalised |
| TimerService.Splice | timerd/_timer.c:75-78 | the four assignments of the insertion keep the ring in both directions |
| TimerService.Unsplice | timerd/_timer.c:105-106 | the two assignments of the removal keep the ring in both directions |
| TimerService.TimerDaemon.ListAdd | timerd/_timer.c:60-84 | the ring is the model's list with the timer added; `previous` is non-NULL exactly for listed timers |
| TimerService.TimerDaemon.ListRemove | timerd/_timer.c:87-113 | the ring is the model's list without the timer, links cleared, a one-shot's block released |
| TimerService.TimerDaemon.BeginRound | timerd/_timer.c:136-168 | the round up to the unlock on the ring: copy made, head taken off, listed again if repeating; no released block is read |
| TimerService.TimerDaemon.Callback | timerd/_timer.c:169-178 | the rest, after any API calls: the timer is read again, the message sent is the copy or the block's, or the fault is the model's |
| TimerService.TimerDaemon.Round | timerd/_timer.c:136-178 | both halves without calls in between are the model's uninterrupted round |
| TimerService.TimerDaemon.ExpiryLoop | timerd/_timer.c:134-180 | the loop ends and leaves the model's state |
| TimerService.TimerDaemon.TimerStart | timerd/_timer.c:192-242 | arguments checked, restarted if listed, times set with carry, listed again |
| TimerService.TimerDaemon.Start | timerd/_timer.c:250-269 | the block is allocated, then the timer started |
| TimerService.TimerDaemon.Stop | timerd/_timer.c:270-297 | a listed timer is taken off and left with the time that remained |
| TimerService.TimerDaemon.Delete | timerd/_timer.c:300-316 | a listed timer is taken off, the timer is given back, and a callback due for it is marked |
| TimerService.TimerDaemon.Create | timerd/_timer.c:354-372 | a new timer is not listed and holds no block |
| AmTheorems.SoloRunInv | am/amb/amb.c:149-261 | with one synchronous client at a time every interleaving keeps the protocol invariant |
| AmTheorems.WakesForOwnAnswer | am/amb/amb.c:149-261 | a client about to pass the semaphore holds the answer to its own request; success of a start means pf_init had returned OK and the manager then had a handle on record; what the call then returns is `AmAnswers.ReturnsAreTrue` |
| AmTheorems.LockedBetween | am/amb/amb.c:207-261 | both binary semaphores are locked between requests |
| AmTheorems.StartOutcome | am/am.c:582-618 | the manager answers a start with what pf_init returned, keeps the handle exactly if that was OK, the thread lives exactly then, and no other record changes |
| AmTheorems.ExitOutcome | am/am.c:694-729 | the manager answers an exit with OK and drops the handle, and no other, whatever pf_exit returned; the thread lives on exactly if it failed |
| AmTheorems.ExitedButAlive | am/am.c:694-729 | a run from the initial state in which an exit returns OK to its client while the application lives on without a handle on record |
| AmTheorems.BroadcastOutcome | am/am.c:799-872 | a broadcast puts one message in the queue of each running application that accepts it and of no other; the answer is OK exactly if none is running or the one registered first accepted |
| AmTheorems.NoDeadlock | am/am.c:223-277 | while a client waits or the manager is busy some thread can move |
| AmTheorems.InternalStepsEnd | am/am.c:403-471 | without new calls every schedule comes to rest, also with messages the manager dispatches to its own queue |
| AmTheorems.EveryCallReturns | am/amb/amb.c:207-261 | from every reachable state the waiting client is answered |
| AmTheorems.WrongCallerWakes | am/amb/amb.c:595-621 | whenever two clients wait, the answer to one can let the other return OK unanswered |
| AmTheorems.StartReportedTooEarly | am/amb/amb.c:431-494 | a run in which a start during a registration is reported as done before it is received |
| AmTheorems.StaleReply | am/amb/amb.c:149-188 | a run in which the manager is about to write its answer through the address of a result whose call has returned |
| AmTheorems.NeverStale | am/amb/amb.c:149-261 | with one synchronous client at a time it never is |
| AmAnswers.ReturnsAreTrue | am/amb/amb.c:207-261 | in every run with one synchronous client at a time a call returns success if and only if the manager answered that call with success before, a start only after pf_init of the application on record had returned OK, an exit after pf_exit had returned; and it returns at most once |
| AmAnswers.AnswersAreMeant | am/am.c:529-732 | in every run whatever, a start answered with success had a handle on record whose pf_init had returned OK, an exit answered with success had its pf_exit return; every live application is on record unless its own pf_exit returned failure |
| AmAnswers.AnswerReachesCaller | am/amb/amb.c:149-261 | what the manager answers a waiting client is what its call returns next |
| AmAnswers.CallTries | am/amb/amb.c:221-261 | the eleventh refusal of the manager's queue makes the call return failure with nothing queued; accepted before that, exactly its request is queued and the caller waits |
| AmAnswers.StartReceived | am/am.c:529-590 | a thread is created if and only if the name is registered, the first application of that name has no handle on record and u_app_start succeeds; in every other case, a second start among them, nothing is started, recorded or dropped and the answer is failure |
| AmAnswers.ExitReceived | am/am.c:668-692 | an exit goes to the first running application of that name, and is refused exactly if there is none |
| AmAnswers.ExitSent | am/am.c:694-709 | the accepted exit message is the last in the queue of that application and no other queue changed |
| AmAnswers.ExitRefused | am/am.c:694-722 | the eleventh refusal answers the request with failure and leaves application and record |
| AmAnswers.DispatchOutcome | am/am.c:887-974 | OK exactly if the first running application of that name accepts, and then one message joins its queue and no other; otherwise no queue changes |
| AmAnswers.OthersReceived | am/am.c:403-471 | registering adds a name that is not running; a message to the manager joins its own queue if that accepts; an unknown request is refused |
| AmInvariant.ReceiveStart | am/am.c:529-640 | receiving a start request keeps the manager's side of the invariant; what it does is `AmAnswers.StartReceived` |
| AmInvariant.ReceiveOther | am/am.c:403-471 | receiving any other request keeps it: exit, register, broadcast, dispatch to an application or to the manager itself, unknown types |
| AmInvariant.SendExitKeeps | am/am.c:694-722 | each try to send the exit message keeps it |
| AmInvariant.WakeKeeps | am/am.c:596-618 | passing the manager's semaphore keeps it |
| AmInvariant.NotifyKeeps | am/am.c:223-277 | a notification comes only from the application the manager waits for, and keeps it |
| AmInvariant.RunKeeps | am/aee/appman.c:126-241 | a turn of an application's loop keeps it |
| AppLoop.AppmanMain | am/aee/appman.c:126-241 | the loop over the queue produces the events whose laws are `HandledExactly`, `NotifiedOnce` and the next three |
| AppLoop.HandledExactly | am/aee/appman.c:126-241 | a message is handled if and only if no earlier input was a receive error, an unknown command, an INIT that was ignored or failed, or an EXIT that was not ignored and returned OK |
| AppLoop.NotifiedOnce | am/aee/appman.c:149-231 | a message that is handled gets one PRE notification and, unless ignored, one callback and exactly one OK or FAILED notification; one behind an input that ended the loop gets nothing |
| AppLoop.InitFirst | am/aee/appman.c:400-410 | pf_init is called at most once, and every other callback only after it returned OK |
| AppLoop.NothingAfterEnd | am/aee/appman.c:203-228 | nothing but its own notification follows a failed pf_init or a successful pf_exit |
| AppLoop.InOrder | am/aee/appman.c:134-139 | messages are handled in the order they were queued |
| CliTokens.TokensUndoTyping | cli/cli_parser.c:921-1030 | words typed with any blanks in front, bare, in single or double quotes, or a bare part and a quoted one, each short enough, tokenize back to the same words, as many as there are buffers; a `#` at the start or directly behind a quote ends the line |
| CliTokens.LongWordIsCut | cli/cli_parser.c:961-966 | a bare word that does not fit is cut at the limit and goes on as the next argument |
| CliTokens.OneConsumes | cli/cli_parser.c:951-1021 | with a limit of at least 2 each turn consumes input and its argument fits with its terminator |
| CliTokens.FindArgv | cli/cli_parser.c:921-1030 | the loops read nothing behind the NUL, write only inside the buffers, and leave exactly the specified arguments, at most the allowed number; with a limit of at least 2 they end, with a limit of 1 the outer one stops, and says so, at a turn it would repeat for ever |
| CliTokens.GrabArg | cli/cli_parser.c:956-1008 | the inner loop copies one argument into its row and touches no other row |
| CliTokens.NoRoomNoProgress | cli/cli_parser.c:951-1021 | with a limit of 1, which the only caller (cli/cli_parser.c:1418) does not pass, no number of turns would get past an ordinary character |
| CliTables.AttachKeepsOrder | cli/cli_parser.c:1537-1641 | attaching keeps APP and MW tables sorted by command string |
| CliTables.LessIsLexical | cli/cli_parser.c:1590 | the order of the tables is the lexical one: at the first difference the smaller character, or the end of the string |
| CliTables.AttachOutcome | cli/cli_parser.c:1537-1641 | full exactly at 128 tables; a table gives way exactly if it is the first of that name and has no abbreviation or the same, and then the new one with its own mask is in its place and every other is unchanged; otherwise the tables stay in order around the new one, at the end or in front of the first greater name |
| CliTables.AttachReadsNull | cli/cli_parser.c:1549-1564 | attaching compares a NULL string exactly if there is room, the first table of that name has an abbreviation and the new one has none |
| CliTables.DetachKeepsOrder | cli/cli_parser.c:1750-1768 | so does detaching |
| CliTables.DetachOutcome | cli/cli_parser.c:1708-1776 | table null exactly if there is none, not found exactly if the table with this mask is not attached, both changing nothing; otherwise its first occurrence goes |
| CliTables.DetachUndoesAttach | cli/cli_parser.c:1537-1776 | detaching what was just attached restores the tables exactly if attaching added it, in particular if the name was absent; the root entry's link too exactly if, besides, the table did not go to the front of a sorting category or was what the link was on |
| CliTables.AttachKeepsRoot | cli/cli_parser.c:1571-1641 | attaching keeps the root entry's link on the first table exactly unless it replaces the first table by another |
| CliTables.DetachKeepsRoot | cli/cli_parser.c:1750-1768 | detaching keeps it exactly unless it takes the first table from in front of another |
| CliTables.Category.InsertSorted | cli/cli_parser.c:1582-1626 | the carrying loop inserts in front of the first greater name, in both arrays in step |
| CliTables.Category.Attach | cli/cli_parser.c:1537-1641 | full, NULL compared, replaced or inserted; both arrays in step and every slot past the count empty, the root entry's link as specified |
| CliTables.Category.Detach | cli/cli_parser.c:1708-1776 | the same for the shift that removes a table |
| CliDirs.CdKeepsDir | cli/cli_parser.c:1048-1202 | on every path the depth is at most 7, it is 0 exactly if the current table is NULL, and otherwise table and kind are those of the top of the stack |
| CliDirs.CdIsDescents | cli/cli_parser.c:1124-1197 | `cd a.b.c` is the descents into a, b and c in turn |
| CliDirs.CdDotted | cli/cli_parser.c:1124-1197 | `cd a.p` is `cd a` and, if that succeeds, `cd p` |
| CliDirs.UpUndoesDown | cli/cli_parser.c:1071-1105 | a successful descent followed by `..` restores the directory exactly below the depth limit |
| CliDirs.CommandStops | cli/cli_parser.c:706-812 | a dotted command runs a function only if first-match lookup of its names, one below the other, in the tables `CliLookup` says, leads to it |
| CliDirs.StopsCommand | cli/cli_parser.c:706-812 | and whenever that lookup leads to it, with the rest of the path as first argument |
| CliDirs.OutcomeExactly | cli/cli_parser.c:706-812 | each of the four outcomes exactly: a function runs, help is shown, the tables are bad, or, in every other case, the command is not found |
| CliDirs.MandatoryFirst | cli/cli_parser.c:1424-1452 | the mandatory table, which as shipped has no directories, is tried first, then the current directory with the same path |
| CliLookup.FirstFinds | cli/cli_parser.c:310-345 | a component of a command is looked up in all tables of the root, below an entry named `app` or `mw` in the tables attached to that category, and otherwise in one table; what is found is the first entry with that name or abbreviation in the first table that has one, and nothing is found exactly if none has |
| CliLookup.BelowFinds | cli/cli_parser.c:796-806 | the next component in the tables of the category the found entry names, or in the table below it |
| CliLookup.LookupFinds | cli/cli_parser.c:1124-1148 | in the root directory `cd` looks in the tables of the root but the mandatory one, in a category in those attached to it, and otherwise in the table below the last directory |
| CliLookup.SearchAllFinds | cli/cli_parser.c:729-740 | the first match of the first table that has one, None exactly if no table has |
| CliLookup.DownSteps | cli/cli_parser.c:1150-1187 | a descent succeeds exactly if the name is found and has a table below it; the entry goes on the stack, at the depth limit the stack is emptied; a failed one changes nothing |
| CliLookup.CdSigns | cli/cli_parser.c:1071-1123 | `..` takes the last directory off, `/` empties the stack, a single dot fails, and the rest of the path follows |
| CliConsole.SearchTable | cli/cli_parser.c:623-685 | the first entry whose name or abbreviation is the component |
| CliConsole.Console.ChangeDir | cli/cli_parser.c:1048-1202 | the loop over the path leaves the directory stack of the model, whose lookups and steps are told by `CliLookup` |
| CliConsole.Console.ParseCmd | cli/cli_parser.c:706-812 | the recursion ends, on strictly shorter paths, with the model's outcome, whose lookups are told by `CliLookup` |
| CliConsole.Console.Command | cli/cli_parser.c:1424-1452 | both attempts, the second with what the first left of the argument |
| CliDecrypt.DecryptCmd | cli/cli_input.c:210-257 | the 32-bit bound keeps the loops inside the buffer exactly if a character follows `~`; then the line becomes the decrypted command, two characters shorter than what was typed, terminated, nothing behind it changed |
| CliDecrypt.Enter | cli/cli_input.c:472-476 | a line is decrypted exactly if it starts with `~`, and the index the thread goes on with is its terminator |
| CliDecrypt.DecryptUndoesEncrypt | cli/cli_input.c:156-178 | for every final character and every command over the 46 shown characters the explicit encoder is undone |
| CliDecrypt.DecodedLetter | cli/cli_input.c:170-244 | closed form: character i is the letter at the place (code i - 45 - code before it) modulo 46 of the alphabet, the last character standing before the first |
| CliDecrypt.DecryptIsInjective | cli/cli_input.c:222-244 | two lines with the same final character decrypt alike exactly if they fold alike |
| CliDecrypt.EncodeDecodeFrom | cli/cli_input.c:170-178 | every ciphertext over the 46 codes is the encoding of its plaintext |

## Left out

- Raw pointers in `mw/handle.c`: the C code keeps `H_CTRL_T*` across callbacks and growth, the model uses slot numbers.
- Interleaving inside one handle API call: each call is atomic apart from its callbacks, although `u_handle_link` and `u_handle_delink` leave the critical section before they re-thread.
- Runs of the handle library are finite scripts; a walk whose script records no further callback stops there.
- Calls the handle library forbids but does not check (delinking from another list, linking to an uninitialised list, reserved types through `u_handle_alloc`, more than 65535 slots) stop the run with `Outside`; what the C code would do then is not modelled.
- `pf_aux_free` of an auxiliary head, `handle_uninit`, `u_handle_set_autofree_tbl` and the statistics commands: notification and reporting only.
- Memory-allocation failure, a handle without a free callback, NULL argument pointers and calls before initialisation, in every file.
- AeeTeardown.AutoFree: what the source does after reading past the registered table is not modelled; the free callback of a secondary handle accepts and makes no calls.
- HandleLibrary.HandleLib.Parse: a run in which a nested parse takes the saved next slot off the list (`HandleParse.CursorLostReachable` says when) is excluded; the C code then follows the link field that slot has by then, along whatever list it is on.
- HandleLibrary.HandleLib.ParseMembers: the same exclusion.
- HandleLibrary.HandleLib.Run: the same exclusion, and the calls that end in `Outside`.
- The `u_handle_link_to_aux` calls with an unset local (`am/aee/appman.c:465-479`, `am/aee/aee_api.c:176-186`): auxiliary lists are arbitrary well-formed lists instead.
- TimerService.TimerDaemon.Callback: one step, as is each API call: the separate unlocked reads of `pf_callback`, `interval` and `pt_args`, and writes of half a time value, are not modelled; a read through NULL or of a deleted timer ends the run.
- The private copy of a one-shot restarted as a repeating timer before its callback is leaked; copies are values here, not blocks.
- TimerService.TimerDaemon.Deliver: `u_app_send_msg` is a log of what was sent.
- `u_timer_resume` is compiled out; `u_os_get_sys_tick`, the condition variable and the clock itself are not part of this model.
- AmProtocol: queue capacity appears as sends that may fail; thread numbers stand for handles and are not reused; `u_app_start` either starts a thread with its INIT message queued or does nothing, so a thread whose INIT could not be queued is not modelled.
- AmProtocol: the retries of a broadcast or dispatch appear as the set of applications that accept; only the manager sends EXIT messages, and application callbacks make no synchronous requests; `u_amb_broadcast_msg` and `u_amb_dispatch_msg` refuse oversized messages before they ask.
- More than 30 registered applications, names longer than 16 characters, and the thread and queue sizes `u_amb_register_app` checks.
- AppLoop.AppmanMain: the messages, what the notify functions answer and what the callbacks return are inputs; `free` and `x_msg_q_delete` at the end are not modelled.
- CliTokens.FindArgv: the line is a sequence with its terminator; a loop that would not end stops and says so.
- CliTables.Category.Attach: what the source does after comparing a NULL string is not modelled; `strcmp` answers -1, 0 or 1, as the source assumes.
- CliDirs: command tables do not change during a `cd` or a command, and every table has an entry; help, prompt and the functions behind the commands are output only.
- CliConsole.Console.Command: a function that itself returns "command not found" makes the source look on in the current directory; what functions return is not modelled.
- CliDecrypt.DecryptCmd: the line is printable ASCII, as the input thread stores nothing else; what the loops of a line of `~` alone do outside the buffer is not modelled.
- The registration list `pt_g_regs`, `aee_add`, `aee_remove` and the drivers, terminal and network code: easy or I/O only.
