# State Threads, the stx cache, yaml-cpp and the ring buffer

Dafny models of the code the media server rests on, each with the properties
that code is written for.

* **The State Threads scheduler.** `StThreads` holds the thread, `TimeoutHeap`
  the pointer-linked timeout heap, `Epoll`, `EpollAdmission` and `EventSystem` the
  epoll event system, `Scheduler` every call as steps split at the context switch,
  `SchedulerInvariant` what each step keeps, `SchedulerRuns` and `SchedulerSafety`
  what holds in any run, `SchedulerCalls` what can happen to a thread in the
  middle of a call, `SchedulerDeadlines`, `SchedulerPolls` and `SchedulerWaits`
  what the results of sleeping, polling and waiting mean, `SchedulerOrder` who is
  served first, and `VirtualProcessor` the calls themselves over thread objects in
  the heap and on the run queue.
* **The stx LRU cache.** `CacheModel` is the cache as a value, `CacheRuns` what
  holds over any legal sequence of calls, `LruCache` the hash chains with their
  back-pointers and the LRU list.
* **YAML.** `Utf8`, `DoubleQuoted`, `QuotedScalar`, `FoldedScalar` and
  `UnclosedScalar` are the double-quoted scalar, written and scanned; `NodeTree`,
  `DocParsing`, `DocParsingInput` and `SingleDocParser` the event parser,
  `TokenGrammar`, `AcceptedTokens` and `TreeTokens` the grammar it decides;
  `NodeBuilding` and `NodeBuilder` what its events build; `NodeGraph`,
  `NodeEvents` and `Documents` the way from a node graph to events and back, that
  is, `Clone`; `Base64` the binary codec.
* **Byte movers.** `ScatterIo` is vectored reading and writing, `BigEndian`,
  `RingBuffer` and `IoBuffer` the server's ring buffer and the cache over it.

Where the source works on objects, the model does too: the heap links, the hash
chains, the parser's stacks and the buffers are fields of classes whose methods
follow the source statement by statement, each proved against a function of the
value the object stands for. The lemmas are about those functions. A context
switch is a step boundary, the kernel's interest list a map, `epoll_wait` any set
of registered descriptors with any events, and a socket a list of the answers its
calls will give.

What the scheduler promises is stated over runs, without its functions: a run is
any sequence of calls, resumptions and idle rounds, and a result is traced to the
step that caused it. What the parser does is compared with a grammar of the ways
to write a node down, what the scanner does with texts laid out over lines, and
what the cache counts with the calls its clients made.

## Findings

What the code does not do, with the exact condition each time.

* A double-quoted scalar that is never closed is accepted if nothing follows the
  quote, or if nothing but blanks follows the last line break
  (`UnclosedScalar.AcceptedIff`, `UnclosedScalar.UnclosedAccepted`).
* Tags and anchors at the end of the tokens, where a node is asked for, make the
  parser look at a token when there is none
  (`DocParsingInput.CrashesIff`, `DocParsingInput.LoneTagCrashes`).
* Several line breaks at the end of a double-quoted scalar are clipped to one
  newline, where folding (section 7.3.1 of YAML 1.2) asks for one newline less than
  there are breaks; both agree up to two breaks (`FoldedScalar.TrailingBreaks`).
* The escapes for U+0085 and U+00A0 (section 5.7 of YAML 1.2) are read as the
  single bytes 0x85 and 0xA0 and not as UTF-8; all others of that table are
  (`DoubleQuoted.EscapesMean`).
* White space between the two padding characters of a group makes the Base64
  decoder emit a byte too many (`Base64.SpacesIgnoredIff`, `Base64.BrokenPadding`).
* The Base64 decoder turns a character into an index of its table through a
  signed `char`, so a byte from 0x80 up reads outside the table; `Base64.DecodeBase64`
  answers for ASCII only.
* The sum of two weights can wrap around a `size_t`: the cache then accepts an
  entry for which there is no room, unless enough is freed on the way
  (`CacheModel.InsertKeepsIff`, `CacheModel.WrappedInsert`).
* `read_3bytes` loses the sign `write_3bytes` was given
  (`BigEndian.ThreeBytesBackIff`).
* The printer replaces what is not UTF-8 of scalar values, or is a noncharacter,
  so that the round trip holds for exactly the other strings
  (`DoubleQuoted.RoundTrip`).
* A copy of a null node has no tag (`Documents.CloneIsCopy`).

## Model

| member | source | states |
|---|---|---|
| `TimeoutHeap.SleepQueue.HeapInsert` | 3rdparty/st-1.9-multiple-threads/sched.c:415-450 | descending along the binary digits of the thread's position leaves a linked, numbered and ordered tree whose members gained exactly the inserted thread; inserted over a position that is being given up, it leaves a tree ordered but for that position, and hands on the children of the thread given up |
| `TimeoutHeap.SleepQueue.HeapDelete` | 3rdparty/st-1.9-multiple-threads/sched.c:454-524 | deleting any member, not just the root, leaves a complete, ordered tree without exactly that thread, which is left unlinked |
| `TimeoutHeap.SleepQueue.AddSleepQ` | 3rdparty/st-1.9-multiple-threads/sched.c:527-533 | the thread joins the heap, due `timeout` after the last clock reading; the flag of every thread tells whether it is in the heap |
| `TimeoutHeap.SleepQueue.DelSleepQ` | 3rdparty/st-1.9-multiple-threads/sched.c:536-541 | exactly this thread leaves the heap and its flag is cleared |
| `TimeoutHeap.SleepQueue.CheckClock` | 3rdparty/st-1.9-multiple-threads/sched.c:543-577 | exactly the threads due by now join the tail of the run queue, in the order of their deadlines; the mark of a timeout is set for exactly those of them in COND_WAIT; only later deadlines stay in the heap |
| `TimeoutHeap.RootIsEarliest` | 3rdparty/st-1.9-multiple-threads/sched.c:552-577 | no thread in an ordered heap is due before the root |
| `Epoll.PollsetAddKeeps` | 3rdparty/st-1.9-multiple-threads/event.c:1169-1225 | adding a request keeps reference counts equal to the entries on the io queue, and the kernel's masks and the length equal to what the counts say; a refused addition changes nothing but the room for descriptors |
| `EpollAdmission.TakenIff` | 3rdparty/st-1.9-multiple-threads/event.c:1169-1225 | a poll set is taken exactly if its entries are proper, the descriptors fit or can be made to, and the kernel refuses none that is neither registered nor named by an earlier entry |
| `Epoll.UnrollRestores` | 3rdparty/st-1.9-multiple-threads/event.c:1188-1222 | undoing an addition that failed in the middle restores counts, kernel and length, also if a descriptor is named repeatedly |
| `Epoll.PollsetDelKeeps` | 3rdparty/st-1.9-multiple-threads/event.c:1129-1166 | taking a request off the io queue together with its entries keeps the same agreement |
| `Epoll.DispatchKeeps` | 3rdparty/st-1.9-multiple-threads/event.c:1281-1338 | so does a dispatch, whatever the kernel reports |
| `Epoll.ScanSelects` | 3rdparty/st-1.9-multiple-threads/event.c:1281-1324 | the requests told and those kept are told apart by what was reported before the pass, although entries are deleted during it |
| `Epoll.ReadyMeans` | 3rdparty/st-1.9-multiple-threads/event.c:1284-1305 | an entry is told exactly what it asked for of what was reported for its descriptor, with errors and hang-ups, and on these all it asked for; so it is told of something exactly when an event it asked for, an error or a hang-up was reported |
| `Epoll.FdCloseIsSafe` | 3rdparty/st-1.9-multiple-threads/event.c:1351-1360 | closing a descriptor is allowed exactly when no request on the io queue names it |
| `EventSystem.EpollData.PollsetAdd` | 3rdparty/st-1.9-multiple-threads/event.c:1169-1225 | the loops over the fields, with the unrolling, do what the addition is specified as |
| `EventSystem.EpollData.PollsetDel` | 3rdparty/st-1.9-multiple-threads/event.c:1129-1166 | the loop over the entries does what the deletion is specified as |
| `EventSystem.EpollData.Dispatch` | 3rdparty/st-1.9-multiple-threads/event.c:1270-1338 | marking what fired, passing over the io queue and clearing the marks do what a dispatch is specified as |
| `SchedulerRuns.StepKeeps` | 3rdparty/st-1.9-multiple-threads/sched.c:74-199 | every step of every call, signal, timeout, interrupt, exit, join and idle round keeps the invariant of queues, flags, mutexes and event system |
| `SchedulerRuns.RunKeeps` | 3rdparty/st-1.9-multiple-threads/sched.c:74-199 | the invariant holds in every state of every run |
| `SchedulerRuns.StepsAreInRange` | 3rdparty/st-1.9-multiple-threads/sched.c:100-107 | a resumed thread can always finish its call, in particular a poll that timed out finds its request still on the io queue |
| `SchedulerRuns.IdleIsInRange` | 3rdparty/st-1.9-multiple-threads/sched.c:292-309 | so can the idle thread its round, for anything the kernel reports |
| `SchedulerSafety.ExactlyOnePlace` | 3rdparty/st-1.9-multiple-threads/sched.c:125-199 | in every run each thread is at every moment in exactly one of: running, on the run queue once as RUNNABLE, on the zombie queue once, waiting, finished; its flag tells whether it sleeps, and a sleeping thread is in IO_WAIT, COND_WAIT or SLEEPING |
| `SchedulerSafety.DispatchFindsWaiters` | 3rdparty/st-1.9-multiple-threads/sched.c:130-193 | dispatch is entered with an empty run queue, every request then on the io queue belongs to a thread in IO_WAIT, and nobody is put on the run queue twice |
| `SchedulerSafety.IdleRoundOrder` | 3rdparty/st-1.9-multiple-threads/sched.c:292-305 | after an idle round those dispatch woke run first, then those the clock woke, in order, and only later deadlines are left |
| `SchedulerSafety.LockSucceedsForOwner` | 3rdparty/st-1.9-multiple-threads/sync.c:290-326 | locking returns success only to the thread that owns the mutex at that moment, and EINTR after waiting only to one that does not |
| `SchedulerSafety.FreeMutexIsTaken` | 3rdparty/st-1.9-multiple-threads/sync.c:290-368 | locking a free mutex succeeds at once, unless an interrupt is pending for a call of lock |
| `SchedulerSafety.FreeMutexHasNoWaiter` | 3rdparty/st-1.9-multiple-threads/sync.c:329-354 | no thread on the queue of a free mutex is still in LOCK_WAIT |
| `SchedulerSafety.UnlockHandsOver` | 3rdparty/st-1.9-multiple-threads/sync.c:329-354 | an unlock hands the mutex to the first thread still in LOCK_WAIT, which alone is made runnable |
| `SchedulerSafety.OwnerKeepsUntilUnlock` | 3rdparty/st-1.9-multiple-threads/sync.c:290-368 | no step but the owner's own unlock changes the owner of a mutex that has one |
| `SchedulerSafety.MutualExclusion` | 3rdparty/st-1.9-multiple-threads/sync.c:290-368 | in every run a thread that owns a mutex owns it until it unlocks it |
| `SchedulerSafety.BlocksIff` | 3rdparty/st-1.9-multiple-threads/sync.c:115-326 | a sleep and a wait on a condition variable block, a lock of a mutex of another thread, and a join of a thread that has not exited, each exactly if no interrupt is pending |
| `SchedulerSafety.CreateQueues` | 3rdparty/st-1.9-multiple-threads/sched.c:600-694 | a new thread is at the end of the run queue, with a termination condition variable of its own exactly if it can be joined |
| `SchedulerSafety.InterruptWakes` | 3rdparty/st-1.9-multiple-threads/sched.c:580-597 | an interrupt marks its target and makes it runnable and off the sleep queue if it was waiting, unless it has exited |
| `SchedulerSafety.InterruptReportedOnce` | 3rdparty/st-1.9-multiple-threads/sched.c:80-85 | EINTR is returned only if an interrupt is pending, which ends it, any other result leaves it pending, and with one pending no call blocks |
| `SchedulerSafety.ResumedReports` | 3rdparty/st-1.9-multiple-threads/sched.c:115-119 | the same of the rest of a call; only one that was handed its mutex leaves an interrupt pending |
| `SchedulerSafety.ExitWakesJoiner` | 3rdparty/st-1.9-multiple-threads/sched.c:315-348 | a joinable thread that exits becomes a zombie, and who waits to join it is runnable |
| `SchedulerSafety.JoinReaps` | 3rdparty/st-1.9-multiple-threads/sched.c:351-388 | a join that succeeds, at once or after waiting, found its target a zombie and sent it off to clean up |
| `SchedulerCalls.StepSees` | 3rdparty/st-1.9-multiple-threads/sched.c:74-199 | whatever step others take, a thread in the middle of a call is made runnable only by an interrupt, its deadline, the events it waits for, a signal of its condition variable or an unlock of its mutex, and by every idle round that finds its deadline past |
| `SchedulerCalls.CallHistory` | 3rdparty/st-1.9-multiple-threads/sched.c:74-199 | in any run a thread that has blocked is as it was, or one of those causes, in a step of that same wait, has made it runnable; its deadline has not moved |
| `SchedulerDeadlines.CallBegins` | 3rdparty/st-1.9-multiple-threads/sched.c:93-98 | who blocks in a poll, a sleep or a wait on a condition variable is on the sleep queue, due at the time limit, exactly if there is one |
| `SchedulerDeadlines.TimedCallEnds` | 3rdparty/st-1.9-multiple-threads/sched.c:527-577 | in any run, once the idle thread has seen the clock at the deadline, whoever blocked with that deadline runs or is on the run queue |
| `SchedulerDeadlines.SleepResult` | 3rdparty/st-1.9-multiple-threads/sync.c:115-141 | a sleep returns 0 only after the clock came to its deadline, and else EINTR after an interrupt of its thread |
| `SchedulerPolls.PollResult` | 3rdparty/st-1.9-multiple-threads/sched.c:74-122 | a poll that blocked returns 0 only if the clock came to its deadline, a positive number only if a dispatch of that same poll told it of exactly that many of the descriptors it asked for, each with what was reported for it, and else EINTR after an interrupt of its thread |
| `SchedulerPolls.PollBlocksIff` | 3rdparty/st-1.9-multiple-threads/sched.c:74-98 | a poll blocks exactly if no interrupt is pending and its set is taken |
| `SchedulerPolls.AsksStep` | 3rdparty/st-1.9-multiple-threads/event.c:1281-1324 | what a poll asks for stays on the io queue through every step of others, until a dispatch reports on just that |
| `SchedulerOrder.WaitersInOrder` | 3rdparty/st-1.9-multiple-threads/sync.c:180-244 | in any run those who wait on a condition variable are queued in the order in which they came |
| `SchedulerOrder.LockersInOrder` | 3rdparty/st-1.9-multiple-threads/sync.c:290-354 | and so are those who wait for a mutex |
| `SchedulerWaits.SignalWakesFirst` | 3rdparty/st-1.9-multiple-threads/sync.c:224-244 | a signal wakes the first waiter still in COND_WAIT and nobody else, so that none is spent on one that timed out or was interrupted |
| `SchedulerWaits.BroadcastWakesAll` | 3rdparty/st-1.9-multiple-threads/sync.c:224-244 | a broadcast wakes every waiter still in COND_WAIT, in the order of the queue |
| `SchedulerWaits.WaitResult` | 3rdparty/st-1.9-multiple-threads/sync.c:180-215 | a wait returns success only if a signal or broadcast of its own condition variable ended it, ETIME only if the clock did, not before the deadline, and EINTR only if it was interrupted, each during this same wait |
| `VirtualProcessor.Processor.Poll` | 3rdparty/st-1.9-multiple-threads/sched.c:74-98 | the call up to the context switch is the step of the specification, whose effect `CallBegins` states, with thread objects, run queue and timeout heap updated in place |
| `VirtualProcessor.Processor.FinishPoll` | 3rdparty/st-1.9-multiple-threads/sched.c:99-122 | the rest of the call is the step after; the request of a timed-out poll is taken off the io queue |
| `VirtualProcessor.Processor.Dispatcher` | 3rdparty/st-1.9-multiple-threads/sched.c:125-150 | the head of the run queue runs next, or else the idle thread |
| `VirtualProcessor.Processor.CheckClock` | 3rdparty/st-1.9-multiple-threads/sched.c:543-577 | the loop over the real heap wakes exactly the threads the specification of an idle round asks for, in that order |
| `VirtualProcessor.Processor.IdleOnce` | 3rdparty/st-1.9-multiple-threads/sched.c:292-309 | one round of the idle thread over the objects is a step of a run and keeps the invariant |
| `VirtualProcessor.Processor.Continue` | 3rdparty/st-1.9-multiple-threads/sync.c:180-326 | whatever call a resumed thread is in, the rest of it over the objects is a step of a run and keeps the invariant |
| `VirtualProcessor.Processor.CondSignal` | 3rdparty/st-1.9-multiple-threads/sync.c:224-244 | the loop over the wait queue does what a signal or a broadcast is specified as |
| `VirtualProcessor.Processor.MutexUnlock` | 3rdparty/st-1.9-multiple-threads/sync.c:329-354 | the loop over the wait queue hands over as specified |
| `VirtualProcessor.Processor.ThreadJoin` | 3rdparty/st-1.9-multiple-threads/sched.c:351-388 | the four error cases, reaping a zombie and starting to wait for another thread, as specified |
| `VirtualProcessor.Processor.ThreadExit` | 3rdparty/st-1.9-multiple-threads/sched.c:315-348 | a joinable thread becomes a zombie and signals its termination, another is never scheduled again |
| `VirtualProcessor.Processor.ThreadInterrupt` | 3rdparty/st-1.9-multiple-threads/sched.c:580-597 | a waiting thread is taken off the heap and made runnable, a zombie left alone |
| `VirtualProcessor.ExpireAllIs` | 3rdparty/st-1.9-multiple-threads/sched.c:543-577 | waking threads one after the other is the same as waking them all at once |
| `CacheModel.MakeRoomEvicts` | 3rdparty/st-1.9-multiple-threads/extensions/lrucache.c:257-275 | the eviction loop takes entries from the old end of the list, not one more than needed, and gives up only when the list is empty |
| `CacheModel.RoomUnlessWrapped` | 3rdparty/st-1.9-multiple-threads/extensions/lrucache.c:262-275 | what the loop leaves has room for the weight exactly if the first sum did not wrap around |
| `CacheModel.InsertUpdates` | 3rdparty/st-1.9-multiple-threads/extensions/lrucache.c:257-309 | a successful insertion makes the key stand for the new entry and no other; otherwise only the least recently released entries are gone |
| `CacheModel.InsertFails` | 3rdparty/st-1.9-multiple-threads/extensions/lrucache.c:257-285 | an insertion fails exactly if the entries in use leave too little room for its weight or no place, and then just those are left |
| `CacheModel.InsertKeepsIff` | 3rdparty/st-1.9-multiple-threads/extensions/lrucache.c:257-309 | a successful insertion keeps the invariant exactly if the sum of the weights does not wrap around or what stays in the cache leaves room |
| `CacheModel.WrappedInsert` | 3rdparty/st-1.9-multiple-threads/extensions/lrucache.c:262-306 | beside an entry in use of the largest weight one of weight 1 is accepted, and the total becomes 0 |
| `CacheRuns.NextKeeps` | 3rdparty/st-1.9-multiple-threads/extensions/lrucache.c:192-309 | every legal call keeps the list equal to the unreferenced entries, one live entry per key, size and weight as counted, inserts minus deletes equal to the size, and both limits |
| `CacheRuns.RunKeeps` | 3rdparty/st-1.9-multiple-threads/extensions/lrucache.c:192-309 | so in every state of every run |
| `CacheRuns.LookupFindsLast` | 3rdparty/st-1.9-multiple-threads/extensions/lrucache.c:220-239 | in every run a lookup finds exactly the entry last inserted for its key, unless it has been deleted, evicted or emptied away since |
| `CacheRuns.MapStep` | 3rdparty/st-1.9-multiple-threads/extensions/lrucache.c:192-254 | lookup, release, delete and empty change what a key stands for only by deleting it |
| `CacheRuns.CountIsHeld` | 3rdparty/st-1.9-multiple-threads/extensions/lrucache.c:192-309 | in every state of every run the count of an entry is 1 from its insertion, plus the lookups that found it, minus its releases, and it is to be freed exactly if it was deleted, replaced or emptied away since |
| `CacheRuns.ReferencedNeverFreed` | 3rdparty/st-1.9-multiple-threads/extensions/lrucache.c:192-254 | in any run an entry to which, by the calls so far, a reference is held is freed by no call but the release of the last one after it was deleted, replaced or emptied away |
| `CacheRuns.LruInReleaseOrder` | 3rdparty/st-1.9-multiple-threads/extensions/lrucache.c:242-254 | in every run the list is in the order of the last releases, so that eviction takes the least recently released |
| `CacheRuns.EmptyLeaves` | 3rdparty/st-1.9-multiple-threads/extensions/lrucache.c:84-97 | emptying leaves just the referenced entries, each to be freed by its last release |
| `LruCache.Cache.EntryInsert` | 3rdparty/st-1.9-multiple-threads/extensions/lrucache.c:257-309 | over linked chains and the LRU list, an insertion does what it is specified as and leaves every link and back-pointer right |
| `LruCache.Cache.EntryDelete` | 3rdparty/st-1.9-multiple-threads/extensions/lrucache.c:192-217 | an unreferenced entry is unlinked through its back-pointer from its own chain and from no other, a referenced one only marked |
| `LruCache.Cache.EntryLookup` | 3rdparty/st-1.9-multiple-threads/extensions/lrucache.c:220-239 | null exactly if no live entry has the key, else that entry, off the list and with one more reference, as `CountIsHeld` counts them |
| `LruCache.Cache.EntryRelease` | 3rdparty/st-1.9-multiple-threads/extensions/lrucache.c:242-254 | the last reference puts the entry at the end of the list, or frees it if it is to be deleted |
| `LruCache.Cache.Empty` | 3rdparty/st-1.9-multiple-threads/extensions/lrucache.c:84-97 | every entry of the table is deleted once |
| `Utf8.DecodeEncoded` | 3rdparty/yaml-cpp/src/emitterutils.cpp:63-152 | decoding what was written for scalar values without noncharacters returns them (section 3 of RFC 3629) |
| `Utf8.ReencodeIff` | 3rdparty/yaml-cpp/src/emitterutils.cpp:63-152 | decoding and writing again returns a string exactly if it is UTF-8 of such values |
| `DoubleQuoted.EscapeRoundTrip` | 3rdparty/yaml-cpp/src/exp.cpp:13-134 | an escape sequence that is written reads back as the bytes of its code point |
| `DoubleQuoted.ScanWritten` | 3rdparty/yaml-cpp/src/scanscalar.cpp:21-249 | scanning a printed string, whatever follows it, stops behind its closing quote with the bytes of its code points, trailing newlines included |
| `DoubleQuoted.RoundTrip` | 3rdparty/yaml-cpp/src/emitterutils.cpp:312-354 | printing and scanning returns the string exactly if it is UTF-8 of scalar values free of noncharacters, for both settings of `escapeNonAscii` |
| `DoubleQuoted.EscapesMean` | 3rdparty/yaml-cpp/src/exp.cpp:73-134 | the single-character escapes are those of section 5.7 of YAML 1.2 and one for a single quote, and each but two stands for its code point in UTF-8 |
| `DoubleQuoted.WrittenPrintable` | 3rdparty/yaml-cpp/src/emitterutils.cpp:312-354 | no control character is written, and with `escapeNonAscii` nothing but printable ASCII |
| `DoubleQuoted.WrittenVerbatim` | 3rdparty/yaml-cpp/src/emitterutils.cpp:312-354 | a string of printable characters without quotes and backslashes is written as it is |
| `FoldedScalar.ScanFolded` | 3rdparty/yaml-cpp/src/scanscalar.cpp:36-241 | for every double-quoted scalar laid out over lines, with bytes, escapes, escaped breaks and blanks anywhere: what is read are the lines without the blanks around breaks, escaped ones kept, joined by a space for a break, by nothing for an escaped one and by one newline less for several, and then clipped |
| `FoldedScalar.TwoLines` | 3rdparty/yaml-cpp/src/scanscalar.cpp:104-195 | the same for two lines, stated on the text (section 7.3.1 of YAML 1.2) |
| `FoldedScalar.TrailingBreaks` | 3rdparty/yaml-cpp/src/scanscalar.cpp:217-230 | breaks at the end are folded like that exactly if they are no more than two |
| `FoldedScalar.ClipIs` | 3rdparty/yaml-cpp/src/scanscalar.cpp:217-230 | of the newlines at the end one is kept, none if there is nothing else, and two behind the last escape |
| `UnclosedScalar.AcceptedIff` | 3rdparty/yaml-cpp/src/scanscalar.cpp:36-104 | for any text behind an opening quote: accepted if closed, refused for a bad escape or a document indicator, and otherwise accepted exactly if the text is empty or ends in a blank line |
| `UnclosedScalar.UnclosedAccepted` | 3rdparty/yaml-cpp/src/scanscalar.cpp:36-90 | a lone quote and an unclosed line are accepted |
| `QuotedScalar.WriteDoubleQuotedString` | 3rdparty/yaml-cpp/src/emitterutils.cpp:312-354 | the loop over the code points writes what the printer is specified as |
| `QuotedScalar.GetNextCodePointAndAdvance` | 3rdparty/yaml-cpp/src/emitterutils.cpp:89-131 | the loop over trailing bytes reads the code point and advances as specified, replacing what is malformed |
| `QuotedScalar.ReadEscape` | 3rdparty/yaml-cpp/src/exp.cpp:39-134 | the escape is decoded, or refused, and eaten as specified |
| `QuotedScalar.ScanScalar` | 3rdparty/yaml-cpp/src/scanscalar.cpp:21-249 | the loop of three phases, with folding and chomping, computes what the scanner is specified as, which `ScanFolded` states on the text |
| `QuotedScalar.ScanQuotedScalar` | 3rdparty/yaml-cpp/src/scantoken.cpp:331-368 | the scan behind an opening double quote with the parameters given there |
| `DocParsing.NodeFits` | 3rdparty/yaml-cpp/src/singledocparser.cpp:49-361 | for every token sequence, a node that is parsed is one tree with whole pairs in its maps, its anchors numbered from the next one on and its aliases naming earlier ones |
| `DocParsingInput.CrashesIff` | 3rdparty/yaml-cpp/src/singledocparser.cpp:75-83 | the parser looks at a missing token exactly if the tokens end in tags and anchors, none an error by repetition, where one pass over the tokens with a stack asks for a node |
| `DocParsingInput.LoneTagCrashes` | 3rdparty/yaml-cpp/src/singledocparser.cpp:364-385 | a tag alone does that, a tag behind a scalar does not |
| `TokenGrammar.ParsesBack` | 3rdparty/yaml-cpp/src/singledocparser.cpp:49-361 | in whichever way of the grammar a node is written (plain, quoted or null, with tag and anchor in either order or without, in block or flow style, with keys, values or nodes left out, as a pair in a flow sequence), whatever collection it is in and whatever follows, the parser finds what it means and goes on behind it, or reports the alias that has no anchor |
| `AcceptedTokens.AcceptedIff` | 3rdparty/yaml-cpp/src/singledocparser.cpp:49-412 | the parser accepts exactly the nodes of that grammar whose aliases have anchors before them |
| `TreeTokens.TreeComesBack` | 3rdparty/yaml-cpp/src/singledocparser.cpp:49-361 | every tree with its anchors in order has tokens, tags written only where they are needed, from which the parser gets it back |
| `SingleDocParser.Parser.HandleNode` | 3rdparty/yaml-cpp/src/singledocparser.cpp:49-139 | on every token sequence the recursion ends, sends exactly the events of the specified tree, which `ParsesBack` and `AcceptedIff` state on the tokens, or reports the specified error, and restores the collection stack |
| `SingleDocParser.Parser.ParseProperties` | 3rdparty/yaml-cpp/src/singledocparser.cpp:364-412 | the loop over tags and anchors, with the registration of anchors, as specified |
| `NodeBuilding.RunNode` | 3rdparty/yaml-cpp/src/nodebuilder.cpp:36-135 | the events of a well-formed tree, whatever is being built around it, keep every assert true, add its nodes and deliver its root to what is open |
| `NodeBuilding.BuildsDocument` | 3rdparty/yaml-cpp/src/nodebuilder.cpp:36-135 | from the start they end with the nodes of the tree, empty stacks and map depth 0 |
| `NodeBuilder.Builder.Build` | 3rdparty/yaml-cpp/src/nodebuilder.cpp:36-135 | the handlers over the fields do the steps of the specification |
| `NodeGraph.UnfoldFaithful` | 3rdparty/yaml-cpp/src/nodeevents.cpp:28-95 | for any finite graph, shared and cyclic ones included, the tree sent has a node for every node reached first and an alias, naming its anchor, for every other meeting |
| `NodeEvents.NodeEvents.Setup` | 3rdparty/yaml-cpp/src/nodeevents.cpp:28-44 | the recursion ends and counts how often each node is reached |
| `NodeEvents.NodeEvents.Emit` | 3rdparty/yaml-cpp/src/nodeevents.cpp:46-95 | the recursion ends and sends the events of the unfolded tree, with anchors 1, 2, ... in the order of first visits |
| `Documents.ParsedIsBuilt` | 3rdparty/yaml-cpp/src/singledocparser.cpp:49-422 | what the parser sends for any tokens it accepts keeps every assert of the builder true and ends with empty stacks and map depth 0 |
| `Documents.CloneIsCopy` | 3rdparty/yaml-cpp/src/nodeevents.cpp:28-95 | the builder makes of the events of a graph a graph that is isomorphic to what is reachable from the root, but for tags of nulls and styles of leaves |
| `Documents.CopiesOnlyReachable` | 3rdparty/yaml-cpp/src/nodeevents.cpp:28-95 | every node copied is a child of one copied before it |
| `Documents.Clone` | 3rdparty/yaml-cpp/src/nodeevents.cpp:46-95 | the two recursions and the builder's handlers, one after the other, leave such a copy and empty stacks |
| `Base64.RoundTrip` | 3rdparty/yaml-cpp/src/binary.cpp:9-99 | decoding an encoding returns the bytes, for no, one and two padding characters (section 4 of RFC 4648) |
| `Base64.EncodedGroup` | 3rdparty/yaml-cpp/src/binary.cpp:9-45 | every three bytes, with zero bits added at the end, are written as four digits of 6 bits, the most significant first, padding in place of digits of added bits only |
| `Base64.Alphabet` | 3rdparty/yaml-cpp/src/binary.cpp:6-7 | the digits are those of table 1 of RFC 4648 |
| `Base64.SpacesIgnoredIff` | 3rdparty/yaml-cpp/src/binary.cpp:76-95 | white space changes nothing exactly if some character is invalid or none cuts off a padding from the last character of its group |
| `Base64.BrokenPadding` | 3rdparty/yaml-cpp/src/binary.cpp:84-95 | a line break between two padding characters gives a byte too many |
| `Base64.EncodeBase64` | 3rdparty/yaml-cpp/src/binary.cpp:9-45 | the loop over chunks writes the encoding and stays within the buffer made at the start |
| `Base64.DecodeBase64` | 3rdparty/yaml-cpp/src/binary.cpp:68-99 | the loop over characters computes the decoding, 32-bit wrap-around included, and stays within its buffer |
| `ScatterIo.Writev` | 3rdparty/st-1.9-multiple-threads/io.c:589-662 | over any partial transfers, what is sent is a prefix of the concatenated buffers, all of them exactly on success, and -1 is returned only if a call failed or memory for more than 16 buffers left was refused; a socket that is not ready is waited for before the next try; the vector of what is left fits the 16 local slots or those allocated |
| `ScatterIo.WritevResid` | 3rdparty/st-1.9-multiple-threads/io.c:665-701 | what has been sent and what is left are always the original bytes; success is reported exactly if no call failed, and then nothing is left |
| `ScatterIo.ReadvResid` | 3rdparty/st-1.9-multiple-threads/io.c:514-552 | what was received is at the addresses of the vector in order, those left are the ones behind, no other byte of memory changes and none of the stream is lost; success is reported exactly if no call failed, and then the vector is full or the stream has ended |
| `ScatterIo.ReadFully` | 3rdparty/st-1.9-multiple-threads/io.c:555-561 | unless a call fails, as many bytes as asked for, or all up to the end of the stream, are in front of the buffer in the order in which they came |
| `ScatterIo.Write` | 3rdparty/st-1.9-multiple-threads/io.c:564-586 | all bytes are sent, or a call failed, a prefix is sent and -1 is returned |
| `RingBuffer.Buffer.WriteBytes` | src/base/io/io_buffer.cpp:194-215 | succeeds exactly if the bytes fit into the size minus one, and then appends them, across the end of the array too |
| `RingBuffer.Buffer.ReadBytes` | src/base/io/io_buffer.cpp:79-99 | takes the oldest bytes, as many as there are up to the number asked for |
| `RingBuffer.Buffer.SeekRead` | src/base/io/io_buffer.cpp:298-315 | skips the oldest bytes, if there are that many |
| `RingBuffer.Buffer.SeekWrite` | src/base/io/io_buffer.cpp:317-335 | takes in bytes already put behind the write position, if they fit |
| `RingBuffer.IntegersComeBack` | src/base/io/io_buffer.cpp:101-296 | an integer of 1, 2, 4 or 8 bytes written to the buffer is read back, wherever in the array it falls; one of 3 bytes exactly if it is in 0..2^24-1 |
| `BigEndian.MostSignificantFirst` | src/base/io/io_buffer.cpp:101-177 | bytes are read as a number with the first byte the most significant |
| `BigEndian.WrittenInOrder` | src/base/io/io_buffer.cpp:217-296 | the bytes written for a value that fits stand for it in that order |
| `BigEndian.SignedBack` | src/base/io/io_buffer.cpp:101-177 | the bytes of an integer in the range of n signed bytes stand for it |
| `BigEndian.ThreeBytesBackIff` | src/base/io/io_buffer.cpp:122-135 | three bytes are read back exactly if the value is in 0..2^24-1 |
| `IoBuffer.IOBuffer.ReadBytes` | src/base/io/io_buffer.cpp:359-401 | everything handed out so far, followed by what is buffered, is the reader's stream so far, whether the cache is on, off or turned off midway; what is cached and what one read gives is returned, up to the length asked for, and there is such a read unless the cache is on and holds enough |

## Left out

- The select, poll and kqueue event systems, the growth of the event list and the
  re-initialisation after a fork: one event system, with a kernel whose changes
  succeed on registered descriptors.
- Clocks and the wrap-around of `due`: time is a number that never decreases.
- Scheduling statistics, switch callbacks, thread-specific keys, the count of
  active threads that ends the process, and destroying condition variables and
  mutexes that a program made.
- Handles of threads that have been cleaned up must not be used; a second join of a
  thread that is being joined and has exited waits forever, as in the source.
- `Scheduler` counts the heap as a set; `VirtualProcessor` ties it to the linked
  heap of `TimeoutHeap`. Queues, condition variables and mutexes name threads by
  number there rather than by address.
- `3rdparty/st/src` holds the same scheduler code and is modelled once.
- The width of the reference counts, sizes and statistics of the cache; keys and
  hash functions are arbitrary.
- CacheRuns.RunKeeps: runs insert entries whose weight does not make the sum wrap
  around; `CacheModel.InsertKeepsIff` says what happens when it does.
- Single-quoted, plain and block scalars, byte order marks and charset detection;
  the stream ends where its bytes end, while the source takes a byte 0x04 in the
  text for its end.
- AcceptedTokens.AcceptedIff: tokens as the scanner makes them, that is, no text on
  those that structure a node and some on tags and anchors. Which error is reported
  for the others is specified by `DocParsing` only.
- Anchor-name events, marks and tag translation; a tag token carries the translated
  tag. What has been sent when an error is thrown is not specified.
- `HandleDocument` around the node of a document.
- Undefined nodes in `NodeEvents`; mappings keep the order of their pairs.
- Base64.DecodeBase64: no answer for bytes from 0x80 up, as the source has none.
- Sizes beyond `int` and `ssize_t` in `io.c` and `io_buffer.cpp`, and readers that
  fail; a little-endian host is assumed.
- Examples of State Threads, DNS, file I/O, and the server's media, protocol and
  transport code: network, process and file access.
