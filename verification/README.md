# A verified model of the ranking service, its event loop and its containers

The repository holds a ranking service (`bis`: a proxy and a server that keep scored members in sorted
sets), the event loop it runs on (libev), and some stand-alone containers. This project models the parts
whose correctness spans several functions and proves, with Dafny 4.11, what they promise: invariants that
every operation keeps, safety over whole runs, round trips, conservation, and a fast form that means the
same as a simple one. `dafny verify dfyconfig.toml` checks all of it.

| file | what it models |
|---|---|
| `Wakeup.dfy` | the lock-free wake-up handshake between senders and the loop, as a state machine over single memory accesses |
| `EvHeap.dfy`, `Timers.dfy` | the 4-ary timer heap with back-indices and cached times; timers, periodics, and making expired timers pending |
| `Pending.dfy` | the priority queues of pending callbacks, under callbacks that feed and clear events themselves |
| `Fds.dfy`, `Polls.dfy`, `Epolls.dfy` | descriptor watchers, the queue of changed descriptors, and the poll and epoll backends |
| `SkipList.dfy`, `SortSet.dfy` | the skip list with spans, and the sorted set over it |
| `TreeShape.dfy`, `RbTree.dfy`, `BinaryTree.dfy` | pointer trees as values; red-black insertion; the binary search tree |
| `Sldb.dfy` | the length code and record stream of the database file, and how stdio and a device that may be too small take them |
| `DbSpec.dfy`, `DbFile.dfy`, `Db.dfy` | the messages of that file and what loading makes of them; writing them; the database of sorted sets, saved and loaded |
| `DbCodec.dfy`, `Powers.dfy` | one codec for the messages of that file, with which the round trip holds without assumptions; powers of two |
| `Framing.dfy` | the proxy's packet format, its receive loop and its send queue |

How things are represented:

- Code that changes objects is a class with methods that change fields. Linked nodes are objects; a heap of
  them is tied to a value (a sequence, a tree) by the class invariant, and the methods' contracts say what
  becomes of that value. Arrays that grow are sequence-valued fields.
- Times and scores are reals, without NaN or rounding. Counters and spans are unbounded integers; where the
  width matters (generation counters, lengths in headers) it is written out.
- An event mask is the set of its bits, so that the bitwise or of two masks is their union.
- What the environment decides is a parameter: the level drawn for a new skip-list node, what each callback
  does, whether the backend kills a descriptor, the errors of system calls, how reads and writes are cut
  into pieces, the order in which a hash table is walked, the answers of reschedule callbacks.
- The wake-up protocol is sequentially consistent: every memory access is one step. The source's fences stand
  for that.
- Protobuf messages are an abstract codec. Of it, the theorems ask only that the messages of the file at hand parse
  back, and `DbCodec.dfy` exhibits a codec that does so for every message whose scores are doubles.
- A file is on a device with room for so many bytes, behind stdio, which may hold back any part of what is written
  until it is flushed. What does not fit is lost, and the write or flush that passes it on fails. When stdio passes bytes
  on is a parameter; bytes it could not pass on are dropped, as glibc does.

Where the code does not do what one would expect, the model follows the code:

- `DeleteNode` counts the list's length up, not down (bis/src/server/skiplist.h:370). Spans of links that lead
  somewhere stay exact all the same; the recorded length is only an upper bound.
- `Delete` and `GetRank` miss a member when a later one of the same score is taller. The contracts say so as an
  if-and-only-if, and `SortSets.HiddenByTallerTie` is an example. After such a miss in `DelMem` or `Update` the
  list keeps an entry that the dictionary does not have. The sorted set's invariant counts these misses: whatever
  their number, the list stays sound and holds every pair of the dictionary, and the two agree exactly when there
  has been none.
- `LastInRangeByScore` answers with the head node when the range lies below the first score and reaches -1.
- `BinaryTree::Insert` descends to the right on equal keys and attaches to the left; it loses the left subtree
  of the last equal node exactly when that has no right child. Inserting 2, 1 and 2 loses the 1
  (`BinaryTrees.LosesOne`).
- After a failed change that leaves the registration in place, `epoll_modify` believes a mask the kernel does
  not have, and a later call with the same mask trusts it (`Epolls.StaleMaskExample`). Which descriptors this
  concerns can be told from the loop's own calls: those whose believed mask is not the last one epoll_ctl accepted.
- `SaveToFile` does not look at the outcome of writing a table's members. A file that does not fit on the device is
  usually reported by the flush all the same, but not when a write has failed before and stdio holds nothing at the end:
  then, and only then, `SaveToFile` answers 0 with a truncated file (`DbFile.SavingTells`). With stdio's blocks of 4096
  bytes, one table whose single member has 10000 bytes on a device that takes 5000 is such a case
  (`DbCodec.TruncatedFile`).
- After an `Update` whose deletion has missed, a member stands twice in its list. Loading skips the second entry, so
  saving and loading rebuilds a list if and only if no member stands twice in it, and otherwise keeps the lowest score of
  such a member. Three requests that lead there are in `Db.LosesUpdate`.
- A periodic watcher with an interval below 1/8192 need not go off at a multiple of its interval (`Timers.TinyOffGrid`).
- A packet whose header announces a length below 8 stalls the connection for good; a database table whose head
  is all defaults leaves a lone type byte in the file; an ev_epoll generation is compared by its low 32 bits.

## Model

| member | source | states |
|---|---|---|
| `Wakeup.RunInv` | bis/deps/libev/ev.c:2440-2571 | The invariant that covers every raised flag and every marked source holds after every step of every interleaving of any number of senders with the loop |
| `Wakeup.NoLostWakeup` | bis/deps/libev/ev.c:3631-3693 | In every run, while the loop is blocked in poll with a pending flag set, the pipe holds a byte or some sender has yet to write one |
| `Wakeup.WriteProgress` | bis/deps/libev/ev.c:2440-2486 | While the loop does not move, no step of anyone takes back the wake-up; each step of the sender in flight brings its write nearer |
| `Wakeup.InFlightSenderWakesLoop` | bis/deps/libev/ev.c:2440-2486 | In every run in which the loop stays blocked, the sender in flight fills the pipe once it has taken its few remaining steps, whatever others do |
| `Wakeup.QuiescentOwesNothing` | bis/deps/libev/ev.c:2490-2553 | A loop that sleeps in poll on an empty pipe with no call in flight owes nothing: no flag is set, no wake-up is recorded as skipped, no watcher is marked |
| `Wakeup.MarkedIsFed` | bis/deps/libev/ev.c:2537-2551 | In every run, a source marked at some point has been fed by the time the loop sleeps on an empty pipe with no call in flight |
| `Wakeup.CallIsFed` | bis/deps/libev/ev.c:2440-2571 | In every run, the source of a call has been fed after that call by the time the loop sleeps on an empty pipe with no call in flight |
| `Wakeup.FedWasReported` | bis/deps/libev/ev.c:2530-2551 | Nothing is fed that was not reported: in every run, each feed of a source has a step before it in which a sender marked the source, with no feed of the source between the two |
| `Wakeup.FeedsCalled` | bis/deps/libev/ev.c:2530-2551 | In every run, the feeds of a source never outnumber the calls for it, those in flight and an open mark counted |
| `Wakeup.WritesForCause` | bis/deps/libev/ev.c:2440-2486 | In every run, a byte is written only by a call that has found its flag not raised and then a wake-up wanted |
| `Wakeup.FallsAsleep` | bis/deps/libev/ev.c:3631-3693 | With no call in flight and none begun, the loop comes to block on an empty pipe within a bounded number of its steps, whatever bytes, notes and marks it finds |
| `Wakeup.PipeBounded` | bis/deps/libev/ev.c:2463-2485 | In every run, a pipe that is no eventfd never holds more than it can |
| `Wakeup.CallAlone` | bis/deps/libev/ev.c:2440-2486 | A call during which nobody else moves marks its source, and if the flag was down raises it and leaves exactly one wake-up: a byte if one is wanted, else the note of a skip |
| `Wakeup.IterationAlone` | bis/deps/libev/ev.c:3631-3693 | An iteration during which nobody else moves comes to pipecb exactly when there is a byte or the note of a skip, and blocks exactly when there is no such note |
| `Wakeup.PipecbAlone` | bis/deps/libev/ev.c:2490-2553 | A pass of pipecb during which nobody else moves drains the pipe, drops the note, and feeds exactly the marked sources of each kind whose flag is raised, signals first, the highest first; their marks and flags are gone then |
| `Wakeup.PassFeeds` | bis/deps/libev/ev.c:2490-2553 | In every run and every interleaving, a source that is marked with its flag raised when pipecb starts, or before pipecb tests that flag, is fed before the loop is outside pipecb again, however busy senders keep it |
| `Wakeup.LoopProgress` | bis/deps/libev/ev.c:2490-2553 | For a marked source whose flag or skip is on record: each step of the loop feeds it or brings its feeding nearer, and no new call and no step of a sender puts it off, but one that takes the record of a skipped write back (`FedIfPrompt` covers these) |
| `Wakeup.NobodyInFlight` | bis/deps/libev/ev.c:2440-2486 | With no call in flight, every marked source is on record like that |
| `Wakeup.FedWithinRank` | bis/deps/libev/ev.c:4947-4952 | A source on record is fed within a bounded number of steps of the loop (less than two iterations), through any calls and any steps of senders that take no recorded skip back |
| `Wakeup.FedIfPrompt` | bis/deps/libev/ev.c:2440-2571 | In every interleaving from every reachable state, whatever skips are taken back: if each call in flight takes its next step before the loop has taken more than d, a marked source is fed before the loop has taken 4 * d steps and those of four iterations |
| `EvHeap.ParentSlot` | bis/deps/libev/ev.c:2247-2250 | The parent of a slot under truncating division: the root is its own parent, every other slot has a smaller one |
| `EvHeap.Disturb` | bis/deps/libev/ev.c:2354-2362 | Another time in one slot breaks the heap towards the root or away from it, never both, and the test of adjustheap tells which |
| `EvHeap.RootIsLeast` | bis/deps/libev/ev.c:2252-2352 | The root of a heap holds a least time |
| `EvHeap.Heap.Downheap` | bis/deps/libev/ev.c:2252-2294 | From a heap broken below one slot: a heap of the same entries, every watcher knowing its slot |
| `EvHeap.Heap.MinChild` | bis/deps/libev/ev.c:2263-2281 | Finds a least child on the fast and the slow path, and says when there is none |
| `EvHeap.Heap.Upheap` | bis/deps/libev/ev.c:2332-2352 | From a heap broken above one slot: a heap of the same entries, every watcher knowing its slot |
| `EvHeap.Heap.Adjustheap` | bis/deps/libev/ev.c:2354-2362 | From a heap with one entry replaced by anything: a heap of the same entries |
| `EvHeap.Heap.Reheap` | bis/deps/libev/ev.c:2364-2374 | From any order: a heap of the same entries |
| `EvHeap.Heap.Add` | bis/deps/libev/ev.c:3917-3922 | Adds one entry and keeps order and slots |
| `EvHeap.Heap.Remove` | bis/deps/libev/ev.c:3939-3951 | Takes exactly the entry of that slot out, the last one filling the gap, and keeps order and slots |
| `EvHeap.Heap.Retime` | bis/deps/libev/ev.c:3972-3974 | Changes one entry's time and keeps order and slots |
| `EvHeap.Heap.Leave` | bis/deps/libev/ev.c:3939-3955 | The heap, as a map from watcher to time, loses exactly that watcher, which is no longer active |
| `Timers.TimerSet.TimerStart` | bis/deps/libev/ev.c:3904-3927 | Adds the watcher, due at now plus its time, unless it is active; keeps heap order, slots, cached times and the set of active watchers |
| `Timers.TimerSet.TimerStop` | bis/deps/libev/ev.c:3929-3958 | Removes exactly this watcher from the due map and from the pending queue; keeps the invariant |
| `Timers.TimerSet.TimerAgain` | bis/deps/libev/ev.c:3960-3986 | Due again after its repeat value, or stopped when that is 0, active or not before; clears its pending events |
| `Timers.TimerSet.TimersReschedule` | bis/deps/libev/ev.c:3477-3490 | Every due time moves by the same amount and the array stays a heap with exact caches |
| `Timers.TimerSet.PeriodicStart` | bis/deps/libev/ev.c:3995-4024 | Adds the watcher, due when its callback says, at its next interval, or at its offset |
| `Timers.TimerSet.PeriodicStop` | bis/deps/libev/ev.c:4026-4053 | Removes exactly this watcher from the due map and from the pending queue |
| `Timers.TimerSet.PeriodicsReschedule` | bis/deps/libev/ev.c:3452-3474 | Every active periodic gets its next time and the rebuilt array is a heap with exact caches |
| `Timers.PeriodicRecalc` | bis/deps/libev/ev.c:3385-3408 | The loop ends at the time RecalcAt names |
| `Timers.RecalcSoon` | bis/deps/libev/ev.c:3385-3408 | For every positive interval, that is later than now and at most one interval later |
| `Timers.RecalcIsNext` | bis/deps/libev/ev.c:3385-3408 | For every positive interval, it is one of the times offset + n * interval if and only if the loop starts at one, and then the first of them still to come |
| `Timers.BaseOnGrid` | bis/deps/libev/ev.c:3389-3390 | For an interval of at least the minimum the loop does start at one |
| `Timers.TinyOffGrid` | bis/deps/libev/ev.c:3389-3390 | An interval below the minimum for which the time is none of them |
| `Timers.TimerSet.ExpireRoot` | bis/deps/libev/ev.c:3353-3376 | Handles a timer that is due first: one repeat later than it was due, or now if that is past, when it repeats; stopped otherwise |
| `Timers.TimerSet.TimersReify` | bis/deps/libev/ev.c:3345-3381 | Terminates; handles exactly the expired timers, each once, by time; those that repeat are due one repeat later than they were, or now if that is past, the others stop; leaves none expired; feeds them in reverse |
| `Timers.TimerSet.PeriodicsReify` | bis/deps/libev/ev.c:3411-3450 | With callbacks that answer no earlier than now, as the source asserts: terminates; handles exactly the expired periodics, each once, by time; rearms them by callback or interval or removes them and leaves none expired; feeds them in reverse |
| `TimerSpec.NeverDone` | bis/deps/libev/ev.c:3417-3446 | An expired watcher whose callback answers a time before now is expired after every further round, so the loop never ends |
| `TimerSpec.NoDrift` | bis/deps/libev/ev.c:3345-3381 | Over any rounds at any times: as long as no round comes a whole repeat late, a repeating timer is due at its first time plus a whole number of repeats, one for each round in which it expired |
| `TimerSpec.LateStartsOver` | bis/deps/libev/ev.c:3362-3366 | A round that comes a whole repeat late leaves the timer due at that round's time |
| `TimerSpec.PlannedRound` | bis/deps/libev/ev.c:3345-3381 | What timers_reify does with all expired timers is such a round, timer by timer |
| `TimerOrder.ReifyOwes` | bis/deps/libev/ev.c:3345-3450 | Afterwards each expired watcher is pending for its event, one that goes on also for what it was pending for before, one that stops for nothing else; all others are pending for what they were |
| `Timers.TimerSet.PlanRenews` | bis/deps/libev/ev.c:3411-3450 | What periodics_reify makes of each expired watcher: its callback, if it has one, says when it is due; else an interval puts it within one interval after now, on its grid from the minimum interval on; else it stops |
| `Timers.TimerSet.NextTells` | bis/deps/libev/ev.c:3452-3474 | Recalculated, a watcher is due when its callback says, if it has one; else within one interval after now, if it has an interval; else when it was |
| `TimerSpec.AllDone` | bis/deps/libev/ev.c:3345-3381 | When nothing left is expired, the list of handled watchers is exactly the set of expired ones, ordered by time |
| `TimerOrder.FedNames` | bis/deps/libev/ev.c:2013-2026 | Feeding leaves watchers already pending in place and puts the others behind them in reverse order |
| `TimerOrder.ExpiredRunInOrder` | bis/deps/libev/ev.c:3299-3318 | Of two expired timers or periodics of one priority that were not pending, the one that expired later is invoked only after the other, whatever is fed and cleared afterwards and by every callback, as long as these two are not cleared |
| `TimerOrder.StillBehind` | bis/deps/libev/ev.c:3299-3318 | Of two pending watchers, the one that became pending later has been invoked or still stands behind the other, through any run whose callbacks clear neither |
| `TimerOrder.NewIsAll` | bis/deps/libev/ev.c:2013-2026 | Every expired timer was pending or becomes so |
| `Pending.Queues.FeedEvent` | bis/deps/libev/ev.c:1993-2011 | Events join those of a pending watcher, or the watcher goes to the end of its priority's queue; slots and slot numbers stay inverse |
| `Pending.Queues.ClearPending` | bis/deps/libev/ev.c:3803-3829 | Drops the watcher's item and nothing else, and answers with its events |
| `Pending.Queues.Pop` | bis/deps/libev/ev.c:3306-3312 | Takes the newest slot of a queue; a cleared one stands for nothing |
| `Pending.Queues.InvokePending` | bis/deps/libev/ev.c:3299-3318 | When only finitely many callbacks feed or clear anything, terminates with all queues empty, whatever these do; each invocation is of the newest watcher of the highest priority pending at that moment |
| `PendingRuns.CallsOrderly` | bis/deps/libev/ev.c:3299-3318 | Through any run of callbacks, no watcher is pending twice and each only at its own priority |
| `PendingRuns.CallbackGetsCredit` | bis/deps/libev/ev.c:1993-2011 | In every run, each callback receives exactly the or of all events fed to its watcher since it was last invoked or cleared |
| `Polls.PollBackend.Modify` | bis/deps/libev/ev_poll.c:52-87 | The descriptor's entry has the mask of its events, or is gone when there are none; all other descriptors keep theirs; entries and indices stay inverse |
| `Polls.CutFacts` | bis/deps/libev/ev_poll.c:77-86 | Removal by moving the last entry keeps entries and indices inverse |
| `Polls.OneEntry` | bis/deps/libev/ev_poll.c:52-87 | A descriptor has at most one entry, and it is the one its index leads to |
| `Polls.HasEntry` | bis/deps/libev/ev_poll.c:52-87 | A descriptor of which something is asked has an entry |
| `Polls.PollMaskBits` | bis/deps/libev/ev_poll.c:73-76 | Reading is asked for by POLLIN, writing by POLLOUT, and nothing else is |
| `Polls.PollMaskTells` | bis/deps/libev/ev_poll.c:73-76 | The poll mask determines the events wanted |
| `Fds.Loop.FdChange` | bis/deps/libev/ev.c:2134-2147 | A descriptor is marked exactly when it waits once among the unprocessed changes |
| `Fds.MarkOk` | bis/deps/libev/ev.c:2134-2147 | Marking keeps that equivalence for every descriptor |
| `Fds.UnmarkOk` | bis/deps/libev/ev.c:2101-2113 | Taking the next change off the queue keeps it |
| `Fds.Loop.IoStart` | bis/deps/libev/ev.c:3857-3882 | Puts an inactive watcher in front of its descriptor's list and marks the descriptor; touches no other list |
| `Fds.Loop.IoStop` | bis/deps/libev/ev.c:3884-3902 | Clears the watcher's pending events, takes it out of its descriptor's list and marks the descriptor; touches no other list |
| `Fds.WlistDel` | bis/deps/libev/ev.c:3788-3801 | Unlinks the first occurrence |
| `Fds.Loop.FdKill` | bis/deps/libev/ev.c:2149-2160 | Stops every watcher of the descriptor, first to last, and no other; for each, its pending events are cleared and then the error event is fed |
| `Fds.KilledOwe` | bis/deps/libev/ev.c:2149-2160 | Afterwards exactly these watchers are pending for the error event and nothing else; all others are pending for what they were before |
| `Fds.Loop.FdReify` | bis/deps/libev/ev.c:2074-2131 | Terminates even when the backend kills descriptors on the way. The changes seen are those queued at the start and those that kills have queued; exactly the descriptors killed at one of them have lost their watchers, which have been given the error event in that order. Nothing waits then, every descriptor's events are the or of its watchers' masks and what the backend asks for. The backend is called for exactly those queued descriptors whose events have changed or that were marked for a new registration, with their old and new events, and then only to ask nothing of killed ones |
| `Fds.ReifiedOne` | bis/deps/libev/ev.c:2101-2128 | One change more: the descriptor is killed exactly when the backend kills it at this change |
| `Fds.CallsTell` | bis/deps/libev/ev.c:2101-2128 | The calls of the backend are for exactly the queued descriptors whose events have changed or that were marked for a new registration, from the old events to the wanted ones |
| `Fds.WantedByOne` | bis/deps/libev/ev.c:2117-2120 | The computed events hold a bit exactly when some watcher of the list asks for it |
| `Epolls.RegisterOk` | bis/deps/libev/ev_epoll.c:87-98 | A registration made with the next generation is the current one, and every orphan is older |
| `Epolls.LostOk` | bis/deps/libev/ev_epoll.c:73-82 | A silent loss of any registration keeps that |
| `Epolls.EpollBackend.Modify` | bis/deps/libev/ev_epoll.c:70-139 | How the call ends, from what is registered and what the kernel answers. When it ends with a registration, that is exactly the current generation with the new mask if and only if the call was accepted or, for a skipped change, the last mask epoll_ctl had accepted is the new one; only a call that kills the descriptor can make it suspect |
| `Epolls.OutcomeTells` | bis/deps/libev/ev_epoll.c:70-136 | When a call of epoll_modify does nothing, trusts its belief, or finds the descriptor refused; and it gives up only when a call fails for a reason of its own or a registration is lost before the second call |
| `Epolls.EpollBackend.ExactUnlessSuspect` | bis/deps/libev/ev_epoll.c:70-139 | In every reachable state, a descriptor whose believed mask is the last one epoll_ctl accepted is registered with exactly that mask and the current generation, if at all |
| `Epolls.EpollBackend.WrongIfSuspect` | bis/deps/libev/ev_epoll.c:94-138 | And one of which a later change failed is registered with other events than the loop believes |
| `Epolls.FreshIsCurrent` | bis/deps/libev/ev_epoll.c:172-184 | The 32-bit generation test passes exactly the events of the current generation, and none of an orphan when there is a registration |
| `Epolls.EpollBackend.PollOne` | bis/deps/libev/ev_epoll.c:164-213 | An event of an old generation is dropped and asks for new kernel state; a wanted one passes and changes nothing; for an unwanted one the believed mask becomes what is wanted, and it passes exactly when epoll_ctl succeeds: then the registration is for exactly the wanted events, or gone when there are none; else new kernel state is asked for |
| `Epolls.EpollBackend.Poll` | bis/deps/libev/ev_epoll.c:164-213 | Over a batch: which events pass, in order; when all have passed, every descriptor with an unwanted event is registered for exactly what is wanted; descriptors without one are untouched; new kernel state is asked for exactly when some event does not pass |
| `Epolls.EpollBackend.MakeUp` | bis/deps/libev/ev_epoll.c:222-235 | Descriptors that epoll refuses get just what their watchers want, from the end of the list on; exactly those no longer refused or wanted leave the list and lose the mark |
| `Epolls.MadeUpHas` | bis/deps/libev/ev_epoll.c:222-235 | Events are made up for exactly the refused and wanted descriptors of the list |
| `Epolls.PassingHas` | bis/deps/libev/ev_epoll.c:164-213 | The events handed on are exactly those that pass |
| `Epolls.EpollBackend.Recreate` | bis/deps/libev/ev_epoll.c:272-284 | A new epoll descriptor leaves no descriptor suspect |
| `Epolls.StaleMaskExample` | bis/deps/libev/ev_epoll.c:94-138 | A run after which the kernel waits for other events than the loop believes |
| `Epolls.StaleEventExample` | bis/deps/libev/ev_epoll.c:176-184 | A run in which the event of an orphaned registration is told from those of the new one, and dropped |
| `SkipLists.SkipList.Insert` | bis/src/server/skiplist.h:261-312 | For any list and any level drawn, members present or not: one entry is added among those of its score, behind all of them if the list did not hold the same pair; every level stays a sublist of the one below, backward links mirror level 0, and every link that leads somewhere spans the exact distance; there are never more levels than the tallest node has |
| `SkipLists.SkipList.Delete` | bis/src/server/skiplist.h:314-334 | For any list: removes exactly one node that holds the member with that score, if and only if there is one with no taller later one of its score; otherwise changes nothing |
| `SkipLists.SkipList.DeleteNode` | bis/src/server/skiplist.h:352-371 | Unlinking keeps all levels, spans, backward links and the tail, and leaves no level without a node |
| `SkipLists.SkipList.GetRank` | bis/src/server/skiplist.h:164-179 | The first position at which the search meets the member, or 0, and 0 only when no position is rankable |
| `SkipLists.SkipList.FirstInRangeByIdx` | bis/src/server/skiplist.h:181-204 | The node of rank min, or end when there is none, however the recorded length has drifted |
| `SkipLists.SkipList.FirstInRangeByScore` | bis/src/server/skiplist.h:206-230 | The first node of the range, or end when no score is in it |
| `SkipLists.SkipList.LastInRangeByScore` | bis/src/server/skiplist.h:231-259 | The last node of the range, or end or the head when no score is in it, and the head only for ranges that reach -1 |
| `SkipLists.DescentFindsCut` | bis/src/server/skiplist.h:265-276 | The descent over all levels by a monotone condition stops at the last node that the condition keeps |
| `SkipLists.DescentPath` | bis/src/server/skiplist.h:265-276 | Whatever the condition, the stop on each level is the last node before the final stop that reaches the level, so that relinking there is right |
| `SkipLists.SearchArrives` | bis/src/server/skiplist.h:316-325 | The search of Insert and Delete arrives at the member exactly when some node holds it with no taller tie behind it |
| `SkipLists.StopBeforeTarget` | bis/src/server/skiplist.h:316-325 | A member that no later one of its score overtops is not passed on any level |
| `SkipLists.TallerTwin` | bis/src/server/skiplist.h:316-325 | One that is overtopped is passed, unless a taller node with the same member and score lies ahead of the search |
| `SortSets.SortSet.Insert` | bis/src/server/sort_set.cpp:9-19 | In every state, misses or not: adds an absent member to dictionary and list, a present one changes nothing; without a miss before, both hold the same map, ordered by score and then by age |
| `SortSets.SortSet.Update` | bis/src/server/sort_set.cpp:21-30 | In every state: the member has the new score in the dictionary and an entry of it in the list; the old entry is gone if and only if the list's search finds it, else the misses grow by one; without a miss before, the new entry stands behind all of its score |
| `SortSets.SortSet.DelMem` | bis/src/server/sort_set.cpp:32-40 | In every state: the member leaves the dictionary; it leaves the list if and only if the list's search finds it, else the misses grow by one |
| `SortSets.AgreeIffNoMiss` | bis/src/server/sort_set.cpp:9-40 | Dictionary and list hold the same pairs exactly when no deletion has missed |
| `SortSets.KeptByInsert` | bis/src/server/sort_set.cpp:9-19 | Adding keeps every pair of the dictionary in the list, however many deletions have missed |
| `SortSets.KeptByDelete` | bis/src/server/sort_set.cpp:21-40 | So does removing, found or missed |
| `SortSets.SortSet.GetMemScore` | bis/src/server/sort_set.cpp:42-51 | The score the dictionary has for the member, which is one the list has for it |
| `SortSets.SortSet.GetMemRank` | bis/src/server/sort_set.cpp:53-61 | The first position in the list at which the search meets the member, or 0 exactly when it meets none |
| `SortSets.SortSet.GetMemsByScore` | bis/src/server/sort_set.cpp:63-68 | The two ends delimit exactly the run of scores in the range, or are end twice, if and only if not both the lower bound is at most -1 and the upper one below the first score; then the second end is the head |
| `SortSets.HeadForLast` | bis/src/server/sort_set.cpp:63-68 | A query that is answered with the head |
| `SortSets.SortSet.GetMemsFirstByRank` | bis/src/server/sort_set.cpp:70-72 | The node of rank min among the members of the dictionary, or end |
| `SortSets.SortSet.GetMemByRank` | bis/src/server/sort_set.cpp:74-76 | The node of that rank, or end |
| `SortSets.OrderDetermined` | bis/src/server/sort_set.cpp:9-61 | The list is determined by the dictionary and the order of insertion |
| `SortSets.DistinctScoresFindable` | bis/src/server/skiplist.h:314-334 | With distinct scores every member is found |
| `SortSets.HiddenByTallerTie` | bis/src/server/skiplist.h:314-334 | Two insertions after which a present member is not found |
| `RbTrees.RBTree.LeftRotate` | rb_tree/src/rb_tree.h:107-124 | The pointer assignments turn x(a, y(b, c)) into y(x(a, b), c) and keep all parent and child links consistent |
| `RbTrees.RBTree.RightRotate` | rb_tree/src/rb_tree.h:126-142 | The mirror image |
| `RbTrees.RBTree.FixStep` | rb_tree/src/rb_tree.h:175-207 | Each round keeps the tree red-black but for one edge, keeps the order of nodes, and makes a measure smaller, case 2 included |
| `RbTrees.RBTree.InsertFixup` | rb_tree/src/rb_tree.h:173-209 | Terminates with a red-black tree, black root and nil, and the same nodes in the same order |
| `RbTrees.RBTree.Insert` | rb_tree/src/rb_tree.h:66-171 | For every key, present or not: consistent links, sorted keys, a red-black tree, the old items with the new one after those of at most its key; `high` is the length of the longest descent so far, within the height bound |
| `RbTrees.WithItemAdds` | rb_tree/src/rb_tree.h:144-171 | That insertion is the old multiset of pairs and the new pair |
| `RbTrees.RBTree.Search` | rb_tree/src/rb_tree.h:73-83 | A node with the key, or nil exactly when there is none |
| `RbTrees.HeightBound` | rb_tree/src/rb_tree.h:144-158 | A way down a red-black tree of n nodes has length at most 2 log2(n + 1) |
| `RbTrees.InnerTurn` | rb_tree/src/rb_tree.h:183-185 | Case 2 keeps the order and leads to case 3 |
| `RbTrees.OuterTurnLeft` | rb_tree/src/rb_tree.h:186-190 | Case 3 keeps the order and repairs the red edge |
| `BinaryTrees.BinaryTree.Search` | binary_tree/binary_tree.h:38-54 | The node with the key, or null exactly when there is none, equal keys or not |
| `BinaryTrees.BinaryTree.Insert` | binary_tree/binary_tree.h:142-157 | In any tree that insertion makes, equal keys or not: where the new node goes, as a change of the tree: behind all of at most its key, except that in front of the last node with its very key when that has no right child, in the place of its left subtree; keys stay in order; nodes are lost exactly when that subtree is not empty |
| `BinaryTrees.LosesOne` | binary_tree/binary_tree.h:142-157 | Three insertions that lose a node |
| `BinaryTrees.BinaryTree.Transplant` | binary_tree/binary_tree.h:178-189 | Which links change, and that no other does |
| `BinaryTrees.BinaryTree.DeleteNode` | binary_tree/binary_tree.h:158-176 | Through both transplants, exactly the given node leaves the order; parent and child links stay consistent |
| `BinaryTrees.BinaryTree.Delete` | binary_tree/binary_tree.h:56-61 | Exactly one node with the key leaves the tree, whose keys stay in order; an absent key changes nothing |
| `BinaryTrees.BinaryTree.Next` | binary_tree/binary_tree.h:128-140 | The in-order successor of every node, null after the last |
| `BinaryTrees.BinaryTree.Pre` | binary_tree/binary_tree.h:114-126 | The in-order predecessor of every node, null before the first |
| `BinaryTrees.BinaryTree.Min` | binary_tree/binary_tree.h:106-112 | The first node of a subtree |
| `BinaryTrees.BinaryTree.Max` | binary_tree/binary_tree.h:98-104 | The last node of a subtree |
| `BinaryTrees.OnlyTwin` | binary_tree/binary_tree.h:145-148 | The last node with the key, if it has no right child, is where the descent ends |
| `TreeShape.RotateLeft` | rb_tree/src/rb_tree.h:107-124 | What the assignments of a rotation make of the tree as a value |
| `TreeShape.PlugInorder` | rb_tree/src/rb_tree.h:90-96 | The in-order walk of a tree is what is before a subtree, the subtree's own, and what is after |
| `Records.LenRoundTrip` | bis/src/server/sldb.cpp:71-119 | Every length below 2^32 is read back from its 1, 2 or 5 bytes, which are all that is consumed |
| `Records.LenForms` | bis/src/server/sldb.cpp:71-95 | The forms byte by byte: the shortest that holds the length, told apart by the two highest bits of the first byte, the rest in network order |
| `Records.RawRoundTrip` | bis/src/server/sldb.cpp:121-149 | A string is read back if and only if it has 1 to 2^32 - 2 bytes |
| `Records.RecordRoundTrip` | bis/src/server/sldb.cpp:151-200 | The same for a typed record in front of any other bytes |
| `Records.RecordsRoundTrip` | bis/src/server/sldb.cpp:61-159 | Any list of such records is read back from the concatenation of their encodings, to the last byte |
| `Sldb.RecordStreams` | bis/src/server/sldb.cpp:25-34 | Wherever stdio cuts the bytes and whatever write fails: as long as none has failed, the bytes of all records are on the device or held back, and afterwards the device is full of the first of them |
| `Sldb.RecordFails` | bis/src/server/sldb.cpp:71-159 | Once a write of a record has failed, no more of it is written: that is the only failure, and stdio holds nothing |
| `Sldb.FlushTells` | bis/src/server/sldb.cpp:44-46 | After a flush everything is on the device, or it is full of what came first; the flush succeeds exactly when everything fits, or a write failed before and nothing has been held back since |
| `Sldb.File.FileFlush` | bis/src/server/sldb.cpp:44-46 | Passes on what stdio holds back; -1 exactly when that does not fit |
| `Sldb.File.SaveLen` | bis/src/server/sldb.cpp:71-95 | Gives stdio the length's code; answers with its size, or -1 exactly when a write in the call failed, after which no further byte is written |
| `Sldb.File.LoadLen` | bis/src/server/sldb.cpp:97-119 | Reads a length from the position on, truncated and unknown forms included |
| `Sldb.File.SaveRawString` | bis/src/server/sldb.cpp:121-130 | Gives stdio length and bytes, nothing for an empty string; -1 exactly when a write in the call failed |
| `Sldb.File.LoadRawString` | bis/src/server/sldb.cpp:132-149 | Reads a string from the position on, failing on length 0, an error length or the end of the file |
| `Sldb.File.SaveObj` | bis/src/server/sldb.cpp:151-159 | Gives stdio the record; an error exactly when a write in the call failed or the record has no payload, which leaves the type byte alone |
| `Db.Database.SaveToFile` | bis/src/server/db.cpp:138-223 | On an answer of 0 the file holds the version, the number of databases and every sorted set in batches of 50, or its first bytes if the device has no room for all. With room for all it answers 0 exactly when the first two messages have a payload and sync, close and rename succeed; without, exactly when the first two records were accepted, a write has failed later, stdio holds nothing at the flush, and these succeed |
| `DbFile.SavingTells` | bis/src/server/db.cpp:154-206 | Of what stdio gets: when the head is accepted, what is in the file after the flush, and when the flush tells of a file that did not fit |
| `DbFile.TruncatedAnswersZero` | bis/src/server/db.cpp:194-206 | A family of databases whose file is truncated without any error in the end |
| `DbCodec.TruncatedFile` | bis/src/server/db.cpp:194-206 | One of them, on a device of 5000 bytes |
| `DbFile.SaveMembers` | bis/src/server/db.cpp:179-199 | The walk along the list's lowest level with its counter gives stdio exactly the batches of its entries, for any number of them, whichever writes fail |
| `DbFile.RoundsBatches` | bis/src/server/db.cpp:179-199 | The rounds of that loop and the remainder written after it are the batches of all entries |
| `DbFile.SaveTable` | bis/src/server/db.cpp:167-199 | A skip list is written as its head and the batches of its entries, the batches unless writing the head fails |
| `DbSpec.BatchesAppend` | bis/src/server/db.cpp:179-199 | Batches of a whole number of fifties and of what follows are the batches of all |
| `Db.Database.CheckDbFileAndLoad` | bis/src/server/db.cpp:231-292 | Terminates on every file, damaged ones included, with sorted sets that hold what the readable records make, inserted one by one |
| `Db.Fill` | bis/src/server/db.cpp:279-281 | Inserting the members of a message into a sorted set one by one gives the sequence that Filled computes |
| `DbSpec.LoadTakes` | bis/src/server/db.cpp:233-292 | With any codec that reads back the messages at hand, loading a file of storable messages takes exactly those messages |
| `DbSpec.UnreadablePassed` | bis/src/server/db.cpp:241-283 | A record that cannot be parsed is passed over, and loading goes on behind it in the same table |
| `DbSpec.TruncatedPassed` | bis/src/server/db.cpp:231-292 | So is a truncated record at the end of the file |
| `DbSpec.LoadKeeps` | bis/src/server/db.cpp:231-292 | Whatever a file holds, damaged or not, loading it takes no table and no entry away |
| `DbSpec.BatchesFill` | bis/src/server/db.cpp:269-283 | Loading the batches of a table rebuilds the first entry of every member in the same sequence, across any batch boundary and for any levels |
| `DbSpec.SaveThenLoad` | bis/src/server/db.cpp:168-292 | With any codec that reads back the messages of the file: saving a database and loading the file into an empty one gives every table the first entry of each member in the same sequence; so a table is rebuilt if and only if no member stands twice in it |
| `DbSpec.FirstOnesTell` | bis/src/server/sort_set.cpp:9-19 | The first entries of the members are all entries exactly when no member stands twice |
| `Db.SaveAndReload` | bis/src/server/db.cpp:138-292 | The same of the objects, in any state of the database: sorted sets with members, saved with room enough and loaded into an empty database by sort_set::Insert |
| `Db.SameDicts` | bis/src/server/db.cpp:138-292 | When no deletion has missed, saving and loading gives every sorted set the dictionary it had |
| `Db.Database.Insert` | bis/src/server/db.cpp:9-18 | The member gets the score in the sorted set of the key, a new one if there is none; the others are untouched |
| `Db.Database.DelMem` | bis/src/server/db.cpp:20-36 | The member leaves the sorted set of the key, the others are untouched; an error changes nothing and is answered exactly when there is no such key or member |
| `Db.LosesUpdate` | bis/src/server/db.cpp:9-18 | Three requests after which a member stands twice and would be loaded with the score it had before |
| `Db.Offers` | bis/src/server/sort_set.cpp:9-40 | Every sorted set with members that a database keeps is what the round trip asks of a table |
| `DbCodec.PlainCodes` | bis/src/server/proto/bs_db.proto:30-48 | There is a codec that reads back every message whose scores are doubles and writes nothing for defaults only |
| `DbCodec.DoublesSaveThenLoad` | bis/src/server/db.cpp:168-292 | With it this holds for every database of double scores and moderately long members, with nothing assumed about a codec |
| `DbCodec.OneTableSaveThenLoad` | bis/src/server/db.cpp:168-292 | One such database |
| `SortSets.MemberOfDict` | bis/src/server/sort_set.cpp:9-19 | The dictionary's test for a member is a test on the list, as long as the two agree |
| `DbSpec.DefaultHeadBreaks` | bis/src/server/sldb.cpp:121-130 | A table head that is all defaults is not read back, whatever follows |
| `Framing.CmdRoundTrip` | bis/src/proxy/cmd.cpp:15-58 | A serialized command, followed by any bytes, parses to itself if and only if it has at most 32768 bytes |
| `Framing.Layout` | bis/src/proxy/cmd.cpp:49-58 | Length, command and check of a serialized command stand in network order in its first eight bytes, its data behind them |
| `Framing.HeaderDecides` | bis/src/proxy/cmd.cpp:15-47 | Parse answers by the length in the first four bytes: an error for more than 32768 as soon as the header is there, nothing for less than 8 or an incomplete packet, else the packet's length |
| `Framing.ReadIsEncoded` | bis/src/proxy/cmd.cpp:15-58 | What Parse accepts is the serialization of what it yields |
| `Framing.ParseMore` | bis/src/proxy/cmd.cpp:15-47 | More bytes change no answer but that of an incomplete packet |
| `Framing.FramesConserve` | bis/src/proxy/task.cpp:213-235 | The commands of a stream, serialized, and the bytes left over are the stream |
| `Framing.FramesSplit` | bis/src/proxy/task.cpp:213-235 | Reading a stream in two parts is reading it at once |
| `Framing.ChunkInvariant` | bis/src/proxy/task.cpp:103-132 | However a stream is cut into chunks, commands and remaining bytes are those of the whole |
| `Framing.FramesOfCmds` | bis/src/proxy/cmd.cpp:49-58 | A stream of serialized commands that are not too long holds just these, in order |
| `Framing.FullBuffer` | bis/src/proxy/task.cpp:213-226 | A full buffer yields no packet and no termination exactly when its header announces less than 8 bytes |
| `Framing.StuckForever` | bis/src/proxy/cmd.cpp:28-31 | Such a header is never got over |
| `Tasks.Command.Parse` | bis/src/proxy/cmd.cpp:15-47 | Answers with the packet's length, 0 or -1, and sets the fields only for a packet |
| `Tasks.Command.Serialize` | bis/src/proxy/cmd.cpp:49-58 | The bytes of the command |
| `Tasks.Task.Recv` | bis/src/proxy/task.cpp:103-132 | Takes bytes in order until the socket has none or the buffer is full, losing none; ends the connection only when the socket says so |
| `Tasks.Task.HandleCmdMsg` | bis/src/proxy/task.cpp:213-235 | Terminates; hands on exactly the commands of the buffer and keeps the rest; ends the connection exactly on a packet that is too long |
| `Tasks.Task.OnSockRead` | bis/src/proxy/task.cpp:62-65 | After any reads, the commands handed on and the bytes held are those of everything received, none lost; all the socket has is received unless the buffer is full, which then means a stuck header or the end; the connection ends exactly when the socket says so or a packet is too long |
| `Tasks.Task.FlushSendQueue` | bis/src/proxy/task.cpp:158-203 | Terminates; writes from the front of the queue what the socket takes, until the queue is empty or a write is refused, and ends the connection exactly on an error |
| `Tasks.FlushConserves` | bis/src/proxy/task.cpp:158-203 | Bytes written and bytes left are always the bytes queued, in order, through partial writes |
| `Tasks.FlushEnds` | bis/src/proxy/task.cpp:158-203 | The queue is empty, or some write was refused and all before it have taken something |
| `Tasks.PartlyTaken` | bis/src/proxy/task.cpp:190-200 | A write that is taken in part writes just that part |
| `Tasks.Task.WriteRemain` | bis/src/proxy/task.cpp:76-86 | When the socket can be written again, the queue is written as far as the socket takes it; the connection ends exactly on an error |
| `Tasks.Task.Response` | bis/src/proxy/task.cpp:134-156 | A response joins the queue behind all others and the queue is written: then it is empty, or some write was refused, all before having taken something; the connection ends exactly when that refusal was for good. On a socket that takes everything, all bytes queued and the response are written |

## Left out

- SkipLists.SkipList.FirstInRangeByScore, LastInRangeByScore and FirstInRangeByIdx: require a non-empty list, because the source dereferences the tail.
- SkipLists.SkipList.GetRank: the contract is for any score; `SortSets.SortSet.GetMemRank` states the case of the member's own score.
- Db.Database.SaveToFile: requires non-empty tables, because walking an empty sorted set dereferences its missing tail; opening the temporary file, removing it, and saving in a child process are not modelled; syncing, closing and renaming only by their outcomes.
- Db.Database: no sorted set is shared between two keys, as none is in the source; the wrappers that look a key up and pass a query on to its sorted set are left out.
- DbCodec.PlainCodes: the codec is not the encoding of protocol buffers, only a witness that the round trip asks for nothing impossible.
- Fds.Loop: the watcher lists are sequences, not next pointers; masks of active watchers do not change.
- Fds.Loop.FdReify: the backend is the poll backend together with an arbitrary decision to kill after each change, which covers backends that kill.
- Epolls.EpollBackend.Poll: events arrive as EV_READ and EV_WRITE, to which the source first translates the kernel's bits; the growing of the event array is not modelled; generations in one batch are assumed to lie within 2^32 of the current one.
- Timers.TimerSet: timers and periodics are two sets over one pending queue; priority clamping and the count of active watchers are left out.
- Timers.TimerSet.PeriodicsReify: a reschedule callback only answers with a time, one for each watcher, as it may call no function of the loop.
- Timers.PeriodicRecalc: in exact arithmetic, so its way out when the resolution fails is never taken.
- Pending.Queues.InvokePending: what callbacks do is a finite list of lists of feed and clear operations, so that only finitely many callbacks do anything; otherwise the loop need not end. Callbacks that run the loop recursively are not modelled.
- EvHeap.Heap.MinChild: the test of a fourth child on the slow path can never succeed and is not written.
- Tasks.Task.Response: solidifying buffers, epoll registration and activity times are not modelled; the checksum variants of Serialize are not modelled because the checksum is not part of this repository's own code.
- Freed nodes: deletion takes nodes out of the structure; use after free is not modelled.
- Red-black deletion is unfinished in the source; the hash table, the list, the timer queue over `std::priority_queue` and the older skip list copy hold no strong property or only easy ones.
- Request dispatch, sockets, ZeroMQ, logging, configuration, process control, the other libev backends and watcher kinds, and clock reading are I/O plumbing.
