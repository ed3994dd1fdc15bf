# The asynchronous core of the gateway, in Dafny

The gateway answers most requests later: a request reserves a numbered place in a mailbox, a
background task fills it in, and the client polls. This project models that core and proves what
it promises.

| file | what it models |
|---|---|
| `Basics.dfy` | shared names |
| `Mailbox.dfy` | the specification: an unbounded log of numbered answers |
| `SlidingWindows.dfy`, `WindowObject.dfy` | the in-memory mailbox: its value and operations, and the mutable object over an array |
| `WindowRefinement.dfy`, `WindowFaults.dfy` | the window refines the log, exactly when it does, and runs on which it does not |
| `SubscriptionIds.dfy` | the same for the queue that hands out subscription ids |
| `MessageHandlers.dfy`, `RequestProtocol.dfy` | the queue worker's requests, and the session protocol of the request manager |
| `RedisLists.dfy`, `RedisFacts.dfy`, `Simulation.dfy` | the Redis mailbox, and the simulation between the two mailboxes |
| `RedisSessions.dfy` | the session protocol over the Redis mailbox |
| `MasterProtocol.dfy`, `MasterInvariants.dfy`, `MasterStop.dfy`, `MasterAnswers.dfy` | the master and its workers as atomic events, their invariants, when `Stop` returns, and what was answered by then |
| `MasterRouting.dfy`, `MasterReleases.dfy` | what workers start from and where requests end up over whole runs, against a reference that knows only active keys; when shutdown channels are closed |
| `BroadcastReplies.dfy` | the countdown that closes a broadcast's reply channel |
| `QueueServer.dfy` | master and window put together: every queue is a log |
| `Retrying.dfy`, `Wallets.dfy` | the retry loop, and inside it the wallet owner's nonce and the client that resends |
| `BatchRunner.dfy` | the batch runner's channels and workers |
| `LogSubscribers.dfy`, `LogReconnection.dfy` | the log filter, and the interleavings of failing, saving and resubscribing |
| `LatencyWindow.dfy` | the window of recent latency samples |

Objects whose fields change in place are classes (`SlidingWindow`, `MessageHandler`, `RedisQueue`,
`PooledClient`, `WalletOwner`, `LogSubscriber`, `IntWindow`), loops are loops, and each method is proved equal to a
function on values; the properties are lemmas about those functions. Concurrent protocols are state
datatypes with one event per atomic action, and a run is any sequence of enabled events.

## Where the code departs from what it documents

The code is modelled as it is. Each departure has a lemma with a concrete run, on the window every
queue has or from an empty list, and an if-and-only-if that says when the code does meet the promise.

- `Discard` moves the unset cursor by comparing with the slot below it, so discarding a range that
  contains that slot leaves the cursor past a slot that may be owed
  (`WindowFaults.DiscardLosesOwed`, `WindowFaults.CursorWraps`); it is right exactly under
  `CursorSpared`. (The contiguous index it also keeps never moves and decides nothing, as in
  `WindowObject.SlidingWindow.MarkRange`.)
- `slide` does not clear discard marks in the slots it vacates (`WindowFaults.SlideLeavesMark`); the
  result is consistent exactly under `SlideSafe`. `WindowRefinement.StepValidIff` covers every
  operation. With reservations and discards of one id only, as subscribing and unsubscribing make
  them, a live id can be lost that way (`SubscriptionIds.LiveIdIsLost`, exact in
  `SubscriptionIds.TrafficSafeIff`), though not within eight subscriptions
  (`SubscriptionIds.EightSubscriptionsAreSafe`).
- `Set` for the offset just past the array indexes out of range (`WindowFaults.PastTheArray`), the
  only panic of a consistent window (`WindowRefinement.PanicsIff`).
- `Get` adds count and index in 64 bits, so asking for everything can read nothing
  (`WindowFaults.EverythingReadsNothing`, exact in `SlidingWindows.GetAgreesIff`).
- An unkept discard with a count is refused when its offset is already discarded
  (`QueueServer.SecondDiscardRefused`, exact in `MessageHandlers.DiscardRefusedIff`).
- The Redis script removes ids that are still owed when a client acknowledges past them
  (`RedisFacts.AcknowledgeLosesOwed`), and the background task then panics
  (`RedisFacts.InsertAfterAcknowledgeIff` for one call, `RedisSessions.SessionExact` for runs). It
  returns `count + 1` elements (`RedisFacts.OneTooMany`, `RedisFacts.RetrieveBothEnds`) and can discard
  further than asked (`RedisFacts.DiscardOverreaches`, `RedisFacts.DiscardReachesIff`).
- The Redis client returns answered elements that were discarded (`Simulation.DiscardedIsReturned`,
  `Simulation.DiscardedIsReturnedIff`), the script overwrites answers the window refuses
  (`Simulation.SecondAnswerOverwrites`, `Simulation.OverwriteIff`), and a read reports the offset of
  the first element returned, or 0, where the window reports its base
  (`Simulation.ReportedOffsetsDiffer`, `Simulation.ReadAgreesIff`).
- The master ignores a worker that exits by itself, and lets a recreated key displace a worker that
  is still shutting down; `Stop` then never returns (`MasterStop.SelfExitIsIgnored`,
  `MasterStop.RecreationIsLost`, `MasterStop.StopReturnsIff`).
- An empty batch never returns (`BatchRunner.EmptyBatchHangs`, `BatchRunner.BatchRuns`).
- A request whose reply is lost after the ledger took it is resent, refused for its nonce, signed
  afresh and committed again (`Wallets.LostReplyCommitsTwice`, up to ten times in
  `Wallets.LostRepliesCommitTenTimes`), and one whose reply cannot be parsed is reported as failed
  (`Wallets.IllegibleReplyHidesCommit`); `Wallets.SendCommitsIff` and `Wallets.RunCommits` say exactly
  when reports and commits agree.
- A failing log subscription publishes its error before it saves the block to resume from. A
  resubscription in between starts at the head and loses events
  (`LogReconnection.UnsavedResumptionLoses`); one after a session that delivered nothing asks for
  block 0 and replays the past (`LogReconnection.EmptySessionReplays`). `LogReconnection.GaplessIff` is
  exact. The worker listens to the first session's errors only, so there is at most one reconnection
  (`LogReconnection.OneReconnection`); it then leaves by itself, which is the case of
  `MasterStop.SelfExitIsIgnored`.

## Model

| member | source | states |
|---|---|---|
| `Mailbox.RunExtends` | mqueue/mem/window.go:27-32 | over any run of operations nothing owed is let go, no stored answer changes and no discard is undone |
| `Mailbox.SlideKeepsOwed` | mqueue/mem/window.go:259-271 | a slide never lets go of an offset that is still owed an answer, and rewrites no entry |
| `Mailbox.SlideExact` | mqueue/mem/window.go:268-277 | a slide reaches the requested offset or the first answer owed, and goes on past discarded offsets only |
| `Mailbox.InsertThenRead` | mqueue/mem/window.go:148-172 | an answer is stored exactly for a held offset still owed, changes only that offset, and a read returns it; each of the three errors has its exact condition |
| `Mailbox.DiscardExact` | mqueue/mem/window.go:193-235 | a discard inside the window marks and counts exactly the handed-out offsets of its range, changes no answer, lets go of discarded offsets only, and at the base of all of them up to the next live one |
| `WindowRefinement.PanicsIff` | mqueue/mem/window.go:116-172 | a consistent window panics exactly on an answer for the offset just past its array: the two panics of a reservation are out of reach |
| `WindowRefinement.ReservationsAnswered` | mqueue/mem/window.go:116-140 | every reservation of a guarded run is answered with an offset or with full |
| `Mailbox.ReadableExact` | mqueue/mem/window.go:97-106 | a range of the log yields exactly its answered, undiscarded offsets with their answers, ascending |
| `Mailbox.RetrieveExact` | mqueue/mem/window.go:88-109 | a read returns exactly the answered, undiscarded offsets of [max(offset, base), max(offset, base) + count), in order |
| `Mailbox.DiscardedNeverRead` | mqueue/mem/window.go:193-195 | an offset discarded or let go of is returned by no later read of any run |
| `Mailbox.HandedOutConsecutive` | mqueue/mem/window.go:111-140 | reservations hand out consecutive offsets over a whole run, whatever else happens in between |
| `Mailbox.RoomLeft` | mqueue/mem/window.go:116-122 | exactly maxSize - 1 - held further reservations succeed, and the one after reports full |
| `Mailbox.SlideMakesRoom` | mqueue/mem/window.go:186-191 | a slide that frees k offsets makes room for k more reservations |
| `Mailbox.RunCapacity` | mqueue/mem/window.go:240-257 | over any run the capacity is the first one doubled some number of times, up to the maximum |
| `SlidingWindows.ShiftedPrefix` | mqueue/mem/window.go:283-290 | the array after a slide: each slot moved down, the vacated ones cleared of everything but discard mark and type |
| `SlidingWindows.MarkSlots` | mqueue/mem/window.go:212-214 | marking touches the slots of its range and no other |
| `WindowObject.SlidingWindow.constructor` | mqueue/mem/window.go:66-86 | a new window has its default or given sizes, both cursors at zero and all slots empty |
| `WindowObject.SlidingWindow.Get` | mqueue/mem/window.go:89-109 | the loop over the array collects exactly the visible slots of the range, whose end is a 64-bit sum |
| `SlidingWindows.GetAgreesIff` | mqueue/mem/window.go:97 | that is the read asked for exactly when index plus count stays below 2^64, or there was nothing to read |
| `WindowObject.SlidingWindow.ReserveNext` | mqueue/mem/window.go:116-140 | growth, reservation and reply are those of the window value, including the full and panic cases |
| `WindowObject.SlidingWindow.Set` | mqueue/mem/window.go:151-172 | the slot, the cursor and the four outcomes are those of the window value |
| `WindowObject.SlidingWindow.UpdateUnsetIndex` | mqueue/mem/window.go:174-184 | the cursor moves to the first free slot if it pointed at the given one, and otherwise stays |
| `WindowObject.SlidingWindow.MakeRoom` | mqueue/mem/window.go:240-257 | the array doubles up to the maximum, keeping its contents |
| `WindowObject.SlidingWindow.Slide` | mqueue/mem/window.go:259-297 | the in-place shift, the base and both cursors, with their unsigned wrap-around, are those of the window value |
| `WindowObject.SlidingWindow.ShiftDown` | mqueue/mem/window.go:283-290 | copying the array onto itself moves every slot down and clears what is left behind |
| `WindowObject.SlidingWindow.Discard` | mqueue/mem/window.go:196-235 | marks, count, cursor and the slide that follows are those of the window value; that slide cannot fail |
| `WindowObject.SlidingWindow.MarkRange` | mqueue/mem/window.go:205-223 | the marking loop marks and counts its range and drags the unset cursor as the comparison with the slot below it does |
| `WindowRefinement.CursorIsFirstOpen` | mqueue/mem/window.go:43-45 | the unset cursor is exactly the first offset still owed |
| `WindowRefinement.SlideValidIff` | mqueue/mem/window.go:283-294 | a slide keeps cursors, flags and base consistent exactly when no discarded slot lies in the vacated tail |
| `WindowRefinement.DiscardValidIff` | mqueue/mem/window.go:205-232 | a discard keeps them consistent exactly when it spares the slot below the unset cursor, or happens to land right, and its slide vacates no discarded slot |
| `WindowRefinement.DiscardInBounds` | mqueue/mem/window.go:205-232 | even an unguarded discard of a consistent window leaves cursors that index the array |
| `WindowRefinement.StepValidIff` | mqueue/mem/window.go:116-297 | any operation keeps the window consistent if and only if it meets its guard |
| `WindowRefinement.NextRefines` | mqueue/mem/window.go:116-140 | a reservation, with its growth, is the log's, and full is reported exactly when the log has no room |
| `WindowRefinement.InsertRefines` | mqueue/mem/window.go:151-184 | setting an answer and advancing the cursor is the log's insertion, with the same outcome |
| `WindowRefinement.SlideRefines` | mqueue/mem/window.go:259-297 | a guarded slide is the log's slide and moves the same number of offsets |
| `WindowRefinement.DiscardRefines` | mqueue/mem/window.go:196-235 | a guarded discard is the log's discard and counts the same offsets |
| `WindowRefinement.RetrieveRefines` | mqueue/mem/window.go:89-109 | a read of the slots is the log's read |
| `WindowRefinement.RunRefines` | mqueue/mem/window.go:89-297 | across any number of growths, shifts and discards the window gives the log's replies and ends refining it |
| `WindowRefinement.WindowIsALog` | mqueue/mem/window.go:64-297 | a new window over any guarded run ends consistent, replies as the unbounded log, and hands out 0, 1, 2, ... |
| `WindowRefinement.QuietRunSafe` | mqueue/mem/window.go:259-297 | from any consistent, unmarked window, runs without counted discards meet both guards |
| `WindowRefinement.QuietRunsConsistent` | mqueue/mem/window.go:66-184 | reservations, answers, reads and slides alone never make a new window inconsistent |
| `WindowFaults.DiscardLosesOwed` | mqueue/mem/window.go:218-220 | in a window of any size, a run that discards an answered offset and later slides over an owed one, whose answer is refused |
| `WindowFaults.SlideLeavesMark` | mqueue/mem/window.go:285-290 | in a window of any size s from 6 slots on, a run after which the new offset s is born discarded and its answer refused |
| `WindowFaults.CursorWraps` | mqueue/mem/window.go:292-294 | a run of four operations that wraps the reservation cursor to 2^64 - 1 |
| `WindowFaults.PastTheArray` | mqueue/mem/window.go:151-158 | an answer for the offset just past a new window's array panics |
| `WindowFaults.EverythingReadsNothing` | mqueue/mem/window.go:97 | a run after which a read of 2^64 - 1 elements from an answered offset returns nothing |
| `SubscriptionIds.UnsubscribeSafeIff` | backend/core/manager.go:165-171 | with no answers in the window, discarding one id keeps it consistent exactly when it is not the base, or the slots vacated with it hold no discard mark |
| `SubscriptionIds.TrafficSafeIff` | backend/core/manager.go:160-210 | runs of subscribing and unsubscribing meet the window's guards exactly when every unsubscription meets that condition |
| `SubscriptionIds.SubscriptionsAreALog` | backend/core/manager.go:190-210 | such runs from a new window give the unbounded log's replies |
| `SubscriptionIds.FewSubscriptionsUnclipped` | backend/core/manager.go:190-210 | if the ids held and those of the run together fit in half of the window, every unsubscription meets it |
| `SubscriptionIds.EightSubscriptionsAreSafe` | mqueue/mem/message_handler.go:39-43 | on a queue's own window runs with at most eight subscriptions give the log's replies |
| `SubscriptionIds.EveryWindowLoses` | backend/core/manager.go:160-171 | in a window of any size s from 6 slots on, a run of subscriptions and unsubscriptions drops id s while it is live |
| `SubscriptionIds.LiveIdIsLost` | mqueue/mem/message_handler.go:39-43 | so does one on a queue's own window of 16 slots: unsubscribing the live id 16 is refused |
| `MessageHandlers.DiscardRefusedIff` | mqueue/mem/message_handler.go:91-100 | an unkept discard with a count is refused exactly when its offset is outside the window, or already discarded with nothing owed before it |
| `MessageHandlers.DiscardRequestEffect` | mqueue/core/mqueue.go:61-82 | one that is not refused lets go of everything before its offset up to the first answer owed, past its offset only of discarded ones, and marks exactly its range |
| `MessageHandlers.KeptDiscardEffect` | mqueue/mem/message_handler.go:91-100 | a discard that keeps what lies before marks exactly its range, and lets go of nothing undiscarded, nor of anything unless it starts at the base |
| `MessageHandlers.HandleDiscardRefines` | mqueue/mem/message_handler.go:91-100 | a guarded discard request, kept or not, counted or not, is the log's slide and discard, with the same reply |
| `QueueServer.SecondDiscardRefused` | mqueue/mem/message_handler.go:91-100 | a run of requests on a queue's own window whose second, unkept discard of an offset is refused |
| `MessageHandlers.MessageHandler.Discard` | mqueue/mem/message_handler.go:91-100 | the object slides unless told to keep, stops on error, then discards |
| `RequestProtocol.InsertNeverFails` | backend/core/manager.go:233-254 | the insert of an id in flight finds it reserved, unset and inside the window |
| `RequestProtocol.SessionSafe` | backend/core/manager.go:126-155 | after any interleaving of requests, completions, polls and acknowledgements every id is in flight or has exactly one event, and every pending insert succeeds |
| `RequestProtocol.RunKeeps` | backend/core/manager.go:233-254 | over any run an id that has its event keeps that event |
| `RequestProtocol.AcknowledgeKeeps` | backend/core/manager.go:300-310 | an acknowledgement keeps the session consistent and fails exactly when its offset is past the window |
| `RequestProtocol.UnacknowledgedReadable` | backend/core/manager.go:256-261 | an event at or above every offset whose acknowledgement was not refused is returned by a poll for it |
| `RequestProtocol.IdsCount` | backend/core/manager.go:134-141 | the requests of any run that are not refused return consecutive ids, in order |
| `RequestProtocol.EventsAre` | backend/core/manager.go:246-253 | after any run an id has event e exactly when it had it before or the run completes it with e |
| `RequestProtocol.PollExact` | backend/core/manager.go:300-322 | a poll returns exactly the events of the ids in its range from the base on, in order, with the base |
| `RequestProtocol.AcknowledgeExact` | backend/core/manager.go:306-310 | an acknowledgement inside the window moves the base to its offset, stopping at the first id in flight or the next id, and touches no event |
| `RequestProtocol.SessionShows` | backend/core/manager.go:126-155 | over any run from a new session ids are 0, 1, 2, ..., events are those of the completions in the run, and a poll returns them unless the run acknowledged past them |
| `RedisLists.RedisQueue.Next` | mqueue/redis/redis.lua:18-28 | appends an unset element at the next offset and returns that offset |
| `RedisLists.RedisQueue.Insert` | mqueue/redis/redis.lua:34-45 | overwrites the element at the offset, or fails and changes nothing when the offset is outside the list |
| `RedisLists.RedisQueue.Retrieve` | mqueue/redis/redis.lua:49-84 | the clamped, inclusive range |
| `RedisLists.RedisQueue.Discard` | mqueue/redis/redis.lua:90-160 | the recursive script terminates and has the effect of one trim, one pop of discarded elements and one marking or second trim |
| `RedisLists.RedisQueue.PopFront` | mqueue/redis/redis.lua:112-133 | trims, then pops discarded elements while another remains |
| `RedisLists.RedisQueue.MarkFrom` | mqueue/redis/redis.lua:148-156 | writing each element back at the index of its offset marks exactly the range |
| `RedisFacts.DiscardKeepsEnd` | mqueue/redis/redis.lua:86-160 | a discard keeps offsets consecutive, never empties a list and never changes the next offset |
| `RedisFacts.DiscardStaysInRange` | mqueue/redis/redis.lua:86-160 | keeping what lies before, or with count 0, no undiscarded element past the requested range is touched |
| `RedisFacts.DiscardReachesIff` | mqueue/redis/redis.lua:122-137 | otherwise an undiscarded element past the range survives exactly when it is past the range measured from the first undiscarded element, or is the last |
| `RedisFacts.DiscardOverreaches` | mqueue/redis/redis.lua:135-144 | a run of scripts after which discarding one element also removes the next |
| `RedisFacts.DiscardTakes` | mqueue/redis/redis.lua:90-160 | every element a discard asks for is removed or marked, the base included, unless it is the last; unless told to keep it, nothing before the offset remains but the last |
| `RedisFacts.DiscardKeepingMarks` | mqueue/redis/redis.lua:146-156 | a discard past the base that keeps what lies before marks exactly the elements of its range |
| `RedisFacts.InsertExact` | mqueue/redis/redis.lua:34-45 | after an insert the element is set, undiscarded and has the answer, and every other element is as before |
| `RedisFacts.InsertAfterAcknowledgeIff` | mqueue/redis/redis.lua:108-133 | after an acknowledgement the insert for an id succeeds exactly when it is the last id, or some element from the acknowledged offset up to it is not discarded |
| `RedisFacts.AcknowledgeLosesOwed` | mqueue/redis/redis.lua:108-119 | two reservations and an acknowledgement of 1, after which the insert for id 0 fails |
| `RedisFacts.RetrieveBothEnds` | mqueue/redis/redis.lua:57-83 | for every offset, below the base too, a retrieve returns the elements between both ends, ends included |
| `RedisFacts.OneTooMany` | mqueue/redis/redis.lua:57-83 | a run after which a retrieve of one element returns two |
| `RedisFacts.ReservationsCount` | mqueue/redis/redis.lua:16-28 | over any run of scripts the next offset is the number of reservations made |
| `RedisSessions.StepKeeps` | backend/core/manager.go:233-254 | every request, completion, poll and acknowledgement keeps the list an exact account of the session from the first id no acknowledgement passed |
| `RedisSessions.InsertSucceedsIff` | backend/core/manager.go:251-253 | the insert of an id in flight panics exactly when some acknowledgement recorded passed it while it was not the last id handed out |
| `RedisSessions.PassesAre` | mqueue/redis/redis.lua:108-119 | the acknowledgements recorded are those of the run, each with the number of requests before it |
| `RedisSessions.EventsAre` | backend/core/manager.go:246-253 | as long as nothing panics an id has event e exactly when the run completes it with e |
| `RedisSessions.PatientNeverPanics` | backend/core/manager.go:300-310 | if no acknowledgement goes past an id then in flight, no interleaving panics |
| `RedisSessions.UnpassedReadable` | backend/core/manager.go:300-301 | an event whose id no acknowledgement passed is returned by a poll for it |
| `RedisSessions.SessionExact` | backend/core/manager.go:126-155 | after any run from a new session there are as many ids as requests, events are those of the completions in the run, and the insert of an id in flight panics exactly when the run has an acknowledgement past it with at least id + 2 requests before |
| `Simulation.ReadAgreesIff` | mqueue/redis/redis.go:153-187 | what the client keeps of a Redis retrieve of count is the window's read of count + 1 exactly when no answer lies between the two ends, and the reported offsets agree exactly when the read starts at or below the base, or finds nothing and the base is 0 |
| `Simulation.ReportedOffsetsDiffer` | mqueue/redis/redis.go:163-168 | an allowed run whose last read reports offset 1 from Redis and 0 from the window |
| `Simulation.DiscardedIsReturnedIff` | mqueue/redis/redis.go:170-173 | a Redis read leaves out what is discarded exactly when none of it was answered |
| `Simulation.DiscardedIsReturned` | mqueue/redis/redis.go:170-173 | a run of scripts after which the client returns an element that was discarded |
| `Simulation.OverwriteIff` | mqueue/redis/redis.lua:34-45 | list and log agree on accepting an answer exactly when it overwrites nothing answered or discarded that is held |
| `Simulation.SecondAnswerOverwrites` | mqueue/redis/redis.lua:34-45 | answering twice: the list keeps the second answer, the window refuses it |
| `Simulation.StepAgrees` | mqueue/redis/redis.lua:18-140 | one allowed call leaves list and log in step, with the same reply but for a read's reported offset, and that too exactly under SameOffset |
| `Simulation.RunsAgree` | mqueue/core/mqueue.go:105-135 | window and list related to the same log give, over any allowed run, the same offsets, outcomes, base movements and elements, and wholly equal replies exactly when every read meets SameOffset |
| `Simulation.QueuesAgree` | mqueue/core/mqueue.go:105-135 | the same from empty, for windows of any size |
| `Simulation.AcknowledgeAgreesIff` | mqueue/redis/redis.lua:108-119 | after an acknowledgement inside the window the two bases agree exactly when it passes neither the first answer owed nor the last offset, or those coincide |
| `MasterInvariants.StepKeeps` | concurrent/master.go:375-395 | every event of the master, of a worker and of Stop keeps channel discipline, conservation and linearity |
| `MasterInvariants.ShutdownConserved` | concurrent/master.go:351-363 | shutting a worker down keeps the balance of keys, counting a displaced worker as lost |
| `MasterInvariants.RemoveConserved` | concurrent/master.go:537-576 | receiving an exit keeps the balance, whether it removes a worker or is ignored |
| `MasterInvariants.AcceptedExact` | concurrent/master.go:416-455 | a request is accepted by the worker of its key and no other, a broadcast by every active worker |
| `MasterRouting.RoutedExactly` | concurrent/master.go:416-455 | over any run the successive workers of a key accepted exactly what was sent to the key while active, in order, creating requests and broadcasts included |
| `MasterRouting.StartsExactly` | concurrent/master.go:467-504 | over any run the workers of a key start from exactly what the events that created them carry, in order |
| `MasterRouting.SharedExactly` | concurrent/master.go:457-465 | over any run the values taken from the shared channel, in order, followed by those waiting, are the execute requests accepted |
| `MasterRouting.TakenExactly` | concurrent/worker.go:292-297 | each worker handled exactly the values the dispatch log gives it, in order |
| `MasterRouting.MasterRoutes` | concurrent/master.go:375-465 | from a new master: workers start as created, each key's requests reach its workers, and every execute request taken is handled by one worker, once, first in, first out |
| `MasterInvariants.HandleLinear` | concurrent/worker.go:298-303 | handling the head of the channel keeps the replies sequential and the accepted order |
| `MasterInvariants.MasterSafe` | concurrent/master.go:82-136 | in every reachable state active channels are open and others closed exactly once, shutdown channels at most once, the wait group is not negative, and replies are those of a sequential run from the worker's initial state in the order accepted |
| `MasterReleases.ReleasedOnce` | concurrent/master.go:537-576 | a worker that left both maps had its shutdown channel closed exactly once, unless it is one of those the master lost track of, key by key |
| `MasterStop.StoppingKeepsClean` | concurrent/master.go:331-349 | once the loop takes the shutdown branch no event gains or loses cleanness |
| `MasterStop.DirtyCounts` | concurrent/master.go:200-210 | while something was lost or ignored the wait group stays positive |
| `MasterStop.StoppingShrinks` | concurrent/master.go:331-349 | from then on every event uses up some of a finite amount of work |
| `MasterStop.StopProgress` | concurrent/master.go:331-349 | a clean stopping master is never stuck |
| `MasterStop.StopReturnsIff` | concurrent/master.go:198-225 | every run from the moment the loop takes the shutdown branch is finite; it ends with Stop returned and both maps empty if the state was clean, and Stop never returns if it was not |
| `MasterStop.DisciplinedStaysClean` | concurrent/master.go:467-504 | if workers exit only after their channel is closed and no key is recreated while shutting down, the state stays clean |
| `MasterStop.DisciplinedStopReturns` | concurrent/master.go:198-225 | after such a run Stop returns with no worker left |
| `MasterStop.SelfExitIsIgnored` | concurrent/master.go:564-567 | after a worker exits by itself Stop never returns, whatever happens next |
| `MasterStop.RecreationIsLost` | concurrent/master.go:357-361 | nor after destroying a key recreated while its old worker shuts down |
| `MasterAnswers.StopAnswersAll` | concurrent/master.go:198-225 | if no worker quits by itself, once Stop has returned every request a worker accepted has been handled and answered, in order |
| `BroadcastReplies.DecrementKeeps` | concurrent/worker.go:349-365 | the atomic decrement makes exactly the last worker the one to close |
| `BroadcastReplies.BroadcastExact` | concurrent/master.go:296-312 | under every interleaving the reply channel is closed once, after the last send, with exactly one response per worker key, each with that worker's outcome, panics included; some worker can act exactly until then, and every run is finite |
| `QueueServer.SequentialIsServe` | mqueue/mem/message_handler.go:59-74 | a worker's sequential run over any requests is the message handler applied one after the other |
| `QueueServer.ServeRefines` | mqueue/mem/message_handler.go:59-100 | over any guarded requests that is the unbounded log, with the same replies |
| `QueueServer.QueueStartsFresh` | mqueue/mem/server.go:53-66 | every queue starts from the new window its creation carries, whatever happened before |
| `QueueServer.AnswersMean` | mqueue/mem/message_handler.go:59-100 | a reservation returns the number of ids so far or full, what is stored is read back, a read returns exactly its range, and an acknowledgement lets go of nothing owed |
| `QueueServer.QueueIsALog` | mqueue/mem/server.go:68-104 | under every schedule a queue's replies are the unbounded log's on its requests in the order accepted, when its discards meet their guards |
| `QueueServer.QuietQueueIsALog` | mqueue/mem/server.go:68-104 | and without any guard when its discards only slide |
| `Retrying.AttemptsBounded` | concurrent/conc.go:150-153 | limited attempts bound the calls, and running out reports all errors, never none, the last one last |
| `Retrying.ExpectedExact` | concurrent/conc.go:131-153 | the first turn that is not an ordinary failure decides if it comes within the attempts, all errors are reported in order if none does, and otherwise the loop goes on; with the number of calls |
| `Retrying.BackoffExact` | concurrent/conc.go:155-164 | without randomness the k-th wait is the base times the k-th power of the exponent, up to the maximum |
| `Retrying.BackoffBounded` | concurrent/conc.go:155-164 | with or without randomness no wait exceeds twice the maximum plus one |
| `Retrying.RandomSpread` | concurrent/conc.go:156-163 | a random wait lies between half and three halves of the exponential one, or between the maximum and twice it once that is reached |
| `Retrying.RandomWaitExact` | concurrent/conc.go:155-163 | the k-th random wait is the clamped exponential one times the draw plus a half, or plus one if clamped, rounded up |
| `Retrying.NoOverflow` | concurrent/conc.go:155 | for maxima up to 2^54 nanoseconds no product leaves 64 bits |
| `Retrying.RetryWithConfig` | concurrent/conc.go:114-166 | the loop's result, number of calls, number of waits and waits are those of the first decisive turn or of exhausted attempts |
| `Wallets.PostExact` | eth/client.go:92-115 | however often the client resends the same bytes they commit at most once, and whether they do, and whether it is reported, is decided by the nonce and the first delivery that arrives |
| `Wallets.PostOutcome` | eth/client.go:76-90 | what the client reports is decided by the first delivery answered and by whether an earlier one had arrived |
| `Wallets.SendCommitsIff` | tx/owner.go:309-368 | whatever goes wrong a request commits under the account's next nonces, once per attempt whose commit goes unreported and once if reported as sent; reported as sent and committed once, or neither, exactly when no attempt made carries the account's nonce and has its reply lost or illegible |
| `Wallets.IllegibleReplyHidesCommit` | eth/client.go:205-209 | a commit whose status cannot be parsed is reported as a failure |
| `Wallets.RefusalAborts` | tx/owner.go:321-332 | lack of funds or a transaction over the block limit ends the request with its own error and still spends a nonce |
| `Wallets.LostReplyCommitsTwice` | tx/owner.go:333-340 | a reply lost after the commit makes the request commit twice |
| `Wallets.LostRepliesCommitTenTimes` | tx/owner.go:45-52 | ten lost replies commit it ten times and report that it was not sent |
| `Wallets.TwoCleanAttempts` | tx/owner.go:333-340 | from any local nonce two clean attempts in a row commit the request, once |
| `Wallets.CommitsWithinTwoSends` | tx/owner.go:186-212 | with only the nonce wrong a request commits once, with exactly two sends, with one if it was right, and both nonces agree |
| `Wallets.RunCommits` | tx/owner.go:309-368 | over any run of requests and faults committed nonces are consecutive, and committed requests are exactly those reported as sent, in order, if and only if no attempt is struck; otherwise there are more |
| `Wallets.PooledClient.SendTransaction` | eth/client.go:186-216 | the client's loop leaves the ledger and gives the outcome of the deliveries up to the first answered one |
| `Wallets.WalletOwner.Try` | tx/owner.go:314-349 | one attempt spends a nonce, sends, and on a rejected nonce takes the ledger's |
| `Wallets.WalletOwner.SendTransaction` | tx/owner.go:309-368 | the retried closure leaves the wallet and returns the result that the retry loop's specification gives |
| `BatchRunner.StepKeeps` | concurrent/conc.go:395-458 | every step keeps each submitted index in exactly one place and every result its supplier's |
| `BatchRunner.StepWorks` | concurrent/conc.go:395-458 | every step uses up exactly one unit of work |
| `BatchRunner.Progress` | concurrent/conc.go:395-458 | with channels of 64 no schedule deadlocks a non-empty batch |
| `BatchRunner.FinishedComplete` | concurrent/conc.go:448-457 | when Run finishes, result i is supplier i's for every i and nothing is left for the next batch |
| `BatchRunner.DealtRoundRobin` | concurrent/conc.go:435-443 | in every reachable state worker w holds only indices w modulo the concurrency, in increasing order |
| `BatchRunner.BatchRuns` | concurrent/conc.go:427-458 | for every batch, concurrency and schedule Run takes four steps per supplier, returns the right results on an idle runner, and finishes exactly when the batch is not empty |
| `BatchRunner.EmptyBatchHangs` | concurrent/conc.go:448-455 | an empty batch can take no step and has not returned |
| `LogSubscribers.LessIsOrder` | eth/subscription.go:91-92 | positions are totally ordered by block and, within a block, by index |
| `LogSubscribers.ForwardedAreRecords` | eth/subscription.go:89-101 | forwarded events are exactly the weak running maxima of the input by block and, within a block, by index |
| `LogSubscribers.ForwardedAppend` | eth/subscription.go:89-101 | inputs of successive subscriptions are filtered as one input |
| `LogSubscribers.NeverGoesBack` | eth/subscription.go:89-94 | an event of an earlier block, or of an earlier index in the same block, is never forwarded again |
| `LogSubscribers.LogSubscriber.Consume` | eth/subscription.go:80-101 | one subscription forwards the filtered input and ends at the latest position |
| `LogReconnection.StepKeeps` | eth/subscription.go:46-113 | every step of the goroutines and of the supervising worker keeps an exact account of what was forwarded, across the reconnection |
| `LogReconnection.GaplessIff` | eth/subscription.go:70-109 | in every reachable state what was forwarded is one stretch of the chain from where the subscription began, up to adjacent repeats, exactly when there was no resubscription, the second session has not got past what it drops, or it was timely: after the save with an event forwarded or nothing before the beginning, or before the save with no event since the last forwarded |
| `LogReconnection.SubscriptionExact` | backend/eth/client.go:362-366 | the same from a new subscription, which names no block, over every interleaving |
| `LogReconnection.GaplessFromRun` | eth/subscription.go:231-238 | decided from the steps of the run alone: with a resubscription the feed is gapless exactly when it came after the save of a session that received something or began with nothing before it, or before the save with as many events received as had appeared, or nothing is received after it |
| `LogReconnection.UnsavedResumptionLoses` | eth/subscription.go:107 | a run that resubscribes before the save and loses an event |
| `LogReconnection.EmptySessionReplays` | eth/subscription.go:76 | a run whose first session delivers nothing and whose second replays what came before |
| `LogReconnection.OneReconnection` | eth/subscription.go:316 | no run reconnects twice, and once the second session has ended nothing is forwarded |
| `LogSubscribers.ReconnectionsDeliver` | eth/subscription.go:46-54 | after the last event forwarded, reconnections deliver exactly the events that follow |
| `LogSubscribers.SavedSessionsDeliver` | eth/subscription.go:71-76 | so do any number of sessions that each start from the block saved after the one before |
| `LogSubscribers.SavedBlockResumes` | eth/subscription.go:74-76 | resuming from the saved block, or an earlier one, starts in time |
| `LatencyWindow.LastAppend` | stats/window.go:24-46 | the last n samples after one more are determined by the last n before |
| `LatencyWindow.IntWindow.Add` | stats/window.go:26-46 | the window is exactly the last maxSamples samples, in order, through the compaction |
| `LatencyWindow.IntWindow.Compact` | stats/window.go:31-39 | the copy moves the last maxSamples samples to the front |
| `LatencyWindow.IntWindow.Average` | stats/stats.go:13-25 | the sum of exactly the samples in the window over their number, 0 if there are none |
| `LatencyWindow.SumAppend` | stats/stats.go:16-18 | the sum is additive and of one sample the sample |
| `LatencyWindow.AverageBetween` | stats/stats.go:20-22 | the average lies between the least and the greatest sample |

## Left out

- HTTP routing, authentication, configuration, logging, command-line tools: plumbing.
- Ethereum and Ekiden calls, signing, gRPC and the Noise protocol: foreign code; the wallet's ledger is an abstract account, and what happens to a signature or a delivery is chosen by the environment.
- Wall-clock behaviour: inactivity timers appear only as a worker that may quit at any moment; Redis key expiry and removal of whole queues are not modelled.
- Cancellation of the master's and the subscriptions' contexts, and API calls concurrent with `Stop`: once the loop has taken the shutdown branch no request is accepted.
- Blocking on full worker channels and on a client that does not read its reply: the master's channels are unbounded in the model; the batch runner's are bounded.
- 64-bit wrap-around of offsets and of the `offset + count` of a discard, and the range of Lua numbers: offsets are unbounded; the window's cursors and the end of a read wrap.
- WindowRefinement.RetrieveRefines: the read without wrap-around; SlidingWindows.GetAgreesIff says when the code's is that one.
- RequestProtocol.PollExact: the read without wrap-around, as above.
- JSON encoding of Redis elements and of events, and the decoding loop of `poll`: they map one element to one.
- The wallet's balance accounting and its callbacks: they do not touch the nonce or what is sent.
- The pool runner and the subscription managers built on the master: the same protocol again; a log subscription's supervising worker appears in LogReconnection as the actions it takes.
- SlidingWindows and WindowObject operations assume that the cursors index the array; every state reached from a new window by guarded operations, and the state left by one unguarded discard, satisfies that.
- MessageHandlers.MessageHandler.Discard: a slide that wraps a cursor, followed by a marking, is reported as a panic without modelling which slots the marking would reach.
- Simulation.QueuesAgree: covers answers for offsets held and owed, reads whose two ends enclose the same answers, and acknowledgements up to the first answer owed, because the two queues differ elsewhere, as OverwriteIff, ReadAgreesIff and AcknowledgeAgreesIff say; the window is asked for count + 1 where Redis is asked for count.
- LogReconnection.SubscriptionExact: assumes a node that replays from the block asked for, starts at the head when none is, and never rewrites its chain.
- Wallets.SendCommitsIff: assumes a ledger that commits at once and a node that refuses a transaction for its nonce whenever the nonce is not the account's; a refusal for balance or block limit is the environment's choice.
- BroadcastReplies.BroadcastExact: assumes that no worker quits with the request still queued; a worker that quits by itself never answers.
- Retrying.BackoffBounded: floating-point rounding of the random factor is not modelled.
- Retrying.RandomSpread: floating-point rounding of the random factor is not modelled.
- LatencyWindow.IntWindow.Average: 64-bit overflow of the sum and floating-point rounding of the quotient are not modelled.
- LatencyWindow.IntWindow.constructor: sizes 0 and 2^31 or more, for which the source allocates an empty array, are excluded.
