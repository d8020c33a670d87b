# rampart-iroh: a Dafny model of the event-driven core

rampart-iroh connects an asynchronous Rust library to a single-threaded libevent loop that runs
JavaScript. Worker tasks finish on their own threads and wake the loop through a pipe; the loop
dispatches to C handlers; handlers call listeners; listeners call straight back into the module.
This project models that machinery as state machines and classes and proves what holds in every
run of them.

| file | part of the system |
|---|---|
| `Completion.dfy` | one `IrohAsyncHandle`: worker, pipe, poll, cancel, free, interleaved step by step |
| `PendingTable.dfy` | the growing C array of pending operations and its 16-bit capacity |
| `Runtime.dfy` | objects, flags, operation records, the five receive loops, close and destroy, with re-entrant listeners as a stack of suspended handlers |
| `Closing.dfy` | destroy inside handlers; endpoint.close and its "close" event |
| `LoopFlags.dfy` | the flag of a receive loop against the loop itself |
| `Effects.dfy` | what each step does to operations, objects and suspended handlers |
| `ObjectRecord.dfy` | the record behind a JavaScript object, updated in place, refining `Runtime` |
| `WholeSystem.dfy` | `Runtime` and one `Completion` handle per operation, all workers and the loop interleaved |
| `StreamWrite.dfy`, `StreamHistory.dfy`, `ReadLoop.dfy` | the two directions of a stream; the sending side told from its run alone |
| `Emitter.dfy`, `OnceMark.dfy`, `ListenerIds.dfy` | listeners with re-entrant firing; what the mark of `once` does; when ids clash |
| `OneShot.dfy` | one-shot callbacks |
| `ResultSlot.dfy` | the composite results and the calls that take them apart |
| `DocsJoin.dfy`, `DocsRead.dfy`, `DocsSet.dfy` | the documents service |
| `Utf8.dfy` | UTF-8 validity and the lossy conversion of keys |
| `EchoServer.dfy` | the C example built on `iroh_event_add` |
| `Address.dfy` | endpoint addresses as strings |

A run is a sequence of steps, each enabled where it happens, from the initial state; the order of
the steps is arbitrary, so a theorem over runs covers every interleaving and every script. Code
that computes is modelled by functions. Code that updates records, arrays and tables in place is
modelled by classes whose methods are proved equal to steps of those state machines.

## What the code does not do

Some promises do not hold as written. Each has a failing case and the exact condition.

| what fails | failing case | exact condition |
|---|---|---|
| finish right after write is safe (`README.md:198-200`) | `StreamWrite.TwoWritesFinishEarly`, `StreamWrite.WriteInDrainFinishesEarly`, `StreamWrite.WriteAfterFinishIsCutOff` | if nothing is written afterwards `StreamWrite.FinishCleanIff`, whatever follows `StreamWrite.FinishCleanWhateverIff` |
| a finish that was asked for happens | `StreamWrite.FailedWriteDropsFinish`, `StreamWrite.UnregisteredWriteDropsFinish` | `StreamWrite.RequestedFinishIff`, `StreamWrite.WillFinishIff`, `StreamHistory.FinishedIff` |
| `once` listeners go after their first call, `on` listeners stay (`README.md:802-803`) | `OnceMark.OnceOnTwoEventsStays`, `OnceMark.OnAfterOnceIsRemoved` | `OnceMark.DeliveryRemovesIff` |
| closing an endpoint fires "close" | `Closing.EarlyCloseNeverFires` | `Closing.EpCloseFiresIff` |
| an object may be destroyed inside a handler | `Closing.DestroyInsideHandlerFails` | `Closing.HandlersStayIntactIff`, `Closing.DestroyIsSafeIff` |
| a loop's flag is up exactly while the loop runs | `LoopFlags.UnregisteredLoopIsStuck`, `LoopFlags.ClosedLoopIsStuck` | `LoopFlags.FlagMeansRunningIff`, `LoopFlags.StepBreaksIff` |
| the pending table holds any number of operations | `PendingTable.PushesOverflow` | `PendingTable.TableRefinesSequence` |
| every listener keeps its own entry | `ListenerIds.WrapIsReached` | `ListenerIds.DistinctIff`, `ListenerIds.OnEvictsIff` |
| an operation calls the callback it was started with | `OneShot.WrapIsReached`, `OneShot.WrapIsSilent` | `OneShot.MatchedIff`, `OneShot.ClashMisdelivers` |
| get-all reports the keys of the document | `DocsRead.InvalidKeyIsRenamed`, `DocsRead.NulValueIsLost` | `DocsRead.NamesAreKeysIff` |
| a parsed address prints back | `Address.OtherQueryIsDropped` | `Address.ParsedAddressPrintsBackIff` |

## Model

| member | source | states |
|---|---|---|
| `Completion.StepKeepsInv` | src/lib.rs:85-182 | every step of worker, loop or canceller keeps the handle's references, descriptors, slot and state in agreement |
| `Completion.RunKeepsInv` | src/lib.rs:85-182 | the same over every interleaving of a whole run |
| `Completion.StateFollowsRun` | src/lib.rs:118-177 | in every run the state is what was last published, by the worker or by a cancel |
| `Completion.KeptCancelIsSeen` | src/lib.rs:174-177 | a cancel without free leaves the handle waiting, cancelled, with its event ready |
| `Completion.ResultTakenOnce` | src/lib.rs:133-135 | in every run the result is handed out at most once |
| `Completion.NoLostWakeup` | src/lib.rs:118-160 | in every run a sleeping loop whose worker has nothing left to signal has an unread byte in the pipe, so the event is ready |
| `Completion.SettlingStepAdvances` | module/rampart-iroh.c:505-523 | after notification every step of an uncancelled operation brings it strictly closer to dispatch, even across re-arms |
| `Completion.NotifiedIsDispatched` | module/rampart-iroh.c:505-523 | after notification every schedule of the remaining steps is of bounded length, and one that cannot be extended ends with the handler entered, unless the operation had been given up before |
| `Completion.DescriptorsClosedOnce` | src/lib.rs:138-182 | both pipe ends are closed exactly once, exactly when worker and loop have both dropped their reference; no write ever meets a closed pipe |
| `Completion.VerdictsWithinBudget` | module/rampart-iroh.c:505-523 | from any state, any continuation holds at most one dispatch or cancel-to-free, and none once either has happened |
| `Completion.SingleDispatch` | module/rampart-iroh.c:505-523 | in any run the handler is entered at most once, and never once the operation was cancelled to be freed |
| `Completion.RunKeepsProvenance` | src/lib.rs:118-135 | whatever the slot or the error field holds was stored by a step of this run's worker |
| `Completion.HandlerFindsItsOutcome` | src/lib.rs:118-160 | a handler entered with Ready finds a stored result, with Error a stored message, and is never entered with Pending |
| `Completion.AsyncHandle.constructor` | src/lib.rs:97-117 | a new handle is the initial state: pending, empty pipe, two references |
| `Completion.AsyncHandle.WriteOne` | src/lib.rs:128-132 | notify adds one unread byte, or is counted as lost on a closed pipe, and changes nothing else |
| `Completion.AsyncHandle.CompleteWithResult` | src/lib.rs:118-122 | performs the store, publish and notify steps in that order, whatever the loop is doing |
| `Completion.AsyncHandle.CompleteWithError` | src/lib.rs:123-127 | the same for the error path |
| `Completion.AsyncHandle.Poll` | src/lib.rs:153-160 | the 64-byte read loop empties the pipe before the state is read, as a valid schedule of single reads |
| `Completion.AsyncHandle.Cancel` | src/lib.rs:174-177 | publishes Cancelled before it notifies |
| `Completion.AsyncHandle.Drop` | src/lib.rs:138-144 | releases one reference and closes both descriptors only with the last one |
| `PendingTable.RemoveOneCounts` | module/rampart-iroh.c:477-489 | unlinking removes one occurrence and no other element, as multisets |
| `PendingTable.RemoveOneNoDuplicates` | module/rampart-iroh.c:477-489 | unlinking keeps the table free of duplicates and removes the operation entirely |
| `PendingTable.CapacityStep` | module/rampart-iroh.c:567-572 | one push keeps the capacity the doubling of 8 that just holds the peak, up to the 16-bit limit |
| `PendingTable.RunFrom` | module/rampart-iroh.c:477-572 | over every run of pushes, unlinks and releases, table and sequence agree while the peak is at most 32768, and otherwise storage is lost |
| `PendingTable.TableRefinesSequence` | module/rampart-iroh.c:97-99 | the table behaves as an unbounded sequence, at the least power-of-two capacity from 8, if and only if no more than 32768 operations are ever pending at once |
| `PendingTable.PushesOverflow` | module/rampart-iroh.c:567-572 | any 32769 pushes with nothing unlinked store outside the array |
| `PendingTable.PendingArray.constructor` | module/rampart-iroh.c:97-99 | starts as the empty table with no storage |
| `PendingTable.PendingArray.Reallocate` | module/rampart-iroh.c:567-572 | growing keeps every stored operation in place |
| `PendingTable.PendingArray.Push` | module/rampart-iroh.c:567-572 | the array after a push is the model step, including the push that wraps the capacity to 0 |
| `PendingTable.PendingArray.CloseGap` | module/rampart-iroh.c:477-489 | shifting the tail removes exactly the element at the gap and keeps the order |
| `PendingTable.PendingArray.Unlink` | module/rampart-iroh.c:477-489 | search and shift in place equal removal of the first occurrence; an absent operation changes nothing |
| `PendingTable.PendingArray.ReleaseAll` | module/rampart-iroh.c:604-614 | cleanup's loop releases every entry once, in order, and leaves the table empty |
| `PendingTable.PendingArray.ReleaseAllBackwards` | module/rampart-iroh.c:2090-2097 | endpoint.close releases every entry once, from the end, and keeps the array |
| `Runtime.StepKeepsInv` | module/rampart-iroh.c:477-1893 | every completion, call from user code and return of user code keeps tables, records, flags and suspended handlers consistent |
| `Runtime.RunKeepsInv` | module/rampart-iroh.c:477-1893 | the same over whole runs with arbitrarily nested user code |
| `Runtime.RecordsReleasedOnce` | module/rampart-iroh.c:477-498 | in every reachable state an unreleased record is in its owner's table exactly once and in no other, a released one in none, and none is released twice |
| `Runtime.DeliveredAtMostOnce` | module/rampart-iroh.c:1857-1893 | over any run a handler runs at most once per operation, and not at all after cleanup or close released it |
| `Runtime.SingleFlight` | module/rampart-iroh.c:783-836 | each receive loop has at most one pending operation, which has its flag set; none while its handler is suspended, even if listeners register again |
| `Effects.BegunIff` | module/rampart-iroh.c:987-1029 | over every run, an operation a step obtained is pending afterwards, on that object, as that kind and with its loop's flag up, if and only if the guard of that step holds: registering a listener, a handler going on with its loop, going online, a topic gaining its handle, closing |
| `Effects.EndedIff` | module/rampart-iroh.c:583-660 | over every run, a pending operation leaves its table if and only if it is delivered, or its owner is torn down or closed as an endpoint |
| `Effects.HandledCounts` | module/rampart-iroh.c:1857-1893 | a record's handler has run exactly as often as the run delivered it |
| `Effects.ObjectFollowsRun` | module/rampart-iroh.c:842-869 | over every run, an object goes exactly when torn down, has its native handle from when the operation that brings it succeeds, and is marked closed exactly by teardown or by a close that finds nothing to close |
| `Effects.SuspendedFollows` | module/rampart-iroh.c:1156-1205 | over every run, which handlers a step leaves suspended: a failed or last read goes on to stop its loop and fire end, any other loop delivery to start the next, a torn-down object to be freed after close |
| `Runtime.NoUseAfterFree` | module/rampart-iroh.c:583-660 | in runs that destroy no object under a handler that looks at it again, no suspended handler that resumes, and no pending operation, belongs to a freed object |
| `Closing.HandlersStayIntactIff` | module/rampart-iroh.c:583-660 | over every run, with destroy allowed anywhere, no handler is ever left suspended over a torn-down object if and only if no destroy happens under a handler that looks at the object again |
| `Closing.DestroyIsSafeIff` | module/rampart-iroh.c:2286-2291 | in every reachable state, destroying an object leaves a handler about to touch freed memory if and only if a suspended handler touches that object again |
| `Closing.DestroyInsideHandlerFails` | module/rampart-iroh.c:1156-1205 | a data listener that destroys its stream: the read handler resumes on the freed record |
| `Closing.PendingCloseFires` | module/rampart-iroh.c:976-985 | in every reachable state, completion of a pending close operation does fire "close" |
| `Closing.EpCloseFiresIff` | module/rampart-iroh.c:2080-2111 | endpoint.close leaves a close operation pending if and only if the endpoint exists and the operation was obtained and registered; without endpoint or operation "close" never fires and the object is never freed in any continuation |
| `Closing.EarlyCloseNeverFires` | module/rampart-iroh.c:2080-2111 | an endpoint closed before it was created is never freed and never fires "close", in any continuation |
| `LoopFlags.FlagMeansRunningIff` | module/rampart-iroh.c:783-836 | over every run, a live object's flag is up exactly while its loop has an operation pending or a handler suspended, in every state, if and only if no step starts this loop without getting it registered or closes the open endpoint while its accept loop waits |
| `LoopFlags.StepBreaksIff` | module/rampart-iroh.c:987-1029 | from any reachable state in which the flag means the loop, exactly those steps end that |
| `LoopFlags.UnregisteredLoopIsStuck` | module/rampart-iroh.c:525-574 | an accept operation that cannot be registered leaves the flag up with nothing pending, and registering the listener again changes nothing |
| `LoopFlags.ClosedLoopIsStuck` | module/rampart-iroh.c:2080-2111 | closing an endpoint that waits for connections leaves its accept flag up over the cancelled operation |
| `ObjectRecord.Record.constructor` | module/rampart-iroh.c:666-733 | a new record is the object that Create adds |
| `ObjectRecord.Record.Register` | module/rampart-iroh.c:525-574 | appends the operation to this record's table and touches no flag |
| `ObjectRecord.Record.StartLoop` | module/rampart-iroh.c:783-836 | the guard, flag and start of a loop equal the model step, in every combination of handle, closed bit and failure |
| `ObjectRecord.Record.ContinueLoop` | module/rampart-iroh.c:1021-1028 | the tail of a loop handler equals the model step, which Effects.BegunIff ties to the next operation |
| `ObjectRecord.Record.Forget` | module/rampart-iroh.c:491-498 | unlinking a record equals its consumption |
| `ObjectRecord.Record.TearDown` | module/rampart-iroh.c:583-660 | cleanup releases exactly the pending operations and fires "close" exactly when the record was not closed before |
| `ObjectRecord.Record.CancelAll` | module/rampart-iroh.c:2085-2097 | the cancel loop sets CLOSED, empties the table and releases exactly the pending operations, each once, last first |
| `ObjectRecord.Record.CloseEndpoint` | module/rampart-iroh.c:2080-2111 | equals the model's endpoint.close, including the branch whose cleanup does nothing, and releases exactly the pending operations, last first, or none if already closed |
| `WholeSystem.MainStepKeepsInv` | module/rampart-iroh.c:505-523 | a step of the loop or of user code keeps every record in agreement with its handle |
| `WholeSystem.RunKeepsInv` | module/rampart-iroh.c:477-523 | the same in every interleaving of the loop with all workers |
| `WholeSystem.RecordsAndHandlesAgree` | module/rampart-iroh.c:491-498 | a record is unreleased exactly while the loop owns its handle; descriptors are then open; no worker writes to a closed pipe; cleanup cancels only waiting handles |
| `WholeSystem.IdleLoopIsWoken` | module/rampart-iroh.c:505-523 | whenever the loop is idle and an unreleased operation's worker has notified, its event is ready |
| `WholeSystem.DeliveriesAreSound` | module/rampart-iroh.c:1857-1893 | every delivery concerns a linked record of an unfreed object; a handler that goes on with its loop or takes a handle was entered with Ready and finds a result; one that ends its loop finds a message, unless it got half a stream; none is entered with Pending or Cancelled |
| `WholeSystem.NotifiedIsDelivered` | module/rampart-iroh.c:505-523 | from any such state the loop alone reaches the delivery of that operation, with every table and flag untouched |
| `StreamWrite.FinishOnceAndLast` | module/rampart-iroh.c:2258-2284 | in every run the native finish happens at most once and no write starts after it |
| `StreamWrite.CarefulRunsFinishClean` | module/rampart-iroh.c:1207-1230 | with finish called only where it is safe, no native finish ever happens with a write in flight |
| `StreamWrite.OneAtATimeIsCareful` | README.md:198-200 | one write at a time, with no finish inside a drain listener that has written, meets that condition |
| `StreamWrite.FinishCleanIff` | module/rampart-iroh.c:2272-2284 | from any reachable open stream, finish is clean in every continuation that writes nothing if and only if nothing, or exactly one flagged write outside its drain handler, is in flight |
| `StreamWrite.FinishCleanWhateverIff` | module/rampart-iroh.c:2228-2284 | from any reachable open stream, finish is clean in every continuation, writes included, if and only if nothing is in flight and WRITING is down |
| `StreamWrite.TwoWritesFinishEarly` | module/rampart-iroh.c:1207-1230 | write, write, finish in one tick finishes under the second write |
| `StreamWrite.WriteInDrainFinishesEarly` | module/rampart-iroh.c:1207-1230 | write and finish inside a drain listener finishes under that write |
| `StreamWrite.WriteAfterFinishIsCutOff` | module/rampart-iroh.c:2228-2256 | write, finish, write: the code accepts the second write and finishes under it, although finish was called where FinishCleanIff allows it |
| `StreamWrite.RequestedFinishHappens` | module/rampart-iroh.c:1207-1230 | over every run without a failed or unregistered write, whatever drain listeners do, a requested finish has happened whenever the open stream is idle |
| `StreamWrite.RequestedFinishIff` | module/rampart-iroh.c:1207-1230 | from any reachable open stream, once everything in flight has completed, the finish has happened if and only if nothing was being written, a drain was being delivered, or some write in flight succeeds |
| `StreamWrite.WillFinishIff` | module/rampart-iroh.c:2272-2284 | at the call, the finish is certain to happen if and only if nothing is being written or a drain is being delivered |
| `StreamHistory.FinishedIff` | module/rampart-iroh.c:1207-1230 | over every run, calls inside listeners included, the stream gets finished if and only if some finish call came with no accepted write uncompleted, or some drain delivery returned after one |
| `StreamHistory.HistoryTells` | module/rampart-iroh.c:1207-1230 | over every run, from its steps alone: WRITING is up if and only if some accepted write has seen no completion since, a drain is under way if and only if one began and has not returned, and the log and what is in flight are what the steps call for |
| `StreamHistory.FinishAfterFailure` | module/rampart-iroh.c:1207-1230 | write, a failed completion, finish: it happens at once |
| `StreamWrite.FailedWriteDropsFinish` | module/rampart-iroh.c:1207-1230 | write, finish, and the only write fails: idle and never finished |
| `StreamWrite.UnregisteredWriteDropsFinish` | module/rampart-iroh.c:2249-2252 | a write whose operation cannot be registered leaves WRITING up over nothing, and finish is deferred for good |
| `StreamWrite.SendStream.WriteData` | module/rampart-iroh.c:2228-2256 | equals the model step in all its outcomes, the unregistered one included, and throws exactly when finished or when no operation was obtained |
| `StreamWrite.SendStream.NativeFinishOnce` | module/rampart-iroh.c:2258-2270 | finishes unless already finished |
| `StreamWrite.SendStream.FinishWriting` | module/rampart-iroh.c:2272-2284 | equals the model step: deferred under WRITING, immediate otherwise |
| `StreamWrite.SendStream.OnWritten` | module/rampart-iroh.c:1207-1230 | the handler, with any list of calls its drain listeners make, equals a valid run of the model |
| `ReadLoop.ReadLoopDelivers` | module/rampart-iroh.c:1156-1205 | in every run the data events carry exactly the bytes of the run's completed reads in order; every data and end belongs to a started loop that has not ended; error fires for exactly the reported failures, and end exactly as often as a read of the run failed or was the last |
| `ReadLoop.ReadGoesOnIff` | module/rampart-iroh.c:1196-1205 | over every run, a read is pending after a step exactly as promised: on starts one if none is under way, a completed read that is not the last is followed by the next at once or when its listeners return, a failed one by none |
| `ReadLoop.DataThenNextRead` | module/rampart-iroh.c:1181-1205 | after a read with data that was not the last, whatever its listeners register, the next read is pending once they return |
| `ReadLoop.RecvStream.RegisterData` | module/rampart-iroh.c:805-814 | registering for data starts a read exactly when none is running and the stream is open |
| `ReadLoop.RecvStream.Listeners` | module/rampart-iroh.c:346-360 | any list of re-registrations inside a listener is a valid continuation of the run |
| `ReadLoop.RecvStream.OnStreamData` | module/rampart-iroh.c:1179-1205 | the completed-read branch, with whatever its listeners register, equals a valid run of the model |
| `ReadLoop.RecvStream.OnStreamFailed` | module/rampart-iroh.c:1163-1177 | the failed-read branch, with whatever its error and end listeners register, equals a valid run of the model |
| `ListenerIds.ListenerIdentity` | module/rampart-iroh.c:215-257 | while no ids clash, the entry under an id is the function carrying it, off removes exactly that entry, and on and once, if they cause no clash, add exactly that entry |
| `ListenerIds.RunIds` | module/rampart-iroh.c:215-257 | over every run, a function's id is the number of registrations before its first one, cut to 32 bits, whatever is registered again in between |
| `ListenerIds.DistinctIff` | module/rampart-iroh.c:215-257 | over every run, functions have distinct ids if and only if no two of them were first registered a multiple of 2^32 registrations apart |
| `ListenerIds.FewNeverClash` | module/rampart-iroh.c:215-257 | up to 2^32 registrations no ids clash |
| `ListenerIds.ReregisteringNeverClashes` | module/rampart-iroh.c:215-257 | one function registered any number of times never clashes |
| `Emitter.OnExact` | module/rampart-iroh.c:215-257 | registering that causes no clash adds one entry under the function's id and evicts none |
| `Emitter.OnceExact` | module/rampart-iroh.c:365-401 | once adds the entry on would add, and only it, and marks that function |
| `Emitter.OffExact` | module/rampart-iroh.c:403-420 | off removes that function from that event and changes nothing else |
| `ListenerIds.OnEvictsIff` | module/rampart-iroh.c:215-257 | over every run without a clash, registering a function evicts another listener if and only if the function is new and the id the counter gives it is in use on that event |
| `ListenerIds.WrapIsReached` | module/rampart-iroh.c:215-257 | 2^32 functions on one event, and one more replaces the first |
| `Emitter.FireVisitsEveryListenerOnce` | module/rampart-iroh.c:259-308 | while ids are distinct, a trigger that has returned dealt exactly once with every function its event held when it began and with nothing else: it called that very function, or skipped it after an intervening removal |
| `Emitter.OnceCalledAtMostOnce` | module/rampart-iroh.c:365-401 | a function registered only by once, on one event, is called no more often than it was registered, even if its listener fires the event again |
| `OnceMark.MarkedIff` | module/rampart-iroh.c:365-401 | over every run, the mark is up if and only if some once of the function, on whatever event, was not followed by a call of the function |
| `OnceMark.DeliveryRemovesIff` | module/rampart-iroh.c:259-308 | over every run, a delivery calls the function and removes it from that event if and only if the mark is up in that sense, however the listener was registered; its other events keep it |
| `OnceMark.OnceOnTwoEventsStays` | module/rampart-iroh.c:259-308 | once on two events: three calls, and still registered |
| `OnceMark.OnAfterOnceIsRemoved` | module/rampart-iroh.c:403-420 | once, off, on: the listener is gone after one call |
| `Emitter.EventEmitter.AddListener` | module/rampart-iroh.c:215-257 | equals the model step for on |
| `Emitter.EventEmitter.AddOnceListener` | module/rampart-iroh.c:365-401 | equals the model step for once |
| `Emitter.EventEmitter.RemoveListener` | module/rampart-iroh.c:403-420 | equals the model step for off, for known and unknown functions |
| `Emitter.EventEmitter.TakeListener` | module/rampart-iroh.c:259-308 | looks up and, if marked, removes the listener before it is called, as the model does |
| `OneShot.CallbackMatchesOperation` | module/rampart-iroh.c:446-471 | over every run without a clash, in any order of completion, a successful operation calls exactly the callback it was started with or none, and no operation calls one twice |
| `OneShot.CallbacksFollowRun` | module/rampart-iroh.c:446-471 | from the run alone, while no ids clash: an operation is under way if and only if it was started or parked and is not over, and a callback was called for it if and only if it was started or parked with it and has succeeded |
| `OneShot.CallbacksConserved` | module/rampart-iroh.c:446-471 | below 2^32 stores, every callback passed was called or is still in the table |
| `OneShot.MatchedIff` | module/rampart-iroh.c:446-471 | over every run, callbacks and operations stay matched throughout if and only if no callback is stored under id 0 or under the id of another operation still under way |
| `OneShot.StepMatches` | module/rampart-iroh.c:446-456 | the same of one step: exactly those stores end the match |
| `OneShot.ClashMisdelivers` | module/rampart-iroh.c:459-471 | after every such store some continuation has an operation call what it was not started with, or fail to call what it was |
| `OneShot.FewStoresNeverClash` | module/rampart-iroh.c:446-456 | below 2^32 stores there is no clash |
| `OneShot.WrappedIdLeaks` | module/rampart-iroh.c:446-456 | the 2^32nd stored callback gets id 0, and an operation started without a callback calls it |
| `OneShot.WrapIsReached` | module/rampart-iroh.c:446-471 | a run of 2^32 stores after which an operation started without a callback calls somebody else's |
| `OneShot.WrapIsSilent` | module/rampart-iroh.c:1031-1068 | a run of 2^32 stores after which endpoint.connect completes and its callback is never called |
| `OneShot.CallbackTable.constructor` | module/rampart-iroh.c:666-733 | starts as the empty model state |
| `OneShot.CallbackTable.StoreCallback` | module/rampart-iroh.c:446-456 | equals the model's store with the counter kept in 32 bits only |
| `OneShot.CallbackTable.StartOperation` | module/rampart-iroh.c:2042-2078 | starting an operation, with or without callback, registered or not, equals the model step |
| `OneShot.CallbackTable.ParkOperation` | module/rampart-iroh.c:2327-2363 | iroh.connect, which stores its callback before there is an operation, equals the model step |
| `OneShot.CallbackTable.LaunchOperation` | module/rampart-iroh.c:934-962 | the auto-connect once online equals the model step, started or not |
| `OneShot.CallbackTable.FinishOperation` | module/rampart-iroh.c:1031-1068 | the completion handler equals the model step and returns exactly the callback the model logs, for handlers that test the id and for those that do not |
| `ResultSlot.ExtractionConserves` | src/lib.rs:2236-2298 | over any sequence of extractor calls each component is held, handed out or dropped exactly once, none duplicated or lost |
| `ResultSlot.ExtractKeepsKinds` | src/lib.rs:1769-1815 | an extractor hands out only the kind of component its return type names |
| `ResultSlot.ExtractionFollowsOrder` | src/lib.rs:1769-1815 | for any calls, what is handed out is exactly the longest prefix of the documented order those calls complete |
| `ResultSlot.ExtractionFollowsOrderAlways` | src/lib.rs:870-895 | the same for calls made at any time: first-stage calls before the state is Ready change nothing |
| `ResultSlot.DocumentedOrderCompletes` | src/lib.rs:2236-2298 | the documented order hands out every component it promises, once |
| `ResultSlot.ResultCell.TakePart` | src/lib.rs:133-135 | take, downcast and put back equal the model's extraction |
| `DocsJoin.WaitForSync` | src/lib.rs:3064-3125 | consumes events up to the first one at which sync has finished and nothing was inserted or all content is ready; otherwise reports the timer, or at stream end whether sync finished |
| `DocsJoin.Join` | src/lib.rs:3043-3151 | every way out completes the handle exactly once, with the namespace whenever the import succeeded, however the wait ended, and with the error otherwise |
| `DocsJoin.InsertsZeroIff` | src/lib.rs:3064-3125 | below 2^64 events the wrapping counter is 0 if and only if no remote insert was seen |
| `DocsRead.CollectPairs` | src/lib.rs:2783-2857 | the collecting loop fails if and only if some item is a stream error or its blob fails, and otherwise yields the local entries in order |
| `DocsRead.ToCArray` | src/lib.rs:2858-2898 | each pair keeps its place, name and value across the C array, empty values and NUL keys included |
| `DocsRead.BuildObject` | module/rampart-iroh.c:1761-1800 | the object has one property per reported name, the last pair of a name winning |
| `DocsRead.GetAll` | module/rampart-iroh.c:1761-1800 | from query to object: an error if and only if some item fails, and otherwise the map of local entries, the last entry of a name winning |
| `DocsRead.GetAttrAnswers` | src/lib.rs:2693-2763 | getAttr is an error if and only if there is an entry whose content is not here, null if and only if there is none or it is empty, and otherwise that entry's content |
| `DocsRead.PairsMakeObject` | module/rampart-iroh.c:1761-1800 | the object built from the pairs is the map of local entries, the last entry of a name winning |
| `DocsRead.GetAllAgreesWithGetAttr` | src/lib.rs:2693-2763 | with local keys that are valid UTF-8 without NUL, get-all reports exactly the keys whose content is local, each with the value get-latest gives for it |
| `DocsRead.NamesAreKeysIff` | src/lib.rs:2858-2898 | the names get-all reports are the local keys if and only if every local key is valid UTF-8 without NUL |
| `DocsRead.NulKeysCollapse` | src/lib.rs:2858-2898 | any two keys with a NUL go by the empty name, and the earlier entry has no influence on the object |
| `DocsRead.InvalidKeyIsRenamed` | src/lib.rs:2815-2815 | the key FF is reported as U+FFFD |
| `DocsRead.NulValueIsLost` | src/lib.rs:2858-2898 | two entries with NUL keys give one property, and the first value is lost |
| `Utf8.KeptIff` | src/lib.rs:2815-2815 | the lossy conversion leaves a key alone if and only if it is valid UTF-8 |
| `Utf8.ValidIff` | src/lib.rs:2815-2815 | a text is valid if and only if it is the encoding of some Unicode scalar values |
| `Utf8.IllFormedIsMaximal` | src/lib.rs:2815-2815 | what is replaced as one is the longest start of a character there, or a single byte that starts none |
| `Utf8.LossyIsValid` | src/lib.rs:2815-2815 | the lossy conversion always yields valid UTF-8 |
| `Utf8.NulIsKept` | src/lib.rs:2815-2815 | the lossy conversion neither removes nor adds a NUL |
| `DocsSet.WrittenLastWins` | src/lib.rs:2509-2525 | writing the entries in order leaves the last value of each key and every other key untouched |
| `DocsSet.SetEachStopsAtFailure` | src/lib.rs:2509-2525 | exactly the entries before the first failing write are applied |
| `DocsSet.BuildArrays` | module/rampart-iroh.c:2917-2986 | the three doubling arrays hold key, value and length of every property in order, and the loop throws exactly on an empty object or a bad value |
| `DocsSet.UpToNul` | src/lib.rs:2491-2491 | the longest prefix of the key without a NUL |
| `DocsSet.CopyEntries` | src/lib.rs:2480-2507 | reading the arrays back gives the properties, each key cut at its first NUL |
| `DocsSet.ApplyEntries` | src/lib.rs:2509-2525 | the document afterwards is the prefix before the first failure, and success means all of it |
| `DocsSet.SetObject` | module/rampart-iroh.c:2917-2986 | set with an object, from JavaScript to document, equals single sets of its properties in order, stopping at the first failure; after a full success with keys without NUL each key holds the value of its last property and no other key changed; it throws, changing nothing, exactly on an empty object or a value that is neither string nor buffer |
| `EchoServer.EchoInLockstep` | examples/echo_server.c:257-396 | in every run a live stream has exactly one outstanding operation, the bytes submitted are the bytes read in order, and the send side is finished only after all of them were echoed, as the last thing |
| `EchoServer.EchoFollowsRun` | examples/echo_server.c:257-396 | from the run alone: while every operation could be registered, the bytes submitted are those of the run's completed reads in order; the send side is finished if and only if a read reported the end; the context lives until a step ends it |
| `EchoServer.NextOperation` | examples/echo_server.c:301-370 | what is outstanding after a step: the echo of the bytes read, and otherwise a read |
| `EchoServer.StreamContext.AddEvent` | include/iroh_libevent.h:946-978 | arms exactly one operation, or records that the stream lost its event |
| `EchoServer.StreamContext.OnDataRead` | examples/echo_server.c:301-370 | equals the model step for data, empty reads, end of stream and failure |
| `EchoServer.StreamContext.OnDataWritten` | examples/echo_server.c:372-396 | equals the model step: read again, or free on failure |
| `Address.PrintedAddressParsesBack` | src/lib.rs:326-355 | every address that can be printed parses back to the same key and relay, and exactly those whose relay holds a NUL cannot be printed |
| `Address.PrintedText` | src/lib.rs:326-333 | the text is the key, and with a relay the key, "?relay=" and the relay |
| `Address.PrintIsInjective` | src/lib.rs:326-333 | the text determines key and relay |
| `Address.ParsedText` | src/lib.rs:341-355 | any text parses exactly if its part before the first question mark is a key, to that key and to the relay if the rest is "relay=" and a text |
| `Address.ParsedAddressPrintsBackIff` | src/lib.rs:341-355 | a parsed text prints back to itself if and only if its key part is what the key prints as and its query is absent or a relay |
| `Address.OtherQueryIsDropped` | src/lib.rs:341-355 | a text with any other query parses and prints back without it |

## Left out

- The iroh, QUIC, gossip, blobs, docs and tokio internals: their results enter as arbitrary inputs.
- The Duktape stack, prototypes and garbage collector: JavaScript tables are maps, and enumeration is a snapshot of keys that skips deleted ones.
- Raw pointers captured by spawned workers, the parent link between records, and the lifetime of the native endpoint and connection.
- Workers that panic before completing their handle; allocation failure.
- The timer variant of event registration and the Windows variant of the pipe.
- Runtime start-up, configuration setters, and the secret-key, ticket and topic codecs; the public-key and relay codecs are parameters of `Address`.
- The flag word as bits: flags are a set of names, the bits being disjoint constants.
- Handlers with user code in their middle are suspended frames over values in `Runtime` and `Emitter`; the in-place updates between those points are the classes.
- What the program does after a handler resumed on freed memory.
- Aliasing between records: `ObjectRecord` treats one record at a time.
- The copy of the blob store held inside the docs handle is not counted as a component of its own.
- The meaning of the latest-per-key query is taken as given.
- The remaining example programs and the test scripts.
- Runtime.NoUseAfterFree: is about runs without a destroy under a handler that looks at the object again, because the code fails there; Closing.HandlersStayIntactIff is the statement over all runs.
