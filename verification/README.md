# airtask, modelled and verified

airtask runs tasks after a delay. A task is accepted by the task manager, stored under the key of its id, put on a
time wheel, triggered by a tick and executed in a batch; clients talk to the node over JSON-RPC and subscribe to
events. The project models the parts with state and arithmetic, in the form the program has: classes and loops where
the program changes things in place, functions where it computes, and transition systems over all interleavings where
goroutines and channels meet.

Check everything with `dafny verify dfyconfig.toml`.

## How it is built

| files | what they hold |
|---|---|
| WheelModel, WheelRuns | The wheel as a value (ring of lists, id map, cursor, Go's truncating division), its invariant, and conservation over whole runs. Entries carry a history stamp that says when they were added. |
| NaiveScheduler, WheelRefinement | A scheduler that holds a list of (id, ticks left) and scans all of it every tick, and the proof that the wheel gives the same answers for every sequence of calls. |
| TimeWheel | The classes `TimeItem` and `TimeWheel`, changed in place; every method is tied to the function of WheelModel that specifies it. |
| ItemID, ModuleName | Big-endian store keys; the parser of module file names and the table it fills. |
| TaskManager, TaskLifecycle | The class `Manager` over the verified wheel, and every run of its operations under the lock. |
| Channels, ClientModel, ClientRegistry, ClientProtocol, ClientAnswers, ClientRuns | The client as a transition system: one dispatch loop, any number of senders, callers and read loops, reconnection and quit. A channel marks a blocked send, a send after a close and a second close, and no reachable state has such a mark. |
| ClientDispatcher, BatchCall | The maps of the dispatch loop and the result matching of a batch, changed in place, and tied to ClientModel. |
| ClientSubscription, Forwarder | How a client subscription ends; the queue of its forwarder. |
| EventBroadcast, EventMsg | The event loop with its subscribers as a transition system, and as a class over the index. |

## Where the code differs from what one would expect

- `NewManagerWithTimeWheel` ignores its interval and slot arguments (node/task/manager.go:93). The model does the same.
- The fallback branch of `NewTimeWheel` (node/tw/timewheel.go:30-37) makes `maxSlot` lists and then fills 3600 of
  them, so it panics exactly when `maxSlot` is below 3600 (`TimeWheels.NewTimeWheel`).
- `NewTimeWheel` accepts an interval under one second, and then `Add` divides by zero (timewheel.go:66-69,
  `TimeWheels.ZeroDivisor`); a positive whole number of seconds is a precondition of `Add`.
- A negative delay is not refused. It indexes out of range, or it waits for the delay modulo the ring size:
  `PlacementIsExact` says exactly when.
- A plugin task is accepted under its completed name but run under the name as given (manager.go:374 and 455-460).
  Without a version it is accepted, and whenever it is run after that it ends in the zero result:
  `TaskLifecycle.PluginRunsIffVersioned`, and a run in `UnversionedPluginFails`.
- The documentation of `Subscribe` promises a buffer of 8000 notifications (client/client.go:575); the constant is 20000.
- A subscription whose id the server grants again while it is active is unreachable for the dispatch loop. It is open
  beyond the quit exactly in that case (`SubscriptionsEnd`; `ClientRuns.RepeatedIdStaysOpen` is a run).
- While dispatch waits for the old read loop during a reconnect it does not take batches (client.go:738-742). If that
  loop holds one, both wait for ever: `ReconnectsExactly`.
- `wait` returns a response together with the error that the operation has by then (client.go:121-128), and the callers
  look at the error only. A response that lies in the mailbox when it is closed, or that `wait` has just taken from it,
  is lost. `ErrorFreeReturn` and `NothingAfterClose` say that this happens exactly to what was not returned before the
  close, `CloseLosesIffPending` that a close loses it exactly when an id of the request is still unanswered, and
  `ClientRuns.CloseLosesResponse` is a run.
- An id that is added while it is pending leaves an element behind that `Delete` does not remove and the id map does
  not know. Added again, such an id can fire early: `FiresOnTimeExactly` and `LeftOverFiresEarly`.
- `Unsubscribe` of a new-task subscription drains `results`, which is nil for it (node/subscribe/subscribe.go:165). Every
  such call, when nobody else reads the channel, can make loop and caller wait for each other for ever, whatever the
  capacity and however empty it is at the call, because events that arrive before the uninstall fill it. No call for a
  results subscription can. So the kind alone decides: `OnlyNewTasksBlock` and `UnsubscribeReturnsExactly`; `BlockedForever`
  shows that nothing but another reader resolves it.
- `DeleteTask` builds the name of the script file from the bytes of the id, `AddTask` from its decimal form
  (manager.go:448 and 493). The names differ for every id, so a deletion never finds the script
  (`TaskModel.ScriptNamesDiffer`). The file system itself is not modelled.

## Model

| member | source | states |
|---|---|---|
| GoInt.QuoRem | node/tw/timewheel.go:68-69 | Go's truncating quotient and remainder satisfy the defining equation for every dividend, negative ones included. |
| WheelModel.PlacementIsExact | node/tw/timewheel.go:64-72 | The slot and circle computed for a delay of n ticks stand for exactly n ticks for every ring size and cursor; a negative n indexes out of range exactly when it reaches behind slot 0 without landing on a multiple of the ring size, and otherwise waits for n modulo the ring size. |
| WheelModel.TicksCutTwice | node/tw/timewheel.go:65-69 | A delay is cut to whole seconds and then to whole multiples of the whole seconds of the interval, for every interval of a second or more. |
| WheelModel.EmptyInv | node/tw/timewheel.go:47-51 | A new ring satisfies the representation invariant, with map and lists in bijection. |
| WheelModel.AddInv | node/tw/timewheel.go:75-86 | Adding keeps the invariant even for a repeated id, and the bijection of map and lists for a fresh one. |
| WheelModel.RemoveFirstAt | node/tw/timewheel.go:96-104 | The walk of Delete removes exactly the first element with the id and keeps the rest in order. |
| WheelModel.DeleteInv | node/tw/timewheel.go:89-106 | Deleting keeps the invariant, and the bijection where it held. |
| WheelModel.DeleteSucceeds | node/tw/timewheel.go:89-106 | Every map entry is backed by an element of its slot, repeated ids included, so Delete always reports success. |
| WheelModel.DeleteUndoesAdd | node/tw/timewheel.go:75-106 | Deleting an id right after its add restores ring, map and cursor. |
| WheelModel.TriggerInv | node/tw/timewheel.go:126-155 | A trigger keeps the invariant, and the bijection where it held. |
| WheelRuns.StepInv | node/tw/timewheel.go:75-155 | Every call keeps the invariant and the size of the ring. |
| WheelRuns.Conservation | node/tw/timewheel.go:75-155 | Over every run and for every id, elements standing at first plus added equal elements fired or deleted plus those still standing. |
| WheelRuns.DeletesSucceed | node/tw/timewheel.go:89-106 | In every run, each Delete answers true. |
| WheelRuns.CirclesStay | node/tw/timewheel.go:75-155 | Over every run without negative delays no circle is ever negative. |
| WheelRefinement.CheckAgrees | node/tw/timewheel.go:109-114 | An id is found exactly when the naive scheduler has a task for it. |
| WheelRefinement.GetAgrees | node/tw/timewheel.go:117-123 | The slot and circle of a pending id say, together with the cursor, how many ticks its task still waits. |
| WheelRefinement.AddRefines | node/tw/timewheel.go:75-86 | Add is the scheduler's add with the ticks of the delay. |
| WheelRefinement.DeleteRefines | node/tw/timewheel.go:89-106 | Delete removes exactly the scheduler's task of that id. |
| WheelRefinement.TriggerKeepsTask | node/tw/timewheel.go:126-155 | A trigger touches one slot, yet takes one tick from every task that stays, in whatever slot. |
| WheelRefinement.TriggerFiresDue | node/tw/timewheel.go:138-155 | A trigger returns exactly the tasks with no ticks left, in the order in which they were added, even in different revolutions. |
| WheelRefinement.TriggerRefines | node/tw/timewheel.go:126-155 | The wheel after a trigger represents the scheduler after a tick. |
| WheelRefinement.StepRefines | node/tw/timewheel.go:75-155 | Each of Add (of a fresh id), Delete, Check and Trigger answers as the scheduler and leads to a wheel that represents it. |
| WheelRefinement.Refinement | node/tw/timewheel.go:75-155 | For every sequence of calls that adds no pending id, all answers of the wheel are those of the naive scheduler. |
| WheelRefinement.NewWheelRefines | node/tw/timewheel.go:28-155 | A new wheel of any size gives the answers of the naive scheduler for every sequence of calls that adds no pending id. |
| WheelRefinement.AddedItemFires | node/tw/timewheel.go:64-155 | In every state that a wheel can get into, repeated ids included, an item whose id stands in no slot fires, if it is added with n ticks, in the (n+1)-th later trigger and in no other, in every run that leaves the id alone. |
| WheelRefinement.FiresOnTimeExactly | node/tw/timewheel.go:64-155 | The added id fires at its time and at no other in all runs that leave it alone if and only if no such element is left over; an id that is not in the map can have one. |
| WheelRefinement.LeftOverFiresEarly | node/tw/timewheel.go:75-106 | A state reached by adding an id twice and deleting it once, in which the id is not in the map and, added with three ticks, fires in the next trigger. |
| WheelRefinement.IdsDistinct | node/tw/timewheel.go:75-155 | No two pending tasks share an id. |
| WheelRefinement.FiringTime | node/tw/timewheel.go:126-155 | An id whose elements have l ticks left is in the output of the trigger with l triggers before it and of no other, and Check finds it up to then, in every run that leaves the id alone; other ids may be added while they are pending. |
| WheelRefinement.ExactFiringTime | node/tw/timewheel.go:64-155 | An item added with n ticks fires in the (n+1)-th later trigger and in no other, for every ring size, cursor and mix of other calls, if no element of its id with another wait is left over in a slot; a negative n counts modulo the ring size. |
| WheelRefinement.RepeatedRun | node/tw/timewheel.go:126-155 | k triggers in a row leave exactly the tasks that had k or more ticks left, with k fewer. |
| WheelRefinement.TriggersDrain | node/tw/timewheel.go:126-155 | As many triggers as the longest wait, and one more, empty every slot. |
| NaiveScheduler.SameElementsSameList | node/tw/timewheel.go:84-84 | Task lists in order of addition are determined by their elements; this turns "the same tasks fire" into "the same list is returned". |
| TimeWheels.TimeWheel.constructor | node/tw/timewheel.go:28-52 | Both branches: interval and ring size, defaults included, and the wheel is empty. |
| TimeWheels.NewTimeWheel | node/tw/timewheel.go:28-52 | Making the slots and filling them panics exactly for a fallback with fewer than 3600 slots; otherwise the wheel is empty and has the interval and size of its branch. |
| TimeWheels.ZeroDivisor | node/tw/timewheel.go:66-69 | The divisor of Add is zero exactly for the accepted intervals under a second. |
| TimeWheels.TimeWheel.Add | node/tw/timewheel.go:75-86 | The linked ring and the map become those of the model's Add; the answer is the item's slot and circle. |
| TimeWheels.TimeWheel.Delete | node/tw/timewheel.go:89-106 | The walk, which ends with the element it unlinks because a removed list element has no successor, does what the model's Delete does, and answers true. |
| TimeWheels.TimeWheel.Check | node/tw/timewheel.go:109-114 | True exactly for the ids in the map. |
| TimeWheels.TimeWheel.Get | node/tw/timewheel.go:117-123 | Slot and circle of the entry of a pending id, and (0, 0) otherwise. |
| TimeWheels.TimeWheel.Trigger | node/tw/timewheel.go:126-136 | Ring, map, circles and cursor become those of the model's Trigger, and the returned ids are the model's. |
| TimeWheels.TimeWheel.Retrieve | node/tw/timewheel.go:138-155 | The walk counts down the circles that are positive, unlinks and unmaps what is due, and returns it in list order. |
| ItemIDs.ValueOfBytes | node/common/item_id.go:29-50 | Reading the big-endian bytes of a number gives the number. |
| ItemIDs.BytesOfValue | node/common/item_id.go:29-50 | Writing the number read from bytes gives the bytes. |
| ItemIDs.ByteIsShift | node/common/item_id.go:29-33 | Each byte is the one a right shift leaves lowest, as the encoder of the Go library computes it. |
| ItemIDs.KeyRoundTrip | node/common/item_id.go:29-50 | Signed 64-bit ids and 8-byte keys are in bijection through the unsigned conversion, negative ids included. |
| ItemIDs.SameBits | node/common/item_id.go:29-50 | The signed and unsigned values of an id agree modulo 2^64, so a key holds the bytes of the id itself if it is not negative. |
| ItemIDs.KeysDistinct | node/common/item_id.go:29-55 | Two ids have the same key exactly when they are equal. |
| ModuleNames.ParseModuleName | node/task/manager.go:550-568 | The loop in which every '@' overwrites name and version computes the split at the last '@'. |
| ModuleNames.ParseRoundTrip | node/task/manager.go:550-568 | name@version.so is read back as (name, version) for every name, with '@' or not, and every version without '@'. |
| ModuleNames.ParsePlain | node/task/manager.go:562-565 | Without '@' the stem and the default version come back. |
| ModuleNames.ParsedVersion | node/task/manager.go:550-568 | A parsed version never contains '@'. |
| ModuleNames.KeyNameInjective | node/task/manager.go:219-219 | Ids name@version determine name and version when versions have no '@'. |
| ModuleNames.SameKey | node/task/manager.go:204-227 | Two module files collide exactly when they are equal or one is the other with the default version spelled out. |
| ModuleNames.LoadModules | node/task/manager.go:204-227 | The table holds exactly the ids of the files that do not start with a dot, each with the first file that has it; in particular name@version for a file name@version.so. |
| TaskModel.ResultCarriesId | node/task/manager.go:323-396 | A result carries the id of its task exactly if the task cannot be read, or is a command or file task, or is a plugin task whose stored name is in the table; otherwise it is the zero result, which has the id 0. |
| TaskModel.ResultFields | node/task/manager.go:328-383 | Field by field: a task that cannot be read reports its id and that error, a command or script its id, times, error and output, a plugin that is there its id, times and error, one that is not nothing at all. |
| TaskModel.AddTaskAnswers | node/task/manager.go:433-477 | A task is accepted exactly if its id is drawn, its type is known, a script is not empty and written, a plugin is in the table under its completed name, and encoding and store succeed; the first failure gives its error and changes nothing. |
| TaskModel.LookupIsLoaded | node/task/manager.go:218-219 | The completed name of a plugin without a version is the id under which the loader files the module without one. |
| TaskModel.VersionedLookupIsLoaded | node/task/manager.go:455-460 | A plugin with a version is looked up under the id under which the loader files name@version.so. |
| TaskModel.StoredResults | node/task/manager.go:389-396 | A batch of different tasks writes exactly the results of those that run and can be stored, each under its own key, and no other key. |
| TaskLifecycle.ExecutedAsAccepted | node/task/manager.go:323-396 | Whatever happens between, a task that is run is run as the job that was accepted under its id. |
| TaskLifecycle.PluginRunsIffVersioned | node/task/manager.go:374-461 | In every run after its acceptance, whenever a plugin task is run it runs its module exactly when its version was spelled out and the table has it at that moment; otherwise it ends in the zero result. |
| TaskLifecycle.UnversionedPluginFails | node/task/manager.go:374-461 | A run in which the module of an unversioned plugin task is there, the task is accepted, fires and runs, and its stored result is the zero result. |
| TaskModel.ScriptNamesDiffer | node/task/manager.go:448-496 | The script name that AddTask makes from the decimal id is never the one that DeleteTask looks for, made from the printed bytes of an id. |
| TaskManager.Manager.constructor | node/task/manager.go:92-108 | An empty wheel with the default interval and size, whatever the arguments, and an empty module table. |
| TaskManager.Manager.AddTask | node/task/manager.go:427-478 | Accepted exactly under the conditions on id, type, script, plugin name, encoding and store; then the job is stored under the key of the new id and put on the wheel, otherwise nothing changes. |
| TaskManager.Manager.DeleteTask | node/task/manager.go:481-499 | The job leaves the store and then the wheel; a store error leaves both alone. |
| TaskManager.Manager.CheckTask | node/task/manager.go:522-532 | Not found without a stored job, else whether the wheel has the id. |
| TaskManager.Manager.GetTask | node/task/manager.go:502-519 | The stored job with the slot and circle of its entry, (0, 0) once it has fired. |
| TaskManager.Manager.GetResult | node/task/manager.go:535-548 | The stored result or not found. |
| TaskManager.Manager.Tick | node/task/manager.go:241-248 | One tick changes nothing but the wheel and returns its due ids. |
| TaskManager.Manager.ExecuteJobs | node/task/manager.go:312-401 | The loop yields, task by task, the reported error of what cannot be read and the times, error and output of commands and scripts, and the result store of the model. |
| TaskManager.SecondsAreTicks | node/task/manager.go:92-93 | On the manager's wheel an interval of n seconds is n ticks. |
| TaskLifecycle.StepPreserves | node/task/manager.go:241-499 | Every operation keeps the lifecycle invariant: one phase per accepted task, store and wheel in agreement, written result keys only for executed tasks and each in the result store. |
| TaskLifecycle.RunInv | node/task/manager.go:241-499 | In every state of every run each accepted task is in exactly one of pending, deleted before its trigger, waiting in one batch, or processed. |
| TaskLifecycle.DeletedStaysDeleted | node/task/manager.go:481-499 | A task deleted while pending is never triggered in any continuation, and the result store's entry under its key never changes. |
| TaskLifecycle.ReachableInv | node/task/manager.go:92-108 | Every state of a manager that starts with an empty wheel keeps the invariant, and a naive scheduler stands for its wheel. |
| TaskLifecycle.OnlyWrittenChange | node/task/manager.go:389-396 | Over every run a key of the result store changes only if a task of an executed batch wrote it. |
| TaskLifecycle.ResultIsStored | node/task/manager.go:312-478 | A task that is accepted, not deleted, triggered and executed, whose job decodes and whose result can be put, leaves under its own key, in every continuation, the times, error and output of that execution. |
| TaskLifecycle.ExecutedOnce | node/task/manager.go:245-248 | No batch is executed twice in a run. |
| TaskLifecycle.ProcessedOnce | node/task/manager.go:312-401 | Two executions of a run have no task id in common. |
| TaskLifecycle.CheckIsPending | node/task/manager.go:522-532 | CheckTask answers true exactly for the ids in the wheel, all of which were accepted. |
| TaskLifecycle.CheckAnswers | node/task/manager.go:522-532 | For an accepted task that nobody deletes, CheckTask answers true until its batch is triggered and false from then on. |
| TaskLifecycle.CheckNeedsJob | node/task/manager.go:522-532 | Not found exactly without a stored job, false exactly for a stored job that the wheel does not hold. |
| TaskLifecycle.DeleteUndoesAddTask | node/task/manager.go:427-499 | Deleting a task right after it was accepted restores the stores, the ring and the id map, through the key of its id. |
| TaskLifecycle.TriggerTakesPending | node/task/manager.go:241-244 | The ids of a tick were pending, are all different, and are exactly those no longer pending. |
| TaskLifecycle.TaskFiresAfter | node/task/manager.go:241-248 | A pending task with l ticks left is in the batch of the tick with l ticks before it and of no other, whatever else the manager does. |
| TaskLifecycle.TaskTiming | node/task/manager.go:427-478 | A task accepted with an interval of n seconds and not deleted is in the batch of the (n+1)-th later tick and of no other; a negative interval that is not out of range counts modulo the ring size. |
| ClientDispatcher.Dispatcher.Accept | client/client.go:748-754 | The loop over the ids registers the operation for each of them. |
| ClientDispatcher.Dispatcher.Fail | client/client.go:756-767 | The loop over the ids removes exactly the handlers of the failed operation's ids. |
| ClientDispatcher.Dispatcher.HandleResponse | client/client.go:810-834 | The maps, the mailbox, the error and the start of a subscription are those of the model for every kind of response. |
| ClientDispatcher.Dispatcher.CloseRequestOps | client/client.go:773-790 | The two loops close every waiting operation and end every active subscription, and leave both maps empty. |
| ClientDispatcher.CloseEach | client/client.go:774-785 | Whatever the order of the map, an operation with several pending ids is closed once. |
| ClientDispatcher.QuitEach | client/client.go:786-789 | Every active subscription is ended and the map is left empty. |
| ClientRegistry.MailboxHasRoom | client/client.go:506-509 | While one of its ids is unanswered, a mailbox of capacity len(ids) has room, whether or not the caller still reads. |
| ClientRegistry.AcceptKeeps | client/client.go:748-754 | Registering an accepted operation keeps the registry invariant: mailboxes fit, ids are owned by one operation, and respWait holds exactly the unanswered ids of the waiting operations. |
| ClientRegistry.DeregisterKeeps | client/client.go:756-767 | Removing the handlers after a failed write keeps that invariant, even when some ids were answered before. |
| ClientRegistry.ResponseKeeps | client/client.go:810-834 | A response keeps that invariant, expected or not, subscription or call. |
| ClientRegistry.CloseKeeps | client/client.go:773-790 | Closing all operations and subscriptions keeps that invariant. |
| ClientProtocol.StepKeeps | client/client.go:622-865 | Every step of every goroutine keeps the invariant of registry, write lock and read loops. |
| ClientProtocol.EveryIdAccounted | client/client.go:748-834 | In every reachable state an accepted operation that is neither closed nor deregistered has its ids split, disjointly, into answered ones and ones in respWait. |
| ClientProtocol.ResolvedAfterQuit | client/client.go:687-701 | After the quit every accepted operation is fully answered, closed with an error, or was reported failed by send. |
| ClientProtocol.WaitersWake | client/client.go:121-128 | After the quit a caller that lacks responses is about to return one, or finds one in its mailbox or the mailbox closed. |
| ClientProtocol.ChannelsSafe | client/client.go:773-834 | Sends to mailboxes and sendDone never block or hit a closed channel, no mailbox is closed twice, no forwarder is started twice, and the next message of a batch can always be handled. |
| Channels.ChannelLaws | client/client.go:773-834 | A send leaves no mark exactly on an open channel with room, and a close exactly on an open one; a receive takes the oldest value. |
| ClientAnswers.BatchIsHandled | client/client.go:709-728 | Over every interleaving, when dispatch is through with a batch it has forwarded to every operation, in their order, the responses of the batch to the ids that were waited for, and none of these is waited for any more. |
| ClientAnswers.ReadIsHandled | client/client.go:709-865 | The same for what a read loop has read, from its first message to its last. |
| ClientAnswers.BatchFinishes | client/client.go:709-728 | Dispatch gets through every batch by steps of its own. |
| ClientAnswers.NotificationsAreOffered | client/client.go:792-808 | Over every interleaving, deliver is called on an active subscription with the results of all notifications for its id, in their order, unless the batch grants that id again. |
| ClientAnswers.AllAreClosed | client/client.go:703-733 | Close and a lost connection close every operation with an unanswered id with ErrClientQuit or the read error, leave the others alone, end every active subscription and empty both maps. |
| ClientAnswers.SubscriptionOutcome | client/client.go:822-833 | A closed subscription request has no error exactly if its forwarder was started; its error says whether the server refused it or sent no id. |
| ClientAnswers.FailedSendIsForgotten | client/client.go:756-767 | Once dispatch has taken the completion of a failed send, none of the ids of the request is waited for. |
| ClientAnswers.FailedWriteRedials | client/client.go:645-657 | After a failed write, until a sender hands over a new connection, whoever is in write can dial and cannot write. |
| ClientAnswers.ReconnectIsTaken | client/client.go:736-745 | Dispatch at its select takes a new connection; it reads from it at once, or waits for the old read loop. |
| ClientAnswers.OldReaderEnds | client/client.go:738-745 | The error of the old read loop ends the wait, and the client reads from the connection that it writes to. |
| ClientAnswers.ReconnectsExactly | client/client.go:738-742 | The wait for the old read loop can end if and only if that loop does not hold a batch; then nothing is ever received from it again. |
| ClientProtocol.ClosedStaysQuiet | client/client.go:773-790 | From a closed mailbox every step at most takes a value. |
| ClientProtocol.OneWriter | client/client.go:97-100 | Of any number of senders at most one is between acceptance and its sendDone; it is lastOp, and sendDone has room for it. |
| ClientProtocol.OnlyWriterTouchesConn | client/client.go:640-673 | Every step that looks at writeConn, writes on it or changes it is one of the sender that holds the lock, in write or reconnect. |
| ClientProtocol.CompletionHasOp | client/client.go:756-767 | When a completion can be taken, lastOp is set and the completion is that operation's result. |
| ClientProtocol.SingleReader | client/client.go:678-745 | At the head of the loop exactly one read loop has an unconsumed error if reading is set, on the current connection, and none otherwise; after the quit none is left. |
| ClientProtocol.RepliesAreABijection | client/client.go:504-554 | What a caller receives without an error are responses to different ids of its request, in forwarding order; as many as there are ids answer each id once. |
| ClientProtocol.SubscriptionsEnd | client/client.go:786-834 | A started subscription is not ended exactly when it is active or the server granted its id again while it was; after the quit it is open exactly in the second case. |
| ClientRegistry.ShadowedExactly | client/client.go:830-833 | The subscriptions that drop out of the map unended are exactly those whose id is granted again with no close of all in between. |
| ClientRuns.RepeatedIdStaysOpen | client/client.go:786-833 | A run that ends after the quit with a started subscription that was never ended. |
| ClientProtocol.ErrorFreeReturn | client/client.go:121-128 | wait returns a response without an error exactly when the mailbox is not closed by then, even if it took the response before the close; with an error, the caller does not get it. |
| ClientProtocol.NothingAfterClose | client/client.go:121-128 | What wait has returned without an error when the mailbox is closed is all it ever will. |
| ClientProtocol.LossNeedsMissing | client/client.go:776-785 | A response is lost only by a batch of several requests of which one is unanswered, never by a Call. |
| ClientProtocol.CloseLosesIffPending | client/client.go:773-790 | When all operations are closed, by Close or by a lost connection, the next response that an open mailbox or its caller holds is lost exactly when an id of its request is still waited for. |
| ClientRuns.CloseLosesResponse | client/client.go:121-128 | A run in which a batch takes a response before the close and gets it together with the error of the close. |
| BatchCalls.MatchReplies | client/client.go:526-552 | The search finds an element for every response, in whatever order they arrive; a response that carries a value that decodes puts it there and clears the error, any other leaves the result and sets the error that says why; elements without a response stay. |
| BatchCalls.ReceivedRepliesMatch | client/client.go:526-552 | What a batch receives without an error is what the matching loop needs, and a full number of such receives answers every element. |
| ClientSubscriptions.TerminationIsSafe | client/client.go:884-932 | Over every interleaving err gets at most one value, its sender has room, nothing is sent after or closed twice, and both channels are closed when Unsubscribe returns. |
| ClientSubscriptions.QuitShowsAsNil | client/client.go:925-930 | ErrClientQuit is never seen on Err. |
| ClientSubscriptions.EndsAsFirstCallSays | client/client.go:911-932 | Over any interleaving the first call that enters quitOnce decides: err is sent its error and nothing else, nil for ErrClientQuit, and the server is asked to unsubscribe, once, exactly if that call says so, as Unsubscribe does. |
| Forwarder.Forward | client/client.go:947-984 | For every schedule, delivered values followed by the buffer are the decoded notifications in order, the buffer holds at most 20000, and the loop ends exactly at the first quit, malformed value or value that meets a full buffer, each with its own outcome; the last two ask the server to unsubscribe. |
| Forwarder.ValueStands | client/client.go:968-976 | The value of each notification stands behind those of the notifications before it. |
| Forwarder.ValueSource | client/client.go:968-976 | Every value comes from a notification. |
| Forwarder.BacklogBounds | client/client.go:947-984 | The buffer holds at least the excess of notifications over reads of any stretch of turns that ends now. |
| Forwarder.BacklogReached | client/client.go:947-984 | Some stretch has exactly that excess. |
| Forwarder.OverflowExactly | client/client.go:45-45 | A subscription overflows if and only if some stretch of its life has over 20000 more notifications than reads. |
| EventBroadcasts.StepKeeps | node/subscribe/subscribe.go:154-263 | Every step of the loop and of any number of subscribers keeps the invariant. |
| EventBroadcasts.SubscribersSeeSegments | node/subscribe/subscribe.go:210-263 | Whenever the loop is at its select, a subscription was sent exactly the events of its kind between its install and its uninstall (or now), in order; what it received is a prefix; installed and err were each closed once at the right time. |
| EventBroadcasts.EventsReachTheirKind | node/subscribe/subscribe.go:210-230 | A results subscription is sent result lists only and a new-task subscription task ids only, and at the select each has been sent all of these that the loop took while it was installed. |
| EventBroadcasts.NothingAfterUninstall | node/subscribe/subscribe.go:167-173 | Once uninstalled, and so once Unsubscribe has returned, a subscription is never sent to again in any run. |
| EventBroadcasts.LogOnlyGrows | node/subscribe/subscribe.go:237-241 | The log that the segments are cut from is only appended to. |
| EventBroadcasts.StepMeasure | node/subscribe/subscribe.go:154-230 | Every send, receive and turn of a broadcast lowers the measure of pending sends, and no other step raises it. |
| EventBroadcasts.BroadcastIsBounded | node/subscribe/subscribe.go:210-230 | However subscribers behave, one broadcast takes at most as many such steps as the measure says. |
| EventBroadcasts.ServedExactly | node/subscribe/subscribe.go:162-166 | One step of the progress argument: the loop's send to a subscription can move on if and only if somebody receives or the channel has room, and a draining Unsubscribe receives. |
| EventBroadcasts.NobodyIsStuck | node/subscribe/subscribe.go:221-228 | A broadcast to attentive subscribers always has an enabled step that lowers the measure. |
| EventBroadcasts.UnsubscribeProceeds | node/subscribe/subscribe.go:154-174 | An Unsubscribe that waits for the loop has an enabled step too, its own or one that lowers the measure, if those the loop still has to send to are attentive. |
| EventBroadcasts.OnlyNewTasksBlock | node/subscribe/subscribe.go:154-174 | From every reachable state in which a user is in Unsubscribe, nobody else reads its channel and the loop runs, a run without another reader leads to the loop stuck on it if and only if the subscription is for new tasks, for every capacity and contents of the channel. |
| EventBroadcasts.UnsubscribeReturnsExactly | node/subscribe/subscribe.go:154-174 | From such a state the call can still return wherever it has got to, as long as the loop is not stopped, if and only if the subscription is for results. |
| EventBroadcasts.BlockedForever | node/subscribe/subscribe.go:162-228 | Once the loop is stuck on an Unsubscribe, nothing is taken, installed or uninstalled in any run without another reader. |
| EventBroadcasts.NewTaskUnsubscribeCanBlock | node/subscribe/subscribe.go:165-165 | A run of five steps that leads to such a state. |
| EventMsgs.EventMsg.constructor | node/subscribe/subscribe.go:114-134 | Every kind has an empty index. |
| EventMsgs.EventMsg.InstallSub | node/subscribe/subscribe.go:243-247 | The subscription enters the index of its kind and installed is closed. |
| EventMsgs.EventMsg.UninstallSub | node/subscribe/subscribe.go:249-253 | It leaves that index and err is closed. |
| EventMsgs.EventMsg.Broadcast | node/subscribe/subscribe.go:210-230 | Whatever the order of the map, a result list goes once to every results subscription and a task id once to every new-task subscription, and to no other. |
| EventMsgs.EventMsg.EventLoop | node/subscribe/subscribe.go:233-263 | For every schedule of the select, the index and what each subscription was sent are those of the reference functions over the schedule, up to the first stop. |
| EventMsgs.SentIsSegment | node/subscribe/subscribe.go:233-263 | By the reference function a subscription gets the events of its kind between its install and its uninstall and nothing else. |
| EventMsgs.SentIsSegmentOfLog | node/subscribe/subscribe.go:233-263 | That is the segment of the protocol's theorem, cut from the log of all turns. |

## Left out

- Transports, dialing, TLS, HTTP requests, deadlines, JSON encoding, reflection and logging of the client.
- Id counter of the client: its wrap at 2^32 (client/client.go:413); request ids are taken to be fresh.
- Liveness of the client in general: lines 738-742 wait for readErr without draining readResp, so a reconnect can block (ReconnectsExactly says when); operations pending across a reconnect stay pending until a later close.
- ClientProtocol: closeRequestOps is one step against waiting callers, and it is not modelled that it may wait for a quitOnce in progress; the hand-over of a notification to a forwarder may always complete.
- Null elements in a batch of messages.
- TimeWheels.TimeWheel.Retrieve: the slot list is rebuilt during the walk instead of being unlinked element by element.
- Float rounding of Duration.Seconds and the 64-bit overflow of delay times second; durations are whole nanoseconds without bound.
- Execution of commands, scripts and plugins, retries, the file system, leveldb, snowflake, the clock and metrics: their outcomes are parameters.
- The watcher branch of update, which passes a name cut at the first '.' to parseModuleName; the addTask and deleteTask channels, which nothing sends to; the wheel is not reloaded after a restart.
- Panics: an index out of range, a division by zero or a file name too short for its suffix is a precondition where no outcome says it.
- ItemID text and hex forms: UnmarshalText fills a copy, so no round trip exists to be proved.
- EventBroadcasts: one user channel per subscription, fresh ids, and one caller of Unsubscribe (a second one waits in the sync.Once); what subscribers do after the loop has stopped is not claimed to progress.
- node/admin, node/conf, node/metrics, node/version, node/module, node/store, the RPC wrappers and main.go: plumbing and configuration.
