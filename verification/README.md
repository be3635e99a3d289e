# Verified model of device-hub

device-hub registers IoT devices, polls them, stores what they report and keeps their clocks in step. This
project models the parts in which several pieces have to agree, and proves what they promise over every input
and every history:

- `Words.dfy`, `Colfer.dfy`, `ColferLaws.dfy`: the binary record of a stored device. The encoder and decoder are
  methods over a buffer and an index with 64-bit words, `|`, `&`, `<<` and `^` bit by bit; the wire format is a
  set of functions; the laws are round trip, exact length, self-delimitation, truncation and normalisation.
- `Registry.dfy`, `RegistryLaws.dfy`: the cached store over a database whose operations may fail. Map and database
  agree whatever fails, and a restart lists the same devices.
- `AliveMonitor.dfy`: the inactivity table and its sweep on top of the registry, with bounds over histories of adds,
  removes, polls, notifications, sweeps, starts and stops, with calls that hang.
- `MonitorLock.dfy`: the mutex of that monitor against the goroutines of the devices: when a removal deadlocks.
- `ResolveCache.dfy`: the host name cache with its one-slot wake-up channel and any number of waiting goroutines.
- `TaskRunner.dfy`, `AwakeStores.dfy`: the periodic runner (wake-up slot, join channel, any number of starts), and the
  store that wakes the browser, with the browser's runner.
- `Fleet.dfy`: the runners of all devices over the life of a store: restored, started, added, removed and stopped under
  the registry's mutex, with the parent context cancelled at any time. The registry inside it is that of
  `Registry.dfy`, call by call.
- `Json.dfy`, `Clocks.dfy`, `PollDevices.dfy`: the restorer of the last persisted time, the drift check, the
  synchronizer, the writer of data, all interleavings of them, and the poll of a device with its ID latch.
- `Discovery.dfy`: TXT records printed and parsed, and what an announced device does to the registry.
- `Options.dfy`: the `Option` type.

A method that changes state is proved against a function of the old state, and states besides, field by field, what
it does and when; the laws are lemmas about those functions. A history is a sequence of events; `After` gives the state
it leads to, if every step was possible. What the network, the database, the clocks and the scheduler do is free, but
it is theirs: the bucket knows which of its operations it refuses, a remote clock whether it can be read and set, a
monotonic clock logs its readings, and no method can make up an answer that it was not given.

Where the code does less than one may expect, the exact boundary is proved:

- A record of exactly 1024 bytes is written but never read back (`ColferLaws.LimitGap`); its device is listed until
  the next start and then deleted (`RegistryLaws.FullRecordIsLost`, `RegistryLaws.RestartPreserves`).
- A device added before `Start` has its runner started twice (`RegistryLaws.EarlyAddStartsTwice`,
  `Fleet.StartedOnceOrTwice`). The process can then die of a second close, and otherwise cannot
  (`TaskRunner.CrashIffStartedTwice`, `Fleet.CanDieIffAddedEarly`); and such a device can poll behind its removal
  (`Fleet.QuietInLife`).
- A restored device that is removed before `Start` is joined for ever, and its removal never returns
  (`RegistryLaws.EarlyRemoveHangs`). Such a call costs at most that one device after a restart
  (`RegistryLaws.RestartPreserves`), but a sweep that meets a device like this never ends
  (`AliveMonitor.GoodSweepPossibleIff`, `AliveMonitor.UnstartedBlocksSweeps`).
- The removal of a device by the monitor, and so a sweep, can deadlock with the device's own notification if and only if
  the device has a notifier and its goroutine has not left; from then on nobody gets the monitor's mutex
  (`MonitorLock.RemovalDeadlocksIff`, `MonitorLock.DeadlockIsForEver`, `MonitorLock.DeadlockIsReachable`).
- A waiter is woken for another host and gets nothing (`ResolveCache.NoDataIff`, `ResolveCache.WokenForAnother`).
- Restored devices are made before the store knows the monitor, so their polls do not keep them: being polled keeps a
  device if and only if its node was made later (`AliveMonitor.PolledIsKeptIff`, `AliveMonitor.ActiveRestoredIsSwept`).
- Removing one of two devices on a host makes the other unresolvable (`RegistryLaws.RemoveKnowsHosts`).
- A waiter can miss its wake-up if and only if another goroutine is waiting, for whatever host
  (`ResolveCache.StrandedIffOthersWait`, `ResolveCache.WrongWaiterWakes`).
- A monitored device that is not registered makes every sweep fail from its inactivity on, until it is added or notified
  (`AliveMonitor.PhantomBlocksSweeps`); it comes from a notification for an unregistered URI or from stopping the store
  (`AliveMonitor.PhantomsArise`).
- The guard against setting a device clock back covers data whose handling has returned, not a point that is in
  the database but not yet published (`Clocks.ForwardOnly`, `Clocks.UnpublishedIsNotCovered`), and data of an earlier
  process only if it was restored before new data came (`Clocks.PersistedIsCovered`, `Clocks.RestoredTooLate`).

## Model

| member | source | states |
|---|---|---|
| Words.Continuation | components/device/devstore/Colfer.go:60 | `byte(x \| 0x80)`, computed bit by bit, is the low seven bits of x with the eighth set |
| Words.LowBits | components/device/devstore/Colfer.go:176 | `x & 0x7f`, computed bit by bit, is the remainder by 128 |
| Words.JoinGroup | components/device/devstore/Colfer.go:188 | `x \| b << shift` adds a group modulo 2^64, also for shifts of 64 and more, as long as x stays below 2^shift |
| Words.JoinSmallGroup | components/device/devstore/Colfer.go:225-228 | up to shift 56 that addition loses nothing |
| Words.AbsWord | components/device/devstore/Colfer.go:122-125 | the word the sign branch makes is the absolute value, also for the smallest int64 |
| Colfer.StorageItem.PutUvarint | components/device/devstore/Colfer.go:58-65 | the size loop writes the canonical base-128 groups behind what was written and leaves the rest of the buffer alone |
| Colfer.StorageItem.PutMagnitude | components/device/devstore/Colfer.go:78-84 | the timestamp loop writes at most eight groups and then a whole byte |
| Colfer.StorageItem.MarshalTo | components/device/devstore/Colfer.go:52-104 | writes exactly the encoding at the start of a large enough buffer, returns its length, and keeps the bytes behind it |
| Colfer.StorageItem.MarshalLen | components/device/devstore/Colfer.go:108-145 | reports the error exactly for a field or a record above the limit, and otherwise precisely the number of bytes `MarshalTo` writes |
| Colfer.StorageItem.MarshalBinary | components/device/devstore/Colfer.go:149-157 | the encoding, or nothing and `ColferMax` |
| Colfer.StorageItem.TakeUvarint | components/device/devstore/Colfer.go:172-190 | the accumulator holds the exact value of all groups modulo 2^64, however long the padding, or the data ran out |
| Colfer.StorageItem.TakeMagnitude | components/device/devstore/Colfer.go:208-230 | reads at most nine bytes to their exact 64-bit value and never past the data |
| Colfer.StorageItem.Unmarshal | components/device/devstore/Colfer.go:161-315 | terminates on every byte string with every index in range; receiver (also after an error), count and error are those of the format |
| Colfer.StorageItem.UnmarshalBinary | components/device/devstore/Colfer.go:319-325 | adds the complaint about a tail to what `Unmarshal` reports |
| ColferLaws.RoundTrip | components/device/devstore/Colfer.go:52-315 | any item, receiver and tail: below the limit decoding gives the fields back and consumes exactly the encoding; from the limit on it reports `ColferMax` |
| ColferLaws.RoundTripFresh | components/device/devstore/Colfer.go:52-315 | a fresh receiver gets exactly the item that was marshalled |
| ColferLaws.LimitGap | components/device/devstore/Colfer.go:141-313 | an item can be marshalled but not unmarshalled if and only if its encoding has exactly 1024 bytes |
| ColferLaws.SuccessShape | components/device/devstore/Colfer.go:304-309 | on success 1 <= n <= len(data), n < 1024, and the last byte read is 0x7f |
| ColferLaws.SelfDelimiting | components/device/devstore/Colfer.go:161-315 | success depends only on the bytes consumed: any data that begins with them decodes to the same result |
| ColferLaws.PrefixIsEof | components/device/devstore/Colfer.go:310-314 | every strict prefix of a record gives `io.EOF`, for any receiver |
| ColferLaws.TailReported | components/device/devstore/Colfer.go:319-325 | `ColferTail` with the length of the record exactly if something follows it |
| ColferLaws.BlameIsExact | components/device/devstore/Colfer.go:299-309 | `ColferError(k)` names the byte to blame: it is no end mark, and with an end mark in its place the data before it are a record of the same item |
| ColferLaws.FailureShape | components/device/devstore/Colfer.go:310-315 | a failure reads nothing, and data of 1024 bytes or more are never just too short |
| ColferLaws.MissingText | components/device/devstore/Colfer.go:191-204 | a text that is missing behind its size: too large, record too large, or cut short, in numbers |
| ColferLaws.KnownRecords | components/device/devstore/Colfer.go:52-104 | some records byte by byte: headers, sizes, signs and the end mark |
| ColferLaws.SmallestTimestamp | components/device/devstore/Colfer.go:71-86 | the smallest int64 is written as the negative header and nine bytes |
| ColferLaws.PrefixFree | components/device/devstore/Colfer.go:52-104 | if one encoding begins another, the items are equal and nothing follows |
| ColferLaws.Normalisation | components/device/devstore/Colfer.go:108-315 | whatever decodes can be marshalled again, to no more bytes than were read, and decodes to the same item; padded sizes and timestamps that flip their sign included |
| Registry.CacheStore.constructor | components/device/devstore/cache_store.go:68-91 | in any order of the bucket: a node, field by field, for every entry that decodes and has a usable URI, the others deleted one by one unless the bucket refused, and exactly the `.local` hosts of the nodes become known |
| Registry.CacheStore.RestoreNodes | components/device/devstore/cache_store.go:215-226 | the walk restores exactly the restorable entries, collects the others, and makes the hosts of the restored known |
| Registry.CacheStore.RestoreNode | components/device/devstore/cache_store.go:245-261 | one entry becomes a node exactly if it decodes and its URI is accepted |
| Registry.CacheStore.RemoveUnrestored | components/device/devstore/cache_store.go:231-242 | every unrestorable entry is asked to be deleted once, and stays if and only if the bucket refused then |
| Registry.CacheStore.NewNode | components/device/devstore/cache_store.go:263-282 | a node results if and only if the URL parses, its scheme is http or https and its port is not empty; which error otherwise; its host becomes known if and only if the URI contains `.local` |
| Registry.CacheStore.Add | components/device/devstore/cache_store.go:129-168 | which error, in order, from the state, the URL, the sizes and the answer of the bucket; what record, node and host result; whether the node reports to the monitor |
| Registry.CacheStore.Remove | components/device/devstore/cache_store.go:171-193 | `DbFailed` if and only if the bucket refuses in this call; otherwise record, host with its address, and node go; a runner that was never started is joined for ever, with record and host gone |
| Registry.CacheStore.Start | components/device/devstore/cache_store.go:99-110 | every runner is started once more |
| Registry.CacheStore.Stop | components/device/devstore/cache_store.go:113-126 | the nodes go, and their hosts with their addresses; the database stays; hangs if and only if some runner was never started, in any order of the map |
| Registry.CacheStore.GetDesc | components/device/devstore/cache_store.go:196-213 | exactly the cached devices, each once, in any order, with the type, description, creation text and ID of its own node, field by field |
| Registry.CacheStore.HandleRegistration | components/device/devcore/id_holder.go:37-50 | the ID of a handed-over registration is the one that is listed from now on |
| RegistryLaws.NewAgrees | components/device/devstore/cache_store.go:215-243 | construction makes map and database agree from any database; every restorable entry is kept; equal key sets if all deletions succeed |
| RegistryLaws.StepAgrees | components/device/devstore/cache_store.go:129-193 | every call keeps the agreement, whichever database operation fails, and even if it hangs |
| RegistryLaws.RunAgrees | components/device/devstore/cache_store.go:99-193 | so does every sequence of calls |
| RegistryLaws.RestoredIff | components/device/devstore/cache_store.go:245-261 | an entry is restorable if and only if it has a node with an encoding below the limit, and gives that node |
| RegistryLaws.RestartLists | components/device/devstore/cache_store.go:68-91 | a new store on an agreeing database lists exactly the devices below the limit, with their type, description and creation text, and no ID yet |
| RegistryLaws.RestartPreserves | components/device/devstore/cache_store.go:68-261 | the same for whole lives: any database, any calls with any failures, `Stop`, new store; if a call hangs at most one device is lost, and its removal was asked for |
| RegistryLaws.LostWasRemoved | components/device/devstore/cache_store.go:180-186 | in every history a cached device without a record is one whose removal was asked for |
| RegistryLaws.IdIsLatest | components/device/devcore/id_holder.go:26-50 | the ID in the listing is the one handed over last since the device was added or restored |
| RegistryLaws.RestartIdempotent | components/device/devstore/cache_store.go:215-243 | what one start restores, every later start restores |
| RegistryLaws.FullRecordIsLost | components/device/devstore/cache_store.go:144-163 | an added and listed device with a record of 1024 bytes is neither listed nor in the database after a restart |
| RegistryLaws.StartOnce | components/device/devstore/cache_store.go:99-163 | after `Start`, adds and removes keep every runner started exactly once, and none of them hangs |
| RegistryLaws.EarlyAddStartsTwice | components/device/devstore/cache_store.go:103-159 | calls before `Start` break "started once" if and only if an added device is still there or a call hangs |
| RegistryLaws.EarlyRemoveHangs | components/system/syssched/async_task_runner.go:63-67 | before `Start` a removal hangs if and only if the device was restored, not added |
| RegistryLaws.NewKnowsHosts | components/device/devstore/cache_store.go:393-412 | after construction the host of every `.local` URI is known |
| RegistryLaws.AddKnowsHosts | components/device/devstore/cache_store.go:393-412 | adding keeps that, whatever fails |
| RegistryLaws.RemoveKnowsHosts | components/device/devstore/cache_store.go:405-409 | removing keeps it if and only if no other `.local` URI names the same host |
| RegistryLaws.StopForgetsHosts | components/device/devstore/cache_store.go:113-126 | a stop that returns forgets exactly the hosts of its `.local` devices |
| RegistryLaws.RunFits | components/device/devstore/cache_store.go:399-411 | in every history a node is reached through the resolve cache if and only if its URI contains `.local` |
| AliveMonitor.StoreAliveMonitor.constructor | components/device/devstore/store_alive_monitor.go:28-43 | the restored devices are the registered ones, each with a clock reading of its own; none was started or reports its polls yet |
| AliveMonitor.StoreAliveMonitor.Add | components/device/devstore/store_alive_monitor.go:54-65 | the answer is that of the store, the table gets one clock reading behind a successful add and nothing else; a call that does not return keeps the mutex |
| AliveMonitor.StoreAliveMonitor.Remove | components/device/devstore/store_alive_monitor.go:68-79 | the answer is that of the store, the table loses the device behind a successful removal and nothing else; a call that does not return keeps the mutex |
| AliveMonitor.StoreAliveMonitor.NotifyAlive | components/device/devstore/store_alive_monitor.go:123-128 | the device is refreshed, registered or not |
| AliveMonitor.StoreAliveMonitor.PollSucceeded | components/system/syssched/task_alive_notifier.go:18-26 | a poll without error refreshes its device if and only if the node was made with a notifier |
| AliveMonitor.StoreAliveMonitor.Run | components/device/devstore/store_alive_monitor.go:92-115 | in any order of the map, with a clock reading for every device looked at: table and store lose exactly those inactive at their own reading, and the first removal that the store does not carry out ends the sweep with its error, `DbFailed` only if the bucket refused |
| AliveMonitor.HealthySweep | components/device/devstore/store_alive_monitor.go:92-115 | if the bucket refuses nothing, the store does not hang and every device found inactive is registered and started, a sweep ends without an error and all of them are gone from table, registry and database |
| AliveMonitor.TableIsHistory | components/device/devstore/store_alive_monitor.go:54-128 | in every history registered devices are monitored, the table holds the latest add, restore, poll or notification, and a device reports its polls if and only if its node was made when the store knew the monitor |
| AliveMonitor.MonitoredAreRegistered | components/device/devstore/store_alive_monitor.go:123-128 | the two sets are equal if only registered devices notify and the store is not stopped |
| AliveMonitor.SweepInvariant | components/device/devstore/store_alive_monitor.go:92-115 | when the latest sweep without error began, no device that is monitored now had been silent for the limit |
| AliveMonitor.BoundedStaleness | components/device/devstore/store_alive_monitor.go:92-121 | with good sweeps at most `gap` apart over a run, construction being the first, every monitored device was heard of less than limit + gap ago, at every moment of the run |
| AliveMonitor.NoFalseEviction | components/device/devstore/store_alive_monitor.go:96-112 | a swept device was not restored, added, polled or notified within the limit before its own clock reading, in any history |
| AliveMonitor.RefreshedIsKept | components/device/devstore/store_alive_monitor.go:99-102 | a device whose latest refresh, restoration included, is less than the limit before its own reading stays monitored and registered |
| AliveMonitor.SweepIsExact | components/device/devstore/store_alive_monitor.go:92-115 | what a good or failing sweep removes from table and store, in both directions |
| AliveMonitor.PhantomBlocksSweeps | components/device/devstore/store_alive_monitor.go:107-109 | in every history a device that is monitored but not registered stays so with its time until it is added or notified, and once inactive makes every sweep fail |
| AliveMonitor.GoodSweepPossibleIff | components/device/devstore/store_alive_monitor.go:92-115 | at any time a sweep without error can begin if and only if the monitor's mutex is free and every device that is inactive then is registered and was started, in a store that does not hang |
| AliveMonitor.UnstartedBlocksSweeps | components/system/syssched/async_task_runner.go:63-67 | on a store that was not started, an inactive restored device leaves no good sweep |
| AliveMonitor.PhantomsArise | components/device/devstore/store_alive_monitor.go:123-128 | two histories that reach such a device: a notification for an unregistered URI, and a stopped store |
| AliveMonitor.PollsKeep | components/device/devstore/cache_store.go:384-388 | a device that reports its polls and is polled within the limit of every sweep is kept by any history of sweeps |
| AliveMonitor.PolledIsKeptIff | components/device/devstore/cache_store.go:384-390 | over any history in which a device is polled in time for every sweep, it is kept if and only if its node was made when the store knew the monitor |
| AliveMonitor.ActiveRestoredIsSwept | projects/main/main.go:160-198 | a restored device polled at the very moment of the sweep is removed by it |
| MonitorLock.RemovalReturnsIff | components/device/devstore/store_alive_monitor.go:68-79 | a removal that joins a runner can still return if and only if the runner is not waiting for the monitor's mutex |
| MonitorLock.RemovalDeadlocksIff | components/device/devstore/store_alive_monitor.go:68-128 | a removal that begins can deadlock if and only if the device has a notifier and its goroutine has not left |
| MonitorLock.DeadlockIsForEver | components/device/devstore/store_alive_monitor.go:123-128 | behind a deadlock, in every continuation, no removal returns and no add, removal, sweep or notification gets the mutex |
| MonitorLock.DeadlockIsReachable | components/device/devstore/store_alive_monitor.go:123-128 | the history that gets there: a poll succeeds and the removal is faster than the notifier |
| ResolveCache.ResolveStore.HandleResolve | components/system/sysnet/resolve_store.go:34-57 | unknown hosts change nothing; a known one gets the address unless its text is the same, and the slot is filled in either case |
| ResolveCache.ResolveStore.Add | components/system/sysnet/resolve_store.go:72-77 | the host becomes known; addresses and the slot stay |
| ResolveCache.ResolveStore.Remove | components/system/sysnet/resolve_store.go:80-86 | host and address go; the slot stays |
| ResolveCache.ResolveStore.GetAddr | components/system/sysnet/resolve_store.go:88-98 | the cached address, if there is one |
| ResolveCache.CacheIsLatest | components/system/sysnet/resolve_store.go:34-86 | in every history the cache holds, up to the text, the latest address of exactly the hosts resolved since they became known |
| ResolveCache.AnswersWereRecorded | components/system/sysnet/resolve_store.go:63-98 | an address `Resolve` returns was recorded for that very host |
| ResolveCache.TokenIsNews | components/system/sysnet/resolve_store.go:53-56 | the slot is full if and only if a known host was resolved since a token was last taken |
| ResolveCache.StrandedOnlyByOthers | components/system/sysnet/resolve_store.go:100-110 | a waiter for a resolved host finds the token unless another goroutine was woken since it began |
| ResolveCache.SingleWaiterIsServed | components/system/sysnet/resolve_store.go:63-110 | with no other goroutine woken, the waiter can be woken and gets the address |
| ResolveCache.NoDataIff | components/system/sysnet/resolve_store.go:100-110 | in every history a waiter ends without an address before its time if and only if its host was not resolved when it looked again behind a token it had taken |
| ResolveCache.WaiterIsHistory | components/system/sysnet/resolve_store.go:63-110 | what a goroutine in `Resolve` does over every history: when it answers at once or behind a token, with which address, when it waits, gets nothing or gives up |
| ResolveCache.WokenForAnother | components/system/sysnet/resolve_store.go:53-110 | from every state with a waiter: another host is resolved, the waiter takes the token and gets nothing |
| ResolveCache.StrandedIffOthersWait | components/system/sysnet/resolve_store.go:63-110 | without newcomers, a waiter that is not stranded can be stranded by some continuation if and only if another goroutine is waiting |
| ResolveCache.WrongWaiterWakes | components/system/sysnet/resolve_store.go:100-110 | from every state with two waiters: the host of one is resolved, the other one takes the token, the first keeps waiting |
| TaskRunner.AsyncTaskRunner.Start | components/system/syssched/async_task_runner.go:56-60 | one more goroutine |
| TaskRunner.AsyncTaskRunner.Awake | components/system/syssched/async_task_runner.go:70-75 | the slot is full afterwards, whether or not it was |
| TaskRunner.AsyncTaskRunner.Take | components/system/syssched/async_task_runner.go:77-103 | what each branch of the select does to slot, goroutine and join channel |
| TaskRunner.AsyncTaskRunner.RunTask | components/system/syssched/async_task_runner.go:105-115 | when a task result ends the loop, and what it leaves in slot, goroutine and join channel; a recovered panic is a success |
| TaskRunner.NoLostWakeup | components/system/syssched/async_task_runner.go:70-103 | behind every `Awake` of a history a task has started, or the token is still in the slot |
| TaskRunner.WakesBounded | components/system/syssched/async_task_runner.go:70-97 | runs caused by wake-ups, plus a waiting token, never exceed the calls of `Awake` |
| TaskRunner.OneStart | components/system/syssched/async_task_runner.go:77-115 | started once: the join channel is closed if and only if the goroutine has left, only after a cancel or a wanted success, and never twice |
| TaskRunner.EndedIff | components/system/syssched/async_task_runner.go:77-115 | started once: the runner has ended if and only if it saw the cancel or a wanted success; it ends behind the first one, and behind no other result |
| TaskRunner.QuietAfterJoin | components/system/syssched/async_task_runner.go:62-103 | after `Stop` has returned no task runs or starts |
| TaskRunner.CrashIsSecondExit | components/system/syssched/async_task_runner.go:56-78 | for any number of starts the first goroutine to leave closes the channel, and the process dies when a second one leaves |
| TaskRunner.CrashIffStartedTwice | components/system/syssched/async_task_runner.go:56-78 | in every reachable state some continuation without another start dies of a second close if and only if the runner was started more than once |
| Fleet.RunnersAreLawful | components/device/devstore/cache_store.go:99-193 | in every history of restore, start, add, remove, stop and cancel, each runner is in a state that its own history explains |
| Fleet.RegistryCountsStarts | components/device/devstore/cache_store.go:103-163 | the registry's count is the number of starts in the history of the cached device's runner |
| Fleet.StoreIsRun | components/device/devstore/cache_store.go:99-193 | up to a stop the registry is in the state that its calls take it to, however they interleave with the goroutines |
| Fleet.StartedOnceOrTwice | components/device/devstore/cache_store.go:99-163 | New, calls, `Start`, calls, `Stop`: every runner that ever exists was started exactly once, but twice if and only if its device was added before `Start` and was still there |
| Fleet.ListedIsCancelledIff | components/device/devstore/cache_store.go:295-295 | in every history a cached device has been told to stop if and only if the parent context was cancelled or its removal or the stop has begun, and its runner has not ended before |
| Fleet.NoPollAfterJoin | components/device/devstore/cache_store.go:180-190 | behind a join by `Remove` or `Stop`, a runner started once never polls again; one started twice polls or can |
| Fleet.QuietInLife | components/device/devstore/cache_store.go:440-448 | over the life of a store: no poll behind a removal or a stop, if and only if the device was not added before `Start` |
| Fleet.NoPollAfterStop | components/device/devstore/cache_store.go:113-126 | once `Stop` has returned, no runner that was there, restored, added or removed, polls again unless it was started twice |
| Fleet.CanDieIffAddedEarly | components/device/devstore/cache_store.go:103-159 | once started, the process can die of a second close if and only if a device added before `Start` was there at `Start` |
| AwakeStores.AwakeStore.Add | components/device/devstore/awake_store.go:20-27 | the browser is woken exactly behind a successful add |
| AwakeStores.AddIsBrowsed | components/device/devstore/awake_store.go:20-27 | in every history of the store and the browser, behind every successful add a browse has started or its token is waiting |
| Clocks.SystemClockRestorer.SetTimestamp | components/storage/stcore/system_clock_restorer.go:34-49 | the larger of the two times, and restored from now on |
| Clocks.SystemClockRestorer.GetTimestamp | components/storage/stcore/system_clock_restorer.go:52-61 | an error until restored |
| Clocks.SystemClockRestorer.Run | components/storage/stcore/system_clock_restorer.go:71-91 | the persisted time is taken only if nothing came first; no data counts as restored |
| Clocks.DataHandler.HandleData | components/storage/stinfluxdb/data_handler.go:54-77 | which error, in order; the clock advances exactly behind a successful write of a numeric timestamp |
| Clocks.SystemClockSynchronizer.SyncTime | components/system/syscore/system_clock_synchronizer.go:33-74 | each result if and only if its guard holds, in terms of what can be read and set; the device gets the local time exactly if nothing is in the way, or by a call whose answer is lost, and never goes back or behind the restorer |
| Clocks.DriftAcceptsIff | components/device/devcore/drift_time_verifier.go:28-52 | in numbers: a time is accepted if and only if it is not negative, the local clock can be read, and it is not behind, or behind by at least a second less than the limit in nanoseconds |
| Clocks.BasicAcceptsIff | components/device/devcore/basic_time_verifier.go:4-9 | exactly the positive times are accepted |
| Clocks.StepsAreSyncTime | components/system/syscore/system_clock_synchronizer.go:33-74 | without interference the interleaved steps set the device exactly if `SyncTime` does, and to the same value |
| Clocks.RejectedIsNotAhead | components/device/devcore/drift_time_verifier.go:28-52 | a rejection by a readable nonnegative clock rules out the device-ahead guard of the synchronisation that follows |
| Clocks.SyncedIsAccepted | components/device/devcore/drift_time_verifier.go:40-42 | the value set is accepted if and only if the local clock has not advanced, or by at least a second less than the limit, in nanoseconds |
| Clocks.RestorerIsRunningMaximum | components/storage/stcore/system_clock_restorer.go:34-91 | in every interleaving the value shown is the maximum of everything published and of the first restoring value |
| Clocks.ObservableNeverDecreases | components/storage/stcore/system_clock_restorer.go:34-91 | between any two moments of any history the value shown does not decrease |
| Clocks.PersistedIsCovered | components/storage/stcore/system_clock_restorer.go:80-85 | the value covers what an earlier process persisted if and only if a read brought as much before any data came, or data as late came; whatever the storage answers |
| Clocks.RestoredTooLate | components/storage/stcore/system_clock_restorer.go:80-85 | the history in which earlier data hides a later persisted time |
| Clocks.ForwardOnly | components/system/syscore/system_clock_synchronizer.go:33-74 | in every interleaving of writers, restorer and synchronisations a device is set to no less than its own reading and than every time whose handling had returned before the last-time read |
| Clocks.UnpublishedIsNotCovered | components/storage/stinfluxdb/data_handler.go:72-76 | for every later time that is written but not yet published there is a history that sets the device to an earlier one |
| PollDevices.PollDevice.Run | components/device/devcore/poll_device.go:45-73 | the observable calls of one poll, in order, for every answer of the surroundings |
| PollDevices.PollDevice.FetchRegistration | components/device/devcore/poll_device.go:75-97 | the ID is latched before the time is checked, and stays latched when the check fails |
| PollDevices.PollDevice.ValidateTimestamp | components/device/devcore/poll_device.go:119-141 | succeeds if and only if the time is a number the verifier accepts; a rejected one leads to one synchronisation and fails even behind a good one; a missing one leads to none |
| PollDevices.PollDevice.ParseDeviceID | components/device/devcore/poll_device.go:143-170 | succeeds if and only if the ID is a text and none or the same is latched; it is latched then |
| PollDevices.PollIs | components/device/devcore/poll_device.go:45-170 | all that one poll does, in order, from the objects, the verifier and the outcomes of the handlers |
| PollDevices.PollShape | components/device/devcore/poll_device.go:45-73 | nothing, or one synchronisation, or a registration alone because it failed, or registration then telemetry |
| PollDevices.HandOverIff | components/device/devcore/poll_device.go:45-141 | data is handed over if and only if the ID fits and both times are accepted in this poll; which object, ID and outcome |
| PollDevices.SyncIff | components/device/devcore/poll_device.go:119-138 | a synchronisation is tried if and only if a time that was reached is present and rejected; none if it is disabled |
| PollDevices.PollSyncsForward | components/device/devcore/poll_device.go:130-135 | a poll that sets the clock sets it to the local time, behind neither the last nor the device's time |
| PollDevices.LatchedForever | components/device/devcore/poll_device.go:154-167 | a latched ID never changes |
| PollDevices.HandedIds | components/device/devcore/poll_device.go:60-66 | every ID handed over in a device's life is empty or the one latched in the end |
| PollDevices.OneIdentity | components/device/devcore/poll_device.go:60-167 | all non-empty IDs ever handed over are equal, and no empty one follows |
| PollDevices.RejectionIsRepaired | components/device/devcore/poll_device.go:75-141 | a rejected time, of the registration or of the telemetry, leads to a synchronisation that only the persisted time and the call itself can stop; afterwards the device is accepted again for exactly the drift limit |
| Discovery.Service.AddTxtRecord | components/system/sysmdns/service.go:30-32 | appends the printed pair |
| Discovery.ParseTxtRecords | components/device/devstore/store_mdns_handler.go:104-125 | later bindings win; one malformed record fails the whole list |
| Discovery.ParsesIffPrinted | components/device/devstore/store_mdns_handler.go:107-121 | a record binds a pair if and only if it is the print of it with clean parts |
| Discovery.TxtRoundTrip | components/device/devstore/store_mdns_handler.go:104-125 | parsing the printed pairs gives the map with the last binding of every key, and records without "=" change nothing |
| Discovery.ParseFailsIff | components/device/devstore/store_mdns_handler.go:112-119 | parsing fails if and only if a record with "=" is not the print of a clean pair |
| Discovery.ModeTexts | components/device/devstore/store_mdns_handler.go:127-141 | the mode is "add" if and only if the text is a 1 after an optional plus sign and any zeros |
| Discovery.StoreMdnsHandler.HandleService | components/device/devstore/store_mdns_handler.go:26-85 | what a service does to the registry, and that an existing device is no error |
| Discovery.RequestIff | components/device/devstore/store_mdns_handler.go:26-62 | a device is asked for if and only if the records are prints of clean pairs whose last bindings are the add mode and this URI, type and description |
| Discovery.ComplaintIff | components/device/devstore/store_mdns_handler.go:27-44 | when records or mode are complained about: a record mentions the mode and some record is malformed, or the mode is another one |
| Discovery.Bytes | components/device/devstore/store_mdns_handler.go:46-61 | the texts reach the store byte by byte |
| Discovery.IgnoringIsSound | components/device/devstore/store_mdns_handler.go:94-102 | the quick test drops no service that names a mode |
| Discovery.AdvertisedIsRequested | components/device/devstore/store_mdns_handler.go:26-62 | printing mode, URI, type and description, among other records, asks for exactly that device |
| Discovery.RediscoveryIsIdle | components/device/devstore/store_mdns_handler.go:78-85 | a second announcement of a device leaves the registry as it was |
| Discovery.DiscoveredSurvivesRestart | components/device/devstore/store_mdns_handler.go:26-85 | an announced device is listed unchanged after other calls and a restart, if and only if its encoding is below the limit |

## Left out

- Go's `uint` and `int` are taken as 64 bits wide, as on the platforms the hub is built for; on 32 bits a padded size would be cut at 2^32.
- Colfer.StorageItem.Unmarshal: the gotos to the common end are returns of an end function, and the three fields are three methods; the branches and errors are those of the source.
- `url.Parse` is any function from URIs to scheme, host name and port; `time.Format` is any function from seconds to texts: the time zone does not change.
- `NoopDB`: the database model is a bucket whose transactions happen or fail as a whole.
- Contexts that `makeNode` creates and a failing `Add` never cancels.
- `Fleet` counts the registry's part of a removal when it returns: record and host go earlier, behind the mutex.
- AliveMonitor.StoreAliveMonitor.Run: is one atomic step; that a runner may wait for the monitor's mutex while the sweep joins it is the subject of `MonitorLock`.
- The monitor's store is the registry itself; the wake-up of `AwakeStore` between them is modelled on its own, in `AwakeStores`.
- Fairness and timing of `select`, tickers and timeouts: any branch that is ready may be taken.
- `ResolveCache` models `Resolve` as steps of goroutines (first look, wake-up, second look, timeout); only the methods that hold the mutex are class methods.
- Conversion of a JSON float to an `int64` is part of the input (`Json.Value.Number`), since Go leaves it open outside the range; so is the float division in `Duration.Seconds`, taken as exact.
- JSON parsing, HTTP, the InfluxDB query, mDNS packets, `settimeofday`: calls that may answer anything.
- The fan-out starter and stopper, crash task and alive notifier are one-branch wrappers; their effect is part of the larger steps.
- Discovery strings use one character per byte of the Go string.
- Texts of errors and log output.
- Wiring, command line, HTTP handlers, Docker files and dashboards.
