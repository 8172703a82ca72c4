# Verified models of the hand-written core

This project models, in Dafny, the parts of the repository that carry real state, and proves what they promise:

- the vendored `napi` crate: shared ownership of buffers and typed arrays (`OwnedMemory`), the JS references behind
  them and the custom GC (`JsReference`), the threadsafe function handle (`ThreadsafeFunction`), references to class
  instances (`ClassReference`), async tasks with abort signals (`AsyncTask`), BigInt words (`BigIntWords`), and
  `serde_json` values (`JsonValue`);
- the host process and TCP bridge of the 16.0 patch series: byte streams (`ByteRx`, `HostPool`, `HostPoolBytes`), the
  exit latch (`ExitLatch`, and with the bridge `HostPoolLatches`), connections (`HostPoolConns`), ids and registries
  (`HostPoolIds`, `HostPoolRegistries`), the actions sent to the host (`HostPoolActions`), what arrives where
  (`HostPoolDelivery`) and the calls themselves (`HostPoolCalls`);
- the vendored `swc` pass that shifts the comments of dropped nodes (`DroppedComments`, over `StableSort`).

`Machine` holds runs of step machines, `Handles` and `Sequences` a few facts about maps and sequences.

A concurrent protocol is a step function `(state, event) -> Option<state>` in which each atomic access, lock region or
N-API call is one step. A theorem over every list of events is a theorem over every interleaving. Beside it stands,
where the source updates fields in place, a class whose methods are the source's operations; each is proved to be a
run of the steps (or to reach the state of one) and to keep the invariant the theorems rest on, so that calls can
follow one another in any order. The bridge's object carries the steps its calls amount to and is valid when they lead
to its fields.

`dafny verify dfyconfig.toml` checks everything. Times in a run are not modelled, only order.

## Where the code and what is said about it differ

The models follow the code.

- `BigInt::get_i128` and `get_u128` are documented to return true when the value is lossless
  (`vendor-crates/napi/src/bindgen_runtime/js_values/bigint.rs:101-104`); they return true when words were cut off
  (`BigIntWords.PlainFlagExact`, `PlainUnsignedFlagExact`, `PlainFlagIsInverted`).
- The bridge says its ids meet after about two billion allocations at each end; what counts is the sum,
  3*spawns + binds + connections, against 2^32 (`HostPoolRegistries.IdsDistinctIffWithin`, `TheEndsMeet`).
- `JsBigInt::get_i128` reports no loss for two words of magnitude 2^127 or more, although the value is wrong
  (`BigIntWords.JsLossFlagExact`).
- An external typed array promises to call its owner's notifier; after an export by `&mut` the notifier of the
  exported handle is a no-op, and if that handle is the last, the owner is never told
  (`OwnedMemory.GivenBackIffLastReadWasAlone`, `MutExportLosesTheNotifier`).
- `custom_gc` refuses a thread whose entry is marked removed, the drop of a buffer does not
  (`JsReference.DropTouchesRemovedThreadIff`, `RemovedThreadTouches`); nor does it ask whose environment the reference
  belongs to (`DropTouchesElsewhereIff`, `ForeignThreadTouches`).
- `complete` hands `Task::resolve` an output nobody computed, when the work was cancelled before a worker took it
  (`AsyncTask.ZeroedOutputIsResolvedOnlyForDequeuedWork`, `AbortedInQueueResolvesZeroed`).
- A promise is settled twice when the abort fires from the conversion of the output or from `finally`, since `complete`
  reads the status before them and stores 1 after (`AsyncTask.SettledTwiceIff`, `AbortFromFinallySettlesTwice`,
  `AbortFromConversionSettlesTwice`).
- A weak class reference reads as alive after a `finalize` that returned an error, and from inside the finalizer
  (`ClassReference.WeakUpgradeExact`, `UpgradeWhileUnwindingDangles`).
- A negative integer made into a BigInt by `From<i64>`, or sent as `i128`, carries two's-complement words beside its
  sign and denotes another number, save for the least one (`BigIntWords.FromI64DenotesIff`, `I128ArrivesIff`); so does
  a JSON integer below the safe range (`JsonValue.BigIntArrivesIff`).

## Model

| member | source | states |
|---|---|---|
| `OwnedMemory.FreedAtMostOnceAndNeverInUse` | vendor-crates/napi/src/bindgen_runtime/js_values/arraybuffer.rs:80-146 | Over every interleaving of clones, exports, two-step drops and finalizers, an allocation is given back at most once, and then at most one handle is left, on its way out: no usable Rust handle and no live JS external buffer. The strong count is the number of handles, and a boxed typed-array hint implies `drop_in_vm`. |
| `OwnedMemory.HandlesByEvents` | vendor-crates/napi/src/bindgen_runtime/js_values/arraybuffer.rs:387-413 | In every run, from its events alone: which handles exist, which Rust can still use, and which are hints of a live JS buffer. A boxed export makes a hint, nothing else does, and it stays one until its end begins; an empty allocation is never boxed. |
| `OwnedMemory.BoxedMemoryStays` | vendor-crates/napi/src/bindgen_runtime/js_values/buffer.rs:356-367 | A handle the run has boxed and not begun to finalize is a live JS buffer over memory not given back; it can be finalized, but Rust can neither clone nor drop it. |
| `OwnedMemory.GivenBackIffLastReadWasAlone` | vendor-crates/napi/src/bindgen_runtime/js_values/buffer.rs:128-180 | For every finished run, overlapping drops included: the memory was freed, or its owner notified for real, if and only if the last handle to read the strong count was the only one left, was a typed-array finalizer or found the drop guard open, and does not carry the no-op notifier; with the no-op and otherwise the same condition, only the no-op ran. |
| `OwnedMemory.SerializedDropsGiveBackOnce` | vendor-crates/napi/src/bindgen_runtime/js_values/arraybuffer.rs:131-144 | When drops do not overlap, a finished family was freed, or its owner notified for real, exactly once if and only if it is a `Vec` buffer, or the last handle was a JS finalizer hint, or it has data and was never exported, and, for an external array, the last handle does not carry the no-op; the no-op ran if and only if it does. |
| `OwnedMemory.OverlappingDropsLeak` | vendor-crates/napi/src/bindgen_runtime/js_values/buffer.rs:128-131 | The non-overlap condition is needed: a run of two overlapping drops that both read 2 ends with nothing freed. |
| `OwnedMemory.FlagRecordsExport` | vendor-crates/napi/src/bindgen_runtime/js_values/arraybuffer.rs:387-413 | The shared `drop_in_vm` flag is set in a state exactly when some typed-array export happened on the way there. |
| `OwnedMemory.RealNotifierUnlessMutExport` | vendor-crates/napi/src/bindgen_runtime/js_values/arraybuffer.rs:450-472 | Without any export by `&mut` the no-op never runs; when exactly it does is the second half of `GivenBackIffLastReadWasAlone`. |
| `OwnedMemory.NoopComesFromMutExport` | vendor-crates/napi/src/bindgen_runtime/js_values/arraybuffer.rs:450-472 | A handle carries the no-op if and only if the run made it by an export by `&mut`, or cloned it from one that it did. |
| `OwnedMemory.LastIsMuteIff` | vendor-crates/napi/src/bindgen_runtime/js_values/arraybuffer.rs:450-472 | So the excluded case, in events: an external array whose last handle to go comes from an export by `&mut`. |
| `OwnedMemory.MutExportLosesTheNotifier` | vendor-crates/napi/src/bindgen_runtime/js_values/arraybuffer.rs:604-628 | It happens: an external array exported by `&mut`, no drops overlapping, the last handle a JS finalizer hint; the no-op runs and the owner is never told. |
| `OwnedMemory.DropIsThreeSteps` | vendor-crates/napi/src/bindgen_runtime/js_values/arraybuffer.rs:80-146 | A drop nobody interferes with is the run read, act, decrement of the machine the interleaving theorems are about. |
| `OwnedMemory.FinalizerIsTwoSteps` | vendor-crates/napi/src/bindgen_runtime/js_values/arraybuffer.rs:604-628 | The typed-array finalizer is the run read, act, ahead of the drop of its local handle. |
| `OwnedMemory.Family.constructor` | vendor-crates/napi/src/bindgen_runtime/js_values/arraybuffer.rs:194-244 | A fresh family: one idle Rust handle, count 1, flag clear, nothing released. |
| `OwnedMemory.Family.CloneHandle` | vendor-crates/napi/src/bindgen_runtime/js_values/arraybuffer.rs:246-259 | A clone is one step of the machine: the same fields, one more handle, one more on the count. |
| `OwnedMemory.Family.DropHandle` | vendor-crates/napi/src/bindgen_runtime/js_values/buffer.rs:128-180 | The in-place drop of one handle reaches exactly the state of the machine's drop. |
| `OwnedMemory.Family.GiveBack` | vendor-crates/napi/src/bindgen_runtime/js_values/arraybuffer.rs:131-143 | Frees an owned vector, runs an external one's notifier, real or no-op. |
| `OwnedMemory.Family.ToNapiValue` | vendor-crates/napi/src/bindgen_runtime/js_values/buffer.rs:347-386 | Export by value boxes the handle exactly when there is data and the host allows external buffers, and it is then the hint of a live JS buffer; otherwise JS gets a copy and the handle is dropped. |
| `OwnedMemory.Family.Finalize` | vendor-crates/napi/src/bindgen_runtime/js_values/arraybuffer.rs:604-628 | The JS finalizer releases only when alone, then drops its handle; a Buffer's finalizer is just the drop. |
| `JsReference.OneFate` | vendor-crates/napi/src/bindgen_runtime/js_values/buffer.rs:128-180 | Over every interleaving with registration, removal and finalization of the custom GC: at most one fate, at most one delete, no call on a deleted reference, every unref reports 0, the count is 1 until a fate is met, and every drop-path and custom-GC unref or delete is on a thread that has an entry, possibly one marked as removed. |
| `JsReference.DropTouchesRemovedThreadIff` | vendor-crates/napi/src/bindgen_runtime/js_values/buffer.rs:136-150 | An undisturbed drop unrefs or deletes on a removed thread if and only if its thread is marked removed, it is the last handle and has the reference, and the custom GC is not destroyed: the drop asks whether there is an entry, not what it says. |
| `JsReference.RemovedThreadTouches` | vendor-crates/napi/src/bindgen_runtime/js_values/buffer.rs:136-150 | It happens: the cleanup hook, then the last drop on the same thread; both calls come after the removal. |
| `JsReference.OrderlyTouchesAreLive` | vendor-crates/napi/src/bindgen_runtime/module_register.rs:608-613 | When a thread runs one thing at a time and no drop begins on a thread after its removal, every unref and delete is on a thread registered at that moment. |
| `JsReference.DropTouchesElsewhereIff` | vendor-crates/napi/src/bindgen_runtime/js_values/buffer.rs:136-150 | An undisturbed drop unrefs or deletes away from the thread of the reference's own environment if and only if it is the last handle and has the reference, the custom GC is not destroyed, and its thread has an entry but is another one. |
| `JsReference.CollectionTouchesOnGcThread` | vendor-crates/napi/src/bindgen_runtime/module_register.rs:645-672 | What is posted is unreffed and deleted on the thread that created the custom GC. |
| `JsReference.OneEnvironmentStaysHome` | vendor-crates/napi/src/bindgen_runtime/module_register.rs:590-602 | When only the reference's own environment registers, and made the custom GC, every unref and delete is on its thread, in every interleaving. |
| `JsReference.ForeignThreadTouches` | vendor-crates/napi/src/bindgen_runtime/js_values/buffer.rs:136-150 | It happens with two: after a second thread registers, the last drop there deletes a reference of the first. |
| `JsReference.UsableMeansAlive` | vendor-crates/napi/src/bindgen_runtime/js_values/buffer.rs:331-346 | A handle in use finds its reference alive with count 1; a finished drop body had read 1 exactly when a fate has been met. |
| `JsReference.FateByEvents` | vendor-crates/napi/src/bindgen_runtime/js_values/buffer.rs:134-158 | Which fate the reference meets, in every run, from its events alone: fast path exactly for an export that read 1; direct delete exactly for a last drop on a thread that has registered; posted exactly for an accepted post; abandoned exactly for a refused post, or a last drop that finds the custom GC finalized and the reference not given up by an export. |
| `JsReference.PostedIff` | vendor-crates/napi/src/bindgen_runtime/js_values/buffer.rs:144-157 | The reference is queued for the custom GC if and only if the run has an accepted post. |
| `JsReference.GlobalsByEvents` | vendor-crates/napi/src/bindgen_runtime/module_register.rs:590-637 | What a drop asks of the globals is what happened: the destroyed flag, the thread entries, and which of them are still registered. |
| `JsReference.HandlesByEvents` | vendor-crates/napi/src/bindgen_runtime/js_values/buffer.rs:128-180 | Which handles exist, and which are still in use: those made and not exported or dropped since. |
| `JsReference.FateOutcome` | vendor-crates/napi/src/bindgen_runtime/module_register.rs:645-672 | Once all handles are gone and the queue is empty, the reference was deleted exactly when its fate was the fast path, the direct delete, or a post the custom GC did not skip; in the last two cases after one unref to 0, with these two calls and no others. |
| `JsReference.SerializedDropsMeetOneFate` | vendor-crates/napi/src/bindgen_runtime/js_values/buffer.rs:128-180 | When drops do not overlap, a reference without handles has met exactly one fate. |
| `JsReference.DropIsARun` | vendor-crates/napi/src/bindgen_runtime/js_values/buffer.rs:128-174 | Each branch of the drop body, undisturbed, is a run of the machine. |
| `JsReference.ExportIsTwoSteps` | vendor-crates/napi/src/bindgen_runtime/js_values/buffer.rs:328-346 | So is the export of a buffer that came from JS. |
| `JsReference.CollectionIsARun` | vendor-crates/napi/src/bindgen_runtime/module_register.rs:645-672 | So is one item of the custom GC. |
| `JsReference.Reference.constructor` | vendor-crates/napi/src/bindgen_runtime/js_values/buffer.rs:318-325 | One handle over a fresh reference with count 1; its environment's thread and the custom GC's have registered. |
| `JsReference.Reference.RegisterThread` | vendor-crates/napi/src/bindgen_runtime/module_register.rs:590-602 | Registration is one step of the machine and keeps the invariant. |
| `JsReference.Reference.RemoveThreadId` | vendor-crates/napi/src/bindgen_runtime/module_register.rs:610-613 | Removal keeps the entry and marks it false. |
| `JsReference.Reference.CustomGcFinalize` | vendor-crates/napi/src/bindgen_runtime/module_register.rs:631-637 | Finalization of the custom GC function sets the destroyed flag. |
| `JsReference.Reference.CustomGc` | vendor-crates/napi/src/bindgen_runtime/module_register.rs:645-672 | One queued item: skipped on a removed thread, else unref to 0 and delete. |
| `JsReference.Reference.ToNapiValue` | vendor-crates/napi/src/bindgen_runtime/js_values/buffer.rs:331-346 | The last handle deletes the reference at once and is nulled; others leave it alone; the invariant is kept. |
| `JsReference.Reference.ConvertAndDrop` | vendor-crates/napi/src/bindgen_runtime/js_values/buffer.rs:328-346 | The conversion by value with the drop on return: for the last handle one delete, nothing posted, and the fate is the fast path. |
| `JsReference.Reference.DropOn` | vendor-crates/napi/src/bindgen_runtime/js_values/arraybuffer.rs:80-130 | The in-place drop on any thread: the last handle with the reference abandons it when the custom GC is finalized, deletes it on a registered thread, and elsewhere posts it, or abandons it when the post is refused; any other handle just goes. Its count assert holds, and it is the machine's drop. |
| `ByteRx.PollReadConserves` | patches-16.0/0016-turbopack-node-host-process-net-bridge-real-JS-evalu.patch:348-370 | A poll loses, repeats and reorders nothing; with room it reports zero bytes if and only if the sender is gone and all is delivered; it waits if and only if nothing is left and the sender is there. |
| `ByteRx.ReadsDeliver` | patches-16.0/0016-turbopack-node-host-process-net-bridge-real-JS-evalu.patch:348-370 | Any reads deliver a prefix and keep the rest; enough reads with room deliver everything. |
| `ByteRx.ReassemblyIsIndependentOfSizes` | patches-16.0/0016-turbopack-node-host-process-net-bridge-real-JS-evalu.patch:332-371 | The reassembled bytes depend neither on chunk sizes nor on buffer sizes. |
| `ByteRx.Reader.PollReadInto` | patches-16.0/0016-turbopack-node-host-process-net-bridge-real-JS-evalu.patch:348-370 | The loop over `pending` and `pos` computes the specified poll and terminates. |
| `ByteRx.Reader.constructor` | patches-16.0/0016-turbopack-node-host-process-net-bridge-real-JS-evalu.patch:339-346 | A new reader has nothing carried over. |
| `HostPool.BytesConserved` | patches-16.0/0016-turbopack-node-host-process-net-bridge-real-JS-evalu.patch:281-298 | On every channel, in every run: delivered, then carried and queued, equals what was accepted, in order. |
| `HostPool.EofIsFinal` | patches-16.0/0016-turbopack-node-host-process-net-bridge-real-JS-evalu.patch:292-296 | When a poll with room reports zero bytes, the reader has everything ever pushed, and no continuation changes that. |
| `HostPool.ReadDelivers` | patches-16.0/0016-turbopack-node-host-process-net-bridge-real-JS-evalu.patch:348-370 | In every run, every read of a live stream goes through, moves bytes from the undelivered to the delivered ones in order, at least one when there is room and something to deliver, and touches no other channel. |
| `HostPoolBytes.DeliversWhatWasPushed` | patches-16.0/0016-turbopack-node-host-process-net-bridge-real-JS-evalu.patch:281-298 | From the step that registers an id, while its registry entry and its reader are there: delivered, carried and queued bytes are the concatenation of the chunks the run pushed for that id. (That the entry is there is `HostPoolDelivery.NothingIsLost`.) |
| `HostPoolBytes.EofCutsNothing` | patches-16.0/0016-turbopack-node-host-process-net-bridge-real-JS-evalu.patch:292-296 | After the host's EOF, in every continuation, those same chunks are what the reader has and will get. (Without assuming the entry: `HostPoolDelivery.NothingIsLostBeforeEof`.) |
| `HostPoolBytes.RunPushes` | patches-16.0/0016-turbopack-node-host-process-net-bridge-real-JS-evalu.patch:286-291 | What a channel accepts over a run is exactly what the run pushed for its id. |
| `HostPoolBytes.StepIsQuiet` | patches-16.0/0016-turbopack-node-host-process-net-bridge-real-JS-evalu.patch:281-326 | No step but a push makes any channel accept a byte, revives a reader, or registers an old channel. |
| `HostPoolDelivery.NothingIsLost` | patches-16.0/0016-turbopack-node-host-process-net-bridge-real-JS-evalu.patch:281-326 | For a child's stdout and stderr and for a connection alike: after the step that registers the stream, in every continuation in which the ids have not run out, the host has not ended the stream and its reader is alive, delivered, carried and queued bytes are all the host pushed for the id since. |
| `HostPoolDelivery.NothingIsLostBeforeEof` | patches-16.0/0016-turbopack-node-host-process-net-bridge-real-JS-evalu.patch:292-296 | And once the host ends it, in every further continuation, those bytes, all pushed before the EOF, are what the reader has and will get. |
| `HostPoolDelivery.ToldIsRegistered` | patches-16.0/0016-turbopack-node-host-process-net-bridge-real-JS-evalu.patch:467-499 | In every run inside the id bound: what the host has been told of (a spawn call made, a connection of its own), has not ended and Rust still reads, is in the stream registry under its id, with its own channel. |
| `HostPoolDelivery.RunIsLater` | patches-16.0/0016-turbopack-node-host-process-net-bridge-real-JS-evalu.patch:467-482 | A stream once made keeps its id and its channel over every run, and EOFs accumulate. |
| `HostPoolDelivery.ReachableLinks` | patches-16.0/0016-turbopack-node-host-process-net-bridge-real-JS-evalu.patch:751-756 | In every run a connection that was dropped or refused has no reader. |
| `HostPoolDelivery.GoneForGood` | patches-16.0/0016-turbopack-node-host-process-net-bridge-real-JS-evalu.patch:751-756 | And in every continuation it stays dropped or refused, and its channel never has a reader again. |
| `ExitLatch.NoLostWakeup` | patches-16.0/0016-turbopack-node-host-process-net-bridge-real-JS-evalu.patch:562-573 | For any number of concurrent and cancelled waiters: with a code stored and its notification issued, no waiter is parked un-woken; a returned waiter reports a stored code, the only one if one exit was reported. |
| `ExitLatch.WaitersByEvents` | patches-16.0/0016-turbopack-node-host-process-net-bridge-real-JS-evalu.patch:562-573 | Whoever has called wait() and was not cancelled is among the waiters, and nobody else. |
| `ExitLatch.CodeByEvents` | patches-16.0/0016-turbopack-node-host-process-net-bridge-real-JS-evalu.patch:303-309 | The code is the last one reported, and every notification, given or owed, belongs to a report. |
| `ExitLatch.EveryWaiterCanReturn` | patches-16.0/0016-turbopack-node-host-process-net-bridge-real-JS-evalu.patch:562-573 | From any such state every waiter returns the stored code within three steps of its own. |
| `ExitLatch.ReportWakesEveryWaiter` | patches-16.0/0016-turbopack-node-host-process-net-bridge-real-JS-evalu.patch:303-309 | One exit report, store then notify, from any state: every waiter can return its code. |
| `HostPoolLatches.NoWaiterIsForgotten` | patches-16.0/0016-turbopack-node-host-process-net-bridge-real-JS-evalu.patch:300-309 | Bridge, host and waiters in one machine: in every run, once a child's code is stored and the report is over, no waiter of that child is parked un-woken; a returned waiter reports a code stored for its own child, the child's code when there was one report. |
| `HostPoolLatches.WaitersByEvents` | patches-16.0/0016-turbopack-node-host-process-net-bridge-real-JS-evalu.patch:562-573 | In the joint machine, whoever has called wait() on a child and was not cancelled is among the waiters of that child's latch, and nobody else. |
| `HostPoolLatches.ReportReachesEveryWaiter` | patches-16.0/0016-turbopack-node-host-process-net-bridge-real-JS-evalu.patch:300-309 | From every run: the three steps of an exit report store the code in the child it names and in no other, change no other latch, and every waiter of that child then returns the code within three steps of its own. |
| `HostPoolLatches.PoolRuns` | patches-16.0/0016-turbopack-node-host-process-net-bridge-real-JS-evalu.patch:300-309 | The bridge's part of such a run is a run of the bridge, so all its theorems hold here. |
| `HostPoolLatches.ReachableJoint` | patches-16.0/0016-turbopack-node-host-process-net-bridge-real-JS-evalu.patch:562-573 | In every run each child's latch has the child's code, and owes a notification only within a report. |
| `HostPoolConns.AcceptedOnceInOrder` | patches-16.0/0016-turbopack-node-host-process-net-bridge-real-JS-evalu.patch:682-695 | accept() hands out a prefix of the arrivals in order; no two accepts, on any listeners, get the same connection. |
| `HostPoolConns.AcceptTakesTheOldest` | patches-16.0/0016-turbopack-node-host-process-net-bridge-real-JS-evalu.patch:682-692 | In every run, accept() on a listener that is up hands out the oldest waiting connection and opens it, and changes no other. |
| `HostPoolConns.StreamsAreTheTaken` | patches-16.0/0016-turbopack-node-host-process-net-bridge-real-JS-evalu.patch:682-695 | A connection is or was a TcpStream of a listener if and only if that listener's accept() handed it out. |
| `HostPoolIds.KeysDiffer` | patches-16.0/0016-turbopack-node-host-process-net-bridge-real-JS-evalu.patch:467-469 | Inside the id bound two streams with one id are the same stream, whichever end numbered them. |
| `HostPoolRegistries.StreamRegistryIsExact` | patches-16.0/0016-turbopack-node-host-process-net-bridge-real-JS-evalu.patch:185-190 | Inside the id bound, an id is in the stream registry only for a stream that was registered and not removed, with its own channel, and it is there unless the host said EOF. |
| `HostPoolRegistries.NoInsertOverwrites` | patches-16.0/0016-turbopack-node-host-process-net-bridge-real-JS-evalu.patch:467-482 | Inside the id bound no insert of a process, stdio stream, listener or connection meets an entry under its key. |
| `HostPoolRegistries.PushReachesItsReader` | patches-16.0/0016-turbopack-node-host-process-net-bridge-real-JS-evalu.patch:312-326 | A push for an id the host has learnt and not ended extends that stream's channel and no other: registration precedes the host's knowing the id. |
| `HostPoolRegistries.ExitReachesItsChild` | patches-16.0/0016-turbopack-node-host-process-net-bridge-real-JS-evalu.patch:300-309 | An exit report stores its code in the child it names and changes nothing else. |
| `HostPoolRegistries.ConnectionReachesItsListener` | patches-16.0/0016-turbopack-node-host-process-net-bridge-real-JS-evalu.patch:315-321 | A connection for a listener that is up is queued on that listener, and registered under its own id. |
| `HostPoolRegistries.UnknownListenerLeavesNoTrace` | patches-16.0/0016-turbopack-node-host-process-net-bridge-real-JS-evalu.patch:315-326 | A connection for an unknown listener leaves the stream registry as it was, and sends one `dropConn`. |
| `HostPoolRegistries.IdsDistinctIffWithin` | patches-16.0/0016-turbopack-node-host-process-net-bridge-real-JS-evalu.patch:169-173 | Once both ends have given out ids, all process, stdio, listener and connection ids differ if and only if 3*spawns + binds + connections < 2^32. |
| `HostPoolRegistries.TheEndsMeet` | patches-16.0/0016-turbopack-node-host-process-net-bridge-real-JS-evalu.patch:169-173 | The bound is reached: after one connection, a third of 2^32 spawns give two equal ids. |
| `HostPoolRegistries.ReachableGapless` | patches-16.0/0016-turbopack-node-host-process-net-bridge-real-JS-evalu.patch:467-469 | Rust's ids are used without a gap from 1, the host's from u32::MAX down. |
| `HostPoolActions.KilledAtMostOnce` | patches-16.0/0016-turbopack-node-host-process-net-bridge-real-JS-evalu.patch:548-582 | At most one `kill` per process; exactly one once a Child is dropped with no exit recorded. |
| `HostPoolActions.DropKillsTheUnfinished` | patches-16.0/0016-turbopack-node-host-process-net-bridge-real-JS-evalu.patch:575-582 | After a drop the process was killed if and only if it was killed before or no exit is recorded. |
| `HostPoolActions.KillIsSent` | patches-16.0/0016-turbopack-node-host-process-net-bridge-real-JS-evalu.patch:548-554 | In every run inside the id bound, start_kill on a running child works and leaves it marked with exactly one kill sent for it: by this call, unless an earlier one has. |
| `HostPoolActions.ConnectionClosedOnce` | patches-16.0/0016-turbopack-node-host-process-net-bridge-real-JS-evalu.patch:741-756 | At most one `closeWrite` and one `dropConn` per connection; `dropConn` exactly for a dropped TcpStream or a refused connection the host could be told of. |
| `HostPoolActions.ShutdownIsSent` | patches-16.0/0016-turbopack-node-host-process-net-bridge-real-JS-evalu.patch:741-748 | In every run inside the id bound, the first shutdown of an open connection sends its one `closeWrite`, later ones send nothing. |
| `HostPoolActions.DropIsSent` | patches-16.0/0016-turbopack-node-host-process-net-bridge-real-JS-evalu.patch:751-756 | In every run inside the id bound, the drop of an open connection sends its one `dropConn` and takes its id out of the registry. |
| `HostPoolActions.ListenerClosedOnce` | patches-16.0/0016-turbopack-node-host-process-net-bridge-real-JS-evalu.patch:698-703 | One `closeListener` for a dropped listener, none for any other. |
| `HostPoolActions.ListenerDropIsSent` | patches-16.0/0016-turbopack-node-host-process-net-bridge-real-JS-evalu.patch:698-703 | In every run inside the id bound, the drop of a listener that is up sends its one `closeListener` and delists exactly it. |
| `HostPoolCalls.Bridge.constructor` | patches-16.0/0016-turbopack-node-host-process-net-bridge-real-JS-evalu.patch:173-190 | The registries start empty, the counter at 1, the trace empty. |
| `HostPoolCalls.Bridge.Theorems` | patches-16.0/0016-turbopack-node-host-process-net-bridge-real-JS-evalu.patch:169-190 | After any sequence of calls the fields are the end of a run, so everything proved of runs holds of them. |
| `HostPoolCalls.Bridge.Register` | patches-16.0/0016-turbopack-node-host-process-net-bridge-real-JS-evalu.patch:216-278 | The registration is one step; later ones change nothing. |
| `HostPoolCalls.Bridge.ReadStream` | patches-16.0/0016-turbopack-node-host-process-net-bridge-real-JS-evalu.patch:348-370 | A poll of a bridged stream is one step; with room it gives a byte whenever one is there, waits exactly when none is and the sender is, and zero bytes means all was delivered. |
| `HostPoolCalls.Bridge.PushBytes` | patches-16.0/0016-turbopack-node-host-process-net-bridge-real-JS-evalu.patch:284-298 | A push in place extends the live channel under the id; an EOF takes the id out of the registry and closes its channel; each is one step. |
| `HostPoolCalls.Bridge.ProcExit` | patches-16.0/0016-turbopack-node-host-process-net-bridge-real-JS-evalu.patch:303-309 | An exit report is lookup, then store into the child listed under the id, or nothing for an unknown process. |
| `HostPoolCalls.Bridge.Accept` | patches-16.0/0016-turbopack-node-host-process-net-bridge-real-JS-evalu.patch:315-326 | An accept call is land, route, and for an unknown listener refuse. |
| `HostPoolCalls.Bridge.Spawn` | patches-16.0/0016-turbopack-node-host-process-net-bridge-real-JS-evalu.patch:465-505 | A spawn is reserve, register streams, register process, call the host, in this order, or nothing without a bridge. |
| `HostPoolCalls.Bridge.Kill` | patches-16.0/0016-turbopack-node-host-process-net-bridge-real-JS-evalu.patch:548-554 | start_kill marks the child and sends a kill unless it was marked; afterwards exactly one was sent. |
| `HostPoolCalls.Bridge.DropTheChild` | patches-16.0/0016-turbopack-node-host-process-net-bridge-real-JS-evalu.patch:575-582 | Dropping a Child sends a kill exactly when none was sent and no exit is recorded, then removes it from the process registry. |
| `HostPoolCalls.Bridge.Bind` | patches-16.0/0016-turbopack-node-host-process-net-bridge-real-JS-evalu.patch:646-674 | A bind is reserve, register, and on the host's answer keep or remove. |
| `HostPoolCalls.Bridge.TakeOldest` | patches-16.0/0016-turbopack-node-host-process-net-bridge-real-JS-evalu.patch:682-692 | accept() takes the head of the queue, from the state every call leaves, and the connection is open. |
| `HostPoolCalls.Bridge.CloseTheListener` | patches-16.0/0016-turbopack-node-host-process-net-bridge-real-JS-evalu.patch:698-703 | Dropping a listener delists it and sends `closeListener`. |
| `HostPoolCalls.Bridge.CloseWriteSide` | patches-16.0/0016-turbopack-node-host-process-net-bridge-real-JS-evalu.patch:741-748 | poll_shutdown sends `closeWrite` the first time, and only then. |
| `HostPoolCalls.Bridge.DropTheStream` | patches-16.0/0016-turbopack-node-host-process-net-bridge-real-JS-evalu.patch:751-756 | Dropping an open TcpStream removes its sender, its receiver, and tells the host. |
| `ThreadsafeFunction.ReleasedOnce` | vendor-crates/napi/src/threadsafe_function.rs:155-173 | Over all clones, threads, aborts and drops: at most one release; the call that ends its use is the last one ever made; once the handle is gone it was released exactly once unless the environment finalized it alive. |
| `ThreadsafeFunction.AbortOverlapsNothing` | vendor-crates/napi/src/threadsafe_function.rs:398-411 | While the write lock is held no call, ref, unref or clone is under way or can begin. |
| `ThreadsafeFunction.NoUseAfterAbort` | vendor-crates/napi/src/threadsafe_function.rs:616-636 | After an abort, or a finalize callback that found the handle alive, no continuation makes an N-API call through it. |
| `ThreadsafeFunction.CallsByEvents` | vendor-crates/napi/src/threadsafe_function.rs:370-444 | The N-API calls of every run are exactly those its events ask for, in order: one for every call whose lock was taken before an abort or finalization; one for every ref and unref so taken that finds the flag the other way; the release of the first abort or of the dropped handle, or the mark of the finalize callback, unless closed before. Both flags are what the events made them. |
| `ThreadsafeFunction.ObjectsByEvents` | vendor-crates/napi/src/threadsafe_function.rs:242-262 | The objects of every run are the first one and the clones made on an open function, less those dropped; each holds the handle, as does a finalize callback at work, and its drop is due exactly when nobody does. |
| `ThreadsafeFunction.OperationRuns` | vendor-crates/napi/src/threadsafe_function.rs:370-444 | Whenever nobody writes, a call, ref, unref or clone on an existing object runs, and on an open function adds its one N-API call, sets `referred`, or adds its object; on a closed one nothing. |
| `ThreadsafeFunction.AbortRuns` | vendor-crates/napi/src/threadsafe_function.rs:398-411 | An undisturbed abort releases with the abort mode exactly when the function was open, and leaves it closed. |
| `ThreadsafeFunction.LastDropRuns` | vendor-crates/napi/src/threadsafe_function.rs:155-173 | The drop of the last object drops the handle, which releases exactly when the function was open. |
| `ThreadsafeFunction.FinalizeRuns` | vendor-crates/napi/src/threadsafe_function.rs:616-636 | An undisturbed finalize callback that finds the handle alive closes it and leaves the objects as they were. |
| `ClassReference.CountsTrackReferences` | vendor-crates/napi/src/bindgen_runtime/js_values/value_ref.rs:35-98 | In every GC-driven run, until the finalizer is through, the N-API count is the number of live References and the Rc count one more; finalization does not begin while one is live and begins with an Rc count of 1. |
| `ClassReference.StrongCountAssertIff` | vendor-crates/napi/src/bindgen_runtime/mod.rs:48-59 | The finalizer's assert that the strong count is 1 or 2 holds if and only if at most one reference was taken, and kept, from inside `finalize`; it is 1 when none was. |
| `ClassReference.EveryDropUnrefs` | vendor-crates/napi/src/bindgen_runtime/js_values/value_ref.rs:35-57 | Every drop of a Reference before the end of finalization does its unref. |
| `ClassReference.EveryTakeRefs` | vendor-crates/napi/src/bindgen_runtime/js_values/value_ref.rs:72-139 | In every reachable state, each way of taking a reference (from a value, a clone, the owner's clone, a weak upgrade while the Rc lives) works, adds exactly that reference and raises both counters. |
| `ClassReference.ReferencesStay` | vendor-crates/napi/src/bindgen_runtime/js_values/value_ref.rs:35-57 | Nothing but a take adds a reference, nothing but its own drop or failed share removes one, and only sharing changes one and stacks a closure. |
| `ClassReference.WeakUpgradeExact` | vendor-crates/napi/src/bindgen_runtime/js_values/value_ref.rs:220-254 | A weak upgrade or read succeeds, exactly: while the owner lives; on a dead owner from inside the rest of the finalizer, after a failed finalize while the map or a reference holds the callback, and after a successful one while a reference taken during it is kept. If none was taken it fails after a finalize that returned Ok. |
| `ClassReference.FailedFinalizeLeavesWeakDangling` | vendor-crates/napi/src/bindgen_runtime/mod.rs:38-42 | The exception happens: after a failing finalize a weak reference upgrades to a dead object. |
| `ClassReference.ReuseEndsTheDangling` | vendor-crates/napi/src/bindgen_runtime/js_values/value_ref.rs:59-70 | Until another instance is wrapped at the same address: that drops the stale entry, and then upgrades succeed exactly while a reference taken meanwhile is kept. |
| `ClassReference.UpgradeWhileUnwindingDangles` | vendor-crates/napi/src/bindgen_runtime/mod.rs:43-61 | And from inside the drop of a shared object: the reference outlives the finalizer. |
| `ClassReference.UnwoundReverses` | vendor-crates/napi/src/bindgen_runtime/js_values/value_ref.rs:149-167 | The closure stack drops every shared object once, newest first. |
| `ClassReference.SharedObjectsDieOnceInReverse` | vendor-crates/napi/src/bindgen_runtime/mod.rs:32-69 | A finalize that returns Ok drops the owner, then each shared object exactly once in reverse order of creation, at every moment in between the newest ones first; a failing one drops none; none dies before. |
| `ClassReference.SharedReferencesAreValid` | vendor-crates/napi/src/bindgen_runtime/js_values/value_ref.rs:264-295 | A live SharedReference points at a shared object that was not dropped, if and only if the closures have not got to it; always when no reference was taken from inside the finalizer. |
| `ClassReference.WrappedObject.constructor` | vendor-crates/napi/src/bindgen_runtime/callback_info.rs:91-128 | A constructed instance: N-API count 0, Rc count 1 held by the map, no closures. |
| `ClassReference.WrappedObject.FromValuePtr` | vendor-crates/napi/src/bindgen_runtime/js_values/value_ref.rs:72-97 | Refs both counters and finds a live instance in the map. |
| `ClassReference.WrappedObject.Clone` | vendor-crates/napi/src/bindgen_runtime/js_values/value_ref.rs:127-139 | Refs both counters. |
| `ClassReference.WrappedObject.UpgradeWeak` | vendor-crates/napi/src/bindgen_runtime/js_values/value_ref.rs:220-237 | Succeeds exactly when the Rc is alive, and then refs both counters; from inside the finalizer too. |
| `ClassReference.WrappedObject.ShareWith` | vendor-crates/napi/src/bindgen_runtime/js_values/value_ref.rs:149-167 | Stacks one closure and turns the Reference into the owner of a SharedReference. |
| `ClassReference.WrappedObject.DropReference` | vendor-crates/napi/src/bindgen_runtime/js_values/value_ref.rs:35-57 | Unrefs if more than the map's Rc is there, then gives its Rc up. |
| `ClassReference.WrappedObject.RunCallbacks` | vendor-crates/napi/src/bindgen_runtime/js_values/value_ref.rs:158-161 | The chain of closures runs to its bottom. |
| `ClassReference.WrappedObject.RawFinalize` | vendor-crates/napi/src/bindgen_runtime/mod.rs:32-69 | Drops the owner, stops on an error, else removes the map entry, runs the chain, gives up the Rc; the strong-count assert holds. |
| `ClassReference.FinalizeIsARun` | vendor-crates/napi/src/bindgen_runtime/mod.rs:32-69 | The finalizer, undisturbed, is a run of the machine's steps. |
| `DroppedComments.ShiftConserves` | vendor-crates/swc/src/dropped_comments_preserver.rs:95-132 | Leading lists over the known starts in order, then the trailing list, are the flattened position-sorted input: nothing lost, copied or reordered. |
| `DroppedComments.CommentGoesToNextStart` | vendor-crates/swc/src/dropped_comments_preserver.rs:95-111 | A comment leads a known start if and only if that is the least one at or above its position, and is left over if and only if every known start lies below it. |
| `DroppedComments.KeptInOrder` | vendor-crates/swc/src/dropped_comments_preserver.rs:50-58 | The spans kept of a visit are all but the first and the dummies, in the order of the visit. |
| `DroppedComments.StartsAndEnd` | vendor-crates/swc/src/dropped_comments_preserver.rs:117-123 | So the known starts are those of all spans visited but the first and the dummies, and the greatest end is theirs, or the dummy's when there are none. |
| `DroppedComments.SecondRunChangesNothingIff` | vendor-crates/swc/src/dropped_comments_preserver.rs:62-68 | A second pass over the same spans changes nothing if and only if no comment lies above every known start or the greatest end does. |
| `DroppedComments.SortForgetsDrainOrder` | vendor-crates/swc/src/dropped_comments_preserver.rs:76-86 | Whatever order the hash maps drain in, the sorted entries are the same. |
| `DroppedComments.SortedDrain` | vendor-crates/swc/src/dropped_comments_preserver.rs:76-86 | The sorted drain has at each position that position's leading comments, then its trailing ones. |
| `DroppedComments.DrainPrefix` | vendor-crates/swc/src/dropped_comments_preserver.rs:101-105 | The drained prefix is what lies at or below the cut, in order, and leaves the rest. |
| `DroppedComments.CommentsPreserver.constructor` | vendor-crates/swc/src/dropped_comments_preserver.rs:19-31 | The pass starts with no span seen. |
| `DroppedComments.CommentsPreserver.VisitSpan` | vendor-crates/swc/src/dropped_comments_preserver.rs:50-58 | Appends the span unless it is a dummy or the first one, which only clears the flag. |
| `DroppedComments.CommentsPreserver.DrainMap` | vendor-crates/swc/src/dropped_comments_preserver.rs:77-81 | Every list comes out once, in an arbitrary order. |
| `DroppedComments.CommentsPreserver.CollectExistingComments` | vendor-crates/swc/src/dropped_comments_preserver.rs:76-86 | Empties both maps into the sorted entries. |
| `DroppedComments.CommentsPreserver.ShiftLeadingComments` | vendor-crates/swc/src/dropped_comments_preserver.rs:95-111 | The loop puts every comment at the least known start at or above it, in order, and returns the rest. |
| `DroppedComments.CommentsPreserver.ShiftTrailingComments` | vendor-crates/swc/src/dropped_comments_preserver.rs:117-132 | Appends the rest behind the greatest known end, or the dummy's. |
| `DroppedComments.CommentsPreserver.CollectSpans` | vendor-crates/swc/src/dropped_comments_preserver.rs:50-58 | A span is known afterwards if and only if it was visited, not first, and is no dummy. |
| `DroppedComments.CommentsPreserver.VisitModule` | vendor-crates/swc/src/dropped_comments_preserver.rs:38-42 | The whole pass, for any spans and comments: the comments shifted to the starts of all spans visited but the first and the dummies, the rest behind their greatest end; nothing without a comment store. |
| `StableSort.SortIsStable` | vendor-crates/swc/src/dropped_comments_preserver.rs:83-83 | The sort by key: sorted, a permutation, equal keys in their order. |
| `StableSort.StableSortIsUnique` | vendor-crates/swc/src/dropped_comments_preserver.rs:83-98 | Those three facts leave one result, so sorting twice or draining differently changes nothing. |
| `AsyncTask.SettledOnce` | vendor-crates/napi/src/async_work.rs:105-157 | For any number of tasks with aborts and cancels at any time, from inside the callbacks of `complete` too: a completed task settled its promise at most once if and only if no abort fell between `complete`'s read of the status and its store of 1; then exactly once unless its AsyncWorkPromise was cancelled in time; with AbortError alone exactly when the abort came before the read. |
| `AsyncTask.SettledTwiceIff` | vendor-crates/napi/src/async_work.rs:123-156 | The deferred is settled at most twice, and twice if and only if the abort fell between the read of the status (the conversion, `finally`) and the store of 1: then by the abort and by the outcome. |
| `AsyncTask.TasksByEvents` | vendor-crates/napi/src/async_work.rs:45-89 | The tasks are those submitted, in that order, each with its own kind. |
| `AsyncTask.SettledByEvents` | vendor-crates/napi/src/async_work.rs:124-145 | The promise has been resolved if and only if the run converted the output, rejected with the error if and only if that failed; an abort or a cancel is on record if and only if it came. |
| `AsyncTask.AbortFromFinallySettlesTwice` | vendor-crates/napi/src/async_work.rs:147-156 | It happens: resolved, then rejected with AbortError from `finally`. |
| `AsyncTask.AbortFromConversionSettlesTwice` | vendor-crates/napi/src/async_work.rs:123-135 | It happens: rejected with AbortError from the conversion, then resolved. |
| `AsyncTask.NothingSettlesAfterComplete` | vendor-crates/napi/src/bindgen_runtime/js_values/task.rs:117-137 | Nothing after `complete` settles it again. |
| `AsyncTask.ZeroedOutputIsResolvedOnlyForDequeuedWork` | vendor-crates/napi/src/async_work.rs:105-122 | `complete` hands a zeroed output to `resolve` exactly for work cancelled before a worker took it. |
| `AsyncTask.AbortedInQueueResolvesZeroed` | vendor-crates/napi/src/async_work.rs:105-122 | It happens: an abort before a worker takes the work. |
| `AsyncTask.AsyncWork.constructor` | vendor-crates/napi/src/async_work.rs:45-89 | A submitted task: status 0, nothing settled. |
| `AsyncTask.AsyncWork.Execute` | vendor-crates/napi/src/async_work.rs:96-103 | The worker computes the value once. |
| `AsyncTask.AsyncWork.OnAbort` | vendor-crates/napi/src/bindgen_runtime/js_values/task.rs:88-137 | At any moment, inside the parts of `complete` too: returns on status 1; else cancels, sets 2 and rejects. |
| `AsyncTask.AsyncWork.CancelWork` | vendor-crates/napi/src/async_work.rs:37-42 | Sets 2 and cancels the work. |
| `AsyncTask.AsyncWork.CompleteWork` | vendor-crates/napi/src/async_work.rs:105-157 | When no part of it fires the abort: settles unless cancelled, then sets 1; the promise has settled at most once. |
| `AsyncTask.CompleteIsARun` | vendor-crates/napi/src/async_work.rs:105-157 | That is a run of its parts. |
| `AsyncTask.AsyncWork.AskTask` | vendor-crates/napi/src/async_work.rs:110-122 | First part: the outcome, zeroed for a dequeued task, goes to resolve or reject. |
| `AsyncTask.AsyncWork.CheckStatus` | vendor-crates/napi/src/async_work.rs:123-123 | Second: the statuses decide whether it settles. |
| `AsyncTask.AsyncWork.SettleDeferred` | vendor-crates/napi/src/async_work.rs:124-145 | Third: the converted value or the error settles the deferred. |
| `AsyncTask.AsyncWork.FinishComplete` | vendor-crates/napi/src/async_work.rs:147-156 | Last: status 1, after `finally`. |
| `BigIntWords.I128RoundTrip` | vendor-crates/napi/src/bindgen_runtime/js_values/bigint.rs:226-235 | From<i128> denotes its argument, and the plain reader gives it back, for every value, except that the least one panics where overflow is checked; the JS reader gives back all but the least without a flag. |
| `BigIntWords.U128RoundTrip` | vendor-crates/napi/src/bindgen_runtime/js_values/bigint.rs:237-245 | From<u128> denotes its argument and both readers give it back. |
| `BigIntWords.FromI64DenotesIff` | vendor-crates/napi/src/bindgen_runtime/js_values/bigint.rs:208-215 | From<i64> gives a BigInt that denotes its argument if and only if that is not negative, or is the least i64; any other negative v comes out as -2^64 - v. |
| `BigIntWords.I128ArrivesIff` | vendor-crates/napi/src/bindgen_runtime/js_values/bigint.rs:155-165 | The words and sign i128::to_napi_value sends denote its argument if and only if that is not negative, or is the least i128; any other negative v comes out as -2^128 - v. |
| `BigIntWords.PlainPanicsIff` | vendor-crates/napi/src/bindgen_runtime/js_values/bigint.rs:105-132 | The plain readers panic on an empty word list, and the signed one also exactly where its negation overflows and overflow is checked; nowhere else. |
| `BigIntWords.JsGetU128Exact` | vendor-crates/napi/src/js_values/bigint.rs:275-292 | The unsigned JS reader on any word list: the sign, the magnitude modulo 2^128, exact if and only if the magnitude fits; the flag says that there were more than two words, and clear means exact. |
| `BigIntWords.JsGetI128Congruent` | vendor-crates/napi/src/js_values/bigint.rs:246-273 | For every word list the value read is congruent to the denoted one modulo 2^128. |
| `BigIntWords.JsGetI128ExactIffFits` | vendor-crates/napi/src/js_values/bigint.rs:246-273 | It is the denoted value if and only if that fits i128. |
| `BigIntWords.JsLossFlagExact` | vendor-crates/napi/src/js_values/bigint.rs:246-273 | When the loss flag is right: clear but wrong exactly for one or two words of magnitude 2^127 or more other than the least i128; set on at most two words exactly for the least i128. |
| `BigIntWords.JsLossFlagMissesOverflow` | vendor-crates/napi/src/js_values/bigint.rs:259-272 | 2^127 is read as -2^127 with no loss reported. |
| `BigIntWords.ReadersAgreeIff` | vendor-crates/napi/src/bindgen_runtime/js_values/bigint.rs:105-132 | On two or more words both readers agree, flags included, if and only if not (sign bit, low 128 bits 2^127, and overflow checked or exactly two words). |
| `BigIntWords.OneWordForgetsSign` | vendor-crates/napi/src/bindgen_runtime/js_values/bigint.rs:105-109 | On one word the plain reader drops the sign: right exactly for no sign or zero. |
| `BigIntWords.PlainFlagExact` | vendor-crates/napi/src/bindgen_runtime/js_values/bigint.rs:101-121 | When the plain signed reader is right, and when its flag is: it is exact for one word without a sign (or 0) and for numbers that fit i128; the flag says only that there were more than two words, and means lossless, as documented, if and only if those two conditions agree. |
| `BigIntWords.PlainUnsignedFlagExact` | vendor-crates/napi/src/bindgen_runtime/js_values/bigint.rs:119-132 | The same for u128: exact below 2^128, the flag as documented only for an exact value with superfluous words. |
| `BigIntWords.PlainFlagIsInverted` | vendor-crates/napi/src/bindgen_runtime/js_values/bigint.rs:101-132 | Inputs: 5 is read exactly with the flag false, 2^128 is cut with the flag true. |
| `BigIntWords.WordsAsBytes` | vendor-crates/napi/src/js_values/bigint.rs:249-257 | Two words laid out as little-endian bytes are the 128-bit number. |
| `BigIntWords.CopyWords` | vendor-crates/napi/src/js_values/bigint.rs:249-257 | The bytes read as one number are the low 128 bits, absent words as 0. |
| `BigIntWords.LayOut` | vendor-crates/napi/src/js_values/bigint.rs:252-257 | The two copies fill the split buffer with the first word's bytes, then the second's. |
| `BigIntWords.JsBigInt.constructor` | vendor-crates/napi/src/js_values/bigint.rs:25-39 | The handle knows the word count. |
| `BigIntWords.JsBigInt.GetWords` | vendor-crates/napi/src/js_values/bigint.rs:206-225 | The sign and all words, the count unchanged. |
| `BigIntWords.JsBigInt.ReadI128` | vendor-crates/napi/src/js_values/bigint.rs:246-273 | The in-place reader computes the specified value and flag. |
| `BigIntWords.JsBigInt.ReadU128` | vendor-crates/napi/src/js_values/bigint.rs:275-292 | Likewise for u128. |
| `JsonValue.NumberRoundTrip` | vendor-crates/napi/src/bindgen_runtime/js_values/serde.rs:114-175 | A number within the safe range arrives as that double and comes back numerically equal, as an integer exactly when its value is one between the least i32 and the greatest u32; any other integer becomes a BigInt. |
| `JsonValue.BigIntArrivesIff` | vendor-crates/napi/src/bindgen_runtime/js_values/serde.rs:114-128 | That BigInt is the number if and only if it is positive or the least i64. |
| `JsonValue.EncodeSays` | vendor-crates/napi/src/bindgen_runtime/js_values/serde.rs:11-22 | What goes to JS says what was sent, kind by kind and value by value, null members included. |
| `JsonValue.DecodeSays` | vendor-crates/napi/src/bindgen_runtime/js_values/serde.rs:24-81 | What is read says what was there, kind by kind and value by value, undefined properties skipped. |
| `JsonValue.EncodeIsDecodable` | vendor-crates/napi/src/bindgen_runtime/js_values/serde.rs:11-81 | A NUL-free tree converts to something readable if and only if its integers are safe; otherwise it contains a BigInt. |
| `JsonValue.DecodeOfEncode` | vendor-crates/napi/src/bindgen_runtime/js_values/serde.rs:11-112 | Reading back gives the same tree up to numeric equality, null members included. |
| `JsonValue.ValueToNapi` | vendor-crates/napi/src/bindgen_runtime/js_values/serde.rs:11-22 | The recursive conversion computes the encoding, and fails exactly on a NUL in a key. |
| `JsonValue.MapToNapi` | vendor-crates/napi/src/bindgen_runtime/js_values/serde.rs:83-93 | Setting members one by one, in any order, gives the encoded object. |
| `JsonValue.ValueFromNapi` | vendor-crates/napi/src/bindgen_runtime/js_values/serde.rs:24-81 | Succeeds exactly on readable values, with their reading; errors only on what JSON has no form for, panics only where there is a BigInt. |
| `JsonValue.MapFromNapi` | vendor-crates/napi/src/bindgen_runtime/js_values/serde.rs:95-112 | Reads the properties one by one, in any order, skipping undefined ones. |
| `JsonValue.RoundTrip` | vendor-crates/napi/src/bindgen_runtime/js_values/serde.rs:11-112 | To JS and back: the same tree if and only if keys are NUL-free and integers safe; an error exactly for a NUL key; a panic exactly for the rest. |

## Left out

- ThreadsafeFunction.ReleasedOnce: a handle already inside its own drop when the environment finalizes the function is outside the claim, as the weak upgrade then fails and nothing in this code orders the two.
- OwnedMemory.SerializedDropsGiveBackOnce: says nothing of overlapping drops; `GivenBackIffLastReadWasAlone` gives the exact condition for those, and `OverlappingDropsLeak` shows one that leaks.
- HostPoolRegistries.StreamRegistryIsExact: an EOF the host sent for an id before the id was given out excuses its absence too, since EOFs are remembered by id.
- HostPoolRegistries.UnknownListenerLeavesNoTrace: the three steps of the call are taken without a Rust thread in between; that a refused connection is never in the registry, whatever comes between, is part of `StreamRegistryIsExact`.
- HostPoolActions.KilledAtMostOnce: the drop of a Child reads the exit code and sends the kill in one step; an exit stored between the two would change neither count.
- JsonValue.RoundTrip: objects are plain maps, so key order, prototypes and getters are not modelled; doubles are exact reals with NaN and infinities, rounding of non-integers is not modelled.
- AsyncTask.SettledOnce: one task has one signal and `onabort` fires once; what N-API does with a deferred that is settled again is not modelled, only that it is asked to.
- ClassReference.WeakUpgradeExact: says when the Rc lets an upgrade through; that the N-API reference is deleted by then, when a reference taken during finalization is kept, is not modelled, nor is sharing such a reference once the closures have been taken out.
- ClassReference.CountsTrackReferences: only finalization driven by the garbage collector is modelled, not the one at environment exit, which the source allows to find References alive.
- JsReference.OneFate: one custom GC function, whose creating thread stays its JS thread; environments are their threads.
- N-API, emnapi, tokio channels, V8's collector and serde internals are environment steps or plain data; N-API calls succeed unless an event says otherwise, and pointers are identities.
- Atomic accesses are sequentially consistent, whatever ordering the source names.
- `tokio::sync::Notify` is a generation number: a future is woken by any notification issued after it was made.
- The interleaved protocols (ThreadsafeFunction, ExitLatch, and the machines behind OwnedMemory, JsReference and HostPool) are modelled on values, because a class method runs without interference; classes tie the sequential operations to them where the source has fields, but ThreadsafeFunction and ExitLatch have no class.
- The `referred` flag of a threadsafe function is loaded together with the N-API call it guards.
- Removing a bridged stream, telling the host and dropping the receiver are one step; the three touch different things.
- A bind future cancelled while the host has not answered leaves its listener entry behind; the entry stays `Listed` here, and later sends to it are queued although nobody will read them.
- Connections queued on a dropped listener are stranded, as in the source: the host is not told.
- The order between the `write` and `action` callbacks, writes to bridged streams, and the listen port are not modelled.
- `Span::is_dummy` and the comment store's append are defined outside this repository; they are taken as `lo == hi == 0` and as appending to the list at the position.
- `get_u64`, `get_i64` and the other integer conversions of BigInt are left out: single host calls.
- The SWC plugin coroutine protocol is not part of this model: only its document is in the repository.
- `swc` configuration, the generator glue, `env.rs`, strings, dates, Either, function calls, and generic `ser.rs` and `de.rs` would add only easy members.
