# Verified model of the Cloud AI 100 runtime core

A Dafny 4.11 model of the parts of the Qualcomm Cloud AI 100 user-space runtime and network driver that carry state
across calls, and proofs of what they keep. `dafny verify dfyconfig.toml` checks the whole project. Nothing here runs
the original program; every statement below is about the model, which follows the cited source lines branch by branch.

## What is modelled

**The life cycle of a program on a device** (`StateHierarchy`, `ProgramHsm`, `ProgramDrain`, `ProgramLifecycle`,
`ProgramCalls`, `ProgramStatus`, `ProgramLosses`, `ProgramDevice`). A hierarchical state machine whose handlers bubble
to super-states, whose entry actions query, load, activate and tear down, and post follow-up signals to a queue that
`run()` drains. The dispatcher is written with bubbling, exit to the least common ancestor and entry down to the target,
and proved equal to a flat table; the state-machine library itself (QP's `QHsm`) is not part of the repository, so the
standard semantics of UML state machines is used, in which a self-transition leaves and enters its state. Device answers
are oracles, indexed by how often each operation was invoked. A call that posts a signal holds the program's mutex until
the queue is drained, so it is one atomic step. Every public call is characterised without queue or transient states,
and its result and status in every resting state are spelled out in terms of the device's answers; termination of the
drain is an if-and-only-if over all oracles.

**Binary metadata** (`ByteCodec`, `FieldOffsets`, `CStrings`, `ChunkLayout`, `RecordArrays`, `MetadataFormat`,
`MetadataOffsets`, `MetadataImage`, `MetadataLayout`, `MetadataFile`, `MetadataRelocation`, `MetadataReader`,
`ReaderChecks`, `ImageReader`, `FlatTranslation`, `FlatEncode`, `MetadataRoundTrip`, `MetadataDraft`, `MetadataWriter`,
`WriterPlan`, `BinaryWriter`, `FlatWriter`, `FlatCommutes`, `MetadataCalls`). The writer is an object that appends
aligned chunks to a growing buffer and patches the header last; its `Finalize` is proved to leave exactly
`Image(content)`. The reader overwrites offsets by addresses in the caller's array. `Image(c, base, t)` is the image of
content `c` at address `base` with the first `t` pointers relocated, so each fix-up is one step from `t` to `t + 1`.
Round trip and the commuting diagram with the flat writer hold for every content and every sequence of builder calls
within the assertions, with the exact condition under which nothing is lost. What the file holds is also stated without
encoder or decoder, byte by byte, and what was collected is read off the sequence of calls.

**The DMA descriptor pipeline** (`DmaElement`, `DmaPipeline`, `DmaUpdate`, `DmaMetaData`, `DmaWords`, `InfGrouping`,
`InfRecords`, `InfHandle`, `InfRequests`, `SubmitBackoff`). Bit-packed request elements, parsing, relocation by network
base addresses, request IDs, grouping into variable-length kernel records in a pre-sized allocation, the walks that find
the records again, and the progressive waits of a submission.

**Event delivery** (`EventDelivery`, `EventRuns`, `EventCalls`). Producers and one worker, two kinds of queues with
their mutexes, every lock, unlock, test and access a step of its own; the properties hold for all interleavings.

**Ring, channels, I/O descriptor** (`DmaBridgeQueue`, `ChannelCounts`, `ChannelRetries`, `ChannelDevice`,
`IoDescriptor`, `IoSets`, `BindingsParser`). The power-of-two ring as a bounded FIFO; virtual channels and reference
counts over whole runs with a device that answers as it likes; the flat and the protocol buffer form of a network's I/O
description.

Methods of a class are specified by the function of the same meaning over the class's fields as a value; the
properties are lemmas about these functions.

## What the proofs show about the code

Where a lemma is named, it states the exact condition for all inputs; the others can be read off the definitions.

- ACTIVATE in `created` never returns if and only if the load never succeeds (`ProgramCalls.HangsIff`): each failed
  load comes back to `load_failed` with LOAD and ACTIVATE queued.
- `activate_failed` lies in `loaded_super`. STATE_PROGRAM_ACTIVATE_ERROR is therefore never reported, and `unload()`
  reports success there although the image stays loaded (`ProgramCalls.UnloadKeepsImageIff`). `load()` returns success
  in that state as well.
- DEVICE_DOWN is ignored in `load_failed` (`ProgramCalls.DownEndsInDeviceError`), so containment of a device failure
  starts in every state but that one.
- After a construction whose validation failed, INIT_ERROR stays pending, and a first LOAD still runs its load action
  before the program reaches `device_error` (`ProgramLifecycle.SettledWithInitError`).
- Metadata counts are cut to the width of their fields without a check; the round trip loses exactly what does not fit
  (`MetadataRoundTrip.RoundTripIsExactIff`). The flat writer's tables never shrink, so the two writers differ when the
  number of cores was once set higher (`FlatCommutes.BothPathsAgreeIff`).
- Request ID 0 is handed out after a wrap inside a batch (`DmaUpdate.NoZeroIDIff`).
- A request's host offset is not applied to the address in its element: the host side is the start of the buffer. The
  offset is passed to the kernel in the slice entry instead.
- Elements that alternate between two buffers need more records than are allocated (`InfGrouping.AlternatingOverflows`,
  `InfGrouping.RecordsFitIff`), and building then writes outside of the allocation (`InfHandle.CreateInfHandle`). So it
  does for a network without requests.
- When building fails after a complete record, `getInfHandle` walks the records once more in memory that is gone. A
  buffer object that was created but could not be sliced or mapped is never closed (`InfRequests.GetInfHandle`).
- `unprepareBuf`, which nothing calls, takes record numbers for buffer numbers (`InfRecords.UnprepareBuf`,
  `InfGrouping.RecordIsBufferIff`).
- A zero-sized element right behind a sized one of the same buffer makes the record's buffer object size 0
  (`InfGrouping.SizedGroupsGetMemoryIff`).
- The handle to wait on stays 0 unless the awaited element ends its group (`InfHandle.WaitsIff`).
- Channels and reference counts stay right exactly as long as no failed `deactivate()` is repeated
  (`ChannelCounts.DeactivateKeepsIff`) and no granted activation fails to build its network object
  (`ChannelCounts.ActivateKeepsIff`, `ChannelCounts.RunsConserveIff`). Both lose the channel for good
  (`ChannelCounts.RepeatedDeactivationLeaks`, `ChannelCounts.FactoryFailureLeaks`).
- A teardown that fails keeps its network, and the next activation overwrites it (`ProgramLosses.CallLosesIff`,
  `ProgramLosses.FailedTeardownLoses`).
- `getDmaDirections` compares buffer numbers with the number of requests instead of buffers, so no inference handle can
  be had for a network that numbers a buffer higher (`InfRequests.GetInfHandle`, `InfRequests.NumberTooHigh`).
- The shared channel ID 0xFE is above the largest ID that an activation accepts, so the branch for it is never taken.
- The flat I/O descriptor gives an output the data type it has before its transforms, the default set the one after
  (`IoSets.TypesAgreeIff`).
- The search for transforms reads in front of the first transform of an output that starts with a searched one other
  than the DMA copy (`IoSets.PrecededIff`), and for a binding without a name `generateIODesc` copies eight pointers
  from a variable that holds one (`BindingsParser.QBindingsParser.GenerateIoDesc`).

## Model

| member | source | states |
|---|---|---|
| `StateHierarchy.LeastCommonAncestorIsDeepest` | lib/core/src/QProgramDevice.cpp:643-975 | every state that contains both ends of a transition contains the state the transition does not leave: the exit goes no higher than it must |
| `StateHierarchy.EntersExactlyTheNewStates` | lib/core/src/QProgramDevice.cpp:643-975 | a transition runs the entry action of exactly those states of its target that its source was not in |
| `StateHierarchy.PathDownSpec` | lib/core/src/QProgramDevice.cpp:643-975 | the entry actions run from the outside in, along a chain of parents that ends in the target |
| `ProgramHsm.BubbleRequests` | lib/core/src/QProgramDevice.cpp:643-975 | every transition the dispatcher takes was asked for by the handler of the state it is attributed to |
| `ProgramHsm.EntryPathIs` | lib/core/src/QProgramDevice.cpp:643-975 | the exact list of entered states for each transition that a handler can ask for |
| `ProgramHsm.DispatchIsFlat` | lib/core/src/QProgramDevice.cpp:643-975 | bubbling through the super-states, exit to the common ancestor and entry down to the target together do what one flat table says, for every signal in every state |
| `ProgramDrain.PostEstablishesInv` | lib/core/src/QProgramDevice.cpp:183-250 | posting any external signal to a program at rest (ACTIVATE not to a ready one) establishes the drain invariant |
| `ProgramDrain.StepKeepsInv` | lib/core/src/QProgramDevice.cpp:977-989 | every dispatch keeps the invariant on state, queue, image, network and validation |
| `ProgramDrain.DrainedMeansRest` | lib/core/src/QProgramDevice.cpp:977-989 | when the queue is empty the state is created, loaded, ac_ready, activate_failed, load_failed or device_error |
| `ProgramDrain.ActivateDiscipline` | lib/core/src/QProgramDevice.cpp:658-661 | at most one ACTIVATE is ever queued, and none is dispatched in activating, ac_ready, ac_deactivating or unloading |
| `ProgramDrain.CompletionBelongsToState` | lib/core/src/QProgramDevice.cpp:696-908 | a completion signal at the queue front answers the entry action of the current state and makes it leave that state, or is ignored in device_error |
| `ProgramDrain.LoadActionFacts` | lib/core/src/QProgramDevice.cpp:475-505 | how many load actions fail before one succeeds: a successful one has none before it, a failed one leaves one fewer, and no failure changes whether one ever succeeds |
| `ProgramDrain.DrainMakesProgress` | lib/core/src/QProgramDevice.cpp:977-989 | termination measure: each dispatch lowers (load failures still to come, work left in this attempt), unless an ACTIVATE retries a load that never succeeds |
| `ProgramDrain.DrainTerminatesIff` | lib/core/src/QProgramDevice.cpp:977-989 | from every reachable configuration the drain ends if and only if it is not an ACTIVATE on its way through a load that never succeeds |
| `ProgramDrain.NeverDrains` | lib/core/src/QProgramDevice.cpp:658-661 | in that one case the queue is non-empty after any number of dispatches |
| `ProgramDrain.DrainLength` | lib/core/src/QProgramDevice.cpp:977-989 | otherwise some number of dispatches empties the queue |
| `ProgramDrain.Settled` | lib/core/src/QProgramDevice.cpp:977-989 | what the drain ends in is a rest configuration with an empty queue and the same execution objects |
| `ProgramLifecycle.SettledIsPost` | lib/core/src/QProgramDevice.cpp:643-989 | draining one posted signal has exactly the effect of a queue-free description: one load, one activation, one teardown, one query, or nothing |
| `ProgramLifecycle.SettledRetry` | lib/core/src/QProgramDevice.cpp:658-661 | a retrying ACTIVATE ends with as many load actions as it takes to succeed and then exactly one activation |
| `ProgramLifecycle.SettledWithInitError` | lib/core/src/QProgramDevice.cpp:647-656 | a pending INIT_ERROR ends in device_error, and a LOAD posted meanwhile still runs its load action first |
| `ProgramLifecycle.FailedLoadComesBack` | lib/core/src/QProgramDevice.cpp:696-721 | a failed load of an ACTIVATE is back at (load_failed, [LOAD, ACTIVATE]) after exactly three dispatches |
| `ProgramCalls.ProgramStateIs` | lib/core/src/QProgramDevice.cpp:56-83 | the program state reported for every leaf state; transient and failed activation states read as loaded or created |
| `ProgramCalls.ActivateErrorIsNeverReported` | lib/core/src/QProgramDevice.cpp:73-75 | no state reports STATE_PROGRAM_ACTIVATE_ERROR, because activate_failed lies in loaded_super |
| `ProgramCalls.HangsIff` | lib/core/src/QProgramDevice.cpp:386-401 | a posted signal fails to drain exactly when it is ACTIVATE in created and the load never succeeds |
| `ProgramCalls.DrainedIsPost` | lib/core/src/QProgramDevice.cpp:977-989 | every public call that posts a signal has exactly the described effect |
| `ProgramCalls.SignalOf` | lib/core/src/QProgramDevice.cpp:252-301 | events of other devices post nothing, a device event posts DEVICE_DOWN or DEVICE_UP, a channel event posts exactly when it is for the channel of the held network, and no event posts ACTIVATE |
| `ProgramCalls.ReadyIsBacked` | lib/core/src/QProgramDevice.cpp:183-301 | after any run of calls and events, ac_ready implies a live network, a loaded image and a validated device; the queue is empty and the state is a resting one, unless INIT_ERROR is still pending |
| `ProgramCalls.ReadyLeavesOnlyOnFailure` | lib/core/src/QProgramDevice.cpp:204-301 | with an execution object registered, one call or event leaves ac_ready exactly when it is a device-down or a channel wait expiry; nothing else changes the program |
| `ProgramCalls.ReadyIsHeld` | lib/core/src/QProgramDevice.cpp:204-301 | the same over whole runs: without such an event the program is unchanged but for further registrations |
| `ProgramCalls.DownEndsInDeviceError` | lib/core/src/QProgramDevice.cpp:663-665 | a device-down event ends in device_error from every state but load_failed, which ignores it |
| `ProgramCalls.DeviceErrorStep` | lib/core/src/QProgramDevice.cpp:927-950 | in device_error only a DEVICE_UP whose query succeeds leaves the state; every load, unload and command fails and invokes no load, activation or teardown |
| `ProgramCalls.DeviceErrorIsContained` | lib/core/src/QProgramDevice.cpp:927-950 | the same over whole runs, as long as no validation succeeds |
| `ProgramCalls.UnloadKeepsImageIff` | lib/core/src/QProgramDevice.cpp:228-250 | unload reports success and leaves the image loaded exactly after a failed activation |
| `ProgramCalls.UnloadAtRest` | lib/core/src/QProgramDevice.cpp:749-768 | UNLOAD releases the image of a loaded program and changes nothing elsewhere |
| `ProgramCalls.ActivateFromCreated` | lib/core/src/QProgramDevice.cpp:386-401 | activating a created program makes exactly (failures + 1) fetches and one activation, and is ready iff that activation succeeded with a network |
| `ProgramStatus.LoadIs` | lib/core/src/QProgramDevice.cpp:183-202 | what `load` reports and leaves behind in each resting state: from created or load_failed it succeeds iff the held image, or else the next fetch, has a network image |
| `ProgramStatus.LoadSucceedsIff` | lib/core/src/QProgramDevice.cpp:193-201 | `load` succeeds exactly when the program ends up inside loaded_super |
| `ProgramStatus.ActivateIs` | lib/core/src/QProgramDevice.cpp:386-401 | what `activate` does in each resting state: success iff it ends in ac_ready; from created it first loads as often as it takes |
| `ProgramStatus.LoadedAtLastIs` | lib/core/src/QProgramDevice.cpp:475-505 | a load that is repeated until it succeeds leaves an image with a network image and changes nothing but the image and the fetches |
| `ProgramStatus.DeactivateIs` | lib/core/src/QProgramDevice.cpp:420-435 | what a deactivation does in each resting state: success iff it ends in created or inside loaded_super; a failed teardown is tried once more on the way to device_error |
| `ProgramStatus.CommandIs` | lib/core/src/QProgramDevice.cpp:204-226 | which command leads to which call, and that a deactivation is refused while an execution object is registered |
| `ProgramStatus.InitialIs` | lib/core/src/QProgramDevice.cpp:544-558 | a constructed device has queried once and is in created, with INIT_ERROR pending exactly when the query failed |
| `ProgramStatus.UnloadIs` | lib/core/src/QProgramDevice.cpp:228-250 | what `unload` reports and leaves behind in each resting state, with and without execution objects |
| `ProgramStatus.NotifyIs` | lib/core/src/QProgramDevice.cpp:252-301 | what an event does in each resting state: ignored unless it concerns the device or the channel of the held network; a failure ends in device_error but for load_failed, and only a device-up with a successful query leads out of it |
| `ProgramStatus.RegisterIs` | lib/core/src/QProgramDevice.cpp:303-307 | registering adds exactly the object, behind the others |
| `ProgramStatus.UnregisterIs` | lib/core/src/QProgramDevice.cpp:309-318 | unregistering takes out exactly the first occurrence, and reports whether there is one |
| `ProgramStatus.UnregisterUndoes` | lib/core/src/QProgramDevice.cpp:303-318 | a registration can be undone |
| `ProgramLosses.CallLosesIff` | lib/core/src/QProgramDevice.cpp:507-542 | a call or event loses an activated network if and only if it is an activation that reaches the activate action while a network is held, and then it loses that one; outside of ac_ready a network is held only after a failed teardown or a failed activation that handed one out |
| `ProgramLosses.NetworksAreAccountedFor` | lib/core/src/QProgramDevice.cpp:183-542 | conservation over runs: every network ever handed out is held, was torn down, or was overwritten by one of the counted activations |
| `ProgramLosses.OrderlyLosesNone` | lib/core/src/QProgramDevice.cpp:183-542 | on a device whose teardowns succeed and whose failed activations hand out nothing, no run from construction loses a network, and one is held exactly in ac_ready |
| `ProgramLosses.FailedTeardownLoses` | lib/core/src/QProgramDevice.cpp:507-542 | device down with a failing teardown, device up and a new activation lose the network of any ready program |
| `ProgramDevice.Device.constructor` | lib/core/src/QProgramDevice.cpp:544-558 | construction enters created_super, which validates the device, and created |
| `ProgramDevice.Device.Validate` | lib/core/src/QProgramDevice.cpp:440-473 | the device is queried once; the flag is set on success only |
| `ProgramDevice.Device.LoadImage` | lib/core/src/QProgramDevice.cpp:475-505 | fetches the device image unless one is held, and fails without a network image |
| `ProgramDevice.Device.UnloadImage` | lib/core/src/QProgramDevice.cpp:522-532 | drops both images |
| `ProgramDevice.Device.ActivateNetwork` | lib/core/src/QProgramDevice.cpp:507-520 | stores the returned handle even when the status is a failure |
| `ProgramDevice.Device.DeactivateNetwork` | lib/core/src/QProgramDevice.cpp:534-542 | a failed teardown keeps the handle |
| `ProgramDevice.Device.EnterState` | lib/core/src/QProgramDevice.cpp:643-950 | the entry action of every state, and the completion signal it posts |
| `ProgramDevice.Device.HandleCreatedSuper` | lib/core/src/QProgramDevice.cpp:654-665 | INIT_ERROR becomes DEVICE_DOWN, ACTIVATE becomes LOAD then ACTIVATE |
| `ProgramDevice.Device.HandleDeviceError` | lib/core/src/QProgramDevice.cpp:935-939 | DEVICE_UP leads to created only when validation succeeds |
| `ProgramDevice.Device.HandleOther` | lib/core/src/QProgramDevice.cpp:676-975 | the transitions of the other states |
| `ProgramDevice.Device.OfferEvent` | lib/core/src/QProgramDevice.cpp:643-975 | the dispatcher's loop up the super-states computes the bubbling |
| `ProgramDevice.Device.TakeTransition` | lib/core/src/QProgramDevice.cpp:643-975 | the two loops of a transition enter exactly the entry path, in order |
| `ProgramDevice.Device.DispatchEvent` | lib/core/src/QProgramDevice.cpp:977-989 | one event is handled as specified |
| `ProgramDevice.Device.Run` | lib/core/src/QProgramDevice.cpp:977-989 | the drain loop ends in the settled configuration, with the measure above as its variant |
| `ProgramDevice.Device.PostAndRun` | lib/core/src/QProgramDevice.cpp:995-1000 | post, then drain |
| `ProgramDevice.Device.LoadProgram` | lib/core/src/QProgramDevice.cpp:183-202 | returns at once inside loaded_super, else posts LOAD; success iff the program then reads as loaded |
| `ProgramDevice.Device.ActivateProgram` | lib/core/src/QProgramDevice.cpp:386-401 | success iff the program is then in ac_ready |
| `ProgramDevice.Device.DeactivateProgram` | lib/core/src/QProgramDevice.cpp:420-435 | success iff the program then reads as loaded or created |
| `ProgramDevice.Device.ProcessActivateCmd` | lib/core/src/QProgramDevice.cpp:204-226 | deactivation is refused while an execution object is registered |
| `ProgramDevice.Device.UnloadProgram` | lib/core/src/QProgramDevice.cpp:228-250 | deactivates first when active, and is refused while an execution object is registered |
| `ProgramDevice.Device.NotifyDeviceStateInfo` | lib/core/src/QProgramDevice.cpp:252-301 | which device events post which signal |
| `ProgramDevice.Device.RegisterExecObj` | lib/core/src/QProgramDevice.cpp:303-307 | appends the object |
| `ProgramDevice.Device.UnregisterExecObj` | lib/core/src/QProgramDevice.cpp:309-318 | removes the first occurrence, or reports that there is none |
| `ChunkLayout.AlignToSpec` | lib/metadata/metadata-common/src/AICMetadataWriter.cpp:10 | `alignTo` is the least multiple of the alignment that is not below the size |
| `ChunkLayout.LayKeepsPrefix` | lib/metadata/metadata-common/src/AICMetadataWriter.cpp:23-32 | appending writes never changes bytes written before |
| `ChunkLayout.ChunkBounds` | lib/metadata/metadata-common/src/AICMetadataWriter.cpp:23-32 | every write is aligned, in bounds, and ends before the next one starts |
| `ChunkLayout.ChunksDisjoint` | lib/metadata/metadata-common/src/AICMetadataWriter.cpp:23-32 | no two writes overlap |
| `ChunkLayout.ReadChunk` | lib/metadata/metadata-common/src/AICMetadataWriter.cpp:23-32 | the bytes at a recorded offset are the bytes that were written there |
| `ChunkLayout.PatchInChunk` | lib/metadata/metadata-common/src/AICMetadataWriter.cpp:34-40 | overwriting part of one write is the same as having written the patched bytes: all others are untouched |
| `ChunkLayout.PlaceIsContiguous` | lib/metadata/metadata-common/src/AICMetadataWriter.cpp:73-79 | records written one at a time form one array when their size is a multiple of the alignment |
| `MetadataFormat.CodecsAreLawful` | lib/metadata/metadata-common/inc/AICMetadata.h:54-301 | every record type has its fixed size and reads back what was encoded |
| `MetadataFormat.HeaderRoundTrip` | lib/metadata/metadata-common/inc/AICMetadata.h:312-475 | the 160-byte header reads back every pointer, count and scalar |
| `MetadataOffsets.SemaphoreOpFieldsAt` | lib/metadata/metadata-common/inc/AICMetadata.h:54-67 | at which byte each field of a semaphore operation lies, and which digits to the base 256 it holds |
| `MetadataOffsets.DoorbellOpFieldsAt` | lib/metadata/metadata-common/inc/AICMetadata.h:86-92 | the same for a doorbell operation |
| `MetadataOffsets.RequestFieldsAt` | lib/metadata/metadata-common/inc/AICMetadata.h:123-155 | the same for a DMA request |
| `MetadataOffsets.NspEntryFieldsAt` | lib/metadata/metadata-common/inc/AICMetadata.h:181-191 | the same for a multicast entry |
| `MetadataOffsets.TableFieldsAt` | lib/metadata/metadata-common/inc/AICMetadata.h:204-211 | the same for a multicast table |
| `MetadataOffsets.HostEntryFieldsAt` | lib/metadata/metadata-common/inc/AICMetadata.h:224-228 | the same for a host entry |
| `MetadataOffsets.ThreadFieldsAt` | lib/metadata/metadata-common/inc/AICMetadata.h:262-276 | the same for a thread descriptor |
| `MetadataOffsets.MappingFieldsAt` | lib/metadata/metadata-common/inc/AICMetadata.h:295-301 | the same for a constant mapping |
| `MetadataOffsets.HeaderFieldsAt` | lib/metadata/metadata-common/inc/AICMetadata.h:312-475 | the same for the 160-byte header, without a gap |
| `MetadataFile.HeaderOffsets` | lib/metadata/metadata-common/src/AICMetadataWriter.cpp:128-171 | the bytes of the file, without decoding: versions, and the offsets of the eight regions, 0 for an empty one |
| `MetadataFile.HeaderCounts` | lib/metadata/metadata-common/src/AICMetadataWriter.cpp:128-171 | sizes and counts in the file's header; a count that is too large is cut to its field |
| `MetadataFile.HeaderFlags` | lib/metadata/metadata-common/src/AICMetadataWriter.cpp:128-171 | the hardware version, the flags and the memory sizes in the file's header |
| `MetadataFile.RequestBytes` | lib/metadata/metadata-common/src/AICMetadataWriter.cpp:56-80 | where each field of request i lies in the file, and where its operations are |
| `MetadataFile.SemaphoreOpBytes` | lib/metadata/metadata-common/src/AICMetadataWriter.cpp:56-80 | where each field of each semaphore operation lies in the file |
| `MetadataFile.DoorbellOpBytes` | lib/metadata/metadata-common/src/AICMetadataWriter.cpp:56-80 | where each field of each doorbell operation lies in the file |
| `MetadataFile.TableBytes` | lib/metadata/metadata-common/src/AICMetadataWriter.cpp:82-108 | each core's table in the file: where its entries are and how many |
| `MetadataFile.NspEntryBytes` | lib/metadata/metadata-common/src/AICMetadataWriter.cpp:82-108 | where each field of each entry of a core lies in the file |
| `MetadataFile.HostTableBytes` | lib/metadata/metadata-common/src/AICMetadataWriter.cpp:82-108 | the host table in the file |
| `MetadataFile.HostEntryBytes` | lib/metadata/metadata-common/src/AICMetadataWriter.cpp:82-108 | where each host entry lies in the file |
| `MetadataFile.ThreadBytes` | lib/metadata/metadata-common/src/AICMetadataWriter.cpp:110-116 | where each thread descriptor lies in the file |
| `MetadataFile.MappingBytes` | lib/metadata/metadata-common/src/AICMetadataWriter.cpp:118-126 | where each constant mapping lies in the file |
| `MetadataFile.SemaphoreBytes` | lib/metadata/metadata-common/src/AICMetadataWriter.cpp:42-47 | where each semaphore value lies in the file |
| `MetadataFile.PlainBytes` | lib/metadata/metadata-common/src/AICMetadataWriter.cpp:49-54 | the L2TCM bytes and the name with its NUL as they stand in the file |
| `MetadataLayout.FrontLayout` | lib/metadata/metadata-common/src/AICMetadataWriter.cpp:128-171 | header, name, semaphores and L2TCM bytes follow each other at the next aligned offset |
| `MetadataLayout.RequestLayout` | lib/metadata/metadata-common/src/AICMetadataWriter.cpp:56-80 | then the operations request by request, and the requests; nothing is written for an empty array |
| `MetadataLayout.TableLayout` | lib/metadata/metadata-common/src/AICMetadataWriter.cpp:82-96 | then the entries core by core, and the tables |
| `MetadataLayout.BackLayout` | lib/metadata/metadata-common/src/AICMetadataWriter.cpp:98-126 | then the host entries, the host table, the threads and the mappings, with which the file ends |
| `MetadataImage.LayoutIsSafe` | lib/metadata/metadata-common/src/AICMetadataWriter.cpp:128-171 | every region of the image is aligned, in bounds, holds its bytes and is disjoint from all earlier ones |
| `MetadataImage.RegionLayout` | lib/metadata/metadata-common/src/AICMetadataReader.c:18-88 | relocating pointers neither moves nor resizes a region |
| `MetadataRelocation.RelocateSlot` | lib/metadata/metadata-common/src/AICMetadataReader.c:10-16 | one `computeAddr` fix-up finds its assertion true on writer output and turns the image with t pointers relocated into the one with t + 1, changing nothing else |
| `MetadataRelocation.FileIsAnywhere` | lib/metadata/metadata-common/src/AICMetadataReader.c:18-39 | before the first fix-up the bytes do not depend on the load address |
| `MetadataReader.ReaderRelocatesImages` | lib/metadata/metadata-common/src/AICMetadataReader.c:18-88 | on the image of any content the reader succeeds, unless the version differs, and yields exactly the image with every pointer relocated |
| `MetadataReader.ReadRequests` | lib/metadata/metadata-common/src/AICMetadataReader.c:51-58 | the request loop, which looks up array and count anew each time, relocates the two pointers of every counted request |
| `MetadataReader.ReadTables` | lib/metadata/metadata-common/src/AICMetadataReader.c:64-70 | the core loop relocates the entry pointer of every table |
| `MetadataReader.FollowSlot` | lib/metadata/metadata-common/src/AICMetadataReader.c:37-86 | a relocated pointer leads to the region it refers to |
| `ReaderChecks.RelocateIs` | lib/metadata/metadata-common/src/AICMetadataReader.c:10-16 | one fix-up in any buffer: it fails exactly when the slot or the offset in it lies outside of the buffer, an offset equal to the size is let through, and otherwise the eight bytes hold base + offset and no other byte changes |
| `ReaderChecks.VersionIs` | lib/metadata/metadata-common/src/AICMetadataReader.c:27-35 | the reader accepts version 1.0 and no other, byte by byte |
| `ImageReader.RelocateAt` | lib/metadata/metadata-common/src/AICMetadataReader.c:10-16 | overwrites eight bytes in place, or fails where the offset lies outside the buffer |
| `ImageReader.RelocateRequestLoop` | lib/metadata/metadata-common/src/AICMetadataReader.c:51-58 | the in-place request loop computes the specified relocation |
| `ImageReader.RelocateTableLoop` | lib/metadata/metadata-common/src/AICMetadataReader.c:66-70 | the in-place core loop computes the specified relocation |
| `ImageReader.Read` | lib/metadata/metadata-common/src/AICMetadataReader.c:18-88 | the whole reader on the caller's array: relocated memory on success, untouched memory on a version mismatch |
| `FlatTranslation.ExpressibleIsAllIff` | lib/metadata/metadata-common/src/AICMetadataWriter.cpp:42-126 | an image expresses the whole content if and only if every count fits its field and the name has no NUL |
| `MetadataRoundTrip.TranslationOfImage` | lib/metadata/metadata-flatbuffer/include/metadataflatbufEncode.hpp:279-533 | translating any loaded image stays in memory and yields the content cut to what the counts express |
| `MetadataRoundTrip.RoundTrip` | lib/metadata/metadata-common/src/AICMetadataWriter.cpp:128-171 | write, read at any address, translate: the result is the content its counts express, for every content |
| `MetadataRoundTrip.RoundTripIsExactIff` | lib/metadata/metadata-common/src/AICMetadataReader.c:18-88 | the round trip gives back exactly the content if and only if the counts fit and the name has no NUL |
| `FlatCommutes.CallKeepsAgreement` | lib/metadata/metadata-flatbuffer/src/metadataFlatbufferWriter.cpp:66-333 | every admitted builder call keeps the two writers in agreement |
| `FlatCommutes.RunsAgree` | lib/metadata/metadata-flatbuffer/src/metadataFlatbufferWriter.cpp:66-333 | the writers agree after any sequence of admitted calls |
| `FlatCommutes.BothPathsAgreeIff` | lib/metadata/metadata-flatbuffer/include/metadataflatbufEncode.hpp:488-533 | the same calls on the binary writer, finalized, read and translated, and on the flat writer give the same flat content if and only if the counts fit, the name has no NUL and the number of cores was never set higher than it ends |
| `MetadataCalls.CallsAreHeld` | lib/metadata/metadata-common/src/AICMetadataWriter.cpp:173-337 | what the binary writer has collected after any admitted calls, read off the calls alone: requests, entries per core, host entries, threads with the bits of their type and mappings, each in call order; the values and the name that were set last; the state that each semaphore and each L2TCM byte was given last |
| `MetadataCalls.MappingIsAdmittedIff` | lib/metadata/metadata-common/src/AICMetadataWriter.cpp:325-337 | a constant mapping is admitted exactly when none of its cores was mapped by an earlier call |
| `MetadataCalls.FileHoldsCallsIff` | lib/metadata/metadata-common/src/AICMetadataWriter.cpp:128-171 | from the calls to the file and back: what is finalized, read at any address and translated holds exactly what the calls said, if and only if the counts fit their fields and the name has no NUL |
| `MetadataCalls.FlatHoldsCalls` | lib/metadata/metadata-flatbuffer/src/metadataFlatbufferWriter.cpp:23-333 | the flat writer packs exactly what the calls said, without any condition, with a table for each core up to the highest number ever set |
| `FlatEncode.CopyRecords` | lib/metadata/metadata-flatbuffer/include/metadataflatbufEncode.hpp:279-296 | a translation loop copies exactly the counted records behind a pointer, in order |
| `FlatEncode.TranslateRequests` | lib/metadata/metadata-flatbuffer/include/metadataflatbufEncode.hpp:385-415 | requests with their semaphore and doorbell operations |
| `FlatEncode.TranslateTables` | lib/metadata/metadata-flatbuffer/include/metadataflatbufEncode.hpp:422-446 | one table of entries for each core |
| `FlatEncode.TranslateHostTable` | lib/metadata/metadata-flatbuffer/include/metadataflatbufEncode.hpp:363-379 | the host entries behind the table pointer |
| `FlatEncode.TranslateName` | lib/metadata/metadata-flatbuffer/include/metadataflatbufEncode.hpp:495 | the C string up to its NUL |
| `FlatEncode.Translate` | lib/metadata/metadata-flatbuffer/include/metadataflatbufEncode.hpp:488-533 | the whole translation computes the specified flat content |
| `BinaryWriter.AICMetadataWriter.constructor` | lib/metadata/metadata-common/src/AICMetadataWriter.cpp:12-21 | the stamped versions and defaults, sixteen empty tables |
| `BinaryWriter.AICMetadataWriter.SetNumNSPs` | lib/metadata/metadata-common/inc/AICMetadataWriter.h:93 | sets the core count only |
| `BinaryWriter.AICMetadataWriter.SetNetworkName` | lib/metadata/metadata-common/inc/AICMetadataWriter.h:105 | sets the name |
| `BinaryWriter.AICMetadataWriter.SetNumSemaphores` | lib/metadata/metadata-common/inc/AICMetadataWriter.h:109-112 | resizes the semaphore state with zeros and records the count |
| `BinaryWriter.AICMetadataWriter.InitSemaphore` | lib/metadata/metadata-common/inc/AICMetadataWriter.h:114-117 | sets one semaphore |
| `BinaryWriter.AICMetadataWriter.InitL2TCMResize` | lib/metadata/metadata-common/inc/AICMetadataWriter.h:121 | resizes with zero bytes |
| `BinaryWriter.AICMetadataWriter.InitL2TCMByte` | lib/metadata/metadata-common/inc/AICMetadataWriter.h:122-125 | sets one byte |
| `BinaryWriter.AICMetadataWriter.InitL2TCMWord` | lib/metadata/metadata-common/inc/AICMetadataWriter.h:126-134 | sets four bytes, least significant first, and no others |
| `BinaryWriter.AICMetadataWriter.AddSemaphoreOp` | lib/metadata/metadata-common/src/AICMetadataWriter.cpp:198-230 | the caller's vector stays a prefix, the new operation holds the arguments field by field, and the vector is valid for a request exactly when it was before |
| `BinaryWriter.AICMetadataWriter.AddDoorbellOp` | lib/metadata/metadata-common/src/AICMetadataWriter.cpp:232-257 | the caller's vector stays a prefix, the new operation holds the arguments field by field, and the vector is valid for a request exactly when it was before |
| `BinaryWriter.AICMetadataWriter.AddDMARequest` | lib/metadata/metadata-common/src/AICMetadataWriter.cpp:259-284 | appends the request with its operations |
| `BinaryWriter.AICMetadataWriter.AddNSPMulticastEntry` | lib/metadata/metadata-common/src/AICMetadataWriter.cpp:286-301 | appends to one core's table and no other |
| `BinaryWriter.AICMetadataWriter.AddHostMulticastEntry` | lib/metadata/metadata-common/src/AICMetadataWriter.cpp:303-309 | appends to the host table |
| `BinaryWriter.AICMetadataWriter.AddThreadDescriptor` | lib/metadata/metadata-common/src/AICMetadataWriter.cpp:311-323 | appends with the type mask of the two flags |
| `BinaryWriter.AICMetadataWriter.AddConstantMapping` | lib/metadata/metadata-common/src/AICMetadataWriter.cpp:325-337 | appends and marks the cores as mapped |
| `BinaryWriter.AICMetadataWriter.Write` | lib/metadata/metadata-common/src/AICMetadataWriter.cpp:23-32 | places the bytes at the next aligned offset and returns it; what was there is a prefix of the result |
| `BinaryWriter.AICMetadataWriter.Overwrite` | lib/metadata/metadata-common/src/AICMetadataWriter.cpp:34-40 | the bound and alignment assertions hold, and only the addressed bytes change |
| `BinaryWriter.AICMetadataWriter.WriteRecord` | lib/metadata/metadata-common/src/AICMetadataWriter.cpp:73-79 | placing record i keeps the first i records contiguous behind the recorded offset |
| `BinaryWriter.AICMetadataWriter.FiniSemaphoreState` | lib/metadata/metadata-common/src/AICMetadataWriter.cpp:42-47 | the semaphore region or, when empty, offset 0 and no bytes |
| `BinaryWriter.AICMetadataWriter.FiniL2TCMState` | lib/metadata/metadata-common/src/AICMetadataWriter.cpp:49-54 | the same for the L2TCM bytes, with their count |
| `BinaryWriter.AICMetadataWriter.FiniDMARequests` | lib/metadata/metadata-common/src/AICMetadataWriter.cpp:56-80 | all operations, then the completed request records as one array |
| `BinaryWriter.AICMetadataWriter.FiniMulticastTables` | lib/metadata/metadata-common/src/AICMetadataWriter.cpp:82-108 | entries of every core, the tables as one array, host entries and host table |
| `BinaryWriter.AICMetadataWriter.FiniThreadDescriptors` | lib/metadata/metadata-common/src/AICMetadataWriter.cpp:110-116 | the thread array, count and offset |
| `BinaryWriter.AICMetadataWriter.FiniConstantMappings` | lib/metadata/metadata-common/src/AICMetadataWriter.cpp:118-126 | the mapping array, count and offset; the mapped cores are cleared |
| `BinaryWriter.AICMetadataWriter.PatchHeader` | lib/metadata/metadata-common/src/AICMetadataWriter.cpp:165 | the final write changes the header only, and its strict bound assertion holds |
| `BinaryWriter.AICMetadataWriter.Finalize` | lib/metadata/metadata-common/src/AICMetadataWriter.cpp:128-171 | the buffer is exactly the image of the collected content, whatever was collected within the assertions |
| `WriterPlan.PointersAreComplete` | lib/metadata/metadata-common/src/AICMetadataWriter.cpp:42-126 | the offsets recorded by the seven steps are those of the image's header |
| `WriterPlan.PlanIs` | lib/metadata/metadata-common/src/AICMetadataWriter.cpp:128-171 | the chunks of the image are those that the seven steps write, in their order |
| `WriterPlan.NextRecord` | lib/metadata/metadata-common/src/AICMetadataWriter.cpp:73-79 | one record more extends the array in place of its chunk |
| `MetadataWriter.LastPatch` | lib/metadata/metadata-common/src/AICMetadataWriter.cpp:164-165 | patching the provisional header gives the image, and the patched range ends strictly before the buffer does |
| `FlatWriter.MetadataFlatbufferWriter.constructor` | lib/metadata/metadata-flatbuffer/src/metadataFlatbufferWriter.cpp:9-21 | stamps the six arguments; everything else is empty or 0 |
| `FlatWriter.MetadataFlatbufferWriter.SetNumNSPs` | lib/metadata/metadata-flatbuffer/include/metadataFlatbufferWriter.h:59-66 | grows the table vector, never shrinks it |
| `FlatWriter.MetadataFlatbufferWriter.SetNumSemaphores` | lib/metadata/metadata-flatbuffer/include/metadataFlatbufferWriter.h:83-86 | resizes the semaphore state and stores the count |
| `FlatWriter.MetadataFlatbufferWriter.InitL2TCMResize` | lib/metadata/metadata-flatbuffer/include/metadataFlatbufferWriter.h:93-96 | resizes and stores the size |
| `FlatWriter.MetadataFlatbufferWriter.InitL2TCMWord` | lib/metadata/metadata-flatbuffer/include/metadataFlatbufferWriter.h:101-109 | sets four bytes, least significant first |
| `FlatWriter.MetadataFlatbufferWriter.AddDMARequest` | lib/metadata/metadata-flatbuffer/src/metadataFlatbufferWriter.cpp:238-267 | appends the request with copies of its operations |
| `FlatWriter.MetadataFlatbufferWriter.AddNSPMulticastEntry` | lib/metadata/metadata-flatbuffer/src/metadataFlatbufferWriter.cpp:269-285 | appends to one core's table |
| `FlatWriter.MetadataFlatbufferWriter.AddHostMulticastEntry` | lib/metadata/metadata-flatbuffer/src/metadataFlatbufferWriter.cpp:287-294 | appends to the host table |
| `FlatWriter.MetadataFlatbufferWriter.AddThreadDescriptor` | lib/metadata/metadata-flatbuffer/src/metadataFlatbufferWriter.cpp:296-308 | appends with the type mask of the two flags |
| `FlatWriter.MetadataFlatbufferWriter.AddConstantMapping` | lib/metadata/metadata-flatbuffer/src/metadataFlatbufferWriter.cpp:320-333 | appends and marks the cores as mapped |
| `FlatWriter.MetadataFlatbufferWriter.Finalize` | lib/metadata/metadata-flatbuffer/src/metadataFlatbufferWriter.cpp:23-39 | names an unnamed network and hands out the collected flat content |
| `DmaElement.SemRoundTripIff` | lib/network-driver/inc/QDmaElement.h:54-73 | a semaphore word carries a command if and only if every field fits its bits |
| `DmaElement.CmdRoundTripIff` | lib/network-driver/inc/QDmaElement.h:151-164 | the command byte carries a DMA command if and only if its fields fit |
| `DmaElement.ElementRoundTripIff` | lib/network-driver/inc/QDmaElement.h:387-442 | the sixteen words carry an element if and only if every field fits |
| `DmaElement.DecodedFits` | lib/network-driver/inc/QDmaElement.h:387-419 | whatever is decoded fits, from any sixteen words |
| `DmaElement.RelocationsCompose` | lib/network-driver/inc/QDmaElement.h:219-283 | relocating any words by (a, b) and then (c, d) equals relocating once by (a + c, b + d), with 64-bit wrap-around |
| `DmaElement.RelocatedMeans` | lib/network-driver/inc/QDmaElement.h:219-283 | reading relocated words gives the relocated element |
| `DmaElement.RelocateKeepsFit` | lib/network-driver/inc/QDmaElement.h:270-283 | relocation changes the three addresses only |
| `DmaPipeline.PipelineMeaning` | lib/network-driver/src/QImageParser.cpp:95-181 | parse, relocate and update yield words that decode to the request: direction, length, doorbell, semaphores, the buffer start on the host side and base + 0x800000 mcId + offset (or DDR base + offset) mod 2^64 on the device side |
| `DmaPipeline.RelocatedMeaning` | lib/network-driver/src/QImageParser.cpp:95-181 | the relocated element of a request within limits is valid, means the request, and its words carry it |
| `DmaPipeline.NumBuf` | lib/network-driver/src/QImageParser.cpp:105-108 | one more than the highest buffer number, so every element's buffer index is in range |
| `DmaUpdate.NoZeroIDIff` | lib/network-driver/inc/QMetaData.h:65-68 | no element of a batch gets request ID 0 if and only if the IDs stay below 65536 |
| `DmaUpdate.SuccessiveIDs` | lib/network-driver/inc/QMetaData.h:59-99 | within the limit IDs are consecutive, and two successive batches share none |
| `DmaUpdate.UpdateIs` | lib/network-driver/inc/QMetaData.h:51-99 | an update succeeds iff there is room and every buffer is there and large enough; then element k holds its words with the k-th ID and its buffer's address, the others are untouched, the next ID follows the batch, and the ID to wait for is that of the last element that asks for a response |
| `DmaUpdate.UpdateFailsAt` | lib/network-driver/inc/QMetaData.h:51-88 | a failed update: without room nothing is changed; otherwise the elements in front of the first that is not ready are complete, that one has its ID if its buffer is there but is no use, all others are untouched, and neither the next ID, but for skipping 0, nor the ID to wait for moves on |
| `DmaUpdate.BatchMeaning` | lib/network-driver/inc/QMetaData.h:51-99 | a batch on an activated network succeeds iff every request's buffer is supplied, and element i then means request i |
| `DmaMetaData.SliceMeaning` | lib/network-driver/inc/QDmaElement.h:242-267 | the slice entry given to the kernel holds the request's device address, doorbell with its length in bits, and semaphores |
| `DmaWords.SemaphoresMean` | lib/network-driver/src/QImageParser.cpp:159-172 | semaphore j of the completed words says what operation j of the request says, field by field, and is off if there is no such operation |
| `DmaWords.MeaningSays` | lib/network-driver/inc/QDmaElement.h:421-442 | every bit of the sixteen words of a request: ID and command byte, host and device address, length, doorbell, and each semaphore by its masks |
| `DmaWords.CompletedEncodes` | lib/network-driver/inc/QMetaData.h:77-95 | parse, relocate and update yield exactly the encoding of the request's meaning |
| `DmaWords.BatchSays` | lib/network-driver/inc/QMetaData.h:51-99 | a batch whose buffers are supplied, bit by bit: element i says what request i says under the i-th ID, and the ID to wait for is that of the last request if it goes to the host |
| `DmaWords.SliceForSays` | lib/network-driver/inc/QDmaElement.h:242-267 | the kernel's slice entry says what the request says: device side, doorbell with its length in bits, and each semaphore field by field |
| `DmaMetaData.QDmaRequestElement.constructor` | lib/network-driver/inc/QDmaElement.h:200-217 | the element owns words that encode its fields |
| `DmaMetaData.QDmaRequestElement.FromData` | lib/network-driver/inc/QDmaElement.h:193-196 | a view on foreign words, decoded |
| `DmaMetaData.QDmaRequestElement.Copy` | lib/network-driver/inc/QDmaElement.h:219-240 | a relocated copy with words of its own; the copy of a view stays an unrelocated view |
| `DmaMetaData.QDmaRequestElement.EncodeWords` | lib/network-driver/inc/QDmaElement.h:421-442 | all sixteen words |
| `DmaMetaData.QDmaRequestElement.UpdateElement` | lib/network-driver/inc/QDmaElement.h:270-283 | relocated fields, encoded again |
| `DmaMetaData.Parse` | lib/network-driver/src/QImageParser.cpp:89-181 | the loop computes stencil, element-to-buffer vector and buffer count |
| `DmaMetaData.ParseOne` | lib/network-driver/src/QImageParser.cpp:95-178 | one request becomes the specified element; operations beyond the fourth semaphore are dropped |
| `DmaMetaData.QMetaData.GetUpdatedMetadata` | lib/network-driver/inc/QMetaData.h:36-47 | every element relocated, in order, in a new object with the same buffer count and element-to-buffer vector |
| `DmaMetaData.QMetaData.UpdateDmaReqElements` | lib/network-driver/inc/QMetaData.h:51-99 | the loop with its 16-bit counters computes the specified update in the caller's memory |
| `InfGrouping.GroupsPartition` | lib/network-driver/src/QNeuralNetwork.cpp:176-267 | the groups are non-empty and consecutive from 0 to the element count, and only the last element of each ends it |
| `InfGrouping.GroupSharesBuffer` | lib/network-driver/src/QNeuralNetwork.cpp:215-217 | all elements of a group use one buffer, and only the last may have size 0 |
| `InfGrouping.RecordsFitIff` | lib/network-driver/src/QNeuralNetwork.cpp:312-368 | records, slice entries and execute entries fit the allocation if and only if the sized runs are no more than the buffers |
| `InfGrouping.ConsecutiveFits` | lib/network-driver/src/QNeuralNetwork.cpp:312-368 | when each buffer's elements are consecutive there are at most numBuf groups plus the zero-sized elements, and everything fits |
| `InfGrouping.AlternatingOverflows` | lib/network-driver/src/QNeuralNetwork.cpp:312-368 | three elements alternating between two buffers need more records than there is room for |
| `InfGrouping.SteppedIsClosedForm` | lib/network-driver/src/QNeuralNetwork.cpp:260-262 | the builder's stepped pointer for record k is k fixed headers plus the entries before it |
| `InfGrouping.SizedGroupsGetMemoryIff` | lib/network-driver/src/QNeuralNetwork.cpp:226-231 | every record with sized elements gets a sized buffer object if and only if no zero-sized element directly follows a sized one of its buffer |
| `InfGrouping.SingleElementGroups` | lib/network-driver/src/QNeuralNetwork.cpp:190-194 | without neighbours that share a buffer, group k is element k |
| `InfGrouping.WithinBuffersIff` | lib/network-driver/src/QNeuralNetwork.cpp:747-751 | there are no more records than buffers if and only if sized runs and zero-sized elements together are no more |
| `InfGrouping.RecordIsBufferIff` | lib/network-driver/src/QNeuralNetwork.cpp:747-751 | record k is for buffer k, for all records, if and only if buffer numbers start at 0 and go up by one where they change and behind each zero-sized element |
| `InfHandle.CreateInfHandle` | lib/network-driver/src/QNeuralNetwork.cpp:176-277 | a handle iff every element is supported, every buffer object can be used and the records fit what was allocated; a write outside of the allocation exactly at the first record that is one too many, if nothing stops the loop before; otherwise the complete records are released once, and of all objects created only one stays open, if any: the one that could not be sliced or mapped |
| `InfHandle.Release` | lib/network-driver/src/QNeuralNetwork.cpp:130-142 | a failure at an element closes the handle of every complete record, in order |
| `InfHandle.DirOfIs` | lib/network-driver/src/QNeuralNetwork.cpp:255-256 | the direction kept for a buffer is that of the last element that ended a group of it, and none if that element has size 0 |
| `InfHandle.CloseRecord` | lib/network-driver/src/QNeuralNetwork.cpp:218-265 | closing a group fills its record and steps over it |
| `InfHandle.WaitsIff` | lib/network-driver/src/QNeuralNetwork.cpp:252-254 | the handle to wait on is set if and only if the awaited element ends its group |
| `InfHandle.AwaitedIsItsRecord` | lib/network-driver/src/QNeuralNetwork.cpp:252-254 | and then it is the handle of the record whose last element is the awaited one |
| `InfHandle.PassesIff` | lib/network-driver/src/QNeuralNetwork.cpp:176-265 | nothing stops the loop exactly when every buffer with data is on the heap, no two neighbours share a buffer if the tensors are partial, and the kernel's answer to every record is of use |
| `InfRecords.FreeMemReq` | lib/runtime-platform/src/dev/aic100/QDevInterfaceAic100.cpp:18-37 | the walk finds every record, closes the handles of exactly those whose channel is valid, in order, and marks them invalid |
| `InfRecords.InPlaceIsLaid` | lib/network-driver/src/QNeuralNetwork.cpp:260-262 | what the builder leaves behind is what the walks expect, and all its records are valid: releasing it closes each handle once |
| `InfRecords.MarkedClosesNone` | lib/runtime-platform/src/dev/aic100/QDevInterfaceAic100.cpp:27-32 | walking released records once more closes none |
| `InfRecords.UnprepareBuf` | lib/network-driver/src/QNeuralNetwork.cpp:743-775 | stays within the buffers iff there are no more records than buffers; then it closes the valid records and unmaps the heap buffers with the numbers of the records |
| `InfHandle.PartialEntryIsElement` | lib/network-driver/src/QNeuralNetwork.cpp:439-467 | with partial tensors execute entry k belongs to element k alone |
| `InfHandle.PrepareData` | lib/network-driver/src/QNeuralNetwork.cpp:456-464 | sets the size of exactly the to-device entries whose buffer has a new size |
| `InfRequests.ItemKeepsDirection` | lib/network-driver/src/QImageParser.cpp:95-181 | the network's copy of a request keeps its buffer number and its direction, whatever its semaphores are |
| `InfRequests.GetDmaDirections` | lib/network-driver/inc/QMetaData.h:101-129 | succeeds iff every buffer number is below the number of elements; an element comes from the device iff it moves data outwards |
| `InfRequests.FindAwaited` | lib/network-driver/src/QNeuralNetwork.cpp:312-328 | the element to wait for is the last one from the device, or the last of all; there is a record for each buffer and each zero-sized element |
| `InfRequests.ParsedIsWellFormed` | lib/network-driver/src/QImageParser.cpp:105-108 | what parsing yields is a well-formed batch for as many buffers as it counted |
| `InfRequests.GetInfHandle` | lib/network-driver/src/QNeuralNetwork.cpp:287-395 | nothing when the number of buffers is wrong or a buffer number is not below the number of requests; otherwise a handle iff all elements and answers are in order, the records fit and the PCI data can be read; a write outside of the allocation iff the batch overruns it; after a failure with complete records a second walk reads destroyed memory; in every case which handles were created and closed |
| `InfRequests.RecordsMeanRequests` | lib/network-driver/src/QNeuralNetwork.cpp:176-277 | from the metadata to the kernel: request i is an entry of the record of its group, with its size, its offset in its buffer, its device address, doorbell and semaphores; the record has the buffer of the request and the direction of the last request in it |
| `InfRequests.HandleIff` | lib/network-driver/src/QNeuralNetwork.cpp:287-395 | whether a handle is made, in terms of the requests, the buffers and the kernel's answers |
| `InfRequests.NumberTooHigh` | lib/network-driver/inc/QMetaData.h:112-115 | one request with buffer number 1 or higher passes the parser, and no handle can be had for it |
| `SubmitBackoff.UnitsAre` | lib/network-driver/src/QNeuralNetwork.cpp:684-685 | the first n waits take n + (n-1) n (n+1) / 6 units of the base |
| `SubmitBackoff.TotalWaitIs` | lib/network-driver/src/QNeuralNetwork.cpp:684-685 | the total of the waits is the base times those units, for every base and number of waits |
| `SubmitBackoff.SumIs` | lib/network-driver/src/QNeuralNetwork.cpp:684-685 | waits that were cut to 32 bits sum to at most that total, and to exactly that unless one of them exceeds 32 bits |
| `SubmitBackoff.RunExecute` | lib/network-driver/src/QNeuralNetwork.cpp:612-700 | for every first wait and every limit: how many commands are issued, each wait, the status of each way out, and the sum of the waits against base (n + (n-1) n (n+1) / 6) |
| `SubmitBackoff.LastAnswerDecides` | lib/network-driver/src/QNeuralNetwork.cpp:612-700 | the last answer decides the status; every one before it asked for a retry, wait k is base (1 + k (k - 1) / 2) in 32 bits, and a call is busy exactly when the last command allowed was refused |
| `SubmitBackoff.LongestWait` | lib/network-driver/src/QNeuralNetwork.cpp:656-667 | with the constants of the driver no call waits more than 98.245 seconds in all, and one that gives up after fifty refusals has waited exactly that long |
| `EventDelivery.StepKeepsInv` | lib/runtime-platform/src/QWorkqueueProcessor.cpp:62-99 | every step of every thread, in any interleaving, keeps mutual exclusion, order and the invariant that a non-empty queue is attended |
| `EventDelivery.ProducerKeepsInv` | lib/core/src/QContext.cpp:237-243 | the producer's part |
| `EventDelivery.WorkerKeepsInv` | lib/runtime-platform/src/QWorkqueueProcessor.cpp:72-99 | the worker's part |
| `EventDelivery.ProducerForgetsNone` | lib/core/src/QContext.cpp:237-243 | a context with events is being run, is queued, or is about to be |
| `EventDelivery.WorkerForgetsNone` | lib/core/src/QContext.cpp:245-264 | a context leaves the work queue only to be run, and the run ends only on an empty queue |
| `EventDelivery.WorkerKeepsOrder` | lib/core/src/QContext.cpp:248-262 | the element popped is the one that was notified |
| `EventDelivery.WorkerKeepsWorkAttended` | lib/runtime-platform/src/QWorkqueueProcessor.cpp:93-96 | while ready is false the work queue is empty, but for the producer about to set it |
| `EventRuns.NoStrandedEvent` | lib/core/src/QContext.cpp:237-264 | in every run, when no producer is mid-call and the worker is idle, every event pushed was notified, once and in push order |
| `EventRuns.DeliveredInOrder` | lib/core/src/QContext.cpp:245-264 | at any moment the notified events of a context are the first of those pushed |
| `EventRuns.WorkerProgresses` | lib/runtime-platform/src/QWorkqueueProcessor.cpp:72-99 | with no producer mid-call the worker never blocks, and every step leaves less work |
| `EventRuns.WorkerDelivers` | lib/runtime-platform/src/QWorkqueueProcessor.cpp:72-99 | the worker alone reaches, in a bounded number of steps, a state in which everything pushed was notified |
| `EventRuns.EveryClientIsTold` | lib/core/src/QContext.cpp:252-258 | while nobody registers, each client is told about exactly the events notified meanwhile, once each, in order |
| `EventRuns.InsertIs` | lib/core/src/QContext.cpp:271-279 | a client is inserted behind exactly those of higher priority |
| `EventRuns.ClientsStaySorted` | lib/core/src/QContext.cpp:266-281 | in every run the clients of a context are told in order of priority |
| `EventCalls.EveryCallArrives` | lib/core/src/QContext.cpp:237-264 | in every run, each producer's events in a context are the first of those it was called with, in call order; when no producer is mid-call they are all of them and together the events of all calls; when the worker is idle as well, all of these were notified |
| `EventCalls.RunHandsOver` | lib/core/src/QContext.cpp:237-243 | from any state on: what a context gets and what is still pending is what was pending and what the calls handed over |
| `EventCalls.RunRegisters` | lib/core/src/QContext.cpp:266-281 | after any run a context's clients are those it had and those registered with it, once for each call; of one priority the last registered comes first |
| `EventRuns.PriorityList.Register` | lib/core/src/QContext.cpp:266-281 | the walk along the list inserts there |
| `DmaBridgeQueue.MaskIsRem` | lib/network-driver/inc/QDmaBridgeQueue.h:34-52 | masking with a power of two less one is taking the remainder |
| `DmaBridgeQueue.PutAppends` | lib/network-driver/inc/QDmaBridgeQueue.h:44-47 | filling the next free slots around the ring and advancing the masked tail by as many appends what was written |
| `DmaBridgeQueue.GetDrops` | lib/network-driver/inc/QDmaBridgeQueue.h:49-52 | advancing the masked head by n drops the n oldest elements |
| `DmaBridgeQueue.SlotsPartition` | lib/network-driver/inc/QDmaBridgeQueue.h:68-103 | consumer-owned and free slots are different, and together are all but one |
| `DmaBridgeQueue.TailMoves` | lib/network-driver/inc/QDmaBridgeQueue.h:44-47 | advancing the tail hands over the first free slots in order |
| `DmaBridgeQueue.HeadMoves` | lib/network-driver/inc/QDmaBridgeQueue.h:49-52 | advancing the head gives back the oldest slots |
| `DmaBridgeQueue.RingIsBoundedFifo` | lib/network-driver/inc/QDmaBridgeQueue.h:33-52 | every run of puts and gets of any number of slots, with the masked pointers of the class, reads what a FIFO queue of len - 1 elements reads |
| `DmaBridgeQueue.Ring.constructor` | lib/network-driver/inc/QDmaBridgeQueue.h:26-31 | an empty ring of 2^lenPow2 slots |
| `DmaBridgeQueue.Ring.IsFull` | lib/network-driver/inc/QDmaBridgeQueue.h:34 | full iff there is no free slot |
| `DmaBridgeQueue.Ring.IsEmpty` | lib/network-driver/inc/QDmaBridgeQueue.h:36 | empty iff no slot is owned |
| `DmaBridgeQueue.Ring.Count` | lib/network-driver/inc/QDmaBridgeQueue.h:39 | the number of owned slots, whatever the 32-bit difference wraps to |
| `DmaBridgeQueue.Ring.Space` | lib/network-driver/inc/QDmaBridgeQueue.h:42 | the number of free slots; count + space = len - 1 |
| `DmaBridgeQueue.Ring.AdvanceTP` | lib/network-driver/inc/QDmaBridgeQueue.h:44-47 | the tail is the masked sum; owned and free slots afterwards, exactly for legal advances |
| `DmaBridgeQueue.Ring.AdvanceHP` | lib/network-driver/inc/QDmaBridgeQueue.h:49-52 | the head is the masked sum; owned and free slots afterwards, exactly for legal advances |
| `DmaBridgeQueue.Ring.AddressNo` | lib/network-driver/inc/QDmaBridgeQueue.h:78-103 | the i-th slot from a position on lies at base + ((position + i) mod len) times the item size, within the memory of the ring |
| `DmaBridgeQueue.Ring.AddressesApart` | lib/network-driver/inc/QDmaBridgeQueue.h:78-103 | no two of these slots share a byte |
| `DmaBridgeQueue.Ring.GetNextNForProducer` | lib/network-driver/inc/QDmaBridgeQueue.h:70-83 | appends the addresses of the first free slots, in order |
| `DmaBridgeQueue.Ring.GetConsumerOwned` | lib/network-driver/inc/QDmaBridgeQueue.h:88-103 | appends the addresses of the oldest owned slots, in order |
| `ChannelCounts.ActivateKeepsIff` | lib/network-driver/src/QRuntime.cpp:163-251 | an activation keeps channels and counts consistent if and only if it is not granted or yields a network object, whatever the device answers |
| `ChannelCounts.DeactivateKeepsIff` | lib/network-driver/src/QNeuralNetwork.cpp:789-835 | a deactivation keeps them consistent if and only if no earlier deactivation of the network failed, whatever the device answers |
| `ChannelCounts.RepeatedDeactivation` | lib/network-driver/src/QNeuralNetwork.cpp:789-800 | repeating a failed deactivation leaves the channel in the map with count 2^32 - 1; on success the network is gone and the channel is stranded |
| `ChannelCounts.UnloadIsRefusedIff` | lib/network-driver/src/QNNImage.cpp:11-18 | unloading is refused exactly while a live network uses the image or the constants |
| `ChannelCounts.CallKeepsIff` | lib/network-driver/src/QKmdDevice.cpp:517-773 | a load, unload, activation or deactivation keeps channels and counts consistent if and only if it neither repeats a failed deactivation nor is granted without a network object |
| `ChannelCounts.RunsConserveIff` | lib/network-driver/src/QKmdDevice.cpp:652-773 | after every call of a run the channels are exactly those of live networks and every count is the number of live users, if and only if no call of the run does either |
| `ChannelCounts.RunsHold` | lib/network-driver/src/QKmdDevice.cpp:652-773 | in every run, whatever leaks, each live network keeps a channel of its own in the map |
| `ChannelCounts.StrandedForGood` | lib/network-driver/src/QKmdDevice.cpp:652-672 | a channel that no live network runs on stays in the map in every run, and no activation can be granted it |
| `ChannelCounts.RepeatedDeactivationLeaks` | lib/network-driver/src/QNeuralNetwork.cpp:789-800 | a repeated deactivation that succeeds, after however many restarts, loses its channel for good: over all later runs it has count 2^32 - 1 and is never granted |
| `ChannelCounts.FactoryFailureLeaks` | lib/network-driver/src/QRuntime.cpp:238-245 | when a granted activation yields no network object, the counts of the image and of the constants are one more than their users, and the channel is lost for good over all later runs |
| `ChannelCounts.LeakIsReachable` | lib/network-driver/src/QNeuralNetwork.cpp:789-835 | from the empty runtime, load, activate, a rejected and a second deactivation reach the lost channel |
| `ChannelRetries.ActivateIs` | lib/network-driver/src/QRuntime.cpp:197-250 | the first answer that asks for no other command, or the fifth, alone determines an activation: channel, references, network object and status, or nothing changes |
| `ChannelRetries.DeactivateIs` | lib/network-driver/src/QNeuralNetwork.cpp:789-835 | the same for a deactivation: the count goes down in any case, and the device's last answer decides whether network, references and channel go |
| `ChannelDevice.Runtime.CreateChannel` | lib/network-driver/src/QKmdDevice.cpp:652-674 | an ID in use is refused, but for the shared one |
| `ChannelDevice.Runtime.ActivateOnce` | lib/network-driver/src/QKmdDevice.cpp:517-572 | what each answer of the device leads to |
| `ChannelDevice.Runtime.ActivateNetwork` | lib/network-driver/src/QRuntime.cpp:197-250 | the retry loop: at most five commands, repeated only while the device restarts |
| `ChannelDevice.Runtime.DeactivateOnce` | lib/network-driver/src/QKmdDevice.cpp:680-773 | the entry is taken out and restored on every failure |
| `ChannelDevice.Runtime.DeactivateNetwork` | lib/network-driver/src/QNeuralNetwork.cpp:789-835 | counts down, retries, and gives the references back only on success |
| `ChannelDevice.Runtime.UnloadResource` | lib/network-driver/src/QNNImage.cpp:11-18 | refused while the count is not zero |
| `IoDescriptor.BothOrdersGiveSize` | lib/core/src/QBindingsParser.cpp:311-314 | multiplying the non-zero dimensions and the type size in either order, in 32 bits, gives the size of the tensor |
| `IoDescriptor.SizesAndCodes` | lib/core/src/QBindingsParser.cpp:577-609 | the size of a tensor in bytes and the code of its type, for each data type |
| `IoDescriptor.MappingFieldsAt` | inc/qaic-openrt-api-hpp/qaic-api-common/QAicRuntimeTypes.h:577-584 | at which byte each field of a buffer mapping lies, and what it holds |
| `IoDescriptor.InfoFieldsAt` | inc/qaic-openrt-api-hpp/qaic-api-common/QAicRuntimeTypes.h:586-589 | the same for the header |
| `IoDescriptor.LayoutIs` | lib/core/src/QBindingsParser.cpp:17-23 | header, mappings and names follow each other without gaps, so every recorded offset is where its element starts |
| `IoDescriptor.HeaderOfFlat` | lib/core/src/QBindingsParser.cpp:619-635 | the header holds the number of mappings and the address of the first |
| `IoDescriptor.NameInFlat` | lib/core/src/QBindingsParser.cpp:680-730 | the C string at a recorded name offset is the name up to its first NUL |
| `IoDescriptor.FlatDescribesBindings` | lib/core/src/QBindingsParser.cpp:611-734 | mapping i, reached through the pointers in the buffer, is the i-th binding, inputs first: name, index, direction, size, partial flag, data type |
| `IoSets.FlatAgreesWithDefault` | lib/core/src/QBindingsParser.cpp:415-445 | the flat form and the default set agree on name, index, direction, size and partial flag of every binding; the whole name survives iff it has no NUL |
| `IoSets.TypesAgreeIff` | lib/core/src/QBindingsParser.cpp:676 | they agree on all data types if and only if no output is transformed to another type |
| `IoSets.EverySetListsAll` | lib/core/src/QBindingsParser.cpp:415-515 | every set has the same names, indices 0..n-1, directions and partial flags |
| `IoSets.SetExistsIff` | lib/core/src/QBindingsParser.cpp:447-461 | a transformation has a set of its name if and only if some input or output goes through it |
| `IoSets.ValidIff` | lib/core/src/QBindingsParser.cpp:463-511 | in such a set a binding is valid if and only if it goes through the transformation, but for an output that starts with it, for which the code reads the element in front of the first |
| `IoSets.DefaultDescribes` | lib/core/src/QBindingsParser.cpp:415-443 | the default set describes each input before and each output after all its transforms |
| `IoSets.TappedDescribes` | lib/core/src/QBindingsParser.cpp:390-410 | a transformation's set has the type, dimensions and size of the first such transform for an input or a DMA copy, of the transform before it for any other output, and of the default set without one |
| `IoSets.PrecededIff` | lib/core/src/QBindingsParser.cpp:402-406 | the code never reads in front of the first transform if and only if no output starts with a dequantisation, a transposition or a conversion |
| `BindingsParser.QBindingsParser.WriteBindingElement` | lib/core/src/QBindingsParser.cpp:17-23 | places the bytes at the next aligned offset; returns where they end |
| `BindingsParser.QBindingsParser.FlatSize` | lib/core/src/QBindingsParser.cpp:641-648 | the loop computes the size |
| `BindingsParser.QBindingsParser.BindingSize` | lib/core/src/QBindingsParser.cpp:307-314 | the loop computes the size |
| `BindingsParser.QBindingsParser.WriteMapping` | lib/core/src/QBindingsParser.cpp:636-678 | the next mapping, or an exception for a type without a format |
| `BindingsParser.QBindingsParser.WriteNames` | lib/core/src/QBindingsParser.cpp:680-703 | every name behind the last, and its offset recorded; for a binding without a name it reads past a variable |
| `BindingsParser.QBindingsParser.Link` | lib/core/src/QBindingsParser.cpp:713-730 | every offset becomes an address, in place; `computeAddr` never yields null |
| `BindingsParser.QBindingsParser.GenerateIoDesc` | lib/core/src/QBindingsParser.cpp:611-734 | throws iff an initial data type has no format; otherwise the buffer is the flat image iff every binding has a name |
| `BindingsParser.QBindingsParser.HasAny` | lib/core/src/QBindingsParser.cpp:363-388 | finds the transform iff some binding has it |
| `BindingsParser.QBindingsParser.FindTransform` | lib/core/src/QBindingsParser.cpp:390-410 | the tensor at the transform, or before it for an output, or the read of element -1 |
| `BindingsParser.QBindingsParser.CreateDefaultSet` | lib/core/src/QBindingsParser.cpp:415-443 | the default set |
| `BindingsParser.QBindingsParser.CreateTappedSet` | lib/core/src/QBindingsParser.cpp:455-511 | the set of one transformation, unless element -1 is read |
| `BindingsParser.QBindingsParser.GenerateIoDescPb` | lib/core/src/QBindingsParser.cpp:350-515 | all sets in order, the default one selected, exactly when no element -1 is read |

## Left out

- The status texts, logging, tracing, locks that only guard one atomic call, and object lifetimes.
- Device commands, mappings and event descriptors: each is an oracle or a parameter that yields a status and IDs.
- ELF and QPC extraction, and the packing and parsing of protocol buffers and flatbuffers: the model starts from and
  ends in the decoded values. `requiredFields` and the raw structure length of the flat form are ignored.
- `readyProgram` and `ready_request`: the first may lock a mutex it holds, the second posts the signal of `activate`.
- The state `disabled`, which nothing enters, and INIT and exit signals, on which no handler acts.
- The built-in constants that the load action picks up beside the network image: they influence no transition.
- The public calls of two threads at once: each holds the program's mutex, and registration of execution objects holds
  one of its own.
- BinaryWriter.AICMetadataWriter.Finalize: does not model a second `finalize`, and demands what the code asserts,
  some of it only after writing, and a size below 2^31, which the code counts in an `int`.
- BinaryWriter.AICMetadataWriter.SetScalars: the plain setters of the header are one update of all scalars; each
  setter is an instance of it.
- BinaryWriter.AICMetadataWriter.AddSemaphoreOp: the assertions on opcodes and doorbell sizes are preconditions here
  and of `AddDMARequest`.
- More than sixteen cores: the table array has sixteen elements and the code indexes it unchecked, so `CanFinalize`
  excludes them.
- FlatEncode.Translate: reads the memory as it was when the image was loaded; later changes of the buffer are not
  modelled.
- DmaMetaData.QMetaData.UpdateDmaReqElements: reuse of an element in place (`copy == false`) has no caller.
- InfHandle.CreateInfHandle: where the buffers are mapped. The check `bufIndex > bufCount_` can never hold for a parsed
  stencil. What is outside of the allocation is not modelled further.
- InfRequests.GetDmaDirections: the code writes the directions into a vector that it reserved but did not size.
- InfRequests.GetInfHandle: running out of heap memory; what the second walk finds in destroyed memory.
- The bytes of a kernel record: a record is a value at its offset in the allocation, of the size of its structures.
- SubmitBackoff.RunExecute: spurious or early wake-ups only shorten a wait.
- `cleanup`, `terminate` and unregistration of clients: the last advances an iterator that it has just erased.
- DmaBridgeQueue.Ring.SetTP: `setTP` and `setHP` put a pointer anywhere; nothing is promised about the contents.
- BindingsParser.QBindingsParser.GenerateIoDesc: what is copied for a binding without a name; structure padding, which
  the code leaves undefined, is zero; the buffer stays below 2^31 bytes.
- BindingsParser.QBindingsParser.GenerateIoDescPb: what reading element -1 yields; quantisation, DMA buffers and allowed
  shapes are copied fields.
- Inference vectors, pre- and post-processing, device enumeration and the command-line tools.
