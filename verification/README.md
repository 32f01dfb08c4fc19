# MicroWorld, verified

MicroWorld is an allocation-free engine for microcontrollers: fixed tables, generation-checked handles, budgeted work
and explicit state machines. This project models its hard parts in Dafny and proves what they promise, over every
input and every run.

Each part has the same shape. `XxxModel.dfy` gives the state and one pure function per operation, with the branches,
error results and constants of the original. The class of the same part (`ObjectStore`, `GarbageCollector`,
`FrameDecoder`, `NetworkSystem`, ...) holds the original's fields and arrays; each of its methods, loops included, is
proved to perform exactly one of those steps. `XxxProofs.dfy` and `XxxTheorems.dfy` prove the properties of the
steps and of every run of them. `hide` statements only keep the proofs small.

| part | files |
|---|---|
| object store: slots, handles, roots, destruction barrier, construction transactions | ObjectStoreModel, ObjectStoreProofs, ObjectStore |
| incremental mark/sweep collector | CollectorModel, CollectorProofs, GarbageCollector |
| engine frame: collections and callbacks exclude each other | EngineFrames, EngineHost |
| frame codec with CRC-16/CCITT-FALSE | Crc16, CrcErrors, FrameModel, FrameProofs, FrameCodec |
| client/server sessions over a lossy, repeating, reordering, non-forging network | SessionModel, SessionProofs, SessionTheorems, NetworkSystem |
| protocol and little-endian codecs | WireCodec, ProtocolCodec |
| channels and reliable delivery | MessagingModel, MessagingProofs, MessagingTheorems, MessagingReuse, MessagingSystem |
| deferred spawn storage, the world's structural barrier, and whole runs of a world | SpawnStorageModel, SpawnStorageProofs, DeferredActorSpawnStorage, WorldModel, WorldProofs, WorldTheorems, QuietBarrier, WorldStart, WorldRuns, World |
| begin and end of play with rollback | LifecycleModel, LifecycleProofs, LifecycleTheorems, LifecycleRuns, LifecycleOwners, WorldLifecycle |
| timer manager | TimerModel, TimerProofs, TimerManager |
| class registry and ancestry | ClassAncestry, ClassRegistryModel, ClassRegistry |

`Basics.dfy` holds shared vocabulary. `dafny verify dfyconfig.toml` verifies everything.

## How the environment enters

- A managed object is a size, a type known or not, a list of outgoing handles and the roots its destructor releases.
  Its own code may assign the outgoing handles anew at any time at which no collection is under way; a frame runs its
  callbacks at no other time (`CallbacksNeverMeetACollection`).
- Hooks and callbacks are arbitrary: they are the requests or store calls they make, chosen freely per actor or frame.
- The session network is the set of frames ever sent; a delivery event hands any of them to its addressee, any number
  of times, in any order, or never. The messaging network is the list of transmissions, treated the same way.
- Clocks, dispatch guards that may be refused, device results and factory outcomes are parameters of the step they
  influence.
- History kept for the theorems (publication and destruction logs, admissions, transmissions, firings, hook traces) is
  ghost state in the classes and plain fields in the model states.

## Where the code differs from what one might expect

- Modules/MicroWorld/Engine/ObjectStore.h:207 says `AddRoot` rejects duplicates. The code (ObjectStore.cpp:265-296)
  accepts them, one token each; the model follows the code.
- A liveness token of an object at generation 2^32 - 1 never dies, because its slot retires without advancing
  (`WeakOwnerDiesWithItsObject` states this exactly).
- Registration before play compares only the live count with the capacity (World_ActorRegistration.cpp:86). Together
  with typed requests made before play it can exceed the capacity, and the start then appends to a live array that is
  already full (`RegistrationCanOvercommit`; `OvercommitIsReachable` is such a run from construction on). It cannot if
  and only if the check of the other entry points passes too (`RegistrationKeepsTheBoundIff`); every run in which
  that is so keeps the bound (`EveryRunKeepsTheWorld`).
- An actor that is built but not yet published can be marked for destruction: its own code knows its handle, the store
  is public, and a barrier that is refused its publish guard leaves such actors behind. Publication then skips it
  (World_SpawnDestroy.cpp:336-341) before its ticket is completed. A run strands a request exactly when it marks such
  an actor (`StrandsIffCareless`), such runs exist (`RequestsCanBeStranded`), and the request then waits for ever and
  keeps its place in the capacity (`StrandedForEver`).
- An acknowledgement is matched by channel, route and id only. If a node creates a name with reliability after having
  created it without, a payload it sent before can read as a reliable id at its peer, and the answer releases a message
  nobody delivered (`ReuseReleasesUndelivered`, for any two nodes and any name). A rule on channel creation rules this
  out exactly when it forbids such re-creation (`HonestIffNoReuse`); two nodes may steadily differ about a name
  (`AcknowledgedMeansDelivered`).
- A refused barrier puts restored tickets behind requests queued meanwhile, so ticket order across a refused barrier
  is first-in-first-out only when nothing was queued in between.
- Manual spawns and destroys queued by hooks during a barrier are handled by the same barrier, because its loops read
  the counts again; only typed requests wait for the next (`SealedWorkOnly`).

## Model

| member | source | states |
|---|---|---|
| `ObjectStoreProofs.HandlesNeverAlias` | Modules/MicroWorld/Engine/ObjectStore.cpp:361-377 | In every reachable store a handle resolves to an object if and only if that object, up to the references its own code assigns, was published under it, was not destroyed since and is not pending; no two publications ever use the same handle |
| `ObjectStoreProofs.WeakOwnerDiesWithItsObject` | Modules/MicroWorld/Core/WeakOwner.h:29-37 | After any run a liveness token of an object is live if and only if the object was live when it was taken and has not been destroyed, or is of the last 32-bit generation |
| `ObjectStoreProofs.RunKeeps` | Modules/MicroWorld/Engine/ObjectStore.cpp:198-335 | Over any run of operations, accepted or refused, slot states, counters, root count and publication history stay consistent |
| `ObjectStoreProofs.FragmentationNeverUnderflows` | Modules/MicroWorld/Engine/ObjectStore.cpp:322-335 | In every reachable store the payload sum is at most occupied slots times slot size, so the unsigned difference reported as fragmentation never wraps |
| `ObjectStoreProofs.ReclamationIsFair` | Modules/MicroWorld/Engine/ObjectStore.cpp:226-263 | Whatever is interleaved, once the barrier has been granted as many visits as there are slots, each object pending at the start has been destroyed, exactly once |
| `ObjectStoreProofs.ConstructActorIsAtomic` | Modules/MicroWorld/Engine/ObjectInitializer.h:49-140 | A construction transaction publishes exactly the requested components and then the actor, in that order, each resolving under the handle logged for it, or leaves everything as before except roots of the provisional objects |
| `ObjectStoreProofs.ScanReportsDestructions` | Modules/MicroWorld/Engine/ObjectStore.cpp:226-263 | The number of destroyed objects that reclamation reports is the number of destructions it adds to the history |
| `ObjectStoreProofs.RollbackRestores` | Modules/MicroWorld/Engine/ObjectStore.cpp:72-95 | Rolling back any set of reservations restores every slot, generation and counter, and the root count stays exact |
| `ObjectStoreProofs.DestroySlotKeeps` | Modules/MicroWorld/Engine/ObjectStore.cpp:379-474 | Destruction recycles exactly the named slot, logs it, leaves no root entry for its handle and clears no entry but by release |
| `ObjectStoreProofs.PublicKeepsUnmarked` | Modules/MicroWorld/Engine/ObjectStore.cpp:581-587 | Nothing user code can do sets a mark |
| `ObjectStoreProofs.FreshIsValid` | Modules/MicroWorld/Engine/ObjectStore.cpp:136-154 | A newly configured store of any size meets the invariant |
| `ObjectStore.ObjectStore.constructor` | Modules/MicroWorld/Engine/ObjectStore.cpp:136-167 | A bad storage descriptor leaves the store unconfigured; otherwise every slot and root entry is empty |
| `ObjectStore.ObjectStore.FindMatchingSlot` | Modules/MicroWorld/Engine/ObjectStore.cpp:361-377 | Finds the slot whose state and generation fit the handle, or nothing |
| `ObjectStore.ObjectStore.Resolve` | Modules/MicroWorld/Engine/ObjectStore.cpp:186-190 | Answers with the live object the handle names, or nothing |
| `ObjectStore.ObjectStore.FindVacantSlot` | Modules/MicroWorld/Engine/ObjectStore.cpp:337-349 | Finds the lowest vacant slot, or nothing |
| `ObjectStore.ObjectStore.PublishObjectIntoSlot` | Modules/MicroWorld/Engine/ObjectStore.cpp:476-506 | Publishes into the slot under its next publish generation and updates occupancy and payload |
| `ObjectStore.ObjectStore.NewObject` | Modules/MicroWorld/Engine/ObjectStore.h:129-166 | Every refusal in source order and otherwise one publication into the lowest vacant slot; the whole new state |
| `ObjectStore.ObjectStore.ValidateConstruction` | Modules/MicroWorld/Engine/ObjectStore.h:276-296 | The same verdict as the model for every candidate |
| `ObjectStore.ObjectStore.AddRoot` | Modules/MicroWorld/Engine/ObjectStore.cpp:265-296 | Adds one token for a live object in the first free entry, duplicates included, or refuses without change |
| `ObjectStore.ObjectStore.RemoveRoot` | Modules/MicroWorld/Engine/ObjectStore.cpp:298-320 | Releases the first token of the handle, under any lock, or reports it stale |
| `ObjectStore.ObjectStore.RemoveAllRoots` | Modules/MicroWorld/Engine/ObjectStore.cpp:508-521 | Clears every entry that holds the handle and lowers the count by as many |
| `ObjectStore.ObjectStore.MarkPendingDestroy` | Modules/MicroWorld/Engine/ObjectStore.cpp:198-224 | Refuses locked, stale and repeated requests, otherwise marks the slot pending and counts it |
| `ObjectStore.ObjectStore.ApplyPendingDestroy` | Modules/MicroWorld/Engine/ObjectStore.cpp:226-263 | Scans round-robin from the stored cursor within the clipped budget, stops only when the budget or the pending count is used up, and reports the exact number of slots visited at most and of objects destroyed |
| `ObjectStore.ObjectStore.DestroySlot` | Modules/MicroWorld/Engine/ObjectStore.cpp:379-417 | Destroys the slot exactly when it is occupied with a destructor and reports whether it did |
| `ObjectStore.ObjectStore.RunDestructionCallbacks` | Modules/MicroWorld/Engine/ObjectStore.cpp:428-437 | The destructor releases the roots it owns, then every remaining root of the object goes |
| `ObjectStore.ObjectStore.RecycleOrRetireSlot` | Modules/MicroWorld/Engine/ObjectStore.cpp:439-458 | The slot becomes vacant under the next generation, or retires when there is none |
| `ObjectStore.ObjectStore.UpdateOccupancyCounters` | Modules/MicroWorld/Engine/ObjectStore.cpp:460-474 | Counters drop without going below zero |
| `ObjectStore.ObjectStore.TryBeginDispatch` | Modules/MicroWorld/Engine/ObjectStore.cpp:613-621 | Acquires the dispatch lock exactly when no lock is held |
| `ObjectStore.ObjectStore.EndDispatch` | Modules/MicroWorld/Engine/ObjectStore.cpp:623-626 | Releases the dispatch lock and nothing else |
| `ObjectStore.ObjectStore.CollectorTryBegin` | Modules/MicroWorld/Engine/ObjectStore.cpp:589-597 | Gives the store to one collector at a time |
| `ObjectStore.ObjectStore.CollectorEnd` | Modules/MicroWorld/Engine/ObjectStore.cpp:599-605 | Releases the store only for the collector that owns it |
| `ObjectStore.ObjectStore.CollectorSetMarked` | Modules/MicroWorld/Engine/ObjectStore.cpp:581-587 | Changes the mark of an occupied slot and nothing else |
| `ObjectStore.ObjectStore.CollectorReclaim` | Modules/MicroWorld/Engine/ObjectStore.cpp:607-611 | Destroys the named live slot, whatever collector lock is held, and says whether it did |
| `ObjectStore.ObjectStore.ReserveSlot` | Modules/MicroWorld/Engine/ObjectStore.cpp:46-65 | Takes a vacant slot for a provisional object, or records the first error |
| `ObjectStore.ObjectStore.Rollback` | Modules/MicroWorld/Engine/ObjectStore.cpp:72-95 | Releases the reservations in reverse |
| `ObjectStore.ObjectStore.CreateDefaultSubobjects` | Modules/MicroWorld/Engine/ObjectInitializer.h:98-140 | Reserves one slot per requested component and stops at the first error |
| `ObjectStore.ObjectStore.PublishComponents` | Modules/MicroWorld/Engine/ObjectInitializer.h:49-95 | Publishes the reserved components in order |
| `ObjectStore.ObjectStore.ConstructActor` | Modules/MicroWorld/Engine/ObjectInitializer.h:49-95 | The complete transaction, with every refusal, as one transition |
| `CollectorProofs.CollectionIsExact` | Modules/MicroWorld/Engine/GarbageCollector.cpp:227-309 | For any slicing and any store calls in between: survivors lie between what the roots at completion and the roots at the request reach, every destroyed slot was live, and all other slots are untouched |
| `CollectorProofs.SurvivorsKeepTheirReferents` | Modules/MicroWorld/Engine/GarbageCollector.cpp:249-277 | Every reference of a survivor resolves after the cycle exactly as before it |
| `CollectorProofs.FullCollectionIsExact` | Modules/MicroWorld/Engine/GarbageCollector.cpp:326-346 | Undisturbed, the survivors are exactly the reachable set, with one root operation per entry, one mark per reachable object and one sweep per slot |
| `CollectorProofs.SlicingIsInvisible` | Modules/MicroWorld/Engine/GarbageCollector.cpp:146-200 | Any sequence of slices that completes the cycle ends in the very state one unbounded collection ends in |
| `CollectorProofs.CycleTerminates` | Modules/MicroWorld/Engine/GarbageCollector.cpp:146-200 | With positive budgets a cycle is complete after at most roots plus twice the slots plus one slices |
| `CollectorProofs.SliceStaysWithinBudget` | Modules/MicroWorld/Engine/GarbageCollector.cpp:227-309 | A slice never does more work of any kind than its budget allows |
| `CollectorProofs.RoomForOneMore` | Modules/MicroWorld/Engine/GarbageCollector.cpp:376-399 | A live slot that is not yet discovered leaves room in a worklist as long as the slot table, so the overflow branch is dead |
| `CollectorProofs.IdleMeansUnmarked` | Modules/MicroWorld/Engine/GarbageCollector.cpp:401-428 | Over any run of requests, slices, cancellations and store calls an idle collector means no mark anywhere, and the worklist never overflows |
| `CollectorProofs.CancelClearsMarks` | Modules/MicroWorld/Engine/GarbageCollector.cpp:348-356 | Cancelling clears all marks and releases the store; before the sweep it restores the slots of the request |
| `CollectorProofs.CycleFreezesStore` | Modules/MicroWorld/Engine/ObjectStore.h:257-263 | While a collector owns the store every public operation is refused, except releasing roots |
| `GarbageCollector.GarbageCollector.ClassifyStartFailure` | Modules/MicroWorld/Engine/GarbageCollector.cpp:122-144 | Reports why a cycle cannot start, or acquires the store |
| `GarbageCollector.GarbageCollector.RequestCollection` | Modules/MicroWorld/Engine/GarbageCollector.cpp:100-120 | Starts a cycle from clean cursors, or changes nothing |
| `GarbageCollector.GarbageCollector.Advance` | Modules/MicroWorld/Engine/GarbageCollector.cpp:146-225 | One budgeted slice, with the result, phase and operation counts it reports |
| `GarbageCollector.GarbageCollector.AdvanceSeedRootsPhase` | Modules/MicroWorld/Engine/GarbageCollector.cpp:227-247 | Scans root entries until the budget, the table or the cycle ends |
| `GarbageCollector.GarbageCollector.AdvanceMarkPhase` | Modules/MicroWorld/Engine/GarbageCollector.cpp:249-277 | Traces queued objects until the budget, the worklist or the cycle ends |
| `GarbageCollector.GarbageCollector.AdvanceSweepPhase` | Modules/MicroWorld/Engine/GarbageCollector.cpp:279-309 | Sweeps slots until the budget or the table ends, and completes the cycle |
| `GarbageCollector.GarbageCollector.DiscoverReference` | Modules/MicroWorld/Engine/GarbageCollector.cpp:358-399 | Marks and queues a live, unmarked object once; a full worklist abandons the cycle |
| `GarbageCollector.GarbageCollector.CollectFull` | Modules/MicroWorld/Engine/GarbageCollector.cpp:326-346 | Starts a cycle if none is under way and finishes it, with the reported result |
| `GarbageCollector.GarbageCollector.CancelCollection` | Modules/MicroWorld/Engine/GarbageCollector.cpp:348-356 | Abandons an active cycle and is refused when there is none |
| `GarbageCollector.GarbageCollector.ResetCycle` | Modules/MicroWorld/Engine/GarbageCollector.cpp:401-416 | Clears marks, cursors and worklist and releases the store |
| `GarbageCollector.GarbageCollector.CompleteCycle` | Modules/MicroWorld/Engine/GarbageCollector.cpp:418-428 | Ends a swept cycle without touching the slots |
| `EngineFrames.CallbacksNeverMeetACollection` | Modules/MicroWorld/Engine/EngineHost.h:419-446 | Every frame with a legal clock runs its callbacks; after each of them, after the reclamation and after each late call up to the closing slice no collection is under way, no collector lock is held and no object is marked; a refused frame changes nothing |
| `EngineFrames.EveryFrameCompletes` | Modules/MicroWorld/Engine/EngineHost.h:419-446 | Over any run of frames the engine stays sound and a frame is refused only for a clock that runs backwards |
| `EngineFrames.CatchUpSucceeds` | Modules/MicroWorld/Engine/EngineHost.h:599-612 | Finishing a cycle left from the last frame always succeeds and leaves the collector idle |
| `EngineFrames.GarbageLastsOneFrame` | Modules/MicroWorld/Engine/EngineHost.h:432-443 | However small the slice budget, what no root reached at the end of a frame is destroyed before the callbacks of the next, and what the remaining roots reach is untouched |
| `EngineFrames.TeardownFindsTheStoreClear` | Modules/MicroWorld/Engine/EngineHost.h:637-643 | Before teardown an active cycle is abandoned, its marks cleared and the store released |
| `EngineHost.EngineHost.Tick` | Modules/MicroWorld/Engine/EngineHost.h:419-446 | The frame in its fixed order over real store and collector; the whole new state and the result |
| `EngineHost.EngineHost.CompletePriorCollectionBeforeCallbacks` | Modules/MicroWorld/Engine/EngineHost.h:599-612 | Completes an unfinished cycle or reports why it cannot |
| `EngineHost.EngineHost.StartBudgetedCollectionAfterCallbacks` | Modules/MicroWorld/Engine/EngineHost.h:624-631 | Starts a cycle when idle and does one slice |
| `EngineHost.EngineHost.CancelActiveCollectionBeforeTeardown` | Modules/MicroWorld/Engine/EngineHost.h:637-643 | Abandons a cycle exactly when one is active |
| `Crc16.FoldIsLinear` | Modules/MicroWorld/Transport/FrameCodec.h:45-59 | The checksum of the bitwise sum of two messages is the sum of their checksums |
| `Crc16.FoldTwoBytes` | Modules/MicroWorld/Transport/FrameCodec.h:45-59 | Folding two bytes is one 16-step advance of the register summed with the word they spell |
| `Crc16.ChecksumMatchesIffResidueIsZero` | Modules/MicroWorld/Transport/FrameCodec.h:67-82 | A trailing big-endian checksum matches if and only if folding it too leaves zero |
| `Crc16.UpdateCrc16Byte` | Modules/MicroWorld/Transport/FrameCodec.h:45-59 | The eight-round loop computes one byte fold |
| `Crc16.ComputeCrc16Ccitt` | Modules/MicroWorld/Transport/FrameCodec.h:67-82 | The loop over a view computes the fold from the initial value; an invalid view gives the initial value |
| `CrcErrors.FoldIsBitSerial` | Modules/MicroWorld/Transport/FrameCodec.h:45-59 | The byte-wise register equals the bit-serial one for generator x^16+x^12+x^5+1 |
| `CrcErrors.BurstLeavesResidue` | Modules/MicroWorld/Transport/FrameCodec.h:45-82 | No burst of up to 16 bits has residue zero, at any position of a message of any length |
| `CrcErrors.OddErrorLeavesResidue` | Modules/MicroWorld/Transport/FrameCodec.h:45-82 | No error that flips an odd number of bits has residue zero |
| `FrameProofs.DecoderComputesParser` | Modules/MicroWorld/Transport/TFrameDecoder.h:72-246 | On every byte stream the byte-at-a-time decoder reports exactly what a batch parser of the stream reports |
| `FrameProofs.EncodingIsIntact` | Modules/MicroWorld/Transport/FrameCodec.h:116-165 | An encoded frame starts with the magic byte, carries its length and payload, and passes its checksum |
| `FrameProofs.AcceptedIsEncoding` | Modules/MicroWorld/Transport/TFrameDecoder.h:232-246 | Every accepted candidate is, byte for byte, the encoding of what is reported |
| `FrameProofs.RoundTrip` | Modules/MicroWorld/Transport/TFrameDecoder.h:72-94 | Any concatenation of encoded frames decodes to exactly that run of ids and payloads |
| `FrameProofs.FrameReadyMeansSent` | Modules/MicroWorld/Transport/TFrameDecoder.h:232-246 | Whenever a frame is handed out, the last bytes of the stream are its encoding |
| `FrameProofs.SomePrefixFrees` | Modules/MicroWorld/Transport/TFrameDecoder.h:142-246 | From every decoder state, within capacity plus five bytes the decoder is waiting for the magic byte |
| `FrameProofs.Resynchronizes` | Modules/MicroWorld/Transport/TFrameDecoder.h:142-246 | After any garbage, capacity plus five bytes without magic followed by any frames deliver exactly those frames |
| `FrameProofs.ResyncBoundIsExact` | Modules/MicroWorld/Transport/TFrameDecoder.h:142-197 | A concrete stream keeps the decoder busy for the whole of the bound less one |
| `FrameProofs.CorruptionPassesIffResidueIsZero` | Modules/MicroWorld/Transport/FrameCodec.h:67-82 | A frame hit by an error pattern passes its checksum if and only if the pattern has residue zero |
| `FrameProofs.CorruptedFrameOutcome` | Modules/MicroWorld/Transport/TFrameDecoder.h:204-246 | A frame hit by an error that spares magic and length is silent until its last byte and is then handed out if and only if the residue is zero |
| `FrameProofs.BurstIsRejected` | Modules/MicroWorld/Transport/TFrameDecoder.h:232-246 | Every burst of up to 16 bits that spares magic and length makes the decoder discard the frame |
| `FrameProofs.OddErrorIsRejected` | Modules/MicroWorld/Transport/TFrameDecoder.h:232-246 | Every odd number of flipped bits that spares magic and length makes the decoder discard the frame |
| `FrameProofs.TwoByteErrorIsBurst` | Modules/MicroWorld/Transport/TFrameDecoder.h:232-246 | Any nonzero change confined to two consecutive bytes is such a burst |
| `FrameCodec.EncodeFrame` | Modules/MicroWorld/Transport/FrameCodec.h:89-165 | Validates first and writes nothing when it refuses; otherwise the target holds exactly the encoding |
| `FrameCodec.FrameDecoder.PushByte` | Modules/MicroWorld/Transport/TFrameDecoder.h:72-94 | One byte, one decoder step, with the event it reports |
| `FrameCodec.FrameDecoder.BeginFrameOnMagic` | Modules/MicroWorld/Transport/TFrameDecoder.h:142-150 | Arms on the magic byte and ignores any other |
| `FrameCodec.FrameDecoder.CaptureLengthLowByte` | Modules/MicroWorld/Transport/TFrameDecoder.h:181-197 | Completes the length and discards at once a payload that does not fit |
| `FrameCodec.FrameDecoder.AccumulatePayloadByte` | Modules/MicroWorld/Transport/TFrameDecoder.h:204-214 | Stores one payload byte and moves on after the last |
| `FrameCodec.FrameDecoder.CompleteFrameIfChecksumMatches` | Modules/MicroWorld/Transport/TFrameDecoder.h:232-246 | Reports the frame if the streamed checksum equals the received one, and discards it otherwise |
| `SessionTheorems.SessionAgreement` | Modules/MicroWorld/Networking/NetworkSystem.cpp:351-426 | Over a network that loses, repeats and reorders: a connected client was admitted under its handle with its route and attempt, and a slot that still holds the handle is that client's |
| `SessionTheorems.HandlesAreAssignedOnce` | Modules/MicroWorld/Networking/NetworkSystem.cpp:351-407 | The server assigns each peer handle at most once ever; each assigned handle is held or retired, never both, and the counts add up |
| `SessionTheorems.RegistryIsWellFormed` | Modules/MicroWorld/Networking/NetworkSystem.cpp:569-625 | Occupied slots have distinct routes, sit at the index their handle names and number at most the admission limit |
| `SessionTheorems.ClientsNeverShareAHandle` | Modules/MicroWorld/Networking/NetworkSystem.cpp:409-426 | Two connected clients never hold the same peer handle |
| `SessionTheorems.HandshakeCompletes` | Modules/MicroWorld/Networking/NetworkSystem.cpp:105-126 | Dialling a server with a slot to give, with nothing lost, connects the client and the slot agrees with it |
| `SessionTheorems.ServerMessagesAreAttributed` | Modules/MicroWorld/Networking/NetworkSystem.cpp:488-522 | Every message the server republishes with a source was sent with that channel, name and payload by the one client that handle was ever given to |
| `SessionTheorems.ClientMessagesAreAttributed` | Modules/MicroWorld/Networking/NetworkSystem.cpp:488-522 | Every message a client republishes was sent by the server to this client under its handle |
| `SessionTheorems.SentWhileConnected` | Modules/MicroWorld/Networking/NetworkSystem.cpp:163-174 | In every run each message in a client's log of sent ones was sent by a call made at some moment while connected, under the server handle held then |
| `SessionTheorems.StepPublishesLiveHandles` | Modules/MicroWorld/Networking/NetworkSystem.cpp:488-522 | A step republishes only under a handle that a slot holds at that moment |
| `SessionTheorems.RetiredHandlesStaySilent` | Modules/MicroWorld/Networking/NetworkSystem.cpp:627-642 | Once a handle is retired no message is ever republished under it, whatever is still in flight |
| `SessionTheorems.ResolvesLivePeersOnly` | Modules/MicroWorld/Networking/NetworkSystem.cpp:218-237 | A source value resolves to a handle if and only if a slot holds that handle now |
| `SessionTheorems.SourceIdRoundTrip` | Modules/MicroWorld/Networking/NetworkSystem.cpp:537-556 | Packing and unpacking of source ids invert each other, in both directions, on valid handles |
| `SessionProofs.RunKeeps` | Modules/MicroWorld/Networking/NetworkSystem.cpp:239-522 | The system invariant holds after any run of calls, deliveries, losses, repetitions and clock steps |
| `NetworkSystem.NetworkSystem.HasActivePeer` | Modules/MicroWorld/Networking/NetworkSystem.cpp:77-85 | True exactly when the client is connected or some server slot is occupied |
| `NetworkSystem.NetworkSystem.Initialize` | Modules/MicroWorld/Networking/NetworkSystem.cpp:27-75 | Checks the policy and opens the tables once; the whole new node state |
| `NetworkSystem.NetworkSystem.Shutdown` | Modules/MicroWorld/Networking/NetworkSystem.cpp:87-103 | Retires every peer or the server session; the whole new node state |
| `NetworkSystem.NetworkSystem.ConnectToServer` | Modules/MicroWorld/Networking/NetworkSystem.cpp:105-126 | Starts a new attempt under the next attempt id, or refuses; the whole new node state |
| `NetworkSystem.NetworkSystem.DisconnectFromServer` | Modules/MicroWorld/Networking/NetworkSystem.cpp:128-143 | Tells the server and retires the session; the whole new node state |
| `NetworkSystem.NetworkSystem.DisconnectPeer` | Modules/MicroWorld/Networking/NetworkSystem.cpp:145-161 | Tells the peer and retires its slot; the whole new node state |
| `NetworkSystem.NetworkSystem.SendToServer` | Modules/MicroWorld/Networking/NetworkSystem.cpp:163-174 | Sends only while connected, as the held handle; the whole new node state |
| `NetworkSystem.NetworkSystem.SendTo` | Modules/MicroWorld/Networking/NetworkSystem.cpp:176-188 | Sends only to a peer that is held; the whole new node state |
| `NetworkSystem.NetworkSystem.Broadcast` | Modules/MicroWorld/Networking/NetworkSystem.cpp:190-216 | Sends once to every held peer in slot order; the whole new node state |
| `NetworkSystem.NetworkSystem.ResolveSenderPeer` | Modules/MicroWorld/Networking/NetworkSystem.cpp:218-237 | The handle a source value names if held; the whole new node state |
| `NetworkSystem.NetworkSystem.PreAdvance` | Modules/MicroWorld/Networking/NetworkSystem.cpp:239-294 | Heartbeats and time-outs in slot order; the whole new node state |
| `NetworkSystem.NetworkSystem.PostAdvance` | Modules/MicroWorld/Networking/NetworkSystem.cpp:296-299 | Nothing changes; the whole new node state |
| `NetworkSystem.NetworkSystem.EndPlay` | Modules/MicroWorld/Networking/NetworkSystem.cpp:301-315 | Retires what is left; the whole new node state |
| `NetworkSystem.NetworkSystem.HandleWireMessage` | Modules/MicroWorld/Networking/NetworkSystem.cpp:317-349 | Only known schemas on the protocol channel are dispatched; the whole new node state |
| `NetworkSystem.NetworkSystem.HandleConnectRequest` | Modules/MicroWorld/Networking/NetworkSystem.cpp:351-407 | Re-answers, re-admits, admits or rejects, with the generation checks; the whole new node state |
| `NetworkSystem.NetworkSystem.HandleConnectAccepted` | Modules/MicroWorld/Networking/NetworkSystem.cpp:409-426 | Accepts only the current attempt from the dialled route; the whole new node state |
| `NetworkSystem.NetworkSystem.HandleConnectRejected` | Modules/MicroWorld/Networking/NetworkSystem.cpp:428-440 | Ends only the current attempt; the whole new node state |
| `NetworkSystem.NetworkSystem.HandleHeartbeat` | Modules/MicroWorld/Networking/NetworkSystem.cpp:442-463 | Refreshes only the held session; the whole new node state |
| `NetworkSystem.NetworkSystem.HandleDisconnect` | Modules/MicroWorld/Networking/NetworkSystem.cpp:465-486 | Retires only the held session; the whole new node state |
| `NetworkSystem.NetworkSystem.HandleRoutedMessage` | Modules/MicroWorld/Networking/NetworkSystem.cpp:488-522 | Republishes only for the held session; the whole new node state |
| `NetworkSystem.NetworkSystem.FindAdmissionSlot` | Modules/MicroWorld/Networking/NetworkSystem.cpp:591-612 | The slot of the route, else the first free one, within the limit; the whole new node state |
| `NetworkSystem.NetworkSystem.CountAdmittedPeers` | Modules/MicroWorld/Networking/NetworkSystem.cpp:614-625 | The number of occupied slots; the whole new node state |
| `NetworkSystem.NetworkSystem.RetirePeer` | Modules/MicroWorld/Networking/NetworkSystem.cpp:627-642 | Frees the slot and moves its generation on, or retires it for good; the whole new node state |
| `NetworkSystem.NetworkSystem.RetireServer` | Modules/MicroWorld/Networking/NetworkSystem.cpp:644-654 | Forgets the server session; the whole new node state |
| `NetworkSystem.NetworkSystem.SendRoutedMessage` | Modules/MicroWorld/Networking/NetworkSystem.cpp:663-685 | Wraps the message with the session it belongs to; the whole new node state |
| `ProtocolCodec.DecodeUndoesEncode` | Modules/MicroWorld/Networking/NetworkSystem_Protocol.cpp:67-201 | For all six schemas decode(encode(m)) is m if and only if m is one the schema accepts |
| `ProtocolCodec.EncodeUndoesDecode` | Modules/MicroWorld/Networking/NetworkSystem_Protocol.cpp:67-201 | Every byte string a schema accepts is the one encoding of its message |
| `ProtocolCodec.EveryMessageFits` | Modules/MicroWorld/Networking/NetworkSystem_Protocol.cpp:174-185 | Every valid message fits the payload buffer and its reliable frame fits 104 bytes; the largest routed message fills it exactly |
| `ProtocolCodec.EncodeMessagePayload` | Modules/MicroWorld/Networking/NetworkSystem_Protocol.cpp:67-185 | Writes the encoding of the message or reports a full buffer |
| `ProtocolCodec.DecodeTypedMessage` | Modules/MicroWorld/Networking/NetworkSystem_Protocol.cpp:76-201 | Reads the message the bytes encode, or refuses |
| `ProtocolCodec.DecodeRouted` | Modules/MicroWorld/Networking/NetworkSystem_Protocol.cpp:187-201 | Reads handle, channel, name and the whole remaining payload |
| `ProtocolCodec.WritePeerId` | Modules/MicroWorld/Networking/NetworkSystem_Protocol.cpp:17-28 | Writes index and generation |
| `ProtocolCodec.ReadPeerId` | Modules/MicroWorld/Networking/NetworkSystem_Protocol.cpp:34-44 | Reads index and generation |
| `WireCodec.LittleEndianRoundTrip` | Modules/MicroWorld/Messaging/MessagingSystem_FrameCodec.cpp:141-158 | Reading what was written gives the value back |
| `WireCodec.FromLittleEndianFits` | Modules/MicroWorld/Messaging/MessagingSystem_FrameCodec.cpp:149-158 | Every byte string is the encoding of the value it reads as |
| `WireCodec.WriteUnsignedLittleEndian` | Modules/MicroWorld/Messaging/MessagingSystem_FrameCodec.cpp:141-147 | The shifting loop writes exactly the little-endian bytes |
| `WireCodec.ReadUnsignedLittleEndian` | Modules/MicroWorld/Messaging/MessagingSystem_FrameCodec.cpp:149-158 | The accumulating loop reads exactly the value |
| `WireCodec.MessageWriter.WriteUnsigned` | Modules/MicroWorld/Messaging/MessagingSystem_FrameCodec.cpp:8-46 | Appends the bytes of the value, or refuses and writes nothing |
| `WireCodec.MessageWriter.WriteBytes` | Modules/MicroWorld/Messaging/MessagingSystem_FrameCodec.cpp:48-61 | Appends the bytes, or refuses and writes nothing |
| `WireCodec.MessageReader.ReadUnsigned` | Modules/MicroWorld/Messaging/MessagingSystem_FrameCodec.cpp:63-102 | Reads the next value and moves past it, or refuses and stays |
| `WireCodec.MessageReader.ReadBytes` | Modules/MicroWorld/Messaging/MessagingSystem_FrameCodec.cpp:104-117 | Reads the next bytes and moves past them, or refuses and stays |
| `MessagingTheorems.AcknowledgedMeansDelivered` | Modules/MicroWorld/Messaging/MessagingSystem_WireReceive.cpp:67-108 | In every run in which no node creates a name with reliability after having created it without, every acknowledged message was delivered with its exact channel, name and payload by the node its route addresses; nodes may differ from each other |
| `MessagingTheorems.AcknowledgementProvesDelivery` | Modules/MicroWorld/Messaging/MessagingSystem_WireReceive.cpp:67-85 | An arriving acknowledgement releases at most one slot, of a message its sender already delivered |
| `MessagingReuse.HonestIffNoReuse` | Modules/MicroWorld/Messaging/MessagingSystem.cpp:200-230 | For any rule about which node may create which name with reliability after having created it without: every run that follows the rule releases only delivered messages if and only if the rule allows no such re-creation |
| `MessagingReuse.ReuseReleasesUndelivered` | Modules/MicroWorld/Messaging/MessagingSystem_WireReceive.cpp:32-108 | For any two nodes of any network, any name, interval and budget there is a run from boot with one such re-creation that releases a message nobody delivered |
| `MessagingTheorems.TrackedMessagesAreAccountedFor` | Modules/MicroWorld/Messaging/MessagingSystem.cpp:140-174 | In every run tracked equals pending plus acknowledged plus abandoned plus cancelled; a message is transmitted at most max(1, attempts) times, at least one retry interval apart |
| `MessagingTheorems.ReliableIdsAreFresh` | Modules/MicroWorld/Messaging/MessagingSystem.cpp:451-504 | In every run reliable ids are never reused and no two slots await the same id |
| `MessagingTheorems.DueSlotsMakeProgress` | Modules/MicroWorld/Messaging/MessagingSystem.cpp:140-174 | In every run a due slot is transmitted again, or given up exactly when its budget is spent |
| `MessagingSystem.MessagingSystem.RegisterLink` | Modules/MicroWorld/Messaging/MessagingSystem.cpp:178-198 | Takes the first free link id; the whole new node state |
| `MessagingSystem.MessagingSystem.CreateChannel` | Modules/MicroWorld/Messaging/MessagingSystem.cpp:200-230 | Refuses unset, duplicate and excess channels, else appends; the whole new node state |
| `MessagingSystem.MessagingSystem.DestroyChannel` | Modules/MicroWorld/Messaging/MessagingSystem.cpp:232-283 | Refuses a channel still in use, else closes the gap; the whole new node state |
| `MessagingSystem.MessagingSystem.CancelReliableMessagesForChannel` | Modules/MicroWorld/Messaging/MessagingSystem.cpp:285-301 | Releases every pending slot of the channel; the whole new node state |
| `MessagingSystem.MessagingSystem.TrackReliableMessage` | Modules/MicroWorld/Messaging/MessagingSystem.cpp:88-104 | Fills a slot with the frame, the first attempt and the next id; the whole new node state |
| `MessagingSystem.MessagingSystem.SendMessageToRoute` | Modules/MicroWorld/Messaging/MessagingSystem.cpp:451-504 | Size, link, id and slot checks in order, then one frame and its tracking; the whole new node state |
| `MessagingSystem.MessagingSystem.SendMessageToRemoteChannel` | Modules/MicroWorld/Messaging/MessagingSystem.cpp:506-521 | Validates and sends along the route; the whole new node state |
| `MessagingSystem.MessagingSystem.SendMessageToChannel` | Modules/MicroWorld/Messaging/MessagingSystem.cpp:523-538 | Delivers locally, then sends along the default route; the whole new node state |
| `MessagingSystem.MessagingSystem.DeliverMessageLocally` | Modules/MicroWorld/Messaging/MessagingSystem.cpp:435-449 | Validates and hands the message to the channel; the whole new node state |
| `MessagingSystem.MessagingSystem.BuildFrame` | Modules/MicroWorld/Messaging/MessagingSystem_FrameCodec.cpp:135-176 | Writes header, id and payload exactly as laid out; the whole new node state |
| `MessagingSystem.MessagingSystem.ProcessReceivedFrame` | Modules/MicroWorld/Messaging/MessagingSystem_WireReceive.cpp:32-65 | Drops, acknowledges or delivers by length, channel and name; the whole new node state |
| `MessagingSystem.MessagingSystem.ProcessAcknowledgement` | Modules/MicroWorld/Messaging/MessagingSystem_WireReceive.cpp:67-85 | Releases the matching slot only; the whole new node state |
| `MessagingSystem.MessagingSystem.ProcessReliableMessage` | Modules/MicroWorld/Messaging/MessagingSystem_WireReceive.cpp:87-108 | Delivers first and then acknowledges; the whole new node state |
| `MessagingSystem.MessagingSystem.ProcessReliablePendingMessage` | Modules/MicroWorld/Messaging/MessagingSystem.cpp:140-174 | Waits, retries or abandons one slot; the whole new node state |
| `MessagingSystem.MessagingSystem.PreAdvance` | Modules/MicroWorld/Messaging/MessagingSystem.cpp:540-550 | Moves the clock; the whole new node state |
| `MessagingSystem.MessagingSystem.PostAdvance` | Modules/MicroWorld/Messaging/MessagingSystem.cpp:552-559 | Processes every pending slot in order; the whole new node state |
| `MessagingSystem.MessagingSystem.FindReliablePendingMessage` | Modules/MicroWorld/Messaging/MessagingSystem.cpp:73-86 | The first slot that matches channel, route and id |
| `MessagingSystem.MessagingSystem.FindFreeReliablePendingMessage` | Modules/MicroWorld/Messaging/MessagingSystem.cpp:60-71 | The first free slot |
| `SpawnStorageProofs.TicketsAreConserved` | Modules/MicroWorld/Engine/TDeferredActorSpawnStorage.h:112-159 | A queued slot's ticket is in the live and sealed factory queues exactly once, a constructed one in the publish queues exactly once, unless its publication was dropped because its actor no longer resolved |
| `SpawnStorageProofs.FactoriesRunOnce` | Modules/MicroWorld/Engine/TDeferredActorSpawnStorage.h:252-281 | Each factory is invoked at most once and destroyed exactly once, namely when its request stops waiting |
| `SpawnStorageProofs.QueueHasRoom` | Modules/MicroWorld/Engine/TDeferredActorSpawnStorage.h:149-159 | A queue of waiting tickets always has room for one more, so the unchecked writes stay in bounds |
| `SpawnStorageProofs.ReserveKeeps` | Modules/MicroWorld/Engine/TDeferredActorSpawnStorage.h:112-133 | A request takes the first usable slot under a ticket never used before, or is refused, retiring only exhausted slots |
| `SpawnStorageProofs.SealKeeps` | Modules/MicroWorld/Engine/TDeferredActorSpawnStorage.h:215-230 | Sealing moves both live queues and keeps every ticket |
| `SpawnStorageProofs.ConstructKeeps` | Modules/MicroWorld/Engine/TDeferredActorSpawnStorage.h:252-281 | A sealed ticket is constructed or failed exactly once; any other ticket changes nothing |
| `SpawnStorageProofs.CompletePublishKeeps` | Modules/MicroWorld/Engine/TDeferredActorSpawnStorage.h:312-319 | Publication ends the wait of exactly this ticket |
| `SpawnStorageProofs.RestoreKeeps` | Modules/MicroWorld/Engine/TDeferredActorSpawnStorage.h:325-357 | Restoring returns every sealed ticket that still waits to its live queue |
| `SpawnStorageProofs.AbortKeeps` | Modules/MicroWorld/Engine/TDeferredActorSpawnStorage.h:363-382 | A failed startup leaves nothing queued or waiting and every factory destroyed |
| `SpawnStorageProofs.ReleaseKeeps` | Modules/MicroWorld/Engine/TDeferredActorSpawnStorage.h:388-399 | Releasing a destroyed actor frees at most its own slot |
| `DeferredActorSpawnStorage.DeferredActorSpawnStorage.Reserve` | Modules/MicroWorld/Engine/TDeferredActorSpawnStorage.h:112-133 | The first reusable slot, with exhausted slots retired on the way; the whole new storage state |
| `DeferredActorSpawnStorage.DeferredActorSpawnStorage.Activate` | Modules/MicroWorld/Engine/TDeferredActorSpawnStorage.h:149-159 | The unchecked append to the factory queue, in bounds; the whole new storage state |
| `DeferredActorSpawnStorage.DeferredActorSpawnStorage.PendingCount` | Modules/MicroWorld/Engine/TDeferredActorSpawnStorage.h:165-176 | The number of queued and constructed slots |
| `DeferredActorSpawnStorage.DeferredActorSpawnStorage.SealBarrier` | Modules/MicroWorld/Engine/TDeferredActorSpawnStorage.h:215-230 | Both queues become the sealed batch; the whole new storage state |
| `DeferredActorSpawnStorage.DeferredActorSpawnStorage.Construct` | Modules/MicroWorld/Engine/TDeferredActorSpawnStorage.h:252-281 | Invokes the factory once, destroys it and queues the actor or records the failure; the whole new storage state |
| `DeferredActorSpawnStorage.DeferredActorSpawnStorage.DestroyFactory` | Modules/MicroWorld/Engine/TDeferredActorSpawnStorage.h:536-543 | Destroys the capture exactly once; the whole new storage state |
| `DeferredActorSpawnStorage.DeferredActorSpawnStorage.CompleteFailure` | Modules/MicroWorld/Engine/TDeferredActorSpawnStorage.h:549-555 | Destroys the factory and records the failure; the whole new storage state |
| `DeferredActorSpawnStorage.DeferredActorSpawnStorage.GetConstructedActor` | Modules/MicroWorld/Engine/TDeferredActorSpawnStorage.h:302-306 | The actor of a constructed ticket |
| `DeferredActorSpawnStorage.DeferredActorSpawnStorage.GetStatus` | Modules/MicroWorld/Engine/TDeferredActorSpawnStorage.h:188-209 | The public status of a ticket; a constructed actor stays hidden behind the answer that it waits |
| `DeferredActorSpawnStorage.DeferredActorSpawnStorage.CompletePublish` | Modules/MicroWorld/Engine/TDeferredActorSpawnStorage.h:312-319 | The ticket reads as spawned; the whole new storage state |
| `DeferredActorSpawnStorage.DeferredActorSpawnStorage.RestoreUnpublished` | Modules/MicroWorld/Engine/TDeferredActorSpawnStorage.h:325-338 | Requeues tickets that still wait for publication; the whole new storage state |
| `DeferredActorSpawnStorage.DeferredActorSpawnStorage.RestoreUnconstructed` | Modules/MicroWorld/Engine/TDeferredActorSpawnStorage.h:344-357 | Requeues tickets that still wait for construction; the whole new storage state |
| `DeferredActorSpawnStorage.DeferredActorSpawnStorage.AbortSealedBatch` | Modules/MicroWorld/Engine/TDeferredActorSpawnStorage.h:363-382 | Destroys all factories and clears all queues; the whole new storage state |
| `DeferredActorSpawnStorage.DeferredActorSpawnStorage.ReleaseActor` | Modules/MicroWorld/Engine/TDeferredActorSpawnStorage.h:388-399 | Frees the slot of the actor; the whole new storage state |
| `WorldRuns.EveryRunKeepsTheWorld` | Modules/MicroWorld/Engine/World_SpawnDestroy.cpp:13-353 | Over every run from construction on, of registrations, requests, a start, barriers, an end, and actors created or discarded behind the world's back: live plus pending plus deferred stays within capacity, each waiting request is in the next barrier's queue exactly once unless its actor was discarded, each factory runs at most once and is destroyed exactly once |
| `WorldRuns.StrandsIffCareless` | Modules/MicroWorld/Engine/World_SpawnDestroy.cpp:331-353 | A run leaves a request waiting for an actor that no longer resolves if and only if at some moment it marked for destruction an actor built but not yet published; in all other runs no publication is ever dropped |
| `WorldRuns.StrandedForEver` | Modules/MicroWorld/Engine/World_SpawnDestroy.cpp:331-353 | Such a request waits for ever: no later run changes its slot, its caller keeps reading that it waits, and the live registry never fills again |
| `WorldRuns.RequestsCanBeStranded` | Modules/MicroWorld/Engine/World_SpawnDestroy.cpp:314-353 | For every capacity, slot count and actor there is a run from construction that strands a request |
| `WorldRuns.SlotLeaksIffUnresolved` | Modules/MicroWorld/Engine/World_SpawnDestroy.cpp:331-353 | At a barrier that gets its guards a ticket that waits for publication is spawned if its actor resolves, and otherwise reads as waiting in every state any later run reaches |
| `WorldTheorems.BarrierKeepsTheWorld` | Modules/MicroWorld/Engine/World_SpawnDestroy.cpp:173-235 | Whatever the hooks queue, whichever guards are refused and whatever factories build, live plus pending plus deferred stays within capacity and all queues stay consistent |
| `WorldTheorems.RequestKeepsTheWorld` | Modules/MicroWorld/Engine/World_SpawnDestroy.cpp:13-171 | Requests outside a barrier keep the same invariant |
| `WorldStart.BeginPlayKeeps` | Modules/MicroWorld/Engine/World_Lifecycle.cpp:12-96 | However the start goes, bounds and queues hold, and no actor it has built gets lost |
| `WorldTheorems.SealedWorkOnly` | Modules/MicroWorld/Engine/World_SpawnDestroy.cpp:173-353 | A barrier that gets its guards settles every request accepted before it and none accepted during it: built actors are spawned, waiting ones are spawned exactly if they resolve |
| `WorldTheorems.AdmittedRequestsGetASlot` | Modules/MicroWorld/Engine/World_SpawnDestroy.cpp:31-56 | With as many request slots as actors and none worn out, an admitted request always gets a slot |
| `WorldTheorems.RegistrationKeepsTheBoundIff` | Modules/MicroWorld/Engine/World_ActorRegistration.cpp:44-95 | An accepted registration before play keeps the bound if and only if the check the other entry points make would have passed |
| `WorldRuns.RegistrationCanOvercommit` | Modules/MicroWorld/Engine/World_ActorRegistration.cpp:44-95 | In any world with one place left, a typed request and a registration are both accepted, and at the start the publication appends to a live array that is already full |
| `WorldRuns.OvercommitIsReachable` | Modules/MicroWorld/Engine/World_ActorRegistration.cpp:30-95 | For a world of one actor this is a run from its construction: two actors end up live |
| `QuietBarrier.QuietBarrierMeans` | Modules/MicroWorld/Engine/World_SpawnDestroy.cpp:173-386 | With hooks that queue nothing the live list becomes the old one without the doomed, then manual spawns, then deferred actors in ticket order; the hooks ran in that order |
| `World.ActorRegistry.Add` | Modules/MicroWorld/Engine/EngineRegistryView.h:140-144 | The unchecked append to the live array, in bounds |
| `World.ActorRegistry.RemoveAt` | Modules/MicroWorld/Engine/EngineRegistryView.h:150-158 | Closes the gap and keeps the order of the others |
| `World.ActorRegistry.AddPendingSpawn` | Modules/MicroWorld/Engine/EngineRegistryView.h:176-180 | Appends in bounds |
| `World.ActorRegistry.AddPendingDestroy` | Modules/MicroWorld/Engine/EngineRegistryView.h:211-215 | Appends in bounds |
| `World.ActorRegistry.ClearPendingSpawn` | Modules/MicroWorld/Engine/EngineRegistryView.h:186-193 | Empties the list |
| `World.ActorRegistry.ClearPendingDestroy` | Modules/MicroWorld/Engine/EngineRegistryView.h:221-228 | Empties the list |
| `World.World.CanAcceptMoreActors` | Modules/MicroWorld/Engine/World_ActorRegistration.cpp:30-34 | True exactly when one more commitment fits |
| `World.World.HasPendingBarrierWork` | Modules/MicroWorld/Engine/World_ActorRegistration.cpp:36-42 | True exactly when a list or lane is not empty |
| `World.World.RegisterActor` | Modules/MicroWorld/Engine/World_ActorRegistration.cpp:19-103 | Refusals in source order, else one live actor more |
| `World.World.SpawnActor` | Modules/MicroWorld/Engine/World_SpawnDestroy.cpp:13-115 | Refusals in source order, else one pending spawn more |
| `World.World.DestroyActor` | Modules/MicroWorld/Engine/World_SpawnDestroy.cpp:117-171 | Refusals in source order, else one doomed actor more |
| `World.World.SpawnTypedActor` | Modules/MicroWorld/Engine/World_SpawnDestroy.cpp:31-56 | Refusals, else one ticket more |
| `World.World.EndDoomedActors` | Modules/MicroWorld/Engine/World_SpawnDestroy.cpp:237-259 | Ends every doomed actor, including those doomed meanwhile |
| `World.World.MarkAndUnregisterDoomedActors` | Modules/MicroWorld/Engine/World_SpawnDestroy.cpp:261-287 | Unregisters every doomed actor that resolves and releases its ticket |
| `World.World.BeginPendingSpawns` | Modules/MicroWorld/Engine/World_SpawnDestroy.cpp:355-386 | Registers and begins every pending spawn, including those queued meanwhile |
| `World.World.ConstructDeferredSpawns` | Modules/MicroWorld/Engine/World_SpawnDestroy.cpp:289-295 | Constructs every sealed ticket in order |
| `World.World.BeginDeferredSpawns` | Modules/MicroWorld/Engine/World_SpawnDestroy.cpp:331-353 | Registers, begins and completes every sealed publication in order |
| `World.World.ApplyPending` | Modules/MicroWorld/Engine/World_SpawnDestroy.cpp:173-235 | The whole barrier with every early exit; keeps the capacity invariant |
| `World.World.BeginPlay` | Modules/MicroWorld/Engine/World_Lifecycle.cpp:12-96 | The start with every early exit: requests constructed first, then live actors, then publications; keeps the invariant of all runs |
| `World.World.EndPlay` | Modules/MicroWorld/Engine/World_Lifecycle.cpp:139-170 | Refuses further requests, then runs the end hooks in reverse |
| `World.World.AbortPrePlayConstruction` | Modules/MicroWorld/Engine/World_SpawnDestroy.cpp:297-312 | Discards what the failed start has built and fails what still waits |
| `World.World.BeginRegisteredActors` | Modules/MicroWorld/Engine/World_Lifecycle.cpp:172-198 | Begins the registered actors in order; the first failure ends the earlier ones in reverse |
| `World.World.EndActorsReverse` | Modules/MicroWorld/Engine/World_Lifecycle.cpp:200-217 | Ends live actors in reverse, passing over those that do not resolve |
| `TimerProofs.ScheduleRefines` | Modules/MicroWorld/Core/TimerManager.h:77-115 | A schedule appends one timer under a handle never issued before, with a saturated deadline, or changes nothing |
| `TimerProofs.CancelRefines` | Modules/MicroWorld/Core/TimerManager.h:121-140 | A cancel succeeds if and only if the handle is in the list and removes exactly that timer |
| `TimerProofs.AdvanceRefines` | Modules/MicroWorld/Core/TimerManager.h:147-170 | The due timers fire in schedule order, fired one-shots leave, fired loops are rearmed in place, all others stay; refused exactly for a clock that runs backwards |
| `TimerProofs.FiringsComeFrom` | Modules/MicroWorld/Core/TimerManager.h:303-347 | The firings are due timers of the list, each at most once, in list order |
| `TimerProofs.EveryDueTimerFires` | Modules/MicroWorld/Core/TimerManager.h:303-347 | Every due timer is among the firings |
| `TimerProofs.HandlesNeverRevive` | Modules/MicroWorld/Core/TimerManager.h:273-281 | A handle that has left the list never becomes live again in any run |
| `TimerProofs.LoopsKeepTheirPeriod` | Modules/MicroWorld/Core/TimerManager.h:303-347 | Over any run a one-shot fires at most once, and a loop with a period fires strictly later and no earlier than one period after any earlier firing, the 64-bit maximum aside |
| `TimerManager.OrderHasRoom` | Modules/MicroWorld/Core/TimerManager.h:108-111 | A slot that is not active leaves room in the insertion order, so the unchecked append is in bounds |
| `TimerManager.TimerManager.constructor` | Modules/MicroWorld/Core/TimerManager.h:37-37 | An empty manager at the given time |
| `TimerManager.TimerManager.FindAvailableSlot` | Modules/MicroWorld/Core/TimerManager.h:242-253 | The lowest slot that is neither active nor retired |
| `TimerManager.TimerManager.Schedule` | Modules/MicroWorld/Core/TimerManager.h:77-115 | Refusals in source order, else the armed slot and its handle; the whole new state |
| `TimerManager.TimerManager.Cancel` | Modules/MicroWorld/Core/TimerManager.h:121-140 | Refusals in source order, else the vacated slot and the closed gap; the whole new state |
| `TimerManager.TimerManager.Advance` | Modules/MicroWorld/Core/TimerManager.h:147-170 | Snapshot, dispatch under the lock, one compaction; the whole new state |
| `TimerManager.TimerManager.SnapshotActiveTimers` | Modules/MicroWorld/Core/TimerManager.h:288-296 | The snapshot is the insertion order |
| `TimerManager.TimerManager.FireAndRescheduleSlot` | Modules/MicroWorld/Core/TimerManager.h:303-347 | Fires one timer if live, due and not fired at this time |
| `TimerManager.TimerManager.CompactInsertionOrder` | Modules/MicroWorld/Core/TimerManager.h:354-376 | Keeps the live entries in order and clears the rest |
| `TimerManager.TimerManager.RemoveInsertionOrderAt` | Modules/MicroWorld/Core/TimerManager.h:382-402 | Closes the gap of the removed handle |
| `ClassAncestry.HasAcyclicAncestry` | Modules/MicroWorld/Engine/ClassDescriptor.h:91-108 | The two-probe loop ends on every finite graph of parent links and returns true if and only if the chain reaches null |
| `ClassAncestry.AncestryContains` | Modules/MicroWorld/Engine/ClassDescriptor.h:113-125 | On a chain that ends, true if and only if the candidate is on it |
| `ClassAncestry.IsChildOf` | Modules/MicroWorld/Engine/ClassDescriptor.h:78-85 | True if and only if the chain ends and the candidate is on it |
| `ClassAncestry.ProbesMeet` | Modules/MicroWorld/Engine/ClassDescriptor.h:91-108 | On a cycle the probes meet within as many rounds as there are descriptors |
| `ClassAncestry.ChildOfIsAntisymmetric` | Modules/MicroWorld/Engine/ClassDescriptor.h:78-85 | Two classes that are children of each other are one class, on any graph |
| `ClassAncestry.ChildOfIsTransitive` | Modules/MicroWorld/Engine/ClassDescriptor.h:78-85 | A child of a child is a child, on any graph |
| `ClassRegistryModel.RegisteredAncestryIsAPartialOrder` | Modules/MicroWorld/Engine/ClassRegistry.h:229-255 | Registered classes have no cyclic ancestry and being a child is a partial order on them |
| `ClassRegistryModel.EveryRegistryIsSound` | Modules/MicroWorld/Engine/ClassRegistry.h:63-157 | After any run of registrations from an empty registry: distinct nonzero ids, parents before children, being a child is a partial order, and no registered class ever moves |
| `ClassRegistryModel.RegisterAcceptsExactly` | Modules/MicroWorld/Engine/ClassRegistry.h:63-85 | Explicit registration succeeds if and only if the class is well formed with a fresh nonzero id, a registered parent or none, and room; for new descriptors and registered ones passed again |
| `ClassRegistryModel.RegisterKeeps` | Modules/MicroWorld/Engine/ClassRegistry.h:63-85 | Ids stay distinct and nonzero, parents precede children, and a refusal changes nothing |
| `ClassRegistryModel.RegisterAutomaticKeeps` | Modules/MicroWorld/Engine/ClassRegistry.h:128-157 | The same for automatic registration; success names a class with the candidate's token |
| `ClassRegistryModel.ParentCheckIsExact` | Modules/MicroWorld/Engine/ClassRegistry.h:229-255 | The parent check accepts exactly a null or a registered parent, for new descriptors and registered ones |
| `ClassRegistryModel.RefusedOnlyWhenFull` | Modules/MicroWorld/Engine/ClassRegistry.h:128-157 | A well-formed new class with a valid parent is refused if and only if the registry is full or all 2^31 automatic ids are taken, which takes a registry of more than 2^31 slots |
| `ClassRegistryModel.AllocationFailsIffRangeExhausted` | Modules/MicroWorld/Engine/ClassRegistry.h:172-188 | With room left, id allocation fails if and only if the whole automatic range is taken |
| `ClassRegistryModel.AllocateFailsIff` | Modules/MicroWorld/Engine/ClassRegistry.h:172-188 | Allocation fails if and only if every probed id is taken |
| `ClassRegistry.ClassRegistry.Find` | Modules/MicroWorld/Engine/ClassRegistry.h:91-101 | The first class with the id |
| `ClassRegistry.ClassRegistry.FindByTypeToken` | Modules/MicroWorld/Engine/ClassRegistry.h:107-121 | The first class with the token, none for null |
| `ClassRegistry.ClassRegistry.CheckParentChain` | Modules/MicroWorld/Engine/ClassRegistry.h:229-255 | The parent walk with its visit limit decides as the model does |
| `ClassRegistry.ClassRegistry.Register` | Modules/MicroWorld/Engine/ClassRegistry.h:63-85 | Refusals in source order, else one class appended; the whole new state |
| `ClassRegistry.ClassRegistry.AllocateAutomaticTypeId` | Modules/MicroWorld/Engine/ClassRegistry.h:172-188 | Bounded probing from the cursor, skipping taken ids, with wrap-around |
| `ClassRegistry.ClassRegistry.RegisterAutomatic` | Modules/MicroWorld/Engine/ClassRegistry.h:128-157 | Known token, refusals in source order, else one class under a fresh id; the whole new state |
| `LifecycleTheorems.BeginPlayIsAtomic` | Modules/MicroWorld/Engine/World_Lifecycle.cpp:12-96 | Whatever fails while play begins, the hooks that ran form a balanced bracket sequence; on success the open hooks are those of the subsystems, then of each playing actor after its components |
| `LifecycleTheorems.PlayIsBalanced` | Modules/MicroWorld/Engine/World_Lifecycle.cpp:139-170 | Begin of play followed by end of play is balanced, whether or not the begin succeeded |
| `LifecycleRuns.EveryPartLivesOnce` | Modules/MicroWorld/Core/LifecycleGuard.h:27-68 | Over any begin, play and end, whatever fails, the hooks of each part are none, one begin, or one begin and one end after it, as its phase says |
| `LifecycleRuns.EndOfPlayReachesEverything` | Modules/MicroWorld/Engine/World_Lifecycle.cpp:139-217 | After end of play nothing still plays except lost parts and components of lost actors |
| `LifecycleRuns.EndBalancesIffNothingIsLost` | Modules/MicroWorld/Engine/World_Lifecycle.cpp:200-217 | In a world whose open hooks are still nested, that is before any older actor has retired, and whose references are then lost, the end of play is balanced if and only if none of the lost parts was open |
| `LifecycleOwners.OwnersNest` | Modules/MicroWorld/Engine/Actor.cpp:110-224 | Over any begin of play and any spawning, retiring and losing: the events of an actor and its components nest at every moment, all of its hooks open while it plays and none otherwise, unless one of them is lost while it plays |
| `LifecycleOwners.OwnersBalanceIffNothingIsLost` | Modules/MicroWorld/Engine/World_Lifecycle.cpp:139-217 | After any such run and the end of play, the events of an actor and its components are balanced if and only if none of them was lost while it played |
| `LifecycleTheorems.EndPlaySucceedsIff` | Modules/MicroWorld/Engine/World_Lifecycle.cpp:139-170 | The end of play reports no error if and only if every registered actor that resolves, and each of its components if it plays, can end, and every subsystem resolves and can end |
| `LifecycleRuns.OpenMeansPlaying` | Modules/MicroWorld/Engine/World_Lifecycle.cpp:172-217 | The hooks left open by a trace are exactly those of the parts in the playing phase |
| `LifecycleProofs.BeginLeavesPushes` | Modules/MicroWorld/Engine/Actor.cpp:129-156 | A begin cascade over parts completes with all of them open in order, or leaves nothing of it open |
| `LifecycleProofs.EndLeavesPops` | Modules/MicroWorld/Engine/World_Subsystems.cpp:111-129 | The reverse cascade closes exactly its parts, innermost first |
| `LifecycleProofs.BeginActorsPushes` | Modules/MicroWorld/Engine/World_Lifecycle.cpp:172-198 | A begin cascade over actors completes with every actor standing on its components, or leaves nothing open |
| `LifecycleProofs.EndActorsPops` | Modules/MicroWorld/Engine/World_Lifecycle.cpp:200-217 | The reverse cascade over actors closes exactly the hooks of those that play, innermost first |
| `WorldLifecycle.WorldLifecycle.BeginPlay` | Modules/MicroWorld/Engine/World_Lifecycle.cpp:12-96 | Every early exit and rollback in source order; the whole new state |
| `WorldLifecycle.WorldLifecycle.EndPlay` | Modules/MicroWorld/Engine/World_Lifecycle.cpp:139-170 | Idempotent after a success, refused otherwise, else the whole reverse cascade and its first error |
| `WorldLifecycle.WorldLifecycle.BeginRegisteredActorsWithRollback` | Modules/MicroWorld/Engine/World_Lifecycle.cpp:172-198 | Begins actors in order; the first failure ends the earlier ones in reverse |
| `WorldLifecycle.WorldLifecycle.EndActorsReverse` | Modules/MicroWorld/Engine/World_Lifecycle.cpp:200-217 | Ends actors in reverse, passing over those that do not resolve, and reports the first error |
| `WorldLifecycle.WorldLifecycle.BeginDeferredSpawns` | Modules/MicroWorld/Engine/World_SpawnDestroy.cpp:331-353 | Registers and begins each constructed actor, going on after a failure |
| `WorldLifecycle.WorldLifecycle.DispatchActorBegin` | Modules/MicroWorld/Engine/Actor.cpp:110-156 | Guard, components with rollback, then the hook; a failure leaves the actor failed |
| `WorldLifecycle.WorldLifecycle.DispatchActorEnd` | Modules/MicroWorld/Engine/Actor.cpp:194-224 | Guard, hook, then components in reverse, with the first error |
| `WorldLifecycle.WorldLifecycle.BeginWithRollback` | Modules/MicroWorld/Engine/World_Subsystems.cpp:82-109 | Begins parts in order; the first failure ends the earlier ones in reverse |
| `WorldLifecycle.WorldLifecycle.EndReverse` | Modules/MicroWorld/Engine/World_Subsystems.cpp:111-129 | Ends parts in reverse, passing over those that do not resolve, with the first error |

## Left out

- Platform devices, UDP, UART and LoRa transports, logging, byte streams, ring buffers and examples: input and output.
- Tick functions, delegates, smart-pointer wrappers and the remaining small containers: nothing above depends on them.
- Object store: placement new, alignment, type tokens and virtual dispatch; a destructor is the list of roots it releases. Saturating diagnostic statistics.
- Collector: the guard against calling `Advance` from inside `Advance`, and destructors that cancel the collection. A null worklist pointer counts as a worklist of length 0. An object assigns its references only while no cycle is under way.
- Engine frame: the world reference is taken to resolve, and actors' work is represented by the store calls it makes.
- Session: what the messaging layer answers is a parameter, a refused send is a lost frame, and event delegates do not call back into the system. Protocol names are given constants. A client process does not restart.
- Messaging: subscription slots and their dispatch (handing a message to a channel is one entry of a log), the per-advance receive budget, 32-bit wrap of diagnostic counters. Each registered link is a new device, and an address is the number of a node.
- World: references of the storage for the collector. Deferred spawning is taken to be configured. A request names an actor by a managed reference, and nobody but the storage has one of an actor that is not yet published, so no hook spawns or destroys it.
- ObjectStore.ObjectStore.constructor: takes the separate checks of the storage descriptor as one flag.
- EngineHost.EngineHost.Tick: takes the world, the play systems and the timers as the store calls they make.
- NetworkSystem.NetworkSystem.Initialize: takes the creation of the wire channels and subscriptions as one flag.
- NetworkSystem.NetworkSystem.Shutdown: does not undo those subscriptions, which belong to the messaging layer.
- ProtocolCodec.EncodeMessagePayload: does not fix which of its refusal codes is returned.
- MessagingSystem.MessagingSystem.RegisterLink: does not return the existing id of a known device, since each device is new.
- MessagingSystem.MessagingSystem.CreateChannel: does not register the device of the channel, which is a call of its own.
- MessagingSystem.MessagingSystem.DestroyChannel: takes the scan for subscribers as one flag.
- MessagingSystem.MessagingSystem.PreAdvance: leaves the receive loop to delivery events.
- World.World.EndDoomedActors: does not report the first error of the hooks it runs, because no later step of the barrier depends on it; which hooks ran, and in which order, is kept.
- World.World.BeginPendingSpawns: does not report the first error of its hooks, for the same reason.
- World.World.BeginDeferredSpawns: does not report the first error of its hooks, for the same reason.
- World.World.ApplyPending: does not report the first error of its phases, for the same reason.
- World.World.MarkAndUnregisterDoomedActors: does not mark the components of the actor, which are objects of the store and not of the world's tables.
- Lifecycle: tick baselines and the advance of actors between begin and end; the store, the registry arrays and the deferred storage are taken to be configured. Parts are the values of one dictionary of phases instead of separate objects.
- Timers: inline callback storage; a callback is a number and its execution one entry of a log.
- Class registry: diagnostic names and function pointers, apart from whether a destructor and a token are present.
- Frame decoder: a decoder without payload capacity, which the original rules out at compile time.
