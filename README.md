# Event-sourced grain storage, modelled in Dafny

This project models the event-sourcing core of an Orleans storage provider that keeps
each grain's state in an EventStore log. A journaled grain never writes its state
directly. It raises an event, and the provider appends that event to the grain's main
stream `<grainType>::<key>`, checking the expected version against the ETag. On every
ETag that is a multiple of 10, the provider also appends a snapshot to
`<grainType>::<key>::Snapshots`. To read a grain, the provider seeds the state from the
latest snapshot and then replays the main stream forward, page by page. The test grain
`JournaledPersonGrain` with its three person events is modelled as well. The log service
is replaced by an in-memory stand-in that does only what the provider relies on.

Modules, in dependency order:

- `Wrappers` (`wrappers.dfy`): the `Option`, `Result` and `Outcome` types.
- `PersonEvents` (`person_events.dfy`): the person state and its three events.
  - `PersonState` is a class, because the events' `Apply` methods update its fields in place.
  - `ApplyTo` and `ApplyAll` give what applying events means, as values.
- `EventLog` (`event_log.dfy`): the in-memory log, an `EventStore` class.
  - `Append` checks the expected version (`Any`, `NoStream`, `Exact`).
  - `ReadForward` returns one page, described by the predicate `IsPageOf`.
  - It also offers a backward read of the last record. Deleted streams are a set in the log's state.
- `StorageProvider` (`storage_provider.dfy`): the provider.
  - `ReadState` and its paging loop `ReplayStream` are proved equal to the whole-sequence replay `Load`.
  - `WriteState` is proved equal to the function `Persist`.
  - Lemmas cover what those two functions promise.
- `JournaledGrain` (`journaled_grain.dfy`): the base grain's `WriteEvent` and `ApplyEvent`.
  - `WriteEvent` keeps the invariant `InSync`: the stored history is consistent, and the in-memory state and ETag are its replay.
- `JournaledPersonGrain` (`journaled_person_grain.dfy`): the person grain's `RegisterBirth`, `Marry` and `GetPersonalAttributes`.

Quirks of the code that the model keeps:

- **A failed snapshot append is not swallowed.** `WriteStateAsync` has no handler around
  the snapshot append. If that append fails, the whole write fails after the event is
  already in the main stream, and the ETag is not advanced.
  `SnapshotFailureLeavesETagBehind` proves that the grain's next write is then refused.
- **The snapshot cadence uses the ETag before the write.** It includes 0, so the first
  snapshot comes with the second event. The snapshot records that old ETag and the state
  without the new event. That state is exactly the replay of the history through the
  old ETag, as `ConsistentAfterAppend` proves.
- **A replay seeded by a snapshot restarts AT the snapshot's last event, not after it.**
  That event is applied twice. Every person event is idempotent (`ApplyIsIdempotent`),
  so the result is still the full replay (`ReplayFromIncludedPosition`,
  `LoadReplaysHistory`).
- **A snapshot with no main stream** (a `StreamNotFound` read) leaves the snapshot's
  state and ETag in place (`LoadSnapshotWithoutStream`).
- **Page requests grow.** Each forward read asks for `sliceStart + 5` records rather
  than 5. `ReplayStream` is proved correct for every start position with requests of
  `sliceStart + ReadPageSize` (`ReadPageSize` is the constant 5).
- **Stream names can collide.** A grain key ending in `::Snapshots` names, as its main
  stream, another grain's snapshot stream (`SnapshotStreamIsMainStreamOfSuffixedKey`).

## Model

| member | source | states |
|---|---|---|
| PersonEvents.Apply | test/TestGrains/EventSourcing/JournaledPerson_Events.cs:20-59 | applying an event changes the state as `ApplyTo` says; a registration sets the names and gender, a marriage sets only the married flag, a name change sets only the last name; every other field and the pending event stay as they were |
| PersonEvents.ApplyIsIdempotent | test/TestGrains/EventSourcing/JournaledPerson_Events.cs:20-59 | applying the same event twice gives the same state as applying it once |
| PersonEvents.MarriedAndLastNameChangedCommute | test/TestGrains/EventSourcing/JournaledPerson_Events.cs:41-59 | a marriage and a last-name change can be applied in either order with the same result |
| PersonEvents.ApplyAllConcat | src/OrleansEventSourcing/EventStoreStorageProvider.cs:86-106 | replaying two runs of events one after the other is replaying their concatenation, which is what lets a replay go page by page |
| PersonEvents.ReplayFromIncludedPosition | src/OrleansEventSourcing/EventStoreStorageProvider.cs:76-81 | a state that already holds events 0..k, replayed again from event k on, is the full replay |
| PersonEvents.PersonState.Populate | src/OrleansEventSourcing/EventStoreStorageProvider.cs:75 | populating the state from a snapshot sets all four properties to the snapshot's values and keeps the pending event |
| EventLog.AppendTo | src/OrleansEventSourcing/EventStoreStorageProvider.cs:119-121 | an append is accepted exactly when the stream is not deleted and holds the expected number of records; it then adds the record at number \|stream\| and changes no other stream; a refused append changes nothing, and a deleted stream is the only cause of `StreamWasDeleted` |
| EventLog.OptimisticConcurrency | src/OrleansEventSourcing/EventStoreStorageProvider.cs:119-121 | of two appends expecting the same version (other than `Any`), at most one is accepted, and the stream grows by that one record |
| EventLog.AppendsNumberConsecutively | src/OrleansEventSourcing/EventStoreStorageProvider.cs:119-132 | two accepted appends to one stream get consecutive numbers whatever versions they expect, and an append expecting the number the previous append returned (as the next write does with the ETag that number became) is accepted |
| EventLog.EventStore.Append | src/OrleansEventSourcing/EventStoreStorageProvider.cs:121 | the log after an append and the append's result are those of `AppendTo`; deletions are unchanged |
| EventLog.EventStore.ReadForward | src/OrleansEventSourcing/EventStoreStorageProvider.cs:88-96 | a forward read reports a deleted stream or a stream not found exactly in those cases; otherwise it returns the page `IsPageOf` describes: the records from `from` up to the count or the end, the next number, the last number and whether the end was reached |
| EventLog.EventStore.ReadBackwardLast | src/OrleansEventSourcing/EventStoreStorageProvider.cs:70 | a backward read of one record from the end gives the stream's last record, or nothing for an empty or deleted stream |
| StorageProvider.SnapshotStreamExtendsStream | src/OrleansEventSourcing/EventStoreStorageProvider.cs:152-160 | the snapshot stream's name is the main stream's name followed by `::Snapshots`, so the two differ |
| StorageProvider.SnapshotStreamIsMainStreamOfSuffixedKey | src/OrleansEventSourcing/EventStoreStorageProvider.cs:152-160 | the snapshot stream of key k is the main stream of key k + `::Snapshots` |
| StorageProvider.StreamNameDeterminesKey | src/OrleansEventSourcing/EventStoreStorageProvider.cs:152-160 | within one grain type, two keys with the same main stream name, or the same snapshot stream name, are the same key |
| StorageProvider.DecodeEvents | src/OrleansEventSourcing/EventStoreStorageProvider.cs:100-104 | deserializing records gives at most as many events as there are records, stopping exactly at the first record that is not an event |
| StorageProvider.DecodeEventsHeld | src/OrleansEventSourcing/EventStoreStorageProvider.cs:100-104 | each decoded event is the event its record holds |
| StorageProvider.DecodeEventsOfPrefix | src/OrleansEventSourcing/EventStoreStorageProvider.cs:100-104 | any run of event records ending at a non-event or at the end is what decoding returns |
| StorageProvider.ReadState | src/OrleansEventSourcing/EventStoreStorageProvider.cs:64-109 | a read leaves the state, ETag and outcome `Load` computes from the latest snapshot and the whole main stream: a non-snapshot fails, a snapshot seeds state and ETag, and the replay follows; the pending event is kept |
| StorageProvider.ReplayStream | src/OrleansEventSourcing/EventStoreStorageProvider.cs:79-109 | the paged do-while loop gives the same result as replaying the whole stream from the ETag on: a stream not found keeps the seed, a deleted stream fails, an unreadable record fails after the events before it, and otherwise the ETag becomes the last event number |
| StorageProvider.ApplyPage | src/OrleansEventSourcing/EventStoreStorageProvider.cs:98-106 | one pass of the loop extends the events applied so far by the page's events; where the loop stops, the state is the one the whole-stream replay gives; when it goes on, the next read starts strictly further and still inside the stream |
| StorageProvider.ApplyEvents | src/OrleansEventSourcing/EventStoreStorageProvider.cs:100-104 | applying a page's records succeeds exactly when all are events, and the state is the old state with the decoded events applied |
| StorageProvider.PageStep | src/OrleansEventSourcing/EventStoreStorageProvider.cs:88-106 | a page read from the current cursor continues the tail, so the events applied stay a decoded prefix of it; a page that ends the stream or holds a non-event completes the decoding; the last number is the stream's |
| StorageProvider.PageContinuesTail | src/OrleansEventSourcing/EventStoreStorageProvider.cs:88-90 | a page read from cursor + done holds the next records of the tail from the cursor; it ends the stream exactly when it reaches the tail's end, and otherwise it is full |
| StorageProvider.AppendDecodedPage | src/OrleansEventSourcing/EventStoreStorageProvider.cs:100-104 | the events decoded from such a page extend the applied events as a decoded prefix of the tail, and a page with a non-event completes the tail's decoding |
| StorageProvider.DecodedPrefixHeld | src/OrleansEventSourcing/EventStoreStorageProvider.cs:100-104 | a prefix of records decodes to some events exactly when each of those records holds its event |
| StorageProvider.ReplayStops | src/OrleansEventSourcing/EventStoreStorageProvider.cs:100-108 | once the tail is fully decoded, an unreadable record fails with the ETag kept and otherwise the ETag is the last number, with the decoded events applied |
| StorageProvider.WriteState | src/OrleansEventSourcing/EventStoreStorageProvider.cs:111-133 | a write leaves the log, pending event, ETag and outcome that `Persist` computes; the state's properties and the deletions are unchanged |
| StorageProvider.ExpectedForMatchesETag | src/OrleansEventSourcing/EventStoreStorageProvider.cs:119 | the expected version built from the ETag (NoStream without one, the ETag otherwise) is met by exactly the streams whose last record number is the ETag |
| StorageProvider.SnapshotCadenceSpacing | src/OrleansEventSourcing/EventStoreStorageProvider.cs:125 | a snapshot is never due without an ETag, is due at ETag 0, again 10 versions after a due ETag, and at no ETag in between |
| StorageProvider.PersistWithoutPendingEvent | src/OrleansEventSourcing/EventStoreStorageProvider.cs:115-116 | with no pending event a write changes nothing and succeeds |
| StorageProvider.PersistAcceptedIffInSync | src/OrleansEventSourcing/EventStoreStorageProvider.cs:119-122 | the event append is refused for the version exactly when the main stream is not deleted and the ETag is not the stream's last number; whenever the log refuses the event append, the write fails with the log's reason, and the log, the pending event and the ETag are as they were, with no snapshot written |
| StorageProvider.PersistAppendsPendingEvent | src/OrleansEventSourcing/EventStoreStorageProvider.cs:119-132 | a successful write appends exactly the pending event, clears it, and sets the ETag to the old ETag plus one (0 for the first event) |
| StorageProvider.PersistSnapshotCadence | src/OrleansEventSourcing/EventStoreStorageProvider.cs:124-130 | after an accepted event append, a snapshot of the old ETag and the state is appended exactly when the old ETag is a multiple of 10 and the snapshot stream is not deleted, and the write succeeds exactly then or when no snapshot is due |
| StorageProvider.SnapshotFailureLeavesETagBehind | src/OrleansEventSourcing/EventStoreStorageProvider.cs:121-132 | a snapshot append that fails makes the write fail with the event already in the main stream, the pending event cleared and the ETag unchanged, so the next write is refused for the version |
| StorageProvider.PersistTouchesOnlyOwnStreams | src/OrleansEventSourcing/EventStoreStorageProvider.cs:111-133 | a write changes no stream other than the grain's main and snapshot streams |
| StorageProvider.LoadNeverWrittenGrain | src/OrleansEventSourcing/EventStoreStorageProvider.cs:92-93 | with no snapshot and no main stream (StreamNotFound) a read leaves the state and ETag as they were and succeeds; a never-written grain therefore loads with the zero state and no ETag |
| StorageProvider.LoadSnapshotWithoutStream | src/OrleansEventSourcing/EventStoreStorageProvider.cs:72-93 | a snapshot with no main stream behind it gives the snapshot's state and its last event number as ETag |
| StorageProvider.LoadDeletedStreamFails | src/OrleansEventSourcing/EventStoreStorageProvider.cs:95-96 | a read of a deleted main stream fails |
| StorageProvider.LoadReplaysHistory | src/OrleansEventSourcing/EventStoreStorageProvider.cs:64-109 | for a consistent history, loading from the latest snapshot gives the full replay of the history and its last number as ETag |
| StorageProvider.SnapshotsDoNotChangeLoad | src/OrleansEventSourcing/EventStoreStorageProvider.cs:70-81 | loading with the snapshots gives the same state and ETag as loading without them |
| StorageProvider.PersistKeepsHistoryConsistent | src/OrleansEventSourcing/EventStoreStorageProvider.cs:111-133 | from a state in sync with a consistent history, a write succeeds when neither stream is deleted, and a successful write keeps the history consistent with the new state (the event applied) and ETag in sync |
| StorageProvider.ConsistentAfterAppend | src/OrleansEventSourcing/EventStoreStorageProvider.cs:124-130 | appending an event, with at most one snapshot of the history before it, keeps every snapshot the replay of what it claims, and the new replay is the old one with the event applied |
| JournaledGrain.JournaledGrain.WriteEvent | src/OrleansEventSourcing/JournaledGrain.cs:11-18 | writing an event sets it pending, stores it as `Persist` says, and applies it only when the write succeeded; no other stream and no deletion changes; on success the main stream gains exactly that event, the snapshot stream gains the snapshot of the old state on cadence and nothing otherwise, the ETag advances by one and nothing is pending; a grain in sync with writable streams succeeds and stays in sync |
| JournaledGrain.JournaledGrain.ApplyEvent | src/OrleansEventSourcing/JournaledGrain.cs:20-25 | applying an event changes the state as `ApplyTo` says and keeps the pending event |
| JournaledPersonGrain.RegisteredAttributesRoundTrip | test/TestGrains/EventSourcing/JournaledPersonGrain.cs:13-16 | after a registration, the person's attributes are those registered, and the married flag is unchanged |
| JournaledPersonGrain.MarriageTakesSpouseName | test/TestGrains/EventSourcing/JournaledPersonGrain.cs:20-32 | after the marriage events the person is married under the spouse's last name, with first name and gender unchanged |
| JournaledPersonGrain.Records | test/TestGrains/EventSourcing/JournaledPersonGrain.cs:25-32 | writing events one by one appends one event record per event, in order |
| JournaledPersonGrain.JournaledPersonGrain.RegisterBirth | test/TestGrains/EventSourcing/JournaledPersonGrain.cs:13-16 | a registration writes the registration event as `Persist` says and touches no other stream; on success the main stream gains exactly that event, the snapshot stream its cadence snapshot, the ETag advances by one, nothing is pending, and the attributes are those registered with the married flag kept; a failed one leaves the state; a grain in sync with writable streams succeeds and stays in sync |
| JournaledPersonGrain.JournaledPersonGrain.Marry | test/TestGrains/EventSourcing/JournaledPersonGrain.cs:18-33 | a married person is refused with the last name and nothing changes; otherwise the spouse's attributes are read and the marriage is written; no stream but this grain's two and no deletion changes; on success the main stream gains the married event and, exactly when the last names differed, the change to the spouse's last name, the snapshot stream gains the cadence snapshot of each write, the ETag advances by one per event, nothing is pending, and the person is married under the spouse's last name; a storage failure leaves the state before or after the first event; a grain in sync with writable streams succeeds and stays in sync |
| JournaledPersonGrain.JournaledPersonGrain.WriteMarriage | test/TestGrains/EventSourcing/JournaledPersonGrain.cs:25-32 | the two writes of a marriage: on success the main stream gains the married event and, exactly when the last names differ, the name change, with each write's cadence snapshot, the ETag advanced per event and the state the replay of those events; no other stream changes; a failure leaves the state before or after the first event; an in-sync grain with writable streams succeeds and stays in sync |
| JournaledPersonGrain.JournaledPersonGrain.TakeLastName | test/TestGrains/EventSourcing/JournaledPersonGrain.cs:28-32 | with the same last name nothing is written and nothing changes; otherwise the main stream gains exactly the name change, the snapshot stream its cadence snapshot, the ETag advances by one and nothing is pending; on success the person has the new last name and nothing else changed; a failure leaves the state; no other stream changes; an in-sync grain with writable streams succeeds and stays in sync |
| JournaledPersonGrain.JournaledPersonGrain.GetPersonalAttributes | test/TestGrains/EventSourcing/JournaledPersonGrain.cs:35-43 | the attributes returned are the person's current first name, last name and gender |

## Left out

- Provider initialisation (`Init`: configuration, name resolution, connecting) and `Close` are connection handling, and the model has no connection.
- `ClearStateAsync` is left out because it does nothing.
- `GetGrainKey` is not modelled: the key is taken as a given string, so the choice between a Guid and an extended key does not appear.
- JSON and UTF-8 serialization, CLR type names and dynamic dispatch are not modelled. A record's Dafny constructor plays the part of its type name, and event ids, metadata and headers are not modelled.
- `PopulateObject` is modelled as overwriting all four properties (`Populate`). The `Convert.ChangeType` and `dynamic` cast of the state is not modelled.
- The model is specialised to `PersonState`. `GenderType` is its underlying integer, and strings that may be null are `Option<string>`.
- ETags and event numbers are natural numbers. The text form of the ETag, `Convert.ToInt32` and the 32-bit range are not modelled.
- Orleans itself is left out: async tasks, activation, single-threaded turns and concurrency between silos are not modelled. Interleavings of clients writing to one stream appear only through `OptimisticConcurrency`.
- Marry: the call to the spouse grain is a direct read of the spouse's state. A grain marrying itself, which would block on a non-reentrant grain, is not modelled.
- Marry: after a failed write the contract states only the person's state (before or after the first event), not the log, because the failure can come from either write.
- Only the log-service behaviour the provider uses is modelled: numbered streams, expected versions, forward and backward reads, and the set of deleted streams (the provider never deletes a stream, so the delete operation itself is not modelled). Idempotent writes, read-size limits, soft deletion, stream metadata and transactions are not modelled.
- The stand-in log fails a call only on a version mismatch or a deleted stream; time-outs, connection errors and server errors are not modelled. So the only way a snapshot append can fail in the model is a deleted snapshot stream, and that is the case `SnapshotFailureLeavesETagBehind` covers.
- Exceptions are outcomes: `Fail(...)` carries what the source throws, and `Pass` is normal completion.
