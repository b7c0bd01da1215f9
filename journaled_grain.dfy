/**
  The base class of event-sourced grains: a grain whose state is a person
  state, kept by the event-sourced storage provider, and changed only by
  writing an event and then applying it.
 */
module JournaledGrain {
  import opened Wrappers
  import opened PersonEvents
  import opened EventLog
  import opened StorageProvider

  /**
    A journaled grain: its grain type and key (which name its streams), the
    log its storage provider writes to, and its grain state.
   */
  class JournaledGrain {
    const grainType: string
    const key: string
    const store: EventStore<Record>
    const grainState: GrainState

    /** A freshly activated grain that has read nothing yet. */
    constructor (grainType: string, key: string, store: EventStore<Record>)
      ensures this.grainType == grainType && this.key == key && this.store == store
      ensures fresh(grainState) && fresh(grainState.state)
      ensures grainState.state.Value() == Zero && grainState.state.lastEvent.None? && grainState.etag.None?
    {
      this.grainType := grainType;
      this.key := key;
      this.store := store;
      grainState := new GrainState();
    }

    /** The grain's main stream. */
    ghost function History(): seq<Record>
      reads store
    {
      store.Events(StreamName(grainType, key))
    }

    /** The grain's snapshot stream. */
    ghost function Snapshots(): seq<Record>
      reads store
    {
      store.Events(SnapshotStreamName(grainType, key))
    }

    /**
      The grain's streams are consistent and its state is their replay: the
      state is the replay of the main stream, the ETag the stream's last
      number, and no event is pending.
     */
    ghost predicate InSync()
      reads store, grainState, grainState.state
    {
      && Consistent(History(), Snapshots())
      && grainState.state.Value() == Replay(History())
      && grainState.etag == LastNumber(History())
      && grainState.state.lastEvent.None?
    }

    /** Neither of the grain's streams has been deleted. */
    ghost predicate Writable()
      reads store
    {
      !store.IsDeleted(StreamName(grainType, key)) && !store.IsDeleted(SnapshotStreamName(grainType, key))
    }

    /**
      Records `e` as the pending event, has the storage provider write it and,
      once the write succeeded, applies it to the state. A failed write leaves
      the state as it was (with the provider's ETag and pending event).
     */
    method WriteEvent(e: PersonEvent) returns (r: Outcome<ProviderError>)
      modifies store, grainState, grainState.state
      ensures store.deleted == old(store.deleted) && Writable() == old(Writable())
      ensures OnlyOwnStreams(grainType, key, old(store.streams), store.streams)
      ensures Persisted(store.streams, grainState.state.lastEvent, grainState.etag, r)
           == Persist(old(store.streams), old(store.deleted), grainType, key,
                      Some(e), old(grainState.etag), old(grainState.state.Value()))
      ensures grainState.state.Value()
           == if r.Pass? then ApplyTo(e, old(grainState.state.Value())) else old(grainState.state.Value())
      ensures r.Pass? ==>
        && History() == old(History()) + [EventRecord(e)]
        && Snapshots() == old(Snapshots()) + SnapshotsWritten(old(grainState.etag), old(grainState.state.Value()))
        && grainState.etag == Advanced(old(grainState.etag))
        && grainState.state.lastEvent.None?
      ensures old(InSync() && Writable()) ==> r.Pass? && InSync()
    {
      ghost var streams := store.streams;
      ghost var before := grainState.state.Value();
      ghost var etag := grainState.etag;
      ghost var wasInSync := InSync();
      grainState.state.lastEvent := Some(e);
      r := WriteState(store, grainType, key, grainState);
      PersistAppendsPendingEvent(streams, store.deleted, grainType, key, e, etag, before);
      PersistTouchesOnlyOwnStreams(streams, store.deleted, grainType, key, Some(e), etag, before);
      if AppendTo(streams, store.deleted, StreamName(grainType, key), ExpectedFor(etag), EventRecord(e)).result.Ok? {
        PersistSnapshotCadence(streams, store.deleted, grainType, key, e, etag, before);
      }
      if wasInSync {
        PersistKeepsHistoryConsistent(streams, store.deleted, grainType, key, e, etag, before);
      }
      if r.Fail? {
        return;
      }
      ApplyEvent(e);
    }

    /** Applies `e` to the grain's state. */
    method ApplyEvent(e: PersonEvent)
      modifies grainState.state
      ensures grainState.state.Value() == ApplyTo(e, old(grainState.state.Value()))
      ensures grainState.state.lastEvent == old(grainState.state.lastEvent)
    {
      Apply(e, grainState.state);
    }
  }
}
