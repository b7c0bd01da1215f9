/**
  The event-sourced storage provider: how a journaled grain's state is loaded
  from its event stream and latest snapshot, and how its pending event is
  appended, with a snapshot every SnapshotInterval versions.
 */
module StorageProvider {
  import opened Wrappers
  import opened PersonEvents
  import opened EventLog

  /** Records requested by the first forward read; later reads ask for sliceStart more. */
  const ReadPageSize: nat := 5
  /** A snapshot is written when the version before a write is a multiple of this. */
  const SnapshotInterval: nat := 10

  /** A stored snapshot (JournaledGrainSnapshotEvent): the number of the last event it includes, and the state. */
  datatype SnapshotEvent = SnapshotEvent(lastEventId: nat, state: PersonData)

  /** A record in the log; the constructor plays the part of the record's type name. */
  datatype Record = EventRecord(event: PersonEvent) | SnapshotRecord(snapshot: SnapshotEvent)

  datatype ProviderError =
    | AppendRejected(reason: AppendError)  // the exception an append raised
    | MainStreamDeleted                    // StreamDeletedException on read
    | SnapshotUnreadable                   // the latest snapshot record is not a snapshot
    | EventUnreadable                      // a main-stream record is not an event

  /** The Orleans grain state: the state object and the ETag, the number of the last event (None: no event yet). */
  class GrainState {
    const state: PersonState
    var etag: Option<nat>

    constructor ()
      ensures fresh(state) && state.Value() == Zero && state.lastEvent.None? && etag.None?
    {
      state := new PersonState();
      etag := None;
    }
  }

  // ----- Stream names -----

  function StreamName(grainType: string, key: string): string
  {
    grainType + "::" + key
  }

  function SnapshotStreamName(grainType: string, key: string): string
  {
    StreamName(grainType, key) + "::Snapshots"
  }

  /** The snapshot stream's name extends the main stream's name, so the two never coincide. */
  lemma SnapshotStreamExtendsStream(grainType: string, key: string)
    ensures |SnapshotStreamName(grainType, key)| == |StreamName(grainType, key)| + 11
    ensures SnapshotStreamName(grainType, key)[..|StreamName(grainType, key)|] == StreamName(grainType, key)
    ensures SnapshotStreamName(grainType, key) != StreamName(grainType, key)
  {
  }

  /** A grain whose key ends in "::Snapshots" has as main stream the snapshot stream of another grain. */
  lemma SnapshotStreamIsMainStreamOfSuffixedKey(grainType: string, key: string)
    ensures SnapshotStreamName(grainType, key) == StreamName(grainType, key + "::Snapshots")
  {
    assert grainType + "::" + key + "::Snapshots" == grainType + "::" + (key + "::Snapshots");
  }

  /** Within one grain type, the key determines the main and the snapshot stream: different grains never share them. */
  lemma StreamNameDeterminesKey(grainType: string, key: string, key': string)
    ensures StreamName(grainType, key) == StreamName(grainType, key') ==> key == key'
    ensures SnapshotStreamName(grainType, key) == SnapshotStreamName(grainType, key') ==> key == key'
  {
    var n := |grainType| + 2;
    if SnapshotStreamName(grainType, key) == SnapshotStreamName(grainType, key') {
      SnapshotStreamExtendsStream(grainType, key);
      SnapshotStreamExtendsStream(grainType, key');
      assert StreamName(grainType, key) == SnapshotStreamName(grainType, key)[..|StreamName(grainType, key)|];
    }
    if StreamName(grainType, key) == StreamName(grainType, key') {
      assert key == StreamName(grainType, key)[n..];
      assert key' == StreamName(grainType, key')[n..];
    }
  }

  // ----- Decoding and replay -----

  /** The events at the front of `rs`, up to the first record that is not an event. */
  function DecodeEvents(rs: seq<Record>): (evs: seq<PersonEvent>)
    ensures |evs| <= |rs|
    ensures |evs| < |rs| ==> !rs[|evs|].EventRecord?
  {
    if |rs| == 0 then []
    else match rs[0]
      case EventRecord(e) => [e] + DecodeEvents(rs[1..])
      case SnapshotRecord(_) => []
  }

  /** Each decoded event is the event its record holds. */
  lemma {:induction false} DecodeEventsHeld(rs: seq<Record>)
    ensures forall j :: 0 <= j < |DecodeEvents(rs)| ==> rs[j] == EventRecord(DecodeEvents(rs)[j])
  {
    if |rs| > 0 && rs[0].EventRecord? {
      DecodeEventsHeld(rs[1..]);
    }
  }

  /** DecodeEvents is determined by its contract: any run of events in front of a non-event (or the end) is it. */
  lemma {:induction false} DecodeEventsOfPrefix(rs: seq<Record>, evs: seq<PersonEvent>)
    requires |evs| <= |rs|
    requires forall j :: 0 <= j < |evs| ==> rs[j] == EventRecord(evs[j])
    requires |evs| < |rs| ==> !rs[|evs|].EventRecord?
    ensures DecodeEvents(rs) == evs
  {
    if |evs| > 0 {
      assert rs[0] == EventRecord(evs[0]);
      DecodeEventsOfPrefix(rs[1..], evs[1..]);
      assert evs == [evs[0]] + evs[1..];
    }
  }

  /** Every record of `rs` is an event. */
  ghost predicate Decodable(rs: seq<Record>)
  {
    |DecodeEvents(rs)| == |rs|
  }

  /** The state a full replay of `history` from the zero state gives. */
  function Replay(history: seq<Record>): PersonData
  {
    ApplyAll(Zero, DecodeEvents(history))
  }

  /** The number of the last record of `rs`, the value an in-sync ETag has. */
  function LastNumber<R>(rs: seq<R>): (n: Option<nat>)
    ensures n.None? <==> |rs| == 0
    ensures n.Some? ==> n.value + 1 == |rs|
  {
    if |rs| == 0 then None else Some(|rs| - 1)
  }

  /** The records of `rs` from number `from` on (none when `from` is past the end). */
  function Tail<R>(rs: seq<R>, from: nat): seq<R>
  {
    if from <= |rs| then rs[from..] else []
  }

  // ----- Load -----

  /** The grain state, ETag and outcome a read leaves behind. */
  datatype Loaded = Loaded(state: PersonData, etag: Option<nat>, outcome: Outcome<ProviderError>)

  /**
    What a read computes from the latest snapshot record (at most one), whether
    the main stream is deleted, the whole main stream, and the grain state and
    ETag before the read. Replay resumes AT the snapshot's last event number.
   */
  function Load(latestSnapshot: seq<Record>, mainDeleted: bool, history: seq<Record>,
                state: PersonData, etag: Option<nat>): Loaded
  {
    if |latestSnapshot| > 0 && !latestSnapshot[0].SnapshotRecord? then
      Loaded(state, etag, Fail(SnapshotUnreadable))
    else if |latestSnapshot| > 0 then
      Replayed(mainDeleted, history, latestSnapshot[0].snapshot.state, Some(latestSnapshot[0].snapshot.lastEventId))
    else
      Replayed(mainDeleted, history, state, etag)
  }

  /** The replay part of Load: from the seeded state and ETag, the events of the main stream from the ETag on. */
  function Replayed(mainDeleted: bool, history: seq<Record>, seeded: PersonData, seededETag: Option<nat>): Loaded
  {
    if mainDeleted then Loaded(seeded, seededETag, Fail(MainStreamDeleted))
    else if |history| == 0 then Loaded(seeded, seededETag, Pass)
    else
      var tail := Tail(history, if seededETag.None? then 0 else seededETag.value);
      var evs := DecodeEvents(tail);
      if |evs| < |tail| then Loaded(ApplyAll(seeded, evs), seededETag, Fail(EventUnreadable))
      else Loaded(ApplyAll(seeded, evs), Some(|history| - 1), Pass)
  }

  /**
    ReadStateAsync: seeds the state and ETag from the latest snapshot, then
    replays the main stream forward, page by page, until the end of the stream.
    The result is the whole-sequence replay Load, whatever the page sizes.
   */
  method ReadState(store: EventStore<Record>, grainType: string, key: string, gs: GrainState)
      returns (r: Outcome<ProviderError>)
    modifies gs, gs.state
    ensures gs.state.lastEvent == old(gs.state.lastEvent)
    ensures Loaded(gs.state.Value(), gs.etag, r)
         == Load(store.ReadBackwardLast(SnapshotStreamName(grainType, key)),
                 store.IsDeleted(StreamName(grainType, key)),
                 store.Events(StreamName(grainType, key)),
                 old(gs.state.Value()), old(gs.etag))
  {
    var snapshotStream := SnapshotStreamName(grainType, key);
    var latestSnapshot := store.ReadBackwardLast(snapshotStream);
    if |latestSnapshot| > 0 {
      match latestSnapshot[0] {
        case EventRecord(_) =>
          return Fail(SnapshotUnreadable);
        case SnapshotRecord(snapshot) =>
          gs.state.Populate(snapshot.state);
          gs.etag := Some(snapshot.lastEventId);
      }
    }

    r := ReplayStream(store, StreamName(grainType, key), gs);
  }

  /**
    The do-while loop of ReadStateAsync: reads the main stream forward from the
    ETag (0 without one), asking each time for sliceStart + ReadPageSize
    records, applies every record read, and ends with the ETag at the stream's
    last event number. The result is the whole-sequence replay Replayed.
   */
  method ReplayStream(store: EventStore<Record>, stream: string, gs: GrainState) returns (r: Outcome<ProviderError>)
    modifies gs, gs.state
    ensures gs.state.lastEvent == old(gs.state.lastEvent)
    ensures Loaded(gs.state.Value(), gs.etag, r)
         == Replayed(store.IsDeleted(stream), store.Events(stream), old(gs.state.Value()), old(gs.etag))
  {
    var sliceStart: nat := if gs.etag.None? then 0 else gs.etag.value;
    ghost var deleted := store.IsDeleted(stream);
    ghost var history := store.Events(stream);
    ghost var seed := gs.state.Value();
    ghost var seededETag := gs.etag;
    ghost var applied: seq<PersonEvent> := [];
    var currentSlice: Slice<Record>;
    while true
      invariant store.Events(stream) == history && store.IsDeleted(stream) == deleted
      invariant ReplayedUpTo(history, seededETag, applied)
      invariant sliceStart == ResumeAt(seededETag) + |applied|
      invariant gs.state.Value() == ApplyAll(seed, applied)
      invariant gs.state.lastEvent == old(gs.state.lastEvent)
      invariant gs.etag == seededETag
      invariant deleted || |history| == 0 ==> applied == []
      decreases |history| - sliceStart
    {
      var sliceCount := sliceStart + ReadPageSize;
      currentSlice := store.ReadForward(stream, sliceStart, sliceCount);
      if currentSlice.status == StreamNotFound {
        return Pass;
      }
      if currentSlice.status == StreamDeleted {
        return Fail(MainStreamDeleted);
      }
      sliceStart := currentSlice.nextEventNumber;
      var ok;
      ok, applied := ApplyPage(history, seed, seededETag, applied, currentSlice, gs.state);
      if !ok {
        return Fail(EventUnreadable);
      }
      if currentSlice.isEndOfStream {
        break;
      }
    }
    gs.etag := Some(currentSlice.lastEventNumber);
    r := Pass;
  }

  /** The record number a replay seeded with `etag` starts reading at. */
  function ResumeAt(etag: Option<nat>): nat
  {
    if etag.None? then 0 else etag.value
  }

  /** `applied` are the events held by the first |applied| records of `history` from ResumeAt(etag) on. */
  ghost predicate ReplayedUpTo(history: seq<Record>, etag: Option<nat>, applied: seq<PersonEvent>)
  {
    var tail := Tail(history, ResumeAt(etag));
    |applied| <= |tail| && DecodeEvents(tail[..|applied|]) == applied
  }

  /** A run of decoded events in front of `tail` is a run of records, each holding its event. */
  lemma DecodedPrefixHeld(tail: seq<Record>, applied: seq<PersonEvent>)
    requires |applied| <= |tail|
    ensures DecodeEvents(tail[..|applied|]) == applied
        <==> forall j :: 0 <= j < |applied| ==> tail[j] == EventRecord(applied[j])
  {
    var prefix := tail[..|applied|];
    if forall j :: 0 <= j < |applied| ==> tail[j] == EventRecord(applied[j]) {
      DecodeEventsOfPrefix(prefix, applied);
    } else if DecodeEvents(prefix) == applied {
      DecodeEventsHeld(prefix);
    }
  }

  /**
    One pass of the read loop: the page read after the events applied so far
    continues the tail, so its events extend them; unless the page ends the
    stream, the next read starts further on and still inside the stream.
   */
  lemma PageStep(history: seq<Record>, etag: Option<nat>, applied: seq<PersonEvent>, page: Slice<Record>)
    requires ReplayedUpTo(history, etag, applied)
    requires |history| > 0 && page.status == Success
    requires var from := ResumeAt(etag) + |applied|;
             IsPageOf(history, from, from + ReadPageSize, page)
    ensures var next := applied + DecodeEvents(page.events);
            && ReplayedUpTo(history, etag, next)
            && page.lastEventNumber + 1 == |history|
            && (Decodable(page.events) ==> page.nextEventNumber == ResumeAt(etag) + |next|)
            && (!page.isEndOfStream ==> ResumeAt(etag) + |applied| < page.nextEventNumber < |history|)
            && (!Decodable(page.events) || page.isEndOfStream ==>
                  DecodeEvents(Tail(history, ResumeAt(etag))) == next)
  {
    var cursor := ResumeAt(etag);
    var from := cursor + |applied|;
    var count := from + ReadPageSize;
    var tail := Tail(history, cursor);
    DecodedPrefixHeld(tail, applied);
    PageContinuesTail(history, cursor, |applied|, count, page);
    AppendDecodedPage(tail, applied, page.events);
    var next := applied + DecodeEvents(page.events);
    DecodedPrefixHeld(tail, next);
    if Decodable(page.events) && page.isEndOfStream {
      DecodeEventsOfPrefix(tail, next);
    }
  }

  /** Where the read loop stops, the state it has reached is the one Replayed describes. */
  lemma ReplayStops(history: seq<Record>, seed: PersonData, etag: Option<nat>, applied: seq<PersonEvent>)
    requires |history| > 0
    requires DecodeEvents(Tail(history, ResumeAt(etag))) == applied
    ensures |applied| < |Tail(history, ResumeAt(etag))| ==>
      Replayed(false, history, seed, etag) == Loaded(ApplyAll(seed, applied), etag, Fail(EventUnreadable))
    ensures |applied| == |Tail(history, ResumeAt(etag))| ==>
      Replayed(false, history, seed, etag) == Loaded(ApplyAll(seed, applied), Some(|history| - 1), Pass)
  {
  }

  /**
    The body of the read loop after a successful read: applies the page's
    events to `state`, extending the events applied so far; where the loop
    then stops, at an unreadable record or at the end of the stream, the
    state reached is the one Replayed describes.
   */
  method ApplyPage(ghost history: seq<Record>, ghost seed: PersonData, ghost etag: Option<nat>,
                   ghost applied: seq<PersonEvent>, page: Slice<Record>, state: PersonState)
      returns (ok: bool, ghost next: seq<PersonEvent>)
    requires ReplayedUpTo(history, etag, applied)
    requires |history| > 0 && page.status == Success
    requires var from := ResumeAt(etag) + |applied|;
             IsPageOf(history, from, from + ReadPageSize, page)
    requires state.Value() == ApplyAll(seed, applied)
    modifies state
    ensures ReplayedUpTo(history, etag, next)
    ensures state.Value() == ApplyAll(seed, next) && state.lastEvent == old(state.lastEvent)
    ensures page.lastEventNumber + 1 == |history|
    ensures !ok ==> Replayed(false, history, seed, etag) == Loaded(state.Value(), etag, Fail(EventUnreadable))
    ensures ok ==> page.nextEventNumber == ResumeAt(etag) + |next|
    ensures ok && page.isEndOfStream ==>
      Replayed(false, history, seed, etag) == Loaded(state.Value(), Some(|history| - 1), Pass)
    ensures !page.isEndOfStream ==> ResumeAt(etag) + |applied| < page.nextEventNumber < |history|
  {
    PageStep(history, etag, applied, page);
    ApplyAllConcat(seed, applied, DecodeEvents(page.events));
    ok := ApplyEvents(page.events, state);
    next := applied + DecodeEvents(page.events);
    if !ok || page.isEndOfStream {
      ReplayStops(history, seed, etag, next);
    }
  }

  /** The loop over one page's records: applies each as an event, stopping at the first that is not one. */
  method ApplyEvents(page: seq<Record>, state: PersonState) returns (ok: bool)
    modifies state
    ensures ok <==> Decodable(page)
    ensures state.Value() == ApplyAll(old(state.Value()), DecodeEvents(page))
    ensures state.lastEvent == old(state.lastEvent)
  {
    ghost var applied: seq<PersonEvent> := [];
    var i := 0;
    while i < |page|
      invariant 0 <= i <= |page| && |applied| == i
      invariant forall j :: 0 <= j < i ==> page[j] == EventRecord(applied[j])
      invariant state.Value() == ApplyAll(old(state.Value()), applied)
      invariant state.lastEvent == old(state.lastEvent)
    {
      match page[i] {
        case SnapshotRecord(_) =>
          DecodeEventsOfPrefix(page, applied);
          return false;
        case EventRecord(e) =>
          Apply(e, state);
          assert (applied + [e])[..i] == applied;
          applied := applied + [e];
      }
      i := i + 1;
    }
    DecodeEventsOfPrefix(page, applied);
    ok := true;
  }

  /** The events decoded from a page that continues the tail extend the events applied so far. */
  lemma AppendDecodedPage(tail: seq<Record>, applied: seq<PersonEvent>, page: seq<Record>)
    requires |applied| + |page| <= |tail|
    requires forall j :: 0 <= j < |applied| ==> tail[j] == EventRecord(applied[j])
    requires forall k :: 0 <= k < |page| ==> page[k] == tail[|applied| + k]
    ensures var next := applied + DecodeEvents(page);
            && |next| <= |tail|
            && (forall j :: 0 <= j < |next| ==> tail[j] == EventRecord(next[j]))
            && (!Decodable(page) ==> DecodeEvents(tail) == next)
  {
    var decoded := DecodeEvents(page);
    var next := applied + decoded;
    DecodeEventsHeld(page);
    forall j | 0 <= j < |next| ensures tail[j] == EventRecord(next[j]) {
      if j >= |applied| {
        assert next[j] == decoded[j - |applied|];
        assert tail[j] == page[j - |applied|];
      }
    }
    if !Decodable(page) {
      assert tail[|next|] == page[|decoded|];
      DecodeEventsOfPrefix(tail, next);
    }
  }

  /** A successful forward read from `cursor + done` returns the next records of the tail from `cursor`. */
  lemma PageContinuesTail(history: seq<Record>, cursor: nat, done: nat, count: nat, page: Slice<Record>)
    requires done <= |Tail(history, cursor)|
    requires count > 0 && page.status == Success && |history| > 0
    requires IsPageOf(history, cursor + done, count, page)
    ensures done + |page.events| <= |Tail(history, cursor)|
    ensures forall k :: 0 <= k < |page.events| ==> page.events[k] == Tail(history, cursor)[done + k]
    ensures page.isEndOfStream <==> done + |page.events| == |Tail(history, cursor)|
    ensures !page.isEndOfStream ==> |page.events| == count && page.nextEventNumber < |history|
  {
    var from := cursor + done;
    if from < |history| {
      assert cursor <= |history|;
      assert Tail(history, cursor) == history[cursor..];
      forall k | 0 <= k < |page.events| ensures page.events[k] == Tail(history, cursor)[done + k] {
        assert page.events[k] == history[from + k];
      }
    }
  }

  // ----- Persist -----

  /** The version the append of the pending event expects: NoStream for a grain without an ETag. */
  function ExpectedFor(etag: Option<nat>): ExpectedVersion
  {
    if etag.None? then NoStream else Exact(etag.value)
  }

  /** The snapshot cadence: the ETag BEFORE the write is 0, 10, 20, ... */
  predicate SnapshotDue(etag: Option<nat>)
  {
    SnapshotInterval != 0 && etag.Some? && etag.value % SnapshotInterval == 0
  }

  /** The snapshot records a successful write appends after the event: one on cadence, none otherwise. */
  function SnapshotsWritten(etag: Option<nat>, state: PersonData): seq<Record>
  {
    if SnapshotDue(etag) then [SnapshotRecord(SnapshotEvent(etag.value, state))] else []
  }

  /** The ETag after a successful write: the number of the event it appended. */
  function Advanced(etag: Option<nat>): Option<nat>
  {
    Some(if etag.None? then 0 else etag.value + 1)
  }

  /** Every stream other than the grain's main and snapshot streams is as it was. */
  ghost predicate OnlyOwnStreams(grainType: string, key: string,
                                 before: map<string, seq<Record>>, after: map<string, seq<Record>>)
  {
    forall n :: n != StreamName(grainType, key) && n != SnapshotStreamName(grainType, key) ==>
      EventsOf(after, n) == EventsOf(before, n)
  }

  /** The expected version of a write is met by exactly the streams whose last number is the ETag. */
  lemma ExpectedForMatchesETag<R>(etag: Option<nat>, rs: seq<R>)
    ensures Accepts(rs, ExpectedFor(etag)) <==> LastNumber(rs) == etag
  {
  }

  /**
    Snapshots fall due at ETag 0 and then every SnapshotInterval versions:
    never without an ETag, again SnapshotInterval versions after a due one,
    and at no version in between.
   */
  lemma SnapshotCadenceSpacing(n: nat, m: nat)
    ensures !SnapshotDue(None) && SnapshotDue(Some(0))
    ensures SnapshotDue(Some(n)) ==> SnapshotDue(Some(n + SnapshotInterval))
    ensures SnapshotDue(Some(n)) && n < m < n + SnapshotInterval ==> !SnapshotDue(Some(m))
  {
    if SnapshotDue(Some(n)) {
      var q := n / SnapshotInterval;
      assert n == SnapshotInterval * q;
      assert n + SnapshotInterval == SnapshotInterval * (q + 1);
      if n < m < n + SnapshotInterval {
        assert m == SnapshotInterval * q + (m - n);
        assert m % SnapshotInterval == m - n;
      }
    }
  }

  /** The log, pending event, ETag and outcome a write leaves behind. */
  datatype Persisted = Persisted(
    streams: map<string, seq<Record>>,
    lastEvent: Option<PersonEvent>,
    etag: Option<nat>,
    outcome: Outcome<ProviderError>)

  /** What a write does to the log and the grain state, given the pending event, ETag and in-memory state. */
  function Persist(streams: map<string, seq<Record>>, deleted: set<string>, grainType: string, key: string,
                   lastEvent: Option<PersonEvent>, etag: Option<nat>, state: PersonData): Persisted
  {
    if lastEvent.None? then Persisted(streams, lastEvent, etag, Pass)
    else
      var written := AppendTo(streams, deleted, StreamName(grainType, key), ExpectedFor(etag), EventRecord(lastEvent.value));
      if written.result.Err? then Persisted(streams, lastEvent, etag, Fail(AppendRejected(written.result.error)))
      else if !SnapshotDue(etag) then Persisted(written.streams, None, Some(written.result.value), Pass)
      else
        var snapshot := AppendTo(written.streams, deleted, SnapshotStreamName(grainType, key), Any,
                                 SnapshotRecord(SnapshotEvent(etag.value, state)));
        if snapshot.result.Err? then Persisted(written.streams, None, etag, Fail(AppendRejected(snapshot.result.error)))
        else Persisted(snapshot.streams, None, Some(written.result.value), Pass)
  }

  /**
    WriteStateAsync: appends the pending event with an optimistic expected
    version, clears it, appends a snapshot on cadence, and advances the ETag.
   */
  method WriteState(store: EventStore<Record>, grainType: string, key: string, gs: GrainState)
      returns (r: Outcome<ProviderError>)
    modifies store, gs, gs.state
    ensures gs.state.Value() == old(gs.state.Value())
    ensures store.deleted == old(store.deleted)
    ensures Persisted(store.streams, gs.state.lastEvent, gs.etag, r)
         == Persist(old(store.streams), old(store.deleted), grainType, key,
                    old(gs.state.lastEvent), old(gs.etag), old(gs.state.Value()))
  {
    var stream := StreamName(grainType, key);
    var newEvent := gs.state.lastEvent;
    if newEvent.None? {
      return Pass;
    }
    var expectedVersion := ExpectedFor(gs.etag);
    var writeResult := store.Append(stream, expectedVersion, EventRecord(newEvent.value));
    if writeResult.Err? {
      return Fail(AppendRejected(writeResult.error));
    }
    gs.state.lastEvent := None;
    if SnapshotDue(gs.etag) {
      var snapshotStream := SnapshotStreamName(grainType, key);
      var snapshotToSave := SnapshotRecord(SnapshotEvent(gs.etag.value, gs.state.Value()));
      var snapshotResult := store.Append(snapshotStream, Any, snapshotToSave);
      if snapshotResult.Err? {
        return Fail(AppendRejected(snapshotResult.error));
      }
    }
    gs.etag := Some(writeResult.value);
    r := Pass;
  }

  // ----- Properties of Persist -----

  /** With no pending event a write appends nothing and leaves the ETag as it was. */
  lemma PersistWithoutPendingEvent(streams: map<string, seq<Record>>, deleted: set<string>, grainType: string,
                                   key: string, etag: Option<nat>, state: PersonData)
    ensures Persist(streams, deleted, grainType, key, None, etag, state) == Persisted(streams, None, etag, Pass)
  {
  }

  /**
    The append of the pending event is accepted exactly when the main stream is
    not deleted and the ETag is the number of its last record; whenever the log
    refuses it, the write fails with the log's reason and the log, the pending
    event and the ETag stay as they were, with no snapshot written.
   */
  lemma PersistAcceptedIffInSync(streams: map<string, seq<Record>>, deleted: set<string>, grainType: string,
                                 key: string, e: PersonEvent, etag: Option<nat>, state: PersonData)
    ensures var p := Persist(streams, deleted, grainType, key, Some(e), etag, state);
            var history := EventsOf(streams, StreamName(grainType, key));
            && ((p.outcome != Fail(AppendRejected(WrongExpectedVersion)))
                  <==> (StreamName(grainType, key) in deleted || etag == LastNumber(history)))
            && (var w := AppendTo(streams, deleted, StreamName(grainType, key), ExpectedFor(etag), EventRecord(e));
                w.result.Err? ==> p == Persisted(streams, Some(e), etag, Fail(AppendRejected(w.result.error))))
  {
    var history := EventsOf(streams, StreamName(grainType, key));
    SnapshotStreamExtendsStream(grainType, key);
    var p := Persist(streams, deleted, grainType, key, Some(e), etag, state);
    if StreamName(grainType, key) !in deleted && etag == LastNumber(history) {
      assert Accepts(history, ExpectedFor(etag));
    }
  }

  /**
    A successful write appends exactly the pending event to the main stream,
    clears it, and sets the ETag to that event's number: the old ETag plus one,
    or 0 for the first write.
   */
  lemma PersistAppendsPendingEvent(streams: map<string, seq<Record>>, deleted: set<string>, grainType: string,
                                   key: string, e: PersonEvent, etag: Option<nat>, state: PersonData)
    ensures var p := Persist(streams, deleted, grainType, key, Some(e), etag, state);
            p.outcome.Pass? ==>
              && EventsOf(p.streams, StreamName(grainType, key))
                   == EventsOf(streams, StreamName(grainType, key)) + [EventRecord(e)]
              && p.lastEvent.None?
              && p.etag == Some(if etag.None? then 0 else etag.value + 1)
  {
    SnapshotStreamExtendsStream(grainType, key);
  }

  /**
    Once the main append is accepted, a snapshot is appended exactly when the
    old ETag is on cadence and the snapshot stream is not deleted; it carries the
    old ETag and the in-memory state, which does not yet include the new event.
   */
  lemma PersistSnapshotCadence(streams: map<string, seq<Record>>, deleted: set<string>, grainType: string,
                               key: string, e: PersonEvent, etag: Option<nat>, state: PersonData)
    requires AppendTo(streams, deleted, StreamName(grainType, key), ExpectedFor(etag), EventRecord(e)).result.Ok?
    ensures var p := Persist(streams, deleted, grainType, key, Some(e), etag, state);
            var snaps := EventsOf(streams, SnapshotStreamName(grainType, key));
            var snaps' := EventsOf(p.streams, SnapshotStreamName(grainType, key));
            && (SnapshotDue(etag) && SnapshotStreamName(grainType, key) !in deleted ==>
                  snaps' == snaps + [SnapshotRecord(SnapshotEvent(etag.value, state))])
            && (!SnapshotDue(etag) || SnapshotStreamName(grainType, key) in deleted ==> snaps' == snaps)
            && (p.outcome.Pass? <==> !SnapshotDue(etag) || SnapshotStreamName(grainType, key) !in deleted)
  {
    SnapshotStreamExtendsStream(grainType, key);
  }

  /**
    A failed snapshot append fails the whole write after the event is already
    in the main stream: the pending event is cleared but the ETag stays behind
    the stream, so the grain's next write is refused.
   */
  lemma SnapshotFailureLeavesETagBehind(streams: map<string, seq<Record>>, deleted: set<string>, grainType: string,
                                        key: string, e: PersonEvent, etag: Option<nat>, state: PersonData,
                                        next: PersonEvent, state': PersonData)
    requires AppendTo(streams, deleted, StreamName(grainType, key), ExpectedFor(etag), EventRecord(e)).result.Ok?
    requires SnapshotDue(etag) && SnapshotStreamName(grainType, key) in deleted
    ensures var p := Persist(streams, deleted, grainType, key, Some(e), etag, state);
            && p.outcome == Fail(AppendRejected(StreamWasDeleted))
            && EventsOf(p.streams, StreamName(grainType, key)) == EventsOf(streams, StreamName(grainType, key)) + [EventRecord(e)]
            && p.lastEvent.None? && p.etag == etag
            && Persist(p.streams, deleted, grainType, key, Some(next), p.etag, state').outcome
               == Fail(AppendRejected(WrongExpectedVersion))
  {
    SnapshotStreamExtendsStream(grainType, key);
    var p := Persist(streams, deleted, grainType, key, Some(e), etag, state);
    PersistAcceptedIffInSync(p.streams, deleted, grainType, key, next, p.etag, state');
  }

  /** A write touches no stream but the grain's main and snapshot streams. */
  lemma PersistTouchesOnlyOwnStreams(streams: map<string, seq<Record>>, deleted: set<string>, grainType: string,
                                     key: string, lastEvent: Option<PersonEvent>, etag: Option<nat>, state: PersonData)
    ensures OnlyOwnStreams(grainType, key, streams, Persist(streams, deleted, grainType, key, lastEvent, etag, state).streams)
  {
  }

  // ----- The history invariant -----

  /** `rec` is a snapshot of the replay of `history` up to and including its last event number. */
  ghost predicate SnapshotMatches(rec: Record, history: seq<Record>)
  {
    && rec.SnapshotRecord?
    && rec.snapshot.lastEventId < |history|
    && rec.snapshot.state == Replay(history[..rec.snapshot.lastEventId + 1])
  }

  /** The main stream holds only events, and every snapshot is the replay of the events it claims to include. */
  ghost predicate Consistent(history: seq<Record>, snapshots: seq<Record>)
  {
    && Decodable(history)
    && forall i :: 0 <= i < |snapshots| ==> SnapshotMatches(snapshots[i], history)
  }

  /**
    Without a snapshot and a main stream (the read reports the stream not
    found) the state and ETag stay as they were; so a grain that never wrote an
    event loads with the zero state and no ETag.
   */
  lemma LoadNeverWrittenGrain(state: PersonData, etag: Option<nat>)
    ensures Load([], false, [], state, etag) == Loaded(state, etag, Pass)
    ensures Load([], false, [], Zero, None) == Loaded(Zero, None, Pass)
  {
  }

  /**
    A snapshot with no main stream behind it (the stream is not found) seeds
    the state and leaves the ETag at the snapshot's last event number.
   */
  lemma LoadSnapshotWithoutStream(snapshot: SnapshotEvent, state: PersonData, etag: Option<nat>)
    ensures Load([SnapshotRecord(snapshot)], false, [], state, etag)
         == Loaded(snapshot.state, Some(snapshot.lastEventId), Pass)
  {
  }

  /** On a deleted main stream a read fails (after seeding from a snapshot, if any). */
  lemma LoadDeletedStreamFails(latestSnapshot: seq<Record>, history: seq<Record>, state: PersonData, etag: Option<nat>)
    requires |latestSnapshot| > 0 ==> latestSnapshot[0].SnapshotRecord?
    ensures Load(latestSnapshot, true, history, state, etag).outcome == Fail(MainStreamDeleted)
  {
  }

  /**
    The latest snapshot plus the events from its position on give the full
    replay: a fresh grain state loads with the replayed state of the whole
    history and the number of its last event as ETag.
   */
  lemma LoadReplaysHistory(history: seq<Record>, snapshots: seq<Record>)
    requires Consistent(history, snapshots)
    ensures Load(Latest(snapshots), false, history, Zero, None) == Loaded(Replay(history), LastNumber(history), Pass)
  {
    var d := DecodeEvents(history);
    DecodeEventsHeld(history);
    if |snapshots| > 0 {
      var snap := snapshots[|snapshots| - 1];
      assert SnapshotMatches(snap, history);
      var id := snap.snapshot.lastEventId;
      DecodeEventsOfPrefix(history[..id + 1], d[..id + 1]);
      DecodeEventsOfPrefix(history[id..], d[id..]);
      assert Tail(history, id) == history[id..];
      ReplayFromIncludedPosition(Zero, d, id);
    } else if |history| > 0 {
      assert Tail(history, 0) == history;
    }
  }

  /** Loading with or without the snapshots gives the same result: snapshots only shorten the replay. */
  lemma SnapshotsDoNotChangeLoad(history: seq<Record>, snapshots: seq<Record>)
    requires Consistent(history, snapshots)
    ensures Load(Latest(snapshots), false, history, Zero, None) == Load([], false, history, Zero, None)
  {
    LoadReplaysHistory(history, snapshots);
    LoadReplaysHistory(history, []);
  }

  /**
    From a grain state in sync with a consistent history, a successful write
    keeps the history consistent, and the new state (the old one with the event
    applied) and the new ETag are in sync with it again. The write succeeds
    whenever neither stream it appends to is deleted.
   */
  lemma PersistKeepsHistoryConsistent(streams: map<string, seq<Record>>, deleted: set<string>, grainType: string,
                                      key: string, e: PersonEvent, etag: Option<nat>, state: PersonData)
    requires Consistent(EventsOf(streams, StreamName(grainType, key)), EventsOf(streams, SnapshotStreamName(grainType, key)))
    requires state == Replay(EventsOf(streams, StreamName(grainType, key)))
    requires etag == LastNumber(EventsOf(streams, StreamName(grainType, key)))
    ensures var p := Persist(streams, deleted, grainType, key, Some(e), etag, state);
            var history' := EventsOf(p.streams, StreamName(grainType, key));
            var snapshots' := EventsOf(p.streams, SnapshotStreamName(grainType, key));
            && (StreamName(grainType, key) !in deleted && SnapshotStreamName(grainType, key) !in deleted ==> p.outcome.Pass?)
            && (p.outcome.Pass? ==>
                  && Consistent(history', snapshots')
                  && ApplyTo(e, state) == Replay(history')
                  && p.etag == LastNumber(history')
                  && p.lastEvent.None?)
  {
    var main := StreamName(grainType, key);
    var snap := SnapshotStreamName(grainType, key);
    var history := EventsOf(streams, main);
    var snapshots := EventsOf(streams, snap);
    SnapshotStreamExtendsStream(grainType, key);
    PersistAcceptedIffInSync(streams, deleted, grainType, key, e, etag, state);
    PersistAppendsPendingEvent(streams, deleted, grainType, key, e, etag, state);
    var p := Persist(streams, deleted, grainType, key, Some(e), etag, state);
    if p.outcome.Pass? {
      assert EventsOf(p.streams, main) == history + [EventRecord(e)];
      PersistSnapshotCadence(streams, deleted, grainType, key, e, etag, state);
      if SnapshotDue(etag) {
        ConsistentAfterAppend(history, snapshots, e, [SnapshotRecord(SnapshotEvent(etag.value, state))]);
      } else {
        ConsistentAfterAppend(history, snapshots, e, []);
        assert snapshots + [] == snapshots;
      }
    }
  }

  /**
    Appending an event to a consistent history keeps it consistent, together
    with at most one new snapshot of the history before the event; the replay
    of the longer history is the old replay with the event applied.
   */
  lemma ConsistentAfterAppend(history: seq<Record>, snapshots: seq<Record>, e: PersonEvent, added: seq<Record>)
    requires Consistent(history, snapshots)
    requires added == [] || (|history| > 0 && added == [SnapshotRecord(SnapshotEvent(|history| - 1, Replay(history)))])
    ensures Consistent(history + [EventRecord(e)], snapshots + added)
    ensures Replay(history + [EventRecord(e)]) == ApplyTo(e, Replay(history))
  {
    var history' := history + [EventRecord(e)];
    var snapshots' := snapshots + added;
    var d := DecodeEvents(history);
    DecodeEventsHeld(history);
    DecodeEventsOfPrefix(history', d + [e]);
    assert (d + [e])[..|d|] == d;
    forall i | 0 <= i < |snapshots'| ensures SnapshotMatches(snapshots'[i], history') {
      if i < |snapshots| {
        assert snapshots'[i] == snapshots[i];
        assert SnapshotMatches(snapshots[i], history);
        var id := snapshots[i].snapshot.lastEventId;
        assert history'[..id + 1] == history[..id + 1];
      } else {
        assert history'[..|history|] == history;
      }
    }
  }
}
