/**
  An in-memory stand-in for the event log service: named streams of records,
  numbered from 0, with optimistic appends and forward and backward reads.
  Only the behaviour the storage provider relies on is modelled.
 */
module EventLog {
  import opened Wrappers

  /** The version an append expects the stream to be at. */
  datatype ExpectedVersion =
    | Any                  // no check
    | NoStream             // the stream must hold no record
    | Exact(version: nat)  // the stream's last record must have this number

  datatype AppendError = WrongExpectedVersion | StreamWasDeleted

  datatype SliceReadStatus = Success | StreamNotFound | StreamDeleted

  /** The answer to a forward read. */
  datatype Slice<R> = Slice(
    status: SliceReadStatus,
    events: seq<R>,
    nextEventNumber: nat,
    lastEventNumber: int,
    isEndOfStream: bool)

  /** The records of stream `name`; a stream never written to holds none. */
  function EventsOf<R>(streams: map<string, seq<R>>, name: string): seq<R>
  {
    if name in streams then streams[name] else []
  }

  /** The optimistic-concurrency test: does a stream holding `current` take an append expecting `expected`? */
  predicate Accepts<R>(current: seq<R>, expected: ExpectedVersion)
  {
    match expected
    case Any => true
    case NoStream => |current| == 0
    case Exact(v) => |current| == v + 1
  }

  /** The number given to an appended record (or why it was refused) and the streams afterwards. */
  datatype Appended<R> = Appended(result: Result<nat, AppendError>, streams: map<string, seq<R>>)

  /** Appending `rec` to stream `name`. */
  function AppendTo<R>(streams: map<string, seq<R>>, deleted: set<string>, name: string,
                       expected: ExpectedVersion, rec: R): (a: Appended<R>)
    ensures a.result.Ok? <==> name !in deleted && Accepts(EventsOf(streams, name), expected)
    ensures a.result.Ok? ==>
      && a.result.value == |EventsOf(streams, name)|
      && EventsOf(a.streams, name) == EventsOf(streams, name) + [rec]
    ensures a.result.Err? ==> a.streams == streams
    ensures a.result == Err(StreamWasDeleted) <==> name in deleted
    ensures forall n :: n != name ==> EventsOf(a.streams, n) == EventsOf(streams, n)
  {
    if name in deleted then Appended(Err(StreamWasDeleted), streams)
    else if !Accepts(EventsOf(streams, name), expected) then Appended(Err(WrongExpectedVersion), streams)
    else Appended(Ok(|EventsOf(streams, name)|), streams[name := EventsOf(streams, name) + [rec]])
  }

  /** The last record of `rs`, if there is one (a backward read of one record from the end). */
  function Latest<R>(rs: seq<R>): (r: seq<R>)
    ensures |rs| == 0 ==> r == []
    ensures |rs| > 0 ==> r == [rs[|rs| - 1]]
  {
    if |rs| == 0 then [] else [rs[|rs| - 1]]
  }

  /**
    Two appends that expect the same version (other than Any): when the first
    is accepted the second is refused, and the stream has grown by one record.
   */
  lemma OptimisticConcurrency<R>(streams: map<string, seq<R>>, deleted: set<string>, name: string,
                                 expected: ExpectedVersion, first: R, second: R)
    requires expected != Any
    ensures var a := AppendTo(streams, deleted, name, expected, first);
            var b := AppendTo(a.streams, deleted, name, expected, second);
            a.result.Ok? ==>
              && b.result == Err(WrongExpectedVersion)
              && EventsOf(b.streams, name) == EventsOf(streams, name) + [first]
  {
  }

  /**
    Successive accepted appends to one stream are numbered consecutively,
    whatever versions they expect, and an append that expects the number the
    previous append returned is accepted.
   */
  lemma AppendsNumberConsecutively<R>(streams: map<string, seq<R>>, deleted: set<string>, name: string,
                                      first: R, second: R, x: ExpectedVersion, y: ExpectedVersion)
    ensures var a := AppendTo(streams, deleted, name, x, first);
            var b := AppendTo(a.streams, deleted, name, y, second);
            a.result.Ok? && b.result.Ok? ==> b.result.value == a.result.value + 1
    ensures var a := AppendTo(streams, deleted, name, x, first);
            a.result.Ok? ==> AppendTo(a.streams, deleted, name, Exact(a.result.value), second).result.Ok?
  {
  }

  /**
    `s` is the answer to a forward read of at most `count` records of `rs`
    from record number `from`: the records from there to the end or to the
    count, the number to read from next, and whether the end was reached.
   */
  ghost predicate IsPageOf<R>(rs: seq<R>, from: nat, count: nat, s: Slice<R>)
  {
    && s.lastEventNumber == |rs| - 1
    && s.nextEventNumber == from + |s.events|
    && (s.isEndOfStream <==> from + count >= |rs|)
    && (from >= |rs| ==> s.events == [])
    && (from < |rs| ==> s.events == rs[from..if s.isEndOfStream then |rs| else from + count])
  }

  /** The log service: every stream by name, and the names of hard-deleted streams. */
  class EventStore<R> {
    var streams: map<string, seq<R>>
    var deleted: set<string>

    constructor ()
      ensures streams == map[] && deleted == {}
    {
      streams := map[];
      deleted := {};
    }

    function Events(name: string): seq<R>
      reads this
    {
      EventsOf(streams, name)
    }

    predicate IsDeleted(name: string)
      reads this
    {
      name in deleted
    }

    /** Appends one record to `name` if the stream is at `expected`; returns the record's number. */
    method Append(name: string, expected: ExpectedVersion, rec: R) returns (r: Result<nat, AppendError>)
      modifies this
      ensures Appended(r, streams) == AppendTo(old(streams), old(deleted), name, expected, rec)
      ensures deleted == old(deleted)
    {
      var a := AppendTo(streams, deleted, name, expected, rec);
      r := a.result;
      streams := a.streams;
    }

    /** Reads at most `count` records of `name` forward, starting at record number `from`. */
    method ReadForward(name: string, from: nat, count: nat) returns (s: Slice<R>)
      requires count > 0
      ensures s.status == StreamDeleted <==> name in deleted
      ensures s.status == StreamNotFound <==> name !in deleted && |Events(name)| == 0
      ensures s.status == Success ==> |Events(name)| > 0 && IsPageOf(Events(name), from, count, s)
    {
      if name in deleted {
        s := Slice(StreamDeleted, [], from, -1, true);
      } else if |Events(name)| == 0 {
        s := Slice(StreamNotFound, [], from, -1, true);
      } else {
        var all := Events(name);
        var end := if from + count < |all| then from + count else |all|;
        var window := if from < |all| then all[from..end] else [];
        s := Slice(Success, window, from + |window|, |all| - 1, from + count >= |all|);
      }
    }

    /** Reads the last record of `name` (none for an empty or deleted stream). */
    function ReadBackwardLast(name: string): (rs: seq<R>)
      reads this
      ensures name in deleted ==> rs == []
      ensures name !in deleted ==> rs == Latest(Events(name))
    {
      if name in deleted then [] else Latest(Events(name))
    }
  }
}
