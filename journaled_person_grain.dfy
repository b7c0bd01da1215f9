/**
  The journaled person test grain: birth registration, marriage and the
  query of a person's attributes, each state change written as events.
 */
module JournaledPersonGrain {
  import opened Wrappers
  import opened PersonEvents
  import opened EventLog
  import opened StorageProvider
  import opened JournaledGrain

  /** The attributes a person is registered with and that other grains can ask for. */
  datatype PersonAttributes = PersonAttributes(firstName: Option<string>, lastName: Option<string>, gender: GenderType)

  datatype GrainError =
    | AlreadyMarried(lastName: Option<string>)  // the NotSupportedException of Marry, naming the last name
    | StorageFailed(cause: ProviderError)       // a write of the storage provider failed

  /** The attributes part of a person state. */
  function AttributesOf(d: PersonData): (a: PersonAttributes)
    ensures a.firstName == d.firstName && a.lastName == d.lastName && a.gender == d.gender
  {
    PersonAttributes(d.firstName, d.lastName, d.gender)
  }

  /** The event a birth registration writes. */
  function Registration(props: PersonAttributes): PersonEvent
  {
    PersonRegistered(props.firstName, props.lastName, props.gender)
  }

  /** Registering with some attributes and then asking for them gives them back, whatever the state before. */
  lemma RegisteredAttributesRoundTrip(props: PersonAttributes, s: PersonData)
    ensures AttributesOf(ApplyTo(Registration(props), s)) == props
    ensures ApplyTo(Registration(props), s).isMarried == s.isMarried
  {
  }

  /** The events a marriage writes, for a person whose last name was `lastName`. */
  function MarriageEvents(spouseId: Guid, spouse: PersonAttributes, lastName: Option<string>): (evs: seq<PersonEvent>)
    ensures 1 <= |evs| <= 2
    ensures evs[0] == PersonMarried(spouseId, spouse.firstName, spouse.lastName)
    ensures |evs| == 2 <==> lastName != spouse.lastName
    ensures |evs| == 2 ==> evs[1] == PersonLastNameChanged(spouse.lastName)
  {
    [PersonMarried(spouseId, spouse.firstName, spouse.lastName)]
      + if lastName != spouse.lastName then [PersonLastNameChanged(spouse.lastName)] else []
  }

  /**
    The events of a marriage leave the person married under the spouse's last
    name, with first name and gender untouched.
   */
  lemma MarriageTakesSpouseName(spouseId: Guid, spouse: PersonAttributes, s: PersonData)
    ensures var evs := MarriageEvents(spouseId, spouse, s.lastName);
            ApplyAll(s, evs) == if |evs| == 2 then ApplyTo(evs[1], ApplyTo(evs[0], s)) else ApplyTo(evs[0], s)
    ensures var t := ApplyAll(s, MarriageEvents(spouseId, spouse, s.lastName));
            && t.isMarried
            && t.lastName == spouse.lastName
            && t.firstName == s.firstName && t.gender == s.gender
  {
    var evs := MarriageEvents(spouseId, spouse, s.lastName);
    var married := ApplyTo(evs[0], s);
    assert evs[..1][..0] == [];
    assert ApplyAll(s, evs[..1]) == married;
    if |evs| == 2 {
      assert ApplyAll(s, evs) == ApplyTo(evs[1], married);
    } else {
      assert evs == evs[..1];
    }
  }

  /** A journaled person grain; its base grain holds the key, the log and the state. */
  class JournaledPersonGrain {
    const grain: JournaledGrain

    constructor (grain: JournaledGrain)
      ensures this.grain == grain
    {
      this.grain := grain;
    }

    /** The person's current state. */
    function Person(): PersonData
      reads grain.grainState, grain.grainState.state
    {
      grain.grainState.state.Value()
    }

    /** Writes the registration of the person with the attributes `props`. */
    method RegisterBirth(props: PersonAttributes) returns (r: Outcome<ProviderError>)
      modifies grain.store, grain.grainState, grain.grainState.state
      ensures grain.store.deleted == old(grain.store.deleted)
      ensures OnlyOwnStreams(grain.grainType, grain.key, old(grain.store.streams), grain.store.streams)
      ensures Persisted(grain.store.streams, grain.grainState.state.lastEvent, grain.grainState.etag, r)
           == Persist(old(grain.store.streams), old(grain.store.deleted), grain.grainType, grain.key,
                      Some(Registration(props)), old(grain.grainState.etag), old(Person()))
      ensures r.Pass? ==>
        && grain.History() == old(grain.History()) + [EventRecord(Registration(props))]
        && grain.Snapshots() == old(grain.Snapshots()) + SnapshotsWritten(old(grain.grainState.etag), old(Person()))
        && grain.grainState.etag == Advanced(old(grain.grainState.etag))
        && grain.grainState.state.lastEvent.None?
        && AttributesOf(Person()) == props
        && Person().isMarried == old(Person().isMarried)
      ensures r.Fail? ==> Person() == old(Person())
      ensures old(grain.InSync() && grain.Writable()) ==> r.Pass? && grain.InSync()
    {
      RegisteredAttributesRoundTrip(props, Person());
      r := grain.WriteEvent(Registration(props));
    }

    /**
      Marries the person to `spouse`: refused for a person already married;
      otherwise writes the marriage and, if the last names differ, the change
      to the spouse's last name. Only this grain's two streams are written.
     */
    method Marry(spouse: JournaledPersonGrain) returns (r: Outcome<GrainError>)
      modifies grain.store, grain.grainState, grain.grainState.state
      ensures grain.store.deleted == old(grain.store.deleted)
      ensures OnlyOwnStreams(grain.grainType, grain.key, old(grain.store.streams), grain.store.streams)
      ensures old(Person().isMarried) ==>
        && r == Fail(AlreadyMarried(old(Person().lastName)))
        && unchanged(grain.store, grain.grainState, grain.grainState.state)
      ensures var evs := MarriageEvents(spouse.grain.key, old(AttributesOf(spouse.Person())), old(Person().lastName));
        r.Pass? ==>
        && !old(Person().isMarried)
        && grain.History() == old(grain.History()) + Records(evs)
        && grain.Snapshots()
           == old(grain.Snapshots()) + SnapshotsWritten(old(grain.grainState.etag), old(Person()))
              + (if |evs| == 2 then SnapshotsWritten(Advanced(old(grain.grainState.etag)), ApplyTo(evs[0], old(Person()))) else [])
        && grain.grainState.etag
           == (if |evs| == 2 then Advanced(Advanced(old(grain.grainState.etag))) else Advanced(old(grain.grainState.etag)))
        && grain.grainState.state.lastEvent.None?
        && Person() == ApplyAll(old(Person()), evs)
        && Person().isMarried && Person().lastName == old(spouse.Person().lastName)
      ensures var evs := MarriageEvents(spouse.grain.key, old(AttributesOf(spouse.Person())), old(Person().lastName));
        r.Fail? && !old(Person().isMarried) ==>
        && r.error.StorageFailed?
        && (Person() == old(Person()) || Person() == ApplyTo(evs[0], old(Person())))
      ensures !old(Person().isMarried) && old(grain.InSync() && grain.Writable()) ==> r.Pass? && grain.InSync()
    {
      if Person().isMarried {
        return Fail(AlreadyMarried(Person().lastName));
      }
      var spouseData := spouse.GetPersonalAttributes();
      var written := WriteMarriage(spouse.grain.key, spouseData);
      if written.Fail? {
        return Fail(StorageFailed(written.error));
      }
      r := Pass;
    }

    /**
      The writes of a marriage to the spouse `spouseId` with attributes
      `spouse`: the marriage, then the change to the spouse's last name if the
      person's last name differs; the outcome is that of the first write that fails.
     */
    method WriteMarriage(spouseId: Guid, spouse: PersonAttributes) returns (r: Outcome<ProviderError>)
      modifies grain.store, grain.grainState, grain.grainState.state
      ensures grain.store.deleted == old(grain.store.deleted)
      ensures OnlyOwnStreams(grain.grainType, grain.key, old(grain.store.streams), grain.store.streams)
      ensures var evs := MarriageEvents(spouseId, spouse, old(Person().lastName));
        r.Pass? ==>
        && grain.History() == old(grain.History()) + Records(evs)
        && grain.Snapshots()
           == old(grain.Snapshots()) + SnapshotsWritten(old(grain.grainState.etag), old(Person()))
              + (if |evs| == 2 then SnapshotsWritten(Advanced(old(grain.grainState.etag)), ApplyTo(evs[0], old(Person()))) else [])
        && grain.grainState.etag
           == (if |evs| == 2 then Advanced(Advanced(old(grain.grainState.etag))) else Advanced(old(grain.grainState.etag)))
        && grain.grainState.state.lastEvent.None?
        && Person() == ApplyAll(old(Person()), evs)
      ensures var evs := MarriageEvents(spouseId, spouse, old(Person().lastName));
        r.Fail? ==> Person() == old(Person()) || Person() == ApplyTo(evs[0], old(Person()))
      ensures old(grain.InSync() && grain.Writable()) ==> r.Pass? && grain.InSync()
    {
      ghost var before := Person();
      ghost var good := grain.InSync() && grain.Writable();
      ghost var history := grain.History();
      ghost var snapshots := grain.Snapshots();
      ghost var etag := grain.grainState.etag;
      ghost var evs := MarriageEvents(spouseId, spouse, before.lastName);
      MarriageTakesSpouseName(spouseId, spouse, before);
      r := grain.WriteEvent(PersonMarried(spouseId, spouse.firstName, spouse.lastName));
      if r.Fail? {
        return;
      }
      assert good ==> grain.InSync() && grain.Writable();
      assert grain.History() == history + [EventRecord(evs[0])];
      assert grain.Snapshots() == snapshots + SnapshotsWritten(etag, before);
      assert grain.grainState.etag == Advanced(etag);
      ghost var married := Person();
      assert married == ApplyTo(evs[0], before) && married.lastName == before.lastName;
      r := TakeLastName(spouse.lastName);
      if r.Fail? {
        return;
      }
      if |evs| == 2 {
        assert married.lastName != spouse.lastName;
        assert Records(evs) == [EventRecord(evs[0]), EventRecord(evs[1])];
      } else {
        assert Records(evs) == [EventRecord(evs[0])];
        assert grain.Snapshots() == snapshots + SnapshotsWritten(etag, before) + [];
      }
    }

    /** The second half of a marriage: writes the change to `lastName` when the person's last name differs. */
    method TakeLastName(lastName: Option<string>) returns (r: Outcome<ProviderError>)
      modifies grain.store, grain.grainState, grain.grainState.state
      ensures grain.store.deleted == old(grain.store.deleted) && grain.Writable() == old(grain.Writable())
      ensures OnlyOwnStreams(grain.grainType, grain.key, old(grain.store.streams), grain.store.streams)
      ensures old(Person().lastName) == lastName ==>
        r.Pass? && unchanged(grain.store, grain.grainState, grain.grainState.state)
      ensures old(Person().lastName) != lastName && r.Pass? ==>
        && grain.History() == old(grain.History()) + [EventRecord(PersonLastNameChanged(lastName))]
        && grain.Snapshots() == old(grain.Snapshots()) + SnapshotsWritten(old(grain.grainState.etag), old(Person()))
        && grain.grainState.etag == Advanced(old(grain.grainState.etag))
        && grain.grainState.state.lastEvent.None?
      ensures r.Pass? ==> Person() == old(Person()).(lastName := lastName)
      ensures r.Fail? ==> Person() == old(Person())
      ensures old(grain.InSync() && grain.Writable()) ==> r.Pass? && grain.InSync()
    {
      if Person().lastName != lastName {
        r := grain.WriteEvent(PersonLastNameChanged(lastName));
      } else {
        r := Pass;
      }
    }

    /** The person's first name, last name and gender. */
    method GetPersonalAttributes() returns (a: PersonAttributes)
      ensures a == AttributesOf(Person())
    {
      var s := grain.grainState.state;
      a := PersonAttributes(s.firstName, s.lastName, s.gender);
    }
  }

  /** The records that writing the events `evs` one by one appends to a main stream. */
  function Records(evs: seq<PersonEvent>): (rs: seq<Record>)
    ensures |rs| == |evs| && forall i :: 0 <= i < |evs| ==> rs[i] == EventRecord(evs[i])
  {
    if |evs| == 0 then [] else [EventRecord(evs[0])] + Records(evs[1..])
  }
}
