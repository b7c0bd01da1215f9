/**
  The person aggregate of the test grains: its state, the three self-applying
  events (PersonRegistered, PersonMarried, PersonLastNameChanged) and what
  applying them does.
 */
module PersonEvents {
  import opened Wrappers

  /** The underlying value of the GenderType enumeration; 0 is the enumeration's default. */
  type GenderType = int

  /** A grain's primary key, as its printed form. */
  type Guid = string

  /** The value of the four public properties of a PersonState; a null string is None. */
  datatype PersonData = PersonData(
    firstName: Option<string>,
    lastName: Option<string>,
    gender: GenderType,
    isMarried: bool)

  /** The state of a freshly created PersonState: null names, default gender, not married. */
  const Zero := PersonData(None, None, 0, false)

  /** The events of a journaled person; each one owns its transition on the state. */
  datatype PersonEvent =
    | PersonRegistered(firstName: Option<string>, lastName: Option<string>, gender: GenderType)
    | PersonMarried(spouseId: Guid, spouseFirstName: Option<string>, spouseLastName: Option<string>)
    | PersonLastNameChanged(lastName: Option<string>)

  /** The state after `e` is applied to `s`: the value-level meaning of Apply. */
  function ApplyTo(e: PersonEvent, s: PersonData): PersonData
  {
    match e
    case PersonRegistered(first, last, gender) => s.(firstName := first, lastName := last, gender := gender)
    case PersonMarried(_, _, _) => s.(isMarried := true)
    case PersonLastNameChanged(last) => s.(lastName := last)
  }

  /** The state after the events `evs` are applied to `s`, oldest first. */
  function ApplyAll(s: PersonData, evs: seq<PersonEvent>): PersonData
    decreases |evs|
  {
    if |evs| == 0 then s else ApplyTo(evs[|evs| - 1], ApplyAll(s, evs[..|evs| - 1]))
  }

  /** Applying an event a second time changes nothing: every event only overwrites fields with constants of its own. */
  lemma ApplyIsIdempotent(e: PersonEvent, s: PersonData)
    ensures ApplyTo(e, ApplyTo(e, s)) == ApplyTo(e, s)
  {
  }

  /** A marriage and a change of last name write disjoint fields, so their order does not matter. */
  lemma MarriedAndLastNameChangedCommute(married: PersonEvent, renamed: PersonEvent, s: PersonData)
    requires married.PersonMarried? && renamed.PersonLastNameChanged?
    ensures ApplyTo(married, ApplyTo(renamed, s)) == ApplyTo(renamed, ApplyTo(married, s))
  {
  }

  /** Replaying `a` then `b` is replaying their concatenation. */
  lemma {:induction false} ApplyAllConcat(s: PersonData, a: seq<PersonEvent>, b: seq<PersonEvent>)
    ensures ApplyAll(s, a + b) == ApplyAll(ApplyAll(s, a), b)
    decreases |b|
  {
    if |b| == 0 {
      assert a + b == a;
    } else {
      var front := b[..|b| - 1];
      assert (a + b)[..|a + b| - 1] == a + front;
      assert (a + b)[|a + b| - 1] == b[|b| - 1];
      ApplyAllConcat(s, a, front);
    }
  }

  /**
    A state that already includes the event at position k, followed by the
    events from k on (so that event is applied twice), is still the full replay.
   */
  lemma ReplayFromIncludedPosition(s: PersonData, evs: seq<PersonEvent>, k: nat)
    requires k < |evs|
    ensures ApplyAll(ApplyAll(s, evs[..k + 1]), evs[k..]) == ApplyAll(s, evs)
  {
    var before := ApplyAll(s, evs[..k]);
    var e := evs[k];
    assert evs[..k + 1][..k] == evs[..k];
    assert ApplyAll(s, evs[..k + 1]) == ApplyTo(e, before);
    assert evs[k..] == [e] + evs[k + 1..];
    ApplyAllConcat(ApplyTo(e, before), [e], evs[k + 1..]);
    assert [e][..0] == [];
    assert ApplyAll(ApplyTo(e, before), [e]) == ApplyTo(e, ApplyTo(e, before));
    ApplyIsIdempotent(e, before);
    ApplyAllConcat(s, evs[..k + 1], evs[k + 1..]);
    assert evs[..k + 1] + evs[k + 1..] == evs;
  }

  /**
    The mutable state object of a journaled person (PersonState with the
    LastEvent slot it inherits from JournaledGrainState).
   */
  class PersonState {
    var firstName: Option<string>
    var lastName: Option<string>
    var gender: GenderType
    var isMarried: bool
    /** The event raised but not yet persisted (JournaledGrainState.LastEvent). */
    var lastEvent: Option<PersonEvent>

    /** The four public properties, as a value. */
    function Value(): PersonData
      reads this
    {
      PersonData(firstName, lastName, gender, isMarried)
    }

    constructor ()
      ensures Value() == Zero && lastEvent.None?
    {
      firstName, lastName, gender, isMarried := None, None, 0, false;
      lastEvent := None;
    }

    /** Overwrites the four public properties with `d` (what populating the object from a stored state does). */
    method Populate(d: PersonData)
      modifies this
      ensures Value() == d && lastEvent == old(lastEvent)
    {
      firstName, lastName, gender, isMarried := d.firstName, d.lastName, d.gender, d.isMarried;
    }
  }

  /** Applies `e` to `state` in place: the Apply method of each event class. */
  method Apply(e: PersonEvent, state: PersonState)
    modifies state
    ensures state.Value() == ApplyTo(e, old(state.Value()))
    ensures state.lastEvent == old(state.lastEvent)
    ensures e.PersonRegistered? ==>
      && state.firstName == e.firstName && state.lastName == e.lastName && state.gender == e.gender
      && state.isMarried == old(state.isMarried)
    ensures e.PersonMarried? ==>
      && state.isMarried
      && state.firstName == old(state.firstName) && state.lastName == old(state.lastName)
      && state.gender == old(state.gender)
    ensures e.PersonLastNameChanged? ==>
      && state.lastName == e.lastName
      && state.firstName == old(state.firstName) && state.gender == old(state.gender)
      && state.isMarried == old(state.isMarried)
  {
    match e
    case PersonRegistered(first, last, gender) =>
      state.firstName := first;
      state.lastName := last;
      state.gender := gender;
    case PersonMarried(_, _, _) =>
      state.isMarried := true;
    case PersonLastNameChanged(last) =>
      state.lastName := last;
  }
}
