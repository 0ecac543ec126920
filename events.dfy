/** The event routes of `limitless-backend` (routes/events.js) over an
    in-memory `events` collection, one request at a time. */
module Events {
  import opened Common
  import opened Text
  import opened Lists
  import opened EventModel

  /** The body of POST /api/events. `date` is the requested instant;
      `maxAttendees` is the number sent, if any. */
  datatype EventRequest = EventRequest(
    name: Option<string>,
    description: Option<string>,
    date: Option<int>,
    time: Option<string>,
    location: Option<string>,
    isOnline: Option<bool>,
    maxAttendees: Option<int>)

  /** `maxAttendees` is truthy: given and not 0. */
  predicate CapacityGiven(m: Option<int>) {
    m.Some? && m.value != 0
  }

  /** The request fields the route checks. */
  datatype EventField = NameField | DescriptionField | DateField | TimeField | LocationField | CapacityField {
    /** The field's key in the request and in the `missing` object. */
    function Key(): string {
      match this
      case NameField => "name"
      case DescriptionField => "description"
      case DateField => "date"
      case TimeField => "time"
      case LocationField => "location"
      case CapacityField => "maxAttendees"
    }
  }

  /** The checked fields, in the order the route reports them. */
  const EventFields: seq<EventField> :=
    [NameField, DescriptionField, DateField, TimeField, LocationField, CapacityField]

  /** The route's truthiness test for field `f`. */
  predicate Given(q: EventRequest, f: EventField) {
    match f
    case NameField => Present(q.name)
    case DescriptionField => Present(q.description)
    case DateField => q.date.Some?
    case TimeField => Present(q.time)
    case LocationField => Present(q.location)
    case CapacityField => CapacityGiven(q.maxAttendees)
  }

  /** The fields whose flag in the 400 response's `missing` object is true,
      in the order the route lists them: exactly the checked fields that
      are not truthy. */
  function MissingFields(q: EventRequest): (r: seq<EventField>)
    ensures NameField in r <==> !Present(q.name)
    ensures DescriptionField in r <==> !Present(q.description)
    ensures DateField in r <==> q.date.None?
    ensures TimeField in r <==> !Present(q.time)
    ensures LocationField in r <==> !Present(q.location)
    ensures CapacityField in r <==> !CapacityGiven(q.maxAttendees)
  {
    var fs := EventFields;
    assert fs[0] == NameField && fs[1] == DescriptionField && fs[2] == DateField;
    assert fs[3] == TimeField && fs[4] == LocationField && fs[5] == CapacityField;
    Filter(fs, Falsy(q))
  }

  /** The test `MissingFields` filters with. */
  function Falsy(q: EventRequest): EventField -> bool {
    (f: EventField) => !Given(q, f)
  }

  /** The missing fields are listed in the route's order. */
  lemma MissingFieldsInOrder(q: EventRequest)
    ensures IsSubsequence(MissingFields(q), EventFields)
  {
    FilterIsSubsequence(EventFields, Falsy(q));
  }

  /** The keys of some fields, in order. */
  function Keys(fs: seq<EventField>): (r: seq<string>)
    ensures |r| == |fs|
    ensures forall k :: 0 <= k < |fs| ==> r[k] == fs[k].Key()
  {
    seq(|fs|, k requires 0 <= k < |fs| => fs[k].Key())
  }

  /** A request is complete exactly when every checked field is truthy. */
  lemma NothingMissingIffComplete(q: EventRequest)
    ensures MissingFields(q) == [] <==>
      Present(q.name) && Present(q.description) && q.date.Some? && Present(q.time)
      && Present(q.location) && CapacityGiven(q.maxAttendees)
  {
    var r := MissingFields(q);
    if r != [] {
      assert r[0] in r;
    }
  }

  /** The document `new Event({...})` builds from a complete request. */
  function Requested(id: Id, organizer: Id, q: EventRequest): Event
    requires MissingFields(q) == []
  {
    NewEvent(id, organizer, q.name.value, q.description.value, q.date.value,
             q.time.value, q.location.value, q.isOnline, q.maxAttendees.value)
  }

  /** No stored event has the next id yet. */
  lemma FreshIdAbsent(events: seq<Event>, nextId: Id)
    requires ValidEvents(events, nextId)
    ensures EventIndex(events, nextId) == -1
  {
    forall k | 0 <= k < |events| ensures events[k].id != nextId {
      assert Stored(events[k], nextId);
    }
  }

  /** The response of POST /api/events for the next id `nextId`: a request
      with a falsy field gets 400 with the list of missing fields; a
      complete request whose document fails validation (a name,
      description or location of white space only, or a capacity below 1)
      gets 500; otherwise the new event, organized by the caller. */
  function CreateResponse(nextId: Id, caller: Id, q: EventRequest): (r: Result<Event>)
    ensures MissingFields(q) != [] ==> r == Err(BadRequest("All fields are required", Keys(MissingFields(q))))
    ensures MissingFields(q) == [] && !SchemaValid(Requested(nextId, caller, q)) ==>
      r == Err(ServerError("Server error while creating event"))
    ensures MissingFields(q) == [] && SchemaValid(Requested(nextId, caller, q)) ==>
      r == Ok(Requested(nextId, caller, q))
    ensures r.Ok? ==>
      && r.value.id == nextId && r.value.organizer == caller
      && SchemaValid(r.value) && Consistent(r.value)
      && r.value.attendees == [] && r.value.currentAttendees == 0
  {
    var missing := MissingFields(q);
    if missing != [] then Err(BadRequest("All fields are required", Keys(missing)))
    else
      var e := Requested(nextId, caller, q);
      if !SchemaValid(e) then Err(ServerError("Server error while creating event")) else Ok(e)
  }

  /** What every event of the collection satisfies. */
  predicate Stored(e: Event, nextId: Id) {
    e.id < nextId && SchemaValid(e) && Consistent(e)
  }

  /** The collection invariant: every event is stored properly and ids are
      distinct. */
  ghost predicate ValidEvents(events: seq<Event>, nextId: Id) {
    (forall i :: 0 <= i < |events| ==> Stored(events[i], nextId))
    && (forall i, j :: 0 <= i < j < |events| ==> events[i].id != events[j].id)
  }

  lemma AppendKeepsValid(events: seq<Event>, nextId: Id, e: Event)
    requires ValidEvents(events, nextId)
    requires e.id == nextId && SchemaValid(e) && Consistent(e)
    ensures ValidEvents(events + [e], nextId + 1)
  {
    var es := events + [e];
    forall i | 0 <= i < |es| ensures Stored(es[i], nextId + 1) {
      if i < |events| { assert Stored(events[i], nextId); }
    }
    forall i, j | 0 <= i < j < |es| ensures es[i].id != es[j].id {
      assert Stored(events[i], nextId);
    }
  }

  lemma ReplaceKeepsValid(events: seq<Event>, nextId: Id, i: nat, e: Event)
    requires ValidEvents(events, nextId) && i < |events|
    requires e.id == events[i].id && SchemaValid(e) && Consistent(e)
    ensures ValidEvents(events[i := e], nextId)
  {
    assert Stored(events[i], nextId);
  }

  /** `Event.findById(id)`: the index of the event with that id, or -1. */
  function EventIndex(events: seq<Event>, id: Id): (r: int)
    ensures r == -1 <==> forall k :: 0 <= k < |events| ==> events[k].id != id
    ensures r != -1 ==> 0 <= r < |events| && events[r].id == id
  {
    FindIndex(events, (e: Event) => e.id == id)
  }

  /** The sort key of `sort({ date: 1 })`. */
  function ByDate(e: Event): int {
    e.date
  }

  class EventCollection {
    var events: seq<Event>
    var nextId: Id

    ghost predicate Valid()
      reads this
    {
      ValidEvents(events, nextId)
    }

    constructor ()
      ensures Valid() && events == [] && nextId == 0
    {
      events := [];
      nextId := 0;
    }

    /** POST /api/events: the response is `CreateResponse`; a created
        event is appended under a fresh id, and a refused request changes
        nothing. */
    method Create(caller: Id, q: EventRequest) returns (r: Result<Event>)
      requires Valid()
      modifies this
      ensures Valid()
      ensures r == CreateResponse(old(nextId), caller, q)
      ensures r.Ok? ==> events == old(events) + [r.value] && nextId == old(nextId) + 1
      ensures r.Err? ==> events == old(events) && nextId == old(nextId)
      ensures r.Ok? ==> EventIndex(old(events), r.value.id) == -1
    {
      r := CreateResponse(nextId, caller, q);
      if r.Ok? {
        FreshIdAbsent(events, nextId);
        AppendKeepsValid(events, nextId, r.value);
        events := events + [r.value];
        nextId := nextId + 1;
      }
    }

    /** GET /api/events: every event, earliest first. */
    method List() returns (r: seq<Event>)
      requires Valid()
      ensures SortedBy(r, ByDate)
      ensures multiset(r) == multiset(events)
    {
      r := SortBy(events, ByDate);
    }

    /** POST /api/events/:id/register: an unknown event gets 404; otherwise
        the outcome is `Register` on the stored event, which is replaced
        only when the registration succeeds. */
    method RegisterFor(id: Id, caller: Id) returns (r: Result<Event>)
      requires Valid()
      modifies this
      ensures Valid() && nextId == old(nextId)
      ensures EventIndex(old(events), id) == -1 ==>
        r == Err(NotFound("Event not found")) && events == old(events)
      ensures var i := EventIndex(old(events), id);
        i != -1 ==>
          r == Register(old(events)[i], caller)
          && events == if r.Ok? then old(events)[i := r.value] else old(events)
    {
      var i := EventIndex(events, id);
      if i == -1 {
        return Err(NotFound("Event not found"));
      }
      var e := events[i];
      if e.currentAttendees >= e.maxAttendees {
        return Err(BadRequest("Event is full", []));
      }
      if caller in e.attendees {
        return Err(BadRequest("Already registered for this event", []));
      }
      e := e.(attendees := e.attendees + [caller]);
      e := e.(currentAttendees := e.currentAttendees + 1);
      assert Stored(events[i], nextId);
      RegisterKeepsConsistent(events[i], caller);
      ReplaceKeepsValid(events, nextId, i, e);
      events := events[i := e];
      r := Ok(e);
    }
  }
}
