/** The `Event` document of `limitless-backend` (models/Event.js) and the
    registration step of routes/events.js as a function of one event. */
module EventModel {
  import opened Common
  import opened Text
  import opened Lists

  /** The `status` enum. */
  datatype EventStatus = Upcoming | Ongoing | Completed | Cancelled {
    /** The string stored in the document. */
    function Name(): string {
      match this
      case Upcoming => "upcoming"
      case Ongoing => "ongoing"
      case Completed => "completed"
      case Cancelled => "cancelled"
    }
  }

  /** The enum validator: the status a stored string names, if any. */
  function ParseStatus(s: string): (r: Option<EventStatus>)
    ensures r.Some? ==> r.value.Name() == s
    ensures r.None? <==> s !in {"upcoming", "ongoing", "completed", "cancelled"}
  {
    if s == "upcoming" then Some(Upcoming)
    else if s == "ongoing" then Some(Ongoing)
    else if s == "completed" then Some(Completed)
    else if s == "cancelled" then Some(Cancelled)
    else None
  }

  /** Every status survives being stored and read back. */
  lemma StatusRoundTrip(st: EventStatus)
    ensures ParseStatus(st.Name()) == Some(st)
  {
  }

  /** A stored event. `date` is the event's instant as a number. */
  datatype Event = Event(
    id: Id,
    name: string,
    description: string,
    date: int,
    time: string,
    location: string,
    isOnline: bool,
    maxAttendees: int,
    currentAttendees: int,
    organizer: Id,
    attendees: seq<Id>,
    status: EventStatus)

  /** What `save` accepts: the `required` strings are not empty and
      `maxAttendees` is at least 1 (`date`, `organizer` and `status` are
      always present in this model). */
  predicate SchemaValid(e: Event) {
    e.name != [] && e.description != [] && e.time != [] && e.location != []
    && e.maxAttendees >= 1
  }

  /** The registration bookkeeping: the count matches the attendee list,
      stays within capacity, and nobody is listed twice. */
  predicate Consistent(e: Event) {
    e.currentAttendees == |e.attendees| && e.currentAttendees <= e.maxAttendees
    && NoDup(e.attendees)
  }

  /** `new Event({...})`: the `trim` setters on name, description and
      location, `isOnline: isOnline || false`, and the defaults (no
      attendees, count 0, status upcoming). It is consistent whenever it
      passes validation. */
  function NewEvent(id: Id, organizer: Id, name: string, description: string, date: int,
                    time: string, location: string, isOnline: Option<bool>, maxAttendees: int): (e: Event)
    ensures e.id == id && e.organizer == organizer && e.date == date && e.time == time
    ensures e.name == Trim(name) && e.description == Trim(description) && e.location == Trim(location)
    ensures e.isOnline <==> isOnline.Some? && isOnline.value
    ensures e.maxAttendees == maxAttendees
    ensures e.currentAttendees == 0 && e.attendees == [] && e.status == Upcoming
    ensures SchemaValid(e) <==>
      !IsBlank(name) && !IsBlank(description) && !IsBlank(location) && time != [] && maxAttendees >= 1
    ensures SchemaValid(e) ==> Consistent(e)
  {
    BlankIffTrimEmpty(name);
    BlankIffTrimEmpty(description);
    BlankIffTrimEmpty(location);
    Event(id, Trim(name), Trim(description), date, time, Trim(location),
          isOnline.GetOr(false), maxAttendees, 0, organizer, [], Upcoming)
  }

  /** POST /api/events/:id/register on a found event: a full event is
      refused first, then an existing registration; otherwise the caller is
      appended and the count grows by one, and nothing else changes. */
  function Register(e: Event, caller: Id): (r: Result<Event>)
    ensures r.Ok? <==> e.currentAttendees < e.maxAttendees && caller !in e.attendees
    ensures r.Ok? ==> r.value == e.(attendees := e.attendees + [caller],
                                    currentAttendees := e.currentAttendees + 1)
    ensures r.Err? ==> r.failure.BadRequest? && r.failure.missing == []
  {
    if e.currentAttendees >= e.maxAttendees then Err(BadRequest("Event is full", []))
    else if caller in e.attendees then Err(BadRequest("Already registered for this event", []))
    else Ok(e.(attendees := e.attendees + [caller], currentAttendees := e.currentAttendees + 1))
  }

  /** A successful registration keeps the event consistent. */
  lemma RegisterKeepsConsistent(e: Event, caller: Id)
    requires Consistent(e)
    ensures Register(e, caller).Ok? ==> Consistent(Register(e, caller).value)
  {
    if Register(e, caller).Ok? {
      AppendAbsentKeepsNoDup(e.attendees, caller);
    }
  }

  /** Capacity is checked before membership: a full event answers "Event is
      full" even to a caller who is already registered. */
  lemma FullBeforeDuplicate(e: Event, caller: Id)
    requires e.currentAttendees >= e.maxAttendees
    ensures Register(e, caller) == Err(BadRequest("Event is full", []))
  {
  }

  /** An event that is not full refuses a registered caller with "Already
      registered for this event". */
  lemma DuplicateRefused(e: Event, caller: Id)
    requires e.currentAttendees < e.maxAttendees && caller in e.attendees
    ensures Register(e, caller) == Err(BadRequest("Already registered for this event", []))
  {
  }

  /** A consistent event accepts exactly `maxAttendees` distinct callers:
      registering a new caller succeeds as long as seats remain. */
  lemma {:induction false} SeatsFillUp(e: Event, callers: seq<Id>)
    requires Consistent(e) && NoDup(callers)
    requires forall k :: 0 <= k < |callers| ==> callers[k] !in e.attendees
    requires |callers| <= e.maxAttendees - e.currentAttendees
    ensures RegisterAll(e, callers).Ok?
    ensures RegisterAll(e, callers).value.attendees == e.attendees + callers
    ensures Consistent(RegisterAll(e, callers).value)
    decreases |callers|
  {
    if callers != [] {
      var c := callers[0];
      RegisterKeepsConsistent(e, c);
      var e' := Register(e, c).value;
      forall k | 0 <= k < |callers[1..]| ensures callers[1..][k] !in e'.attendees {
        assert callers[1..][k] == callers[k + 1];
        assert callers[k + 1] != c;
      }
      SubsequenceKeepsNoDup(callers[1..], callers) by {
        SubsequenceTail(callers);
      }
      SeatsFillUp(e', callers[1..]);
      assert e.attendees + [c] + callers[1..] == e.attendees + callers;
    }
  }

  /** The tail of a sequence is a subsequence of it. */
  lemma SubsequenceTail(s: seq<Id>)
    requires s != []
    ensures IsSubsequence(s[1..], s)
  {
    SubsequenceOfSelf(s[1..]);
  }

  /** Registering several callers one request at a time, stopping at the
      first refusal. */
  function RegisterAll(e: Event, callers: seq<Id>): (r: Result<Event>)
    decreases |callers|
  {
    if callers == [] then Ok(e)
    else
      match Register(e, callers[0])
      case Err(f) => Err(f)
      case Ok(e') => RegisterAll(e', callers[1..])
  }
}
