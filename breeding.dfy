/** A sow's reproductive record (src/components/BreedingManager.jsx): events
    listed newest first, the latest service, the farrowing date it predicts
    114 days later, and the days left until then. */
module BreedingManager {
  import opened Store
  import opened Sorting

  /** Days from service to farrowing. */
  const GestationDays: int := 114

  /** `addDays`: the date `days` days after `date`. */
  function AddDays(date: int, days: int): int
  {
    date + days
  }

  /** The sort key that puts later dates first. */
  function NewerFirst(e: BreedingEvent): int
  {
    -e.eventDate
  }

  /** `sortedEvents`: newest `event_date` first; equal dates keep their order. */
  function SortedEvents(events: seq<BreedingEvent>): seq<BreedingEvent>
  {
    SortBy(events, NewerFirst)
  }

  predicate IsService(e: BreedingEvent)
  {
    e.eventType == "Monta" || e.eventType == "Inseminacion"
  }

  /** `find`: the first service of a list. */
  function FirstService(events: seq<BreedingEvent>): (r: Option<BreedingEvent>)
    ensures r.Some? ==> r.value in events && IsService(r.value)
    ensures r.None? ==> forall e :: e in events ==> !IsService(e)
  {
    if events == [] then None
    else if IsService(events[0]) then Some(events[0])
    else FirstService(events[1..])
  }

  /** `lastActiveMonta`: the first service of the sorted list. */
  function LastActiveService(events: seq<BreedingEvent>): Option<BreedingEvent>
  {
    FirstService(SortedEvents(events))
  }

  /** `probablePartoDate`. */
  function ProbableFarrowing(events: seq<BreedingEvent>): Option<int>
  {
    var s := LastActiveService(events);
    if s.Some? then Some(AddDays(s.value.eventDate, GestationDays)) else None
  }

  /** `Math.ceil(a / b)` for a positive divisor. */
  function CeilDiv(a: int, b: int): int
    requires b > 0
  {
    -((-a) / b)
  }

  /** `daysRemaining`: whole days, rounded up, from the instant `nowMs` to the
      start of the due day. */
  function DaysRemaining(due: int, nowMs: int): int
  {
    CeilDiv(due * DayMs - nowMs, DayMs)
  }

  /** `handleSaveEvent`: the event as stored. */
  function SavedEvent(pigId: Id, eventType: string, eventDate: int, details: string, now: int): Tracked<BreedingEvent>
  {
    Tracked(BreedingEvent(pigId, eventType, eventDate, details, now), Pending)
  }

  /** The event form. */
  datatype EventForm = EventForm(eventType: string, eventDate: int, details: string)

  /** `handleSaveEvent`: store the form as a pending event, then reset it. */
  method HandleSaveEvent(db: LocalDb, pigId: Id, form: EventForm, newId: Id, today: int, now: int)
    returns (form': EventForm)
    requires newId !in db.breedingEvents
    modifies db`breedingEvents
    ensures db.breedingEvents == old(db.breedingEvents)[newId := SavedEvent(pigId, form.eventType, form.eventDate, form.details, now)]
    ensures form' == EventForm("Monta", today, "")
  {
    db.breedingEvents := db.breedingEvents[newId := SavedEvent(pigId, form.eventType, form.eventDate, form.details, now)];
    form' := EventForm("Monta", today, "");
  }

  // ----- Properties -----

  /** The sorted list holds the same events, newest first. */
  lemma SortedNewestFirst(events: seq<BreedingEvent>)
    ensures multiset(SortedEvents(events)) == multiset(events)
    ensures forall i, j :: 0 <= i < j < |SortedEvents(events)| ==>
              SortedEvents(events)[i].eventDate >= SortedEvents(events)[j].eventDate
  {
    SortByKeeps(events, NewerFirst);
  }

  /** The active service is a service of the record with the latest date
      among all services; there is none only when the record has no service.
      A later farrowing or any other event does not clear it. */
  lemma {:induction false} ActiveServiceIsLatest(events: seq<BreedingEvent>)
    ensures LastActiveService(events).None? <==> forall e :: e in events ==> !IsService(e)
    ensures LastActiveService(events).Some? ==>
              && LastActiveService(events).value in events
              && IsService(LastActiveService(events).value)
              && forall e :: e in events && IsService(e) ==> e.eventDate <= LastActiveService(events).value.eventDate
  {
    var sorted := SortedEvents(events);
    SortedNewestFirst(events);
    forall e ensures e in sorted <==> e in events {
      assert e in sorted <==> e in multiset(sorted);
      assert e in events <==> e in multiset(events);
    }
    FirstServiceIsLatest(sorted);
  }

  /** In a list ordered newest first, the first service is dated no earlier
      than any other service. */
  lemma {:induction false} FirstServiceIsLatest(sorted: seq<BreedingEvent>)
    requires forall i, j :: 0 <= i < j < |sorted| ==> sorted[i].eventDate >= sorted[j].eventDate
    ensures FirstService(sorted).Some? ==>
              forall e :: e in sorted && IsService(e) ==> e.eventDate <= FirstService(sorted).value.eventDate
  {
    if sorted != [] && !IsService(sorted[0]) {
      var tail := sorted[1..];
      forall i, j | 0 <= i < j < |tail| ensures tail[i].eventDate >= tail[j].eventDate {
        assert tail[i] == sorted[i + 1] && tail[j] == sorted[j + 1];
      }
      FirstServiceIsLatest(tail);
      forall e | e in sorted && IsService(e) ensures e in tail {
        assert sorted == [sorted[0]] + tail;
      }
    } else if sorted != [] {
      forall e | e in sorted && IsService(e) ensures e.eventDate <= sorted[0].eventDate {
        var k :| 0 <= k < |sorted| && sorted[k] == e;
        if k > 0 { assert sorted[0].eventDate >= sorted[k].eventDate; }
      }
    }
  }

  /** The predicted farrowing is 114 days after the active service, and there
      is a prediction exactly when there is a service. */
  lemma FarrowingFollowsService(events: seq<BreedingEvent>)
    ensures ProbableFarrowing(events).Some? <==> exists e :: e in events && IsService(e)
    ensures ProbableFarrowing(events).Some? ==>
              ProbableFarrowing(events).value - LastActiveService(events).value.eventDate == GestationDays
  {
    ActiveServiceIsLatest(events);
  }

  /** `CeilDiv` is the ceiling: the least integer at or above the quotient. */
  lemma CeilDivIsCeiling(a: int, b: int)
    requires b > 0
    ensures (CeilDiv(a, b) - 1) * b < a <= CeilDiv(a, b) * b
  {
  }

  /** The days remaining are the due day less the current day (the day the
      instant falls in), so the count turns 0 — "date reached" — on the due
      day itself. */
  lemma DaysRemainingIsDayDifference(due: int, nowMs: int)
    ensures DaysRemaining(due, nowMs) == due - nowMs / DayMs
    ensures DaysRemaining(due, nowMs) <= 0 <==> due <= nowMs / DayMs
  {
    var today := nowMs / DayMs;
    var rem := nowMs % DayMs;
    assert nowMs == today * DayMs + rem && 0 <= rem < DayMs;
    var a := due * DayMs - nowMs;
    assert -a == (today - due) * DayMs + rem;
    assert (-a) / DayMs == today - due;
  }
}
