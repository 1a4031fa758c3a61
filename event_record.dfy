/**
 * The event alert record kept by the events storage and its copy-with-defaults
 * partial update: every field supplied (non-null) replaces the stored one,
 * every field left null keeps its value, and the identity of the record
 * (event id and instance start time) is never touched.
 */
module EventRecord {
  import opened Wrappers

  /** The display status of an alert; its enumeration is not part of this model, only its identity. */
  datatype EventDisplayStatus = EventDisplayStatus(code: int)

  datatype EventAlertRecord = EventAlertRecord(
    eventId: int,
    instanceStartTime: int,
    alertTime: int,
    title: string,
    snoozedUntil: int,
    startTime: int,
    endTime: int,
    location: string,
    lastEventVisibility: int,
    displayStatus: EventDisplayStatus,
    color: int,
    isRepeating: bool)

  /** The storage key of a record: one row per event instance. */
  datatype EventKey = EventKey(eventId: int, instanceStartTime: int)

  function KeyOf(e: EventAlertRecord): EventKey
  {
    EventKey(e.eventId, e.instanceStartTime)
  }

  /** The nullable arguments of a partial update; None stands for Kotlin's null. */
  datatype EventPatch = EventPatch(
    alertTime: Option<int>,
    title: Option<string>,
    snoozedUntil: Option<int>,
    startTime: Option<int>,
    endTime: Option<int>,
    location: Option<string>,
    lastEventVisibility: Option<int>,
    displayStatus: Option<EventDisplayStatus>,
    color: Option<int>,
    isRepeating: Option<bool>)

  /** The all-null partial update. */
  const NoChange := EventPatch(None, None, None, None, None, None, None, None, None, None)

  /** A field after a partial update: the supplied value, or the old one when none was supplied. */
  predicate Patched<T(==)>(supplied: Option<T>, before: T, after: T)
  {
    match supplied
    case Some(v) => after == v
    case None => after == before
  }

  /** Every field of `r` is the one of `p` where supplied and the one of `e` otherwise. */
  predicate PatchedFrom(e: EventAlertRecord, p: EventPatch, r: EventAlertRecord)
  {
    && Patched(p.alertTime, e.alertTime, r.alertTime)
    && Patched(p.title, e.title, r.title)
    && Patched(p.snoozedUntil, e.snoozedUntil, r.snoozedUntil)
    && Patched(p.startTime, e.startTime, r.startTime)
    && Patched(p.endTime, e.endTime, r.endTime)
    && Patched(p.location, e.location, r.location)
    && Patched(p.lastEventVisibility, e.lastEventVisibility, r.lastEventVisibility)
    && Patched(p.displayStatus, e.displayStatus, r.displayStatus)
    && Patched(p.color, e.color, r.color)
    && Patched(p.isRepeating, e.isRepeating, r.isRepeating)
  }

  /** The copy of `event` with the supplied fields of `p` (the `copy(x = x ?: event.x, ...)` of the store). */
  function ApplyPatch(event: EventAlertRecord, p: EventPatch): (r: EventAlertRecord)
    ensures r.eventId == event.eventId && r.instanceStartTime == event.instanceStartTime
    ensures PatchedFrom(event, p, r)
  {
    event.(
      alertTime := p.alertTime.OrElse(event.alertTime),
      title := p.title.OrElse(event.title),
      snoozedUntil := p.snoozedUntil.OrElse(event.snoozedUntil),
      startTime := p.startTime.OrElse(event.startTime),
      endTime := p.endTime.OrElse(event.endTime),
      location := p.location.OrElse(event.location),
      lastEventVisibility := p.lastEventVisibility.OrElse(event.lastEventVisibility),
      displayStatus := p.displayStatus.OrElse(event.displayStatus),
      color := p.color.OrElse(event.color),
      isRepeating := p.isRepeating.OrElse(event.isRepeating))
  }

  /** The partial update of every record of a list, in order. */
  function ApplyPatchAll(events: seq<EventAlertRecord>, p: EventPatch): (r: seq<EventAlertRecord>)
    ensures |r| == |events|
    ensures forall i :: 0 <= i < |r| ==> r[i] == ApplyPatch(events[i], p)
    decreases |events|
  {
    if events == [] then [] else [ApplyPatch(events[0], p)] + ApplyPatchAll(events[1..], p)
  }

  /** The patch that supplies `q`'s field where `q` does and `p`'s otherwise. */
  function Then(p: EventPatch, q: EventPatch): EventPatch
  {
    EventPatch(
      if q.alertTime.Some? then q.alertTime else p.alertTime,
      if q.title.Some? then q.title else p.title,
      if q.snoozedUntil.Some? then q.snoozedUntil else p.snoozedUntil,
      if q.startTime.Some? then q.startTime else p.startTime,
      if q.endTime.Some? then q.endTime else p.endTime,
      if q.location.Some? then q.location else p.location,
      if q.lastEventVisibility.Some? then q.lastEventVisibility else p.lastEventVisibility,
      if q.displayStatus.Some? then q.displayStatus else p.displayStatus,
      if q.color.Some? then q.color else p.color,
      if q.isRepeating.Some? then q.isRepeating else p.isRepeating)
  }

  /** The partial update is the only record with its key whose fields are patched from the input. */
  lemma ApplyPatchUnique(e: EventAlertRecord, p: EventPatch, r: EventAlertRecord)
    requires KeyOf(r) == KeyOf(e) && PatchedFrom(e, p, r)
    ensures r == ApplyPatch(e, p)
  {
  }

  /** An all-null partial update returns the record unchanged. */
  lemma NoChangeIsIdentity(e: EventAlertRecord)
    ensures ApplyPatch(e, NoChange) == e
  {
  }

  /** Applying the same partial update twice is applying it once. */
  lemma ApplyPatchIdempotent(e: EventAlertRecord, p: EventPatch)
    ensures ApplyPatch(ApplyPatch(e, p), p) == ApplyPatch(e, p)
  {
  }

  /** Two partial updates in a row are one partial update, the later supplied fields winning. */
  lemma ApplyPatchThen(e: EventAlertRecord, p: EventPatch, q: EventPatch)
    ensures ApplyPatch(ApplyPatch(e, p), q) == ApplyPatch(e, Then(p, q))
  {
  }

  /** An all-null list update returns the list unchanged. */
  lemma NoChangeAllIsIdentity(events: seq<EventAlertRecord>)
    ensures ApplyPatchAll(events, NoChange) == events
  {
  }

  /** The list update keeps the key of every record, position by position. */
  lemma ApplyPatchAllKeepsKeys(events: seq<EventAlertRecord>, p: EventPatch)
    ensures forall i :: 0 <= i < |events| ==> KeyOf(ApplyPatchAll(events, p)[i]) == KeyOf(events[i])
  {
  }
}
