/**
 * The tables of one schema version, seen abstractly: the rows of event
 * alert records, keyed by (event id, instance start time), with the
 * operations the storage delegates to each schema's implementation.
 */
module EventTable {
  import opened Wrappers
  import opened EventRecord

  type Table = map<EventKey, EventAlertRecord>

  /** The primary key: every row is stored under its own key. */
  ghost predicate WellKeyed(t: Table)
  {
    forall k :: k in t ==> KeyOf(t[k]) == k
  }

  /** No two records of a list share a key. */
  ghost predicate DistinctKeys(events: seq<EventAlertRecord>)
  {
    forall i, j :: 0 <= i < j < |events| ==> KeyOf(events[i]) != KeyOf(events[j])
  }

  /** The keys of the records of a list. */
  ghost function KeysOf(events: seq<EventAlertRecord>): set<EventKey>
  {
    set e | e in events :: KeyOf(e)
  }

  /** Adds a row; a row with the same key is replaced. */
  function AddRow(t: Table, e: EventAlertRecord): (r: Table)
    ensures r.Keys == t.Keys + {KeyOf(e)}
    ensures r[KeyOf(e)] == e
    ensures forall k :: k in t && k != KeyOf(e) ==> r[k] == t[k]
    ensures WellKeyed(t) ==> WellKeyed(r)
  {
    t[KeyOf(e) := e]
  }

  /** Replaces the row with the record's key; no row is added when there is none. */
  function UpdateRow(t: Table, e: EventAlertRecord): (r: Table)
    ensures r.Keys == t.Keys
    ensures KeyOf(e) in t ==> r[KeyOf(e)] == e
    ensures forall k :: k in t && k != KeyOf(e) ==> r[k] == t[k]
    ensures WellKeyed(t) ==> WellKeyed(r)
  {
    if KeyOf(e) in t then t[KeyOf(e) := e] else t
  }

  /** Replaces the rows of a list of records, one after the other. */
  function UpdateRows(t: Table, events: seq<EventAlertRecord>): (r: Table)
    ensures r.Keys == t.Keys
    ensures WellKeyed(t) ==> WellKeyed(r)
    decreases |events|
  {
    if events == [] then t else UpdateRow(UpdateRows(t, events[..|events| - 1]), events[|events| - 1])
  }

  /** Deletes the row with the given key, if any. */
  function DeleteRow(t: Table, eventId: int, instanceStartTime: int): (r: Table)
    ensures r.Keys == t.Keys - {EventKey(eventId, instanceStartTime)}
    ensures forall k :: k in r ==> r[k] == t[k]
    ensures WellKeyed(t) ==> WellKeyed(r)
  {
    t - {EventKey(eventId, instanceStartTime)}
  }

  /** The row with the given key, or None. */
  function GetRow(t: Table, eventId: int, instanceStartTime: int): (r: Option<EventAlertRecord>)
    requires WellKeyed(t)
    ensures r.Some? <==> EventKey(eventId, instanceStartTime) in t
    ensures r.Some? ==> r.value.eventId == eventId && r.value.instanceStartTime == instanceStartTime
                        && t[KeyOf(r.value)] == r.value
  {
    var k := EventKey(eventId, instanceStartTime);
    if k in t then Some(t[k]) else None
  }

  /** Reads every row of the table, each once. */
  method GetEvents(t: Table) returns (events: seq<EventAlertRecord>)
    requires WellKeyed(t)
    ensures forall e :: e in events ==> KeyOf(e) in t && t[KeyOf(e)] == e
    ensures forall k :: k in t ==> t[k] in events
    ensures DistinctKeys(events)
    ensures t == map[] ==> events == []
  {
    events := [];
    var rest := t.Keys;
    while rest != {}
      invariant rest <= t.Keys
      invariant t == map[] ==> events == []
      invariant forall e :: e in events ==> KeyOf(e) in t.Keys - rest && t[KeyOf(e)] == e
      invariant forall k :: k in t.Keys - rest ==> t[k] in events
      invariant DistinctKeys(events)
      decreases rest
    {
      var k :| k in rest;
      events := events + [t[k]];
      rest := rest - {k};
    }
  }

  /** Reads every row of the table that belongs to the given event, each once. */
  method GetEventInstances(t: Table, eventId: int) returns (events: seq<EventAlertRecord>)
    requires WellKeyed(t)
    ensures forall e :: e in events ==> e.eventId == eventId && KeyOf(e) in t && t[KeyOf(e)] == e
    ensures forall k :: k in t && k.eventId == eventId ==> t[k] in events
    ensures DistinctKeys(events)
  {
    events := [];
    var rest := t.Keys;
    while rest != {}
      invariant rest <= t.Keys
      invariant forall e :: e in events ==> e.eventId == eventId && KeyOf(e) in t.Keys - rest && t[KeyOf(e)] == e
      invariant forall k :: k in t.Keys - rest && k.eventId == eventId ==> t[k] in events
      invariant DistinctKeys(events)
      decreases rest
    {
      var k :| k in rest;
      if k.eventId == eventId {
        events := events + [t[k]];
      }
      rest := rest - {k};
    }
  }

  /**
   * Updating the rows of a list with distinct keys leaves each row that the
   * list names holding its record, and every other row as it was.
   */
  lemma {:induction false} UpdateRowsResult(t: Table, events: seq<EventAlertRecord>)
    requires DistinctKeys(events)
    ensures forall i :: 0 <= i < |events| && KeyOf(events[i]) in t ==> UpdateRows(t, events)[KeyOf(events[i])] == events[i]
    ensures forall k :: k in t && k !in KeysOf(events) ==> UpdateRows(t, events)[k] == t[k]
    decreases |events|
  {
    if events != [] {
      var n := |events| - 1;
      var front := events[..n];
      assert DistinctKeys(front);
      UpdateRowsResult(t, front);
      assert KeysOf(events) == KeysOf(front) + {KeyOf(events[n])} by {
        assert events == front + [events[n]];
      }
      forall i | 0 <= i < |events| && KeyOf(events[i]) in t
        ensures UpdateRows(t, events)[KeyOf(events[i])] == events[i]
      {
        if i < n {
          assert front[i] == events[i];
        }
      }
    }
  }
}
