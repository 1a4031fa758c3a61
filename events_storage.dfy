/**
 * The versioned events storage: it picks the schema implementation of the
 * current database version when it is constructed, upgrades the tables of an
 * older database (dropping a too-old one, copying V6 rows into V7), and
 * delegates every add, update, read and delete to the current schema's table.
 *
 * The database is the set of schema tables it holds: `tables` maps each
 * schema version whose tables exist to their rows.
 */
module EventsStorage {
  import opened Wrappers
  import opened EventRecord
  import opened EventTable

  const DATABASE_VERSION_V6 := 6
  const DATABASE_VERSION_V7 := 7
  const DATABASE_CURRENT_VERSION := DATABASE_VERSION_V7

  /** The schema implementations. */
  datatype SchemaVersion = V6 | V7

  /** The exceptions the storage throws. */
  datatype StorageError =
    | VersionNotSupported(version: int)                       // at construction
    | TableMissing(schema: SchemaVersion)                     // reading tables the database does not hold
    | EventsLeftInOldTables                                   // V6 rows left after the copy to V7
    | UpgradeNotSupported(oldVersion: int, newVersion: int)   // no upgrade path

  function VersionNumber(v: SchemaVersion): int
  {
    match v
    case V6 => DATABASE_VERSION_V6
    case V7 => DATABASE_VERSION_V7
  }

  /** The version dispatch of the constructor. */
  function SelectImpl(version: int): (r: Result<SchemaVersion, StorageError>)
    ensures r.Success? <==> version == DATABASE_VERSION_V6 || version == DATABASE_VERSION_V7
    ensures r.Success? ==> VersionNumber(r.value) == version
    ensures r.Failure? ==> r.error == VersionNotSupported(version)
  {
    if version == DATABASE_VERSION_V6 then Success(V6)
    else if version == DATABASE_VERSION_V7 then Success(V7)
    else Failure(VersionNotSupported(version))
  }

  /** The current version selects the V7 implementation. */
  lemma CurrentVersionSelectsV7()
    ensures SelectImpl(DATABASE_CURRENT_VERSION) == Success(V7)
  {
  }

  /** The database after creating the tables of schema `v`: empty tables when they were missing. */
  function Created(tables: map<SchemaVersion, Table>, v: SchemaVersion): (r: map<SchemaVersion, Table>)
    ensures r.Keys == tables.Keys + {v}
    ensures v !in tables ==> r[v] == map[]
    ensures forall u :: u in tables ==> r[u] == tables[u]
  {
    if v in tables then tables else tables[v := map[]]
  }

  /** The rows of `t` whose keys are in `keys`. */
  ghost function Restrict(t: Table, keys: set<EventKey>): Table
  {
    map k | k in t && k in keys :: t[k]
  }

  /** The database after a successful V6 to V7 step: V6 rows copied over V7, V6 tables gone. */
  function MigratedV6ToV7(tables: map<SchemaVersion, Table>): (r: map<SchemaVersion, Table>)
    requires V6 in tables
    ensures V6 !in r && V7 in r
    ensures forall k :: k in tables[V6] ==> k in r[V7] && r[V7][k] == tables[V6][k]
  {
    var created := Created(tables, V7);
    created[V7 := created[V7] + tables[V6]] - {V6}
  }

  /**
   * The V6 to V7 step loses no event: every V6 row is in V7 with the same
   * fields, and when V7 was fresh it holds exactly the V6 rows.
   */
  lemma MigrationKeepsEveryEvent(tables: map<SchemaVersion, Table>)
    requires V6 in tables
    ensures var r := MigratedV6ToV7(tables);
            && r.Keys == {V7}
            && (forall k :: k in tables[V6] ==> k in r[V7] && r[V7][k] == tables[V6][k])
            && (forall k :: k in r[V7] ==> k in tables[V6] || (V7 in tables && k in tables[V7]))
            && (V7 !in tables ==> r[V7] == tables[V6])
  {
    var r := MigratedV6ToV7(tables);
    forall v | v in r
      ensures v == V7
    {
    }
  }

  lemma KeysOfPrefix(events: seq<EventAlertRecord>, i: int)
    requires 0 <= i < |events|
    ensures KeysOf(events[..i + 1]) == KeysOf(events[..i]) + {KeyOf(events[i])}
  {
    assert events[..i + 1] == events[..i] + [events[i]];
  }

  /** Before the copy loop nothing has moved. */
  lemma CopyStart(v6: Table, v7: Table, events: seq<EventAlertRecord>)
    ensures v6 - KeysOf(events[..0]) == v6
    ensures v7 + Restrict(v6, KeysOf(events[..0])) == v7
  {
    assert KeysOf(events[..0]) == {};
  }

  /** When the records read cover the V6 table, the copy loop has moved all of it. */
  lemma CopyDone(v6: Table, events: seq<EventAlertRecord>)
    requires WellKeyed(v6)
    requires forall e :: e in events ==> KeyOf(e) in v6
    requires forall k :: k in v6 ==> v6[k] in events
    ensures events[..|events|] == events
    ensures v6 - KeysOf(events) == map[]
    ensures Restrict(v6, KeysOf(events)) == v6
  {
    assert KeysOf(events) == v6.Keys by {
      forall k | k in v6
        ensures k in KeysOf(events)
      {
        assert v6[k] in events;
      }
    }
  }

  /** One turn of the copy loop moves the row of one more key from V6 to V7. */
  lemma CopyStep(v6: Table, v7: Table, done: set<EventKey>, event: EventAlertRecord)
    requires KeyOf(event) in v6 && v6[KeyOf(event)] == event
    ensures AddRow(v7 + Restrict(v6, done), event) == v7 + Restrict(v6, done + {KeyOf(event)})
    ensures DeleteRow(v6 - done, event.eventId, event.instanceStartTime) == v6 - (done + {KeyOf(event)})
  {
  }

  class EventsStorage {
    /** The schema implementation chosen at construction. */
    const impl: SchemaVersion
    /** The tables the database holds, by the schema they belong to. */
    var tables: map<SchemaVersion, Table>

    ghost predicate Valid()
      reads this
    {
      && SelectImpl(DATABASE_CURRENT_VERSION) == Success(impl)
      && forall v :: v in tables ==> WellKeyed(tables[v])
    }

    constructor (database: map<SchemaVersion, Table>)
      requires forall v :: v in database ==> WellKeyed(database[v])
      ensures Valid() && impl == V7 && tables == database
    {
      var selected := SelectImpl(DATABASE_CURRENT_VERSION);
      impl := selected.value;
      tables := database;
    }

    // -------------------------------------------------------------------------
    // The schema-level operations of one version's implementation

    /** Creates the tables of schema `v` when they are missing. */
    method CreateDb(v: SchemaVersion)
      requires Valid()
      modifies this
      ensures Valid() && tables == Created(old(tables), v)
    {
      if v !in tables {
        tables := tables[v := map[]];
      }
    }

    /** Drops the tables of schema `v`. */
    method DropAll(v: SchemaVersion)
      requires Valid()
      modifies this
      ensures Valid() && tables == old(tables) - {v}
    {
      tables := tables - {v};
    }

    method AddEventImpl(v: SchemaVersion, event: EventAlertRecord)
      requires Valid() && v in tables
      modifies this
      ensures Valid() && tables == old(tables)[v := AddRow(old(tables)[v], event)]
    {
      tables := tables[v := AddRow(tables[v], event)];
    }

    method DeleteEventImpl(v: SchemaVersion, eventId: int, instanceStartTime: int)
      requires Valid() && v in tables
      modifies this
      ensures Valid() && tables == old(tables)[v := DeleteRow(old(tables)[v], eventId, instanceStartTime)]
    {
      tables := tables[v := DeleteRow(tables[v], eventId, instanceStartTime)];
    }

    /** Reads every row of schema `v`; reading tables the database does not hold throws. */
    method GetEventsImpl(v: SchemaVersion) returns (r: Result<seq<EventAlertRecord>, StorageError>)
      requires Valid()
      ensures v !in tables ==> r == Failure(TableMissing(v))
      ensures v in tables ==> r.Success?
      ensures v in tables && tables[v] == map[] ==> r == Success([])
      ensures r.Success? ==>
                && (forall e :: e in r.value ==> KeyOf(e) in tables[v] && tables[v][KeyOf(e)] == e)
                && (forall k :: k in tables[v] ==> tables[v][k] in r.value)
                && DistinctKeys(r.value)
    {
      if v !in tables {
        return Failure(TableMissing(v));
      }
      var events := GetEvents(tables[v]);
      return Success(events);
    }

    /**
     * The copy loop of the V6 to V7 step: each V6 record read is added to V7
     * and then deleted from V6 by its key.
     */
    method CopyV6ToV7(events: seq<EventAlertRecord>)
      requires Valid() && impl == V7 && V6 in tables && V7 in tables
      requires forall e :: e in events ==> KeyOf(e) in tables[V6] && tables[V6][KeyOf(e)] == e
      requires forall k :: k in tables[V6] ==> tables[V6][k] in events
      modifies this
      ensures Valid()
      ensures tables == old(tables)[V6 := map[]][V7 := old(tables)[V7] + old(tables)[V6]]
    {
      ghost var start := tables;
      ghost var v6 := tables[V6];
      ghost var v7 := tables[V7];
      var i := 0;
      CopyStart(v6, v7, events);
      while i < |events|
        invariant 0 <= i <= |events|
        invariant Valid()
        invariant tables == start[V6 := v6 - KeysOf(events[..i])][V7 := v7 + Restrict(v6, KeysOf(events[..i]))]
      {
        var event := events[i];
        KeysOfPrefix(events, i);
        CopyStep(v6, v7, KeysOf(events[..i]), event);
        AddEventImpl(impl, event);
        DeleteEventImpl(V6, event.eventId, event.instanceStartTime);
        i := i + 1;
      }
      CopyDone(v6, events);
    }

    // -------------------------------------------------------------------------
    // Upgrade

    /** Upgrades the tables of a database at `oldVersion` to `newVersion`. */
    method OnUpgrade(oldVersion: int, newVersion: int) returns (outcome: Outcome<StorageError>)
      requires Valid()
      modifies this
      ensures Valid()
      ensures oldVersion == newVersion ==> outcome == Pass && tables == old(tables)
      ensures oldVersion != newVersion && oldVersion < DATABASE_VERSION_V6 ==>
                outcome == Pass && tables == Created(old(tables) - {V6}, impl)
      ensures oldVersion == DATABASE_VERSION_V6 && newVersion == DATABASE_VERSION_V7 ==>
                if V6 in old(tables)
                then outcome == Pass && tables == MigratedV6ToV7(old(tables))
                else outcome == Fail(TableMissing(V6)) && tables == Created(old(tables), V7)
      ensures oldVersion != newVersion && oldVersion >= DATABASE_VERSION_V6
              && !(oldVersion == DATABASE_VERSION_V6 && newVersion == DATABASE_VERSION_V7) ==>
                outcome == Fail(UpgradeNotSupported(oldVersion, newVersion)) && tables == old(tables)
    {
      if oldVersion != newVersion {
        if oldVersion < DATABASE_VERSION_V6 {
          DropAll(V6);
          CreateDb(impl);
        } else if oldVersion == DATABASE_VERSION_V6 && newVersion == DATABASE_VERSION_V7 {
          CreateDb(impl);
          var read := GetEventsImpl(V6);
          if read.Failure? {
            return Fail(read.error);
          }
          var events := read.value;
          CopyV6ToV7(events);

          var remaining := GetEventsImpl(V6);
          if remaining.Success? && remaining.value == [] {
            DropAll(V6);
          } else {
            return Fail(EventsLeftInOldTables);
          }
        } else {
          return Fail(UpgradeNotSupported(oldVersion, newVersion));
        }
      }
      return Pass;
    }

    // -------------------------------------------------------------------------
    // The storage operations, delegated to the current schema

    method AddEvent(event: EventAlertRecord)
      requires Valid() && impl in tables
      modifies this
      ensures Valid() && tables == old(tables)[impl := AddRow(old(tables)[impl], event)]
    {
      AddEventImpl(impl, event);
    }

    /** Writes a whole record over the row with its key. */
    method UpdateEvent(event: EventAlertRecord)
      requires Valid() && impl in tables
      modifies this
      ensures Valid() && tables == old(tables)[impl := UpdateRow(old(tables)[impl], event)]
    {
      tables := tables[impl := UpdateRow(tables[impl], event)];
    }

    /** Writes whole records over the rows with their keys, one after the other. */
    method UpdateEvents(events: seq<EventAlertRecord>)
      requires Valid() && impl in tables
      modifies this
      ensures Valid() && tables == old(tables)[impl := UpdateRows(old(tables)[impl], events)]
    {
      tables := tables[impl := UpdateRows(tables[impl], events)];
    }

    /** The partial update of one record: the patched copy is written and returned. */
    method UpdateEventFields(event: EventAlertRecord, patch: EventPatch) returns (newEvent: EventAlertRecord)
      requires Valid() && impl in tables
      modifies this
      ensures newEvent == ApplyPatch(event, patch)
      ensures Valid() && tables == old(tables)[impl := UpdateRow(old(tables)[impl], newEvent)]
    {
      newEvent := ApplyPatch(event, patch);
      UpdateEvent(newEvent);
    }

    /** The partial update of a list of records: every patched copy is written, in order. */
    method UpdateEventsFields(events: seq<EventAlertRecord>, patch: EventPatch)
      requires Valid() && impl in tables
      modifies this
      ensures Valid() && tables == old(tables)[impl := UpdateRows(old(tables)[impl], ApplyPatchAll(events, patch))]
    {
      var newEvents := ApplyPatchAll(events, patch);
      UpdateEvents(newEvents);
    }

    method GetEvent(eventId: int, instanceStartTime: int) returns (r: Option<EventAlertRecord>)
      requires Valid() && impl in tables
      ensures r.Some? <==> EventKey(eventId, instanceStartTime) in tables[impl]
      ensures r.Some? ==> r.value == tables[impl][EventKey(eventId, instanceStartTime)]
                          && r.value.eventId == eventId && r.value.instanceStartTime == instanceStartTime
    {
      r := GetRow(tables[impl], eventId, instanceStartTime);
    }

    method GetEventInstances(eventId: int) returns (events: seq<EventAlertRecord>)
      requires Valid() && impl in tables
      ensures forall e :: e in events ==> e.eventId == eventId && KeyOf(e) in tables[impl] && tables[impl][KeyOf(e)] == e
      ensures forall k :: k in tables[impl] && k.eventId == eventId ==> tables[impl][k] in events
      ensures DistinctKeys(events)
    {
      events := EventTable.GetEventInstances(tables[impl], eventId);
    }

    method DeleteEvent(eventId: int, instanceStartTime: int)
      requires Valid() && impl in tables
      modifies this
      ensures Valid() && tables == old(tables)[impl := DeleteRow(old(tables)[impl], eventId, instanceStartTime)]
    {
      DeleteEventImpl(impl, eventId, instanceStartTime);
    }

    /** Deletes the row of a record: the same row as deleting by its event id and instance start time. */
    method DeleteEventRecord(ev: EventAlertRecord)
      requires Valid() && impl in tables
      modifies this
      ensures Valid() && tables == old(tables)[impl := old(tables)[impl] - {KeyOf(ev)}]
      ensures tables == old(tables)[impl := DeleteRow(old(tables)[impl], ev.eventId, ev.instanceStartTime)]
    {
      DeleteEventImpl(impl, ev.eventId, ev.instanceStartTime);
    }

    /** Every stored event, each once. */
    method Events() returns (events: seq<EventAlertRecord>)
      requires Valid() && impl in tables
      ensures forall e :: e in events ==> KeyOf(e) in tables[impl] && tables[impl][KeyOf(e)] == e
      ensures forall k :: k in tables[impl] ==> tables[impl][k] in events
      ensures DistinctKeys(events)
    {
      events := GetEvents(tables[impl]);
    }
  }
}
