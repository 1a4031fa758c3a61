# Calendar Notifications: reminder alarm and versioned events storage

A Dafny model of two parts of the Calendar Notifications Android app.

- **The reminder alarm receiver** (`ReminderAlarmGenericBroadcastReceiver`).
  Each time the reminder timer goes off, it works from several inputs:
  - the current time;
  - the reminder settings (interval, regular reminders on or off, maximum number of reminders, the one-shot "remind once when quiet hours end" flag);
  - the end of quiet hours, or 0;
  - the alarm threshold;
  - the persisted global state (last notification fire, last reminder fire, number of reminders fired).

  From these it decides three things: whether to fire a reminder, when to re-arm the timer (0 = not at all), and whether to report the timer as late. A fire then commits the new counters.
  - Module `ReminderAlarm` gives the decision tree as the pure function `Decide`, the commit as `FireCommit`, and one whole wake-up as `Transition`.
  - The class `ReminderAlarmReceiver` holds the persisted fields and the one-shot flag. Its `OnReceive` and `FireReminder` methods follow the source branch by branch, using local variables. They are proved equal to those functions.
  - Calls to the alarm manager and to the application controller are kept, in order, in the `effects` log.
  - `Replay` and `Final` run a series of wake-ups, for properties that span several deliveries.
- **The versioned events storage** (`EventsStorage`). It covers:
  - the choice of schema implementation at construction (`SelectImpl`);
  - the schema upgrade `OnUpgrade`: nothing when the versions are equal; drop and recreate for versions before 6; the V6→V7 copy-and-delete loop (`CopyV6ToV7`), followed by the emptiness check before the V6 tables are dropped; an error for any other pair;
  - the copy-with-defaults partial update of an event record (module `EventRecord`: `ApplyPatch`, `ApplyPatchAll`);
  - the add, update, get and delete operations that the storage passes to the current schema.

  The per-version implementations are abstract keyed tables (module `EventTable`): a map from (event id, instance start time) to the record. A database is the set of schema tables it holds (`tables: map<SchemaVersion, Table>`).

Behaviour of the code worth knowing:

- **Quiet hours.** The code tests `silentUntil != 0` (lines 69 and 99 of `ReminderAlarmBroadcastReceiver.kt`), not `silentUntil > 0`, and so does the model.
- **The first reminder.** With a 1 h interval, nothing fired yet (`lastFireTime = 0`) and `now = 1 000 000`, the time since the last fire is measured from 0. The code takes the early branch for every threshold below 2 600 000 ms: no fire, re-armed at 3 600 000 (`FirstReminderScenario`).
- **No drift in the early branch.** The early branch re-arms at `now + (interval − sinceLastFire)`, which equals `lastFireTime + interval` (`EarlyWakeup`). Repeated early wake-ups therefore do not push the schedule later.

## Model

| member | source | states |
|---|---|---|
| `ReminderAlarm.Decide` | app/src/main/java/com/github/quarck/calnotify/broadcastreceivers/ReminderAlarmBroadcastReceiver.kt:52-129 | without active events nothing happens; a fire happens only with active events outside quiet hours; a regular fire needs reminders on and budget left, and re-arms one interval later; a late report comes only with a fire, after an earlier fire, beyond interval + threshold, and carries (since last fire, interval, last fire) |
| `ReminderAlarm.Max` | app/src/main/java/com/github/quarck/calnotify/broadcastreceivers/ReminderAlarmBroadcastReceiver.kt:87-88 | the last fire time is the larger of the notification and reminder fire times |
| `ReminderAlarm.FireCommit` | app/src/main/java/com/github/quarck/calnotify/broadcastreceivers/ReminderAlarmBroadcastReceiver.kt:147-161 | a fire clears the one-shot flag (counter unchanged) or, with no one-shot pending, bumps the counter by one; the reminder fire time becomes now; notification fire time and receive time are untouched |
| `ReminderAlarm.Transition` | app/src/main/java/com/github/quarck/calnotify/broadcastreceivers/ReminderAlarmBroadcastReceiver.kt:48-161 | one wake-up stamps the receive time, keeps the notification fire time, raises the fire counter by at most one and never lowers it, never sets a cleared one-shot flag, and leaves the reminder fire time as it was or sets it to now |
| `ReminderAlarm.Effects` | app/src/main/java/com/github/quarck/calnotify/broadcastreceivers/ReminderAlarmBroadcastReceiver.kt:121-143 | a wake-up calls nothing but the late report it decided, the arming at its `nextFireAt` and the reminder fire, and a fire is the last call |
| `ReminderAlarm.ReminderAlarmReceiver.OnReceive` | app/src/main/java/com/github/quarck/calnotify/broadcastreceivers/ReminderAlarmBroadcastReceiver.kt:40-145 | the outputs (nextFireAt, shouldFire, late reported) are those of `Decide`; the new persisted state is `Transition` of the old one; the late report, the arming and the fire are recorded in that order |
| `ReminderAlarm.ReminderAlarmReceiver.FireReminder` | app/src/main/java/com/github/quarck/calnotify/broadcastreceivers/ReminderAlarmBroadcastReceiver.kt:147-161 | fires the reminder and leaves the persisted state equal to `FireCommit` of the old state |
| `ReminderAlarm.NoActiveEventsNoAction` | app/src/main/java/com/github/quarck/calnotify/broadcastreceivers/ReminderAlarmBroadcastReceiver.kt:48-55 | with no active events: no re-arm, no fire, no call; only the receive time is written |
| `ReminderAlarm.OneShotFiresOutsideQuietHours` | app/src/main/java/com/github/quarck/calnotify/broadcastreceivers/ReminderAlarmBroadcastReceiver.kt:67-79 | one-shot outside quiet hours fires whatever the counter, is never late, and re-arms at now + interval exactly when regular reminders are on (else 0) |
| `ReminderAlarm.QuietHoursDeferral` | app/src/main/java/com/github/quarck/calnotify/broadcastreceivers/ReminderAlarmBroadcastReceiver.kt:80-101 | inside quiet hours, on the one-shot path or on the regular path with budget left: no fire, re-armed at the end of quiet hours |
| `ReminderAlarm.BudgetExhausted` | app/src/main/java/com/github/quarck/calnotify/broadcastreceivers/ReminderAlarmBroadcastReceiver.kt:92-126 | with no one-shot pending, a non-zero maximum and more fires than the maximum: no fire, no re-arm, state untouched but the receive time |
| `ReminderAlarm.EarlyWakeup` | app/src/main/java/com/github/quarck/calnotify/broadcastreceivers/ReminderAlarmBroadcastReceiver.kt:87-108 | an early wake-up does not fire and re-arms at exactly last fire + interval, strictly after now when the threshold is not negative |
| `ReminderAlarm.OnTimeOrLateWakeup` | app/src/main/java/com/github/quarck/calnotify/broadcastreceivers/ReminderAlarmBroadcastReceiver.kt:109-122 | otherwise it fires and re-arms at now + interval, and reports late if and only if since last fire > interval + threshold and last fire > 0 |
| `ReminderAlarm.RemindersDisabled` | app/src/main/java/com/github/quarck/calnotify/broadcastreceivers/ReminderAlarmBroadcastReceiver.kt:127-129 | regular reminders off and no one-shot: no fire and no re-arm |
| `ReminderAlarm.ArmingOrder` | app/src/main/java/com/github/quarck/calnotify/broadcastreceivers/ReminderAlarmBroadcastReceiver.kt:115-143 | the alarm is armed if and only if nextFireAt is not 0, the reminder fires if and only if shouldFire, the arming comes right before the fire and a late report comes first |
| `ReminderAlarm.TransitionCommitsFire` | app/src/main/java/com/github/quarck/calnotify/broadcastreceivers/ReminderAlarmBroadcastReceiver.kt:142-161 | a wake-up always stamps the receive time; it commits a fire exactly when it decides to fire, and otherwise changes nothing else |
| `ReminderAlarm.DriftCorrection` | app/src/main/java/com/github/quarck/calnotify/broadcastreceivers/ReminderAlarmBroadcastReceiver.kt:87-122 | one millisecond past interval + threshold after an earlier fire: fires and reports late; one millisecond before interval − threshold: no fire, re-armed at last fire + interval |
| `ReminderAlarm.FirstReminderScenario` | app/src/main/java/com/github/quarck/calnotify/broadcastreceivers/ReminderAlarmBroadcastReceiver.kt:87-108 | never fired, interval 1 h, woken at 1 000 000 with a threshold below 2 600 000: early, re-armed at 3 600 000 |
| `ReminderAlarm.NeverFiredNeverLate` | app/src/main/java/com/github/quarck/calnotify/broadcastreceivers/ReminderAlarmBroadcastReceiver.kt:115 | a late report never happens while the last fire time is 0 |
| `ReminderAlarm.BudgetExhaustionPersists` | app/src/main/java/com/github/quarck/calnotify/broadcastreceivers/ReminderAlarmBroadcastReceiver.kt:92-126 | once the budget is exhausted with no one-shot pending, every later wake-up (same maximum) neither fires nor re-arms, and the counter stays put |
| `ReminderAlarm.FireCounterMonotone` | app/src/main/java/com/github/quarck/calnotify/broadcastreceivers/ReminderAlarmBroadcastReceiver.kt:147-161 | over any series of wake-ups the fire counter never decreases, grows by at most one per wake-up, and a cleared one-shot flag stays cleared |
| `EventRecord.ApplyPatch` | app/src/main/java/com/github/quarck/calnotify/eventsstorage/EventsStorage.kt:114-126 | event id and instance start time are kept; every field is the supplied argument when non-null and the original field otherwise |
| `EventRecord.ApplyPatchAll` | app/src/main/java/com/github/quarck/calnotify/eventsstorage/EventsStorage.kt:146-160 | same length and order; element i is the single-record partial update of input i |
| `EventRecord.ApplyPatchUnique` | app/src/main/java/com/github/quarck/calnotify/eventsstorage/EventsStorage.kt:114-126 | the field-by-field description determines the partial update: any record with the same key patched that way is it |
| `EventRecord.NoChangeIsIdentity` | app/src/main/java/com/github/quarck/calnotify/eventsstorage/EventsStorage.kt:114-126 | an all-null partial update returns a record equal to the input |
| `EventRecord.ApplyPatchIdempotent` | app/src/main/java/com/github/quarck/calnotify/eventsstorage/EventsStorage.kt:114-126 | repeating a partial update changes nothing more |
| `EventRecord.ApplyPatchThen` | app/src/main/java/com/github/quarck/calnotify/eventsstorage/EventsStorage.kt:114-126 | two partial updates in a row equal one whose later supplied fields win |
| `EventRecord.NoChangeAllIsIdentity` | app/src/main/java/com/github/quarck/calnotify/eventsstorage/EventsStorage.kt:146-160 | an all-null list update returns the list unchanged |
| `EventRecord.ApplyPatchAllKeepsKeys` | app/src/main/java/com/github/quarck/calnotify/eventsstorage/EventsStorage.kt:146-160 | the list update keeps every record's key at its position |
| `EventTable.AddRow` | app/src/main/java/com/github/quarck/calnotify/eventsstorage/EventsStorage.kt:99-100 | adding a record stores it under its key, keeps every other row, and keeps rows stored under their own keys |
| `EventTable.UpdateRow` | app/src/main/java/com/github/quarck/calnotify/eventsstorage/EventsStorage.kt:168-169 | a full update replaces the row with the record's key if there is one, adds no key and keeps other rows |
| `EventTable.UpdateRows` | app/src/main/java/com/github/quarck/calnotify/eventsstorage/EventsStorage.kt:171-172 | a list update keeps the set of keys and the primary-key property |
| `EventTable.UpdateRowsResult` | app/src/main/java/com/github/quarck/calnotify/eventsstorage/EventsStorage.kt:171-172 | for a list with distinct keys, each existing row it names ends holding its record and all other rows are unchanged |
| `EventTable.DeleteRow` | app/src/main/java/com/github/quarck/calnotify/eventsstorage/EventsStorage.kt:180-181 | deleting removes exactly the given key and keeps every other row |
| `EventTable.GetRow` | app/src/main/java/com/github/quarck/calnotify/eventsstorage/EventsStorage.kt:174-175 | the lookup finds a record exactly when the key is stored, and the record found carries that key |
| `EventTable.GetEvents` | app/src/main/java/com/github/quarck/calnotify/eventsstorage/EventsStorage.kt:187-188 | reading all rows returns every stored record once and nothing else; an empty table reads as empty |
| `EventTable.GetEventInstances` | app/src/main/java/com/github/quarck/calnotify/eventsstorage/EventsStorage.kt:177-178 | reading an event's instances returns every stored record of that event once and nothing else |
| `EventsStorage.SelectImpl` | app/src/main/java/com/github/quarck/calnotify/eventsstorage/EventsStorage.kt:35-46 | versions 6 and 7 select the implementation of that version; any other version is the "not supported" error |
| `EventsStorage.CurrentVersionSelectsV7` | app/src/main/java/com/github/quarck/calnotify/eventsstorage/EventsStorage.kt:197-199 | the current version, 7, selects the V7 implementation |
| `EventsStorage.EventsStorage.constructor` | app/src/main/java/com/github/quarck/calnotify/eventsstorage/EventsStorage.kt:35-46 | construction picks the V7 implementation and leaves the database as it is |
| `EventsStorage.Created` | app/src/main/java/com/github/quarck/calnotify/eventsstorage/EventsStorage.kt:48-49 | creating a schema's tables adds them empty when missing and keeps every existing table |
| `EventsStorage.MigratedV6ToV7` | app/src/main/java/com/github/quarck/calnotify/eventsstorage/EventsStorage.kt:61-90 | after the V6→V7 step the V6 tables are gone, the V7 tables exist, and every V6 record is in V7 with the same fields |
| `EventsStorage.MigrationKeepsEveryEvent` | app/src/main/java/com/github/quarck/calnotify/eventsstorage/EventsStorage.kt:61-90 | after the V6→V7 step only the V7 tables remain; every V6 record is in V7 with the same fields; V7 holds nothing else but its own earlier rows; into fresh V7 tables it is exactly the V6 records |
| `EventsStorage.EventsStorage.OnUpgrade` | app/src/main/java/com/github/quarck/calnotify/eventsstorage/EventsStorage.kt:51-96 | equal versions: nothing changes. Old version below 6: V6 tables dropped, current schema created. 6→7: V6 rows copied into V7 and V6 dropped, or the rethrown error when the V6 tables are missing. Any other pair: "upgrade not supported" with nothing changed |
| `EventsStorage.EventsStorage.CopyV6ToV7` | app/src/main/java/com/github/quarck/calnotify/eventsstorage/EventsStorage.kt:68-78 | when the records read cover the V6 table, adding each to V7 and deleting it from V6 leaves V6 empty and V7 = old V7 overwritten by the V6 rows |
| `EventsStorage.EventsStorage.CreateDb` | app/src/main/java/com/github/quarck/calnotify/eventsstorage/EventsStorage.kt:48-49 | creating a schema's tables (`impl.createDb`, also at lines 59 and 66) leaves the database equal to `Created` of the old one: empty tables when missing, existing tables kept |
| `EventsStorage.EventsStorage.DropAll` | app/src/main/java/com/github/quarck/calnotify/eventsstorage/EventsStorage.kt:58 | dropping a schema's tables (`dropAll`, also at line 82) removes exactly that schema from the database |
| `EventsStorage.EventsStorage.AddEventImpl` | app/src/main/java/com/github/quarck/calnotify/eventsstorage/EventsStorage.kt:74 | the copy step's add writes `AddRow` of the record into the given schema's table and changes nothing else |
| `EventsStorage.EventsStorage.DeleteEventImpl` | app/src/main/java/com/github/quarck/calnotify/eventsstorage/EventsStorage.kt:75 | the copy step's delete turns the given schema's table into `DeleteRow` by event id and instance start time and changes nothing else |
| `EventsStorage.EventsStorage.GetEventsImpl` | app/src/main/java/com/github/quarck/calnotify/eventsstorage/EventsStorage.kt:69 | reading a schema's rows throws when its tables are missing, and otherwise returns every row once; empty tables read as empty (the check at line 80) |
| `EventsStorage.EventsStorage.AddEvent` | app/src/main/java/com/github/quarck/calnotify/eventsstorage/EventsStorage.kt:99-100 | adds the record to the current schema's table and nothing else |
| `EventsStorage.EventsStorage.UpdateEventFields` | app/src/main/java/com/github/quarck/calnotify/eventsstorage/EventsStorage.kt:102-131 | the returned record is the partial update of the input, and it is the record written over its row |
| `EventsStorage.EventsStorage.UpdateEventsFields` | app/src/main/java/com/github/quarck/calnotify/eventsstorage/EventsStorage.kt:133-163 | the partial updates of the list, in order, are the records written |
| `EventsStorage.EventsStorage.UpdateEvent` | app/src/main/java/com/github/quarck/calnotify/eventsstorage/EventsStorage.kt:168-169 | the current schema's row with the record's key is replaced |
| `EventsStorage.EventsStorage.UpdateEvents` | app/src/main/java/com/github/quarck/calnotify/eventsstorage/EventsStorage.kt:171-172 | the current schema's rows are replaced record by record |
| `EventsStorage.EventsStorage.GetEvent` | app/src/main/java/com/github/quarck/calnotify/eventsstorage/EventsStorage.kt:174-175 | returns the stored record of that key, or null exactly when the key is not stored |
| `EventsStorage.EventsStorage.GetEventInstances` | app/src/main/java/com/github/quarck/calnotify/eventsstorage/EventsStorage.kt:177-178 | returns every stored instance of the event once, and nothing else |
| `EventsStorage.EventsStorage.DeleteEvent` | app/src/main/java/com/github/quarck/calnotify/eventsstorage/EventsStorage.kt:180-181 | removes the row of that key from the current schema's table |
| `EventsStorage.EventsStorage.DeleteEventRecord` | app/src/main/java/com/github/quarck/calnotify/eventsstorage/EventsStorage.kt:183-185 | removes the record's key, the same change as deleting by its event id and instance start time |
| `EventsStorage.EventsStorage.Events` | app/src/main/java/com/github/quarck/calnotify/eventsstorage/EventsStorage.kt:187-188 | returns every stored record once, and nothing else |

## Left out

- The `context == null || intent == null` early return (lines 44-46 of the receiver) is not modelled. It is Android nullability; the platform always passes both.
- Wake locks and the `synchronized` storage lock are not modelled: each call is one sequential step.
- Logging is not modelled.
- Clock readings are parameters. `receivedAt` is the reading stored as the last broadcast time; `now` is the one the decision uses.
- The quiet-hours answer, "has active events", the alarm threshold constant and the settings are all inputs.
- Arming the alarm, firing the reminder and the late report are recorded calls in `effects`. Their own behaviour is not part of this model.
- Kotlin `Long` and `Int` overflow is not modelled; times, counters and colours are unbounded integers.
- `EventDisplayStatus` is carried as an opaque code. Its enumeration is not part of this model.
- Fields of `EventAlertRecord` other than the two key fields and the ten the partial update names are not part of this model.
- The schema implementations `EventsStorageImplV6` / `EventsStorageImplV7` are not part of this model. Their tables are abstract maps:
  - an add replaces a row with the same key;
  - an update replaces an existing row and adds none;
  - creating tables keeps tables already present;
  - the order of the records a read returns is not modelled.
- `updateEventAndInstanceTimes` (lines 165-166) is left out. It changes a record's key, and the implementation that does so is not part of this model.
- `close()`, the `SQLiteOpenHelper` machinery that decides when `onCreate` / `onUpgrade` run, and the rollback of a failed upgrade's transaction are not modelled.
- The store operations require the current schema's tables to exist. Opening the database (create or upgrade) guarantees that before any operation.
- `EventsStorage.EventsStorage.OnUpgrade`: under the abstract tables' semantics (delete removes the key), the re-read of V6 after the copy is always empty. The "events are still in the old version" error is therefore modelled in the code but can never be returned.
