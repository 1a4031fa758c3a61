/**
 * The reminder alarm receiver: every time the reminder timer goes off it
 * decides whether to fire a reminder now, when to re-arm the timer, and
 * whether the timer was delivered abnormally late; on a fire it commits the
 * new reminder counters.
 *
 * `Decide`, `FireCommit` and `Transition` are the specification, as pure
 * functions of the persisted state and the inputs of one wake-up; the class
 * `ReminderAlarmReceiver` is the imperative receiver, proved to follow them.
 */
module ReminderAlarm {
  import opened Wrappers

  /** The reminder settings the receiver reads. The interval is not checked for positivity by the code. */
  datatype ReminderSettings = ReminderSettings(
    remindersIntervalMillis: int,
    remindersEnabled: bool,
    maxNumberOfReminders: int)  // 0 means unlimited

  /**
   * The persisted state the receiver reads and writes: the four fields of the
   * global state and the self-clearing one-shot flag of the settings.
   */
  datatype SchedulerState = SchedulerState(
    lastTimerBroadcastReceived: int,
    notificationLastFireTime: int,
    reminderLastFireTime: int,
    numRemindersFired: int,
    quietHoursOneTimeReminderEnabled: bool)

  /** The inputs of one delivery of the reminder timer. */
  datatype Wakeup = Wakeup(
    receivedAt: int,          // clock reading taken when the broadcast arrives
    hasActiveEvents: bool,    // answer of the application controller
    now: int,                 // clock reading the decision is based on
    silentUntil: int,         // quiet-hours answer: 0, or when quiet hours end
    settings: ReminderSettings,
    alarmThreshold: int)      // slack that separates early, on-time and late

  /** The arguments of the "reminder alarm is late" report. */
  datatype LateReport = LateReport(sinceLastFire: int, reminderInterval: int, lastFireTime: int)

  /** What one wake-up decides: 0 for `nextFireAt` means "do not re-arm". */
  datatype Decision = Decision(nextFireAt: int, shouldFire: bool, late: Option<LateReport>)

  /** A call into a collaborator: the late report, arming the alarm, firing the reminder. */
  datatype Effect = AlarmLate(report: LateReport) | AlarmArmed(at: int) | ReminderFired

  const NoAction := Decision(0, false, None)

  function Max(a: int, b: int): (r: int)
    ensures r >= a && r >= b
    ensures r == a || r == b
  {
    if a >= b then a else b
  }

  /** The most recent fire of either a notification or a reminder. */
  function LastFireTime(st: SchedulerState): int
  {
    Max(st.notificationLastFireTime, st.reminderLastFireTime)
  }

  /** The repeat budget: 0 is unlimited, otherwise the counter may reach the maximum and still fire. */
  predicate BudgetLeft(st: SchedulerState, s: ReminderSettings)
  {
    s.maxNumberOfReminders == 0 || st.numRemindersFired <= s.maxNumberOfReminders
  }

  /** The decision tree of the receiver, first matching branch wins. */
  function Decide(st: SchedulerState, w: Wakeup): (d: Decision)
    ensures !w.hasActiveEvents ==> d == NoAction
    ensures d.shouldFire ==> w.hasActiveEvents && w.silentUntil == 0
    ensures d.shouldFire && !st.quietHoursOneTimeReminderEnabled ==>
              w.settings.remindersEnabled && BudgetLeft(st, w.settings)
              && d.nextFireAt == w.now + w.settings.remindersIntervalMillis
    ensures d.late.Some? ==>
              && d.shouldFire
              && d.late.value == LateReport(w.now - LastFireTime(st), w.settings.remindersIntervalMillis, LastFireTime(st))
              && d.late.value.lastFireTime > 0
              && d.late.value.sinceLastFire > d.late.value.reminderInterval + w.alarmThreshold
  {
    var interval := w.settings.remindersIntervalMillis;
    if !w.hasActiveEvents then
      NoAction
    else if st.quietHoursOneTimeReminderEnabled then
      if w.silentUntil == 0 then
        Decision(if w.settings.remindersEnabled then w.now + interval else 0, true, None)
      else
        Decision(w.silentUntil, false, None)
    else if w.settings.remindersEnabled then
      var lastFireTime := LastFireTime(st);
      var sinceLastFire := w.now - lastFireTime;
      if !BudgetLeft(st, w.settings) then
        NoAction
      else if w.silentUntil != 0 then
        Decision(w.silentUntil, false, None)
      else if sinceLastFire < interval - w.alarmThreshold then
        Decision(w.now + (interval - sinceLastFire), false, None)
      else
        var late :=
          if sinceLastFire > interval + w.alarmThreshold && lastFireTime > 0
          then Some(LateReport(sinceLastFire, interval, lastFireTime))
          else None;
        Decision(w.now + interval, true, late)
    else
      NoAction
  }

  /** The calls a decision makes, in the order the receiver makes them. */
  function Effects(d: Decision): (r: seq<Effect>)
    ensures forall e :: e in r ==>
              e == ReminderFired || e == AlarmArmed(d.nextFireAt) || (d.late.Some? && e == AlarmLate(d.late.value))
    ensures d.shouldFire ==> |r| > 0 && r[|r| - 1] == ReminderFired
  {
    (if d.late.Some? then [AlarmLate(d.late.value)] else [])
    + (if d.nextFireAt != 0 then [AlarmArmed(d.nextFireAt)] else [])
    + (if d.shouldFire then [ReminderFired] else [])
  }

  /** The state commit of a fire. */
  function FireCommit(st: SchedulerState, now: int): (r: SchedulerState)
    ensures !r.quietHoursOneTimeReminderEnabled
    ensures r.numRemindersFired ==
              if st.quietHoursOneTimeReminderEnabled then st.numRemindersFired else st.numRemindersFired + 1
    ensures r.reminderLastFireTime == now
    ensures r.notificationLastFireTime == st.notificationLastFireTime
    ensures r.lastTimerBroadcastReceived == st.lastTimerBroadcastReceived
  {
    if st.quietHoursOneTimeReminderEnabled then
      st.(quietHoursOneTimeReminderEnabled := false, reminderLastFireTime := now)
    else
      st.(numRemindersFired := st.numRemindersFired + 1, reminderLastFireTime := now)
  }

  /** The persisted state after one wake-up. */
  function Transition(st: SchedulerState, w: Wakeup): (r: SchedulerState)
    ensures r.lastTimerBroadcastReceived == w.receivedAt
    ensures r.notificationLastFireTime == st.notificationLastFireTime
    ensures st.numRemindersFired <= r.numRemindersFired <= st.numRemindersFired + 1
    ensures !st.quietHoursOneTimeReminderEnabled ==> !r.quietHoursOneTimeReminderEnabled
    ensures r.reminderLastFireTime == st.reminderLastFireTime || r.reminderLastFireTime == w.now
  {
    var received := st.(lastTimerBroadcastReceived := w.receivedAt);
    if Decide(received, w).shouldFire then FireCommit(received, w.now) else received
  }

  /** The decisions of a series of wake-ups, each starting from the state the previous one left. */
  function Replay(st: SchedulerState, ws: seq<Wakeup>): (ds: seq<Decision>)
    ensures |ds| == |ws|
    decreases |ws|
  {
    if ws == [] then [] else [Decide(st, ws[0])] + Replay(Transition(st, ws[0]), ws[1..])
  }

  /** The persisted state after a series of wake-ups. */
  function Final(st: SchedulerState, ws: seq<Wakeup>): SchedulerState
    decreases |ws|
  {
    if ws == [] then st else Final(Transition(st, ws[0]), ws[1..])
  }

  // ---------------------------------------------------------------------------
  // Properties of one wake-up

  /** Without active events nothing is armed or fired; only the receive time is written. */
  lemma NoActiveEventsNoAction(st: SchedulerState, w: Wakeup)
    requires !w.hasActiveEvents
    ensures Decide(st, w) == NoAction
    ensures Effects(Decide(st, w)) == []
    ensures Transition(st, w) == st.(lastTimerBroadcastReceived := w.receivedAt)
  {
  }

  /**
   * One-shot outside quiet hours: fires, re-arms one interval later exactly
   * when regular reminders are on, whatever the fire counter says.
   */
  lemma OneShotFiresOutsideQuietHours(st: SchedulerState, w: Wakeup)
    requires w.hasActiveEvents && st.quietHoursOneTimeReminderEnabled && w.silentUntil == 0
    ensures Decide(st, w).shouldFire
    ensures Decide(st, w).late == None
    ensures Decide(st, w).nextFireAt ==
              if w.settings.remindersEnabled then w.now + w.settings.remindersIntervalMillis else 0
  {
  }

  /** Quiet hours postpone the reminder to their end, on the one-shot path and while the budget lasts. */
  lemma QuietHoursDeferral(st: SchedulerState, w: Wakeup)
    requires w.hasActiveEvents && w.silentUntil != 0
    requires st.quietHoursOneTimeReminderEnabled
             || (w.settings.remindersEnabled && BudgetLeft(st, w.settings))
    ensures Decide(st, w) == Decision(w.silentUntil, false, None)
  {
  }

  /** An exhausted budget stops regular reminders: no fire and no re-arm. */
  lemma BudgetExhausted(st: SchedulerState, w: Wakeup)
    requires !st.quietHoursOneTimeReminderEnabled
    requires w.settings.maxNumberOfReminders != 0
    requires st.numRemindersFired > w.settings.maxNumberOfReminders
    ensures Decide(st, w) == NoAction
    ensures Transition(st, w) == st.(lastTimerBroadcastReceived := w.receivedAt)
  {
  }

  /**
   * An early wake-up does not fire and re-arms at exactly one interval after
   * the last fire, which is in the future when the threshold is not negative.
   */
  lemma EarlyWakeup(st: SchedulerState, w: Wakeup)
    requires w.hasActiveEvents && !st.quietHoursOneTimeReminderEnabled
    requires w.settings.remindersEnabled && BudgetLeft(st, w.settings) && w.silentUntil == 0
    requires w.now - LastFireTime(st) < w.settings.remindersIntervalMillis - w.alarmThreshold
    ensures !Decide(st, w).shouldFire && Decide(st, w).late == None
    ensures Decide(st, w).nextFireAt == LastFireTime(st) + w.settings.remindersIntervalMillis
    ensures w.alarmThreshold >= 0 ==> Decide(st, w).nextFireAt > w.now
  {
  }

  /**
   * An on-time or late wake-up fires and re-arms one interval later; it is
   * reported late exactly when it is beyond the threshold and something fired before.
   */
  lemma OnTimeOrLateWakeup(st: SchedulerState, w: Wakeup)
    requires w.hasActiveEvents && !st.quietHoursOneTimeReminderEnabled
    requires w.settings.remindersEnabled && BudgetLeft(st, w.settings) && w.silentUntil == 0
    requires w.now - LastFireTime(st) >= w.settings.remindersIntervalMillis - w.alarmThreshold
    ensures Decide(st, w).shouldFire
    ensures Decide(st, w).nextFireAt == w.now + w.settings.remindersIntervalMillis
    ensures Decide(st, w).late.Some? <==>
              w.now - LastFireTime(st) > w.settings.remindersIntervalMillis + w.alarmThreshold
              && LastFireTime(st) > 0
  {
  }

  /** With regular reminders and the one-shot both off, nothing happens. */
  lemma RemindersDisabled(st: SchedulerState, w: Wakeup)
    requires !st.quietHoursOneTimeReminderEnabled && !w.settings.remindersEnabled
    ensures Decide(st, w) == NoAction
  {
  }

  /**
   * The alarm is armed exactly when `nextFireAt` is not 0, at that time, and
   * before the reminder fires; a late report comes first of all.
   */
  lemma ArmingOrder(d: Decision)
    ensures AlarmArmed(d.nextFireAt) in Effects(d) <==> d.nextFireAt != 0
    ensures ReminderFired in Effects(d) <==> d.shouldFire
    ensures d.nextFireAt != 0 && d.shouldFire ==>
              Effects(d)[|Effects(d)| - 2] == AlarmArmed(d.nextFireAt)
              && Effects(d)[|Effects(d)| - 1] == ReminderFired
    ensures d.late.Some? ==> Effects(d)[0] == AlarmLate(d.late.value)
  {
  }

  /** A wake-up that fires commits exactly one fire: time stamped, and either the one-shot cleared or the counter bumped. */
  lemma TransitionCommitsFire(st: SchedulerState, w: Wakeup)
    ensures var r := Transition(st, w);
            && r.lastTimerBroadcastReceived == w.receivedAt
            && r.notificationLastFireTime == st.notificationLastFireTime
            && (Decide(st, w).shouldFire ==>
                  r.reminderLastFireTime == w.now
                  && !r.quietHoursOneTimeReminderEnabled
                  && r.numRemindersFired == st.numRemindersFired + (if st.quietHoursOneTimeReminderEnabled then 0 else 1))
            && (!Decide(st, w).shouldFire ==> r == st.(lastTimerBroadcastReceived := w.receivedAt))
  {
  }

  /** Drift correction: one past the late threshold fires and reports; one before the early threshold re-arms at last fire plus interval. */
  lemma DriftCorrection(st: SchedulerState, s: ReminderSettings, threshold: int, receivedAt: int)
    requires !st.quietHoursOneTimeReminderEnabled && s.remindersEnabled && BudgetLeft(st, s)
    requires threshold >= 0 && LastFireTime(st) > 0
    ensures var late := LastFireTime(st) + s.remindersIntervalMillis + threshold + 1;
            var d := Decide(st, Wakeup(receivedAt, true, late, 0, s, threshold));
            d.shouldFire && d.nextFireAt == late + s.remindersIntervalMillis
            && d.late == Some(LateReport(s.remindersIntervalMillis + threshold + 1, s.remindersIntervalMillis, LastFireTime(st)))
    ensures var early := LastFireTime(st) + s.remindersIntervalMillis - threshold - 1;
            var d := Decide(st, Wakeup(receivedAt, true, early, 0, s, threshold));
            !d.shouldFire && d.nextFireAt == LastFireTime(st) + s.remindersIntervalMillis && d.late == None
  {
  }

  /**
   * Nothing fired yet, one hour interval, woken 1 000 000 ms after the epoch:
   * the time since the last fire is measured from 0, so with any threshold
   * below 2 600 000 ms this is an early wake-up that re-arms at one interval
   * after 0 instead of firing.
   */
  lemma FirstReminderScenario(threshold: int)
    requires threshold < 2_600_000
    ensures var st := SchedulerState(0, 0, 0, 0, false);
            var s := ReminderSettings(3_600_000, true, 0);
            Decide(st, Wakeup(1_000_000, true, 1_000_000, 0, s, threshold)) == Decision(3_600_000, false, None)
  {
  }

  /** A state that has never fired is never reported late. */
  lemma NeverFiredNeverLate(st: SchedulerState, w: Wakeup)
    requires LastFireTime(st) <= 0
    ensures Decide(st, w).late == None
  {
  }

  // ---------------------------------------------------------------------------
  // Properties of a series of wake-ups

  /**
   * Once the budget is exhausted and no one-shot is pending, no later
   * wake-up fires or re-arms, however much time passes, as long as the
   * maximum is not changed.
   */
  lemma {:induction false} BudgetExhaustionPersists(st: SchedulerState, ws: seq<Wakeup>, maxFires: int)
    requires !st.quietHoursOneTimeReminderEnabled
    requires maxFires != 0 && st.numRemindersFired > maxFires
    requires forall i :: 0 <= i < |ws| ==> ws[i].settings.maxNumberOfReminders == maxFires
    ensures forall i :: 0 <= i < |ws| ==> Replay(st, ws)[i] == NoAction
    ensures Final(st, ws).numRemindersFired == st.numRemindersFired
    ensures !Final(st, ws).quietHoursOneTimeReminderEnabled
    decreases |ws|
  {
    if ws != [] {
      var next := Transition(st, ws[0]);
      BudgetExhausted(st, ws[0]);
      BudgetExhaustionPersists(next, ws[1..], maxFires);
      forall i | 0 <= i < |ws|
        ensures Replay(st, ws)[i] == NoAction
      {
        if i > 0 {
          assert Replay(st, ws)[i] == Replay(next, ws[1..])[i - 1];
        }
      }
    }
  }

  /**
   * The fire counter never goes down and grows by at most one per wake-up,
   * and a one-shot flag that is off stays off.
   */
  lemma {:induction false} FireCounterMonotone(st: SchedulerState, ws: seq<Wakeup>)
    ensures st.numRemindersFired <= Final(st, ws).numRemindersFired <= st.numRemindersFired + |ws|
    ensures !st.quietHoursOneTimeReminderEnabled ==> !Final(st, ws).quietHoursOneTimeReminderEnabled
    decreases |ws|
  {
    if ws != [] {
      TransitionCommitsFire(st, ws[0]);
      FireCounterMonotone(Transition(st, ws[0]), ws[1..]);
    }
  }

  // ---------------------------------------------------------------------------
  // The receiver

  class ReminderAlarmReceiver {
    var lastTimerBroadcastReceived: int
    var notificationLastFireTime: int
    var reminderLastFireTime: int
    var numRemindersFired: int
    var quietHoursOneTimeReminderEnabled: bool
    /** The calls made to the alarm manager and the application controller, oldest first. */
    var effects: seq<Effect>

    function State(): SchedulerState
      reads this
    {
      SchedulerState(lastTimerBroadcastReceived, notificationLastFireTime, reminderLastFireTime,
                     numRemindersFired, quietHoursOneTimeReminderEnabled)
    }

    constructor (persisted: SchedulerState)
      ensures State() == persisted && effects == []
    {
      lastTimerBroadcastReceived := persisted.lastTimerBroadcastReceived;
      notificationLastFireTime := persisted.notificationLastFireTime;
      reminderLastFireTime := persisted.reminderLastFireTime;
      numRemindersFired := persisted.numRemindersFired;
      quietHoursOneTimeReminderEnabled := persisted.quietHoursOneTimeReminderEnabled;
      effects := [];
    }

    /** Handles one delivery of the reminder timer. */
    method OnReceive(receivedAt: int, hasActiveEvents: bool, now: int, silentUntil: int,
                     settings: ReminderSettings, alarmThreshold: int)
      returns (nextFireAt: int, shouldFire: bool, lateReported: bool)
      modifies this
      ensures var w := Wakeup(receivedAt, hasActiveEvents, now, silentUntil, settings, alarmThreshold);
              var d := Decide(old(State()), w);
              && nextFireAt == d.nextFireAt && shouldFire == d.shouldFire && lateReported == d.late.Some?
              && State() == Transition(old(State()), w)
              && effects == old(effects) + Effects(d)
    {
      lastTimerBroadcastReceived := receivedAt;
      nextFireAt, shouldFire, lateReported := 0, false, false;
      if !hasActiveEvents {
        return;
      }

      var reminderInterval := settings.remindersIntervalMillis;
      if quietHoursOneTimeReminderEnabled {
        if silentUntil == 0 {
          shouldFire := true;
          if settings.remindersEnabled {
            nextFireAt := now + reminderInterval;
          }
        } else {
          nextFireAt := silentUntil;
        }
      } else if settings.remindersEnabled {
        var lastFireTime := Max(notificationLastFireTime, reminderLastFireTime);
        var sinceLastFire := now - lastFireTime;
        var maxFires := settings.maxNumberOfReminders;
        if maxFires == 0 || numRemindersFired <= maxFires {
          if silentUntil != 0 {
            nextFireAt := silentUntil;
          } else if sinceLastFire < reminderInterval - alarmThreshold {
            var leftMillis := reminderInterval - sinceLastFire;
            nextFireAt := now + leftMillis;
          } else {
            nextFireAt := now + reminderInterval;
            shouldFire := true;
            if sinceLastFire > reminderInterval + alarmThreshold && lastFireTime > 0 {
              effects := effects + [AlarmLate(LateReport(sinceLastFire, reminderInterval, lastFireTime))];
              lateReported := true;
            }
          }
        }
      }

      if nextFireAt != 0 {
        effects := effects + [AlarmArmed(nextFireAt)];
      }
      if shouldFire {
        FireReminder(now);
      }
    }

    /** Fires the reminder and commits the fire to the persisted state. */
    method FireReminder(currentTime: int)
      modifies this
      ensures State() == FireCommit(old(State()), currentTime)
      ensures effects == old(effects) + [ReminderFired]
    {
      effects := effects + [ReminderFired];
      if quietHoursOneTimeReminderEnabled {
        quietHoursOneTimeReminderEnabled := false;
      } else {
        numRemindersFired := numRemindersFired + 1;
      }
      reminderLastFireTime := currentTime;
    }
  }
}
