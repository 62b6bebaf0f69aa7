/**
 * `procesarNotificaciones`: selects the reminders that need a notification
 * now, stamps each with the time of this run and schedules its next
 * notification from its reminder frequency. Sending the notification itself
 * is not implemented by the source.
 */
module Notifications {
  import opened Calendar
  import opened Common
  import opened ReminderRules

  /**
   * The query: notifications on, not completed, and either a scheduled
   * notification that is due, or a due date that has passed with no
   * notification in the last 24 hours.
   */
  predicate NeedsNotification(r: Reminder, now: Instant) {
    && r.notificationsEnabled
    && !r.completed
    && ((r.nextNotification.Some? && r.nextNotification.value <= now)
        || (r.dueDate <= now && (r.lastNotification.None? || r.lastNotification.value < now - MsPerDay)))
  }

  /** The next notification for a stored frequency name; null for a name that is not a frequency. */
  function NextAfter(frequency: string, now: LocalDateTime): (r: Option<Instant>)
    requires now.Valid()
    ensures r.None? <==> ParseFrequency(frequency).None?
    ensures r.Some? ==> r.value > ToInstant(now)
    ensures r.Some? ==> r.value == NotificationStep(ParseFrequency(frequency).value, now)
  {
    match ParseFrequency(frequency)
    case Some(f) => Some(NotificationStep(f, now))
    case None => None
  }

  /** The update written to a selected row. */
  function Notified(r: Reminder, now: LocalDateTime): Reminder
    requires now.Valid()
  {
    r.(lastNotification := Some(ToInstant(now)), nextNotification := NextAfter(r.reminderFrequency, now))
  }

  /** The table after a run at `now`. */
  function NotifySweep(m: map<Id, Reminder>, now: LocalDateTime): map<Id, Reminder>
    requires now.Valid()
  {
    map id | id in m :: if NeedsNotification(m[id], ToInstant(now)) then Notified(m[id], now) else m[id]
  }

  /** The ids the query selects. */
  function Selected(m: map<Id, Reminder>, now: Instant): set<Id> {
    set id | id in m && NeedsNotification(m[id], now)
  }

  /** Unselected rows are unchanged; selected rows change in the two notification fields only. */
  lemma NotifyChangesOnlySelected(m: map<Id, Reminder>, now: LocalDateTime)
    requires now.Valid()
    ensures NotifySweep(m, now).Keys == m.Keys
    ensures forall id | id in m && id !in Selected(m, ToInstant(now)) :: NotifySweep(m, now)[id] == m[id]
    ensures forall id | id in Selected(m, ToInstant(now)) ::
      var r := NotifySweep(m, now)[id];
      && r.lastNotification == Some(ToInstant(now))
      && r.nextNotification == NextAfter(m[id].reminderFrequency, now)
      && r.(lastNotification := m[id].lastNotification, nextNotification := m[id].nextNotification) == m[id]
  {
  }

  /** A second run at the same instant selects none of the rows the first run processed. */
  lemma RerunSkipsProcessed(m: map<Id, Reminder>, now: LocalDateTime)
    requires now.Valid()
    ensures Selected(NotifySweep(m, now), ToInstant(now)) !! Selected(m, ToInstant(now))
  {
    var t := ToInstant(now);
    forall id | id in Selected(m, t) ensures id !in Selected(NotifySweep(m, now), t) {
      var r := NotifySweep(m, now)[id];
      assert r.lastNotification == Some(t);
      assert r.nextNotification.None? || r.nextNotification.value > t;
    }
  }

  /** The loop of updates; returns how many reminders were selected. */
  method ProcessNotifications(db: Database, now: LocalDateTime) returns (count: int)
    requires db.Valid() && now.Valid()
    modifies db
    ensures db.Valid() && db.categories == old(db.categories) && db.users == old(db.users)
    ensures db.reminders == NotifySweep(old(db.reminders), now)
    ensures count == |Selected(old(db.reminders), ToInstant(now))|
  {
    var t := ToInstant(now);
    var selected := Selected(db.reminders, t);
    var todo := selected;
    while todo != {}
      invariant todo <= selected
      invariant db.Valid() && db.categories == old(db.categories) && db.users == old(db.users)
      invariant db.reminders.Keys == old(db.reminders).Keys
      invariant forall id | id in db.reminders ::
        db.reminders[id] == if id in selected - todo then Notified(old(db.reminders)[id], now) else old(db.reminders)[id]
      decreases todo
    {
      var id :| id in todo;
      var row := db.reminders[id];
      db.reminders := db.reminders[id := row.(lastNotification := Some(t), nextNotification := NextAfter(row.reminderFrequency, now))];
      todo := todo - {id};
    }
    assert forall id | id in old(db.reminders) :: id in selected <==> NeedsNotification(old(db.reminders)[id], t);
    count := |selected|;
  }
}
