/**
 * The rules the reminders route applies to a create request: the request
 * schema and its cross-field check, the due date of a recurring reminder, and
 * the first scheduled notification.
 */
module ReminderRules {
  import opened Calendar
  import opened Common
  import opened Text

  /**
   * A date string of the request together with what `new Date(text)` makes
   * of it: the instant, or None for an Invalid Date. The parse is a call into
   * the runtime, so its outcome travels with the text.
   */
  datatype DateText = DateText(text: string, parsed: Option<Instant>)

  /** The JSON body of `POST /api/recordatorios`, field by field. */
  datatype CreateRequest = CreateRequest(
    title: Field<string>,                // titulo
    description: Field<string>,          // descripcion
    dueDate: Field<DateText>,            // fechaVencimiento
    categoryId: Field<Id>,               // categoriaId
    notificationsEnabled: Field<bool>,   // notificacionesActivas
    reminderFrequency: Field<string>,    // frecuenciaRecordatorio
    recurring: Field<bool>,              // recurrente
    recurrenceFrequency: Field<string>)  // frecuenciaRecurrencia

  /** The body after the schema: defaults filled in and enums resolved. */
  datatype CreateData = CreateData(
    title: string,
    description: Field<string>,
    dueDate: Field<DateText>,
    categoryId: Field<Id>,
    notificationsEnabled: bool,
    reminderFrequency: Frequency,
    recurring: bool,
    recurrenceFrequency: Field<Frequency>)

  /** `z.boolean().default(d)`: a missing field takes the default, null is rejected. */
  function BoolWithDefault(f: Field<bool>, d: bool): (r: Option<bool>)
    ensures r.None? <==> f.Null?
    ensures f.Absent? ==> r == Some(d)
    ensures f.Present? ==> r == Some(f.value)
  {
    match f
    case Absent => Some(d)
    case Null => None
    case Present(b) => Some(b)
  }

  /** `z.enum([...]).default(d)` */
  function FrequencyWithDefault(f: Field<string>, d: Frequency): (r: Option<Frequency>)
    ensures r.None? <==> f.Null? || (f.Present? && ParseFrequency(f.value).None?)
    ensures r.Some? && f.Present? ==> FrequencyName(r.value) == f.value
    ensures f.Absent? ==> r == Some(d)
  {
    match f
    case Absent => Some(d)
    case Null => None
    case Present(s) => ParseFrequency(s)
  }

  /** `z.enum([...]).optional().nullable()` */
  function OptionalFrequency(f: Field<string>): (r: Option<Field<Frequency>>)
    ensures r.None? <==> f.Present? && ParseFrequency(f.value).None?
    ensures r.Some? ==> (r.value.Absent? <==> f.Absent?) && (r.value.Null? <==> f.Null?)
    ensures r.Some? && f.Present? ==> FrequencyName(r.value.value) == f.value
  {
    match f
    case Absent => Some(Absent)
    case Null => Some(Null)
    case Present(s) =>
      match ParseFrequency(s)
      case Some(freq) => Some(Present(freq))
      case None => None
  }

  /** The field-level part of the schema, before the cross-field check. */
  function ParseFields(req: CreateRequest): Option<CreateData> {
    if !req.title.Present? || !(1 <= |req.title.value| <= 200) then None
    else if req.description.Present? && |req.description.value| > 1000 then None
    else
      match (BoolWithDefault(req.notificationsEnabled, true),
             FrequencyWithDefault(req.reminderFrequency, Diario),
             BoolWithDefault(req.recurring, false),
             OptionalFrequency(req.recurrenceFrequency))
      case (Some(notify), Some(freq), Some(recurring), Some(recFreq)) =>
        Some(CreateData(req.title.value, req.description, req.dueDate, req.categoryId,
                        notify, freq, recurring, recFreq))
      case _ => None
  }

  /**
   * The schema's `refine`: a recurring reminder needs a recurrence frequency,
   * a non-recurring one a due date that is neither missing, empty nor blank.
   */
  predicate RefineHolds(d: CreateData) {
    if d.recurring && !d.recurrenceFrequency.Present? then false
    else if !d.recurring && (!d.dueDate.Present? || d.dueDate.value.text == "" || IsBlank(d.dueDate.value.text)) then false
    else true
  }

  /** The refine check rejects exactly the two inconsistent shapes. */
  lemma RefineRejects(d: CreateData)
    ensures !RefineHolds(d) <==>
      (d.recurring && !d.recurrenceFrequency.Present?) ||
      (!d.recurring && (!d.dueDate.Present? || IsBlank(d.dueDate.value.text)))
  {
  }

  /** `recordatorioSchema.parse(body)`: the validated data, or None for a 400 response. */
  function ParseCreateRequest(req: CreateRequest): (r: Option<CreateData>)
    ensures r.Some? <==>
      && req.title.Present? && 1 <= |req.title.value| <= 200
      && (req.description.Present? ==> |req.description.value| <= 1000)
      && !req.notificationsEnabled.Null?
      && !req.reminderFrequency.Null?
      && (req.reminderFrequency.Present? ==> ParseFrequency(req.reminderFrequency.value).Some?)
      && !req.recurring.Null?
      && (req.recurrenceFrequency.Present? ==> ParseFrequency(req.recurrenceFrequency.value).Some?)
      && var recurring := req.recurring.Present? && req.recurring.value;
         (recurring ==> req.recurrenceFrequency.Present?)
         && (!recurring ==> req.dueDate.Present? && !IsBlank(req.dueDate.value.text))
    ensures r.Some? ==>
      && r.value.title == req.title.value
      && r.value.description == req.description
      && r.value.dueDate == req.dueDate
      && r.value.categoryId == req.categoryId
      && r.value.notificationsEnabled == (!req.notificationsEnabled.Present? || req.notificationsEnabled.value)
      && r.value.recurring == (req.recurring.Present? && req.recurring.value)
      && (req.reminderFrequency.Absent? ==> r.value.reminderFrequency == Diario)
      && (req.reminderFrequency.Present? ==> FrequencyName(r.value.reminderFrequency) == req.reminderFrequency.value)
      && RefineHolds(r.value)
  {
    match ParseFields(req)
    case None => None
    case Some(d) =>
      RefineRejects(d);
      if RefineHolds(d) then Some(d) else None
  }

  // ---------------------------------------------------------------------
  // Due date of a recurring reminder
  // ---------------------------------------------------------------------

  /** `diaSemana === 0 ? 7 : 7 - diaSemana` */
  function DaysUntilSunday(weekday: int): int {
    if weekday == 0 then 7 else 7 - weekday
  }

  /** DIARIO: the same time tomorrow. */
  function DailyDueDate(now: Instant): (r: Instant)
    ensures DayOf(r) == DayOf(now) + 1
    ensures r % MsPerDay == now % MsPerDay
  {
    DayOfShift(now, 1);
    now + MsPerDay
  }

  /** SEMANAL: the same time on the next Sunday, a week ahead when today is Sunday. */
  function WeeklyDueDate(now: Instant): (r: Instant)
    ensures Weekday(DayOf(r)) == 0
    ensures 1 <= DayOf(r) - DayOf(now) <= 7
    ensures r % MsPerDay == now % MsPerDay
  {
    var k := DaysUntilSunday(Weekday(DayOf(now)));
    DayOfShift(now, k);
    WeekdayAfter(DayOf(now), k);
    now + k * MsPerDay
  }

  /**
   * MENSUAL: midnight of the last day of the current month, or, when that
   * midnight is already past, midnight of the last day of the next month.
   */
  function MonthlyDueDate(now: LocalDateTime): (r: Instant)
    requires now.Valid()
    ensures r >= ToInstant(now)
    ensures
      var (y, m) := (now.date.year, now.date.month);
      var (y', m') := NextMonth(y, m);
      r == if now.date.day == DaysInMonth(y, m) && now.msOfDay > 0
           then MidnightOf(DayNumber(EndOfMonth(y', m')))
           else MidnightOf(DayNumber(EndOfMonth(y, m)))
  {
    var (y, m) := (now.date.year, now.date.month);
    var (y', m') := NextMonth(y, m);
    var endOfThis := MidnightOf(DayNumber(EndOfMonth(y, m)));
    assert DayNumber(EndOfMonth(y, m)) - DayNumber(now.date) == DaysInMonth(y, m) - now.date.day;
    NextMonthStart(y, m);
    assert DayNumber(EndOfMonth(y', m')) >= DayNumber(CivilDate(y', m', 1));
    if endOfThis < ToInstant(now) then MidnightOf(DayNumber(EndOfMonth(y', m'))) else endOfThis
  }

  /**
   * Only the last day of the month, after its first millisecond, moves the
   * date to the next month, and the due date is never more than 31 days ahead.
   */
  lemma MonthlyDueDateIsMonthEnd(now: LocalDateTime)
    requires now.Valid()
    ensures var (y', m') := NextMonth(now.date.year, now.date.month);
      (MonthlyDueDate(now) == MidnightOf(DayNumber(EndOfMonth(y', m'))) <==>
       now.date.day == DaysInMonth(now.date.year, now.date.month) && now.msOfDay > 0)
    ensures 0 <= DayOf(MonthlyDueDate(now)) - DayOf(ToInstant(now)) <= 31
  {
    var (y, m) := (now.date.year, now.date.month);
    var (y', m') := NextMonth(y, m);
    var thisEnd, nextEnd := DayNumber(EndOfMonth(y, m)), DayNumber(EndOfMonth(y', m'));
    NextMonthStart(y, m);
    assert nextEnd == thisEnd + DaysInMonth(y', m');
    assert thisEnd - DayNumber(now.date) == DaysInMonth(y, m) - now.date.day;
    DayOfToInstant(now);
    DayOfMidnight(thisEnd, 0);
    DayOfMidnight(nextEnd, 0);
  }

  /** The due date of a recurring reminder. */
  function RecurringDueDate(f: Frequency, now: LocalDateTime): Instant
    requires now.Valid()
  {
    match f
    case Diario => DailyDueDate(ToInstant(now))
    case Semanal => WeeklyDueDate(ToInstant(now))
    case Mensual => MonthlyDueDate(now)
  }

  /**
   * The due date stored by a create: computed from the recurrence frequency
   * for a recurring reminder, otherwise the supplied date, None when that is
   * an Invalid Date (the store then throws and the route answers 500).
   */
  function DueDate(d: CreateData, now: LocalDateTime): (r: Option<Instant>)
    requires now.Valid() && RefineHolds(d)
    ensures d.recurring ==> r == Some(RecurringDueDate(d.recurrenceFrequency.value, now))
    ensures !d.recurring ==> r == d.dueDate.value.parsed
    ensures r.Some? && d.recurring ==> r.value >= ToInstant(now)
  {
    if d.recurring && d.recurrenceFrequency.Present? then
      Some(RecurringDueDate(d.recurrenceFrequency.value, now))
    else
      d.dueDate.value.parsed
  }

  // ---------------------------------------------------------------------
  // Notification stepping
  // ---------------------------------------------------------------------

  /**
   * The next notification after `now` for a frequency: one day, seven days,
   * or one calendar month later (`setMonth(getMonth() + 1)`, which is as many
   * days as the current month has).
   */
  function NotificationStep(f: Frequency, now: LocalDateTime): (r: Instant)
    requires now.Valid()
    ensures r % MsPerDay == ToInstant(now) % MsPerDay
    ensures f == Diario ==> DayOf(r) == DayOf(ToInstant(now)) + 1
    ensures f == Semanal ==> DayOf(r) == DayOf(ToInstant(now)) + 7
    ensures f == Mensual ==> DayOf(r) == DayOf(ToInstant(now)) + DaysInMonth(now.date.year, now.date.month)
    ensures r > ToInstant(now)
  {
    var t := ToInstant(now);
    match f
    case Diario =>
      DayOfShift(t, 1);
      t + MsPerDay
    case Semanal =>
      DayOfShift(t, 7);
      t + 7 * MsPerDay
    case Mensual =>
      DayOfShift(t, DaysInMonth(now.date.year, now.date.month));
      ToInstant(AddOneMonth(now))
  }

  /** `proximaNotificacion` of a create: null exactly when notifications are off. */
  function FirstNotification(enabled: bool, f: Frequency, now: LocalDateTime): (r: Option<Instant>)
    requires now.Valid()
    ensures r.None? <==> !enabled
    ensures r.Some? ==> r.value > ToInstant(now) && r.value == NotificationStep(f, now)
  {
    if enabled then Some(NotificationStep(f, now)) else None
  }
}
