/**
 * The "edit reminder" dialog: the form it fills from the reminder (again
 * whenever the reminder changes), the two checks before sending, and the
 * body of its `PATCH /api/recordatorios/{id}` request. The dialog reads the
 * reminder in its English-named client shape and sends English field names.
 */
module EditDialog {
  import opened Calendar
  import opened Common
  import opened Text
  import opened ReminderRules

  /** The reminder as the dialog receives it. */
  datatype ClientReminder = ClientReminder(
    id: Id,
    title: string,
    description: Option<string>,
    dueDate: Option<string>,        // an ISO timestamp
    categoryId: Option<Id>,
    notificationsEnabled: bool,
    reminderFrequency: string,
    recurring: bool,
    recurrenceFrequency: Option<string>)

  /** The date part of an ISO timestamp (`split('T')[0]`). */
  function DatePart(iso: string): (d: string)
    ensures |d| <= |iso| && d == iso[..|d|] && 'T' !in d
    ensures d == "" <==> iso == "" || iso[0] == 'T'
  {
    PrefixBefore(iso, 'T')
  }

  /** `x || ''` on an optional string. */
  function OrEmpty(s: Option<string>): (r: string)
    ensures s.None? ==> r == ""
    ensures s.Some? ==> r == s.value
  {
    if s.Some? then s.value else ""
  }

  /** `x || 'WEEKLY'`: a missing or empty value becomes the default. */
  function OrWeekly(s: Option<string>): (r: string)
    ensures r != ""
    ensures s.Some? && s.value != "" ==> r == s.value
  {
    if s.Some? && s.value != "" then s.value else "WEEKLY"
  }

  datatype EditForm = EditForm(
    title: string,
    description: string,
    dueDate: DateText,              // the date input; its parse travels with it
    categoryId: string,
    notificationsEnabled: bool,
    reminderFrequency: string,
    recurring: bool,
    recurrenceFrequency: string)

  /**
   * The form for a reminder, both on opening and on every re-sync: the date
   * input holds the date part of the due timestamp (empty when there is
   * none), a missing description or category is the empty string, and the
   * recurrence defaults to WEEKLY. `parseDate` is the runtime's date parser.
   */
  function InitialForm(r: ClientReminder, parseDate: string -> Option<Instant>): (f: EditForm)
    ensures f.title == r.title && f.notificationsEnabled == r.notificationsEnabled
    ensures f.reminderFrequency == r.reminderFrequency && f.recurring == r.recurring
    ensures f.description == OrEmpty(r.description) && f.categoryId == OrEmpty(r.categoryId)
    ensures f.dueDate.text == if r.dueDate.Some? && r.dueDate.value != "" then DatePart(r.dueDate.value) else ""
    ensures f.dueDate.parsed == parseDate(f.dueDate.text)
    ensures f.recurrenceFrequency == OrWeekly(r.recurrenceFrequency)
  {
    var date := if r.dueDate.Some? && r.dueDate.value != "" then DatePart(r.dueDate.value) else "";
    EditForm(r.title, OrEmpty(r.description), DateText(date, parseDate(date)), OrEmpty(r.categoryId),
             r.notificationsEnabled, r.reminderFrequency, r.recurring, OrWeekly(r.recurrenceFrequency))
  }

  /** The messages the dialog shows: three from its translation table, or the server's `error` text. */
  datatype Message = TitleRequired | DueDateRequired | UpdateError | ServerError(text: string)

  function Check(f: EditForm): (err: Option<Message>)
    ensures err.None? <==> f.title != "" && (f.recurring || f.dueDate.text != "")
    ensures f.title == "" ==> err == Some(TitleRequired)
    ensures f.title != "" && !f.recurring && f.dueDate.text == "" ==> err == Some(DueDateRequired)
  {
    if f.title == "" then Some(TitleRequired)
    else if !f.recurring && f.dueDate.text == "" then Some(DueDateRequired)
    else None
  }

  /**
   * The PATCH body. It has no recurrence fields, so an edit never changes
   * whether or how a reminder recurs. `dueDate` carries the instant of the
   * date typed (sent as its ISO string).
   */
  datatype PatchBody = PatchBody(
    title: string,
    description: Option<string>,
    dueDate: Option<Instant>,
    categoryId: Option<Id>,
    notificationsEnabled: bool,
    reminderFrequency: string)

  /**
   * The body for a checked form, or None when the typed date is not a date
   * (`toISOString` throws, and the dialog shows its generic error).
   */
  function Body(f: EditForm): (b: Option<PatchBody>)
    requires Check(f).None?
    ensures b.None? <==> !f.recurring && f.dueDate.parsed.None?
    ensures b.Some? ==>
      && b.value.title == f.title
      && (b.value.description.None? <==> f.description == "")
      && (b.value.description.Some? ==> b.value.description.value == f.description)
      && (b.value.categoryId.None? <==> f.categoryId == "")
      && (b.value.categoryId.Some? ==> b.value.categoryId.value == f.categoryId)
      && b.value.notificationsEnabled == f.notificationsEnabled
      && b.value.reminderFrequency == f.reminderFrequency
      && (f.recurring ==> b.value.dueDate.None?)
      && (!f.recurring ==> b.value.dueDate == f.dueDate.parsed)
  {
    var due := if !f.recurring && f.dueDate.text != "" then f.dueDate.parsed else None;
    if !f.recurring && due.None? then None
    else
      Some(PatchBody(f.title,
                     if f.description == "" then None else Some(f.description),
                     due,
                     if f.categoryId == "" then None else Some(f.categoryId),
                     f.notificationsEnabled, f.reminderFrequency))
  }

  /**
   * Submitting the form unchanged sends the reminder's own title, settings,
   * description and category (an empty one as null), and for a
   * non-recurring reminder the date part of its due timestamp.
   */
  lemma UnchangedSubmit(r: ClientReminder, parseDate: string -> Option<Instant>)
    requires r.title != ""
    requires r.recurring || (r.dueDate.Some? && r.dueDate.value != "" && r.dueDate.value[0] != 'T')
    requires !r.recurring ==> parseDate(DatePart(r.dueDate.value)).Some?
    ensures Check(InitialForm(r, parseDate)).None?
    ensures Body(InitialForm(r, parseDate)).Some?
    ensures var b := Body(InitialForm(r, parseDate)).value;
      && b.title == r.title
      && b.notificationsEnabled == r.notificationsEnabled
      && b.reminderFrequency == r.reminderFrequency
      && (r.description.Some? && r.description.value != "" ==> b.description == r.description)
      && (r.description.None? || r.description.value == "" ==> b.description.None?)
      && (r.categoryId.Some? && r.categoryId.value != "" ==> b.categoryId == r.categoryId)
      && (r.categoryId.None? || r.categoryId.value == "" ==> b.categoryId.None?)
      && (r.recurring ==> b.dueDate.None?)
      && (!r.recurring ==> b.dueDate == parseDate(DatePart(r.dueDate.value)))
  {
  }

  datatype Reply = Threw | Replied(ok: bool, error: Option<string>)
  datatype Outcome = NotSent(message: Message) | SendFailed(message: Message) | Saved(body: PatchBody)

  /** `handleSubmit` */
  function Submit(f: EditForm, reply: Reply): (o: Outcome)
    ensures Check(f).Some? ==> o == NotSent(Check(f).value)
    ensures o.Saved? <==> Check(f).None? && Body(f).Some? && reply.Replied? && reply.ok
    ensures o.Saved? ==> Body(f) == Some(o.body)
    ensures o.SendFailed? && o.message.ServerError? ==> reply == Replied(false, Some(o.message.text)) && o.message.text != ""
  {
    match Check(f)
    case Some(message) => NotSent(message)
    case None =>
      match Body(f)
      case None => SendFailed(UpdateError)
      case Some(b) =>
        match reply
        case Threw => SendFailed(UpdateError)
        case Replied(ok, error) =>
          if ok then Saved(b)
          else if error.Some? && error.value != "" then SendFailed(ServerError(error.value))
          else SendFailed(UpdateError)
  }
}
