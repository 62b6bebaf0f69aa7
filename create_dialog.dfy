/**
 * The "new reminder" dialog: its form defaults, the two checks it makes
 * before sending, the JSON body it sends to `POST /api/recordatorios`, and
 * the message it shows afterwards. The body is stated in the route's own
 * request terms, so that what the dialog sends can be checked against what
 * the route accepts.
 */
module CreateDialog {
  import opened Common
  import opened Text
  import opened ReminderRules

  /** The form fields. The two frequency selects only offer the three frequencies. */
  datatype CreateForm = CreateForm(
    title: string,
    description: string,
    dueDate: DateText,          // the date input; its parse travels with it
    categoryId: string,         // "" is "no category"
    notificationsEnabled: bool,
    reminderFrequency: Frequency,
    recurring: bool,
    recurrenceFrequency: Frequency)

  /** The form as the dialog opens. */
  function InitialForm(): (f: CreateForm)
    ensures f.title == "" && f.description == "" && f.dueDate.text == "" && f.categoryId == ""
    ensures f.notificationsEnabled && f.reminderFrequency == Diario
    ensures !f.recurring && f.recurrenceFrequency == Semanal
  {
    CreateForm("", "", DateText("", None), "", true, Diario, false, Semanal)
  }

  const TitleRequired := "El título es obligatorio"
  const DueDateRequired := "La fecha de vencimiento es obligatoria para recordatorios no recurrentes"
  const CreateFailed := "Error al crear recordatorio"

  /** The checks before sending: the error shown, or None when the form may be sent. */
  function Check(f: CreateForm): (err: Option<string>)
    ensures err.None? <==> f.title != "" && (f.recurring || f.dueDate.text != "")
    ensures f.title == "" ==> err == Some(TitleRequired)
    ensures f.title != "" && !f.recurring && f.dueDate.text == "" ==> err == Some(DueDateRequired)
  {
    if f.title == "" then Some(TitleRequired)
    else if !f.recurring && f.dueDate.text == "" then Some(DueDateRequired)
    else None
  }

  /** `x || null` on a form string: the empty string is sent as null. */
  function OrNull<T>(s: string, v: T): Field<T> {
    if s == "" then Null else Present(v)
  }

  /** The JSON body sent, field by field. */
  function Body(f: CreateForm): (b: CreateRequest)
    ensures b.title == Present(f.title)
    ensures b.description.Null? <==> f.description == ""
    ensures b.categoryId.Null? <==> f.categoryId == ""
    ensures f.recurring ==> b.dueDate.Null? && b.recurrenceFrequency == Present(FrequencyName(f.recurrenceFrequency))
    ensures !f.recurring ==> b.recurrenceFrequency.Null? && (b.dueDate.Null? <==> f.dueDate.text == "")
    ensures !b.description.Absent? && !b.dueDate.Absent? && !b.categoryId.Absent?
    ensures b.notificationsEnabled == Present(f.notificationsEnabled) && b.recurring == Present(f.recurring)
    ensures b.reminderFrequency == Present(FrequencyName(f.reminderFrequency))
  {
    CreateRequest(
      Present(f.title),
      OrNull(f.description, f.description),
      if f.recurring then Null else OrNull(f.dueDate.text, f.dueDate),
      OrNull(f.categoryId, f.categoryId),
      Present(f.notificationsEnabled),
      Present(FrequencyName(f.reminderFrequency)),
      Present(f.recurring),
      if f.recurring then Present(FrequencyName(f.recurrenceFrequency)) else Null)
  }

  /**
   * A form that passes the dialog's checks is accepted by the route exactly
   * when the title and description fit the route's length limits and a
   * non-recurring reminder's date is not all whitespace. In particular the
   * route's cross-field refinement never rejects such a form.
   */
  lemma CheckedFormAccepted(f: CreateForm)
    requires Check(f).None?
    ensures ParseCreateRequest(Body(f)).Some? <==>
      && |f.title| <= 200
      && |f.description| <= 1000
      && (!f.recurring ==> !IsBlank(f.dueDate.text))
    ensures ParseCreateRequest(Body(f)).Some? ==>
      && RefineHolds(ParseCreateRequest(Body(f)).value)
      && ParseCreateRequest(Body(f)).value.recurring == f.recurring
      && ParseCreateRequest(Body(f)).value.reminderFrequency == f.reminderFrequency
      && (f.recurring ==> ParseCreateRequest(Body(f)).value.recurrenceFrequency == Present(f.recurrenceFrequency))
  {
    ParseFrequencyName(f.reminderFrequency);
    ParseFrequencyName(f.recurrenceFrequency);
    var b := Body(f);
    var r := ParseCreateRequest(b);
    if r.Some? && f.recurring {
      assert ParseFields(b) == Some(r.value);
      assert OptionalFrequency(b.recurrenceFrequency) == Some(Present(f.recurrenceFrequency));
    }
  }

  /** The reply to the request: it threw, or it came back with a status and the body's `error` field. */
  datatype Reply = Threw | Replied(ok: bool, error: Option<string>)

  /** What the dialog ends with: an error shown without sending, an error after sending, or closed after success. */
  datatype Outcome = NotSent(message: string) | SendFailed(body: CreateRequest, message: string) | Created(body: CreateRequest)

  /** `handleSubmit` */
  function Submit(f: CreateForm, reply: Reply): (o: Outcome)
    ensures o.NotSent? <==> Check(f).Some?
    ensures o.NotSent? ==> o.message == Check(f).value
    ensures !o.NotSent? ==> o.body == Body(f)
    ensures o.Created? <==> Check(f).None? && reply.Replied? && reply.ok
    ensures o.SendFailed? && reply.Replied? && reply.error.Some? && reply.error.value != "" ==> o.message == reply.error.value
    ensures !o.Created? ==> o.message != ""
  {
    match Check(f)
    case Some(message) => NotSent(message)
    case None =>
      match reply
      case Threw => SendFailed(Body(f), CreateFailed)
      case Replied(ok, error) =>
        if ok then Created(Body(f))
        else if error.Some? && error.value != "" then SendFailed(Body(f), error.value)
        else SendFailed(Body(f), CreateFailed)
  }
}
