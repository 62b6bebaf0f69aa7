/**
 * Shared value types: optional values, the tri-state of a JSON field that
 * may be absent or null, the three frequencies, and the record shapes of
 * the reminder and category tables.
 */
module Common {
  import opened Calendar

  datatype Option<T> = None | Some(value: T) {
    function GetOr(default: T): T {
      match this
      case Some(v) => v
      case None => default
    }
  }

  /**
   * A JSON body field declared `.optional().nullable()`: missing (undefined),
   * an explicit null, or a value. Prisma skips undefined fields on update and
   * writes null for an explicit null, so the two are kept apart.
   */
  datatype Field<T> = Absent | Null | Present(value: T) {
    /** The value as stored by a create: missing and null both become null. */
    function ToOption(): (o: Option<T>)
      ensures o.Some? <==> Present?
    {
      if Present? then Some(value) else None
    }
  }

  type Id = string

  /** `'DIARIO' | 'SEMANAL' | 'MENSUAL'` */
  datatype Frequency = Diario | Semanal | Mensual

  function FrequencyName(f: Frequency): string {
    match f
    case Diario => "DIARIO"
    case Semanal => "SEMANAL"
    case Mensual => "MENSUAL"
  }

  /** The zod enum check: a string names a frequency or is rejected. */
  function ParseFrequency(s: string): (r: Option<Frequency>)
    ensures r.Some? ==> FrequencyName(r.value) == s
  {
    if s == "DIARIO" then Some(Diario)
    else if s == "SEMANAL" then Some(Semanal)
    else if s == "MENSUAL" then Some(Mensual)
    else None
  }

  lemma ParseFrequencyName(f: Frequency)
    ensures ParseFrequency(FrequencyName(f)) == Some(f)
  {
  }

  /**
   * How the completion history may arrive from storage: the JSON column can
   * hold an array, a JSON-encoded string, an object keyed by position, or some
   * other scalar. `JSON.parse` is a call into the runtime, so a string carries
   * its own parse outcome: the array it parses to, or None when parsing throws.
   */
  datatype StoredHistory =
    | Missing                                            // null or undefined
    | ArrayValue(items: seq<string>)
    | JsonText(text: string, parsed: Option<seq<string>>)
    | ObjectValue(values: seq<string>)                   // Object.values, in order
    | Scalar(truthy: bool)                               // a number or boolean

  /** JavaScript truthiness of the stored history. */
  predicate IsTruthy(h: StoredHistory) {
    match h
    case Missing => false
    case ArrayValue(_) => true
    case JsonText(text, _) => text != ""
    case ObjectValue(_) => true
    case Scalar(truthy) => truthy
  }

  /**
   * A row of the reminder table (`Recordatorio`). Column names of the source:
   * titulo, descripcion, fechaVencimiento, categoriaId, userId, completado,
   * fechaCompletado, vecesCompletado, historialCompletados,
   * notificacionesActivas, frecuenciaRecordatorio, recurrente,
   * frecuenciaRecurrencia, recordatorioPadreId, ultimaNotificacion,
   * proximaNotificacion. The client components receive the same record.
   */
  datatype Reminder = Reminder(
    id: Id,
    title: string,
    description: Option<string>,
    dueDate: Instant,
    categoryId: Option<Id>,
    owner: Id,
    completed: bool,
    completedAt: Option<Instant>,
    timesCompleted: int,
    history: StoredHistory,
    notificationsEnabled: bool,
    reminderFrequency: string,
    recurring: bool,
    recurrenceFrequency: Option<string>,
    parentId: Option<Id>,
    lastNotification: Option<Instant>,
    nextNotification: Option<Instant>)

  /** `!!reminder.recordatorioPadreId` */
  predicate HasParent(r: Reminder) {
    r.parentId.Some? && r.parentId.value != ""
  }

  /** A row of the category table (`Categoria`). */
  datatype Category = Category(id: Id, name: string, color: string, icon: Option<string>, owner: Id)

  /** A row of the user table. */
  datatype User = User(id: Id, email: string, name: Option<string>, emailVerified: Option<Instant>)

  /** The session as the route handlers see it: `session?.user?.id`, falsy when empty. */
  predicate Authenticated(session: Option<Id>) {
    session.Some? && session.value != ""
  }

  /**
   * The database. Each table is a map from id to row; the user table is
   * keyed by email, which is unique.
   */
  class Database {
    var reminders: map<Id, Reminder>
    var categories: map<Id, Category>
    var users: map<string, User>

    ghost predicate Valid()
      reads this
    {
      && (forall id | id in reminders :: reminders[id].id == id)
      && (forall id | id in categories :: categories[id].id == id)
      && (forall e | e in users :: users[e].email == e)
    }

    constructor ()
      ensures Valid()
      ensures reminders == map[] && categories == map[] && users == map[]
    {
      reminders, categories, users := map[], map[], map[];
    }
  }
}
