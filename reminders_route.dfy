/**
 * `/api/recordatorios`: GET lists the caller's reminders after resetting the
 * completed ones whose due date has passed, keeps one reminder per recurring
 * title and orders the list; POST validates a create request and either
 * updates the caller's original recurring reminder of the same title or
 * creates a new row.
 */
module RemindersRoute {
  import opened Calendar
  import opened Common
  import opened Ordering
  import opened ReminderRules

  // ---------------------------------------------------------------------
  // Expiry sweep
  // ---------------------------------------------------------------------

  /** The sweep's query: the caller's completed reminders due before today's midnight. */
  predicate Expired(r: Reminder, user: Id, today: Instant) {
    r.owner == user && r.completed && r.dueDate < today
  }

  /** The sweep's update: `completado := false`, `fechaCompletado := null`. */
  function Reset(r: Reminder): Reminder {
    r.(completed := false, completedAt := None)
  }

  /** The whole table after the sweep. */
  function ExpirySweep(m: map<Id, Reminder>, user: Id, today: Instant): map<Id, Reminder> {
    map id | id in m :: if Expired(m[id], user, today) then Reset(m[id]) else m[id]
  }

  /** The sweep touches only expired rows of the caller, and in them only the two completion fields. */
  lemma SweepChangesOnlyExpired(m: map<Id, Reminder>, user: Id, today: Instant)
    ensures ExpirySweep(m, user, today).Keys == m.Keys
    ensures forall id | id in m && !Expired(m[id], user, today) :: ExpirySweep(m, user, today)[id] == m[id]
    ensures forall id | id in m && Expired(m[id], user, today) ::
      var r := ExpirySweep(m, user, today)[id];
      !r.completed && r.completedAt.None? && r == m[id].(completed := false, completedAt := None)
    ensures forall id | id in m && m[id].owner != user :: ExpirySweep(m, user, today)[id] == m[id]
  {
  }

  /** After the sweep no row of the caller is expired, so a second sweep changes nothing. */
  lemma SweepIdempotent(m: map<Id, Reminder>, user: Id, today: Instant)
    ensures forall id | id in ExpirySweep(m, user, today) :: !Expired(ExpirySweep(m, user, today)[id], user, today)
    ensures ExpirySweep(ExpirySweep(m, user, today), user, today) == ExpirySweep(m, user, today)
  {
    var once := ExpirySweep(m, user, today);
    assert forall id | id in once :: !Expired(once[id], user, today);
    assert ExpirySweep(once, user, today) == once;
  }

  /** The `findMany` and the `for` loop of updates that follows it. */
  method SweepExpired(db: Database, user: Id, today: Instant)
    requires db.Valid()
    modifies db
    ensures db.Valid()
    ensures db.reminders == ExpirySweep(old(db.reminders), user, today)
    ensures db.categories == old(db.categories) && db.users == old(db.users)
  {
    var expired := set id | id in db.reminders && Expired(db.reminders[id], user, today);
    var todo := expired;
    while todo != {}
      invariant todo <= expired
      invariant db.Valid()
      invariant db.categories == old(db.categories) && db.users == old(db.users)
      invariant db.reminders.Keys == old(db.reminders).Keys
      invariant forall id | id in db.reminders ::
        db.reminders[id] == if id in expired - todo then Reset(old(db.reminders)[id]) else old(db.reminders)[id]
      decreases todo
    {
      var id :| id in todo;
      db.reminders := db.reminders[id := Reset(db.reminders[id])];
      todo := todo - {id};
    }
  }

  // ---------------------------------------------------------------------
  // Deduplication of recurring reminders
  // ---------------------------------------------------------------------

  /** `acc.find(r => r.titulo === title && r.recurrente)`: the first matching position. */
  function FindRecurring(acc: seq<Reminder>, title: string): (r: Option<nat>)
    ensures r.Some? ==> r.value < |acc| && acc[r.value].recurring && acc[r.value].title == title
    ensures r.Some? ==> forall k | 0 <= k < r.value :: !(acc[k].recurring && acc[k].title == title)
    ensures r.None? ==> forall k | 0 <= k < |acc| :: !(acc[k].recurring && acc[k].title == title)
  {
    if acc == [] then None
    else if acc[0].recurring && acc[0].title == title then Some(0)
    else match FindRecurring(acc[1..], title)
      case None => None
      case Some(i) => Some(i + 1)
  }

  /** At most one recurring reminder per title. */
  predicate UniqueRecurringTitles(s: seq<Reminder>) {
    forall i, j | 0 <= i < j < |s| && s[i].recurring && s[j].recurring :: s[i].title != s[j].title
  }

  /**
   * One step of the `reduce`: a non-recurring reminder, or a recurring one
   * whose title is new, is appended; otherwise it takes the kept one's place
   * when it has no parent or strictly more completions.
   */
  function DedupStep(acc: seq<Reminder>, r: Reminder): (out: seq<Reminder>)
    requires UniqueRecurringTitles(acc)
    ensures UniqueRecurringTitles(out)
    ensures multiset(out) <= multiset(acc) + multiset{r}
    ensures !r.recurring || FindRecurring(acc, r.title).None? ==> out == acc + [r]
    ensures r.recurring && FindRecurring(acc, r.title).Some? ==>
      var i := FindRecurring(acc, r.title).value;
      && |out| == |acc|
      && (forall k | 0 <= k < |acc| && k != i :: out[k] == acc[k])
      && (!HasParent(r) || r.timesCompleted > acc[i].timesCompleted ==> out[i] == r)
      && (HasParent(r) && r.timesCompleted <= acc[i].timesCompleted ==> out == acc)
  {
    if !r.recurring then acc + [r]
    else match FindRecurring(acc, r.title)
      case None => acc + [r]
      case Some(i) =>
        if !HasParent(r) || r.timesCompleted > acc[i].timesCompleted then
          assert multiset(acc[i := r]) == multiset(acc) - multiset{acc[i]} + multiset{r};
          acc[i := r]
        else acc
  }

  /** `recordatorios.reduce(DedupStep, [])` */
  function Dedup(xs: seq<Reminder>): (out: seq<Reminder>)
    ensures UniqueRecurringTitles(out)
    ensures multiset(out) <= multiset(xs)
  {
    if xs == [] then []
    else
      assert xs == xs[..|xs| - 1] + [xs[|xs| - 1]];
      DedupStep(Dedup(xs[..|xs| - 1]), xs[|xs| - 1])
  }

  /** Reducing one more element is one more step. */
  lemma DedupExtend(xs: seq<Reminder>, i: int)
    requires 0 <= i < |xs|
    ensures Dedup(xs[..i + 1]) == DedupStep(Dedup(xs[..i]), xs[i])
  {
    assert xs[..i + 1][..i] == xs[..i];
  }

  /** A step keeps every recurring row whose title differs from the incoming recurring row's. */
  lemma StepKeepsOtherTitles(acc: seq<Reminder>, r: Reminder, x: Reminder)
    requires UniqueRecurringTitles(acc)
    requires x in acc && x.recurring && !(r.recurring && r.title == x.title)
    ensures x in DedupStep(acc, r)
  {
    var out := DedupStep(acc, r);
    var j :| 0 <= j < |acc| && acc[j] == x;
    if r.recurring && FindRecurring(acc, r.title).Some? {
      assert j != FindRecurring(acc, r.title).value;
      assert out[j] == x;
    } else {
      assert out[j] == x;
    }
  }

  /** A recurring row with no parent always enters the accumulator, appended or in the kept row's place. */
  lemma StepKeepsOriginal(acc: seq<Reminder>, r: Reminder)
    requires UniqueRecurringTitles(acc) && r.recurring && !HasParent(r)
    ensures r in DedupStep(acc, r)
  {
    var out := DedupStep(acc, r);
    if FindRecurring(acc, r.title).Some? {
      assert out[FindRecurring(acc, r.title).value] == r;
    } else {
      assert out == acc + [r];
    }
  }

  /** In a list with unique recurring titles, a recurring row is the only one with its title. */
  lemma OnlyRepresentative(s: seq<Reminder>, x: Reminder)
    requires UniqueRecurringTitles(s) && x in s && x.recurring
    ensures forall y | y in s && y.recurring && y.title == x.title :: y == x
  {
    forall y | y in s && y.recurring && y.title == x.title ensures y == x {
      var a :| 0 <= a < |s| && s[a] == y;
      var b :| 0 <= b < |s| && s[b] == x;
      assert a == b;
    }
  }

  lemma {:induction false} DedupKeepsOriginal(xs: seq<Reminder>, k: int)
    requires 0 <= k < |xs| && xs[k].recurring && !HasParent(xs[k])
    requires forall j | k < j < |xs| :: !(xs[j].recurring && xs[j].title == xs[k].title)
    ensures xs[k] in Dedup(xs)
    decreases |xs|
  {
    var init, last := xs[..|xs| - 1], xs[|xs| - 1];
    var acc := Dedup(init);
    assert Dedup(xs) == DedupStep(acc, last);
    if k == |xs| - 1 {
      StepKeepsOriginal(acc, last);
    } else {
      DedupKeepsOriginal(init, k);
      StepKeepsOtherTitles(acc, last, xs[k]);
    }
  }

  /**
   * The replacement rule over a whole list: a recurring row with no parent
   * that no later recurring row of the same title follows is that title's
   * representative in the result, and the only one.
   */
  lemma DedupKeepsLastOriginal(xs: seq<Reminder>, k: int)
    requires 0 <= k < |xs| && xs[k].recurring && !HasParent(xs[k])
    requires forall j | k < j < |xs| :: !(xs[j].recurring && xs[j].title == xs[k].title)
    ensures xs[k] in Dedup(xs)
    ensures forall y | y in Dedup(xs) && y.recurring && y.title == xs[k].title :: y == xs[k]
  {
    DedupKeepsOriginal(xs, k);
    OnlyRepresentative(Dedup(xs), xs[k]);
  }

  /** The `reduce` as the source runs it: a loop that pushes to or overwrites its accumulator. */
  method DedupRecurring(xs: seq<Reminder>) returns (acc: seq<Reminder>)
    ensures acc == Dedup(xs)
  {
    acc := [];
    for i := 0 to |xs|
      invariant acc == Dedup(xs[..i])
    {
      DedupExtend(xs, i);
      var r := xs[i];
      ghost var prev := acc;
      if r.recurring {
        var existing := FindRecurring(acc, r.title);
        if existing.None? {
          acc := acc + [r];
        } else if !HasParent(r) || r.timesCompleted > acc[existing.value].timesCompleted {
          acc := acc[existing.value := r];
        }
      } else {
        acc := acc + [r];
      }
      assert acc == DedupStep(prev, r);
    }
    assert xs[..|xs|] == xs;
  }

  /** The titles of the recurring reminders of a list. */
  function RecurringTitles(s: seq<Reminder>): set<string> {
    set x | x in s && x.recurring :: x.title
  }

  /** One step adds the title of a recurring reminder and loses none. */
  lemma StepTitles(acc: seq<Reminder>, r: Reminder)
    requires UniqueRecurringTitles(acc)
    ensures RecurringTitles(DedupStep(acc, r)) == RecurringTitles(acc) + (if r.recurring then {r.title} else {})
  {
    var out := DedupStep(acc, r);
    if r.recurring && FindRecurring(acc, r.title).Some? {
      var i := FindRecurring(acc, r.title).value;
      if out != acc {
        assert out == acc[i := r];
        forall t | t in RecurringTitles(acc) ensures t in RecurringTitles(out) {
          var x :| x in acc && x.recurring && x.title == t;
          var k :| 0 <= k < |acc| && acc[k] == x;
          assert k != i ==> out[k] == x;
        }
        forall t | t in RecurringTitles(out) ensures t in RecurringTitles(acc) {
          var x :| x in out && x.recurring && x.title == t;
          var k :| 0 <= k < |out| && out[k] == x;
          assert k != i ==> acc[k] == x;
        }
      }
    } else {
      assert out == acc + [r];
    }
  }

  /** Every recurring title of the input keeps exactly one representative, and no other title appears. */
  lemma {:induction false} DedupTitles(xs: seq<Reminder>)
    ensures RecurringTitles(Dedup(xs)) == RecurringTitles(xs)
    ensures UniqueRecurringTitles(Dedup(xs))
  {
    if xs != [] {
      var init, last := xs[..|xs| - 1], xs[|xs| - 1];
      assert xs == init + [last];
      assert Dedup(xs) == DedupStep(Dedup(init), last);
      DedupTitles(init);
      StepTitles(Dedup(init), last);
      RecurringTitlesAppend(init, last);
    }
  }

  lemma RecurringTitlesAppend(s: seq<Reminder>, r: Reminder)
    ensures RecurringTitles(s + [r]) == RecurringTitles(s) + (if r.recurring then {r.title} else {})
  {
    assert forall x :: x in s + [r] <==> x in s || x == r;
  }

  /** The non-recurring reminders of a list, in order. */
  function NonRecurring(s: seq<Reminder>): seq<Reminder> {
    if s == [] then [] else (if s[0].recurring then [] else [s[0]]) + NonRecurring(s[1..])
  }

  lemma {:induction false} NonRecurringAppend(s: seq<Reminder>, r: Reminder)
    ensures NonRecurring(s + [r]) == NonRecurring(s) + (if r.recurring then [] else [r])
  {
    if s != [] {
      assert (s + [r])[0] == s[0] && (s + [r])[1..] == s[1..] + [r];
      NonRecurringAppend(s[1..], r);
    } else {
      assert NonRecurring([r]) == (if r.recurring then [] else [r]) + NonRecurring([]);
    }
  }

  lemma {:induction false} NonRecurringReplace(s: seq<Reminder>, i: int, r: Reminder)
    requires 0 <= i < |s| && s[i].recurring && r.recurring
    ensures NonRecurring(s[i := r]) == NonRecurring(s)
  {
    if i > 0 {
      assert s[i := r][0] == s[0] && s[i := r][1..] == s[1..][i - 1 := r];
      NonRecurringReplace(s[1..], i - 1, r);
    } else {
      assert s[i := r][1..] == s[1..];
    }
  }

  lemma StepNonRecurring(acc: seq<Reminder>, r: Reminder)
    requires UniqueRecurringTitles(acc)
    ensures NonRecurring(DedupStep(acc, r)) == NonRecurring(acc) + (if r.recurring then [] else [r])
  {
    NonRecurringAppend(acc, r);
    if r.recurring && FindRecurring(acc, r.title).Some? {
      NonRecurringReplace(acc, FindRecurring(acc, r.title).value, r);
    }
  }

  /** The non-recurring reminders pass through unchanged and in their order. */
  lemma {:induction false} DedupKeepsNonRecurring(xs: seq<Reminder>)
    ensures NonRecurring(Dedup(xs)) == NonRecurring(xs)
  {
    if xs != [] {
      var init, last := xs[..|xs| - 1], xs[|xs| - 1];
      assert xs == init + [last];
      DedupKeepsNonRecurring(init);
      StepNonRecurring(Dedup(init), last);
      NonRecurringAppend(init, last);
    }
  }

  /** A reminder named by the tests of the rule below. */
  function Sample(id: Id, parent: Option<Id>, count: int): Reminder {
    Reminder(id, "Gym", None, 0, None, "u", false, None, count, Missing,
             true, "DIARIO", true, Some("DIARIO"), parent, None, None)
  }

  /**
   * Which reminder survives depends on the order the query returns them in:
   * an original with no completions listed before a generated instance with
   * five loses to it, while listed after it, it wins.
   */
  lemma DedupDependsOnOrder()
    ensures var original, instance := Sample("a", None, 0), Sample("b", Some("a"), 5);
      Dedup([original, instance]) == [instance] && Dedup([instance, original]) == [original]
  {
    var original, instance := Sample("a", None, 0), Sample("b", Some("a"), 5);
    assert [original, instance][..1] == [original];
    assert [instance, original][..1] == [instance];
  }

  // ---------------------------------------------------------------------
  // GET
  // ---------------------------------------------------------------------

  /** `rows` holds every row of `user`, each once, as stored. */
  ghost predicate IsListingOf(rows: seq<Reminder>, m: map<Id, Reminder>, user: Id) {
    && (forall x | x in rows :: x.id in m && m[x.id] == x && x.owner == user)
    && (forall id | id in m && m[id].owner == user :: m[id] in rows)
    && (forall x | x in rows :: multiset(rows)[x] == 1)
  }

  datatype ListResponse =
    | Unauthorized           // 401
    | Listed(items: seq<Reminder>)  // 200

  /** Reads the caller's rows out of the table, in some order. */
  method OwnedRows(db: Database, user: Id) returns (rows: seq<Reminder>)
    requires db.Valid()
    ensures IsListingOf(rows, db.reminders, user)
  {
    var ids := set id | id in db.reminders && db.reminders[id].owner == user;
    var todo := ids;
    rows := [];
    while todo != {}
      invariant todo <= ids
      invariant forall x | x in rows :: x.id in ids - todo && db.reminders[x.id] == x
      invariant forall id | id in ids - todo :: db.reminders[id] in rows
      invariant forall x | x in rows :: multiset(rows)[x] == 1
      decreases todo
    {
      var id :| id in todo;
      var row := db.reminders[id];
      assert row !in rows;
      rows := rows + [row];
      todo := todo - {id};
    }
  }

  /**
   * `GET /api/recordatorios` at instant `now`. `fetched` is the list the
   * query returned: the caller's rows after the sweep in the stored order.
   */
  method Get(db: Database, session: Option<Id>, now: Instant) returns (resp: ListResponse, ghost fetched: seq<Reminder>)
    requires db.Valid()
    modifies db
    ensures db.Valid() && db.categories == old(db.categories) && db.users == old(db.users)
    ensures !Authenticated(session) ==> resp == Unauthorized && db.reminders == old(db.reminders)
    ensures Authenticated(session) ==>
      && db.reminders == ExpirySweep(old(db.reminders), session.value, MidnightOf(DayOf(now)))
      && IsListingOf(fetched, db.reminders, session.value)
      && Sorted(StoredOrder, fetched)
      && resp.Listed?
      && multiset(resp.items) == multiset(Dedup(fetched))
      && Sorted(DisplayOrder, resp.items)
  {
    fetched := [];
    if !Authenticated(session) {
      return Unauthorized, fetched;
    }
    var user := session.value;
    SweepExpired(db, user, MidnightOf(DayOf(now)));
    var rows := OwnedRows(db, user);
    var stored := SortedCopy(rows, StoredOrder);
    fetched := stored;
    forall x | x in stored ensures multiset(stored)[x] == 1 {
      assert x in multiset(rows);
    }
    var unique := DedupRecurring(stored);
    var ordered := SortedCopy(unique, DisplayOrder);
    resp := Listed(ordered);
  }

  // ---------------------------------------------------------------------
  // POST
  // ---------------------------------------------------------------------

  /** The store's update of one optional column: undefined keeps, null clears, a value sets. */
  function Apply<T>(f: Field<T>, current: Option<T>): (r: Option<T>)
    ensures f.Absent? ==> r == current
    ensures !f.Absent? ==> r == f.ToOption()
  {
    match f
    case Absent => current
    case Null => None
    case Present(v) => Some(v)
  }

  /** The row `findFirst` looks for: the caller's original recurring reminder of that title. */
  predicate IsOriginalRecurring(r: Reminder, user: Id, title: string) {
    r.owner == user && r.title == title && r.recurring && r.parentId.None?
  }

  /** A frequency field as the store receives it: the enum's name. */
  function NameField(f: Field<Frequency>): (r: Field<string>)
    ensures r.Absent? <==> f.Absent?
    ensures r.Null? <==> f.Null?
    ensures r.Present? ==> ParseFrequency(r.value) == Some(f.value)
  {
    match f
    case Absent => Absent
    case Null => Null
    case Present(v) => ParseFrequencyName(v); Present(FrequencyName(v))
  }

  /** The `update` of an existing original recurring reminder. */
  function Upserted(existing: Reminder, d: CreateData, due: Instant, next: Option<Instant>): (r: Reminder)
    ensures r.id == existing.id && r.owner == existing.owner
    ensures r.title == existing.title && r.recurring == existing.recurring
    ensures r.completed == existing.completed && r.completedAt == existing.completedAt
    ensures r.history == existing.history && r.timesCompleted == existing.timesCompleted
    ensures r.parentId == existing.parentId && r.lastNotification == existing.lastNotification
    ensures r.dueDate == due && r.nextNotification == next
    ensures r.notificationsEnabled == d.notificationsEnabled
    ensures r.reminderFrequency == FrequencyName(d.reminderFrequency)
    ensures d.description.Absent? ==> r.description == existing.description
    ensures !d.description.Absent? ==> r.description == d.description.ToOption()
    ensures d.categoryId.Absent? ==> r.categoryId == existing.categoryId
    ensures !d.categoryId.Absent? ==> r.categoryId == d.categoryId.ToOption()
  {
    existing.(
      description := Apply(d.description, existing.description),
      dueDate := due,
      categoryId := Apply(d.categoryId, existing.categoryId),
      notificationsEnabled := d.notificationsEnabled,
      reminderFrequency := FrequencyName(d.reminderFrequency),
      recurrenceFrequency := Apply(NameField(d.recurrenceFrequency), existing.recurrenceFrequency),
      nextNotification := next)
  }

  /** The `create`: a new row owned by the caller, recurrence frequency only when recurring. */
  function Created(id: Id, user: Id, d: CreateData, due: Instant, next: Option<Instant>): (r: Reminder)
    ensures r.id == id && r.owner == user && r.title == d.title && r.recurring == d.recurring
    ensures r.dueDate == due && r.nextNotification == next
    ensures !d.recurring ==> r.recurrenceFrequency.None?
    ensures !r.completed && r.timesCompleted == 0 && r.parentId.None?
  {
    Reminder(
      id, d.title, d.description.ToOption(), due, d.categoryId.ToOption(), user,
      false, None, 0, Missing,
      d.notificationsEnabled, FrequencyName(d.reminderFrequency),
      d.recurring, if d.recurring then NameField(d.recurrenceFrequency).ToOption() else None,
      None, None, next)
  }

  /** The status of the response and the row it carries. */
  datatype CreateResponse = CreateResponse(status: int, row: Option<Reminder>)

  /**
   * `POST /api/recordatorios` at local time `now`; `newId` is the id the
   * store assigns if a row is created.
   */
  method Post(db: Database, session: Option<Id>, req: CreateRequest, now: LocalDateTime, newId: Id)
    returns (resp: CreateResponse)
    requires db.Valid() && now.Valid() && newId !in db.reminders
    modifies db
    ensures db.Valid() && db.categories == old(db.categories) && db.users == old(db.users)
    ensures resp.status in {200, 201, 400, 401, 500}
    ensures resp.status in {400, 401, 500} ==> db.reminders == old(db.reminders) && resp.row.None?
    ensures resp.status == 401 <==> !Authenticated(session)
    ensures resp.status == 400 <==> Authenticated(session) && ParseCreateRequest(req).None?
    ensures resp.status == 500 <==>
      Authenticated(session) && ParseCreateRequest(req).Some? && DueDate(ParseCreateRequest(req).value, now).None?
    ensures resp.status in {200, 201} ==>
      Authenticated(session) && ParseCreateRequest(req).Some? && DueDate(ParseCreateRequest(req).value, now).Some?
    ensures resp.status in {200, 201} ==>
      var d := ParseCreateRequest(req).value;
      var due := DueDate(d, now).value;
      var next := FirstNotification(d.notificationsEnabled, d.reminderFrequency, now);
      && resp.row.Some?
      && (resp.status == 200 ==>
            && d.recurring
            && resp.row.value.id in old(db.reminders)
            && IsOriginalRecurring(old(db.reminders)[resp.row.value.id], session.value, d.title)
            && resp.row.value == Upserted(old(db.reminders)[resp.row.value.id], d, due, next)
            && db.reminders == old(db.reminders)[resp.row.value.id := resp.row.value])
      && (resp.status == 201 ==>
            && (d.recurring ==> forall id | id in old(db.reminders) :: !IsOriginalRecurring(old(db.reminders)[id], session.value, d.title))
            && resp.row.value == Created(newId, session.value, d, due, next)
            && db.reminders == old(db.reminders)[newId := resp.row.value])
  {
    if !Authenticated(session) {
      return CreateResponse(401, None);
    }
    var user := session.value;
    var parsed := ParseCreateRequest(req);
    if parsed.None? {
      return CreateResponse(400, None);
    }
    var d := parsed.value;
    var due := DueDate(d, now);
    if due.None? {
      return CreateResponse(500, None);
    }
    var next := FirstNotification(d.notificationsEnabled, d.reminderFrequency, now);
    if d.recurring {
      if id :| id in db.reminders && IsOriginalRecurring(db.reminders[id], user, d.title) {
        var updated := Upserted(db.reminders[id], d, due.value, next);
        db.reminders := db.reminders[id := updated];
        return CreateResponse(200, Some(updated));
      }
    }
    var row := Created(newId, user, d, due.value, next);
    db.reminders := db.reminders[newId := row];
    resp := CreateResponse(201, Some(row));
  }
}
