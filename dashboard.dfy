/**
 * The dashboard: loads the reminders and categories, filters the reminders
 * by category and by completion, shows them in display order, and lists the
 * five pending reminders due soonest.
 */
module Dashboard {
  import opened Calendar
  import opened Common
  import opened Ordering

  // ---------------------------------------------------------------------
  // Loading
  // ---------------------------------------------------------------------

  /** The parsed body of a response: invalid JSON, a JSON value that is not an array, or an array. */
  datatype Body<T> = InvalidJson | NotArray | ArrayBody(items: seq<T>)

  /** One of the two fetches: it threw, or it came back with a status and a body. */
  datatype Fetch<T> = Threw | Responded(ok: bool, body: Body<T>)

  /** A failure in either fetch or in reading either body: the catch handler empties both lists. */
  predicate Throws<T>(f: Fetch<T>) {
    f.Threw? || (f.ok && f.body.InvalidJson?)
  }

  /** What one fetch yields when nothing threw: the array when the status is ok and the body is one, else nothing. */
  function Yield<T>(f: Fetch<T>): seq<T> {
    if f.Responded? && f.ok && f.body.ArrayBody? then f.body.items else []
  }

  /** `loadData`: the two lists the dashboard holds afterwards. */
  function LoadData(reminders: Fetch<Reminder>, categories: Fetch<Category>): (r: (seq<Reminder>, seq<Category>))
    ensures Throws(reminders) || Throws(categories) ==> r.0 == [] && r.1 == []
    ensures !Throws(reminders) && !Throws(categories) ==>
      && (r.0 != [] ==> reminders.ok && reminders.body.ArrayBody? && r.0 == reminders.body.items)
      && (r.1 != [] ==> categories.ok && categories.body.ArrayBody? && r.1 == categories.body.items)
      && (reminders.ok && reminders.body.ArrayBody? ==> r.0 == reminders.body.items)
      && (categories.ok && categories.body.ArrayBody? ==> r.1 == categories.body.items)
  {
    if Throws(reminders) || Throws(categories) then ([], [])
    else (Yield(reminders), Yield(categories))
  }

  // ---------------------------------------------------------------------
  // Filters
  // ---------------------------------------------------------------------

  datatype CompletionFilter = All | Pending | Completed

  /** The category filter is active when it holds a non-empty id. */
  predicate CategoryActive(categoryFilter: Option<Id>) {
    categoryFilter.Some? && categoryFilter.value != ""
  }

  /** Clicking a category card selects it, or clears the filter when it is the one selected. */
  function ToggleCategory(categoryFilter: Option<Id>, id: Id): (f: Option<Id>)
    ensures f.None? <==> categoryFilter == Some(id)
    ensures f.Some? ==> f.value == id
  {
    if categoryFilter == Some(id) then None else Some(id)
  }

  /** Clicking the same card twice clears the filter, or restores it when that card was the one selected. */
  lemma ToggleTwiceClears(categoryFilter: Option<Id>, id: Id)
    ensures ToggleCategory(ToggleCategory(categoryFilter, id), id) == (if categoryFilter == Some(id) then Some(id) else None)
  {
  }

  /**
   * The predicate of `filter`: the category must match an active category
   * filter; "pending" keeps reminders that are not completed or whose due day
   * is not before today; "completed" keeps completed ones; "all" keeps all.
   */
  predicate Shown(r: Reminder, categoryFilter: Option<Id>, filter: CompletionFilter, today: int) {
    && (CategoryActive(categoryFilter) ==> r.categoryId == categoryFilter)
    && match filter
       case Pending => !r.completed || DayOf(r.dueDate) >= today
       case Completed => r.completed
       case All => true
  }

  /** `Array.prototype.filter` with `Shown`: every shown reminder, each as often as in the input, in input order. */
  function FilterShown(rs: seq<Reminder>, categoryFilter: Option<Id>, filter: CompletionFilter, today: int): (out: seq<Reminder>)
    ensures |out| <= |rs|
    ensures forall x :: multiset(out)[x] == if Shown(x, categoryFilter, filter, today) then multiset(rs)[x] else 0
  {
    if rs == [] then []
    else
      var init, last := rs[..|rs| - 1], rs[|rs| - 1];
      assert rs == init + [last];
      FilterShown(init, categoryFilter, filter, today) + (if Shown(last, categoryFilter, filter, today) then [last] else [])
  }

  /** The "all" filter with no category shows every reminder. */
  lemma FilterAllKeepsEverything(rs: seq<Reminder>, today: int)
    ensures multiset(FilterShown(rs, None, All, today)) == multiset(rs)
  {
    var out := FilterShown(rs, None, All, today);
    forall x ensures multiset(out)[x] == multiset(rs)[x] {
    }
  }

  /** The "pending" filter keeps every reminder that is not completed. */
  lemma PendingKeepsIncomplete(rs: seq<Reminder>, categoryFilter: Option<Id>, today: int, x: Reminder)
    requires x in rs && !x.completed
    requires !CategoryActive(categoryFilter) || x.categoryId == categoryFilter
    ensures x in FilterShown(rs, categoryFilter, Pending, today)
  {
    assert multiset(FilterShown(rs, categoryFilter, Pending, today))[x] == multiset(rs)[x];
  }

  /**
   * `filteredReminders`: the reminders the filters keep, sorted by the
   * display comparator (not-done first, then by due date). `now` is the
   * instant the dashboard renders.
   */
  method ShownReminders(rs: seq<Reminder>, categoryFilter: Option<Id>, filter: CompletionFilter, now: Instant)
    returns (shown: seq<Reminder>)
    ensures Sorted(DisplayOrder, shown)
    ensures forall x :: multiset(shown)[x] == if Shown(x, categoryFilter, filter, DayOf(now)) then multiset(rs)[x] else 0
  {
    var kept := FilterShown(rs, categoryFilter, filter, DayOf(now));
    shown := SortedCopy(kept, DisplayOrder);
  }

  // ---------------------------------------------------------------------
  // Upcoming due dates
  // ---------------------------------------------------------------------

  /** `pendingReminders`: the reminders that are not completed, each as often as in the input. */
  function PendingOnly(rs: seq<Reminder>): (out: seq<Reminder>)
    ensures forall x :: multiset(out)[x] == if !x.completed then multiset(rs)[x] else 0
  {
    if rs == [] then []
    else
      var init, last := rs[..|rs| - 1], rs[|rs| - 1];
      assert rs == init + [last];
      PendingOnly(init) + (if !last.completed then [last] else [])
  }

  /** What a prefix of a list sorted by due date leaves behind is due no earlier than anything in the prefix. */
  lemma SortedPrefixIsEarliest(s: seq<Reminder>, k: int)
    requires Sorted(DueOrder, s) && 0 <= k <= |s|
    ensures multiset(s[..k]) <= multiset(s)
    ensures forall x, y | x in multiset(s) - multiset(s[..k]) && y in s[..k] :: y.dueDate <= x.dueDate
  {
    assert s == s[..k] + s[k..];
    assert multiset(s) == multiset(s[..k]) + multiset(s[k..]);
    forall x, y | x in multiset(s) - multiset(s[..k]) && y in s[..k] ensures y.dueDate <= x.dueDate {
      assert x in s[k..];
      var j :| k <= j < |s| && s[j] == x;
      var i :| 0 <= i < k && s[i] == y;
      assert InOrder(DueOrder, s[i], s[j]);
    }
  }

  /**
   * `upcomingDueDates`: the pending reminders sorted by due date, at most
   * five. Every pending reminder left out is due no earlier than every one
   * listed.
   */
  method Upcoming(rs: seq<Reminder>) returns (up: seq<Reminder>)
    ensures |up| == if |PendingOnly(rs)| < 5 then |PendingOnly(rs)| else 5
    ensures Sorted(DueOrder, up)
    ensures forall x | x in up :: !x.completed && x in rs
    ensures multiset(up) <= multiset(PendingOnly(rs))
    ensures forall x, y | x in multiset(PendingOnly(rs)) - multiset(up) && y in up :: y.dueDate <= x.dueDate
  {
    var pending := PendingOnly(rs);
    var sorted := SortedCopy(pending, DueOrder);
    var k := if |sorted| < 5 then |sorted| else 5;
    up := sorted[..k];
    SortedPrefixIsEarliest(sorted, k);
    forall x | x in up ensures !x.completed && x in rs {
      assert x in multiset(pending);
    }
  }
}
