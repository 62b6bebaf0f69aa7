/**
 * The weekly view of completions: the Monday-to-Sunday week around a
 * selected date, the completions that fall in it, their bucketing by day,
 * week navigation, and the delete and edit actions on one completion.
 */
module WeeklyView {
  import opened Calendar
  import opened Common
  import opened Text
  import opened CompletionHistory

  /** `diaSemana === 0 ? 6 : diaSemana - 1`: days since the last Monday. */
  function DaysSinceMonday(weekday: int): int {
    if weekday == 0 then 6 else weekday - 1
  }

  /** The day number of the Monday that starts the week of `selected`. */
  function WeekStart(selected: Instant): (monday: int)
    ensures Weekday(monday) == 1
    ensures 0 <= DayOf(selected) - monday <= 6
  {
    var d := DayOf(selected);
    var k := DaysSinceMonday(Weekday(d));
    WeekdayAfter(d - k, k);
    d - k
  }

  /** There is only one Monday at most six days back, so the week start is determined by the day. */
  lemma WeekStartUnique(selected: Instant, monday: int)
    requires Weekday(monday) == 1 && 0 <= DayOf(selected) - monday <= 6
    ensures monday == WeekStart(selected)
  {
    var k := DayOf(selected) - monday;
    WeekdayAfter(monday, k);
    WeekdayAfter(WeekStart(selected), DayOf(selected) - WeekStart(selected));
  }

  /** `dias`: the seven days of the week, Monday first. */
  function WeekDays(monday: int): (days: seq<int>)
    requires Weekday(monday) == 1
    ensures |days| == 7
    ensures forall i | 0 <= i < 7 :: days[i] == monday + i && Weekday(days[i]) == (i + 1) % 7
  {
    var days := seq(7, i => monday + i);
    forall i | 0 <= i < 7 ensures Weekday(days[i]) == (i + 1) % 7 {
      WeekdayAfter(monday, i);
    }
    days
  }

  /** `addWeeks(selectedDate, 1)` and `subWeeks(selectedDate, 1)`. */
  function ShiftWeek(selected: Instant, weeks: int): Instant {
    selected + weeks * 7 * MsPerDay
  }

  /** Moving the selected date by a week moves the week start by exactly seven days. */
  lemma ShiftWeekMovesWeekStart(selected: Instant, weeks: int)
    ensures WeekStart(ShiftWeek(selected, weeks)) == WeekStart(selected) + 7 * weeks
  {
    var s' := ShiftWeek(selected, weeks);
    assert s' == selected + (7 * weeks) * MsPerDay;
    DayOfShift(selected, 7 * weeks);
    WeekdayAfter(WeekStart(selected), 7 * weeks);
    WeekStartUnique(s', WeekStart(selected) + 7 * weeks);
  }

  /** `isCurrentWeek`: the shown week is the week of `now`. */
  predicate IsCurrentWeek(selected: Instant, now: Instant) {
    WeekStart(selected) == WeekStart(now)
  }

  /** The shown week is current exactly when the selected day lies in the Monday-to-Sunday week of today. */
  lemma IsCurrentWeekMeaning(selected: Instant, now: Instant)
    ensures IsCurrentWeek(selected, now) <==> WeekStart(now) <= DayOf(selected) <= WeekStart(now) + 6
  {
    if WeekStart(now) <= DayOf(selected) <= WeekStart(now) + 6 {
      WeekStartUnique(selected, WeekStart(now));
    }
  }

  // ---------------------------------------------------------------------
  // Completions of the week
  // ---------------------------------------------------------------------

  /** One completion shown in the view: the reminder, the day of the completion and its stored timestamp. */
  datatype CompletedItem = CompletedItem(reminder: Reminder, day: int, completedAt: string)

  /**
   * The range test of the source: the completion's midnight is at or after
   * Monday's midnight and at or before Sunday 23:59:59.999.
   */
  predicate InWeek(monday: int, completed: Instant) {
    var completedMidnight := MidnightOf(DayOf(completed));
    MidnightOf(monday) <= completedMidnight <= MidnightOf(monday + 6) + MsPerDay - 1
  }

  /** The range test is a test on day numbers: Monday through Sunday inclusive. */
  lemma InWeekByDay(monday: int, completed: Instant)
    ensures InWeek(monday, completed) <==> monday <= DayOf(completed) <= monday + 6
  {
  }

  /** `!reminder.completionHistory || reminder.timesCompleted === 0`: the reminder is skipped. */
  predicate Skipped(r: Reminder) {
    !IsTruthy(r.history) || r.timesCompleted == 0
  }

  /** The items one history contributes, in history order. `parse` is `new Date(text)`. */
  function EntryItems(r: Reminder, h: seq<string>, monday: int, parse: string -> Option<Instant>): seq<CompletedItem> {
    if h == [] then []
    else
      var e := h[|h| - 1];
      EntryItems(r, h[..|h| - 1], monday, parse)
        + (if parse(e).Some? && InWeek(monday, parse(e).value) then [CompletedItem(r, DayOf(parse(e).value), e)] else [])
  }

  function ReminderItems(r: Reminder, monday: int, parse: string -> Option<Instant>): seq<CompletedItem> {
    if Skipped(r) then [] else EntryItems(r, Normalize(r.history), monday, parse)
  }

  /** `completedItems`, in reminder-then-history order. */
  function CompletedItems(rs: seq<Reminder>, monday: int, parse: string -> Option<Instant>): seq<CompletedItem> {
    if rs == [] then []
    else CompletedItems(rs[..|rs| - 1], monday, parse) + ReminderItems(rs[|rs| - 1], monday, parse)
  }

  /** What an item of one history is: an entry of that history whose date falls in the week. */
  lemma {:induction false} EntryItemsMembership(r: Reminder, h: seq<string>, monday: int, parse: string -> Option<Instant>, it: CompletedItem)
    ensures it in EntryItems(r, h, monday, parse) <==>
      && it.reminder == r && it.completedAt in h
      && parse(it.completedAt).Some? && it.day == DayOf(parse(it.completedAt).value)
      && monday <= it.day <= monday + 6
  {
    if h != [] {
      var init, e := h[..|h| - 1], h[|h| - 1];
      assert h == init + [e];
      EntryItemsMembership(r, init, monday, parse, it);
      if parse(e).Some? {
        InWeekByDay(monday, parse(e).value);
      }
    }
  }

  /**
   * The items of the week are exactly the in-week entries of the histories
   * of the reminders that are not skipped.
   */
  lemma {:induction false} CompletedItemsMembership(rs: seq<Reminder>, monday: int, parse: string -> Option<Instant>, it: CompletedItem)
    ensures it in CompletedItems(rs, monday, parse) <==>
      && it.reminder in rs && !Skipped(it.reminder)
      && it.completedAt in Normalize(it.reminder.history)
      && parse(it.completedAt).Some? && it.day == DayOf(parse(it.completedAt).value)
      && monday <= it.day <= monday + 6
  {
    if rs != [] {
      var init, r := rs[..|rs| - 1], rs[|rs| - 1];
      assert rs == init + [r];
      CompletedItemsMembership(init, monday, parse, it);
      if !Skipped(r) {
        EntryItemsMembership(r, Normalize(r.history), monday, parse, it);
      }
    }
  }

  /** The inner `forEach`: the items one reminder's history contributes. */
  method CollectEntryItems(r: Reminder, history: seq<string>, monday: int, parse: string -> Option<Instant>)
    returns (items: seq<CompletedItem>)
    ensures items == EntryItems(r, history, monday, parse)
  {
    items := [];
    for j := 0 to |history|
      invariant items == EntryItems(r, history[..j], monday, parse)
    {
      assert history[..j + 1][..j] == history[..j];
      var e := history[j];
      var completed := parse(e);
      if completed.Some? {
        var completedMidnight := MidnightOf(DayOf(completed.value));
        if MidnightOf(monday) <= completedMidnight <= MidnightOf(monday + 6) + MsPerDay - 1 {
          items := items + [CompletedItem(r, DayOf(completed.value), e)];
        }
      }
    }
    assert history[..|history|] == history;
  }

  /** The nested `forEach` loops that push the items. */
  method CollectCompletedItems(rs: seq<Reminder>, selected: Instant, parse: string -> Option<Instant>)
    returns (items: seq<CompletedItem>)
    ensures items == CompletedItems(rs, WeekStart(selected), parse)
  {
    var monday := WeekStart(selected);
    items := [];
    for i := 0 to |rs|
      invariant items == CompletedItems(rs[..i], monday, parse)
    {
      assert rs[..i + 1][..i] == rs[..i];
      var r := rs[i];
      if !Skipped(r) {
        var more := CollectEntryItems(r, Normalize(r.history), monday, parse);
        items := items + more;
      }
    }
    assert rs[..|rs|] == rs;
  }

  // ---------------------------------------------------------------------
  // Bucketing by day
  // ---------------------------------------------------------------------

  /** The items of one day, in order. */
  function ItemsOn(items: seq<CompletedItem>, day: int): seq<CompletedItem> {
    if items == [] then []
    else ItemsOn(items[..|items| - 1], day) + (if items[|items| - 1].day == day then [items[|items| - 1]] else [])
  }

  lemma {:induction false} ItemsOnMembership(items: seq<CompletedItem>, day: int, it: CompletedItem)
    ensures it in ItemsOn(items, day) <==> it in items && it.day == day
  {
    if items != [] {
      assert items == items[..|items| - 1] + [items[|items| - 1]];
      ItemsOnMembership(items[..|items| - 1], day, it);
    }
  }

  /** `itemsPorDia`: one bucket per day of the week. */
  function ItemsByDay(items: seq<CompletedItem>, monday: int): (buckets: seq<seq<CompletedItem>>)
    ensures |buckets| == 7
  {
    seq(7, i => ItemsOn(items, monday + i))
  }

  /** Each item of the week is in the bucket of its own day and in no other. */
  lemma ItemsByDayPlacesEachItem(items: seq<CompletedItem>, monday: int, it: CompletedItem)
    requires it in items && monday <= it.day <= monday + 6
    ensures forall i | 0 <= i < 7 :: it in ItemsByDay(items, monday)[i] <==> i == it.day - monday
  {
    forall i | 0 <= i < 7 ensures it in ItemsByDay(items, monday)[i] <==> i == it.day - monday {
      ItemsOnMembership(items, monday + i, it);
    }
  }

  /** Total size of the first `n` buckets. */
  function BucketTotal(items: seq<CompletedItem>, monday: int, n: nat): int {
    if n == 0 then 0 else BucketTotal(items, monday, n - 1) + |ItemsOn(items, monday + n - 1)|
  }

  lemma {:induction false} BucketTotalAppend(items: seq<CompletedItem>, it: CompletedItem, monday: int, n: nat)
    ensures BucketTotal(items + [it], monday, n) == BucketTotal(items, monday, n) + (if monday <= it.day < monday + n then 1 else 0)
  {
    assert (items + [it])[..|items|] == items;
    if n > 0 {
      BucketTotalAppend(items, it, monday, n - 1);
    }
  }

  lemma {:induction false} BucketTotalEmpty(monday: int, n: nat)
    ensures BucketTotal([], monday, n) == 0
  {
    if n > 0 {
      BucketTotalEmpty(monday, n - 1);
    }
  }

  /** When every item lies in the week, the buckets together hold exactly as many items as the list. */
  lemma {:induction false} ItemsByDayIsPartition(items: seq<CompletedItem>, monday: int)
    requires forall k | 0 <= k < |items| :: monday <= items[k].day <= monday + 6
    ensures BucketTotal(items, monday, 7) == |items|
  {
    if items != [] {
      var init, last := items[..|items| - 1], items[|items| - 1];
      assert items == init + [last];
      ItemsByDayIsPartition(init, monday);
      BucketTotalAppend(init, last, monday, 7);
    } else {
      BucketTotalEmpty(monday, 7);
    }
  }

  // ---------------------------------------------------------------------
  // Delete and edit
  // ---------------------------------------------------------------------

  /** `reminders.find(r => r.id === id)` */
  function FindById(rs: seq<Reminder>, id: Id): (r: Option<Reminder>)
    ensures r.Some? ==> r.value in rs && r.value.id == id
    ensures r.Some? ==> exists k | 0 <= k < |rs| :: rs[k] == r.value && forall j | 0 <= j < k :: rs[j].id != id
    ensures r.None? ==> forall k | 0 <= k < |rs| :: rs[k].id != id
  {
    if rs == [] then None
    else if rs[0].id == id then Some(rs[0])
    else FindById(rs[1..], id)
  }

  /** The PATCH request a history edit sends: the reminder's id and the new history payload. */
  datatype HistoryPatch = HistoryPatch(reminderId: Id, payload: HistoryPayload)

  /**
   * `deleteCompletionEntry`: nothing is sent when the confirmation is
   * declined or the reminder is not found; otherwise every entry equal to
   * `completedAt` is removed from the stored history.
   */
  function DeleteCompletionEntry(confirmed: bool, rs: seq<Reminder>, reminderId: Id, completedAt: string): (p: Option<HistoryPatch>)
    ensures p.Some? <==> confirmed && FindById(rs, reminderId).Some?
    ensures p.Some? ==>
      var current := NormalizeForEdit(FindById(rs, reminderId).value.history);
      && p.value.reminderId == reminderId
      && Consistent(p.value.payload)
      && p.value.payload.completionHistory == RemoveAll(current, completedAt)
      && completedAt !in p.value.payload.completionHistory
  {
    if !confirmed then None
    else match FindById(rs, reminderId)
      case None => None
      case Some(r) =>
        RemoveAllCounts(NormalizeForEdit(r.history), completedAt);
        Some(HistoryPatch(reminderId, PayloadFor(RemoveAll(NormalizeForEdit(r.history), completedAt))))
  }

  /** The completion being edited: the reminder and the stored timestamp. */
  datatype EditingItem = EditingItem(reminderId: Id, completedAt: string)

  /**
   * `saveEdit`: every entry equal to the edited timestamp becomes
   * `newCompletedAt`, and the history is sorted. `newCompletedAt` is the ISO
   * text of the date and time entered, or None when they do not form a valid
   * date (`toISOString` throws before the request). Nothing is sent without
   * an item being edited, when the reminder is not found, or on that throw.
   */
  function SaveEdit(editing: Option<EditingItem>, rs: seq<Reminder>, newCompletedAt: Option<string>): (p: Option<HistoryPatch>)
    ensures p.Some? <==> editing.Some? && FindById(rs, editing.value.reminderId).Some? && newCompletedAt.Some?
    ensures p.Some? ==>
      var current := NormalizeForEdit(FindById(rs, editing.value.reminderId).value.history);
      var h := p.value.payload.completionHistory;
      && p.value.reminderId == editing.value.reminderId
      && Consistent(p.value.payload)
      && |h| == |current|
      && SortedStrings(h)
      && multiset(h) == multiset(ReplaceAll(current, editing.value.completedAt, newCompletedAt.value))
  {
    match editing
    case None => None
    case Some(item) =>
      match FindById(rs, item.reminderId)
      case None => None
      case Some(r) =>
        match newCompletedAt
        case None => None
        case Some(iso) =>
          var current := NormalizeForEdit(r.history);
          Some(HistoryPatch(item.reminderId, PayloadFor(SortStrings(ReplaceAll(current, item.completedAt, iso)))))
  }
}
