# Recordatorios — a Dafny model of the reminders application

The application is a personal reminders service: a signed-in user keeps
reminders (one-off or recurring daily, weekly or monthly), groups them in
categories, marks them done, and edits the history of when each recurring
reminder was completed. This project models its core:

- `GET /api/recordatorios`:
  - it resets the caller's completed reminders whose due date has passed;
  - it lists the caller's rows;
  - it keeps one reminder per recurring title;
  - it returns the list in display order.
- `POST /api/recordatorios`:
  - it checks the request schema and its cross-field rule;
  - it derives the due date of a recurring reminder and the first notification date;
  - it updates an existing recurring original or creates a new row.
- The notification sweep: every due reminder moves to its next notification date.
- Completion history, as three views of the same stored history (a list, JSON text, an object or nothing):
  - the weekly "completed" view (week navigation, grouping by day, delete and edit of one completion);
  - the two reminder cards (completion toggle, due badge, history rows newest first);
  - the history modal.
- The dashboard:
  - loading of reminders and categories;
  - category and completion filters;
  - ordering;
  - the five upcoming reminders.
- The dialogs:
  - the "new reminder" dialog (defaults, checks, request body, messages);
  - the "edit reminder" dialog (form fill, checks, PATCH body, messages).
- The global loading counter, and the Firebase error messages.
- Session resolution from a Firebase session cookie, which creates or updates the user row.
- `GET` and `POST /api/categorias` with the colour palette.

Time is an integer count of milliseconds of local time. Day 0 is 1970-01-01, a Thursday. Calendar arithmetic (month lengths, `setDate`, `setMonth` overflow) is written out in `Calendar`. The store is a `Database` class with maps keyed by id (by e-mail for users). The handlers are methods that update it.

Two consequences of the code worth noting:
- A monthly reminder created on the last day of a month, after midnight, is due at midnight of the last day of the next month: the code compares now with midnight of this month's last day, and its fallback `new Date(y, m + 2, 0)` is next month's last day.
- Which of two recurring rows with the same title survives the list's deduplication depends on the order in which the store returns them (`RemindersRoute.DedupDependsOnOrder`).

## Model

| member | source | states |
|---|---|---|
| Calendar.Weekday | app/api/recordatorios/route.ts:158-160 | `getDay()` of a day number is in 0..6, with Sunday 0 |
| Calendar.WeekdayAfter | app/api/recordatorios/route.ts:157-162 | moving k days on moves the weekday k steps around the week |
| Calendar.DaysInMonth | app/api/recordatorios/route.ts:163-169 | month lengths with the Gregorian leap rule, from 28 to 31 |
| Calendar.NextMonthStart | app/api/recordatorios/route.ts:163-169 | the first day of the next month follows the last day of this one, also across a year |
| Calendar.EndOfMonth | app/api/recordatorios/route.ts:165 | `new Date(y, m+1, 0)` is the last valid day of month m |
| Calendar.DayOfToInstant | app/api/recordatorios/route.ts:154-156 | the day of a local date-time is its date's day number |
| Calendar.AddOneMonth | lib/notificaciones.ts:55-56 | `setMonth(+1)` keeps the time of day and adds exactly the current month's length in days, so the result is the same day next month when that day exists and overflows otherwise |
| Common.ParseFrequency | app/api/recordatorios/route.ts:12-14 | only the three enum names parse |
| Common.ParseFrequencyName | app/api/recordatorios/route.ts:12-14 | parsing a frequency's name gives the frequency back |
| Text.LexLeTotal | components/WeeklyCompletedView.tsx:208 | the default `sort()` order on strings is total |
| Text.LexLeAntisymmetric | components/WeeklyCompletedView.tsx:208 | two strings ordered both ways are equal |
| Text.LexLeTransitive | components/WeeklyCompletedView.tsx:208 | the string order is transitive |
| Text.SortStrings | components/WeeklyCompletedView.tsx:208 | the result is sorted and a permutation of the input |
| Text.SortedUnique | components/WeeklyCompletedView.tsx:208 | two sorted permutations of the same strings are equal, so the sorted history does not depend on the sort algorithm |
| Text.PrefixBefore | lib/firebase-auth.ts:57 | `split(sep)[0]` is the longest prefix without the separator, and the separator follows it when it is shorter than the text |
| CompletionHistory.Normalize | components/CompletionHistoryModal.tsx:40-57 | absent history is empty, a list is kept, JSON text gives its parse (empty on failure), an object gives its values |
| CompletionHistory.EditPathIgnoresObjects | components/WeeklyCompletedView.tsx:141-152 | the weekly view's edit paths read the same history as the display except object-shaped history, which they drop |
| CompletionHistory.LastEntry | components/CompletionHistoryModal.tsx:69 | the last entry of a non-empty history, none for an empty one |
| CompletionHistory.PayloadFor | components/CompletionHistoryModal.tsx:66-70 | the payload carries the history, `completedAt` is its last entry and the count is its length |
| CompletionHistory.ConsistentIsDetermined | components/CompletionHistoryModal.tsx:66-70 | a consistent payload is exactly the payload of its own history |
| CompletionHistory.NewestFirstRow | components/CompletionHistoryModal.tsx:136-140 | row i of the newest-first list is the entry at `length - 1 - i` |
| CompletionHistory.NewestFirstInvolution | components/RecordatorioCard.tsx:351 | reversing the reversed history gives the history back |
| CompletionHistory.RemoveAt | components/CompletionHistoryModal.tsx:84-89 | removing one index drops that entry and keeps the others in order |
| CompletionHistory.RemoveAllCounts | components/WeeklyCompletedView.tsx:154 | filtering out a timestamp removes all its copies and keeps every other entry's count |
| CompletionHistory.RemoveAllAppend | components/WeeklyCompletedView.tsx:154 | filtering distributes over concatenation |
| CompletionHistory.ReplaceAll | components/WeeklyCompletedView.tsx:206-207 | every copy of the edited timestamp becomes the new one, and the other entries stay in place |
| CompletionHistory.ReplaceEntry | components/CompletionHistoryModal.tsx:156-161 | the copy differs from the history only at the edited index |
| Ordering.CompareAgreesWithKey | app/api/recordatorios/route.ts:107-125 | the list comparator is negative, zero or positive exactly as the key (done last, then due date) is less, equal or greater |
| Ordering.DisplayOrderMeaning | app/api/recordatorios/route.ts:107-125 | in display order, pending reminders come before completed ones and, within each group, earlier due dates come first |
| Ordering.SortInPlace | app/api/recordatorios/route.ts:107-125 | sorting the array in place leaves it sorted and a permutation of its old contents |
| Ordering.SortedCopy | app/dashboard/DashboardClient.tsx:78-93 | the sorted copy is sorted and a permutation of the input |
| ReminderRules.BoolWithDefault | app/api/recordatorios/route.ts:11 | an absent flag takes its default, a present one is kept, null is rejected |
| ReminderRules.FrequencyWithDefault | app/api/recordatorios/route.ts:12 | an absent frequency takes its default, only the enum names are accepted |
| ReminderRules.OptionalFrequency | app/api/recordatorios/route.ts:14 | an optional nullable frequency keeps absent and null and accepts only the enum names |
| ReminderRules.RefineRejects | app/api/recordatorios/route.ts:15-24 | a non-recurring request without a due date, or a recurring one without a frequency, fails the refinement |
| ReminderRules.ParseCreateRequest | app/api/recordatorios/route.ts:6-28 | a request is accepted iff its fields pass the schema and the refinement holds; the parsed fields are the request's |
| ReminderRules.DailyDueDate | app/api/recordatorios/route.ts:154-156 | a daily reminder is due at the same time tomorrow |
| ReminderRules.WeeklyDueDate | app/api/recordatorios/route.ts:157-162 | a weekly reminder is due at the same time on the coming Sunday, a full week ahead when today is Sunday |
| ReminderRules.MonthlyDueDate | app/api/recordatorios/route.ts:163-169 | a monthly reminder is due at midnight of this month's last day, or of next month's last day when that midnight has passed |
| ReminderRules.MonthlyDueDateIsMonthEnd | app/api/recordatorios/route.ts:163-169 | the due date moves to next month exactly on the last day of the month after its first millisecond, and it is never more than 31 days ahead |
| ReminderRules.DueDate | app/api/recordatorios/route.ts:147-176 | recurring reminders get the computed date, never before now; others get their parsed date, and an unparsable date gives none |
| ReminderRules.NotificationStep | app/api/recordatorios/route.ts:183-192 | the next notification is one day, seven days or one calendar month later |
| ReminderRules.FirstNotification | app/api/recordatorios/route.ts:178-193 | a notification date exists iff notifications are on, and it is later than now |
| RemindersRoute.SweepChangesOnlyExpired | app/api/recordatorios/route.ts:40-62 | the expiry sweep resets exactly the caller's completed rows due before today and leaves every other row alone |
| RemindersRoute.SweepIdempotent | app/api/recordatorios/route.ts:40-62 | after a sweep nothing is expired, so a second sweep changes nothing |
| RemindersRoute.SweepExpired | app/api/recordatorios/route.ts:40-62 | the store after the update is the sweep of the store before |
| RemindersRoute.FindRecurring | app/api/recordatorios/route.ts:80-82 | `find` returns the first recurring row with the title, or none when there is none |
| RemindersRoute.DedupStep | app/api/recordatorios/route.ts:78-101 | a one-off row, or a recurring row with a new title, is appended; otherwise the kept row of that title is replaced in place exactly when the new row has no parent or strictly more completions, and every other row stays; recurring titles stay unique |
| RemindersRoute.Dedup | app/api/recordatorios/route.ts:75-104 | the deduplicated list has unique recurring titles and is a sub-multiset of the input |
| RemindersRoute.StepKeepsOriginal | app/api/recordatorios/route.ts:84-96 | a recurring row with no parent always enters the list, appended or in the kept row's place |
| RemindersRoute.StepKeepsOtherTitles | app/api/recordatorios/route.ts:78-101 | a step never drops a recurring row of another title |
| RemindersRoute.DedupKeepsLastOriginal | app/api/recordatorios/route.ts:75-104 | a recurring row with no parent that no later row of its title follows is that title's one representative in the result |
| RemindersRoute.DedupRecurring | app/api/recordatorios/route.ts:75-104 | the loop computes the reduce |
| RemindersRoute.StepTitles | app/api/recordatorios/route.ts:78-101 | a step adds the row's title to the recurring titles when it is recurring, and nothing otherwise |
| RemindersRoute.DedupTitles | app/api/recordatorios/route.ts:75-104 | every recurring title of the input appears exactly once in the output |
| RemindersRoute.DedupKeepsNonRecurring | app/api/recordatorios/route.ts:98-101 | the one-off reminders pass through unchanged and in order |
| RemindersRoute.DedupDependsOnOrder | app/api/recordatorios/route.ts:90-96 | an original followed by an instance with more completions keeps the instance, while the reverse order keeps the original |
| RemindersRoute.OwnedRows | app/api/recordatorios/route.ts:64-71 | the rows fetched are exactly the caller's reminders, each once |
| RemindersRoute.Get | app/api/recordatorios/route.ts:30-134 | 401 without a session; otherwise the store is swept, and the response is the deduplicated listing in display order |
| RemindersRoute.Apply | app/api/recordatorios/route.ts:210-217 | an absent field leaves the stored value, a null or present one replaces it |
| RemindersRoute.NameField | app/api/recordatorios/route.ts:215-216 | a frequency is stored under its enum name, and absent and null are kept |
| RemindersRoute.Upserted | app/api/recordatorios/route.ts:208-220 | updating an original keeps its identity, title, completion state and history, and replaces the due date, notification settings and given fields |
| RemindersRoute.Created | app/api/recordatorios/route.ts:225-239 | a new row belongs to the caller, is pending with no completions and no parent, and has no recurrence frequency unless recurring |
| RemindersRoute.Post | app/api/recordatorios/route.ts:136-255 | 401, 400 and 500 exactly in their cases and without writes; 200 when a recurring original with the title is updated, else 201 with the created row |
| Notifications.NextAfter | lib/notificaciones.ts:46-57 | an unknown frequency gives no date, a known one the next step, always later than now |
| Notifications.NotifyChangesOnlySelected | lib/notificaciones.ts:44-66 | only due reminders with notifications on change; each gets `lastNotification = now` and its next date |
| Notifications.RerunSkipsProcessed | lib/notificaciones.ts:10-66 | a second sweep at the same instant selects none of the reminders the first one processed |
| Notifications.ProcessNotifications | lib/notificaciones.ts:6-73 | the store becomes the sweep of the store, and the count returned is the number of reminders selected |
| WeeklyView.WeekStart | components/WeeklyCompletedView.tsx:35-41 | the week's start is a Monday within the six days before the selected day |
| WeeklyView.WeekStartUnique | components/WeeklyCompletedView.tsx:35-41 | that Monday is the only one |
| WeeklyView.WeekDays | components/WeeklyCompletedView.tsx:46-50 | seven consecutive days from Monday to Sunday |
| WeeklyView.ShiftWeekMovesWeekStart | components/WeeklyCompletedView.tsx:110-118 | previous and next week move the week's start by exactly seven days |
| WeeklyView.IsCurrentWeekMeaning | components/WeeklyCompletedView.tsx:124-133 | "current week" holds iff the selected day falls in the week of today |
| WeeklyView.InWeekByDay | components/WeeklyCompletedView.tsx:74-83 | a completion is in the week iff its day is Monday to Sunday of it |
| WeeklyView.EntryItemsMembership | components/WeeklyCompletedView.tsx:74-90 | an item is listed iff it comes from a parsable history entry inside the week |
| WeeklyView.CompletedItemsMembership | components/WeeklyCompletedView.tsx:52-91 | the items are exactly the in-week completions of reminders that are not skipped |
| WeeklyView.CollectEntryItems | components/WeeklyCompletedView.tsx:73-90 | the inner loop collects exactly the in-week items of one history |
| WeeklyView.CollectCompletedItems | components/WeeklyCompletedView.tsx:52-91 | the loop collects exactly those items |
| WeeklyView.ItemsOnMembership | components/WeeklyCompletedView.tsx:97-101 | a day's list holds exactly the items of that day |
| WeeklyView.ItemsByDay | components/WeeklyCompletedView.tsx:93-102 | one list per weekday, seven in all |
| WeeklyView.ItemsByDayPlacesEachItem | components/WeeklyCompletedView.tsx:93-102 | each item of the week is in its own day's list and in no other |
| WeeklyView.ItemsByDayIsPartition | components/WeeklyCompletedView.tsx:93-102 | the day lists together hold as many items as the week |
| WeeklyView.FindById | components/WeeklyCompletedView.tsx:138 | the first reminder with the id, or none when no reminder has it |
| WeeklyView.DeleteCompletionEntry | components/WeeklyCompletedView.tsx:135-165 | with confirmation and a known reminder, the payload removes every copy of the timestamp and is consistent; otherwise nothing is sent |
| WeeklyView.SaveEdit | components/WeeklyCompletedView.tsx:182-219 | nothing is sent without an edited item, a known reminder or a valid new date (`toISOString` throws); otherwise the payload is the history with every copy of the timestamp replaced, sorted, of the same length and consistent |
| Cards.CardState.constructor | components/ReminderCard.tsx:17-19 | the card starts with the server's completion and not loading |
| Cards.CardState.Sync | components/ReminderCard.tsx:28-44 | a new reminder resets the local state; the same reminder is overwritten only when no toggle is in flight (the Spanish-named card repeats it at components/RecordatorioCard.tsx, lines 23-51) |
| Cards.CardState.BeginToggle | components/ReminderCard.tsx:46-62 | a click while loading sends nothing; otherwise the request asks for the opposite of the local value, and the card is loading and updating with its local value unchanged |
| Cards.CardState.FinishToggle | components/ReminderCard.tsx:63-90 | a successful mark leaves the card unmarked so it can be marked again, a successful unmark adopts the server's value, a failure keeps the local value and clears the updating flag; loading always ends (repeated at components/RecordatorioCard.tsx, lines 53-119) |
| Cards.CardState.ReloadSettled | components/ReminderCard.tsx:75-80 | the reload timer clears only the in-flight flag |
| Cards.MarkThenSucceed | components/ReminderCard.tsx:46-90 | marking an unmarked card sends `completed = true` and leaves the card unmarked, not loading, and still updating until the reload |
| Cards.CeilDiv | components/ReminderCard.tsx:155 | `Math.ceil(x / d)` is the least q with x <= q * d |
| Cards.DaysRemainingMeaning | components/ReminderCard.tsx:153-156 | days remaining is negative, 0 or 1 exactly for the stated distances to the due time |
| Cards.DueBadge | components/ReminderCard.tsx:257-277 | no badge when done; otherwise expired, today, tomorrow or n days, red, orange, yellow or blue exactly on their day ranges (repeated at components/RecordatorioCard.tsx, lines 280-298) |
| Cards.ShownHistory | components/ReminderCard.tsx:286-331 | no rows without completions; otherwise the normalised history, newest first (repeated at components/RecordatorioCard.tsx, lines 308-351) |
| Cards.EditRow | components/ReminderCard.tsx:344-350 | an invalid date sends nothing (`toISOString` throws); otherwise editing row i changes the entry at `length - 1 - i` only and yields a consistent payload |
| Cards.DeleteRow | components/ReminderCard.tsx:381-385 | a confirmed delete of row i removes the entry at `length - 1 - i`; otherwise nothing is sent |
| HistoryModal.View | components/CompletionHistoryModal.tsx:38-57 | nothing when closed; otherwise the normalised history, newest first |
| HistoryModal.DeleteEntry | components/CompletionHistoryModal.tsx:84-89 | a confirmed delete removes exactly that index and gives a consistent payload |
| HistoryModal.ModalState.constructor | components/CompletionHistoryModal.tsx:34-36 | no row is being edited and nothing is loading |
| HistoryModal.ModalState.StartEditing | components/CompletionHistoryModal.tsx:185-189 | the row and its current date become the edit state |
| HistoryModal.ModalState.CancelEditing | components/CompletionHistoryModal.tsx:167-171 | the edit state is cleared |
| HistoryModal.ModalState.UpdateHistory | components/CompletionHistoryModal.tsx:59-82 | the payload is consistent; the edit state is cleared only on success; loading ends either way |
| HistoryModal.ModalState.SaveRow | components/CompletionHistoryModal.tsx:156-161 | an invalid date sends nothing and leaves the modal's state alone; otherwise saving row i replaces the entry at `length - 1 - i` only, loading ends, and the edit state is cleared exactly when the server accepts |
| Dashboard.LoadData | app/dashboard/DashboardClient.tsx:32-58 | any throw leaves both lists empty; otherwise each list is the response's array when it is ok, else empty |
| Dashboard.ToggleCategory | app/dashboard/DashboardClient.tsx:232-234 | clicking the selected category clears the filter, another one selects it |
| Dashboard.ToggleTwiceClears | app/dashboard/DashboardClient.tsx:232-234 | clicking the same category twice from no filter returns to no filter |
| Dashboard.FilterShown | app/dashboard/DashboardClient.tsx:62-77 | each reminder is kept, with its multiplicity, exactly when it passes the category and completion filters |
| Dashboard.FilterAllKeepsEverything | app/dashboard/DashboardClient.tsx:62-77 | with no filters the list is unchanged |
| Dashboard.PendingKeepsIncomplete | app/dashboard/DashboardClient.tsx:66-73 | the pending filter keeps every incomplete reminder of the selected category |
| Dashboard.ShownReminders | app/dashboard/DashboardClient.tsx:62-93 | the shown list is the filtered reminders, sorted in display order |
| Dashboard.PendingOnly | app/dashboard/DashboardClient.tsx:95 | the pending list holds exactly the incomplete reminders, each as often as in the input |
| Dashboard.SortedPrefixIsEarliest | app/dashboard/DashboardClient.tsx:96-98 | in a list sorted by due date, a prefix is due no later than the rest |
| Dashboard.Upcoming | app/dashboard/DashboardClient.tsx:95-98 | at most five pending reminders, by due date, none later than a pending reminder left out |
| CreateDialog.InitialForm | components/CrearRecordatorioDialog.tsx:17-24 | the form opens empty, with notifications on, daily reminders, not recurring and weekly recurrence |
| CreateDialog.Check | components/CrearRecordatorioDialog.tsx:32-41 | the form may be sent iff it has a title and, unless recurring, a date; otherwise the matching message |
| CreateDialog.Body | components/CrearRecordatorioDialog.tsx:49-58 | empty strings are sent as null, a recurring reminder sends no date, a one-off sends no recurrence |
| CreateDialog.CheckedFormAccepted | components/CrearRecordatorioDialog.tsx:32-58 | a checked form is accepted by the route iff it fits the length limits and its date is not blank; the refinement then holds |
| CreateDialog.Submit | components/CrearRecordatorioDialog.tsx:28-74 | not sent on a failed check; created iff the reply is ok; otherwise the server's error or the generic message |
| EditDialog.DatePart | components/EditReminderDialog.tsx:24 | the date part is the prefix before 'T', and it is empty only for an empty text or one starting with 'T' |
| EditDialog.OrWeekly | components/EditReminderDialog.tsx:30 | a missing or empty recurrence becomes weekly |
| EditDialog.InitialForm | components/EditReminderDialog.tsx:21-45 | the form holds the reminder's fields, the date part of its due date, and empty strings for missing ones |
| EditDialog.Check | components/EditReminderDialog.tsx:51-59 | the form may be sent iff it has a title and, unless recurring, a date |
| EditDialog.Body | components/EditReminderDialog.tsx:63-80 | the body carries the form's fields (empty as null), and no date when recurring; an unparsable date sends nothing |
| EditDialog.UnchangedSubmit | components/EditReminderDialog.tsx:21-80 | saving an untouched form sends the reminder's own values back |
| EditDialog.Submit | components/EditReminderDialog.tsx:47-96 | not sent on a failed check; saved iff the reply is ok; otherwise the server's error or the update error |
| Loading.LoadingProvider.constructor | lib/loading-context.tsx:15 | the counter starts at zero |
| Loading.LoadingProvider.StartLoading | lib/loading-context.tsx:17-19 | the counter goes up by one and the indicator shows |
| Loading.LoadingProvider.StopLoading | lib/loading-context.tsx:21-23 | the counter goes down by one but never below zero |
| Loading.LoadingProvider.WithLoading | lib/loading-context.tsx:25-35 | the promise's outcome is passed through and the counter returns to its earlier value |
| Loading.UseLoading | lib/loading-context.tsx:51-56 | the provider in scope, or the documented error without one |
| FirebaseErrors.MessagesNonEmpty | lib/firebase-errors.ts:18-44 | every message of the table is non-empty |
| FirebaseErrors.ErrorMessage | lib/firebase-errors.ts:1-47 | each guard in order: no error, password login disabled (either form), no code, then the table, the error's own message, the generic text |
| FirebaseErrors.ErrorMessageNonEmpty | lib/firebase-errors.ts:1-47 | the message shown is never empty |
| FirebaseErrors.PasswordLoginDisabledFirst | lib/firebase-errors.ts:6-12 | the disabled-login message wins over any code |
| FirebaseAuth.NewUserName | lib/firebase-auth.ts:57 | the claims' name, else the e-mail's part before '@' |
| FirebaseAuth.NewUser | lib/firebase-auth.ts:53-60 | a new row has the e-mail, that name, and a verification date iff the claims say verified |
| FirebaseAuth.Reconciled | lib/firebase-auth.ts:62-78 | the verification date is set only when missing and verified; the name is replaced only by a different non-empty one |
| FirebaseAuth.VerifiedIsKept | lib/firebase-auth.ts:64-66 | a verification date is never cleared or moved |
| FirebaseAuth.ReconcileSettles | lib/firebase-auth.ts:62-77 | after one update the same claims need no further update |
| FirebaseAuth.NewUserSettled | lib/firebase-auth.ts:53-77 | a freshly created row needs no update for the same claims |
| FirebaseAuth.GetServerSession | lib/firebase-auth.ts:27-93 | no session iff no cookie, an unverified cookie, no e-mail or a store failure, without writes; otherwise the row is created or reconciled and the session names it |
| CategoriesRoute.ParseCategory | app/api/categorias/route.ts:6-10 | accepted iff the name has 1 to 100 characters and the colour is '#' and six hex digits; a missing icon is stored as null |
| CategoriesRoute.PaletteColorsAccepted | lib/constants.ts:1-14 | every palette colour passes the colour check |
| CategoriesRoute.PaletteRequestAccepted | app/api/categorias/route.ts:6-10 | a valid name with a palette colour is always accepted |
| CategoriesRoute.SortByName | app/api/categorias/route.ts:20-23 | the rows ordered by name are a permutation of the input |
| CategoriesRoute.Get | app/api/categorias/route.ts:12-32 | 401 iff no session; otherwise exactly the caller's categories, each once, by name |
| CategoriesRoute.Post | app/api/categorias/route.ts:34-66 | 401, 400 and 201 exactly in their cases; only 201 writes, adding the new row owned by the caller |

## Left out

- The `[id]` routes (PATCH and DELETE of one reminder or category), the auth routes and the pages are not part of this model. The dialogs' and cards' requests to them are modelled as the bodies they send.
- The store's internal failures are left out: the 500 responses other than an unparsable due date, and a request body that is not JSON.
- Parsing and formatting of dates are parameters or data, because the runtime's date parser is outside the model:
  - `new Date(text)`, `toISOString` and `JSON.parse` of the history;
  - time zones and daylight-saving changes;
  - UTF-16 code units versus code points.
- EditDialog.InitialForm: assumes the stored ISO timestamp is the text whose date part is taken; the ISO round trip is not modelled.
- History JSON that parses to something other than a list of strings is treated as a parse failure.
- The defaults the store gives to new rows (creation times, empty history) are only the fields listed in `RemindersRoute.Created`.
- Ordering.SortInPlace: stability is not proved, because the order of equal keys does not affect the listed properties.
- Ordering.Compare: a reminder with a negative completion count is treated as not done. In the source such a count makes the comparator return -1 in both directions, because `0 !== false`.
- The timers of the cards (`setTimeout` reloads) are the separate step `ReloadSettled`; the real-time interleaving is not modelled.
- The weekly view's editing-state reset after save is not modelled.
- The store's choice among several matching rows (`findFirst`) is a nondeterministic pick.
- Name order is code-unit order, not the database collation.
- The edit dialog's texts come from a translation table that is not part of this model; the dialog's messages are the enum `EditDialog.Message`.
- FirebaseErrors.ErrorMessage: codes that name inherited object properties (such as `constructor`) are looked up in the table only, not in its prototype.
- The session cookie helpers (creating, setting and deleting the cookie) are I/O; the verified claims are a parameter.
- Loading: React's state batching and concurrent updates are not modelled; each call runs to completion.
- The cards' notification toggle and reminder delete are plain requests with no local logic, and they are not modelled.
- Cards.CardState: the history editing state of the English card is not modelled; an edit always clears it there.
