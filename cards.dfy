/**
 * The reminder cards (`ReminderCard` and `RecordatorioCard`, the same logic
 * in two files): the local completion state that follows the server without
 * flickering while an update is in flight, the completion toggle, the
 * due-date badge, and the completion history shown newest first with its
 * edit and delete actions.
 */
module Cards {
  import opened Calendar
  import opened Common
  import opened CompletionHistory

  /** The response to the toggle's PATCH: the server's `completed`, or a failure (non-ok status or a thrown request). */
  datatype ToggleOutcome = Succeeded(serverCompleted: bool) | Failed

  /**
   * The state a card keeps between renders: `completedLocal` and `loading`
   * (React state) and the three refs `isUpdatingRef`,
   * `lastReminderIdRef` and `lastServerCompletedRef`.
   */
  class CardState {
    var completedLocal: bool
    var loading: bool
    var isUpdating: bool
    var lastReminderId: Id
    var lastServerCompleted: bool

    /** The first render of a card for `id` whose server value is `completed`. */
    constructor (id: Id, completed: bool)
      ensures completedLocal == completed && lastServerCompleted == completed
      ensures lastReminderId == id && !loading && !isUpdating
    {
      completedLocal, loading, isUpdating := completed, false, false;
      lastReminderId, lastServerCompleted := id, completed;
    }

    /**
     * The sync effect, run when the server's id or `completed` changes. A new
     * id resets everything to the server; otherwise the local value follows
     * the server only when no update is in flight, the two differ, and the
     * server value is not the one last seen.
     */
    method Sync(id: Id, serverCompleted: bool)
      modifies this
      ensures loading == old(loading)
      ensures old(lastReminderId) != id ==>
        && lastReminderId == id && !isUpdating
        && completedLocal == serverCompleted && lastServerCompleted == serverCompleted
      ensures old(lastReminderId) == id ==>
        && lastReminderId == id && isUpdating == old(isUpdating)
        && if !old(isUpdating) && old(completedLocal) != serverCompleted && old(lastServerCompleted) != serverCompleted
           then completedLocal == serverCompleted && lastServerCompleted == serverCompleted
           else completedLocal == old(completedLocal) && lastServerCompleted == old(lastServerCompleted)
    {
      if lastReminderId != id {
        lastReminderId := id;
        lastServerCompleted := serverCompleted;
        isUpdating := false;
        completedLocal := serverCompleted;
        return;
      }
      var serverChanged := lastServerCompleted != serverCompleted;
      if !isUpdating && completedLocal != serverCompleted && serverChanged {
        lastServerCompleted := serverCompleted;
        completedLocal := serverCompleted;
      }
    }

    /**
     * The first half of `toggleCompleted`, up to the request: nothing while
     * loading; otherwise the body `{completed: !completedLocal}` is sent and
     * the card is marked loading and updating.
     */
    method BeginToggle() returns (request: Option<bool>)
      modifies this
      ensures old(loading) ==> request.None? && unchanged(this)
      ensures !old(loading) ==>
        && request == Some(!old(completedLocal))
        && loading && isUpdating
        && completedLocal == old(completedLocal) && lastServerCompleted == old(lastServerCompleted)
        && lastReminderId == old(lastReminderId)
    {
      if loading {
        return None;
      }
      var unmarking := completedLocal;
      isUpdating := true;
      loading := true;
      request := Some(!unmarking);
    }

    /**
     * The second half, once the response is in. A successful mark leaves
     * the card unmarked so that it can be marked again; a successful unmark
     * adopts the server value; a failure keeps the local value and clears
     * the updating flag. Loading always ends.
     */
    method FinishToggle(sent: bool, outcome: ToggleOutcome)
      modifies this
      ensures !loading && lastReminderId == old(lastReminderId)
      ensures outcome.Succeeded? && sent ==> !completedLocal && !lastServerCompleted && isUpdating == old(isUpdating)
      ensures outcome.Succeeded? && !sent ==>
        && completedLocal == outcome.serverCompleted && lastServerCompleted == outcome.serverCompleted
        && isUpdating == old(isUpdating)
      ensures outcome.Failed? ==>
        && completedLocal == old(completedLocal) && lastServerCompleted == old(lastServerCompleted)
        && !isUpdating
    {
      var unmarking := !sent;
      match outcome {
        case Succeeded(serverCompleted) =>
          if !unmarking {
            completedLocal := false;
            lastServerCompleted := false;
          } else {
            completedLocal := serverCompleted;
            lastServerCompleted := serverCompleted;
          }
        case Failed =>
          isUpdating := false;
      }
      loading := false;
    }

    /** The two timers after a successful toggle: the list is reloaded, then the updating flag clears. */
    method ReloadSettled()
      modifies this
      ensures !isUpdating
      ensures completedLocal == old(completedLocal) && loading == old(loading)
      ensures lastServerCompleted == old(lastServerCompleted) && lastReminderId == old(lastReminderId)
    {
      isUpdating := false;
    }
  }

  /** A whole successful mark: the request asks to complete, and the card is unmarked again afterwards. */
  method MarkThenSucceed(card: CardState, serverCompleted: bool) returns (request: Option<bool>)
    requires !card.loading && !card.completedLocal
    modifies card
    ensures request == Some(true)
    ensures !card.completedLocal && !card.loading && card.isUpdating
  {
    request := card.BeginToggle();
    card.FinishToggle(request.value, Succeeded(serverCompleted));
  }

  // ---------------------------------------------------------------------
  // Due-date badge
  // ---------------------------------------------------------------------

  /** `Math.ceil(x / d)` for a positive divisor. */
  function CeilDiv(x: int, d: int): (q: int)
    requires d > 0
    ensures (q - 1) * d < x <= q * d
  {
    -((-x) / d)
  }

  /** `daysRemaining`: whole days to the due date, rounded up. */
  function DaysRemaining(due: Instant, now: Instant): int {
    CeilDiv(due - now, MsPerDay)
  }

  /** The day counts the badge distinguishes, in terms of the time left until the due date. */
  lemma DaysRemainingMeaning(due: Instant, now: Instant)
    ensures DaysRemaining(due, now) < 0 <==> due - now <= -MsPerDay
    ensures DaysRemaining(due, now) == 0 <==> -MsPerDay < due - now <= 0
    ensures DaysRemaining(due, now) == 1 <==> 0 < due - now <= MsPerDay
  {
    var q := DaysRemaining(due, now);
    assert (q - 1) * MsPerDay < due - now <= q * MsPerDay;
    if q < 0 {
      assert q * MsPerDay <= -MsPerDay;
    } else if q > 1 {
      assert (q - 1) * MsPerDay >= MsPerDay;
    }
  }

  /** `isExpired` */
  predicate IsExpired(daysRemaining: int, completedLocal: bool) {
    daysRemaining < 0 && !completedLocal
  }

  datatype BadgeText = ExpiredDaysAgo(days: int) | DueToday | DueTomorrow | DaysLeft(days: int)
  datatype BadgeTone = Red | Orange | Yellow | Blue

  /** The badge of a card that is not completed locally; none for one that is. */
  function DueBadge(daysRemaining: int, completedLocal: bool): (b: Option<(BadgeText, BadgeTone)>)
    ensures b.None? <==> completedLocal
    ensures b.Some? ==> (b.value.0.ExpiredDaysAgo? <==> daysRemaining < 0)
    ensures b.Some? && daysRemaining < 0 ==> b.value.0.days == -daysRemaining && b.value.1 == Red
    ensures b.Some? ==> (b.value.0 == DueToday <==> daysRemaining == 0)
    ensures b.Some? ==> (b.value.0 == DueTomorrow <==> daysRemaining == 1)
    ensures b.Some? && daysRemaining >= 2 ==> b.value.0 == DaysLeft(daysRemaining)
    ensures b.Some? ==> (b.value.1 == Orange <==> daysRemaining == 0)
    ensures b.Some? ==> (b.value.1 == Yellow <==> 1 <= daysRemaining <= 3)
    ensures b.Some? ==> (b.value.1 == Blue <==> daysRemaining > 3)
  {
    if completedLocal then None
    else
      var expired := IsExpired(daysRemaining, completedLocal);
      var tone := if expired then Red else if daysRemaining == 0 then Orange else if daysRemaining <= 3 then Yellow else Blue;
      var text :=
        if expired then ExpiredDaysAgo(if daysRemaining < 0 then -daysRemaining else daysRemaining)
        else if daysRemaining == 0 then DueToday
        else if daysRemaining == 1 then DueTomorrow
        else DaysLeft(daysRemaining);
      Some((text, tone))
  }

  // ---------------------------------------------------------------------
  // History on the card
  // ---------------------------------------------------------------------

  /** The history list of a card: shown only with a positive completion count, newest first. */
  function ShownHistory(r: Reminder): (rows: seq<string>)
    ensures r.timesCompleted <= 0 ==> rows == []
    ensures r.timesCompleted > 0 ==> |rows| == |Normalize(r.history)|
    ensures r.timesCompleted > 0 ==>
      forall row | 0 <= row < |rows| :: rows[row] == Normalize(r.history)[ActualIndex(|rows|, row)]
  {
    if r.timesCompleted > 0 then
      var h := Normalize(r.history);
      forall row | 0 <= row < |h| ensures NewestFirst(h)[row] == h[ActualIndex(|h|, row)] {
        NewestFirstRow(h, row);
      }
      NewestFirst(h)
    else []
  }

  /**
   * The save button of an edited row: the entry the row shows is replaced,
   * nothing else. `newValue` is the ISO text of the date entered, or None
   * when it is not a valid date (`toISOString` throws and nothing is sent).
   */
  method EditRow(h: seq<string>, row: int, newValue: Option<string>) returns (p: Option<HistoryPayload>)
    requires 0 <= row < |h|
    ensures p.Some? <==> newValue.Some?
    ensures p.Some? ==>
      && Consistent(p.value)
      && |p.value.completionHistory| == |h|
      && p.value.completionHistory[ActualIndex(|h|, row)] == newValue.value
      && forall i | 0 <= i < |h| && i != ActualIndex(|h|, row) :: p.value.completionHistory[i] == h[i]
  {
    if newValue.None? {
      return None;
    }
    var actualIndex := ActualIndex(|h|, row);
    var newHistory := ReplaceEntry(h, actualIndex, newValue.value);
    p := Some(PayloadFor(newHistory));
  }

  /** The delete button of a row: after confirmation, exactly the entry the row shows is removed. */
  function DeleteRow(confirmed: bool, h: seq<string>, row: int): (p: Option<HistoryPayload>)
    requires 0 <= row < |h|
    ensures p.Some? <==> confirmed
    ensures p.Some? ==>
      && Consistent(p.value)
      && p.value.completionHistory == h[..ActualIndex(|h|, row)] + h[ActualIndex(|h|, row) + 1..]
      && multiset(p.value.completionHistory) + multiset{NewestFirst(h)[row]} == multiset(h)
  {
    if confirmed then
      var k := ActualIndex(|h|, row);
      NewestFirstRow(h, row);
      assert h == h[..k] + [h[k]] + h[k + 1..];
      Some(PayloadFor(RemoveAt(h, k)))
    else None
  }
}
