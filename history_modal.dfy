/**
 * The completion-history modal: renders nothing while closed, lists the
 * history newest first, and replaces the whole history after an edit or a
 * deletion, clearing its editing state when the server accepts the change.
 */
module HistoryModal {
  import opened Common
  import opened CompletionHistory

  /** What the modal renders: nothing while closed, otherwise the rows newest first. */
  function View(isOpen: bool, stored: StoredHistory): (rows: Option<seq<string>>)
    ensures rows.None? <==> !isOpen
    ensures rows.Some? ==> |rows.value| == |Normalize(stored)|
    ensures rows.Some? ==> NewestFirst(rows.value) == Normalize(stored)
  {
    if !isOpen then None
    else
      NewestFirstInvolution(Normalize(stored));
      Some(NewestFirst(Normalize(stored)))
  }

  /** `deleteHistoryEntry(index)`: after confirmation, the history without position `index`. */
  function DeleteEntry(confirmed: bool, h: seq<string>, index: int): (p: Option<HistoryPayload>)
    ensures p.Some? <==> confirmed
    ensures p.Some? && 0 <= index < |h| ==>
      && Consistent(p.value)
      && p.value.completionHistory == h[..index] + h[index + 1..]
      && |p.value.completionHistory| == |h| - 1
  {
    if confirmed then Some(PayloadFor(RemoveAt(h, index))) else None
  }

  /**
   * The modal's own state: the row being edited (`editingHistoryIndex`),
   * the text of its date input (`editHistoryDate`) and `loading`.
   */
  class ModalState {
    var editingRow: Option<int>
    var editDate: string
    var loading: bool

    constructor ()
      ensures editingRow.None? && editDate == "" && !loading
    {
      editingRow, editDate, loading := None, "", false;
    }

    /** The edit button of a row: that row is edited, starting from its current date. */
    method StartEditing(row: int, currentDate: string)
      modifies this
      ensures editingRow == Some(row) && editDate == currentDate && loading == old(loading)
    {
      editingRow, editDate := Some(row), currentDate;
    }

    /** The cancel button. */
    method CancelEditing()
      modifies this
      ensures editingRow.None? && editDate == "" && loading == old(loading)
    {
      editingRow, editDate := None, "";
    }

    /**
     * `updateHistory(newHistory)`: sends the payload for the new history;
     * when the server accepts it (`ok`) the editing state is cleared, and in
     * every case loading ends.
     */
    method UpdateHistory(newHistory: seq<string>, ok: bool) returns (p: HistoryPayload)
      modifies this
      ensures p.completionHistory == newHistory && Consistent(p)
      ensures !loading
      ensures ok ==> editingRow.None? && editDate == ""
      ensures !ok ==> editingRow == old(editingRow) && editDate == old(editDate)
    {
      loading := true;
      p := PayloadFor(newHistory);
      if ok {
        editingRow := None;
        editDate := "";
      }
      loading := false;
    }

    /**
     * The save button of the edited row: a copy of the history with only the
     * entry that row shows replaced, sent through `UpdateHistory`.
     * `newValue` is the ISO text of the date entered, or None when it is not
     * a valid date: `toISOString` then throws before `updateHistory` runs, so
     * nothing is sent and the state is untouched.
     */
    method SaveRow(h: seq<string>, row: int, newValue: Option<string>, ok: bool) returns (p: Option<HistoryPayload>)
      requires 0 <= row < |h|
      modifies this
      ensures newValue.None? ==> p.None? && unchanged(this)
      ensures newValue.Some? ==>
        && p.Some? && Consistent(p.value) && |p.value.completionHistory| == |h|
        && p.value.completionHistory[ActualIndex(|h|, row)] == newValue.value
        && (forall i | 0 <= i < |h| && i != ActualIndex(|h|, row) :: p.value.completionHistory[i] == h[i])
        && !loading
        && (ok ==> editingRow.None? && editDate == "")
        && (!ok ==> editingRow == old(editingRow) && editDate == old(editDate))
    {
      if newValue.None? {
        return None;
      }
      var newHistory := ReplaceEntry(h, ActualIndex(|h|, row), newValue.value);
      var payload := UpdateHistory(newHistory, ok);
      p := Some(payload);
    }
  }
}
