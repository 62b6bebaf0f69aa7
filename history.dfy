/**
 * Completion-history bookkeeping shared by the client components: reading
 * the stored history into a sequence of ISO timestamps, the newest-first
 * display order, the edits a user can make, and the PATCH payload that
 * replaces the whole history.
 */
module CompletionHistory {
  import opened Common
  import opened Text

  /**
   * The display-side normalisation: absent gives the empty history, an
   * array is kept, a JSON string is parsed (a parse failure gives the empty
   * history) and an object gives its values in order.
   */
  function Normalize(h: StoredHistory): (r: seq<string>)
    ensures !IsTruthy(h) ==> r == []
    ensures h.ArrayValue? ==> r == h.items
    ensures h.ObjectValue? ==> r == h.values
    ensures h.JsonText? && h.text != "" ==> r == h.parsed.GetOr([])
    ensures h.Scalar? ==> r == []
  {
    if !IsTruthy(h) then []
    else match h
      case ArrayValue(items) => items
      case JsonText(_, parsed) => parsed.GetOr([])
      case ObjectValue(values) => values
      case _ => []
  }

  /**
   * The normalisation the weekly view's delete and edit paths use: only a
   * string or an array is read, anything else starts from the empty history.
   */
  function NormalizeForEdit(h: StoredHistory): seq<string> {
    if !IsTruthy(h) then []
    else match h
      case JsonText(_, parsed) => parsed.GetOr([])
      case ArrayValue(items) => items
      case _ => []
  }

  /** The two readings agree except on object-shaped history, which the edit path drops. */
  lemma EditPathIgnoresObjects(h: StoredHistory)
    ensures !h.ObjectValue? ==> NormalizeForEdit(h) == Normalize(h)
    ensures h.ObjectValue? ==> NormalizeForEdit(h) == [] && Normalize(h) == h.values
  {
  }

  /** `completedAt` of a history: its last entry, or null when it is empty. */
  function LastEntry(h: seq<string>): (r: Option<string>)
    ensures r.None? <==> h == []
    ensures r.Some? ==> r.value == h[|h| - 1]
  {
    if |h| > 0 then Some(h[|h| - 1]) else None
  }

  /** The PATCH body `{completionHistory, timesCompleted, completedAt}`. */
  datatype HistoryPayload = HistoryPayload(completionHistory: seq<string>, timesCompleted: int, completedAt: Option<string>)

  /** The invariant every history payload keeps: the count and the last completion follow the history. */
  predicate Consistent(p: HistoryPayload) {
    p.timesCompleted == |p.completionHistory| && p.completedAt == LastEntry(p.completionHistory)
  }

  /** Builds the body the source sends for a new history. */
  function PayloadFor(h: seq<string>): (p: HistoryPayload)
    ensures p.completionHistory == h && Consistent(p)
  {
    HistoryPayload(h, |h|, if |h| > 0 then Some(h[|h| - 1]) else None)
  }

  /** A consistent payload is determined by its history alone. */
  lemma ConsistentIsDetermined(p: HistoryPayload)
    requires Consistent(p)
    ensures p == PayloadFor(p.completionHistory)
  {
  }

  /** `[...history].reverse()`: the newest-first list the cards show. */
  function NewestFirst(h: seq<string>): (r: seq<string>)
    ensures |r| == |h|
  {
    if h == [] then [] else NewestFirst(h[1..]) + [h[0]]
  }

  /** The history index a row of the newest-first list refers to. */
  function ActualIndex(len: int, row: int): int {
    len - 1 - row
  }

  /** Row `row` of the newest-first list shows history entry `ActualIndex(|h|, row)`. */
  lemma {:induction false} NewestFirstRow(h: seq<string>, row: int)
    requires 0 <= row < |h|
    ensures 0 <= ActualIndex(|h|, row) < |h|
    ensures NewestFirst(h)[row] == h[ActualIndex(|h|, row)]
  {
    if row < |h| - 1 {
      NewestFirstRow(h[1..], row);
    }
  }

  /** Reversing twice gives the history back. */
  lemma {:induction false} NewestFirstInvolution(h: seq<string>)
    ensures NewestFirst(NewestFirst(h)) == h
  {
    forall i | 0 <= i < |h| ensures NewestFirst(NewestFirst(h))[i] == h[i] {
      NewestFirstRow(NewestFirst(h), i);
      NewestFirstRow(h, |h| - 1 - i);
    }
  }

  /** `history.filter((_, i) => i !== k)` */
  function RemoveAt(h: seq<string>, k: int): (r: seq<string>)
    ensures 0 <= k < |h| ==> r == h[..k] + h[k + 1..]
    ensures !(0 <= k < |h|) ==> r == h
  {
    if h == [] then []
    else (if k == 0 then [] else [h[0]]) + RemoveAt(h[1..], k - 1)
  }

  /** `history.filter(entry => entry !== v)` */
  function RemoveAll(h: seq<string>, v: string): seq<string> {
    if h == [] then []
    else (if h[0] == v then [] else [h[0]]) + RemoveAll(h[1..], v)
  }

  /** Removing by value drops every copy of `v` and keeps the count of every other entry. */
  lemma {:induction false} RemoveAllCounts(h: seq<string>, v: string)
    ensures v !in RemoveAll(h, v)
    ensures forall x :: multiset(RemoveAll(h, v))[x] == if x == v then 0 else multiset(h)[x]
  {
    if h != [] {
      RemoveAllCounts(h[1..], v);
      assert h == [h[0]] + h[1..];
    }
  }

  /** Removing by value keeps the order of what remains: it distributes over concatenation. */
  lemma {:induction false} RemoveAllAppend(a: seq<string>, b: seq<string>, v: string)
    ensures RemoveAll(a + b, v) == RemoveAll(a, v) + RemoveAll(b, v)
  {
    if a != [] {
      assert (a + b)[0] == a[0] && (a + b)[1..] == a[1..] + b;
      RemoveAllAppend(a[1..], b, v);
    } else {
      assert a + b == b;
    }
  }

  /** `history.map(entry => entry === a ? b : entry)` */
  function ReplaceAll(h: seq<string>, a: string, b: string): (r: seq<string>)
    ensures |r| == |h|
    ensures forall i | 0 <= i < |h| :: r[i] == if h[i] == a then b else h[i]
  {
    if h == [] then []
    else [if h[0] == a then b else h[0]] + ReplaceAll(h[1..], a, b)
  }

  /**
   * `const newHistory = [...history]; newHistory[k] = v` — a copy of the
   * history with one position overwritten.
   */
  method ReplaceEntry(h: seq<string>, k: int, v: string) returns (r: seq<string>)
    requires 0 <= k < |h|
    ensures |r| == |h| && r[k] == v
    ensures forall i | 0 <= i < |h| && i != k :: r[i] == h[i]
  {
    var copy := new string[|h|](i requires 0 <= i < |h| => h[i]);
    copy[k] := v;
    r := copy[..];
  }
}
