/**
 * The list orders of the reminders route and the dashboard.
 *
 * The comparator both of them hand to `Array.prototype.sort` puts reminders
 * that are "done" (completed, or with a non-zero completion count) after the
 * others and orders each group by due date. The database query orders by
 * (completed, due date) and the dashboard's "upcoming" list by due date alone.
 * Each order is a lexicographic order on an integer key pair, and one in-place
 * insertion sort serves all three.
 */
module Ordering {
  import opened Calendar
  import opened Common

  /** `completado === true || vecesCompletado > 0` */
  predicate IsDone(r: Reminder) {
    r.completed || r.timesCompleted > 0
  }

  datatype ListOrder =
    | DisplayOrder   // the comparator of the route (GET) and of the dashboard
    | StoredOrder    // `orderBy: [{completado: 'asc'}, {fechaVencimiento: 'asc'}]`
    | DueOrder       // `fechaVencimiento` ascending

  datatype SortKey = SortKey(rank: int, due: Instant)

  function Key(o: ListOrder, r: Reminder): SortKey {
    match o
    case DisplayOrder => SortKey(if IsDone(r) then 1 else 0, r.dueDate)
    case StoredOrder => SortKey(if r.completed then 1 else 0, r.dueDate)
    case DueOrder => SortKey(0, r.dueDate)
  }

  predicate KeyLe(a: SortKey, b: SortKey) {
    a.rank < b.rank || (a.rank == b.rank && a.due <= b.due)
  }

  predicate InOrder(o: ListOrder, a: Reminder, b: Reminder) {
    KeyLe(Key(o, a), Key(o, b))
  }

  predicate Sorted(o: ListOrder, s: seq<Reminder>) {
    forall i, j | 0 <= i < j < |s| :: InOrder(o, s[i], s[j])
  }

  /**
   * The comparator of the source, returning what it returns: 1 or -1 when
   * exactly one of the two is done, otherwise the difference of the due dates.
   */
  function Compare(a: Reminder, b: Reminder): int {
    if IsDone(a) != IsDone(b) then (if IsDone(a) then 1 else -1)
    else a.dueDate - b.dueDate
  }

  /** The key order is the comparator's order: `a` may precede `b` exactly when `Compare(a, b) <= 0`. */
  lemma CompareAgreesWithKey(a: Reminder, b: Reminder)
    ensures InOrder(DisplayOrder, a, b) <==> Compare(a, b) <= 0
    ensures Compare(a, b) == 0 <==> Key(DisplayOrder, a) == Key(DisplayOrder, b)
    ensures Compare(a, b) == -Compare(b, a)
  {
  }

  /** What a list in display order looks like: done reminders last, each group by ascending due date. */
  lemma DisplayOrderMeaning(s: seq<Reminder>, i: int, j: int)
    requires Sorted(DisplayOrder, s) && 0 <= i < j < |s|
    ensures IsDone(s[i]) ==> IsDone(s[j])
    ensures IsDone(s[i]) == IsDone(s[j]) ==> s[i].dueDate <= s[j].dueDate
  {
    assert InOrder(DisplayOrder, s[i], s[j]);
  }

  /** Swaps two cells of the array. */
  method Swap(a: array<Reminder>, i: int, j: int)
    requires 0 <= i < a.Length && 0 <= j < a.Length
    modifies a
    ensures a[..] == old(a[..])[i := old(a[j])][j := old(a[i])]
    ensures multiset(a[..]) == old(multiset(a[..]))
  {
    a[i], a[j] := a[j], a[i];
  }

  /** `a.sort(comparator)`: an insertion sort by the key of `o`. */
  method SortInPlace(a: array<Reminder>, o: ListOrder)
    modifies a
    ensures Sorted(o, a[..])
    ensures multiset(a[..]) == old(multiset(a[..]))
  {
    var i := 0;
    while i < a.Length
      invariant 0 <= i <= a.Length
      invariant forall k, l | 0 <= k < l < i :: InOrder(o, a[k], a[l])
      invariant multiset(a[..]) == old(multiset(a[..]))
    {
      var j := i;
      while j > 0 && !InOrder(o, a[j - 1], a[j])
        invariant 0 <= j <= i
        invariant forall k, l | 0 <= k < l <= i && k != j && l != j :: InOrder(o, a[k], a[l])
        invariant forall l | j < l <= i :: InOrder(o, a[j], a[l])
        invariant multiset(a[..]) == old(multiset(a[..]))
      {
        Swap(a, j - 1, j);
        j := j - 1;
      }
      i := i + 1;
    }
  }

  /** Copies a sequence into a fresh array, sorts it there and reads it back. */
  method SortedCopy(s: seq<Reminder>, o: ListOrder) returns (r: seq<Reminder>)
    ensures Sorted(o, r) && multiset(r) == multiset(s)
  {
    var a := new Reminder[|s|](i requires 0 <= i < |s| => s[i]);
    assert a[..] == s;
    SortInPlace(a, o);
    r := a[..];
  }
}
