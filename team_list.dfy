/** The seed list editor (`src/team-list.ts`): dragging a team to a new place in
    the list (`onDragStart`, `onDragEnd`, `onDrop`, lines 105-126) and renaming
    one slot (`onTeamNameChange`, lines 141-151). Either change marks the list
    as the "Custom" preset. */
module TeamListEditor {
  import opened Collections

  /** Where a dragged row was let go relative to the row under it. */
  datatype DropLocation = Above | Below | OnTop | EmptyArea

  /** `Array.prototype.indexOf`: the position of `x`, or -1. */
  function IndexOf<T(==)>(s: seq<T>, x: T): (r: int)
    ensures -1 <= r < |s|
    ensures r >= 0 ==> s[r] == x
    ensures r == -1 <==> x !in s
  {
    if s == [] then -1
    else if s[0] == x then 0
    else
      var i := IndexOf(s[1..], x);
      if i == -1 then -1 else i + 1
  }

  /** `indexOf` finds the first position of `x`. */
  lemma {:induction false} IndexOfFirst<T>(s: seq<T>, x: T, i: nat)
    requires i < |s| && s[i] == x
    ensures 0 <= IndexOf(s, x) <= i
  {
    if s[0] != x {
      IndexOfFirst(s[1..], x, i - 1);
    }
  }

  /** `indexOf` of a drop target that may be missing (`undefined` is never in a list of names). */
  function IndexOfTarget<T(==)>(s: seq<T>, target: Option<T>): (r: int)
  {
    match target
    case None => -1
    case Some(t) => IndexOf(s, t)
  }

  /** The start `splice` works from: a negative start counts from the end, and both ends clamp. */
  function SpliceStart(len: nat, start: int): (k: nat)
    ensures k <= len
  {
    if start < 0 then (if len + start < 0 then 0 else len + start)
    else if start > len then len
    else start
  }

  /** The array `splice(start, deleteCount, ...items)` leaves behind. */
  function Splice<T(==)>(s: seq<T>, start: int, deleteCount: nat, items: seq<T>): (r: seq<T>)
  {
    var k := SpliceStart(|s|, start);
    var d := if deleteCount < |s| - k then deleteCount else |s| - k;
    s[..k] + items + s[k + d..]
  }

  /** The list `onDrop` produces: the first copy of `item` taken out, then `item` put back just
      before the drop target, or just after it when dropped below it. */
  function Moved<T(==)>(list: seq<T>, item: T, target: Option<T>, location: DropLocation): seq<T>
  {
    var removed := Splice(list, IndexOf(list, item), 1, []);
    var dropIndex := IndexOfTarget(removed, target) + if location == Below then 1 else 0;
    Splice(removed, dropIndex, 0, [item])
  }

  /** The `if` of `onDrop`: a non-empty item is being dragged and it is not dropped on itself. */
  predicate Dropping(draggedItem: Option<string>, dropTargetItem: Option<string>)
  {
    draggedItem.Some? && draggedItem.value != "" && dropTargetItem != draggedItem
  }

  class TeamList {
    var teamList: seq<string>
    var presetListValue: Option<string>
    var draggedItem: Option<string>

    constructor (teamList: seq<string>, presetListValue: Option<string>)
      ensures this.teamList == teamList && this.presetListValue == presetListValue && draggedItem == None
    {
      this.teamList := teamList;
      this.presetListValue := presetListValue;
      draggedItem := None;
    }

    /** `onDragStart`: remember the first dragged row, if any. */
    method OnDragStart(draggedItems: seq<string>)
      modifies this
      ensures draggedItem == if draggedItems == [] then None else Some(draggedItems[0])
      ensures teamList == old(teamList) && presetListValue == old(presetListValue)
    {
      draggedItem := if draggedItems == [] then None else Some(draggedItems[0]);
    }

    /** `onDragEnd`: forget the dragged row. */
    method OnDragEnd()
      modifies this
      ensures draggedItem == None
      ensures teamList == old(teamList) && presetListValue == old(presetListValue)
    {
      draggedItem := None;
    }

    /** `onDrop`: move the dragged team to where it was let go, on a draft of the list. */
    method OnDrop(dropTargetItem: Option<string>, dropLocation: DropLocation)
      modifies this
      ensures Dropping(old(draggedItem), dropTargetItem) ==>
                teamList == Moved(old(teamList), old(draggedItem).value, dropTargetItem, dropLocation)
                && presetListValue == Some("Custom")
      ensures !Dropping(old(draggedItem), dropTargetItem) ==>
                teamList == old(teamList) && presetListValue == old(presetListValue)
      ensures draggedItem == old(draggedItem)
    {
      if Dropping(draggedItem, dropTargetItem) {
        var item := draggedItem.value;
        var draft := teamList;
        var draggedItemIndex := IndexOf(draft, item);
        draft := Splice(draft, draggedItemIndex, 1, []);
        var dropIndex := IndexOfTarget(draft, dropTargetItem) + if dropLocation == Below then 1 else 0;
        draft := Splice(draft, dropIndex, 0, [item]);
        assert draft == Moved(teamList, item, dropTargetItem, dropLocation);
        teamList := draft;
        presetListValue := Some("Custom");
      }
    }

    /** `onTeamNameChange`: put `value` in slot `index`; nothing happens without an index. */
    method OnTeamNameChange(index: Option<nat>, value: string)
      requires index.Some? ==> index.value < |teamList|
      modifies this
      ensures index.None? ==> teamList == old(teamList) && presetListValue == old(presetListValue)
      ensures index.Some? ==>
                && |teamList| == |old(teamList)|
                && teamList[index.value] == value
                && (forall j | 0 <= j < |teamList| && j != index.value :: teamList[j] == old(teamList)[j])
                && presetListValue == Some("Custom")
      ensures draggedItem == old(draggedItem)
    {
      if index.Some? {
        teamList := teamList[index.value := value];
        presetListValue := Some("Custom");
      }
    }
  }

  // ---------------------------------------------------------------------------
  // What a move does
  // ---------------------------------------------------------------------------

  /** `splice(k, 1)` inside the list removes exactly the element at `k`. */
  lemma SpliceRemoves<T>(s: seq<T>, k: nat)
    requires k < |s|
    ensures Splice(s, k, 1, []) == s[..k] + s[k + 1..]
  {
  }

  /** `splice(start, 0, x)` inserts `x` at the clamped start. */
  lemma SpliceInserts<T>(s: seq<T>, start: int, x: T)
    ensures var k := SpliceStart(|s|, start); Splice(s, start, 0, [x]) == s[..k] + [x] + s[k..]
  {
  }

  /** Taking the first copy of a listed `item` out: where it was and what is left. */
  lemma RemovedFirst<T>(list: seq<T>, item: T)
    requires item in list
    ensures var k := IndexOf(list, item);
      0 <= k < |list| && list[k] == item && Splice(list, k, 1, []) == list[..k] + list[k + 1..]
  {
    SpliceRemoves(list, IndexOf(list, item));
  }

  function NotItem<T(==)>(item: T): T -> bool
  {
    (x: T) => x != item
  }

  /** `r` is `list` with the element at `k` taken out (leaving `removed`) and put back at `j`. */
  ghost predicate Reinserted<T>(list: seq<T>, k: nat, removed: seq<T>, j: nat, r: seq<T>)
  {
    k < |list| && removed == list[..k] + list[k + 1..] && j <= |removed| && r == removed[..j] + [list[k]] + removed[j..]
  }

  /** A move of a listed team, spelled out: the first copy of `item`, at `k`, taken out
      (leaving `removed`) and put back at the clamped drop index `j`. */
  lemma MovedAs<T>(list: seq<T>, item: T, target: Option<T>, location: DropLocation)
    returns (k: nat, removed: seq<T>, j: nat)
    requires item in list
    ensures k == IndexOf(list, item) && list[k] == item
    ensures j == SpliceStart(|removed|, IndexOfTarget(removed, target) + if location == Below then 1 else 0)
    ensures Reinserted(list, k, removed, j, Moved(list, item, target, location))
  {
    k := IndexOf(list, item);
    RemovedFirst(list, item);
    removed := Splice(list, k, 1, []);
    var dropIndex := IndexOfTarget(removed, target) + if location == Below then 1 else 0;
    SpliceInserts(removed, dropIndex, item);
    j := SpliceStart(|removed|, dropIndex);
    assert Moved(list, item, target, location) == Splice(removed, dropIndex, 0, [item]);
  }

  /** Taking an element out and putting it back elsewhere rearranges the sequence. */
  lemma ReinsertPermutation<T>(list: seq<T>, k: nat, removed: seq<T>, j: nat, r: seq<T>)
    requires Reinserted(list, k, removed, j, r)
    ensures multiset(r) == multiset(list)
  {
    assert removed[..j] + removed[j..] == removed;
    assert multiset(r) == multiset(removed) + multiset{list[k]};
    assert list[..k] + [list[k]] + list[k + 1..] == list;
  }

  /** A filter that drops `x` does not see it between `a` and `b`. */
  lemma FilterSkips<T>(a: seq<T>, x: T, b: seq<T>, f: T -> bool)
    requires !f(x)
    ensures Filter(a + [x] + b, f) == Filter(a + b, f)
  {
    FilterAppend(a + [x], b, f);
    FilterAppend(a, [x], f);
    FilterOne(x, f);
    FilterAppend(a, b, f);
  }

  /** Taking an element out and putting it back elsewhere keeps, in order, everything a
      filter that drops that element keeps. */
  lemma ReinsertKeepsOthers<T>(list: seq<T>, k: nat, removed: seq<T>, j: nat, r: seq<T>,
                            f: T -> bool)
    requires Reinserted(list, k, removed, j, r) && !f(list[k])
    ensures Filter(r, f) == Filter(list, f)
  {
    FilterSkips(removed[..j], list[k], removed[j..], f);
    assert removed[..j] + removed[j..] == removed;
    FilterSkips(list[..k], list[k], list[k + 1..], f);
    assert list[..k] + [list[k]] + list[k + 1..] == list;
  }

  /** Moving a listed team rearranges the list: one copy out, the same copy back in. */
  lemma MovedPermutation<T>(list: seq<T>, item: T, target: Option<T>, location: DropLocation)
    requires item in list
    ensures multiset(Moved(list, item, target, location)) == multiset(list)
  {
    var k, removed, j := MovedAs(list, item, target, location);
    ReinsertPermutation(list, k, removed, j, Moved(list, item, target, location));
  }

  /** Moving a listed team keeps every other team in the order it had. */
  lemma MovedKeepsOthersInOrder<T>(list: seq<T>, item: T, target: Option<T>, location: DropLocation)
    requires item in list
    ensures Filter(Moved(list, item, target, location), NotItem(item)) == Filter(list, NotItem(item))
  {
    var k, removed, j := MovedAs(list, item, target, location);
    ReinsertKeepsOthers(list, k, removed, j, Moved(list, item, target, location), NotItem(item));
  }

  /** Element by element: before `j` the remaining elements, at `j` the one moved, after it
      the remaining elements one place later. */
  lemma ReinsertedElements<T>(list: seq<T>, k: nat, removed: seq<T>, j: nat, r: seq<T>)
    requires Reinserted(list, k, removed, j, r)
    ensures |r| == |list| && |removed| == |list| - 1 && j < |r| && r[j] == list[k]
    ensures forall i | 0 <= i < j :: r[i] == removed[i]
    ensures forall i | j < i < |r| :: r[i] == removed[i - 1]
  {
  }

  /** The moved element right before the one that followed `j`. */
  lemma PutBefore<T>(list: seq<T>, k: nat, removed: seq<T>, j: nat, r: seq<T>)
    requires Reinserted(list, k, removed, j, r) && j < |removed|
    ensures r[j] == list[k] && r[j + 1] == removed[j]
  {
  }

  /** The moved element right after the one before `j`. */
  lemma PutAfter<T>(list: seq<T>, k: nat, removed: seq<T>, j: nat, r: seq<T>)
    requires Reinserted(list, k, removed, j, r) && 0 < j
    ensures r[j - 1] == removed[j - 1] && r[j] == list[k]
  {
  }

  /** Taking out one element keeps every different element listed. */
  lemma StillListed<T>(list: seq<T>, k: nat, t: T)
    requires k < |list| && t in list && t != list[k]
    ensures t in list[..k] + list[k + 1..]
  {
    assert list == list[..k] + [list[k]] + list[k + 1..];
  }

  /** A team dropped on another listed team ends up right before it, or right after it
      when dropped below it. */
  lemma MovedPlacement<T>(list: seq<T>, item: T, t: T, location: DropLocation)
    requires item in list && t in list && t != item
    ensures var r := Moved(list, item, Some(t), location);
      exists j | 0 <= j < |r| - 1 ::
        if location == Below then r[j] == t && r[j + 1] == item else r[j] == item && r[j + 1] == t
  {
    var k, removed, j := MovedAs(list, item, Some(t), location);
    StillListed(list, k, t);
    var i := IndexOf(removed, t);
    var r := Moved(list, item, Some(t), location);
    if location == Below {
      PutAfter(list, k, removed, i + 1, r);
      assert r[i] == t && r[i + 1] == item;
    } else {
      PutBefore(list, k, removed, i, r);
      assert r[i] == item && r[i + 1] == t;
    }
  }

  /** Dropping a listed team on the empty area below the rows (no target) puts it just
      before the last remaining team, since `indexOf(undefined)` is -1. */
  lemma DropOnEmptyArea<T>(list: seq<T>, item: T)
    requires item in list && |list| >= 2
    ensures var r := Moved(list, item, None, EmptyArea);
      |r| == |list| && r[|r| - 2] == item
  {
    var k, removed, j := MovedAs(list, item, None, EmptyArea);
    ReinsertedElements(list, k, removed, j, Moved(list, item, None, EmptyArea));
  }
}
