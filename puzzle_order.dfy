/**
 * The Grand Finale puzzle of src/components/puzzles/PuzzleOrderChallenge.tsx: the nine
 * earlier puzzles, shuffled, to be dragged or stepped into the order they were played.
 */
module PuzzleOrder {
  import opened Common

  datatype PuzzleItem = PuzzleItem(id: int, title: string, component: string, description: string, order: int)

  /** The list as written, before the initial shuffle. */
  const InitialItems: seq<PuzzleItem> := [
    PuzzleItem(8, "The Switch Network Challenge", "Switch", "Activate all switches simultaneously", 8),
    PuzzleItem(2, "Technology Selection", "MultiSelect", "Select the right technologies", 2),
    PuzzleItem(6, "Grid Memory", "Button Grid", "Memorize and recreate the pattern", 6),
    PuzzleItem(0, "Number Sequence", "Button", "Press buttons 1-9 in order", 0),
    PuzzleItem(4, "The Cipher of Three", "Slider", "Solve the riddles with precision", 4),
    PuzzleItem(7, "The Treasure Mystery", "ContextMenu", "Right-click to interact with characters", 7),
    PuzzleItem(3, "The Hidden Word", "TextBox", "Find the secret word in the story", 3),
    PuzzleItem(1, "Date Mystery", "DatePicker", "Find the correct date", 1),
    PuzzleItem(5, "Color Equation Solver", "ColorPicker", "Mix colors using color theory", 5)
  ]

  const CorrectOrder: seq<int> := [0, 1, 2, 3, 4, 5, 6, 7, 8]

  datatype OrderMessage = Instructions | Perfect | NotQuite | FirstPuzzles | ComponentChain | AlmostThere

  /** `puzzleItems.map(item => item.order)`. */
  function Orders(items: seq<PuzzleItem>): (os: seq<int>)
    ensures |os| == |items| && forall i :: 0 <= i < |items| ==> os[i] == items[i].order
  {
    if items == [] then [] else [items[0].order] + Orders(items[1..])
  }

  lemma {:induction false} OrdersConcat(a: seq<PuzzleItem>, b: seq<PuzzleItem>)
    ensures Orders(a + b) == Orders(a) + Orders(b)
  {
    if a != [] {
      OrdersConcat(a[1..], b);
      assert (a + b)[1..] == a[1..] + b;
    }
  }

  /** Taking out position k removes that item's order from the orders. */
  lemma OrdersRemove(s: seq<PuzzleItem>, k: int)
    requires 0 <= k < |s|
    ensures multiset(Orders(s)) == multiset(Orders(s[..k] + s[k + 1..])) + multiset{s[k].order}
  {
    var a, b := s[..k], s[k + 1..];
    assert s == a + ([s[k]] + b);
    assert ([s[k]] + b)[1..] == b;
    var oa, ob := Orders(a), Orders(b);
    assert Orders(s) == oa + ([s[k].order] + ob) by {
      OrdersConcat(a, [s[k]] + b);
    }
    assert Orders(a + b) == oa + ob by {
      OrdersConcat(a, b);
    }
    assert multiset(oa + ([s[k].order] + ob)) == multiset(oa) + multiset{s[k].order} + multiset(ob);
  }

  /** Two rearrangements of each other stay so once the same item is taken out of both. */
  lemma RemoveSameItem(items: seq<PuzzleItem>, other: seq<PuzzleItem>, k: int)
    requires multiset(items) == multiset(other) && items != [] && 0 <= k < |other| && other[k] == items[0]
    ensures multiset(items[1..]) == multiset(other[..k] + other[k + 1..])
  {
    var rest := other[..k] + other[k + 1..];
    assert items == [items[0]] + items[1..];
    assert other == other[..k] + [other[k]] + other[k + 1..];
    assert multiset(items) == multiset{items[0]} + multiset(items[1..]);
    assert multiset(other) == multiset{items[0]} + multiset(rest);
    forall y ensures multiset(items[1..])[y] == multiset(rest)[y] {
      assert multiset(items)[y] == multiset(other)[y];
    }
  }

  /** One step of the induction below: the same first item, and rearranged rests. */
  lemma OrdersStep(items: seq<PuzzleItem>, other: seq<PuzzleItem>, k: int)
    requires items != [] && 0 <= k < |other| && other[k] == items[0]
    requires multiset(Orders(items[1..])) == multiset(Orders(other[..k] + other[k + 1..]))
    ensures multiset(Orders(items)) == multiset(Orders(other))
  {
    var o := multiset{items[0].order};
    assert multiset(Orders(items)) == multiset(Orders(items[1..])) + o;
    assert multiset(Orders(other)) == multiset(Orders(other[..k] + other[k + 1..])) + o by {
      OrdersRemove(other, k);
    }
  }

  /** The orders of a rearrangement of a list are a rearrangement of its orders. */
  lemma {:induction false} OrdersOfPermutation(items: seq<PuzzleItem>, other: seq<PuzzleItem>)
    requires multiset(items) == multiset(other)
    ensures multiset(Orders(items)) == multiset(Orders(other))
    decreases |items|
  {
    if items != [] {
      assert items[0] in multiset(other);
      var k :| 0 <= k < |other| && other[k] == items[0];
      RemoveSameItem(items, other, k);
      OrdersOfPermutation(items[1..], other[..k] + other[k + 1..]);
      OrdersStep(items, other, k);
    }
  }

  /** The orders as written are 0..8 in some arrangement. */
  lemma WrittenOrders()
    ensures multiset([8, 2, 6, 0, 4, 7, 3, 1, 5]) == multiset{0, 1, 2, 3, 4, 5, 6, 7, 8}
  {
  }

  /** The registry's orders are 0..8, once each. */
  lemma InitialOrders()
    ensures multiset(Orders(InitialItems)) == multiset{0, 1, 2, 3, 4, 5, 6, 7, 8}
  {
    assert Orders(InitialItems) == [8, 2, 6, 0, 4, 7, 3, 1, 5];
    WrittenOrders();
  }

  /** The number of positions i among the first k that hold the item of order i. */
  function InPlaceCount(items: seq<PuzzleItem>, k: nat): (n: nat)
    requires k <= |items|
    ensures n <= k
    ensures n == k <==> forall i :: 0 <= i < k ==> items[i].order == i
  {
    if k == 0 then 0
    else InPlaceCount(items, k - 1) + (if items[k - 1].order == k - 1 then 1 else 0)
  }

  /** The "correct positions" shown under the list: `filter((item, index) => item.order === index).length`. */
  function CorrectPositions(items: seq<PuzzleItem>): (n: nat)
    ensures n <= |items|
  {
    InPlaceCount(items, |items|)
  }

  /** The progress counter reaches 9 exactly when `checkOrder` would accept the list. */
  lemma AllInPlaceIffCorrect(items: seq<PuzzleItem>)
    requires |items| == 9
    ensures CorrectPositions(items) == 9 <==> Orders(items) == CorrectOrder
  {
    if Orders(items) == CorrectOrder {
      assert forall i :: 0 <= i < 9 ==> items[i].order == CorrectOrder[i] == i;
    }
  }

  /** `splice(index, 1)`: the list without position `index`. */
  function Remove<T>(s: seq<T>, index: int): (r: seq<T>)
    requires 0 <= index < |s|
    ensures |r| == |s| - 1
    ensures multiset(r) + multiset{s[index]} == multiset(s)
  {
    assert s == s[..index] + [s[index]] + s[index + 1..];
    s[..index] + s[index + 1..]
  }

  /** `splice(index, 0, x)`: `x` inserted before position `index`. */
  function Insert<T>(s: seq<T>, index: int, x: T): (r: seq<T>)
    requires 0 <= index <= |s|
    ensures |r| == |s| + 1 && r[index] == x
    ensures multiset(r) == multiset(s) + multiset{x}
  {
    assert s == s[..index] + s[index..];
    s[..index] + [x] + s[index..]
  }

  /** Taking back out what was inserted restores the list. */
  lemma RemoveInsert<T>(s: seq<T>, index: int, x: T)
    requires 0 <= index <= |s|
    ensures Remove(Insert(s, index, x), index) == s
  {
    assert s == s[..index] + s[index..];
  }

  /** The list after dragging the item at `from` and dropping it at `to`. */
  function Moved<T>(s: seq<T>, from: int, to: int): (r: seq<T>)
    requires 0 <= from < |s| && 0 <= to < |s|
    ensures |r| == |s| && r[to] == s[from]
    ensures multiset(r) == multiset(s)
  {
    Insert(Remove(s, from), to, s[from])
  }

  /** A drag and drop moves one item and leaves the others in their relative order. */
  lemma MovedKeepsOthersInOrder<T>(s: seq<T>, from: int, to: int)
    requires 0 <= from < |s| && 0 <= to < |s|
    ensures Remove(Moved(s, from, to), to) == Remove(s, from)
  {
    RemoveInsert(Remove(s, from), to, s[from]);
  }

  /** Dropping an item where it was picked up changes nothing. */
  lemma MovedInPlaceIsIdentity<T>(s: seq<T>, from: int)
    requires 0 <= from < |s|
    ensures Moved(s, from, from) == s
  {
    assert s == s[..from] + [s[from]] + s[from + 1..];
  }

  /** Positions `i` and `j` exchanged, everything else untouched. */
  function Swapped<T>(s: seq<T>, i: int, j: int): (r: seq<T>)
    requires 0 <= i < |s| && 0 <= j < |s|
    ensures |r| == |s|
    ensures forall k :: 0 <= k < |s| ==> r[k] == if k == i then s[j] else if k == j then s[i] else s[k]
  {
    s[i := s[j]][j := s[i]]
  }

  /** A swap keeps the multiset of items, and undoing it restores the list. */
  lemma SwappedLaws<T>(s: seq<T>, i: int, j: int)
    requires 0 <= i < |s| && 0 <= j < |s|
    ensures multiset(Swapped(s, i, j)) == multiset(s)
    ensures Swapped(Swapped(s, i, j), i, j) == s
  {
    assert Swapped(Swapped(s, i, j), i, j) == s;
  }

  /** The hint after a wrong check, chosen by the number of earlier checks. */
  function HintFor(attempts: nat): (m: OrderMessage)
    ensures attempts >= 3 <==> m == AlmostThere
    ensures attempts == 0 <==> m == NotQuite
    ensures attempts == 1 <==> m == FirstPuzzles
    ensures attempts == 2 <==> m == ComponentChain
  {
    if attempts == 0 then NotQuite
    else if attempts == 1 then FirstPuzzles
    else if attempts == 2 then ComponentChain
    else AlmostThere
  }

  class PuzzleOrderChallenge {
    var puzzleItems: seq<PuzzleItem>
    var message: OrderMessage
    var attempts: nat
    var draggedItem: Option<int>
    /** Number of `onComplete` timers started. */
    var completionsScheduled: nat
    /** The list as first shown, a rearrangement of `InitialItems`. */
    ghost const mounted: seq<PuzzleItem>

    /** The list is always a rearrangement of the list first shown; a drag holds a position of it. */
    ghost predicate Valid()
      reads this
    {
      && multiset(puzzleItems) == multiset(mounted)
      && |puzzleItems| == 9
      && (draggedItem.Some? ==> 0 <= draggedItem.value < 9)
    }

    /**
     * Mounting. The `sort` with a random comparator only rearranges the list, so its
     * outcome is a parameter: any rearrangement of the nine items.
     */
    constructor (shuffled: seq<PuzzleItem>)
      requires multiset(shuffled) == multiset(InitialItems)
      ensures Valid()
      ensures mounted == shuffled && multiset(mounted) == multiset(InitialItems)
      ensures puzzleItems == shuffled && message == Instructions && attempts == 0
      ensures draggedItem == None && completionsScheduled == 0
    {
      mounted := shuffled;
      puzzleItems := shuffled;
      message := Instructions;
      attempts := 0;
      draggedItem := None;
      completionsScheduled := 0;
      new;
      assert |multiset(shuffled)| == |multiset(InitialItems)|;
    }

    /**
     * `checkOrder`: every check counts as an attempt; the right order schedules
     * completion (again on every further check), a wrong one gets the hint for the
     * attempt count before this check.
     */
    method CheckOrder()
      requires Valid()
      modifies this
      ensures Valid()
      ensures puzzleItems == old(puzzleItems) && draggedItem == old(draggedItem)
      ensures attempts == old(attempts) + 1
      ensures Orders(puzzleItems) == CorrectOrder ==>
        message == Perfect && completionsScheduled == old(completionsScheduled) + 1
      ensures Orders(puzzleItems) != CorrectOrder ==>
        message == HintFor(old(attempts)) && completionsScheduled == old(completionsScheduled)
    {
      var currentOrder := Orders(puzzleItems);
      var isCorrect := currentOrder == CorrectOrder;
      var attemptsBefore := attempts;
      attempts := attempts + 1;
      if isCorrect {
        message := Perfect;
        completionsScheduled := completionsScheduled + 1;
        return;
      }
      if attemptsBefore == 0 {
        message := NotQuite;
      } else if attemptsBefore == 1 {
        message := FirstPuzzles;
      } else if attemptsBefore == 2 {
        message := ComponentChain;
      } else {
        message := AlmostThere;
      }
    }

    /** `handleDragStart`: remembers the position being dragged (from the rendered list). */
    method HandleDragStart(index: int)
      requires Valid() && 0 <= index < |puzzleItems|
      modifies this
      ensures Valid()
      ensures draggedItem == Some(index)
      ensures puzzleItems == old(puzzleItems) && message == old(message) && attempts == old(attempts)
      ensures completionsScheduled == old(completionsScheduled)
    {
      draggedItem := Some(index);
    }

    /** `handleDrop`: moves the dragged item to the drop position and ends the drag; no drag, no change. */
    method HandleDrop(dropIndex: int)
      requires Valid() && 0 <= dropIndex < |puzzleItems|
      modifies this
      ensures Valid()
      ensures old(draggedItem).None? ==> puzzleItems == old(puzzleItems)
      ensures old(draggedItem).Some? ==> puzzleItems == Moved(old(puzzleItems), old(draggedItem).value, dropIndex)
      ensures draggedItem == None
      ensures message == old(message) && attempts == old(attempts)
      ensures completionsScheduled == old(completionsScheduled)
    {
      if draggedItem.None? {
        return;
      }
      var from := draggedItem.value;
      var newItems := puzzleItems;
      var draggedItemData := newItems[from];
      newItems := Remove(newItems, from);
      newItems := Insert(newItems, dropIndex, draggedItemData);
      puzzleItems := newItems;
      draggedItem := None;
    }

    /** `moveItem`: exchanges the item with its upper or lower neighbour, if there is one. */
    method MoveItem(index: int, up: bool)
      requires Valid() && 0 <= index < |puzzleItems|
      modifies this
      ensures Valid()
      ensures var targetIndex := if up then index - 1 else index + 1;
        puzzleItems == if 0 <= targetIndex < |puzzleItems| then Swapped(old(puzzleItems), index, targetIndex)
                       else old(puzzleItems)
      ensures draggedItem == old(draggedItem) && message == old(message) && attempts == old(attempts)
      ensures completionsScheduled == old(completionsScheduled)
    {
      var newItems := puzzleItems;
      var targetIndex := if up then index - 1 else index + 1;
      if 0 <= targetIndex < |newItems| {
        newItems := newItems[index := newItems[targetIndex]][targetIndex := newItems[index]];
        SwappedLaws(puzzleItems, index, targetIndex);
        puzzleItems := newItems;
      }
    }
  }

  /** Whatever the player does, the orders on screen stay a rearrangement of 0..8. */
  lemma ValidMeansOrdersArePermutation(items: seq<PuzzleItem>)
    requires multiset(items) == multiset(InitialItems)
    ensures multiset(Orders(items)) == multiset{0, 1, 2, 3, 4, 5, 6, 7, 8}
  {
    OrdersOfPermutation(items, InitialItems);
    InitialOrders();
  }
}
