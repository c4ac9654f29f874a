/**
 * The Number Sequence puzzle of src/components/puzzles/NumberSequencePuzzle.tsx: nine
 * buttons carrying 1..9 in shuffled positions, to be pressed in ascending order.
 */
module NumberSequence {
  import opened Common
  import Shuffle

  datatype GridButton = GridButton(id: int, number: int, position: int)

  /** `shuffleArray`: a shuffled copy; the argument, a value, is left as it was. */
  method ShuffleArray(xs: seq<int>) returns (shuffled: seq<int>)
    ensures |shuffled| == |xs|
    ensures multiset(shuffled) == multiset(xs)
  {
    var a := new int[|xs|](i requires 0 <= i < |xs| => xs[i]);
    assert a[..] == xs;
    Shuffle.FisherYates(a);
    shuffled := a[..];
  }

  /** The numbers the buttons show, in position order. */
  function Numbers(buttons: seq<GridButton>): (ns: seq<int>)
    ensures |ns| == |buttons| && forall i :: 0 <= i < |ns| ==> ns[i] == buttons[i].number
  {
    seq(|buttons|, i requires 0 <= i < |buttons| => buttons[i].number)
  }

  /** The `shuffledNumbers.map` of `initializePuzzle`: button i shows number i at position i. */
  function ButtonsAt(numbers: seq<int>): (bs: seq<GridButton>)
    ensures Numbers(bs) == numbers
    ensures forall i :: 0 <= i < |bs| ==> bs[i].id == i && bs[i].position == i
  {
    seq(|numbers|, i requires 0 <= i < |numbers| => GridButton(i, numbers[i], i))
  }

  /** The `nextExpected` reached by pressing `presses` in order after a reset. */
  function NextAfter(presses: seq<int>): int {
    if presses == [] then 1
    else
      var before := NextAfter(presses[..|presses| - 1]);
      if presses[|presses| - 1] == before then before + 1 else 1
  }

  /** The progress after any presses is a run 1, 2, ..., that ends the press sequence. */
  lemma {:induction false} PressesEndWithRun(presses: seq<int>)
    ensures NextAfter(presses) >= 1
    ensures NextAfter(presses) - 1 <= |presses|
    ensures presses[|presses| - (NextAfter(presses) - 1)..] == Interval(1, NextAfter(presses))
  {
    if presses != [] {
      var init := presses[..|presses| - 1];
      PressesEndWithRun(init);
      var n := NextAfter(init);
      if presses[|presses| - 1] == n {
        assert presses[|presses| - n..] == init[|init| - (n - 1)..] + [n];
        assert Interval(1, n + 1) == Interval(1, n) + [n];
      }
    }
  }

  /** From a reset, pressing 1, 2, ..., k in order reaches k + 1. */
  lemma {:induction false} AscendingRunAdvances(prefix: seq<int>, k: nat)
    requires NextAfter(prefix) == 1
    ensures NextAfter(prefix + Interval(1, k + 1)) == k + 1
  {
    if k > 0 {
      AscendingRunAdvances(prefix, k - 1);
      var p := prefix + Interval(1, k + 1);
      assert Interval(1, k + 1) == Interval(1, k) + [k];
      assert p[..|p| - 1] == prefix + Interval(1, k);
    } else {
      assert prefix + Interval(1, 1) == prefix;
    }
  }

  /** The nine presses of a solve are exactly 1..9 in order, after a reset or at the start. */
  lemma SolvedMeansAscending(presses: seq<int>)
    requires NextAfter(presses) == 10
    ensures |presses| >= 9 && presses[|presses| - 9..] == [1, 2, 3, 4, 5, 6, 7, 8, 9]
  {
    PressesEndWithRun(presses);
  }

  class NumberSequencePuzzle {
    var buttons: seq<GridButton>
    var currentSequence: seq<int>
    var nextExpected: int
    /** Number of `onComplete` timers started. */
    var completionsScheduled: nat
    /** The numbers pressed since the last `initializePuzzle` (presses while completed excluded). */
    ghost var presses: seq<int>

    /** `currentSequence` is always the run 1..nextExpected-1 that the presses have built. */
    ghost predicate Valid()
      reads this
    {
      && nextExpected == NextAfter(presses)
      && nextExpected >= 1
      && currentSequence == Interval(1, nextExpected)
    }

    /** The buttons carry 1..9 once each, with id and position equal to the index. */
    ghost predicate ButtonsWellFormed()
      reads this
    {
      && |buttons| == 9
      && multiset(Numbers(buttons)) == multiset{1, 2, 3, 4, 5, 6, 7, 8, 9}
      && forall i :: 0 <= i < 9 ==> buttons[i].id == i && buttons[i].position == i
    }

    /** Mounting runs `initializePuzzle`. */
    constructor ()
      ensures Valid() && ButtonsWellFormed()
      ensures currentSequence == [] && nextExpected == 1 && completionsScheduled == 0
    {
      buttons := [];
      currentSequence := [];
      nextExpected := 1;
      completionsScheduled := 0;
      presses := [];
      new;
      InitializePuzzle();
    }

    /** `initializePuzzle`: shuffled buttons 1..9, an empty sequence, 1 expected next. */
    method InitializePuzzle()
      modifies this
      ensures Valid() && ButtonsWellFormed()
      ensures currentSequence == [] && nextExpected == 1 && presses == []
      ensures completionsScheduled == old(completionsScheduled)
    {
      var numbers := [1, 2, 3, 4, 5, 6, 7, 8, 9];
      var shuffledNumbers := ShuffleArray(numbers);
      buttons := ButtonsAt(shuffledNumbers);
      currentSequence := [];
      nextExpected := 1;
      presses := [];
    }

    /**
     * `handleButtonClick`: ignored when completed; the expected number extends the run
     * (and the ninth schedules completion); any other number resets it.
     */
    method HandleButtonClick(button: GridButton, isCompleted: bool)
      requires Valid()
      modifies this
      ensures Valid()
      ensures buttons == old(buttons)
      ensures isCompleted ==>
        currentSequence == old(currentSequence) && nextExpected == old(nextExpected) &&
        completionsScheduled == old(completionsScheduled) && presses == old(presses)
      ensures !isCompleted ==> presses == old(presses) + [button.number]
      ensures !isCompleted && button.number == old(nextExpected) ==>
        currentSequence == old(currentSequence) + [button.number] && nextExpected == old(nextExpected) + 1
      ensures !isCompleted && button.number != old(nextExpected) ==>
        currentSequence == [] && nextExpected == 1
      ensures completionsScheduled == old(completionsScheduled) +
        (if !isCompleted && button.number == old(nextExpected) && |currentSequence| == 9 then 1 else 0)
      ensures completionsScheduled == old(completionsScheduled) +
        (if !isCompleted && button.number == 9 && old(nextExpected) == 9 then 1 else 0)
      ensures completionsScheduled != old(completionsScheduled) ==>
        nextExpected == 10 && |presses| >= 9 && presses[|presses| - 9..] == [1, 2, 3, 4, 5, 6, 7, 8, 9]
    {
      if isCompleted {
        return;
      }
      presses := presses + [button.number];
      assert presses[..|presses| - 1] == old(presses);
      if button.number == nextExpected {
        var newSequence := currentSequence + [button.number];
        assert newSequence == Interval(1, nextExpected + 1);
        currentSequence := newSequence;
        nextExpected := nextExpected + 1;
        if |newSequence| == 9 {
          SolvedMeansAscending(presses);
          completionsScheduled := completionsScheduled + 1;
        }
      } else {
        currentSequence := [];
        nextExpected := 1;
      }
    }
  }
}
