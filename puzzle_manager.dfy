/**
 * The progress controller of src/hooks/usePuzzleManager.ts: the current puzzle index, the
 * set of completed puzzles and the auto-advance timers that `completePuzzle` starts.
 */
module PuzzleManager {
  import opened Common
  import opened Puzzles

  /** What `getProgress` returns, without the floating-point completion percentage. */
  datatype Progress = Progress(current: int, total: int, completed: nat)

  class Manager {
    var currentPuzzleIndex: int
    var completedPuzzles: set<int>
    /**
     * Auto-advance timers started by `completePuzzle` that have not fired yet, oldest
     * first, each holding the index it will write. All use the same 2000 ms delay, so
     * they fire in the order they were started; nothing ever cancels one.
     */
    var pendingAdvances: seq<int>

    /** The index always names a registry entry, and so does every pending advance. */
    ghost predicate Valid()
      reads this
    {
      && IsValidPuzzleIndex(currentPuzzleIndex)
      && forall k :: 0 <= k < |pendingAdvances| ==> 0 < pendingAdvances[k] < GetTotalPuzzles()
    }

    constructor ()
      ensures Valid()
      ensures currentPuzzleIndex == 0 && completedPuzzles == {} && pendingAdvances == []
    {
      currentPuzzleIndex := 0;
      completedPuzzles := {};
      pendingAdvances := [];
    }

    /**
     * The `completePuzzle` of a render in which the current index was `renderedIndex`:
     * record completion and, when `puzzleIndex` was then current and is not the last
     * puzzle, start the advance timer. A callback keeps the closure of the render that
     * created it, so `renderedIndex` may be older than `currentPuzzleIndex`.
     */
    method CompletePuzzleFromRender(puzzleIndex: int, renderedIndex: int)
      requires Valid()
      requires IsValidPuzzleIndex(renderedIndex)
      modifies this
      ensures Valid()
      ensures completedPuzzles == old(completedPuzzles) + {puzzleIndex}
      ensures currentPuzzleIndex == old(currentPuzzleIndex)
      ensures pendingAdvances == old(pendingAdvances) +
        (if puzzleIndex == renderedIndex && puzzleIndex < GetTotalPuzzles() - 1
         then [puzzleIndex + 1] else [])
    {
      completedPuzzles := completedPuzzles + {puzzleIndex};
      if puzzleIndex == renderedIndex && puzzleIndex < GetTotalPuzzles() - 1 {
        pendingAdvances := pendingAdvances + [puzzleIndex + 1];
      }
    }

    /** `completePuzzle` of the latest render: the comparison is with the current index. */
    method CompletePuzzle(puzzleIndex: int)
      requires Valid()
      modifies this
      ensures Valid()
      ensures completedPuzzles == old(completedPuzzles) + {puzzleIndex}
      ensures currentPuzzleIndex == old(currentPuzzleIndex)
      ensures pendingAdvances == old(pendingAdvances) +
        (if puzzleIndex == old(currentPuzzleIndex) && puzzleIndex < GetTotalPuzzles() - 1
         then [puzzleIndex + 1] else [])
    {
      CompletePuzzleFromRender(puzzleIndex, currentPuzzleIndex);
    }

    /** The oldest auto-advance timer fires: `setCurrentPuzzleIndex(puzzleIndex + 1)`, unconditionally. */
    method FireAutoAdvance()
      requires Valid()
      requires pendingAdvances != []
      modifies this
      ensures Valid()
      ensures currentPuzzleIndex == old(pendingAdvances[0])
      ensures pendingAdvances == old(pendingAdvances[1..])
      ensures completedPuzzles == old(completedPuzzles)
    {
      currentPuzzleIndex := pendingAdvances[0];
      pendingAdvances := pendingAdvances[1..];
    }

    /** `navigateToPuzzle`: move only to a valid index; any other index is ignored. */
    method NavigateToPuzzle(index: int)
      requires Valid()
      modifies this
      ensures Valid()
      ensures currentPuzzleIndex == if IsValidPuzzleIndex(index) then index else old(currentPuzzleIndex)
      ensures completedPuzzles == old(completedPuzzles) && pendingAdvances == old(pendingAdvances)
    {
      if IsValidPuzzleIndex(index) {
        currentPuzzleIndex := index;
      }
    }

    /** `isPuzzleCompleted`: set membership; a read that changes nothing. */
    function IsPuzzleCompleted(index: int): (b: bool)
      reads this
      ensures b <==> index in completedPuzzles
    {
      index in completedPuzzles
    }

    /** `resetProgress`: back to the first puzzle with nothing completed; started timers keep running. */
    method ResetProgress()
      requires Valid()
      modifies this
      ensures Valid()
      ensures currentPuzzleIndex == 0 && completedPuzzles == {}
      ensures forall k :: !IsPuzzleCompleted(k)
      ensures pendingAdvances == old(pendingAdvances)
    {
      currentPuzzleIndex := 0;
      completedPuzzles := {};
    }

    /** `getProgress`: the one-based position, the registry size and the number completed. */
    function GetProgress(): (p: Progress)
      reads this
      requires Valid()
      ensures p.current == currentPuzzleIndex + 1 && 1 <= p.current <= p.total
      ensures p.total == GetTotalPuzzles() == |PuzzleConfigs|
      ensures p.completed == |completedPuzzles|
    {
      Progress(currentPuzzleIndex + 1, GetTotalPuzzles(), |completedPuzzles|)
    }
  }

  /** Every completed index names a registry entry (true whenever completions come from the app shell). */
  ghost predicate CompletedWithinRegistry(m: Manager)
    reads m
  {
    forall k :: k in m.completedPuzzles ==> IsValidPuzzleIndex(k)
  }

  /** Then the completed count never exceeds the number of puzzles. */
  lemma ProgressCompletedBounded(m: Manager)
    requires m.Valid()
    requires CompletedWithinRegistry(m)
    ensures m.GetProgress().completed <= m.GetProgress().total
  {
    IndexSubsetSize(m.completedPuzzles, GetTotalPuzzles());
  }

  /** `completePuzzle(k)` twice leaves the same completed set as once. */
  method CompleteTwice(m: Manager, k: int)
    requires m.Valid()
    modifies m
    ensures m.Valid()
    ensures m.completedPuzzles == old(m.completedPuzzles) + {k}
  {
    m.CompletePuzzle(k);
    ghost var once := m.completedPuzzles;
    m.CompletePuzzle(k);
    assert m.completedPuzzles == once;
  }

  /**
   * The advance timer is not cancelled: completing the current puzzle and then navigating
   * elsewhere before the timer fires still lands on the puzzle after the completed one.
   */
  method StaleAdvanceOverridesNavigation(m: Manager, elsewhere: int)
    requires m.Valid()
    requires m.pendingAdvances == []
    requires m.currentPuzzleIndex < GetTotalPuzzles() - 1
    modifies m
    ensures m.Valid()
    ensures m.currentPuzzleIndex == old(m.currentPuzzleIndex) + 1
  {
    m.CompletePuzzle(m.currentPuzzleIndex);
    m.NavigateToPuzzle(elsewhere);
    m.FireAutoAdvance();
  }

  /** The same holds across `resetProgress`: the reset index 0 is overwritten by the old timer. */
  method StaleAdvanceOverridesReset(m: Manager)
    requires m.Valid()
    requires m.pendingAdvances == []
    requires m.currentPuzzleIndex < GetTotalPuzzles() - 1
    modifies m
    ensures m.Valid()
    ensures m.currentPuzzleIndex == old(m.currentPuzzleIndex) + 1
    ensures m.completedPuzzles == {}
  {
    m.CompletePuzzle(m.currentPuzzleIndex);
    m.ResetProgress();
    m.FireAutoAdvance();
  }
}
