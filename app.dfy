/**
 * The app shell of src/App.tsx: its handlers only call the controller, behind the
 * Previous/Next guards, and it hands the current puzzle its `isCompleted` flag.
 */
module App {
  import opened Common
  import opened Puzzles
  import opened PuzzleManager

  /** `currentPuzzle`: the registry entry at the current index, which always exists. */
  function CurrentPuzzle(m: Manager): (c: PuzzleConfig)
    reads m
    requires m.Valid()
    ensures c.id == m.currentPuzzleIndex
    ensures GetPuzzleConfig(m.currentPuzzleIndex) == Some(c)
  {
    PuzzleConfigs[m.currentPuzzleIndex]
  }

  /** The `isCompleted` prop given to the current puzzle. */
  function CurrentIsCompleted(m: Manager): (b: bool)
    reads m
    ensures b <==> m.currentPuzzleIndex in m.completedPuzzles
  {
    m.IsPuzzleCompleted(m.currentPuzzleIndex)
  }

  /** `handlePuzzleComplete`: completes the current puzzle, so the advance test always succeeds unless it is the last. */
  method HandlePuzzleComplete(m: Manager)
    requires m.Valid()
    modifies m
    ensures m.Valid()
    ensures m.completedPuzzles == old(m.completedPuzzles) + {old(m.currentPuzzleIndex)}
    ensures CompletedWithinRegistry(m) <== old(CompletedWithinRegistry(m))
    ensures m.currentPuzzleIndex == old(m.currentPuzzleIndex)
    ensures m.pendingAdvances == old(m.pendingAdvances) +
      (if old(m.currentPuzzleIndex) < GetTotalPuzzles() - 1 then [old(m.currentPuzzleIndex) + 1] else [])
    ensures CurrentIsCompleted(m)
  {
    m.CompletePuzzle(m.currentPuzzleIndex);
  }

  /**
   * A puzzle's delayed `onComplete` fires. It runs the `handlePuzzleComplete` of the render
   * that started the timer, so it completes the puzzle that was current then, `renderedIndex`,
   * and compares with that same index: unless it is the last puzzle an advance timer is
   * started, whatever the current index is now.
   */
  method FireCompletion(m: Manager, renderedIndex: int)
    requires m.Valid()
    requires IsValidPuzzleIndex(renderedIndex)
    modifies m
    ensures m.Valid()
    ensures m.completedPuzzles == old(m.completedPuzzles) + {renderedIndex}
    ensures m.currentPuzzleIndex == old(m.currentPuzzleIndex)
    ensures m.pendingAdvances == old(m.pendingAdvances) +
      (if renderedIndex < GetTotalPuzzles() - 1 then [renderedIndex + 1] else [])
  {
    m.CompletePuzzleFromRender(renderedIndex, renderedIndex);
  }

  /**
   * Navigating away while a solved puzzle's completion delay runs: the old puzzle is still
   * marked complete, the puzzle now shown is not, and an advance to the puzzle after the
   * old one is queued.
   */
  method CompletionAfterNavigation(m: Manager, elsewhere: int)
    requires m.Valid()
    requires m.pendingAdvances == [] && m.completedPuzzles == {}
    requires m.currentPuzzleIndex < GetTotalPuzzles() - 1
    requires IsValidPuzzleIndex(elsewhere) && elsewhere != m.currentPuzzleIndex
    modifies m
    ensures m.Valid()
    ensures m.completedPuzzles == {old(m.currentPuzzleIndex)}
    ensures m.currentPuzzleIndex == elsewhere && !CurrentIsCompleted(m)
    ensures m.pendingAdvances == [old(m.currentPuzzleIndex) + 1]
  {
    var solvedIndex := m.currentPuzzleIndex;
    m.NavigateToPuzzle(elsewhere);
    FireCompletion(m, solvedIndex);
  }

  /** `handleNavigateBack`: one step back when not on the first puzzle, otherwise nothing. */
  method HandleNavigateBack(m: Manager)
    requires m.Valid()
    modifies m
    ensures m.Valid()
    ensures m.currentPuzzleIndex ==
      if old(m.currentPuzzleIndex) > 0 then old(m.currentPuzzleIndex) - 1 else old(m.currentPuzzleIndex)
    ensures m.completedPuzzles == old(m.completedPuzzles) && m.pendingAdvances == old(m.pendingAdvances)
  {
    if m.currentPuzzleIndex > 0 {
      m.NavigateToPuzzle(m.currentPuzzleIndex - 1);
    }
  }

  /** `handleNavigateForward`: one step forward when not on the last puzzle, otherwise nothing. */
  method HandleNavigateForward(m: Manager)
    requires m.Valid()
    modifies m
    ensures m.Valid()
    ensures m.currentPuzzleIndex ==
      if old(m.currentPuzzleIndex) < GetTotalPuzzles() - 1 then old(m.currentPuzzleIndex) + 1
      else old(m.currentPuzzleIndex)
    ensures m.completedPuzzles == old(m.completedPuzzles) && m.pendingAdvances == old(m.pendingAdvances)
  {
    if m.currentPuzzleIndex < GetTotalPuzzles() - 1 {
      m.NavigateToPuzzle(m.currentPuzzleIndex + 1);
    }
  }

  /** `disabled` of the Previous button: on a valid index, exactly when `handleNavigateBack` would refuse. */
  function PreviousDisabled(currentPuzzleIndex: int): (b: bool)
    ensures IsValidPuzzleIndex(currentPuzzleIndex) ==> (b <==> !(currentPuzzleIndex > 0))
  {
    currentPuzzleIndex == 0
  }

  /** `disabled` of the Next button: on a valid index, exactly when `handleNavigateForward` would refuse. */
  function NextDisabled(currentPuzzleIndex: int): (b: bool)
    ensures IsValidPuzzleIndex(currentPuzzleIndex) ==> (b <==> !(currentPuzzleIndex < GetTotalPuzzles() - 1))
  {
    currentPuzzleIndex == GetTotalPuzzles() - 1
  }
}
