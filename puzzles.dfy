/** The static puzzle registry of src/config/puzzles.tsx. */
module Puzzles {
  import opened Common

  /** Which component renders an entry; `Blank(n)` is BlankPuzzle with puzzleNumber n. */
  datatype PuzzleKind = NumberSequence | DatePicker | Blank(puzzleNumber: int)

  datatype PuzzleConfig = PuzzleConfig(id: int, title: string, description: string, component: PuzzleKind)

  const PuzzleConfigs: seq<PuzzleConfig> := [
    PuzzleConfig(0, "Number Sequence", "Press buttons 1-9 in order", NumberSequence),
    PuzzleConfig(1, "Date Mystery", "Find the correct date", DatePicker),
    PuzzleConfig(2, "Puzzle 3", "Coming soon!", Blank(3)),
    PuzzleConfig(3, "Puzzle 4", "Coming soon!", Blank(4)),
    PuzzleConfig(4, "Puzzle 5", "Coming soon!", Blank(5)),
    PuzzleConfig(5, "Puzzle 6", "Coming soon!", Blank(6)),
    PuzzleConfig(6, "Puzzle 7", "Coming soon!", Blank(7)),
    PuzzleConfig(7, "Puzzle 8", "Coming soon!", Blank(8)),
    PuzzleConfig(8, "Puzzle 9", "Coming soon!", Blank(9)),
    PuzzleConfig(9, "Puzzle 10", "Coming soon!", Blank(10))
  ]

  /** `getTotalPuzzles`: the registry's length, which is ten. */
  function GetTotalPuzzles(): (n: nat)
    ensures n == |PuzzleConfigs| == 10
  {
    |PuzzleConfigs|
  }

  /** `isValidPuzzleIndex`. */
  predicate IsValidPuzzleIndex(index: int) {
    index >= 0 && index < |PuzzleConfigs|
  }

  /** `getPuzzleConfig`: `puzzleConfigs[index]`, which is `undefined` (None) out of range. */
  function GetPuzzleConfig(index: int): (r: Option<PuzzleConfig>)
    ensures r.Some? <==> 0 <= index < GetTotalPuzzles()
    ensures r.Some? ==> r.value == PuzzleConfigs[index] && r.value.id == index
  {
    if IsValidPuzzleIndex(index) then Some(PuzzleConfigs[index]) else None
  }

  /** Entry i of the registry carries id i, so an id can be used as an index. */
  lemma RegistryIdsAreIndices()
    ensures |PuzzleConfigs| == 10
    ensures forall i :: 0 <= i < |PuzzleConfigs| ==> PuzzleConfigs[i].id == i
  {
  }

  /** `isValidPuzzleIndex(i)` holds exactly for 0 <= i < 10. */
  lemma ValidIndexRange(i: int)
    ensures IsValidPuzzleIndex(i) <==> 0 <= i < 10
  {
  }
}
