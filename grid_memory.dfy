/**
 * The Grid Memory puzzle of src/components/puzzles/GridMemoryPuzzle.tsx: a 4x4 grid
 * flashes a pattern of cells, the player reproduces it, and five levels in a row
 * solve the puzzle; three wrong submissions start over.
 */
module GridMemory {
  import opened Common

  datatype GridCell = GridCell(id: int, row: int, col: int, isActive: bool, isPlayerActive: bool)

  datatype GamePhase = Showing | Input | Success | Failed

  /** The one timer a phase leaves running, if any. */
  datatype PendingTimer = NoTimer | HidePattern | NextLevel | Restart | Retry

  const MaxAttempts := 3
  const InitialShowTime := 3000
  const MinShowTime := 1500
  const LastLevel := 5

  /** Cell `id` sits at row `id / 4`, column `id % 4`, with both flags off. */
  predicate PlainCell(c: GridCell, id: int) {
    c == GridCell(id, c.row, c.col, false, false) &&
    0 <= c.row < 4 && 0 <= c.col < 4 && id == 4 * c.row + c.col
  }

  /** Sixteen cells in row-major order; the flags are not constrained. */
  predicate WellFormedGrid(grid: seq<GridCell>) {
    |grid| == 16 &&
    forall i :: 0 <= i < 16 ==>
      grid[i].id == i && 0 <= grid[i].row < 4 && 0 <= grid[i].col < 4 && i == 4 * grid[i].row + grid[i].col
  }

  /** `initializeGrid`: the 4x4 grid row by row, nothing lit. */
  method InitializeGrid() returns (grid: seq<GridCell>)
    ensures WellFormedGrid(grid)
    ensures forall i :: 0 <= i < |grid| ==> PlainCell(grid[i], i)
  {
    grid := [];
    var row := 0;
    while row < 4
      invariant 0 <= row <= 4
      invariant |grid| == 4 * row
      invariant forall i :: 0 <= i < |grid| ==> PlainCell(grid[i], i)
    {
      var col := 0;
      while col < 4
        invariant 0 <= col <= 4
        invariant |grid| == 4 * row + col
        invariant forall i :: 0 <= i < |grid| ==> PlainCell(grid[i], i)
      {
        grid := grid + [GridCell(row * 4 + col, row, col, false, false)];
        col := col + 1;
      }
      row := row + 1;
    }
  }

  /** `Math.min(3 + level, 8)`. */
  function PatternLength(level: int): (n: int)
    ensures n <= 8 && n <= 3 + level && (n == 8 || n == 3 + level)
  {
    if 3 + level < 8 then 3 + level else 8
  }

  /** Fewer than 16 distinct cells leave a cell of the grid unused. */
  lemma FreeCellExists(used: set<int>)
    requires |used| < 16
    ensures exists c :: 0 <= c < 16 && c !in used
  {
    if forall c :: 0 <= c < 16 ==> c in used {
      SubsetSize(IndexSet(16), used);
      assert false;
    }
  }

  /**
   * `generatePattern`: `PatternLength(level)` distinct cells of the grid (none for a
   * length that is not positive). Only the draws that hit an unused cell are modelled.
   */
  method GeneratePattern(level: int) returns (pattern: seq<int>)
    ensures |pattern| == if PatternLength(level) < 0 then 0 else PatternLength(level)
    ensures Distinct(pattern)
    ensures forall i :: 0 <= i < |pattern| ==> 0 <= pattern[i] < 16
  {
    var patternLength := PatternLength(level);
    pattern := [];
    var usedCells: set<int> := {};
    while |pattern| < patternLength
      invariant |pattern| <= 8 && (pattern == [] || |pattern| <= patternLength)
      invariant usedCells == set x | x in pattern
      invariant Distinct(pattern)
      invariant forall i :: 0 <= i < |pattern| ==> 0 <= pattern[i] < 16
      decreases patternLength - |pattern|
    {
      DistinctCardinality(pattern);
      FreeCellExists(usedCells);
      var randomCell :| 0 <= randomCell < 16 && randomCell !in usedCells;
      pattern := pattern + [randomCell];
      usedCells := usedCells + {randomCell};
    }
  }

  /** The grid with the target cells lit and no player selection (the `startLevel` map). */
  function ShowPattern(grid: seq<GridCell>, pattern: seq<int>): (r: seq<GridCell>)
    ensures |r| == |grid|
    ensures forall i :: 0 <= i < |r| ==>
      r[i] == grid[i].(isActive := grid[i].id in pattern, isPlayerActive := false)
    ensures WellFormedGrid(grid) ==> WellFormedGrid(r) && Displays(r, pattern, [])
  {
    seq(|grid|, i requires 0 <= i < |grid| =>
      grid[i].(isActive := grid[i].id in pattern, isPlayerActive := false))
  }

  /** The grid with exactly the selected cells marked as chosen by the player. */
  function ShowSelection(grid: seq<GridCell>, selection: seq<int>): (r: seq<GridCell>)
    ensures |r| == |grid|
    ensures forall i :: 0 <= i < |r| ==> r[i] == grid[i].(isPlayerActive := grid[i].id in selection)
    ensures WellFormedGrid(grid) ==> WellFormedGrid(r)
    ensures forall i :: 0 <= i < |r| ==>
      r[i].isActive == grid[i].isActive && (r[i].isPlayerActive <==> r[i].id in selection)
  {
    seq(|grid|, i requires 0 <= i < |grid| => grid[i].(isPlayerActive := grid[i].id in selection))
  }

  /** Each cell is lit iff it is in `lit` and marked iff it is in `chosen`. */
  predicate Displays(grid: seq<GridCell>, lit: seq<int>, chosen: seq<int>) {
    forall i :: 0 <= i < |grid| ==>
      (grid[i].isActive <==> grid[i].id in lit) && (grid[i].isPlayerActive <==> grid[i].id in chosen)
  }

  /** Marking a new selection keeps the lit cells and shows exactly that selection. */
  lemma SelectionKeepsLit(grid: seq<GridCell>, lit: seq<int>, chosen: seq<int>, selection: seq<int>)
    requires Displays(grid, lit, chosen)
    ensures Displays(ShowSelection(grid, selection), lit, selection)
  {
  }

  /** The player's selection after clicking `cellId`: removed if present, else appended. */
  function ToggleCell(selection: seq<int>, cellId: int): (r: seq<int>)
    ensures forall c :: c != cellId ==> (c in r <==> c in selection)
    ensures Distinct(selection) ==> Distinct(r) && (cellId in r <==> cellId !in selection)
  {
    var cellIndex := IndexOf(selection, cellId);
    if cellIndex >= 0 then
      var r := selection[..cellIndex] + selection[cellIndex + 1..];
      assert selection == selection[..cellIndex] + [cellId] + selection[cellIndex + 1..];
      assert Distinct(selection) ==> Distinct(r) by {
        if Distinct(selection) {
          forall i, j | 0 <= i < j < |r| ensures r[i] != r[j] {
            var i' := if i < cellIndex then i else i + 1;
            var j' := if j < cellIndex then j else j + 1;
            assert r[i] == selection[i'] && r[j] == selection[j'];
          }
        }
      }
      r
    else
      selection + [cellId]
  }

  /** Clicking the same cell twice gives back the same selected cells. */
  lemma ToggleTwiceRestoresCells(selection: seq<int>, cellId: int)
    requires Distinct(selection)
    ensures forall c :: c in ToggleCell(ToggleCell(selection, cellId), cellId) <==> c in selection
  {
  }

  /** The `isCorrect` test of `submitPattern`: as long as the target and containing it. */
  function IsCorrect(target: seq<int>, player: seq<int>): (b: bool)
    ensures b ==> Cells(target) <= Cells(player)
  {
    assert (forall c :: c in target ==> c in player) ==> Cells(target) <= Cells(player);
    |target| == |player| && forall c :: c in target ==> c in player
  }

  /** The cells of a pattern, order and repetition forgotten. */
  function Cells(pattern: seq<int>): set<int> {
    set c | c in pattern
  }

  /** For duplicate-free patterns the check is set equality: click order does not matter. */
  lemma {:induction false} CorrectIffSameCells(target: seq<int>, player: seq<int>)
    requires Distinct(target) && Distinct(player)
    ensures IsCorrect(target, player) <==> Cells(target) == Cells(player)
  {
    DistinctCardinality(target);
    DistinctCardinality(player);
    if IsCorrect(target, player) {
      SubsetSameSize(Cells(target), Cells(player));
    }
    if Cells(target) == Cells(player) {
      forall c | c in target ensures c in player {
        assert c in Cells(target);
      }
    }
  }

  /** `Math.max(1500, showTime - 200)`. */
  function NextShowTime(showTime: int): (t: int)
    ensures t >= MinShowTime && t >= showTime - 200 && (t == MinShowTime || t == showTime - 200)
  {
    if showTime - 200 > MinShowTime then showTime - 200 else MinShowTime
  }

  class GridMemoryPuzzle {
    var grid: seq<GridCell>
    var gamePhase: GamePhase
    var level: int
    var showTime: int
    var targetPattern: seq<int>
    var playerPattern: seq<int>
    var attempts: int
    /** The `setTimeout` callback still to run, if any. */
    var pending: PendingTimer
    /** Number of `onComplete` timers started. */
    var completionsScheduled: nat

    ghost predicate Valid()
      reads this
    {
      && WellFormedGrid(grid)
      && Displays(grid, if gamePhase == Showing then targetPattern else [], playerPattern)
      && (gamePhase == Showing ==> playerPattern == [])
      && 4 <= |targetPattern| <= 8
      && Distinct(targetPattern)
      && (forall i :: 0 <= i < |targetPattern| ==> 0 <= targetPattern[i] < 16)
      && Distinct(playerPattern)
      && 1 <= level <= LastLevel
      && MinShowTime <= showTime <= InitialShowTime
      && 0 <= attempts <= MaxAttempts
      && (gamePhase == Showing <==> pending == HidePattern)
      && (gamePhase == Input ==> pending == NoTimer)
      && (gamePhase == Failed ==> pending == (if attempts == MaxAttempts then Restart else Retry))
      && (gamePhase == Success ==> pending == (if level >= LastLevel then NoTimer else NextLevel))
      && (attempts == MaxAttempts ==> gamePhase == Failed)
      && completionsScheduled == (if gamePhase == Success && level >= LastLevel then 1 else 0)
    }

    /** Mounting: level 1, 3000 ms, no attempts, then `startLevel`. */
    constructor ()
      ensures Valid()
      ensures level == 1 && showTime == InitialShowTime && attempts == 0
      ensures gamePhase == Showing && |targetPattern| == PatternLength(1)
      ensures completionsScheduled == 0
    {
      grid := [];
      gamePhase := Showing;
      level := 1;
      showTime := InitialShowTime;
      targetPattern := [];
      playerPattern := [];
      attempts := 0;
      pending := NoTimer;
      completionsScheduled := 0;
      new;
      StartLevel(level);
    }

    /**
     * `startLevel`: a fresh grid showing a new pattern for `patternLevel`, an empty
     * selection, and the timer that will hide the pattern.
     */
    method StartLevel(patternLevel: int)
      requires 1 <= patternLevel <= LastLevel
      modifies this
      ensures WellFormedGrid(grid) && Displays(grid, targetPattern, [])
      ensures |targetPattern| == PatternLength(patternLevel) && Distinct(targetPattern)
      ensures forall i :: 0 <= i < |targetPattern| ==> 0 <= targetPattern[i] < 16
      ensures playerPattern == [] && gamePhase == Showing && pending == HidePattern
      ensures level == old(level) && showTime == old(showTime) && attempts == old(attempts)
      ensures completionsScheduled == old(completionsScheduled)
    {
      var newGrid := InitializeGrid();
      var pattern := GeneratePattern(patternLevel);
      grid := ShowPattern(newGrid, pattern);
      targetPattern := pattern;
      playerPattern := [];
      gamePhase := Showing;
      pending := HidePattern;
    }

    /**
     * The pending timer fires. Hiding turns every cell off and opens input. The other
     * three were created by `submitPattern`, and the `startLevel` they call still sees
     * the level of that render: the next pattern has the length of the level just
     * passed (or failed), not of the level now displayed.
     */
    method FireTimer()
      requires Valid() && pending != NoTimer
      modifies this
      ensures Valid()
      ensures old(pending) == HidePattern ==>
        gamePhase == Input && pending == NoTimer && targetPattern == old(targetPattern) &&
        playerPattern == [] && Displays(grid, [], []) &&
        level == old(level) && showTime == old(showTime) && attempts == old(attempts)
      ensures old(pending) == NextLevel ==>
        level == old(level) + 1 && showTime == NextShowTime(old(showTime)) && attempts == old(attempts)
      ensures old(pending) == Restart ==>
        level == 1 && showTime == InitialShowTime && attempts == 0
      ensures old(pending) == Retry ==>
        level == old(level) && showTime == old(showTime) && attempts == old(attempts)
      ensures old(pending) != HidePattern ==>
        gamePhase == Showing && |targetPattern| == PatternLength(old(level))
      ensures completionsScheduled == old(completionsScheduled)
    {
      var capturedLevel := level;
      match pending {
        case HidePattern =>
          grid := ShowPattern(grid, []);
          gamePhase := Input;
          pending := NoTimer;
        case NextLevel =>
          level := level + 1;
          showTime := NextShowTime(showTime);
          StartLevel(capturedLevel);
        case Restart =>
          level := 1;
          showTime := InitialShowTime;
          attempts := 0;
          StartLevel(capturedLevel);
        case Retry =>
          StartLevel(capturedLevel);
      }
    }

    /** `handleCellClick`: during input, toggles the cell in the selection and on the grid. */
    method HandleCellClick(cellId: int, isCompleted: bool)
      requires Valid()
      modifies this
      ensures Valid()
      ensures gamePhase == old(gamePhase) && pending == old(pending) && targetPattern == old(targetPattern)
      ensures level == old(level) && showTime == old(showTime) && attempts == old(attempts)
      ensures completionsScheduled == old(completionsScheduled)
      ensures playerPattern ==
        if old(gamePhase) == Input && !isCompleted then ToggleCell(old(playerPattern), cellId)
        else old(playerPattern)
      ensures old(gamePhase) != Input || isCompleted ==> grid == old(grid)
    {
      if gamePhase != Input || isCompleted {
        return;
      }
      var newPlayerPattern := ToggleCell(playerPattern, cellId);
      playerPattern := newPlayerPattern;
      grid := ShowSelection(grid, newPlayerPattern);
    }

    /**
     * `submitPattern`: during input, a correct selection passes the level (the fifth
     * schedules completion); a wrong one costs an attempt, and the third restarts.
     */
    method SubmitPattern()
      requires Valid()
      modifies this
      ensures Valid()
      ensures grid == old(grid) && targetPattern == old(targetPattern) && playerPattern == old(playerPattern)
      ensures level == old(level) && showTime == old(showTime)
      ensures old(gamePhase) != Input ==>
        gamePhase == old(gamePhase) && pending == old(pending) && attempts == old(attempts) &&
        completionsScheduled == old(completionsScheduled)
      ensures old(gamePhase) == Input && IsCorrect(targetPattern, playerPattern) ==>
        gamePhase == Success && attempts == old(attempts) &&
        (level >= LastLevel <==> completionsScheduled == old(completionsScheduled) + 1)
      ensures old(gamePhase) == Input && !IsCorrect(targetPattern, playerPattern) ==>
        gamePhase == Failed && attempts == old(attempts) + 1 &&
        (pending == Restart <==> attempts == MaxAttempts) &&
        completionsScheduled == old(completionsScheduled)
    {
      if gamePhase != Input {
        return;
      }
      var isCorrect := |targetPattern| == |playerPattern| &&
        forall c :: c in targetPattern ==> c in playerPattern;
      if isCorrect {
        gamePhase := Success;
        if level >= LastLevel {
          completionsScheduled := completionsScheduled + 1;
        } else {
          pending := NextLevel;
        }
      } else {
        gamePhase := Failed;
        var failedAttempts := attempts;
        attempts := attempts + 1;
        if failedAttempts + 1 >= MaxAttempts {
          pending := Restart;
        } else {
          pending := Retry;
        }
      }
    }

    /** `clearPattern`: during input, empties the selection and unmarks every cell. */
    method ClearPattern()
      requires Valid()
      modifies this
      ensures Valid()
      ensures gamePhase == old(gamePhase) && pending == old(pending) && targetPattern == old(targetPattern)
      ensures level == old(level) && showTime == old(showTime) && attempts == old(attempts)
      ensures completionsScheduled == old(completionsScheduled)
      ensures playerPattern == if old(gamePhase) == Input then [] else old(playerPattern)
      ensures old(gamePhase) != Input ==> grid == old(grid)
    {
      if gamePhase != Input {
        return;
      }
      playerPattern := [];
      grid := ShowSelection(grid, []);
    }
  }

  /** Completion is scheduled only by a correct submission at the last level. */
  method SolveLastLevel(p: GridMemoryPuzzle)
    requires p.Valid() && p.gamePhase == Input && p.level == LastLevel
    requires IsCorrect(p.targetPattern, p.playerPattern)
    modifies p
    ensures p.Valid() && p.gamePhase == Success && p.pending == NoTimer && p.completionsScheduled == 1
  {
    p.SubmitPattern();
  }
}
