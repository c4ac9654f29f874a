# KendoPuzzle, modelled in Dafny

KendoPuzzle is a browser game of ten puzzle slots, each puzzle hidden in a KendoReact
component. This project models its logic and proves properties of it:

- the puzzle registry (`src/config/puzzles.tsx`);
- the progress controller hook that tracks the current puzzle and the completed ones
  (`src/hooks/usePuzzleManager.ts`);
- the app shell's Previous/Next/complete wiring (`src/App.tsx`);
- the state machines of the ten puzzle components: number sequence, switch network,
  grid memory, treasure mystery (context menu), puzzle ordering, technology selection
  (multi-select), the cipher of three (sliders), the colour equations, the hidden word
  and the date mystery.

One Dafny module models each source file. `common.dfy` holds shared helpers: ASCII case
mapping, `Option`, integer intervals, duplicate-free sequences, and the set-size lemmas.
`shuffle.dfy` holds the in-place Fisher-Yates loop that two components use.

Modelling choices:

- **Classes.** Each component or hook whose state React updates is a class. Its `useState`
  fields become class fields, and each handler becomes a method that `modifies this`. Each
  method states the complete new state. Where a class has an invariant, it is a ghost
  `Valid()` that every method keeps. The technology-selection and date classes need none.
- **Pure functions.** Pure lookups and checks become functions, and the properties are
  lemmas about them.
- **Timers.** A `setTimeout(() => onComplete(), …)` becomes an increment of a
  `completionsScheduled` counter. Timers that change state become explicit pending actions
  that a separate method fires:
  - the controller's auto-advance is a queue `pendingAdvances`, fired by `FireAutoAdvance`;
  - grid memory has a single `pending` timer, fired by `FireTimer`;
  - the hidden word's hint timer is fired by `HintTimerFires`.
- **The `isCompleted` prop.** It is a parameter of the handlers that read it.
- **Randomness.** `Math.random` becomes a nondeterministic choice. What is proved holds for
  every outcome:
  - the Fisher-Yates partner index is any `j` in `[0, i]`;
  - a grid-pattern cell is any cell not yet used;
  - the random `sort` that shuffles the ordering puzzle becomes a constructor argument,
    required to be a rearrangement of the nine items.

Behaviour of the code as written that the model keeps and proves:

- **Auto-advance is never cancelled.** The timer that `completePuzzle` starts still moves
  to the next puzzle after the player has navigated elsewhere or reset. See
  `StaleAdvanceOverridesNavigation` and `StaleAdvanceOverridesReset`.
- **The switch network cannot be won.** Each switch's `turnsOff` list is non-empty and
  leaves out the switch itself, so after any toggle some switch is off. The success branch
  of the win check is therefore unreachable from the mounted table (`AllOnUnreachable`),
  and `SwitchNetworkPuzzle.Valid()` records that no completion is ever scheduled.
- **Grid memory's level timers see the old level.**
  - The timers that `submitPattern` starts call the `startLevel` of the render that created
    them. That function still sees the old `level`, so the next pattern has the length of
    the level just passed or failed (`FireTimer`).
  - After a restart from level 3, for example, level 1 shows a pattern of 6 cells.
- **A completion callback keeps the render that started it.** A puzzle's delayed
  `onComplete` runs the `handlePuzzleComplete` of the render that scheduled it. That
  function completes the puzzle that was current then, and compares the index with that
  same index. So navigating away during the delay still completes the old puzzle and still
  queues an advance to the puzzle after it (`FireCompletion`, `CompletionAfterNavigation`).
- **The input handlers do not test `isCompleted`.** The multi-select, hidden word and date
  handlers, and the ordering puzzle's check, schedule completion on every right answer.
  Once the puzzle is solved, the source disables the control or hides the button, so a
  repeat can happen only during the delay before `onComplete` runs.

## Model

| member | source | states |
|---|---|---|
| Common.UpperChar | src/components/puzzles/WordHuntPuzzle.tsx:16 | ASCII `toUpperCase` of one character: a-z move to A-Z, every other character is kept, and the result is never a-z |
| Common.LowerChar | src/components/puzzles/ColorEquationPuzzle.tsx:71-72 | ASCII `toLowerCase` of one character: A-Z move to a-z, every other character is kept, and the result is never A-Z |
| Common.Upper | src/components/puzzles/WordHuntPuzzle.tsx:16 | same length, each character upper-cased |
| Common.Lower | src/components/puzzles/ColorEquationPuzzle.tsx:71-72 | same length, each character lower-cased |
| Common.UpperIdempotent | src/components/puzzles/WordHuntPuzzle.tsx:16 | an upper-cased string has no a-z, and upper-casing it again changes nothing |
| Common.LowerIgnoresCase | src/components/puzzles/ColorEquationPuzzle.tsx:71-72 | lower-casing after upper-casing is the same as lower-casing |
| Puzzles.GetTotalPuzzles | src/config/puzzles.tsx:70 | the number of puzzles is the registry's length, which is 10 |
| Puzzles.GetPuzzleConfig | src/config/puzzles.tsx:72 | a config exists exactly for 0 <= index < total; it is entry `index`, whose id is `index` |
| Puzzles.RegistryIdsAreIndices | src/config/puzzles.tsx:7-68 | the registry has 10 entries and entry i carries id i |
| Puzzles.ValidIndexRange | src/config/puzzles.tsx:74-75 | `isValidPuzzleIndex(i)` holds exactly for 0 <= i < 10 |
| PuzzleManager.Manager.constructor | src/hooks/usePuzzleManager.ts:5-6 | the controller starts at index 0 with nothing completed and no timer running |
| PuzzleManager.Manager.CompletePuzzleFromRender | src/hooks/usePuzzleManager.ts:10-19 | the `completePuzzle` of a render whose current index was r: adds the index to the completed set; queues an advance to k+1 exactly when k = r and k is not the last; the current index is untouched |
| PuzzleManager.Manager.CompletePuzzle | src/hooks/usePuzzleManager.ts:10-19 | the latest render's `completePuzzle`: adds the index to the completed set; queues an advance to k+1 exactly when k is the current index and not the last; the current index is untouched |
| PuzzleManager.Manager.FireAutoAdvance | src/hooks/usePuzzleManager.ts:15-17 | the oldest timer writes its index unconditionally; the index stays valid |
| PuzzleManager.Manager.NavigateToPuzzle | src/hooks/usePuzzleManager.ts:21-25 | moves to `index` exactly when it is valid; otherwise nothing changes |
| PuzzleManager.Manager.ResetProgress | src/hooks/usePuzzleManager.ts:27-34 | from any state: index 0 and an empty set, so `isPuzzleCompleted` is false for every index; timers already started keep running |
| PuzzleManager.Manager.GetProgress | src/hooks/usePuzzleManager.ts:36-43 | current is index+1 and lies in [1, total]; total is the registry length; completed is the set size |
| PuzzleManager.ProgressCompletedBounded | src/hooks/usePuzzleManager.ts:40 | when only registry indices are completed, the completed count is at most the total |
| PuzzleManager.CompleteTwice | src/hooks/usePuzzleManager.ts:11 | completing k twice leaves the same completed set as completing it once |
| PuzzleManager.StaleAdvanceOverridesNavigation | src/hooks/usePuzzleManager.ts:14-25 | complete the current puzzle, navigate anywhere, and the timer still lands on the puzzle after the completed one |
| PuzzleManager.StaleAdvanceOverridesReset | src/hooks/usePuzzleManager.ts:14-34 | after a reset, the old timer still overwrites index 0 with the puzzle after the completed one |
| App.CurrentPuzzle | src/App.tsx:19 | the config shown is the registry entry at the current index, which always exists |
| App.HandlePuzzleComplete | src/App.tsx:22-24 | completes the current index, so the advance is queued exactly when it is not the last puzzle; afterwards the `isCompleted` prop of the current puzzle (src/App.tsx:57) is true |
| App.FireCompletion | src/App.tsx:22-24 | a delayed `onComplete` completes the index r of the render that scheduled it and queues an advance to r+1 unless r is the last, whatever the current index now is |
| App.CompletionAfterNavigation | src/App.tsx:22-24 | navigating elsewhere during the delay: the old puzzle ends completed, the shown puzzle reads as not completed, and an advance to the old index + 1 is queued |
| App.HandleNavigateBack | src/App.tsx:26-30 | steps back exactly when the index is above 0; nothing else changes |
| App.HandleNavigateForward | src/App.tsx:32-36 | steps forward exactly when the index is below total-1; nothing else changes |
| App.PreviousDisabled | src/App.tsx:64 | on a valid index, Previous is disabled exactly when the guard of `handleNavigateBack` refuses |
| App.NextDisabled | src/App.tsx:72 | on a valid index, Next is disabled exactly when the guard of `handleNavigateForward` refuses |
| Shuffle.FisherYates | src/components/puzzles/NumberSequencePuzzle.tsx:13-16 | the array after the swap loop is a rearrangement of the array before it |
| NumberSequence.ShuffleArray | src/components/puzzles/NumberSequencePuzzle.tsx:11-18 | returns a rearrangement (same length and multiset) of the argument, which is a value and stays unchanged |
| NumberSequence.ButtonsAt | src/components/puzzles/NumberSequencePuzzle.tsx:25-29 | button i shows the i-th number and has id and position i |
| NumberSequence.PressesEndWithRun | src/components/puzzles/NumberSequencePuzzle.tsx:40-56 | after any presses, the press sequence ends with the run 1..nextExpected-1 |
| NumberSequence.AscendingRunAdvances | src/components/puzzles/NumberSequencePuzzle.tsx:40-44 | from a reset, pressing 1..k in order reaches k+1 |
| NumberSequence.SolvedMeansAscending | src/components/puzzles/NumberSequencePuzzle.tsx:40-56 | reaching 10 means the last nine presses were exactly 1..9 |
| NumberSequence.NumberSequencePuzzle.constructor | src/components/puzzles/NumberSequencePuzzle.tsx:59-62 | mounting initializes: buttons 1..9, an empty sequence, 1 expected |
| NumberSequence.NumberSequencePuzzle.InitializePuzzle | src/components/puzzles/NumberSequencePuzzle.tsx:21-34 | the buttons carry 1..9 once each with id = position = index; the sequence is empty and 1 is expected |
| NumberSequence.NumberSequencePuzzle.HandleButtonClick | src/components/puzzles/NumberSequencePuzzle.tsx:37-57 | no-op when completed; the expected number extends the run, anything else resets it; completion is scheduled exactly when the run reaches 9, that is exactly for the press of 9 while 9 is expected, and then the last nine presses were 1..9; the sequence stays 1..nextExpected-1 |
| SwitchNetwork.Find | src/components/puzzles/SwitchNetworkPuzzle.tsx:32 | none exactly when no switch has the id; otherwise a switch of the table with that id |
| SwitchNetwork.ToggledEntry | src/components/puzzles/SwitchNetworkPuzzle.tsx:24-40 | one switch after a toggle keeps its id, name and list; only the toggled switch can go from off to on; any other changed switch went off and is in the toggled switch's list |
| SwitchNetwork.ToggleSwitch | src/components/puzzles/SwitchNetworkPuzzle.tsx:24-40 | keeps length, order, ids, names and lists; each switch is mapped by the `map` callback |
| SwitchNetwork.ToggleFlipsTarget | src/components/puzzles/SwitchNetworkPuzzle.tsx:26-29 | the toggled switch flips |
| SwitchNetwork.TurningOnForcesListOff | src/components/puzzles/SwitchNetworkPuzzle.tsx:32-35 | turning a switch on turns off every other switch in its list |
| SwitchNetwork.TurningOffChangesOnlyTarget | src/components/puzzles/SwitchNetworkPuzzle.tsx:33-37 | turning a switch off changes no other switch |
| SwitchNetwork.OutsideListUnchanged | src/components/puzzles/SwitchNetworkPuzzle.tsx:31-37 | a switch that is neither the target nor in its list never changes |
| SwitchNetwork.OnCount | src/components/puzzles/SwitchNetworkPuzzle.tsx:55 | the on-count is at most the table size, and equals it exactly when all are on |
| SwitchNetwork.InitialWellWired | src/components/puzzles/SwitchNetworkPuzzle.tsx:12-19 | the mounted lists are non-empty, leave out their owner and name only switches of the table; not all are on |
| SwitchNetwork.ToggleUnknownIsNoOp | src/components/puzzles/SwitchNetworkPuzzle.tsx:24-40 | toggling an id no switch carries changes nothing |
| SwitchNetwork.ToggleLeavesSomeOff | src/components/puzzles/SwitchNetworkPuzzle.tsx:24-40 | on a well-wired table, toggling an existing switch leaves some switch off |
| SwitchNetwork.ToggleKeepsLosing | src/components/puzzles/SwitchNetworkPuzzle.tsx:13-40 | from the mounted wiring, a toggle keeps the wiring and a losing table stays losing |
| SwitchNetwork.AllOnUnreachable | src/components/puzzles/SwitchNetworkPuzzle.tsx:12-52 | no sequence of toggles from the mounted table turns all six on |
| SwitchNetwork.Replay | src/components/puzzles/SwitchNetworkPuzzle.tsx:12-40 | the table after any sequence of toggles keeps the mounted wiring |
| SwitchNetwork.HintsNeverRegress | src/components/puzzles/SwitchNetworkPuzzle.tsx:57-65 | more attempts never give a less explicit hint |
| SwitchNetwork.Hint | src/components/puzzles/SwitchNetworkPuzzle.tsx:55-65 | a hint is never the success or mount text and ranks at least 1; the count line exactly for attempts <= 3, carrying the on-count |
| SwitchNetwork.StatusAfter | src/components/puzzles/SwitchNetworkPuzzle.tsx:48-67 | success exactly when all are on, or when nothing was toggled and success was already shown; on a losing table after a toggle, a hint ranked at least 1 whose count is below the table size |
| SwitchNetwork.SwitchNetworkPuzzle.constructor | src/components/puzzles/SwitchNetworkPuzzle.tsx:12-22 | the mounted table, no attempts, the instructions |
| SwitchNetwork.SwitchNetworkPuzzle.HandleSwitchToggle | src/components/puzzles/SwitchNetworkPuzzle.tsx:42-67 | the table is toggled and attempts grows by exactly 1; the message follows the win check; no completion is ever scheduled |
| GridMemory.InitializeGrid | src/components/puzzles/GridMemoryPuzzle.tsx:26-40 | 16 cells; cell i has id i = 4*row+col, row and col in 0..3, both flags off |
| GridMemory.PatternLength | src/components/puzzles/GridMemoryPuzzle.tsx:44 | `min(3+level, 8)`: at most 8 and at most 3+level, and equal to one of them |
| GridMemory.GeneratePattern | src/components/puzzles/GridMemoryPuzzle.tsx:43-57 | `min(3+level, 8)` distinct cell ids in [0,16) |
| GridMemory.ShowPattern | src/components/puzzles/GridMemoryPuzzle.tsx:65-69 | on a well-formed grid, the result is well formed and displays exactly the pattern lit and nothing chosen |
| GridMemory.ShowSelection | src/components/puzzles/GridMemoryPuzzle.tsx:106-110 | keeps the grid well formed and every lit flag; a cell is marked exactly when in the selection |
| GridMemory.SelectionKeepsLit | src/components/puzzles/GridMemoryPuzzle.tsx:106-110 | a grid displaying (lit, chosen) displays (lit, selection) once the selection is marked |
| Common.IndexOf | src/components/puzzles/GridMemoryPuzzle.tsx:93 | -1 exactly when absent; else the position of the first occurrence |
| GridMemory.ToggleCell | src/components/puzzles/GridMemoryPuzzle.tsx:92-101 | other cells keep their membership; a duplicate-free selection stays duplicate-free and the cell's membership flips |
| GridMemory.ToggleTwiceRestoresCells | src/components/puzzles/GridMemoryPuzzle.tsx:92-101 | clicking a cell twice gives back the same selected cells |
| GridMemory.IsCorrect | src/components/puzzles/GridMemoryPuzzle.tsx:119-120 | equal length and containment; a right answer chose every target cell |
| GridMemory.CorrectIffSameCells | src/components/puzzles/GridMemoryPuzzle.tsx:119-120 | for duplicate-free patterns, equal length plus containment is the same as equal cell sets |
| GridMemory.NextShowTime | src/components/puzzles/GridMemoryPuzzle.tsx:134 | `max(1500, showTime-200)`: at least 1500 and at least showTime-200, and equal to one of them |
| GridMemory.GridMemoryPuzzle.constructor | src/components/puzzles/GridMemoryPuzzle.tsx:16-23 | level 1, 3000 ms, no attempts, then a shown level-1 pattern |
| GridMemory.GridMemoryPuzzle.StartLevel | src/components/puzzles/GridMemoryPuzzle.tsx:60-86 | a fresh grid showing a new distinct pattern of the level's length, an empty selection, the showing phase and the hide timer |
| GridMemory.GridMemoryPuzzle.FireTimer | src/components/puzzles/GridMemoryPuzzle.tsx:77-155 | hide: input phase, all cells off. Next level: level+1 and shorter show time. Restart: level 1, 3000 ms, 0 attempts. Retry: same level. The last three start a level whose pattern length is that of the old level |
| GridMemory.GridMemoryPuzzle.HandleCellClick | src/components/puzzles/GridMemoryPuzzle.tsx:89-112 | only in the input phase and before completion: toggles the cell in the selection and on the grid |
| GridMemory.GridMemoryPuzzle.SubmitPattern | src/components/puzzles/GridMemoryPuzzle.tsx:115-157 | only in the input phase. Right: success, and completion exactly at level >= 5. Wrong: one more attempt, and a restart exactly at the third |
| GridMemory.GridMemoryPuzzle.ClearPattern | src/components/puzzles/GridMemoryPuzzle.tsx:160-170 | only in the input phase: empties the selection and unmarks every cell |
| GridMemory.SolveLastLevel | src/components/puzzles/GridMemoryPuzzle.tsx:122-130 | a right submission at level 5 schedules completion once and starts no further timer |
| ContextMenu.TargetOf | src/components/puzzles/ContextMenuPuzzle.tsx:142-162 | a recognised target name maps back to the same name; any other string matches no case |
| ContextMenu.ActionOf | src/components/puzzles/ContextMenuPuzzle.tsx:59-136 | a recognised action string maps back to the same string; any other string matches no branch |
| ContextMenu.NamesRoundTrip | src/components/puzzles/ContextMenuPuzzle.tsx:142-196 | target names and action strings round-trip through the parsers |
| ContextMenu.GetMenuItems | src/components/puzzles/ContextMenuPuzzle.tsx:168-197 | the fixed item list of each target; empty exactly for an unknown target |
| ContextMenu.GuardAction | src/components/puzzles/ContextMenuPuzzle.tsx:59-68 | "talk" sets the talked-to-guard flag and nothing else; only "talk" gets an answer; never completes |
| ContextMenu.WizardAction | src/components/puzzles/ContextMenuPuzzle.tsx:70-81 | "ask-key" sets the key flag and nothing else; "ask-key" and "talk" get answers; never completes |
| ContextMenu.ChestAction | src/components/puzzles/ContextMenuPuzzle.tsx:83-96 | "open" with the key sets the opened flag and nothing else; "open" and "examine" get answers; never completes |
| ContextMenu.ScrollAction | src/components/puzzles/ContextMenuPuzzle.tsx:98-110 | "read" with the chest open sets the clue flag and nothing else; only "read" gets an answer; completes exactly on the first such read |
| ContextMenu.CatAction | src/components/puzzles/ContextMenuPuzzle.tsx:112-123 | "pet" sets the petted flag and nothing else; "pet" and "talk" get answers; never completes |
| ContextMenu.LibrarianAction | src/components/puzzles/ContextMenuPuzzle.tsx:125-136 | "consult" sets the consulted flag and nothing else; "consult" and "talk" get answers; never completes |
| ContextMenu.Dispatch | src/components/puzzles/ContextMenuPuzzle.tsx:144-163 | an action without an answer changes nothing; only reading the scroll can complete |
| ContextMenu.FlagAction | src/components/puzzles/ContextMenuPuzzle.tsx:59-136 | the one action of each target whose handler can set its flag (talk, ask-key, open, read, pet, consult); it is offered on that target's menu (src/components/puzzles/ContextMenuPuzzle.tsx:168-197) |
| ContextMenu.MenuActionsAreHandled | src/components/puzzles/ContextMenuPuzzle.tsx:59-196 | a target answers an action exactly when that action is on its menu |
| ContextMenu.OnlyFlagActionsChangeState | src/components/puzzles/ContextMenuPuzzle.tsx:59-163 | only a target's own flag action can change the flags, and only that target's flag |
| ContextMenu.OpeningNeedsKey | src/components/puzzles/ContextMenuPuzzle.tsx:83-96 | without the key the chest stays locked; with it, it opens the first time only |
| ContextMenu.ReadingNeedsOpenChest | src/components/puzzles/ContextMenuPuzzle.tsx:98-110 | before the chest is open the scroll is sealed; the first read after opening sets the clue and schedules completion |
| ContextMenu.ReactionKeepsStory | src/components/puzzles/ContextMenuPuzzle.tsx:59-136 | every action keeps opened ⇒ key and clue ⇒ opened, and clears no flag |
| ContextMenu.RepeatChangesNothing | src/components/puzzles/ContextMenuPuzzle.tsx:59-136 | repeating an action leaves the flags as the first time left them |
| ContextMenu.CompletesIffClueFound | src/components/puzzles/ContextMenuPuzzle.tsx:98-110 | an action schedules completion exactly when it sets the clue flag |
| ContextMenu.WinningPath | src/components/puzzles/ContextMenuPuzzle.tsx:70-110 | from the start, ask for the key, open the chest and read the scroll, and the read schedules completion |
| ContextMenu.ContextMenuPuzzle.constructor | src/components/puzzles/ContextMenuPuzzle.tsx:23-46 | all six flags false, the welcome text, no menu, and the characters in a rearranged order |
| ContextMenu.ContextMenuPuzzle.HandleContextMenu | src/components/puzzles/ContextMenuPuzzle.tsx:48-57 | remembers the target and opens the menu |
| ContextMenu.ContextMenuPuzzle.CloseMenu | src/components/puzzles/ContextMenuPuzzle.tsx:261 | closes the menu; nothing else changes |
| ContextMenu.ContextMenuPuzzle.HandleMenuSelect | src/components/puzzles/ContextMenuPuzzle.tsx:138-164 | closes the menu; no action does nothing more; otherwise the stored target reacts; the flags keep story order and completion is scheduled once, with the clue |
| PuzzleOrder.Orders | src/components/puzzles/PuzzleOrderChallenge.tsx:35 | the order of each item, position by position |
| PuzzleOrder.OrdersOfPermutation | src/components/puzzles/PuzzleOrderChallenge.tsx:35 | the orders of a rearranged list are a rearrangement of its orders |
| PuzzleOrder.InitialOrders | src/components/puzzles/PuzzleOrderChallenge.tsx:14-24 | the orders of the nine items are 0..8, once each |
| PuzzleOrder.ValidMeansOrdersArePermutation | src/components/puzzles/PuzzleOrderChallenge.tsx:14-24 | any rearrangement of the nine items has the orders 0..8, once each |
| PuzzleOrder.CorrectPositions | src/components/puzzles/PuzzleOrderChallenge.tsx:125 | the number of items in their own position is between 0 and the list length |
| PuzzleOrder.InPlaceCount | src/components/puzzles/PuzzleOrderChallenge.tsx:125 | the count of in-place items among the first k is k exactly when all k are in place |
| PuzzleOrder.AllInPlaceIffCorrect | src/components/puzzles/PuzzleOrderChallenge.tsx:125 | the counter shows 9 exactly when the orders are [0..8] |
| PuzzleOrder.Remove | src/components/puzzles/PuzzleOrderChallenge.tsx:74 | one item shorter, without exactly the item at `index` |
| PuzzleOrder.Insert | src/components/puzzles/PuzzleOrderChallenge.tsx:75 | one item longer, `x` at `index`, nothing else lost |
| PuzzleOrder.RemoveInsert | src/components/puzzles/PuzzleOrderChallenge.tsx:74-75 | removing what was just inserted restores the list |
| PuzzleOrder.Moved | src/components/puzzles/PuzzleOrderChallenge.tsx:72-75 | same length and items; the dragged item lands at the drop index |
| PuzzleOrder.MovedKeepsOthersInOrder | src/components/puzzles/PuzzleOrderChallenge.tsx:72-75 | the other items keep their relative order |
| PuzzleOrder.MovedInPlaceIsIdentity | src/components/puzzles/PuzzleOrderChallenge.tsx:72-75 | dropping where the drag began changes nothing |
| PuzzleOrder.Swapped | src/components/puzzles/PuzzleOrderChallenge.tsx:86 | the two positions exchange their items; the rest stay |
| PuzzleOrder.SwappedLaws | src/components/puzzles/PuzzleOrderChallenge.tsx:86 | a swap keeps the items and undoes itself |
| PuzzleOrder.HintFor | src/components/puzzles/PuzzleOrderChallenge.tsx:47-55 | each of the first three wrong checks has its own hint, and the "almost there" hint shows exactly from the fourth wrong check on |
| PuzzleOrder.PuzzleOrderChallenge.constructor | src/components/puzzles/PuzzleOrderChallenge.tsx:14-27 | a rearrangement of the nine items, the instructions, no attempts, no drag |
| PuzzleOrder.PuzzleOrderChallenge.CheckOrder | src/components/puzzles/PuzzleOrderChallenge.tsx:34-56 | one more attempt; the orders [0..8] schedule completion; otherwise the hint for the attempt count before this check |
| PuzzleOrder.PuzzleOrderChallenge.HandleDragStart | src/components/puzzles/PuzzleOrderChallenge.tsx:58-61 | remembers the dragged position |
| PuzzleOrder.PuzzleOrderChallenge.HandleDrop | src/components/puzzles/PuzzleOrderChallenge.tsx:68-79 | without a drag, nothing; otherwise the item moves to the drop index and the drag ends; the list stays a rearrangement |
| PuzzleOrder.PuzzleOrderChallenge.MoveItem | src/components/puzzles/PuzzleOrderChallenge.tsx:81-89 | swaps with the neighbour above or below when it exists, otherwise nothing; the list stays a rearrangement |
| MultiSelect.LessEqTotal | src/components/puzzles/MultiSelectPuzzle.tsx:35 | the comparison orders any two strings |
| MultiSelect.InsertSorted | src/components/puzzles/MultiSelectPuzzle.tsx:35 | one more element, nothing else lost |
| MultiSelect.Sort | src/components/puzzles/MultiSelectPuzzle.tsx:35 | a rearrangement of the values |
| MultiSelect.SortIsSorted | src/components/puzzles/MultiSelectPuzzle.tsx:35 | the sort's result is in order |
| MultiSelect.CorrectAnswersSorted | src/components/puzzles/MultiSelectPuzzle.tsx:36 | the sorted answers are ["kendo", "react"] |
| MultiSelect.IsCorrectValues | src/components/puzzles/MultiSelectPuzzle.tsx:35-39 | the `isCorrect` test; it holds only for two values |
| MultiSelect.IsCorrect | src/components/puzzles/MultiSelectPuzzle.tsx:35-39 | the test on the selected options; it holds only for two options |
| MultiSelect.CorrectIffKendoAndReact | src/components/puzzles/MultiSelectPuzzle.tsx:35-39 | right exactly when the values are kendo and react once each; never right unless two are picked |
| MultiSelect.OrderIrrelevant | src/components/puzzles/MultiSelectPuzzle.tsx:35-39 | the order of picking does not affect the verdict |
| MultiSelect.HasWrongSelection | src/components/puzzles/MultiSelectPuzzle.tsx:55 | the warning shows only before solving and only when the picked values are not kendo and react once each |
| MultiSelect.WrongSelectionMeaning | src/components/puzzles/MultiSelectPuzzle.tsx:55 | the warning shows exactly for a non-empty pick other than kendo and react, before solving |
| MultiSelect.MultiSelectPuzzle.constructor | src/components/puzzles/MultiSelectPuzzle.tsx:11 | nothing selected |
| MultiSelect.MultiSelectPuzzle.HandleSelectionChange | src/components/puzzles/MultiSelectPuzzle.tsx:30-46 | stores the selection; a right selection schedules completion |
| MultiSelect.MultiSelectPuzzle.IsCorrectSelection | src/components/puzzles/MultiSelectPuzzle.tsx:49-52 | the render's test: the stored values are kendo and react once each |
| RiddleSliders.Round | src/components/puzzles/RiddleSlidersPuzzle.tsx:38 | the nearest integer, halves rounded up |
| RiddleSliders.CorrectCountUpTo | src/components/puzzles/RiddleSlidersPuzzle.tsx:59 | at most k; k exactly when the first k sliders are right, 0 exactly when none is |
| RiddleSliders.CorrectCount | src/components/puzzles/RiddleSlidersPuzzle.tsx:59 | the number of right sliders is at most 3 |
| RiddleSliders.AllCorrect | src/components/puzzles/RiddleSlidersPuzzle.tsx:46 | every slider on its answer exactly at [1,3,8] |
| RiddleSliders.AllCorrectIffSolution | src/components/puzzles/RiddleSlidersPuzzle.tsx:46 | all right exactly at [1,3,8], the same as a count of 3 |
| RiddleSliders.CurrentState | src/components/puzzles/RiddleSlidersPuzzle.tsx:55-63 | completed first, then initial while untouched, then all-wrong at count 0, completed at count 3 and partial otherwise |
| RiddleSliders.InitialAllWrong | src/components/puzzles/RiddleSlidersPuzzle.tsx:31 | [5,5,5] answers no riddle |
| RiddleSliders.RiddleSlidersPuzzle.constructor | src/components/puzzles/RiddleSlidersPuzzle.tsx:31-32 | sliders at [5,5,5], not attempted |
| RiddleSliders.RiddleSlidersPuzzle.HandleSliderChange | src/components/puzzles/RiddleSlidersPuzzle.tsx:34-53 | no-op when completed; otherwise only slot `index` changes, to the rounded value, and the puzzle is attempted; completion is scheduled exactly at [1,3,8] |
| ColorEquation.InitialNotSolved | src/components/puzzles/ColorEquationPuzzle.tsx:56-61 | every equation starts with a colour, and all white is not solved |
| ColorEquation.AllCorrect | src/components/puzzles/ColorEquationPuzzle.tsx:70-74 | the `allCorrect` test; a solution picks, for each equation, a code as long as its answer |
| ColorEquation.AnswersSolve | src/components/puzzles/ColorEquationPuzzle.tsx:70-74 | selecting each answer solves the puzzle |
| ColorEquation.CaseDoesNotMatter | src/components/puzzles/ColorEquationPuzzle.tsx:70-74 | two spellings that agree lower-cased give the same verdict |
| ColorEquation.UpperCaseSpellingAccepted | src/components/puzzles/ColorEquationPuzzle.tsx:70-74 | an upper-cased code gives the same verdict as the code |
| ColorEquation.ColorEquationPuzzle.constructor | src/components/puzzles/ColorEquationPuzzle.tsx:56-61 | all four equations on white |
| ColorEquation.ColorEquationPuzzle.HandleColorChange | src/components/puzzles/ColorEquationPuzzle.tsx:63-81 | no-op when completed; otherwise only that equation's colour changes, and completion is scheduled exactly when all four are right |
| WordHunt.SecretIsUpper | src/components/puzzles/WordHuntPuzzle.tsx:12 | the secret word is its own upper case |
| WordHunt.IsCorrectWord | src/components/puzzles/WordHuntPuzzle.tsx:44 | the upper-cased input is the secret word; a right input has its ten letters |
| WordHunt.HasIncorrectInput | src/components/puzzles/WordHuntPuzzle.tsx:45 | the warning shows only before solving and never for the secret word itself |
| WordHunt.AnyCaseAccepted | src/components/puzzles/WordHuntPuzzle.tsx:44 | upper-casing the input does not change the verdict |
| WordHunt.WordHuntPuzzle.constructor | src/components/puzzles/WordHuntPuzzle.tsx:6-9 | empty input, nothing found, no hint, no tooltip |
| WordHunt.WordHuntPuzzle.HandleInputChange | src/components/puzzles/WordHuntPuzzle.tsx:15-25 | stores the input upper-cased, so the stored input is always upper case; the word in any case schedules completion |
| WordHunt.WordHuntPuzzle.HandleTooltipShow | src/components/puzzles/WordHuntPuzzle.tsx:28-31 | the word is found and the tooltip shows |
| WordHunt.WordHuntPuzzle.HandleTooltipHide | src/components/puzzles/WordHuntPuzzle.tsx:33-35 | only the tooltip is hidden; found stays found |
| WordHunt.WordHuntPuzzle.HintTimerFires | src/components/puzzles/WordHuntPuzzle.tsx:38-42 | the hint turns on unless the word was found or the puzzle solved, as seen when the timer started |
| WordHunt.WordHuntPuzzle.HintVisible | src/components/puzzles/WordHuntPuzzle.tsx:52 | the hint shows only while the word has not been found |
| DatePicker.HandlerAndRenderAgree | src/components/puzzles/DatePickerPuzzle.tsx:13-31 | the handler's test and the render's test agree; both accept exactly 20 July 1969 (month 6) |
| DatePicker.IsCorrectDate | src/components/puzzles/DatePickerPuzzle.tsx:28-31 | the render's test holds exactly when the handler's year/month/day comparison does |
| DatePicker.ShowsWrongMessage | src/components/puzzles/DatePickerPuzzle.tsx:39 | the wrong-date message shows only before solving and never for the target date |
| DatePicker.DatePickerPuzzle.constructor | src/components/puzzles/DatePickerPuzzle.tsx:6 | no date picked |
| DatePicker.DatePickerPuzzle.HandleDateChange | src/components/puzzles/DatePickerPuzzle.tsx:9-26 | stores the date; completion is scheduled exactly for the target, never for no date |

## Left out

- Rendering, styles and class names are not modelled. This covers the menu position of
  `handleContextMenu`, drag `dataTransfer` effects, `handleDragOver`, the cell class names
  and the phase messages of grid memory.
- Timer delays are not modelled; only the order in which timers fire is kept.
  - The auto-advance timers share one delay, so they fire first-in first-out.
  - Grid memory has at most one timer pending at a time.
  - `onComplete` timers become a counter in each puzzle. Their later effect, run by the
    render that scheduled them, is `App.FireCompletion`; the two are not joined in one
    model of the whole page.
- The completion percentage of `getProgress` is not modelled, because it is floating point.
  `Progress` leaves that field out.
- `src/components/ProgressIndicator.tsx` is not part of this model: it is presentation only.
- `src/components/puzzles/BlankPuzzle.tsx` is not part of this model: it only calls
  `onComplete` after a delay. Registry entries record it as `Blank(n)`.
- `src/App_old.tsx` is not part of this model: it is an unused earlier shell.
- `src/types/index.ts` is not part of this model beyond the datatypes that mirror its types.
- React hook mechanics (`useCallback` dependencies, effect re-runs) are not modelled; each
  handler together with the effect it triggers is one atomic step.
  - GridMemory.GridMemoryPuzzle.FireTimer keeps the stale `level` that affects the next
    pattern's length. It does not keep the stale `showTime` that sets the hide delay,
    since delays are not modelled.
  - WordHunt.WordHuntPuzzle.HintTimerFires gets the values its render saw as
    parameters. How many such timers each render starts is not modelled.
- Probabilities are not modelled. Each random choice becomes a nondeterministic one.
  - GridMemory.GeneratePattern models only the draws that hit an unused cell. The
    rejected draws of the source's retry loop, which has no bound, are not modelled.
  - PuzzleOrder.PuzzleOrderChallenge.constructor takes the outcome of the random
    `sort` as an argument. That argument is required to be a rearrangement of the nine
    items; the comparator's bias is not modelled.
- Foreign calls are modelled simply:
  - `toUpperCase`/`toLowerCase` map only the ASCII letters;
  - `localeCompare` is character-code order, which agrees with locale order on the
    lower-case ASCII option values;
  - a KendoReact `Date` is its (year, zero-based month, day) triple;
  - slider values are reals, rounded by `Math.round`, and floating-point effects are not
    modelled.
- PuzzleOrder.PuzzleOrderChallenge.HandleDragStart requires `index` to be a position of the
  list. The source only ever passes the index of a rendered row.
- PuzzleOrder.PuzzleOrderChallenge.HandleDrop requires `dropIndex` to be a position of the
  list. The source only ever passes the index of a rendered row.
- PuzzleOrder.PuzzleOrderChallenge.MoveItem requires `index` to be a position of the list.
  The source only ever passes the index of a rendered row.
- RiddleSliders.RiddleSlidersPuzzle.HandleSliderChange requires `index` to be one of the three
  sliders. The source only passes the index of a rendered slider.
- The `disabled={isCompleted}` wiring of controls and the hiding of the check button
  (src/components/puzzles/MultiSelectPuzzle.tsx:82, src/components/puzzles/WordHuntPuzzle.tsx:117,
  src/components/puzzles/DatePickerPuzzle.tsx:54, src/components/puzzles/PuzzleOrderChallenge.tsx:229)
  is rendering and is not modelled. The handler methods accept every call.
- ContextMenu.ContextMenuPuzzle.HandleContextMenu leaves out the mouse event and the menu
  position.
