/**
 * The Technology Selection puzzle of src/components/puzzles/MultiSelectPuzzle.tsx:
 * picking exactly "kendo" and "react" from twelve options solves it.
 */
module MultiSelect {

  datatype SelectOption = SelectOption(text: string, value: string)

  const Options: seq<SelectOption> := [
    SelectOption("angular", "angular"), SelectOption("vue", "vue"),
    SelectOption("svelte", "svelte"), SelectOption("react", "react"),
    SelectOption("ember", "ember"), SelectOption("backbone", "backbone"),
    SelectOption("jquery", "jquery"), SelectOption("polymer", "polymer"),
    SelectOption("kendo", "kendo"), SelectOption("lit", "lit"),
    SelectOption("alpine", "alpine"), SelectOption("stimulus", "stimulus")
  ]

  /** `a.localeCompare(b) <= 0`, as character-code order (all option values are lower-case ASCII words). */
  predicate LessEq(a: string, b: string)
    decreases |a|
  {
    a == [] || (b != [] && (a[0] < b[0] || (a[0] == b[0] && LessEq(a[1..], b[1..]))))
  }

  /** Any two strings are ordered one way or the other. */
  lemma {:induction false} LessEqTotal(a: string, b: string)
    ensures LessEq(a, b) || LessEq(b, a)
    decreases |a|
  {
    if a != [] && b != [] && a[0] == b[0] {
      LessEqTotal(a[1..], b[1..]);
    }
  }

  predicate Sorted(s: seq<string>) {
    forall i :: 0 <= i < |s| - 1 ==> LessEq(s[i], s[i + 1])
  }

  /** One step of the sort: `x` placed before the first element it does not follow. */
  function InsertSorted(x: string, s: seq<string>): (r: seq<string>)
    ensures multiset(r) == multiset(s) + multiset{x}
    ensures |r| == |s| + 1 && (r[0] == x || (s != [] && r[0] == s[0]))
  {
    if s == [] || LessEq(x, s[0]) then [x] + s
    else
      assert s == [s[0]] + s[1..];
      [s[0]] + InsertSorted(x, s[1..])
  }

  lemma {:induction false} InsertKeepsSorted(x: string, s: seq<string>)
    requires Sorted(s)
    ensures Sorted(InsertSorted(x, s))
  {
    if s != [] && !LessEq(x, s[0]) {
      LessEqTotal(x, s[0]);
      InsertKeepsSorted(x, s[1..]);
      var r := InsertSorted(x, s);
      assert r == [s[0]] + InsertSorted(x, s[1..]);
      assert r[1] == x || (|s| > 1 && r[1] == s[1]);
    }
  }

  /** `sort((a, b) => a.localeCompare(b))`, written as an insertion sort. */
  function Sort(s: seq<string>): (r: seq<string>)
    ensures |r| == |s| && multiset(r) == multiset(s)
  {
    if s == [] then []
    else
      assert s == [s[0]] + s[1..];
      InsertSorted(s[0], Sort(s[1..]))
  }

  lemma {:induction false} SortIsSorted(s: seq<string>)
    ensures Sorted(Sort(s))
  {
    if s != [] {
      SortIsSorted(s[1..]);
      InsertKeepsSorted(s[0], Sort(s[1..]));
    }
  }

  /** `newValues.map(item => item.value)`. */
  function Values(selection: seq<SelectOption>): (vs: seq<string>)
    ensures |vs| == |selection| && forall i :: 0 <= i < |vs| ==> vs[i] == selection[i].value
  {
    seq(|selection|, i requires 0 <= i < |selection| => selection[i].value)
  }

  /** `['kendo', 'react']` after the same sort. */
  function CorrectAnswers(): seq<string> {
    Sort(["kendo", "react"])
  }

  lemma CorrectAnswersSorted()
    ensures CorrectAnswers() == ["kendo", "react"]
  {
    assert LessEq("kendo", "react");
    assert InsertSorted("react", []) == ["react"];
  }

  /** The `isCorrect` test on the selected values: two, sorted, equal position by position to the answers. */
  function IsCorrectValues(values: seq<string>): (b: bool)
    ensures b ==> |values| == 2
  {
    var selectedTexts := Sort(values);
    |selectedTexts| == 2 && forall i :: 0 <= i < |selectedTexts| ==> selectedTexts[i] == CorrectAnswers()[i]
  }

  function IsCorrect(selection: seq<SelectOption>): (b: bool)
    ensures b ==> |selection| == 2
  {
    IsCorrectValues(Values(selection))
  }

  /** The values are right exactly when they are "kendo" and "react" once each, in either order. */
  lemma {:induction false} CorrectIffKendoAndReact(values: seq<string>)
    ensures IsCorrectValues(values) <==> multiset(values) == multiset{"kendo", "react"}
    ensures |values| != 2 ==> !IsCorrectValues(values)
  {
    CorrectAnswersSorted();
    var st := Sort(values);
    if IsCorrectValues(values) {
      assert st == ["kendo", "react"];
    }
    if multiset(values) == multiset{"kendo", "react"} {
      SortIsSorted(values);
      assert |values| == |multiset(values)| == 2;
      assert multiset(st) == multiset{st[0], st[1]} by { assert st == [st[0], st[1]]; }
      assert st[0] in multiset(st) && st[1] in multiset(st);
      assert !LessEq("react", "kendo");
    }
  }

  /** Only which values are picked matters, not the order they were picked in. */
  lemma OrderIrrelevant(values: seq<string>, reordered: seq<string>)
    requires multiset(values) == multiset(reordered)
    ensures IsCorrectValues(values) <==> IsCorrectValues(reordered)
  {
    CorrectIffKendoAndReact(values);
    CorrectIffKendoAndReact(reordered);
  }

  /** `hasWrongSelection`: something picked, not the answer, and the puzzle not yet solved. */
  function HasWrongSelection(selection: seq<SelectOption>, isCompleted: bool): (b: bool)
    ensures b ==> !isCompleted && multiset(Values(selection)) != multiset{"kendo", "react"}
  {
    CorrectIffKendoAndReact(Values(selection));
    |selection| > 0 && !IsCorrect(selection) && !isCompleted
  }

  /** The wrong-selection warning shows for a non-empty pick other than exactly kendo and react, before solving. */
  lemma WrongSelectionMeaning(selection: seq<SelectOption>, isCompleted: bool)
    ensures HasWrongSelection(selection, isCompleted) <==>
      |selection| > 0 && !isCompleted && multiset(Values(selection)) != multiset{"kendo", "react"}
  {
    CorrectIffKendoAndReact(Values(selection));
  }

  class MultiSelectPuzzle {
    var selectedValues: seq<SelectOption>
    /** Number of `onComplete` timers started. */
    var completionsScheduled: nat

    constructor ()
      ensures selectedValues == [] && completionsScheduled == 0
    {
      selectedValues := [];
      completionsScheduled := 0;
    }

    /**
     * `handleSelectionChange`: stores the new selection, and a right selection
     * schedules completion. The handler itself does not look at `isCompleted`;
     * the rendered control is disabled once the puzzle is solved.
     */
    method HandleSelectionChange(newValues: seq<SelectOption>)
      modifies this
      ensures selectedValues == newValues
      ensures completionsScheduled == old(completionsScheduled) + (if IsCorrect(newValues) then 1 else 0)
    {
      selectedValues := newValues;
      var selectedTexts := Sort(Values(newValues));
      var correctAnswers := CorrectAnswers();
      var isCorrect := |selectedTexts| == 2 &&
        forall i :: 0 <= i < |selectedTexts| ==> selectedTexts[i] == correctAnswers[i];
      if isCorrect {
        completionsScheduled := completionsScheduled + 1;
      }
    }

    /** The render's `isCorrectSelection`, the same test on the stored selection. */
    function IsCorrectSelection(): (b: bool)
      reads this
      ensures b <==> multiset(Values(selectedValues)) == multiset{"kendo", "react"}
    {
      CorrectIffKendoAndReact(Values(selectedValues));
      IsCorrect(selectedValues)
    }
  }
}
