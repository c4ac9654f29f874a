/**
 * The Cipher of Three puzzle of src/components/puzzles/RiddleSlidersPuzzle.tsx: three
 * sliders, each to be set to the number its riddle describes (1, 3 and 8).
 */
module RiddleSliders {

  /** The `correctValue` of each riddle, by slider index. */
  const CorrectValues: seq<int> := [1, 3, 8]

  const InitialValues: seq<int> := [5, 5, 5]

  /** The label `getCurrentState` picks for the cipher. */
  datatype CipherState = Completed | Initial | AllWrong | Partial

  /** `Math.round`: the nearest integer, halves rounded up. */
  function Round(x: real): (n: int)
    ensures n as real - 0.5 <= x < n as real + 0.5
  {
    (x + 0.5).Floor
  }

  /** The number of the first `k` sliders that sit on their riddle's answer. */
  function CorrectCountUpTo(values: seq<int>, k: nat): (n: nat)
    requires k <= |values| && k <= |CorrectValues|
    ensures n <= k
    ensures n == k <==> forall i :: 0 <= i < k ==> values[i] == CorrectValues[i]
    ensures n == 0 <==> forall i :: 0 <= i < k ==> values[i] != CorrectValues[i]
  {
    if k == 0 then 0
    else CorrectCountUpTo(values, k - 1) + (if values[k - 1] == CorrectValues[k - 1] then 1 else 0)
  }

  /** `riddles.filter((riddle, idx) => sliderValues[idx] === riddle.correctValue).length`. */
  function CorrectCount(values: seq<int>): (n: nat)
    requires |values| == 3
    ensures n <= 3
  {
    CorrectCountUpTo(values, 3)
  }

  /** `riddles.every(...)`: every slider on its answer. */
  function AllCorrect(values: seq<int>): (b: bool)
    requires |values| == 3
    ensures b <==> values == CorrectValues
  {
    assert (forall i :: 0 <= i < 3 ==> values[i] == CorrectValues[i]) ==> values == [values[0], values[1], values[2]];
    forall i :: 0 <= i < 3 ==> values[i] == CorrectValues[i]
  }

  /** All three answers right is one exact setting, counted as three. */
  lemma AllCorrectIffSolution(values: seq<int>)
    requires |values| == 3
    ensures AllCorrect(values) <==> values == [1, 3, 8]
    ensures AllCorrect(values) <==> CorrectCount(values) == 3
  {
    if AllCorrect(values) {
      assert values == [values[0], values[1], values[2]];
    }
  }

  /** `getCurrentState`: solved first, then untouched, then by the number of right answers. */
  function CurrentState(values: seq<int>, hasAttempted: bool, isCompleted: bool): (st: CipherState)
    requires |values| == 3
    ensures st == Completed <==> isCompleted || (hasAttempted && AllCorrect(values))
    ensures st == Initial <==> !isCompleted && !hasAttempted
    ensures st == AllWrong <==> !isCompleted && hasAttempted && CorrectCount(values) == 0
  {
    if isCompleted then Completed
    else if !hasAttempted then Initial
    else
      var correctCount := CorrectCount(values);
      if correctCount == 0 then AllWrong
      else if correctCount == 3 then Completed
      else Partial
  }

  /** The starting position answers no riddle. */
  lemma InitialAllWrong()
    ensures CorrectCount(InitialValues) == 0
  {
  }

  class RiddleSlidersPuzzle {
    var sliderValues: seq<int>
    var hasAttempted: bool
    /** Number of `onComplete` timers started. */
    var completionsScheduled: nat

    ghost predicate Valid()
      reads this
    {
      |sliderValues| == 3
    }

    constructor ()
      ensures Valid()
      ensures sliderValues == InitialValues && !hasAttempted && completionsScheduled == 0
    {
      sliderValues := InitialValues;
      hasAttempted := false;
      completionsScheduled := 0;
    }

    /**
     * `handleSliderChange`: ignored once solved; otherwise the slider takes the rounded
     * value, and a setting that answers all three riddles schedules completion.
     */
    method HandleSliderChange(index: int, value: real, isCompleted: bool)
      requires Valid() && 0 <= index < 3
      modifies this
      ensures Valid()
      ensures isCompleted ==>
        sliderValues == old(sliderValues) && hasAttempted == old(hasAttempted) &&
        completionsScheduled == old(completionsScheduled)
      ensures !isCompleted ==> sliderValues == old(sliderValues)[index := Round(value)] && hasAttempted
      ensures !isCompleted ==>
        completionsScheduled == old(completionsScheduled) + (if sliderValues == [1, 3, 8] then 1 else 0)
    {
      if isCompleted {
        return;
      }
      var integerValue := Round(value);
      var newValues := sliderValues[index := integerValue];
      sliderValues := newValues;
      hasAttempted := true;
      var isCorrect := forall idx :: 0 <= idx < 3 ==> newValues[idx] == CorrectValues[idx];
      AllCorrectIffSolution(newValues);
      if isCorrect {
        completionsScheduled := completionsScheduled + 1;
      }
    }
  }
}
