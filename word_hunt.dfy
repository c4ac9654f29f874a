/**
 * The Hidden Word puzzle of src/components/puzzles/WordHuntPuzzle.tsx: a word revealed
 * by a tooltip in the story, typed into a text box in any letter case.
 */
module WordHunt {
  import opened Common

  const SecretWord: string := "REVELATION"

  /** `isCorrectWord`: the input, upper-cased, is the secret word. */
  function IsCorrectWord(inputValue: string): (b: bool)
    ensures b ==> |inputValue| == |SecretWord|
  {
    Upper(inputValue) == SecretWord
  }

  /** `hasIncorrectInput`: something typed, not the word, and the puzzle not yet solved. */
  function HasIncorrectInput(inputValue: string, isCompleted: bool): (b: bool)
    ensures b ==> inputValue != SecretWord && !isCompleted
  {
    SecretIsUpper();
    |inputValue| > 0 && !IsCorrectWord(inputValue) && !isCompleted
  }

  /** The secret word is already in upper case. */
  lemma SecretIsUpper()
    ensures IsUpper(SecretWord) && Upper(SecretWord) == SecretWord
  {
    UpperOfUpper(SecretWord);
  }

  /** Typing the word in any letter case is accepted: "revelation" passes as well as "REVELATION". */
  lemma AnyCaseAccepted(typed: string)
    ensures IsCorrectWord(Upper(typed)) <==> IsCorrectWord(typed)
  {
    UpperIdempotent(typed);
  }

  class WordHuntPuzzle {
    var inputValue: string
    var hasFoundWord: bool
    var showHint: bool
    var showTooltip: bool
    /** Number of `onComplete` timers started. */
    var completionsScheduled: nat

    /** The stored input is always in upper case. */
    ghost predicate Valid()
      reads this
    {
      IsUpper(inputValue)
    }

    constructor ()
      ensures Valid()
      ensures inputValue == "" && !hasFoundWord && !showHint && !showTooltip && completionsScheduled == 0
    {
      inputValue := "";
      hasFoundWord := false;
      showHint := false;
      showTooltip := false;
      completionsScheduled := 0;
    }

    /**
     * `handleInputChange`: stores the input in upper case; every change that spells the
     * word schedules completion. The handler does not look at `isCompleted`; the text
     * box is disabled once the puzzle is solved.
     */
    method HandleInputChange(eventValue: string)
      requires Valid()
      modifies this
      ensures Valid()
      ensures inputValue == Upper(eventValue)
      ensures IsCorrectWord(inputValue) <==> Upper(eventValue) == SecretWord
      ensures completionsScheduled == old(completionsScheduled) + (if inputValue == SecretWord then 1 else 0)
      ensures hasFoundWord == old(hasFoundWord) && showHint == old(showHint) && showTooltip == old(showTooltip)
    {
      var value := Upper(eventValue);
      UpperIdempotent(eventValue);
      inputValue := value;
      if value == SecretWord {
        completionsScheduled := completionsScheduled + 1;
      }
    }

    /** `handleTooltipShow`: the word has been seen. */
    method HandleTooltipShow()
      requires Valid()
      modifies this
      ensures Valid()
      ensures hasFoundWord && showTooltip
      ensures inputValue == old(inputValue) && showHint == old(showHint)
      ensures completionsScheduled == old(completionsScheduled)
    {
      hasFoundWord := true;
      showTooltip := true;
    }

    /** `handleTooltipHide`. */
    method HandleTooltipHide()
      requires Valid()
      modifies this
      ensures Valid()
      ensures !showTooltip
      ensures inputValue == old(inputValue) && hasFoundWord == old(hasFoundWord) && showHint == old(showHint)
      ensures completionsScheduled == old(completionsScheduled)
    {
      showTooltip := false;
    }

    /**
     * One of the 30-second hint timers fires: the hint turns on unless the word was
     * already found or the puzzle solved (as seen by the render that started it).
     */
    method HintTimerFires(foundWhenStarted: bool, completedWhenStarted: bool)
      requires Valid()
      modifies this
      ensures Valid()
      ensures showHint == (old(showHint) || (!foundWhenStarted && !completedWhenStarted))
      ensures inputValue == old(inputValue) && hasFoundWord == old(hasFoundWord)
      ensures showTooltip == old(showTooltip) && completionsScheduled == old(completionsScheduled)
    {
      if !foundWhenStarted && !completedWhenStarted {
        showHint := true;
      }
    }

    /** The hint line shows only while the word has not been found. */
    function HintVisible(): (b: bool)
      reads this
      ensures b ==> !hasFoundWord
    {
      showHint && !hasFoundWord
    }
  }
}
