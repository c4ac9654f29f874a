/**
 * The Date Mystery puzzle of src/components/puzzles/DatePickerPuzzle.tsx: the date of
 * the first Moon landing, 20 July 1969, solves it.
 */
module DatePicker {
  import opened Common

  /** What `getFullYear`, `getMonth` (0 = January) and `getDate` report for a picked date. */
  datatype Date = Date(year: int, month: int, day: int)

  /** `new Date(1969, 6, 20)`: month 6 is July. */
  const TargetDate := Date(1969, 6, 20)

  /** The comparison in `handleDateChange`: same year, month and day as the target. */
  predicate MatchesTarget(date: Date) {
    date.year == TargetDate.year && date.month == TargetDate.month && date.day == TargetDate.day
  }

  /** The render's `isCorrectDate`: a date is picked and it is 1969, month 6, day 20. */
  function IsCorrectDate(selectedDate: Option<Date>): (b: bool)
    ensures b <==> selectedDate.Some? && MatchesTarget(selectedDate.value)
  {
    selectedDate.Some? && selectedDate.value.year == 1969 && selectedDate.value.month == 6 &&
    selectedDate.value.day == 20
  }

  /** The wrong-date message: a date is picked, it is not the answer, and the puzzle is not solved. */
  function ShowsWrongMessage(selectedDate: Option<Date>, isCompleted: bool): (b: bool)
    ensures b ==> selectedDate != Some(TargetDate) && !isCompleted
  {
    selectedDate.Some? && !IsCorrectDate(selectedDate) && !isCompleted
  }

  /** The handler's test and the render's test agree, and accept exactly 20 July 1969. */
  lemma HandlerAndRenderAgree(date: Option<Date>)
    ensures IsCorrectDate(date) <==> date.Some? && MatchesTarget(date.value)
    ensures IsCorrectDate(date) <==> date == Some(Date(1969, 6, 20))
  {
  }

  class DatePickerPuzzle {
    var selectedDate: Option<Date>
    /** Number of `onComplete` timers started. */
    var completionsScheduled: nat

    constructor ()
      ensures selectedDate == None && completionsScheduled == 0
    {
      selectedDate := None;
      completionsScheduled := 0;
    }

    /**
     * `handleDateChange`: stores the picked date (or its clearing); picking the target
     * schedules completion. The handler does not look at `isCompleted`; the picker
     * is disabled once the puzzle is solved.
     */
    method HandleDateChange(date: Option<Date>)
      modifies this
      ensures selectedDate == date
      ensures completionsScheduled == old(completionsScheduled) + (if IsCorrectDate(date) then 1 else 0)
    {
      selectedDate := date;
      if date.Some? {
        var targetDate := TargetDate;
        if date.value.year == targetDate.year && date.value.month == targetDate.month &&
           date.value.day == targetDate.day {
          completionsScheduled := completionsScheduled + 1;
        }
      }
    }
  }
}
