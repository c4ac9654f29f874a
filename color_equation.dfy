/**
 * The Color Equation Solver puzzle of src/components/puzzles/ColorEquationPuzzle.tsx:
 * four colour-mixing equations whose results are picked from a palette; letter case
 * of the hex codes does not matter.
 */
module ColorEquation {
  import opened Common

  datatype Equation = Equation(
    id: string,
    color1: string, color1Name: string,
    color2: string, color2Name: string,
    correctAnswer: string, answerName: string)

  const Equations: seq<Equation> := [
    Equation("eq1", "#FF0000", "Red", "#0000FF", "Blue", "#800080", "Purple"),
    Equation("eq2", "#FFFF00", "Yellow", "#FF0000", "Red", "#FFA500", "Orange"),
    Equation("eq3", "#0000FF", "Blue", "#FFFF00", "Yellow", "#008000", "Green"),
    Equation("eq4", "#FF0000", "Red", "#FFFFFF", "White", "#FFB6C1", "Pink")
  ]

  /** Every equation starts on white. */
  const InitialColors: map<string, string> :=
    map["eq1" := "#ffffff", "eq2" := "#ffffff", "eq3" := "#ffffff", "eq4" := "#ffffff"]

  /** Every equation has a selected colour. */
  predicate CoversEquations(colors: map<string, string>) {
    forall i :: 0 <= i < |Equations| ==> Equations[i].id in colors
  }

  /** The `allCorrect` test: each equation's colour equals its answer once both are lower-cased. */
  function AllCorrect(colors: map<string, string>): (b: bool)
    requires CoversEquations(colors)
    ensures b ==> forall i :: 0 <= i < |Equations| ==> |colors[Equations[i].id]| == |Equations[i].correctAnswer|
  {
    forall i :: 0 <= i < |Equations| ==> Lower(colors[Equations[i].id]) == Lower(Equations[i].correctAnswer)
  }

  /** White is not the answer to the first equation, so the puzzle does not start solved. */
  lemma InitialNotSolved()
    ensures CoversEquations(InitialColors) && !AllCorrect(InitialColors)
  {
    assert Lower(InitialColors["eq1"])[1] == 'f';
    assert Lower(Equations[0].correctAnswer)[1] == '8';
  }

  /** Selecting each answer as written solves the puzzle. */
  lemma AnswersSolve(colors: map<string, string>)
    requires forall i :: 0 <= i < |Equations| ==>
      Equations[i].id in colors && colors[Equations[i].id] == Equations[i].correctAnswer
    ensures CoversEquations(colors) && AllCorrect(colors)
  {
  }

  /** Selecting a colour in another letter case gives the same verdict. */
  lemma CaseDoesNotMatter(colors: map<string, string>, equationId: string, a: string, b: string)
    requires CoversEquations(colors) && Lower(a) == Lower(b)
    ensures CoversEquations(colors[equationId := a]) && CoversEquations(colors[equationId := b])
    ensures AllCorrect(colors[equationId := a]) <==> AllCorrect(colors[equationId := b])
  {
  }

  /** The upper-case and lower-case spellings of a code are interchangeable. */
  lemma UpperCaseSpellingAccepted(colors: map<string, string>, equationId: string, c: string)
    requires CoversEquations(colors)
    ensures CoversEquations(colors[equationId := Upper(c)])
    ensures AllCorrect(colors[equationId := Upper(c)]) <==> AllCorrect(colors[equationId := c])
  {
    LowerIgnoresCase(c);
    CaseDoesNotMatter(colors, equationId, Upper(c), c);
  }

  class ColorEquationPuzzle {
    var selectedColors: map<string, string>
    /** Number of `onComplete` timers started. */
    var completionsScheduled: nat

    ghost predicate Valid()
      reads this
    {
      CoversEquations(selectedColors)
    }

    constructor ()
      ensures Valid()
      ensures selectedColors == InitialColors && completionsScheduled == 0
    {
      selectedColors := InitialColors;
      completionsScheduled := 0;
    }

    /**
     * `handleColorChange`: ignored once solved; otherwise the equation takes the colour
     * and, if that makes all four right, completion is scheduled.
     */
    method HandleColorChange(equationId: string, color: string, isCompleted: bool)
      requires Valid()
      modifies this
      ensures Valid()
      ensures isCompleted ==>
        selectedColors == old(selectedColors) && completionsScheduled == old(completionsScheduled)
      ensures !isCompleted ==> selectedColors == old(selectedColors)[equationId := color]
      ensures !isCompleted ==>
        completionsScheduled == old(completionsScheduled) + (if AllCorrect(selectedColors) then 1 else 0)
    {
      if isCompleted {
        return;
      }
      var newColors := selectedColors[equationId := color];
      selectedColors := newColors;
      var allCorrect := forall i :: 0 <= i < |Equations| ==>
        Lower(newColors[Equations[i].id]) == Lower(Equations[i].correctAnswer);
      if allCorrect {
        completionsScheduled := completionsScheduled + 1;
      }
    }
  }
}
