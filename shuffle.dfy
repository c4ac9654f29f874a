/**
 * The in-place Fisher-Yates shuffle that both NumberSequencePuzzle.shuffleArray and
 * ContextMenuPuzzle's characterOrder initialiser run. `Math.random` is replaced by a
 * nondeterministic choice of the swap partner, so what is proved holds for every outcome.
 */
module Shuffle {

  method FisherYates<T>(a: array<T>)
    modifies a
    ensures multiset(a[..]) == multiset(old(a[..]))
  {
    var i := a.Length - 1;
    while i > 0
      invariant i < a.Length
      invariant multiset(a[..]) == multiset(old(a[..]))
    {
      var j :| 0 <= j <= i;   // Math.floor(Math.random() * (i + 1))
      a[i], a[j] := a[j], a[i];
      i := i - 1;
    }
  }
}
