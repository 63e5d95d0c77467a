/** Datatypes and idioms shared by the components. */
module Common {
  datatype Option<+T> = None | Some(value: T)

  /** The number of values of a 32-bit unsigned integer. */
  const WORD32 := 0x1_0000_0000

  function Min(a: int, b: int): int {
    if a < b then a else b
  }

  ghost predicate Distinct(s: seq<int>) {
    forall i, j | 0 <= i < j < |s| :: s[i] != s[j]
  }

  lemma SubsetSize(x: set<nat>, y: set<nat>)
    requires x <= y
    ensures |x| <= |y|
  {
    assert y == x + (y - x);
  }

  /**
   A folded predicate has the form `forall k | Look(k) :: P(...)`.  It means `P(...)`, but the
   verifier unfolds it only in a proof that mentions `Look`, so that long-running methods can
   carry a large invariant along without reasoning about its inside.
   */
  ghost predicate Look(k: int) {
    true
  }

  /** The same for predicates inside folded ones. */
  ghost predicate Peek(k: int) {
    true
  }
}
