/** Small helpers shared by the other modules: an Option type for the
    operations of the library that can raise, and facts about sequences. */
module Wrappers {

  /** The value of an operation that either produces a value or fails
      (in the library, the `IndexError` Python raises on a bad list index). */
  datatype Option<+T> = None | Some(value: T)

  /** No element occurs twice in `s`. */
  predicate NoDuplicates<T(==)>(s: seq<T>) {
    forall i, j :: 0 <= i < j < |s| ==> s[i] != s[j]
  }

  /** Position of the first occurrence of `x` in `s`. */
  function IndexOf<T(==)>(s: seq<T>, x: T): (r: nat)
    requires x in s
    ensures r < |s| && s[r] == x && x !in s[..r]
  {
    if s[0] == x then 0 else 1 + IndexOf(s[1..], x)
  }

  /** In a sequence without duplicates, the position of an element is the
      position it was found at. */
  lemma IndexOfUnique<T>(s: seq<T>, i: nat)
    requires NoDuplicates(s) && i < |s|
    ensures IndexOf(s, s[i]) == i
  {
  }
}
