/** `std::max`, `std::min` and the first maximal position of a sequence of
  * scores, shared by both searches. */
module Folds {

  /** `std::max(a, b)`. */
  function Max2(a: int, b: int): int { if a < b then b else a }

  /** `std::min(a, b)`. */
  function Min2(a: int, b: int): int { if b < a then b else a }

  /** The position of the first maximal element: a later equal element does
    * not replace an earlier one. */
  function FirstArgMax(s: seq<int>): (k: nat)
    requires |s| > 0
    ensures k < |s|
    ensures forall i :: 0 <= i < |s| ==> s[i] <= s[k]
    ensures forall i :: 0 <= i < k ==> s[i] < s[k]
  {
    if |s| == 1 then 0
    else
      var k := FirstArgMax(s[..|s| - 1]);
      if s[|s| - 1] > s[k] then |s| - 1 else k
  }

  /** The first maximal position is determined by its two defining
    * properties: no element exceeds it, and every earlier one is smaller. */
  lemma FirstArgMaxUnique(s: seq<int>, k: int)
    requires 0 <= k < |s|
    requires forall i :: 0 <= i < |s| ==> s[i] <= s[k]
    requires forall i :: 0 <= i < k ==> s[i] < s[k]
    ensures FirstArgMax(s) == k
  {
  }
}
