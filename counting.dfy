/** Counting the elements of a sequence that satisfy a test, used for "exactly one
    item is highlighted". */
module Counting {
  function CountWhere<T>(s: seq<T>, f: T -> bool): nat {
    if s == [] then 0
    else CountWhere(s[..|s| - 1], f) + (if f(s[|s| - 1]) then 1 else 0)
  }

  /** When the test holds exactly at position `k`, the count is one if `k` is a
      position of `s` and zero otherwise. */
  lemma {:induction false} CountWhereOnlyAt<T>(s: seq<T>, f: T -> bool, k: int)
    requires forall i :: 0 <= i < |s| ==> (f(s[i]) <==> i == k)
    ensures CountWhere(s, f) == if 0 <= k < |s| then 1 else 0
  {
    if s != [] {
      CountWhereOnlyAt(s[..|s| - 1], f, k);
    }
  }
}
