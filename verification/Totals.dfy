/** Summing a natural-number weight over a sequence: counters and termination measures of the machines. */
module Totals {
  function Total<T>(weight: T -> nat, s: seq<T>): nat {
    if s == [] then 0 else Total(weight, s[..|s| - 1]) + weight(s[|s| - 1])
  }

  lemma TotalSnoc<T>(weight: T -> nat, s: seq<T>, x: T)
    ensures Total(weight, s + [x]) == Total(weight, s) + weight(x)
  {
    assert (s + [x])[..|s|] == s;
  }

  lemma {:induction false} TotalUpdate<T>(weight: T -> nat, s: seq<T>, k: nat, x: T)
    requires k < |s|
    ensures Total(weight, s[k := x]) == Total(weight, s) - weight(s[k]) + weight(x)
    decreases |s|
  {
    var n := |s| - 1;
    if k < n {
      assert s[k := x][..n] == s[..n][k := x];
      TotalUpdate(weight, s[..n], k, x);
    } else {
      assert s[k := x][..n] == s[..n];
    }
  }

  /** No summand exceeds the sum; a zero sum has only zero summands. */
  lemma {:induction false} TotalBounds<T>(weight: T -> nat, s: seq<T>)
    ensures forall k :: 0 <= k < |s| ==> weight(s[k]) <= Total(weight, s)
    decreases |s|
  {
    if s != [] {
      var n := |s| - 1;
      TotalBounds(weight, s[..n]);
      assert forall k :: 0 <= k < n ==> s[..n][k] == s[k];
    }
  }

  lemma {:induction false} TotalZero<T>(weight: T -> nat, s: seq<T>)
    requires forall k :: 0 <= k < |s| ==> weight(s[k]) == 0
    ensures Total(weight, s) == 0
    decreases |s|
  {
    if s != [] {
      TotalZero(weight, s[..|s| - 1]);
    }
  }
}
