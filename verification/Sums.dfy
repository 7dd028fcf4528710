/** Sums of an integer measure over a sequence.  The download model states its byte
    accounting and its coverage of the file as such sums. */
module Sums {

  function Sum<T>(s: seq<T>, f: T -> int): int {
    if s == [] then 0 else Sum(s[..|s| - 1], f) + f(s[|s| - 1])
  }

  lemma SumAppend<T>(s: seq<T>, x: T, f: T -> int)
    ensures Sum(s + [x], f) == Sum(s, f) + f(x)
  {
    assert (s + [x])[..|s|] == s;
  }

  lemma {:induction false} SumUpdate<T>(s: seq<T>, i: nat, x: T, f: T -> int)
    requires i < |s|
    ensures Sum(s[i := x], f) == Sum(s, f) - f(s[i]) + f(x)
  {
    var n := |s| - 1;
    if i == n {
      assert s[i := x][..n] == s[..n];
    } else {
      assert s[i := x][..n] == s[..n][i := x];
      SumUpdate(s[..n], i, x, f);
    }
  }

  /** A sum of non-negative measures dominates each of its members. */
  lemma {:induction false} SumDominates<T>(s: seq<T>, f: T -> int, i: nat)
    requires i < |s|
    requires forall k :: 0 <= k < |s| ==> f(s[k]) >= 0
    ensures 0 <= f(s[i]) <= Sum(s, f)
  {
    var n := |s| - 1;
    SumNonNegative(s[..n], f);
    if i < n {
      SumDominates(s[..n], f, i);
    }
  }

  lemma {:induction false} SumNonNegative<T>(s: seq<T>, f: T -> int)
    requires forall k :: 0 <= k < |s| ==> f(s[k]) >= 0
    ensures Sum(s, f) >= 0
  {
    if s != [] {
      SumNonNegative(s[..|s| - 1], f);
    }
  }

  /** Two different members both fit below the sum. */
  lemma {:induction false} SumDominatesPair<T>(s: seq<T>, f: T -> int, i: nat, j: nat)
    requires i < j < |s|
    requires forall k :: 0 <= k < |s| ==> f(s[k]) >= 0
    ensures f(s[i]) + f(s[j]) <= Sum(s, f)
  {
    var n := |s| - 1;
    if j < n {
      SumDominatesPair(s[..n], f, i, j);
    } else {
      SumDominates(s[..n], f, i);
    }
  }

  /** A positive sum has a positive member. */
  lemma {:induction false} SumPositive<T>(s: seq<T>, f: T -> int) returns (i: nat)
    requires Sum(s, f) > 0
    ensures i < |s| && f(s[i]) > 0
  {
    var n := |s| - 1;
    if f(s[n]) > 0 {
      i := n;
    } else {
      i := SumPositive(s[..n], f);
    }
  }

  /** The sum of non-negative measures vanishes exactly when all of them do. */
  lemma {:induction false} SumZero<T>(s: seq<T>, f: T -> int)
    requires forall k :: 0 <= k < |s| ==> f(s[k]) >= 0
    ensures Sum(s, f) == 0 <==> forall k :: 0 <= k < |s| ==> f(s[k]) == 0
  {
    if s != [] {
      var n := |s| - 1;
      SumZero(s[..n], f);
      SumNonNegative(s[..n], f);
      assert forall k :: 0 <= k < n ==> s[..n][k] == s[k];
    }
  }

  /** A lower bound per member gives a lower bound on the sum. */
  lemma {:induction false} SumAtLeast<T>(s: seq<T>, f: T -> int, low: nat)
    requires forall k :: 0 <= k < |s| ==> f(s[k]) >= low
    ensures Sum(s, f) >= |s| * low
  {
    if s != [] {
      SumAtLeast(s[..|s| - 1], f, low);
    }
  }

  /** Replacing every member by one of equal measure leaves the sum alone. */
  lemma {:induction false} SumPointwise<S, T>(s: seq<S>, f: S -> int, t: seq<T>, g: T -> int)
    requires |s| == |t|
    requires forall k :: 0 <= k < |s| ==> f(s[k]) == g(t[k])
    ensures Sum(s, f) == Sum(t, g)
  {
    if s != [] {
      var n := |s| - 1;
      SumPointwise(s[..n], f, t[..n], g);
    }
  }
}
