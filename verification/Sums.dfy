/** Sums of an integer measure over a sequence: the model of `SUM(...)` over the rows of a table. */
module Sums {

  function Sum<T>(f: T -> int, s: seq<T>): int {
    if s == [] then 0 else Sum(f, s[..|s| - 1]) + f(s[|s| - 1])
  }

  lemma SumSnoc<T>(f: T -> int, s: seq<T>, x: T)
    ensures Sum(f, s + [x]) == Sum(f, s) + f(x)
  {
    assert (s + [x])[..|s|] == s;
  }

  lemma {:induction false} SumAppend<T>(f: T -> int, s: seq<T>, t: seq<T>)
    ensures Sum(f, s + t) == Sum(f, s) + Sum(f, t)
  {
    if t == [] {
      assert s + t == s;
    } else {
      var n := |t| - 1;
      assert (s + t)[..|s + t| - 1] == s + t[..n];
      SumAppend(f, s, t[..n]);
    }
  }

  /** An in-place update of one row changes the total by the change of that row. */
  lemma {:induction false} SumUpdate<T>(f: T -> int, s: seq<T>, i: nat, x: T)
    requires i < |s|
    ensures Sum(f, s[i := x]) == Sum(f, s) - f(s[i]) + f(x)
  {
    var n := |s| - 1;
    if i == n {
      assert s[i := x][..n] == s[..n];
    } else {
      assert s[i := x][..n] == s[..n][i := x];
      SumUpdate(f, s[..n], i, x);
    }
  }

  /** Pointwise comparison of differences carries over to the totals. */
  lemma {:induction false} SumDifference<T>(f: T -> int, g: T -> int, s: seq<T>, t: seq<T>)
    requires |s| == |t|
    requires forall i :: 0 <= i < |s| ==> f(s[i]) - f(t[i]) <= g(s[i]) - g(t[i])
    ensures Sum(f, s) - Sum(f, t) <= Sum(g, s) - Sum(g, t)
  {
    if s != [] {
      var n := |s| - 1;
      SumDifference(f, g, s[..n], t[..n]);
    }
  }

  lemma {:induction false} SumPointwise<T>(f: T -> int, s: seq<T>, t: seq<T>)
    requires |s| == |t| && forall i :: 0 <= i < |s| ==> f(s[i]) == f(t[i])
    ensures Sum(f, s) == Sum(f, t)
  {
    if s != [] {
      SumPointwise(f, s[..|s| - 1], t[..|t| - 1]);
    }
  }

  lemma {:induction false} SumMono<T>(f: T -> int, g: T -> int, s: seq<T>)
    requires forall i :: 0 <= i < |s| ==> f(s[i]) <= g(s[i])
    ensures Sum(f, s) <= Sum(g, s)
  {
    if s != [] {
      SumMono(f, g, s[..|s| - 1]);
    }
  }

  lemma SumSame<T>(f: T -> int, g: T -> int, s: seq<T>)
    requires forall i :: 0 <= i < |s| ==> f(s[i]) == g(s[i])
    ensures Sum(f, s) == Sum(g, s)
  {
    SumMono(f, g, s);
    SumMono(g, f, s);
  }

  lemma {:induction false} SumZero<T>(f: T -> int, s: seq<T>)
    requires forall i :: 0 <= i < |s| ==> f(s[i]) == 0
    ensures Sum(f, s) == 0
  {
    if s != [] {
      SumZero(f, s[..|s| - 1]);
    }
  }

  /** A total of non-negative measures is at least any one of them. */
  lemma {:induction false} SumAtLeast<T>(f: T -> int, s: seq<T>, i: nat)
    requires i < |s|
    requires forall k :: 0 <= k < |s| ==> f(s[k]) >= 0
    ensures Sum(f, s) >= f(s[i])
  {
    var n := |s| - 1;
    if i == n {
      SumNonNegative(f, s[..n]);
    } else {
      SumAtLeast(f, s[..n], i);
    }
  }

  lemma {:induction false} SumNonNegative<T>(f: T -> int, s: seq<T>)
    requires forall k :: 0 <= k < |s| ==> f(s[k]) >= 0
    ensures Sum(f, s) >= 0
  {
    if s != [] {
      SumNonNegative(f, s[..|s| - 1]);
    }
  }

  /** A measure that is pointwise the sum of two others totals their totals. */
  lemma {:induction false} SumSplit<T>(f: T -> int, g: T -> int, h: T -> int, s: seq<T>)
    requires forall i :: 0 <= i < |s| ==> f(s[i]) == g(s[i]) + h(s[i])
    ensures Sum(f, s) == Sum(g, s) + Sum(h, s)
  {
    if s != [] {
      SumSplit(f, g, h, s[..|s| - 1]);
    }
  }
}
