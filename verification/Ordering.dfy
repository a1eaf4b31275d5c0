/** `SELECT id ... WHERE keep ORDER BY before`: row indices filtered and sorted by an insertion sort. */
module Ordering {

  predicate Distinct(s: seq<nat>) {
    forall i, j :: 0 <= i < j < |s| ==> s[i] != s[j]
  }

  ghost predicate TotalOrder(before: (nat, nat) -> bool) {
    && (forall a: nat, b: nat :: before(a, b) || before(b, a))
    && (forall a: nat, b: nat, c: nat :: before(a, b) && before(b, c) ==> before(a, c))
  }

  ghost predicate Sorted(before: (nat, nat) -> bool, s: seq<nat>) {
    forall i, j :: 0 <= i < j < |s| ==> before(s[i], s[j])
  }

  function Insert(before: (nat, nat) -> bool, i: nat, s: seq<nat>): (r: seq<nat>)
    ensures forall x :: x in r <==> x == i || x in s
    ensures Distinct(s) && i !in s ==> Distinct(r)
  {
    if s == [] then [i]
    else if before(i, s[0]) then [i] + s
    else
      var rest := Insert(before, i, s[1..]);
      assert s == [s[0]] + s[1..];
      assert Distinct(s) ==> Distinct(s[1..]) && s[0] !in s[1..];
      [s[0]] + rest
  }

  /** The query returns exactly the kept rows, each once. */
  function Query(n: nat, keep: nat -> bool, before: (nat, nat) -> bool): (r: seq<nat>)
    ensures forall x: nat :: x in r <==> x < n && keep(x)
    ensures Distinct(r)
  {
    if n == 0 then []
    else
      var rest := Query(n - 1, keep, before);
      if keep(n - 1) then Insert(before, n - 1, rest) else rest
  }

  lemma {:induction false} InsertSorted(before: (nat, nat) -> bool, i: nat, s: seq<nat>)
    requires TotalOrder(before) && Sorted(before, s)
    ensures Sorted(before, Insert(before, i, s))
  {
    if s == [] {
    } else if before(i, s[0]) {
      forall k | 0 <= k < |s| ensures before(i, s[k]) {
        if k > 0 { assert before(s[0], s[k]); }
      }
    } else {
      assert Sorted(before, s[1..]);
      InsertSorted(before, i, s[1..]);
      var r := Insert(before, i, s[1..]);
      forall k | 0 <= k < |r| ensures before(s[0], r[k]) {
        assert r[k] in r;
        if r[k] != i {
          var m :| 0 <= m < |s[1..]| && s[1..][m] == r[k];
          assert before(s[0], s[m + 1]);
        }
      }
    }
  }

  /** The query returns its rows in the requested order. */
  lemma {:induction false} QuerySorted(n: nat, keep: nat -> bool, before: (nat, nat) -> bool)
    requires TotalOrder(before)
    ensures Sorted(before, Query(n, keep, before))
  {
    if n > 0 {
      QuerySorted(n - 1, keep, before);
      if keep(n - 1) {
        InsertSorted(before, n - 1, Query(n - 1, keep, before));
      }
    }
  }

  ghost predicate Antisymmetric(before: (nat, nat) -> bool) {
    forall a: nat, b: nat :: before(a, b) && before(b, a) ==> a == b
  }

  lemma TailMembers(s: seq<nat>)
    requires Distinct(s) && s != []
    ensures forall x :: x in s[1..] <==> x in s && x != s[0]
  {
    assert s == [s[0]] + s[1..];
  }

  lemma HeadFirst(before: (nat, nat) -> bool, s: seq<nat>, x: nat)
    requires Sorted(before, s) && x in s
    ensures x == s[0] || before(s[0], x)
  {
    var i :| 0 <= i < |s| && s[i] == x;
  }

  /** The same rows in the same strict order are the same sequence. */
  lemma {:induction false} SortedOnce(before: (nat, nat) -> bool, s: seq<nat>, t: seq<nat>)
    requires Antisymmetric(before) && Sorted(before, s) && Sorted(before, t) && Distinct(s) && Distinct(t)
    requires forall x :: x in s <==> x in t
    ensures s == t
    decreases |s|
  {
    assert t == [] || t[0] in s;
    if s != [] {
      assert s[0] in t && t != [] && t[0] in s;
      HeadFirst(before, s, t[0]);
      HeadFirst(before, t, s[0]);
      TailMembers(s);
      TailMembers(t);
      SortedOnce(before, s[1..], t[1..]);
    }
  }

  function Limited(ids: seq<nat>, limit: nat): seq<nat> {
    if |ids| <= limit then ids else ids[..limit]
  }

  /** `LIMIT` keeps the first rows: every row it keeps comes before every row it cuts off. */
  lemma LimitKeepsFirst(n: nat, keep: nat -> bool, before: (nat, nat) -> bool, limit: nat, x: nat, y: nat)
    requires TotalOrder(before)
    requires x in Limited(Query(n, keep, before), limit) && y < n && keep(y)
             && y !in Limited(Query(n, keep, before), limit)
    ensures before(x, y)
  {
    QuerySorted(n, keep, before);
    var q := Query(n, keep, before);
    var i :| 0 <= i < |Limited(q, limit)| && Limited(q, limit)[i] == x;
    var j :| 0 <= j < |q| && q[j] == y;
    PrefixHas(q, |Limited(q, limit)|, j);
  }

  lemma PrefixHas(s: seq<nat>, n: nat, j: nat)
    requires n <= |s| && j < |s|
    ensures j < n ==> s[j] in s[..n]
  {
    if j < n { assert s[..n][j] == s[j]; }
  }
}
