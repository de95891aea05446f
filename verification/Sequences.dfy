/** Sequences whose elements differ or increase, and sums of numbers. */
module Sequences {

  ghost predicate Distinct<T>(s: seq<T>) {
    forall i, j :: 0 <= i < j < |s| ==> s[i] != s[j]
  }

  ghost predicate Ascending(s: seq<nat>) {
    forall i, j :: 0 <= i < j < |s| ==> s[i] < s[j]
  }

  /** The largest of the first n numbers. */
  function MaxOf(s: seq<nat>, n: nat): (m: nat)
    requires n <= |s|
    ensures forall i :: 0 <= i < n ==> s[i] <= m
    ensures n > 0 ==> exists i :: 0 <= i < n && s[i] == m
  {
    if n == 0 then 0 else if n == 1 then s[0] else
      var m := MaxOf(s, n - 1);
      if s[n - 1] > m then s[n - 1] else m
  }

  function Sum(s: seq<nat>): nat {
    if s == [] then 0 else Sum(s[..|s| - 1]) + s[|s| - 1]
  }

  lemma {:induction false} SumUpdate(s: seq<nat>, t: nat, x: nat)
    requires t < |s|
    ensures Sum(s[t := x]) + s[t] == Sum(s) + x
  {
    var n := |s| - 1;
    if t < n {
      SumUpdate(s[..n], t, x);
      assert s[t := x][..n] == s[..n][t := x];
    } else {
      assert s[t := x][..n] == s[..n];
    }
  }

  lemma {:induction false} SumPrefix(s: seq<nat>, i: nat, j: nat)
    requires i <= j <= |s|
    ensures Sum(s[..i]) <= Sum(s[..j])
  {
    if i < j {
      SumPrefix(s, i, j - 1);
      assert s[..j][..j - 1] == s[..j - 1];
    }
  }

  /** A sum is that of a prefix exactly when everything behind the prefix is 0. */
  lemma {:induction false} SumTail(s: seq<nat>, n: nat)
    requires n <= |s|
    ensures Sum(s) == Sum(s[..n]) <==> forall t :: n <= t < |s| ==> s[t] == 0
  {
    if n < |s| {
      var m := |s| - 1;
      SumTail(s[..m], n);
      SumPrefix(s[..m], n, m);
      assert s[..m][..n] == s[..n] && s[..m][..m] == s[..m];
    } else {
      assert s[..n] == s;
    }
  }

  lemma SumZero(s: seq<nat>)
    requires forall t :: 0 <= t < |s| ==> s[t] == 0
    ensures Sum(s) == 0
  {
    SumTail(s, 0);
  }

  lemma SumNext(s: seq<nat>, t: nat)
    requires t < |s|
    ensures Sum(s[..t + 1]) == Sum(s[..t]) + s[t]
  {
    assert s[..t + 1][..t] == s[..t];
  }
}
