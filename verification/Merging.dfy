/** What it takes for an n-way merge to sort: cursors into sorted runs, and the step that both merges
    of ll_external_sort take, which is to move the least head to the output. */
module Merging {

  /** A strict weak order, as std::sort asks of its comparator. */
  ghost predicate StrictWeak<T(!new)>(less: (T, T) -> bool) {
    && (forall x, y :: less(x, y) ==> !less(y, x))
    && (forall x, y, z :: less(x, z) ==> less(x, y) || less(y, z))
  }

  ghost predicate Sorted<T>(less: (T, T) -> bool, s: seq<T>) {
    forall i, j :: 0 <= i < j < |s| ==> !less(s[j], s[i])
  }

  /** The elements of a run that have not been taken yet. */
  datatype Cursor<T> = Cursor(data: seq<T>, lo: nat, hi: nat) {
    ghost predicate Ok() {
      lo <= hi <= |data|
    }

    ghost function Rest(): (r: seq<T>)
      requires Ok()
    {
      data[lo..hi]
    }

    function Advance(): Cursor<T> {
      Cursor(data, lo + 1, hi)
    }
  }

  ghost predicate AllOk<T>(cs: seq<Cursor<T>>) {
    forall k :: 0 <= k < |cs| ==> cs[k].Ok()
  }

  ghost predicate SortedRuns<T>(less: (T, T) -> bool, cs: seq<Cursor<T>>)
    requires AllOk(cs)
  {
    forall k, i, j :: 0 <= k < |cs| && cs[k].lo <= i < j < cs[k].hi ==> !less(cs[k].data[j], cs[k].data[i])
  }

  /** All the elements that have not been taken yet. */
  ghost function Left<T>(cs: seq<Cursor<T>>): multiset<T>
    requires AllOk(cs)
  {
    if cs == [] then multiset{} else Left(cs[..|cs| - 1]) + multiset(cs[|cs| - 1].Rest())
  }

  lemma {:induction false} InLeft<T>(cs: seq<Cursor<T>>, x: T)
    requires AllOk(cs)
    ensures x in Left(cs) <==> exists k, i :: 0 <= k < |cs| && cs[k].lo <= i < cs[k].hi && cs[k].data[i] == x
  {
    if cs != [] {
      var n := |cs| - 1;
      InLeft(cs[..n], x);
      if x in multiset(cs[n].Rest()) {
        var j :| 0 <= j < |cs[n].Rest()| && cs[n].Rest()[j] == x;
        assert cs[n].data[cs[n].lo + j] == x;
      }
      if k, i :| 0 <= k < |cs| && cs[k].lo <= i < cs[k].hi && cs[k].data[i] == x {
        if k == n {
          assert cs[n].Rest()[i - cs[n].lo] == x;
        } else {
          assert cs[..n][k] == cs[k];
        }
      }
    }
  }

  lemma {:induction false} LeftAdvance<T>(cs: seq<Cursor<T>>, k: nat)
    requires AllOk(cs) && k < |cs| && cs[k].lo < cs[k].hi
    ensures AllOk(cs[k := cs[k].Advance()])
    ensures Left(cs) == Left(cs[k := cs[k].Advance()]) + multiset{cs[k].data[cs[k].lo]}
  {
    var n := |cs| - 1;
    var after := cs[k := cs[k].Advance()];
    if k == n {
      assert after[..n] == cs[..n];
      assert cs[n].Rest() == [cs[n].data[cs[n].lo]] + after[n].Rest();
    } else {
      LeftAdvance(cs[..n], k);
      assert after[..n] == cs[..n][k := cs[k].Advance()];
    }
  }

  lemma {:induction false} LeftNothing<T>(cs: seq<Cursor<T>>)
    requires AllOk(cs) && forall k :: 0 <= k < |cs| ==> cs[k].lo == cs[k].hi
    ensures Left(cs) == multiset{}
  {
    if cs != [] {
      LeftNothing(cs[..|cs| - 1]);
    }
  }

  /** Each cursor of c is the one of a followed by the one of b. */
  ghost predicate Adjoin<T>(a: seq<Cursor<T>>, b: seq<Cursor<T>>, c: seq<Cursor<T>>) {
    && |a| == |b| == |c|
    && forall k :: 0 <= k < |c| ==> a[k].data == b[k].data == c[k].data && a[k].lo == c[k].lo && a[k].hi == b[k].lo && b[k].hi == c[k].hi
  }

  lemma RestSplit<T>(a: Cursor<T>, b: Cursor<T>, c: Cursor<T>)
    requires a.Ok() && b.Ok() && c.Ok()
    requires a.data == b.data == c.data && a.lo == c.lo && a.hi == b.lo && b.hi == c.hi
    ensures multiset(c.Rest()) == multiset(a.Rest()) + multiset(b.Rest())
  {
    assert c.Rest() == a.Rest() + b.Rest();
  }

  lemma {:induction false} LeftSplit<T>(a: seq<Cursor<T>>, b: seq<Cursor<T>>, c: seq<Cursor<T>>)
    requires AllOk(a) && AllOk(b) && AllOk(c) && Adjoin(a, b, c)
    ensures Left(c) == Left(a) + Left(b)
  {
    if c != [] {
      var n := |c| - 1;
      LeftSplit(a[..n], b[..n], c[..n]);
      RestSplit(a[n], b[n], c[n]);
    }
  }

  /** Runs that lie end to end in one buffer. */
  lemma {:induction false} LeftTiled<T>(data: seq<T>, cs: seq<Cursor<T>>)
    requires AllOk(cs) && cs != [] && cs[0].lo == 0
    requires forall k :: 0 <= k < |cs| ==> cs[k].data == data
    requires forall k :: 0 <= k < |cs| - 1 ==> cs[k].hi == cs[k + 1].lo
    ensures Left(cs) == multiset(data[..cs[|cs| - 1].hi])
  {
    var n := |cs| - 1;
    if n == 0 {
      assert cs[..n] == [];
      assert cs[0].Rest() == data[..cs[0].hi];
    } else {
      LeftTiled(data, cs[..n]);
      assert data[..cs[n].hi] == data[..cs[n].lo] + cs[n].Rest();
    }
  }

  // ---------------------------------------------------------------- one step of a merge

  /** Run k has the least head of all the runs that are not used up. */
  ghost predicate LeastHead<T>(less: (T, T) -> bool, cs: seq<Cursor<T>>, k: nat)
    requires AllOk(cs)
  {
    && k < |cs| && cs[k].lo < cs[k].hi
    && forall i :: 0 <= i < |cs| && cs[i].lo < cs[i].hi ==> !less(cs[i].data[cs[i].lo], cs[k].data[cs[k].lo])
  }

  /** A merge in progress: "output" is sorted, nothing in it is greater than what is left, and
      together they are "all". */
  ghost predicate Midway<T(!new)>(less: (T, T) -> bool, output: seq<T>, cs: seq<Cursor<T>>, all: multiset<T>) {
    && AllOk(cs) && SortedRuns(less, cs) && Sorted(less, output)
    && (forall i, y :: 0 <= i < |output| && y in Left(cs) ==> !less(y, output[i]))
    && multiset(output) + Left(cs) == all
  }

  lemma StartMidway<T(!new)>(less: (T, T) -> bool, cs: seq<Cursor<T>>)
    requires AllOk(cs) && SortedRuns(less, cs)
    ensures Midway(less, [], cs, Left(cs))
  {
  }

  /** The least head is the least of all that is left. */
  lemma LeastOfAll<T(!new)>(less: (T, T) -> bool, cs: seq<Cursor<T>>, k: nat, y: T)
    requires StrictWeak(less) && AllOk(cs) && SortedRuns(less, cs) && LeastHead(less, cs, k) && y in Left(cs)
    ensures !less(y, cs[k].data[cs[k].lo])
  {
    InLeft(cs, y);
    var i, j :| 0 <= i < |cs| && cs[i].lo <= j < cs[i].hi && cs[i].data[j] == y;
    var head, v := cs[i].data[cs[i].lo], cs[k].data[cs[k].lo];
    assert y == head || !less(y, head);
    assert !less(head, v);
  }

  lemma TakeLeast<T(!new)>(less: (T, T) -> bool, output: seq<T>, cs: seq<Cursor<T>>, k: nat, all: multiset<T>)
    requires StrictWeak(less) && Midway(less, output, cs, all) && LeastHead(less, cs, k)
    ensures Midway(less, output + [cs[k].data[cs[k].lo]], cs[k := cs[k].Advance()], all)
  {
    hide StrictWeak, LeastHead, Left, SortedRuns;
    var v := Head(less, cs, k);
    LeftAdvance(cs, k);
    forall y | y in Left(cs) ensures !less(y, v) {
      LeastOfAll(less, cs, k, y);
    }
    AdvanceSorted(less, cs, k);
    var after := cs[k := cs[k].Advance()];
    assert v in Left(cs);
    assert multiset(output + [v]) + Left(after) == all;
    forall i, y | 0 <= i < |output + [v]| && y in Left(after) ensures !less(y, (output + [v])[i]) {
      assert y in Left(cs);
    }
  }

  lemma AdvanceSorted<T>(less: (T, T) -> bool, cs: seq<Cursor<T>>, k: nat)
    requires AllOk(cs) && SortedRuns(less, cs) && k < |cs| && cs[k].lo < cs[k].hi
    ensures AllOk(cs[k := cs[k].Advance()]) && SortedRuns(less, cs[k := cs[k].Advance()])
  {
  }

  lemma Head<T>(less: (T, T) -> bool, cs: seq<Cursor<T>>, k: nat) returns (v: T)
    requires AllOk(cs) && LeastHead(less, cs, k)
    ensures k < |cs| && cs[k].lo < cs[k].hi && v == cs[k].data[cs[k].lo]
  {
    v := cs[k].data[cs[k].lo];
  }

  /** A merge that has nothing left has sorted its runs. */
  lemma MergeDone<T(!new)>(less: (T, T) -> bool, output: seq<T>, cs: seq<Cursor<T>>, all: multiset<T>)
    requires Midway(less, output, cs, all) && forall k :: 0 <= k < |cs| ==> cs[k].lo == cs[k].hi
    ensures Sorted(less, output) && multiset(output) == all
  {
    LeftNothing(cs);
  }
}
