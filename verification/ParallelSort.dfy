/** The parallel branch of ll_external_sort::sort_buffer (llama/include/llama/ll_external_sort.h):
    n sorted runs are cut into n parts at the elements that divide the first run evenly, and each
    thread merges one part into its own range of the result. */
module ParallelSort {
  import opened Merging

  /** find_first_greater_than */
  method FindFirstGreaterThan<T(!new)>(less: (T, T) -> bool, buffer: seq<T>, key: T) returns (pos: nat)
    requires StrictWeak(less) && Sorted(less, buffer)
    ensures pos <= |buffer|
    ensures forall k :: 0 <= k < |buffer| ==> (less(key, buffer[k]) <==> pos <= k)
  {
    if |buffer| == 0 {
      return 0;
    }
    var min, max, mid := 0, |buffer| - 1, 0;
    while max >= min
      invariant 0 <= min <= max + 1 <= |buffer| && 0 <= mid < |buffer|
      invariant forall k :: 0 <= k < min ==> !less(key, buffer[k])
      invariant forall k :: max < k < |buffer| ==> less(key, buffer[k])
      invariant max < min ==> if less(buffer[mid], key) then mid + 1 == min else mid == min
    {
      mid := min + (max - min) / 2;
      if less(buffer[mid], key) {
        forall k | 0 <= k <= mid ensures !less(key, buffer[k]) {
          assert k == mid || !less(buffer[mid], buffer[k]);
        }
        min := mid + 1;
      } else if less(key, buffer[mid]) {
        forall k | mid <= k < |buffer| ensures less(key, buffer[k]) {
          assert k == mid || !less(buffer[k], buffer[mid]);
        }
        max := mid - 1;
      } else {
        pos := mid + 1;
        while pos < |buffer|
          invariant mid < pos <= |buffer|
          invariant forall k :: mid <= k < pos ==> !less(key, buffer[k])
        {
          if less(key, buffer[pos]) {
            break;
          }
          pos := pos + 1;
        }
        forall k | 0 <= k < |buffer| ensures less(key, buffer[k]) <==> pos <= k {
          if k < mid {
            assert !less(buffer[mid], buffer[k]);
          } else if pos < k {
            assert !less(buffer[k], buffer[pos]);
          }
        }
        return pos;
      }
    }
    pos := mid;
    if less(buffer[mid], key) {
      pos := pos + 1;
    }
  }

  // ---------------------------------------------------------------- dividing evenly

  /** Ranges that lie end to end from lo to hi. */
  ghost predicate Tiles(starts: seq<nat>, ends: seq<nat>, lo: nat, hi: nat) {
    && |starts| == |ends| > 0 && starts[0] == lo && ends[|ends| - 1] == hi
    && (forall t :: 0 <= t < |starts| ==> starts[t] <= ends[t])
    && (forall t :: 0 <= t < |starts| - 1 ==> ends[t] == starts[t + 1])
  }

  function Share(t: nat, size: nat, n: nat): nat
    requires n > 0
  {
    t * size / n
  }

  lemma ShareGrows(t: nat, size: nat, n: nat)
    requires n > 0
    ensures Share(t, size, n) <= Share(t + 1, size, n)
    ensures size >= n ==> Share(t + 1, size, n) >= 1
    ensures Share(n, size, n) == size && Share(0, size, n) == 0 && Share(1, size, n) == size / n
  {
    assert t * size <= (t + 1) * size;
    DivideMore(t * size, (t + 1) * size, n);
    if size >= n {
      assert (t + 1) * size >= n by {
        assert (t + 1) * size == t * size + size;
      }
      DivideMore(n, (t + 1) * size, n);
    }
    TimesOver(n, size);
  }

  lemma TimesMore(a: nat, b: nat, n: nat)
    requires a <= b
    ensures a * n <= b * n
  {
    assert b * n == a * n + (b - a) * n;
  }

  lemma AtLeastTimes(a: nat, n: nat, m: nat)
    requires n > 0
    ensures a / n >= m <==> a >= m * n
  {
    var q := a / n;
    assert a == q * n + a % n;
    if q >= m {
      TimesMore(m, q, n);
    } else {
      TimesMore(q + 1, m, n);
    }
  }

  lemma DivideMore(a: nat, b: nat, n: nat)
    requires a <= b && n > 0
    ensures a / n <= b / n
  {
    AtLeastTimes(a, n, a / n);
    AtLeastTimes(b, n, a / n);
  }

  lemma TimesOver(n: nat, size: nat)
    requires n > 0
    ensures n * size / n == size
  {
    AtLeastTimes(n * size, n, size);
    AtLeastTimes(n * size, n, size + 1);
  }

  /** The division into n nearly equal ranges, for the partial sorts and for the first run. */
  method Divide(size: nat, n: nat) returns (starts: seq<nat>, ends: seq<nat>)
    requires n > 0
    ensures |starts| == n && Tiles(starts, ends, 0, size) && ends[0] == size / n
    ensures size >= n ==> forall t :: 0 <= t < n ==> ends[t] >= 1
  {
    hide Share;
    starts, ends := [], [];
    ShareGrows(0, size, n);
    for t := 0 to n
      invariant |starts| == |ends| == t
      invariant forall i :: 0 <= i < t ==> starts[i] == Share(i, size, n) && ends[i] == Share(i + 1, size, n)
      invariant forall i :: 0 <= i < t ==> starts[i] <= ends[i] && (size >= n ==> ends[i] >= 1)
    {
      ShareGrows(t, size, n);
      starts := starts + [Share(t, size, n)];
      ends := ends + [if t + 1 == n then size else Share(t + 1, size, n)];
    }
  }

  /** The first cut is behind an element of the first run, which is what the code reads as its pivot,
      exactly when the buffer has at least n * n elements. */
  lemma FirstPivotExists(size: nat, n: nat)
    requires n > 0
    ensures size / n / n >= 1 <==> size >= n * n
  {
    var q := size / n;
    AtLeastTimes(q, n, 1);
    AtLeastTimes(size, n, n);
  }

  // ---------------------------------------------------------------- where to cut the runs

  /** Nothing before mid is greater than the pivot, and nothing from mid on is less. */
  ghost predicate SplitAt<T>(less: (T, T) -> bool, buf: seq<T>, lo: nat, mid: nat, hi: nat, pivot: T) {
    && lo <= mid <= hi <= |buf|
    && (forall k :: lo <= k < mid ==> !less(pivot, buf[k]))
    && (forall k :: mid <= k < hi ==> !less(buf[k], pivot))
  }

  /** The cuts of one run, at these pivots. */
  ghost predicate RowOk<T>(less: (T, T) -> bool, buf: seq<T>, lo: nat, hi: nat, mf: seq<nat>, mt: seq<nat>, pivots: seq<nat>) {
    && Tiles(mf, mt, lo, hi) && |mf| == |pivots| && hi <= |buf|
    && (forall t :: 0 <= t < |pivots| - 1 ==> 1 <= pivots[t] <= |buf| && SplitAt(less, buf, lo, mt[t], hi, buf[pivots[t] - 1]))
  }

  ghost predicate Run<T>(less: (T, T) -> bool, buf: seq<T>, lo: nat, hi: nat) {
    lo <= hi <= |buf| && forall i, j :: lo <= i < j < hi ==> !less(buf[j], buf[i])
  }

  /** The cuts of the first run fall right behind the pivots. */
  lemma FirstRow<T(!new)>(less: (T, T) -> bool, buf: seq<T>, hi: nat, mf: seq<nat>, mt: seq<nat>)
    requires StrictWeak(less) && Run(less, buf, 0, hi) && Tiles(mf, mt, 0, hi)
    requires forall t :: 0 <= t < |mt| ==> mt[t] >= 1
    ensures RowOk(less, buf, 0, hi, mf, mt, mt)
  {
    hide StrictWeak, Run, SplitAt;
    RunInside(less, buf, 0, hi);
    forall t | 0 <= t < |mt| - 1 ensures 1 <= mt[t] <= hi && SplitAt(less, buf, 0, mt[t], hi, buf[mt[t] - 1]) {
      TilesRise(mf, mt, 0, hi, t, |mt| - 1);
      SplitBehind(less, buf, hi, mt[t]);
    }
  }

  lemma RunInside<T>(less: (T, T) -> bool, buf: seq<T>, lo: nat, hi: nat)
    requires Run(less, buf, lo, hi)
    ensures lo <= hi <= |buf|
  {
  }

  lemma SplitBehind<T(!new)>(less: (T, T) -> bool, buf: seq<T>, hi: nat, mid: nat)
    requires StrictWeak(less) && Run(less, buf, 0, hi) && 1 <= mid <= hi
    ensures SplitAt(less, buf, 0, mid, hi, buf[mid - 1])
  {
  }

  lemma {:induction false} TilesRise(mf: seq<nat>, mt: seq<nat>, lo: nat, hi: nat, t: nat, u: nat)
    requires Tiles(mf, mt, lo, hi) && t <= u < |mt|
    ensures mt[t] <= mt[u]
  {
    if t < u {
      TilesRise(mf, mt, lo, hi, t, u - 1);
    }
  }

  /** Everything up to mid is at most the pivot, and everything from mid on is greater. */
  ghost predicate FirstGreater<T>(less: (T, T) -> bool, buf: seq<T>, lo: nat, mid: nat, hi: nat, pivot: T) {
    && lo <= mid <= hi <= |buf|
    && forall k :: lo <= k < hi ==> (less(pivot, buf[k]) <==> mid <= k)
  }

  lemma CutsRise<T(!new)>(less: (T, T) -> bool, buf: seq<T>, lo: nat, hi: nat, m: nat, m': nat, p: T, p': T)
    requires StrictWeak(less) && !less(p', p)
    requires FirstGreater(less, buf, lo, m, hi, p) && FirstGreater(less, buf, lo, m', hi, p')
    ensures m <= m'
  {
    if m' < hi {
      assert less(p', buf[m']);
      assert less(p, buf[m']);
    }
  }

  lemma CutSplits<T(!new)>(less: (T, T) -> bool, buf: seq<T>, lo: nat, mid: nat, hi: nat, pivot: T)
    requires StrictWeak(less) && FirstGreater(less, buf, lo, mid, hi, pivot)
    ensures SplitAt(less, buf, lo, mid, hi, pivot)
  {
  }

  method FindCut<T(!new)>(less: (T, T) -> bool, buf: seq<T>, lo: nat, hi: nat, pivot: T) returns (mid: nat)
    requires StrictWeak(less) && Run(less, buf, lo, hi)
    ensures FirstGreater(less, buf, lo, mid, hi, pivot)
  {
    var part := buf[lo..hi];
    var pos := FindFirstGreaterThan(less, part, pivot);
    mid := pos + lo;
    assert forall k :: lo <= k < hi ==> buf[k] == part[k - lo];
  }

  /** The cuts of another run: merge_to[i] and merge_from[i] for i >= 1. */
  method CutRun<T(!new)>(less: (T, T) -> bool, buf: seq<T>, lo: nat, hi: nat, pivots: seq<nat>) returns (mf: seq<nat>, mt: seq<nat>)
    requires StrictWeak(less) && Run(less, buf, lo, hi) && |pivots| > 0
    requires forall t :: 0 <= t < |pivots| ==> 1 <= pivots[t] <= |buf|
    requires forall t, u :: 0 <= t < u < |pivots| ==> !less(buf[pivots[u] - 1], buf[pivots[t] - 1])
    ensures RowOk(less, buf, lo, hi, mf, mt, pivots)
  {
    hide StrictWeak, FirstGreater, SplitAt;
    mt := [];
    var n := |pivots|;
    for t := 0 to n - 1
      invariant |mt| == t
      invariant forall i :: 0 <= i < t ==> FirstGreater(less, buf, lo, mt[i], hi, buf[pivots[i] - 1])
    {
      var mid := FindCut(less, buf, lo, hi, buf[pivots[t] - 1]);
      mt := mt + [mid];
    }
    forall i | 0 <= i < n - 1 ensures lo <= mt[i] <= hi && SplitAt(less, buf, lo, mt[i], hi, buf[pivots[i] - 1]) {
      CutSplits(less, buf, lo, mt[i], hi, buf[pivots[i] - 1]);
      SplitInside(less, buf, lo, mt[i], hi, buf[pivots[i] - 1]);
    }
    forall i | 0 < i < n - 1 ensures mt[i - 1] <= mt[i] {
      CutsRise(less, buf, lo, hi, mt[i - 1], mt[i], buf[pivots[i - 1] - 1], buf[pivots[i] - 1]);
    }
    mt := mt + [hi];
    mf := [lo];
    for t := 1 to n
      invariant |mf| == t && mf[0] == lo
      invariant forall i :: 0 < i < t ==> mf[i] == mt[i - 1]
    {
      mf := mf + [mt[t - 1]];
    }
  }

  lemma SplitInside<T>(less: (T, T) -> bool, buf: seq<T>, lo: nat, mid: nat, hi: nat, pivot: T)
    requires SplitAt(less, buf, lo, mid, hi, pivot)
    ensures lo <= mid <= hi <= |buf|
  {
  }

  // ---------------------------------------------------------------- the plan of the merge

  /** merge_from and merge_to: a row for each run, and in it a range for each thread. */
  ghost predicate PlanOk<T>(less: (T, T) -> bool, buf: seq<T>, starts: seq<nat>, ends: seq<nat>, mf: seq<seq<nat>>, mt: seq<seq<nat>>) {
    && |mf| == |mt| == |starts| == |ends| > 0
    && |mt[0]| == |starts|
    && forall i :: 0 <= i < |starts| ==> RowOk(less, buf, starts[i], ends[i], mf[i], mt[i], mt[0])
  }

  /** The rows of the first n runs. */
  ghost predicate RowsOk<T>(less: (T, T) -> bool, buf: seq<T>, starts: seq<nat>, ends: seq<nat>, mf: seq<seq<nat>>, mt: seq<seq<nat>>,
                            pivots: seq<nat>, n: nat)
    requires n <= |starts| == |ends|
  {
    |mf| == |mt| == n && forall i :: 0 <= i < n ==> RowOk(less, buf, starts[i], ends[i], mf[i], mt[i], pivots)
  }

  lemma FirstRowOk<T>(less: (T, T) -> bool, buf: seq<T>, starts: seq<nat>, ends: seq<nat>, mf: seq<nat>, mt: seq<nat>)
    requires |starts| == |ends| > 0 && RowOk(less, buf, starts[0], ends[0], mf, mt, mt)
    ensures RowsOk(less, buf, starts, ends, [mf], [mt], mt, 1)
  {
  }

  lemma RowsMore<T>(less: (T, T) -> bool, buf: seq<T>, starts: seq<nat>, ends: seq<nat>, mf: seq<seq<nat>>, mt: seq<seq<nat>>,
                    pivots: seq<nat>, n: nat, f: seq<nat>, t: seq<nat>)
    requires n < |starts| == |ends| && RowsOk(less, buf, starts, ends, mf, mt, pivots, n)
    requires RowOk(less, buf, starts[n], ends[n], f, t, pivots)
    ensures RowsOk(less, buf, starts, ends, mf + [f], mt + [t], pivots, n + 1)
  {
    hide RowOk;
    forall i | 0 <= i < n ensures (mf + [f])[i] == mf[i] && (mt + [t])[i] == mt[i] { }
  }

  lemma FirstRowTiles(mf: seq<nat>, mt: seq<nat>, hi: nat)
    requires Tiles(mf, mt, 0, hi)
    ensures |mf| == |mt| > 0
  {
  }

  lemma PlanOfRows<T>(less: (T, T) -> bool, buf: seq<T>, starts: seq<nat>, ends: seq<nat>, mf: seq<seq<nat>>, mt: seq<seq<nat>>)
    requires |starts| == |ends| > 0 && mt != [] && |mt[0]| == |starts| && RowsOk(less, buf, starts, ends, mf, mt, mt[0], |starts|)
    ensures PlanOk(less, buf, starts, ends, mf, mt)
  {
  }

  method PlanMerge<T(!new)>(less: (T, T) -> bool, buf: seq<T>, starts: seq<nat>, ends: seq<nat>) returns (mf: seq<seq<nat>>, mt: seq<seq<nat>>)
    requires StrictWeak(less) && |starts| == |ends| > 0 && starts[0] == 0
    requires forall i :: 0 <= i < |starts| ==> Run(less, buf, starts[i], ends[i])
    requires ends[0] >= |starts|
    ensures PlanOk(less, buf, starts, ends, mf, mt)
  {
    hide StrictWeak, Run, RowOk, RowsOk, Tiles;
    var n := |starts|;
    var mf0, mt0 := Divide(ends[0], n);
    FirstRowTiles(mf0, mt0, ends[0]);
    FirstRow(less, buf, ends[0], mf0, mt0);
    PivotsRise(less, buf, ends[0], mf0, mt0);
    mf, mt := [mf0], [mt0];
    FirstRowOk(less, buf, starts, ends, mf0, mt0);
    for i := 1 to n
      invariant mt != [] && mt[0] == mt0 && RowsOk(less, buf, starts, ends, mf, mt, mt0, i)
    {
      var f, t := CutRun(less, buf, starts[i], ends[i], mt0);
      RowsMore(less, buf, starts, ends, mf, mt, mt0, i, f, t);
      mf, mt := mf + [f], mt + [t];
    }
    PlanOfRows(less, buf, starts, ends, mf, mt);
  }

  lemma PivotsRise<T(!new)>(less: (T, T) -> bool, buf: seq<T>, hi: nat, mf: seq<nat>, mt: seq<nat>)
    requires Run(less, buf, 0, hi) && Tiles(mf, mt, 0, hi) && StrictWeak(less)
    requires forall t :: 0 <= t < |mt| ==> mt[t] >= 1
    ensures forall t :: 0 <= t < |mt| ==> 1 <= mt[t] <= |buf|
    ensures forall t, u :: 0 <= t < u < |mt| ==> !less(buf[mt[u] - 1], buf[mt[t] - 1])
  {
    hide StrictWeak, Run, Tiles;
    forall t, u | 0 <= t < |mt| && t <= u < |mt| ensures 1 <= mt[t] <= |buf| && mt[u] <= |buf| && !less(buf[mt[u] - 1], buf[mt[t] - 1]) {
      PivotsInOrder(less, buf, hi, mf, mt, t, u);
    }
  }

  lemma PivotsInOrder<T(!new)>(less: (T, T) -> bool, buf: seq<T>, hi: nat, mf: seq<nat>, mt: seq<nat>, t: nat, u: nat)
    requires Run(less, buf, 0, hi) && Tiles(mf, mt, 0, hi) && StrictWeak(less) && t <= u < |mt| && mt[t] >= 1
    ensures 1 <= mt[t] <= mt[u] <= |buf| && !less(buf[mt[u] - 1], buf[mt[t] - 1])
  {
    TilesRise(mf, mt, 0, hi, t, u);
    TilesRise(mf, mt, 0, hi, u, |mt| - 1);
  }

  /** What is between these positions of each run. */
  ghost function Between<T>(buf: seq<T>, los: seq<nat>, his: seq<nat>): (cs: seq<Cursor<T>>)
    requires |los| == |his|
    ensures |cs| == |los| && forall i :: 0 <= i < |los| ==> cs[i] == Cursor(buf, los[i], his[i])
  {
    seq(|los|, i requires 0 <= i < |los| => Cursor(buf, los[i], his[i]))
  }

  predicate Wide(rows: seq<seq<nat>>, n: nat) {
    forall i :: 0 <= i < |rows| ==> |rows[i]| == n
  }

  function Column(rows: seq<seq<nat>>, n: nat, t: nat): (c: seq<nat>)
    requires Wide(rows, n) && t < n
    ensures |c| == |rows| && forall i :: 0 <= i < |rows| ==> c[i] == rows[i][t]
  {
    seq(|rows|, i requires 0 <= i < |rows| => rows[i][t])
  }

  lemma PlanIsWide<T>(less: (T, T) -> bool, buf: seq<T>, starts: seq<nat>, ends: seq<nat>, mf: seq<seq<nat>>, mt: seq<seq<nat>>)
    requires PlanOk(less, buf, starts, ends, mf, mt)
    ensures |mf| == |mt| == |starts| == |ends| > 0 && Wide(mf, |starts|) && Wide(mt, |starts|)
  {
  }

  /** How far the parts of the first t threads go in each run. */
  ghost function Cut(ends: seq<nat>, mf: seq<seq<nat>>, t: nat): (c: seq<nat>)
    requires |mf| == |ends| && Wide(mf, |ends|) && t <= |ends|
    ensures |c| == |ends|
  {
    if t == |ends| then ends else Column(mf, |ends|, t)
  }

  lemma RowInside<T>(less: (T, T) -> bool, buf: seq<T>, lo: nat, hi: nat, mf: seq<nat>, mt: seq<nat>, pivots: seq<nat>, t: nat)
    requires RowOk(less, buf, lo, hi, mf, mt, pivots) && t < |pivots|
    ensures |mf| == |mt| == |pivots| && mf[0] == lo && lo <= mf[t] <= mt[t] <= hi <= |buf|
    ensures mt[t] == if t + 1 < |mf| then mf[t + 1] else hi
  {
    TilesRise(mf, mt, lo, hi, t, |mt| - 1);
    if t > 0 {
      TilesRise(mf, mt, lo, hi, 0, t - 1);
    }
  }

  /** The part of thread t goes from one cut to the next. */
  lemma PartOf<T>(less: (T, T) -> bool, buf: seq<T>, starts: seq<nat>, ends: seq<nat>, mf: seq<seq<nat>>, mt: seq<seq<nat>>, t: nat)
    requires PlanOk(less, buf, starts, ends, mf, mt) && Wide(mf, |starts|) && Wide(mt, |starts|) && t < |starts|
    ensures Cut(ends, mf, 0) == starts
    ensures Cut(ends, mf, t) == Column(mf, |starts|, t) && Cut(ends, mf, t + 1) == Column(mt, |starts|, t)
    ensures forall i :: 0 <= i < |starts| ==> starts[i] <= mf[i][t] <= mt[i][t] <= ends[i] <= |buf|
  {
    hide RowOk;
    forall i | 0 <= i < |starts|
      ensures starts[i] == mf[i][0] && starts[i] <= mf[i][t] <= mt[i][t] <= ends[i] <= |buf|
      ensures mt[i][t] == if t + 1 < |mf[i]| then mf[i][t + 1] else ends[i]
    {
      RowInside(less, buf, starts[i], ends[i], mf[i], mt[i], mt[0], t);
    }
  }

  /** Nothing in a later part comes before anything in an earlier part. */
  lemma PartsInOrder<T(!new)>(less: (T, T) -> bool, buf: seq<T>, starts: seq<nat>, ends: seq<nat>, mf: seq<seq<nat>>, mt: seq<seq<nat>>, t: nat, x: T, y: T)
    requires StrictWeak(less) && PlanOk(less, buf, starts, ends, mf, mt) && Wide(mf, |starts|) && Wide(mt, |starts|) && t <= |starts|
    requires AllOk(Between(buf, starts, Cut(ends, mf, t))) && AllOk(Between(buf, Cut(ends, mf, t), ends))
    requires x in Left(Between(buf, starts, Cut(ends, mf, t))) && y in Left(Between(buf, Cut(ends, mf, t), ends))
    ensures !less(y, x)
  {
    hide StrictWeak, PlanOk, Left;
    CutEnds(less, buf, starts, ends, mf, mt);
    if t == 0 {
      LeftNothing(Between(buf, starts, starts));
    } else if t == |starts| {
      LeftNothing(Between(buf, ends, ends));
    } else {
      var pivot := AroundPivot(less, buf, starts, ends, mf, mt, t, x, y);
      Through(less, x, pivot, y);
    }
  }

  lemma AroundPivot<T(!new)>(less: (T, T) -> bool, buf: seq<T>, starts: seq<nat>, ends: seq<nat>, mf: seq<seq<nat>>, mt: seq<seq<nat>>, t: nat, x: T, y: T)
    returns (pivot: T)
    requires PlanOk(less, buf, starts, ends, mf, mt) && Wide(mf, |starts|) && 0 < t < |starts|
    requires AllOk(Between(buf, starts, Cut(ends, mf, t))) && AllOk(Between(buf, Cut(ends, mf, t), ends))
    requires x in Left(Between(buf, starts, Cut(ends, mf, t))) && y in Left(Between(buf, Cut(ends, mf, t), ends))
    ensures !less(pivot, x) && !less(y, pivot)
  {
    hide RowOk, Left, AllOk;
    var i, k := FoundIn(buf, starts, Cut(ends, mf, t), x);
    var j, l := FoundIn(buf, Cut(ends, mf, t), ends, y);
    RowSplits(less, buf, starts[i], ends[i], mf[i], mt[i], mt[0], t - 1);
    RowSplits(less, buf, starts[j], ends[j], mf[j], mt[j], mt[0], t - 1);
    pivot := buf[mt[0][t - 1] - 1];
  }

  lemma FoundIn<T>(buf: seq<T>, los: seq<nat>, his: seq<nat>, x: T) returns (i: nat, k: nat)
    requires |los| == |his| && AllOk(Between(buf, los, his)) && x in Left(Between(buf, los, his))
    ensures i < |los| && los[i] <= k < his[i] && k < |buf| && buf[k] == x
  {
    hide Left;
    InLeft(Between(buf, los, his), x);
    i, k :| 0 <= i < |los| && los[i] <= k < his[i] && k < |buf| && buf[k] == x;
  }

  lemma RowSplits<T>(less: (T, T) -> bool, buf: seq<T>, lo: nat, hi: nat, mf: seq<nat>, mt: seq<nat>, pivots: seq<nat>, t: nat)
    requires RowOk(less, buf, lo, hi, mf, mt, pivots) && t + 1 < |pivots|
    ensures |mf| == |mt| == |pivots| && mt[t] == mf[t + 1] && 1 <= pivots[t] <= |buf|
    ensures SplitAt(less, buf, lo, mf[t + 1], hi, buf[pivots[t] - 1])
  {
  }

  lemma Through<T(!new)>(less: (T, T) -> bool, x: T, pivot: T, y: T)
    requires StrictWeak(less) && !less(pivot, x) && !less(y, pivot)
    ensures !less(y, x)
  {
  }

  // ---------------------------------------------------------------- the merge

  /** The inner loop of a thread: which run to take from next. */
  method PickLeast<T(!new)>(less: (T, T) -> bool, buf: seq<T>, index: seq<nat>, end: seq<nat>) returns (tx: nat)
    requires StrictWeak(less) && |index| == |end| && AllOk(Between(buf, index, end))
    requires exists i :: 0 <= i < |index| && index[i] < end[i]
    ensures LeastHead(less, Between(buf, index, end), tx)
  {
    assert forall i :: 0 <= i < |index| ==> Between(buf, index, end)[i].Ok();
    var found := false;
    tx := 0;
    for i := 0 to |index|
      invariant found ==> tx < i && index[tx] < end[tx]
      invariant forall k :: 0 <= k < i && index[k] < end[k] ==> found && !less(buf[index[k]], buf[index[tx]])
    {
      if index[i] < end[i] {
        if !found || less(buf[index[i]], buf[index[tx]]) {
          found, tx := true, i;
        }
      }
    }
  }

  lemma {:induction false} SomethingLeft<T>(cs: seq<Cursor<T>>)
    requires AllOk(cs) && |Left(cs)| > 0
    ensures exists k :: 0 <= k < |cs| && cs[k].lo < cs[k].hi
  {
    if forall k :: 0 <= k < |cs| ==> cs[k].lo == cs[k].hi {
      LeftNothing(cs);
    }
  }

  /** One thread: it merges its part into r[begin..stop] and touches nothing else. */
  method MergeThread<T(!new)>(less: (T, T) -> bool, buf: seq<T>, start: seq<nat>, end: seq<nat>, r: array<T>, begin: nat, stop: nat)
    requires StrictWeak(less) && |start| == |end| && AllOk(Between(buf, start, end)) && SortedRuns(less, Between(buf, start, end))
    requires begin <= stop <= r.Length && stop - begin == |Left(Between(buf, start, end))|
    modifies r
    ensures Sorted(less, r[begin..stop]) && multiset(r[begin..stop]) == Left(Between(buf, start, end))
    ensures forall k :: 0 <= k < begin || stop <= k < r.Length ==> r[k] == old(r[k])
  {
    hide StrictWeak, Sorted, Left, SortedRuns, LeastHead, Midway;
    ghost var all := Left(Between(buf, start, end));
    var index := start;
    StartMidway(less, Between(buf, start, end));
    assert r[begin..begin] == [];
    for w := begin to stop
      invariant |index| == |end| && Midway(less, r[begin..w], Between(buf, index, end), all)
      invariant forall k :: 0 <= k < begin || stop <= k < r.Length ==> r[k] == old(r[k])
    {
      ghost var cs := Between(buf, index, end);
      MidwaySize(less, r[begin..w], cs, all);
      SomethingLeft(cs);
      var tx := PickLeast(less, buf, index, end);
      TakeLeast(less, r[begin..w], cs, tx, all);
      var v := Head(less, cs, tx);
      ghost var before := r[begin..w];
      r[w] := buf[index[tx]];
      index := index[tx := index[tx] + 1];
      assert r[begin..w + 1] == before + [v];
      assert Between(buf, index, end) == cs[tx := cs[tx].Advance()];
    }
    MidwaySize(less, r[begin..stop], Between(buf, index, end), all);
    MidwayEnd(less, r[begin..stop], Between(buf, index, end), all);
  }

  lemma MidwaySize<T(!new)>(less: (T, T) -> bool, output: seq<T>, cs: seq<Cursor<T>>, all: multiset<T>)
    requires Midway(less, output, cs, all)
    ensures AllOk(cs) && |output| + |Left(cs)| == |all|
  {
    assert |multiset(output) + Left(cs)| == |output| + |Left(cs)|;
  }

  lemma MidwayEnd<T(!new)>(less: (T, T) -> bool, output: seq<T>, cs: seq<Cursor<T>>, all: multiset<T>)
    requires Midway(less, output, cs, all) && |Left(cs)| == 0
    ensures Sorted(less, output) && multiset(output) == all
  {
    assert Left(cs) == multiset{};
  }

  /** The part of thread t is sorted run by run, and adds to what the threads before it have. */
  lemma PartFacts<T(!new)>(less: (T, T) -> bool, buf: seq<T>, starts: seq<nat>, ends: seq<nat>, mf: seq<seq<nat>>, mt: seq<seq<nat>>, t: nat)
    requires PlanOk(less, buf, starts, ends, mf, mt) && Wide(mf, |starts|) && Wide(mt, |starts|) && t < |starts|
    requires forall i :: 0 <= i < |starts| ==> Run(less, buf, starts[i], ends[i])
    ensures var part := Between(buf, Column(mf, |starts|, t), Column(mt, |starts|, t));
            var before, after := Between(buf, starts, Cut(ends, mf, t)), Between(buf, starts, Cut(ends, mf, t + 1));
            && AllOk(part) && SortedRuns(less, part) && AllOk(before) && AllOk(after)
            && Left(after) == Left(before) + Left(part)
            && AllOk(Between(buf, Cut(ends, mf, t), ends)) && Left(part) <= Left(Between(buf, Cut(ends, mf, t), ends))
            && AllOk(Between(buf, starts, ends)) && |Left(after)| <= |Left(Between(buf, starts, ends))|
            && |Left(after)| == |Left(before)| + |Left(part)|
  {
    hide PlanOk, Left, SortedRuns, Run, AllOk;
    PartOf(less, buf, starts, ends, mf, mt, t);
    var lo, hi := Column(mf, |starts|, t), Column(mt, |starts|, t);
    SplitRanges(buf, starts, lo, hi);
    SplitRanges(buf, lo, hi, ends);
    SplitRanges(buf, starts, hi, ends);
    PartSorted(less, buf, starts, ends, lo, hi);
  }

  lemma SplitRanges<T>(buf: seq<T>, a: seq<nat>, b: seq<nat>, c: seq<nat>)
    requires |a| == |b| == |c| && forall i :: 0 <= i < |a| ==> a[i] <= b[i] <= c[i] <= |buf|
    ensures AllOk(Between(buf, a, b)) && AllOk(Between(buf, b, c)) && AllOk(Between(buf, a, c))
    ensures Left(Between(buf, a, c)) == Left(Between(buf, a, b)) + Left(Between(buf, b, c))
    ensures |Left(Between(buf, a, c))| == |Left(Between(buf, a, b))| + |Left(Between(buf, b, c))|
  {
    hide Left;
    LeftSplit(Between(buf, a, b), Between(buf, b, c), Between(buf, a, c));
    CountSum(Left(Between(buf, a, b)), Left(Between(buf, b, c)));
  }

  lemma PartSorted<T>(less: (T, T) -> bool, buf: seq<T>, starts: seq<nat>, ends: seq<nat>, lo: seq<nat>, hi: seq<nat>)
    requires |starts| == |ends| == |lo| == |hi|
    requires forall i :: 0 <= i < |starts| ==> Run(less, buf, starts[i], ends[i])
    requires forall i :: 0 <= i < |starts| ==> starts[i] <= lo[i] <= hi[i] <= ends[i] <= |buf|
    ensures AllOk(Between(buf, lo, hi)) && SortedRuns(less, Between(buf, lo, hi))
  {
    var cs := Between(buf, lo, hi);
    forall k, i, j | 0 <= k < |cs| && cs[k].lo <= i < j < cs[k].hi ensures !less(cs[k].data[j], cs[k].data[i]) {
      assert Run(less, buf, starts[k], ends[k]);
    }
  }

  lemma CountSum<T>(a: multiset<T>, b: multiset<T>)
    ensures |a + b| == |a| + |b|
  {
  }

  lemma WholeBuffer<T>(buf: seq<T>, starts: seq<nat>, ends: seq<nat>)
    requires Tiles(starts, ends, 0, |buf|)
    requires forall i :: 0 <= i < |ends| ==> ends[i] <= |buf|
    ensures AllOk(Between(buf, starts, ends)) && Left(Between(buf, starts, ends)) == multiset(buf)
    ensures AllOk(Between(buf, starts, starts)) && Left(Between(buf, starts, starts)) == multiset{}
  {
    hide Left;
    LeftTiled(buf, Between(buf, starts, ends));
    assert buf[..|buf|] == buf;
    LeftNothing(Between(buf, starts, starts));
  }

  /** How many elements thread t merges. */
  method PartSize<T>(buf: seq<T>, lo: seq<nat>, hi: seq<nat>) returns (x: nat)
    requires |lo| == |hi| && AllOk(Between(buf, lo, hi))
    ensures x == |Left(Between(buf, lo, hi))|
  {
    x := 0;
    ghost var cs := Between(buf, lo, hi);
    for i := 0 to |lo|
      invariant x == |Left(cs[..i])|
    {
      assert cs[i].Ok();
      assert cs[..i + 1][..i] == cs[..i] && cs[..i + 1][i] == cs[i];
      x := x + (hi[i] - lo[i]);
    }
    assert cs[..|lo|] == cs;
  }

  /** write_index: where each thread writes. The last one is the size of the buffer. */
  method WriteIndex<T(!new)>(less: (T, T) -> bool, buf: seq<T>, starts: seq<nat>, ends: seq<nat>, mf: seq<seq<nat>>, mt: seq<seq<nat>>) returns (w: seq<nat>)
    requires PlanOk(less, buf, starts, ends, mf, mt) && Wide(mf, |starts|) && Wide(mt, |starts|)
    requires forall i :: 0 <= i < |starts| ==> Run(less, buf, starts[i], ends[i])
    requires Tiles(starts, ends, 0, |buf|)
    ensures |w| == |starts| + 1 && w[|starts|] == |buf|
    ensures forall t :: 0 <= t <= |starts| ==> AllOk(Between(buf, starts, Cut(ends, mf, t))) && w[t] == |Left(Between(buf, starts, Cut(ends, mf, t)))|
  {
    hide PlanOk, Left, Tiles, Run, Cut, Column;
    PlanIsWide(less, buf, starts, ends, mf, mt);
    EndsInside(less, buf, starts, ends);
    WholeBuffer(buf, starts, ends);
    CutEnds(less, buf, starts, ends, mf, mt);
    w := [0];
    for t := 0 to |starts|
      invariant |w| == t + 1
      invariant forall s :: 0 <= s <= t ==> AllOk(Between(buf, starts, Cut(ends, mf, s))) && w[s] == |Left(Between(buf, starts, Cut(ends, mf, s)))|
    {
      PartFacts(less, buf, starts, ends, mf, mt, t);
      var x := PartSize(buf, Column(mf, |starts|, t), Column(mt, |starts|, t));
      w := w + [w[t] + x];
    }
    assert |multiset(buf)| == |buf|;
  }

  lemma EndsInside<T>(less: (T, T) -> bool, buf: seq<T>, starts: seq<nat>, ends: seq<nat>)
    requires |starts| == |ends| && forall i :: 0 <= i < |starts| ==> Run(less, buf, starts[i], ends[i])
    ensures forall i :: 0 <= i < |ends| ==> starts[i] <= ends[i] <= |buf|
  {
  }

  lemma CutEnds<T>(less: (T, T) -> bool, buf: seq<T>, starts: seq<nat>, ends: seq<nat>, mf: seq<seq<nat>>, mt: seq<seq<nat>>)
    requires PlanOk(less, buf, starts, ends, mf, mt) && Wide(mf, |starts|) && Wide(mt, |starts|)
    ensures Cut(ends, mf, 0) == starts && Cut(ends, mf, |starts|) == ends
  {
    PartOf(less, buf, starts, ends, mf, mt, 0);
  }

  lemma TilesBegin(starts: seq<nat>, ends: seq<nat>, lo: nat, hi: nat)
    requires Tiles(starts, ends, lo, hi)
    ensures |starts| == |ends| > 0 && starts[0] == lo
  {
  }

  /** What thread t writes goes behind what the threads before it have written. */
  lemma Append<T(!new)>(less: (T, T) -> bool, buf: seq<T>, starts: seq<nat>, ends: seq<nat>, mf: seq<seq<nat>>, mt: seq<seq<nat>>, t: nat,
                        written: seq<T>, piece: seq<T>)
    requires StrictWeak(less) && PlanOk(less, buf, starts, ends, mf, mt) && Wide(mf, |starts|) && Wide(mt, |starts|) && t < |starts|
    requires forall i :: 0 <= i < |starts| ==> Run(less, buf, starts[i], ends[i])
    requires var part := Between(buf, Column(mf, |starts|, t), Column(mt, |starts|, t));
             var before := Between(buf, starts, Cut(ends, mf, t));
             && AllOk(part) && AllOk(before)
             && Sorted(less, written) && multiset(written) == Left(before)
             && Sorted(less, piece) && multiset(piece) == Left(part)
    ensures Sorted(less, written + piece)
    ensures AllOk(Between(buf, starts, Cut(ends, mf, t + 1))) && multiset(written + piece) == Left(Between(buf, starts, Cut(ends, mf, t + 1)))
  {
    hide StrictWeak, PlanOk, Left, Run, Cut, Column;
    PartFacts(less, buf, starts, ends, mf, mt, t);
    forall x, y | x in written && y in piece ensures !less(y, x) {
      assert x in multiset(written) && y in multiset(piece);
      PartsInOrder(less, buf, starts, ends, mf, mt, t, x, y);
    }
    forall i, j | 0 <= i < j < |written + piece| ensures !less((written + piece)[j], (written + piece)[i]) {
      if i < |written| <= j {
        assert written[i] in written && piece[j - |written|] in piece;
      }
    }
  }

  /** The first t threads have written what their parts hold, in order. */
  ghost predicate Written<T(!new)>(less: (T, T) -> bool, buf: seq<T>, starts: seq<nat>, ends: seq<nat>, mf: seq<seq<nat>>, t: nat, written: seq<T>)
    requires |starts| == |ends| == |mf| && Wide(mf, |ends|) && t <= |ends|
  {
    var before := Between(buf, starts, Cut(ends, mf, t));
    AllOk(before) && Sorted(less, written) && multiset(written) == Left(before)
  }

  /** Thread t writes behind them. */
  method MergePart<T(!new)>(less: (T, T) -> bool, buf: seq<T>, starts: seq<nat>, ends: seq<nat>, mf: seq<seq<nat>>, mt: seq<seq<nat>>, t: nat,
                            r: array<T>, begin: nat, stop: nat)
    requires StrictWeak(less) && PlanOk(less, buf, starts, ends, mf, mt) && Wide(mf, |starts|) && Wide(mt, |starts|) && t < |starts|
    requires |starts| == |ends| == |mf| && forall i :: 0 <= i < |starts| ==> Run(less, buf, starts[i], ends[i])
    requires begin <= r.Length && Written(less, buf, starts, ends, mf, t, r[..begin])
    requires stop <= r.Length && AllOk(Between(buf, starts, Cut(ends, mf, t + 1))) && stop == |Left(Between(buf, starts, Cut(ends, mf, t + 1)))|
    modifies r
    ensures Written(less, buf, starts, ends, mf, t + 1, r[..stop])
  {
    hide StrictWeak, PlanOk, Left, Run, Cut, Column, Sorted, SortedRuns;
    PlanIsWide(less, buf, starts, ends, mf, mt);
    PartFacts(less, buf, starts, ends, mf, mt, t);
    var lo, hi := Column(mf, |starts|, t), Column(mt, |starts|, t);
    ghost var written := r[..begin];
    assert |multiset(written)| == begin;
    MergeThread(less, buf, lo, hi, r, begin, stop);
    assert r[..begin] == written;
    assert r[..stop] == written + r[begin..stop];
    Append(less, buf, starts, ends, mf, mt, t, written, r[begin..stop]);
  }

  lemma NothingWritten<T(!new)>(less: (T, T) -> bool, buf: seq<T>, starts: seq<nat>, ends: seq<nat>, mf: seq<seq<nat>>, mt: seq<seq<nat>>)
    requires PlanOk(less, buf, starts, ends, mf, mt) && Wide(mf, |starts|) && Wide(mt, |starts|)
    requires |starts| == |ends| == |mf| && forall i :: 0 <= i < |starts| ==> starts[i] <= ends[i] <= |buf|
    ensures Written(less, buf, starts, ends, mf, 0, [])
  {
    hide PlanOk, Left;
    CutEnds(less, buf, starts, ends, mf, mt);
    LeftNothing(Between(buf, starts, starts));
  }

  lemma AllWritten<T(!new)>(less: (T, T) -> bool, buf: seq<T>, starts: seq<nat>, ends: seq<nat>, mf: seq<seq<nat>>, mt: seq<seq<nat>>, written: seq<T>)
    requires PlanOk(less, buf, starts, ends, mf, mt) && Wide(mf, |starts|) && Wide(mt, |starts|)
    requires |starts| == |ends| == |mf| && Tiles(starts, ends, 0, |buf|) && forall i :: 0 <= i < |ends| ==> ends[i] <= |buf|
    requires Written(less, buf, starts, ends, mf, |starts|, written)
    ensures Sorted(less, written) && multiset(written) == multiset(buf)
  {
    hide PlanOk, Left, Sorted, Tiles;
    CutEnds(less, buf, starts, ends, mf, mt);
    WholeBuffer(buf, starts, ends);
  }

  /** The parallel merge, thread by thread: since the threads write disjoint ranges, their order does
      not matter. */
  method Merge<T(!new, 0)>(less: (T, T) -> bool, buf: seq<T>, starts: seq<nat>, ends: seq<nat>) returns (r: array<T>)
    requires StrictWeak(less) && |starts| == |ends| > 0 && Tiles(starts, ends, 0, |buf|)
    requires forall i :: 0 <= i < |starts| ==> Run(less, buf, starts[i], ends[i])
    requires ends[0] >= |starts|
    ensures fresh(r) && r.Length == |buf|
    ensures Sorted(less, r[..]) && multiset(r[..]) == multiset(buf)
  {
    hide StrictWeak, PlanOk, Left, Tiles, Run, Cut, Sorted, Written;
    TilesBegin(starts, ends, 0, |buf|);
    EndsInside(less, buf, starts, ends);
    var n := |starts|;
    var mf, mt := PlanMerge(less, buf, starts, ends);
    PlanIsWide(less, buf, starts, ends, mf, mt);
    var w := WriteIndex(less, buf, starts, ends, mf, mt);
    r := new T[|buf|];
    NothingWritten(less, buf, starts, ends, mf, mt);
    WriteIndexBegins(less, buf, starts, ends, mf, mt);
    assert r[..0] == [];
    for t := 0 to n
      invariant w[t] <= r.Length && Written(less, buf, starts, ends, mf, t, r[..w[t]])
    {
      PartEnds(less, buf, starts, ends, mf, mt, t);
      MergePart(less, buf, starts, ends, mf, mt, t, r, w[t], w[t + 1]);
    }
    assert r[..w[n]] == r[..];
    AllWritten(less, buf, starts, ends, mf, mt, r[..]);
  }

  lemma WriteIndexBegins<T(!new)>(less: (T, T) -> bool, buf: seq<T>, starts: seq<nat>, ends: seq<nat>, mf: seq<seq<nat>>, mt: seq<seq<nat>>)
    requires PlanOk(less, buf, starts, ends, mf, mt) && Wide(mf, |starts|) && Wide(mt, |starts|)
    requires |starts| == |ends| == |mf| && forall i :: 0 <= i < |starts| ==> starts[i] <= ends[i] <= |buf|
    ensures AllOk(Between(buf, starts, Cut(ends, mf, 0))) && |Left(Between(buf, starts, Cut(ends, mf, 0)))| == 0
  {
    hide PlanOk, Left;
    CutEnds(less, buf, starts, ends, mf, mt);
    LeftNothing(Between(buf, starts, starts));
  }

  lemma PartEnds<T(!new)>(less: (T, T) -> bool, buf: seq<T>, starts: seq<nat>, ends: seq<nat>, mf: seq<seq<nat>>, mt: seq<seq<nat>>, t: nat)
    requires PlanOk(less, buf, starts, ends, mf, mt) && Wide(mf, |starts|) && Wide(mt, |starts|) && t < |starts|
    requires forall i :: 0 <= i < |starts| ==> Run(less, buf, starts[i], ends[i])
    requires Tiles(starts, ends, 0, |buf|)
    ensures |starts| == |ends| == |mf| && AllOk(Between(buf, starts, Cut(ends, mf, t + 1)))
    ensures |Left(Between(buf, starts, Cut(ends, mf, t + 1)))| <= |buf|
  {
    hide PlanOk, Left, Run, Tiles, Cut, Column;
    PlanIsWide(less, buf, starts, ends, mf, mt);
    PartFacts(less, buf, starts, ends, mf, mt, t);
    EndsInside(less, buf, starts, ends);
    WholeBuffer(buf, starts, ends);
    assert |multiset(buf)| == |buf|;
  }
}
