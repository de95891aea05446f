/** make_reverse_edges (llama/include/llama/ll_mlcsr_graph.h) over the single-level CSR of
    llama/include/llama/ll_slcsr.h: a counting pass, a vertex table from the counts, and a writing
    pass. */
module ReverseEdges {
  import opened Graph
  import opened Sequences
  import opened Slcsr
  import Sets

  // ---------------------------------------------------------------- the order of a parallel pass

  /** An order in which the threads of a parallel pass get to the edges: every edge once, with its
      source. */
  ghost predicate Schedule(g: Csr, order: seq<(nat, nat)>) {
    && |order| == |g.values|
    && (forall k :: 0 <= k < |order| ==> g.Owns(order[k].0, order[k].1) && order[k].1 < |g.values|)
    && (forall i, j :: 0 <= i < j < |order| ==> order[i].1 != order[j].1)
  }

  ghost predicate Seen(order: seq<(nat, nat)>, k: nat, e: nat)
    requires k <= |order|
  {
    exists i :: 0 <= i < k && order[i].1 == e
  }

  lemma AllSeen(g: Csr, order: seq<(nat, nat)>, e: nat)
    requires Schedule(g, order) && e < |g.values|
    ensures Seen(order, |order|, e)
  {
    var s := set i | 0 <= i < |order| :: order[i].1;
    SeenCount(order, |order|, s);
    Sets.SubsetSize(s, Sets.Upto(|g.values|));
    assert e in s;
  }

  lemma {:induction false} SeenCount(order: seq<(nat, nat)>, k: nat, s: set<nat>)
    requires k <= |order| && forall i, j :: 0 <= i < j < |order| ==> order[i].1 != order[j].1
    requires s == set i | 0 <= i < k :: order[i].1
    ensures |s| == k
  {
    if k == 0 {
      assert s == {};
    } else {
      var t := set i | 0 <= i < k - 1 :: order[i].1;
      SeenCount(order, k - 1, t);
      assert s == t + {order[k - 1].1};
    }
  }

  /** What the two nested loops do with one thread: node by node, edge by edge. */
  method SequentialOrder(g: Csr) returns (order: seq<(nat, nat)>)
    requires g.WellFormed()
    ensures Schedule(g, order)
  {
    order := [];
    for source := 0 to g.Nodes()
      invariant |order| == g.begin[source]
      invariant forall k :: 0 <= k < |order| ==> order[k].1 == k && g.Owns(order[k].0, k)
    {
      for e := g.begin[source] to g.begin[source + 1]
        invariant |order| == e
        invariant forall k :: 0 <= k < |order| ==> order[k].1 == k && g.Owns(order[k].0, k)
      {
        order := order + [(source, e)];
      }
    }
  }

  // ---------------------------------------------------------------- the counting pass

  /** The edges into each node, in the order in which the counting pass met them: loc says where. */
  ghost predicate Counted(g: Csr, a: seq<nat>, loc: seq<nat>, met: seq<seq<nat>>, order: seq<(nat, nat)>, k: nat) {
    && |a| == |met| == g.Nodes() && |loc| == |g.values| && k <= |order|
    && (forall t :: 0 <= t < |a| ==> a[t] == |met[t]|)
    && (forall t, x :: 0 <= t < |met| && 0 <= x < |met[t]| ==> Met(g, loc, met[t][x], t, x) && Seen(order, k, met[t][x]))
    && (forall e: nat :: e < |g.values| && Seen(order, k, e) ==> InPlace(g, loc, met, e))
    && Sum(a) == k
  }

  ghost predicate Met(g: Csr, loc: seq<nat>, e: nat, t: nat, x: nat) {
    e < |g.values| && e < |loc| && g.values[e] == t && loc[e] == x
  }

  ghost predicate InPlace(g: Csr, loc: seq<nat>, met: seq<seq<nat>>, e: nat)
    requires e < |g.values| && e < |loc|
  {
    g.values[e] < |met| && loc[e] < |met[g.values[e]]| && met[g.values[e]][loc[e]] == e
  }

  lemma CountOne(g: Csr, a: seq<nat>, loc: seq<nat>, met: seq<seq<nat>>, order: seq<(nat, nat)>, k: nat)
    requires g.WellFormed() && Schedule(g, order) && k < |order| && Counted(g, a, loc, met, order, k)
    ensures var e := order[k].1; var t := g.values[e];
            Counted(g, a[t := a[t] + 1], loc[e := a[t]], met[t := met[t] + [e]], order, k + 1)
  {
    var e := order[k].1;
    var t := g.values[e];
    SumUpdate(a, t, a[t] + 1);
    assert !Seen(order, k, e);
    forall d: nat ensures Seen(order, k + 1, d) <==> Seen(order, k, d) || d == e {
      assert order[k].1 == e;
    }
    var loc', met' := loc[e := a[t]], met[t := met[t] + [e]];
    forall u, x | 0 <= u < |met'| && 0 <= x < |met'[u]| ensures Met(g, loc', met'[u][x], u, x) && Seen(order, k + 1, met'[u][x]) {
      if u == t && x == a[t] {
        assert met'[u][x] == e;
      } else {
        var d := met[u][x];
        assert met'[u][x] == d && Met(g, loc, d, u, x) && Seen(order, k, d);
      }
    }
    forall d: nat | d < |g.values| && Seen(order, k + 1, d) ensures InPlace(g, loc', met', d) {
      if d != e {
        assert InPlace(g, loc, met, d);
      }
    }
  }

  lemma NothingCounted(g: Csr, a: seq<nat>, loc: seq<nat>, met: seq<seq<nat>>, order: seq<(nat, nat)>)
    requires |a| == |met| == g.Nodes() && |loc| == |g.values|
    requires (forall t :: 0 <= t < |a| ==> a[t] == 0) && forall t :: 0 <= t < |met| ==> met[t] == []
    ensures Counted(g, a, loc, met, order, 0)
  {
    SumZero(a);
  }

  lemma InSchedule(g: Csr, order: seq<(nat, nat)>, k: nat)
    requires g.WellFormed() && Schedule(g, order) && k < |order|
    ensures |order| == |g.values| && g.Owns(order[k].0, order[k].1) && order[k].1 < |g.values|
    ensures order[k].0 < g.Nodes() && g.values[order[k].1] < g.Nodes() && g.Owner(order[k].1) == order[k].0
  {
    g.OwnerUnique(order[k].0, order[k].1);
  }

  method CountPass(g: Csr, order: seq<(nat, nat)>) returns (a: array<nat>, loc: array<nat>, ghost met: seq<seq<nat>>)
    requires g.WellFormed() && Schedule(g, order)
    ensures fresh(a) && fresh(loc) && Counted(g, a[..], loc[..], met, order, |order|)
  {
    hide Counted, Schedule, Csr.WellFormed;
    a := new nat[g.Nodes()](_ => 0);
    loc := new nat[|g.values|];
    met := seq(g.Nodes(), _ => []);
    NothingCounted(g, a[..], loc[..], met, order);
    for k := 0 to |order|
      invariant |met| == g.Nodes() && Counted(g, a[..], loc[..], met, order, k)
    {
      InSchedule(g, order, k);
      var e := order[k].1;
      var target := g.values[e];
      CountOne(g, a[..], loc[..], met, order, k);
      ghost var a0, loc0 := a[..], loc[..];
      loc[e] := a[target];
      a[target] := a[target] + 1;
      met := met[target := met[target] + [e]];
      assert a[..] == a0[target := a0[target] + 1] && loc[..] == loc0[e := a0[target]];
    }
  }

  // ---------------------------------------------------------------- the writing pass

  /** All edges have been counted, and the vertex table has been made of the counts. */
  ghost predicate Prepared(g: Csr, a: seq<nat>, loc: seq<nat>, met: seq<seq<nat>>, order: seq<(nat, nat)>, begin: seq<nat>) {
    g.WellFormed() && Schedule(g, order) && Counted(g, a, loc, met, order, |order|) && IsTable(begin, a)
  }

  /** The in-edge that write_value makes of edge e. */
  function Slot(g: Csr, loc: seq<nat>, begin: seq<nat>, e: nat): nat
    requires e < |g.values| && e < |loc| && g.values[e] < |begin|
  {
    begin[g.values[e]] + loc[e]
  }

  lemma SlotInRange(g: Csr, a: seq<nat>, loc: seq<nat>, met: seq<seq<nat>>, order: seq<(nat, nat)>, begin: seq<nat>, e: nat)
    requires Prepared(g, a, loc, met, order, begin) && e < |g.values|
    ensures |loc| == |g.values| && |begin| == g.Nodes() + 1
    ensures g.values[e] + 1 < |begin| && begin[g.values[e]] <= Slot(g, loc, begin, e) < begin[g.values[e] + 1] <= |g.values|
  {
    AllSeen(g, order, e);
    assert InPlace(g, loc, met, e);
    TableSteps(begin, a, g.values[e]);
    TableRises(begin, a);
  }

  lemma SlotInjective(g: Csr, a: seq<nat>, loc: seq<nat>, met: seq<seq<nat>>, order: seq<(nat, nat)>, begin: seq<nat>, e: nat, e': nat)
    requires Prepared(g, a, loc, met, order, begin) && e < |g.values| && e' < |g.values| && e != e'
    requires |loc| == |g.values| && |begin| == g.Nodes() + 1
    ensures Slot(g, loc, begin, e) != Slot(g, loc, begin, e')
  {
    hide Counted, IsTable;
    SlotInRange(g, a, loc, met, order, begin, e);
    SlotInRange(g, a, loc, met, order, begin, e');
    TableRises'(a, begin);
    if g.values[e] == g.values[e'] {
      LocInjective(g, a, loc, met, order, e, e');
    }
  }

  lemma TableRises'(a: seq<nat>, begin: seq<nat>)
    requires IsTable(begin, a)
    ensures forall i, j :: 0 <= i <= j < |begin| ==> begin[i] <= begin[j]
  {
    TableRises(begin, a);
  }

  lemma LocInjective(g: Csr, a: seq<nat>, loc: seq<nat>, met: seq<seq<nat>>, order: seq<(nat, nat)>, e: nat, e': nat)
    requires g.WellFormed() && Schedule(g, order) && Counted(g, a, loc, met, order, |order|)
    requires e < |g.values| && e' < |g.values| && e != e' && g.values[e] == g.values[e'] && |loc| == |g.values|
    ensures loc[e] != loc[e']
  {
    AllSeen(g, order, e);
    AllSeen(g, order, e');
    assert InPlace(g, loc, met, e) && InPlace(g, loc, met, e');
  }

  lemma SlotOnto(g: Csr, a: seq<nat>, loc: seq<nat>, met: seq<seq<nat>>, order: seq<(nat, nat)>, begin: seq<nat>, f: nat) returns (e: nat)
    requires Prepared(g, a, loc, met, order, begin) && f < |g.values|
    ensures e < |g.values| && e < |loc| && g.values[e] < |begin| && Slot(g, loc, begin, e) == f
  {
    TableRises(begin, a);
    var t := FindOwner(begin, |a|, f);
    TableSteps(begin, a, t);
    e := met[t][f - begin[t]];
    assert Met(g, loc, e, t, f - begin[t]);
  }

  lemma FindOwner(begin: seq<nat>, n: nat, f: nat) returns (t: nat)
    requires n < |begin| && begin[0] <= f < begin[n]
    ensures t < n && begin[t] <= f < begin[t + 1]
  {
    if begin[n - 1] <= f {
      t := n - 1;
    } else {
      t := FindOwner(begin, n - 1, f);
    }
  }

  /** Edge e has its in-edge, with its source, and each is translated to the other. */
  ghost predicate Linked(g: Csr, loc: seq<nat>, begin: seq<nat>, values: seq<nat>, inToOut: seq<nat>, outToIn: seq<nat>, e: nat)
    requires g.WellFormed() && e < |g.values| == |loc| == |values| == |inToOut| == |outToIn| && |begin| == g.Nodes() + 1
  {
    var f := Slot(g, loc, begin, e);
    f < |g.values| && values[f] == g.Owner(e) && inToOut[f] == e && outToIn[e] == f
  }

  method WritePass(g: Csr, order: seq<(nat, nat)>, loc: array<nat>, begin: array<nat>,
                   ghost a: seq<nat>, ghost met: seq<seq<nat>>, ghost counting: seq<(nat, nat)>)
    returns (values: array<nat>, inToOut: array<nat>, outToIn: array<nat>)
    requires Prepared(g, a, loc[..], met, counting, begin[..]) && Schedule(g, order)
    ensures |g.values| == loc.Length == values.Length == inToOut.Length == outToIn.Length && begin.Length == g.Nodes() + 1
    ensures forall e: nat :: e < |g.values| ==> Linked(g, loc[..], begin[..], values[..], inToOut[..], outToIn[..], e)
  {
    hide IsTable, Counted;
    var m := |g.values|;
    values, inToOut, outToIn := new nat[m], new nat[m], new nat[m];
    Lengths(g, a, loc[..], met, counting, begin[..]);
    for k := 0 to |order|
      invariant forall e: nat :: e < m && Seen(order, k, e) ==> Linked(g, loc[..], begin[..], values[..], inToOut[..], outToIn[..], e)
    {
      var source, e := order[k].0, order[k].1;
      var target := g.values[e];
      SlotInRange(g, a, loc[..], met, counting, begin[..], e);
      g.OwnerUnique(source, e);
      var index := loc[e];
      var inEdge := begin[target] + index;
      forall d: nat | d < m && d != e ensures Slot(g, loc[..], begin[..], d) != inEdge {
        SlotInjective(g, a, loc[..], met, counting, begin[..], e, d);
      }
      ghost var values0, inToOut0, outToIn0 := values[..], inToOut[..], outToIn[..];
      values[inEdge] := source;
      inToOut[inEdge] := e;
      outToIn[e] := inEdge;
      assert values[..] == values0[inEdge := source] && inToOut[..] == inToOut0[inEdge := e] && outToIn[..] == outToIn0[e := inEdge];
      forall d: nat | d < m && Seen(order, k + 1, d) ensures Linked(g, loc[..], begin[..], values[..], inToOut[..], outToIn[..], d) {
        if d != e {
          assert Seen(order, k, d);
          LinkedKept(g, loc[..], begin[..], values0, inToOut0, outToIn0, d, e, inEdge, source);
        }
      }
    }
    forall e: nat | e < m ensures Linked(g, loc[..], begin[..], values[..], inToOut[..], outToIn[..], e) {
      AllSeen(g, order, e);
    }
  }

  lemma LinkedKept(g: Csr, loc: seq<nat>, begin: seq<nat>, values: seq<nat>, inToOut: seq<nat>, outToIn: seq<nat>, d: nat, e: nat, f: nat, source: nat)
    requires g.WellFormed() && d < |g.values| == |loc| == |values| == |inToOut| == |outToIn| && |begin| == g.Nodes() + 1
    requires Linked(g, loc, begin, values, inToOut, outToIn, d) && e < |g.values| && f < |g.values|
    requires d != e && Slot(g, loc, begin, d) != f
    ensures Linked(g, loc, begin, values[f := source], inToOut[f := e], outToIn[e := f], d)
  {
  }

  lemma Lengths(g: Csr, a: seq<nat>, loc: seq<nat>, met: seq<seq<nat>>, order: seq<(nat, nat)>, begin: seq<nat>)
    requires Prepared(g, a, loc, met, order, begin)
    ensures |loc| == |g.values| && |begin| == g.Nodes() + 1
  {
  }

  // ---------------------------------------------------------------- the transposed graph

  /** "reverse" has an in-edge for each edge of g, at the edge's target and with its source as value;
      out_to_in and in_to_out (edge_translation) take each to the other. */
  ghost predicate Transposed(g: Csr, reverse: Csr, outToIn: seq<nat>, inToOut: seq<nat>)
    requires g.WellFormed()
  {
    && reverse.WellFormed() && reverse.Nodes() == g.Nodes()
    && |reverse.values| == |g.values| == |outToIn| == |inToOut|
    && (forall e: nat :: e < |g.values| ==> Crossed(g, reverse, outToIn, inToOut, e))
    && (forall f: nat :: f < |g.values| ==> inToOut[f] < |g.values| && outToIn[inToOut[f]] == f)
  }

  ghost predicate Crossed(g: Csr, reverse: Csr, outToIn: seq<nat>, inToOut: seq<nat>, e: nat)
    requires g.WellFormed() && e < |g.values| == |reverse.values| == |outToIn| == |inToOut|
  {
    && outToIn[e] < |g.values| && inToOut[outToIn[e]] == e
    && reverse.Owns(g.values[e], outToIn[e]) && reverse.values[outToIn[e]] == g.Owner(e)
  }

  lemma LinkedTransposes(g: Csr, a: seq<nat>, loc: seq<nat>, met: seq<seq<nat>>, order: seq<(nat, nat)>,
                         begin: seq<nat>, values: seq<nat>, inToOut: seq<nat>, outToIn: seq<nat>)
    requires Prepared(g, a, loc, met, order, begin)
    requires |g.values| == |loc| == |values| == |inToOut| == |outToIn| && |begin| == g.Nodes() + 1
    requires forall e: nat :: e < |g.values| ==> Linked(g, loc, begin, values, inToOut, outToIn, e)
    ensures Transposed(g, Csr(begin, values), outToIn, inToOut)
  {
    hide IsTable, Counted;
    var reverse := Csr(begin, values);
    forall e: nat | e < |g.values| ensures Crossed(g, reverse, outToIn, inToOut, e) {
      assert Linked(g, loc, begin, values, inToOut, outToIn, e);
      SlotInRange(g, a, loc, met, order, begin, e);
    }
    forall f: nat | f < |g.values| ensures values[f] < g.Nodes() && inToOut[f] < |g.values| && outToIn[inToOut[f]] == f {
      var e := SlotOnto(g, a, loc, met, order, begin, f);
      assert Linked(g, loc, begin, values, inToOut, outToIn, e);
    }
    TableCounts(g, a, loc, met, order, begin);
  }

  lemma TableCounts(g: Csr, a: seq<nat>, loc: seq<nat>, met: seq<seq<nat>>, order: seq<(nat, nat)>, begin: seq<nat>)
    requires Prepared(g, a, loc, met, order, begin)
    ensures |begin| == g.Nodes() + 1 && begin[0] == 0 && begin[g.Nodes()] == |g.values|
    ensures forall i, j :: 0 <= i <= j < |begin| ==> begin[i] <= begin[j]
  {
    TableRises(begin, a);
  }

  /** make_reverse_edges, whatever the orders in which the threads of the two passes get to the
      edges. */
  method MakeReverseEdges(g: Csr, counting: seq<(nat, nat)>, writing: seq<(nat, nat)>) returns (reverse: Csr, outToIn: seq<nat>, inToOut: seq<nat>)
    requires g.WellFormed() && Schedule(g, counting) && Schedule(g, writing)
    ensures Transposed(g, reverse, outToIn, inToOut)
  {
    hide Counted, IsTable, Linked, Schedule, Transposed;
    var a, loc, met := CountPass(g, counting);
    var begin := InitLevelFromDegrees(a);
    ghost var a0 := a[..];
    var values, toOut, toIn := WritePass(g, writing, loc, begin, a[..], met, counting);
    LinkedTransposes(g, a0, loc[..], met, counting, begin[..], values[..], toOut[..], toIn[..]);
    return Csr(begin[..], values[..]), toIn[..], toOut[..];
  }

  // ---------------------------------------------------------------- what a transposed graph is

  ghost function EdgesBetween(g: Csr, u: nat, v: nat): (s: set<nat>)
    ensures forall e: nat :: e in s <==> e < |g.values| && g.Owns(u, e) && g.values[e] == v
  {
    set e: nat | e < |g.values| && g.Owns(u, e) && g.values[e] == v
  }

  /** As many edges lead from u to v as in-edges from v to u. */
  lemma SameEdges(g: Csr, reverse: Csr, outToIn: seq<nat>, inToOut: seq<nat>, u: nat, v: nat)
    requires g.WellFormed() && Transposed(g, reverse, outToIn, inToOut)
    ensures |EdgesBetween(g, u, v)| == |EdgesBetween(reverse, v, u)|
  {
    Into(g, reverse, outToIn, inToOut, u, v);
    Back(g, reverse, outToIn, inToOut, u, v);
    ImageSize(EdgesBetween(g, u, v), outToIn, EdgesBetween(reverse, v, u));
    ImageSize(EdgesBetween(reverse, v, u), inToOut, EdgesBetween(g, u, v));
  }

  lemma Into(g: Csr, reverse: Csr, outToIn: seq<nat>, inToOut: seq<nat>, u: nat, v: nat)
    requires g.WellFormed() && Transposed(g, reverse, outToIn, inToOut)
    ensures forall e :: e in EdgesBetween(g, u, v) ==> e < |outToIn| && outToIn[e] in EdgesBetween(reverse, v, u)
    ensures forall e, d :: 0 <= e < d < |outToIn| ==> outToIn[e] != outToIn[d]
  {
    forall e | e in EdgesBetween(g, u, v) ensures outToIn[e] in EdgesBetween(reverse, v, u) {
      assert Crossed(g, reverse, outToIn, inToOut, e);
      g.OwnerUnique(u, e);
    }
    forall e, d | 0 <= e < d < |outToIn| ensures outToIn[e] != outToIn[d] {
      assert Crossed(g, reverse, outToIn, inToOut, e) && Crossed(g, reverse, outToIn, inToOut, d);
    }
  }

  lemma Back(g: Csr, reverse: Csr, outToIn: seq<nat>, inToOut: seq<nat>, u: nat, v: nat)
    requires g.WellFormed() && Transposed(g, reverse, outToIn, inToOut)
    ensures forall f :: f in EdgesBetween(reverse, v, u) ==> f < |inToOut| && inToOut[f] in EdgesBetween(g, u, v)
    ensures forall e, d :: 0 <= e < d < |inToOut| ==> inToOut[e] != inToOut[d]
  {
    forall f | f in EdgesBetween(reverse, v, u) ensures inToOut[f] in EdgesBetween(g, u, v) {
      var e := inToOut[f];
      assert Crossed(g, reverse, outToIn, inToOut, e) && outToIn[e] == f;
      reverse.OwnerUnique(v, f);
      reverse.OwnerUnique(g.values[e], f);
    }
  }

  lemma {:induction false} ImageSize(s: set<nat>, f: seq<nat>, t: set<nat>)
    requires forall x :: x in s ==> x < |f| && f[x] in t
    requires forall x, y :: 0 <= x < y < |f| ==> f[x] != f[y]
    ensures |s| <= |t|
  {
    if x :| x in s {
      ImageSize(s - {x}, f, t - {f[x]});
    }
  }

  /** The in-neighbours of v are the multiset of the sources of the edges into v. */
  lemma InNeighbours(g: Csr, reverse: Csr, outToIn: seq<nat>, inToOut: seq<nat>, u: nat, v: nat)
    requires g.WellFormed() && Transposed(g, reverse, outToIn, inToOut) && v < g.Nodes()
    ensures reverse.begin[v] <= reverse.begin[v + 1] <= |reverse.values|
    ensures multiset(reverse.values[reverse.begin[v]..reverse.begin[v + 1]])[u] == |EdgesBetween(g, u, v)|
  {
    SameEdges(g, reverse, outToIn, inToOut, u, v);
    Occurrences(reverse.values, reverse.begin[v], reverse.begin[v + 1], u);
    assert EdgesBetween(reverse, v, u) == Positions(reverse.values, reverse.begin[v], reverse.begin[v + 1], u);
  }

  /** Where x is in a part of s. */
  ghost function Positions(s: seq<nat>, lo: nat, hi: nat, x: nat): (r: set<nat>)
    requires lo <= hi <= |s|
    ensures forall i: nat :: i in r <==> lo <= i < hi && s[i] == x
  {
    set i: nat | lo <= i < hi && s[i] == x
  }

  lemma {:induction false} Occurrences(s: seq<nat>, lo: nat, hi: nat, x: nat)
    requires lo <= hi <= |s|
    ensures multiset(s[lo..hi])[x] == |Positions(s, lo, hi, x)|
    decreases hi
  {
    hide Positions;
    PositionsNext(s, lo, hi, x);
    if lo < hi {
      Occurrences(s, lo, hi - 1, x);
      SliceNext(s, lo, hi);
    }
  }

  lemma PositionsNext(s: seq<nat>, lo: nat, hi: nat, x: nat)
    requires lo <= hi <= |s|
    ensures |Positions(s, lo, hi, x)|
            == if lo == hi then 0 else |Positions(s, lo, hi - 1, x)| + if s[hi - 1] == x then 1 else 0
  {
    if lo == hi {
      assert Positions(s, lo, hi, x) == {};
    } else {
      assert Positions(s, lo, hi, x) == Positions(s, lo, hi - 1, x) + if s[hi - 1] == x then {hi - 1} else {};
    }
  }

  lemma SliceNext(s: seq<nat>, lo: nat, hi: nat)
    requires lo < hi <= |s|
    ensures multiset(s[lo..hi]) == multiset(s[lo..hi - 1]) + multiset{s[hi - 1]}
  {
    assert s[lo..hi] == s[lo..hi - 1] + [s[hi - 1]];
  }
}
