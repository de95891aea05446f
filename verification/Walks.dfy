/** Walks along the edges of a graph and their weights: what "shortest distance" means. */
module Walks {
  import opened Graph
  import Levels
  import Sequences

  /** A walk from u to v, as the edges it takes. */
  ghost predicate Walk(g: Csr, p: seq<nat>, u: nat, v: nat)
    requires g.WellFormed()
  {
    && (forall i :: 0 <= i < |p| ==> p[i] < |g.values|)
    && if p == [] then u == v
       else g.Owner(p[0]) == u && g.values[p[|p| - 1]] == v && forall i :: 0 < i < |p| ==> g.Owner(p[i]) == g.values[p[i - 1]]
  }

  ghost function Weight(w: seq<nat>, p: seq<nat>): nat
    requires forall i :: 0 <= i < |p| ==> p[i] < |w|
  {
    if p == [] then 0 else Weight(w, p[..|p| - 1]) + w[p[|p| - 1]]
  }

  lemma WalkFront(g: Csr, p: seq<nat>, u: nat, v: nat)
    requires g.WellFormed() && p != [] && Walk(g, p, u, v)
    ensures Walk(g, p[..|p| - 1], u, g.Owner(p[|p| - 1])) && g.values[p[|p| - 1]] == v
  {
  }

  lemma WalkOn(g: Csr, p: seq<nat>, u: nat, e: nat)
    requires g.WellFormed() && e < |g.values| && Walk(g, p, u, g.Owner(e))
    ensures Walk(g, p + [e], u, g.values[e])
  {
  }

  lemma WeightOn(w: seq<nat>, p: seq<nat>, e: nat)
    requires e < |w| && forall i :: 0 <= i < |p| ==> p[i] < |w|
    ensures forall i :: 0 <= i < |p + [e]| ==> (p + [e])[i] < |w|
    ensures Weight(w, p + [e]) == Weight(w, p) + w[e]
  {
    assert (p + [e])[..|p|] == p;
  }

  // ---------------------------------------------------------------- cutting out cycles

  /** The node a walk is at after k edges. */
  ghost function NodeAt(g: Csr, p: seq<nat>, u: nat, k: nat): (v: nat)
    requires g.WellFormed() && k <= |p| && u < g.Nodes() && forall i :: 0 <= i < |p| ==> p[i] < |g.values|
    ensures v < g.Nodes()
  {
    if k == 0 then u else g.values[p[k - 1]]
  }

  lemma {:induction false} WeightSplit(w: seq<nat>, p: seq<nat>, q: seq<nat>)
    requires forall i :: 0 <= i < |p| ==> p[i] < |w|
    requires forall i :: 0 <= i < |q| ==> q[i] < |w|
    ensures forall i :: 0 <= i < |p + q| ==> (p + q)[i] < |w|
    ensures Weight(w, p + q) == Weight(w, p) + Weight(w, q)
  {
    if q == [] {
      assert p + q == p;
    } else {
      WeightSplit(w, p, q[..|q| - 1]);
      assert (p + q)[..|p + q| - 1] == p + q[..|q| - 1];
    }
  }

  lemma Repeats(g: Csr, p: seq<nat>, u: nat, v: nat) returns (i: nat, j: nat)
    requires g.WellFormed() && u < g.Nodes() && Walk(g, p, u, v) && |p| >= g.Nodes()
    ensures i < j <= |p| && NodeAt(g, p, u, i) == NodeAt(g, p, u, j)
  {
    var nodes := seq(|p| + 1, k requires 0 <= k <= |p| => NodeAt(g, p, u, k));
    if Sequences.Distinct(nodes) {
      Levels.DistinctBounded(nodes, g.Nodes());
      assert false;
    }
    i, j :| 0 <= i < j < |nodes| && nodes[i] == nodes[j];
  }

  lemma CutOut(g: Csr, w: seq<nat>, p: seq<nat>, u: nat, v: nat, i: nat, j: nat)
    requires g.WellFormed() && u < g.Nodes() && |w| == |g.values| && Walk(g, p, u, v)
    requires i < j <= |p| && NodeAt(g, p, u, i) == NodeAt(g, p, u, j)
    ensures Walk(g, p[..i] + p[j..], u, v) && Weight(w, p[..i] + p[j..]) <= Weight(w, p)
  {
    hide Csr.WellFormed, Weight, Walk, NodeAt;
    var a, b, c := p[..i], p[i..j], p[j..];
    assert p == a + b + c;
    Elements(p, i, j);
    CutWalk(g, p, a + c, u, v, i, j);
    EdgesInside(g, p, u, v);
    CutWeight(w, a, b, c);
  }

  lemma Elements(p: seq<nat>, i: nat, j: nat)
    requires i < j <= |p|
    ensures forall k :: 0 <= k < |p| - (j - i) ==> (p[..i] + p[j..])[k] == p[if k < i then k else k + (j - i)]
  {
  }

  lemma EdgesInside(g: Csr, p: seq<nat>, u: nat, v: nat)
    requires g.WellFormed() && Walk(g, p, u, v)
    ensures forall i :: 0 <= i < |p| ==> p[i] < |g.values|
  {
  }

  lemma CutWalk(g: Csr, p: seq<nat>, q: seq<nat>, u: nat, v: nat, i: nat, j: nat)
    requires g.WellFormed() && u < g.Nodes() && Walk(g, p, u, v)
    requires i < j <= |p| && NodeAt(g, p, u, i) == NodeAt(g, p, u, j)
    requires |q| == |p| - (j - i) && forall k :: 0 <= k < |q| ==> q[k] == p[if k < i then k else k + (j - i)]
    ensures Walk(g, q, u, v)
  {
    hide Csr.WellFormed;
    forall k | 0 <= k < |q| ensures q[k] < |g.values| && (0 < k ==> g.Owner(q[k]) == g.values[q[k - 1]]) {
      if k == i && 0 < k {
        assert NodeAt(g, p, u, i) == g.values[q[k - 1]];
      }
    }
  }

  lemma CutWeight(w: seq<nat>, a: seq<nat>, b: seq<nat>, c: seq<nat>)
    requires forall k :: 0 <= k < |a| ==> a[k] < |w|
    requires forall k :: 0 <= k < |b| ==> b[k] < |w|
    requires forall k :: 0 <= k < |c| ==> c[k] < |w|
    ensures forall k :: 0 <= k < |a + c| ==> (a + c)[k] < |w|
    ensures forall k :: 0 <= k < |a + b + c| ==> (a + b + c)[k] < |w|
    ensures Weight(w, a + c) <= Weight(w, a + b + c)
  {
    WeightSplit(w, a, c);
    WeightSplit(w, a, b);
    WeightSplit(w, a + b, c);
  }

  /** No walk is lighter than all walks that are shorter than the number of nodes. */
  lemma {:induction false} ShortWalk(g: Csr, w: seq<nat>, p: seq<nat>, u: nat, v: nat) returns (q: seq<nat>)
    requires g.WellFormed() && u < g.Nodes() && |w| == |g.values| && Walk(g, p, u, v)
    ensures Walk(g, q, u, v) && |q| < g.Nodes() && Weight(w, q) <= Weight(w, p)
    decreases |p|
  {
    if |p| < g.Nodes() {
      q := p;
    } else {
      var i, j := Repeats(g, p, u, v);
      CutOut(g, w, p, u, v, i, j);
      q := ShortWalk(g, w, p[..i] + p[j..], u, v);
    }
  }
}
