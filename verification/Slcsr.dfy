/** The vertex table of the single-level CSR (llama/include/llama/ll_slcsr.h): made from degrees, or node
    by node with init_node and then finish_level_vertices for the holes. And going through a node's
    edges. */
module Slcsr {
  import opened Graph
  import opened Sequences

  /** What memset to 0xff leaves in the table. */
  const HOLE: int := -1

  /** The vertex table that gives each node as many edges as its degree. */
  ghost predicate IsTable(begin: seq<int>, degrees: seq<nat>) {
    |begin| == |degrees| + 1 && forall t :: 0 <= t <= |degrees| ==> begin[t] == Sum(degrees[..t])
  }

  /** What degree() reads from a table is the node's degree. */
  lemma TableSteps(begin: seq<int>, degrees: seq<nat>, t: nat)
    requires IsTable(begin, degrees) && t < |degrees|
    ensures begin[0] == 0 && begin[|degrees|] == Sum(degrees) && begin[t + 1] - begin[t] == degrees[t]
  {
    SumNext(degrees, t);
    assert degrees[..|degrees|] == degrees;
  }

  lemma TableRises(begin: seq<int>, degrees: seq<nat>)
    requires IsTable(begin, degrees)
    ensures begin[0] == 0 && begin[|degrees|] == Sum(degrees)
    ensures forall i, j :: 0 <= i <= j < |begin| ==> begin[i] <= begin[j]
  {
    assert degrees[..|degrees|] == degrees;
    forall i, j | 0 <= i <= j < |begin| ensures begin[i] <= begin[j] {
      SumPrefix(degrees, i, j);
    }
  }

  // ---------------------------------------------------------------- from the degrees

  /** The nodes below n that have edges. */
  ghost function NonEmpty(counts: seq<nat>, n: nat): (s: set<nat>)
    requires n <= |counts|
    ensures forall t: nat :: t in s <==> t < n && counts[t] > 0
  {
    set t: nat | t < n && counts[t] > 0
  }

  lemma NonEmptyNext(counts: seq<nat>, n: nat)
    requires n < |counts|
    ensures |NonEmpty(counts, n + 1)| == |NonEmpty(counts, n)| + if counts[n] > 0 then 1 else 0
  {
    assert NonEmpty(counts, n + 1) == NonEmpty(counts, n) + if counts[n] > 0 then {n} else {};
  }

  /** The first loop of init_level_from_degrees. */
  method CountEdges(newEdgeCounts: array<nat>) returns (maxEdges: nat, maxAdjLists: nat)
    ensures maxEdges == Sum(newEdgeCounts[..])
    ensures maxAdjLists == |NonEmpty(newEdgeCounts[..], newEdgeCounts.Length)|
  {
    hide NonEmpty;
    maxEdges, maxAdjLists := 0, 0;
    ghost var counts := newEdgeCounts[..];
    NoneEmpty(counts);
    for i := 0 to newEdgeCounts.Length
      invariant maxEdges == Sum(counts[..i]) && maxAdjLists == |NonEmpty(counts, i)|
    {
      SumNext(counts, i);
      NonEmptyNext(counts, i);
      assert newEdgeCounts[i] == counts[i];
      maxEdges := maxEdges + newEdgeCounts[i];
      if newEdgeCounts[i] > 0 {
        maxAdjLists := maxAdjLists + 1;
      }
    }
    assert counts[..newEdgeCounts.Length] == counts;
  }

  lemma NoneEmpty(counts: seq<nat>)
    ensures |NonEmpty(counts, 0)| == 0
  {
    assert NonEmpty(counts, 0) == {};
  }

  /** The vertex table part of init_level_from_degrees. */
  method InitLevelFromDegrees(newEdgeCounts: array<nat>) returns (begin: array<nat>)
    ensures fresh(begin) && IsTable(begin[..], newEdgeCounts[..])
  {
    var maxNodes := newEdgeCounts.Length;
    begin := new nat[maxNodes + 1];
    ghost var counts := newEdgeCounts[..];
    var x := 0;
    for source := 0 to maxNodes
      invariant x == Sum(counts[..source])
      invariant forall t :: 0 <= t < source ==> begin[t] == Sum(counts[..t])
    {
      SumNext(counts, source);
      assert newEdgeCounts[source] == counts[source];
      begin[source] := x;
      x := x + newEdgeCounts[source];
    }
    begin[maxNodes] := x;
    assert forall t :: 0 <= t <= maxNodes ==> begin[..][t] == begin[t];
  }

  // ---------------------------------------------------------------- node by node

  /** Every entry of the table is a hole, or where the edges of its node begin. */
  ghost predicate Started(begin: seq<int>, degrees: seq<nat>, initialized: set<nat>, writeIndex: nat) {
    && |begin| == |degrees| + 1 && writeIndex == Sum(degrees)
    && (forall t: nat :: t in initialized ==> t < |degrees|)
    && (forall t: nat :: t < |degrees| ==>
          if t in initialized then begin[t] == Sum(degrees[..t]) else begin[t] == HOLE && degrees[t] == 0)
  }

  class LevelBuilder {
    const begin: array<int>
    const maxNodes: nat
    var etWriteIndex: nat

    /** The edges that init_node was given, by node, and which nodes it has been called for. */
    ghost var degrees: seq<nat>
    ghost var initialized: set<nat>

    ghost predicate Shaped()
      reads `degrees
    {
      begin.Length == maxNodes + 1 && |degrees| == maxNodes
    }

    ghost predicate Building()
      reads this, begin
    {
      Shaped() && Started(begin[..], degrees, initialized, etWriteIndex)
    }

    constructor (maxNodes: nat)
      ensures Building() && fresh(begin) && this.maxNodes == maxNodes
      ensures etWriteIndex == 0 && initialized == {} && forall t :: 0 <= t < maxNodes ==> degrees[t] == 0
    {
      this.maxNodes := maxNodes;
      begin := new int[maxNodes + 1](_ => HOLE);
      etWriteIndex := 0;
      degrees := seq(maxNodes, _ => 0);
      initialized := {};
      new;
      SumZero(degrees);
    }

    /** init_node. The table stays one of prefix sums exactly if no edges have been given to the node
        or to nodes behind it before, and none are given now unless the node is the last so far. */
    method InitNode(node: nat, newEdges: nat) returns (start: nat)
      requires Shaped() && node < maxNodes
      modifies `etWriteIndex, `degrees, `initialized, begin
      ensures Shaped() && degrees == old(degrees)[node := newEdges] && initialized == old(initialized) + {node}
      ensures start == old(etWriteIndex) == begin[node] && etWriteIndex == start + newEdges
      ensures forall t :: 0 <= t <= maxNodes && t != node ==> begin[t] == old(begin[t])
      ensures old(Building()) ==> (Building() <==> InOrder(old(degrees), old(initialized), node, newEdges))
    {
      start := etWriteIndex;
      begin[node] := start;
      etWriteIndex := etWriteIndex + newEdges;
      degrees := degrees[node := newEdges];
      initialized := initialized + {node};
      assert begin[..] == old(begin[..])[node := start];
      if old(Building()) {
        StartedNext(old(begin[..]), old(degrees), old(initialized), start, node, newEdges);
      }
    }

    /** finish_level_vertices: every node, initialized or not, ends up with its own edges. */
    method FinishLevelVertices()
      requires Building()
      modifies begin
      ensures IsTable(begin[..], degrees)
    {
      hide Sum;
      begin[maxNodes] := etWriteIndex;
      assert degrees[..maxNodes] == degrees;
      for n := maxNodes downto 0
        invariant forall t :: n <= t <= maxNodes ==> begin[t] == Sum(degrees[..t])
        invariant forall t: nat :: t < n ==> begin[t] == old(begin[t])
      {
        SumNext(degrees, n);
        if begin[n] == HOLE {
          begin[n] := begin[n + 1];
        }
      }
      assert forall t :: 0 <= t <= maxNodes ==> begin[..][t] == begin[t];
    }
  }

  /** No edges yet for the node and those behind it, and none now in front of an initialized node. */
  ghost predicate InOrder(degrees: seq<nat>, initialized: set<nat>, node: nat, newEdges: nat) {
    && (forall t :: node <= t < |degrees| ==> degrees[t] == 0)
    && (newEdges == 0 || forall t :: t in initialized ==> t <= node)
  }

  /** What giving a node edges does to the prefix sums. */
  lemma PrefixSums(degrees: seq<nat>, node: nat, newEdges: nat)
    requires node < |degrees|
    ensures Sum(degrees[node := newEdges]) == Sum(degrees) - degrees[node] + newEdges
    ensures forall t: nat :: t <= node ==> degrees[node := newEdges][..t] == degrees[..t]
    ensures forall t: nat :: node < t <= |degrees| ==>
              Sum(degrees[node := newEdges][..t]) == Sum(degrees[..t]) - degrees[node] + newEdges
    ensures Sum(degrees[..node]) == Sum(degrees) <==> forall t :: node <= t < |degrees| ==> degrees[t] == 0
  {
    SumUpdate(degrees, node, newEdges);
    forall t: nat | t <= node ensures degrees[node := newEdges][..t] == degrees[..t] {
    }
    forall t: nat | node < t <= |degrees|
      ensures Sum(degrees[node := newEdges][..t]) == Sum(degrees[..t]) - degrees[node] + newEdges
    {
      assert degrees[node := newEdges][..t] == degrees[..t][node := newEdges];
      SumUpdate(degrees[..t], node, newEdges);
    }
    SumTail(degrees, node);
  }

  lemma StartedNext(begin: seq<int>, degrees: seq<nat>, initialized: set<nat>, start: nat, node: nat, newEdges: nat)
    requires Started(begin, degrees, initialized, start) && node < |degrees|
    ensures Started(begin[node := start], degrees[node := newEdges], initialized + {node}, start + newEdges)
            <==> InOrder(degrees, initialized, node, newEdges)
  {
    hide Sum;
    PrefixSums(degrees, node, newEdges);
    var begin', degrees' := begin[node := start], degrees[node := newEdges];
    if Started(begin', degrees', initialized + {node}, start + newEdges) {
      assert begin'[node] == Sum(degrees'[..node]);
      forall t | t in initialized && t > node ensures newEdges == 0 {
        assert begin'[t] == Sum(degrees'[..t]) && begin[t] == Sum(degrees[..t]);
      }
    }
    if InOrder(degrees, initialized, node, newEdges) {
      forall t: nat | t < |degrees|
        ensures if t in initialized + {node} then begin'[t] == Sum(degrees'[..t]) else begin'[t] == HOLE && degrees'[t] == 0
      {
        assert t != node ==> if t in initialized then begin[t] == Sum(degrees[..t]) else begin[t] == HOLE && degrees[t] == 0;
      }
    }
  }

  /** Two nodes with an edge each, in the wrong order: the table says that node 0 begins behind the
      edge of node 1, and its degree would be -1. */
  method NodesOutOfOrder() returns (b: LevelBuilder)
    ensures b.maxNodes == 2 && b.Shaped() && b.degrees == [1, 1] && !b.Building()
    ensures b.begin[0] == 1 && b.begin[1] == 0
  {
    b := new LevelBuilder(2);
    var first := b.InitNode(1, 1);
    var second := b.InitNode(0, 1);
    assert b.degrees[..0] == [];
  }

  // ---------------------------------------------------------------- going through the edges of a node

  /** LL_NIL_EDGE and LL_NIL_NODE */
  const NIL: int := -1

  class EdgeIterator {
    var node: nat
    var edge: nat
    var left: nat
    var lastNode: int

    /** The iterator is on its way through the edges of its node. */
    ghost predicate At(g: Csr)
      reads this
    {
      g.WellFormed() && node < g.Nodes() && g.begin[node] <= edge && edge + left == g.begin[node + 1]
    }

    /** iter_begin */
    constructor (g: Csr, n: nat)
      requires g.WellFormed() && n < g.Nodes()
      ensures At(g) && node == n && edge == g.begin[n]
    {
      node, edge, lastNode := n, g.begin[n], NIL;
      left := g.begin[n + 1] - g.begin[n];
    }

    /** iter_next: the edges of the node one by one, with their targets, and then NIL for ever. */
    method Next(g: Csr) returns (e: int)
      requires At(g)
      modifies this
      ensures At(g) && node == old(node)
      ensures e == (if old(left) > 0 then old(edge) else NIL)
      ensures if e == NIL then lastNode == NIL && edge == old(edge) && left == 0
              else e < |g.values| && lastNode == g.values[e] && edge == e + 1
    {
      if left > 0 {
        left := left - 1;
        lastNode := g.values[edge];
        e := edge;
        edge := edge + 1;
      } else {
        lastNode := NIL;
        e := NIL;
      }
    }
  }

  /** find: the first edge from the node to the value, and NIL exactly if there is none. */
  method Find(g: Csr, node: nat, value: nat) returns (e: int)
    requires g.WellFormed() && node < g.Nodes()
    ensures e == NIL <==> !Edge(g, node, value)
    ensures e != NIL ==> e >= 0 && g.Owns(node, e) && e < |g.values| && g.values[e] == value
    ensures e != NIL ==> forall d :: g.begin[node] <= d < e ==> g.values[d] != value
  {
    var iter := new EdgeIterator(g, node);
    e := iter.Next(g);
    while e != NIL
      invariant iter.At(g) && iter.node == node
      invariant e == NIL ==> iter.left == 0
      invariant e != NIL ==> g.begin[node] <= e < |g.values| && iter.edge == e + 1 && iter.lastNode == g.values[e]
      invariant forall d :: g.begin[node] <= d < (if e == NIL then iter.edge else e) ==> g.values[d] != value
      decreases e != NIL, iter.left
    {
      if iter.lastNode == value {
        assert g.Owns(node, e);
        return;
      }
      e := iter.Next(g);
    }
  }
}
