/** Counting triangles in graphs with sorted adjacency lists
    (benchmark/benchmarks/triangle_counting.h). */
module Triangles {
  import opened Sequences
  import opened Graph

  /** The common neighbours above v. */
  ghost function Common(a: seq<nat>, b: seq<nat>, v: nat): (s: set<nat>)
    ensures forall x :: x in s <==> x in a && x in b && x > v
  {
    set x | x in a && x in b && x > v
  }

  // ---------------------------------------------------------------- searching an adjacency list

  /** findadj_linear */
  method FindAdjLinear(data: seq<nat>, target: nat) returns (found: bool)
    requires Ascending(data)
    ensures found <==> target in data
  {
    var i := 0;
    while i < |data| && data[i] <= target
      invariant 0 <= i <= |data| && forall k :: 0 <= k < i ==> data[k] != target
    {
      if data[i] == target {
        return true;
      }
      i := i + 1;
    }
    return false;
  }

  /** findadj */
  method FindAdj(data: seq<nat>, target: nat) returns (found: bool)
    requires Ascending(data)
    ensures found <==> target in data
  {
    if |data| < 32 {
      found := FindAdjLinear(data, target);
      return;
    }
    var l, h := 0, |data|;
    var m := l + (h - l) / 2;
    while h > l
      invariant 0 <= l <= h <= |data| && m == l + (h - l) / 2
      invariant forall k :: 0 <= k < l || h <= k < |data| ==> data[k] != target
      decreases h - l
    {
      var n := data[m];
      if target == n {
        return true;
      }
      if target > n {
        l := m + 1;
      } else {
        h := m;
      }
      m := l + (h - l) / 2;
    }
    return false;
  }

  // ---------------------------------------------------------------- merging two adjacency lists

  /** A merge of a and b that has passed i elements of the one and j of the other. */
  ghost predicate Passed(a: seq<nat>, i: nat, b: seq<nat>, j: nat) {
    && i <= |a| && j <= |b|
    && (forall k, l :: 0 <= k < i && j <= l < |b| ==> a[k] < b[l])
    && (forall k, l :: i <= k < |a| && 0 <= l < j ==> b[l] < a[k])
  }

  /** What counts among the elements passed so far. */
  ghost function CommonUpTo(a: seq<nat>, i: nat, b: seq<nat>, j: nat, v: nat): set<nat>
    requires i <= |a| && j <= |b|
  {
    Common(a[..i], b[..j], v)
  }

  lemma PassFirst(a: seq<nat>, i: nat, b: seq<nat>, j: nat, v: nat)
    requires Ascending(a) && Ascending(b) && Passed(a, i, b, j) && i < |a| && j < |b| && a[i] < b[j]
    ensures Passed(a, i + 1, b, j) && CommonUpTo(a, i + 1, b, j, v) == CommonUpTo(a, i, b, j, v)
  {
    assert a[..i + 1] == a[..i] + [a[i]];
    assert a[i] !in b[..j];
  }

  lemma PassSecond(a: seq<nat>, i: nat, b: seq<nat>, j: nat, v: nat)
    requires Ascending(a) && Ascending(b) && Passed(a, i, b, j) && i < |a| && j < |b| && b[j] < a[i]
    ensures Passed(a, i, b, j + 1) && CommonUpTo(a, i, b, j + 1, v) == CommonUpTo(a, i, b, j, v)
  {
    assert b[..j + 1] == b[..j] + [b[j]];
    assert b[j] !in a[..i];
  }

  lemma PassBoth(a: seq<nat>, i: nat, b: seq<nat>, j: nat, v: nat)
    requires Ascending(a) && Ascending(b) && Passed(a, i, b, j) && i < |a| && j < |b| && a[i] == b[j]
    ensures Passed(a, i + 1, b, j + 1)
    ensures CommonUpTo(a, i + 1, b, j + 1, v) == CommonUpTo(a, i, b, j, v) + if b[j] > v then {b[j]} else {}
    ensures b[j] !in CommonUpTo(a, i, b, j, v)
  {
    assert a[..i + 1] == a[..i] + [a[i]] && b[..j + 1] == b[..j] + [b[j]];
    assert a[i] !in a[..i] && b[j] !in b[..j];
  }

  lemma PassedAll(a: seq<nat>, i: nat, b: seq<nat>, j: nat, v: nat)
    requires Passed(a, i, b, j) && (i == |a| || j == |b|)
    ensures CommonUpTo(a, i, b, j, v) == Common(a, b, v)
  {
    forall x | x in Common(a, b, v) ensures x in a[..i] && x in b[..j] {
      var k :| 0 <= k < |a| && a[k] == x;
      var l :| 0 <= l < |b| && b[l] == x;
      assert k < i && l < j;
      assert a[..i][k] == x && b[..j][l] == x;
    }
    forall x | x in CommonUpTo(a, i, b, j, v) ensures x in a && x in b {
    }
  }

  /** count_triangles: by merging if the lists are of similar size, and otherwise by searching. */
  method CountTriangles(v: nat, uAdj: seq<nat>, vAdj: seq<nat>) returns (r: nat)
    requires Ascending(uAdj) && Ascending(vAdj)
    ensures r == |Common(uAdj, vAdj, v)|
  {
    if |uAdj| < 32 * |vAdj| {
      r := CountByMerging(v, uAdj, vAdj);
    } else {
      r := CountBySearching(v, uAdj, vAdj);
    }
  }

  method CountByMerging(v: nat, uAdj: seq<nat>, vAdj: seq<nat>) returns (r: nat)
    requires Ascending(uAdj) && Ascending(vAdj)
    ensures r == |Common(uAdj, vAdj, v)|
  {
    hide Ascending, Passed, Common, CommonUpTo;
    r := 0;
    var ui, vi := 0, 0;
    NothingPassed(uAdj, vAdj, v);
    while ui < |uAdj| && vi < |vAdj|
      invariant ui <= |uAdj| && vi <= |vAdj| && Passed(uAdj, ui, vAdj, vi) && r == |CommonUpTo(uAdj, ui, vAdj, vi, v)|
      decreases |uAdj| - ui + |vAdj| - vi
    {
      var du, dv := uAdj[ui], vAdj[vi];
      if du == dv {
        PassBoth(uAdj, ui, vAdj, vi, v);
        r := r + if dv > v then 1 else 0;
        ui := ui + 1;
        vi := vi + 1;
      } else if du < dv {
        PassFirst(uAdj, ui, vAdj, vi, v);
        ui := ui + 1;
      } else {
        PassSecond(uAdj, ui, vAdj, vi, v);
        vi := vi + 1;
      }
    }
    PassedAll(uAdj, ui, vAdj, vi, v);
  }

  method CountBySearching(v: nat, uAdj: seq<nat>, vAdj: seq<nat>) returns (r: nat)
    requires Ascending(uAdj) && Ascending(vAdj)
    ensures r == |Common(uAdj, vAdj, v)|
  {
    hide Ascending;
    r := 0;
    for i := 0 to |vAdj|
      invariant r == |Common(uAdj, vAdj[..i], v)|
    {
      var d := vAdj[i];
      OneMore(uAdj, vAdj, i, v);
      if d > v {
        var found := FindAdj(uAdj, d);
        r := r + if found then 1 else 0;
      }
    }
    assert vAdj[..|vAdj|] == vAdj;
  }

  lemma NothingPassed(a: seq<nat>, b: seq<nat>, v: nat)
    ensures Passed(a, 0, b, 0) && |CommonUpTo(a, 0, b, 0, v)| == 0
  {
    assert CommonUpTo(a, 0, b, 0, v) == {};
  }

  lemma OneMore(a: seq<nat>, b: seq<nat>, i: nat, v: nat)
    requires Ascending(b) && i < |b|
    ensures Common(a, b[..i + 1], v) == Common(a, b[..i], v) + if b[i] > v && b[i] in a then {b[i]} else {}
    ensures b[i] !in Common(a, b[..i], v)
  {
    assert b[..i + 1] == b[..i] + [b[i]];
    assert b[i] !in b[..i];
  }

  /** ll_b_triangle_counting_LU::count_for, whose iterators go through the two lists. */
  method CountFor(v: nat, uAdj: seq<nat>, vAdj: seq<nat>) returns (count: nat)
    requires Ascending(uAdj) && Ascending(vAdj)
    ensures count == |Common(uAdj, vAdj, v)|
  {
    hide Ascending, Passed;
    count := 0;
    var eoU, eoV := 0, 0;
    NothingPassed(uAdj, vAdj, v);
    while eoU < |uAdj| && eoV < |vAdj|
      invariant eoU <= |uAdj| && eoV <= |vAdj| && Passed(uAdj, eoU, vAdj, eoV) && count == |CommonUpTo(uAdj, eoU, vAdj, eoV, v)|
      decreases |uAdj| - eoU + |vAdj| - eoV
    {
      var mu, mv := uAdj[eoU], vAdj[eoV];
      if mu < mv {
        PassFirst(uAdj, eoU, vAdj, eoV, v);
        eoU := eoU + 1;
      } else if mv < mu {
        PassSecond(uAdj, eoU, vAdj, eoV, v);
        eoV := eoV + 1;
      } else {
        PassBoth(uAdj, eoU, vAdj, eoV, v);
        if v < mv {
          count := count + 1;
        }
        eoU, eoV := eoU + 1, eoV + 1;
      }
    }
    PassedAll(uAdj, eoU, vAdj, eoV, v);
  }

  // ---------------------------------------------------------------- the whole graph

  function Adjacent(g: Csr, u: nat): (s: seq<nat>)
    requires g.WellFormed() && u < g.Nodes()
  {
    g.values[g.begin[u]..g.begin[u + 1]]
  }

  ghost predicate SortedLists(g: Csr)
    requires g.WellFormed()
  {
    forall u: nat :: u < g.Nodes() ==> Ascending(Adjacent(g, u))
  }

  lemma AdjacentIsEdge(g: Csr, u: nat, v: nat)
    requires g.WellFormed() && u < g.Nodes()
    ensures v in Adjacent(g, u) <==> Edge(g, u, v)
    ensures v in Adjacent(g, u) ==> v < g.Nodes()
  {
    if v in Adjacent(g, u) {
      var i :| 0 <= i < |Adjacent(g, u)| && Adjacent(g, u)[i] == v;
      assert g.Owns(u, g.begin[u] + i);
    }
    if Edge(g, u, v) {
      var e: nat :| g.Owns(u, e) && e < |g.values| && g.values[e] == v;
      assert Adjacent(g, u)[e - g.begin[u]] == v;
    }
  }

  /** The triangles u < v < w. */
  ghost function AllTriangles(g: Csr): (s: set<(nat, nat, nat)>)
    requires g.WellFormed()
    ensures forall u: nat, v: nat, w: nat :: (u, v, w) in s <==>
              u < v < w < g.Nodes() && Edge(g, u, v) && Edge(g, u, w) && Edge(g, v, w)
  {
    set u: nat, v: nat, w: nat | u < g.Nodes() && v < g.Nodes() && w < g.Nodes()
      && u < v < w && Edge(g, u, v) && Edge(g, u, w) && Edge(g, v, w) :: (u, v, w)
  }

  /** The triangles that have been counted when the lists of the nodes below u, and the first i
      elements of u's own list, have been gone through. */
  ghost function Counted(g: Csr, u: nat, i: nat): (s: set<(nat, nat, nat)>)
    requires g.WellFormed() && u <= g.Nodes() && (if u < g.Nodes() then i <= |Adjacent(g, u)| else i == 0)
  {
    set t | t in AllTriangles(g) && (t.0 < u || (u < g.Nodes() && t.0 == u && t.1 in Adjacent(g, u)[..i]))
  }

  /** The triangles with these first two nodes. */
  ghost function Over(g: Csr, u: nat, v: nat): (s: set<(nat, nat, nat)>)
    requires g.WellFormed()
  {
    set t | t in AllTriangles(g) && t.0 == u && t.1 == v
  }

  lemma CountOver(g: Csr, u: nat, v: nat)
    requires g.WellFormed() && u < v < g.Nodes() && Edge(g, u, v)
    ensures |Over(g, u, v)| == |Common(Adjacent(g, u), Adjacent(g, v), v)|
  {
    var c := Common(Adjacent(g, u), Adjacent(g, v), v);
    forall w: nat ensures (u, v, w) in AllTriangles(g) <==> w in c {
      AdjacentIsEdge(g, u, w);
      AdjacentIsEdge(g, v, w);
    }
    assert Over(g, u, v) == Paired(u, v, c);
    PairedSize(u, v, c);
  }

  ghost function Paired(u: nat, v: nat, c: set<nat>): (s: set<(nat, nat, nat)>)
    ensures forall x: nat, y: nat, w: nat :: (x, y, w) in s <==> x == u && y == v && w in c
  {
    set w | w in c :: (u, v, w)
  }

  lemma {:induction false} PairedSize(u: nat, v: nat, c: set<nat>)
    ensures |Paired(u, v, c)| == |c|
  {
    if w :| w in c {
      PairedSize(u, v, c - {w});
      assert Paired(u, v, c) == Paired(u, v, c - {w}) + {(u, v, w)};
    } else {
      assert Paired(u, v, c) == {};
    }
  }

  lemma CountMore(g: Csr, u: nat, i: nat)
    requires g.WellFormed() && SortedLists(g) && u < g.Nodes() && i < |Adjacent(g, u)|
    ensures var v := Adjacent(g, u)[i];
            |Counted(g, u, i + 1)| == |Counted(g, u, i)| + if u < v then |Common(Adjacent(g, u), Adjacent(g, v), v)| else 0
  {
    hide Csr.WellFormed, Edge;
    var adj := Adjacent(g, u);
    var v := adj[i];
    assert Ascending(adj);
    assert adj[..i + 1] == adj[..i] + [v] && v !in adj[..i];
    AdjacentIsEdge(g, u, v);
    var before, after := Counted(g, u, i), Counted(g, u, i + 1);
    assert after == before + Over(g, u, v);
    assert before !! Over(g, u, v);
    if u < v {
      CountOver(g, u, v);
    } else {
      assert Over(g, u, v) == {};
    }
  }

  lemma NextNode(g: Csr, u: nat)
    requires g.WellFormed() && u < g.Nodes()
    ensures Counted(g, u, |Adjacent(g, u)|) == Counted(g, u + 1, 0)
  {
    var adj := Adjacent(g, u);
    assert adj[..|adj|] == adj;
    forall t | t in AllTriangles(g) && t.0 == u ensures t.1 in adj {
      AdjacentIsEdge(g, u, t.1);
    }
  }

  lemma NoneCounted(g: Csr)
    requires g.WellFormed()
    ensures |Counted(g, 0, 0)| == 0 && Counted(g, g.Nodes(), 0) == AllTriangles(g)
  {
    assert Counted(g, 0, 0) == {};
  }

  lemma ListsSorted(g: Csr, u: nat, i: nat)
    requires g.WellFormed() && SortedLists(g) && u < g.Nodes() && i < |Adjacent(g, u)|
    ensures Adjacent(g, u)[i] < g.Nodes() && Ascending(Adjacent(g, u)) && Ascending(Adjacent(g, Adjacent(g, u)[i]))
  {
    AdjacentIsEdge(g, u, Adjacent(g, u)[i]);
  }

  /** ll_b_triangle_counting_LU::run counts each triangle u < v < w once. */
  method RunLU(g: Csr) returns (total: nat)
    requires g.WellFormed() && SortedLists(g)
    ensures total == |AllTriangles(g)|
  {
    hide Csr.WellFormed, Ascending, Counted, Adjacent, SortedLists;
    total := 0;
    NoneCounted(g);
    for u := 0 to g.Nodes()
      invariant total == |Counted(g, u, 0)|
    {
      var adj := Adjacent(g, u);
      for i := 0 to |adj|
        invariant total == |Counted(g, u, i)|
      {
        var v := adj[i];
        CountMore(g, u, i);
        ListsSorted(g, u, i);
        if u < v {
          var count := CountFor(v, adj, Adjacent(g, v));
          total := total + count;
        }
      }
      NextNode(g, u);
    }
  }

  /** ll_b_triangle_counting_LOD_org::run, which passes only the rest of u's list, from v on. */
  method RunLOD(g: Csr) returns (total: nat)
    requires g.WellFormed() && SortedLists(g)
    ensures total == |AllTriangles(g)|
  {
    hide Csr.WellFormed, Ascending, Counted, Adjacent, SortedLists;
    total := 0;
    NoneCounted(g);
    for u := 0 to g.Nodes()
      invariant total == |Counted(g, u, 0)|
    {
      var adj := Adjacent(g, u);
      for i := 0 to |adj|
        invariant total == |Counted(g, u, i)|
      {
        var v := adj[i];
        CountMore(g, u, i);
        ListsSorted(g, u, i);
        if v <= u {
          continue;
        }
        RestIsEnough(adj, i, Adjacent(g, v));
        var count := CountTriangles(v, adj[i..], Adjacent(g, v));
        total := total + count;
      }
      NextNode(g, u);
    }
  }

  lemma RestIsEnough(adj: seq<nat>, i: nat, b: seq<nat>)
    requires Ascending(adj) && i < |adj|
    ensures Ascending(adj[i..]) && Common(adj[i..], b, adj[i]) == Common(adj, b, adj[i])
  {
    forall x | x in adj && x > adj[i] ensures x in adj[i..] {
      var k :| 0 <= k < |adj| && adj[k] == x;
      assert adj[i..][k - i] == x;
    }
  }
}
