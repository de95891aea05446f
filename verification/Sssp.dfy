/** Shortest paths by rounds of relaxation over double-buffered distances
    (benchmark/benchmarks/sssp.h), and the unweighted variants. */
module Sssp {
  import opened Graph
  import opened Walks
  import Levels
  import HybridBfs
  import ReverseEdges

  /** INT_MAX - 1 */
  const INF: nat := 2147483646

  /** d is the least weight of the walks from the root to v, or INF if they all weigh INF or more. */
  ghost predicate Shortest(g: Csr, w: seq<nat>, root: nat, v: nat, d: nat)
    requires g.WellFormed() && |w| == |g.values|
  {
    && d <= INF
    && (d < INF ==> exists p :: Walk(g, p, root, v) && Weight(w, p) == d)
    && (forall p :: Walk(g, p, root, v) ==> d <= Weight(w, p))
  }

  lemma ShortestUnique(g: Csr, w: seq<nat>, root: nat, v: nat, d: nat, d': nat)
    requires g.WellFormed() && |w| == |g.values| && Shortest(g, w, root, v, d) && Shortest(g, w, root, v, d')
    ensures d == d'
  {
    if d < INF {
      var p :| Walk(g, p, root, v) && Weight(w, p) == d;
    }
    if d' < INF {
      var p :| Walk(g, p, root, v) && Weight(w, p) == d';
    }
  }

  // ---------------------------------------------------------------- what each round keeps

  /** There is a walk of at most k edges that weighs d. */
  ghost predicate HasWalk(g: Csr, w: seq<nat>, root: nat, v: nat, k: nat, d: nat)
    requires g.WellFormed() && |w| == |g.values|
  {
    exists p :: Walk(g, p, root, v) && |p| <= k && Weight(w, p) == d
  }

  /** No walk of at most k edges weighs less than d. */
  ghost predicate AtMost(g: Csr, w: seq<nat>, root: nat, v: nat, k: nat, d: nat)
    requires g.WellFormed() && |w| == |g.values|
  {
    forall p :: Walk(g, p, root, v) && |p| <= k ==> d <= Weight(w, p)
  }

  /** After k rounds the distances are exact for walks of at most k edges; the edges out of a node that
      is not marked have nothing to give; and a marked node got its distance in the last round. */
  ghost predicate AfterRounds(g: Csr, w: seq<nat>, root: nat, k: nat, dist: seq<nat>, updated: seq<bool>)
    requires g.WellFormed() && |w| == |g.values|
  {
    && |dist| == |updated| == g.Nodes()
    && (forall v :: 0 <= v < |dist| ==> dist[v] <= INF && AtMost(g, w, root, v, k, dist[v]))
    && (forall v :: 0 <= v < |dist| && dist[v] < INF ==> HasWalk(g, w, root, v, k, dist[v]))
    && (forall e: nat :: e < |g.values| && !updated[g.Owner(e)] ==> dist[g.values[e]] <= dist[g.Owner(e)] + w[e])
    && (forall v :: 0 <= v < |dist| && updated[v] ==> dist[v] < INF)
    && (k >= 2 ==> forall v :: 0 <= v < |dist| && updated[v] ==> AtMost(g, w, root, v, k - 1, dist[v] + 1))
  }

  lemma Start(g: Csr, w: seq<nat>, root: nat, dist: seq<nat>, updated: seq<bool>)
    requires g.WellFormed() && |w| == |g.values| && root < g.Nodes() && |dist| == |updated| == g.Nodes()
    requires forall v :: 0 <= v < |dist| ==> dist[v] == (if v == root then 0 else INF) && updated[v] == (v == root)
    ensures AfterRounds(g, w, root, 0, dist, updated)
  {
    assert Walk(g, [], root, root) && Weight(w, []) == 0;
    assert HasWalk(g, w, root, root, 0, 0);
  }

  /** When no node is marked the distances are final. */
  lemma Finish(g: Csr, w: seq<nat>, root: nat, k: nat, dist: seq<nat>, updated: seq<bool>, v: nat)
    requires g.WellFormed() && |w| == |g.values| && root < g.Nodes() && AfterRounds(g, w, root, k, dist, updated)
    requires v < |dist| && forall u :: 0 <= u < |updated| ==> !updated[u]
    ensures Shortest(g, w, root, v, dist[v])
  {
    forall p | Walk(g, p, root, v) ensures dist[v] <= Weight(w, p) {
      Lighter(g, w, root, k, dist, updated, p, v);
    }
    if dist[v] < INF {
      assert HasWalk(g, w, root, v, k, dist[v]);
    }
  }

  lemma {:induction false} Lighter(g: Csr, w: seq<nat>, root: nat, k: nat, dist: seq<nat>, updated: seq<bool>, p: seq<nat>, v: nat)
    requires g.WellFormed() && |w| == |g.values| && root < g.Nodes() && AfterRounds(g, w, root, k, dist, updated)
    requires v < |dist| && (forall u :: 0 <= u < |updated| ==> !updated[u]) && Walk(g, p, root, v)
    ensures dist[v] <= Weight(w, p)
    decreases |p|
  {
    if p == [] {
      assert AtMost(g, w, root, v, k, dist[v]);
    } else {
      WalkFront(g, p, root, v);
      Lighter(g, w, root, k, dist, updated, p[..|p| - 1], g.Owner(p[|p| - 1]));
    }
  }

  /** From round max(n, 2) on no node is marked. */
  lemma NoneMarked(g: Csr, w: seq<nat>, root: nat, k: nat, dist: seq<nat>, updated: seq<bool>)
    requires g.WellFormed() && |w| == |g.values| && root < g.Nodes() && AfterRounds(g, w, root, k, dist, updated)
    requires k >= 2 && k >= g.Nodes()
    ensures forall v :: 0 <= v < |updated| ==> !updated[v]
  {
    hide HasWalk, AtMost, Csr.WellFormed;
    forall v | 0 <= v < |updated| && dist[v] < INF ensures !AtMost(g, w, root, v, k - 1, dist[v] + 1) {
      NotLessThanAll(g, w, root, v, k, dist[v]);
    }
  }

  lemma NotLessThanAll(g: Csr, w: seq<nat>, root: nat, v: nat, k: nat, d: nat)
    requires g.WellFormed() && |w| == |g.values| && root < g.Nodes() && k >= g.Nodes() && HasWalk(g, w, root, v, k, d)
    ensures !AtMost(g, w, root, v, k - 1, d + 1)
  {
    var p :| Walk(g, p, root, v) && |p| <= k && Weight(w, p) == d;
    var q := ShortWalk(g, w, p, root, v);
    assert Walk(g, q, root, v) && |q| <= k - 1;
  }

  // ---------------------------------------------------------------- one round

  /** The relaxation pass after j of its edges. */
  ghost predicate Relaxed(g: Csr, w: seq<nat>, order: seq<(nat, nat)>, j: nat, dist: seq<nat>, updated: seq<bool>, nxt: seq<nat>)
    requires g.WellFormed() && |w| == |g.values| && ReverseEdges.Schedule(g, order) && j <= |order| && |dist| == |updated| == g.Nodes()
  {
    && |nxt| == |dist| && (forall v :: 0 <= v < |nxt| ==> nxt[v] <= dist[v])
    && (forall i :: 0 <= i < j ==> updated[order[i].0] ==> nxt[g.values[order[i].1]] <= dist[order[i].0] + w[order[i].1])
    && (forall v :: 0 <= v < |nxt| && nxt[v] < dist[v] ==> Via(g, w, dist, updated, v, nxt[v]))
  }

  /** d is what some marked node offers v. */
  ghost predicate Via(g: Csr, w: seq<nat>, dist: seq<nat>, updated: seq<bool>, v: nat, d: nat)
    requires g.WellFormed() && |w| == |g.values| && |dist| == |updated| == g.Nodes()
  {
    exists e: nat :: e < |g.values| && updated[g.Owner(e)] && g.values[e] == v && d == dist[g.Owner(e)] + w[e]
  }

  lemma RelaxOne(g: Csr, w: seq<nat>, order: seq<(nat, nat)>, j: nat, dist: seq<nat>, updated: seq<bool>, nxt: seq<nat>)
    requires g.WellFormed() && |w| == |g.values| && ReverseEdges.Schedule(g, order) && j < |order| && |dist| == |updated| == g.Nodes()
    requires Relaxed(g, w, order, j, dist, updated, nxt)
    ensures var n, e := order[j].0, order[j].1; var s := g.values[e];
            Relaxed(g, w, order, j + 1, dist, updated, if updated[n] && nxt[s] > dist[n] + w[e] then nxt[s := dist[n] + w[e]] else nxt)
  {
    hide Via;
    var n, e := order[j].0, order[j].1;
    g.OwnerUnique(n, e);
    InGraph(g, n, e);
    if updated[n] {
      Offer(g, w, dist, updated, e);
    }
  }

  lemma Offer(g: Csr, w: seq<nat>, dist: seq<nat>, updated: seq<bool>, e: nat)
    requires g.WellFormed() && |w| == |g.values| && |dist| == |updated| == g.Nodes()
    requires e < |g.values| && updated[g.Owner(e)]
    ensures Via(g, w, dist, updated, g.values[e], dist[g.Owner(e)] + w[e])
  {
  }

  /** All edges of marked nodes have been relaxed. */
  ghost predicate Round(g: Csr, w: seq<nat>, dist: seq<nat>, updated: seq<bool>, nxt: seq<nat>)
    requires g.WellFormed() && |w| == |g.values| && |dist| == |updated| == g.Nodes()
  {
    && |nxt| == |dist| && (forall v :: 0 <= v < |nxt| ==> nxt[v] <= dist[v])
    && (forall e: nat :: e < |g.values| && updated[g.Owner(e)] ==> nxt[g.values[e]] <= dist[g.Owner(e)] + w[e])
    && (forall v :: 0 <= v < |nxt| && nxt[v] < dist[v] ==> Via(g, w, dist, updated, v, nxt[v]))
  }

  lemma AllRelaxed(g: Csr, w: seq<nat>, order: seq<(nat, nat)>, dist: seq<nat>, updated: seq<bool>, nxt: seq<nat>)
    requires g.WellFormed() && |w| == |g.values| && ReverseEdges.Schedule(g, order) && |dist| == |updated| == g.Nodes()
    requires Relaxed(g, w, order, |order|, dist, updated, nxt)
    ensures Round(g, w, dist, updated, nxt)
  {
    forall e: nat | e < |g.values| && updated[g.Owner(e)] ensures nxt[g.values[e]] <= dist[g.Owner(e)] + w[e] {
      ReverseEdges.AllSeen(g, order, e);
      var i :| 0 <= i < |order| && order[i].1 == e;
      g.OwnerUnique(order[i].0, e);
    }
  }

  /** A round makes the distances exact for walks of one more edge. */
  lemma NextRound(g: Csr, w: seq<nat>, root: nat, k: nat, dist: seq<nat>, updated: seq<bool>, nxt: seq<nat>, marks: seq<bool>)
    requires g.WellFormed() && |w| == |g.values| && root < g.Nodes() && AfterRounds(g, w, root, k, dist, updated)
    requires Round(g, w, dist, updated, nxt) && |marks| == |nxt|
    requires forall v :: 0 <= v < |nxt| ==> (marks[v] <==> nxt[v] < dist[v] || (k == 0 && v == root))
    ensures AfterRounds(g, w, root, k + 1, nxt, marks)
  {
    hide AtMost, HasWalk, Via;
    forall v | 0 <= v < |nxt| ensures AtMost(g, w, root, v, k + 1, nxt[v]) {
      NextAtMost(g, w, root, k, dist, updated, nxt, v);
    }
    forall v | 0 <= v < |nxt| && nxt[v] < INF ensures HasWalk(g, w, root, v, k + 1, nxt[v]) {
      NextHasWalk(g, w, root, k, dist, updated, nxt, v);
    }
    forall v | 0 <= v < |nxt| && marks[v] ensures nxt[v] < INF && (k >= 1 ==> AtMost(g, w, root, v, k, nxt[v] + 1)) {
      if k >= 1 {
        StillAtMost(g, w, root, v, k, dist[v], nxt[v] + 1);
      } else {
        RootAtMost(g, w, root, k, dist[root]);
      }
    }
  }

  lemma StillAtMost(g: Csr, w: seq<nat>, root: nat, v: nat, k: nat, d: nat, d': nat)
    requires g.WellFormed() && |w| == |g.values| && AtMost(g, w, root, v, k, d) && d' <= d
    ensures AtMost(g, w, root, v, k, d')
  {
  }

  lemma RootAtMost(g: Csr, w: seq<nat>, root: nat, k: nat, d: nat)
    requires g.WellFormed() && |w| == |g.values| && AtMost(g, w, root, root, k, d)
    ensures d == 0
  {
    assert Walk(g, [], root, root) && Weight(w, []) == 0;
  }

  lemma NextAtMost(g: Csr, w: seq<nat>, root: nat, k: nat, dist: seq<nat>, updated: seq<bool>, nxt: seq<nat>, v: nat)
    requires g.WellFormed() && |w| == |g.values| && AfterRounds(g, w, root, k, dist, updated)
    requires Round(g, w, dist, updated, nxt) && v < |nxt|
    ensures AtMost(g, w, root, v, k + 1, nxt[v])
  {
    hide Walk, Weight, HasWalk, Via, Csr.WellFormed;
    EdgesOf(g, root);
    forall p | Walk(g, p, root, v) && |p| <= k + 1 ensures nxt[v] <= Weight(w, p) {
      if |p| <= k {
        assert AtMost(g, w, root, v, k, dist[v]);
      } else {
        var e := LastEdge(g, w, root, k, p, v, dist);
      }
    }
  }

  lemma EdgesOf(g: Csr, root: nat)
    requires g.WellFormed()
    ensures forall p, v :: Walk(g, p, root, v) ==> forall i :: 0 <= i < |p| ==> p[i] < |g.values|
  {
  }

  lemma LastEdge(g: Csr, w: seq<nat>, root: nat, k: nat, p: seq<nat>, v: nat, dist: seq<nat>) returns (e: nat)
    requires g.WellFormed() && |w| == |g.values| && Walk(g, p, root, v) && |p| == k + 1 && |dist| == g.Nodes()
    requires forall u :: 0 <= u < |dist| ==> AtMost(g, w, root, u, k, dist[u])
    ensures e < |g.values| && g.values[e] == v && dist[g.Owner(e)] + w[e] <= Weight(w, p)
  {
    WalkFront(g, p, root, v);
    e := p[|p| - 1];
    assert AtMost(g, w, root, g.Owner(e), k, dist[g.Owner(e)]);
  }

  lemma NextHasWalk(g: Csr, w: seq<nat>, root: nat, k: nat, dist: seq<nat>, updated: seq<bool>, nxt: seq<nat>, v: nat)
    requires g.WellFormed() && |w| == |g.values| && AfterRounds(g, w, root, k, dist, updated)
    requires Round(g, w, dist, updated, nxt) && v < |nxt| && nxt[v] < INF
    ensures HasWalk(g, w, root, v, k + 1, nxt[v])
  {
    hide HasWalk, AtMost, Csr.WellFormed;
    if nxt[v] == dist[v] {
      WalkKept(g, w, root, v, k, dist[v]);
    } else {
      var e: nat :| e < |g.values| && updated[g.Owner(e)] && g.values[e] == v && nxt[v] == dist[g.Owner(e)] + w[e];
      WalkExtended(g, w, root, e, k, dist[g.Owner(e)]);
    }
  }

  lemma WalkKept(g: Csr, w: seq<nat>, root: nat, v: nat, k: nat, d: nat)
    requires g.WellFormed() && |w| == |g.values| && HasWalk(g, w, root, v, k, d)
    ensures HasWalk(g, w, root, v, k + 1, d)
  {
    var p :| Walk(g, p, root, v) && |p| <= k && Weight(w, p) == d;
    assert |p| <= k + 1;
  }

  lemma WalkExtended(g: Csr, w: seq<nat>, root: nat, e: nat, k: nat, d: nat)
    requires g.WellFormed() && |w| == |g.values| && e < |g.values| && HasWalk(g, w, root, g.Owner(e), k, d)
    ensures HasWalk(g, w, root, g.values[e], k + 1, d + w[e])
  {
    hide Walk, Weight, Csr.WellFormed;
    EdgesOf(g, root);
    var p :| Walk(g, p, root, g.Owner(e)) && |p| <= k && Weight(w, p) == d;
    WalkOn(g, p, root, e);
    WeightOn(w, p, e);
    assert |p + [e]| <= k + 1;
  }

  /** The first parallel loop of a round, whatever the order in which the threads get to the edges. */
  method RelaxPass(g: Csr, w: seq<nat>, order: seq<(nat, nat)>, dist: array<nat>, updated: array<bool>, distNxt: array<nat>, updatedNxt: array<bool>)
    requires g.WellFormed() && |w| == |g.values| && ReverseEdges.Schedule(g, order)
    requires dist.Length == updated.Length == distNxt.Length == updatedNxt.Length == g.Nodes()
    requires dist != distNxt && updated != updatedNxt && dist[..] == distNxt[..]
    modifies distNxt, updatedNxt
    ensures Round(g, w, dist[..], updated[..], distNxt[..])
    ensures forall v :: 0 <= v < updatedNxt.Length ==> (updatedNxt[v] <==> old(updatedNxt[v]) || distNxt[v] < dist[v])
  {
    hide Csr.WellFormed, Relaxed, Round;
    NothingRelaxed(g, w, order, dist[..], updated[..]);
    for j := 0 to |order|
      invariant Relaxed(g, w, order, j, dist[..], updated[..], distNxt[..])
      invariant forall v :: 0 <= v < distNxt.Length ==> distNxt[v] <= dist[v]
      invariant forall v :: 0 <= v < updatedNxt.Length ==> (updatedNxt[v] <==> old(updatedNxt[v]) || distNxt[v] < dist[v])
    {
      RelaxOne(g, w, order, j, dist[..], updated[..], distNxt[..]);
      var n, e := order[j].0, order[j].1;
      ghost var before := distNxt[..];
      InGraph(g, n, e);
      if updated[n] {
        var s := g.values[e];
        var distNxtNew := dist[n] + w[e];
        if distNxt[s] > distNxtNew {
          distNxt[s] := distNxtNew;
          updatedNxt[s] := true;
          assert distNxt[..] == before[s := distNxtNew];
        }
      }
    }
    AllRelaxed(g, w, order, dist[..], updated[..], distNxt[..]);
  }

  lemma InGraph(g: Csr, n: nat, e: nat)
    requires g.WellFormed() && g.Owns(n, e)
    ensures n < g.Nodes() && e < |g.values| && g.values[e] < g.Nodes()
  {
    g.OwnerUnique(n, e);
  }

  lemma NothingRelaxed(g: Csr, w: seq<nat>, order: seq<(nat, nat)>, dist: seq<nat>, updated: seq<bool>)
    requires g.WellFormed() && |w| == |g.values| && ReverseEdges.Schedule(g, order) && |dist| == |updated| == g.Nodes()
    ensures Relaxed(g, w, order, 0, dist, updated, dist)
  {
  }

  /** The second parallel loop of a round: the next buffers become the current ones. */
  method CopyPass(dist: array<nat>, updated: array<bool>, distNxt: array<nat>, updatedNxt: array<bool>) returns (any: bool)
    requires dist.Length == updated.Length == distNxt.Length == updatedNxt.Length
    requires dist != distNxt && updated != updatedNxt
    modifies dist, updated, updatedNxt
    ensures dist[..] == distNxt[..] && updated[..] == old(updatedNxt[..])
    ensures forall v :: 0 <= v < updatedNxt.Length ==> !updatedNxt[v]
    ensures any <==> exists v :: 0 <= v < updated.Length && updated[v]
  {
    any := false;
    for t := 0 to dist.Length
      invariant forall v :: 0 <= v < t ==> dist[v] == distNxt[v] && updated[v] == old(updatedNxt[v]) && !updatedNxt[v]
      invariant forall v :: t <= v < dist.Length ==> updatedNxt[v] == old(updatedNxt[v])
      invariant any <==> exists v :: 0 <= v < t && updated[v]
    {
      dist[t] := distNxt[t];
      updated[t] := updatedNxt[t];
      updatedNxt[t] := false;
      any := any || updated[t];
    }
  }

  /** ll_b_sssp_weighted::run: shortest distances in at most |V| + 1 rounds. */
  method Weighted(g: Csr, w: seq<nat>, root: nat, schedule: nat -> seq<(nat, nat)>) returns (distances: seq<nat>, rounds: nat)
    requires g.WellFormed() && |w| == |g.values| && root < g.Nodes()
    requires forall i :: ReverseEdges.Schedule(g, schedule(i))
    ensures |distances| == g.Nodes() && forall v :: 0 <= v < |distances| ==> Shortest(g, w, root, v, distances[v])
    ensures rounds <= g.Nodes() + 1
  {
    hide Csr.WellFormed, AfterRounds, Round, Shortest;
    var n := g.Nodes();
    var dist, distNxt := new nat[n](v => if v == root then 0 else INF), new nat[n](v => if v == root then 0 else INF);
    var updated, updatedNxt := new bool[n](v => v == root), new bool[n](v => v == root);
    Start(g, w, root, dist[..], updated[..]);
    assert dist[..] == distNxt[..];
    rounds := 0;
    var fin := false;
    while !fin
      invariant AfterRounds(g, w, root, rounds, dist[..], updated[..]) && dist[..] == distNxt[..]
      invariant forall v :: 0 <= v < n ==> (updatedNxt[v] <==> rounds == 0 && v == root)
      invariant rounds <= n + 1 && (rounds == n + 1 ==> fin)
      invariant fin ==> forall v :: 0 <= v < n ==> !updated[v]
      decreases n + 1 - rounds
    {
      var any := OneRound(g, w, root, schedule(rounds), rounds, dist, updated, distNxt, updatedNxt);
      rounds := rounds + 1;
      if rounds == n + 1 {
        NoneMarked(g, w, root, rounds, dist[..], updated[..]);
      }
      fin := !any;
    }
    distances := dist[..];
    forall v | 0 <= v < n ensures Shortest(g, w, root, v, distances[v]) {
      Finish(g, w, root, rounds, dist[..], updated[..], v);
    }
  }

  /** The body of the loop of ll_b_sssp_weighted::run. */
  method OneRound(g: Csr, w: seq<nat>, root: nat, order: seq<(nat, nat)>, ghost k: nat,
                  dist: array<nat>, updated: array<bool>, distNxt: array<nat>, updatedNxt: array<bool>)
    returns (any: bool)
    requires g.WellFormed() && |w| == |g.values| && root < g.Nodes() && ReverseEdges.Schedule(g, order)
    requires dist.Length == updated.Length == distNxt.Length == updatedNxt.Length == g.Nodes()
    requires dist != distNxt && updated != updatedNxt && dist[..] == distNxt[..]
    requires AfterRounds(g, w, root, k, dist[..], updated[..])
    requires forall v :: 0 <= v < g.Nodes() ==> (updatedNxt[v] <==> k == 0 && v == root)
    modifies dist, updated, distNxt, updatedNxt
    ensures AfterRounds(g, w, root, k + 1, dist[..], updated[..]) && dist[..] == distNxt[..]
    ensures forall v :: 0 <= v < g.Nodes() ==> !updatedNxt[v]
    ensures any <==> exists v :: 0 <= v < updated.Length && updated[v]
  {
    hide Csr.WellFormed, AfterRounds, Round;
    ghost var dist0, updated0 := dist[..], updated[..];
    RelaxPass(g, w, order, dist, updated, distNxt, updatedNxt);
    NextRound(g, w, root, k, dist0, updated0, distNxt[..], updatedNxt[..]);
    any := CopyPass(dist, updated, distNxt, updatedNxt);
  }

  /** The distances do not depend on the order in which the threads get to the edges. */
  method AnyOrderAgrees(g: Csr, w: seq<nat>, root: nat, schedule: nat -> seq<(nat, nat)>, schedule': nat -> seq<(nat, nat)>)
    returns (distances: seq<nat>, distances': seq<nat>)
    requires g.WellFormed() && |w| == |g.values| && root < g.Nodes()
    requires forall i :: ReverseEdges.Schedule(g, schedule(i)) && ReverseEdges.Schedule(g, schedule'(i))
    ensures distances == distances'
  {
    hide Csr.WellFormed, Shortest;
    var rounds;
    distances, rounds := Weighted(g, w, root, schedule);
    distances', rounds := Weighted(g, w, root, schedule');
    forall v | 0 <= v < |distances| ensures distances[v] == distances'[v] {
      ShortestUnique(g, w, root, v, distances[v], distances'[v]);
    }
  }

  // ---------------------------------------------------------------- unweighted

  function Ones(n: nat): (w: seq<nat>)
    ensures |w| == n && forall e :: 0 <= e < n ==> w[e] == 1
  {
    seq(n, _ => 1)
  }

  /** ll_b_sssp_unweighted_iter::run: the same rounds, with 1 for the weight of each edge. */
  method UnweightedIter(g: Csr, root: nat, schedule: nat -> seq<(nat, nat)>) returns (distances: seq<nat>)
    requires g.WellFormed() && root < g.Nodes() && forall i :: ReverseEdges.Schedule(g, schedule(i))
    ensures |distances| == g.Nodes()
    ensures forall v :: 0 <= v < |distances| ==> Shortest(g, Ones(|g.values|), root, v, distances[v])
  {
    hide Csr.WellFormed, Shortest;
    var rounds;
    distances, rounds := Weighted(g, Ones(|g.values|), root, schedule);
  }

  /** The conversion of a level to short, which is the level type of u_sssp_bfs. */
  function AsShort(level: int): int {
    (level + 0x8000) % 0x1_0000 - 0x8000
  }

  /** It drops all but 16 bits. */
  lemma ShortRange(level: int)
    ensures -32768 <= AsShort(level) <= 32767 && (level - AsShort(level)) % 65536 == 0
  {
  }

  const MAX_SHORT: nat := 0x7fff

  /** ll_b_sssp_unweighted_bfs::run: INF for every node, and then the level of each node that the
      search visits, as a short. */
  method UnweightedBfs(g: Csr, root: nat) returns (distances: seq<int>)
    requires g.WellFormed() && root < g.Nodes()
    ensures |distances| == g.Nodes()
    ensures forall v, d: nat :: 0 <= v < |distances| && IsDistance(g, root, v, d) ==>
              distances[v] == AsShort(d) && -32768 <= distances[v] <= 32767 && (d - distances[v]) % 65536 == 0
    ensures forall v :: 0 <= v < |distances| && !Reachable(g, root, v) ==> distances[v] == 2147483646
  {
    hide IsDistance, Reachable, AsShort;
    var levels, down, forward, backward := HybridBfs.RunBfs(g, root);
    distances := seq(g.Nodes(), _ => INF);
    for i := 0 to |forward|
      invariant |distances| == g.Nodes()
      invariant forall v: nat :: v < g.Nodes() ==> distances[v] == if v in forward[..i] then AsShort(levels[v]) else INF
    {
      assert forward[i] in forward;
      distances := distances[forward[i] := AsShort(levels[forward[i]])];
      assert forward[..i + 1] == forward[..i] + [forward[i]];
    }
    forall v: nat, d: nat | v < g.Nodes() && IsDistance(g, root, v, d)
      ensures distances[v] == AsShort(d) && -32768 <= distances[v] <= 32767 && (d - distances[v]) % 65536 == 0
    {
      ShortRange(d);
      HybridBfs.DistanceReaches(g, root, v);
      assert v in forward;
      HybridBfs.DistanceUnique(g, root, v, d, levels[v]);
    }
  }

  lemma {:induction false} UnitWeight(n: nat, p: seq<nat>)
    requires forall i :: 0 <= i < |p| ==> p[i] < n
    ensures Weight(Ones(n), p) == |p|
  {
    if p != [] {
      UnitWeight(n, p[..|p| - 1]);
    }
  }

  /** A path of nodes is a walk of edges, and the other way round. */
  lemma {:induction false} PathToWalk(g: Csr, p: seq<nat>, u: nat, v: nat) returns (q: seq<nat>)
    requires g.WellFormed() && Path(g, p, u, v)
    ensures Walk(g, q, u, v) && |q| == |p| - 1
    decreases |p|
  {
    if |p| == 1 {
      q := [];
    } else {
      var n := |p| - 1;
      assert Edge(g, p[n - 1], p[n]);
      var e: nat :| g.Owns(p[n - 1], e) && e < |g.values| && g.values[e] == p[n];
      g.OwnerUnique(p[n - 1], e);
      forall i | 0 <= i < |p[..n]| - 1 ensures Edge(g, p[..n][i], p[..n][i + 1]) {
        assert Edge(g, p[i], p[i + 1]);
      }
      var front := PathToWalk(g, p[..n], u, p[n - 1]);
      WalkOn(g, front, u, e);
      q := front + [e];
    }
  }

  lemma {:induction false} WalkToPath(g: Csr, q: seq<nat>, u: nat, v: nat) returns (p: seq<nat>)
    requires g.WellFormed() && Walk(g, q, u, v)
    ensures Path(g, p, u, v) && |p| == |q| + 1
    decreases |q|
  {
    if q == [] {
      p := [u];
    } else {
      var e := q[|q| - 1];
      WalkFront(g, q, u, v);
      var front := WalkToPath(g, q[..|q| - 1], u, g.Owner(e));
      p := front + [v];
      assert Edge(g, g.Owner(e), v);
      forall i | 0 <= i < |p| - 1 ensures Edge(g, p[i], p[i + 1]) {
        assert i < |front| - 1 ==> Edge(g, front[i], front[i + 1]);
      }
    }
  }

  /** With unit weights, shortest is the number of edges (graphs with INF or more nodes aside). */
  lemma UnitShortest(g: Csr, root: nat, v: nat, d: nat)
    requires g.WellFormed() && root < g.Nodes() <= INF && Shortest(g, Ones(|g.values|), root, v, d)
    ensures if Reachable(g, root, v) then IsDistance(g, root, v, d) else d == INF
  {
    hide Csr.WellFormed, Edge;
    var w := Ones(|g.values|);
    EdgesOf(g, root);
    forall p | Path(g, p, root, v) ensures d + 1 <= |p| {
      var q := PathToWalk(g, p, root, v);
      UnitWeight(|g.values|, q);
    }
    if d < INF {
      var q :| Walk(g, q, root, v) && Weight(w, q) == d;
      UnitWeight(|g.values|, q);
      var p := WalkToPath(g, q, root, v);
      assert Path(g, p, root, v) && |p| == d + 1;
    } else if Reachable(g, root, v) {
      var p :| Path(g, p, root, v);
      var q := PathToWalk(g, p, root, v);
      var r := ShortWalk(g, w, q, root, v);
      UnitWeight(|g.values|, r);
      assert false;
    }
  }

  /** A distance is less than the number of nodes. */
  lemma DistanceBelowNodes(g: Csr, root: nat, v: nat, d: nat)
    requires g.WellFormed() && root < g.Nodes() && IsDistance(g, root, v, d)
    ensures d < g.Nodes()
  {
    hide Csr.WellFormed, Edge;
    var p :| Path(g, p, root, v) && |p| == d + 1;
    var q := PathToWalk(g, p, root, v);
    var r := ShortWalk(g, Ones(|g.values|), q, root, v);
    var short := WalkToPath(g, r, root, v);
  }

  /** The two unweighted versions agree exactly on the graphs in which every distance fits a short; on
      the others only the rounds are right. */
  method UnweightedAgree(g: Csr, root: nat, schedule: nat -> seq<(nat, nat)>) returns (byRounds: seq<nat>, byLevels: seq<int>)
    requires g.WellFormed() && root < g.Nodes() <= INF && forall i :: ReverseEdges.Schedule(g, schedule(i))
    ensures |byRounds| == |byLevels| == g.Nodes()
    ensures forall v :: 0 <= v < |byRounds| ==> if Reachable(g, root, v) then IsDistance(g, root, v, byRounds[v]) else byRounds[v] == INF
    ensures (forall v :: 0 <= v < |byRounds| ==> byRounds[v] == byLevels[v])
            <==> forall v: nat, d: nat :: v < g.Nodes() && IsDistance(g, root, v, d) ==> d <= MAX_SHORT
    ensures g.Nodes() <= MAX_SHORT + 1 ==> forall v :: 0 <= v < |byRounds| ==> byRounds[v] == byLevels[v]
  {
    hide IsDistance, Reachable, Shortest, Csr.WellFormed;
    byRounds := UnweightedIter(g, root, schedule);
    byLevels := UnweightedBfs(g, root);
    forall v | 0 <= v < |byRounds|
      ensures if Reachable(g, root, v) then IsDistance(g, root, v, byRounds[v]) else byRounds[v] == INF
    {
      UnitShortest(g, root, v, byRounds[v]);
    }
    forall v: nat, d: nat | v < g.Nodes() && IsDistance(g, root, v, d)
      ensures d == byRounds[v] < g.Nodes() && (byRounds[v] == byLevels[v] <==> d <= MAX_SHORT)
    {
      HybridBfs.DistanceReaches(g, root, v);
      HybridBfs.DistanceUnique(g, root, v, d, byRounds[v]);
      DistanceBelowNodes(g, root, v, d);
    }
    forall v | 0 <= v < |byRounds| && !Reachable(g, root, v) ensures byRounds[v] == byLevels[v] { }
  }

  // ---------------------------------------------------------------- a graph that is too long

  /** 0 -> 1 -> ... -> n - 1 */
  function PathGraph(n: nat): (g: Csr)
    requires n > 0
    ensures g.WellFormed() && g.Nodes() == n
  {
    Csr(seq(n, i => i) + [n - 1], seq(n - 1, i => i + 1))
  }

  lemma PathGraphEdge(n: nat, u: nat, v: nat)
    requires n > 0
    ensures Edge(PathGraph(n), u, v) <==> v == u + 1 < n
  {
    var g := PathGraph(n);
    if v == u + 1 < n {
      assert g.Owns(u, u) && u < |g.values| && g.values[u] == v;
    }
  }

  lemma {:induction false} PathGraphStep(n: nat, p: seq<nat>, v: nat, i: nat)
    requires n > 0 && Path(PathGraph(n), p, 0, v) && i < |p|
    ensures p[i] == i
  {
    hide Edge;
    if i > 0 {
      PathGraphStep(n, p, v, i - 1);
      assert Edge(PathGraph(n), p[i - 1], p[i - 1 + 1]);
      PathGraphEdge(n, p[i - 1], p[i]);
    }
  }

  /** In it node v is v edges away from node 0. */
  lemma PathGraphDistance(n: nat, v: nat)
    requires v < n
    ensures IsDistance(PathGraph(n), 0, v, v)
  {
    hide Edge;
    var p: seq<nat> := seq(v + 1, i => i);
    forall i | 0 <= i < |p| - 1 ensures Edge(PathGraph(n), p[i], p[i + 1]) {
      PathGraphEdge(n, i, i + 1);
    }
    assert Path(PathGraph(n), p, 0, v) && |p| == v + 1;
    forall q | Path(PathGraph(n), q, 0, v) ensures v + 1 <= |q| {
      PathGraphStep(n, q, v, |q| - 1);
    }
  }

  /** With 32769 nodes the last one is too far away: the search gives it the distance -32768. */
  method TooFar() returns (byLevels: seq<int>)
    ensures |byLevels| == MAX_SHORT + 2 && byLevels[MAX_SHORT + 1] == -0x8000
    ensures IsDistance(PathGraph(MAX_SHORT + 2), 0, MAX_SHORT + 1, MAX_SHORT + 1)
  {
    hide IsDistance, Reachable, Csr.WellFormed;
    PathGraphDistance(MAX_SHORT + 2, MAX_SHORT + 1);
    byLevels := UnweightedBfs(PathGraph(MAX_SHORT + 2), 0);
  }
}
