/** The specification of breadth-first search: one level at a time, whatever the order within a
    level, and whatever data structures record it (llama/include/llama/ll_bfs_template.h). */
module Levels {
  import Sets
  import opened Graph
  import opened Sequences

  const INVALID_LEVEL: int := -2

  ghost function Elements(s: seq<nat>): (r: set<nat>)
    ensures forall x :: x in r <==> x in s
  {
    set x | x in s
  }

  lemma {:induction false} DistinctSize(s: seq<nat>)
    requires Distinct(s)
    ensures |Elements(s)| == |s|
  {
    if s == [] {
      assert Elements(s) == {};
    } else {
      var n := |s| - 1;
      DistinctSize(s[..n]);
      assert s[n] !in Elements(s[..n]);
      assert Elements(s) == Elements(s[..n]) + {s[n]};
    }
  }

  lemma DistinctBounded(s: seq<nat>, n: nat)
    requires Distinct(s) && forall x :: x in s ==> x < n
    ensures |s| <= n
  {
    DistinctSize(s);
    Sets.SubsetSize(Elements(s), Sets.Upto(n));
  }

  // ---------------------------------------------------------------- balls

  /** The nodes at most k edges away from the root. */
  ghost function Ball(g: Csr, root: nat, k: nat): (b: set<nat>)
    requires g.WellFormed() && root < g.Nodes()
    ensures root in b && forall v :: v in b ==> v < g.Nodes()
  {
    if k == 0 then {root}
    else Ball(g, root, k - 1) + set v: nat | v in Sets.Upto(g.Nodes()) && exists u :: u in Ball(g, root, k - 1) && Edge(g, u, v)
  }

  /** Level d: in the ball of radius d but in no smaller one. */
  ghost predicate AtLevel(g: Csr, root: nat, v: nat, d: nat)
    requires g.WellFormed() && root < g.Nodes()
  {
    v in Ball(g, root, d) && (d > 0 ==> v !in Ball(g, root, d - 1))
  }

  lemma BallGrows(g: Csr, root: nat, k: nat)
    requires g.WellFormed() && root < g.Nodes()
    ensures Ball(g, root, k) <= Ball(g, root, k + 1)
  {
  }

  lemma SmallestBall(g: Csr, root: nat, v: nat)
    requires g.WellFormed() && root < g.Nodes()
    ensures v in Ball(g, root, 0) <==> v == root
  {
  }

  lemma BallStep(g: Csr, root: nat, k: nat, u: nat, v: nat)
    requires g.WellFormed() && root < g.Nodes() && u in Ball(g, root, k) && Edge(g, u, v)
    ensures v in Ball(g, root, k + 1)
  {
    var e: nat :| g.Owns(u, e) && e < |g.values| && g.values[e] == v;
  }

  lemma BallBack(g: Csr, root: nat, k: nat, v: nat) returns (u: nat)
    requires g.WellFormed() && root < g.Nodes() && v in Ball(g, root, k + 1) && v !in Ball(g, root, k)
    ensures u in Ball(g, root, k) && Edge(g, u, v)
  {
    u :| u in Ball(g, root, k) && Edge(g, u, v);
  }

  lemma {:induction false} BallMonotone(g: Csr, root: nat, j: nat, k: nat)
    requires g.WellFormed() && root < g.Nodes() && j <= k
    ensures Ball(g, root, j) <= Ball(g, root, k)
    decreases k
  {
    hide Ball;
    if j < k {
      BallMonotone(g, root, j, k - 1);
      BallGrows(g, root, k - 1);
    }
  }

  lemma {:induction false} BallHasPath(g: Csr, root: nat, k: nat, v: nat) returns (p: seq<nat>)
    requires g.WellFormed() && root < g.Nodes() && v in Ball(g, root, k)
    ensures Path(g, p, root, v) && |p| <= k + 1
    decreases k
  {
    hide Ball, Edge;
    SmallestBall(g, root, v);
    if k == 0 {
      p := [root];
    } else if v in Ball(g, root, k - 1) {
      p := BallHasPath(g, root, k - 1, v);
    } else {
      var u := BallBack(g, root, k - 1, v);
      var q := BallHasPath(g, root, k - 1, u);
      p := q + [v];
      forall i | 0 <= i < |p| - 1 ensures Edge(g, p[i], p[i + 1]) {
        assert i < |q| - 1 ==> Edge(g, q[i], q[i + 1]);
      }
    }
  }

  lemma {:induction false} PathInBall(g: Csr, root: nat, p: seq<nat>, v: nat)
    requires g.WellFormed() && root < g.Nodes() && Path(g, p, root, v)
    ensures v in Ball(g, root, |p| - 1)
    decreases |p|
  {
    hide Ball, Edge;
    SmallestBall(g, root, v);
    if |p| > 1 {
      var n := |p| - 1;
      var q := p[..n];
      forall i | 0 <= i < |q| - 1 ensures Edge(g, q[i], q[i + 1]) {
        assert Edge(g, p[i], p[i + 1]);
      }
      PathInBall(g, root, q, p[n - 1]);
      assert Edge(g, p[n - 1], p[n]);
      BallStep(g, root, n - 1, p[n - 1], p[n]);
    }
  }

  /** Levels are distances. */
  lemma LevelIsDistance(g: Csr, root: nat, v: nat, d: nat)
    requires g.WellFormed() && root < g.Nodes()
    ensures AtLevel(g, root, v, d) <==> IsDistance(g, root, v, d)
  {
    hide Ball;
    if AtLevel(g, root, v, d) {
      forall p | Path(g, p, root, v) ensures d + 1 <= |p| {
        PathInBall(g, root, p, v);
        if |p| < d + 1 {
          BallMonotone(g, root, |p| - 1, d - 1);
        }
      }
      var p := BallHasPath(g, root, d, v);
      assert Path(g, p, root, v) && |p| == d + 1;
    }
    if IsDistance(g, root, v, d) {
      var p :| Path(g, p, root, v) && |p| == d + 1;
      PathInBall(g, root, p, v);
      if d > 0 && v in Ball(g, root, d - 1) {
        var q := BallHasPath(g, root, d - 1, v);
        assert false;
      }
    }
  }

  // ---------------------------------------------------------------- one level of the search

  /** The state of a search while it processes a level: the level of each node, the nodes found for
      the next level in the order found, the down-edges found, and the edges seen at this level. */
  datatype Search = Search(levels: seq<int>, next: seq<nat>, down: set<nat>, seen: set<nat>)

  /** What looking at edge e does, when the current level is "level". */
  function SeeEdge(g: Csr, s: Search, e: nat, level: nat): (r: Search)
    requires e < |g.values| && g.values[e] < |s.levels|
    ensures |r.levels| == |s.levels|
  {
    var u := g.values[e];
    if s.levels[u] == INVALID_LEVEL then
      Search(s.levels[u := level + 1], s.next + [u], s.down + {e}, s.seen + {e})
    else if s.levels[u] == level + 1 then
      s.(down := s.down + {e}, seen := s.seen + {e})
    else
      s.(seen := s.seen + {e})
  }

  function SeeEdges(g: Csr, s: Search, lo: nat, hi: nat, level: nat): (r: Search)
    requires lo <= hi <= |g.values| && forall e :: 0 <= e < |g.values| ==> g.values[e] < |s.levels|
    ensures |r.levels| == |s.levels|
  {
    if lo == hi then s else SeeEdge(g, SeeEdges(g, s, lo, hi - 1, level), hi - 1, level)
  }

  /** Levels are right up to level k, and exactly the edges from lower levels one level down are
      down-edges. */
  ghost predicate Settled(g: Csr, root: nat, k: nat, levels: seq<int>, down: set<nat>)
    requires g.WellFormed() && root < g.Nodes()
  {
    && |levels| == g.Nodes()
    && (forall v :: 0 <= v < |levels| ==> (levels[v] != INVALID_LEVEL <==> v in Ball(g, root, k)))
    && (forall v :: 0 <= v < |levels| && levels[v] != INVALID_LEVEL ==> 0 <= levels[v] <= k && AtLevel(g, root, v, levels[v]))
    && (forall e: nat :: e in down ==> e < |g.values|)
    && (forall e: nat :: e < |g.values| ==> (e in down <==> Downward(g, levels, e, k)))
  }

  /** Edge e leads from a level below k to the level after it. */
  ghost predicate Downward(g: Csr, levels: seq<int>, e: nat, k: nat)
    requires g.WellFormed() && |levels| == g.Nodes() && e < |g.values|
  {
    0 <= levels[g.Owner(e)] < k && levels[g.values[e]] == levels[g.Owner(e)] + 1
  }

  /** Where a search stands within level k, when it began the level with "levels" and "down". */
  ghost predicate Within(g: Csr, k: nat, levels: seq<int>, down: set<nat>, s: Search) {
    && |s.levels| == |levels| && (forall e :: e in s.seen ==> e < |g.values| && g.values[e] < |levels|)
    && (forall v :: 0 <= v < |levels| ==>
          s.levels[v] == if levels[v] != INVALID_LEVEL then levels[v]
                         else if Hit(g, s.seen, v) then k + 1 else INVALID_LEVEL)
    && Distinct(s.next)
    && (forall v: nat :: v in s.next <==> v < |levels| && levels[v] == INVALID_LEVEL && s.levels[v] == k + 1)
    && (forall e: nat :: e in s.down <==> e in down || (e in s.seen && s.levels[g.values[e]] == k + 1))
  }

  ghost predicate Hit(g: Csr, seen: set<nat>, v: nat) {
    exists e :: e in seen && e < |g.values| && g.values[e] == v
  }

  lemma SeeEdgeWithin(g: Csr, k: nat, levels: seq<int>, down: set<nat>, s: Search, e: nat)
    requires Within(g, k, levels, down, s) && e < |g.values| && g.values[e] < |levels|
    requires forall v :: 0 <= v < |levels| ==> levels[v] <= k
    ensures Within(g, k, levels, down, SeeEdge(g, s, e, k))
    ensures SeeEdge(g, s, e, k).seen == s.seen + {e}
  {
    var r := SeeEdge(g, s, e, k);
    forall v | 0 <= v < |levels| ensures Hit(g, r.seen, v) <==> Hit(g, s.seen, v) || v == g.values[e] {
      if Hit(g, s.seen, v) {
        var x :| x in s.seen && x < |g.values| && g.values[x] == v;
        assert x in r.seen;
      }
      assert e in r.seen;
    }
  }

  lemma {:induction false} SeeEdgesWithin(g: Csr, k: nat, levels: seq<int>, down: set<nat>, s: Search, lo: nat, hi: nat)
    requires Within(g, k, levels, down, s) && lo <= hi <= |g.values| && |s.levels| == |levels|
    requires forall e :: 0 <= e < |g.values| ==> g.values[e] < |levels|
    requires forall v :: 0 <= v < |levels| ==> levels[v] <= k
    ensures Within(g, k, levels, down, SeeEdges(g, s, lo, hi, k))
    ensures forall e: nat :: e in SeeEdges(g, s, lo, hi, k).seen <==> e in s.seen || lo <= e < hi
    decreases hi
  {
    hide Within, SeeEdge;
    if lo < hi {
      SeeEdgesWithin(g, k, levels, down, s, lo, hi - 1);
      SeeEdgeWithin(g, k, levels, down, SeeEdges(g, s, lo, hi - 1, k), hi - 1);
    }
  }

  lemma Begin(g: Csr, root: nat, levels: seq<int>)
    requires g.WellFormed() && root < g.Nodes() && |levels| == g.Nodes()
    requires forall v :: 0 <= v < |levels| ==> levels[v] == if v == root then 0 else INVALID_LEVEL
    ensures Settled(g, root, 0, levels, {})
  {
  }

  lemma BeginWithin(g: Csr, k: nat, levels: seq<int>, down: set<nat>)
    requires forall v :: 0 <= v < |levels| ==> levels[v] <= k
    ensures Within(g, k, levels, down, Search(levels, [], down, {}))
  {
  }

  /** Seeing every edge of a level settles the next one, in whatever order they were seen. */
  lemma NextLevel(g: Csr, root: nat, k: nat, levels: seq<int>, down: set<nat>, s: Search)
    requires g.WellFormed() && root < g.Nodes()
    requires Settled(g, root, k, levels, down) && Within(g, k, levels, down, s)
    requires forall e: nat :: e in s.seen <==> e < |g.values| && levels[g.Owner(e)] == k
    ensures Settled(g, root, k + 1, s.levels, s.down)
  {
    hide Ball, AtLevel, Hit, Downward;
    forall v | 0 <= v < |levels|
      ensures s.levels[v] != INVALID_LEVEL <==> v in Ball(g, root, k + 1)
      ensures s.levels[v] != INVALID_LEVEL ==> 0 <= s.levels[v] <= k + 1 && AtLevel(g, root, v, s.levels[v])
    {
      hide Settled, Within;
      SettleNode(g, root, k, levels, down, s, v);
    }
    forall e: nat | e < |g.values| ensures e in s.down <==> Downward(g, s.levels, e, k + 1) {
      hide Settled, Within;
      SettleEdge(g, root, k, levels, down, s, e);
    }
  }

  ghost predicate NextLevelOf(g: Csr, root: nat, k: nat, levels: seq<int>, s: Search, v: nat)
    requires g.WellFormed() && root < g.Nodes() && v < |s.levels|
  {
    && (s.levels[v] != INVALID_LEVEL <==> v in Ball(g, root, k + 1))
    && (s.levels[v] != INVALID_LEVEL ==> 0 <= s.levels[v] <= k + 1 && AtLevel(g, root, v, s.levels[v]))
  }

  lemma SettleNode(g: Csr, root: nat, k: nat, levels: seq<int>, down: set<nat>, s: Search, v: nat)
    requires g.WellFormed() && root < g.Nodes() && v < |levels|
    requires Settled(g, root, k, levels, down) && Within(g, k, levels, down, s)
    requires forall e: nat :: e in s.seen <==> e < |g.values| && levels[g.Owner(e)] == k
    ensures NextLevelOf(g, root, k, levels, s, v)
  {
    hide Ball, Hit;
    BallMonotone(g, root, k, k + 1);
    if levels[v] == INVALID_LEVEL {
      HitNextBall(g, root, k, levels, down, s, v);
    }
  }

  /** A node not reached yet is one edge further away exactly if an edge of this level leads to it. */
  lemma HitNextBall(g: Csr, root: nat, k: nat, levels: seq<int>, down: set<nat>, s: Search, v: nat)
    requires g.WellFormed() && root < g.Nodes() && v < |levels| && levels[v] == INVALID_LEVEL
    requires Settled(g, root, k, levels, down)
    requires forall e: nat :: e in s.seen <==> e < |g.values| && levels[g.Owner(e)] == k
    ensures Hit(g, s.seen, v) <==> v in Ball(g, root, k + 1)
  {
    hide Ball, AtLevel, Downward;
    if Hit(g, s.seen, v) {
      var e :| e in s.seen && e < |g.values| && g.values[e] == v;
      assert Edge(g, g.Owner(e), v);
      BallStep(g, root, k, g.Owner(e), v);
    } else if v in Ball(g, root, k + 1) {
      var u := BallBack(g, root, k, v);
      var e: nat :| g.Owns(u, e) && e < |g.values| && g.values[e] == v;
      g.OwnerUnique(u, e);
      LowerLevel(g, root, k, levels, down, u, v);
      assert false;
    }
  }

  lemma SettledAt(g: Csr, root: nat, k: nat, levels: seq<int>, down: set<nat>, v: nat)
    requires g.WellFormed() && root < g.Nodes() && Settled(g, root, k, levels, down) && v < g.Nodes()
    ensures |levels| == g.Nodes() && (levels[v] != INVALID_LEVEL <==> v in Ball(g, root, k))
    ensures levels[v] != INVALID_LEVEL ==> 0 <= levels[v] <= k && AtLevel(g, root, v, levels[v])
  {
  }

  lemma LowerLevel(g: Csr, root: nat, k: nat, levels: seq<int>, down: set<nat>, u: nat, v: nat)
    requires g.WellFormed() && root < g.Nodes() && Settled(g, root, k, levels, down)
    requires u in Ball(g, root, k) && v < |levels| && v !in Ball(g, root, k) && Edge(g, u, v)
    ensures u < |levels| && levels[u] == k
  {
    hide Ball, Edge, Settled;
    SettledAt(g, root, k, levels, down, u);
    if levels[u] < k {
      BallStep(g, root, levels[u], u, v);
      BallMonotone(g, root, levels[u] + 1, k);
    }
  }

  lemma SettleEdge(g: Csr, root: nat, k: nat, levels: seq<int>, down: set<nat>, s: Search, e: nat)
    requires g.WellFormed() && root < g.Nodes() && e < |g.values|
    requires Settled(g, root, k, levels, down) && Within(g, k, levels, down, s)
    requires forall e: nat :: e in s.seen <==> e < |g.values| && levels[g.Owner(e)] == k
    ensures e in s.down <==> Downward(g, s.levels, e, k + 1)
  {
    hide Ball, AtLevel, Hit;
  }

  lemma {:induction false} BallFixed(g: Csr, root: nat, k: nat, j: nat)
    requires g.WellFormed() && root < g.Nodes() && Ball(g, root, k + 1) == Ball(g, root, k)
    ensures Ball(g, root, j) <= Ball(g, root, k)
    decreases j
  {
    hide Ball;
    if j <= k {
      BallMonotone(g, root, j, k);
    } else {
      BallFixed(g, root, k, j - 1);
      forall v | v in Ball(g, root, j) ensures v in Ball(g, root, k) {
        if v !in Ball(g, root, j - 1) {
          var u := BallBack(g, root, j - 1, v);
          BallStep(g, root, k, u, v);
        }
      }
    }
  }

  /** What a finished search has computed: every node's distance, or that it cannot be reached; and
      the down-edges are exactly the edges from one level to the next. */
  ghost predicate Answers(g: Csr, root: nat, levels: seq<int>, down: set<nat>)
    requires g.WellFormed() && root < g.Nodes()
  {
    && |levels| == g.Nodes()
    && (forall v :: 0 <= v < |levels| ==>
          if levels[v] == INVALID_LEVEL then !Reachable(g, root, v)
          else 0 <= levels[v] && IsDistance(g, root, v, levels[v]))
    && (forall e: nat :: e in down <==>
          e < |g.values| && levels[g.Owner(e)] != INVALID_LEVEL && levels[g.values[e]] == levels[g.Owner(e)] + 1)
  }

  /** A level with no next level ends the search. */
  lemma Finished(g: Csr, root: nat, k: nat, levels: seq<int>, down: set<nat>)
    requires g.WellFormed() && root < g.Nodes()
    requires Settled(g, root, k + 1, levels, down) && forall v :: 0 <= v < |levels| ==> levels[v] != k + 1
    ensures Answers(g, root, levels, down)
  {
    hide Ball;
    BallMonotone(g, root, k, k + 1);
    forall v | v in Ball(g, root, k + 1) ensures v in Ball(g, root, k) {
      BallMonotone(g, root, levels[v], k);
    }
    forall v | 0 <= v < |levels|
      ensures if levels[v] == INVALID_LEVEL then !Reachable(g, root, v) else IsDistance(g, root, v, levels[v])
    {
      if levels[v] == INVALID_LEVEL {
        forall p | Path(g, p, root, v) ensures false {
          PathInBall(g, root, p, v);
          BallFixed(g, root, k, |p| - 1);
        }
      } else {
        LevelIsDistance(g, root, v, levels[v]);
      }
    }
  }

  // ---------------------------------------------------------------- queues and the order of visits

  /** The nodes of one level, each once. */
  ghost predicate Frontier(levels: seq<int>, d: int, nodes: seq<nat>) {
    Distinct(nodes) && forall v: nat :: v in nodes <==> v < |levels| && levels[v] == d
  }

  /** A queue of nodes that have been reached, each once. */
  ghost predicate Queued(levels: seq<int>, queue: seq<nat>) {
    Distinct(queue) && forall v :: v in queue ==> v < |levels| && levels[v] != INVALID_LEVEL
  }

  /** Where the nodes of each level are in the queue; a negative begin says that they are not. */
  ghost predicate Segments(levels: seq<int>, queue: seq<nat>, begins: seq<int>, counts: seq<nat>) {
    && |begins| == |counts|
    && (forall d :: 0 <= d < |begins| ==>
          && -1 <= begins[d]
          && (begins[d] >= 0 ==> begins[d] + counts[d] <= |queue|
                                 && Frontier(levels, d, queue[begins[d]..begins[d] + counts[d]])))
  }

  /** The order of visit_fw: every node of a level below k once, lower levels first. */
  ghost predicate VisitedBelow(levels: seq<int>, k: int, visits: seq<nat>) {
    && Distinct(visits) && (forall i :: 0 <= i < |visits| ==> visits[i] < |levels|)
    && (forall v: nat :: v in visits <==> v < |levels| && levels[v] != INVALID_LEVEL && levels[v] < k)
    && (forall i, j :: 0 <= i < j < |visits| ==> levels[visits[i]] <= levels[visits[j]])
  }

  lemma LevelsKept(g: Csr, k: nat, levels: seq<int>, down: set<nat>, s: Search, v: nat)
    requires Within(g, k, levels, down, s) && v < |levels|
    requires forall v :: 0 <= v < |levels| ==> levels[v] <= k
    ensures levels[v] != INVALID_LEVEL ==> s.levels[v] == levels[v]
    ensures s.levels[v] <= k ==> s.levels[v] == levels[v]
  {
  }

  lemma FrontierNext(g: Csr, k: nat, levels: seq<int>, down: set<nat>, s: Search)
    requires Within(g, k, levels, down, s)
    requires forall v :: 0 <= v < |levels| ==> levels[v] <= k
    ensures Frontier(s.levels, k + 1, s.next)
  {
  }

  lemma QueuedNext(g: Csr, k: nat, levels: seq<int>, down: set<nat>, s: Search, queue: seq<nat>)
    requires Within(g, k, levels, down, s) && Queued(levels, queue)
    requires forall v :: 0 <= v < |levels| ==> levels[v] <= k
    ensures Queued(s.levels, queue) && Queued(s.levels, queue + s.next)
  {
    var all := queue + s.next;
    forall i, j | 0 <= i < j < |all| ensures all[i] != all[j] {
      if i < |queue| <= j {
        assert all[i] in queue && all[j] in s.next;
      }
    }
  }

  lemma SegmentsNext(g: Csr, k: nat, levels: seq<int>, down: set<nat>, s: Search, queue: seq<nat>, begins: seq<int>, counts: seq<nat>)
    requires Within(g, k, levels, down, s) && Segments(levels, queue, begins, counts) && |begins| == k + 1
    requires forall v :: 0 <= v < |levels| ==> levels[v] <= k
    ensures Segments(s.levels, queue + s.next, begins + [|queue|], counts + [|s.next|])
    ensures forall n: nat :: Segments(s.levels, queue, begins + [-1], counts + [n])
  {
    FrontierNext(g, k, levels, down, s);
    forall d | 0 <= d < |begins| && begins[d] >= 0
      ensures Frontier(s.levels, d, queue[begins[d]..begins[d] + counts[d]])
      ensures (queue + s.next)[begins[d]..begins[d] + counts[d]] == queue[begins[d]..begins[d] + counts[d]]
    {
      forall v: nat | v < |levels| ensures s.levels[v] == d <==> levels[v] == d {
        LevelsKept(g, k, levels, down, s, v);
      }
    }
    assert (queue + s.next)[|queue|..|queue| + |s.next|] == s.next;
  }

  lemma VisitedNext(g: Csr, k: nat, levels: seq<int>, down: set<nat>, s: Search, visits: seq<nat>, nodes: seq<nat>)
    requires Within(g, k, levels, down, s) && VisitedBelow(levels, k, visits) && Frontier(levels, k, nodes)
    requires forall v :: 0 <= v < |levels| ==> levels[v] <= k
    ensures VisitedBelow(s.levels, k + 1, visits + nodes)
  {
    var all := visits + nodes;
    forall i | 0 <= i < |all| ensures all[i] < |levels| {
      assert i >= |visits| ==> all[i] in nodes;
    }
    forall i, j | 0 <= i < j < |all| ensures all[i] != all[j] && s.levels[all[i]] <= s.levels[all[j]] {
      assert all[i] in all && all[j] in all;
      assert i < |visits| ==> all[i] in visits;
      assert j < |visits| ==> all[j] in visits;
      assert i >= |visits| ==> all[i] in nodes;
      assert j >= |visits| ==> all[j] in nodes;
    }
    forall v: nat ensures v in all <==> v < |levels| && s.levels[v] != INVALID_LEVEL && s.levels[v] < k + 1 {
      assert v in all <==> v in visits || v in nodes;
      if v < |levels| {
        LevelsKept(g, k, levels, down, s, v);
      }
    }
  }

  /** The order of visit_rv: every node of level k or higher once, higher levels first. */
  ghost predicate VisitedDown(levels: seq<int>, k: int, visits: seq<nat>) {
    && Distinct(visits) && (forall i :: 0 <= i < |visits| ==> visits[i] < |levels|)
    && (forall v: nat :: v in visits <==> v < |levels| && levels[v] >= k)
    && (forall i, j :: 0 <= i < j < |visits| ==> levels[visits[i]] >= levels[visits[j]])
  }

  lemma VisitedDownNext(levels: seq<int>, k: nat, visits: seq<nat>, nodes: seq<nat>)
    requires VisitedDown(levels, k + 1, visits) && Frontier(levels, k, nodes)
    ensures VisitedDown(levels, k, visits + nodes)
  {
    var all := visits + nodes;
    forall i | 0 <= i < |all| ensures all[i] < |levels| {
      assert i >= |visits| ==> all[i] in nodes;
    }
    forall i, j | 0 <= i < j < |all| ensures all[i] != all[j] && levels[all[i]] >= levels[all[j]] {
      assert i < |visits| ==> all[i] in visits;
      assert j < |visits| ==> all[j] in visits;
      assert i >= |visits| ==> all[i] in nodes;
      assert j >= |visits| ==> all[j] in nodes;
    }
  }
}
