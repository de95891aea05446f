/** ll_bfs_template (llama/include/llama/ll_bfs_template.h), sequential and without a navigator: a
    breadth-first search that changes its data structures as the frontier grows and shrinks. */
module HybridBfs {
  import opened Graph
  import opened Levels
  import opened Sequences

  datatype Mode = Small | Que | Q2R | Rd | R2Q

  const THRESHOLD1: nat := 128
  const THRESHOLD2: nat := 1024
  const NO_QUEUE: int := -1

  class Bfs {
    const g: Csr
    const root: nat
    const saveChild: bool

    var state: Mode
    var currLevel: nat
    var currCount: nat
    var nextCount: nat

    // while the search is small
    var smallVisited: map<nat, int>
    var downEdgeSet: set<nat>
    // after that
    var visitedBitmap: array<bool>
    var visitedLevel: array<int>
    var downEdgeArray: array<bool>

    const globalVector: array<nat>
    var globalCurrLevelBegin: nat
    var globalNextLevelBegin: nat
    var levelQueueBegin: seq<int>
    var levelCount: seq<nat>
    var threadLocalNextLevel: seq<nat>

    /** The calls of visit_fw and visit_rv so far. */
    var forward: seq<nat>
    var backward: seq<nat>

    /** The search at this level, and the levels and down-edges when the level began. */
    ghost var search: Search
    ghost var startLevels: seq<int>
    ghost var startDown: set<nat>

    /** small_visited and down_edge_set say what the search has found. */
    ghost predicate SmallOk()
      reads `smallVisited, `downEdgeSet, `search
    {
      Maps(smallVisited, downEdgeSet, search)
    }

    ghost predicate Maps(visited: map<nat, int>, downEdges: set<nat>, s: Search) {
      && (forall v: nat :: v in visited <==> v < |s.levels| && s.levels[v] != INVALID_LEVEL)
      && (forall v: nat :: v in visited && v < |s.levels| ==> visited[v] == s.levels[v])
      && (saveChild ==> downEdges == s.down)
    }

    lemma MapsSeen(visited: map<nat, int>, downEdges: set<nat>, s: Search, nx: nat, level: nat)
      requires Maps(visited, downEdges, s) && nx < |g.values| && g.values[nx] < |s.levels|
      ensures var (u, s') := (g.values[nx], SeeEdge(g, s, nx, level));
              if u !in visited then
                && Maps(visited[u := level + 1], if saveChild then downEdges + {nx} else downEdges, s')
                && s'.next == s.next + [u]
              else
                && Maps(visited, if saveChild && visited[u] == level + 1 then downEdges + {nx} else downEdges, s')
                && s'.next == s.next
    {
    }

    /** The arrays say what the search has found. */
    ghost predicate LargeOk()
      reads `visitedBitmap, `visitedLevel, `downEdgeArray, `search, visitedBitmap, visitedLevel, downEdgeArray
    {
      && visitedBitmap != downEdgeArray && visitedLevel as object != globalVector
      && visitedLevel[..] == search.levels
      && visitedBitmap.Length == visitedLevel.Length
      && (forall v :: 0 <= v < visitedBitmap.Length ==> (visitedBitmap[v] <==> search.levels[v] != INVALID_LEVEL))
      && (saveChild ==> downEdgeArray.Length == |g.values|
                        && forall e: nat :: e < |g.values| ==> (downEdgeArray[e] <==> e in search.down))
    }

    ghost predicate Searching()
      reads `currLevel, `startLevels, `startDown, `search
    {
      && g.WellFormed() && root < g.Nodes() && |startLevels| == |search.levels| == g.Nodes()
      && Settled(g, root, currLevel, startLevels, startDown)
      && Within(g, currLevel, startLevels, startDown, search)
    }

    /** The part of global_vector that holds finished levels and the current one. */
    ghost predicate QueueOk()
      reads `startLevels, `globalNextLevelBegin, globalVector
    {
      && globalVector.Length == g.Nodes() && globalNextLevelBegin <= globalVector.Length
      && Distinct(globalVector[..globalNextLevelBegin])
      && (forall i :: 0 <= i < globalNextLevelBegin ==>
            globalVector[i] < |startLevels| && startLevels[globalVector[i]] != INVALID_LEVEL)
    }

    lemma Room()
      requires Searching() && QueueOk()
      ensures globalNextLevelBegin + |search.next| <= globalVector.Length
    {
      var s := globalVector[..globalNextLevelBegin] + search.next;
      forall i, j | 0 <= i < j < |s| ensures s[i] != s[j] {
        if i < globalNextLevelBegin <= j {
          assert s[j] in search.next;
        }
      }
      DistinctBounded(s, g.Nodes());
    }

    lemma SeeInside(nx: nat)
      requires Searching() && nx < |g.values|
      ensures g.values[nx] < |search.levels| == g.Nodes()
      ensures Within(g, currLevel, startLevels, startDown, SeeEdge(g, search, nx, currLevel))
    {
      SeeEdgeWithin(g, currLevel, startLevels, startDown, search, nx);
    }

    /** iterate_neighbor_small */
    method IterateNeighborSmall(t: nat)
      requires Searching() && QueueOk() && SmallOk() && QueueNext() && t < g.Nodes()
      modifies `smallVisited, `downEdgeSet, `nextCount, `search, globalVector
      ensures Searching() && QueueOk() && SmallOk() && QueueNext()
      ensures search == SeeEdges(g, old(search), g.begin[t], g.begin[t + 1], currLevel)
      ensures globalVector[..globalNextLevelBegin] == old(globalVector[..globalNextLevelBegin])
    {
      hide Settled, Within, QueueOk, SmallOk, QueueNext, SeeEdge;
      QueueInside();
      for nx := g.begin[t] to g.begin[t + 1]
        invariant Searching() && QueueOk() && SmallOk() && QueueNext() && globalNextLevelBegin <= globalVector.Length
        invariant g.begin[t] <= nx <= g.begin[t + 1] <= |g.values| && |old(search).levels| == g.Nodes()
        invariant search == SeeEdges(g, old(search), g.begin[t], nx, currLevel)
        invariant globalVector[..globalNextLevelBegin] == old(globalVector[..globalNextLevelBegin])
      {
        SeeInside(nx);
        SeeSmall(nx);
      }
    }

    lemma QueueInside()
      requires QueueOk()
      ensures globalNextLevelBegin <= globalVector.Length
    {
    }

    /** The queue of the next level, right behind the finished ones. */
    ghost predicate QueueNext()
      reads `nextCount, `search, `globalNextLevelBegin, globalVector
    {
      QueueHolds(search.next)
    }

    ghost predicate QueueHolds(next: seq<nat>)
      reads `nextCount, `globalNextLevelBegin, globalVector
    {
      && nextCount == |next| && globalNextLevelBegin + nextCount <= globalVector.Length
      && (forall i :: 0 <= i < nextCount ==> globalVector[globalNextLevelBegin + i] == next[i])
    }

    /** One more node for the next level. */
    method Enqueue(u: nat, ghost next: seq<nat>)
      requires QueueOk() && QueueHolds(next) && globalNextLevelBegin + nextCount < globalVector.Length
      modifies `nextCount, globalVector
      ensures QueueOk() && QueueHolds(next + [u])
      ensures globalVector[..globalNextLevelBegin] == old(globalVector[..globalNextLevelBegin])
    {
      hide Distinct;
      globalVector[globalNextLevelBegin + nextCount] := u;
      nextCount := nextCount + 1;
      assert globalVector[..globalNextLevelBegin] == old(globalVector[..globalNextLevelBegin]);
    }

    /** The body of the loop in iterate_neighbor_small. */
    method SeeSmall(nx: nat)
      requires Searching() && QueueOk() && SmallOk() && QueueNext() && nx < |g.values| && g.values[nx] < |search.levels|
      requires Within(g, currLevel, startLevels, startDown, SeeEdge(g, search, nx, currLevel))
      modifies `smallVisited, `downEdgeSet, `nextCount, `search, globalVector
      ensures Searching() && QueueOk() && SmallOk() && QueueNext()
      ensures search == SeeEdge(g, old(search), nx, currLevel)
      ensures globalVector[..globalNextLevelBegin] == old(globalVector[..globalNextLevelBegin])
    {
      hide Settled, Within, Maps, SeeEdge, QueueOk, QueueHolds;
      var u := g.values[nx];
      MapsSeen(smallVisited, downEdgeSet, search, nx, currLevel);
      ghost var next := search.next;
      search := SeeEdge(g, search, nx, currLevel);
      if u !in smallVisited {
        EnqueueReady(next, u);
        if saveChild {
          downEdgeSet := downEdgeSet + {nx};
        }
        smallVisited := smallVisited[u := currLevel + 1];
        Enqueue(u, next);
      } else if saveChild {
        if smallVisited[u] == currLevel + 1 {
          downEdgeSet := downEdgeSet + {nx};
        }
      }
    }

    lemma EnqueueReady(next: seq<nat>, u: nat)
      requires Searching() && QueueOk() && search.next == next + [u] && QueueHolds(next)
      ensures globalNextLevelBegin + nextCount < globalVector.Length
    {
      Room();
    }

    /** iterate_neighbor_que */
    method IterateNeighborQue(t: nat)
      requires Searching() && LargeOk() && threadLocalNextLevel == search.next && t < g.Nodes()
      modifies `threadLocalNextLevel, `search, visitedBitmap, visitedLevel, downEdgeArray
      ensures Searching() && LargeOk() && threadLocalNextLevel == search.next
      ensures search == SeeEdges(g, old(search), g.begin[t], g.begin[t + 1], currLevel)
    {
      hide Settled, Within, LargeOk;
      for nx := g.begin[t] to g.begin[t + 1]
        invariant Searching() && LargeOk() && threadLocalNextLevel == search.next
        invariant g.begin[t] <= nx <= g.begin[t + 1] <= |g.values| && |old(search).levels| == g.Nodes()
        invariant search == SeeEdges(g, old(search), g.begin[t], nx, currLevel)
      {
        SeeInside(nx);
        SeeQue(nx);
      }
    }

    /** The body of the loop in iterate_neighbor_que. */
    method SeeQue(nx: nat)
      requires Searching() && LargeOk() && nx < |g.values| && g.values[nx] < |search.levels|
      requires threadLocalNextLevel == search.next
      requires Within(g, currLevel, startLevels, startDown, SeeEdge(g, search, nx, currLevel))
      modifies `threadLocalNextLevel, `search, visitedBitmap, visitedLevel, downEdgeArray
      ensures Searching() && LargeOk() && threadLocalNextLevel == search.next
      ensures search == SeeEdge(g, old(search), nx, currLevel)
    {
      hide Settled, Within;
      var u := g.values[nx];
      search := SeeEdge(g, search, nx, currLevel);
      if !visitedBitmap[u] {
        visitedBitmap[u] := true;
        if saveChild {
          downEdgeArray[nx] := true;
        }
        threadLocalNextLevel := threadLocalNextLevel + [u];
        visitedLevel[u] := currLevel + 1;
        assert visitedLevel[..] == old(visitedLevel[..])[u := currLevel + 1];
      } else if saveChild {
        if visitedLevel[u] == currLevel + 1 {
          downEdgeArray[nx] := true;
        }
      }
    }

    /** iterate_neighbor_rd */
    method IterateNeighborRd(t: nat, count: nat) returns (localCount: nat)
      requires Searching() && LargeOk() && count == |search.next| && t < g.Nodes()
      modifies `search, visitedBitmap, visitedLevel, downEdgeArray
      ensures Searching() && LargeOk() && localCount == |search.next|
      ensures search == SeeEdges(g, old(search), g.begin[t], g.begin[t + 1], currLevel)
    {
      hide Settled, Within, LargeOk;
      localCount := count;
      for nx := g.begin[t] to g.begin[t + 1]
        invariant Searching() && LargeOk() && localCount == |search.next|
        invariant g.begin[t] <= nx <= g.begin[t + 1] <= |g.values| && |old(search).levels| == g.Nodes()
        invariant search == SeeEdges(g, old(search), g.begin[t], nx, currLevel)
      {
        SeeInside(nx);
        localCount := SeeRd(nx, localCount);
      }
    }

    /** The body of the loop in iterate_neighbor_rd. */
    method SeeRd(nx: nat, count: nat) returns (localCount: nat)
      requires Searching() && LargeOk() && nx < |g.values| && g.values[nx] < |search.levels|
      requires count == |search.next|
      requires Within(g, currLevel, startLevels, startDown, SeeEdge(g, search, nx, currLevel))
      modifies `search, visitedBitmap, visitedLevel, downEdgeArray
      ensures Searching() && LargeOk() && localCount == |search.next|
      ensures search == SeeEdge(g, old(search), nx, currLevel)
    {
      hide Settled, Within;
      localCount := count;
      var u := g.values[nx];
      search := SeeEdge(g, search, nx, currLevel);
      if !visitedBitmap[u] {
        visitedBitmap[u] := true;
        if saveChild {
          downEdgeArray[nx] := true;
        }
        visitedLevel[u] := currLevel + 1;
        localCount := localCount + 1;
        assert visitedLevel[..] == old(visitedLevel[..])[u := currLevel + 1];
      } else if saveChild {
        if visitedLevel[u] == currLevel + 1 {
          downEdgeArray[nx] := true;
        }
      }
    }

    // -------------------------------------------------------------- one level

    ghost predicate LevelStart()
      reads `currLevel, `startLevels, `startDown, `search, `nextCount, `threadLocalNextLevel
    {
      Searching() && search == Search(startLevels, [], startDown, {}) && nextCount == 0 && threadLocalNextLevel == []
    }

    /** The edges of these nodes have been seen at this level, and no others. */
    ghost predicate SeenFrom(nodes: seq<nat>)
      reads `search
    {
      g.WellFormed() && forall e: nat :: e in search.seen <==> e < |g.values| && g.Owner(e) in nodes
    }

    lemma SeenNode(before: Search, nodes: seq<nat>, t: nat)
      requires Searching() && t < g.Nodes()
      requires Within(g, currLevel, startLevels, startDown, before) && |before.levels| == g.Nodes()
      requires forall e: nat :: e in before.seen <==> e < |g.values| && g.Owner(e) in nodes
      requires search == SeeEdges(g, before, g.begin[t], g.begin[t + 1], currLevel)
      ensures SeenFrom(nodes + [t])
    {
      SeeEdgesWithin(g, currLevel, startLevels, startDown, before, g.begin[t], g.begin[t + 1]);
      forall e: nat | e < |g.values| ensures g.begin[t] <= e < g.begin[t + 1] <==> g.Owner(e) == t {
        if g.begin[t] <= e < g.begin[t + 1] {
          g.OwnerUnique(t, e);
        }
      }
    }

    /** The nodes of the current level, as the queue holds them. */
    ghost predicate CurrentQueue()
      reads `globalCurrLevelBegin, `currCount, `globalNextLevelBegin, `startLevels, `currLevel, globalVector
    {
      && globalCurrLevelBegin + currCount <= globalNextLevelBegin <= globalVector.Length
      && Frontier(startLevels, currLevel, Current())
    }

    ghost function Current(): seq<nat>
      requires globalCurrLevelBegin + currCount <= globalVector.Length
      reads `globalCurrLevelBegin, `currCount, globalVector
    {
      globalVector[globalCurrLevelBegin..globalCurrLevelBegin + currCount]
    }

    lemma NothingSeen()
      requires LevelStart()
      ensures SeenFrom([])
    {
    }

    lemma QueueBegins()
      requires LevelStart() && QueueOk()
      ensures QueueNext() && globalNextLevelBegin <= globalVector.Length
    {
    }

    lemma CurrentInside(nodes: seq<nat>)
      requires LevelStart() && CurrentQueue() && nodes == Current()
      ensures |nodes| == currCount && forall i :: 0 <= i < currCount ==> nodes[i] < g.Nodes()
      ensures globalNextLevelBegin <= globalVector.Length
      ensures forall i :: 0 <= i < currCount ==> globalCurrLevelBegin + i < globalNextLevelBegin && nodes[i] == globalVector[globalCurrLevelBegin + i]
    {
      forall i | 0 <= i < currCount ensures nodes[i] < g.Nodes() {
        assert nodes[i] in nodes;
      }
    }

    /** One node of the level in the case ST_SMALL. */
    method VisitSmall(t: nat, ghost nodes: seq<nat>)
      requires Searching() && QueueOk() && SmallOk() && QueueNext() && SeenFrom(nodes) && t < g.Nodes()
      modifies `smallVisited, `downEdgeSet, `nextCount, `search, `forward, globalVector
      ensures Searching() && QueueOk() && SmallOk() && QueueNext() && SeenFrom(nodes + [t])
      ensures forward == old(forward) + [t] && globalNextLevelBegin <= globalVector.Length
      ensures globalVector[..globalNextLevelBegin] == old(globalVector[..globalNextLevelBegin])
    {
      hide Settled, Within, QueueOk, SmallOk, QueueNext;
      QueueInside();
      ghost var before := search;
      IterateNeighborSmall(t);
      SeenNode(before, nodes, t);
      forward := forward + [t];
    }

    /** The case ST_SMALL of do_bfs_forward. */
    method LevelSmall() returns (ghost nodes: seq<nat>)
      requires LevelStart() && QueueOk() && SmallOk() && CurrentQueue()
      modifies `smallVisited, `downEdgeSet, `nextCount, `search, `forward, globalVector
      ensures Searching() && QueueOk() && SmallOk() && QueueNext() && SeenFrom(nodes)
      ensures Frontier(startLevels, currLevel, nodes) && forward == old(forward) + nodes
      ensures globalNextLevelBegin <= globalVector.Length
      ensures globalVector[..globalNextLevelBegin] == old(globalVector[..globalNextLevelBegin])
    {
      hide Settled, Within, Frontier, QueueOk, SmallOk, QueueNext, SeenFrom;
      nodes := Current();
      NothingSeen();
      QueueBegins();
      CurrentInside(nodes);
      assert nodes[..0] == [];
      for i := 0 to currCount
        invariant Searching() && QueueOk() && SmallOk() && QueueNext() && SeenFrom(nodes[..i])
        invariant forward == old(forward) + nodes[..i] && globalNextLevelBegin <= globalVector.Length
        invariant globalVector[..globalNextLevelBegin] == old(globalVector[..globalNextLevelBegin])
      {
        var t := globalVector[globalCurrLevelBegin + i];
        assert t == globalVector[..globalNextLevelBegin][globalCurrLevelBegin + i] == nodes[i];
        VisitSmall(t, nodes[..i]);
        assert nodes[..i + 1] == nodes[..i] + [t];
      }
      assert nodes[..currCount] == nodes;
    }

    /** One node of the level in the cases with a queue for the next level. */
    method VisitQue(t: nat, ghost nodes: seq<nat>)
      requires Searching() && LargeOk() && threadLocalNextLevel == search.next && SeenFrom(nodes) && t < g.Nodes()
      modifies `threadLocalNextLevel, `search, `forward, visitedBitmap, visitedLevel, downEdgeArray
      ensures Searching() && LargeOk() && threadLocalNextLevel == search.next && SeenFrom(nodes + [t])
      ensures forward == old(forward) + [t]
    {
      hide Settled, Within, LargeOk;
      ghost var before := search;
      IterateNeighborQue(t);
      SeenNode(before, nodes, t);
      forward := forward + [t];
    }

    /** The case ST_QUE. */
    method LevelQue() returns (ghost nodes: seq<nat>)
      requires LevelStart() && QueueOk() && LargeOk() && CurrentQueue()
      modifies `threadLocalNextLevel, `nextCount, `search, `forward, globalVector, visitedBitmap, visitedLevel, downEdgeArray
      ensures Searching() && QueueOk() && LargeOk() && QueueNext() && SeenFrom(nodes) && threadLocalNextLevel == []
      ensures Frontier(startLevels, currLevel, nodes) && forward == old(forward) + nodes
      ensures globalNextLevelBegin <= globalVector.Length
      ensures globalVector[..globalNextLevelBegin] == old(globalVector[..globalNextLevelBegin])
    {
      hide Settled, Within, Frontier, LargeOk, QueueOk, SeenFrom;
      nodes := Current();
      NothingSeen();
      CurrentInside(nodes);
      assert nodes[..0] == [];
      for i := 0 to currCount
        invariant Searching() && QueueOk() && LargeOk() && threadLocalNextLevel == search.next && SeenFrom(nodes[..i])
        invariant forward == old(forward) + nodes[..i] && nextCount == 0
        invariant globalVector[..] == old(globalVector[..])
      {
        SeparateArrays();
        var t := globalVector[globalCurrLevelBegin + i];
        assert t == globalVector[..][globalCurrLevelBegin + i] == nodes[i];
        VisitQue(t, nodes[..i]);
        assert nodes[..i + 1] == nodes[..i] + [t];
      }
      assert nodes[..currCount] == nodes;
      FinishThreadQue();
    }

    /** The memcpy in finish_thread_que. */
    method CopyToGlobalVector(at: nat)
      requires at + |threadLocalNextLevel| <= globalVector.Length
      modifies globalVector
      ensures forall i :: 0 <= i < |threadLocalNextLevel| ==> globalVector[at + i] == threadLocalNextLevel[i]
      ensures globalVector[..at] == old(globalVector[..at])
    {
      forall i | 0 <= i < |threadLocalNextLevel| {
        globalVector[at + i] := threadLocalNextLevel[i];
      }
    }

    lemma SeparateArrays()
      requires LargeOk()
      ensures visitedLevel as object != globalVector
    {
    }

    /** finish_thread_que */
    method FinishThreadQue()
      requires Searching() && QueueOk() && LargeOk() && threadLocalNextLevel == search.next && nextCount == 0
      modifies `threadLocalNextLevel, `nextCount, globalVector
      ensures Searching() && QueueOk() && LargeOk() && QueueNext() && threadLocalNextLevel == []
      ensures globalNextLevelBegin <= globalVector.Length
      ensures globalVector[..globalNextLevelBegin] == old(globalVector[..globalNextLevelBegin])
    {
      hide Searching, Distinct, LargeOk;
      Room();
      SeparateArrays();
      var localCount := |threadLocalNextLevel|;
      if localCount > 0 {
        var oldIndex := nextCount;
        nextCount := nextCount + localCount;
        CopyToGlobalVector(globalNextLevelBegin + oldIndex);
      }
      threadLocalNextLevel := [];
    }

    /** One node of the level in the cases without a queue for the next level. */
    method VisitRd(t: nat, count: nat, ghost nodes: seq<nat>) returns (localCount: nat)
      requires Searching() && LargeOk() && count == |search.next| && SeenFrom(nodes) && t < g.Nodes()
      modifies `search, `forward, visitedBitmap, visitedLevel, downEdgeArray
      ensures Searching() && LargeOk() && localCount == |search.next| && SeenFrom(nodes + [t])
      ensures forward == old(forward) + [t]
    {
      hide Settled, Within, LargeOk;
      ghost var before := search;
      localCount := IterateNeighborRd(t, count);
      SeenNode(before, nodes, t);
      forward := forward + [t];
    }

    /** The case ST_Q2R. */
    method LevelQ2R() returns (ghost nodes: seq<nat>)
      requires LevelStart() && QueueOk() && LargeOk() && CurrentQueue()
      modifies `nextCount, `search, `forward, visitedBitmap, visitedLevel, downEdgeArray
      ensures Searching() && QueueOk() && LargeOk() && nextCount == |search.next| && SeenFrom(nodes)
      ensures Frontier(startLevels, currLevel, nodes) && forward == old(forward) + nodes
    {
      hide Settled, Within, Frontier, LargeOk, QueueOk, SeenFrom;
      nodes := Current();
      NothingSeen();
      CurrentInside(nodes);
      assert nodes[..0] == [];
      var localCount := 0;
      for i := 0 to currCount
        invariant Searching() && QueueOk() && LargeOk() && localCount == |search.next| && SeenFrom(nodes[..i])
        invariant forward == old(forward) + nodes[..i] && nextCount == 0
        invariant globalVector[..] == old(globalVector[..])
      {
        SeparateArrays();
        var t := globalVector[globalCurrLevelBegin + i];
        assert t == globalVector[..][globalCurrLevelBegin + i] == nodes[i];
        localCount := VisitRd(t, localCount, nodes[..i]);
        assert nodes[..i + 1] == nodes[..i] + [t];
      }
      assert nodes[..currCount] == nodes;
      nextCount := nextCount + localCount;
    }

    /** In the read-based cases the nodes of the level are found by reading visited_level. */
    ghost predicate Scanned(nodes: seq<nat>, n: nat)
      reads this
    {
      Distinct(nodes) && forall v: nat :: v in nodes <==> v < n && v < |startLevels| && startLevels[v] == currLevel
    }

    lemma OnThisLevel(t: nat)
      requires Searching() && LargeOk() && t < g.Nodes()
      ensures t < visitedLevel.Length && (visitedLevel[t] == currLevel <==> startLevels[t] == currLevel)
    {
      assert visitedLevel[..][t] == search.levels[t];
      LevelsKept(g, currLevel, startLevels, startDown, search, t);
    }

    /** The case ST_RD. */
    method LevelRd() returns (ghost nodes: seq<nat>)
      requires LevelStart() && QueueOk() && LargeOk()
      modifies `nextCount, `search, `forward, visitedBitmap, visitedLevel, downEdgeArray
      ensures Searching() && QueueOk() && LargeOk() && nextCount == |search.next| && SeenFrom(nodes)
      ensures Frontier(startLevels, currLevel, nodes) && forward == old(forward) + nodes
    {
      hide Settled, Within, LargeOk, QueueOk, SeenFrom;
      nodes := [];
      NothingSeen();
      var localCount := 0;
      for t := 0 to g.Nodes()
        invariant Searching() && QueueOk() && LargeOk() && localCount == |search.next| && SeenFrom(nodes)
        invariant Scanned(nodes, t)
        invariant forward == old(forward) + nodes && nextCount == 0
        invariant globalVector[..] == old(globalVector[..])
      {
        OnThisLevel(t);
        SeparateArrays();
        if visitedLevel[t] == currLevel {
          localCount := VisitRd(t, localCount, nodes);
          nodes := nodes + [t];
        }
      }
      nextCount := nextCount + localCount;
    }

    /** The case ST_R2Q. */
    method LevelR2Q() returns (ghost nodes: seq<nat>)
      requires LevelStart() && QueueOk() && LargeOk()
      modifies `threadLocalNextLevel, `nextCount, `search, `forward, globalVector, visitedBitmap, visitedLevel, downEdgeArray
      ensures Searching() && QueueOk() && LargeOk() && QueueNext() && SeenFrom(nodes) && threadLocalNextLevel == []
      ensures Frontier(startLevels, currLevel, nodes) && forward == old(forward) + nodes
      ensures globalNextLevelBegin <= globalVector.Length
      ensures globalVector[..globalNextLevelBegin] == old(globalVector[..globalNextLevelBegin])
    {
      hide Settled, Within, LargeOk, QueueOk, SeenFrom;
      nodes := [];
      NothingSeen();
      for t := 0 to g.Nodes()
        invariant Searching() && QueueOk() && LargeOk() && threadLocalNextLevel == search.next && SeenFrom(nodes)
        invariant Scanned(nodes, t)
        invariant forward == old(forward) + nodes && nextCount == 0
        invariant globalVector[..] == old(globalVector[..])
      {
        OnThisLevel(t);
        SeparateArrays();
        if visitedLevel[t] == currLevel {
          VisitQue(t, nodes);
          nodes := nodes + [t];
        }
      }
      FinishThreadQue();
    }

    // -------------------------------------------------------------- between levels

    /** prepare_que: from the map and the set to arrays over all nodes and edges. */
    method PrepareQue()
      requires Searching() && QueueOk() && SmallOk()
      modifies `visitedBitmap, `visitedLevel, `downEdgeArray
      ensures Searching() && QueueOk() && LargeOk()
      ensures fresh(visitedBitmap) && fresh(visitedLevel) && fresh(downEdgeArray)
    {
      hide Settled, Within;
      visitedBitmap, visitedLevel := CopyVisited();
      downEdgeArray := CopyDownEdges();
    }

    method CopyVisited() returns (bitmap: array<bool>, level: array<int>)
      requires Searching() && SmallOk()
      ensures fresh(bitmap) && fresh(level) && bitmap.Length == g.Nodes()
      ensures level[..] == search.levels
      ensures forall v :: 0 <= v < bitmap.Length ==> (bitmap[v] <==> search.levels[v] != INVALID_LEVEL)
    {
      hide Settled, Within;
      var n := g.Nodes();
      bitmap := new bool[n](_ => false);
      level := new int[n](_ => INVALID_LEVEL);
      var left := smallVisited.Keys;
      while left != {}
        invariant left <= smallVisited.Keys
        invariant forall v: nat :: v < n ==>
                    level[v] == (if v in left then INVALID_LEVEL else search.levels[v])
                    && (bitmap[v] <==> v !in left && search.levels[v] != INVALID_LEVEL)
        decreases left
      {
        var u :| u in left;
        bitmap[u] := true;
        level[u] := smallVisited[u];
        left := left - {u};
      }
    }

    method CopyDownEdges() returns (down: array<bool>)
      requires Searching() && SmallOk()
      ensures fresh(down)
      ensures saveChild ==> down.Length == |g.values|
                            && forall e: nat :: e < |g.values| ==> (down[e] <==> e in search.down)
    {
      hide Settled, Within;
      DownEdgesWithin();
      down := new bool[|g.values|](_ => false);
      if saveChild {
        var edges := downEdgeSet;
        while edges != {}
          invariant edges <= downEdgeSet
          invariant forall e: nat :: e < |g.values| ==> (down[e] <==> e in downEdgeSet && e !in edges)
          decreases edges
        {
          var e :| e in edges;
          down[e] := true;
          edges := edges - {e};
        }
      }
    }

    lemma DownEdgesWithin()
      requires Searching()
      ensures forall e :: e in search.down ==> e < |g.values|
    {
    }

    /** The current level has been processed: its edges have been seen and its nodes visited. */
    ghost predicate LevelDone(nodes: seq<nat>)
      reads `currLevel, `startLevels, `startDown, `search, `globalNextLevelBegin, `nextCount, `threadLocalNextLevel, globalVector
    {
      && Searching() && QueueOk() && SeenFrom(nodes) && Frontier(startLevels, currLevel, nodes)
      && nextCount == |search.next| && threadLocalNextLevel == []
    }

    /** The levels so far, in the queue and in level_queue_begin and level_count. */
    ghost predicate Recorded()
      reads `currLevel, `startLevels, `globalNextLevelBegin, `levelQueueBegin, `levelCount, `state, globalVector
    {
      RecordedIn(state)
    }

    ghost predicate RecordedIn(state: Mode)
      reads `currLevel, `startLevels, `globalNextLevelBegin, `levelQueueBegin, `levelCount, globalVector
    {
      && globalNextLevelBegin <= globalVector.Length
      && |levelQueueBegin| == |levelCount| == currLevel + 1
      && Segments(startLevels, globalVector[..globalNextLevelBegin], levelQueueBegin, levelCount)
      && (state.Small? ==> forall d :: 0 <= d < |levelQueueBegin| ==> levelQueueBegin[d] >= 0)
    }

    ghost predicate ModeOk()
      reads this, visitedBitmap, visitedLevel, downEdgeArray
    {
      if state.Small? then SmallOk() else LargeOk()
    }

    predicate HasQueue(state: Mode) {
      !state.Q2R? && !state.Rd?
    }

    lemma LevelSettles(nodes: seq<nat>)
      requires LevelDone(nodes)
      ensures Settled(g, root, currLevel + 1, search.levels, search.down)
      ensures forall v :: 0 <= v < |startLevels| ==> startLevels[v] <= currLevel
      ensures search.next == [] ==> Answers(g, root, search.levels, search.down) && search.levels == startLevels
    {
      hide Frontier, Settled, Within;
      SeenIsLevel(nodes);
      NextLevel(g, root, currLevel, startLevels, startDown, search);
      BoundedLevels();
      if search.next == [] {
        NothingNext();
        Finished(g, root, currLevel, search.levels, search.down);
      }
    }

    lemma BoundedLevels()
      requires Searching()
      ensures forall v :: 0 <= v < |startLevels| ==> startLevels[v] <= currLevel
    {
    }

    lemma NothingNext()
      requires Searching() && search.next == []
      ensures search.levels == startLevels && forall v :: 0 <= v < |startLevels| ==> search.levels[v] != currLevel + 1
    {
      forall v | 0 <= v < |startLevels| ensures search.levels[v] == startLevels[v] && search.levels[v] != currLevel + 1 {
        assert v !in search.next;
      }
    }

    lemma SeenIsLevel(nodes: seq<nat>)
      requires Searching() && SeenFrom(nodes) && Frontier(startLevels, currLevel, nodes)
      ensures forall e: nat :: e in search.seen <==> e < |g.values| && startLevels[g.Owner(e)] == currLevel
    {
    }

    /** The level has nodes. */
    ghost predicate Busy()
      reads `startLevels, `currLevel
    {
      exists v: nat :: v < |startLevels| && startLevels[v] == currLevel
    }

    /** The first part of finish_level: the output queue becomes the input queue. */
    method MoveOutputQueue(st: Mode)
      requires HasQueue(st) ==> QueueNext()
      requires globalNextLevelBegin <= globalVector.Length
      modifies `globalCurrLevelBegin, `globalNextLevelBegin
      ensures globalNextLevelBegin <= globalVector.Length
      ensures HasQueue(st) ==> globalCurrLevelBegin == old(globalNextLevelBegin)
                               && globalNextLevelBegin == globalCurrLevelBegin + nextCount
                               && globalVector[globalCurrLevelBegin..globalNextLevelBegin] == search.next
      ensures globalVector[..globalNextLevelBegin]
              == old(globalVector[..globalNextLevelBegin]) + if HasQueue(st) then search.next else []
    {
      if !HasQueue(st) {
      } else {
        globalCurrLevelBegin := globalNextLevelBegin;
        globalNextLevelBegin := globalNextLevelBegin + nextCount;
      }
    }

    /** The second part of finish_level. */
    method SaveLevelStatus(st: Mode)
      modifies `currCount, `nextCount, `currLevel, `levelCount, `levelQueueBegin
      ensures currCount == old(nextCount) && nextCount == 0 && currLevel == old(currLevel) + 1
      ensures levelCount == old(levelCount) + [currCount]
      ensures levelQueueBegin == old(levelQueueBegin) + [if HasQueue(st) then globalCurrLevelBegin else NO_QUEUE]
    {
      currCount := nextCount;
      nextCount := 0;
      currLevel := currLevel + 1;
      levelCount := levelCount + [currCount];
      if !HasQueue(st) {
        levelQueueBegin := levelQueueBegin + [NO_QUEUE];
      } else {
        levelQueueBegin := levelQueueBegin + [globalCurrLevelBegin];
      }
    }

    /** finish_level, apart from what is only stated about it. */
    method MoveOn(st: Mode)
      requires HasQueue(st) ==> QueueNext()
      requires globalNextLevelBegin <= globalVector.Length
      modifies `globalCurrLevelBegin, `globalNextLevelBegin, `currCount, `nextCount, `currLevel, `levelCount, `levelQueueBegin
      ensures globalNextLevelBegin <= globalVector.Length
      ensures HasQueue(st) ==> globalCurrLevelBegin == old(globalNextLevelBegin)
                               && globalNextLevelBegin == globalCurrLevelBegin + currCount
                               && globalVector[globalCurrLevelBegin..globalNextLevelBegin] == search.next
      ensures globalVector[..globalNextLevelBegin]
              == old(globalVector[..globalNextLevelBegin]) + if HasQueue(st) then search.next else []
      ensures currCount == old(nextCount) && nextCount == 0 && currLevel == old(currLevel) + 1
      ensures levelCount == old(levelCount) + [currCount]
      ensures levelQueueBegin == old(levelQueueBegin) + [if HasQueue(st) then old(globalNextLevelBegin) else NO_QUEUE]
    {
      MoveOutputQueue(st);
      SaveLevelStatus(st);
    }

    ghost method StartLevel()
      modifies `startLevels, `startDown, `search
      ensures startLevels == old(search.levels) && startDown == old(search.down)
      ensures search == Search(startLevels, [], startDown, {})
      ensures (old(SmallOk()) ==> SmallOk()) && (old(LargeOk()) ==> LargeOk())
    {
      startLevels, startDown := search.levels, search.down;
      search := Search(startLevels, [], startDown, {});
    }

    /** What finish_level needs to know about the level it finishes. */
    lemma FinishedLevel(st: Mode, nodes: seq<nat>, visits: seq<nat>)
      requires LevelDone(nodes) && search.next != [] && Recorded()
      requires VisitedBelow(startLevels, currLevel, visits)
      ensures Settled(g, root, currLevel + 1, search.levels, search.down)
      ensures Within(g, currLevel + 1, search.levels, search.down, Search(search.levels, [], search.down, {}))
      ensures VisitedBelow(search.levels, currLevel + 1, visits + nodes)
      ensures Frontier(search.levels, currLevel + 1, search.next)
      ensures exists v: nat :: v < |search.levels| && search.levels[v] == currLevel + 1
      ensures var queue := globalVector[..globalNextLevelBegin] + if HasQueue(st) then search.next else [];
              var begin := if HasQueue(st) then globalNextLevelBegin else NO_QUEUE;
              Queued(search.levels, queue)
              && Segments(search.levels, queue, levelQueueBegin + [begin], levelCount + [|search.next|])
    {
      hide Settled, Within, Frontier, VisitedBelow, Segments, Queued;
      LevelSettles(nodes);
      VisitedNext(g, currLevel, startLevels, startDown, search, visits, nodes);
      FrontierNext(g, currLevel, startLevels, startDown, search);
      var queue := globalVector[..globalNextLevelBegin];
      AsQueued();
      QueuedNext(g, currLevel, startLevels, startDown, search, queue);
      SegmentsNext(g, currLevel, startLevels, startDown, search, queue, levelQueueBegin, levelCount);
      assert queue + [] == queue;
      NextHasNodes(g, search.levels, currLevel + 1, search.next);
      SettledBounds(g, root, currLevel + 1, search.levels, search.down);
      BeginWithin(g, currLevel + 1, search.levels, search.down);
    }

    lemma LevelBegun(st: Mode, next: seq<nat>)
      requires g.WellFormed() && root < g.Nodes() && Settled(g, root, currLevel, startLevels, startDown)
      requires search == Search(startLevels, [], startDown, {}) && Within(g, currLevel, startLevels, startDown, search)
      requires |startLevels| == g.Nodes() == globalVector.Length && globalNextLevelBegin <= globalVector.Length
      requires nextCount == 0 && threadLocalNextLevel == []
      requires |levelQueueBegin| == |levelCount| == currLevel + 1
      requires Queued(startLevels, globalVector[..globalNextLevelBegin])
      requires Segments(startLevels, globalVector[..globalNextLevelBegin], levelQueueBegin, levelCount)
      requires state.Small? ==> forall d :: 0 <= d < |levelQueueBegin| ==> levelQueueBegin[d] >= 0
      requires exists v: nat :: v < |startLevels| && startLevels[v] == currLevel
      requires Frontier(startLevels, currLevel, next)
      requires HasQueue(st) ==> globalCurrLevelBegin + currCount == globalNextLevelBegin
                                && globalVector[globalCurrLevelBegin..globalNextLevelBegin] == next
      ensures LevelStart() && QueueOk() && Recorded() && Busy()
      ensures HasQueue(st) ==> CurrentQueue()
    {
      hide Settled, Within, Frontier, VisitedBelow, Segments, Queued;
      FromQueued();
    }

    /** finish_level */
    method FinishLevel(st: Mode, ghost nodes: seq<nat>, ghost visits: seq<nat>)
      requires LevelDone(nodes) && search.next != [] && (HasQueue(st) ==> QueueNext())
      requires Recorded() && (state.Small? ==> HasQueue(st))
      requires VisitedBelow(startLevels, currLevel, visits) && forward == visits + nodes
      modifies `globalCurrLevelBegin, `globalNextLevelBegin, `currCount, `nextCount, `currLevel,
        `levelCount, `levelQueueBegin, `startLevels, `startDown, `search
      ensures LevelStart() && QueueOk() && Recorded() && Busy()
      ensures VisitedBelow(startLevels, currLevel, forward)
      ensures currLevel == old(currLevel) + 1
      ensures search.levels == old(search.levels) && search.down == old(search.down)
      ensures HasQueue(st) ==> CurrentQueue()
      ensures (old(SmallOk()) ==> SmallOk()) && (old(LargeOk()) ==> LargeOk())
    {
      hide Settled, Within, Frontier, VisitedBelow, Segments, Queued, SmallOk, LargeOk, Distinct;
      FinishedLevel(st, nodes, visits);
      ghost var next := search.next;
      MoveOn(st);
      StartLevel();
      LevelBegun(st, next);
    }

    lemma AsQueued()
      requires QueueOk()
      ensures Queued(startLevels, globalVector[..globalNextLevelBegin])
    {
      var queue := globalVector[..globalNextLevelBegin];
      forall v | v in queue ensures v < |startLevels| && startLevels[v] != INVALID_LEVEL {
        var i :| 0 <= i < |queue| && queue[i] == v;
        assert queue[i] == globalVector[i];
      }
    }

    lemma FromQueued()
      requires globalVector.Length == g.Nodes() && globalNextLevelBegin <= globalVector.Length
      requires Queued(startLevels, globalVector[..globalNextLevelBegin])
      ensures QueueOk()
    {
      forall i | 0 <= i < globalNextLevelBegin
        ensures globalVector[i] < |startLevels| && startLevels[globalVector[i]] != INVALID_LEVEL
      {
        assert globalVector[..globalNextLevelBegin][i] in globalVector[..globalNextLevelBegin];
      }
    }

    // -------------------------------------------------------------- the whole search

    /** An object fresh from its constructor and prepare. */
    constructor (g: Csr, root: nat, saveChild: bool)
      requires g.WellFormed() && root < g.Nodes()
      ensures this.g == g && this.root == root && this.saveChild == saveChild
      ensures state == Small && currLevel == 0 && smallVisited == map[] && downEdgeSet == {}
      ensures levelQueueBegin == [] && levelCount == [] && threadLocalNextLevel == [] && forward == [] && backward == []
      ensures globalVector.Length == g.Nodes() && fresh(globalVector)
      ensures fresh(visitedBitmap) && fresh(visitedLevel) && fresh(downEdgeArray)
    {
      this.g, this.root, this.saveChild := g, root, saveChild;
      state, currLevel := Small, 0;
      smallVisited, downEdgeSet := map[], {};
      visitedBitmap, visitedLevel, downEdgeArray := new bool[0], new int[0], new bool[0];
      globalVector := new nat[g.Nodes()];
      levelQueueBegin, levelCount, threadLocalNextLevel := [], [], [];
      forward, backward := [], [];
    }

    /** The queue holds the current level whenever the state reads it. */
    ghost predicate ReadyForLevel()
      reads this, globalVector, visitedBitmap, visitedLevel, downEdgeArray
    {
      && LevelStart() && QueueOk() && ModeOk() && Recorded() && Busy()
      && (ReadsQueue(state) ==> CurrentQueue())
      && VisitedBelow(startLevels, currLevel, forward)
    }

    predicate ReadsQueue(state: Mode) {
      state.Small? || state.Que? || state.Q2R?
    }

    /** The switch of do_bfs_forward. */
    method ProcessLevel() returns (ghost nodes: seq<nat>)
      requires ReadyForLevel()
      modifies `smallVisited, `downEdgeSet, `threadLocalNextLevel, `nextCount, `search, `forward, globalVector, visitedBitmap, visitedLevel, downEdgeArray
      ensures LevelDone(nodes) && ModeOk() && Recorded() && Busy()
      ensures HasQueue(state) ==> QueueNext()
      ensures forward == old(forward) + nodes
    {
      hide Settled, Within, Frontier, VisitedBelow, Segments, SmallOk, LargeOk;
      match state {
        case Small => nodes := LevelSmall();
        case Que => nodes := LevelQue();
        case Q2R => nodes := LevelQ2R();
        case Rd => nodes := LevelRd();
        case R2Q => nodes := LevelR2Q();
      }
    }

    /** The levels and the down-edges are final. */
    ghost predicate Answered()
      reads this, visitedBitmap, visitedLevel, downEdgeArray
    {
      g.WellFormed() && root < g.Nodes() && ModeOk() && Answers(g, root, search.levels, search.down)
    }

    /** The queue, level_queue_begin and level_count say where each of the levels up to top is. */
    ghost predicate AllLevels(top: nat)
      reads this, globalVector
    {
      && (forall v :: 0 <= v < |search.levels| ==> search.levels[v] <= top)
      && globalNextLevelBegin <= globalVector.Length && |levelQueueBegin| == |levelCount| == top + 1
      && Segments(search.levels, globalVector[..globalNextLevelBegin], levelQueueBegin, levelCount)
      && (state.Small? ==> forall d :: 0 <= d < |levelQueueBegin| ==> levelQueueBegin[d] >= 0)
    }

    /** The forward search is over, and visit_fw has been called once for every node reached. */
    ghost predicate Complete()
      reads this, globalVector, visitedBitmap, visitedLevel, downEdgeArray
    {
      Answered() && AllLevels(currLevel) && VisitedBelow(search.levels, currLevel + 1, forward)
    }

    lemma LastLevel(nodes: seq<nat>, visits: seq<nat>)
      requires LevelDone(nodes) && ModeOk() && Recorded() && search.next == []
      requires VisitedBelow(startLevels, currLevel, visits) && forward == visits + nodes
      ensures Complete()
    {
      hide Settled, Within, Frontier, VisitedBelow, Segments, SmallOk, LargeOk, Answers;
      LevelSettles(nodes);
      VisitedNext(g, currLevel, startLevels, startDown, search, visits, nodes);
    }

    /** When the search changes its data structures. */
    function NextMode(state: Mode, nextCount: nat, currCount: nat): Mode {
      match state
      case Small => if nextCount >= THRESHOLD1 then Que else Small
      case Que => if nextCount >= THRESHOLD2 && nextCount >= currCount * 5 then Q2R else Que
      case Q2R => Rd
      case Rd => if nextCount <= 2 * currCount then R2Q else Rd
      case R2Q => Que
    }

    /** get_next_state */
    method GetNextState(ghost nodes: seq<nat>, ghost visits: seq<nat>) returns (done: bool)
      requires LevelDone(nodes) && ModeOk() && Recorded() && (HasQueue(state) ==> QueueNext())
      requires VisitedBelow(startLevels, currLevel, visits) && forward == visits + nodes
      modifies this
      ensures done <==> old(nextCount) == 0
      ensures done ==> Complete() && state == old(state)
      ensures !done ==> ReadyForLevel()
      ensures !done && old(state).Small? ==> state == if old(nextCount) >= 128 then Que else Small
      ensures !done && old(state).Que? ==> state == if old(nextCount) >= 1024 && old(nextCount) >= 5 * old(currCount) then Q2R else Que
      ensures !done && old(state).Q2R? ==> state == Rd
      ensures !done && old(state).Rd? ==> state == if old(nextCount) <= 2 * old(currCount) then R2Q else Rd
      ensures !done && old(state).R2Q? ==> state == Que
      ensures forward == old(forward) && backward == old(backward)
      ensures visitedBitmap == old(visitedBitmap) || fresh(visitedBitmap)
      ensures visitedLevel == old(visitedLevel) || fresh(visitedLevel)
      ensures downEdgeArray == old(downEdgeArray) || fresh(downEdgeArray)
    {
      hide Searching, SeenFrom, QueueOk, QueueNext, CurrentQueue, LevelStart, LevelDone, RecordedIn, Busy, VisitedBelow, SmallOk, LargeOk;
      NextSize(nodes);
      if nextCount == 0 {
        LastLevel(nodes, visits);
        return true;
      }
      var nextState := ChooseState(nodes);
      EnterState(nextState, nodes, visits);
      return false;
    }

    /** The end of get_next_state. */
    method EnterState(nextState: Mode, ghost nodes: seq<nat>, ghost visits: seq<nat>)
      requires LevelDone(nodes) && Recorded() && (HasQueue(state) ==> QueueNext()) && search.next != []
      requires VisitedBelow(startLevels, currLevel, visits) && forward == visits + nodes
      requires nextState == NextMode(state, nextCount, currCount)
      requires (state.Small? ==> SmallOk()) && (!nextState.Small? ==> LargeOk())
      modifies `globalCurrLevelBegin, `globalNextLevelBegin, `currCount, `nextCount, `currLevel,
        `levelCount, `levelQueueBegin, `startLevels, `startDown, `search, `state
      ensures ReadyForLevel() && state == nextState
    {
      hide Searching, SeenFrom, QueueOk, QueueNext, CurrentQueue, LevelStart, LevelDone, RecordedIn, Busy, VisitedBelow, SmallOk, LargeOk;
      FinishLevel(state, nodes, visits);
      RecordedUnder(nextState);
      state := nextState;
    }

    lemma NextSize(nodes: seq<nat>)
      requires LevelDone(nodes)
      ensures nextCount == |search.next|
    {
    }

    lemma RecordedUnder(next: Mode)
      requires Recorded() && (next.Small? ==> state.Small?)
      ensures RecordedIn(next)
    {
    }

    /** The switch of get_next_state. */
    method ChooseState(ghost nodes: seq<nat>) returns (nextState: Mode)
      requires LevelDone(nodes) && ModeOk() && nextCount > 0
      modifies `visitedBitmap, `visitedLevel, `downEdgeArray
      ensures nextState == NextMode(state, nextCount, currCount)
      ensures state.Small? ==> SmallOk()
      ensures !nextState.Small? ==> LargeOk()
      ensures visitedBitmap == old(visitedBitmap) || fresh(visitedBitmap)
      ensures visitedLevel == old(visitedLevel) || fresh(visitedLevel)
      ensures downEdgeArray == old(downEdgeArray) || fresh(downEdgeArray)
    {
      hide Searching, SeenFrom, QueueOk, Frontier, SmallOk, LargeOk;
      nextState := state;
      match state {
        case Small =>
          if nextCount >= THRESHOLD1 {
            PrepareQue();
            nextState := Que;
          }
        case Que =>
          if nextCount >= THRESHOLD2 && nextCount >= currCount * 5 {
            nextState := Q2R;
          }
        case Q2R =>
          nextState := Rd;
        case Rd =>
          if nextCount <= 2 * currCount {
            nextState := R2Q;
          }
        case R2Q =>
          nextState := Que;
      }
    }

    ghost method StartSearch()
      requires g.WellFormed() && root < g.Nodes()
      modifies `startLevels, `startDown, `search
      ensures |startLevels| == g.Nodes() && startDown == {} && search == Search(startLevels, [], {}, {})
      ensures forall v :: 0 <= v < |startLevels| ==> startLevels[v] == if v == root then 0 else INVALID_LEVEL
    {
      startDown := {};
      startLevels := seq(g.Nodes(), v => if v == root then 0 else INVALID_LEVEL);
      search := Search(startLevels, [], startDown, {});
    }

    /** What do_bfs_forward does before its loop. */
    method PlaceRoot()
      requires smallVisited == map[] && levelQueueBegin == [] && levelCount == []
      requires g.WellFormed() && root < g.Nodes() && globalVector.Length == g.Nodes()
      modifies `currLevel, `currCount, `nextCount, `smallVisited, `globalCurrLevelBegin, `globalNextLevelBegin, `levelCount, `levelQueueBegin, globalVector
      ensures currLevel == 0 && currCount == 1 && nextCount == 0 && smallVisited == map[root := 0]
      ensures globalCurrLevelBegin == 0 && globalNextLevelBegin == 1 && globalVector[0] == root
      ensures levelCount == [1] && levelQueueBegin == [0]
    {
      currLevel, currCount, nextCount := 0, 0, 0;
      smallVisited := smallVisited[root := currLevel];
      currCount := currCount + 1;
      globalVector[0] := root;
      globalCurrLevelBegin := 0;
      globalNextLevelBegin := currCount;
      levelCount := levelCount + [currCount];
      levelQueueBegin := levelQueueBegin + [globalCurrLevelBegin];
    }

    lemma RootPlaced()
      requires state == Small && downEdgeSet == {} && threadLocalNextLevel == [] && forward == []
      requires g.WellFormed() && root < g.Nodes() && globalVector.Length == g.Nodes()
      requires currLevel == 0 && currCount == 1 && nextCount == 0 && smallVisited == map[root := 0]
      requires globalCurrLevelBegin == 0 && globalNextLevelBegin == 1 && globalVector[0] == root
      requires levelCount == [1] && levelQueueBegin == [0]
      requires |startLevels| == g.Nodes() && startDown == {} && search == Search(startLevels, [], {}, {})
      requires forall v :: 0 <= v < |startLevels| ==> startLevels[v] == if v == root then 0 else INVALID_LEVEL
      ensures ReadyForLevel()
    {
      hide Settled, Within;
      Begin(g, root, startLevels);
      BeginWithin(g, 0, startLevels, startDown);
      assert startLevels[root] == currLevel;
      assert globalVector[..1] == globalVector[0..1] == [root];
    }

    lemma VisitsBounded()
      requires ReadyForLevel()
      ensures |forward| <= g.Nodes()
    {
      DistinctBounded(forward, g.Nodes());
    }

    lemma SomeNodes(nodes: seq<nat>)
      requires Busy() && Frontier(startLevels, currLevel, nodes)
      ensures nodes != []
    {
    }

    /** do_bfs_forward */
    method DoBfsForward()
      requires state == Small && smallVisited == map[] && downEdgeSet == {} && threadLocalNextLevel == []
      requires levelQueueBegin == [] && levelCount == [] && forward == []
      requires g.WellFormed() && root < g.Nodes() && globalVector.Length == g.Nodes()
      modifies this, globalVector, visitedBitmap, visitedLevel, downEdgeArray
      ensures Complete() && backward == old(backward)
    {
      hide ReadyForLevel, Complete;
      PlaceRoot();
      StartSearch();
      RootPlaced();
      VisitsBounded();
      var isDone := false;
      while !isDone
        invariant if isDone then Complete() else ReadyForLevel() && |forward| <= g.Nodes()
        invariant backward == old(backward)
        invariant visitedBitmap == old(visitedBitmap) || fresh(visitedBitmap)
        invariant visitedLevel == old(visitedLevel) || fresh(visitedLevel)
        invariant downEdgeArray == old(downEdgeArray) || fresh(downEdgeArray)
        decreases !isDone, g.Nodes() - |forward|
      {
        isDone := DoOneLevel();
      }
    }

    /** The body of the loop of do_bfs_forward. */
    method DoOneLevel() returns (isDone: bool)
      requires ReadyForLevel()
      modifies this, globalVector, visitedBitmap, visitedLevel, downEdgeArray
      ensures if isDone then Complete() else ReadyForLevel() && |old(forward)| < |forward| <= g.Nodes()
      ensures backward == old(backward)
      ensures visitedBitmap == old(visitedBitmap) || fresh(visitedBitmap)
      ensures visitedLevel == old(visitedLevel) || fresh(visitedLevel)
      ensures downEdgeArray == old(downEdgeArray) || fresh(downEdgeArray)
    {
      hide Searching, SeenFrom, Frontier, VisitedBelow, LevelStart, Busy, SmallOk, LargeOk, Recorded, QueueOk, CurrentQueue, Complete, QueueNext;
      ghost var visits := forward;
      ghost var nodes := ProcessLevel();
      SomeNodes(nodes);
      isDone := GetNextState(nodes, visits);
      if !isDone {
        VisitsBounded();
      }
    }

    lemma AllNodes()
      requires Answered()
      ensures |search.levels| == g.Nodes() && g.WellFormed() && root < g.Nodes()
    {
    }

    /** One level of do_bfs_reverse. */
    method ReverseLevel(ghost top: nat) returns (ghost nodes: seq<nat>)
      requires Answered() && AllLevels(top) && currLevel <= top
      modifies `backward
      ensures Frontier(search.levels, currLevel, nodes) && backward == old(backward) + nodes
    {
      hide Answers;
      AllNodes();
      var count := levelCount[currLevel];
      var beginIdx := levelQueueBegin[currLevel];
      if beginIdx == NO_QUEUE {
        nodes := [];
        for i := 0 to g.Nodes()
          invariant backward == old(backward) + nodes
          invariant Distinct(nodes) && forall v: nat :: v in nodes <==> v < i && search.levels[v] == currLevel
        {
          assert visitedLevel[..][i] == search.levels[i];
          if visitedLevel[i] != currLevel {
          } else {
            backward := backward + [i];
            nodes := nodes + [i];
          }
        }
      } else {
        nodes := globalVector[..globalNextLevelBegin][beginIdx..beginIdx + count];
        for i := 0 to count
          invariant backward == old(backward) + nodes[..i]
        {
          var u := globalVector[beginIdx + i];
          assert u == globalVector[..globalNextLevelBegin][beginIdx + i] == nodes[i];
          assert nodes[..i + 1] == nodes[..i] + [u];
          backward := backward + [u];
        }
        assert nodes[..count] == nodes;
      }
    }

    /** do_bfs_reverse: visit_rv is called once for every node reached, higher levels first. */
    method DoBfsReverse()
      requires Complete() && backward == []
      modifies `currLevel, `backward
      ensures Answered() && AllLevels(old(currLevel)) && currLevel == 0
      ensures VisitedDown(search.levels, 0, backward)
    {
      hide Answers, Segments, VisitedBelow;
      ghost var top := currLevel;
      assert VisitedDown(search.levels, top + 1, backward);
      while true
        invariant Answered() && AllLevels(top) && currLevel <= top
        invariant VisitedDown(search.levels, currLevel + 1, backward)
        decreases currLevel
      {
        ghost var visits := backward;
        ghost var nodes := ReverseLevel(top);
        VisitedDownNext(search.levels, currLevel, visits, nodes);
        if currLevel == 0 {
          break;
        }
        currLevel := currLevel - 1;
      }
    }

    /** get_level, once the search is over: the distance from the root, or INVALID_LEVEL. */
    method GetLevel(t: nat) returns (level: int)
      requires Answered() && t < g.Nodes()
      ensures level == INVALID_LEVEL <==> !Reachable(g, root, t)
      ensures level != INVALID_LEVEL ==> level >= 0 && IsDistance(g, root, t, level)
      ensures level == search.levels[t]
    {
      DistanceReaches(g, root, t);
      if state == Small {
        if t !in smallVisited {
          level := INVALID_LEVEL;
        } else {
          level := smallVisited[t];
        }
      } else {
        level := visitedLevel[..][t];
      }
    }

    /** is_down_edge, once the search is over. */
    method IsDownEdge(idx: nat) returns (r: bool)
      requires Answered() && saveChild && idx < |g.values|
      ensures r <==> OneLevelDown(g, root, idx)
      ensures r <==> idx in search.down
    {
      DownEdgeDistances(g, root, search.levels, search.down, idx);
      if state == Small {
        r := idx in downEdgeSet;
      } else {
        r := downEdgeArray[idx];
      }
    }
  }

  lemma NextHasNodes(g: Csr, levels: seq<int>, d: int, nodes: seq<nat>)
    requires Frontier(levels, d, nodes) && nodes != []
    ensures exists v: nat :: v < |levels| && levels[v] == d
  {
    assert nodes[0] in nodes;
  }

  lemma SettledBounds(g: Csr, root: nat, k: nat, levels: seq<int>, down: set<nat>)
    requires g.WellFormed() && root < g.Nodes() && Settled(g, root, k, levels, down)
    ensures |levels| == g.Nodes() && forall v :: 0 <= v < |levels| ==> levels[v] <= k
  {
  }

  lemma IsReachable(g: Csr, root: nat, t: nat)
    ensures (exists d: nat :: IsDistance(g, root, t, d)) ==> Reachable(g, root, t)
  {
    if d: nat :| IsDistance(g, root, t, d) {
      var p :| Path(g, p, root, t) && |p| == d + 1;
    }
  }

  lemma DistanceUnique(g: Csr, root: nat, v: nat, d: nat, e: nat)
    requires IsDistance(g, root, v, d) && IsDistance(g, root, v, e)
    ensures d == e
  {
    var p :| Path(g, p, root, v) && |p| == d + 1;
    var q :| Path(g, q, root, v) && |q| == e + 1;
  }

  lemma DownEdgeDistances(g: Csr, root: nat, levels: seq<int>, down: set<nat>, e: nat)
    requires g.WellFormed() && root < g.Nodes() && Answers(g, root, levels, down) && e < |g.values|
    ensures e in down <==> OneLevelDown(g, root, e)
  {
    hide IsDistance;
    var u, v := g.Owner(e), g.values[e];
    IsReachable(g, root, u);
    IsReachable(g, root, v);
    if d: nat :| IsDistance(g, root, u, d) && IsDistance(g, root, v, d + 1) {
      DistanceUnique(g, root, u, d, levels[u]);
      DistanceUnique(g, root, v, d + 1, levels[v]);
    }
    if e in down {
      assert IsDistance(g, root, u, levels[u]) && IsDistance(g, root, v, levels[u] + 1);
    }
  }

  /** The whole of it, as its users see it (forward, queries, reverse) on any graph and root:
      distances, exact down-edges, and each reached node visited once in order of level, both ways. */
  method RunBfs(g: Csr, root: nat) returns (levels: seq<int>, downEdges: seq<bool>, forward: seq<nat>, backward: seq<nat>)
    requires g.WellFormed() && root < g.Nodes()
    ensures |levels| == g.Nodes() && |downEdges| == |g.values|
    ensures forall v :: 0 <= v < |levels| ==>
              if levels[v] == INVALID_LEVEL then !Reachable(g, root, v)
              else 0 <= levels[v] && IsDistance(g, root, v, levels[v])
    ensures forall e: nat :: e < |g.values| ==> (downEdges[e] <==> OneLevelDown(g, root, e))
    ensures Distinct(forward) && forall v: nat :: v in forward <==> v < g.Nodes() && Reachable(g, root, v)
    ensures Distinct(backward) && forall v: nat :: v in backward <==> v < g.Nodes() && Reachable(g, root, v)
    ensures forall i, j :: 0 <= i < j < |forward| ==> Nearer(levels, forward[i], forward[j])
    ensures forall i, j :: 0 <= i < j < |backward| ==> Nearer(levels, backward[j], backward[i])
  {
    hide IsDistance, Reachable, Answers, Segments;
    var bfs := new Bfs(g, root, true);
    bfs.DoBfsForward();
    forward := bfs.forward;
    VisitsInOrder(bfs.search.levels, bfs.currLevel, forward);
    bfs.DoBfsReverse();
    backward := bfs.backward;
    VisitsReversed(bfs.search.levels, backward);
    levels := QueryLevels(bfs);
    downEdges := QueryDownEdges(bfs);
    ReachedNodes(g, root, levels, bfs.search.down);
  }

  method QueryLevels(bfs: Bfs) returns (levels: seq<int>)
    requires bfs.Answered()
    ensures levels == bfs.search.levels && |levels| == bfs.g.Nodes()
  {
    hide Bfs.Answered, IsDistance, Reachable;
    bfs.AllNodes();
    levels := [];
    for t := 0 to bfs.g.Nodes()
      invariant bfs.Answered() && levels == bfs.search.levels[..t]
    {
      var level := bfs.GetLevel(t);
      levels := levels + [level];
    }
  }

  method QueryDownEdges(bfs: Bfs) returns (downEdges: seq<bool>)
    requires bfs.Answered() && bfs.saveChild
    ensures |downEdges| == |bfs.g.values|
    ensures forall e: nat :: e < |bfs.g.values| ==> (downEdges[e] <==> OneLevelDown(bfs.g, bfs.root, e))
  {
    hide Bfs.Answered, IsDistance;
    bfs.AllNodes();
    downEdges := [];
    for e := 0 to |bfs.g.values|
      invariant bfs.Answered() && |downEdges| == e
      invariant forall x: nat :: x < e ==> (downEdges[x] <==> OneLevelDown(bfs.g, bfs.root, x))
    {
      var r := bfs.IsDownEdge(e);
      downEdges := downEdges + [r];
    }
  }

  /** Edge e leads from distance d to distance d + 1, for some d. */
  ghost predicate OneLevelDown(g: Csr, root: nat, e: nat)
    requires g.WellFormed() && e < |g.values|
  {
    exists d: nat :: IsDistance(g, root, g.Owner(e), d) && IsDistance(g, root, g.values[e], d + 1)
  }

  lemma VisitsInOrder(levels: seq<int>, k: nat, visits: seq<nat>)
    requires VisitedBelow(levels, k + 1, visits) && forall v :: 0 <= v < |levels| ==> levels[v] <= k
    ensures Distinct(visits) && forall v: nat :: v in visits <==> v < |levels| && levels[v] != INVALID_LEVEL
    ensures forall i, j :: 0 <= i < j < |visits| ==> Nearer(levels, visits[i], visits[j])
  {
  }

  lemma VisitsReversed(levels: seq<int>, visits: seq<nat>)
    requires VisitedDown(levels, 0, visits)
    ensures Distinct(visits) && forall v: nat :: v in visits <==> v < |levels| && levels[v] >= 0
    ensures forall i, j :: 0 <= i < j < |visits| ==> Nearer(levels, visits[j], visits[i])
  {
  }

  lemma ReachedNodes(g: Csr, root: nat, levels: seq<int>, down: set<nat>)
    requires g.WellFormed() && root < g.Nodes() && Answers(g, root, levels, down)
    ensures |levels| == g.Nodes()
    ensures forall v :: 0 <= v < |levels| ==>
              if levels[v] == INVALID_LEVEL then !Reachable(g, root, v)
              else 0 <= levels[v] && Reachable(g, root, v) && IsDistance(g, root, v, levels[v])
  {
    forall v: nat | v < g.Nodes() ensures levels[v] != INVALID_LEVEL ==> Reachable(g, root, v) {
      DistanceReaches(g, root, v);
    }
  }

  /** u's level is at most v's. */
  predicate Nearer(levels: seq<int>, u: nat, v: nat) {
    u < |levels| && v < |levels| && levels[u] <= levels[v]
  }

  lemma DistanceReaches(g: Csr, root: nat, t: nat)
    ensures forall d: nat :: IsDistance(g, root, t, d) ==> Reachable(g, root, t)
  {
    IsReachable(g, root, t);
  }
}
