/** merge_snapshots_helper (dllama/snapshot_merger.cpp): every rank's snapshots and the old level 0
    become a new level 0. */
module SnapshotMerge {
  import opened Sequences
  import opened SnapshotFile
  import opened ChainWalk

  // ---------------------------------------------------------------- iterating over a std::set

  ghost predicate Lists(s: seq<nat>, elements: set<nat>) {
    Ascending(s) && forall x: nat :: x in s <==> x in elements
  }

  lemma {:induction false} OneOrder(a: seq<nat>, b: seq<nat>)
    requires Ascending(a) && Ascending(b) && forall x: nat :: x in a <==> x in b
    ensures a == b
    decreases |a|
  {
    assert a != [] ==> a[0] in b;
    assert b != [] ==> b[0] in a;
    if a != [] {
      var m, n := |a| - 1, |b| - 1;
      assert a[m] in b && b[n] in a;
      assert a[m] == b[n];
      forall x: nat ensures x in a[..m] <==> x in b[..n] {
        assert x in a[..m] <==> x in a && x != a[m];
        assert x in b[..n] <==> x in b && x != b[n];
      }
      OneOrder(a[..m], b[..n]);
    }
  }

  method Least(s: set<nat>) returns (m: nat)
    requires s != {}
    ensures m in s && forall x :: x in s ==> m <= x
  {
    m :| m in s;
    var left := s;
    while left != {}
      invariant m in s && left <= s && forall x :: x in s && x !in left ==> m <= x
      decreases left
    {
      var x :| x in left;
      left := left - {x};
      if x < m {
        m := x;
      }
    }
  }

  /** A std::set hands out its elements in increasing order. */
  method InOrder(elements: set<nat>) returns (s: seq<nat>)
    ensures Lists(s, elements) && |s| == |elements|
  {
    s := [];
    var left := elements;
    while left != {}
      invariant left <= elements && Lists(s, elements - left) && |s| + |left| == |elements|
      invariant forall x, y :: x in s && y in left ==> x < y
      decreases left
    {
      var m := Least(left);
      ghost var before := s;
      s := s + [m];
      left := left - {m};
      forall x: nat ensures x in s <==> x in elements - left {
        assert x in s <==> x in before || x == m;
      }
      forall i, j | 0 <= i < j < |s| ensures s[i] < s[j] {
        assert s[i] in before;
      }
    }
  }

  // ---------------------------------------------------------------- what a merge is given

  /** What the files say: for each rank and vertex the fragments of its adjacency list and its
      degree, and the tables of the old level 0. */
  datatype Facts = Facts(deltas: seq<seq<seq<Fragment>>>, degrees: seq<seq<int>>, blockSize: nat, edges: seq<nat>, vertices: seq<Record>)

  ghost predicate BaseOk(base: File, facts: Facts) {
    && facts.blockSize > 0 && Stores(base, facts.blockSize, facts.edges, facts.vertices)
    && forall i :: 0 <= i < |facts.vertices| ==> PointsInto(facts.edges, facts.vertices[i])
  }

  /** Rank r can be asked for vertex v. */
  ghost predicate DeltaOk(stacks: seq<Stack>, facts: Facts, r: nat, v: nat) {
    && r < |stacks| && r < |facts.deltas| && r < |facts.degrees| && v < |facts.deltas[r]| && v < |facts.degrees[r]|
    && Holds(stacks[r], v, facts.deltas[r][v], facts.degrees[r][v])
  }

  /** Which ranks a merge asks for vertex v: itself only, or every rank that may know the vertex. */
  predicate Asked(received: seq<nat>, worldRank: nat, localOnly: bool, r: nat, v: nat) {
    r < |received| && if localOnly then r == worldRank else v <= received[r]
  }

  ghost predicate InputsOk(stacks: seq<Stack>, base: File, received: seq<nat>, worldRank: nat, localOnly: bool, facts: Facts) {
    && |stacks| == |received| && worldRank < |received| && BaseOk(base, facts)
    && forall r: nat, v: nat :: Asked(received, worldRank, localOnly, r, v) && v < NewVertices(received) ==> DeltaOk(stacks, facts, r, v)
  }

  function NewVertices(received: seq<nat>): nat {
    MaxOf(received, |received|) + 1
  }

  ghost function BaseNeighbours(facts: Facts, v: nat): seq<nat> {
    if v < |facts.vertices| && PointsInto(facts.edges, facts.vertices[v]) then Neighbours(facts.edges, facts.vertices[v]) else []
  }

  /** What rank r's snapshots add to v: the fragments of its list, as far as the degree goes. */
  ghost function DeltaNeighbours(facts: Facts, r: nat, v: nat): seq<nat> {
    if r < |facts.deltas| && v < |facts.deltas[r]| && r < |facts.degrees| && v < |facts.degrees[r]|
    then Walked(facts.deltas[r][v], 0, facts.degrees[r][v]) else []
  }

  /** That is all of them if the degree counts them all, as it does without deletions. */
  lemma AllDeltas(facts: Facts, r: nat, v: nat)
    requires r < |facts.deltas| && v < |facts.deltas[r]| && r < |facts.degrees| && v < |facts.degrees[r]|
    requires facts.degrees[r][v] >= |Whole(facts.deltas[r][v], 0)|
    ensures DeltaNeighbours(facts, r, v) == Whole(facts.deltas[r][v], 0)
  {
    WalkReturnsAll(facts.deltas[r][v], 0, facts.degrees[r][v]);
  }

  /** x is a neighbour of v in the new level 0. */
  ghost predicate Neighbour(received: seq<nat>, worldRank: nat, localOnly: bool, facts: Facts, v: nat, x: nat) {
    || x in BaseNeighbours(facts, v)
    || exists r: nat :: Asked(received, worldRank, localOnly, r, v) && x in DeltaNeighbours(facts, r, v)
  }

  // ---------------------------------------------------------------- the merge

  /** The neighbours of one vertex, gathered in a set. */
  method Gather(stacks: seq<Stack>, base: File, received: seq<nat>, worldRank: nat, localOnly: bool, vertex: nat, ghost facts: Facts)
    returns (neighbours: set<nat>)
    requires InputsOk(stacks, base, received, worldRank, localOnly, facts) && vertex < NewVertices(received)
    ensures |stacks| == |received| && forall x: nat :: x in neighbours <==> Neighbour(received, worldRank, localOnly, facts, vertex, x)
    ensures forall x: nat :: x in neighbours <==>
              || x in BaseNeighbours(facts, vertex)
              || exists r: nat :: r < |stacks| && (if localOnly then r == worldRank else vertex <= received[r]) && x in DeltaNeighbours(facts, r, vertex)
  {
    hide Holds, Stores, Walked, Whole, NewVertices;
    neighbours := {};
    if localOnly {
      var newNeighbours := AskRank(stacks, received, worldRank, localOnly, worldRank, vertex, facts);
      neighbours := neighbours + set x | x in newNeighbours;
      assert Asked(received, worldRank, localOnly, worldRank, vertex);
    } else {
      for r := 0 to |stacks|
        invariant forall x: nat :: x in neighbours <==>
                    exists q: nat :: q < r && Asked(received, worldRank, localOnly, q, vertex) && x in DeltaNeighbours(facts, q, vertex)
      {
        if vertex <= received[r] {
          var newNeighbours := AskRank(stacks, received, worldRank, localOnly, r, vertex, facts);
          neighbours := neighbours + set x | x in newNeighbours;
          assert Asked(received, worldRank, localOnly, r, vertex);
        }
      }
    }
    var newNeighbours := Level0Neighbours(base, vertex, facts.blockSize, facts.edges, facts.vertices);
    neighbours := neighbours + set x | x in newNeighbours;
  }

  method AskRank(stacks: seq<Stack>, received: seq<nat>, worldRank: nat, localOnly: bool, r: nat, vertex: nat, ghost facts: Facts)
    returns (neighbours: seq<nat>)
    requires r < |stacks| && DeltaOk(stacks, facts, r, vertex)
    ensures neighbours == DeltaNeighbours(facts, r, vertex)
  {
    neighbours := NeighboursOfVertex(stacks[r], vertex, facts.deltas[r][vertex], facts.degrees[r][vertex]);
  }

  method MaxElement(received: seq<nat>) returns (m: nat)
    requires received != []
    ensures m + 1 == NewVertices(received)
  {
    m := received[0];
    for i := 1 to |received|
      invariant m == MaxOf(received, i)
    {
      if received[i] > m {
        m := received[i];
      }
    }
  }

  ghost function Flatten(lists: seq<seq<nat>>): seq<nat> {
    if lists == [] then [] else Flatten(lists[..|lists| - 1]) + lists[|lists| - 1]
  }

  /** The tables of these adjacency lists: adj_list_start is the number of edges before the list. */
  ghost predicate TablesOf(lists: seq<seq<nat>>, edgeTable: seq<nat>, vertexTable: seq<Record>) {
    && edgeTable == Flatten(lists) && |vertexTable| == |lists|
    && forall v :: 0 <= v < |lists| ==> vertexTable[v] == Vertex(EdgeAt(0, |Flatten(lists[..v])|), |lists[v]|, |lists[v]|)
  }

  /** The adjacency lists of the new level 0: strictly ascending, and exactly the neighbours. */
  ghost predicate Merged(received: seq<nat>, worldRank: nat, localOnly: bool, facts: Facts, lists: seq<seq<nat>>) {
    && |lists| == NewVertices(received)
    && forall v :: 0 <= v < |lists| ==> MergedList(received, worldRank, localOnly, facts, v, lists[v])
  }

  ghost predicate MergedList(received: seq<nat>, worldRank: nat, localOnly: bool, facts: Facts, v: nat, list: seq<nat>) {
    Ascending(list) && forall x: nat :: x in list <==> Neighbour(received, worldRank, localOnly, facts, v, x)
  }

  /** One more than the largest number of vertices, in so many words. */
  lemma NumberOfVertices(received: seq<nat>, n: nat)
    requires received != []
    ensures n == NewVertices(received) <==>
              && (exists i :: 0 <= i < |received| && n == received[i] + 1)
              && (forall i :: 0 <= i < |received| ==> received[i] < n)
  {
  }

  /** No rank has deltas for a vertex beyond the number it sent, which is that of its last vertex. */
  ghost predicate CountsCover(received: seq<nat>, facts: Facts) {
    forall r: nat, v: nat :: r < |received| && v > received[r] ==> DeltaNeighbours(facts, r, v) == []
  }

  /** So merging with everybody loses nothing: the lists have the neighbours in level 0 and in the deltas of
      all ranks.  Merging locally takes the deltas of one rank only. */
  lemma MergedHasAll(received: seq<nat>, worldRank: nat, localOnly: bool, facts: Facts, lists: seq<seq<nat>>)
    requires Merged(received, worldRank, localOnly, facts, lists) && worldRank < |received|
    ensures exists i :: 0 <= i < |received| && |lists| == received[i] + 1
    ensures forall i :: 0 <= i < |received| ==> received[i] < |lists|
    ensures !localOnly && CountsCover(received, facts) ==>
              forall v, x: nat :: 0 <= v < |lists| ==>
                (x in lists[v] <==> x in BaseNeighbours(facts, v) || exists r: nat :: r < |received| && x in DeltaNeighbours(facts, r, v))
    ensures localOnly ==>
              forall v, x: nat :: 0 <= v < |lists| ==>
                (x in lists[v] <==> x in BaseNeighbours(facts, v) || x in DeltaNeighbours(facts, worldRank, v))
  {
    hide BaseNeighbours, DeltaNeighbours, Ascending, NewVertices;
    NumberOfVertices(received, |lists|);
    forall v, x: nat | 0 <= v < |lists|
      ensures !localOnly && CountsCover(received, facts) ==>
                (x in lists[v] <==> x in BaseNeighbours(facts, v) || exists r: nat :: r < |received| && x in DeltaNeighbours(facts, r, v))
      ensures localOnly ==> (x in lists[v] <==> x in BaseNeighbours(facts, v) || x in DeltaNeighbours(facts, worldRank, v))
    {
      assert MergedList(received, worldRank, localOnly, facts, v, lists[v]);
      HasAll(received, worldRank, localOnly, facts, v, x);
    }
  }

  lemma HasAll(received: seq<nat>, worldRank: nat, localOnly: bool, facts: Facts, v: nat, x: nat)
    requires worldRank < |received|
    ensures !localOnly && CountsCover(received, facts) ==>
              (Neighbour(received, worldRank, localOnly, facts, v, x)
               <==> x in BaseNeighbours(facts, v) || exists r: nat :: r < |received| && x in DeltaNeighbours(facts, r, v))
    ensures localOnly ==>
              (Neighbour(received, worldRank, localOnly, facts, v, x)
               <==> x in BaseNeighbours(facts, v) || x in DeltaNeighbours(facts, worldRank, v))
  {
    hide BaseNeighbours, DeltaNeighbours;
    if !localOnly && CountsCover(received, facts) {
      if r: nat :| r < |received| && x in DeltaNeighbours(facts, r, v) {
        assert Asked(received, worldRank, localOnly, r, v);
      }
    }
    if localOnly {
      assert Asked(received, worldRank, localOnly, worldRank, v);
    }
  }

  /** The loop of merge_snapshots_helper. */
  method MergeTables(stacks: seq<Stack>, base: File, received: seq<nat>, worldRank: nat, localOnly: bool, ghost facts: Facts)
    returns (edgeTable: seq<nat>, vertexTable: seq<Record>, ghost lists: seq<seq<nat>>)
    requires InputsOk(stacks, base, received, worldRank, localOnly, facts)
    ensures TablesOf(lists, edgeTable, vertexTable) && Merged(received, worldRank, localOnly, facts, lists)
    ensures edgeTable == Flatten(lists) && |vertexTable| == |lists|
    ensures forall v :: 0 <= v < |lists| ==>
              vertexTable[v] == Vertex(EdgeAt(0, |Flatten(lists[..v])|), |lists[v]|, |lists[v]|)
    ensures exists i :: 0 <= i < |received| && |lists| == received[i] + 1
    ensures forall i :: 0 <= i < |received| ==> received[i] < |lists|
    ensures !localOnly && CountsCover(received, facts) ==>
              forall v, x: nat :: 0 <= v < |lists| ==>
                (x in lists[v] <==> x in BaseNeighbours(facts, v) || exists r: nat :: r < |received| && x in DeltaNeighbours(facts, r, v))
    ensures localOnly ==>
              forall v, x: nat :: 0 <= v < |lists| ==>
                (x in lists[v] <==> x in BaseNeighbours(facts, v) || x in DeltaNeighbours(facts, worldRank, v))
  {
    hide InputsOk, Neighbour, Ascending, BaseNeighbours, DeltaNeighbours, CountsCover, NewVertices;
    RanksExist(stacks, base, received, worldRank, localOnly, facts);
    var m := MaxElement(received);
    edgeTable, vertexTable := [], [];
    lists := [];
    for vertex := 0 to m + 1
      invariant TablesOf(lists, edgeTable, vertexTable) && |lists| == vertex
      invariant forall v :: 0 <= v < |lists| ==> MergedList(received, worldRank, localOnly, facts, v, lists[v])
    {
      var neighbours := Gather(stacks, base, received, worldRank, localOnly, vertex, facts);
      var list := InOrder(neighbours);
      var entry := Vertex(EdgeAt(0, |edgeTable|), |neighbours|, |neighbours|);
      TablesMore(lists, edgeTable, vertexTable, list);
      edgeTable := edgeTable + list;
      vertexTable := vertexTable + [entry];
      lists := lists + [list];
    }
    MergedHasAll(received, worldRank, localOnly, facts, lists);
  }

  lemma RanksExist(stacks: seq<Stack>, base: File, received: seq<nat>, worldRank: nat, localOnly: bool, facts: Facts)
    requires InputsOk(stacks, base, received, worldRank, localOnly, facts)
    ensures received != [] && |received| == |stacks| && worldRank < |received|
  {
  }

  lemma TablesMore(lists: seq<seq<nat>>, edgeTable: seq<nat>, vertexTable: seq<Record>, list: seq<nat>)
    requires TablesOf(lists, edgeTable, vertexTable)
    ensures TablesOf(lists + [list], edgeTable + list, vertexTable + [Vertex(EdgeAt(0, |edgeTable|), |list|, |list|)])
  {
    var all := lists + [list];
    assert all[..|lists|] == lists;
    forall v | 0 <= v < |lists| ensures all[..v] == lists[..v] {
    }
  }

  // ---------------------------------------------------------------- reading back, and agreement

  /** A vertex table entry of the new level 0 points to its vertex's list. */
  lemma {:induction false} EntryPoints(lists: seq<seq<nat>>, v: nat)
    requires v < |lists|
    ensures |Flatten(lists[..v])| + |lists[v]| <= |Flatten(lists)|
    ensures Flatten(lists)[|Flatten(lists[..v])|..|Flatten(lists[..v])| + |lists[v]|] == lists[v]
    decreases |lists|
  {
    var n := |lists| - 1;
    var before := Flatten(lists[..n]);
    assert Flatten(lists) == before + lists[n];
    if v < n {
      EntryPoints(lists[..n], v);
      assert lists[..n][..v] == lists[..v] && lists[..n][v] == lists[v];
      SliceOfPrefix(before, lists[n], |Flatten(lists[..v])|, |Flatten(lists[..v])| + |lists[v]|);
    } else {
      SliceOfRest(before, lists[n]);
    }
  }

  lemma SliceOfPrefix(a: seq<nat>, b: seq<nat>, i: nat, j: nat)
    requires i <= j <= |a|
    ensures (a + b)[i..j] == a[i..j]
  {
  }

  lemma SliceOfRest(a: seq<nat>, b: seq<nat>)
    ensures (a + b)[|a|..|a| + |b|] == b
  {
  }

  /** What the merge makes does not depend on the rank that makes it, although that rank puts its own
      vertex count into the vector: it is enough that the vectors have the same maximum and differ only
      for ranks without snapshots. */
  lemma AnyRankMergesAlike(stacks: seq<Stack>, base: File, facts: Facts, received: seq<nat>, rank: nat, received': seq<nat>, rank': nat,
                           lists: seq<seq<nat>>, lists': seq<seq<nat>>)
    requires InputsOk(stacks, base, received, rank, false, facts) && InputsOk(stacks, base, received', rank', false, facts)
    requires NewVertices(received) == NewVertices(received')
    requires forall r :: 0 <= r < |received| && received[r] != received'[r] ==> stacks[r] == []
    requires Merged(received, rank, false, facts, lists) && Merged(received', rank', false, facts, lists')
    ensures lists == lists'
  {
    hide InputsOk, MergedList;
    forall v | 0 <= v < |lists| ensures lists[v] == lists'[v] {
      SameList(stacks, base, facts, received, rank, received', rank', v, lists[v], lists'[v]);
    }
  }

  lemma SameList(stacks: seq<Stack>, base: File, facts: Facts, received: seq<nat>, rank: nat, received': seq<nat>, rank': nat,
                 v: nat, list: seq<nat>, list': seq<nat>)
    requires InputsOk(stacks, base, received, rank, false, facts) && InputsOk(stacks, base, received', rank', false, facts)
    requires v < NewVertices(received) == NewVertices(received')
    requires forall r :: 0 <= r < |received| && received[r] != received'[r] ==> stacks[r] == []
    requires MergedList(received, rank, false, facts, v, list) && MergedList(received', rank', false, facts, v, list')
    ensures list == list'
  {
    hide InputsOk, Neighbour, Ascending, NewVertices;
    RanksExist(stacks, base, received, rank, false, facts);
    RanksExist(stacks, base, received', rank', false, facts);
    forall x: nat ensures x in list <==> x in list' {
      NeighbourToo(stacks, base, facts, received, rank, received', rank', v, x);
      NeighbourToo(stacks, base, facts, received', rank', received, rank, v, x);
    }
    OneOrder(list, list');
  }

  /** A neighbour for one rank is a neighbour for the other. */
  lemma NeighbourToo(stacks: seq<Stack>, base: File, facts: Facts, received: seq<nat>, rank: nat, received': seq<nat>, rank': nat, v: nat, x: nat)
    requires InputsOk(stacks, base, received, rank, false, facts) && |received| == |received'| && v < NewVertices(received)
    requires forall r :: 0 <= r < |received| && received[r] != received'[r] ==> stacks[r] == []
    ensures Neighbour(received, rank, false, facts, v, x) ==> Neighbour(received', rank', false, facts, v, x)
  {
    hide BaseOk, NewVertices, DeltaNeighbours, Chain;
    if r: nat :| Asked(received, rank, false, r, v) && x in DeltaNeighbours(facts, r, v) {
      assert DeltaOk(stacks, facts, r, v);
      NothingInEmpty(stacks, facts, r, v);
      assert Asked(received', rank', false, r, v);
    }
  }

  lemma NothingInEmpty(stacks: seq<Stack>, facts: Facts, r: nat, v: nat)
    requires DeltaOk(stacks, facts, r, v)
    ensures stacks[r] == [] ==> DeltaNeighbours(facts, r, v) == []
  {
  }

  /** merge_snapshots_helper as a whole, and reading its file back: the reader finds for each vertex
      exactly the merged list, and nothing for vertices that do not exist. */
  method MergeAndReadBack(stacks: seq<Stack>, base: File, received: seq<nat>, worldRank: nat, localOnly: bool, blockSize: nat, ghost facts: Facts)
    returns (file: File, lists: seq<seq<nat>>, beyond: seq<nat>)
    requires InputsOk(stacks, base, received, worldRank, localOnly, facts) && blockSize >= META_SIZE
    ensures Merged(received, worldRank, localOnly, facts, lists) && beyond == []
    ensures exists i :: 0 <= i < |received| && |lists| == received[i] + 1
    ensures forall i :: 0 <= i < |received| ==> received[i] < |lists|
    ensures !localOnly && CountsCover(received, facts) ==>
              forall v, x: nat :: 0 <= v < |lists| ==>
                (x in lists[v] <==> x in BaseNeighbours(facts, v) || exists r: nat :: r < |received| && x in DeltaNeighbours(facts, r, v))
    ensures localOnly ==>
              forall v, x: nat :: 0 <= v < |lists| ==>
                (x in lists[v] <==> x in BaseNeighbours(facts, v) || x in DeltaNeighbours(facts, worldRank, v))
    ensures exists edgeTable, vertexTable :: TablesOf(lists, edgeTable, vertexTable) && Stores(file, blockSize, edgeTable, vertexTable)
  {
    hide InputsOk, Merged, Stores, TablesOf, BaseNeighbours, DeltaNeighbours, CountsCover;
    var edgeTable, vertexTable;
    ghost var merged;
    edgeTable, vertexTable, merged := MergeTables(stacks, base, received, worldRank, localOnly, facts);
    EntriesPoint(merged, edgeTable, vertexTable);
    file := WriteMergedSnapshot(blockSize, edgeTable, vertexTable);
    lists, beyond := ReadBack(file, |vertexTable|, blockSize, edgeTable, vertexTable, merged);
  }

  lemma EntriesPoint(lists: seq<seq<nat>>, edgeTable: seq<nat>, vertexTable: seq<Record>)
    requires TablesOf(lists, edgeTable, vertexTable)
    ensures |vertexTable| == |lists|
    ensures forall v :: 0 <= v < |vertexTable| ==>
              vertexTable[v].Vertex? && PointsInto(edgeTable, vertexTable[v]) && Neighbours(edgeTable, vertexTable[v]) == lists[v]
  {
    forall v | 0 <= v < |vertexTable| ensures PointsInto(edgeTable, vertexTable[v]) && Neighbours(edgeTable, vertexTable[v]) == lists[v] {
      EntryPoints(lists, v);
    }
  }

  /** Asking the reader for every vertex, and for one more. */
  method ReadBack(file: File, n: nat, ghost blockSize: nat, ghost edgeTable: seq<nat>, ghost vertexTable: seq<Record>, ghost merged: seq<seq<nat>>)
    returns (lists: seq<seq<nat>>, beyond: seq<nat>)
    requires blockSize > 0 && Stores(file, blockSize, edgeTable, vertexTable) && n == |vertexTable| == |merged|
    requires forall v :: 0 <= v < n ==> PointsInto(edgeTable, vertexTable[v]) && Neighbours(edgeTable, vertexTable[v]) == merged[v]
    ensures lists == merged && beyond == []
  {
    hide Stores, PointsInto;
    lists := [];
    for v := 0 to n
      invariant lists == merged[..v]
    {
      var list := Level0Neighbours(file, v, blockSize, edgeTable, vertexTable);
      lists := lists + [list];
    }
    assert lists == merged;
    beyond := Level0Neighbours(file, n, blockSize, edgeTable, vertexTable);
  }

  /** Merging when no rank has anything new gives the same level 0 again. */
  method MergeNothing(base: File, received: seq<nat>, worldRank: nat, blockSize: nat, ghost facts: Facts, ghost lists: seq<seq<nat>>)
    returns (file: File, again: seq<seq<nat>>)
    requires worldRank < |received| && NewVertices(received) == |lists| && blockSize >= META_SIZE
    requires facts.blockSize > 0 && Stores(base, facts.blockSize, facts.edges, facts.vertices)
    requires TablesOf(lists, facts.edges, facts.vertices) && forall v :: 0 <= v < |lists| ==> Ascending(lists[v])
    ensures again == lists
  {
    hide Stores, Ascending, Neighbour, InputsOk, Merged, TablesOf, BaseNeighbours, DeltaNeighbours, CountsCover, Nothing;
    ghost var nothing := Nothing(facts, |received|, |lists|);
    var stacks := seq(|received|, _ => []);
    NothingReady(stacks, base, received, worldRank, facts, lists);
    var beyond;
    file, again, beyond := MergeAndReadBack(stacks, base, received, worldRank, false, blockSize, nothing);
    NothingMerged(received, worldRank, facts, nothing, again, lists);
  }

  /** The same level 0, and no deltas. */
  ghost function Nothing(facts: Facts, ranks: nat, vertices: nat): Facts {
    facts.(deltas := seq(ranks, _ => seq(vertices, _ => [])), degrees := seq(ranks, _ => seq(vertices, _ => 0)))
  }

  lemma NothingReady(stacks: seq<Stack>, base: File, received: seq<nat>, worldRank: nat, facts: Facts, lists: seq<seq<nat>>)
    requires worldRank < |received| == |stacks| && NewVertices(received) == |lists| && forall r :: 0 <= r < |stacks| ==> stacks[r] == []
    requires facts.blockSize > 0 && Stores(base, facts.blockSize, facts.edges, facts.vertices)
    requires TablesOf(lists, facts.edges, facts.vertices)
    ensures var nothing := Nothing(facts, |received|, |lists|);
            && InputsOk(stacks, base, received, worldRank, false, nothing)
            && (forall v :: 0 <= v < |lists| ==> BaseNeighbours(nothing, v) == lists[v])
            && forall r: nat, v: nat :: r < |received| && v < |lists| ==> DeltaNeighbours(nothing, r, v) == []
  {
    hide Stores, NewVertices;
    var nothing := Nothing(facts, |received|, |lists|);
    forall v | 0 <= v < |lists|
      ensures PointsInto(facts.edges, facts.vertices[v]) && Neighbours(facts.edges, facts.vertices[v]) == lists[v]
    {
      EntryPoints(lists, v);
    }
    forall r: nat, v: nat | r < |received| && v < |lists| ensures DeltaOk(stacks, nothing, r, v) && DeltaNeighbours(nothing, r, v) == [] {
      assert nothing.deltas[r][v] == [] && nothing.degrees[r][v] == 0;
    }
  }

  lemma NothingMerged(received: seq<nat>, worldRank: nat, facts: Facts, nothing: Facts, again: seq<seq<nat>>, lists: seq<seq<nat>>)
    requires Merged(received, worldRank, false, nothing, again) && NewVertices(received) == |lists|
    requires forall v :: 0 <= v < |lists| ==> Ascending(lists[v]) && BaseNeighbours(nothing, v) == lists[v]
    requires forall r: nat, v: nat :: r < |received| && v < |lists| ==> DeltaNeighbours(nothing, r, v) == []
    ensures again == lists
  {
    hide Ascending, Neighbour, BaseNeighbours, DeltaNeighbours, NewVertices;
    forall v | 0 <= v < |lists| ensures again[v] == lists[v] {
      assert MergedList(received, worldRank, false, nothing, v, again[v]);
      NothingNew(received, worldRank, nothing, v, again[v], lists[v]);
    }
  }

  lemma NothingNew(received: seq<nat>, worldRank: nat, facts: Facts, v: nat, list: seq<nat>, list': seq<nat>)
    requires MergedList(received, worldRank, false, facts, v, list) && Ascending(list') && BaseNeighbours(facts, v) == list'
    requires forall r: nat :: r < |received| ==> DeltaNeighbours(facts, r, v) == []
    ensures list == list'
  {
    forall x: nat ensures x in list <==> x in list' {
      assert x in list <==> Neighbour(received, worldRank, false, facts, v, x);
    }
    OneOrder(list, list');
  }
}
