/** get_neighbours_of_vertex (dllama/snapshot_manager.cpp): the walk along the continuation records of
    a stack of snapshot levels. */
module ChainWalk {
  import opened SnapshotFile

  /** The part of an adjacency list that lies in one level. */
  datatype Fragment = Fragment(level: nat, values: seq<nat>)

  /** The files of levels 1, 2, ... of one rank. */
  type Stack = seq<File>

  /** The entry starts the fragments from number k on, in the levels of the stack: each is in an older
      level than the one before it, and right behind it there is the entry of the next. After the
      last one the list is in level 0, or it has no more edges and the degree does not say it has. */
  ghost predicate Chain(stack: Stack, etOffset: nat, entry: Record, frags: seq<Fragment>, k: nat, degree: int)
    requires k <= |frags|
    decreases |frags| - k
  {
    entry.Vertex? &&
    if k == |frags| then
      if entry.start.NilEdge? then entry.levelLength == 0 && degree <= 0 else entry.start.level == 0
    else
      && entry.start.EdgeAt? && 1 <= entry.start.level == frags[k].level <= |stack|
      && entry.levelLength == |frags[k].values|
      && Values(stack[entry.start.level - 1], etOffset, entry.start.index, frags[k].values)
      && Behind(etOffset, entry) in stack[entry.start.level - 1]
      && (k + 1 < |frags| ==> frags[k + 1].level < frags[k].level)
      && Chain(stack, etOffset, stack[entry.start.level - 1][Behind(etOffset, entry)], frags, k + 1, degree - |frags[k].values|)
  }

  ghost predicate Values(f: File, etOffset: nat, index: nat, values: seq<nat>) {
    forall i :: 0 <= i < |values| ==> Has(f, etOffset + (index + i) * EDGE_SIZE, Edge(values[i]))
  }

  /** Where the continuation record of a fragment is. */
  function Behind(etOffset: nat, entry: Record): nat
    requires entry.Vertex? && entry.start.EdgeAt?
  {
    etOffset + (entry.start.index + entry.levelLength) * EDGE_SIZE
  }

  // ---------------------------------------------------------------- what the walk returns

  /** The fragments from number k on, until "degree" values have been read. */
  ghost function Walked(frags: seq<Fragment>, k: nat, degree: int): seq<nat>
    requires k <= |frags|
    decreases |frags| - k
  {
    if k == |frags| then []
    else frags[k].values + if degree - |frags[k].values| > 0 then Walked(frags, k + 1, degree - |frags[k].values|) else []
  }

  /** All of them, newest first. */
  ghost function Whole(frags: seq<Fragment>, k: nat): seq<nat>
    requires k <= |frags|
    decreases |frags| - k
  {
    if k == |frags| then [] else frags[k].values + Whole(frags, k + 1)
  }

  /** With a degree that counts every fragment, the walk returns everything. */
  lemma {:induction false} WalkReturnsAll(frags: seq<Fragment>, k: nat, degree: int)
    requires k <= |frags| && degree >= |Whole(frags, k)|
    ensures Walked(frags, k, degree) == Whole(frags, k)
    decreases |frags| - k
  {
    if k < |frags| {
      var rest := degree - |frags[k].values|;
      WalkReturnsAll(frags, k + 1, rest);
      if rest <= 0 {
        assert Whole(frags, k + 1) == [];
      }
    }
  }

  /** Exactly when the walk returns everything: the degree must not run out before the last fragment
      is reached. Deletions lower a degree without removing values, and so can make it fail. */
  lemma {:induction false} WalkReturnsAllIff(frags: seq<Fragment>, k: nat, degree: int)
    requires k < |frags| && frags[|frags| - 1].values != []
    ensures Walked(frags, k, degree) == Whole(frags, k)
            <==> k == |frags| - 1 || degree > |Whole(frags, k)| - |frags[|frags| - 1].values|
    decreases |frags| - k
  {
    var n := |frags| - 1;
    var rest := degree - |frags[k].values|;
    if k < n {
      LastInside(frags, k + 1);
      if rest > 0 {
        WalkReturnsAllIff(frags, k + 1, rest);
        SamePrefix(frags[k].values, Walked(frags, k + 1, rest), Whole(frags, k + 1));
        if k + 1 == n {
          assert Whole(frags, n) == frags[n].values + Whole(frags, n + 1);
        }
      } else {
        assert |Walked(frags, k, degree)| < |Whole(frags, k)|;
      }
    } else {
      assert Whole(frags, k + 1) == [] && (rest > 0 ==> Walked(frags, k + 1, rest) == []);
    }
  }

  /** It does fail: where a deletion has lowered the degree of three edges in two fragments to 2, the walk
      never gets to the second fragment. */
  lemma WalkLosesEdges()
    ensures var frags := [Fragment(2, [7, 8]), Fragment(1, [5])];
            Whole(frags, 0) == [7, 8, 5] && Walked(frags, 0, 2) == [7, 8]
  {
    var frags := [Fragment(2, [7, 8]), Fragment(1, [5])];
    assert Whole(frags, 2) == [] && Whole(frags, 1) == [5];
  }

  lemma SamePrefix(p: seq<nat>, a: seq<nat>, b: seq<nat>)
    ensures p + a == p + b <==> a == b
  {
    if p + a == p + b {
      assert |a| == |b|;
      forall i | 0 <= i < |a| ensures a[i] == b[i] {
        assert a[i] == (p + a)[|p| + i] && b[i] == (p + b)[|p| + i];
      }
    }
  }

  lemma {:induction false} LastInside(frags: seq<Fragment>, k: nat)
    requires k < |frags|
    ensures |Whole(frags, k)| >= |frags[|frags| - 1].values|
    decreases |frags| - k
  {
    if k < |frags| - 1 {
      LastInside(frags, k + 1);
    } else {
      assert Whole(frags, k + 1) == [];
    }
  }

  // ---------------------------------------------------------------- the walk

  ghost predicate IsLevelFile(f: File) {
    0 in f && f[0].Meta? && f[0].headerOffset in f && f[f[0].headerOffset].Header?
  }

  function TableOffset(f: File): nat
    requires IsLevelFile(f)
  {
    f[f[0].headerOffset].etOffset
  }

  /** The latest file has an indirection table, and the entry of the vertex's page in it is either one of
      level 0 or names a page of entries in some level; these are the fragments the vertex's entry starts. */
  ghost predicate InPages(stack: Stack, vertex: nat, chunks: seq<Record>, entries: seq<Record>, frags: seq<Fragment>, degree: int)
    requires stack != []
  {
    var f := stack[|stack| - 1];
    && IsLevelFile(f)
    && Table(f, f[0].vtOffset, CHUNK_SIZE, chunks)
    && vertex / ENTRIES_PER_PAGE < |chunks| && chunks[vertex / ENTRIES_PER_PAGE].Chunk?
    && var chunk := chunks[vertex / ENTRIES_PER_PAGE];
       if chunk.level == 0 then frags == []
       else
         && chunk.level <= |stack| && Table(stack[chunk.level - 1], chunk.offset, VERTEX_SIZE, entries)
         && vertex % ENTRIES_PER_PAGE < |entries| && entries[vertex % ENTRIES_PER_PAGE].Vertex?
         && var entry := entries[vertex % ENTRIES_PER_PAGE];
            entry.degree == degree && Chain(stack, TableOffset(f), entry, frags, 0, degree)
  }

  ghost predicate Holds(stack: Stack, vertex: nat, frags: seq<Fragment>, degree: int) {
    if stack == [] then frags == []
    else exists chunks, entries :: InPages(stack, vertex, chunks, entries, frags, degree)
  }

  /** get_neighbours_of_vertex */
  method NeighboursOfVertex(stack: Stack, vertex: nat, ghost frags: seq<Fragment>, ghost degree: int) returns (neighbours: seq<nat>)
    requires Holds(stack, vertex, frags, degree)
    ensures neighbours == Walked(frags, 0, degree)
  {
    neighbours := [];
    if |stack| == 0 {
      return;
    }
    ghost var chunks, entries :| InPages(stack, vertex, chunks, entries, frags, degree);
    neighbours := NeighboursInPage(stack, vertex, chunks, entries, frags, degree);
  }

  /** The same when there are snapshots, over any indirection table and page of entries: the page number picks
      the indirection entry, and the rest of the vertex's number the entry of the page. */
  method NeighboursInPage(stack: Stack, vertex: nat, ghost chunks: seq<Record>, ghost entries: seq<Record>, ghost frags: seq<Fragment>, ghost degree: int)
    returns (neighbours: seq<nat>)
    requires stack != [] && IsLevelFile(stack[|stack| - 1])
    requires Table(stack[|stack| - 1], stack[|stack| - 1][0].vtOffset, 16, chunks) && vertex / 128 < |chunks| && chunks[vertex / 128].Chunk?
    requires chunks[vertex / 128].level == 0 ==> frags == []
    requires chunks[vertex / 128].level > 0 ==>
               && chunks[vertex / 128].level <= |stack|
               && Table(stack[chunks[vertex / 128].level - 1], chunks[vertex / 128].offset, 16, entries)
               && vertex % 128 < |entries| && entries[vertex % 128].Vertex? && entries[vertex % 128].degree == degree
               && Chain(stack, TableOffset(stack[|stack| - 1]), entries[vertex % 128], frags, 0, degree)
    ensures neighbours == Walked(frags, 0, degree)
  {
    hide Chain, Walked;
    neighbours := [];
    var latest := stack[|stack| - 1];
    var meta := latest[0];
    var header := latest[meta.headerOffset];
    assert Has(latest, meta.vtOffset + vertex / ENTRIES_PER_PAGE * CHUNK_SIZE, chunks[vertex / ENTRIES_PER_PAGE]);
    var indirectionEntry := latest[meta.vtOffset + vertex / ENTRIES_PER_PAGE * CHUNK_SIZE];
    if indirectionEntry.level == 0 {
      NothingWalked(degree);
      return;
    }
    var page := stack[indirectionEntry.level - 1];
    assert Has(page, indirectionEntry.offset + vertex % ENTRIES_PER_PAGE * VERTEX_SIZE, entries[vertex % ENTRIES_PER_PAGE]);
    var entry := page[indirectionEntry.offset + vertex % ENTRIES_PER_PAGE * VERTEX_SIZE];
    neighbours := WalkChain(stack, header.etOffset, entry, frags, degree);
  }

  lemma NothingWalked(degree: int)
    ensures Walked([], 0, degree) == []
  {
  }

  /** The loop of get_neighbours_of_vertex. */
  method WalkChain(stack: Stack, etOffset: nat, first: Record, ghost frags: seq<Fragment>, ghost degree: int) returns (neighbours: seq<nat>)
    requires first.Vertex? && first.degree == degree && Chain(stack, etOffset, first, frags, 0, degree)
    ensures neighbours == Walked(frags, 0, degree)
  {
    hide Chain, Walked, Values;
    neighbours := [];
    var entry, vertexDegree := first, first.degree;
    ghost var k := 0;
    while true
      invariant k <= |frags| && entry.Vertex? && Chain(stack, etOffset, entry, frags, k, vertexDegree)
      invariant neighbours + Walked(frags, k, vertexDegree) == Walked(frags, 0, degree)
      decreases |frags| - k
    {
      ChainStep(stack, etOffset, entry, frags, k, vertexDegree);
      if entry.start.EdgeAt? && entry.start.level == 0 {
        break;
      }
      // a nil entry has the highest level number, no values, and no degree left
      if entry.start.NilEdge? {
        break;
      }
      var edgeLevel := entry.start.level;
      var values := ReadValues(stack[edgeLevel - 1], etOffset, entry, frags[k].values);
      ghost var before := neighbours;
      neighbours := neighbours + values;
      vertexDegree := vertexDegree - entry.levelLength;
      Unfold(frags, k, vertexDegree + entry.levelLength, before, neighbours);
      k := k + 1;
      if vertexDegree > 0 {
        entry := stack[edgeLevel - 1][etOffset + (entry.start.index + entry.levelLength) * EDGE_SIZE];
      } else {
        return;
      }
    }
  }

  lemma ChainStep(stack: Stack, etOffset: nat, entry: Record, frags: seq<Fragment>, k: nat, degree: int)
    requires k <= |frags| && entry.Vertex? && Chain(stack, etOffset, entry, frags, k, degree)
    ensures k == |frags| <==> entry.start.NilEdge? || entry.start.level == 0
    ensures k == |frags| ==> Walked(frags, k, degree) == []
    ensures k < |frags| ==>
              && 1 <= entry.start.level <= |stack| && entry.levelLength == |frags[k].values|
              && Values(stack[entry.start.level - 1], etOffset, entry.start.index, frags[k].values)
              && Behind(etOffset, entry) in stack[entry.start.level - 1]
              && var next := stack[entry.start.level - 1][Behind(etOffset, entry)];
                 next.Vertex? && Chain(stack, etOffset, next, frags, k + 1, degree - entry.levelLength)
  {
  }

  lemma Unfold(frags: seq<Fragment>, k: nat, degree: int, before: seq<nat>, after: seq<nat>)
    requires k < |frags| && after == before + frags[k].values
    ensures var rest := degree - |frags[k].values|;
            before + Walked(frags, k, degree) == if rest > 0 then after + Walked(frags, k + 1, rest) else after
  {
    var rest := degree - |frags[k].values|;
    if rest > 0 {
      assert before + (frags[k].values + Walked(frags, k + 1, rest)) == after + Walked(frags, k + 1, rest);
    } else {
      assert frags[k].values + [] == frags[k].values;
    }
  }

  method ReadValues(f: File, etOffset: nat, entry: Record, ghost expected: seq<nat>) returns (values: seq<nat>)
    requires entry.Vertex? && entry.start.EdgeAt? && entry.levelLength == |expected| && Values(f, etOffset, entry.start.index, expected)
    ensures values == expected
  {
    values := [];
    for i := 0 to entry.levelLength
      invariant values == expected[..i]
    {
      assert Has(f, etOffset + (entry.start.index + i) * EDGE_SIZE, Edge(expected[i]));
      var neighbour := f[etOffset + (entry.start.index + i) * EDGE_SIZE];
      values := values + [neighbour.value];
    }
  }

  // ---------------------------------------------------------------- an example

  /** Level 1: the edge 5, and behind it an entry without edges. */
  function OlderFile(): File {
    map[4096 := Edge(5), 4104 := Vertex(NilEdge, 0, 0)]
  }

  /** Level 2: the lists [7, 8], continued in level 1, and [9]; a page with the entries of vertices 0 and 1;
      and the header and the indirection table, which has that page only. */
  function LatestFile(): File {
    map[
      0 := Meta(2, 1, 12320, 12288),
      4096 := Edge(7), 4104 := Edge(8), 4112 := Vertex(EdgeAt(1, 0), 1, 1),
      4128 := Edge(9), 4136 := Vertex(NilEdge, 0, 0),
      8192 := Vertex(EdgeAt(2, 0), 2, 3), 8208 := Vertex(EdgeAt(2, 4), 1, 1),
      12288 := Header(5, 48, 4096), 12320 := Chunk(2, 2048, 8192)]
  }

  lemma FirstChain()
    ensures Chain([OlderFile(), LatestFile()], 4096, Vertex(EdgeAt(2, 0), 2, 3), [Fragment(2, [7, 8]), Fragment(1, [5])], 0, 3)
  {
    hide OlderFile;
    OlderChain();
  }

  lemma OlderChain()
    ensures Chain([OlderFile(), LatestFile()], 4096, Vertex(EdgeAt(1, 0), 1, 1), [Fragment(2, [7, 8]), Fragment(1, [5])], 1, 1)
  {
    hide LatestFile;
    assert Chain([OlderFile(), LatestFile()], 4096, Vertex(NilEdge, 0, 0), [Fragment(2, [7, 8]), Fragment(1, [5])], 2, 0);
  }

  lemma SecondChain()
    ensures Chain([OlderFile(), LatestFile()], 4096, Vertex(EdgeAt(2, 4), 1, 1), [Fragment(2, [9])], 0, 1)
  {
    assert Chain([OlderFile(), LatestFile()], 4096, Vertex(NilEdge, 0, 0), [Fragment(2, [9])], 1, 0);
  }

  lemma LatestTables()
    ensures var f := LatestFile();
            && 0 in f && f[0] == Meta(2, 1, 12320, 12288) && 12288 in f && f[12288] == Header(5, 48, 4096)
            && Table(f, 12320, CHUNK_SIZE, [Chunk(2, 2048, 8192)])
            && Table(f, 8192, VERTEX_SIZE, [Vertex(EdgeAt(2, 0), 2, 3), Vertex(EdgeAt(2, 4), 1, 1)])
  {
  }

  lemma ExampleOk()
    ensures var stack, chunks := [OlderFile(), LatestFile()], [Chunk(2, 2048, 8192)];
            var entries := [Vertex(EdgeAt(2, 0), 2, 3), Vertex(EdgeAt(2, 4), 1, 1)];
            && InPages(stack, 0, chunks, entries, [Fragment(2, [7, 8]), Fragment(1, [5])], 3)
            && InPages(stack, 1, chunks, entries, [Fragment(2, [9])], 1)
  {
    hide OlderFile, LatestFile, Chain, Table;
    LatestTables();
    FirstChain();
    SecondChain();
  }

  /** Two vertices of one page: the first has a list in two levels, the second has one of its own. */
  method TwoOfAPage() returns (first: seq<nat>, second: seq<nat>)
    ensures first == [7, 8, 5] && second == [9]
  {
    hide InPages, Chain, OlderFile, LatestFile;
    var stack := [OlderFile(), LatestFile()];
    ExampleOk();
    assert Holds(stack, 0, [Fragment(2, [7, 8]), Fragment(1, [5])], 3) && Holds(stack, 1, [Fragment(2, [9])], 1);
    first := NeighboursOfVertex(stack, 0, [Fragment(2, [7, 8]), Fragment(1, [5])], 3);
    second := NeighboursOfVertex(stack, 1, [Fragment(2, [9])], 1);
    ExampleWalks();
  }

  lemma ExampleWalks()
    ensures Walked([Fragment(2, [7, 8]), Fragment(1, [5])], 0, 3) == [7, 8, 5] && Walked([Fragment(2, [9])], 0, 1) == [9]
  {
    assert Walked([Fragment(2, [7, 8]), Fragment(1, [5])], 1, 1) == [5];
  }
}
