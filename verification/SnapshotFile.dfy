/** The file of a snapshot level (dllama/snapshot_merger.cpp, dllama/snapshot_manager.cpp): metadata,
    edge table, vertex table in pages, header and indirection table. A file is its records by
    offset; a write destroys whatever records it overlaps. */
module SnapshotFile {

  const ENTRIES_PER_PAGE: nat := 128

  /** adj_list_start, as LL_EDGE_LEVEL and LL_EDGE_INDEX read it. */
  datatype EdgeRef = NilEdge | EdgeAt(level: nat, index: nat)

  datatype Record =
    | Meta(vtSize: nat, vtPartitions: nat, vtOffset: nat, headerOffset: nat)
    | Header(etSize: nat, etLength: nat, etOffset: nat)
    | Chunk(level: nat, length: nat, offset: nat)
    | Vertex(start: EdgeRef, levelLength: nat, degree: int)
    | Edge(value: nat)

  const META_SIZE: nat := 48
  const HEADER_SIZE: nat := 32
  const CHUNK_SIZE: nat := 16
  const VERTEX_SIZE: nat := 16
  const EDGE_SIZE: nat := 8

  function SizeOf(r: Record): nat {
    match r
    case Meta(_, _, _, _) => META_SIZE
    case Header(_, _, _) => HEADER_SIZE
    case Chunk(_, _, _) => CHUNK_SIZE
    case Vertex(_, _, _) => VERTEX_SIZE
    case Edge(_) => EDGE_SIZE
  }

  type File = map<nat, Record>

  predicate Overlap(p: nat, r: Record, q: nat, s: Record) {
    p < q + SizeOf(s) && q < p + SizeOf(r)
  }

  /** No two records of the file overlap. */
  ghost predicate Disjoint(f: File) {
    forall p, q :: p in f && q in f && p != q ==> !Overlap(p, f[p], q, f[q])
  }

  /** Every record lies between two offsets. */
  ghost predicate Within(f: File, lo: nat, hi: nat) {
    forall p :: p in f ==> lo <= p && p + SizeOf(f[p]) <= hi
  }

  /** What a write leaves of a file: the new record, and what does not overlap it. */
  ghost predicate Overwritten(f: File, p: nat, r: Record, g: File) {
    && Has(g, p, r)
    && (forall q :: q in f && !Overlap(p, r, q, f[q]) ==> Has(g, q, f[q]))
    && (forall q :: q in g && q != p ==> q in f && f[q] == g[q] && !Overlap(p, r, q, f[q]))
  }

  /** A write behind all records, or in front of them, loses nothing. */
  lemma WriteBehind(f: File, lo: nat, p: nat, r: Record, g: File)
    requires Disjoint(f) && Within(f, lo, p) && lo <= p && Overwritten(f, p, r, g)
    ensures g == f[p := r] && Disjoint(g) && Within(g, lo, p + SizeOf(r)) && p !in f
  {
    forall q | q in f ensures Has(g, q, f[q]) && q != p { }
  }

  lemma WriteInFront(f: File, lo: nat, hi: nat, r: Record, g: File)
    requires Disjoint(f) && Within(f, lo, hi) && SizeOf(r) <= lo <= hi && Overwritten(f, 0, r, g)
    ensures g == f[0 := r] && Disjoint(g) && Within(g, 0, hi) && 0 !in f
  {
    forall q | q in f ensures Has(g, q, f[q]) && q != 0 { }
  }

  /** Records of one size, end to end. */
  ghost predicate Table(f: File, at: nat, size: nat, rs: seq<Record>) {
    forall i :: 0 <= i < |rs| ==> Has(f, at + i * size, rs[i])
  }

  predicate Has(f: File, p: nat, r: Record) {
    p in f && f[p] == r
  }

  lemma TableKept(f: File, g: File, at: nat, size: nat, rs: seq<Record>)
    requires Table(f, at, size, rs) && forall p :: p in f ==> p in g && g[p] == f[p]
    ensures Table(g, at, size, rs)
  {
    forall i | 0 <= i < |rs| ensures Has(g, at + i * size, rs[i]) {
      assert Has(f, at + i * size, rs[i]);
    }
  }

  // ---------------------------------------------------------------- an output file

  function RoundUp(position: nat, blockSize: nat): nat
    requires blockSize > 0
  {
    if position % blockSize != 0 then (position / blockSize + 1) * blockSize else position
  }

  lemma RoundsUp(position: nat, blockSize: nat)
    requires blockSize > 0
    ensures position <= RoundUp(position, blockSize) < position + blockSize && RoundUp(position, blockSize) % blockSize == 0
  {
    MultipleOf(position / blockSize, blockSize);
    MultipleOf(position / blockSize + 1, blockSize);
    assert position == position / blockSize * blockSize + position % blockSize;
    assert (position / blockSize + 1) * blockSize == position / blockSize * blockSize + blockSize;
  }

  lemma MulLeft(a: nat, b: nat, c: nat)
    requires a <= b
    ensures a * c <= b * c
  {
  }

  lemma MultipleOf(k: nat, blockSize: nat)
    requires blockSize > 0
    ensures k * blockSize % blockSize == 0
  {
    var q := k * blockSize / blockSize;
    assert k * blockSize == q * blockSize + k * blockSize % blockSize;
    if k < q {
      MulLeft(k + 1, q, blockSize);
    } else if q < k {
      MulLeft(q + 1, k, blockSize);
    }
  }

  class OutputFile {
    var records: File
    var position: nat

    constructor ()
      ensures records == map[] && position == 0
    {
      records, position := map[], 0;
    }

    method Write(r: Record)
      modifies this
      ensures Overwritten(old(records), old(position), r, records) && position == old(position) + SizeOf(r)
      ensures old(Disjoint(records)) ==> Disjoint(records)
    {
      records := (map q | q in records && !Overlap(position, r, q, records[q]) :: records[q])[position := r];
      position := position + SizeOf(r);
    }

    /** Where everything written so far lies. */
    ghost predicate Written(lo: nat)
      reads this
    {
      lo <= position && Disjoint(records) && Within(records, lo, position)
    }

    /** Nothing that was there has been lost. */
    twostate predicate Kept()
      reads this
    {
      forall p :: p in old(records) ==> p in records && records[p] == old(records)[p]
    }

    method WriteTable(rs: seq<Record>, size: nat, ghost lo: nat)
      requires Written(lo) && forall i :: 0 <= i < |rs| ==> SizeOf(rs[i]) == size
      modifies this
      ensures Written(lo) && Kept() && Table(records, old(position), size, rs)
      ensures position == old(position) + |rs| * size
    {
      hide Disjoint, Within, Overwritten;
      ghost var at := position;
      for i := 0 to |rs|
        invariant Written(lo) && Kept() && Table(records, at, size, rs[..i])
        invariant position == at + i * size
      {
        ghost var before, end := records, position;
        Write(rs[i]);
        WriteBehind(before, lo, end, rs[i], records);
        TableKept(before, records, at, size, rs[..i]);
        TableMore(records, at, size, rs, i);
      }
      assert rs[..|rs|] == rs;
    }

    /** seekp to the next block. */
    method SeekBlock(blockSize: nat, ghost lo: nat)
      requires Written(lo) && blockSize > 0
      modifies `position
      ensures Written(lo) && position == RoundUp(old(position), blockSize)
    {
      RoundsUp(position, blockSize);
      if position % blockSize != 0 {
        position := (position / blockSize + 1) * blockSize;
      }
    }
  }

  lemma TableMore(f: File, at: nat, size: nat, rs: seq<Record>, i: nat)
    requires i < |rs| && Table(f, at, size, rs[..i]) && Has(f, at + i * size, rs[i])
    ensures Table(f, at, size, rs[..i + 1])
  {
    forall k | 0 <= k < i + 1 ensures Has(f, at + k * size, rs[..i + 1][k]) {
      if k < i {
        assert rs[..i][k] == rs[k];
      }
    }
  }

  // ---------------------------------------------------------------- the layout

  function EdgeRecords(edges: seq<nat>): seq<Record> {
    seq(|edges|, i requires 0 <= i < |edges| => Edge(edges[i]))
  }

  function Partitions(vtSize: nat): nat {
    (vtSize + ENTRIES_PER_PAGE - 1) / ENTRIES_PER_PAGE
  }

  const PAGE_BYTES: nat := ENTRIES_PER_PAGE * VERTEX_SIZE

  function Chunks(n: nat, at: nat): seq<Record> {
    seq(n, i requires 0 <= i < n => Chunk(0, PAGE_BYTES, at + i * PAGE_BYTES))
  }

  /** Where write_merged_snapshot puts things. */
  datatype Layout = Layout(vertices: nat, header: nat)

  function LayoutOf(blockSize: nat, edges: nat, vertices: nat): Layout
    requires blockSize > 0
  {
    var v := RoundUp(blockSize + edges * EDGE_SIZE, blockSize);
    Layout(v, RoundUp(v + vertices * VERTEX_SIZE, blockSize))
  }

  /** The file holds this edge table and this vertex table, and none of its records overlap. */
  ghost predicate Stores(f: File, blockSize: nat, edges: seq<nat>, vertices: seq<Record>)
    requires blockSize > 0
  {
    var l := LayoutOf(blockSize, |edges|, |vertices|);
    && Disjoint(f)
    && Has(f, 0, Meta(|vertices|, Partitions(|vertices|), l.header + HEADER_SIZE, l.header))
    && Has(f, l.header, Header(|edges|, |edges| * EDGE_SIZE, blockSize))
    && Table(f, blockSize, EDGE_SIZE, EdgeRecords(edges))
    && Table(f, l.vertices, VERTEX_SIZE, vertices)
    && Table(f, l.header + HEADER_SIZE, CHUNK_SIZE, Chunks(Partitions(|vertices|), l.vertices))
  }

  /** write_merged_snapshot, up to the vertex chunks. */
  method WriteTables(file: OutputFile, blockSize: nat, edgeTable: seq<nat>, vertexTable: seq<Record>) returns (vertexChunksPosition: nat)
    requires file.records == map[] && file.position == blockSize > 0
    requires forall i :: 0 <= i < |vertexTable| ==> vertexTable[i].Vertex?
    modifies file
    ensures file.Written(blockSize)
    ensures Table(file.records, blockSize, EDGE_SIZE, EdgeRecords(edgeTable))
    ensures Table(file.records, vertexChunksPosition, VERTEX_SIZE, vertexTable)
    ensures vertexChunksPosition == RoundUp(blockSize + |edgeTable| * EDGE_SIZE, blockSize)
    ensures file.position == vertexChunksPosition + |vertexTable| * VERTEX_SIZE
  {
    hide Disjoint, Within, Table, RoundUp;
    EmptyFile(blockSize);
    file.WriteTable(EdgeRecords(edgeTable), EDGE_SIZE, blockSize);
    ghost var before := file.records;
    file.SeekBlock(blockSize, blockSize);
    vertexChunksPosition := file.position;
    file.WriteTable(vertexTable, VERTEX_SIZE, blockSize);
    TableKept(before, file.records, blockSize, EDGE_SIZE, EdgeRecords(edgeTable));
  }

  /** The header, and the indirection table right behind it. */
  method WriteHeader(file: OutputFile, blockSize: nat, header: Record, partitions: nat, vertexChunksPosition: nat) returns (vtOffset: nat)
    requires file.Written(blockSize) && header.Header?
    modifies file
    ensures file.Written(blockSize) && forall p :: p in old(file.records) ==> p in file.records && file.records[p] == old(file.records)[p]
    ensures vtOffset == old(file.position) + HEADER_SIZE && Has(file.records, old(file.position), header)
    ensures Table(file.records, vtOffset, CHUNK_SIZE, Chunks(partitions, vertexChunksPosition))
  {
    hide Disjoint, Within, Table, Overwritten;
    file.Write(header);
    WriteBehind(old(file.records), blockSize, old(file.position), header, file.records);
    vtOffset := file.position;
    file.WriteTable(Chunks(partitions, vertexChunksPosition), CHUNK_SIZE, blockSize);
  }

  /** write_merged_snapshot */
  method WriteMergedSnapshot(blockSize: nat, edgeTable: seq<nat>, vertexTable: seq<Record>) returns (f: File)
    requires blockSize >= META_SIZE && forall i :: 0 <= i < |vertexTable| ==> vertexTable[i].Vertex?
    ensures Stores(f, blockSize, edgeTable, vertexTable)
  {
    hide Disjoint, Within, Table, RoundUp, Overwritten;
    var file := new OutputFile();
    file.position := blockSize;
    var vertexChunksPosition := WriteTables(file, blockSize, edgeTable, vertexTable);
    ghost var tables := file.records;
    file.SeekBlock(blockSize, blockSize);
    var headerOffset := file.position;
    var header := Header(|edgeTable|, |edgeTable| * EDGE_SIZE, blockSize);
    var partitions := Partitions(|vertexTable|);
    var vtOffset := WriteHeader(file, blockSize, header, partitions, vertexChunksPosition);
    ghost var index := file.records;
    var meta := Meta(|vertexTable|, partitions, vtOffset, headerOffset);
    ghost var end := file.position;
    file.position := 0;
    file.Write(meta);
    WriteInFront(index, blockSize, end, meta, file.records);
    f := file.records;
    TableKept(tables, f, blockSize, EDGE_SIZE, EdgeRecords(edgeTable));
    TableKept(tables, f, vertexChunksPosition, VERTEX_SIZE, vertexTable);
    TableKept(index, f, vtOffset, CHUNK_SIZE, Chunks(partitions, vertexChunksPosition));
  }

  /** The same in numbers: blocks begin at multiples of the block size, a vertex table entry and an
      entry of the indirection table take 16 bytes, an edge 8 and the header 32, and 128 entries make a page. */
  lemma FileInNumbers(f: File, blockSize: nat, edges: seq<nat>, vertices: seq<Record>) returns (n: nat, first: nat, header: nat)
    requires blockSize > 0 && Stores(f, blockSize, edges, vertices)
    ensures |vertices| <= 128 * n < |vertices| + 128
    ensures first % blockSize == 0 && blockSize + 8 * |edges| <= first < blockSize + 8 * |edges| + blockSize
    ensures header % blockSize == 0 && first + 16 * |vertices| <= header < first + 16 * |vertices| + blockSize
    ensures 0 in f && f[0] == Meta(|vertices|, n, header + 32, header)
    ensures header in f && f[header] == Header(|edges|, 8 * |edges|, blockSize)
    ensures forall e :: 0 <= e < |edges| ==> blockSize + 8 * e in f && f[blockSize + 8 * e] == Edge(edges[e])
    ensures forall v :: 0 <= v < |vertices| ==> first + 16 * v in f && f[first + 16 * v] == vertices[v]
    ensures forall p :: 0 <= p < n ==> header + 32 + 16 * p in f && f[header + 32 + 16 * p] == Chunk(0, 2048, first + 2048 * p)
  {
    hide Disjoint, RoundUp;
    var l := LayoutOf(blockSize, |edges|, |vertices|);
    n, first, header := Partitions(|vertices|), l.vertices, l.header;
    RoundsUp(blockSize + |edges| * EDGE_SIZE, blockSize);
    RoundsUp(l.vertices + |vertices| * VERTEX_SIZE, blockSize);
    forall e | 0 <= e < |edges| ensures blockSize + 8 * e in f && f[blockSize + 8 * e] == Edge(edges[e]) {
      assert Has(f, blockSize + e * EDGE_SIZE, EdgeRecords(edges)[e]);
    }
    forall v | 0 <= v < |vertices| ensures first + 16 * v in f && f[first + 16 * v] == vertices[v] {
      assert Has(f, l.vertices + v * VERTEX_SIZE, vertices[v]);
    }
    forall p | 0 <= p < n ensures header + 32 + 16 * p in f && f[header + 32 + 16 * p] == Chunk(0, 2048, first + 2048 * p) {
      assert Has(f, l.header + HEADER_SIZE + p * CHUNK_SIZE, Chunks(n, l.vertices)[p]);
    }
  }

  lemma EmptyFile(at: nat)
    ensures Disjoint(map[]) && Within(map[], at, at)
  {
  }

  lemma RoundUpMultiple(position: nat, blockSize: nat, unit: nat, c: nat)
    requires unit > 0 && blockSize == c * unit > 0
    ensures exists k: nat :: RoundUp(position, blockSize) == k * unit
  {
    var q := if position % blockSize != 0 then position / blockSize + 1 else position / blockSize;
    assert RoundUp(position, blockSize) == q * blockSize by {
      assert position == position / blockSize * blockSize + position % blockSize;
    }
    assert q * (c * unit) == q * c * unit;
  }

  /** A page of the indirection table is as long as a full page even if it is the last one: does it end
      before the header all the same? */
  predicate PagesFit(blockSize: nat, edges: nat, vertices: nat)
    requires blockSize > 0
  {
    var l := LayoutOf(blockSize, edges, vertices);
    l.vertices + Partitions(vertices) * PAGE_BYTES <= l.header
  }

  /** It does for all tables exactly if the block size is a multiple of the page length. */
  lemma PagesBeforeHeader(blockSize: nat)
    requires blockSize > 0
    ensures (forall edges: nat, vertices: nat :: PagesFit(blockSize, edges, vertices)) <==> blockSize % PAGE_BYTES == 0
  {
    hide PagesFit;
    if blockSize % PAGE_BYTES == 0 {
      assert blockSize == blockSize / PAGE_BYTES * PAGE_BYTES;
      forall edges: nat, vertices: nat ensures PagesFit(blockSize, edges, vertices) {
        PagesOfWholeBlocks(blockSize, blockSize / PAGE_BYTES, edges, vertices);
      }
    } else {
      PageBeyondHeader(blockSize);
      assert !PagesFit(blockSize, 0, OverrunningSize(blockSize));
    }
  }

  lemma PagesOfWholeBlocks(blockSize: nat, c: nat, edges: nat, vertices: nat)
    requires blockSize == c * PAGE_BYTES > 0
    ensures PagesFit(blockSize, edges, vertices)
  {
    hide RoundUp;
    var l := LayoutOf(blockSize, edges, vertices);
    RoundUpMultiple(blockSize + edges * EDGE_SIZE, blockSize, PAGE_BYTES, c);
    RoundUpMultiple(l.vertices + vertices * VERTEX_SIZE, blockSize, PAGE_BYTES, c);
    RoundsUp(l.vertices + vertices * VERTEX_SIZE, blockSize);
    var j: nat :| l.vertices == j * PAGE_BYTES;
    var k: nat :| l.header == k * PAGE_BYTES;
    WholePages(j, k, vertices);
  }

  /** How many blocks to fill so that the last page begins at least one entry before their end. */
  function BlocksToFill(blockSize: nat): nat {
    if blockSize % PAGE_BYTES >= VERTEX_SIZE then 1 else VERTEX_SIZE
  }

  /** A vertex table whose last page holds one entry, and ends behind those blocks. */
  function OverrunningSize(blockSize: nat): nat {
    BlocksToFill(blockSize) * blockSize / PAGE_BYTES * ENTRIES_PER_PAGE + 1
  }

  lemma PageBeyondHeader(blockSize: nat)
    requires blockSize % PAGE_BYTES != 0
    ensures !PagesFit(blockSize, 0, OverrunningSize(blockSize))
  {
    hide BlocksToFill, RoundUp;
    var k, vertices := BlocksToFill(blockSize), OverrunningSize(blockSize);
    var full := k * blockSize / PAGE_BYTES;
    LastPageBegins(blockSize);
    assert Partitions(vertices) == full + 1;
    assert blockSize + vertices * VERTEX_SIZE <= (k + 1) * blockSize by {
      assert (k + 1) * blockSize == k * blockSize + blockSize;
    }
    RoundUpLeast(blockSize, blockSize, 1);
    RoundsUp(blockSize, blockSize);
    RoundUpLeast(blockSize + vertices * VERTEX_SIZE, blockSize, k + 1);
  }

  lemma LastPageBegins(blockSize: nat)
    requires blockSize % PAGE_BYTES != 0
    ensures var end := BlocksToFill(blockSize) * blockSize;
            end / PAGE_BYTES * PAGE_BYTES + VERTEX_SIZE <= end < (end / PAGE_BYTES + 1) * PAGE_BYTES
  {
    var q, r := blockSize / PAGE_BYTES, blockSize % PAGE_BYTES;
    assert blockSize == q * PAGE_BYTES + r;
    if r >= VERTEX_SIZE {
    } else {
      assert VERTEX_SIZE * blockSize == (VERTEX_SIZE * q) * PAGE_BYTES + VERTEX_SIZE * r;
      assert VERTEX_SIZE * blockSize / PAGE_BYTES == VERTEX_SIZE * q;
    }
  }

  lemma RoundUpLeast(position: nat, blockSize: nat, k: nat)
    requires blockSize > 0 && position <= k * blockSize
    ensures RoundUp(position, blockSize) <= k * blockSize
  {
    var q := position / blockSize;
    assert position == q * blockSize + position % blockSize;
    if position % blockSize != 0 {
      if k <= q {
        MulLeft(k, q, blockSize);
        assert false;
      }
      MulLeft(q + 1, k, blockSize);
    }
  }

  lemma WholePages(j: nat, k: nat, vertices: nat)
    requires j * PAGE_BYTES + vertices * VERTEX_SIZE <= k * PAGE_BYTES
    ensures j * PAGE_BYTES + Partitions(vertices) * PAGE_BYTES <= k * PAGE_BYTES
  {
  }

  // ---------------------------------------------------------------- the reader of level 0

  /** The neighbours that a vertex table entry points to, in an edge table. */
  ghost predicate PointsInto(edges: seq<nat>, v: Record) {
    v.Vertex? && v.start.EdgeAt? && v.start.index + v.levelLength <= |edges|
  }

  ghost function Neighbours(edges: seq<nat>, v: Record): seq<nat>
    requires PointsInto(edges, v)
  {
    edges[v.start.index..v.start.index + v.levelLength]
  }

  /** get_level_0_neighbours_of_vertex */
  method Level0Neighbours(f: File, vertex: nat, ghost blockSize: nat, ghost edges: seq<nat>, ghost vertices: seq<Record>) returns (neighbours: seq<nat>)
    requires blockSize > 0 && Stores(f, blockSize, edges, vertices)
    requires forall i :: 0 <= i < |vertices| ==> PointsInto(edges, vertices[i])
    ensures neighbours == if vertex < |vertices| then Neighbours(edges, vertices[vertex]) else []
  {
    hide Disjoint;
    var meta := f[0];
    neighbours := [];
    if vertex >= meta.vtSize {
      return;
    }
    var header := f[meta.headerOffset];
    var pageNumber := vertex / ENTRIES_PER_PAGE;
    PageOf(vertex, |vertices|);
    ghost var chunks := Chunks(Partitions(|vertices|), LayoutOf(blockSize, |edges|, |vertices|).vertices);
    assert Has(f, meta.vtOffset + pageNumber * CHUNK_SIZE, chunks[pageNumber]);
    var indirectionEntry := f[meta.vtOffset + pageNumber * CHUNK_SIZE];
    var vertexOffset := vertex % ENTRIES_PER_PAGE;
    assert indirectionEntry.offset + vertexOffset * VERTEX_SIZE == LayoutOf(blockSize, |edges|, |vertices|).vertices + vertex * VERTEX_SIZE;
    assert Has(f, LayoutOf(blockSize, |edges|, |vertices|).vertices + vertex * VERTEX_SIZE, vertices[vertex]);
    var entry := f[indirectionEntry.offset + vertexOffset * VERTEX_SIZE];
    for i := 0 to entry.levelLength
      invariant neighbours == Neighbours(edges, entry)[..i]
    {
      assert Has(f, blockSize + (entry.start.index + i) * EDGE_SIZE, EdgeRecords(edges)[entry.start.index + i]);
      var neighbour := f[header.etOffset + (entry.start.index + i) * EDGE_SIZE];
      neighbours := neighbours + [neighbour.value];
    }
  }

  lemma PageOf(vertex: nat, vtSize: nat)
    requires vertex < vtSize
    ensures vertex / ENTRIES_PER_PAGE < Partitions(vtSize)
    ensures vertex == vertex / ENTRIES_PER_PAGE * ENTRIES_PER_PAGE + vertex % ENTRIES_PER_PAGE
  {
  }
}
