/** ll_mem_array_collection over ll_mem_array_swcow: the multiversioned vertex table.

    The specification gives every level a private full copy of its predecessor, padded with zeros.
    The collection meets it although levels share pages, and even whole indirection tables. */
module LevelCollection {
  import opened PageManager
  import opened Sequences
  import opened SwcowArray

  // ---------------------------------------------------------------- specification

  datatype Level = Level(size: nat, data: seq<int>)

  /** How many levels have been deleted, and the levels that have not. */
  datatype View = View(deleted: nat, live: seq<Level>) {
    function Newest(): Level
      requires live != []
    {
      live[|live| - 1]
    }
  }

  datatype Op = NewLevel(size: nat) | Write(node: nat, value: int) | DeleteOldest

  function Capacity(size: nat): nat {
    PagesFor(size) * PAGE_LENGTH
  }

  function Padded(data: seq<int>, n: nat): seq<int> {
    data + Repeat(0, if |data| < n then n - |data| else 0)
  }

  /** What the callers of the collection keep to: sizes never decrease, the newest level is never
      deleted, and its predecessor stays alive while it is written. */
  predicate Legal(view: View, op: Op) {
    match op
    case NewLevel(size) => view.live != [] ==> view.Newest().size <= size
    case Write(node, _) =>
      && view.live != [] && node <= view.Newest().size && node < |view.Newest().data|
      && (view.deleted == 0 || 1 < |view.live|)
    case DeleteOldest => 1 < |view.live|
  }

  function Step(view: View, op: Op): View
    requires Legal(view, op)
  {
    match op
    case NewLevel(size) =>
      var data := if view.live == [] then [] else view.Newest().data;
      view.(live := view.live + [Level(size, Padded(data, Capacity(size)))])
    case Write(node, value) =>
      var newest := view.Newest();
      view.(live := view.live[|view.live| - 1 := newest.(data := newest.data[node := value])])
    case DeleteOldest =>
      View(view.deleted + 1, view.live[1..])
  }

  predicate LegalRun(view: View, ops: seq<Op>)
    decreases ops
  {
    ops == [] || (Legal(view, ops[0]) && LegalRun(Step(view, ops[0]), ops[1..]))
  }

  function SpecRun(view: View, ops: seq<Op>): View
    requires LegalRun(view, ops)
    decreases ops
  {
    if ops == [] then view else SpecRun(Step(view, ops[0]), ops[1..])
  }

  // ---------------------------------------------------------------- what a run means

  /** The sizes of the levels created. */
  function Sizes(ops: seq<Op>): seq<nat> {
    if ops == [] then []
    else
      var last := ops[|ops| - 1];
      Sizes(ops[..|ops| - 1]) + if last.NewLevel? then [last.size] else []
  }

  function Deletions(ops: seq<Op>): nat {
    if ops == [] then 0 else Deletions(ops[..|ops| - 1]) + if ops[|ops| - 1].DeleteOldest? then 1 else 0
  }

  /** The value last written to the node while there were at most n levels, or 0 if there is none. */
  function LastWrite(ops: seq<Op>, n: nat, node: nat): int {
    if ops == [] then 0
    else
      var last := ops[|ops| - 1];
      if last.Write? && last.node == node && |Sizes(ops)| <= n then last.value
      else LastWrite(ops[..|ops| - 1], n, node)
  }

  /** Level number k has the size it was created with, as many entries as whole pages for that size and four
      more have, and in each entry what was last written there before level k + 1 was created. */
  ghost predicate Means(ops: seq<Op>, view: View) {
    && view.deleted == Deletions(ops) && view.deleted + |view.live| == |Sizes(ops)|
    && (view.live == [] ==> ops == []) && Unwritten(ops, if view.live == [] then 0 else |view.Newest().data|)
    && forall k: nat {:trigger Sizes(ops)[k]} :: view.deleted <= k < |Sizes(ops)| ==> LevelMeans(ops, k, Sizes(ops)[k], view.live[k - view.deleted])
  }

  ghost predicate LevelMeans(ops: seq<Op>, k: nat, size: nat, level: Level) {
    && level.size == size && |level.data| == Capacity(size) && size + 4 <= |level.data| < size + 4 + PAGE_LENGTH
    && forall node: nat :: node < |level.data| ==> level.data[node] == LastWrite(ops, k + 1, node)
  }

  lemma {:induction false} RunLast(view: View, ops: seq<Op>)
    requires ops != [] && LegalRun(view, ops)
    ensures var front, last := ops[..|ops| - 1], ops[|ops| - 1];
            && LegalRun(view, front) && Legal(SpecRun(view, front), last)
            && SpecRun(view, ops) == Step(SpecRun(view, front), last)
    decreases ops
  {
    var front := ops[..|ops| - 1];
    if |ops| > 1 {
      var next := Step(view, ops[0]);
      assert front[1..] == ops[1..][..|ops[1..]| - 1] && front[0] == ops[0];
      assert ops[1..][|ops[1..]| - 1] == ops[|ops| - 1];
      RunLast(next, ops[1..]);
    }
  }

  /** So it is after every legal run. */
  lemma {:induction false} RunMeans(ops: seq<Op>)
    requires LegalRun(View(0, []), ops)
    ensures Means(ops, SpecRun(View(0, []), ops))
    decreases |ops|
  {
    hide Legal, Step, Means;
    if ops == [] {
      NothingMeant();
    } else {
      RunLast(View(0, []), ops);
      var front, last := ops[..|ops| - 1], ops[|ops| - 1];
      RunMeans(front);
      var view := SpecRun(View(0, []), front);
      assert ops == front + [last];
      LastMeans(front, last, view);
    }
  }

  lemma NothingMeant()
    ensures Means([], View(0, []))
  {
  }

  lemma LastMeans(front: seq<Op>, op: Op, view: View)
    requires Means(front, view) && Legal(view, op)
    ensures Means(front + [op], Step(view, op))
  {
    hide LevelMeans, Sizes, Deletions, Unwritten, Padded;
    var ops, after := front + [op], Step(view, op);
    SizesNext(front, op);
    NewestLength(front, view, op);
    StillUnwritten(front, op, if view.live == [] then 0 else |view.Newest().data|, if after.live == [] then 0 else |after.Newest().data|);
    forall k: nat | after.deleted <= k < |Sizes(ops)| ensures LevelMeans(ops, k, Sizes(ops)[k], after.live[k - after.deleted]) {
      match op {
        case NewLevel(size) =>
          if k < |Sizes(front)| {
            assert LevelMeans(front, k, Sizes(front)[k], view.live[k - view.deleted]);
            SameLevel(front, op, k, Sizes(front)[k], view.live[k - view.deleted]);
          } else {
            assert Sizes(ops)[k] == size && k - after.deleted == |view.live|;
            if view.live != [] {
              assert LevelMeans(front, k - 1, Sizes(front)[k - 1], view.live[k - 1 - view.deleted]);
              NewMeans(front, k, size, Sizes(front)[k - 1], view.Newest());
            } else {
              FirstMeans(size);
              assert ops == [NewLevel(size)];
            }
          }
        case Write(node, value) =>
          assert LevelMeans(front, k, Sizes(front)[k], view.live[k - view.deleted]);
          if k + 1 < |Sizes(front)| {
            SameLevel(front, op, k, Sizes(front)[k], view.live[k - view.deleted]);
          } else {
            WrittenMeans(front, k, Sizes(front)[k], view.live[k - view.deleted], node, value);
          }
        case DeleteOldest =>
          assert LevelMeans(front, k, Sizes(front)[k], view.live[k - view.deleted]);
          SameLevel(front, op, k, Sizes(front)[k], view.live[k - view.deleted]);
      }
    }
  }

  lemma SizesNext(front: seq<Op>, op: Op)
    ensures Sizes(front + [op]) == Sizes(front) + if op.NewLevel? then [op.size] else []
    ensures Deletions(front + [op]) == Deletions(front) + if op.DeleteOldest? then 1 else 0
  {
    assert (front + [op])[..|front|] == front;
  }

  lemma LastWriteNext(front: seq<Op>, op: Op, n: nat, node: nat)
    ensures LastWrite(front + [op], n, node)
         == if op.Write? && op.node == node && |Sizes(front)| <= n then op.value else LastWrite(front, n, node)
  {
    SizesNext(front, op);
    assert (front + [op])[..|front|] == front;
  }

  /** Not written to, or no longer the newest. */
  lemma SameLevel(front: seq<Op>, op: Op, k: nat, size: nat, level: Level)
    requires LevelMeans(front, k, size, level) && (op.Write? ==> k + 1 < |Sizes(front)|)
    ensures LevelMeans(front + [op], k, size, level)
  {
    hide LastWrite, Sizes;
    forall node: nat | node < |level.data| ensures level.data[node] == LastWrite(front + [op], k + 1, node) {
      LastWriteNext(front, op, k + 1, node);
    }
  }

  lemma WrittenMeans(front: seq<Op>, k: nat, size: nat, level: Level, node: nat, value: int)
    requires LevelMeans(front, k, size, level) && k + 1 == |Sizes(front)| && node < |level.data|
    ensures LevelMeans(front + [Write(node, value)], k, size, level.(data := level.data[node := value]))
  {
    hide LastWrite, Sizes;
    var data := level.data[node := value];
    forall n: nat | n < |data| ensures data[n] == LastWrite(front + [Write(node, value)], k + 1, n) {
      LastWriteNext(front, Write(node, value), k + 1, n);
    }
  }

  /** Before level k is created, what was last written is what was last written at all. */
  lemma {:induction false} WithAllLevels(ops: seq<Op>, n: nat, m: nat, node: nat)
    requires |Sizes(ops)| <= n && |Sizes(ops)| <= m
    ensures LastWrite(ops, n, node) == LastWrite(ops, m, node)
    decreases |ops|
  {
    if ops != [] {
      WithAllLevels(ops[..|ops| - 1], n, m, node);
    }
  }

  /** A node beyond the newest level has not been written to. */
  ghost predicate Unwritten(ops: seq<Op>, from: nat) {
    forall node: nat, n: nat :: node >= from ==> LastWrite(ops, n, node) == 0
  }

  lemma StillUnwritten(front: seq<Op>, op: Op, from: nat, from': nat)
    requires Unwritten(front, from) && from <= from' && (op.Write? ==> op.node < from')
    ensures Unwritten(front + [op], from')
  {
    hide LastWrite;
    forall node: nat, n: nat | node >= from' ensures LastWrite(front + [op], n, node) == 0 {
      LastWriteNext(front, op, n, node);
    }
  }

  lemma CapacityGrows(a: nat, b: nat)
    requires a <= b
    ensures a + 4 <= Capacity(a) < a + 4 + PAGE_LENGTH && Capacity(a) <= Capacity(b)
  {
  }

  /** The newest level never gets shorter. */
  lemma NewestLength(front: seq<Op>, view: View, op: Op)
    requires Means(front, view) && Legal(view, op)
    ensures var after := Step(view, op);
            && after.live != [] && (view.live != [] ==> |view.Newest().data| <= |after.Newest().data|)
            && (op.Write? ==> op.node < |after.Newest().data|)
  {
    hide LastWrite, Sizes, Unwritten, Capacity;
  }

  lemma FirstMeans(size: nat)
    ensures Sizes([]) == [] && LevelMeans([NewLevel(size)], 0, size, Level(size, Padded([], Capacity(size))))
  {
    CapacityGrows(size, size);
    assert [] + [NewLevel(size)] == [NewLevel(size)];
    forall node: nat ensures LastWrite([NewLevel(size)], 1, node) == 0 {
      LastWriteNext([], NewLevel(size), 1, node);
    }
  }

  /** A new level has what was last written to the one before, which is what was last written at all. */
  lemma NewMeans(front: seq<Op>, k: nat, size: nat, before: nat, newest: Level)
    requires k > 0 && k == |Sizes(front)| && LevelMeans(front, k - 1, before, newest) && newest.size <= size
    requires Unwritten(front, |newest.data|)
    ensures LevelMeans(front + [NewLevel(size)], k, size, Level(size, Padded(newest.data, Capacity(size))))
  {
    hide LastWrite, Sizes, Capacity;
    CapacityGrows(newest.size, size);
    CapacityGrows(size, size);
    var data := Padded(newest.data, Capacity(size));
    forall node: nat | node < |data| ensures data[node] == LastWrite(front + [NewLevel(size)], k + 1, node) {
      LastWriteNext(front, NewLevel(size), k + 1, node);
      WithAllLevels(front, k, k + 1, node);
    }
  }

  // ---------------------------------------------------------------- what tables over a pool read as

  ghost predicate TablesOk(sizes: seq<nat>, tables: seq<seq<nat>>) {
    && |sizes| == |tables|
    && (forall k :: 0 <= k < |tables| ==> |tables[k]| == PagesFor(sizes[k]) + 1)
    && (forall i, j :: 0 <= i < j < |sizes| ==> sizes[i] <= sizes[j])
  }

  /** Reference counts are exactly the numbers of holders, and once the zero page exists the extra
      slot of the newest level holds it. */
  ghost predicate PoolOk(tables: seq<seq<nat>>, pages: seq<Page>, refs: seq<int>, zeroPage: int) {
    && Accounts(refs, tables)
    && (forall k :: 0 <= k < |tables| ==> tables[k] != [] && InPool(tables[k], pages))
    && (zeroPage != NO_PAGE ==> tables != [] && Last(Last(tables)) == zeroPage)
  }

  ghost function ViewOf(deleted: nat, sizes: seq<nat>, tables: seq<seq<nat>>, pages: seq<Page>): View
    requires |sizes| == |tables|
    requires forall k :: 0 <= k < |tables| ==> tables[k] != [] && InPool(tables[k], pages)
  {
    View(deleted, LevelsOf(sizes, tables, pages))
  }

  ghost function LevelsOf(sizes: seq<nat>, tables: seq<seq<nat>>, pages: seq<Page>): (levels: seq<Level>)
    requires |sizes| == |tables|
    requires forall k :: 0 <= k < |tables| ==> tables[k] != [] && InPool(tables[k], pages)
    ensures |levels| == |tables|
    ensures forall k :: 0 <= k < |tables| ==> levels[k] == Level(sizes[k], Flatten(tables[k], pages))
  {
    var n := |tables| - 1;
    if tables == [] then [] else LevelsOf(sizes[..n], tables[..n], pages) + [Level(sizes[n], Flatten(tables[n], pages))]
  }

  lemma InPoolFromCounts(refs: seq<int>, tables: seq<seq<nat>>, k: nat, pages: seq<Page>)
    requires Accounts(refs, tables) && k < |tables| && |refs| == |pages|
    ensures InPool(tables[k], pages)
  {
    forall i | 0 <= i < |tables[k]| ensures tables[k][i] < |pages| {
      HeldSlot(refs, tables, k, i);
    }
  }

  /** Levels over pages that are held keep their contents while new pages are taken. */
  lemma ViewFrame(deleted: nat, sizes: seq<nat>, tables: seq<seq<nat>>, pages: seq<Page>, refs: seq<int>, pages': seq<Page>)
    requires |sizes| == |tables| && |pages| <= |pages'| && Accounts(refs, tables)
    requires forall k :: 0 <= k < |tables| ==> tables[k] != [] && InPool(tables[k], pages)
    requires forall p: nat :: p < |pages| && 0 < Count(refs, p) ==> pages'[p] == pages[p]
    ensures forall k :: 0 <= k < |tables| ==> InPool(tables[k], pages')
    ensures ViewOf(deleted, sizes, tables, pages') == ViewOf(deleted, sizes, tables, pages)
  {
    forall k | 0 <= k < |tables|
      ensures InPool(tables[k], pages') && Flatten(tables[k], pages') == Flatten(tables[k], pages)
    {
      HeldTable(refs, tables, k);
      assert forall i :: 0 <= i < |tables[k]| ==> tables[k][i] in tables[k];
      FlattenFrame(tables[k], pages, pages');
    }
  }

  /** The table cow_init gives a level: that of its predecessor, or a longer one padded with zeros. */
  ghost predicate CowTable(prev: seq<nat>, zeroPage: int, table: seq<nat>, pages: seq<Page>)
    requires prev != []
  {
    || table == prev
    || (|prev| < |table| && 0 <= zeroPage < |pages| && pages[zeroPage] == ZERO
        && table == CopiedIds(prev, |prev| - 1, zeroPage, 0, |table|))
  }

  function NewestData(view: View): seq<int> {
    if view.live == [] then [] else view.Newest().data
  }

  lemma NewLevelData(deleted: nat, sizes: seq<nat>, tables: seq<seq<nat>>, pages: seq<Page>,
                     size: nat, table: seq<nat>, pages': seq<Page>, zeroPage': int)
    requires TablesOk(sizes, tables) && |table| == PagesFor(size) + 1 && InPool(table, pages')
    requires forall k :: 0 <= k < |tables| ==> InPool(tables[k], pages) && InPool(tables[k], pages')
    requires ViewOf(deleted, sizes, tables, pages') == ViewOf(deleted, sizes, tables, pages)
    requires if tables == [] then DenseTable(table, pages') else CowTable(Last(tables), zeroPage', table, pages')
    ensures Flatten(table, pages') == Padded(NewestData(ViewOf(deleted, sizes, tables, pages)), Capacity(size))
  {
    if tables == [] {
      assert Flatten(table, pages') == Repeat(0, Capacity(size));
    } else {
      var prev := tables[|tables| - 1];
      assert Last(tables) == prev;
      assert NewestData(ViewOf(deleted, sizes, tables, pages')) == Flatten(prev, pages');
      if table != prev {
        FlattenZeroTail(prev, pages', table, pages');
      }
    }
  }

  lemma NewLevelPool(tables: seq<seq<nat>>, pages: seq<Page>, refs: seq<int>, table: seq<nat>, pages': seq<Page>, refs': seq<int>, zeroPage': int)
    requires PoolOk(tables, pages, refs, NO_PAGE) && table != []
    requires Acquired(pages, refs, pages', refs', table) && |refs'| == |pages'|
    requires zeroPage' != NO_PAGE ==> Last(table) == zeroPage'
    ensures PoolOk(tables + [table], pages', refs', zeroPage')
  {
    AccountsAppend(refs, refs', tables, table);
    InPoolFromCounts(refs', tables + [table], |tables|, pages');
    assert Last(tables + [table]) == table;
  }

  lemma NewLevelView(deleted: nat, sizes: seq<nat>, tables: seq<seq<nat>>, pages: seq<Page>, refs: seq<int>,
                     size: nat, table: seq<nat>, pages': seq<Page>, refs': seq<int>, zeroPage: int, zeroPage': int)
    requires TablesOk(sizes, tables) && PoolOk(tables, pages, refs, zeroPage)
    requires Acquired(pages, refs, pages', refs', table) && |refs'| == |pages'|
    requires |table| == PagesFor(size) + 1 && (sizes != [] ==> Last(sizes) <= size)
    requires if tables == [] then DenseTable(table, pages') else CowTable(Last(tables), zeroPage', table, pages')
    requires tables == [] || table == Last(tables) ==> zeroPage' == zeroPage
    ensures TablesOk(sizes + [size], tables + [table])
    ensures PoolOk(tables + [table], pages', refs', zeroPage')
    ensures Legal(ViewOf(deleted, sizes, tables, pages), NewLevel(size))
    ensures ViewOf(deleted, sizes + [size], tables + [table], pages')
         == Step(ViewOf(deleted, sizes, tables, pages), NewLevel(size))
  {
    hide TablesOk, PoolOk, Accounts, Acquired, ViewOf, CowTable, DenseTable, Legal, Step;
    TablesPush(sizes, tables, size, table);
    PoolTables(tables, pages, refs, zeroPage);
    NewestHolds(tables, pages, refs, zeroPage, table, pages', zeroPage');
    NewLevelPool(tables, pages, refs, table, pages', refs', zeroPage');
    PushedPool(tables, table, pages', refs', zeroPage');
    ViewStays(deleted, sizes, tables, pages, refs, zeroPage, pages', refs', table);
    NewLevelData(deleted, sizes, tables, pages, size, table, pages', zeroPage');
    AppendLevel(deleted, sizes, tables, size, table, pages');
    StepNew(deleted, sizes, tables, pages, size);
  }

  lemma TablesPush(sizes: seq<nat>, tables: seq<seq<nat>>, size: nat, table: seq<nat>)
    requires TablesOk(sizes, tables) && |table| == PagesFor(size) + 1 && (sizes != [] ==> Last(sizes) <= size)
    ensures |sizes| == |tables| && TablesOk(sizes + [size], tables + [table])
  {
  }

  /** The extra slot of the new level holds the zero page. */
  lemma NewestHolds(tables: seq<seq<nat>>, pages: seq<Page>, refs: seq<int>, zeroPage: int,
                    table: seq<nat>, pages': seq<Page>, zeroPage': int)
    requires PoolOk(tables, pages, refs, zeroPage) && table != []
    requires tables != [] ==> Last(tables) != []
    requires tables != [] ==> CowTable(Last(tables), zeroPage', table, pages')
    requires tables == [] || table == Last(tables) ==> zeroPage' == zeroPage
    ensures PoolOk(tables, pages, refs, NO_PAGE)
    ensures zeroPage' != NO_PAGE ==> Last(table) == zeroPage'
  {
  }

  lemma PushedPool(tables: seq<seq<nat>>, table: seq<nat>, pages: seq<Page>, refs: seq<int>, zeroPage: int)
    requires PoolOk(tables + [table], pages, refs, zeroPage)
    ensures table != [] && InPool(table, pages)
    ensures forall k :: 0 <= k < |tables| ==> tables[k] != [] && InPool(tables[k], pages)
  {
    assert (tables + [table])[|tables|] == table;
    forall k | 0 <= k < |tables| ensures tables[k] != [] && InPool(tables[k], pages) {
      assert (tables + [table])[k] == tables[k];
    }
  }

  lemma PoolTables(tables: seq<seq<nat>>, pages: seq<Page>, refs: seq<int>, zeroPage: int)
    requires PoolOk(tables, pages, refs, zeroPage)
    ensures forall k :: 0 <= k < |tables| ==> tables[k] != [] && InPool(tables[k], pages)
  {
  }

  lemma ViewStays(deleted: nat, sizes: seq<nat>, tables: seq<seq<nat>>, pages: seq<Page>, refs: seq<int>, zeroPage: int,
                  pages': seq<Page>, refs': seq<int>, table: seq<nat>)
    requires |sizes| == |tables| && PoolOk(tables, pages, refs, zeroPage) && Acquired(pages, refs, pages', refs', table)
    ensures forall k :: 0 <= k < |tables| ==> InPool(tables[k], pages')
    ensures ViewOf(deleted, sizes, tables, pages') == ViewOf(deleted, sizes, tables, pages)
  {
    hide ViewOf;
    ViewFrame(deleted, sizes, tables, pages, refs, pages');
  }

  lemma StepNew(deleted: nat, sizes: seq<nat>, tables: seq<seq<nat>>, pages: seq<Page>, size: nat)
    requires |sizes| == |tables| && (sizes != [] ==> Last(sizes) <= size)
    requires forall k :: 0 <= k < |tables| ==> tables[k] != [] && InPool(tables[k], pages)
    ensures var view := ViewOf(deleted, sizes, tables, pages);
            && Legal(view, NewLevel(size))
            && Step(view, NewLevel(size)) == View(deleted, view.live + [Level(size, Padded(NewestData(view), Capacity(size)))])
  {
  }

  lemma AppendLevel(deleted: nat, sizes: seq<nat>, tables: seq<seq<nat>>, size: nat, table: seq<nat>, pages: seq<Page>)
    requires |sizes| == |tables| && table != [] && InPool(table, pages)
    requires forall k :: 0 <= k < |tables| ==> tables[k] != [] && InPool(tables[k], pages)
    ensures ViewOf(deleted, sizes + [size], tables + [table], pages)
         == View(deleted, ViewOf(deleted, sizes, tables, pages).live + [Level(size, Flatten(table, pages))])
  {
    assert ViewOf(deleted, sizes + [size], tables + [table], pages).live
        == ViewOf(deleted, sizes, tables, pages).live + [Level(size, Flatten(table, pages))];
  }

  /** A write through the slot of the newest level that covers "node" leaves every other slot of
      every level reading what it read before. */
  lemma WriteElsewhere(tables: seq<seq<nat>>, pages: seq<Page>, refs: seq<int>, pages': seq<Page>, refs': seq<int>,
                       wp: nat, id': nat, wi: nat, value: int, k: nat, i: nat)
    requires tables != [] && wp < |Last(tables)| && wi < PAGE_LENGTH
    requires Accounts(refs, tables) && k < |tables| && i < |tables[k]| && tables[k][i] < |pages|
    requires WrittenInPlace(pages, refs, pages', refs', Last(tables)[wp], id', wi, value)
          || WrittenToCopy(pages, refs, pages', refs', Last(tables)[wp], id', wi, value)
    requires !(k == |tables| - 1 && i == wp)
    ensures tables[k][i] < |pages'| && pages'[tables[k][i]] == pages[tables[k][i]]
  {
    HeldSlot(refs, tables, k, i);
    HeldSlot(refs, tables, |tables| - 1, wp);
  }

  lemma WritePool(tables: seq<seq<nat>>, pages: seq<Page>, refs: seq<int>, zeroPage: int, pages': seq<Page>, refs': seq<int>,
                  wp: nat, id': nat, wi: nat, value: int)
    requires PoolOk(tables, pages, refs, zeroPage) && tables != [] && wp < |Last(tables)| - 1 && wi < PAGE_LENGTH
    requires WrittenInPlace(pages, refs, pages', refs', Last(tables)[wp], id', wi, value)
          || WrittenToCopy(pages, refs, pages', refs', Last(tables)[wp], id', wi, value)
    ensures PoolOk(WithSlot(tables, wp, id'), pages', refs', zeroPage)
  {
    var n, tables' := |tables| - 1, WithSlot(tables, wp, id');
    if WrittenInPlace(pages, refs, pages', refs', Last(tables)[wp], id', wi, value) {
      assert tables'[n] == tables[n];
      assert tables' == tables;
    } else {
      AccountsReplace(refs, refs', tables, n, wp, id');
    }
    forall k | 0 <= k < |tables'| ensures tables'[k] != [] && InPool(tables'[k], pages') {
      assert InPool(tables[k], pages);
    }
  }

  /** The tables after slot "wp" of the newest one was redirected. */
  ghost function WithSlot(tables: seq<seq<nat>>, wp: nat, id: nat): (r: seq<seq<nat>>)
    requires tables != [] && wp < |Last(tables)|
    ensures |r| == |tables| && |Last(r)| == |Last(tables)|
  {
    var table: seq<nat> := Last(tables)[wp := id];
    tables[|tables| - 1 := table]
  }

  lemma WriteView(deleted: nat, sizes: seq<nat>, tables: seq<seq<nat>>, pages: seq<Page>, refs: seq<int>, zeroPage: int,
                  pages': seq<Page>, refs': seq<int>, node: nat, id': nat, value: int)
    requires TablesOk(sizes, tables) && PoolOk(tables, pages, refs, zeroPage)
    requires Legal(ViewOf(deleted, sizes, tables, pages), Write(node, value))
    requires node / PAGE_LENGTH < |Last(tables)| - 1
    requires WrittenInPlace(pages, refs, pages', refs', Last(tables)[node / PAGE_LENGTH], id', node % PAGE_LENGTH, value)
          || WrittenToCopy(pages, refs, pages', refs', Last(tables)[node / PAGE_LENGTH], id', node % PAGE_LENGTH, value)
    ensures TablesOk(sizes, WithSlot(tables, node / PAGE_LENGTH, id'))
    ensures PoolOk(WithSlot(tables, node / PAGE_LENGTH, id'), pages', refs', zeroPage)
    ensures ViewOf(deleted, sizes, WithSlot(tables, node / PAGE_LENGTH, id'), pages')
         == Step(ViewOf(deleted, sizes, tables, pages), Write(node, value))
  {
    hide TablesOk, PoolOk, Accounts, ViewOf, Legal, Step, WithSlot, WrittenInPlace, WrittenToCopy, Flatten;
    var n, wp, wi := |tables| - 1, node / PAGE_LENGTH, node % PAGE_LENGTH;
    LegalWrite(deleted, sizes, tables, pages, refs, zeroPage, node, value);
    var tables' := WithSlot(tables, wp, id');
    WithSlotAt(tables, wp, id');
    WritePool(tables, pages, refs, zeroPage, pages', refs', wp, id', wi, value);
    PoolTables(tables, pages, refs, zeroPage);
    PoolTables(tables', pages', refs', zeroPage);
    TablesRewrite(sizes, tables, wp, id');
    forall k | 0 <= k < n ensures Flatten(tables'[k], pages') == Flatten(tables[k], pages) {
      WriteOlder(tables, pages, refs, zeroPage, pages', refs', wp, id', wi, value, k);
    }
    WriteNewestData(tables, pages, refs, zeroPage, pages', refs', node, id', value);
    StepWrite(deleted, sizes, tables, pages, tables', pages', node, value);
  }

  lemma WithSlotAt(tables: seq<seq<nat>>, wp: nat, id: nat)
    requires tables != [] && wp < |Last(tables)|
    ensures var n, r := |tables| - 1, WithSlot(tables, wp, id);
            && tables[n] == Last(tables) && r[n] == Last(r) == tables[n][wp := id]
            && forall k :: 0 <= k < n ==> r[k] == tables[k]
  {
  }

  lemma TablesRewrite(sizes: seq<nat>, tables: seq<seq<nat>>, wp: nat, id: nat)
    requires TablesOk(sizes, tables) && tables != [] && wp < |Last(tables)|
    ensures |sizes| == |tables| && TablesOk(sizes, WithSlot(tables, wp, id))
  {
  }

  /** An older level reads the same after the write. */
  lemma WriteOlder(tables: seq<seq<nat>>, pages: seq<Page>, refs: seq<int>, zeroPage: int, pages': seq<Page>, refs': seq<int>,
                   wp: nat, id': nat, wi: nat, value: int, k: nat)
    requires PoolOk(tables, pages, refs, zeroPage) && k < |tables| - 1 && wp < |Last(tables)| && wi < PAGE_LENGTH
    requires WrittenInPlace(pages, refs, pages', refs', Last(tables)[wp], id', wi, value)
          || WrittenToCopy(pages, refs, pages', refs', Last(tables)[wp], id', wi, value)
    requires InPool(tables[k], pages') && tables[k] != [] && InPool(tables[k], pages)
    ensures Flatten(tables[k], pages') == Flatten(tables[k], pages)
  {
    hide Flatten;
    forall i | 0 <= i < |tables[k]| ensures pages'[tables[k][i]] == pages[tables[k][i]] {
      WriteElsewhere(tables, pages, refs, pages', refs', wp, id', wi, value, k, i);
    }
    FlattenFrame(tables[k], pages, pages');
  }

  /** The newest level reads as before but for the word written. */
  lemma WriteNewestData(tables: seq<seq<nat>>, pages: seq<Page>, refs: seq<int>, zeroPage: int, pages': seq<Page>, refs': seq<int>,
                        node: nat, id': nat, value: int)
    requires PoolOk(tables, pages, refs, zeroPage) && tables != [] && node / PAGE_LENGTH < |Last(tables)| - 1
    requires WrittenInPlace(pages, refs, pages', refs', Last(tables)[node / PAGE_LENGTH], id', node % PAGE_LENGTH, value)
          || WrittenToCopy(pages, refs, pages', refs', Last(tables)[node / PAGE_LENGTH], id', node % PAGE_LENGTH, value)
    requires InPool(Last(tables), pages) && InPool(Last(WithSlot(tables, node / PAGE_LENGTH, id')), pages')
    ensures node < |Flatten(Last(tables), pages)|
    ensures Flatten(Last(WithSlot(tables, node / PAGE_LENGTH, id')), pages') == Flatten(Last(tables), pages)[node := value]
  {
    hide Flatten, WithSlot;
    var n, wp, table := |tables| - 1, node / PAGE_LENGTH, Last(WithSlot(tables, node / PAGE_LENGTH, id'));
    WithSlotAt(tables, wp, id');
    forall i | 0 <= i < |tables[n]| && i != wp ensures pages'[table[i]] == pages[tables[n][i]] {
      WriteElsewhere(tables, pages, refs, pages', refs', wp, id', node % PAGE_LENGTH, value, n, i);
    }
    FlattenWrite(tables[n], pages, table, pages', node, value);
  }

  lemma StepWrite(deleted: nat, sizes: seq<nat>, tables: seq<seq<nat>>, pages: seq<Page>, tables': seq<seq<nat>>, pages': seq<Page>,
                  node: nat, value: int)
    requires |sizes| == |tables| == |tables'| && tables != []
    requires forall k :: 0 <= k < |tables| ==> tables[k] != [] && InPool(tables[k], pages)
    requires forall k :: 0 <= k < |tables| ==> tables'[k] != [] && InPool(tables'[k], pages')
    requires Legal(ViewOf(deleted, sizes, tables, pages), Write(node, value))
    requires forall k :: 0 <= k < |tables| - 1 ==> Flatten(tables'[k], pages') == Flatten(tables[k], pages)
    requires node < |Flatten(Last(tables), pages)| && Flatten(Last(tables'), pages') == Flatten(Last(tables), pages)[node := value]
    ensures ViewOf(deleted, sizes, tables', pages') == Step(ViewOf(deleted, sizes, tables, pages), Write(node, value))
  {
    hide Flatten, InPool;
    assert ViewOf(deleted, sizes, tables', pages').live
        == Step(ViewOf(deleted, sizes, tables, pages), Write(node, value)).live;
  }

  /** Releasing the tables of the oldest level: the zero page survives, because the newest level
      still holds it, and so does every page another level names. */
  lemma DeleteView(deleted: nat, sizes: seq<nat>, tables: seq<seq<nat>>, pages: seq<Page>, refs: seq<int>, zeroPage: int,
                   pages': seq<Page>, refs': seq<int>)
    requires TablesOk(sizes, tables) && PoolOk(tables, pages, refs, zeroPage) && 1 < |tables|
    requires |pages'| == |pages|
    requires forall p: nat :: Count(refs', p) == Count(refs, p) - multiset(tables[0])[p]
    requires forall p :: 0 <= p < |pages'| && 0 < Count(refs', p) ==> pages'[p] == pages[p]
    ensures TablesOk(sizes[1..], tables[1..])
    ensures PoolOk(tables[1..], pages', refs', zeroPage)
    ensures ViewOf(deleted + 1, sizes[1..], tables[1..], pages')
         == Step(ViewOf(deleted, sizes, tables, pages), DeleteOldest)
  {
    AccountsRelease(refs, refs', tables);
    var rest := tables[1..];
    forall k | 0 <= k < |rest|
      ensures rest[k] != [] && InPool(rest[k], pages') && Flatten(rest[k], pages') == Flatten(rest[k], pages)
    {
      assert rest[k] == tables[k + 1];
      forall i | 0 <= i < |rest[k]| ensures pages'[rest[k][i]] == pages[rest[k][i]] {
        HeldSlot(refs', rest, k, i);
      }
      FlattenFrame(rest[k], pages, pages');
    }
    assert ViewOf(deleted + 1, sizes[1..], rest, pages').live == ViewOf(deleted, sizes, tables, pages).live[1..];
  }

  lemma DeleteKeepsZeroPage(tables: seq<seq<nat>>, pages: seq<Page>, refs: seq<int>, zeroPage: int)
    requires PoolOk(tables, pages, refs, zeroPage) && 1 < |tables|
    ensures forall p: nat :: multiset(tables[0])[p] <= Count(refs, p)
    ensures !LosesZero(zeroPage, refs, tables[0])
  {
    HolderCounts(tables, 0);
    HoldersOfTwo(tables, 0, |tables| - 1);
    if zeroPage > 0 {
      assert zeroPage in tables[|tables| - 1];
      assert (multiset(tables[0]) + multiset(tables[|tables| - 1]))[zeroPage] <= Holders(tables)[zeroPage];
    }
  }

  // ---------------------------------------------------------------- implementation

  ghost predicate LevelOk(l: VertexArray, number: nat, size: nat, table: seq<nat>, entry: Entry)
    reads l, entry.indirection, entry.pageIds
  {
    && l.indirection == entry.indirection && l.pageIds == entry.pageIds
    && l.Shaped() && table == l.pageIds[..]
    && l.level == number && l.size == size && l.pages == PagesFor(size)
  }

  /** The two tables of a level. */
  datatype Entry = Entry(indirection: array<nat>, pageIds: array<nat>)

  /** Two levels share both tables or none; if they do, so do all levels between them. */
  ghost predicate PairOk(entries: seq<Entry>, i: nat, j: nat)
    requires i < j < |entries|
  {
    && entries[i].indirection != entries[j].pageIds && entries[i].pageIds != entries[j].indirection
    && (entries[i].indirection == entries[j].indirection <==> entries[i].pageIds == entries[j].pageIds)
    && (entries[i].pageIds == entries[j].pageIds ==>
          entries[i].pageIds == entries[i + 1].pageIds && entries[j - 1].pageIds == entries[j].pageIds)
  }

  ghost predicate InUse(a: array<nat>, entries: seq<Entry>) {
    exists k :: 0 <= k < |entries| && (a == entries[k].indirection || a == entries[k].pageIds)
  }

  /** The allocated tables are exactly those of the levels: nothing leaks, nothing dangles. */
  ghost predicate SharingOk(entries: seq<Entry>, heap: set<array<nat>>) {
    && (forall k :: 0 <= k < |entries| ==> entries[k].indirection in heap && entries[k].pageIds in heap)
    && (forall k :: 0 <= k < |entries| ==> entries[k].indirection != entries[k].pageIds)
    && (forall i, j :: 0 <= i < j < |entries| ==> PairOk(entries, i, j))
    && (forall a {:trigger InUse(a, entries)} :: a in heap ==> InUse(a, entries))
  }

  /** What the levels that exist hold; "heap" is the set of the tables allocated and not freed. */
  datatype Shape = Shape(alive: seq<VertexArray>, sizes: seq<nat>, tables: seq<seq<nat>>, entries: seq<Entry>, heap: set<array<nat>>) {
    ghost function Push(v: VertexArray, table: seq<nat>, e: Entry): Shape {
      Shape(alive + [v], sizes + [v.size], tables + [table], entries + [e], heap + {e.indirection, e.pageIds})
    }

    ghost function Pop(freed: set<array<nat>>): Shape
      requires alive != [] && sizes != [] && tables != [] && entries != []
    {
      Shape(alive[1..], sizes[1..], tables[1..], entries[1..], heap - freed)
    }

    ghost function Rewrite(wp: nat, id: nat, e: Entry): Shape
      requires tables != [] && wp < |Last(tables)| && entries != []
    {
      Shape(alive, sizes, WithSlot(tables, wp, id), entries[|entries| - 1 := e], heap + {e.indirection, e.pageIds})
    }
  }

  /** The levels that exist, numbered from "first". */
  ghost predicate LevelsOk(first: nat, shape: Shape)
    reads shape.alive, shape.heap
  {
    && |shape.alive| == |shape.sizes| == |shape.tables| == |shape.entries|
    && (forall k :: 0 <= k < |shape.entries| ==>
          shape.entries[k].indirection in shape.heap && shape.entries[k].pageIds in shape.heap)
    && (forall k :: 0 <= k < |shape.alive| ==>
          LevelOk(shape.alive[k], first + k, shape.sizes[k], shape.tables[k], shape.entries[k]))
    && (1 < |shape.alive| && shape.alive[|shape.alive| - 1].modifiedPages > 0 ==>
          shape.entries[|shape.alive| - 2].pageIds != shape.entries[|shape.alive| - 1].pageIds)
  }

  lemma SharingPush(entries: seq<Entry>, heap: set<array<nat>>, e: Entry)
    requires SharingOk(entries, heap) && e.indirection != e.pageIds
    requires || (entries != [] && e == Last(entries)) || {e.indirection, e.pageIds} !! heap
    ensures SharingOk(entries + [e], heap + {e.indirection, e.pageIds})
  {
    var n, entries' := |entries|, entries + [e];
    forall i, j | 0 <= i < j <= n ensures PairOk(entries', i, j) {
      assert j < n ==> PairOk(entries, i, j);
      assert i < n - 1 ==> PairOk(entries, i, n - 1);
    }
    forall a | a in heap + {e.indirection, e.pageIds} ensures InUse(a, entries') {
      if a in heap {
        assert InUse(a, entries);
        var k :| 0 <= k < n && (a == entries[k].indirection || a == entries[k].pageIds);
        assert entries'[k] == entries[k];
      } else {
        assert entries'[n] == e;
      }
    }
  }

  /** The newest level gets tables of its own; those it shared before stay in use. */
  lemma SharingUnshare(entries: seq<Entry>, heap: set<array<nat>>, e: Entry)
    requires SharingOk(entries, heap) && 1 < |entries|
    requires entries[|entries| - 2].pageIds == entries[|entries| - 1].pageIds
    requires e.indirection != e.pageIds && {e.indirection, e.pageIds} !! heap
    ensures SharingOk(entries[|entries| - 1 := e], heap + {e.indirection, e.pageIds})
  {
    var n, entries' := |entries| - 1, entries[|entries| - 1 := e];
    assert PairOk(entries, n - 1, n);
    forall i, j | 0 <= i < j <= n ensures PairOk(entries', i, j) {
      assert PairOk(entries, i, j);
    }
    forall a | a in heap + {e.indirection, e.pageIds} ensures InUse(a, entries') {
      if a in heap {
        assert InUse(a, entries);
        var k :| 0 <= k <= n && (a == entries[k].indirection || a == entries[k].pageIds);
        var k' := if k == n then n - 1 else k;
        assert entries'[k'] == entries[k'];
      } else {
        assert entries'[n] == e;
      }
    }
  }

  /** Deleting the oldest level frees a table exactly when the next level does not share it. */
  lemma SharingDelete(entries: seq<Entry>, heap: set<array<nat>>)
    requires SharingOk(entries, heap) && 1 < |entries|
    ensures var freed := if entries[0].pageIds == entries[1].pageIds then {} else {entries[0].indirection, entries[0].pageIds};
            freed <= heap && SharingOk(entries[1..], heap - freed)
  {
    var rest := entries[1..];
    assert PairOk(entries, 0, 1);
    var freed := if entries[0].pageIds == entries[1].pageIds then {} else {entries[0].indirection, entries[0].pageIds};
    forall i, j | 0 <= i < j < |rest| ensures PairOk(rest, i, j) {
      assert PairOk(entries, i + 1, j + 1);
    }
    forall k | 0 <= k < |rest| ensures rest[k].indirection in heap - freed && rest[k].pageIds in heap - freed {
      assert PairOk(entries, 0, k + 1);
    }
    forall a | a in heap - freed ensures InUse(a, rest) {
      assert InUse(a, entries);
      var k :| 0 <= k < |entries| && (a == entries[k].indirection || a == entries[k].pageIds);
      assert rest[if k == 0 then 0 else k - 1] == entries[if k == 0 then 1 else k];
    }
  }

  lemma LevelAt(first: nat, shape: Shape, k: nat)
    requires LevelsOk(first, shape) && k < |shape.alive|
    ensures |shape.alive| == |shape.sizes| == |shape.tables| == |shape.entries|
    ensures LevelOk(shape.alive[k], first + k, shape.sizes[k], shape.tables[k], shape.entries[k])
    ensures shape.entries[k].indirection in shape.heap && shape.entries[k].pageIds in shape.heap
  {
  }

  lemma NewestEntry(first: nat, shape: Shape)
    requires LevelsOk(first, shape) && shape.alive != []
    ensures |shape.alive| == |shape.entries|
    ensures Last(shape.entries).indirection == Last(shape.alive).indirection && Last(shape.entries).pageIds == Last(shape.alive).pageIds
    ensures Last(shape.entries).pageIds in shape.heap && Last(shape.entries).indirection in shape.heap
  {
    LevelAt(first, shape, |shape.alive| - 1);
  }

  lemma NewLevelOk(v: VertexArray, e: Entry)
    requires v.Shaped() && v.pages == PagesFor(v.size) && e == Entry(v.indirection, v.pageIds)
    ensures LevelOk(v, v.level, v.size, v.pageIds[..], e)
  {
  }

  lemma LevelsPush(first: nat, shape: Shape, v: VertexArray, e: Entry)
    requires LevelsOk(first, shape)
    requires v.pageIds != null && LevelOk(v, first + |shape.alive|, v.size, v.pageIds[..], e)
    requires shape.alive == [] || v.modifiedPages == 0 || e.pageIds !in shape.heap
    ensures LevelsOk(first, shape.Push(v, v.pageIds[..], e))
  {
  }

  /** All levels but the newest are what "shape" says. */
  ghost predicate OthersOk(first: nat, shape: Shape)
    reads shape.alive, shape.heap
  {
    && |shape.alive| == |shape.sizes| == |shape.tables| == |shape.entries|
    && (forall k :: 0 <= k < |shape.entries| - 1 ==>
          shape.entries[k].indirection in shape.heap && shape.entries[k].pageIds in shape.heap)
    && (forall k :: 0 <= k < |shape.alive| - 1 ==>
          LevelOk(shape.alive[k], first + k, shape.sizes[k], shape.tables[k], shape.entries[k]))
  }

  lemma OthersAt(first: nat, shape: Shape)
    requires LevelsOk(first, shape)
    ensures OthersOk(first, shape)
  {
  }

  lemma LevelsRewrite(first: nat, shape: Shape, wp: nat, e: Entry)
    requires shape.alive != [] && OthersOk(first, shape)
    requires wp < |Last(shape.tables)| && wp < e.pageIds.Length
    requires LevelOk(Last(shape.alive), first + |shape.alive| - 1, Last(shape.sizes),
                     Last(WithSlot(shape.tables, wp, e.pageIds[wp])), e)
    requires 1 < |shape.alive| && Last(shape.alive).modifiedPages > 0 ==>
               shape.entries[|shape.alive| - 2].pageIds != e.pageIds
    ensures LevelsOk(first, shape.Rewrite(wp, e.pageIds[wp], e))
  {
  }

  /** Everything "Valid" says of the levels, and what they read as. */
  ghost predicate Consistent(first: nat, shape: Shape, pages: seq<Page>, refs: seq<int>, zeroPage: int, view: View)
    reads shape.alive, shape.heap
  {
    && LevelsOk(first, shape) && SharingOk(shape.entries, shape.heap)
    && TablesOk(shape.sizes, shape.tables) && PoolOk(shape.tables, pages, refs, zeroPage)
    && ViewOf(first, shape.sizes, shape.tables, pages) == view
  }

  lemma FinishWrite(first: nat, shape: Shape, pages: seq<Page>, refs: seq<int>, zeroPage: int,
                    pages': seq<Page>, refs': seq<int>, node: nat, value: int, v: VertexArray, e: Entry)
    requires shape.alive != [] && OthersOk(first, shape) && SharingOk(shape.entries, shape.heap)
    requires TablesOk(shape.sizes, shape.tables) && PoolOk(shape.tables, pages, refs, zeroPage)
    requires Legal(ViewOf(first, shape.sizes, shape.tables, pages), Write(node, value))
    requires node / PAGE_LENGTH < |Last(shape.tables)| - 1 && node / PAGE_LENGTH < e.pageIds.Length
    requires var id' := e.pageIds[node / PAGE_LENGTH];
             || WrittenInPlace(pages, refs, pages', refs', Last(shape.tables)[node / PAGE_LENGTH], id', node % PAGE_LENGTH, value)
             || WrittenToCopy(pages, refs, pages', refs', Last(shape.tables)[node / PAGE_LENGTH], id', node % PAGE_LENGTH, value)
    requires v == Last(shape.alive)
    requires LevelOk(v, first + |shape.alive| - 1, Last(shape.sizes),
                     Last(WithSlot(shape.tables, node / PAGE_LENGTH, e.pageIds[node / PAGE_LENGTH])), e)
    requires || (e == Last(shape.entries) && (1 < |shape.alive| && v.modifiedPages > 0 ==> shape.entries[|shape.alive| - 2].pageIds != e.pageIds))
             || (1 < |shape.alive| && {e.indirection, e.pageIds} !! shape.heap
                 && shape.entries[|shape.alive| - 2].pageIds == Last(shape.entries).pageIds)
    ensures Consistent(first, shape.Rewrite(node / PAGE_LENGTH, e.pageIds[node / PAGE_LENGTH], e), pages', refs', zeroPage,
                       Step(ViewOf(first, shape.sizes, shape.tables, pages), Write(node, value)))
  {
    hide LevelsOk, OthersOk, SharingOk, PoolOk, TablesOk, ViewOf, WrittenInPlace, WrittenToCopy, Step, Legal;
    WriteView(first, shape.sizes, shape.tables, pages, refs, zeroPage, pages', refs', node, e.pageIds[node / PAGE_LENGTH], value);
    OthersShape(first, shape);
    SharingWrite(shape.entries, shape.heap, e);
    LevelsRewrite(first, shape, node / PAGE_LENGTH, e);
  }

  lemma OthersShape(first: nat, shape: Shape)
    requires OthersOk(first, shape)
    ensures |shape.alive| == |shape.sizes| == |shape.tables| == |shape.entries|
  {
  }

  lemma SharingWrite(entries: seq<Entry>, heap: set<array<nat>>, e: Entry)
    requires SharingOk(entries, heap) && entries != [] && e.indirection != e.pageIds
    requires || e == Last(entries)
             || (1 < |entries| && {e.indirection, e.pageIds} !! heap
                 && entries[|entries| - 2].pageIds == Last(entries).pageIds)
    ensures SharingOk(entries[|entries| - 1 := e], heap + {e.indirection, e.pageIds})
    ensures 1 < |entries| && e.pageIds !in heap ==> entries[|entries| - 2].pageIds != e.pageIds
  {
    if e == Last(entries) {
      assert entries[|entries| - 1 := e] == entries;
      assert heap + {e.indirection, e.pageIds} == heap;
    } else {
      SharingUnshare(entries, heap, e);
    }
  }

  lemma PoolFacts(tables: seq<seq<nat>>, pages: seq<Page>, refs: seq<int>, zeroPage: int, k: nat)
    requires PoolOk(tables, pages, refs, zeroPage) && k < |tables|
    ensures InPool(tables[k], pages) && tables[k] != []
    ensures forall p :: p in tables[k] ==> 0 < Count(refs, p)
  {
    HeldTable(refs, tables, k);
  }

  lemma LegalSize(deleted: nat, sizes: seq<nat>, tables: seq<seq<nat>>, pages: seq<Page>, refs: seq<int>, zeroPage: int, size: nat)
    requires |sizes| == |tables| && PoolOk(tables, pages, refs, zeroPage)
    requires Legal(ViewOf(deleted, sizes, tables, pages), NewLevel(size))
    ensures sizes != [] ==> Last(sizes) <= size && PagesFor(Last(sizes)) <= PagesFor(size)
  {
    if sizes != [] {
      assert ViewOf(deleted, sizes, tables, pages).Newest().size == Last(sizes);
    }
  }

  lemma CowTableShape(prev: seq<nat>, zeroPage: int, table: seq<nat>, pages: seq<Page>)
    requires prev != []
    requires |table| == |prev| ==> table == prev
    requires |table| != |prev| ==>
               && |prev| < |table| && 0 <= zeroPage < |pages| && pages[zeroPage] == ZERO
               && table == CopiedIds(prev, |prev| - 1, zeroPage, 0, |table|)
    ensures CowTable(prev, zeroPage, table, pages)
  {
  }

  lemma LegalWrite(deleted: nat, sizes: seq<nat>, tables: seq<seq<nat>>, pages: seq<Page>, refs: seq<int>, zeroPage: int, node: nat, value: int)
    requires TablesOk(sizes, tables) && PoolOk(tables, pages, refs, zeroPage)
    requires Legal(ViewOf(deleted, sizes, tables, pages), Write(node, value))
    ensures tables != [] && (deleted == 0 || 1 < |tables|)
    ensures node <= Last(sizes) && node / PAGE_LENGTH < |Last(tables)| - 1
    ensures 0 < Count(refs, Last(tables)[node / PAGE_LENGTH])
    ensures Count(refs, Last(tables)[node / PAGE_LENGTH]) == 1 ==> Last(tables)[node / PAGE_LENGTH] != zeroPage
  {
    var view, n := ViewOf(deleted, sizes, tables, pages), |tables| - 1;
    assert |view.live| == |tables|;
    assert view.Newest() == Level(sizes[n], Flatten(tables[n], pages));
    HeldSlot(refs, tables, n, node / PAGE_LENGTH);
  }

  lemma NewestModified(first: nat, shape: Shape)
    requires LevelsOk(first, shape) && 1 < |shape.alive|
    ensures shape.alive[|shape.alive| - 1].modifiedPages > 0 ==>
              shape.entries[|shape.alive| - 2].pageIds != shape.entries[|shape.alive| - 1].pageIds
  {
  }

  ghost predicate Apart(a: Entry, b: Entry) {
    && a.indirection != b.indirection && a.pageIds != b.pageIds
    && a.indirection != b.pageIds && a.pageIds != b.indirection
  }

  lemma NewestPair(entries: seq<Entry>, heap: set<array<nat>>)
    requires SharingOk(entries, heap) && 1 < |entries|
    ensures PairOk(entries, |entries| - 2, |entries| - 1)
    ensures entries[|entries| - 2].pageIds != entries[|entries| - 1].pageIds ==>
              forall k :: 0 <= k < |entries| - 1 ==> Apart(entries[k], entries[|entries| - 1])
  {
    var n := |entries| - 1;
    forall k | 0 <= k < n && entries[n - 1].pageIds != entries[n].pageIds ensures Apart(entries[k], entries[n]) {
      assert PairOk(entries, k, n);
    }
  }

  /** What cow_write relies on: it runs on the newest level, whose predecessor still exists when
      the two may share tables. */
  lemma WriteReady(first: nat, shape: Shape, v: VertexArray, prev: VertexArray?)
    requires LevelsOk(first, shape) && SharingOk(shape.entries, shape.heap)
    requires shape.alive != [] && v == Last(shape.alive)
    requires 1 < |shape.alive| ==> prev == shape.alive[|shape.alive| - 2]
    requires |shape.alive| == 1 ==> v.modifiedPages > 0
    ensures OthersOk(first, shape)
    ensures LevelOk(v, first + |shape.alive| - 1, Last(shape.sizes), Last(shape.tables), Last(shape.entries))
    ensures v.indirection == Last(shape.entries).indirection && v.pageIds == Last(shape.entries).pageIds
    ensures v.indirection in shape.heap && v.pageIds in shape.heap && v.Shaped() && v.size == Last(shape.sizes)
    ensures v.pageIds[..] == Last(shape.tables) && v.pages == PagesFor(v.size)
    ensures v.modifiedPages == 0 ==> prev != null && prev != v && 1 < |shape.alive|
    ensures v.modifiedPages == 0 && prev.indirection == v.indirection ==>
              prev.Shaped() && prev.pageIds == v.pageIds && prev.pages == v.pages
              && shape.entries[|shape.alive| - 2].pageIds == v.pageIds
    ensures !(v.modifiedPages == 0 && prev.indirection == v.indirection) ==>
              && (forall k :: 0 <= k < |shape.entries| - 1 ==> Apart(shape.entries[k], Last(shape.entries)))
              && (1 < |shape.alive| ==> shape.entries[|shape.alive| - 2].pageIds != v.pageIds)
  {
    var n := |shape.alive| - 1;
    LevelAt(first, shape, n);
    OthersAt(first, shape);
    if n > 0 {
      LevelAt(first, shape, n - 1);
      NewestPair(shape.entries, shape.heap);
      NewestModified(first, shape);
    }
  }

  lemma LegalDelete(deleted: nat, sizes: seq<nat>, tables: seq<seq<nat>>, pages: seq<Page>, refs: seq<int>, zeroPage: int)
    requires |sizes| == |tables| && PoolOk(tables, pages, refs, zeroPage)
    requires Legal(ViewOf(deleted, sizes, tables, pages), DeleteOldest)
    ensures 1 < |tables| && ViewOf(deleted, sizes, tables, pages).deleted == deleted
  {
  }

  lemma DeleteReady(first: nat, shape: Shape)
    requires LevelsOk(first, shape) && SharingOk(shape.entries, shape.heap) && 1 < |shape.alive|
    ensures |shape.alive| == |shape.sizes| == |shape.tables| == |shape.entries|
    ensures forall k :: 0 <= k < 2 ==>
              && shape.alive[k].Shaped() && shape.alive[k].pageIds[..] == shape.tables[k]
              && shape.alive[k].indirection == shape.entries[k].indirection
              && shape.alive[k].pageIds == shape.entries[k].pageIds
    ensures shape.alive[0].pageIds == shape.alive[1].pageIds <==> shape.alive[0].indirection == shape.alive[1].indirection
  {
    assert PairOk(shape.entries, 0, 1);
    forall k | 0 <= k < 2 ensures LevelOk(shape.alive[k], first + k, shape.sizes[k], shape.tables[k], shape.entries[k]) {
      LevelAt(first, shape, k);
    }
  }

  lemma LevelsPop(first: nat, shape: Shape, freed: set<array<nat>>)
    requires LevelsOk(first, shape) && 1 < |shape.alive|
    requires freed <= shape.heap && SharingOk(shape.entries[1..], shape.heap - freed)
    requires |shape.sizes| == |shape.tables| == |shape.entries| == |shape.alive|
    ensures LevelsOk(first + 1, shape.Pop(freed))
  {
    var rest := shape.Pop(freed);
    forall k | 0 <= k < |rest.alive|
      ensures LevelOk(rest.alive[k], first + 1 + k, rest.sizes[k], rest.tables[k], rest.entries[k])
    {
      LevelAt(first, shape, k + 1);
    }
  }

  /** The levels that exist come last; those deleted are null. */
  ghost predicate Placed(levels: seq<VertexArray?>, shape: Shape) {
    && |shape.sizes| == |shape.tables| == |shape.entries| == |shape.alive| <= |levels| && (levels != [] ==> shape.alive != [])
    && (forall k :: 0 <= k < |levels| - |shape.alive| ==> levels[k] == null)
    && (forall k :: 0 <= k < |shape.alive| ==> levels[|levels| - |shape.alive| + k] == shape.alive[k])
  }

  lemma PlacedPush(levels: seq<VertexArray?>, shape: Shape, v: VertexArray, table: seq<nat>, e: Entry)
    requires Placed(levels, shape)
    ensures Placed(levels + [v], shape.Push(v, table, e))
  {
  }

  lemma PlacedRewrite(levels: seq<VertexArray?>, shape: Shape, wp: nat, id: nat, e: Entry)
    requires Placed(levels, shape) && shape.tables != [] && wp < |Last(shape.tables)| && shape.entries != []
    ensures Placed(levels, shape.Rewrite(wp, id, e))
  {
  }

  lemma PlacedPop(levels: seq<VertexArray?>, shape: Shape, freed: set<array<nat>>)
    requires Placed(levels, shape) && 1 < |shape.alive|
    ensures |shape.sizes| == |shape.tables| == |shape.entries| == |shape.alive|
    ensures Placed(levels[|levels| - |shape.alive| := null], shape.Pop(freed))
  {
    var n, levels', shape' := |levels| - |shape.alive|, levels[|levels| - |shape.alive| := null], shape.Pop(freed);
    forall k | 0 <= k < |shape'.alive| ensures levels'[n + 1 + k] == shape'.alive[k] {
      assert levels[n + (k + 1)] == shape.alive[k + 1];
    }
  }

  lemma PlacedAt(levels: seq<VertexArray?>, shape: Shape)
    requires Placed(levels, shape)
    ensures |shape.sizes| == |shape.tables| == |shape.entries| == |shape.alive| <= |levels|
    ensures levels != [] ==> shape.alive != [] && levels[|levels| - 1] == Last(shape.alive)
    ensures 1 < |shape.alive| ==> levels[|levels| - 2] == shape.alive[|shape.alive| - 2]
    ensures forall k :: 0 <= k < |levels| - |shape.alive| ==> levels[k] == null
  {
    var first := |levels| - |shape.alive|;
    assert shape.alive != [] ==> levels[first + (|shape.alive| - 1)] == Last(shape.alive);
    assert 1 < |shape.alive| ==> levels[first + (|shape.alive| - 2)] == shape.alive[|shape.alive| - 2];
  }

  /** A view after "n" deletions. */
  function Dropped(view: View, n: nat): View
    requires n <= |view.live|
  {
    View(view.deleted + n, view.live[n..])
  }

  lemma DroppedNext(view: View, n: nat)
    requires n + 1 < |view.live|
    ensures Legal(Dropped(view, n), DeleteOldest) && Dropped(view, n).deleted == view.deleted + n
    ensures Step(Dropped(view, n), DeleteOldest) == Dropped(view, n + 1)
  {
    assert view.live[n..][1..] == view.live[n + 1..];
  }

  lemma DroppedShape(view: View, n: nat)
    requires n <= |view.live|
    ensures Dropped(view, n).deleted == view.deleted + n && |Dropped(view, n).live| == |view.live| - n
    ensures n == 0 ==> Dropped(view, n) == view
  {
  }

  ghost predicate Held(shape: Shape, objects: set<object>) {
    shape.heap <= objects && forall l :: l in shape.alive ==> l in objects
  }

  lemma HeldPush(shape: Shape, objects: set<object>, v: VertexArray, table: seq<nat>, e: Entry)
    requires Held(shape, objects)
    ensures Held(shape.Push(v, table, e), objects + {v, e.indirection, e.pageIds})
  {
  }

  lemma PushShape(shape: Shape, v: VertexArray, table: seq<nat>, e: Entry)
    ensures var next := shape.Push(v, table, e);
            && |next.alive| == |shape.alive| + 1 && next.entries == shape.entries + [e]
            && next.heap == shape.heap + {e.indirection, e.pageIds} && (shape.alive == [] ==> next.alive[0] == v)
            && (shape.alive != [] ==> next.alive[0] == shape.alive[0])
  {
  }

  class Collection {
    const pm: Manager
    var levels: seq<VertexArray?>
    /** The levels that have not been deleted, and what they hold; the others come first, and are
        null. */
    ghost var shape: Shape
    ghost var Repr: set<object>

    ghost predicate Layout()
      reads this, Repr - {pm}
    {
      && this in Repr && pm in Repr && Held(shape, Repr)
      && SharingOk(shape.entries, shape.heap)
      && Placed(levels, shape)
      && LevelsOk(|levels| - |shape.alive|, shape)
      && (|levels| == 1 ==> shape.alive[0].modifiedPages > 0)
    }

    ghost predicate Valid()
      reads this, Repr
    {
      && Layout() && pm.Wf() && pm.ZeroSafe()
      && TablesOk(shape.sizes, shape.tables)
      && PoolOk(shape.tables, pm.pages, pm.refcounts, pm.zeroPageNo)
    }

    ghost function Contents(): View
      requires Valid()
      reads this, Repr
    {
      ViewOf(|levels| - |shape.alive|, shape.sizes, shape.tables, pm.pages)
    }

    constructor ()
      ensures Valid() && fresh(Repr) && levels == [] && Contents() == View(0, [])
    {
      hide Manager.Wf;
      pm := new Manager();
      levels, shape := [], Shape([], [], [], [], {});
      Repr := {this, pm};
    }

    /** operator[] */
    method Get(k: nat, node: nat) returns (value: int)
      requires Valid() && k < |levels| && levels[k] != null && node <= levels[k].size
      ensures var live := Contents().live[k - Contents().deleted];
              node < |live.data| && value == live.data[node]
    {
      var l := levels[k];
      ghost var j := k - (|levels| - |shape.alive|);
      assert l == shape.alive[j] && LevelOk(l, k, shape.sizes[j], shape.tables[j], shape.entries[j]);
      assert l.indirection[..] == l.pageIds[..] == shape.tables[j];
      assert l.indirection[node / PAGE_LENGTH] == l.pageIds[..][node / PAGE_LENGTH];
      value := pm.pages[l.indirection[node / PAGE_LENGTH]][node % PAGE_LENGTH];
    }

    /** count_existing_levels */
    method CountExistingLevels() returns (n: nat)
      requires Layout()
      ensures n == |shape.alive|
    {
      n := 0;
      for i := 0 to |levels|
        invariant n == if i < |levels| - |shape.alive| then 0 else i - (|levels| - |shape.alive|)
      {
        assert i >= |levels| - |shape.alive| ==> levels[i] == shape.alive[i - (|levels| - |shape.alive|)];
        if levels[i] != null {
          n := n + 1;
        }
      }
    }

    /** The push_back of new_level. */
    method PushBack(v: VertexArray)
      requires Layout() && v.Shaped() && v.pages == PagesFor(v.size) && v.level == |levels|
      requires shape.alive == [] ==> v.modifiedPages > 0
      requires || (shape.alive != [] && v.modifiedPages == 0
                   && v.indirection == shape.alive[|shape.alive| - 1].indirection && v.pageIds == shape.alive[|shape.alive| - 1].pageIds)
               || (v.indirection !in shape.heap && v.pageIds !in shape.heap)
      modifies this
      ensures Layout() && Repr == old(Repr) + {v, v.indirection, v.pageIds}
      ensures levels == old(levels) + [v]
      ensures shape == old(shape).Push(v, v.pageIds[..], Entry(v.indirection, v.pageIds))
    {
      hide SharingOk, LevelsOk, LevelOk, Placed, Held, Shape.Push;
      ghost var e := Entry(v.indirection, v.pageIds);
      PlacedAt(levels, shape);
      if shape.alive != [] {
        NewestEntry(|levels| - |shape.alive|, shape);
      }
      NewLevelOk(v, e);
      PlacedPush(levels, shape, v, v.pageIds[..], e);
      HeldPush(shape, Repr, v, v.pageIds[..], e);
      SharingPush(shape.entries, shape.heap, e);
      LevelsPush(|levels| - |shape.alive|, shape, v, e);
      ghost var next := shape.Push(v, v.pageIds[..], e);
      PushShape(shape, v, v.pageIds[..], e);
      levels, shape, Repr := levels + [v], next, Repr + {v, e.indirection, e.pageIds};
    }

    /** The initialisation init_level chooses for a new level. */
    method CreateLevel(size: nat) returns (v: VertexArray)
      requires Valid() && Legal(Contents(), NewLevel(size))
      modifies pm
      ensures fresh(v) && v.Shaped() && v.size == size && v.pages == PagesFor(size) && v.level == |levels|
      ensures shape.alive == [] ==> v.modifiedPages > 0
      ensures || (shape.alive != [] && v.modifiedPages == 0
                  && v.indirection == shape.alive[|shape.alive| - 1].indirection && v.pageIds == shape.alive[|shape.alive| - 1].pageIds
                  && v.indirection in shape.heap && v.pageIds in shape.heap)
              || (fresh(v.indirection) && fresh(v.pageIds))
      ensures pm.Wf() && pm.ZeroSafe()
      ensures TablesOk(shape.sizes + [size], shape.tables + [v.pageIds[..]])
      ensures PoolOk(shape.tables + [v.pageIds[..]], pm.pages, pm.refcounts, pm.zeroPageNo)
      ensures ViewOf(|levels| - |shape.alive|, shape.sizes + [size], shape.tables + [v.pageIds[..]], pm.pages)
           == Step(old(Contents()), NewLevel(size))
    {
      hide Manager.Wf, Manager.ZeroSafe, LevelsOk, PoolOk, ViewOf, DenseTable, CowTable, Acquired, TablesOk, Step, Legal, SharingOk, Placed;
      PlacedAt(levels, shape);
      ghost var n := |shape.alive|;
      LegalSize(|levels| - n, shape.sizes, shape.tables, pm.pages, pm.refcounts, pm.zeroPageNo, size);
      v := new VertexArray(|levels|, size);
      var existing := CountExistingLevels();
      if existing == 0 {
        v.DenseInit(pm);
        pm.PoolShape();
      } else {
        CowLevel(v);
      }
      NewLevelView(|levels| - n, shape.sizes, shape.tables, old(pm.pages), old(pm.refcounts), size, v.pageIds[..],
                   pm.pages, pm.refcounts, old(pm.zeroPageNo), pm.zeroPageNo);
    }

    /** cow_init, for a level about to follow the newest one. */
    method CowLevel(v: VertexArray)
      requires Valid() && shape.alive != [] && v !in Repr
      requires v.indirection == null && v.pageIds == null && shape.sizes[|shape.alive| - 1] <= v.size
      requires v.pages == PagesFor(v.size)
      modifies v, pm
      ensures v.Shaped() && v.modifiedPages == 0
      ensures || (v.indirection == shape.alive[|shape.alive| - 1].indirection && v.pageIds == shape.alive[|shape.alive| - 1].pageIds
                  && v.indirection in shape.heap && v.pageIds in shape.heap)
              || (fresh(v.indirection) && fresh(v.pageIds))
      ensures pm.Wf() && pm.ZeroSafe() && |pm.refcounts| == |pm.pages|
      ensures Acquired(old(pm.pages), old(pm.refcounts), pm.pages, pm.refcounts, v.pageIds[..])
      ensures CowTable(Last(shape.tables), pm.zeroPageNo, v.pageIds[..], pm.pages)
      ensures v.pageIds[..] == Last(shape.tables) ==> pm.zeroPageNo == old(pm.zeroPageNo)
    {
      hide Manager.Wf, Manager.ZeroSafe, LevelsOk, PoolOk, ViewOf, CowTable, Acquired, CopiedIds, Placed, SharingOk, TablesOk;
      PlacedAt(levels, shape);
      ghost var n := |shape.alive|;
      LevelAt(|levels| - n, shape, n - 1);
      PoolFacts(shape.tables, pm.pages, pm.refcounts, pm.zeroPageNo, n - 1);
      v.CowInit(pm, levels[|levels| - 1]);
      assert v.pageIds[..v.pages + 1] == v.pageIds[..];
      pm.ZeroReads();
      assert Last(shape.tables) == shape.tables[n - 1];
      CowTableShape(shape.tables[n - 1], pm.zeroPageNo, v.pageIds[..], pm.pages);
    }

    /** new_level, with the initialisation init_level chooses. */
    method InitLevel(size: nat)
      requires Valid() && Legal(Contents(), NewLevel(size))
      modifies Repr
      ensures Valid() && fresh(Repr - old(Repr))
      ensures Contents() == Step(old(Contents()), NewLevel(size))
    {
      hide Manager.Wf, LevelsOk, PoolOk, TablesOk, Accounts, ViewOf, Step;
      var v := CreateLevel(size);
      PushBack(v);
    }

    /** cow_write on the newest level. */
    method Write(node: nat, value: int)
      requires Valid() && Legal(Contents(), Op.Write(node, value))
      modifies Repr
      ensures Valid() && fresh(Repr - old(Repr))
      ensures Contents() == Step(old(Contents()), Op.Write(node, value))
    {
      hide Manager.Wf, Manager.ZeroSafe, LevelsOk, PoolOk, ViewOf, TablesOk, Step, SharingOk, WithSlot, LevelOk, Placed, Legal;
      PlacedAt(levels, shape);
      var v := WriteNewest(node, value);
      ghost var e := Entry(v.indirection, v.pageIds);
      PlacedRewrite(levels, shape, node / PAGE_LENGTH, e.pageIds[node / PAGE_LENGTH], e);
      shape := shape.Rewrite(node / PAGE_LENGTH, e.pageIds[node / PAGE_LENGTH], e);
      Repr := Repr + {v.indirection, v.pageIds};
    }

    /** The write itself, before the newest level's entry is brought up to date. */
    method WriteNewest(node: nat, value: int) returns (v: VertexArray)
      requires Valid() && Legal(Contents(), Op.Write(node, value))
      modifies Repr - {this}
      ensures |levels| == 1 ==> v == shape.alive[0] && v.modifiedPages > 0
      ensures pm.Wf() && pm.ZeroSafe()
      ensures v.pageIds != null && v.indirection != null && shape.tables != [] && shape.entries != []
      ensures node / PAGE_LENGTH < v.pageIds.Length && node / PAGE_LENGTH < |Last(shape.tables)|
      ensures {v.indirection, v.pageIds} <= shape.heap || (fresh(v.indirection) && fresh(v.pageIds))
      ensures var e := Entry(v.indirection, v.pageIds);
              var shape' := shape.Rewrite(node / PAGE_LENGTH, e.pageIds[node / PAGE_LENGTH], e);
              Consistent(|levels| - |shape.alive|, shape', pm.pages, pm.refcounts, pm.zeroPageNo,
                         Step(old(Contents()), Op.Write(node, value)))
    {
      hide Manager.Wf, LevelsOk, PoolOk, ViewOf, TablesOk, WrittenInPlace, WrittenToCopy, Step, SharingOk, OthersOk, LevelOk;
      ghost var first := |levels| - |shape.alive|;
      LegalWrite(first, shape.sizes, shape.tables, pm.pages, pm.refcounts, pm.zeroPageNo, node, value);
      assert levels[first + (|shape.alive| - 1)] == Last(shape.alive);
      v := levels[|levels| - 1];
      var prev := if 1 < |levels| then levels[|levels| - 2] else null;
      WriteReady(first, shape, v, prev);
      CowWriteNewest(v, prev, node, value);
      FinishWrite(first, shape, old(pm.pages), old(pm.refcounts), pm.zeroPageNo, pm.pages, pm.refcounts,
                  node, value, v, Entry(v.indirection, v.pageIds));
    }

    /** cow_write, seen from the levels other than the newest: they do not notice. */
    method CowWriteNewest(v: VertexArray, prev: VertexArray?, node: nat, value: int)
      requires shape.alive != [] && |shape.alive| <= |levels|
      requires v == Last(shape.alive) && OthersOk(|levels| - |shape.alive|, shape)
      requires |shape.alive| == |shape.sizes| == |shape.tables| == |shape.entries|
      requires LevelOk(v, |levels| - 1, Last(shape.sizes), Last(shape.tables), Last(shape.entries))
      requires Last(shape.entries).indirection in shape.heap && Last(shape.entries).pageIds in shape.heap
      requires pm.Wf() && pm.ZeroSafe() && node <= v.size
      requires v.modifiedPages == 0 ==> prev != null && prev != v
      requires v.modifiedPages == 0 && prev.indirection == v.indirection ==>
                 prev.Shaped() && prev.pageIds == v.pageIds && prev.pages == v.pages
      requires !(v.modifiedPages == 0 && prev.indirection == v.indirection) ==>
                 forall k :: 0 <= k < |shape.entries| - 1 ==> Apart(shape.entries[k], Last(shape.entries))
      requires 0 < Count(pm.refcounts, v.pageIds[node / PAGE_LENGTH])
      requires Count(pm.refcounts, v.pageIds[node / PAGE_LENGTH]) == 1 ==> v.pageIds[node / PAGE_LENGTH] != pm.zeroPageNo
      modifies v, pm, v.indirection, v.pageIds
      ensures OthersOk(|levels| - |shape.alive|, shape)
      ensures if old(v.modifiedPages == 0 && prev.indirection == v.indirection)
              then fresh(v.indirection) && fresh(v.pageIds)
              else v.indirection == old(v.indirection) && v.pageIds == old(v.pageIds)
      ensures node / PAGE_LENGTH < |Last(shape.tables)| && v.pageIds != null && node / PAGE_LENGTH < v.pageIds.Length
      ensures v.indirection != null
      ensures LevelOk(v, |levels| - 1, Last(shape.sizes),
                      Last(WithSlot(shape.tables, node / PAGE_LENGTH, v.pageIds[node / PAGE_LENGTH])),
                      Entry(v.indirection, v.pageIds))
      ensures pm.Wf() && pm.ZeroSafe() && pm.zeroPageNo == old(pm.zeroPageNo)
      ensures old(v.modifiedPages) <= v.modifiedPages
      ensures var wp := node / PAGE_LENGTH;
              || WrittenInPlace(old(pm.pages), old(pm.refcounts), pm.pages, pm.refcounts, Last(shape.tables)[wp],
                                v.pageIds[wp], node % PAGE_LENGTH, value)
              || WrittenToCopy(old(pm.pages), old(pm.refcounts), pm.pages, pm.refcounts, Last(shape.tables)[wp],
                               v.pageIds[wp], node % PAGE_LENGTH, value)
    {
      hide Manager.Wf, WrittenInPlace, WrittenToCopy;
      ghost var n := |shape.alive| - 1;
      assert Last(shape.tables) == shape.tables[n] && Last(shape.entries) == shape.entries[n];
      v.CowWrite(pm, prev, node, value);
      forall k | 0 <= k < n
        ensures LevelOk(shape.alive[k], |levels| - |shape.alive| + k, shape.sizes[k], shape.tables[k], shape.entries[k])
      {
        assert old(LevelOk(shape.alive[k], |levels| - |shape.alive| + k, shape.sizes[k], shape.tables[k], shape.entries[k]));
      }
    }

    /** delete_level, for the oldest level: its pages are released, and its tables are freed unless
        the next level still uses them. */
    method DeleteLevel(level: nat)
      requires Valid() && Legal(Contents(), DeleteOldest) && level == Contents().deleted
      modifies Repr
      ensures Valid() && Repr == old(Repr)
      ensures |levels| == |old(levels)| && levels == old(levels)[level := null]
      ensures Contents() == Step(old(Contents()), DeleteOldest)
    {
      hide Manager.Wf, Manager.ZeroSafe, LevelsOk, PoolOk, ViewOf, TablesOk, Step, SharingOk, LevelOk, Legal, Placed;
      var freed := Release(level);
      PlacedPop(levels, shape, freed);
      levels := levels[level := null];
      shape := shape.Pop(freed);
    }

    /** The destructor of the oldest level, and the tables it frees. */
    method Release(level: nat) returns (ghost freed: set<array<nat>>)
      requires Valid() && Legal(Contents(), DeleteOldest) && level == Contents().deleted
      modifies pm
      ensures 1 < |shape.alive| && level == |levels| - |shape.alive|
      ensures pm.Wf() && pm.ZeroSafe()
      ensures Consistent(level + 1, shape.Pop(freed), pm.pages, pm.refcounts, pm.zeroPageNo,
                         Step(old(Contents()), DeleteOldest))
    {
      hide Manager.Wf, Manager.ZeroSafe, LosesZero, LevelsOk, PoolOk, ViewOf, TablesOk, Step, SharingOk, LevelOk, Legal;
      LegalDelete(|levels| - |shape.alive|, shape.sizes, shape.tables, pm.pages, pm.refcounts, pm.zeroPageNo);
      DeleteReady(level, shape);
      assert levels[level + 0] == shape.alive[0] && levels[level + 1] == shape.alive[1];
      var l, next := levels[level], levels[level + 1];
      var prev := if level > 0 then levels[level - 1] else null;
      DeleteKeepsZeroPage(shape.tables, pm.pages, pm.refcounts, pm.zeroPageNo);
      var freeIndirection, freePageIds := l.Destroy(pm, prev, next);
      DeleteView(level, shape.sizes, shape.tables, old(pm.pages), old(pm.refcounts), pm.zeroPageNo, pm.pages, pm.refcounts);
      SharingDelete(shape.entries, shape.heap);
      freed := (if freeIndirection then {l.indirection} else {}) + (if freePageIds then {l.pageIds} else {});
      assert freed == if shape.entries[0].pageIds == shape.entries[1].pageIds then {}
                      else {shape.entries[0].indirection, shape.entries[0].pageIds};
      LevelsPop(level, shape, freed);
    }

    /** keep_only_recent_levels */
    method KeepOnlyRecentLevels(keep: nat)
      requires Valid() && 0 < keep
      modifies Repr
      ensures Valid() && Repr == old(Repr) && |levels| == |old(levels)|
      ensures var view := old(Contents());
              var dropped := if |view.live| <= keep then 0 else |view.live| - keep;
              Contents() == Dropped(view, dropped)
    {
      hide Manager.Wf, Layout, Valid, Contents, Legal, Step, Dropped;
      ghost var view := Contents();
      ghost var dropped := 0;
      var l := 0;
      ContentsShape();
      DroppedShape(view, 0);
      while l + keep < |levels|
        invariant Valid() && Repr == old(Repr) && |levels| == |old(levels)|
        invariant dropped <= |view.live|
        invariant Contents() == Dropped(view, dropped)
        invariant dropped == if l <= view.deleted then 0 else l - view.deleted
        invariant l == 0 || l + keep <= |levels|
      {
        ContentsShape();
        DroppedShape(view, dropped);
        if levels[l] != null {
          DroppedNext(view, dropped);
          DeleteLevel(l);
          dropped := dropped + 1;
        }
        l := l + 1;
      }
      ContentsShape();
      DroppedShape(view, dropped);
    }

    /** What Valid says of the pool in every reachable state: counts are numbers of (level, slot) pairs,
        free pages are not counted, the zero page is zero and not free; so a page with one reference
        is in one slot only.  Unless the zero page is page 0, every page no slot names is free. */
    lemma PoolAccounts(k: nat, a: nat, j: nat, b: nat)
      requires Valid()
      ensures forall p: nat :: Count(pm.refcounts, p) == Holders(shape.tables)[p]
      ensures Distinct(pm.freeList) && forall p: nat :: p in pm.freeList ==> Count(pm.refcounts, p) == 0
      ensures pm.zeroPageNo != 0 ==>
                forall p: nat :: p in pm.freeList <==> p < pm.numPages && Holders(shape.tables)[p] == 0
      ensures pm.zeroPageNo != NO_PAGE ==> pm.zeroPageNo !in pm.freeList && 0 <= pm.zeroPageNo < |pm.pages| && pm.pages[pm.zeroPageNo] == ZERO
      ensures k < |shape.tables| && a < |shape.tables[k]| && Count(pm.refcounts, shape.tables[k][a]) == 1
              && j < |shape.tables| && b < |shape.tables[j]| && !(j == k && b == a)
              ==> shape.tables[j][b] != shape.tables[k][a]
    {
      if k < |shape.tables| && a < |shape.tables[k]| {
        HeldSlot(pm.refcounts, shape.tables, k, a);
      }
    }

    lemma LevelSize(k: nat)
      requires Valid() && Contents().deleted <= k < Contents().deleted + |Contents().live|
      ensures k < |levels| && levels[k] != null && levels[k].size == Contents().live[k - Contents().deleted].size
    {
      var j := k - (|levels| - |shape.alive|);
      assert levels[(|levels| - |shape.alive|) + j] == shape.alive[j];
      LevelAt(|levels| - |shape.alive|, shape, j);
    }

    lemma ContentsShape()
      requires Valid()
      ensures |Contents().live| == |shape.alive| && |levels| == Contents().deleted + |Contents().live|
      ensures forall k :: 0 <= k < |levels| ==> (levels[k] == null <==> k < Contents().deleted)
      ensures |Contents().live| > 1 ==> Legal(Contents(), DeleteOldest)
    {
      forall k | 0 <= k < |levels| ensures levels[k] == null <==> k < Contents().deleted {
        assert k >= Contents().deleted ==> levels[k] == shape.alive[k - (|levels| - |shape.alive|)];
      }
    }
  }

  function Last<T>(s: seq<T>): T
    requires s != []
  {
    s[|s| - 1]
  }

  // ---------------------------------------------------------------- whole runs

  /** Snapshot isolation: once a newer level exists, a level reads the same after every further
      operation, until it is deleted. */
  lemma {:induction false} FrozenLevel(view: View, ops: seq<Op>, k: nat)
    requires LegalRun(view, ops) && view.deleted <= k < view.deleted + |view.live| - 1
    ensures var after := SpecRun(view, ops);
            && after.deleted + |after.live| >= view.deleted + |view.live|
            && (k < after.deleted || after.live[k - after.deleted] == view.live[k - view.deleted])
    decreases ops
  {
    if ops != [] {
      var next := Step(view, ops[0]);
      if next.deleted <= k {
        assert next.live[k - next.deleted] == view.live[k - view.deleted];
        FrozenLevel(next, ops[1..], k);
      } else {
        DeletedStays(next, ops[1..]);
      }
    }
  }

  lemma {:induction false} DeletedStays(view: View, ops: seq<Op>)
    requires LegalRun(view, ops)
    ensures view.deleted <= SpecRun(view, ops).deleted
    ensures view.deleted + |view.live| <= SpecRun(view, ops).deleted + |SpecRun(view, ops).live|
    decreases ops
  {
    if ops != [] {
      DeletedStays(Step(view, ops[0]), ops[1..]);
    }
  }

  /** Every run from the empty collection, followed by a read: the value is the one the private
      copies of the specification hold, whatever pages and tables the levels share. */
  method RunAndRead(ops: seq<Op>, k: nat, node: nat) returns (value: int)
    requires LegalRun(View(0, []), ops)
    requires var view := SpecRun(View(0, []), ops);
             view.deleted <= k < view.deleted + |view.live| && node <= view.live[k - view.deleted].size
    ensures var view := SpecRun(View(0, []), ops);
            && node < |view.live[k - view.deleted].data|
            && value == view.live[k - view.deleted].data[node]
    ensures value == LastWrite(ops, k + 1, node)
  {
    hide Collection.Layout, Collection.Valid, Collection.Contents, Manager.Wf, Step, Legal, LegalRun, SpecRun;
    RunNone(ops);
    var c := new Collection();
    var oldest := 0;
    ghost var goal := SpecRun(View(0, []), ops);
    for i := 0 to |ops|
      invariant c.Valid() && fresh(c.Repr)
      invariant oldest == c.Contents().deleted
      invariant LegalRun(c.Contents(), ops[i..]) && SpecRun(c.Contents(), ops[i..]) == goal
    {
      ghost var view := c.Contents();
      RunNext(view, ops, i);
      DeletedBy(view, ops[i]);
      match ops[i] {
        case NewLevel(size) => c.InitLevel(size);
        case Write(n, v) => c.Write(n, v);
        case DeleteOldest =>
          c.DeleteLevel(oldest);
          oldest := oldest + 1;
      }
    }
    RunEnd(c.Contents(), ops);
    c.ContentsShape();
    c.LevelSize(k);
    value := c.Get(k, node);
    LevelRead(ops, goal, k, node);
  }

  lemma LevelRead(ops: seq<Op>, view: View, k: nat, node: nat)
    requires LegalRun(View(0, []), ops) && view == SpecRun(View(0, []), ops)
    requires view.deleted <= k < view.deleted + |view.live| && node < |view.live[k - view.deleted].data|
    ensures view.live[k - view.deleted].data[node] == LastWrite(ops, k + 1, node)
  {
    hide LegalRun, SpecRun, LastWrite, Sizes;
    RunMeans(ops);
    assert LevelMeans(ops, k, Sizes(ops)[k], view.live[k - view.deleted]);
  }

  lemma RunNone(ops: seq<Op>)
    ensures ops[0..] == ops
  {
  }

  lemma RunNext(view: View, ops: seq<Op>, i: nat)
    requires i < |ops| && LegalRun(view, ops[i..])
    ensures Legal(view, ops[i]) && LegalRun(Step(view, ops[i]), ops[i + 1..])
    ensures SpecRun(Step(view, ops[i]), ops[i + 1..]) == SpecRun(view, ops[i..])
  {
    assert ops[i..][0] == ops[i] && ops[i..][1..] == ops[i + 1..];
  }

  lemma RunEnd(view: View, ops: seq<Op>)
    requires LegalRun(view, ops[|ops|..])
    ensures SpecRun(view, ops[|ops|..]) == view
  {
  }

  lemma DeletedBy(view: View, op: Op)
    requires Legal(view, op)
    ensures Step(view, op).deleted == view.deleted + if op.DeleteOldest? then 1 else 0
  {
  }
}
