/** The software copy-on-write vertex array ll_mem_array_swcow and its collection of levels
    (llama/include/llama/ll_mem_array.h), run sequentially over one page pool. */
module SwcowArray {
  import opened PageManager

  function PagesFor(size: nat): nat {
    (size + 4) / PAGE_LENGTH + if (size + 4) % PAGE_LENGTH > 0 then 1 else 0
  }

  // ---------------------------------------------------------------- who holds a page

  /** The (level, slot) pairs naming each page, as a multiset of page numbers. */
  ghost function Holders(tables: seq<seq<nat>>): multiset<nat> {
    if tables == [] then multiset{}
    else Holders(tables[..|tables| - 1]) + multiset(tables[|tables| - 1])
  }

  lemma {:induction false} HoldersUpdate(tables: seq<seq<nat>>, k: nat, table: seq<nat>)
    requires k < |tables|
    ensures Holders(tables[k := table]) + multiset(tables[k]) == Holders(tables) + multiset(table)
  {
    var n := |tables| - 1;
    var updated := tables[k := table];
    if k == n {
      assert updated[..n] == tables[..n];
    } else {
      HoldersUpdate(tables[..n], k, table);
      assert updated[..n] == tables[..n][k := table] && updated[n] == tables[n] && tables[..n][k] == tables[k];
      calc {
        Holders(updated) + multiset(tables[k]);
        (Holders(tables[..n][k := table]) + multiset(tables[n])) + multiset(tables[k]);
        (Holders(tables[..n][k := table]) + multiset(tables[k])) + multiset(tables[n]);
        (Holders(tables[..n]) + multiset(table)) + multiset(tables[n]);
        Holders(tables) + multiset(table);
      }
    }
  }

  lemma {:induction false} HoldersAppend(tables: seq<seq<nat>>, table: seq<nat>)
    ensures Holders(tables + [table]) == Holders(tables) + multiset(table)
  {
    assert (tables + [table])[..|tables|] == tables;
  }

  lemma {:induction false} HolderCounts(tables: seq<seq<nat>>, k: nat)
    requires k < |tables|
    ensures multiset(tables[k]) <= Holders(tables)
  {
    var n := |tables| - 1;
    if k < n {
      HolderCounts(tables[..n], k);
    }
  }

  /** Two different levels naming a page account for the sum of their references to it. */
  lemma {:induction false} HoldersOfTwo(tables: seq<seq<nat>>, i: nat, j: nat)
    requires i < j < |tables|
    ensures multiset(tables[i]) + multiset(tables[j]) <= Holders(tables)
  {
    var n := |tables| - 1;
    if j < n {
      HoldersOfTwo(tables[..n], i, j);
    } else {
      HolderCounts(tables[..n], i);
    }
  }

  lemma SlotsOfOne(table: seq<nat>, a: nat, b: nat)
    requires a < b < |table| && table[a] == table[b]
    ensures 2 <= multiset(table)[table[a]]
  {
    assert table == table[..a] + [table[a]] + table[a + 1..b] + [table[b]] + table[b + 1..];
    assert multiset(table) == multiset(table[..a]) + multiset{table[a]} + multiset(table[a + 1..b])
                              + multiset{table[b]} + multiset(table[b + 1..]);
  }

  lemma WholeSlice(a: seq<nat>, n: nat)
    requires |a| == n
    ensures a[0..n] == a
  {
  }

  /** A slice whose first part kept what an earlier table held there. */
  lemma JoinSlots(before: seq<nat>, table: seq<nat>, start: nat, mid: nat, end: nat)
    requires start <= mid <= end <= |table| && mid <= |before| && table[..mid] == before[..mid]
    ensures table[start..end] == before[start..mid] + table[mid..end]
    ensures multiset(table[start..end]) == multiset(before[start..mid]) + multiset(table[mid..end])
  {
    assert table[start..mid] == table[..mid][start..] == before[..mid][start..] == before[start..mid];
    assert table[start..end] == table[start..mid] + table[mid..end];
  }

  /** Every occurrence in "ids" took one reference, and no page that was held changed. */
  ghost predicate Acquired(pages: seq<Page>, refs: seq<int>, pages': seq<Page>, refs': seq<int>, ids: seq<nat>) {
    && |pages| <= |pages'|
    && (forall p: nat :: Count(refs', p) == Count(refs, p) + multiset(ids)[p])
    && (forall p: nat :: p < |pages| && 0 < Count(refs, p) ==> pages'[p] == pages[p])
  }

  lemma AcquiredTwice(p0: seq<Page>, r0: seq<int>, p1: seq<Page>, r1: seq<int>, p2: seq<Page>, r2: seq<int>,
                      a: seq<nat>, b: seq<nat>, c: seq<nat>)
    requires Acquired(p0, r0, p1, r1, a) && Acquired(p1, r1, p2, r2, b)
    requires multiset(c) == multiset(a) + multiset(b)
    ensures Acquired(p0, r0, p2, r2, c)
  {
  }

  /** The table dense_init gives a level: fresh zeroed pages. */
  ghost predicate DenseTable(table: seq<nat>, pages: seq<Page>) {
    forall i :: 0 <= i < |table| ==> table[i] < |pages| && pages[table[i]] == ZERO
  }

  // ---------------------------------------------------------------- one level

  /** A memcpy of slots. */
  method CopyRange(from: array<nat>, to: array<nat>, start: nat, end: nat)
    requires start <= end <= from.Length && end <= to.Length && from != to
    modifies to
    ensures to[..][start..end] == from[..][start..end] && to[..][..start] == old(to[..][..start])
  {
    forall i | start <= i < end { to[i] := from[i]; }
    assert forall i :: start <= i < end ==> to[..][i] == from[..][i];
  }

  method FillRange(to: array<nat>, start: nat, end: nat, id: nat)
    requires start <= end <= to.Length
    modifies to
    ensures to[..][start..end] == Repeat(id, end - start) && to[..][..start] == old(to[..][..start])
  {
    for i := start to end
      invariant forall k :: start <= k < i ==> to[k] == id
      invariant forall k :: 0 <= k < start ==> to[k] == old(to[k])
    {
      to[i] := id;
    }
  }

  /** Slots start..end of a table that continues a table of "mp" pages with the zero page. */
  ghost function CopiedIds(prev: seq<nat>, mp: nat, zeroPage: int, start: nat, end: nat): seq<int>
    requires |prev| == mp + 1 && start <= end
  {
    if end <= mp then prev[start..end]
    else (if start < mp then prev[start..mp] else []) + Repeat(zeroPage, end - if start < mp then mp else start)
  }

  lemma CopiedBeyond(prev: seq<nat>, mp: nat, zeroPage: int, start: nat, end: nat)
    requires |prev| == mp + 1 && start < mp < end
    ensures CopiedIds(prev, mp, zeroPage, start, end) == prev[start..mp] + Repeat(zeroPage, end - mp)
  {
  }

  class VertexArray {
    const level: nat
    const size: nat
    const pages: nat
    var indirection: array?<nat>
    var pageIds: array?<nat>
    var modifiedPages: nat

    constructor (level: nat, size: nat)
      ensures this.level == level && this.size == size && pages == PagesFor(size)
      ensures size + 4 <= pages * PAGE_LENGTH < size + 4 + PAGE_LENGTH
      ensures indirection == null && pageIds == null && modifiedPages == 0
    {
      this.level, this.size := level, size;
      pages := PagesFor(size);
      indirection, pageIds, modifiedPages := null, null, 0;
    }

    /** The two tables exist, have one slot past the last page, and agree. */
    ghost predicate Shaped()
      reads this, indirection, pageIds
    {
      HasTables() && indirection[..] == pageIds[..]
    }

    ghost predicate HasTables()
      reads this
    {
      && indirection != null && pageIds != null && indirection != pageIds
      && indirection.Length == pages + 1 && pageIds.Length == pages + 1
    }

    /** dense_init */
    method DenseInit(pm: Manager)
      requires indirection == null && pageIds == null
      requires pm.Wf() && pm.ZeroSafe()
      modifies this, pm
      ensures Shaped() && fresh(indirection) && fresh(pageIds)
      ensures modifiedPages == pages + 1
      ensures pm.Wf() && pm.ZeroSafe()
      ensures pm.zeroPageNo == old(pm.zeroPageNo)
      ensures DenseTable(pageIds[..], pm.pages)
      ensures Acquired(old(pm.pages), old(pm.refcounts), pm.pages, pm.refcounts, pageIds[..])
    {
      hide Manager.Wf, Manager.ZeroSafe;
      modifiedPages := pages + 1;
      var ids := pm.AllocateRange(pages + 1);
      indirection := new nat[pages + 1](i requires 0 <= i < |ids| => ids[i]);
      pageIds := new nat[pages + 1](i requires 0 <= i < |ids| => ids[i]);
      assert pageIds[..] == ids;
      assert forall i :: 0 <= i < |ids| ==> ids[i] in ids;
    }

    /** The two memcpy calls of copy_indirection_range, with the acquisition of what they copied. */
    method CopySlots(pm: Manager, prev: VertexArray, start: nat, end: nat)
      requires HasTables() && start <= end <= pages + 1 && end <= prev.pages + 1
      requires prev.Shaped() && {prev.indirection, prev.pageIds} !! {indirection, pageIds}
      requires pm.Wf() && pm.ZeroSafe()
      requires forall p :: p in prev.pageIds[..] ==> 0 < Count(pm.refcounts, p)
      modifies pm`refcounts, indirection, pageIds
      ensures pm.Wf() && pm.ZeroSafe()
      ensures indirection[..][start..end] == pageIds[..][start..end] == prev.pageIds[..][start..end]
      ensures indirection[..][..start] == old(indirection[..][..start]) && pageIds[..][..start] == old(pageIds[..][..start])
      ensures Acquired(old(pm.pages), old(pm.refcounts), pm.pages, pm.refcounts, pageIds[..][start..end])
    {
      hide Manager.Wf, Manager.ZeroSafe;
      CopyRange(prev.indirection, indirection, start, end);
      CopyRange(prev.pageIds, pageIds, start, end);
      Acquire(pm, pageIds[..][start..end]);
    }

    /** The middle branch of copy_indirection_range. */
    method CopyThenFill(pm: Manager, prev: VertexArray, start: nat, mp: nat, end: nat)
      requires start < mp == prev.pages < end
      requires HasTables() && start <= end <= pages + 1
      requires prev.Shaped() && {prev.indirection, prev.pageIds} !! {indirection, pageIds}
      requires pm.Wf() && pm.ZeroSafe()
      requires forall p :: p in prev.pageIds[..] ==> 0 < Count(pm.refcounts, p)
      modifies pm, indirection, pageIds
      ensures indirection[..][start..end] == pageIds[..][start..end]
      ensures start < end && prev.pages < end ==> pm.zeroPageNo != NO_PAGE
      ensures pageIds[..][start..end] == CopiedIds(prev.pageIds[..], prev.pages, pm.zeroPageNo, start, end)
      ensures old(pm.zeroPageNo) != NO_PAGE ==> pm.zeroPageNo == old(pm.zeroPageNo)
      ensures pm.Wf() && pm.ZeroSafe()
      ensures Acquired(old(pm.pages), old(pm.refcounts), pm.pages, pm.refcounts, pageIds[..][start..end])
    {
      hide Manager.Wf, Manager.ZeroSafe, Acquired, CopiedIds;
      CopySlots(pm, prev, start, mp);
      ghost var ids, table := pageIds[..], indirection[..];
      ghost var pages1, refs1 := pm.pages, pm.refcounts;
      FillWithZeroPage(pm, mp, end);
      JoinSlots(ids, pageIds[..], start, mp, end);
      JoinSlots(table, indirection[..], start, mp, end);
      CopiedBeyond(prev.pageIds[..], mp, pm.zeroPageNo, start, end);
      AcquiredTwice(old(pm.pages), old(pm.refcounts), pages1, refs1, pm.pages, pm.refcounts,
                    ids[start..mp], pageIds[..][mp..end], pageIds[..][start..end]);
    }

    /** copy_indirection_range, into tables of our own: the slots the previous level has a page
        for name that page, and the others the zero page. */
    method CopyIndirectionRange(pm: Manager, prev: VertexArray, start: nat, end: nat)
      requires HasTables() && start <= end <= pages + 1
      requires prev.Shaped() && {prev.indirection, prev.pageIds} !! {indirection, pageIds}
      requires pm.Wf() && pm.ZeroSafe()
      requires forall p :: p in prev.pageIds[..] ==> 0 < Count(pm.refcounts, p)
      modifies pm, indirection, pageIds
      ensures indirection[..][start..end] == pageIds[..][start..end]
      ensures start < end && prev.pages < end ==> pm.zeroPageNo != NO_PAGE
      ensures pageIds[..][start..end] == CopiedIds(prev.pageIds[..], prev.pages, pm.zeroPageNo, start, end)
      ensures old(pm.zeroPageNo) != NO_PAGE ==> pm.zeroPageNo == old(pm.zeroPageNo)
      ensures pm.Wf() && pm.ZeroSafe()
      ensures Acquired(old(pm.pages), old(pm.refcounts), pm.pages, pm.refcounts, pageIds[..][start..end])
    {
      if end <= start {
        return;
      }
      var mp := prev.pages;
      if end <= mp {
        CopySlots(pm, prev, start, end);
      } else if start < mp {
        CopyThenFill(pm, prev, start, mp, end);
      } else {
        FillWithZeroPage(pm, start, end);
      }
    }

    /** The common tail of the last two branches of copy_indirection_range. */
    method FillWithZeroPage(pm: Manager, start: nat, end: nat)
      requires HasTables() && start < end <= pages + 1
      requires pm.Wf() && pm.ZeroSafe()
      modifies pm, indirection, pageIds
      ensures pm.Wf() && pm.ZeroSafe()
      ensures indirection[..][start..end] == pageIds[..][start..end]
      ensures pm.zeroPageNo != NO_PAGE && pageIds[..][start..end] == Repeat(pm.zeroPageNo, end - start)
      ensures indirection[..][..start] == old(indirection[..][..start]) && pageIds[..][..start] == old(pageIds[..][..start])
      ensures old(pm.zeroPageNo) != NO_PAGE ==> pm.zeroPageNo == old(pm.zeroPageNo)
      ensures Acquired(old(pm.pages), old(pm.refcounts), pm.pages, pm.refcounts, pageIds[..][start..end])
    {
      var zp := pm.ZeroPage(end - start);
      FillRange(indirection, start, end, zp);
      FillRange(pageIds, start, end, zp);
      ConstantCounts(pageIds[..][start..end], zp);
    }

    /** cow_init: share both tables of the previous level unless this level has more pages. */
    method CowInit(pm: Manager, prev: VertexArray)
      requires indirection == null && pageIds == null && prev != this && prev.Shaped()
      requires pm.Wf() && pm.ZeroSafe()
      requires forall p :: p in prev.pageIds[..] ==> 0 < Count(pm.refcounts, p)
      modifies this, pm
      ensures modifiedPages == 0 && indirection != null && pageIds != null && pages < pageIds.Length
      ensures if pages <= prev.pages then indirection == prev.indirection && pageIds == prev.pageIds
              else fresh(indirection) && fresh(pageIds)
      ensures prev.pages <= pages ==> Shaped()
      ensures pm.Wf() && pm.ZeroSafe()
      ensures prev.pages < pages ==> pm.zeroPageNo != NO_PAGE
      ensures prev.pages < pages ==>
                pageIds[..] == CopiedIds(prev.pageIds[..], prev.pages, pm.zeroPageNo, 0, pages + 1)
      ensures pages <= prev.pages || old(pm.zeroPageNo) != NO_PAGE ==> pm.zeroPageNo == old(pm.zeroPageNo)
      ensures Acquired(old(pm.pages), old(pm.refcounts), pm.pages, pm.refcounts, pageIds[..pages + 1])
    {
      hide Manager.Wf, Manager.ZeroSafe, Acquired;
      modifiedPages := 0;
      if pages <= prev.pages {
        indirection := prev.indirection;
        pageIds := prev.pageIds;
        Acquire(pm, pageIds[..pages + 1]);
      } else {
        indirection := new nat[pages + 1];
        pageIds := new nat[pages + 1];
        CopyIndirectionRange(pm, prev, 0, pages + 1);
        WholeSlice(pageIds[..], pages + 1);
        WholeSlice(indirection[..], pages + 1);
        assert pageIds[..pages + 1] == pageIds[..];
      }
    }

    /** The acquisition of pages that are already held. */
    method Acquire(pm: Manager, ids: seq<nat>)
      requires pm.Wf() && pm.ZeroSafe()
      requires forall p :: p in ids ==> 0 < Count(pm.refcounts, p)
      modifies pm`refcounts
      ensures pm.Wf() && pm.ZeroSafe()
      ensures Acquired(old(pm.pages), old(pm.refcounts), pm.pages, pm.refcounts, ids)
    {
      hide PoolWf;
      pm.AcquirePages(ids);
    }

    /** The first step of cow_write: stop sharing the tables of the previous level. */
    method Unshare(prev: VertexArray)
      requires Shaped() && prev != this
      requires prev.indirection == indirection ==>
                 prev.Shaped() && prev.pageIds == pageIds && prev.pages == pages
      modifies this
      ensures Shaped() && modifiedPages == old(modifiedPages)
      ensures pageIds[..] == old(pageIds[..])
      ensures if old(prev.indirection == indirection) then fresh(indirection) && fresh(pageIds)
              else indirection == old(indirection) && pageIds == old(pageIds)
    {
      if indirection == prev.indirection {
        var table := new nat[pages + 1];
        var ids := new nat[pages + 1];
        forall i | 0 <= i < pages + 1 { table[i] := prev.indirection[i]; }
        forall i | 0 <= i < pages + 1 { ids[i] := prev.pageIds[i]; }
        assert table[..] == prev.indirection[..];
        assert ids[..] == prev.pageIds[..];
        indirection, pageIds := table, ids;
      }
    }

    /** cow_write: take private copies of the tables at the first write, then write in place when
        this slot is the only holder of its page, and into a private copy of the page otherwise. */
    method CowWrite(pm: Manager, prev: VertexArray?, node: nat, value: int)
      requires Shaped() && node <= size && pages == PagesFor(size)
      requires pm.Wf() && pm.ZeroSafe()
      requires modifiedPages == 0 ==> prev != null && prev != this
      requires modifiedPages == 0 && prev.indirection == indirection ==>
                 prev.Shaped() && prev.pageIds == pageIds && prev.pages == pages
      requires 0 < Count(pm.refcounts, pageIds[node / PAGE_LENGTH])
      requires Count(pm.refcounts, pageIds[node / PAGE_LENGTH]) == 1 ==> pageIds[node / PAGE_LENGTH] != pm.zeroPageNo
      modifies this, pm, indirection, pageIds
      ensures Shaped()
      ensures if old(modifiedPages == 0 && prev.indirection == indirection)
              then fresh(indirection) && fresh(pageIds)
                   && old(pageIds)[..] == old(pageIds[..]) && old(indirection)[..] == old(indirection[..])
              else indirection == old(indirection) && pageIds == old(pageIds)
      ensures pageIds[..] == old(pageIds[..])[node / PAGE_LENGTH := pageIds[node / PAGE_LENGTH]]
      ensures pm.Wf() && pm.ZeroSafe() && pm.zeroPageNo == old(pm.zeroPageNo)
      ensures old(modifiedPages) <= modifiedPages
      ensures old(modifiedPages) == modifiedPages ==>
                WrittenInPlace(old(pm.pages), old(pm.refcounts), pm.pages, pm.refcounts, old(pageIds[node / PAGE_LENGTH]),
                               pageIds[node / PAGE_LENGTH], node % PAGE_LENGTH, value)
      ensures old(modifiedPages) != modifiedPages ==>
                WrittenToCopy(old(pm.pages), old(pm.refcounts), pm.pages, pm.refcounts, old(pageIds[node / PAGE_LENGTH]),
                              pageIds[node / PAGE_LENGTH], node % PAGE_LENGTH, value)
      ensures old(modifiedPages) == modifiedPages <==> Count(old(pm.refcounts), old(pageIds[node / PAGE_LENGTH])) == 1
    {
      hide Manager.Wf, Manager.ZeroSafe, WrittenInPlace, WrittenToCopy;
      if modifiedPages == 0 {
        Unshare(prev);
      }
      WriteSlot(pm, node / PAGE_LENGTH, node % PAGE_LENGTH, value);
    }

    /** cow_write, in tables of our own. */
    method WriteSlot(pm: Manager, wp: nat, wi: nat, value: int)
      requires Shaped() && wp <= pages && wi < PAGE_LENGTH
      requires pm.Wf() && pm.ZeroSafe()
      requires 0 < Count(pm.refcounts, pageIds[wp])
      requires Count(pm.refcounts, pageIds[wp]) == 1 ==> pageIds[wp] != pm.zeroPageNo
      modifies `modifiedPages, pm, indirection, pageIds
      ensures Shaped() && pageIds[..] == old(pageIds[..])[wp := pageIds[wp]]
      ensures pm.Wf() && pm.ZeroSafe() && pm.zeroPageNo == old(pm.zeroPageNo)
      ensures modifiedPages == old(modifiedPages) + if Count(old(pm.refcounts), old(pageIds[wp])) == 1 then 0 else 1
      ensures Count(old(pm.refcounts), old(pageIds[wp])) == 1 ==>
                WrittenInPlace(old(pm.pages), old(pm.refcounts), pm.pages, pm.refcounts, old(pageIds[wp]), pageIds[wp], wi, value)
      ensures Count(old(pm.refcounts), old(pageIds[wp])) != 1 ==>
                WrittenToCopy(old(pm.pages), old(pm.refcounts), pm.pages, pm.refcounts, old(pageIds[wp]), pageIds[wp], wi, value)
    {
      hide Manager.Wf, Manager.ZeroSafe;
      var page, id := indirection[wp], pageIds[wp];
      assert page == indirection[..][wp] == pageIds[..][wp] == id;
      if pm.refcounts[id] == 1 {
        pm.Store(page, wi, value);
      } else {
        var copy := pm.Cow(id);
        pageIds[wp], indirection[wp] := copy, copy;
        modifiedPages := modifiedPages + 1;
        pm.Store(indirection[wp], wi, value);
      }
    }

    /** The destructor: release the pages, and tell which of the two tables are to be freed, that
        is, which are shared neither with the previous level nor with the next. */
    method Destroy(pm: Manager, prev: VertexArray?, next: VertexArray?)
      returns (freeIndirection: bool, freePageIds: bool)
      requires Shaped() && pm.Wf()
      requires forall p: nat :: multiset(pageIds[..])[p] <= Count(pm.refcounts, p)
      modifies pm
      ensures pm.Wf() && pm.zeroPageNo == old(pm.zeroPageNo)
      ensures old(pm.ZeroSafe()) ==> (pm.ZeroSafe() <==> !LosesZero(pm.zeroPageNo, old(pm.refcounts), pageIds[..]))
      ensures |pm.pages| == |old(pm.pages)|
      ensures forall p: nat :: Count(pm.refcounts, p) == Count(old(pm.refcounts), p) - multiset(pageIds[..])[p]
      ensures forall p :: 0 <= p < |pm.pages| && 0 < Count(pm.refcounts, p) ==> pm.pages[p] == old(pm.pages)[p]
      ensures freeIndirection <==> (prev == null || prev.indirection != indirection) && (next == null || next.indirection != indirection)
      ensures freePageIds <==> (prev == null || prev.pageIds != pageIds) && (next == null || next.pageIds != pageIds)
    {
      hide Manager.Wf, Manager.ZeroSafe, LosesZero;
      pm.ReleasePages(pageIds[..]);
      freeIndirection, freePageIds := true, true;
      if prev != null {
        if indirection == prev.indirection { freeIndirection := false; }
        if pageIds == prev.pageIds { freePageIds := false; }
      }
      if next != null {
        if indirection == next.indirection { freeIndirection := false; }
        if pageIds == next.pageIds { freePageIds := false; }
      }
    }
  }

  /** The write reached page "id" itself, of which this slot was the only holder. */
  ghost predicate WrittenInPlace(pages: seq<Page>, refs: seq<int>, pages': seq<Page>, refs': seq<int>, id: nat, id': nat, wi: nat, value: int)
    requires wi < PAGE_LENGTH
  {
    && id < |pages| && id' == id && refs' == refs && Count(refs, id) == 1
    && pages' == pages[id := pages[id][wi := value]]
  }

  /** The write reached a new page, a copy of page "id" otherwise, which lost one holder. */
  ghost predicate WrittenToCopy(pages: seq<Page>, refs: seq<int>, pages': seq<Page>, refs': seq<int>, id: nat, id': nat, wi: nat, value: int)
    requires wi < PAGE_LENGTH
  {
    && |pages| <= |pages'| && id < |pages| && id' < |pages'| && id != id'
    && pages'[id'] == pages[id][wi := value]
    && (forall p :: 0 <= p < |pages| && p != id' ==> pages'[p] == pages[p])
    && 1 < Count(refs, id) && Count(refs, id') == 0
    && Count(refs', id') == 1 && Count(refs', id) == Count(refs, id) - 1
    && (forall p: nat :: p != id && p != id' ==> Count(refs', p) == Count(refs, p))
  }

  lemma ConstantCounts(s: seq<nat>, v: nat)
    requires forall i :: 0 <= i < |s| ==> s[i] == v
    ensures forall p: nat :: multiset(s)[p] == if p == v then |s| else 0
  {
    if s != [] {
      assert s == s[..|s| - 1] + [v];
      ConstantCounts(s[..|s| - 1], v);
    }
  }

  // ---------------------------------------------------------------- what a level reads as

  ghost predicate InPool(table: seq<nat>, pages: seq<Page>) {
    forall i :: 0 <= i < |table| ==> table[i] < |pages|
  }

  /** The words a table gives access to, its extra slot left out. */
  ghost function Flatten(table: seq<nat>, pages: seq<Page>): (data: seq<int>)
    requires table != [] && InPool(table, pages)
    ensures |data| == (|table| - 1) * PAGE_LENGTH
  {
    seq((|table| - 1) * PAGE_LENGTH, i requires 0 <= i < (|table| - 1) * PAGE_LENGTH =>
      pages[table[i / PAGE_LENGTH]][i % PAGE_LENGTH])
  }

  lemma FlattenFrame(table: seq<nat>, pages: seq<Page>, pages': seq<Page>)
    requires table != [] && InPool(table, pages) && |pages| <= |pages'|
    requires forall i :: 0 <= i < |table| ==> pages'[table[i]] == pages[table[i]]
    ensures InPool(table, pages') && Flatten(table, pages') == Flatten(table, pages)
  {
  }

  /** A write that changes one word of the page in slot "wp", in place or in a copy. */
  lemma FlattenWrite(table: seq<nat>, pages: seq<Page>, table': seq<nat>, pages': seq<Page>, node: nat, value: int)
    requires node / PAGE_LENGTH < |table| - 1 && |table'| == |table|
    requires InPool(table, pages) && InPool(table', pages')
    requires forall i :: 0 <= i < |table| && i != node / PAGE_LENGTH ==> pages'[table'[i]] == pages[table[i]]
    requires pages'[table'[node / PAGE_LENGTH]] == pages[table[node / PAGE_LENGTH]][node % PAGE_LENGTH := value]
    ensures node < |Flatten(table, pages)|
    ensures Flatten(table', pages') == Flatten(table, pages)[node := value]
  {
    forall i | 0 <= i < (|table| - 1) * PAGE_LENGTH
      ensures Flatten(table', pages')[i] == Flatten(table, pages)[node := value][i]
    {
      if i / PAGE_LENGTH == node / PAGE_LENGTH {
        assert i != node ==> i % PAGE_LENGTH != node % PAGE_LENGTH;
      }
    }
  }

  lemma FlattenZeroTail(table: seq<nat>, pages: seq<Page>, grown: seq<nat>, pages': seq<Page>)
    requires table != [] && InPool(table, pages) && |table| <= |grown| && InPool(grown, pages')
    requires forall i :: 0 <= i < |table| - 1 ==> pages'[grown[i]] == pages[table[i]]
    requires forall i :: |table| - 1 <= i < |grown| ==> pages'[grown[i]] == ZERO
    ensures Flatten(grown, pages') == Flatten(table, pages) + Repeat(0, (|grown| - |table|) * PAGE_LENGTH)
  {
  }

  // ---------------------------------------------------------------- reference accounting

  ghost predicate Accounts(refs: seq<int>, tables: seq<seq<nat>>) {
    forall p: nat :: Count(refs, p) == Holders(tables)[p]
  }

  /** Every page a level names is held; a count of one means this slot is the only holder. */
  lemma HeldSlot(refs: seq<int>, tables: seq<seq<nat>>, k: nat, a: nat)
    requires Accounts(refs, tables) && k < |tables| && a < |tables[k]|
    ensures 0 < Count(refs, tables[k][a])
    ensures Count(refs, tables[k][a]) == 1 ==>
              forall j, b :: 0 <= j < |tables| && 0 <= b < |tables[j]| && tables[j][b] == tables[k][a] ==>
                j == k && b == a
  {
    var p := tables[k][a];
    assert p in tables[k];
    HolderCounts(tables, k);
    forall j, b | 0 <= j < |tables| && 0 <= b < |tables[j]| && tables[j][b] == p && !(j == k && b == a)
      ensures 2 <= Count(refs, p)
    {
      assert p in tables[j];
      if j == k {
        SlotsOfOne(tables[k], if a < b then a else b, if a < b then b else a);
      } else {
        HoldersOfTwo(tables, if j < k then j else k, if j < k then k else j);
      }
    }
  }

  lemma HeldTable(refs: seq<int>, tables: seq<seq<nat>>, k: nat)
    requires Accounts(refs, tables) && k < |tables|
    ensures forall p :: p in tables[k] ==> 0 < Count(refs, p)
  {
    HolderCounts(tables, k);
  }

  lemma AccountsAppend(refs: seq<int>, refs': seq<int>, tables: seq<seq<nat>>, table: seq<nat>)
    requires Accounts(refs, tables)
    requires forall p: nat :: Count(refs', p) == Count(refs, p) + multiset(table)[p]
    ensures Accounts(refs', tables + [table])
  {
    HoldersAppend(tables, table);
  }

  lemma {:induction false} HoldersDropFirst(tables: seq<seq<nat>>)
    requires tables != []
    ensures Holders(tables) == multiset(tables[0]) + Holders(tables[1..])
  {
    var n := |tables| - 1;
    if n > 0 {
      HoldersDropFirst(tables[..n]);
      assert tables[..n][1..] == tables[1..][..n - 1];
      assert tables[1..][n - 1] == tables[n];
    }
  }

  lemma AccountsRelease(refs: seq<int>, refs': seq<int>, tables: seq<seq<nat>>)
    requires tables != [] && Accounts(refs, tables)
    requires forall p: nat :: Count(refs', p) == Count(refs, p) - multiset(tables[0])[p]
    ensures Accounts(refs', tables[1..])
  {
    HoldersDropFirst(tables);
  }

  lemma AccountsReplace(refs: seq<int>, refs': seq<int>, tables: seq<seq<nat>>, k: nat, a: nat, copy: nat)
    requires k < |tables| && a < |tables[k]| && Accounts(refs, tables) && copy != tables[k][a]
    requires Count(refs', copy) == Count(refs, copy) + 1
    requires Count(refs', tables[k][a]) == Count(refs, tables[k][a]) - 1
    requires forall p: nat :: p != copy && p != tables[k][a] ==> Count(refs', p) == Count(refs, p)
    ensures var table: seq<nat> := tables[k][a := copy]; Accounts(refs', tables[k := table])
  {
    var table: seq<nat> := tables[k][a := copy];
    HoldersUpdate(tables, k, table);
    assert multiset(table) == multiset(tables[k]) - multiset{tables[k][a]} + multiset{copy};
    forall p: nat ensures Count(refs', p) == Holders(tables[k := table])[p] {
      assert (Holders(tables[k := table]) + multiset(tables[k]))[p] == (Holders(tables) + multiset(table))[p];
      assert tables[k][a] in tables[k];
    }
  }
}
