/** The reference-counted page pool of llama/include/llama/ll_page_manager.h.

    A page is a run of PAGE_LENGTH words; a page address is modelled by the page number, since
    page_pointer() is an injective function of it.  The free list is intrusive: the first word of a
    freed page holds the number of the next freed page, and -1 ends the list. */
module PageManager {
  import opened Sequences

  const PAGE_LENGTH: nat := 128
  const ALLOCATION_STEP: nat := 256
  const NO_PAGE: int := -1

  type Page = p: seq<int> | |p| == PAGE_LENGTH witness seq(PAGE_LENGTH, _ => 0)

  function Repeat(x: int, n: nat): (s: seq<int>)
    ensures |s| == n && forall i :: 0 <= i < n ==> s[i] == x
  {
    seq(n, _ => x)
  }

  const ZERO: Page := Repeat(0, PAGE_LENGTH)

  /** The links stored in the pages thread exactly the pages of "chain", starting at "head". */
  ghost predicate Chain(pages: seq<Page>, head: int, chain: seq<nat>)
    decreases chain
  {
    if chain == [] then head == NO_PAGE
    else head == chain[0] && head < |pages| && Chain(pages, pages[head][0], chain[1..])
  }

  lemma ChainFrame(before: seq<Page>, after: seq<Page>, head: int, chain: seq<nat>)
    requires Chain(before, head, chain)
    requires |before| <= |after|
    requires forall p :: p in chain && p < |before| ==> after[p] == before[p]
    ensures Chain(after, head, chain)
    decreases chain
  {
    if chain != [] {
      assert chain[0] in chain;
      forall p | p in chain[1..] ensures p in chain { }
      ChainFrame(before, after, before[head][0], chain[1..]);
    }
  }

  lemma MultisetCount<T>(s: seq<T>, i: nat)
    requires i < |s|
    ensures multiset(s[..i + 1]) == multiset(s[..i]) + multiset{s[i]}
    ensures multiset(s[..i]) <= multiset(s)
    ensures multiset(s[..i])[s[i]] < multiset(s)[s[i]]
  {
    assert s[..i + 1] == s[..i] + [s[i]];
    assert s == s[..i] + [s[i]] + s[i + 1..];
    assert multiset(s) == multiset(s[..i]) + multiset{s[i]} + multiset(s[i + 1..]);
  }

  /** The reference count of a page; pages the pool has not reached yet have none. */
  function Count(refcounts: seq<int>, p: nat): int {
    if p < |refcounts| then refcounts[p] else 0
  }

  // ---------------------------------------------------------------- the state of a pool

  /** Structural consistency: it holds after every operation, whatever the caller releases. */
  ghost predicate PoolWf(refcounts: seq<int>, pages: seq<Page>, numPages: nat, zeroPageNo: int, head: int, freeList: seq<nat>) {
    && |refcounts| == |pages| && numPages <= |pages| && |pages| % ALLOCATION_STEP == 0
    && (forall p :: 0 <= p < |pages| ==> 0 <= refcounts[p])
    && (forall p :: numPages <= p < |pages| ==> refcounts[p] == 0 && pages[p] == ZERO)
    && Distinct(freeList)
    && (forall p :: p in freeList ==> p < numPages && refcounts[p] == 0)
    && Chain(pages, head, freeList)
    && NO_PAGE <= zeroPageNo < numPages
    && (zeroPageNo != 0 ==> NoneLost(refcounts, numPages, freeList))
  }

  /** Every page that has been used and is not referenced is on the free list. */
  ghost predicate NoneLost(refcounts: seq<int>, numPages: nat, freeList: seq<nat>) {
    forall p: nat :: p < numPages && Count(refcounts, p) == 0 ==> p in freeList
  }

  /** Taking the head of the free list. */
  lemma TakeFree(refcounts: seq<int>, pages: seq<Page>, numPages: nat, zeroPageNo: int, head: int, freeList: seq<nat>)
    requires PoolWf(refcounts, pages, numPages, zeroPageNo, head, freeList) && freeList != []
    ensures head == freeList[0] && 0 <= head < numPages && refcounts[head] == 0
    ensures PoolWf(refcounts[head := 1], pages[head := ZERO], numPages, zeroPageNo, pages[head][0], freeList[1..])
    ensures forall p :: p in freeList <==> p == head || p in freeList[1..]
    ensures head !in freeList[1..]
  {
    var rest := freeList[1..];
    TailOf(freeList);
    assert Chain(pages, pages[head][0], rest);
    ChainFrame(pages, pages[head := ZERO], pages[head][0], rest);
    forall p: nat | zeroPageNo != 0 && p < numPages && Count(refcounts[head := 1], p) == 0 ensures p in rest {
      assert p != head && Count(refcounts, p) == 0;
    }
  }

  lemma TailOf<T>(s: seq<T>)
    requires Distinct(s) && s != []
    ensures Distinct(s[1..]) && s[0] !in s[1..]
    ensures forall x :: x in s <==> x == s[0] || x in s[1..]
  {
    var rest := s[1..];
    assert s == [s[0]] + rest;
    forall i, j | 0 <= i < j < |rest| ensures rest[i] != rest[j] {
      assert rest[i] == s[i + 1] && rest[j] == s[j + 1];
    }
    forall i | 0 <= i < |rest| ensures rest[i] != s[0] {
      assert rest[i] == s[i + 1];
    }
  }

  /** Freeing a page: its first word links to the pages freed before. */
  lemma PutFree(refcounts: seq<int>, pages: seq<Page>, numPages: nat, zeroPageNo: int, head: int, freeList: seq<nat>, id: nat)
    requires PoolWf(refcounts, pages, numPages, zeroPageNo, head, freeList) && Count(refcounts, id) == 1 && zeroPageNo != 0
    ensures id < numPages && id !in freeList
    ensures PoolWf(refcounts[id := 0], pages[id := pages[id][0 := head]], numPages, zeroPageNo, id, [id] + freeList)
  {
    var pages' := pages[id := pages[id][0 := head]];
    ChainFrame(pages, pages', head, freeList);
    assert ([id] + freeList)[1..] == freeList;
  }

  /** Changing the count of a page without freeing it. */
  lemma SetCount(refcounts: seq<int>, pages: seq<Page>, numPages: nat, zeroPageNo: int, head: int, freeList: seq<nat>, id: nat, n: nat)
    requires PoolWf(refcounts, pages, numPages, zeroPageNo, head, freeList) && id < numPages && id !in freeList
    requires 0 < n || Count(refcounts, id) == 0 || zeroPageNo == 0
    ensures PoolWf(refcounts[id := n], pages, numPages, zeroPageNo, head, freeList)
  {
  }

  /** Using a page for the first time. */
  lemma UseNext(refcounts: seq<int>, pages: seq<Page>, refcounts': seq<int>, pages': seq<Page>, numPages: nat, zeroPageNo: int, head: int)
    requires PoolWf(refcounts, pages, numPages, zeroPageNo, head, [])
    requires Grown(refcounts, pages, refcounts', pages') && numPages < |pages'| && |pages'| % ALLOCATION_STEP == 0
    ensures PoolWf(refcounts'[numPages := 1], pages', numPages + 1, zeroPageNo, head, [])
    ensures refcounts'[numPages] == 0 && pages'[numPages] == ZERO
  {
  }

  /** More pages, all of them zero and not referenced. */
  ghost predicate Grown(refcounts: seq<int>, pages: seq<Page>, refcounts': seq<int>, pages': seq<Page>) {
    && |refcounts| == |pages| <= |pages'| == |refcounts'|
    && (forall p :: 0 <= p < |pages'| ==> pages'[p] == if p < |pages| then pages[p] else ZERO)
    && (forall p :: 0 <= p < |pages'| ==> refcounts'[p] == if p < |pages| then refcounts[p] else 0)
  }

  /** Writing to a page that is referenced. */
  lemma SetPage(refcounts: seq<int>, pages: seq<Page>, numPages: nat, zeroPageNo: int, head: int, freeList: seq<nat>, id: nat, page: Page)
    requires PoolWf(refcounts, pages, numPages, zeroPageNo, head, freeList) && 0 < Count(refcounts, id)
    ensures id < numPages && id !in freeList
    ensures PoolWf(refcounts, pages[id := page], numPages, zeroPageNo, head, freeList)
  {
    ChainFrame(pages, pages[id := page], head, freeList);
  }

  /** The list holds all references to the zero page, and the guard of release_page lets it go. */
  predicate LosesZero(zeroPageNo: int, refcounts: seq<int>, ids: seq<int>) {
    zeroPageNo > 0 && zeroPageNo in ids && multiset(ids)[zeroPageNo] == Count(refcounts, zeroPageNo)
  }

  lemma LosesNext(zeroPageNo: int, refcounts: seq<int>, ids: seq<int>, i: nat)
    requires i < |ids|
    ensures LosesZero(zeroPageNo, refcounts, ids[..i + 1])
            <==> if ids[i] == zeroPageNo then zeroPageNo > 0 && multiset(ids[..i + 1])[zeroPageNo] == Count(refcounts, zeroPageNo)
                 else LosesZero(zeroPageNo, refcounts, ids[..i])
  {
    assert ids[..i + 1] == ids[..i] + [ids[i]];
  }

  class Manager {
    var refcounts: seq<int>
    var pages: seq<Page>
    var numPages: nat
    var zeroPageNo: int
    var freeListNext: int
    ghost var freeList: seq<nat>

    ghost predicate Wf()
      reads this
    {
      PoolWf(refcounts, pages, numPages, zeroPageNo, freeListNext, freeList)
    }

    lemma PoolShape()
      requires Wf()
      ensures |refcounts| == |pages| && NO_PAGE <= zeroPageNo < numPages <= |pages|
      ensures forall p: nat :: Count(refcounts, p) >= 0 && (Count(refcounts, p) > 0 ==> p < numPages && p !in freeList)
      ensures forall p :: p in freeList ==> p < numPages && Count(refcounts, p) == 0
      ensures freeListNext == NO_PAGE <==> freeList == []
    {
    }

    /** The shared zero page really is zero, and cannot be handed out by allocate. */
    ghost predicate ZeroSafe()
      requires Wf()
      reads this
    {
      zeroPageNo != NO_PAGE ==> zeroPageNo !in freeList && pages[zeroPageNo] == ZERO
    }

    lemma ZeroReads()
      requires Wf() && ZeroSafe()
      ensures |refcounts| == |pages|
      ensures zeroPageNo != NO_PAGE ==> 0 <= zeroPageNo < |pages| && pages[zeroPageNo] == ZERO
    {
    }

    constructor ()
      ensures Wf() && ZeroSafe()
      ensures numPages == 0 && zeroPageNo == NO_PAGE && freeList == []
      ensures forall p: nat :: Count(refcounts, p) == 0
    {
      refcounts, pages, numPages := [], [], 0;
      zeroPageNo, freeListNext, freeList := NO_PAGE, NO_PAGE, [];
    }

    /** The chunks of zeroed pages that allocate adds until page "id" exists. */
    method Grow(id: nat)
      requires |pages| == |refcounts| && |pages| % ALLOCATION_STEP == 0
      modifies `pages, `refcounts
      ensures |pages| % ALLOCATION_STEP == 0 && id < |pages|
      ensures Grown(old(refcounts), old(pages), refcounts, pages)
    {
      while |pages| / ALLOCATION_STEP <= id / ALLOCATION_STEP
        invariant |pages| % ALLOCATION_STEP == 0 && Grown(old(refcounts), old(pages), refcounts, pages)
        decreases id - |pages|
      {
        pages := pages + seq(ALLOCATION_STEP, _ => ZERO);
        refcounts := refcounts + seq(ALLOCATION_STEP, _ => 0);
      }
    }

    /** allocate: the head of the free list if there is one, otherwise the next page never used,
        growing the pool by a chunk of zeroed pages when the last chunk is full. */
    method Allocate() returns (id: nat)
      requires Wf()
      modifies this
      ensures Wf()
      ensures old(freeList) != [] ==>
                id == old(freeList)[0] && freeList == old(freeList)[1..] && numPages == old(numPages)
      ensures old(freeList) == [] ==> id == old(numPages) && freeList == [] && numPages == id + 1
      ensures Count(old(refcounts), id) == 0 && Count(refcounts, id) == 1
      ensures id < |pages| && pages[id] == ZERO
      ensures |old(pages)| <= |pages|
      ensures forall p: nat :: p != id ==> Count(refcounts, p) == Count(old(refcounts), p)
      ensures forall p :: 0 <= p < |old(pages)| && p != id ==> pages[p] == old(pages)[p]
      ensures zeroPageNo == old(zeroPageNo)
      ensures old(ZeroSafe()) ==> ZeroSafe()
      ensures old(ZeroSafe()) ==> id != zeroPageNo
    {
      hide PoolWf;
      PoolShape();
      if freeListNext != NO_PAGE {
        TakeFree(refcounts, pages, numPages, zeroPageNo, freeListNext, freeList);
        id := freeListNext;
        freeListNext := pages[id][0];
        freeList := freeList[1..];
        refcounts := refcounts[id := 1];
        pages := pages[id := ZERO];
      } else {
        GrowReady();
        id := numPages;
        Grow(id);
        UseNext(old(refcounts), old(pages), refcounts, pages, id, zeroPageNo, freeListNext);
        numPages := numPages + 1;
        refcounts := refcounts[id := 1];
      }
    }

    lemma GrowReady()
      requires Wf()
      ensures |refcounts| == |pages| && |pages| % ALLOCATION_STEP == 0
    {
    }

    /** allocate, for a range of pages. */
    method AllocateRange(size: nat) returns (ids: seq<nat>)
      requires Wf() && ZeroSafe()
      modifies this
      ensures Wf() && ZeroSafe()
      ensures |ids| == size && Distinct(ids)
      ensures |old(pages)| <= |pages| && zeroPageNo == old(zeroPageNo)
      ensures forall p :: p in ids ==> Count(old(refcounts), p) == 0 && p < |pages| && pages[p] == ZERO
      ensures forall p: nat :: Count(refcounts, p) == Count(old(refcounts), p) + multiset(ids)[p]
      ensures forall p :: 0 <= p < |old(pages)| && p !in ids ==> pages[p] == old(pages)[p]
    {
      hide Wf, ZeroSafe;
      ids := [];
      for i := 0 to size
        invariant Wf() && ZeroSafe()
        invariant |ids| == i && Distinct(ids)
        invariant |old(pages)| <= |pages| && zeroPageNo == old(zeroPageNo)
        invariant forall p :: p in ids ==> Count(old(refcounts), p) == 0 && p < |pages| && pages[p] == ZERO
        invariant forall p: nat :: Count(refcounts, p) == Count(old(refcounts), p) + multiset(ids)[p]
        invariant forall p :: 0 <= p < |old(pages)| && p !in ids ==> pages[p] == old(pages)[p]
      {
        PoolShape();
        var id := Allocate();
        assert multiset(ids)[id] == 0 by {
          PoolCounts();
        }
        ids := ids + [id];
      }
    }

    lemma PoolCounts()
      requires Wf()
      ensures forall p: nat :: 0 <= Count(refcounts, p)
    {
    }

    /** acquire_page */
    method AcquirePage(id: nat, count: nat)
      requires Wf() && id < numPages
      requires 0 < Count(refcounts, id) || id !in freeList
      modifies `refcounts
      ensures Wf()
      ensures id < |old(refcounts)| && refcounts == old(refcounts)[id := old(refcounts)[id] + count]
    {
      hide PoolWf;
      PoolShape();
      SetCount(refcounts, pages, numPages, zeroPageNo, freeListNext, freeList, id, Count(refcounts, id) + count);
      refcounts := refcounts[id := refcounts[id] + count];
    }

    /** acquire_pages */
    method AcquirePages(ids: seq<nat>)
      requires Wf()
      requires forall p :: p in ids ==> 0 < Count(refcounts, p)
      modifies `refcounts
      ensures Wf()
      ensures |refcounts| == |old(refcounts)|
      ensures forall p: nat :: Count(refcounts, p) == Count(old(refcounts), p) + multiset(ids)[p]
    {
      hide Wf, PoolWf;
      PoolShape();
      for i := 0 to |ids|
        invariant Wf() && |refcounts| == |old(refcounts)|
        invariant forall p: nat :: Count(refcounts, p) == Count(old(refcounts), p) + multiset(ids[..i])[p]
      {
        assert ids[i] in ids;
        MultisetCount(ids, i);
        AcquirePage(ids[i], 1);
      }
      assert ids[..|ids|] == ids;
    }

    /** release_page.  A page whose count reaches zero goes on the free list, except that the guard
        compares the new count, rather than the page number, with the number of the zero page.  So
        nothing is ever freed when the zero page happens to be page 0, and otherwise the zero page
        itself is freed with its last reference. */
    method ReleasePage(id: nat) returns (n: nat)
      requires Wf() && 0 < Count(refcounts, id)
      modifies this
      ensures Wf()
      ensures id < |old(refcounts)| == |pages| == |old(pages)|
      ensures n == old(refcounts)[id] - 1 && refcounts == old(refcounts)[id := n]
      ensures freeList == (if n == 0 && zeroPageNo != 0 then [id] else []) + old(freeList)
      ensures forall p :: 0 <= p < |pages| && (p != id || freeList == old(freeList)) ==>
                pages[p] == old(pages)[p]
      ensures numPages == old(numPages) && zeroPageNo == old(zeroPageNo)
      ensures old(ZeroSafe()) ==>
                (ZeroSafe() <==> !(id == zeroPageNo && n == 0 && zeroPageNo != 0))
      ensures old(NoneLost(refcounts, numPages, freeList)) ==>
                (NoneLost(refcounts, numPages, freeList) <==> !(n == 0 && zeroPageNo == 0))
    {
      hide PoolWf;
      PoolShape();
      n := refcounts[id] - 1;
      if n == 0 && n != zeroPageNo {
        PutFree(refcounts, pages, numPages, zeroPageNo, freeListNext, freeList, id);
      } else {
        SetCount(refcounts, pages, numPages, zeroPageNo, freeListNext, freeList, id, n);
      }
      refcounts := refcounts[id := n];
      if n == 0 && n != zeroPageNo {
        pages := pages[id := pages[id][0 := freeListNext]];
        freeListNext := id;
        freeList := [id] + freeList;
      }
    }

    /** release_pages, which skips slots without a page.  It is safe for the zero page exactly if the
        list does not hold all of its references, or the zero page is page 0. */
    method ReleasePages(ids: seq<int>)
      requires Wf() && forall p :: p in ids ==> NO_PAGE <= p
      requires forall p: nat :: multiset(ids)[p] <= Count(refcounts, p)
      modifies this
      ensures Wf()
      ensures |pages| == |old(pages)|
      ensures numPages == old(numPages) && zeroPageNo == old(zeroPageNo)
      ensures forall p: nat :: Count(refcounts, p) == Count(old(refcounts), p) - multiset(ids)[p]
      ensures forall p :: 0 <= p < |pages| && 0 < Count(refcounts, p) ==> pages[p] == old(pages)[p]
      ensures old(ZeroSafe()) ==> (ZeroSafe() <==> !LosesZero(zeroPageNo, old(refcounts), ids))
    {
      hide Wf, PoolWf, ZeroSafe;
      for i := 0 to |ids|
        invariant Wf()
        invariant |pages| == |old(pages)|
        invariant numPages == old(numPages) && zeroPageNo == old(zeroPageNo)
        invariant forall p: nat :: Count(refcounts, p) == Count(old(refcounts), p) - multiset(ids[..i])[p]
        invariant forall p :: 0 <= p < |pages| && 0 < Count(refcounts, p) ==> pages[p] == old(pages)[p]
        invariant old(ZeroSafe()) ==>
                    if LosesZero(zeroPageNo, old(refcounts), ids[..i]) then zeroPageNo in freeList else ZeroSafe()
      {
        MultisetCount(ids, i);
        assert ids[i] in ids;
        LosesNext(zeroPageNo, old(refcounts), ids, i);
        if ids[i] != NO_PAGE {
          ReleaseOne(ids[i]);
        }
      }
      assert ids[..|ids|] == ids;
      ZeroLost();
    }

    lemma ZeroLost()
      requires Wf()
      ensures zeroPageNo in freeList ==> !ZeroSafe() && Count(refcounts, zeroPageNo) == 0
    {
    }

    /** One step of release_pages. */
    method ReleaseOne(id: nat)
      requires Wf() && 0 < Count(refcounts, id)
      modifies this
      ensures Wf()
      ensures |pages| == |old(pages)|
      ensures numPages == old(numPages) && zeroPageNo == old(zeroPageNo)
      ensures forall p: nat :: Count(refcounts, p) == Count(old(refcounts), p) - if p == id then 1 else 0
      ensures forall p :: 0 <= p < |pages| && 0 < Count(refcounts, p) ==> pages[p] == old(pages)[p]
      ensures old(ZeroSafe()) ==>
                if id == zeroPageNo && zeroPageNo > 0 && Count(refcounts, id) == 0 then zeroPageNo in freeList else ZeroSafe()
      ensures old(zeroPageNo in freeList) ==> zeroPageNo in freeList
    {
      hide PoolWf;
      PoolShape();
      var n := ReleasePage(id);
      PoolShape();
    }

    /** cow: a private copy of page "src", whose own count drops by one. */
    method Cow(src: nat) returns (id: nat)
      requires Wf() && 0 < Count(refcounts, src)
      modifies this
      ensures Wf()
      ensures Count(old(refcounts), id) == 0 && Count(refcounts, id) == 1
      ensures Count(refcounts, src) == Count(old(refcounts), src) - 1
      ensures |old(pages)| <= |pages| && id < |pages| && src < |old(pages)|
      ensures pages[id] == old(pages)[src]
      ensures zeroPageNo == old(zeroPageNo)
      ensures forall p: nat :: p != id && p != src ==> Count(refcounts, p) == Count(old(refcounts), p)
      ensures forall p :: 0 <= p < |old(pages)| && p != id && (p != src || 0 < Count(refcounts, p)) ==> pages[p] == old(pages)[p]
      ensures old(ZeroSafe()) ==> id != zeroPageNo && (ZeroSafe() <==> !LosesZero(zeroPageNo, old(refcounts), [src]))
    {
      hide Wf, PoolWf, ZeroSafe;
      PoolShape();
      id := Allocate();
      CopyPage(id, pages[src]);
      var _ := ReleasePage(src);
    }

    /** The memcpy in cow. */
    method CopyPage(id: nat, page: Page)
      requires Wf() && 0 < Count(refcounts, id)
      modifies `pages
      ensures Wf() && id < |old(pages)| && pages == old(pages)[id := page]
      ensures old(ZeroSafe()) && id != zeroPageNo ==> ZeroSafe()
    {
      hide PoolWf;
      PoolShape();
      SetPage(refcounts, pages, numPages, zeroPageNo, freeListNext, freeList, id, page);
      pages := pages[id := page];
    }

    /** zero_page: acquire the shared zero page "count" times, creating it at the first call. */
    method ZeroPage(count: nat) returns (id: nat)
      requires Wf() && ZeroSafe() && 0 < count
      modifies this
      ensures Wf() && ZeroSafe()
      ensures zeroPageNo == id < |pages|
      ensures old(zeroPageNo) != NO_PAGE ==> id == old(zeroPageNo)
      ensures old(zeroPageNo) == NO_PAGE ==> Count(old(refcounts), id) == 0
      ensures old(zeroPageNo) == NO_PAGE && old(freeList) != [] ==> id == old(freeList)[0]
      ensures pages[id] == ZERO
      ensures |old(pages)| <= |pages|
      ensures Count(refcounts, id) == Count(old(refcounts), id) + count
      ensures forall p: nat :: p != id ==> Count(refcounts, p) == Count(old(refcounts), p)
      ensures forall p :: 0 <= p < |old(pages)| && p != id ==> pages[p] == old(pages)[p]
    {
      hide PoolWf;
      PoolShape();
      if zeroPageNo != NO_PAGE {
        id := zeroPageNo;
        AcquirePage(id, count);
      } else {
        id := Allocate();
        PoolShape();
        if 1 < count {
          AcquirePage(id, count - 1);
        }
        MakeZeroPage(id);
        zeroPageNo := id;
      }
    }

    lemma MakeZeroPage(id: nat)
      requires Wf() && zeroPageNo == NO_PAGE && 0 < Count(refcounts, id)
      ensures PoolWf(refcounts, pages, numPages, id, freeListNext, freeList) && id !in freeList
    {
    }

    /** A write through the address of a page (page[wi] = value). */
    method Store(id: nat, index: nat, value: int)
      requires Wf() && ZeroSafe()
      requires 0 < Count(refcounts, id) && id != zeroPageNo && index < PAGE_LENGTH
      modifies `pages
      ensures Wf() && ZeroSafe()
      ensures id < |old(pages)| && pages == old(pages)[id := old(pages)[id][index := value]]
    {
      hide PoolWf;
      PoolShape();
      CopyPage(id, pages[id][index := value]);
    }
  }

  /** Why the newest level must go on holding the zero page: with its last reference gone, the zero
      page is the next page the pool hands out as a private one. */
  method LoseZeroPage() returns (pm: Manager, page: nat)
    ensures pm.Wf() && page == pm.zeroPageNo && Count(pm.refcounts, page) == 1
  {
    hide PoolWf;
    pm := new Manager();
    var first := pm.Allocate();
    var zero := pm.ZeroPage(1);
    var n := pm.ReleasePage(zero);
    page := pm.Allocate();
  }

  /** With the zero page at number 0 a page whose last reference is gone is never used again: here page 0
      is freed, becomes the zero page, and then page 1 is lost. */
  method LosePage() returns (pm: Manager, page: nat)
    ensures pm.Wf() && pm.ZeroSafe() && pm.zeroPageNo == 0
    ensures page < pm.numPages && Count(pm.refcounts, page) == 0 && page !in pm.freeList
  {
    hide PoolWf;
    pm := new Manager();
    var first := pm.Allocate();
    var n := pm.ReleasePage(first);
    var zero := pm.ZeroPage(1);
    page := pm.Allocate();
    pm.PoolShape();
    n := pm.ReleasePage(page);
  }

  /** But unless the zero page is page 0, no page is ever lost. */
  lemma NoPageLost(pm: Manager, page: nat)
    requires pm.Wf() && pm.zeroPageNo != 0
    ensures page in pm.freeList <==> page < pm.numPages && Count(pm.refcounts, page) == 0
  {
  }
}
