/** The iterator over the nodes of a level that may differ from the level before
    (modified_node_iter_begin and _next in llama/include/llama/ll_mem_array.h). It skips pages that
    the two levels share. */
module ModifiedNodes {
  import opened PageManager
  import opened Sequences
  import opened SwcowArray

  const NIL_NODE: int := -1

  /** What the iterator looks at: the page tables of the level and of the one before, and the pages. */
  datatype View = View(table: seq<nat>, hasPrev: bool, prevTable: seq<nat>, prevPages: nat, pool: seq<Page>, zeroPage: int) {

    ghost predicate Ok(size: nat) {
      && InPool(table, pool)
      && |table| == PagesFor(size) + 1
      && (hasPrev ==> |prevTable| == prevPages + 1 && InPool(prevTable, pool))
    }

    /** The node's entry differs from the previous level's, or that level has no page for it. */
    ghost predicate Changed(n: nat) {
      hasPrev && n / PAGE_LENGTH < prevPages ==>
        && n / PAGE_LENGTH < |table| && n / PAGE_LENGTH < |prevTable|
        && table[n / PAGE_LENGTH] < |pool| && prevTable[n / PAGE_LENGTH] < |pool|
        && pool[table[n / PAGE_LENGTH]][n % PAGE_LENGTH] != pool[prevTable[n / PAGE_LENGTH]][n % PAGE_LENGTH]
    }

    /** Where the iterator stops: it does not compare nodes on the zero page. */
    ghost predicate Stop(n: nat) {
      hasPrev ==> Changed(n) || (n / PAGE_LENGTH < |table| && table[n / PAGE_LENGTH] == zeroPage)
    }
  }

  ghost function ViewOf(va: VertexArray, prev: VertexArray?, pm: Manager): View
    requires va.HasTables() && (prev != null ==> prev.HasTables())
    reads va, va.indirection, prev, if prev != null then {prev.indirection} else {}, pm
  {
    View(va.indirection[..], prev != null, if prev != null then prev.indirection[..] else [],
         if prev != null then prev.pages else 0, pm.pages, pm.zeroPageNo)
  }

  ghost predicate Readable(va: VertexArray, prev: VertexArray?, pm: Manager)
    reads va, va.indirection, prev, if prev != null then {prev.indirection} else {}, pm
  {
    va.HasTables() && va.pages == PagesFor(va.size) && (prev != null ==> prev.HasTables()) && ViewOf(va, prev, pm).Ok(va.size)
  }

  lemma InTable(n: nat, size: nat)
    requires n <= size
    ensures n / PAGE_LENGTH < PagesFor(size)
  {
  }

  lemma SamePage(view: View, x: nat, size: nat)
    requires view.Ok(size) && view.hasPrev && x <= size && x / PAGE_LENGTH < view.prevPages
    requires x / PAGE_LENGTH < |view.table| && view.table[x / PAGE_LENGTH] == view.prevTable[x / PAGE_LENGTH] != view.zeroPage
    ensures forall n: nat :: x <= n < (x + PAGE_LENGTH) / PAGE_LENGTH * PAGE_LENGTH ==> !view.Stop(n)
  {
    forall n: nat | x <= n < (x + PAGE_LENGTH) / PAGE_LENGTH * PAGE_LENGTH ensures !view.Stop(n) {
      assert n / PAGE_LENGTH == x / PAGE_LENGTH;
    }
  }

  class VertexIterator {
    var viNextNode: nat
    var viEnd: nat

    constructor ()
    {
      viNextNode, viEnd := 0, 0;
    }

    /** modified_node_iter_next */
    method Next(va: VertexArray, prev: VertexArray?, pm: Manager) returns (r: int)
      requires Readable(va, prev, pm) && viEnd <= va.size
      modifies this
      ensures viEnd == old(viEnd) && old(viNextNode) < viNextNode
      ensures r == if old(viNextNode) >= viEnd then NIL_NODE else old(viNextNode)
      ensures forall n: nat :: old(viNextNode) < n < viNextNode && n < viEnd ==> !ViewOf(va, prev, pm).Stop(n)
      ensures viNextNode < viEnd ==> ViewOf(va, prev, pm).Stop(viNextNode)
    {
      r := viNextNode;
      viNextNode := viNextNode + 1;
      if r >= viEnd {
        return NIL_NODE;
      }
      if prev != null {
        ghost var view := ViewOf(va, prev, pm);
        while viNextNode < va.size && viNextNode < viEnd
          invariant viEnd == old(viEnd) && r < viNextNode
          invariant forall n: nat :: r < n < viNextNode && n < viEnd ==> !view.Stop(n)
          decreases va.size - viNextNode
        {
          var page := viNextNode / PAGE_LENGTH;
          InTable(viNextNode, va.size);
          var d := va.indirection[page];
          if d != pm.zeroPageNo && page < prev.pages {
            var p := prev.indirection[page];
            if d == p {
              SamePage(view, viNextNode, va.size);
              viNextNode := (viNextNode + PAGE_LENGTH) / PAGE_LENGTH * PAGE_LENGTH;
            } else {
              var found := Scan(pm, view, page, d, p);
              if found {
                return;
              }
            }
          } else {
            break;
          }
        }
      }
    }

    /** The inner loop: from the next node to the end of its page or of the range. */
    method Scan(pm: Manager, ghost view: View, page: nat, d: nat, p: nat) returns (found: bool)
      requires view.pool == pm.pages && view.hasPrev && page < |view.table| && page < view.prevPages && page < |view.prevTable|
      requires d == view.table[page] < |view.pool| && p == view.prevTable[page] < |view.pool| && d != view.zeroPage
      requires viNextNode / PAGE_LENGTH == page && viNextNode < viEnd
      modifies `viNextNode
      ensures old(viNextNode) <= viNextNode && (!found ==> old(viNextNode) < viNextNode <= viEnd)
      ensures forall n: nat :: old(viNextNode) <= n < viNextNode ==> !view.Stop(n)
      ensures found ==> viNextNode < viEnd && view.Stop(viNextNode)
    {
      var i := viNextNode % PAGE_LENGTH;
      while i < PAGE_LENGTH && viNextNode < viEnd
        invariant i <= PAGE_LENGTH && old(viNextNode) <= viNextNode <= viEnd && viNextNode == page * PAGE_LENGTH + i
        invariant forall n: nat :: old(viNextNode) <= n < viNextNode ==> !view.Stop(n)
      {
        assert viNextNode / PAGE_LENGTH == page && viNextNode % PAGE_LENGTH == i;
        if pm.pages[d][i] != pm.pages[p][i] {
          return true;
        }
        viNextNode := viNextNode + 1;
        i := i + 1;
      }
      return false;
    }

    /** modified_node_iter_begin; an end of -1 stands for the size of the level. */
    method Begin(va: VertexArray, prev: VertexArray?, pm: Manager, start: nat, end: int)
      requires Readable(va, prev, pm) && start <= va.size && end >= -1
      modifies this
      ensures start <= viNextNode && viEnd <= va.size
      ensures if end == -1 then viEnd == va.size else viEnd <= end && (viEnd == end || viEnd == va.size)
      ensures ViewOf(va, prev, pm).Changed(start) ==> viNextNode == start
      ensures !ViewOf(va, prev, pm).Changed(start) ==> start < viNextNode && (viNextNode < viEnd ==> ViewOf(va, prev, pm).Stop(viNextNode))
      ensures forall n: nat :: start < n < viNextNode && n < viEnd ==> !ViewOf(va, prev, pm).Stop(n)
    {
      hide View.Stop;
      viNextNode := start;
      viEnd := if end == -1 then va.size else if end < va.size then end else va.size;
      if prev != null {
        var page := viNextNode / PAGE_LENGTH;
        InTable(start, va.size);
        var d := va.indirection[page];
        assert d == ViewOf(va, prev, pm).table[page];
        if page < prev.pages {
          var p := prev.indirection[page];
          assert p == ViewOf(va, prev, pm).prevTable[page];
          var i := viNextNode % PAGE_LENGTH;
          if d == p || pm.pages[d][i] == pm.pages[p][i] {
            var r := Next(va, prev, pm);
          }
        }
      }
    }
  }

  /** What a level reads as. */
  ghost function Data(va: VertexArray, pm: Manager): seq<int>
    requires va.HasTables() && InPool(va.indirection[..], pm.pages)
    reads va, va.indirection, pm
  {
    Flatten(va.indirection[..], pm.pages)
  }

  /** In terms of what the two levels read as. */
  lemma DifferingEntries(va: VertexArray, prev: VertexArray?, pm: Manager, n: nat)
    requires Readable(va, prev, pm) && n < va.size
    ensures n < |Data(va, pm)|
    ensures ViewOf(va, prev, pm).Changed(n)
            <==> prev == null || n >= |Data(prev, pm)| || Data(va, pm)[n] != Data(prev, pm)[n]
    ensures ViewOf(va, prev, pm).Stop(n)
            <==> ViewOf(va, prev, pm).Changed(n) || va.indirection[n / PAGE_LENGTH] == pm.zeroPageNo
  {
    InTable(n, va.size);
  }

  /** Running the iterator to its end: it returns, in increasing order, exactly the nodes of the range whose
      entries differ from the previous level's or have no counterpart there, and those on the zero page (but
      a first node only if it differs). An end of -1 stands for the size of the level. */
  method Iterate(va: VertexArray, prev: VertexArray?, pm: Manager, start: nat, end: int) returns (nodes: seq<nat>)
    requires Readable(va, prev, pm) && start <= va.size && end >= -1
    ensures Ascending(nodes)
    ensures forall n: nat :: n in nodes ==> start <= n < va.size && (end == -1 || n < end)
    ensures forall n: nat :: start <= n < va.size && (end == -1 || n < end) ==>
              && n / PAGE_LENGTH < va.indirection.Length && n < |Data(va, pm)|
              && (n in nodes <==>
                    || prev == null || n >= |Data(prev, pm)| || Data(va, pm)[n] != Data(prev, pm)[n]
                    || (n > start && va.indirection[n / PAGE_LENGTH] == pm.zeroPageNo))
  {
    hide View.Ok, View.Changed, View.Stop, ViewOf, Flatten;
    var iter := new VertexIterator();
    iter.Begin(va, prev, pm, start, end);
    nodes := RunToEnd(iter, va, prev, pm, start);
    TableRead(va, prev, pm);
    forall n: nat | start <= n < va.size && (end == -1 || n < end)
      ensures && n < |Data(va, pm)|
              && (n in nodes <==>
                    || prev == null || n >= |Data(prev, pm)| || Data(va, pm)[n] != Data(prev, pm)[n]
                    || (n > start && va.indirection[n / PAGE_LENGTH] == pm.zeroPageNo))
    {
      DifferingEntries(va, prev, pm, n);
    }
  }

  lemma TableRead(va: VertexArray, prev: VertexArray?, pm: Manager)
    requires Readable(va, prev, pm)
    ensures InPool(va.indirection[..], pm.pages) && (prev != null ==> InPool(prev.indirection[..], pm.pages))
    ensures forall n: nat :: n < va.size ==> n / PAGE_LENGTH < va.indirection.Length
  {
    forall n: nat | n < va.size ensures n / PAGE_LENGTH < va.indirection.Length {
      InTable(n, va.size);
    }
  }

  /** The loop of the users of the iterator. */
  method RunToEnd(iter: VertexIterator, va: VertexArray, prev: VertexArray?, pm: Manager, ghost start: nat) returns (nodes: seq<nat>)
    requires Readable(va, prev, pm) && iter.viEnd <= va.size && start <= iter.viNextNode
    requires start < iter.viNextNode ==> !ViewOf(va, prev, pm).Changed(start)
    requires forall n: nat :: start < n < iter.viNextNode && n < iter.viEnd ==> !ViewOf(va, prev, pm).Stop(n)
    requires iter.viNextNode < iter.viEnd ==> Wanted(ViewOf(va, prev, pm), start, iter.viNextNode)
    modifies iter
    ensures Ascending(nodes)
    ensures forall n: nat :: n in nodes <==> start <= n < old(iter.viEnd) && Wanted(ViewOf(va, prev, pm), start, n)
  {
    hide View.Ok, View.Changed, View.Stop, ViewOf, Collected, Ascending, Wanted;
    ghost var view := ViewOf(va, prev, pm);
    nodes := [];
    NothingBefore(view, start, iter.viNextNode, iter.viEnd);
    var r := 0;
    while r != NIL_NODE
      invariant iter.viEnd == old(iter.viEnd) && start <= iter.viNextNode
      invariant iter.viNextNode < iter.viEnd ==> Wanted(view, start, iter.viNextNode)
      invariant r == NIL_NODE ==> iter.viNextNode >= iter.viEnd
      invariant Collected(view, start, iter.viNextNode, iter.viEnd, nodes)
      decreases r != NIL_NODE, iter.viEnd - iter.viNextNode
    {
      ghost var next, before := iter.viNextNode, nodes;
      r := iter.Next(va, prev, pm);
      assert ViewOf(va, prev, pm) == view;
      if r != NIL_NODE {
        nodes := nodes + [r];
      }
      CollectMore(view, start, next, iter.viNextNode, iter.viEnd, before, nodes);
    }
    CollectedAll(view, start, iter.viNextNode, iter.viEnd, nodes);
  }

  /** The nodes that the iterator has returned, when "next" is the one it would return next. */
  ghost predicate Collected(view: View, start: nat, next: nat, end: nat, nodes: seq<nat>) {
    && Ascending(nodes)
    && forall n: nat :: n in nodes <==> start <= n < next && n < end && Wanted(view, start, n)
  }

  lemma NothingBefore(view: View, start: nat, next: nat, end: nat)
    requires start < next ==> !view.Changed(start)
    requires forall n: nat :: start < n < next && n < end ==> !view.Stop(n)
    ensures Collected(view, start, next, end, [])
  {
    ChangedStops(view);
  }

  lemma CollectMore(view: View, start: nat, next: nat, next': nat, end: nat, nodes: seq<nat>, nodes': seq<nat>)
    requires Collected(view, start, next, end, nodes) && start <= next < next'
    requires next < end ==> Wanted(view, start, next)
    requires nodes' == if next < end then nodes + [next] else nodes
    requires forall n: nat :: next < n < next' && n < end ==> !view.Stop(n)
    ensures Collected(view, start, next', end, nodes')
    ensures next' < end && view.Stop(next') ==> Wanted(view, start, next')
  {
    hide View.Stop, View.Changed;
    ChangedStops(view);
    forall n: nat ensures n in nodes' <==> n in nodes || (next < end && n == next) {
    }
    forall i | 0 <= i < |nodes| ensures nodes[i] < next {
      assert nodes[i] in nodes;
    }
  }

  lemma CollectedAll(view: View, start: nat, next: nat, end: nat, nodes: seq<nat>)
    requires Collected(view, start, next, end, nodes) && next >= end
    ensures Ascending(nodes)
    ensures forall n: nat :: n in nodes <==> start <= n < end && Wanted(view, start, n)
  {
  }

  lemma ChangedStops(view: View)
    ensures forall n: nat :: view.Changed(n) ==> view.Stop(n)
  {
  }

  /** The nodes that the iterator returns when it begins at "start". */
  ghost predicate Wanted(view: View, start: nat, n: nat) {
    view.Changed(n) || (n > start && view.Stop(n))
  }
}
