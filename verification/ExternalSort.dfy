/** ll_external_sort (llama/include/llama/ll_external_sort.h): elements are collected in a buffer,
    sorted runs of them go to temporary files, and next_block streams the merge of the files. */
module ExternalSort {
  import opened Merging
  import ParallelSort

  /** A temporary file with its read position, and the elements read from it last with the index of
      the next one to take (_tmp_files, _tmp_buffers and _tmp_buffer_sizes, _tmp_buffer_index). */
  datatype TmpFile<T> = TmpFile(content: seq<T>, pos: nat, block: seq<T>, index: nat) {
    ghost predicate Ok() {
      && |block| <= pos <= |content|
      && (forall i :: 0 <= i < |block| ==> block[i] == content[pos - |block| + i])
      && (if block == [] then pos == |content| else index <= |block|)
    }

    /** What is left of the run in this file. */
    ghost function Rest(): (c: Cursor<T>)
      requires Ok()
      ensures c.Ok()
    {
      Cursor(content, if block == [] then pos else pos - |block| + index, |content|)
    }

    /** read(): the next "capacity" elements, or as many as there are. */
    function Read(capacity: nat): (f: TmpFile<T>)
      requires pos <= |content|
      ensures f.content == content && f.index == 0
      ensures capacity > 0 ==> f.Ok() && f.Rest() == Cursor(content, pos, |content|)
    {
      var stop := if pos + capacity <= |content| then pos + capacity else |content|;
      TmpFile(content, stop, content[pos..stop], 0)
    }
  }

  ghost predicate AllFilesOk<T>(files: seq<TmpFile<T>>) {
    forall t :: 0 <= t < |files| ==> files[t].Ok()
  }

  ghost function Rests<T>(files: seq<TmpFile<T>>): (cs: seq<Cursor<T>>)
    requires AllFilesOk(files)
    ensures |cs| == |files| && AllOk(cs) && forall t :: 0 <= t < |files| ==> cs[t] == files[t].Rest()
  {
    seq(|files|, t requires 0 <= t < |files| => files[t].Rest())
  }

  /** The runs in the files, from their beginnings. */
  ghost function Runs<T>(files: seq<TmpFile<T>>): (cs: seq<Cursor<T>>)
    ensures |cs| == |files| && AllOk(cs) && forall t :: 0 <= t < |files| ==> cs[t] == Cursor(files[t].content, 0, |files[t].content|)
  {
    seq(|files|, t requires 0 <= t < |files| => Cursor(files[t].content, 0, |files[t].content|))
  }

  /** std::sort, as any function that sorts. */
  ghost predicate Sorts<T(!new)>(less: (T, T) -> bool, sorter: seq<T> -> seq<T>) {
    forall s :: Sorted(less, sorter(s)) && multiset(sorter(s)) == multiset(s)
  }

  /** Below this size a buffer is sorted by one thread. */
  const PARALLEL_THRESHOLD: nat := 256 * 1024

  /** Whatever a buffer of this capacity holds when it is sorted by several threads, every cut finds its
      pivot (ParallelSort.FirstPivotExists). */
  predicate EveryCutHasPivot(threads: nat, capacity: nat) {
    capacity < PARALLEL_THRESHOLD || threads * threads <= PARALLEL_THRESHOLD
  }

  /** With 513 threads the first cut of the smallest buffer that is sorted in parallel finds none: it is at
      the very beginning. */
  lemma FirstPivotMissing()
    ensures PARALLEL_THRESHOLD / 513 / 513 == 0 && !EveryCutHasPivot(513, PARALLEL_THRESHOLD)
  {
  }

  class Sort<T(!new, 0)> {
    const less: (T, T) -> bool
    const sorter: seq<T> -> seq<T>
    const threads: nat
    const tmpBufferCapacity: nat

    var size: nat
    var done: bool
    var buffer: array<T>
    var bufferSize: nat
    var tmpFiles: seq<TmpFile<T>>

    /** Everything inserted, and everything next_block has handed out since sort or rewind_sorted. */
    ghost var inserted: multiset<T>
    ghost var emitted: seq<T>

    /** The comparator and std::sort. */
    ghost predicate Configured() {
      && StrictWeak(less) && Sorts(less, sorter) && tmpBufferCapacity > 0
      && threads > 0
    }

    /** Elements are being inserted. */
    ghost predicate Loading()
      reads this, buffer
    {
      Collected() && (tmpFiles != [] ==> bufferSize > 0)
    }

    /** The files and the buffer together hold what was inserted. */
    ghost predicate Collected()
      reads this, buffer
    {
      && Configured() && EveryCutHasPivot(threads, buffer.Length) && size == 0 && !done && 0 < buffer.Length && bufferSize <= buffer.Length
      && SortedRuns(less, Runs(tmpFiles))
      && Left(Runs(tmpFiles)) + multiset(buffer[..bufferSize]) == inserted
    }

    constructor (less: (T, T) -> bool, sorter: seq<T> -> seq<T>, threads: nat, bufferCapacity: nat, tmpBufferCapacity: nat)
      requires StrictWeak(less) && Sorts(less, sorter) && threads > 0 && EveryCutHasPivot(threads, bufferCapacity)
      requires bufferCapacity > 0 && tmpBufferCapacity > 0
      ensures Loading() && inserted == multiset{} && fresh(buffer) && this.less == less
    {
      this.less, this.sorter, this.threads, this.tmpBufferCapacity := less, sorter, threads, tmpBufferCapacity;
      size, done, bufferSize, tmpFiles := 0, false, 0, [];
      buffer := new T[bufferCapacity];
      inserted, emitted := multiset{}, [];
    }

    /** size(), which nothing ever adds to: it is the number of elements only while there are none. */
    method Size() returns (n: nat)
      requires Loading() || Streaming()
      ensures n == |inserted| <==> inserted == multiset{}
    {
      n := size;
    }

    // -------------------------------------------------------------- sort_buffer

    /** std::sort(_buffer + lo, _buffer + hi, _comparator) */
    method StdSort(lo: nat, hi: nat)
      requires Configured() && lo <= hi <= buffer.Length
      modifies buffer
      ensures Sorted(less, buffer[lo..hi]) && multiset(buffer[lo..hi]) == multiset(old(buffer[lo..hi]))
      ensures forall k :: 0 <= k < lo || hi <= k < buffer.Length ==> buffer[k] == old(buffer[k])
    {
      var s := sorter(buffer[lo..hi]);
      SameLength(s, buffer[lo..hi]);
      forall k | lo <= k < hi {
        buffer[k] := s[k - lo];
      }
      assert buffer[lo..hi] == s;
    }

    lemma SameLength(s: seq<T>, t: seq<T>)
      requires multiset(s) == multiset(t)
      ensures |s| == |t|
    {
      assert |multiset(s)| == |multiset(t)|;
    }

    /** The partial sorts of the parallel branch. */
    method SortParts(starts: seq<nat>, ends: seq<nat>)
      requires Configured() && bufferSize <= buffer.Length && |starts| == |ends| && ParallelSort.Tiles(starts, ends, 0, bufferSize)
      modifies buffer
      ensures forall i :: 0 <= i < |starts| ==> ParallelSort.Run(less, buffer[..bufferSize], starts[i], ends[i])
      ensures multiset(buffer[..bufferSize]) == multiset(old(buffer[..bufferSize]))
    {
      hide PartSorted, ParallelSort.Run, ParallelSort.Tiles;
      for t := 0 to |starts|
        invariant forall i :: 0 <= i < t ==> ParallelSort.Run(less, buffer[..bufferSize], starts[i], ends[i])
        invariant multiset(buffer[..bufferSize]) == multiset(old(buffer[..bufferSize]))
      {
        TilesOrdered(starts, ends, bufferSize, t);
        ghost var before := buffer[..bufferSize];
        SortPart(starts[t], ends[t]);
        PartsSorted(before, buffer[..bufferSize], starts, ends, t);
      }
    }

    /** A part has been sorted, and nothing outside it has changed. */
    ghost predicate PartSorted(before: seq<T>, after: seq<T>, lo: nat, hi: nat) {
      && lo <= hi <= |before| == |after|
      && Sorted(less, after[lo..hi]) && multiset(after[lo..hi]) == multiset(before[lo..hi])
      && forall k :: 0 <= k < lo || hi <= k < |before| ==> after[k] == before[k]
    }

    method SortPart(lo: nat, hi: nat)
      requires Configured() && lo <= hi <= bufferSize <= buffer.Length
      modifies buffer
      ensures PartSorted(old(buffer[..bufferSize]), buffer[..bufferSize], lo, hi)
    {
      hide Sorted;
      SliceOfTake(buffer[..], bufferSize, lo, hi);
      StdSort(lo, hi);
      SliceOfTake(buffer[..], bufferSize, lo, hi);
    }

    lemma SliceOfTake(s: seq<T>, n: nat, lo: nat, hi: nat)
      requires lo <= hi <= n <= |s|
      ensures s[..n][lo..hi] == s[lo..hi]
    {
    }

    lemma TilesOrdered(starts: seq<nat>, ends: seq<nat>, size: nat, t: nat)
      requires ParallelSort.Tiles(starts, ends, 0, size) && t < |starts|
      ensures |starts| == |ends| && starts[t] <= ends[t] <= size && forall i :: 0 <= i < t ==> ends[i] <= starts[t]
    {
      ParallelSort.TilesRise(starts, ends, 0, size, t, |starts| - 1);
      forall i | 0 <= i < t ensures ends[i] <= starts[t] {
        ParallelSort.TilesRise(starts, ends, 0, size, i, t - 1);
      }
    }

    lemma PartsSorted(before: seq<T>, after: seq<T>, starts: seq<nat>, ends: seq<nat>, t: nat)
      requires ParallelSort.Tiles(starts, ends, 0, |before|) && |starts| == |ends| && t < |starts|
      requires PartSorted(before, after, starts[t], ends[t])
      requires forall i :: 0 <= i < t ==> ParallelSort.Run(less, before, starts[i], ends[i])
      ensures multiset(after) == multiset(before)
      ensures forall i :: 0 <= i <= t ==> ParallelSort.Run(less, after, starts[i], ends[i])
    {
      hide Sorted, ParallelSort.Run, ParallelSort.Tiles;
      TilesOrdered(starts, ends, |before|, t);
      SameOutside(before, after, starts[t], ends[t]);
      RunOfSorted(after, starts[t], ends[t]);
      forall i | 0 <= i < t ensures ParallelSort.Run(less, after, starts[i], ends[i]) {
        RunKept(before, after, starts[i], ends[i]);
      }
    }

    lemma SameOutside(before: seq<T>, after: seq<T>, lo: nat, hi: nat)
      requires lo <= hi <= |before| == |after| && multiset(after[lo..hi]) == multiset(before[lo..hi])
      requires forall k :: 0 <= k < lo || hi <= k < |before| ==> after[k] == before[k]
      ensures multiset(after) == multiset(before)
    {
      assert after[..lo] == before[..lo] && after[hi..] == before[hi..];
      assert before == before[..lo] + before[lo..hi] + before[hi..];
      assert after == after[..lo] + after[lo..hi] + after[hi..];
    }

    lemma RunOfSorted(s: seq<T>, lo: nat, hi: nat)
      requires lo <= hi <= |s| && Sorted(less, s[lo..hi])
      ensures ParallelSort.Run(less, s, lo, hi)
    {
      forall i, j | lo <= i < j < hi ensures !less(s[j], s[i]) {
        assert s[j] == s[lo..hi][j - lo] && s[i] == s[lo..hi][i - lo];
      }
    }

    lemma RunKept(before: seq<T>, after: seq<T>, lo: nat, hi: nat)
      requires ParallelSort.Run(less, before, lo, hi) && |before| == |after|
      requires forall k :: lo <= k < hi ==> after[k] == before[k]
      ensures ParallelSort.Run(less, after, lo, hi)
    {
    }

    /** sort_buffer: the result may be the buffer itself or a new one. */
    method SortBuffer() returns (b: array<T>)
      requires Configured() && bufferSize <= buffer.Length
      requires bufferSize < PARALLEL_THRESHOLD || threads * threads <= bufferSize
      modifies buffer
      ensures (b == buffer || fresh(b)) && bufferSize <= b.Length
      ensures Sorted(less, b[..bufferSize]) && multiset(b[..bufferSize]) == multiset(old(buffer[..bufferSize]))
    {
      if bufferSize < PARALLEL_THRESHOLD {
        StdSort(0, bufferSize);
        return buffer;
      }
      var starts, ends := ParallelSort.Divide(bufferSize, threads);
      SortParts(starts, ends);
      if threads == 1 {
        WholeRun(buffer[..bufferSize]);
        return buffer;
      }
      ParallelSort.FirstPivotExists(bufferSize, threads);
      ParallelSort.AtLeastTimes(bufferSize, threads, threads);
      b := ParallelSort.Merge(less, buffer[..bufferSize], starts, ends);
      assert b[..bufferSize] == b[..];
    }

    lemma WholeRun(s: seq<T>)
      requires ParallelSort.Run(less, s, 0, |s|)
      ensures Sorted(less, s)
    {
    }

    // -------------------------------------------------------------- inserting and sorting

    /** What operator<< and sort do with a sorted buffer when there are, or have to be, files. */
    method FlushBuffer()
      requires Configured() && bufferSize <= buffer.Length && SortedRuns(less, Runs(tmpFiles))
      requires bufferSize < PARALLEL_THRESHOLD || threads * threads <= bufferSize
      modifies `tmpFiles, `bufferSize, buffer
      ensures SortedRuns(less, Runs(tmpFiles)) && |tmpFiles| == |old(tmpFiles)| + 1 && bufferSize == 0
      ensures Left(Runs(tmpFiles)) == Left(Runs(old(tmpFiles))) + multiset(old(buffer[..bufferSize]))
    {
      var b := SortBuffer();
      var file := TmpFile(b[..bufferSize], 0, [], 0);
      OneMoreRun(tmpFiles, file);
      tmpFiles := tmpFiles + [file];
      bufferSize := 0;
    }

    lemma OneMoreRun(files: seq<TmpFile<T>>, file: TmpFile<T>)
      requires SortedRuns(less, Runs(files)) && Sorted(less, file.content)
      ensures SortedRuns(less, Runs(files + [file]))
      ensures Left(Runs(files + [file])) == Left(Runs(files)) + multiset(file.content)
    {
      var cs := Runs(files + [file]);
      assert cs[..|files|] == Runs(files);
      assert cs[|files|].Rest() == file.content;
    }

    /** operator<< */
    method Insert(element: T)
      requires Loading()
      modifies `tmpFiles, `bufferSize, `inserted, buffer
      ensures Loading() && inserted == old(inserted) + multiset{element}
    {
      hide Collected;
      if bufferSize >= buffer.Length {
        MakeRoom();
      }
      Append(element);
    }

    /** The buffer is full: it becomes a file. */
    method MakeRoom()
      requires Collected() && bufferSize >= buffer.Length
      modifies `tmpFiles, `bufferSize, buffer
      ensures Collected() && bufferSize == 0 < buffer.Length
    {
      hide SortedRuns, Left, StrictWeak, Sorts, EveryCutHasPivot;
      CutsFind();
      FlushBuffer();
      assert buffer[..0] == [];
    }

    lemma CutsFind()
      requires EveryCutHasPivot(threads, buffer.Length) && bufferSize <= buffer.Length
      ensures bufferSize < PARALLEL_THRESHOLD || threads * threads <= bufferSize
    {
    }

    method Append(element: T)
      requires Collected() && bufferSize < buffer.Length
      modifies `bufferSize, `inserted, buffer
      ensures Collected() && bufferSize > 0 && inserted == old(inserted) + multiset{element}
    {
      hide SortedRuns, Left, Configured, EveryCutHasPivot;
      buffer[bufferSize] := element;
      bufferSize := bufferSize + 1;
      inserted := inserted + multiset{element};
      OneMore(Left(Runs(tmpFiles)), old(buffer[..bufferSize]), buffer[..bufferSize], element, old(inserted));
    }

    lemma OneMore(files: multiset<T>, before: seq<T>, after: seq<T>, x: T, all: multiset<T>)
      requires after == before + [x] && files + multiset(before) == all
      ensures files + multiset(after) == all + multiset{x}
    {
    }

    method InsertAll(input: seq<T>)
      requires Loading()
      modifies `tmpFiles, `bufferSize, `inserted, buffer
      ensures Loading() && inserted == old(inserted) + multiset(input)
    {
      hide Loading;
      for i := 0 to |input|
        invariant Loading() && inserted == old(inserted) + multiset(input[..i])
      {
        Insert(input[i]);
        assert input[..i + 1] == input[..i] + [input[i]];
      }
      assert input[..|input|] == input;
    }

    /** What next_block has handed out, and what it has still to hand out. */
    ghost predicate Streaming()
      reads this, buffer
    {
      && Configured() && size == 0 && bufferSize <= buffer.Length && |tmpFiles| != 1
      && (if tmpFiles == [] then
            && Sorted(less, buffer[..bufferSize]) && multiset(buffer[..bufferSize]) == inserted
            && emitted == (if done then buffer[..bufferSize] else [])
          else
            && buffer.Length == tmpBufferCapacity && FilesReady(tmpFiles)
            && Midway(less, emitted, Rests(tmpFiles), inserted)
            && (done ==> multiset(emitted) == inserted))
    }

    /** Each file holds a sorted run, and together they are what was inserted. */
    ghost predicate FilesReady(files: seq<TmpFile<T>>)
      reads `inserted
    {
      AllFilesOk(files) && SortedRuns(less, Runs(files)) && Left(Runs(files)) == inserted
    }

    /** "Start the cursor for each file", as sort and rewind_sorted do. */
    method StartCursors()
      requires Configured() && SortedRuns(less, Runs(tmpFiles)) && Left(Runs(tmpFiles)) == inserted
      modifies `tmpFiles, `emitted
      ensures emitted == [] && FilesReady(tmpFiles) && Midway(less, emitted, Rests(tmpFiles), inserted)
      ensures |tmpFiles| == |old(tmpFiles)|
    {
      hide SortedRuns, Left, Midway;
      for i := 0 to |tmpFiles|
        invariant |tmpFiles| == |old(tmpFiles)| && Runs(tmpFiles) == Runs(old(tmpFiles))
        invariant forall t :: 0 <= t < i ==> tmpFiles[t].Ok() && tmpFiles[t].Rest() == Runs(tmpFiles)[t]
      {
        var file := tmpFiles[i].(pos := 0);
        tmpFiles := tmpFiles[i := file.Read(tmpBufferCapacity)];
      }
      emitted := [];
      assert Rests(tmpFiles) == Runs(tmpFiles);
      StartMidway(less, Rests(tmpFiles));
    }

    /** sort */
    method SortAll()
      requires Loading()
      modifies `tmpFiles, `bufferSize, `buffer, `emitted, buffer
      ensures Streaming() && emitted == [] && !done && inserted == old(inserted)
      ensures buffer == old(buffer) || fresh(buffer)
    {
      if |tmpFiles| == 0 {
        SortInMemory();
      } else {
        SortFiles();
      }
    }

    method SortInMemory()
      requires Loading() && tmpFiles == []
      modifies `buffer, `emitted, buffer
      ensures Streaming() && emitted == [] && !done && fresh(buffer)
    {
      hide StrictWeak, Sorts, SortedRuns, Sorted, Left, Midway, FilesReady, EveryCutHasPivot, Configured;
      CutsFind();
      NoRuns();
      var b := SortBuffer();
      buffer := Shrink(b, bufferSize);
      emitted := [];
    }

    method Shrink(b: array<T>, n: nat) returns (c: array<T>)
      requires n <= b.Length
      ensures fresh(c) && c.Length == n && c[..n] == b[..n]
    {
      c := new T[n](i requires 0 <= i < b.Length reads b => b[i]);
    }

    lemma NoRuns()
      ensures Left(Runs<T>([])) == multiset{}
    {
    }

    method SortFiles()
      requires Loading() && tmpFiles != []
      modifies `tmpFiles, `bufferSize, `buffer, `emitted, buffer
      ensures Streaming() && emitted == [] && !done && fresh(buffer)
    {
      hide StrictWeak, Sorts, SortedRuns, Left, Sorted, Midway, FilesReady, EveryCutHasPivot;
      CutsFind();
      FlushBuffer();
      buffer := new T[tmpBufferCapacity];
      StartCursors();
    }

    /** rewind_sorted */
    method RewindSorted()
      requires Streaming()
      modifies `tmpFiles, `done, `emitted
      ensures Streaming() && emitted == [] && !done && inserted == old(inserted)
    {
      hide StrictWeak, Sorts, SortedRuns, Left, Sorted, Midway;
      done := false;
      emitted := [];
      if tmpFiles != [] {
        StartCursors();
      }
    }

    // -------------------------------------------------------------- next_block

    /** The refill in next_block: whether file t still has an element, which is then in its block. */
    method Refill(t: nat) returns (have: bool)
      requires Configured() && AllFilesOk(tmpFiles) && t < |tmpFiles|
      modifies `tmpFiles
      ensures AllFilesOk(tmpFiles) && Rests(tmpFiles) == Rests(old(tmpFiles))
      ensures forall i :: 0 <= i < |tmpFiles| && i != t ==> tmpFiles[i] == old(tmpFiles)[i]
      ensures have == (Rests(tmpFiles)[t].lo < Rests(tmpFiles)[t].hi)
      ensures if have then tmpFiles[t].index < |tmpFiles[t].block| else tmpFiles[t].block == []
    {
      if |tmpFiles[t].block| <= 0 {
        return false;
      }
      if tmpFiles[t].index >= |tmpFiles[t].block| {
        tmpFiles := tmpFiles[t := tmpFiles[t].Read(tmpBufferCapacity)];
        if |tmpFiles[t].block| <= 0 {
          return false;
        }
      }
      return true;
    }

    /** The inner loop of next_block: the least of the heads of all files. */
    method SelectHead() returns (found: bool, tx: nat)
      requires Configured() && AllFilesOk(tmpFiles) && tmpFiles != []
      modifies `tmpFiles
      ensures AllFilesOk(tmpFiles) && Rests(tmpFiles) == Rests(old(tmpFiles)) && tx < |tmpFiles|
      ensures found ==> LeastHead(less, Rests(tmpFiles), tx) && tmpFiles[tx].index < |tmpFiles[tx].block|
      ensures !found ==> forall t :: 0 <= t < |tmpFiles| ==> tmpFiles[t].block == []
    {
      hide Configured, TmpFile.Ok, LeastSoFar, LeastHead;
      found, tx := false, 0;
      ghost var cs := Rests(tmpFiles);
      NoneSoFar(cs);
      for t := 0 to |tmpFiles|
        invariant AllFilesOk(tmpFiles) && Rests(tmpFiles) == cs && tx < |tmpFiles| && LeastSoFar(cs, t, found, tx)
        invariant found ==> tx < t && tmpFiles[tx].index < |tmpFiles[tx].block|
        invariant !found ==> forall i :: 0 <= i < t ==> tmpFiles[i].block == []
      {
        var have := Refill(t);
        if !have {
          NoHead(cs, t, found, tx);
          continue;
        }
        if found {
          HeadInBlock(tmpFiles[tx]);
        }
        HeadInBlock(tmpFiles[t]);
        OneMoreHead(cs, t, found, tx);
        if !found || less(tmpFiles[t].block[tmpFiles[t].index], tmpFiles[tx].block[tmpFiles[tx].index]) {
          found, tx := true, t;
        }
      }
      if found {
        LeastOfThem(cs, tx);
      }
    }

    /** The least of the first n heads, if there is one among them. */
    ghost predicate LeastSoFar(cs: seq<Cursor<T>>, n: nat, found: bool, tx: nat)
      requires AllOk(cs)
    {
      && n <= |cs| && (found ==> tx < n && cs[tx].lo < cs[tx].hi)
      && forall i :: 0 <= i < n && cs[i].lo < cs[i].hi ==> found && !less(cs[i].data[cs[i].lo], cs[tx].data[cs[tx].lo])
    }

    lemma NoneSoFar(cs: seq<Cursor<T>>)
      requires AllOk(cs)
      ensures LeastSoFar(cs, 0, false, 0)
    {
    }

    lemma NoHead(cs: seq<Cursor<T>>, n: nat, found: bool, tx: nat)
      requires AllOk(cs) && LeastSoFar(cs, n, found, tx) && n < |cs| && cs[n].lo >= cs[n].hi
      ensures LeastSoFar(cs, n + 1, found, tx)
    {
    }

    lemma OneMoreHead(cs: seq<Cursor<T>>, n: nat, found: bool, tx: nat)
      requires Configured() && AllOk(cs) && LeastSoFar(cs, n, found, tx) && n < |cs| && cs[n].lo < cs[n].hi
      ensures found ==> tx < n && cs[tx].lo < cs[tx].hi
      ensures if !found || less(cs[n].data[cs[n].lo], cs[tx].data[cs[tx].lo]) then LeastSoFar(cs, n + 1, true, n)
              else LeastSoFar(cs, n + 1, true, tx)
    {
    }

    lemma LeastOfThem(cs: seq<Cursor<T>>, tx: nat)
      requires AllOk(cs) && LeastSoFar(cs, |cs|, true, tx)
      ensures LeastHead(less, cs, tx)
    {
    }

    lemma HeadInBlock(f: TmpFile<T>)
      requires f.Ok() && f.index < |f.block|
      ensures f.Rest().lo < f.Rest().hi && f.block[f.index] == f.content[f.Rest().lo]
    {
    }

    /** Taking the head of file tx. When no file has anything left, tx is 0 and this does nothing
        that anyone notices. */
    method Take(found: bool, tx: nat)
      requires Configured() && FilesReady(tmpFiles) && Midway(less, emitted, Rests(tmpFiles), inserted) && tx < |tmpFiles|
      requires if found then LeastHead(less, Rests(tmpFiles), tx) && tmpFiles[tx].index < |tmpFiles[tx].block|
               else tmpFiles[tx].block == []
      modifies `tmpFiles, `emitted
      ensures FilesReady(tmpFiles) && Midway(less, emitted, Rests(tmpFiles), inserted) && |tmpFiles| == |old(tmpFiles)|
      ensures emitted == old(emitted) + if found then [old(tmpFiles)[tx].block[old(tmpFiles)[tx].index]] else []
      ensures !found ==> Rests(tmpFiles) == Rests(old(tmpFiles))
    {
      hide StrictWeak, Sorts, Left, SortedRuns, LeastHead, Midway, Sorted;
      ghost var cs := Rests(tmpFiles);
      if found {
        HeadInBlock(tmpFiles[tx]);
        TakeLeast(less, emitted, cs, tx, inserted);
        emitted := emitted + [tmpFiles[tx].block[tmpFiles[tx].index]];
      }
      ghost var before := tmpFiles;
      tmpFiles := tmpFiles[tx := tmpFiles[tx].(index := tmpFiles[tx].index + 1)];
      assert Runs(tmpFiles) == Runs(before);
      assert Rests(tmpFiles) == if found then cs[tx := cs[tx].Advance()] else cs;
    }

    lemma SameRuns(files: seq<TmpFile<T>>, files': seq<TmpFile<T>>)
      requires AllFilesOk(files) && AllFilesOk(files') && Rests(files) == Rests(files')
      ensures Runs(files) == Runs(files')
    {
      assert |Rests(files)| == |Rests(files')|;
      forall t | 0 <= t < |files| ensures files[t].content == files'[t].content {
        assert Rests(files)[t] == Rests(files')[t];
      }
    }

    lemma AllUsedUp()
      requires AllFilesOk(tmpFiles) && Midway(less, emitted, Rests(tmpFiles), inserted)
      requires forall t :: 0 <= t < |tmpFiles| ==> tmpFiles[t].block == []
      ensures multiset(emitted) == inserted
    {
      MergeDone(less, emitted, Rests(tmpFiles), inserted);
    }

    /** The loop of next_block that fills the buffer. */
    method MergeBlock()
      requires Configured() && tmpFiles != [] && FilesReady(tmpFiles) && Midway(less, emitted, Rests(tmpFiles), inserted)
      requires buffer.Length > 0
      modifies `tmpFiles, `bufferSize, `emitted, buffer
      ensures FilesReady(tmpFiles) && Midway(less, emitted, Rests(tmpFiles), inserted) && |tmpFiles| == |old(tmpFiles)|
      ensures bufferSize <= buffer.Length && emitted == old(emitted) + buffer[..bufferSize]
      ensures bufferSize == 0 ==> multiset(emitted) == inserted
    {
      hide StrictWeak, Sorts, Left, SortedRuns, LeastHead, Midway, Sorted, TmpFile.Ok;
      bufferSize := 0;
      assert buffer[..0] == [];
      for w := 0 to buffer.Length
        invariant FilesReady(tmpFiles) && Midway(less, emitted, Rests(tmpFiles), inserted) && |tmpFiles| == |old(tmpFiles)|
        invariant bufferSize == w && emitted == old(emitted) + buffer[..w]
      {
        ghost var files := tmpFiles;
        var found, tx := SelectHead();
        SameRuns(files, tmpFiles);
        if !found {
          AllUsedUp();
        }
        var file := tmpFiles[tx];
        Take(found, tx);
        if !found {
          break;
        }
        ghost var written := buffer[..w];
        buffer[bufferSize] := file.block[file.index];
        bufferSize := bufferSize + 1;
        assert buffer[..w + 1] == written + [file.block[file.index]];
      }
    }

    /** next_block: the block's elements, or that there are no more blocks. */
    method NextBlock() returns (ok: bool, block: seq<T>)
      requires Streaming()
      modifies `tmpFiles, `done, `bufferSize, `emitted, buffer
      ensures Streaming() && ok == !old(done) && emitted == old(emitted) + block
      ensures if ok then done || |block| > 0 else done
      ensures done ==> multiset(emitted) == inserted
    {
      hide Configured, Midway, Sorted, FilesReady;
      if done {
        return false, [];
      }
      if |tmpFiles| > 1 {
        NextMergedBlock();
      } else {
        done := true;
        emitted := emitted + buffer[..bufferSize];
      }
      return true, buffer[..bufferSize];
    }

    /** The branch of next_block that merges. */
    method NextMergedBlock()
      requires Streaming() && !done && |tmpFiles| > 1
      modifies `tmpFiles, `done, `bufferSize, `emitted, buffer
      ensures Streaming() && emitted == old(emitted) + buffer[..bufferSize]
      ensures done || bufferSize > 0
      ensures done ==> multiset(emitted) == inserted
    {
      hide StrictWeak, Sorts, Left, SortedRuns, LeastHead, Midway, Sorted, FilesReady;
      MergeBlock();
      if bufferSize == 0 {
        done := true;
      }
    }

    /** Reading the stream to its end. */
    method Drain() returns (all: seq<T>)
      requires Streaming() && emitted == []
      modifies `tmpFiles, `done, `bufferSize, `emitted, buffer
      ensures Streaming() && Sorted(less, all) && multiset(all) == inserted
    {
      hide StrictWeak, Sorts, Left, SortedRuns, Sorted;
      all := [];
      var ok := true;
      while ok
        invariant Streaming() && emitted == all && (!ok ==> done)
        invariant done ==> multiset(emitted) == inserted
        decreases ok, !done, |inserted| - |emitted|
      {
        StillInside();
        var block: seq<T>;
        ok, block := NextBlock();
        all := all + block;
      }
      EmittedSorted();
    }

    lemma StillInside()
      requires Streaming()
      ensures |emitted| <= |inserted|
    {
      if tmpFiles == [] {
        assert |multiset(buffer[..bufferSize])| == bufferSize;
      } else {
        MidwayCount(less, emitted, Rests(tmpFiles), inserted);
      }
    }

    lemma MidwayCount(less: (T, T) -> bool, output: seq<T>, cs: seq<Cursor<T>>, all: multiset<T>)
      requires Midway(less, output, cs, all)
      ensures |output| <= |all|
    {
      assert |multiset(output) + Left(cs)| == |output| + |Left(cs)|;
    }

    lemma EmittedSorted()
      requires Streaming()
      ensures Sorted(less, emitted)
    {
    }
  }

  /** Everything together: whatever is inserted, in whatever order and however small the buffers, the
      blocks are a sorted permutation of it, and they are so again after a rewind. */
  method SortStream<T(!new, 0)>(less: (T, T) -> bool, sorter: seq<T> -> seq<T>, threads: nat, bufferCapacity: nat, tmpBufferCapacity: nat, input: seq<T>)
    returns (once: seq<T>, again: seq<T>)
    requires StrictWeak(less) && Sorts(less, sorter) && threads > 0 && EveryCutHasPivot(threads, bufferCapacity)
    requires bufferCapacity > 0 && tmpBufferCapacity > 0
    ensures Sorted(less, once) && multiset(once) == multiset(input)
    ensures Sorted(less, again) && multiset(again) == multiset(input)
  {
    hide StrictWeak, Sorts, Sorted, Sort.Streaming, Sort.Loading;
    var xs := new Sort(less, sorter, threads, bufferCapacity, tmpBufferCapacity);
    xs.InsertAll(input);
    xs.SortAll();
    once := xs.Drain();
    xs.RewindSorted();
    again := xs.Drain();
  }
}
