/** One round of merging on all ranks, from the messages to the files: begin_merge and merge_snapshots
    (dllama/snapshot_merger.cpp). */
module DistributedMerge {
  import opened ChainWalk
  import opened MergeBarrier
  import opened SnapshotFile
  import SnapshotMerge

  /** In a round, two ranks have merged; the stacks are the files each rank had written when it joined,
      of which each of the two read as many as its own merge says. */
  ghost predicate BothMerged(s: System, steps: seq<Step>, t: System, vertices: nat, i: nat, k: nat, stacks: seq<Stack>) {
    && RoundStart(s, vertices) && (StartOk(s, vertices); Run(s, steps, t, vertices))
    && i < |t.ranks| && t.ranks[i].merges != [] && k < |t.ranks| && t.ranks[k].merges != []
    && |stacks| == |t.ranks| == |t.ranks[i].merges[0].snapshots|
    && forall r :: 0 <= r < |stacks| ==> |stacks[r]| == t.ranks[i].merges[0].snapshots[r]
  }

  /** So they agree on how many files there are, and the lists they make of them are the same. */
  lemma RanksMergeAlike(s: System, steps: seq<Step>, t: System, vertices: nat, i: nat, k: nat,
                        stacks: seq<Stack>, base: File, facts: SnapshotMerge.Facts, lists: seq<seq<nat>>, lists': seq<seq<nat>>)
    requires BothMerged(s, steps, t, vertices, i, k, stacks)
    requires SnapshotMerge.InputsOk(stacks, base, t.ranks[i].merges[0].counts, i, false, facts)
    requires SnapshotMerge.InputsOk(stacks, base, t.ranks[k].merges[0].counts, k, false, facts)
    requires SnapshotMerge.Merged(t.ranks[i].merges[0].counts, i, false, facts, lists)
    requires SnapshotMerge.Merged(t.ranks[k].merges[0].counts, k, false, facts, lists')
    ensures t.ranks[k].merges[0].snapshots == t.ranks[i].merges[0].snapshots
    ensures lists == lists'
  {
    hide SnapshotMerge.InputsOk, SnapshotMerge.Merged, RoundStart, Run;
    SameMerge(s, steps, t, vertices, i, k);
    var (m, m') := (t.ranks[i].merges[0], t.ranks[k].merges[0]);
    forall r | 0 <= r < |m.counts| && m.counts[r] != m'.counts[r] ensures stacks[r] == [] {
      assert m.snapshots[r] == 0;
    }
    SnapshotMerge.AnyRankMergesAlike(stacks, base, facts, m.counts, i, m'.counts, k, lists, lists');
  }

  /** The new level 0 that rank i writes and the one that rank k writes read back as the same lists,
      whatever the order in which checkpoints, merge requests and snapshots met on the way. */
  method MergeOnTwoRanks(ghost s: System, ghost steps: seq<Step>, t: System, ghost vertices: nat, i: nat, k: nat,
                         stacks: seq<Stack>, base: File, blockSize: nat, ghost facts: SnapshotMerge.Facts)
    returns (lists: seq<seq<nat>>, lists': seq<seq<nat>>)
    requires BothMerged(s, steps, t, vertices, i, k, stacks) && blockSize >= META_SIZE
    requires SnapshotMerge.InputsOk(stacks, base, t.ranks[i].merges[0].counts, i, false, facts)
    requires SnapshotMerge.InputsOk(stacks, base, t.ranks[k].merges[0].counts, k, false, facts)
    ensures lists == lists' && SnapshotMerge.Merged(t.ranks[i].merges[0].counts, i, false, facts, lists)
  {
    hide SnapshotMerge.InputsOk, SnapshotMerge.Merged, RoundStart, Run;
    var (m, m') := (t.ranks[i].merges[0], t.ranks[k].merges[0]);
    var file, file', beyond;
    file, lists, beyond := SnapshotMerge.MergeAndReadBack(stacks, base, m.counts, i, false, blockSize, facts);
    file', lists', beyond := SnapshotMerge.MergeAndReadBack(stacks, base, m'.counts, k, false, blockSize, facts);
    RanksMergeAlike(s, steps, t, vertices, i, k, stacks, base, facts, lists, lists');
  }
}
