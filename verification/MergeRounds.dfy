/** Rounds of merging, one after another: what a round merges in terms of the checkpoints taken in it, what
    a rank must have heard, and what is left of a round when the next begins (dllama/snapshot_merger.cpp,
    dllama/dllama.cpp). */
module MergeRounds {
  import opened Channels
  import opened MergeBarrier
  import opened Sequences

  // ---------------------------------------------------------------- checkpoints and merges

  /** The vertex counts with which rank i took its checkpoints. */
  function Checkpoints(steps: seq<Step>, i: nat): seq<nat> {
    if steps == [] then []
    else (if steps[0].Checkpoint? && steps[0].i == i then [steps[0].vertices] else []) + Checkpoints(steps[1..], i)
  }

  /** Each checkpoint adds a level and brings current_snapshot_level up to date. */
  ghost predicate After(before: Rank, checkpoints: seq<nat>, after: Rank) {
    && after.graphLevels == before.graphLevels + |checkpoints|
    && if checkpoints == [] then after.level == before.level && after.vertices == before.vertices
       else after.level == after.graphLevels && after.vertices == checkpoints[|checkpoints| - 1]
  }

  lemma StepAfter(s: System, step: Step, i: nat)
    requires Square(s) && Enabled(s, step) && i < |s.ranks|
    ensures |Next(s, step).ranks| == |s.ranks|
    ensures After(s.ranks[i], if step.Checkpoint? && step.i == i then [step.vertices] else [], Next(s, step).ranks[i])
  {
  }

  lemma {:induction false} RunAfter(s: System, steps: seq<Step>, t: System, base: nat, i: nat)
    requires Inv(s, base) && Run(s, steps, t, base) && i < |s.ranks|
    ensures |t.ranks| == |s.ranks| && After(s.ranks[i], Checkpoints(steps, i), t.ranks[i])
    decreases steps
  {
    hide Inv, Next;
    if steps != [] {
      InvSquare(s, base);
      StepKeepsInv(s, steps[0], base);
      StepAfter(s, steps[0], i);
      RunAfter(Next(s, steps[0]), steps[1..], t, base, i);
    }
  }

  /** Rank k has written no snapshot in any round, or has taken a checkpoint in this one. */
  predicate Ready(s: System, steps: seq<Step>, k: nat)
    requires k < |s.ranks|
  {
    s.ranks[k].level == 2 || Checkpoints(steps, k) != []
  }

  lemma ReadyIsUpToDate(s: System, steps: seq<Step>, t: System, base: nat, k: nat)
    requires RoundStart(s, base) && (StartOk(s, base); Run(s, steps, t, base)) && k < |s.ranks|
    ensures |t.ranks| == |s.ranks| && (UpToDate(t.ranks[k]) <==> Ready(s, steps, k))
    ensures t.ranks[k].graphLevels == 2 + |Checkpoints(steps, k)|
    ensures t.ranks[k].vertices == if Checkpoints(steps, k) == [] then s.ranks[k].vertices else Checkpoints(steps, k)[|Checkpoints(steps, k)| - 1]
  {
    hide Inv, Run;
    StartOk(s, base);
    RunAfter(s, steps, t, base, k);
  }

  /** What a rank has merged, in every state of every round: of every other rank as many files as that rank
      took checkpoints, with the vertex count of the last of them; and its own last count. */
  lemma MergedCheckpoints(s: System, steps: seq<Step>, t: System, base: nat, i: nat, k: nat)
    requires RoundStart(s, base) && (StartOk(s, base); Run(s, steps, t, base))
    requires i < |t.ranks| && t.ranks[i].merges != [] && k < |t.ranks| == |s.ranks|
    ensures |t.ranks[i].merges| == 1 && |t.ranks[i].merges[0].snapshots| == |t.ranks[i].merges[0].counts| == |t.ranks|
    ensures var m, taken := t.ranks[i].merges[0], Checkpoints(steps, k);
            && (k != i ==> Ready(s, steps, k))
            && m.snapshots[k] == (if Ready(s, steps, k) then |taken| else s.ranks[k].level - 2)
            && m.counts[k] == if taken != [] then taken[|taken| - 1] else if k == i then s.ranks[k].vertices else 0
  {
    hide Inv, Run;
    Agreement(s, steps, t, base, i);
    ReadyIsUpToDate(s, steps, t, base, k);
    StartOk(s, base);
    RunAfter(s, steps, t, base, k);
  }

  /** When nothing is in flight any more, exactly the ranks have merged for which all others were ready. */
  lemma WhoMerges(s: System, steps: seq<Step>, t: System, base: nat, first: nat, i: nat)
    requires RoundStart(s, base) && (StartOk(s, base); Run(s, steps, t, base))
    requires first < |t.ranks| && Done(t.ranks[first]) && i < |t.ranks|
    requires |t.chan| == |t.ranks| == |s.ranks|
    requires forall a, b :: 0 <= a < |t.chan| && 0 <= b < |t.chan[a]| ==> t.chan[a][b] == []
    ensures t.ranks[i].merges != [] <==> forall k :: 0 <= k < |s.ranks| && k != i ==> Ready(s, steps, k)
  {
    hide Inv, Run, RoundStart, Ready, UpToDate;
    Completion(s, steps, t, base, first, i);
    forall k | 0 <= k < |s.ranks| ensures UpToDate(t.ranks[k]) <==> Ready(s, steps, k) {
      ReadyIsUpToDate(s, steps, t, base, k);
    }
  }

  /** In the first round everybody does. */
  lemma FirstRound(s: System, steps: seq<Step>, t: System, base: nat, first: nat, i: nat)
    requires Initial(s, base) && (StartOk(s, base); Run(s, steps, t, base))
    requires first < |t.ranks| && Done(t.ranks[first]) && i < |t.ranks|
    requires |t.chan| == |t.ranks| == |s.ranks|
    requires forall a, b :: 0 <= a < |t.chan| && 0 <= b < |t.chan[a]| ==> t.chan[a][b] == []
    ensures t.ranks[i].merges != []
  {
    hide Inv, Run, RoundStart;
    WhoMerges(s, steps, t, base, first, i);
  }

  // ---------------------------------------------------------------- who must have been heard

  /** In the course of the run a merge request of rank k arrives at rank i. */
  ghost predicate Arrives(s: System, steps: seq<Step>, base: nat, k: nat, i: nat)
    requires Inv(s, base)
    decreases steps
  {
    steps != [] && Enabled(s, steps[0])
    && ((steps[0] == Deliver(k, i) && s.chan[k][i][0].MergeRequest?)
        || (StepKeepsInv(s, steps[0], base); Arrives(Next(s, steps[0]), steps[1..], base, k, i)))
  }

  lemma StillWaiting(s: System, step: Step, base: nat, k: nat, i: nat)
    requires Inv(s, base) && Enabled(s, step) && i < |s.ranks| && k < |s.ranks| && k != i
    requires s.ranks[i].merges == [] && s.ranks[i].expected[k] == -1
    requires !(step == Deliver(k, i) && s.chan[k][i][0].MergeRequest?)
    ensures |Next(s, step).ranks| == |s.ranks| && Inv(Next(s, step), base)
    ensures Next(s, step).ranks[i].merges == [] && Next(s, step).ranks[i].expected[k] == -1
  {
    hide Inv, Next, OnMergeRequest;
    InvSquare(s, base);
    InvRank(s, base, i);
    StepKeepsInv(s, step, base);
    InvSquare(Next(s, step), base);
    if step.Begin? && step.i == i {
      NotYet(s.ranks[i], i, i, 2, |s.ranks|, k);
    } else if step.Deliver? && step.j == i && s.chan[step.i][i][0].MergeRequest? {
      NotYet(s.ranks[i], i, step.i, s.chan[step.i][i][0].level, |s.ranks|, k);
    }
    StepOf(s, step, i);
  }

  /** What a step does to rank i. */
  lemma StepOf(s: System, step: Step, i: nat)
    requires Square(s) && Enabled(s, step) && i < |s.ranks|
    ensures |Next(s, step).ranks| == |s.ranks|
    ensures Next(s, step).ranks[i] ==
            if step.Begin? && step.i == i then OnMergeRequest(s.ranks[i], i, i, 2, |s.ranks|).0
            else if step.Checkpoint? && step.i == i then OnCheckpoint(s.ranks[i], i, step.vertices, |s.ranks|).0
            else if step.Deliver? && step.j == i then
              match s.chan[step.i][i][0]
              case Snapshot(fileNumber, vertices) => OnSnapshot(s.ranks[i], step.i, fileNumber, vertices)
              case MergeRequest(level) => OnMergeRequest(s.ranks[i], i, step.i, level, |s.ranks|).0
            else s.ranks[i]
  {
    hide OnMergeRequest, OnCheckpoint, OnSnapshot;
  }

  lemma NotYet(r: Rank, i: nat, source: nat, level: nat, n: nat, k: nat)
    requires RankOkFor(r, n) && i < n && source < n && k < n && k != i && k != source && r.expected[k] == -1 && r.merges == []
    ensures var r' := OnMergeRequest(r, i, source, level, n).0; r'.merges == [] && |r'.expected| == n && r'.expected[k] == -1
  {
    assert r.received[k] != r.expected[source := level - 2][k];
  }

  ghost predicate RankOkFor(r: Rank, n: nat) {
    |r.received| == |r.expected| == |r.receivedVertices| == n && forall k :: 0 <= k < n ==> 0 <= r.received[k]
  }

  lemma {:induction false} WaitsFor(s: System, steps: seq<Step>, t: System, base: nat, k: nat, i: nat)
    requires Inv(s, base) && Run(s, steps, t, base) && i < |s.ranks| && k < |s.ranks| && k != i
    requires |s.ranks[i].expected| == |s.ranks|
    requires s.ranks[i].merges == [] && s.ranks[i].expected[k] == -1
    requires i < |t.ranks| && t.ranks[i].merges != []
    ensures Arrives(s, steps, base, k, i)
    decreases steps
  {
    hide Inv, Next;
    InvSquare(s, base);
    if !(steps[0] == Deliver(k, i) && s.chan[k][i][0].MergeRequest?) {
      StillWaiting(s, steps[0], base, k, i);
      InvSquare(Next(s, steps[0]), base);
      WaitsFor(Next(s, steps[0]), steps[1..], t, base, k, i);
    }
  }

  /** In every round a rank that merges has heard, in that round, the request of every other rank. */
  lemma HeardEverybody(s: System, steps: seq<Step>, t: System, base: nat, i: nat, k: nat)
    requires RoundStart(s, base) && (StartOk(s, base); Run(s, steps, t, base))
    requires i < |t.ranks| == |s.ranks| && t.ranks[i].merges != [] && k < |s.ranks| && k != i
    ensures (StartOk(s, base); Arrives(s, steps, base, k, i))
  {
    hide Inv, Run;
    StartOk(s, base);
    WaitsFor(s, steps, t, base, k, i);
  }

  // ---------------------------------------------------------------- from round to round

  /** The graph has been reloaded, and has two levels again. */
  function Reload(r: Rank): Rank {
    r.(graphLevels := 2, merges := [])
  }

  function NewRound(t: System): System {
    t.(ranks := seq(|t.ranks|, i requires 0 <= i < |t.ranks| => Reload(t.ranks[i])))
  }

  predicate AllMerged(t: System) {
    forall i :: 0 <= i < |t.ranks| ==> t.ranks[i].merges != []
  }

  /** A round in which all have merged leaves the ranks ready for another: nothing is in flight, nothing is
      received, and everybody has to be heard from. */
  lemma RoundEnds(s: System, steps: seq<Step>, t: System, base: nat)
    requires RoundStart(s, base) && (StartOk(s, base); Run(s, steps, t, base)) && AllMerged(t)
    ensures RoundStart(NewRound(t), base)
  {
    hide Run, LinkOk;
    StartOk(s, base);
    RunKeeps(s, steps, t, base);
    forall i, j | 0 <= i < |t.ranks| && 0 <= j < |t.ranks| ensures t.chan[i][j] == [] {
      Agreement(s, steps, t, base, j);
    }
    forall i | 0 <= i < |t.ranks| ensures RankStart(NewRound(t).ranks[i], i, |t.ranks|, base) {
      assert RankOk(t.ranks[i], i, |t.ranks|, base);
    }
  }

  /** t is where a new round may begin, after these rounds, in each of which all merged. */
  ghost predicate Rounds(s: System, rounds: seq<seq<Step>>, t: System, base: nat)
    requires RoundStart(s, base)
    decreases rounds
  {
    if rounds == [] then t == s
    else
      exists u :: (StartOk(s, base); Run(s, rounds[0], u, base)) && AllMerged(u)
        && (RoundEnds(s, rounds[0], u, base); Rounds(NewRound(u), rounds[1..], t, base))
  }

  lemma {:induction false} AnyRound(s: System, rounds: seq<seq<Step>>, t: System, base: nat)
    requires RoundStart(s, base) && Rounds(s, rounds, t, base)
    ensures RoundStart(t, base)
    decreases rounds
  {
    hide RoundStart, Run, AllMerged;
    if rounds != [] {
      var u :| (StartOk(s, base); Run(s, rounds[0], u, base)) && AllMerged(u)
        && (RoundEnds(s, rounds[0], u, base); Rounds(NewRound(u), rounds[1..], t, base));
      RoundEnds(s, rounds[0], u, base);
      AnyRound(NewRound(u), rounds[1..], t, base);
    }
  }

  // ---------------------------------------------------------------- a rank that is not ready

  /** Two ranks, in the first round of which rank 0 writes a snapshot. Both merge, and then rank 0 begins
      another round without a new checkpoint: it announces the file of the first round again, so that rank 1
      waits for a file that nobody will send, while rank 0 merges that file, which has been deleted. */
  method StaleLevel(vertices: nat) returns (first: SnapshotMerger, second: SnapshotMerger)
    ensures first.View() == Rank(false, 3, 2, vertices + 1, [0, 0], [0, -1], [0, 0], [Merge([1, 0], [vertices + 1, 0])])
    ensures second.View() == Rank(true, 2, 2, vertices, [0, 0], [1, 0], [0, 0], [])
    ensures first.sent == [Out(1, MergeRequest(3))] && second.sent == [Out(0, MergeRequest(2))]
  {
    hide OnMergeRequest, SnapshotMerger.View;
    first, second := OneRound(vertices);
    first.NextRound();
    second.NextRound();
    AnnounceAgain(first, second, vertices);
  }

  /** The second round: the merge requests of both. */
  method AnnounceAgain(first: SnapshotMerger, second: SnapshotMerger, ghost vertices: nat)
    requires TwoOf(first, second) && first.sent == [] && second.sent == []
    requires first.View() == Rank(false, 3, 2, vertices + 1, [0, 0], [0, -1], [0, 0], [])
    requires second.View() == Rank(false, 2, 2, vertices, [0, 0], [-1, 0], [0, 0], [])
    modifies first, second, Arrays(first), Arrays(second)
    ensures first.View() == Rank(false, 3, 2, vertices + 1, [0, 0], [0, -1], [0, 0], [Merge([1, 0], [vertices + 1, 0])])
    ensures second.View() == Rank(true, 2, 2, vertices, [0, 0], [1, 0], [0, 0], [])
    ensures first.sent == [Out(1, MergeRequest(3))] && second.sent == [Out(0, MergeRequest(2))]
  {
    hide OnMergeRequest, SnapshotMerger.View;
    Joins(first.View(), 0, 0, 2, [0, 0], [0, -1], [0, -1]);
    first.HandleMergeRequest(0, 2);
    Joins(second.View(), 1, 0, 3, [0, 0], [-1, 0], [1, 0]);
    second.HandleMergeRequest(0, 3);
    Merges(first.View(), 0, 1, 2, [0, 0], [0, -1], Merge([1, 0], [vertices + 1, 0]));
    first.HandleMergeRequest(1, 2);
  }

  /** The first of the two rounds. */
  method OneRound(vertices: nat) returns (first: SnapshotMerger, second: SnapshotMerger)
    ensures TwoOf(first, second) && fresh(first) && fresh(second) && fresh(Arrays(first)) && fresh(Arrays(second))
    ensures first.View() == Rank(false, 3, 3, vertices + 1, [0, 0], [0, -1], [0, 0], [Merge([1, 0], [vertices + 1, 0])])
    ensures second.View() == Rank(false, 2, 2, vertices, [0, 0], [-1, 0], [0, 0], [Merge([1, 0], [vertices + 1, vertices])])
  {
    hide OnMergeRequest, SnapshotMerger.View;
    first, second := OneSnapshot(vertices);
    Joins(first.View(), 0, 0, 2, [0, 0], [0, -1], [0, -1]);
    first.HandleMergeRequest(0, 2);
    Merges(second.View(), 1, 0, 3, [1, 0], [-1, 0], Merge([1, 0], [vertices + 1, vertices]));
    second.HandleMergeRequest(0, 3);
    Merges(first.View(), 0, 1, 2, [0, 0], [0, -1], Merge([1, 0], [vertices + 1, 0]));
    first.HandleMergeRequest(1, 2);
  }

  /** Up to the arrival of the snapshot. */
  method OneSnapshot(vertices: nat) returns (first: SnapshotMerger, second: SnapshotMerger)
    ensures TwoOf(first, second) && fresh(first) && fresh(second) && fresh(Arrays(first)) && fresh(Arrays(second))
    ensures first.View() == Rank(false, 3, 3, vertices + 1, [0, 0], [0, -1], [0, 0], [])
    ensures second.View() == Rank(false, 2, 2, vertices, [1, 0], [-1, 0], [vertices + 1, 0], [])
  {
    hide OnCheckpoint, OnSnapshot, Fresh, SnapshotMerger.View;
    FreshTwo();
    first := new SnapshotMerger(0, 2, 2, vertices);
    second := new SnapshotMerger(1, 2, 2, vertices);
    Checkpointing(first.View(), 0, vertices + 1);
    first.Checkpoint(vertices + 1);
    Snapshots(second.View(), 1, vertices + 1);
    second.HandleSnapshotMessage(0, 1, vertices + 1);
  }

  /** Ranks 0 and 1 of two, which have no array in common. */
  ghost predicate TwoOf(first: SnapshotMerger, second: SnapshotMerger) {
    && first != second && first.Valid() && second.Valid() && Arrays(first) !! Arrays(second)
    && first.self == 0 && second.self == 1 && first.worldSize == second.worldSize == 2
  }

  ghost function Arrays(m: SnapshotMerger): set<object> {
    {m.receivedSnapshotLevels as object, m.expectedSnapshotLevels as object, m.receivedNumVertices as object}
  }

  lemma FreshTwo()
    ensures Fresh(2, 0) == ([0, 0], [0, -1], [0, 0]) && Fresh(2, 1) == ([0, 0], [-1, 0], [0, 0])
  {
    assert Fresh(2, 0).0 == [0, 0] == Fresh(2, 1).0;
    assert Fresh(2, 0).1 == [0, -1] && Fresh(2, 1).1 == [-1, 0];
    assert Fresh(2, 0).2 == [0, 0] == Fresh(2, 1).2;
  }

  lemma BroadcastTwo(m: Msg, self: nat)
    requires self < 2
    ensures Broadcast(m, self, 2) == [Out(1 - self, m)]
  {
    assert Broadcast(m, self, 1) == if self == 0 then [] else [Out(0, m)];
  }

  lemma Checkpointing(r: Rank, self: nat, vertices: nat)
    requires self < 2 && r.graphLevels == 2
    ensures OnCheckpoint(r, self, vertices, 2) == (r.(level := 3, graphLevels := 3, vertices := vertices), [Out(1 - self, Snapshot(1, vertices))])
  {
    BroadcastTwo(Snapshot(1, vertices), self);
  }

  lemma Snapshots(r: Rank, fileNumber: nat, vertices: nat)
    requires r.received == [0, 0] && r.receivedVertices == [0, 0]
    ensures OnSnapshot(r, 0, fileNumber, vertices) == r.(received := [fileNumber, 0], receivedVertices := [vertices, 0])
  {
  }

  /** A rank of two that hears a merge request and has to wait. */
  lemma Joins(r: Rank, self: nat, source: nat, level: nat, received: seq<int>, expected: seq<int>, expected': seq<int>)
    requires self < 2 && source < 2 && |r.receivedVertices| == 2 && r.received == received && r.expected == expected
    requires |received| == |expected| == 2 && expected' == expected[source := level - 2] && received != expected'
    ensures OnMergeRequest(r, self, source, level, 2)
         == (r.(joined := true, expected := expected'), if r.joined then [] else [Out(1 - self, MergeRequest(r.level))])
  {
    BroadcastTwo(MergeRequest(r.level), self);
  }

  /** A rank of two that hears a merge request and merges. */
  lemma Merges(r: Rank, self: nat, source: nat, level: nat, received: seq<int>, expected: seq<int>, merge: Merge)
    requires self < 2 && source < 2 && |r.receivedVertices| == 2 && r.received == received && r.expected == expected
    requires |received| == |expected| == 2 && received == expected[source := level - 2]
    requires merge.snapshots == received[self := r.level - 2] && merge.counts == r.receivedVertices[self := r.vertices]
    ensures OnMergeRequest(r, self, source, level, 2)
         == (r.(joined := false, received := [0, 0], expected := if self == 0 then [0, -1] else [-1, 0], receivedVertices := [0, 0],
                merges := r.merges + [merge]),
             if r.joined then [] else [Out(1 - self, MergeRequest(r.level))])
  {
    FreshTwo();
    BroadcastTwo(MergeRequest(r.level), self);
  }
}
