/** Starting a merge on all ranks: begin_merge, handle_merge_request and handle_snapshot_message
    (dllama/snapshot_merger.cpp) against checkpoint (dllama/dllama.cpp), round after round of merging. */
module MergeBarrier {
  import Sets
  import opened Channels
  import opened Sequences

  datatype Msg = Snapshot(fileNumber: nat, vertices: nat) | MergeRequest(level: nat)

  /** What a rank merges with: how many delta snapshots of each rank, and how many vertices each rank
      has said it has. */
  datatype Merge = Merge(snapshots: seq<int>, counts: seq<nat>)

  /** The state of one rank: merge_starting, current_snapshot_level, the number of levels of its graph,
      dllama_number_of_vertices, and the three arrays of its snapshot_merger.  "merges" records the merges
      it has done in this round. */
  datatype Rank = Rank(
    joined: bool, level: nat, graphLevels: nat, vertices: nat,
    received: seq<int>, expected: seq<int>, receivedVertices: seq<nat>,
    merges: seq<Merge>)

  // ---------------------------------------------------------------- what one rank does

  function Fresh(n: nat, self: nat): (r: (seq<int>, seq<int>, seq<nat>))
    requires self < n
    ensures |r.0| == |r.1| == |r.2| == n
  {
    (seq(n, _ => 0), seq(n, k => if k == self then 0 else -1), seq(n, _ => 0))
  }

  /** checkpoint: a new level, whose file goes to every other rank. */
  function OnCheckpoint(r: Rank, self: nat, vertices: nat, n: nat): (Rank, seq<Out<Msg>>)
    requires 1 <= r.graphLevels
  {
    (r.(level := r.graphLevels + 1, graphLevels := r.graphLevels + 1, vertices := vertices),
     Broadcast(Snapshot(r.graphLevels - 1, vertices), self, n))
  }

  function OnSnapshot(r: Rank, source: nat, fileNumber: nat, vertices: nat): Rank
    requires source < |r.received| && source < |r.receivedVertices|
  {
    r.(received := r.received[source := fileNumber], receivedVertices := r.receivedVertices[source := vertices])
  }

  /** handle_merge_request, from another rank or from begin_merge (source == self, level == 2). */
  function OnMergeRequest(r: Rank, self: nat, source: nat, level: nat, n: nat): (Rank, seq<Out<Msg>>)
    requires self < n && source < n && |r.received| == |r.expected| == |r.receivedVertices| == n
  {
    var joined := r.(joined := true, expected := r.expected[source := level - 2]);
    var outs := if r.joined then [] else Broadcast(MergeRequest(r.level), self, n);
    if r.received == joined.expected then (AfterMerge(joined, self, n), outs) else (joined, outs)
  }

  function AfterMerge(r: Rank, self: nat, n: nat): Rank
    requires self < n && |r.received| == |r.receivedVertices| == n
  {
    var (received, expected, receivedVertices) := Fresh(n, self);
    r.(joined := false, received := received, expected := expected, receivedVertices := receivedVertices,
       merges := r.merges + [Merge(r.received[self := r.level - 2], r.receivedVertices[self := r.vertices])])
  }

  // ---------------------------------------------------------------- the whole system

  datatype System = System(ranks: seq<Rank>, chan: seq<seq<seq<Msg>>>)

  datatype Step = Checkpoint(i: nat, vertices: nat) | Begin(i: nat) | Deliver(i: nat, j: nat)

  ghost predicate Square(s: System) {
    && |s.chan| == |s.ranks|
    && (forall i :: 0 <= i < |s.chan| ==> |s.chan[i]| == |s.ranks|)
    && (forall i :: 0 <= i < |s.ranks| ==>
          && 2 <= s.ranks[i].level && 2 <= s.ranks[i].graphLevels
          && |s.ranks[i].received| == |s.ranks[i].expected| == |s.ranks[i].receivedVertices| == |s.ranks|)
  }

  /** Within one round a rank neither checkpoints nor begins again after its own merge; and
      checkpoint waits for the locks that a rank holds from joining a merge to finishing it. */
  ghost predicate Enabled(s: System, step: Step)
    requires Square(s)
  {
    match step
    case Checkpoint(i, vertices) =>
      && i < |s.ranks| && !s.ranks[i].joined && s.ranks[i].merges == [] && s.ranks[i].vertices <= vertices
    case Begin(i) => i < |s.ranks| && s.ranks[i].merges == []
    case Deliver(i, j) => i < |s.ranks| && j < |s.ranks| && s.chan[i][j] != []
  }

  function Next(s: System, step: Step): System
    requires Square(s) && Enabled(s, step)
  {
    var n := |s.ranks|;
    match step
    case Checkpoint(i, vertices) =>
      var (r, outs) := OnCheckpoint(s.ranks[i], i, vertices, n);
      System(s.ranks[i := r], Send(s.chan, i, outs))
    case Begin(i) =>
      var (r, outs) := OnMergeRequest(s.ranks[i], i, i, 2, n);
      System(s.ranks[i := r], Send(s.chan, i, outs))
    case Deliver(i, j) =>
      var chan := Receive(s.chan, i, j);
      match s.chan[i][j][0]
      case Snapshot(fileNumber, vertices) =>
        System(s.ranks[j := OnSnapshot(s.ranks[j], i, fileNumber, vertices)], chan)
      case MergeRequest(level) =>
        var (r, outs) := OnMergeRequest(s.ranks[j], j, i, level, n);
        System(s.ranks[j := r], Send(chan, j, outs))
  }

  // ---------------------------------------------------------------- the invariant

  /** A rank that has sent its merge request of this round. */
  predicate Done(r: Rank) {
    r.joined || r.merges != []
  }

  /** The last file of a rank that its receiver has, once the messages in "ch" have arrived. */
  function LastFile(ch: seq<Msg>, received: int): int {
    if ch == [] then received
    else
      var last := ch[|ch| - 1];
      if last.Snapshot? then last.fileNumber else LastFile(ch[..|ch| - 1], received)
  }

  function LastVertices(ch: seq<Msg>, received: nat): nat {
    if ch == [] then received
    else
      var last := ch[|ch| - 1];
      if last.Snapshot? then last.vertices else LastVertices(ch[..|ch| - 1], received)
  }

  /** What a rank has said of its vertices in this round: nothing before its first checkpoint. */
  function Said(r: Rank): nat {
    if r.graphLevels == 2 then 0 else r.vertices
  }

  /** current_snapshot_level is the number of levels of the graph.  It is not after a merge, which leaves
      the graph with two levels, until the rank's next checkpoint. */
  predicate UpToDate(r: Rank) {
    r.level == r.graphLevels
  }

  /** The messages from rank j to a rank that has not heard its merge request yet: snapshots, and
      then the request, if it was sent. */
  ghost predicate Underway(sender: Rank, ch: seq<Msg>) {
    && (forall p :: 0 <= p < |ch| - 1 ==> ch[p].Snapshot?)
    && (ch != [] && ch[|ch| - 1].MergeRequest? <==> Done(sender))
    && (Done(sender) ==> ch[|ch| - 1] == MergeRequest(sender.level))
  }

  ghost predicate LinkOk(sender: Rank, receiver: Rank, j: nat, ch: seq<Msg>)
    requires j < |receiver.received| && j < |receiver.expected| && j < |receiver.receivedVertices|
  {
    if receiver.merges != [] then
      ch == [] && Done(sender)
    else if receiver.expected[j] != -1 then
      && ch == [] && Done(sender)
      && receiver.expected[j] == sender.level - 2 && receiver.received[j] == sender.graphLevels - 2
      && receiver.receivedVertices[j] == Said(sender)
    else
      && Underway(sender, ch)
      && LastFile(ch, receiver.received[j]) == sender.graphLevels - 2
      && LastVertices(ch, receiver.receivedVertices[j]) == Said(sender)
  }

  ghost predicate RankOk(r: Rank, self: nat, n: nat, base: nat) {
    && self < n && |r.received| == |r.expected| == |r.receivedVertices| == n
    && 2 <= r.level && 2 <= r.graphLevels && (UpToDate(r) || r.graphLevels == 2)
    && base <= r.vertices && (r.level == 2 ==> r.vertices == base)
    && r.received[self] == r.expected[self] == 0
    && (forall k :: 0 <= k < n ==> 0 <= r.received[k])
    && |r.merges| <= 1
    && (r.merges != [] ==>
          !r.joined && forall k :: 0 <= k < n ==>
            r.received[k] == 0 && r.receivedVertices[k] == 0 && r.expected[k] == if k == self then 0 else -1)
    && (!Done(r) ==> forall k :: 0 <= k < n && k != self ==> r.expected[k] == -1)
    && (r.joined ==> r.received != r.expected)
  }

  /** What rank i must merge: the snapshots each rank had written when it joined (for itself, what it takes
      that number for), with the vertex counts that came with them, and its own count. */
  ghost function Agreed(ranks: seq<Rank>, i: nat): Merge
    requires i < |ranks|
  {
    Merge(Files(ranks, i), Counts(ranks, i))
  }

  function Files(ranks: seq<Rank>, i: nat): (r: seq<int>)
    ensures |r| == |ranks| && forall k :: 0 <= k < |ranks| ==> r[k] == (if k == i then ranks[k].level else ranks[k].graphLevels) - 2
  {
    seq(|ranks|, k requires 0 <= k < |ranks| => (if k == i then ranks[k].level else ranks[k].graphLevels) - 2)
  }

  function Counts(ranks: seq<Rank>, i: nat): (r: seq<nat>)
    ensures |r| == |ranks| && forall k :: 0 <= k < |ranks| ==> r[k] == if k == i then ranks[k].vertices else Said(ranks[k])
  {
    seq(|ranks|, k requires 0 <= k < |ranks| => if k == i then ranks[k].vertices else Said(ranks[k]))
  }

  /** What rank i knows of rank j once it has merged. */
  predicate Reported(r: Rank, j: nat, i: nat) {
    Done(r) && (j != i ==> UpToDate(r))
  }

  ghost predicate Inv(s: System, base: nat) {
    && Square(s)
    && (forall i :: 0 <= i < |s.ranks| ==> RankOk(s.ranks[i], i, |s.ranks|, base))
    && (forall i, j :: 0 <= i < |s.ranks| && 0 <= j < |s.ranks| && i != j ==>
          LinkOk(s.ranks[j], s.ranks[i], j, s.chan[j][i]))
    && (forall i :: 0 <= i < |s.ranks| ==> s.chan[i][i] == [])
    && (forall i :: 0 <= i < |s.ranks| && s.ranks[i].merges != [] ==>
          s.ranks[i].merges == [Agreed(s.ranks, i)] && forall j :: 0 <= j < |s.ranks| ==> Reported(s.ranks[j], j, i))
  }

  lemma InvSquare(s: System, base: nat)
    requires Inv(s, base)
    ensures Square(s)
  {
  }

  lemma InvRank(s: System, base: nat, i: nat)
    requires Inv(s, base) && i < |s.ranks|
    ensures Square(s) && RankOk(s.ranks[i], i, |s.ranks|, base) && s.chan[i][i] == []
    ensures s.ranks[i].merges != [] ==>
              s.ranks[i].merges == [Agreed(s.ranks, i)] && forall j :: 0 <= j < |s.ranks| ==> Reported(s.ranks[j], j, i)
  {
  }

  lemma InvLink(s: System, base: nat, a: nat, b: nat)
    requires Inv(s, base) && a < |s.ranks| && b < |s.ranks| && a != b
    ensures Square(s) && LinkOk(s.ranks[b], s.ranks[a], b, s.chan[b][a])
  {
  }

  // ---------------------------------------------------------------- links, one at a time

  lemma LinkSendSnapshot(sender: Rank, receiver: Rank, j: nat, ch: seq<Msg>, vertices: nat)
    requires j < |receiver.received| && j < |receiver.expected| && j < |receiver.receivedVertices|
    requires LinkOk(sender, receiver, j, ch) && !Done(sender) && 2 <= sender.graphLevels
    ensures LinkOk(sender.(level := sender.graphLevels + 1, graphLevels := sender.graphLevels + 1, vertices := vertices), receiver, j,
                   ch + [Snapshot(sender.graphLevels - 1, vertices)])
  {
  }

  lemma LinkSendRequest(sender: Rank, sender': Rank, receiver: Rank, j: nat, ch: seq<Msg>)
    requires j < |receiver.received| && j < |receiver.expected| && j < |receiver.receivedVertices|
    requires LinkOk(sender, receiver, j, ch) && !Done(sender)
    requires Done(sender') && sender'.level == sender.level && sender'.graphLevels == sender.graphLevels && sender'.vertices == sender.vertices
    ensures LinkOk(sender', receiver, j, ch + [MergeRequest(sender.level)])
  {
    var m := MergeRequest(sender.level);
    assert (ch + [m])[..|ch|] == ch;
  }

  /** A rank that was done stays as it was for its receivers. */
  lemma LinkSenderSame(sender: Rank, sender': Rank, receiver: Rank, j: nat, ch: seq<Msg>)
    requires j < |receiver.received| && j < |receiver.expected| && j < |receiver.receivedVertices|
    requires LinkOk(sender, receiver, j, ch)
    requires Done(sender') == Done(sender) && sender'.level == sender.level
    requires sender'.graphLevels == sender.graphLevels && sender'.vertices == sender.vertices
    ensures LinkOk(sender', receiver, j, ch)
  {
  }

  lemma {:induction false} LastDropped(ch: seq<Msg>, file: int, vertices: nat)
    requires ch != []
    ensures ch[0].Snapshot? ==>
              && LastFile(ch[1..], ch[0].fileNumber) == LastFile(ch, file)
              && LastVertices(ch[1..], ch[0].vertices) == LastVertices(ch, vertices)
  {
    var n := |ch| - 1;
    if n > 0 {
      assert ch[1..][|ch[1..]| - 1] == ch[n];
      assert ch[1..][..n - 1] == ch[..n][1..];
      LastDropped(ch[..n], file, vertices);
    }
  }

  lemma LinkReceiveSnapshot(sender: Rank, receiver: Rank, j: nat, ch: seq<Msg>)
    requires j < |receiver.received| && j < |receiver.expected| && j < |receiver.receivedVertices|
    requires LinkOk(sender, receiver, j, ch) && ch != [] && ch[0].Snapshot?
    ensures receiver.expected[j] == -1 && receiver.merges == []
    ensures LinkOk(sender, OnSnapshot(receiver, j, ch[0].fileNumber, ch[0].vertices), j, ch[1..])
  {
    LastDropped(ch, receiver.received[j], receiver.receivedVertices[j]);
  }

  lemma LinkReceiveRequest(sender: Rank, receiver: Rank, j: nat, ch: seq<Msg>)
    requires j < |receiver.received| && j < |receiver.expected| && j < |receiver.receivedVertices|
    requires LinkOk(sender, receiver, j, ch) && ch != [] && ch[0].MergeRequest?
    ensures ch == [MergeRequest(sender.level)] && Done(sender)
    ensures receiver.merges == [] && receiver.expected[j] == -1
    ensures receiver.received[j] == sender.graphLevels - 2 && receiver.receivedVertices[j] == Said(sender)
  {
    assert |ch| == 1 && ch[..0] == [];
    var file, vertices := receiver.received[j], receiver.receivedVertices[j];
    assert LastFile(ch, file) == LastFile(ch[..0], file) == file;
    assert LastVertices(ch, vertices) == LastVertices(ch[..0], vertices) == vertices;
  }

  // ---------------------------------------------------------------- every step keeps the invariant

  lemma BroadcastChannels(s: System, i: nat, m: Msg)
    requires Square(s) && i < |s.ranks|
    ensures var chan := Send(s.chan, i, Broadcast(m, i, |s.ranks|));
            forall a, b :: 0 <= a < |s.ranks| && 0 <= b < |s.ranks| ==>
              chan[a][b] == if a == i && b != i then s.chan[a][b] + [m] else s.chan[a][b]
  {
    SendBroadcast(s.chan, i, m);
  }

  /** A checkpoint changes one rank, and its channels to the others. */
  lemma Checkpointed(s: System, i: nat, vertices: nat)
    requires Square(s) && Enabled(s, Checkpoint(i, vertices))
    ensures var s', n, r := Next(s, Checkpoint(i, vertices)), |s.ranks|, s.ranks[i];
            && Square(s') && |s'.ranks| == n
            && s'.ranks == s.ranks[i := r.(level := r.graphLevels + 1, graphLevels := r.graphLevels + 1, vertices := vertices)]
            && (forall a, b :: 0 <= a < n && 0 <= b < n ==>
                  s'.chan[a][b] == if a == i && b != i then s.chan[a][b] + [Snapshot(r.graphLevels - 1, vertices)] else s.chan[a][b])
  {
    BroadcastChannels(s, i, Snapshot(s.ranks[i].graphLevels - 1, vertices));
  }

  lemma CheckpointLink(s: System, i: nat, vertices: nat, base: nat, a: nat, b: nat)
    requires Inv(s, base) && Enabled(s, Checkpoint(i, vertices)) && a < |s.ranks| && b < |s.ranks| && a != b
    ensures var s' := Next(s, Checkpoint(i, vertices));
            Square(s') && LinkOk(s'.ranks[b], s'.ranks[a], b, s'.chan[b][a])
  {
    hide Inv, LinkOk, Next;
    InvLink(s, base, a, b);
    var s', r := Next(s, Checkpoint(i, vertices)), s.ranks[i];
    Checkpointed(s, i, vertices);
    if b == i {
      LinkSendSnapshot(r, s.ranks[a], i, s.chan[i][a], vertices);
    } else {
      LinkUnmoved(s.ranks[b], s'.ranks[b], s.ranks[a], s'.ranks[a], b, s.chan[b][a]);
    }
  }

  lemma CheckpointKeepsInv(s: System, i: nat, vertices: nat, base: nat)
    requires Inv(s, base) && Enabled(s, Checkpoint(i, vertices))
    ensures Inv(Next(s, Checkpoint(i, vertices)), base)
  {
    hide LinkOk, Next, Agreed;
    var n, s' := |s.ranks|, Next(s, Checkpoint(i, vertices));
    Checkpointed(s, i, vertices);
    forall a, b | 0 <= a < n && 0 <= b < n && a != b ensures LinkOk(s'.ranks[b], s'.ranks[a], b, s'.chan[b][a]) {
      CheckpointLink(s, i, vertices, base, a, b);
    }
    forall a | 0 <= a < n ensures RankOk(s'.ranks[a], a, n, base) && s'.ranks[a].merges == [] {
      InvRank(s, base, a);
    }
  }

  /** Once every request has arrived, a rank merges what it must. */
  lemma MergeAgrees(ranks: seq<Rank>, i: nat, received: seq<int>, receivedVertices: seq<nat>)
    requires i < |ranks| == |received| == |receivedVertices|
    requires forall k :: 0 <= k < |ranks| && k != i ==>
               received[k] == ranks[k].graphLevels - 2 && receivedVertices[k] == Said(ranks[k])
    ensures Merge(received[i := ranks[i].level - 2], receivedVertices[i := ranks[i].vertices]) == Agreed(ranks, i)
  {
    assert received[i := ranks[i].level - 2] == Files(ranks, i);
    assert receivedVertices[i := ranks[i].vertices] == Counts(ranks, i);
  }

  lemma AgreedSame(ranks: seq<Rank>, ranks': seq<Rank>, i: nat)
    requires |ranks| == |ranks'| && i < |ranks|
    requires forall k :: 0 <= k < |ranks| ==>
               && ranks'[k].level == ranks[k].level && ranks'[k].graphLevels == ranks[k].graphLevels
               && ranks'[k].vertices == ranks[k].vertices
    ensures Agreed(ranks', i) == Agreed(ranks, i)
  {
    assert Files(ranks', i) == Files(ranks, i) && Counts(ranks', i) == Counts(ranks, i);
  }

  /** What handling a merge request does to the handling rank itself. */
  lemma HandlerRank(r: Rank, i: nat, source: nat, level: nat, n: nat, base: nat)
    requires RankOk(r, i, n, base) && source < n && r.merges == [] && 2 <= level
    requires source == i ==> level == 2
    requires source != i ==> r.expected[source] == -1
    ensures var r' := OnMergeRequest(r, i, source, level, n).0;
            && RankOk(r', i, n, base) && Done(r') && r'.level == r.level && r'.graphLevels == r.graphLevels && r'.vertices == r.vertices
            && (r'.merges != [] <==> r.received == r.expected[source := level - 2])
            && (r'.merges == [] ==> r' == r.(joined := true, expected := r.expected[source := level - 2]))
            && (r'.merges != [] ==>
                  r'.merges == [Merge(r.received[i := r.level - 2], r.receivedVertices[i := r.vertices])])
  {
  }

  lemma HandlerOuts(r: Rank, i: nat, source: nat, level: nat, n: nat)
    requires i < n && source < n && |r.received| == |r.expected| == |r.receivedVertices| == n
    ensures OnMergeRequest(r, i, source, level, n).1 == if r.joined then [] else Broadcast(MergeRequest(r.level), i, n)
  {
  }

  /** Rank i handles a merge request of rank "source" (or begins, when that is rank i itself). */
  ghost predicate Handles(s: System, i: nat, source: nat, level: nat, base: nat) {
    && Inv(s, base) && i < |s.ranks| && source < |s.ranks| && s.ranks[i].merges == []
    && (source == i ==> level == 2)
    && (source != i ==> s.chan[source][i] != [] && s.chan[source][i][0] == MergeRequest(level))
  }

  lemma HandlesFacts(s: System, i: nat, source: nat, level: nat, base: nat)
    requires Handles(s, i, source, level, base)
    ensures 2 <= level && Square(s)
    ensures source != i ==>
              && s.chan[source][i] == [MergeRequest(level)] && Done(s.ranks[source])
              && s.ranks[i].expected[source] == -1
              && s.ranks[source].level == level && s.ranks[i].received[source] == s.ranks[source].graphLevels - 2
              && s.ranks[i].receivedVertices[source] == Said(s.ranks[source])
  {
    hide Inv, LinkOk;
    InvSquare(s, base);
    if source != i {
      InvLink(s, base, i, source);
      LinkReceiveRequest(s.ranks[source], s.ranks[i], source, s.chan[source][i]);
    }
  }

  ghost function Handled(s: System, i: nat, source: nat, level: nat, base: nat): System
    requires Handles(s, i, source, level, base)
  {
    var chan := if source == i then s.chan else Receive(s.chan, source, i);
    var (r, outs) := OnMergeRequest(s.ranks[i], i, source, level, |s.ranks|);
    System(s.ranks[i := r], Send(chan, i, outs))
  }

  lemma HandledChannels(s: System, i: nat, source: nat, level: nat, base: nat)
    requires Handles(s, i, source, level, base)
    ensures var s', r := Handled(s, i, source, level, base), s.ranks[i];
            && |s'.ranks| == |s'.chan| == |s.ranks| && (forall a :: 0 <= a < |s.ranks| ==> |s'.chan[a]| == |s.ranks|)
            && s'.ranks == s.ranks[i := OnMergeRequest(r, i, source, level, |s.ranks|).0]
            && (forall b :: 0 <= b < |s.ranks| && b != i ==>
                  s'.chan[i][b] == s.chan[i][b] + if r.joined then [] else [MergeRequest(r.level)])
            && s'.chan[i][i] == []
            && (source != i ==> s'.chan[source][i] == [])
            && (forall a, b :: 0 <= a < |s.ranks| && 0 <= b < |s.ranks| && a != i && !(a == source && b == i) ==>
                  s'.chan[a][b] == s.chan[a][b])
  {
    hide Inv, OnMergeRequest, LinkOk, Done, Broadcast, Send, Receive;
    HandlesFacts(s, i, source, level, base);
    InvRank(s, base, i);
    var n, r := |s.ranks|, s.ranks[i];
    HandlerOuts(r, i, source, level, n);
    var chan := if source == i then s.chan else Receive(s.chan, source, i);
    SendBroadcast(chan, i, MergeRequest(r.level));
    SendNothing(chan, i);
  }

  lemma HandledLinks(s: System, i: nat, source: nat, level: nat, base: nat, a: nat, b: nat)
    requires Handles(s, i, source, level, base) && a < |s.ranks| && b < |s.ranks| && a != b
    ensures var s' := Handled(s, i, source, level, base);
            Square(s') && LinkOk(s'.ranks[b], s'.ranks[a], b, s'.chan[b][a])
  {
    hide Handled, OnMergeRequest, Inv, LinkOk, RankOk;
    var s', r, n := Handled(s, i, source, level, base), s.ranks[i], |s.ranks|;
    HandlesFacts(s, i, source, level, base);
    InvRank(s, base, i);
    HandledChannels(s, i, source, level, base);
    HandlerRank(r, i, source, level, n, base);
    HandledSquare(s, i, source, level, base);
    InvLink(s, base, a, b);
    if b == i {
      if r.joined {
        assert s'.chan[i][a] == s.chan[i][a] + [] == s.chan[i][a];
        LinkSenderSame(r, s'.ranks[i], s.ranks[a], i, s.chan[i][a]);
      } else {
        LinkSendRequest(r, s'.ranks[i], s.ranks[a], i, s.chan[i][a]);
      }
    } else if a == i {
      LinkAsHandler(s.ranks[b], r, s'.ranks[i], b, s.chan[b][i], s'.chan[b][i], source, level);
    }
  }

  lemma HandledSquare(s: System, i: nat, source: nat, level: nat, base: nat)
    requires Handles(s, i, source, level, base)
    ensures Square(Handled(s, i, source, level, base))
  {
    hide Handled, OnMergeRequest, Inv;
    HandlesFacts(s, i, source, level, base);
    InvRank(s, base, i);
    HandledChannels(s, i, source, level, base);
    HandlerRank(s.ranks[i], i, source, level, |s.ranks|, base);
  }

  /** The link from rank b to the rank that has handled a request. */
  lemma LinkAsHandler(sender: Rank, r: Rank, r': Rank, b: nat, ch: seq<Msg>, ch': seq<Msg>, source: nat, level: nat)
    requires |r.received| == |r.expected| == |r.receivedVertices| && b < |r.received| && source < |r.received|
    requires |r'.received| == |r'.expected| == |r'.receivedVertices| == |r.received|
    requires LinkOk(sender, r, b, ch) && r.merges == []
    requires if b == source then ch == [MergeRequest(level)] && ch' == [] && Done(sender) else ch' == ch
    requires b == source ==> sender.level == level && r.received[b] == sender.graphLevels - 2 && r.receivedVertices[b] == Said(sender) && 2 <= level
    requires r'.merges != [] <==> r.received == r.expected[source := level - 2]
    requires forall k :: 0 <= k < |r.received| ==> 0 <= r.received[k]
    requires r'.merges == [] ==> r' == r.(joined := true, expected := r.expected[source := level - 2])
    ensures LinkOk(sender, r', b, ch')
  {
    hide LastFile, LastVertices, Underway;
    var expected := r.expected[source := level - 2];
    assert r'.merges != [] && b != source ==> expected[b] == r.expected[b] == r.received[b];
  }

  lemma LinkHeard(sender: Rank, receiver: Rank, j: nat, ch: seq<Msg>)
    requires j < |receiver.received| && j < |receiver.expected| && j < |receiver.receivedVertices|
    requires LinkOk(sender, receiver, j, ch) && receiver.merges == [] && receiver.expected[j] != -1
    ensures Done(sender) && ch == [] && receiver.expected[j] == sender.level - 2
    ensures receiver.received[j] == sender.graphLevels - 2 && receiver.receivedVertices[j] == Said(sender)
  {
  }

  /** The barrier opens only when every other rank has been heard; then all ranks are done, and
      the merge is the agreed one. */
  lemma BarrierOpens(s: System, i: nat, source: nat, level: nat, base: nat)
    requires Handles(s, i, source, level, base)
    requires s.ranks[i].received == s.ranks[i].expected[source := level - 2]
    ensures forall k :: 0 <= k < |s.ranks| && k != i ==> Done(s.ranks[k]) && UpToDate(s.ranks[k])
    ensures var r := s.ranks[i];
            Merge(r.received[i := r.level - 2], r.receivedVertices[i := r.vertices]) == Agreed(s.ranks, i)
  {
    hide Agreed, Inv, LinkOk, Done, Said;
    var r, n := s.ranks[i], |s.ranks|;
    HandlesFacts(s, i, source, level, base);
    forall k | 0 <= k < n && k != i
      ensures r.received[k] == s.ranks[k].graphLevels - 2 && r.receivedVertices[k] == Said(s.ranks[k])
      ensures Done(s.ranks[k]) && UpToDate(s.ranks[k])
    {
      RankHeard(s, i, source, level, base, k);
    }
    MergeAgrees(s.ranks, i, r.received, r.receivedVertices);
  }

  lemma RankHeard(s: System, i: nat, source: nat, level: nat, base: nat, k: nat)
    requires Handles(s, i, source, level, base) && k < |s.ranks| && k != i
    requires s.ranks[i].received == s.ranks[i].expected[source := level - 2]
    ensures var r := s.ranks[i];
            && Square(s)
            && r.received[k] == s.ranks[k].graphLevels - 2 && r.receivedVertices[k] == Said(s.ranks[k])
            && Done(s.ranks[k]) && UpToDate(s.ranks[k])
  {
    hide Inv, LinkOk, Done, Said;
    var r := s.ranks[i];
    HandlesFacts(s, i, source, level, base);
    InvRank(s, base, i);
    InvLink(s, base, i, k);
    if k != source {
      assert r.expected[source := level - 2][k] == r.expected[k];
      LinkHeard(s.ranks[k], r, k, s.chan[k][i]);
    }
  }

  lemma HandledMerges(s: System, i: nat, source: nat, level: nat, base: nat, a: nat)
    requires Handles(s, i, source, level, base) && a < |s.ranks|
    ensures var s' := Handled(s, i, source, level, base);
            && Square(s') && |s'.ranks| == |s.ranks|
            && (s'.ranks[a].merges != [] ==>
                  s'.ranks[a].merges == [Agreed(s'.ranks, a)] && forall j :: 0 <= j < |s'.ranks| ==> Reported(s'.ranks[j], j, a))
  {
    hide Handled, OnMergeRequest, Inv, LinkOk, RankOk, Agreed, Said;
    var s', r, n := Handled(s, i, source, level, base), s.ranks[i], |s.ranks|;
    HandlesFacts(s, i, source, level, base);
    InvRank(s, base, i);
    InvRank(s, base, a);
    HandledChannels(s, i, source, level, base);
    HandlerRank(r, i, source, level, n, base);
    HandledSquare(s, i, source, level, base);
    AgreedSame(s.ranks, s'.ranks, a);
    if a == i && s'.ranks[i].merges != [] {
      BarrierOpens(s, i, source, level, base);
    }
  }

  lemma HandleKeepsInv(s: System, i: nat, source: nat, level: nat, base: nat)
    requires Handles(s, i, source, level, base)
    ensures Inv(Handled(s, i, source, level, base), base)
  {
    hide Handled, OnMergeRequest, Handles, LinkOk, RankOk, Agreed;
    var s', n := Handled(s, i, source, level, base), |s.ranks|;
    HandledRanks(s, i, source, level, base);
    forall a | 0 <= a < n
      ensures s'.ranks[a].merges != [] ==>
                s'.ranks[a].merges == [Agreed(s'.ranks, a)] && forall j :: 0 <= j < n ==> Reported(s'.ranks[j], j, a)
    {
      HandledMerges(s, i, source, level, base, a);
    }
    forall a, b | 0 <= a < n && 0 <= b < n && a != b
      ensures Square(s') && LinkOk(s'.ranks[b], s'.ranks[a], b, s'.chan[b][a])
    {
      HandledLinks(s, i, source, level, base, a, b);
    }
  }

  lemma HandledRanks(s: System, i: nat, source: nat, level: nat, base: nat)
    requires Handles(s, i, source, level, base)
    ensures var s' := Handled(s, i, source, level, base);
            Square(s') && |s'.ranks| == |s.ranks| && forall a :: 0 <= a < |s.ranks| ==> RankOk(s'.ranks[a], a, |s.ranks|, base) && s'.chan[a][a] == []
  {
    hide Handled, OnMergeRequest, Inv, RankOk;
    HandlesFacts(s, i, source, level, base);
    InvRank(s, base, i);
    HandledSquare(s, i, source, level, base);
    HandledChannels(s, i, source, level, base);
    HandlerRank(s.ranks[i], i, source, level, |s.ranks|, base);
    forall a | 0 <= a < |s.ranks| ensures RankOk(s.ranks[a], a, |s.ranks|, base) && s.chan[a][a] == [] {
      InvRank(s, base, a);
    }
  }

  lemma SnapshotRank(r: Rank, self: nat, source: nat, fileNumber: nat, vertices: nat, n: nat, base: nat)
    requires RankOk(r, self, n, base) && source < n && source != self && r.expected[source] == -1 && r.merges == []
    ensures RankOk(OnSnapshot(r, source, fileNumber, vertices), self, n, base)
  {
    var r' := OnSnapshot(r, source, fileNumber, vertices);
    assert r'.received[source] != r'.expected[source];
  }

  lemma SnapshotLink(s: System, i: nat, j: nat, base: nat, a: nat, b: nat)
    requires Inv(s, base) && Enabled(s, Deliver(i, j)) && s.chan[i][j][0].Snapshot?
    requires a < |s.ranks| && b < |s.ranks| && a != b
    ensures var s' := Next(s, Deliver(i, j));
            Square(s') && LinkOk(s'.ranks[b], s'.ranks[a], b, s'.chan[b][a])
  {
    hide Inv, LinkOk;
    InvLink(s, base, a, b);
    var s' := Next(s, Deliver(i, j));
    if a == j && b == i {
      LinkReceiveSnapshot(s.ranks[i], s.ranks[j], i, s.chan[i][j]);
    } else {
      LinkUnmoved(s.ranks[b], s'.ranks[b], s.ranks[a], s'.ranks[a], b, s.chan[b][a]);
    }
  }

  lemma SnapshotKeepsInv(s: System, i: nat, j: nat, base: nat)
    requires Inv(s, base) && Enabled(s, Deliver(i, j)) && s.chan[i][j][0].Snapshot?
    ensures Inv(Next(s, Deliver(i, j)), base)
  {
    hide LinkOk, RankOk, Agreed, Next, OnSnapshot;
    var m, n, s' := s.chan[i][j][0], |s.ranks|, Next(s, Deliver(i, j));
    SnapshotReceived(s, i, j);
    InvRank(s, base, i);
    InvLink(s, base, j, i);
    LinkReceiveSnapshot(s.ranks[i], s.ranks[j], i, s.chan[i][j]);
    SnapshotRank(s.ranks[j], j, i, m.fileNumber, m.vertices, n, base);
    forall a, b | 0 <= a < n && 0 <= b < n && a != b ensures LinkOk(s'.ranks[b], s'.ranks[a], b, s'.chan[b][a]) {
      SnapshotLink(s, i, j, base, a, b);
    }
    forall a | 0 <= a < n ensures Agreed(s'.ranks, a) == Agreed(s.ranks, a) {
      AgreedSame(s.ranks, s'.ranks, a);
    }
  }

  lemma SnapshotReceived(s: System, i: nat, j: nat)
    requires Square(s) && Enabled(s, Deliver(i, j)) && s.chan[i][j][0].Snapshot?
    ensures var s', m := Next(s, Deliver(i, j)), s.chan[i][j][0];
            && Square(s') && s'.ranks == s.ranks[j := OnSnapshot(s.ranks[j], i, m.fileNumber, m.vertices)]
            && OnSnapshot(s.ranks[j], i, m.fileNumber, m.vertices)
               == s.ranks[j].(received := s'.ranks[j].received, receivedVertices := s'.ranks[j].receivedVertices)
            && forall a, b :: 0 <= a < |s.ranks| && 0 <= b < |s.ranks| ==>
                 s'.chan[a][b] == if a == i && b == j then s.chan[a][b][1..] else s.chan[a][b]
  {
  }

  /** A link only depends on what it mentions of its two ranks. */
  lemma LinkUnmoved(sender: Rank, sender': Rank, receiver: Rank, receiver': Rank, j: nat, ch: seq<Msg>)
    requires j < |receiver.received| && j < |receiver.expected| && j < |receiver.receivedVertices|
    requires j < |receiver'.received| && j < |receiver'.expected| && j < |receiver'.receivedVertices|
    requires LinkOk(sender, receiver, j, ch)
    ensures && Done(sender') == Done(sender) && sender'.level == sender.level
            && sender'.graphLevels == sender.graphLevels && sender'.vertices == sender.vertices
            && receiver'.merges == receiver.merges && receiver'.expected[j] == receiver.expected[j]
            && receiver'.received[j] == receiver.received[j] && receiver'.receivedVertices[j] == receiver.receivedVertices[j]
            ==> LinkOk(sender', receiver', j, ch)
  {
  }

  lemma StepKeepsInv(s: System, step: Step, base: nat)
    requires Inv(s, base) && Enabled(s, step)
    ensures Inv(Next(s, step), base)
  {
    match step
    case Checkpoint(i, vertices) => CheckpointKeepsInv(s, i, vertices, base);
    case Begin(i) =>
      HandleKeepsInv(s, i, i, 2, base);
    case Deliver(i, j) =>
      if s.chan[i][j][0].Snapshot? {
        SnapshotKeepsInv(s, i, j, base);
      } else {
        assert i != j && LinkOk(s.ranks[i], s.ranks[j], i, s.chan[i][j]);
        HandleKeepsInv(s, j, i, s.chan[i][j][0].level, base);
      }
  }

  // ---------------------------------------------------------------- whole rounds

  /** Every rank has loaded the same base graph and written no snapshot yet. */
  ghost predicate Initial(s: System, base: nat) {
    RoundStart(s, base) && forall i :: 0 <= i < |s.ranks| ==> s.ranks[i].level == 2
  }

  /** Between two rounds: the graph of every rank has two levels, nothing is in flight, and every rank
      expects to hear from every other before it merges.  current_snapshot_level may be that of a round
      before; a rank for which it is 2 has not written a snapshot in any. */
  ghost predicate RoundStart(s: System, base: nat) {
    && Square(s)
    && (forall i :: 0 <= i < |s.ranks| ==> RankStart(s.ranks[i], i, |s.ranks|, base))
    && (forall i, j :: 0 <= i < |s.ranks| && 0 <= j < |s.ranks| ==> s.chan[i][j] == [])
  }

  ghost predicate RankStart(r: Rank, self: nat, n: nat, base: nat) {
    && !r.joined && r.merges == [] && 2 <= r.level && r.graphLevels == 2
    && base <= r.vertices && (r.level == 2 ==> r.vertices == base)
    && |r.received| == |r.expected| == |r.receivedVertices| == n && self < n
    && forall k :: 0 <= k < n ==> r.received[k] == 0 && r.receivedVertices[k] == 0 && r.expected[k] == if k == self then 0 else -1
  }

  ghost predicate Run(s: System, steps: seq<Step>, t: System, base: nat)
    requires Inv(s, base)
    decreases steps
  {
    if steps == [] then s == t
    else Enabled(s, steps[0]) && (StepKeepsInv(s, steps[0], base); Run(Next(s, steps[0]), steps[1..], t, base))
  }

  lemma StartOk(s: System, base: nat)
    requires RoundStart(s, base)
    ensures Inv(s, base)
  {
  }

  lemma {:induction false} RunKeeps(s: System, steps: seq<Step>, t: System, base: nat)
    requires Inv(s, base) && Run(s, steps, t, base)
    ensures Inv(t, base)
    decreases steps
  {
    if steps != [] {
      StepKeepsInv(s, steps[0], base);
      RunKeeps(Next(s, steps[0]), steps[1..], t, base);
    }
  }

  /** Agreement: a rank that has merged did so once, after all ranks had joined, and merged exactly
      the snapshots every other rank had written when it joined; and it expects to hear from everybody
      again. */
  lemma Agreement(s: System, steps: seq<Step>, t: System, base: nat, i: nat)
    requires RoundStart(s, base) && (StartOk(s, base); Run(s, steps, t, base))
    requires i < |t.ranks| && t.ranks[i].merges != []
    ensures t.ranks[i].merges == [Agreed(t.ranks, i)]
    ensures forall j :: 0 <= j < |t.ranks| ==> Done(t.ranks[j]) && (j != i ==> UpToDate(t.ranks[j]))
    ensures |t.ranks[i].received| == |t.ranks[i].expected| == |t.ranks[i].receivedVertices| == |t.ranks|
    ensures forall k :: 0 <= k < |t.ranks| ==>
              && t.ranks[i].received[k] == 0 && t.ranks[i].receivedVertices[k] == 0
              && t.ranks[i].expected[k] == if k == i then 0 else -1
    ensures |t.chan| == |t.ranks| && forall j :: 0 <= j < |t.ranks| ==> i < |t.chan[j]| && t.chan[j][i] == []
  {
    StartOk(s, base);
    RunKeeps(s, steps, t, base);
    forall j | 0 <= j < |t.ranks| ensures t.chan[j][i] == [] {
      assert j != i ==> LinkOk(t.ranks[j], t.ranks[i], j, t.chan[j][i]);
    }
  }

  /** Two ranks merge the same snapshots, and make the same number of vertices. Their vertex counts
      differ only for ranks that wrote no snapshot, of which only those ranks themselves know any. */
  lemma SameMerge(s: System, steps: seq<Step>, t: System, base: nat, i: nat, k: nat)
    requires RoundStart(s, base) && (StartOk(s, base); Run(s, steps, t, base))
    requires i < |t.ranks| && t.ranks[i].merges != [] && k < |t.ranks| && t.ranks[k].merges != []
    ensures |t.ranks[i].merges| == |t.ranks[k].merges| == 1
    ensures var (m, m') := (t.ranks[i].merges[0], t.ranks[k].merges[0]);
            && m.snapshots == m'.snapshots && |m.counts| == |m'.counts| == |m.snapshots| == |t.ranks|
            && MaxOf(m.counts, |t.ranks|) == MaxOf(m'.counts, |t.ranks|)
            && forall r :: 0 <= r < |t.ranks| && m.counts[r] != m'.counts[r] ==> m.snapshots[r] == 0
  {
    hide Inv, LinkOk, Agreed, MaxOf, Done, RoundStart, Run;
    StartOk(s, base);
    RunKeeps(s, steps, t, base);
    InvRank(t, base, i);
    InvRank(t, base, k);
    assert i != k ==> forall j :: 0 <= j < |t.ranks| ==> Reported(t.ranks[j], j, i) && Reported(t.ranks[j], j, k);
    forall j | 0 <= j < |t.ranks| ensures RankOk(t.ranks[j], j, |t.ranks|, base) {
      InvRank(t, base, j);
    }
    SameAgreed(t.ranks, i, k, base);
  }

  lemma SameAgreed(ranks: seq<Rank>, i: nat, k: nat, base: nat)
    requires i < |ranks| && k < |ranks|
    requires forall j :: 0 <= j < |ranks| ==>
               && (i != k ==> UpToDate(ranks[j]))
               && base <= ranks[j].vertices && (ranks[j].graphLevels == 2 && UpToDate(ranks[j]) ==> ranks[j].vertices == base)
    ensures var (m, m') := (Agreed(ranks, i), Agreed(ranks, k));
            && m.snapshots == m'.snapshots && |m.counts| == |m'.counts| == |m.snapshots| == |ranks|
            && MaxOf(m.counts, |ranks|) == MaxOf(m'.counts, |ranks|)
            && forall r :: 0 <= r < |ranks| && m.counts[r] != m'.counts[r] ==> m.snapshots[r] == 0
  {
    hide MaxOf, Files, Counts;
    if i != k {
      assert Files(ranks, i) == Files(ranks, k);
      CountsAtMost(ranks, i, k, base);
      CountsAtMost(ranks, k, i, base);
    }
  }

  lemma CountsAtMost(ranks: seq<Rank>, i: nat, k: nat, base: nat)
    requires i < |ranks| && k < |ranks|
    requires forall j :: 0 <= j < |ranks| ==> base <= ranks[j].vertices && (ranks[j].graphLevels == 2 ==> ranks[j].vertices == base)
    ensures MaxOf(Counts(ranks, i), |ranks|) <= MaxOf(Counts(ranks, k), |ranks|)
  {
    var a, b := Counts(ranks, i), Counts(ranks, k);
    var j :| 0 <= j < |ranks| && a[j] == MaxOf(a, |ranks|);
    assert b[j] <= MaxOf(b, |ranks|) && b[k] <= MaxOf(b, |ranks|);
  }

  /** Completion: once some rank has joined and every message has been delivered, a rank has merged if and
      only if current_snapshot_level was up to date on all other ranks. */
  lemma Completion(s: System, steps: seq<Step>, t: System, base: nat, first: nat, i: nat)
    requires RoundStart(s, base) && (StartOk(s, base); Run(s, steps, t, base))
    requires first < |t.ranks| && Done(t.ranks[first]) && i < |t.ranks|
    requires |t.chan| == |t.ranks|
    requires forall a, b :: 0 <= a < |t.chan| && 0 <= b < |t.chan[a]| ==> t.chan[a][b] == []
    ensures t.ranks[i].merges != [] <==> forall k :: 0 <= k < |t.ranks| && k != i ==> UpToDate(t.ranks[k])
    ensures t.ranks[i].merges != [] ==> t.ranks[i].merges == [Agreed(t.ranks, i)]
    ensures t.ranks[i].merges == [] ==> t.ranks[i].joined
  {
    StartOk(s, base);
    RunKeeps(s, steps, t, base);
    forall a | 0 <= a < |t.ranks| ensures Done(t.ranks[a]) {
      if a != first {
        HeardFrom(t, a, first, base);
      }
    }
    if t.ranks[i].merges == [] {
      var k :| 0 <= k < |t.ranks| && t.ranks[i].received[k] != t.ranks[i].expected[k];
      HeardFrom(t, i, k, base);
    }
  }

  lemma HeardFrom(t: System, i: nat, k: nat, base: nat)
    requires Inv(t, base) && i < |t.ranks| && k < |t.ranks| && k != i && t.chan[k][i] == [] && Done(t.ranks[k])
    ensures Done(t.ranks[i])
    ensures t.ranks[i].merges == [] ==> (t.ranks[i].received[k] == t.ranks[i].expected[k] <==> UpToDate(t.ranks[k]))
  {
    assert LinkOk(t.ranks[k], t.ranks[i], k, t.chan[k][i]);
  }

  // ---------------------------------------------------------------- the code of one rank

  /** A snapshot_merger and the part of shared_thread_state it uses. */
  class SnapshotMerger {
    const self: nat
    const worldSize: nat
    var mergeStarting: bool
    var currentSnapshotLevel: nat
    var graphLevels: nat
    var numberOfVertices: nat
    const receivedSnapshotLevels: array<int>
    const expectedSnapshotLevels: array<int>
    const receivedNumVertices: array<nat>
    var sent: seq<Out<Msg>>
    var merges: seq<Merge>

    ghost predicate Valid() {
      && self < worldSize
      && receivedSnapshotLevels.Length == expectedSnapshotLevels.Length == receivedNumVertices.Length == worldSize
      && receivedSnapshotLevels != expectedSnapshotLevels
    }

    ghost function View(): Rank
      reads this, receivedSnapshotLevels, expectedSnapshotLevels, receivedNumVertices
    {
      Rank(mergeStarting, currentSnapshotLevel, graphLevels, numberOfVertices, receivedSnapshotLevels[..],
           expectedSnapshotLevels[..], receivedNumVertices[..], merges)
    }

    constructor (self: nat, worldSize: nat, levels: nat, vertices: nat)
      requires self < worldSize
      ensures Valid() && fresh(receivedSnapshotLevels) && fresh(expectedSnapshotLevels) && fresh(receivedNumVertices)
      ensures var (received, expected, receivedVertices) := Fresh(worldSize, self);
              View() == Rank(false, levels, levels, vertices, received, expected, receivedVertices, [])
      ensures sent == [] && graphLevels == levels && this.self == self && this.worldSize == worldSize
    {
      this.self, this.worldSize := self, worldSize;
      mergeStarting, currentSnapshotLevel, graphLevels, numberOfVertices := false, levels, levels, vertices;
      sent, merges := [], [];
      receivedSnapshotLevels := new int[worldSize](_ => 0);
      expectedSnapshotLevels := new int[worldSize];
      receivedNumVertices := new nat[worldSize](_ => 0);
      new;
      for i := 0 to worldSize
        modifies expectedSnapshotLevels
        invariant forall k :: 0 <= k < i ==> expectedSnapshotLevels[k] == -1
      {
        expectedSnapshotLevels[i] := -1;
      }
      expectedSnapshotLevels[self] := 0;
      assert expectedSnapshotLevels[..] == Fresh(worldSize, self).1;
    }

    method Send(m: Msg)
      requires Valid()
      modifies `sent
      ensures sent == old(sent) + Broadcast(m, self, worldSize)
    {
      for i := 0 to worldSize
        invariant sent == old(sent) + Broadcast(m, self, i)
      {
        if i != self {
          sent := sent + [Out(i, m)];
        }
      }
    }

    /** checkpoint */
    method Checkpoint(vertices: nat)
      requires Valid() && 1 <= graphLevels
      modifies this
      ensures View() == OnCheckpoint(old(View()), self, vertices, worldSize).0
      ensures sent == old(sent) + OnCheckpoint(old(View()), self, vertices, worldSize).1
    {
      graphLevels := graphLevels + 1;
      numberOfVertices := vertices;
      currentSnapshotLevel := graphLevels;
      var fileNumber := graphLevels - 2;
      Send(Snapshot(fileNumber, numberOfVertices));
    }

    /** What refresh_ro_graph leaves of the round: current_snapshot_level is not one of the things it changes. */
    method NextRound()
      modifies `graphLevels, `merges, `sent
      ensures View() == old(View()).(graphLevels := 2, merges := []) && sent == []
    {
      graphLevels, merges, sent := 2, [], [];
    }

    /** handle_snapshot_message */
    method HandleSnapshotMessage(source: nat, fileNumber: nat, vertices: nat)
      requires Valid() && source < worldSize
      modifies receivedSnapshotLevels, receivedNumVertices
      ensures View() == OnSnapshot(old(View()), source, fileNumber, vertices)
    {
      receivedSnapshotLevels[source] := fileNumber;
      receivedNumVertices[source] := vertices;
    }

    /** handle_merge_request */
    method HandleMergeRequest(source: nat, level: nat)
      requires Valid() && source < worldSize
      modifies this, receivedSnapshotLevels, expectedSnapshotLevels, receivedNumVertices
      ensures View() == OnMergeRequest(old(View()), self, source, level, worldSize).0
      ensures sent == old(sent) + OnMergeRequest(old(View()), self, source, level, worldSize).1
    {
      var hadStarted := mergeStarting;
      mergeStarting := true;
      if !hadStarted {
        Send(MergeRequest(currentSnapshotLevel));
      }
      expectedSnapshotLevels[source] := level - 2;
      ghost var joined := View();
      assert joined == old(View()).(joined := true, expected := old(View()).expected[source := level - 2]);
      var receivedAll := AllReceived();
      if receivedAll {
        MergeSnapshots();
        mergeStarting := false;
        assert View() == AfterMerge(joined, self, worldSize);
      }
    }

    /** The test of the barrier. */
    method AllReceived() returns (all: bool)
      requires Valid()
      ensures all <==> receivedSnapshotLevels[..] == expectedSnapshotLevels[..]
    {
      all := true;
      for i := 0 to worldSize
        invariant all <==> forall k :: 0 <= k < i ==> receivedSnapshotLevels[k] == expectedSnapshotLevels[k]
      {
        if receivedSnapshotLevels[i] != expectedSnapshotLevels[i] {
          all := false;
        }
      }
      assert all ==> receivedSnapshotLevels[..] == expectedSnapshotLevels[..];
      if receivedSnapshotLevels[..] == expectedSnapshotLevels[..] {
        forall k | 0 <= k < worldSize ensures receivedSnapshotLevels[k] == expectedSnapshotLevels[k] {
          assert receivedSnapshotLevels[..][k] == expectedSnapshotLevels[..][k];
        }
      }
    }

    /** merge_snapshots, as far as this module is concerned, and the clean-up after it. */
    method MergeSnapshots()
      requires Valid()
      modifies this, receivedSnapshotLevels, expectedSnapshotLevels, receivedNumVertices
      ensures View() == AfterMerge(old(View()), self, worldSize).(joined := old(mergeStarting))
      ensures sent == old(sent)
      ensures forall k :: 0 <= k < worldSize ==>
                && receivedSnapshotLevels[k] == 0 && receivedNumVertices[k] == 0
                && expectedSnapshotLevels[k] == if k == self then 0 else -1
    {
      receivedSnapshotLevels[self] := currentSnapshotLevel - 2;
      receivedNumVertices[self] := numberOfVertices;
      assert receivedSnapshotLevels[..] == old(receivedSnapshotLevels[..])[self := currentSnapshotLevel - 2];
      assert receivedNumVertices[..] == old(receivedNumVertices[..])[self := numberOfVertices];
      merges := merges + [Merge(receivedSnapshotLevels[..], receivedNumVertices[..])];
      CleanUp();
      assert expectedSnapshotLevels[..] == Fresh(worldSize, self).1;
      assert receivedSnapshotLevels[..] == Fresh(worldSize, self).0;
      assert receivedNumVertices[..] == Fresh(worldSize, self).2;
    }

    /** The end of handle_merge_request, before the locks are released. */
    method CleanUp()
      requires Valid()
      modifies receivedSnapshotLevels, expectedSnapshotLevels, receivedNumVertices
      ensures forall k :: 0 <= k < worldSize ==>
                && receivedSnapshotLevels[k] == 0 && receivedNumVertices[k] == 0
                && expectedSnapshotLevels[k] == if k == self then 0 else -1
    {
      for i := 0 to worldSize
        invariant forall k :: 0 <= k < i ==>
                    receivedSnapshotLevels[k] == receivedNumVertices[k] == 0 && expectedSnapshotLevels[k] == -1
      {
        receivedSnapshotLevels[i] := 0;
        expectedSnapshotLevels[i] := -1;
        receivedNumVertices[i] := 0;
      }
      expectedSnapshotLevels[self] := 0;
    }
  }
}
