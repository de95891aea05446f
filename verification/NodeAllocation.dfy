/** Allocation of node identifiers over all ranks: add_nodes (dllama/dllama.cpp) and the listener's
    handlers (dllama/snapshot_merger.cpp), as a step relation over ranks and FIFO channels. */
module NodeAllocation {
  import Sets
  import opened Channels
  import opened Sequences

  datatype Msg = Request(count: nat) | Ack | Command(count: nat)

  /** The shared state of one rank.  "count" and "asked" are the progress of its add_nodes call:
      every rank below "asked" has been sent the request.  "acked" and "owed" name the ranks that
      the two counters num_acks and num_new_node_requests count. */
  datatype Rank = Rank(
    adding: bool, count: nat, asked: nat,
    numAcks: nat, acked: set<nat>,
    numRequests: nat, owed: set<nat>,
    ackStack: seq<nat>,
    nodes: nat)

  // ---------------------------------------------------------------- what one rank does

  function OnStart(r: Rank, count: nat): Rank {
    r.(adding := true, count := count, asked := 0)
  }

  function OnRequest(r: Rank, self: nat, source: nat): (Rank, seq<Out<Msg>>) {
    var r' := r.(numRequests := r.numRequests + 1, owed := r.owed + {source});
    if r.adding && source < self then (r'.(ackStack := r.ackStack + [source]), [])
    else (r', [Out(source, Ack)])
  }

  function OnAck(r: Rank, source: nat): Rank {
    r.(numAcks := r.numAcks + 1, acked := r.acked + {source})
  }

  function OnCommand(r: Rank, source: nat, count: nat): Rank
    requires 0 < r.numRequests
  {
    r.(nodes := r.nodes + count, numRequests := r.numRequests - 1, owed := r.owed - {source})
  }

  /** The deferred acknowledgements, popped off the stack. */
  function Flush(stack: seq<nat>): seq<Out<Msg>> {
    if stack == [] then [] else [Out(stack[|stack| - 1], Ack)] + Flush(stack[..|stack| - 1])
  }

  /** All acknowledgements have arrived: command the others, add locally, release the deferred. */
  function OnCommit(r: Rank, self: nat, n: nat): (Rank, seq<Out<Msg>>) {
    (r.(adding := false, asked := 0, numAcks := 0, acked := {}, ackStack := [], nodes := r.nodes + r.count),
     Broadcast(Command(r.count), self, n) + Flush(r.ackStack))
  }

  // ---------------------------------------------------------------- the whole system

  datatype Grant = Grant(rank: nat, first: nat, count: nat)

  /** chan[i][j] holds the messages from rank i to rank j, oldest first; "log" the id ranges that
      add_nodes returned so far. */
  datatype System = System(ranks: seq<Rank>, chan: seq<seq<seq<Msg>>>, log: seq<Grant>)

  datatype Step = Start(i: nat, count: nat) | Ask(i: nat) | Commit(i: nat) | Deliver(i: nat, j: nat)

  ghost predicate Square(s: System) {
    |s.chan| == |s.ranks| && forall i :: 0 <= i < |s.chan| ==> |s.chan[i]| == |s.ranks|
  }

  ghost predicate Enabled(s: System, step: Step)
    requires Square(s)
  {
    match step
    case Start(i, count) => i < |s.ranks| && !s.ranks[i].adding && s.ranks[i].numRequests == 0 && 0 < count
    case Ask(i) => i < |s.ranks| && s.ranks[i].adding && s.ranks[i].asked < |s.ranks|
    case Commit(i) =>
      && i < |s.ranks| && s.ranks[i].adding && s.ranks[i].asked == |s.ranks|
      && s.ranks[i].numAcks == |s.ranks| - 1
    case Deliver(i, j) => i < |s.ranks| && j < |s.ranks| && s.chan[i][j] != []
  }

  /** A listener never sees a command it did not acknowledge; the invariant proves it. */
  function Next(s: System, step: Step): System
    requires Square(s) && Enabled(s, step)
    requires step.Deliver? && s.chan[step.i][step.j][0].Command? ==> 0 < s.ranks[step.j].numRequests
  {
    match step
    case Start(i, count) => s.(ranks := s.ranks[i := OnStart(s.ranks[i], count)])
    case Ask(i) =>
      var r := s.ranks[i];
      s.(ranks := s.ranks[i := r.(asked := r.asked + 1)],
         chan := Send(s.chan, i, if r.asked == i then [] else [Out(r.asked, Request(r.count))]))
    case Commit(i) =>
      var (r, outs) := OnCommit(s.ranks[i], i, |s.ranks|);
      System(s.ranks[i := r], Send(s.chan, i, outs), s.log + [Grant(i, s.ranks[i].nodes, s.ranks[i].count)])
    case Deliver(i, j) =>
      var chan := Receive(s.chan, i, j);
      match s.chan[i][j][0]
      case Request(_) =>
        var (r, outs) := OnRequest(s.ranks[j], j, i);
        s.(ranks := s.ranks[j := r], chan := Send(chan, j, outs))
      case Ack => s.(ranks := s.ranks[j := OnAck(s.ranks[j], i)], chan := chan)
      case Command(count) => s.(ranks := s.ranks[j := OnCommand(s.ranks[j], i, count)], chan := chan)
  }

  // ---------------------------------------------------------------- reading a channel

  /** The requests and commands in a channel, without the acknowledgements. */
  function Asks(ch: seq<Msg>): seq<Msg> {
    if ch == [] then [] else (if ch[0].Ack? then [] else [ch[0]]) + Asks(ch[1..])
  }

  function Acks(ch: seq<Msg>): nat {
    if ch == [] then 0 else (if ch[0].Ack? then 1 else 0) + Acks(ch[1..])
  }

  lemma {:induction false} AsksAppend(a: seq<Msg>, b: seq<Msg>)
    ensures Asks(a + b) == Asks(a) + Asks(b) && Acks(a + b) == Acks(a) + Acks(b)
  {
    if a == [] {
      assert a + b == b;
    } else {
      assert (a + b)[1..] == a[1..] + b;
      AsksAppend(a[1..], b);
    }
  }

  /** No command was sent after an acknowledgement that is still in flight. */
  predicate CommandsFirst(ch: seq<Msg>) {
    forall p, q :: 0 <= p < q < |ch| && ch[p].Ack? ==> !ch[q].Command?
  }

  lemma {:induction false} AckMember(ch: seq<Msg>)
    ensures Acks(ch) == 0 <==> Ack !in ch
    ensures forall m :: m in Asks(ch) <==> m in ch && !m.Ack?
  {
    if ch != [] {
      AckMember(ch[1..]);
    }
  }

  // ---------------------------------------------------------------- the invariant

  /** One conversation, from the request of rank i to the arrival of its command at rank j: request
      in flight (perhaps behind the previous command), then deferred, acknowledged or acknowledgement
      received, then command in flight. */
  ghost predicate Conversation(asked: bool, count: nat, asks: seq<Msg>, acks: nat, acked: bool, owed: bool, deferred: bool) {
    if asked then
      || (!deferred && acks == 0 && !acked &&
          ((asks == [Request(count)] && !owed)
           || (|asks| == 2 && asks[0].Command? && asks[1] == Request(count) && owed)))
      || (asks == [] && owed &&
          ((deferred && acks == 0 && !acked) || (!deferred && acks == 1 && !acked) || (!deferred && acks == 0 && acked)))
    else
      !deferred && acks == 0 && !acked && ((asks == [] && !owed) || (|asks| == 1 && asks[0].Command? && owed))
  }

  ghost predicate RankOk(r: Rank, self: nat, n: nat) {
    && |r.acked| == r.numAcks && |r.owed| == r.numRequests
    && (forall x :: x in r.acked || x in r.owed || x in r.ackStack ==> x < n && x != self)
    && Distinct(r.ackStack)
    && r.asked <= n
    && (!r.adding ==> r.asked == 0)
  }

  predicate NoCommand(ch: seq<Msg>) {
    forall m :: m in ch ==> !m.Command?
  }

  /** Rank i, which is "a", asks rank j, which is "b": "ch" leads from i to j, and "back" from j to i. */
  ghost predicate Pair(a: Rank, b: Rank, i: nat, j: nat, ch: seq<Msg>, back: seq<Msg>) {
    && Conversation(a.adding && j < a.asked, a.count, Asks(ch), Acks(back), j in a.acked, i in b.owed, i in b.ackStack)
    // a request is deferred only by an adding rank of higher priority
    && (i in b.ackStack ==> b.adding && i < j)
    // a rank that has let a lower rank go first is not adding itself
    && (i < j && (Acks(back) > 0 || j in a.acked) ==> !b.adding)
    // an acknowledgement overtakes no command
    && CommandsFirst(back)
    && (j in a.acked ==> NoCommand(back))
  }

  ghost predicate PairOk(s: System, i: nat, j: nat)
    requires Square(s) && i < |s.ranks| && j < |s.ranks|
  {
    Pair(s.ranks[i], s.ranks[j], i, j, s.chan[i][j], s.chan[j][i])
  }

  ghost predicate Inv(s: System) {
    && Square(s)
    && (forall i :: 0 <= i < |s.ranks| ==> RankOk(s.ranks[i], i, |s.ranks|) && s.chan[i][i] == [])
    && (forall i, j :: 0 <= i < |s.ranks| && 0 <= j < |s.ranks| && i != j ==> PairOk(s, i, j))
  }

  lemma InvSquare(s: System)
    requires Inv(s)
    ensures Square(s)
  {
  }

  lemma InvRank(s: System, i: nat)
    requires Inv(s) && i < |s.ranks|
    ensures Square(s) && RankOk(s.ranks[i], i, |s.ranks|) && s.chan[i][i] == []
  {
  }

  lemma InvPair(s: System, i: nat, j: nat)
    requires Inv(s) && i < |s.ranks| && j < |s.ranks| && i != j
    ensures Square(s) && Pair(s.ranks[i], s.ranks[j], i, j, s.chan[i][j], s.chan[j][i])
  {
    assert PairOk(s, i, j);
  }

  // ---------------------------------------------------------------- starting

  lemma StartPair(a: Rank, b: Rank, i: nat, j: nat, ch: seq<Msg>, back: seq<Msg>, count: nat)
    requires Pair(a, b, i, j, ch, back) && !a.adding
    ensures Pair(OnStart(a, count), b, i, j, ch, back)
  {
  }

  lemma StartPairBack(a: Rank, b: Rank, i: nat, j: nat, ch: seq<Msg>, back: seq<Msg>, count: nat)
    requires Pair(a, b, i, j, ch, back) && !b.adding && b.owed == {}
    ensures Pair(a, OnStart(b, count), i, j, ch, back)
  {
  }

  lemma StartRank(r: Rank, self: nat, n: nat, count: nat)
    requires RankOk(r, self, n)
    ensures RankOk(OnStart(r, count), self, n) && (r.numRequests == 0 ==> r.owed == {})
  {
  }

  lemma StartKeepsInv(s: System, i: nat, count: nat)
    requires Inv(s) && Enabled(s, Start(i, count))
    ensures Inv(Next(s, Start(i, count)))
  {
    hide Pair, RankOk, OnStart;
    var s' := Next(s, Start(i, count));
    InvRank(s, i);
    StartRank(s.ranks[i], i, |s.ranks|, count);
    forall a, b | 0 <= a < |s.ranks| && 0 <= b < |s.ranks| && a != b ensures PairOk(s', a, b) {
      InvPair(s, a, b);
      if a == i {
        StartPair(s.ranks[a], s.ranks[b], a, b, s.chan[a][b], s.chan[b][a], count);
      } else if b == i {
        StartPairBack(s.ranks[a], s.ranks[b], a, b, s.chan[a][b], s.chan[b][a], count);
      }
    }
  }

  // ---------------------------------------------------------------- asking

  lemma AskChannels(s: System, i: nat)
    requires Square(s) && Enabled(s, Ask(i))
    ensures var k, s' := s.ranks[i].asked, Next(s, Ask(i));
            && Square(s') && s'.ranks == s.ranks[i := s.ranks[i].(asked := k + 1)]
            && forall a, b :: 0 <= a < |s.ranks| && 0 <= b < |s.ranks| ==>
                 s'.chan[a][b] == s.chan[a][b] + if a == i && b == k && k != i then [Request(s.ranks[i].count)] else []
  {
    var k, m := s.ranks[i].asked, Request(s.ranks[i].count);
    forall b: nat ensures To([Out(k, m)], b) == if b == k then [m] else [] {
      ToOne(k, m, b);
    }
  }

  lemma AskPair(a: Rank, b: Rank, i: nat, j: nat, ch: seq<Msg>, back: seq<Msg>)
    requires Pair(a, b, i, j, ch, back) && a.adding
    ensures Pair(a.(asked := a.asked + 1), b, i, j, ch + if j == a.asked then [Request(a.count)] else [], back)
  {
    if j == a.asked {
      AsksAppend(ch, [Request(a.count)]);
      RequestAsks(a.count);
    } else {
      assert ch + [] == ch;
    }
  }

  lemma RequestAsks(count: nat)
    ensures Asks([Request(count)]) == [Request(count)] && Acks([Request(count)]) == 0
  {
  }

  lemma AskPairBack(a: Rank, b: Rank, i: nat, j: nat, ch: seq<Msg>, back: seq<Msg>)
    requires Pair(a, b, i, j, ch, back)
    ensures Pair(a, b.(asked := b.asked + 1), i, j, ch, back + if i == b.asked then [Request(b.count)] else [])
  {
    if i == b.asked {
      AsksAppend(back, [Request(b.count)]);
      RequestAsks(b.count);
    } else {
      assert back + [] == back;
    }
  }

  lemma AskKeepsInv(s: System, i: nat)
    requires Inv(s) && Enabled(s, Ask(i))
    ensures Inv(Next(s, Ask(i)))
  {
    hide Pair, RankOk, Next;
    var k, s' := s.ranks[i].asked, Next(s, Ask(i));
    AskChannels(s, i);
    forall a, b | 0 <= a < |s.ranks| && 0 <= b < |s.ranks| && a != b ensures PairOk(s', a, b) {
      InvPair(s, a, b);
      AskedPair(s, i, a, b);
    }
    forall a | 0 <= a < |s.ranks| ensures RankOk(s'.ranks[a], a, |s.ranks|) && s'.chan[a][a] == [] {
      InvRank(s, a);
      if a == i {
        AskRank(s.ranks[i], i, |s.ranks|);
      }
    }
  }

  lemma AskRank(r: Rank, self: nat, n: nat)
    requires RankOk(r, self, n) && r.adding && r.asked < n
    ensures RankOk(r.(asked := r.asked + 1), self, n)
  {
  }

  lemma AskedPair(s: System, i: nat, a: nat, b: nat)
    requires Square(s) && Enabled(s, Ask(i)) && a < |s.ranks| && b < |s.ranks| && a != b && PairOk(s, a, b)
    ensures Square(Next(s, Ask(i))) && PairOk(Next(s, Ask(i)), a, b)
  {
    hide Pair, Next;
    var s' := Next(s, Ask(i));
    AskChannels(s, i);
    assert s.chan[a][b] + [] == s.chan[a][b] && s.chan[b][a] + [] == s.chan[b][a];
    if a == i {
      AskPair(s.ranks[a], s.ranks[b], a, b, s.chan[a][b], s.chan[b][a]);
    } else if b == i {
      AskPairBack(s.ranks[a], s.ranks[b], a, b, s.chan[a][b], s.chan[b][a]);
    }
  }

  // ---------------------------------------------------------------- committing

  lemma AllOthers(a: set<nat>, n: nat, self: nat)
    requires self < n && forall x :: x in a ==> x < n && x != self
    ensures |a| <= n - 1
    ensures |a| == n - 1 ==> forall x: nat :: x < n && x != self ==> x in a
  {
    Sets.SubsetSize(a, Sets.Upto(n) - {self});
  }

  /** The heart of mutual exclusion: a rank holding every acknowledgement is acknowledged by ranks
      that hold none of its own, nor have one of its in flight to them. */
  lemma HolderIsAlone(s: System, i: nat, j: nat)
    requires Inv(s) && Enabled(s, Commit(i)) && j < |s.ranks| && j != i
    ensures j in s.ranks[i].acked
    ensures i !in s.ranks[j].acked && Acks(s.chan[i][j]) == 0
    ensures Asks(s.chan[i][j]) == [] && i in s.ranks[j].owed && i !in s.ranks[j].ackStack && Acks(s.chan[j][i]) == 0
    ensures NoCommand(s.chan[j][i])
  {
    hide Inv;
    InvRank(s, i);
    AllOthers(s.ranks[i].acked, |s.ranks|, i);
    InvPair(s, i, j);
    InvPair(s, j, i);
  }

  lemma {:induction false} ToFlush(stack: seq<nat>, b: nat)
    requires Distinct(stack)
    ensures To(Flush(stack), b) == if b in stack then [Ack] else []
  {
    if stack != [] {
      var n := |stack| - 1;
      ToFlush(stack[..n], b);
      FlushNext(stack, b);
      assert stack == stack[..n] + [stack[n]];
    }
  }

  lemma FlushNext(stack: seq<nat>, b: nat)
    requires stack != []
    ensures var n := |stack| - 1;
            To(Flush(stack), b) == (if b == stack[n] then [Ack] else []) + To(Flush(stack[..n]), b)
  {
    hide To;
    var n := |stack| - 1;
    ToAppend([Out(stack[n], Ack)], Flush(stack[..n]), b);
    ToOne(stack[n], Ack, b);
  }

  /** What a commit sends to rank b. */
  function Tail(r: Rank, b: nat): seq<Msg> {
    [Command(r.count)] + if b in r.ackStack then [Ack] else []
  }

  lemma TailAsks(r: Rank, b: nat)
    ensures Asks(Tail(r, b)) == [Command(r.count)] && Acks(Tail(r, b)) == if b in r.ackStack then 1 else 0
  {
    AsksAppend([Command(r.count)], if b in r.ackStack then [Ack] else []);
    assert Asks([Command(r.count)]) == [Command(r.count)] && Acks([Command(r.count)]) == 0;
    assert Asks([Ack]) == [] && Acks([Ack]) == 1;
  }

  lemma CommitSends(r: Rank, i: nat, n: nat, b: nat)
    requires Distinct(r.ackStack) && i !in r.ackStack && b < n
    ensures To(OnCommit(r, i, n).1, b) == if b != i then Tail(r, b) else []
  {
    hide To, Broadcast, Flush, Distinct;
    ToAppend(Broadcast(Command(r.count), i, n), Flush(r.ackStack), b);
    ToBroadcast(Command(r.count), i, n, b);
    ToFlush(r.ackStack, b);
  }

  lemma CommitChannels(s: System, i: nat)
    requires Inv(s) && Enabled(s, Commit(i))
    ensures var r, s' := s.ranks[i], Next(s, Commit(i));
            && Square(s') && s'.ranks == s.ranks[i := OnCommit(r, i, |s.ranks|).0]
            && s'.log == s.log + [Grant(i, r.nodes, r.count)]
            && (forall a, b :: 0 <= a < |s.ranks| && 0 <= b < |s.ranks| && a != i ==> s'.chan[a][b] == s.chan[a][b])
            && (forall b :: 0 <= b < |s.ranks| && b != i ==> s'.chan[i][b] == s.chan[i][b] + Tail(r, b))
            && s'.chan[i][i] == []
  {
    hide Inv, OnCommit, Tail, Distinct;
    var r, n := s.ranks[i], |s.ranks|;
    InvRank(s, i);
    forall b: nat | b < n ensures To(OnCommit(r, i, n).1, b) == if b != i then Tail(r, b) else [] {
      CommitSends(r, i, n, b);
    }
  }

  /** The conversation of the rank that commits with another: the command is on its way. */
  lemma CommitPair(a: Rank, b: Rank, i: nat, j: nat, n: nat, ch: seq<Msg>, back: seq<Msg>)
    requires Pair(a, b, i, j, ch, back) && i != j
    requires Asks(ch) == [] && i in b.owed && i !in b.ackStack && Acks(back) == 0
    ensures Pair(OnCommit(a, i, n).0, b, i, j, ch + Tail(a, j), back)
  {
    hide Asks, Acks, Tail, Broadcast, Flush, CommandsFirst;
    AsksAppend(ch, Tail(a, j));
    TailAsks(a, j);
  }

  /** The conversation of another rank with it: a deferred acknowledgement is released. */
  lemma CommitPairBack(a: Rank, b: Rank, i: nat, j: nat, n: nat, ch: seq<Msg>, back: seq<Msg>)
    requires Pair(a, b, i, j, ch, back) && i != j
    requires j !in a.acked && Acks(back) == 0
    ensures Pair(a, OnCommit(b, j, n).0, i, j, ch, back + Tail(b, i))
  {
    hide Asks, Acks, Broadcast, Flush;
    AsksAppend(back, Tail(b, i));
    TailAsks(b, i);
    AckMember(back);
  }

  lemma CommitRank(r: Rank, self: nat, n: nat)
    requires RankOk(r, self, n)
    ensures RankOk(OnCommit(r, self, n).0, self, n)
  {
    hide Broadcast, Flush;
  }

  lemma CommitKeepsInv(s: System, i: nat)
    requires Inv(s) && Enabled(s, Commit(i))
    ensures Inv(Next(s, Commit(i)))
  {
    hide Next, Pair, RankOk, Tail, OnCommit;
    var n, s' := |s.ranks|, Next(s, Commit(i));
    CommitChannels(s, i);
    forall a, b | 0 <= a < n && 0 <= b < n && a != b ensures PairOk(s', a, b) {
      InvPair(s, a, b);
      if a == i {
        HolderIsAlone(s, i, b);
        CommitPair(s.ranks[a], s.ranks[b], a, b, n, s.chan[a][b], s.chan[b][a]);
      } else if b == i {
        HolderIsAlone(s, i, a);
        CommitPairBack(s.ranks[a], s.ranks[b], a, b, n, s.chan[a][b], s.chan[b][a]);
      }
    }
    forall a | 0 <= a < n ensures RankOk(s'.ranks[a], a, n) && s'.chan[a][a] == [] {
      InvRank(s, a);
      if a == i {
        CommitRank(s.ranks[i], i, n);
      }
    }
  }

  // ---------------------------------------------------------------- delivering

  /** What a delivery needs: a command is only delivered to a rank that owes its sender one. */
  lemma DeliverReady(s: System, i: nat, j: nat)
    requires Inv(s) && Enabled(s, Deliver(i, j))
    ensures i != j && (s.chan[i][j][0].Command? ==> i in s.ranks[j].owed && 0 < s.ranks[j].numRequests)
  {
    hide Inv;
    InvRank(s, j);
    InvPair(s, i, j);
    if s.chan[i][j][0].Command? {
      assert Asks(s.chan[i][j])[0] == s.chan[i][j][0];
      Sets.SubsetSize({i}, s.ranks[j].owed);
    }
  }

  /** What the receiver of a message becomes. */
  function Received(r: Rank, j: nat, i: nat, m: Msg): Rank
    requires m.Command? ==> 0 < r.numRequests
  {
    match m
    case Request(_) => OnRequest(r, j, i).0
    case Ack => OnAck(r, i)
    case Command(count) => OnCommand(r, i, count)
  }

  /** What it sends back. */
  function Reply(r: Rank, j: nat, i: nat, m: Msg): seq<Msg> {
    if m.Request? && !(r.adding && i < j) then [Ack] else []
  }

  lemma DeliverChannels(s: System, i: nat, j: nat)
    requires Square(s) && Enabled(s, Deliver(i, j)) && i != j
    requires s.chan[i][j][0].Command? ==> 0 < s.ranks[j].numRequests
    ensures var m, r, s' := s.chan[i][j][0], s.ranks[j], Next(s, Deliver(i, j));
            && Square(s') && s'.ranks == s.ranks[j := Received(r, j, i, m)] && s'.log == s.log
            && s'.chan[i][j] == s.chan[i][j][1..]
            && s'.chan[j][i] == s.chan[j][i] + Reply(r, j, i, m)
            && forall a, b :: 0 <= a < |s.ranks| && 0 <= b < |s.ranks| && !(a == i && b == j) && !(a == j && b == i) ==>
                 s'.chan[a][b] == s.chan[a][b]
  {
    hide To;
    var m, r := s.chan[i][j][0], s.ranks[j];
    if m.Request? {
      forall b: nat ensures To(OnRequest(r, j, i).1, b) == if b == i then Reply(r, j, i, m) else [] {
        ToOne(i, Ack, b);
        ToNone<Msg>(b);
      }
      forall b | 0 <= b < |s.ranks| && b != i ensures s.chan[j][b] + [] == s.chan[j][b] { }
    } else {
      assert s.chan[j][i] + [] == s.chan[j][i];
    }
  }

  /** The first message of a channel, and the rest. */
  lemma FirstMessage(ch: seq<Msg>)
    requires ch != []
    ensures Asks(ch) == (if ch[0].Ack? then [] else [ch[0]]) + Asks(ch[1..])
    ensures Acks(ch) == (if ch[0].Ack? then 1 else 0) + Acks(ch[1..])
    ensures CommandsFirst(ch) ==> CommandsFirst(ch[1..]) && (ch[0].Ack? ==> NoCommand(ch[1..]))
    ensures NoCommand(ch) ==> NoCommand(ch[1..]) && !ch[0].Command?
  {
    if CommandsFirst(ch) && ch[0].Ack? {
      forall m | m in ch[1..] ensures !m.Command? {
        var q :| 0 <= q < |ch[1..]| && ch[1..][q] == m;
        assert ch[q + 1] == m;
      }
    }
  }

  lemma AckReply(back: seq<Msg>)
    ensures Asks(back + [Ack]) == Asks(back) && Acks(back + [Ack]) == Acks(back) + 1
    ensures CommandsFirst(back) ==> CommandsFirst(back + [Ack])
    ensures NoCommand(back) ==> NoCommand(back + [Ack])
  {
    AsksAppend(back, [Ack]);
    assert Asks([Ack]) == [] && Acks([Ack]) == 1;
    assert Asks(back) + [] == Asks(back);
  }

  /** The receiver's own conversation with the sender. */
  lemma DeliverPair(a: Rank, b: Rank, i: nat, j: nat, ch: seq<Msg>, back: seq<Msg>)
    requires Pair(a, b, i, j, ch, back) && ch != [] && i != j
    requires ch[0].Command? ==> 0 < b.numRequests
    ensures Pair(a, Received(b, j, i, ch[0]), i, j, ch[1..], back + Reply(b, j, i, ch[0]))
  {
    hide Asks, Acks, CommandsFirst, NoCommand;
    FirstMessage(ch);
    AckReply(back);
    assert back + [] == back;
    if !ch[0].Ack? {
      assert Asks(ch)[0] == ch[0];
    }
    if ch[0].Request? {
      assert Asks(ch[1..]) == [] && i !in b.owed;
      if b.adding && i < j {
        assert i in b.ackStack + [i];
      }
    }
  }

  lemma DeliverPairBack(a: Rank, b: Rank, i: nat, j: nat, ch: seq<Msg>, back: seq<Msg>)
    requires Pair(a, b, i, j, ch, back) && back != [] && i != j
    requires back[0].Command? ==> 0 < a.numRequests
    ensures Pair(Received(a, i, j, back[0]), b, i, j, ch + Reply(a, i, j, back[0]), back[1..])
  {
    hide Asks, Acks, CommandsFirst, NoCommand;
    FirstMessage(back);
    AckReply(ch);
    assert ch + [] == ch;
  }

  /** Ranks that take no part in a delivery keep their conversations with those that do. */
  lemma DeliverElsewhere(a: Rank, b: Rank, i: nat, j: nat, ch: seq<Msg>, back: seq<Msg>, k: nat, m: Msg)
    requires Pair(a, b, i, j, ch, back) && k != i && k != j
    ensures (m.Command? ==> 0 < a.numRequests) ==> Pair(Received(a, i, k, m), b, i, j, ch, back)
    ensures (m.Command? ==> 0 < b.numRequests) ==> Pair(a, Received(b, j, k, m), i, j, ch, back)
  {
    hide Conversation, Asks, Acks, CommandsFirst, NoCommand;
    assert i in b.ackStack + [k] <==> i in b.ackStack;
  }

  lemma AckRank(r: Rank, self: nat, n: nat, source: nat)
    requires RankOk(r, self, n) && source < n && source != self && source !in r.acked
    ensures RankOk(OnAck(r, source), self, n)
  {
  }

  lemma RequestRank(r: Rank, self: nat, n: nat, source: nat)
    requires RankOk(r, self, n) && source < n && source != self && source !in r.owed && source !in r.ackStack
    ensures RankOk(OnRequest(r, self, source).0, self, n)
  {
    assert forall p :: 0 <= p < |r.ackStack| ==> r.ackStack[p] in r.ackStack;
  }

  lemma CommandRank(r: Rank, self: nat, n: nat, source: nat, count: nat)
    requires RankOk(r, self, n) && source in r.owed && 0 < r.numRequests
    ensures RankOk(OnCommand(r, source, count), self, n)
  {
  }

  lemma DeliverKeepsRank(s: System, i: nat, j: nat)
    requires Inv(s) && Enabled(s, Deliver(i, j)) && i != j
    requires s.chan[i][j][0].Command? ==> 0 < s.ranks[j].numRequests
    ensures RankOk(Received(s.ranks[j], j, i, s.chan[i][j][0]), j, |s.ranks|)
  {
    hide Inv, RankOk, OnRequest, OnAck, OnCommand, CommandsFirst, NoCommand;
    InvRank(s, j);
    InvPair(s, i, j);
    InvPair(s, j, i);
    var ch, r := s.chan[i][j], s.ranks[j];
    FirstMessage(ch);
    match ch[0] {
      case Request(_) => RequestRank(r, j, |s.ranks|, i);
      case Ack => AckRank(r, j, |s.ranks|, i);
      case Command(count) =>
        DeliverReady(s, i, j);
        CommandRank(r, j, |s.ranks|, i, count);
    }
  }

  lemma DeliveredPair(s: System, i: nat, j: nat, a: nat, b: nat)
    requires Inv(s) && Enabled(s, Deliver(i, j)) && i != j && a < |s.ranks| && b < |s.ranks| && a != b
    requires s.chan[i][j][0].Command? ==> 0 < s.ranks[j].numRequests
    ensures Square(Next(s, Deliver(i, j))) && PairOk(Next(s, Deliver(i, j)), a, b)
  {
    hide Inv, Next, Pair, Received, Reply;
    InvPair(s, a, b);
    DeliverChannels(s, i, j);
    if a == i && b == j {
      DeliverPair(s.ranks[a], s.ranks[b], a, b, s.chan[a][b], s.chan[b][a]);
    } else if a == j && b == i {
      DeliverPairBack(s.ranks[a], s.ranks[b], a, b, s.chan[a][b], s.chan[b][a]);
    } else if a == j || b == j {
      DeliverElsewhere(s.ranks[a], s.ranks[b], a, b, s.chan[a][b], s.chan[b][a], i, s.chan[i][j][0]);
    }
  }

  lemma DeliverKeepsInv(s: System, i: nat, j: nat)
    requires Inv(s) && Enabled(s, Deliver(i, j))
    requires s.chan[i][j][0].Command? ==> 0 < s.ranks[j].numRequests
    ensures Inv(Next(s, Deliver(i, j)))
  {
    hide Next, PairOk, RankOk, Received, Reply;
    var s' := Next(s, Deliver(i, j));
    DeliverReady(s, i, j);
    DeliverChannels(s, i, j);
    DeliverKeepsRank(s, i, j);
    forall a, b | 0 <= a < |s.ranks| && 0 <= b < |s.ranks| && a != b ensures PairOk(s', a, b) {
      DeliveredPair(s, i, j, a, b);
    }
    forall a | 0 <= a < |s.ranks| ensures RankOk(s'.ranks[a], a, |s.ranks|) && s'.chan[a][a] == [] {
      InvRank(s, a);
    }
  }

  lemma StepKeepsInv(s: System, step: Step)
    requires Inv(s) && Enabled(s, step)
    ensures step.Deliver? && s.chan[step.i][step.j][0].Command? ==> 0 < s.ranks[step.j].numRequests
    ensures Inv(Next(s, step))
  {
    hide Inv, Next;
    match step
    case Start(i, count) => StartKeepsInv(s, i, count);
    case Ask(i) => AskKeepsInv(s, i);
    case Commit(i) => CommitKeepsInv(s, i);
    case Deliver(i, j) =>
      DeliverReady(s, i, j);
      DeliverKeepsInv(s, i, j);
  }

  // ---------------------------------------------------------------- counting nodes

  /** The nodes that the commands in a channel will add. */
  function Commands(ch: seq<Msg>): nat {
    if ch == [] then 0 else (if ch[0].Command? then ch[0].count else 0) + Commands(ch[1..])
  }

  lemma {:induction false} CommandsAppend(a: seq<Msg>, b: seq<Msg>)
    ensures Commands(a + b) == Commands(a) + Commands(b)
  {
    if a == [] {
      assert a + b == b;
    } else {
      assert (a + b)[1..] == a[1..] + b;
      CommandsAppend(a[1..], b);
    }
  }

  lemma {:induction false} NoCommands(ch: seq<Msg>)
    requires forall m :: m in ch ==> !m.Command?
    ensures Commands(ch) == 0
  {
    if ch != [] {
      assert ch[0] in ch;
      NoCommands(ch[1..]);
    }
  }

  /** The nodes that commands in flight from the ranks below "n" will add at rank i. */
  ghost function InFlight(chan: seq<seq<seq<Msg>>>, i: nat, n: nat): nat
    requires n <= |chan| && forall a :: 0 <= a < |chan| ==> i < |chan[a]|
  {
    if n == 0 then 0 else InFlight(chan, i, n - 1) + Commands(chan[n - 1][i])
  }

  lemma {:induction false} InFlightChange(chan: seq<seq<seq<Msg>>>, chan': seq<seq<seq<Msg>>>, i: nat, a: nat, n: nat)
    requires n <= |chan| == |chan'| && a < |chan|
    requires forall x :: 0 <= x < |chan| ==> i < |chan[x]| && i < |chan'[x]|
    requires forall x :: 0 <= x < |chan| && x != a ==> chan'[x][i] == chan[x][i]
    ensures InFlight(chan', i, n)
         == InFlight(chan, i, n) + if a < n then Commands(chan'[a][i]) - Commands(chan[a][i]) else 0
  {
    if n > 0 {
      InFlightChange(chan, chan', i, a, n - 1);
    }
  }

  lemma {:induction false} NothingInFlight(chan: seq<seq<seq<Msg>>>, i: nat, n: nat)
    requires n <= |chan| && forall a :: 0 <= a < |chan| ==> i < |chan[a]|
    requires forall a, m :: 0 <= a < |chan| && m in chan[a][i] ==> !m.Command?
    ensures InFlight(chan, i, n) == 0
  {
    if n > 0 {
      NoCommands(chan[n - 1][i]);
      NothingInFlight(chan, i, n - 1);
    }
  }

  function Total(log: seq<Grant>): nat {
    if log == [] then 0 else Total(log[..|log| - 1]) + log[|log| - 1].count
  }

  /** Nothing is lost: what a rank has plus what is on its way is what all ranks have added.  And
      every id range starts where the previous ones end. */
  ghost predicate Conserved(s: System, base: nat) {
    && Square(s)
    && (forall i :: 0 <= i < |s.ranks| ==>
          s.ranks[i].nodes + InFlight(s.chan, i, |s.ranks|) == base + Total(s.log))
    && (forall k :: 0 <= k < |s.log| ==> s.log[k].first == base + Total(s.log[..k]))
  }

  lemma LogNext(log: seq<Grant>, g: Grant, base: nat)
    requires g.first == base + Total(log)
    requires forall k :: 0 <= k < |log| ==> log[k].first == base + Total(log[..k])
    ensures Total(log + [g]) == Total(log) + g.count
    ensures forall k :: 0 <= k <= |log| ==> (log + [g])[k].first == base + Total((log + [g])[..k])
  {
    assert (log + [g])[..|log|] == log;
    forall k | 0 <= k < |log| ensures (log + [g])[..k] == log[..k] { }
  }

  lemma TailCommands(r: Rank, b: nat)
    ensures Commands(Tail(r, b)) == r.count
  {
    CommandsAppend([Command(r.count)], if b in r.ackStack then [Ack] else []);
  }

  /** No command is on its way to a rank that may commit. */
  lemma NothingUnderway(s: System, i: nat)
    requires Inv(s) && Enabled(s, Commit(i))
    ensures Square(s) && InFlight(s.chan, i, |s.ranks|) == 0
  {
    hide Inv;
    InvRank(s, i);
    forall a | 0 <= a < |s.ranks| ensures NoCommand(s.chan[a][i]) {
      if a != i {
        HolderIsAlone(s, i, a);
      }
    }
    NothingInFlight(s.chan, i, |s.ranks|);
  }

  lemma CommitArrives(s: System, i: nat, b: nat)
    requires Inv(s) && Enabled(s, Commit(i)) && b < |s.ranks|
    ensures var s', n := Next(s, Commit(i)), |s.ranks|;
            && Square(s) && Square(s') && |s'.ranks| == n
            && InFlight(s'.chan, b, n) == InFlight(s.chan, b, n) + if b == i then 0 else s.ranks[i].count
  {
    hide Inv, Next, Tail, InFlight;
    InvRank(s, i);
    var s' := Next(s, Commit(i));
    CommitChannels(s, i);
    InFlightChange(s.chan, s'.chan, b, i, |s.ranks|);
    if b != i {
      CommandsAppend(s.chan[i][b], Tail(s.ranks[i], b));
      TailCommands(s.ranks[i], b);
    }
  }

  lemma CommitConserves(s: System, i: nat, base: nat)
    requires Inv(s) && Conserved(s, base) && Enabled(s, Commit(i))
    ensures s.ranks[i].nodes == base + Total(s.log)
    ensures Conserved(Next(s, Commit(i)), base)
  {
    hide Inv, Next, Tail, InFlight, Total, Broadcast, Flush;
    var r, n, s' := s.ranks[i], |s.ranks|, Next(s, Commit(i));
    NothingUnderway(s, i);
    CommitChannels(s, i);
    LogNext(s.log, Grant(i, r.nodes, r.count), base);
    forall b | 0 <= b < n ensures s'.ranks[b].nodes + InFlight(s'.chan, b, n) == base + Total(s'.log) {
      CommitArrives(s, i, b);
    }
  }

  lemma DeliverArrives(s: System, i: nat, j: nat, b: nat)
    requires Square(s) && Enabled(s, Deliver(i, j)) && i != j && b < |s.ranks|
    requires s.chan[i][j][0].Command? ==> 0 < s.ranks[j].numRequests
    ensures var m, s', n := s.chan[i][j][0], Next(s, Deliver(i, j)), |s.ranks|;
            && Square(s') && |s'.ranks| == n
            && InFlight(s'.chan, b, n) == InFlight(s.chan, b, n) - if b == j && m.Command? then m.count else 0
  {
    hide Next, InFlight, Reply, Received;
    var s' := Next(s, Deliver(i, j));
    DeliverChannels(s, i, j);
    if b == j {
      InFlightChange(s.chan, s'.chan, b, i, |s.ranks|);
    } else {
      InFlightChange(s.chan, s'.chan, b, j, |s.ranks|);
      if b == i {
        CommandsAppend(s.chan[j][i], Reply(s.ranks[j], j, i, s.chan[i][j][0]));
        ReplyCommands(s.ranks[j], j, i, s.chan[i][j][0]);
      }
    }
  }

  lemma ReplyCommands(r: Rank, j: nat, i: nat, m: Msg)
    ensures Commands(Reply(r, j, i, m)) == 0
  {
  }

  lemma DeliverConserves(s: System, i: nat, j: nat, base: nat)
    requires Inv(s) && Conserved(s, base) && Enabled(s, Deliver(i, j)) && i != j
    requires s.chan[i][j][0].Command? ==> 0 < s.ranks[j].numRequests
    ensures Conserved(Next(s, Deliver(i, j)), base)
  {
    hide Inv, Next, InFlight, Total;
    var n, s' := |s.ranks|, Next(s, Deliver(i, j));
    DeliverChannels(s, i, j);
    forall b | 0 <= b < n ensures s'.ranks[b].nodes + InFlight(s'.chan, b, n) == base + Total(s'.log) {
      DeliverArrives(s, i, j, b);
    }
  }

  lemma AskConserves(s: System, i: nat, base: nat)
    requires Inv(s) && Conserved(s, base) && Enabled(s, Ask(i))
    ensures Conserved(Next(s, Ask(i)), base)
  {
    hide Inv, InFlight, Total;
    var n, s' := |s.ranks|, Next(s, Ask(i));
    AskChannels(s, i);
    forall b | 0 <= b < n ensures s'.ranks[b].nodes + InFlight(s'.chan, b, n) == base + Total(s'.log) {
      InFlightChange(s.chan, s'.chan, b, i, n);
      CommandsAppend(s.chan[i][b], [Request(s.ranks[i].count)]);
      assert s.chan[i][b] + [] == s.chan[i][b];
    }
  }

  // ---------------------------------------------------------------- whole runs

  ghost predicate Initial(s: System, base: nat) {
    && Square(s) && s.log == []
    && (forall i :: 0 <= i < |s.ranks| ==> s.ranks[i] == Rank(false, 0, 0, 0, {}, 0, {}, [], base))
    && (forall i, j :: 0 <= i < |s.ranks| && 0 <= j < |s.ranks| ==> s.chan[i][j] == [])
  }

  /** "t" is reached from "s" by the steps, in any interleaving. */
  ghost predicate Run(s: System, steps: seq<Step>, t: System)
    requires Inv(s)
    decreases steps
  {
    if steps == [] then s == t
    else Enabled(s, steps[0]) && (StepKeepsInv(s, steps[0]); Run(Next(s, steps[0]), steps[1..], t))
  }

  lemma InitialOk(s: System, base: nat)
    requires Initial(s, base)
    ensures Inv(s) && Conserved(s, base)
  {
    forall i | 0 <= i < |s.ranks| ensures InFlight(s.chan, i, |s.ranks|) == 0 {
      NothingInFlight(s.chan, i, |s.ranks|);
    }
  }

  lemma {:induction false} RunKeeps(s: System, steps: seq<Step>, t: System, base: nat)
    requires Inv(s) && Conserved(s, base) && Run(s, steps, t)
    ensures Inv(t) && Conserved(t, base)
    decreases steps
  {
    if steps != [] {
      var step := steps[0];
      StepKeepsInv(s, step);
      match step {
        case Start(_, _) =>
        case Ask(i) => AskConserves(s, i, base);
        case Commit(i) => CommitConserves(s, i, base);
        case Deliver(i, j) =>
          DeliverReady(s, i, j);
          DeliverConserves(s, i, j, base);
      }
      RunKeeps(Next(s, step), steps[1..], t, base);
    }
  }

  /** Mutual exclusion, in every state of every run: at most one rank may commit, and when one may,
      no command is in flight to it, so the range it returns starts right after all earlier ones. */
  lemma MutualExclusion(s: System, steps: seq<Step>, t: System, base: nat, i: nat)
    requires Initial(s, base) && (InitialOk(s, base); Run(s, steps, t))
    requires (RunOk(s, steps, t, base); Enabled(t, Commit(i)))
    ensures Square(t) && Enabled(t, Commit(i))
    ensures forall j :: 0 <= j < |t.ranks| && j != i ==> !Enabled(t, Commit(j))
    ensures forall j, m :: 0 <= j < |t.ranks| && m in t.chan[j][i] ==> !m.Command?
    ensures t.ranks[i].nodes == base + Total(t.log)
  {
    RunOk(s, steps, t, base);
    forall j | 0 <= j < |t.ranks| && j != i
      ensures !Enabled(t, Commit(j)) && forall m :: m in t.chan[j][i] ==> !m.Command?
    {
      HolderIsAlone(t, i, j);
      AllOthers(t.ranks[j].acked, |t.ranks|, j);
    }
    CommitConserves(t, i, base);
  }

  lemma RunOk(s: System, steps: seq<Step>, t: System, base: nat)
    requires Initial(s, base) && (InitialOk(s, base); Run(s, steps, t))
    ensures Inv(t) && Conserved(t, base)
  {
    InitialOk(s, base);
    RunKeeps(s, steps, t, base);
  }

  /** The ranges returned by all add_nodes calls of a run are pairwise disjoint, in order, and
      leave no gap. */
  lemma RangesDisjoint(s: System, steps: seq<Step>, t: System, base: nat, p: nat, q: nat)
    requires Initial(s, base) && (InitialOk(s, base); Run(s, steps, t))
    requires p < q < |t.log|
    ensures t.log[p].first + t.log[p].count <= t.log[q].first
    ensures q == p + 1 ==> t.log[p].first + t.log[p].count == t.log[q].first
    ensures t.log[0].first == base
  {
    hide Inv, Initial, Run;
    RunOk(s, steps, t, base);
    TotalNext(t.log, p);
    TotalMonotone(t.log, p + 1, q);
  }

  lemma TotalNext(log: seq<Grant>, p: nat)
    requires p < |log|
    ensures Total(log[..p + 1]) == Total(log[..p]) + log[p].count
  {
    assert log[..p + 1][..p] == log[..p];
  }

  lemma {:induction false} TotalMonotone(log: seq<Grant>, p: nat, q: nat)
    requires p <= q <= |log|
    ensures Total(log[..p]) <= Total(log[..q])
    decreases q
  {
    if p < q {
      assert log[..q][..q - 1] == log[..q - 1];
      TotalMonotone(log, p, q - 1);
    }
  }

  ghost predicate Silent(s: System)
    requires Square(s)
  {
    forall i, j :: 0 <= i < |s.ranks| && 0 <= j < |s.ranks| ==> s.chan[i][j] == []
  }

  ghost predicate HighestAdder(s: System, i: nat) {
    && i < |s.ranks| && s.ranks[i].adding
    && forall j :: i < j < |s.ranks| ==> !s.ranks[j].adding
  }

  /** No deadlock: with no message in flight, the highest-ranked adder that has asked everybody
      already has every acknowledgement. */
  lemma HighestAdderCommits(t: System, i: nat)
    requires Inv(t) && Silent(t) && HighestAdder(t, i) && t.ranks[i].asked == |t.ranks|
    ensures t.ranks[i].numAcks == |t.ranks| - 1
  {
    hide Inv;
    InvRank(t, i);
    var others := Sets.Upto(|t.ranks|) - {i};
    forall j | j in others ensures j in t.ranks[i].acked {
      InvPair(t, i, j);
    }
    assert others == t.ranks[i].acked;
  }

  /** Nobody is adding nodes, and no message is in flight. */
  ghost predicate AtRest(s: System) {
    Square(s) && Silent(s) && forall i :: 0 <= i < |s.ranks| ==> !s.ranks[i].adding
  }

  /** In every other state of every run there is a step to take that is not the start of another call. */
  lemma NeverStuck(s: System, steps: seq<Step>, t: System, base: nat)
    requires Initial(s, base) && (InitialOk(s, base); Run(s, steps, t))
    ensures Square(t) && ((exists step: Step :: !step.Start? && Enabled(t, step)) <==> !AtRest(t))
  {
    RunOk(s, steps, t, base);
    if !AtRest(t) {
      var step := SomeStep(t);
    }
  }

  lemma SomeStep(t: System) returns (step: Step)
    requires Inv(t) && !AtRest(t)
    ensures Square(t) && !step.Start? && Enabled(t, step)
  {
    hide Inv;
    InvSquare(t);
    if a, b :| 0 <= a < |t.ranks| && 0 <= b < |t.ranks| && t.chan[a][b] != [] {
      step := Deliver(a, b);
    } else {
      var i :| 0 <= i < |t.ranks| && t.ranks[i].adding;
      var top := HighestOf(t, i);
      InvRank(t, top);
      if t.ranks[top].asked < |t.ranks| {
        step := Ask(top);
      } else {
        HighestAdderCommits(t, top);
        step := Commit(top);
      }
    }
  }

  lemma HighestOf(s: System, i: nat) returns (top: nat)
    requires i < |s.ranks| && s.ranks[i].adding
    ensures HighestAdder(s, top)
    decreases |s.ranks| - i
  {
    if j :| i < j < |s.ranks| && s.ranks[j].adding {
      top := HighestOf(s, j);
    } else {
      top := i;
    }
  }

  /** When everything has been delivered, all ranks have the same nodes. */
  lemma RanksAgree(s: System, steps: seq<Step>, t: System, base: nat, i: nat)
    requires Initial(s, base) && (InitialOk(s, base); Run(s, steps, t))
    requires (RunOk(s, steps, t, base); Silent(t)) && i < |t.ranks|
    ensures t.ranks[i].nodes == base + Total(t.log)
  {
    RunOk(s, steps, t, base);
    NothingInFlight(t.chan, i, |t.ranks|);
  }

  // ---------------------------------------------------------------- the first half of add_nodes, as steps

  /** Rank i starts a call and asks the first n ranks. */
  ghost predicate AsksFirst(s: System, i: nat, count: nat, n: nat, t: System)
    requires Square(s) && Enabled(s, Start(i, count)) && n <= |s.ranks|
    decreases n
  {
    if n == 0 then t == Next(s, Start(i, count))
    else exists u :: AsksFirst(s, i, count, n - 1, u) && Square(u) && Enabled(u, Ask(i)) && t == Next(u, Ask(i))
  }

  /** What that comes to: the rank is adding as many nodes as the call was for, and has sent that number to
      every other of these ranks. */
  lemma {:induction false} AfterAsking(s: System, i: nat, count: nat, n: nat) returns (t: System)
    requires Square(s) && Enabled(s, Start(i, count)) && n <= |s.ranks|
    ensures AsksFirst(s, i, count, n, t) && Square(t)
    ensures t.ranks == s.ranks[i := s.ranks[i].(adding := true, count := count, asked := n)] && t.log == s.log
    ensures |t.chan| == |s.chan| && forall a, b :: 0 <= a < |s.ranks| && 0 <= b < |s.ranks| ==>
              t.chan[a][b] == s.chan[a][b] + if a == i && b < n && b != i then [Request(count)] else []
    decreases n
  {
    if n == 0 {
      t := Next(s, Start(i, count));
      assert forall a, b :: 0 <= a < |s.ranks| && 0 <= b < |s.ranks| ==> s.chan[a][b] + [] == s.chan[a][b];
    } else {
      var u := AfterAsking(s, i, count, n - 1);
      AskChannels(u, i);
      t := Next(u, Ask(i));
      AskedOne(s, u, t, i, count, n - 1);
    }
  }

  lemma AskedOne(s: System, u: System, t: System, i: nat, count: nat, k: nat)
    requires Square(s) && Square(u) && Square(t) && |s.ranks| == |u.ranks| == |t.ranks| && i < |s.ranks| && k < |s.ranks|
    requires forall a, b :: 0 <= a < |s.ranks| && 0 <= b < |s.ranks| ==>
               u.chan[a][b] == s.chan[a][b] + if a == i && b < k && b != i then [Request(count)] else []
    requires forall a, b :: 0 <= a < |s.ranks| && 0 <= b < |s.ranks| ==>
               t.chan[a][b] == u.chan[a][b] + if a == i && b == k && k != i then [Request(count)] else []
    ensures forall a, b :: 0 <= a < |s.ranks| && 0 <= b < |s.ranks| ==>
              t.chan[a][b] == s.chan[a][b] + if a == i && b < k + 1 && b != i then [Request(count)] else []
  {
    forall a, b | 0 <= a < |s.ranks| && 0 <= b < |s.ranks|
      ensures t.chan[a][b] == s.chan[a][b] + if a == i && b < k + 1 && b != i then [Request(count)] else []
    {
      assert u.chan[a][b] + [] == u.chan[a][b];
      assert s.chan[a][b] + [] == s.chan[a][b];
    }
  }

  /** The same messages, as the code sends them: one after another, to each other rank. */
  lemma SameRequests(s: System, i: nat, count: nat, t: System)
    requires Square(s) && i < |s.ranks| == |t.ranks| && Square(t)
    requires forall a, b :: 0 <= a < |s.ranks| && 0 <= b < |s.ranks| ==>
               t.chan[a][b] == s.chan[a][b] + if a == i && b < |s.ranks| && b != i then [Request(count)] else []
    ensures t.chan == Send(s.chan, i, Broadcast(Request(count), i, |s.ranks|))
  {
    var sent := Send(s.chan, i, Broadcast(Request(count), i, |s.ranks|));
    forall a | 0 <= a < |s.ranks| ensures t.chan[a] == sent[a] {
      forall b | 0 <= b < |s.ranks| ensures t.chan[a][b] == sent[a][b] {
        ToBroadcast(Request(count), i, |s.ranks|, b);
        assert s.chan[a][b] + [] == s.chan[a][b];
      }
    }
  }

  /** Acknowledgements are released in the opposite order of the requests. */
  lemma {:induction false} FlushOrder(stack: seq<nat>, k: nat)
    requires k < |stack|
    ensures |Flush(stack)| == |stack| && Flush(stack)[k] == Out(stack[|stack| - 1 - k], Ack)
  {
    var n := |stack| - 1;
    if n > 0 {
      FlushOrder(stack[..n], if k > 0 then k - 1 else 0);
    }
  }

  // ---------------------------------------------------------------- the code of one rank

  /** shared_thread_state and the graph's node counter, with the messages sent so far. */
  class SharedState {
    const self: nat
    const worldSize: nat
    var selfAddingNode: bool
    var numAcks: nat
    var numNewNodeRequests: nat
    var newNodeAckStack: seq<nat>
    var maxNodes: nat
    var sent: seq<Out<Msg>>
    ghost var count: nat
    ghost var asked: nat
    ghost var acked: set<nat>
    ghost var owed: set<nat>

    ghost function View(): Rank
      reads this
    {
      Rank(selfAddingNode, count, asked, numAcks, acked, numNewNodeRequests, owed, newNodeAckStack, maxNodes)
    }

    /** handle_new_node_request */
    method HandleNewNodeRequest(source: nat)
      modifies this
      ensures View() == OnRequest(old(View()), self, source).0
      ensures sent == old(sent) + OnRequest(old(View()), self, source).1
    {
      numNewNodeRequests := numNewNodeRequests + 1;
      owed := owed + {source};
      if selfAddingNode && source < self {
        newNodeAckStack := newNodeAckStack + [source];
      } else {
        sent := sent + [Out(source, Ack)];
      }
    }

    /** handle_new_node_ack */
    method HandleNewNodeAck(source: nat)
      modifies this
      ensures View() == OnAck(old(View()), source) && sent == old(sent)
    {
      numAcks := numAcks + 1;
      acked := acked + {source};
    }

    /** handle_new_node_command, with the loop of force_add_nodes */
    method HandleNewNodeCommand(source: nat, numNewNodes: nat)
      requires 0 < numNewNodeRequests
      modifies this
      ensures View() == OnCommand(old(View()), source, numNewNodes) && sent == old(sent)
    {
      for i := 0 to numNewNodes
        invariant View() == old(View()).(nodes := old(maxNodes) + i) && sent == old(sent)
      {
        maxNodes := maxNodes + 1;
      }
      numNewNodeRequests := numNewNodeRequests - 1;
      owed := owed - {source};
    }

    /** The beginning of add_nodes, up to the wait for the acknowledgements. A number of nodes that
        is not positive is refused before anything happens; otherwise, in any system of which this is one
        rank, it is the start of a call and then an Ask step for every rank. */
    method BeginAddNodes(numNewNodes: int, ghost s: System) returns (started: bool, ghost t: System)
      requires numNewNodes > 0 ==> !selfAddingNode && numNewNodeRequests == 0
      requires Square(s) && self < |s.ranks| == worldSize && s.ranks[self] == View()
      modifies this
      ensures started <==> numNewNodes > 0
      ensures !started ==> View() == old(View()) && sent == old(sent)
      ensures started ==> View() == old(View()).(adding := true, count := numNewNodes, asked := worldSize)
      ensures started ==> sent == old(sent) + Broadcast(Request(numNewNodes), self, worldSize)
      ensures started ==> Enabled(s, Start(self, numNewNodes)) && AsksFirst(s, self, numNewNodes, worldSize, t)
      ensures started ==> t == System(s.ranks[self := View()], Send(s.chan, self, sent[|old(sent)|..]), s.log)
    {
      hide AsksFirst, Broadcast, Send;
      t := s;
      started := numNewNodes > 0;
      if !started {
        return;
      }
      t := AfterAsking(s, self, numNewNodes, worldSize);
      SameRequests(s, self, numNewNodes, t);
      selfAddingNode := true;
      count, asked := numNewNodes, 0;
      AskOthers(numNewNodes);
      assert sent[|old(sent)|..] == Broadcast(Request(numNewNodes), self, worldSize);
    }

    method AskOthers(numNewNodes: nat)
      requires asked == 0
      modifies `sent, `asked
      ensures asked == worldSize && sent == old(sent) + Broadcast(Request(numNewNodes), self, worldSize)
    {
      for i := 0 to worldSize
        invariant asked == i && sent == old(sent) + Broadcast(Request(numNewNodes), self, i)
      {
        if i != self {
          sent := sent + [Out(i, Request(numNewNodes))];
        }
        asked := asked + 1;
      }
    }

    /** The rest of add_nodes.  Sending the commands, adding locally and releasing the deferred
        acknowledgements is one step. */
    method FinishAddNodes(numNewNodes: nat) returns (newNodeId: int)
      requires numAcks == worldSize - 1 && count == numNewNodes && 0 < numNewNodes
      modifies this
      ensures View() == OnCommit(old(View()), self, worldSize).0
      ensures sent == old(sent) + OnCommit(old(View()), self, worldSize).1
      ensures newNodeId == old(maxNodes)
    {
      numAcks, acked := 0, {};
      CommandOthers(numNewNodes);
      newNodeId := AddLocally(numNewNodes);
      ReleaseDeferred();
    }

    method CommandOthers(numNewNodes: nat)
      modifies `sent
      ensures sent == old(sent) + Broadcast(Command(numNewNodes), self, worldSize)
    {
      for i := 0 to worldSize
        invariant sent == old(sent) + Broadcast(Command(numNewNodes), self, i)
      {
        if i != self {
          sent := sent + [Out(i, Command(numNewNodes))];
        }
      }
    }

    method AddLocally(numNewNodes: nat) returns (newNodeId: int)
      requires 0 < numNewNodes
      modifies `maxNodes
      ensures maxNodes == old(maxNodes) + numNewNodes && newNodeId == old(maxNodes)
    {
      newNodeId := 0;
      for i := 0 to numNewNodes
        invariant maxNodes == old(maxNodes) + i
        invariant 0 < i ==> newNodeId == maxNodes - 1
      {
        newNodeId := maxNodes;
        maxNodes := maxNodes + 1;
      }
      newNodeId := newNodeId + 1 - numNewNodes;
    }

    method ReleaseDeferred()
      modifies this
      ensures View() == old(View()).(adding := false, asked := 0, ackStack := [])
      ensures sent == old(sent) + Flush(old(newNodeAckStack))
    {
      selfAddingNode, asked := false, 0;
      while newNodeAckStack != []
        invariant View() == old(View()).(adding := false, asked := 0, ackStack := newNodeAckStack)
        invariant sent + Flush(newNodeAckStack) == old(sent) + Flush(old(newNodeAckStack))
        decreases |newNodeAckStack|
      {
        var top := newNodeAckStack[|newNodeAckStack| - 1];
        assert Flush(newNodeAckStack) == [Out(top, Ack)] + Flush(newNodeAckStack[..|newNodeAckStack| - 1]);
        sent := sent + [Out(top, Ack)];
        newNodeAckStack := newNodeAckStack[..|newNodeAckStack| - 1];
      }
    }
  }
}
