/** Every add_nodes call ends: what is left to do for the calls in progress, and how every step that is
    not the start of another call makes it less (dllama/dllama.cpp, dllama/snapshot_merger.cpp). */
module AllocationProgress {
  import opened Channels
  import opened NodeAllocation
  import opened Sequences

  // ---------------------------------------------------------------- what is left to do

  /** A request is answered by an acknowledgement, now or later; nothing follows the other messages. */
  function Weight(m: Msg): nat {
    if m.Request? then 2 else 1
  }

  function InChannel(ch: seq<Msg>): nat {
    if ch == [] then 0 else Weight(ch[0]) + InChannel(ch[1..])
  }

  function Sent(outs: seq<Out<Msg>>): nat {
    if outs == [] then 0 else Sent(outs[..|outs| - 1]) + Weight(outs[|outs| - 1].msg)
  }

  /** The requests not sent yet, the commands, and the acknowledgements deferred. */
  function AtRank(r: Rank, n: nat): nat {
    (if r.adding then (if r.asked <= n then 3 * (n - r.asked) else 0) + n else 0) + |r.ackStack|
  }

  ghost function Row(row: seq<seq<Msg>>): (r: seq<nat>)
    ensures |r| == |row| && forall b :: 0 <= b < |row| ==> r[b] == InChannel(row[b])
  {
    seq(|row|, b requires 0 <= b < |row| => InChannel(row[b]))
  }

  ghost function Rows(chan: seq<seq<seq<Msg>>>): (r: seq<nat>)
    ensures |r| == |chan| && forall a :: 0 <= a < |chan| ==> r[a] == Sum(Row(chan[a]))
  {
    seq(|chan|, a requires 0 <= a < |chan| => Sum(Row(chan[a])))
  }

  ghost function AtRanks(ranks: seq<Rank>): (r: seq<nat>)
    ensures |r| == |ranks| && forall i :: 0 <= i < |ranks| ==> r[i] == AtRank(ranks[i], |ranks|)
  {
    seq(|ranks|, i requires 0 <= i < |ranks| => AtRank(ranks[i], |ranks|))
  }

  ghost function Left(s: System): nat {
    Sum(AtRanks(s.ranks)) + Sum(Rows(s.chan))
  }

  // ---------------------------------------------------------------- channels and ranks

  lemma {:induction false} InChannelAppend(a: seq<Msg>, b: seq<Msg>)
    ensures InChannel(a + b) == InChannel(a) + InChannel(b)
  {
    if a == [] {
      assert a + b == b;
    } else {
      assert (a + b)[1..] == a[1..] + b;
      InChannelAppend(a[1..], b);
    }
  }

  /** The channels of one rank after it has sent "outs". */
  ghost function After(row: seq<seq<Msg>>, outs: seq<Out<Msg>>): (r: seq<seq<Msg>>)
    ensures |r| == |row| && forall b :: 0 <= b < |row| ==> r[b] == row[b] + To(outs, b)
  {
    seq(|row|, b requires 0 <= b < |row| => row[b] + To(outs, b))
  }

  lemma {:induction false} SendFills(row: seq<seq<Msg>>, outs: seq<Out<Msg>>)
    ensures Sum(Row(After(row, outs))) <= Sum(Row(row)) + Sent(outs)
  {
    if outs == [] {
      assert forall b :: 0 <= b < |row| ==> row[b] + [] == row[b];
      assert Row(After(row, outs)) == Row(row);
    } else {
      var init, last := outs[..|outs| - 1], outs[|outs| - 1];
      assert outs == init + [last];
      SendFills(row, init);
      OneMore(row, init, last);
    }
  }

  lemma OneMore(row: seq<seq<Msg>>, init: seq<Out<Msg>>, last: Out<Msg>)
    ensures Sum(Row(After(row, init + [last]))) <= Sum(Row(After(row, init))) + Weight(last.msg)
  {
    hide To, InChannel, Sum;
    var before, after := Row(After(row, init)), Row(After(row, init + [last]));
    forall b | 0 <= b < |row| ensures after[b] == before[b] + if b == last.dest then Weight(last.msg) else 0 {
      ToAppend(init, [last], b);
      ToOne(last.dest, last.msg, b);
      assert row[b] + To(init + [last], b) == (row[b] + To(init, b)) + To([last], b);
      InChannelAppend(row[b] + To(init, b), To([last], b));
      OneMessage(last.msg);
    }
    if last.dest < |row| {
      assert after == before[last.dest := before[last.dest] + Weight(last.msg)];
      SumUpdate(before, last.dest, before[last.dest] + Weight(last.msg));
    } else {
      assert after == before;
    }
  }

  lemma OneMessage(m: Msg)
    ensures InChannel([m]) == Weight(m) && InChannel([]) == 0
  {
  }

  lemma SendLeft(chan: seq<seq<seq<Msg>>>, i: nat, outs: seq<Out<Msg>>)
    requires i < |chan|
    ensures Sum(Rows(Send(chan, i, outs))) <= Sum(Rows(chan)) + Sent(outs)
  {
    hide Sum, To, Sent;
    var chan' := Send(chan, i, outs);
    SendFills(chan[i], outs);
    assert chan'[i] == After(chan[i], outs);
    assert Rows(chan') == Rows(chan)[i := Sum(Row(chan'[i]))];
    SumUpdate(Rows(chan), i, Sum(Row(chan'[i])));
  }

  lemma ReceiveLeft(chan: seq<seq<seq<Msg>>>, a: nat, b: nat)
    requires a < |chan| && b < |chan[a]| && chan[a][b] != []
    ensures Sum(Rows(Receive(chan, a, b))) + Weight(chan[a][b][0]) == Sum(Rows(chan))
  {
    hide Sum;
    var chan' := Receive(chan, a, b);
    assert Row(chan'[a]) == Row(chan[a])[b := InChannel(chan[a][b][1..])];
    SumUpdate(Row(chan[a]), b, InChannel(chan[a][b][1..]));
    assert Rows(chan') == Rows(chan)[a := Sum(Row(chan'[a]))];
    SumUpdate(Rows(chan), a, Sum(Row(chan'[a])));
  }

  lemma RankLeft(ranks: seq<Rank>, i: nat, r: Rank)
    requires i < |ranks|
    ensures Sum(AtRanks(ranks[i := r])) + AtRank(ranks[i], |ranks|) == Sum(AtRanks(ranks)) + AtRank(r, |ranks|)
  {
    hide Sum, AtRank;
    assert AtRanks(ranks[i := r]) == AtRanks(ranks)[i := AtRank(r, |ranks|)];
    SumUpdate(AtRanks(ranks), i, AtRank(r, |ranks|));
  }

  lemma {:induction false} SentAppend(a: seq<Out<Msg>>, b: seq<Out<Msg>>)
    ensures Sent(a + b) == Sent(a) + Sent(b)
  {
    if b == [] {
      assert a + b == a;
    } else {
      assert (a + b)[..|a + b| - 1] == a + b[..|b| - 1];
      SentAppend(a, b[..|b| - 1]);
    }
  }

  lemma {:induction false} SentFlush(stack: seq<nat>)
    ensures Sent(Flush(stack)) == |stack|
  {
    if stack != [] {
      var n := |stack| - 1;
      SentFlush(stack[..n]);
      SentAppend([Out(stack[n], Ack)], Flush(stack[..n]));
      assert [Out(stack[n], Ack)][..0] == [];
    }
  }

  lemma {:induction false} SentBroadcast(count: nat, self: nat, n: nat)
    ensures Sent(Broadcast(Command(count), self, n)) == n - if self < n then 1 else 0
  {
    if n > 0 {
      var last := if n - 1 == self then [] else [Out(n - 1, Command(count))];
      SentBroadcast(count, self, n - 1);
      SentAppend(Broadcast(Command(count), self, n - 1), last);
      assert last != [] ==> last[..0] == [];
    }
  }

  // ---------------------------------------------------------------- every step

  lemma AskLeft(s: System, i: nat)
    requires Inv(s) && Enabled(s, Ask(i))
    ensures Left(Next(s, Ask(i))) < Left(s)
  {
    hide Inv, Sum;
    InvRank(s, i);
    var r, outs := s.ranks[i], if s.ranks[i].asked == i then [] else [Out(s.ranks[i].asked, Request(s.ranks[i].count))];
    RankLeft(s.ranks, i, r.(asked := r.asked + 1));
    SendLeft(s.chan, i, outs);
    assert outs != [] ==> outs[..0] == [];
  }

  lemma CommitLeft(s: System, i: nat)
    requires Inv(s) && Enabled(s, Commit(i))
    ensures Left(Next(s, Commit(i))) < Left(s)
  {
    hide Inv, Sum, Sent;
    InvRank(s, i);
    var r, n := s.ranks[i], |s.ranks|;
    RankLeft(s.ranks, i, OnCommit(r, i, n).0);
    SendLeft(s.chan, i, OnCommit(r, i, n).1);
    SentAppend(Broadcast(Command(r.count), i, n), Flush(r.ackStack));
    SentBroadcast(r.count, i, n);
    SentFlush(r.ackStack);
  }

  lemma DeliverLeft(s: System, i: nat, j: nat)
    requires Inv(s) && Enabled(s, Deliver(i, j)) && (s.chan[i][j][0].Command? ==> 0 < s.ranks[j].numRequests)
    ensures Left(Next(s, Deliver(i, j))) < Left(s)
  {
    hide Inv, Sum;
    InvSquare(s);
    var m, r, chan := s.chan[i][j][0], s.ranks[j], Receive(s.chan, i, j);
    ReceiveLeft(s.chan, i, j);
    RankLeft(s.ranks, j, Received(r, j, i, m));
    if m.Request? {
      SendLeft(chan, j, OnRequest(r, j, i).1);
      assert [Out(i, Ack)][..0] == [];
    }
  }

  /** Starting a call adds four units for each rank; every other step takes some away. */
  lemma StepLeft(s: System, step: Step)
    requires Inv(s) && Enabled(s, step)
    requires step.Deliver? && s.chan[step.i][step.j][0].Command? ==> 0 < s.ranks[step.j].numRequests
    ensures if step.Start? then Left(Next(s, step)) == Left(s) + 4 * |s.ranks| else Left(Next(s, step)) < Left(s)
  {
    hide Inv, Sum;
    InvSquare(s);
    match step
    case Start(i, count) =>
      InvRank(s, i);
      RankLeft(s.ranks, i, OnStart(s.ranks[i], count));
    case Ask(i) => AskLeft(s, i);
    case Commit(i) => CommitLeft(s, i);
    case Deliver(i, j) => DeliverLeft(s, i, j);
  }

  // ---------------------------------------------------------------- whole runs

  function Starts(steps: seq<Step>): nat
    decreases steps
  {
    if steps == [] then 0 else (if steps[0].Start? then 1 else 0) + Starts(steps[1..])
  }

  /** The steps that one add_nodes call can take. */
  function PerCall(n: nat): nat {
    4 * n + 1
  }

  lemma BudgetNext(perCall: nat, calls: nat)
    ensures perCall * (calls + 1) == perCall * calls + perCall
  {
  }

  lemma {:induction false} RunLeft(s: System, steps: seq<Step>, t: System)
    requires Inv(s) && Run(s, steps, t)
    ensures Inv(t) && |t.ranks| == |s.ranks|
    ensures |steps| + Left(t) <= Left(s) + PerCall(|s.ranks|) * Starts(steps)
    decreases steps
  {
    hide Inv, Left, Next;
    if steps != [] {
      InvSquare(s);
      StepKeepsInv(s, steps[0]);
      StepLeft(s, steps[0]);
      SameRanks(s, steps[0]);
      RunLeft(Next(s, steps[0]), steps[1..], t);
      BudgetNext(PerCall(|s.ranks|), Starts(steps[1..]));
    }
  }

  lemma SameRanks(s: System, step: Step)
    requires Square(s) && Enabled(s, step)
    requires step.Deliver? && s.chan[step.i][step.j][0].Command? ==> 0 < s.ranks[step.j].numRequests
    ensures |Next(s, step).ranks| == |s.ranks|
  {
  }

  /** Termination: however the steps interleave, a run is no longer than 4n + 1 steps for each of the
      add_nodes calls in it. */
  lemma RunsEnd(s: System, steps: seq<Step>, t: System, base: nat)
    requires Initial(s, base) && (InitialOk(s, base); Run(s, steps, t))
    ensures |steps| <= PerCall(|s.ranks|) * Starts(steps)
  {
    hide Inv, Left, Run;
    InitialOk(s, base);
    RunLeft(s, steps, t);
    NothingLeft(s, base);
  }

  lemma NothingLeft(s: System, base: nat)
    requires Initial(s, base)
    ensures Left(s) == 0
  {
    hide Sum;
    SumZero(AtRanks(s.ranks));
    forall a | 0 <= a < |s.chan| ensures Sum(Row(s.chan[a])) == 0 {
      SumZero(Row(s.chan[a]));
    }
    SumZero(Rows(s.chan));
  }

  /** Completion: from every state of every run, the calls in progress can be finished without starting
      another; in the end nobody is adding, nothing is in flight, and all ranks have the same nodes. */
  lemma CallsFinish(s: System, steps: seq<Step>, t: System, base: nat) returns (more: seq<Step>, u: System)
    requires Initial(s, base) && (InitialOk(s, base); Run(s, steps, t))
    ensures Inv(t) && Run(t, more, u) && Starts(more) == 0 && |more| <= Left(t)
    ensures AtRest(u) && forall i :: 0 <= i < |u.ranks| ==> u.ranks[i].nodes == base + Total(u.log)
  {
    hide Inv, Left, Run, Conserved;
    RunOk(s, steps, t, base);
    more, u := Finish(t);
    RunKeeps(t, more, u, base);
    RunLeft(t, more, u);
    forall i | 0 <= i < |u.ranks| ensures u.ranks[i].nodes == base + Total(u.log) {
      AgreeAtRest(u, base, i);
    }
  }

  lemma AgreeAtRest(u: System, base: nat, i: nat)
    requires Conserved(u, base) && AtRest(u) && i < |u.ranks|
    ensures u.ranks[i].nodes == base + Total(u.log)
  {
    NothingInFlight(u.chan, i, |u.ranks|);
  }

  lemma Finish(t: System) returns (more: seq<Step>, u: System)
    requires Inv(t)
    ensures Run(t, more, u) && Starts(more) == 0 && AtRest(u)
    decreases Left(t)
  {
    hide Inv, Left, Next, AtRest;
    if AtRest(t) {
      more, u := [], t;
    } else {
      var step := SomeStep(t);
      StepKeepsInv(t, step);
      StepLeft(t, step);
      var rest;
      rest, u := Finish(Next(t, step));
      more := [step] + rest;
      assert more[1..] == rest;
    }
  }
}
