/** What add_nodes gives is what was asked for: the calls of a run against the id ranges it returned
    (dllama/dllama.cpp). */
module AllocationHistory {
  import opened NodeAllocation
  import opened Sequences

  /** The numbers of nodes that rank i's calls were for, in order. */
  function Started(steps: seq<Step>, i: nat): seq<nat> {
    if steps == [] then []
    else (if steps[0].Start? && steps[0].i == i then [steps[0].count] else []) + Started(steps[1..], i)
  }

  /** The sizes of the id ranges that rank i's calls returned, in order. */
  function Granted(log: seq<Grant>, i: nat): seq<nat> {
    if log == [] then []
    else
      var last := log[|log| - 1];
      Granted(log[..|log| - 1], i) + if last.rank == i then [last.count] else []
  }

  /** The call in progress. */
  function Pending(r: Rank): seq<nat> {
    if r.adding then [r.count] else []
  }

  lemma GrantedNext(log: seq<Grant>, g: Grant, i: nat)
    ensures Granted(log + [g], i) == Granted(log, i) + if g.rank == i then [g.count] else []
  {
    assert (log + [g])[..|log|] == log;
  }

  /** Only a commit adds to the log, and only its own steps start and end a rank's call. */
  lemma StepPending(s: System, step: Step, i: nat)
    requires Square(s) && Enabled(s, step) && i < |s.ranks|
    requires step.Deliver? && s.chan[step.i][step.j][0].Command? ==> 0 < s.ranks[step.j].numRequests
    ensures var s' := Next(s, step);
            && |s'.ranks| == |s.ranks|
            && s'.log == s.log + (if step.Commit? then [Grant(step.i, s.ranks[step.i].nodes, s.ranks[step.i].count)] else [])
            && ((step.Start? || step.Commit?) && step.i == i ==>
                  Pending(s.ranks[i]) == if step.Commit? then [s.ranks[i].count] else [])
            && Pending(s'.ranks[i]) == if step.Start? && step.i == i then [step.count]
                                       else if step.Commit? && step.i == i then [] else Pending(s.ranks[i])
  {
  }

  lemma StepHistory(s: System, step: Step, i: nat)
    requires Square(s) && Enabled(s, step) && i < |s.ranks|
    requires step.Deliver? && s.chan[step.i][step.j][0].Command? ==> 0 < s.ranks[step.j].numRequests
    ensures |Next(s, step).ranks| == |s.ranks|
    ensures Granted(Next(s, step).log, i) + Pending(Next(s, step).ranks[i])
         == Granted(s.log, i) + Pending(s.ranks[i]) + if step.Start? && step.i == i then [step.count] else []
  {
    hide Granted, Pending, Next;
    StepPending(s, step, i);
    var before, after := Granted(s.log, i), Granted(Next(s, step).log, i);
    assert s.log + [] == s.log && before + [] == before && after + [] == after;
    if step.Commit? {
      GrantedNext(s.log, Grant(step.i, s.ranks[step.i].nodes, s.ranks[step.i].count), i);
    }
  }

  lemma {:induction false} RunHistory(s: System, steps: seq<Step>, t: System, i: nat)
    requires Inv(s) && Run(s, steps, t) && i < |s.ranks|
    ensures |t.ranks| == |s.ranks|
    ensures Granted(t.log, i) + Pending(t.ranks[i]) == Granted(s.log, i) + Pending(s.ranks[i]) + Started(steps, i)
    decreases steps
  {
    hide Inv, Granted, Pending, Next;
    if steps == [] {
      assert Granted(s.log, i) + Pending(s.ranks[i]) + [] == Granted(s.log, i) + Pending(s.ranks[i]);
    } else {
      InvSquare(s);
      StepKeepsInv(s, steps[0]);
      StepHistory(s, steps[0], i);
      RunHistory(Next(s, steps[0]), steps[1..], t, i);
      var first := if steps[0].Start? && steps[0].i == i then [steps[0].count] else [];
      assert Granted(s.log, i) + Pending(s.ranks[i]) + first + Started(steps[1..], i)
          == Granted(s.log, i) + Pending(s.ranks[i]) + (first + Started(steps[1..], i));
    }
  }

  /** In every state of every run, the k-th range a rank was given is as large as its k-th call asked for;
      all its calls but one in progress have been answered. */
  lemma GrantsMatchCalls(s: System, steps: seq<Step>, t: System, base: nat, i: nat)
    requires Initial(s, base) && (InitialOk(s, base); Run(s, steps, t)) && i < |s.ranks|
    ensures |t.ranks| == |s.ranks|
    ensures |Started(steps, i)| == |Granted(t.log, i)| + if t.ranks[i].adding then 1 else 0
    ensures forall k :: 0 <= k < |Granted(t.log, i)| ==> Granted(t.log, i)[k] == Started(steps, i)[k]
    ensures t.ranks[i].adding ==> t.ranks[i].count == Started(steps, i)[|Granted(t.log, i)|]
  {
    hide Inv, Run;
    InitialOk(s, base);
    RunHistory(s, steps, t, i);
    assert Started(steps, i) == Granted(t.log, i) + Pending(t.ranks[i]);
  }

  // ---------------------------------------------------------------- how many nodes in all

  /** The nodes that all calls of a run were for. */
  function Wanted(steps: seq<Step>): nat {
    if steps == [] then 0 else (if steps[0].Start? then steps[0].count else 0) + Wanted(steps[1..])
  }

  ghost function InProgress(ranks: seq<Rank>): (r: seq<nat>)
    ensures |r| == |ranks| && forall i :: 0 <= i < |ranks| ==> r[i] == if ranks[i].adding then ranks[i].count else 0
  {
    seq(|ranks|, i requires 0 <= i < |ranks| => if ranks[i].adding then ranks[i].count else 0)
  }

  lemma StepWanted(s: System, step: Step)
    requires Square(s) && Enabled(s, step)
    requires step.Deliver? && s.chan[step.i][step.j][0].Command? ==> 0 < s.ranks[step.j].numRequests
    ensures var s' := Next(s, step);
            Total(s'.log) + Sum(InProgress(s'.ranks)) == Total(s.log) + Sum(InProgress(s.ranks)) + if step.Start? then step.count else 0
  {
    hide Sum;
    var s' := Next(s, step);
    var i := if step.Deliver? then step.j else step.i;
    var now := if s'.ranks[i].adding then s'.ranks[i].count else 0;
    assert InProgress(s'.ranks) == InProgress(s.ranks)[i := now];
    SumUpdate(InProgress(s.ranks), i, now);
    if step.Commit? {
      assert s'.log[..|s.log|] == s.log;
    }
  }

  lemma {:induction false} RunWanted(s: System, steps: seq<Step>, t: System)
    requires Inv(s) && Run(s, steps, t)
    ensures Total(t.log) + Sum(InProgress(t.ranks)) == Total(s.log) + Sum(InProgress(s.ranks)) + Wanted(steps)
    decreases steps
  {
    hide Inv, Total, Sum, InProgress, Next;
    if steps != [] {
      InvSquare(s);
      StepKeepsInv(s, steps[0]);
      StepWanted(s, steps[0]);
      RunWanted(Next(s, steps[0]), steps[1..], t);
    }
  }

  /** In every state of every run, what all calls asked for is what has been granted and what the calls in
      progress are for. */
  lemma AllAccountedFor(s: System, steps: seq<Step>, t: System, base: nat)
    requires Initial(s, base) && (InitialOk(s, base); Run(s, steps, t))
    ensures Wanted(steps) == Total(t.log) + Sum(InProgress(t.ranks))
  {
    hide Inv, Run;
    InitialOk(s, base);
    RunWanted(s, steps, t);
    SumZero(InProgress(s.ranks));
  }

  /** And once everybody has finished, every rank has the base and all the nodes that were asked for. */
  lemma NodesAtRest(s: System, steps: seq<Step>, t: System, base: nat, i: nat)
    requires Initial(s, base) && (InitialOk(s, base); Run(s, steps, t)) && AtRest(t) && i < |t.ranks|
    ensures t.ranks[i].nodes == base + Wanted(steps)
  {
    hide Inv, Run, Initial, Sum;
    AllAccountedFor(s, steps, t, base);
    SumZero(InProgress(t.ranks));
    RunOk(s, steps, t, base);
    RanksAgree(s, steps, t, base, i);
  }
}
