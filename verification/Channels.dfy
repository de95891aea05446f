/** Messages between ranks.  chan[i][j] holds the messages from rank i to rank j, oldest first:
    messages of one sender to one receiver do not overtake each other (section 3.5 of the MPI 3.1
    standard). */
module Channels {

  datatype Out<M> = Out(dest: nat, msg: M)

  /** The message "m" for every rank below "n" but this one, in rank order. */
  function Broadcast<M>(m: M, self: nat, n: nat): seq<Out<M>> {
    if n == 0 then []
    else Broadcast(m, self, n - 1) + if n - 1 == self then [] else [Out(n - 1, m)]
  }

  function To<M>(outs: seq<Out<M>>, j: nat): seq<M> {
    if outs == [] then []
    else
      var last := outs[|outs| - 1];
      To(outs[..|outs| - 1], j) + if last.dest == j then [last.msg] else []
  }

  /** Sending appends to the channels of rank i. */
  function Send<M>(chan: seq<seq<seq<M>>>, i: nat, outs: seq<Out<M>>): (r: seq<seq<seq<M>>>)
    requires i < |chan|
    ensures |r| == |chan| && |r[i]| == |chan[i]|
    ensures forall a :: 0 <= a < |chan| && a != i ==> r[a] == chan[a]
    ensures forall b :: 0 <= b < |chan[i]| ==> r[i][b] == chan[i][b] + To(outs, b)
  {
    chan[i := seq(|chan[i]|, b requires 0 <= b < |chan[i]| => chan[i][b] + To(outs, b))]
  }

  /** Receiving takes the oldest message of one channel. */
  function Receive<M>(chan: seq<seq<seq<M>>>, a: nat, b: nat): (r: seq<seq<seq<M>>>)
    requires a < |chan| && b < |chan[a]| && chan[a][b] != []
    ensures |r| == |chan| && |r[a]| == |chan[a]|
    ensures forall x :: 0 <= x < |chan| && x != a ==> r[x] == chan[x]
    ensures forall y :: 0 <= y < |chan[a]| && y != b ==> r[a][y] == chan[a][y]
    ensures r[a][b] == chan[a][b][1..]
  {
    chan[a := chan[a][b := chan[a][b][1..]]]
  }

  /** Broadcasting puts one message into every channel of a rank but its own. */
  lemma SendBroadcast<M>(chan: seq<seq<seq<M>>>, i: nat, m: M)
    requires i < |chan|
    ensures var r := Send(chan, i, Broadcast(m, i, |chan[i]|));
            forall b :: 0 <= b < |chan[i]| ==> r[i][b] == if b != i then chan[i][b] + [m] else chan[i][b]
  {
    var r := Send(chan, i, Broadcast(m, i, |chan[i]|));
    forall b | 0 <= b < |chan[i]| ensures r[i][b] == if b != i then chan[i][b] + [m] else chan[i][b] {
      ToBroadcast(m, i, |chan[i]|, b);
      assert chan[i][b] + [] == chan[i][b];
    }
  }

  lemma SendNothing<M>(chan: seq<seq<seq<M>>>, i: nat)
    requires i < |chan|
    ensures Send(chan, i, []) == chan
  {
    var r := Send(chan, i, []);
    forall b | 0 <= b < |chan[i]| ensures r[i][b] == chan[i][b] {
      assert chan[i][b] + [] == chan[i][b];
    }
    assert r[i] == chan[i];
    assert forall a :: 0 <= a < |chan| ==> r[a] == chan[a];
  }

  lemma {:induction false} ToAppend<M>(x: seq<Out<M>>, y: seq<Out<M>>, b: nat)
    ensures To(x + y, b) == To(x, b) + To(y, b)
  {
    if y == [] {
      assert x + y == x;
    } else {
      var init := y[..|y| - 1];
      assert (x + y)[..|x + y| - 1] == x + init;
      ToAppend(x, init, b);
    }
  }

  lemma ToOne<M>(dest: nat, m: M, b: nat)
    ensures To([Out(dest, m)], b) == if b == dest then [m] else []
  {
    assert [Out(dest, m)][..0] == [];
  }

  lemma {:induction false} ToBroadcast<M>(m: M, self: nat, n: nat, b: nat)
    ensures To(Broadcast(m, self, n), b) == if b < n && b != self then [m] else []
  {
    hide To;
    ToNone<M>(b);
    if n > 0 {
      ToBroadcast(m, self, n - 1, b);
      BroadcastNext(m, self, n - 1, b);
    }
  }

  lemma BroadcastNext<M>(m: M, self: nat, n: nat, b: nat)
    ensures To(Broadcast(m, self, n + 1), b) == To(Broadcast(m, self, n), b) + if n != self && n == b then [m] else []
  {
    hide To;
    var last := if n == self then [] else [Out(n, m)];
    ToAppend(Broadcast(m, self, n), last, b);
    ToOne(n, m, b);
    ToNone<M>(b);
  }

  lemma ToNone<M>(b: nat)
    ensures To<M>([], b) == []
  {
  }
}
