/** A single-level CSR graph (llama/include/llama/ll_slcsr.h): the edges of node t are numbered
    begin[t] .. begin[t + 1], and edge e leads to values[e].  Also paths and distances in it. */
module Graph {

  datatype Csr = Csr(begin: seq<nat>, values: seq<nat>) {
    function Nodes(): nat {
      if begin == [] then 0 else |begin| - 1
    }

    ghost predicate WellFormed() {
      && begin != [] && begin[0] == 0 && begin[Nodes()] == |values|
      && (forall i, j :: 0 <= i <= j < |begin| ==> begin[i] <= begin[j])
      && (forall e :: 0 <= e < |values| ==> values[e] < Nodes())
    }

    ghost predicate Owns(t: nat, e: nat) {
      t + 1 < |begin| && begin[t] <= e < begin[t + 1]
    }

    /** The source of an edge. */
    ghost function Owner(e: nat): (t: nat)
      requires WellFormed() && e < |values|
      ensures t < Nodes() && Owns(t, e)
    {
      OwnerExists(e, Nodes());
      var t: nat :| t < Nodes() && Owns(t, e);
      t
    }

    lemma OwnerExists(e: nat, n: nat)
      requires WellFormed() && n <= Nodes() && e < begin[n]
      ensures exists t: nat :: t < Nodes() && Owns(t, e)
    {
      if begin[n - 1] <= e {
        assert Owns(n - 1, e);
      } else {
        OwnerExists(e, n - 1);
      }
    }

    lemma OwnerUnique(t: nat, e: nat)
      requires WellFormed() && Owns(t, e)
      ensures e < |values| && Owner(e) == t
    {
    }
  }

  ghost predicate Edge(g: Csr, u: nat, v: nat) {
    exists e: nat :: g.Owns(u, e) && e < |g.values| && g.values[e] == v
  }

  /** A walk from u to v. */
  ghost predicate Path(g: Csr, p: seq<nat>, u: nat, v: nat) {
    && p != [] && p[0] == u && p[|p| - 1] == v
    && forall i :: 0 <= i < |p| - 1 ==> Edge(g, p[i], p[i + 1])
  }

  /** v is d edges away from u, and not fewer. */
  ghost predicate IsDistance(g: Csr, u: nat, v: nat, d: nat) {
    && (exists p :: Path(g, p, u, v) && |p| == d + 1)
    && (forall p :: Path(g, p, u, v) ==> d + 1 <= |p|)
  }

  ghost predicate Reachable(g: Csr, u: nat, v: nat) {
    exists p :: Path(g, p, u, v)
  }
}
