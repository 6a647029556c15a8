/** Wait queues as sequences, shared by the other modules. */
module Queues {
  /** `retain`: the queue without the entries of t. */
  function Without(q: seq<nat>, t: nat): (r: seq<nat>)
    ensures forall u :: multiset(r)[u] == if u == t then 0 else multiset(q)[u]
  {
    if q == [] then []
    else
      assert q == [q[0]] + q[1..];
      if q[0] == t then Without(q[1..], t) else [q[0]] + Without(q[1..], t)
  }

  /** What is left is in its order. */
  lemma {:induction false} WithoutConcat(q: seq<nat>, r: seq<nat>, t: nat)
    ensures Without(q + r, t) == Without(q, t) + Without(r, t)
  {
    if q == [] {
      assert q + r == r && Without(q, t) + Without(r, t) == Without(r, t);
    } else {
      WithoutConcat(q[1..], r, t);
      assert (q + r)[0] == q[0] && (q + r)[1..] == q[1..] + r;
      WithoutNext(q, t);
      WithoutNext(q + r, t);
      Associate([q[0]], Without(q[1..], t), Without(r, t));
    }
  }

  lemma WithoutNext(q: seq<nat>, t: nat)
    requires q != []
    ensures Without(q, t) == (if q[0] == t then [] else [q[0]]) + Without(q[1..], t)
  {
  }

  lemma Associate(a: seq<nat>, b: seq<nat>, c: seq<nat>)
    ensures a + (b + c) == (a + b) + c && [] + (b + c) == ([] + b) + c
  {
  }

  lemma WithoutIn(q: seq<nat>, t: nat, u: nat)
    requires u in Without(q, t)
    ensures u in q
  {
    assert multiset(Without(q, t))[u] > 0;
    assert u in multiset(q);
  }
}
