/** Building runs step by step, for any step system. */
module Traces {
  /** Each state follows from the one before it. */
  predicate Linked<S, A>(trace: seq<S>, run: seq<A>, goes: (S, A, S) -> bool) {
    |trace| == |run| + 1 && forall i | 0 <= i < |run| :: goes(trace[i], run[i], trace[i + 1])
  }

  lemma LinkedOn<S, A>(trace: seq<S>, run: seq<A>, a: A, s: S, goes: (S, A, S) -> bool)
    requires Linked(trace, run, goes) && goes(trace[|run|], a, s)
    ensures Linked(trace + [s], run + [a], goes)
  {
  }

  // ---- Steps taken one after another ----

  /** The actions lead from one state to another. */
  ghost predicate Leads<S(!new), A>(s: S, actions: seq<A>, s': S, goes: (S, A, S) -> bool)
    decreases |actions|
  {
    if actions == [] then s' == s else exists m :: goes(s, actions[0], m) && Leads(m, actions[1..], s', goes)
  }

  lemma LeadsMore<S(!new), A>(s: S, a: A, m: S, rest: seq<A>, s': S, goes: (S, A, S) -> bool)
    requires goes(s, a, m) && Leads(m, rest, s', goes)
    ensures Leads(s, [a] + rest, s', goes)
  {
    assert ([a] + rest)[1..] == rest;
  }

  lemma LeadsOne<S(!new), A>(s: S, a: A, s': S, goes: (S, A, S) -> bool)
    requires goes(s, a, s')
    ensures Leads(s, [a], s', goes)
  {
    LeadsMore(s, a, s', [], s', goes);
    assert [a] + [] == [a];
  }

  lemma LeadsTwo<S(!new), A>(s: S, a: A, s1: S, b: A, s2: S, goes: (S, A, S) -> bool)
    requires goes(s, a, s1) && goes(s1, b, s2)
    ensures Leads(s, [a, b], s2, goes)
  {
    LeadsOne(s1, b, s2, goes);
    LeadsMore(s, a, s1, [b], s2, goes);
    assert [a] + [b] == [a, b];
  }

  lemma LeadsThree<S(!new), A>(s: S, a: A, s1: S, b: A, s2: S, c: A, s3: S, goes: (S, A, S) -> bool)
    requires goes(s, a, s1) && goes(s1, b, s2) && goes(s2, c, s3)
    ensures Leads(s, [a, b, c], s3, goes)
  {
    LeadsTwo(s1, b, s2, c, s3, goes);
    LeadsMore(s, a, s1, [b, c], s3, goes);
    assert [a] + [b, c] == [a, b, c];
  }

  lemma LeadsFour<S(!new), A>(s: S, a: A, s1: S, b: A, s2: S, c: A, s3: S, d: A, s4: S, goes: (S, A, S) -> bool)
    requires goes(s, a, s1) && goes(s1, b, s2) && goes(s2, c, s3) && goes(s3, d, s4)
    ensures Leads(s, [a, b, c, d], s4, goes)
  {
    LeadsThree(s1, b, s2, c, s3, d, s4, goes);
    LeadsMore(s, a, s1, [b, c, d], s4, goes);
    assert [a] + [b, c, d] == [a, b, c, d];
  }
}
