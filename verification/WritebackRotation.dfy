/**
 The cyclic order in which background writeback visits the mappings of the cache:
 each call resumes behind the mapping served last, so that no mapping is starved.
 What one mapping writes, and its failures, are parameters.
 */
module WritebackRotation {
  import opened Options

  /** Mapping ids as the registry yields them. */
  ghost predicate Sorted(ids: seq<nat>) {
    forall i, j | 0 <= i < j < |ids| :: ids[i] < ids[j]
  }

  // ---- Going round n places ----

  function NextPlace(i: nat, n: nat): nat { if i + 1 >= n then 0 else i + 1 }

  /** The place reached from `start` in `count` steps. */
  function PlaceAfter(start: nat, count: nat, n: nat): nat
    decreases count
  {
    if count == 0 then start else PlaceAfter(NextPlace(start, n), count - 1, n)
  }

  lemma {:induction false} PlaceBound(start: nat, count: nat, n: nat)
    requires start < n
    ensures PlaceAfter(start, count, n) < n
    decreases count
  {
    if count > 0 { PlaceBound(NextPlace(start, n), count - 1, n); }
  }

  /** The steps from one place to another; always fewer than n. */
  function Distance(start: nat, k: nat, n: nat): nat
    requires start < n && k < n
  {
    if k >= start then k - start else n - start + k
  }

  // ---- One call ----

  /** The place of the first id behind `resume`, or the first place. */
  function Pivot(ids: seq<nat>, resume: nat, i: nat): nat
    requires i <= |ids|
    decreases |ids| - i
  {
    if i == |ids| then 0 else if ids[i] > resume then i else Pivot(ids, resume, i + 1)
  }

  lemma {:induction false} PivotBounds(ids: seq<nat>, resume: nat, i: nat)
    requires i <= |ids| && ids != []
    ensures Pivot(ids, resume, i) < |ids|
    decreases |ids| - i
  {
    if i < |ids| { PivotBounds(ids, resume, i + 1); }
  }

  /** Whether or not the mapping served last is still there: the first one behind it, or the first of all if
      there is none. */
  lemma {:induction false} PivotExactly(ids: seq<nat>, resume: nat, i: nat)
    requires i <= |ids| && ids != [] && forall j | 0 <= j < i :: ids[j] <= resume
    ensures var k := Pivot(ids, resume, i);
            && k < |ids| && ((forall j | 0 <= j < |ids| :: ids[j] <= resume) ==> k == 0)
            && ((exists j :: 0 <= j < |ids| && ids[j] > resume) ==>
                  ids[k] > resume && forall j | 0 <= j < k :: ids[j] <= resume)
    decreases |ids| - i
  {
    if i < |ids| && ids[i] <= resume { PivotExactly(ids, resume, i + 1); }
  }

  /** Resuming behind the id at place k begins at the next place round. */
  lemma {:induction false} PivotFollows(ids: seq<nat>, k: nat, i: nat)
    requires Sorted(ids) && k < |ids| && i <= |ids| && (i <= k + 1)
    ensures Pivot(ids, ids[k], i) == NextPlace(k, |ids|)
    decreases |ids| - i
  {
    if i <= k { PivotFollows(ids, k, i + 1); }
  }

  /** The registry from the pivot on, then from its beginning. */
  function Rotation(ids: seq<nat>, resume: nat): (r: seq<nat>)
    ensures |r| == |ids|
  {
    var pivot := Pivot(ids, resume, 0);
    if pivot > |ids| then ids else ids[pivot..] + ids[..pivot]
  }

  /** A rotation has every mapping, and none twice. */
  lemma RotationOnce(ids: seq<nat>, resume: nat)
    requires Sorted(ids)
    ensures forall i, j | 0 <= i < j < |ids| :: Rotation(ids, resume)[i] != Rotation(ids, resume)[j]
    ensures forall k | 0 <= k < |ids| :: ids[k] in Rotation(ids, resume)
  {
    var r, pivot := Rotation(ids, resume), Pivot(ids, resume, 0);
    if ids != [] { PivotBounds(ids, resume, 0); }
    forall i, j | 0 <= i < j < |ids| ensures r[i] != r[j] {
      OrderAt(ids, pivot, i);
      OrderAt(ids, pivot, j);
      PlaceIs(pivot, i, |ids|);
      PlaceIs(pivot, j, |ids|);
    }
    forall k | 0 <= k < |ids| ensures ids[k] in r {
      var i := Distance(pivot, k, |ids|);
      OrderAt(ids, pivot, i);
      PlaceIs(pivot, i, |ids|);
      assert r[i] == ids[k];
    }
  }

  /** The pages the first n mappings visited would write. */
  function Pages(pages: seq<Option<nat>>, n: nat): nat
    requires n <= |pages|
  {
    if n == 0 then 0 else Pages(pages, n - 1) + if pages[n - 1].Some? then pages[n - 1].value else 0
  }

  function Least(a: nat, b: nat): nat { if a < b then a else b }

  /** A call visits the first mappings of its rotation and remembers the last one it served. */
  ghost predicate Visits(ids: seq<nat>, resume: nat, visited: seq<nat>, resume': nat) {
    && |visited| <= |ids| && visited == Rotation(ids, resume)[..|visited|]
    && resume' == if visited == [] then resume else visited[|visited| - 1]
  }

  /** Calls one after another, the resume point handed on, each serving some mapping. */
  ghost predicate Chain(ids: seq<nat>, resumes: seq<nat>, visits: seq<seq<nat>>) {
    && |resumes| == |visits| + 1
    && forall c {:trigger Link(ids, resumes, visits, c)} | 0 <= c < |visits| :: Link(ids, resumes, visits, c)
  }

  ghost predicate Link(ids: seq<nat>, resumes: seq<nat>, visits: seq<seq<nat>>, c: nat)
    requires c < |visits| && |resumes| == |visits| + 1
  {
    visits[c] != [] && Visits(ids, resumes[c], visits[c], resumes[c + 1])
  }

  ghost predicate Served(visits: seq<seq<nat>>, x: nat) { exists c :: 0 <= c < |visits| && x in visits[c] }

  lemma ChainMore(ids: seq<nat>, resumes: seq<nat>, visits: seq<seq<nat>>, visited: seq<nat>, resume: nat)
    requires Chain(ids, resumes, visits) && visited != [] && Visits(ids, resumes[|visits|], visited, resume)
    ensures Chain(ids, resumes + [resume], visits + [visited])
  {
    forall c | 0 <= c <= |visits| ensures Link(ids, resumes + [resume], visits + [visited], c) {
      assert c < |visits| ==> Link(ids, resumes, visits, c);
    }
  }

  class Writeback {
    var resume: nat

    constructor ()
      ensures resume == 0
    {
      resume := 0;
    }

    /** `writeback_inner`. `pages[i]` is what the i-th mapping visited would write, None a failure. Only a
        failure or a spent budget stops the visit early. */
    method WritebackInner(ids: seq<nat>, maxPages: nat, pages: seq<Option<nat>>) returns (r: Option<nat>,
                          ghost visited: seq<nat>)
      requires Sorted(ids) && |pages| == |ids|
      modifies this
      ensures Visits(ids, old(resume), visited, resume)
      ensures r.Some? ==> r.value == Least(Pages(pages, |visited|), maxPages)
      ensures r.Some? ==> |visited| == |ids| || r.value == maxPages
      ensures r == None ==> |visited| < |ids| && pages[|visited|] == None
      ensures r.Some? && maxPages > 0 && ids != [] ==> visited != []
    {
      var order := Rotation(ids, resume);
      var written: nat := 0;
      visited := [];
      for i := 0 to |order|
        invariant written == Least(Pages(pages, i), maxPages) && |visited| == i && visited == order[..i]
        invariant resume == if i == 0 then old(resume) else visited[i - 1]
      {
        if written == maxPages { return Some(written), visited; }
        if pages[i] == None { return None, visited; }
        var some := pages[i].value;
        written := written + Least(some, maxPages - written);
        TakeMore(order, i);
        resume := order[i];
        visited := visited + [order[i]];
      }
      return Some(written), visited;
    }

    /** Successful calls of positive budget on a fixed registry; as many calls as there are mappings
        serve every mapping. */
    method Calls(ids: seq<nat>, budgets: seq<nat>, pages: seq<seq<Option<nat>>>)
      returns (ghost resumes: seq<nat>, ghost visits: seq<seq<nat>>)
      requires Sorted(ids) && ids != [] && |pages| == |budgets|
      requires forall c | 0 <= c < |budgets| :: budgets[c] > 0 && |pages[c]| == |ids|
      requires forall c, i | 0 <= c < |pages| && 0 <= i < |pages[c]| :: pages[c][i].Some?
      modifies this
      ensures |visits| == |budgets| && Chain(ids, resumes, visits) && resumes[0] == old(resume)
              && resumes[|visits|] == resume
      ensures |budgets| >= |ids| ==> forall k | 0 <= k < |ids| :: Served(visits, ids[k])
    {
      resumes, visits := [resume], [];
      for c := 0 to |budgets|
        invariant |visits| == c && Chain(ids, resumes, visits) && resumes[0] == old(resume) && resumes[c] == resume
      {
        var r;
        ghost var visited;
        r, visited := WritebackInner(ids, budgets[c], pages[c]);
        ChainMore(ids, resumes, visits, visited, resume);
        resumes, visits := resumes + [resume], visits + [visited];
      }
      forall k | 0 <= k < |ids| && |budgets| >= |ids| ensures Served(visits, ids[k]) {
        AllServed(ids, resumes, visits, k);
      }
    }
  }

  /** Such calls go round the registry from one place without a gap, so that as many of them as there
      are mappings serve every one. */
  lemma AllServed(ids: seq<nat>, resumes: seq<nat>, visits: seq<seq<nat>>, k: nat)
    requires Sorted(ids) && Chain(ids, resumes, visits) && |visits| >= |ids| && k < |ids|
    ensures Served(visits, ids[k])
  {
    var start, total, served := Pivot(ids, resumes[0], 0), 0, {};
    PivotBounds(ids, resumes[0], 0);
    for c := 0 to |visits|
      invariant total >= c && start < |ids| && ServedFrom(ids, start, total, served)
      invariant Pivot(ids, resumes[c], 0) == PlaceAfter(start, total, |ids|)
      invariant forall x | x in served :: exists d :: 0 <= d < c && x in visits[d]
    {
      assert Link(ids, resumes, visits, c);
      OneMore(ids, resumes[c], visits[c], resumes[c + 1], start, total, served);
      served := served + set x | x in visits[c];
      total := total + |visits[c]|;
    }
    PlaceIs(start, Distance(start, k, |ids|), |ids|);
    assert ids[k] in served;
  }

  lemma OneMore(ids: seq<nat>, resume: nat, visited: seq<nat>, resume': nat, start: nat, total: nat, served: set<nat>)
    requires Sorted(ids) && visited != [] && Visits(ids, resume, visited, resume') && start < |ids|
    requires ServedFrom(ids, start, total, served) && Pivot(ids, resume, 0) == PlaceAfter(start, total, |ids|)
    ensures ServedFrom(ids, start, total + |visited|, served + set x | x in visited)
    ensures Pivot(ids, resume', 0) == PlaceAfter(start, total + |visited|, |ids|)
  {
    ServeMore(ids, resume, start, total, |visited|, served, visited);
    PlaceBound(start, total, |ids|);
    OrderAt(ids, PlaceAfter(start, total, |ids|), |visited| - 1);
    Advanced(ids, start, total, |visited|);
  }

  /** The mappings at the first `total` places from `start` on have been served. */
  ghost predicate ServedFrom(ids: seq<nat>, start: nat, total: nat, served: set<nat>) {
    forall j {:trigger PlaceAfter(start, j, |ids|)} | 0 <= j < total ::
      PlaceAfter(start, j, |ids|) < |ids| && ids[PlaceAfter(start, j, |ids|)] in served
  }

  lemma ServeMore(ids: seq<nat>, resume: nat, start: nat, total: nat, count: nat, served: set<nat>, visited: seq<nat>)
    requires start < |ids| && ServedFrom(ids, start, total, served) && count <= |ids|
    requires Pivot(ids, resume, 0) == PlaceAfter(start, total, |ids|) && visited == Rotation(ids, resume)[..count]
    ensures ServedFrom(ids, start, total + count, served + set x | x in visited)
  {
    forall j | 0 <= j < total + count
      ensures PlaceAfter(start, j, |ids|) < |ids| && ids[PlaceAfter(start, j, |ids|)] in served + set x | x in visited
    {
      if j >= total { ServeAt(ids, resume, start, total, j - total, visited); }
    }
  }

  lemma ServeAt(ids: seq<nat>, resume: nat, start: nat, total: nat, i: nat, visited: seq<nat>)
    requires start < |ids| && i < |visited| <= |ids|
    requires Pivot(ids, resume, 0) == PlaceAfter(start, total, |ids|) && visited == Rotation(ids, resume)[..|visited|]
    ensures PlaceAfter(start, total + i, |ids|) < |ids| && ids[PlaceAfter(start, total + i, |ids|)] in visited
  {
    PlaceBound(start, total, |ids|);
    PlaceSum(start, total, i, |ids|);
    OrderAt(ids, PlaceAfter(start, total, |ids|), i);
    assert visited[i] in visited;
  }

  lemma TakeMore(s: seq<nat>, i: nat)
    requires i < |s|
    ensures s[..i] + [s[i]] == s[..i + 1]
  {
  }

  lemma OrderAt(ids: seq<nat>, pivot: nat, i: nat)
    requires pivot < |ids| && i < |ids|
    ensures PlaceAfter(pivot, i, |ids|) < |ids| && (ids[pivot..] + ids[..pivot])[i] == ids[PlaceAfter(pivot, i, |ids|)]
  {
    PlaceIs(pivot, i, |ids|);
  }

  lemma {:induction false} PlaceIs(start: nat, i: nat, n: nat)
    requires start < n && i < n
    ensures PlaceAfter(start, i, n) == if start + i < n then start + i else start + i - n
    decreases i
  {
    if i > 0 { PlaceIs(NextPlace(start, n), i - 1, n); }
  }

  lemma {:induction false} PlaceSum(start: nat, a: nat, b: nat, n: nat)
    ensures PlaceAfter(start, a + b, n) == PlaceAfter(PlaceAfter(start, a, n), b, n)
    decreases a
  {
    if a > 0 {
      PlaceSum(NextPlace(start, n), a - 1, b, n);
      assert a + b - 1 == a - 1 + b;
    }
  }

  /** After `count` more places, the walk from `start` stands where the next call will begin. */
  lemma Advanced(ids: seq<nat>, start: nat, total: nat, count: nat)
    requires Sorted(ids) && ids != [] && start < |ids| && count > 0
    ensures var last := PlaceAfter(PlaceAfter(start, total, |ids|), count - 1, |ids|);
            && last < |ids| && PlaceAfter(start, total + count - 1, |ids|) == last
            && Pivot(ids, ids[last], 0) == PlaceAfter(start, total + count, |ids|)
  {
    PlaceBound(start, total, |ids|);
    PlaceBound(PlaceAfter(start, total, |ids|), count - 1, |ids|);
    PlaceSum(start, total, count - 1, |ids|);
    PlaceSum(start, total + count - 1, 1, |ids|);
    assert total + (count - 1) == total + count - 1 && total + count - 1 + 1 == total + count;
    PivotFollows(ids, PlaceAfter(start, total + count - 1, |ids|), 0);
  }
}
