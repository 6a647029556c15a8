/**
 The process tree: parent links and children maps, zombies, and the reparenting
 of orphans to the nearest live subreaper. Processes are named by identity. A
 parent link is weak: once a process has been freed, a link to it leads nowhere,
 and the search for a reaper then goes to init.
 */
module ProcessTree {
  import opened Options

  type Process = nat

  datatype Tree = Tree(
    init: Process,
    parent: map<Process, Process>,
    children: map<Process, set<Process>>,
    zombie: set<Process>,
    subreaper: set<Process>)
  {
    /** `parent()`: the upgrade of the weak link. */
    function Parent(p: Process): Option<Process> {
      if p in parent && parent[p] in children then Some(parent[p]) else None
    }

    /** Where the search goes from p: its parent, or init when there is none to be found. */
    function Up(p: Process): Process {
      match Parent(p) case Some(q) => q case None => init
    }

    /** A process that takes in orphans. */
    predicate Reaps(p: Process) {
      p == init || (p in subreaper && p !in zombie)
    }

    /** The processes that exist and can be looked up are the keys of `children`. Links and children
        maps are inverse to each other; going up always lowers `rank`, so it ends at init. */
    ghost predicate Ok(rank: map<Process, nat>) {
      && init in children && init !in zombie && init !in parent
      && parent.Keys == children.Keys - {init} && zombie <= children.Keys && subreaper <= children.Keys
      && children.Keys <= rank.Keys && rank[init] == 0
      && (forall c {:trigger Linked(c, rank)} | c in parent :: Linked(c, rank))
      && (forall p, c {:trigger Child(p, c)} | p in children && c in children[p] :: Child(p, c))
    }

    predicate Linked(c: Process, rank: map<Process, nat>)
      requires c in parent && init in children && parent.Keys <= children.Keys <= rank.Keys
    {
      && rank[Up(c)] < rank[c] && parent[c] in rank
      && (parent[c] in children ==> c in children[parent[c]])
    }

    predicate Child(p: Process, c: Process)
      requires p in children
    {
      c in children[p] && c in parent && parent[c] == p
    }

    /** The ancestors of p, nearest first. */
    ghost function Ancestors(p: Process, rank: map<Process, nat>): seq<Process>
      requires Ok(rank) && p in children
      decreases rank[p]
    {
      if p == init then []
      else
        assert Linked(p, rank);
        [Up(p)] + Ancestors(Up(p), rank)
    }

    /** r takes the orphans of p: the nearest ancestor that reaps. */
    ghost predicate NearestReaper(p: Process, r: Process, rank: map<Process, nat>)
      requires Ok(rank) && p in children
    {
      exists k ::
        && 0 <= k < |Ancestors(p, rank)| && Ancestors(p, rank)[k] == r && Reaps(r)
        && forall j | 0 <= j < k :: !Reaps(Ancestors(p, rank)[j])
    }

    /** No zombie has children, and no process is left under a freed one. */
    ghost predicate Settled() {
      && (forall z | z in zombie && z in children :: children[z] == {})
      && (forall c | c in parent :: parent[c] in children)
    }
  }

  /** Every process other than init has init as its last ancestor. */
  lemma {:induction false} ReachesInit(t: Tree, rank: map<Process, nat>, p: Process)
    requires t.Ok(rank) && p in t.children && p != t.init
    ensures var a := t.Ancestors(p, rank); a != [] && a[|a| - 1] == t.init && p !in a
    decreases rank[p]
  {
    assert t.Linked(p, rank);
    var q := t.Up(p);
    if q != t.init {
      ReachesInit(t, rank, q);
    }
    LowerRank(t, rank, p);
  }

  lemma {:induction false} LowerRank(t: Tree, rank: map<Process, nat>, p: Process)
    requires t.Ok(rank) && p in t.children
    ensures forall a | a in t.Ancestors(p, rank) :: a in t.children && rank[a] < rank[p]
    decreases rank[p]
  {
    if p != t.init {
      assert t.Linked(p, rank);
      LowerRank(t, rank, t.Up(p));
    }
  }

  /** The orphans of p go to its parent if that is init or a live subreaper, and otherwise where the orphans
      of its parent would go. */
  lemma ReaperExactly(t: Tree, rank: map<Process, nat>, p: Process, r: Process)
    requires t.Ok(rank) && p in t.parent && t.parent[p] in t.children
    ensures var q := t.parent[p];
            t.NearestReaper(p, r, rank) <==>
              if q == t.init || (q in t.subreaper && q !in t.zombie) then r == q else t.NearestReaper(q, r, rank)
  {
    var q := t.parent[p];
    assert t.Linked(p, rank);
    var a, b := t.Ancestors(p, rank), t.Ancestors(q, rank);
    assert a == [q] + b;
    assert a[0] == q;
    if t.Reaps(q) {
      if t.NearestReaper(p, r, rank) {
        var k :| 0 <= k < |a| && a[k] == r && t.Reaps(r) && forall j | 0 <= j < k :: !t.Reaps(a[j]);
        assert k == 0;
      }
    } else {
      if t.NearestReaper(p, r, rank) { FromParent(t, rank, p, q, r); }
      if t.NearestReaper(q, r, rank) { ToParent(t, rank, p, q, r); }
    }
  }

  lemma FromParent(t: Tree, rank: map<Process, nat>, p: Process, q: Process, r: Process)
    requires t.Ok(rank) && p in t.children && q in t.children && !t.Reaps(q)
    requires t.Ancestors(p, rank) == [q] + t.Ancestors(q, rank) && t.NearestReaper(p, r, rank)
    ensures t.NearestReaper(q, r, rank)
  {
    var a, b := t.Ancestors(p, rank), t.Ancestors(q, rank);
    var k :| 0 <= k < |a| && a[k] == r && t.Reaps(r) && forall j | 0 <= j < k :: !t.Reaps(a[j]);
    assert b[k - 1] == r && forall j | 0 <= j < k - 1 :: b[j] == a[j + 1];
  }

  lemma ToParent(t: Tree, rank: map<Process, nat>, p: Process, q: Process, r: Process)
    requires t.Ok(rank) && p in t.children && q in t.children && !t.Reaps(q)
    requires t.Ancestors(p, rank) == [q] + t.Ancestors(q, rank) && t.NearestReaper(q, r, rank)
    ensures t.NearestReaper(p, r, rank)
  {
    var a, b := t.Ancestors(p, rank), t.Ancestors(q, rank);
    var k :| 0 <= k < |b| && b[k] == r && t.Reaps(r) && forall j | 0 <= j < k :: !t.Reaps(b[j]);
    assert a[k + 1] == r && forall j | 1 <= j < k + 1 :: a[j] == b[j - 1];
  }

  /** Going up depends on links and existence only, so zombies and subreaper flags do not matter. */
  lemma {:induction false} SameAncestors(t: Tree, u: Tree, rank: map<Process, nat>, p: Process)
    requires t.Ok(rank) && u.Ok(rank) && p in t.children
    requires t.init == u.init && t.parent == u.parent && t.children == u.children
    ensures t.Ancestors(p, rank) == u.Ancestors(p, rank)
    decreases rank[p]
  {
    if p != t.init {
      assert t.Linked(p, rank);
      SameAncestors(t, u, rank, t.Up(p));
    }
  }

  /** The tree after p has given up its children, and those in `moved` have arrived at r. */
  function Adopted(t: Tree, p: Process, r: Process, moved: set<Process>): Tree
    requires p in t.children && r in t.children
  {
    t.(parent := map c | c in t.parent :: if c in moved then r else t.parent[c],
       children := t.children[p := {}][r := t.children[r] + moved])
  }

  lemma AdoptedOk(t: Tree, rank: map<Process, nat>, p: Process, r: Process)
    requires t.Ok(rank) && p in t.children && r in t.children && rank[r] < rank[p]
    ensures Adopted(t, p, r, t.children[p]).Ok(rank)
  {
    var u := Adopted(t, p, r, t.children[p]);
    forall c | c in u.parent ensures u.Linked(c, rank) {
      assert t.Linked(c, rank);
      if c in t.children[p] { assert t.Child(p, c); }
    }
    forall q, c | q in u.children && c in u.children[q] ensures u.Child(q, c) {
      if c in t.children[p] { assert t.Child(p, c); }
      if c in t.children[q] { assert t.Child(q, c); }
    }
  }

  /** No orphan is lost and none is added: the same processes have parents, and every child of
      another process stays where it was. */
  lemma AdoptedConserves(t: Tree, rank: map<Process, nat>, p: Process, r: Process, c: Process)
    requires t.Ok(rank) && p in t.children && r in t.children && rank[r] < rank[p] && c in t.parent
    ensures var u := Adopted(t, p, r, t.children[p]);
            c in u.parent && u.parent[c] == if t.parent[c] == p then r else t.parent[c]
  {
    assert t.Linked(c, rank);
    if c in t.children[p] { assert t.Child(p, c); }
  }

  lemma AdoptedSettled(t: Tree, rank: map<Process, nat>, p: Process, r: Process)
    requires t.Ok(rank) && p in t.children && r in t.children && rank[r] < rank[p] && r !in t.zombie
    requires forall z | z in t.zombie && z in t.children && z != p :: t.children[z] == {}
    requires forall c | c in t.parent :: t.parent[c] in t.children
    ensures Adopted(t, p, r, t.children[p]).Settled()
  {
  }

  class Processes {
    const init: Process
    var parent: map<Process, Process>
    var children: map<Process, set<Process>>
    var zombie: set<Process>
    var subreaper: set<Process>
    /** The depth at which each process was created; its keys are all processes there ever were. */
    ghost var rank: map<Process, nat>

    function Abs(): Tree
      reads this
    {
      Tree(init, parent, children, zombie, subreaper)
    }

    ghost predicate Valid()
      reads this
    {
      Abs().Ok(rank)
    }

    constructor (init: Process)
      ensures Valid() && Abs() == Tree(init, map[], map[init := {}], {}, {}) && Abs().Settled() && rank.Keys == {init}
    {
      this.init := init;
      parent := map[];
      children := map[init := {}];
      zombie := {};
      subreaper := {};
      rank := map[init := 0];
    }

    /** `fork` and `build`: the new process is a live child of p. The tree stays settled exactly when
        it was and p is not a zombie. */
    method Fork(p: Process, child: Process)
      requires Valid() && p in children && child !in rank
      modifies this
      ensures Valid() && rank.Keys == old(rank).Keys + {child}
      ensures Abs() == old(Abs()).(parent := old(parent)[child := p],
                                   children := old(children)[child := {}][p := old(children)[p] + {child}])
      ensures Abs().Settled() <==> old(Abs().Settled()) && p !in zombie
    {
      ghost var t := Abs();
      parent := parent[child := p];
      children := children[child := {}];
      children := children[p := children[p] + {child}];
      rank := rank[child := rank[p] + 1];
      ForkOk(t, old(rank), Abs(), rank, p, child);
      ForkSettled(t, old(rank), Abs(), p, child);
    }

    method SetChildSubreaper(p: Process, enabled: bool)
      requires Valid() && p in children
      modifies this`subreaper
      ensures Valid() && subreaper == (if enabled then old(subreaper) + {p} else old(subreaper) - {p})
      ensures Abs().Settled() <==> old(Abs().Settled())
    {
      ghost var t := Abs();
      subreaper := if enabled then subreaper + {p} else subreaper - {p};
      FlagsOk(t, Abs(), rank);
    }

    /** `exit`: p becomes a zombie, and its children go to the nearest live subreaper above it, or to
        init. */
    method Exit(p: Process) returns (ghost reaper: Process)
      requires Valid() && p in children && p != init
      modifies this`parent, this`children, this`zombie
      ensures Valid() && zombie == old(zombie) + {p} && reaper in old(children)
      ensures Abs().(zombie := old(zombie)) == Adopted(old(Abs()), p, reaper, old(children)[p])
      ensures old(Abs().(zombie := zombie + {p}).Ok(rank))
      ensures old(Abs().(zombie := zombie + {p}).NearestReaper(p, reaper, rank))
      ensures old(Abs().Settled()) ==> Abs().Settled()
    {
      zombie := zombie + {p};
      ghost var t := Abs();
      FlagsOk(old(Abs()), t, rank);
      var candidate := FindReaper(p);
      reaper := candidate;
      LowerRank(t, rank, p);
      Adopt(p, candidate);
      AdoptedOk(t, rank, p, candidate);
      if old(Abs().Settled()) { AdoptedSettled(t, rank, p, candidate); }
    }

    /** Takes the children of p and gives them, one by one, to r. */
    method Adopt(p: Process, r: Process)
      requires Valid() && p in children && r in children && p != r
      modifies this`parent, this`children
      ensures Abs() == Adopted(old(Abs()), p, r, old(children)[p])
    {
      ghost var t := Abs();
      var orphans := children[p];
      children := children[p := {}];
      assert t.children[p] - orphans == {} && parent == Adopted(t, p, r, {}).parent;
      assert t.children[r] + {} == t.children[r] && children == Adopted(t, p, r, {}).children;
      while orphans != {}
        invariant orphans <= t.children[p]
        invariant Abs() == Adopted(t, p, r, t.children[p] - orphans)
        decreases orphans
      {
        var c :| c in orphans;
        assert t.Child(p, c);
        parent := parent[c := r];
        children := children[r := children[r] + {c}];
        assert t.children[r] + (t.children[p] - orphans) + {c} == t.children[r] + (t.children[p] - (orphans - {c}));
        orphans := orphans - {c};
      }
      assert t.children[p] - orphans == t.children[p];
    }

    /** The upward search of `exit`. */
    method FindReaper(p: Process) returns (candidate: Process)
      requires Valid() && p in children && p != init
      ensures candidate in children && Abs().NearestReaper(p, candidate, rank)
      ensures candidate in Abs().Ancestors(p, rank) && candidate !in zombie
    {
      ghost var t, chain := Abs(), Abs().Ancestors(p, rank);
      var ancestor := Abs().Parent(p);
      candidate := if ancestor.Some? then ancestor.value else init;
      ghost var k := 0;
      assert t.Linked(p, rank);
      while !(candidate == init || (candidate in subreaper && candidate !in zombie))
        invariant 0 <= k < |chain| && chain[k] == candidate && candidate in children
        invariant chain[k + 1..] == t.Ancestors(candidate, rank)
        invariant forall j | 0 <= j < k :: !t.Reaps(chain[j])
        decreases rank[candidate]
      {
        assert t.Linked(candidate, rank);
        ancestor := Abs().Parent(candidate);
        candidate := if ancestor.Some? then ancestor.value else init;
        assert chain[k + 1..][0] == chain[k + 1] && chain[k + 1..][1..] == chain[k + 2..];
        k := k + 1;
      }
    }

    /** `free`: a zombie leaves its parent's map and is no more. */
    method Free(p: Process)
      requires Valid() && p in zombie
      modifies this`parent, this`children, this`zombie, this`subreaper
      ensures Valid()
      ensures children.Keys == old(children).Keys - {p} && parent == old(parent) - {p} && zombie == old(zombie) - {p}
      ensures forall q | q in children :: children[q] == old(children)[q] - {p}
      ensures old(Abs().Settled()) ==> Abs().Settled()
    {
      ghost var t := Abs();
      assert t.Linked(p, rank);
      forall q | q in children && p in children[q] ensures q == parent[p] { assert t.Child(q, p); }
      var above := Abs().Parent(p);
      if above.Some? {
        children := children[above.value := children[above.value] - {p}];
      }
      children := children - {p};
      parent := parent - {p};
      zombie := zombie - {p};
      subreaper := subreaper - {p};
      FreeOk(t, Abs(), rank, p);
    }
  }

  /** A zombie can fork, and then has a child: init forks 1, 1 exits, 1 forks 2. */
  method ForkFromZombie() returns (p: Processes)
    ensures fresh(p) && p.Valid() && 1 in p.zombie && 1 in p.children && p.children[1] == {2} && !p.Abs().Settled()
  {
    p := new Processes(0);
    p.Fork(0, 1);
    ghost var reaper := p.Exit(1);
    p.Fork(1, 2);
    assert 2 in p.children[1];
  }

  lemma FlagsOk(t: Tree, u: Tree, rank: map<Process, nat>)
    requires t.Ok(rank) && t.init == u.init && t.parent == u.parent && t.children == u.children
    requires t.init !in u.zombie && u.zombie <= u.children.Keys && u.subreaper <= u.children.Keys
    ensures u.Ok(rank)
  {
    forall c | c in u.parent ensures u.Linked(c, rank) { assert t.Linked(c, rank); }
    forall p, c | p in u.children && c in u.children[p] ensures u.Child(p, c) { assert t.Child(p, c); }
  }

  lemma ForkOk(t: Tree, rank: map<Process, nat>, u: Tree, rank': map<Process, nat>, p: Process, child: Process)
    requires t.Ok(rank) && p in t.children && child !in rank && rank' == rank[child := rank[p] + 1]
    requires u == t.(parent := t.parent[child := p], children := t.children[child := {}][p := t.children[p] + {child}])
    ensures u.Ok(rank')
  {
    forall c | c in u.parent ensures u.Linked(c, rank') {
      if c != child { assert t.Linked(c, rank); }
    }
    forall q, c | q in u.children && c in u.children[q] ensures u.Child(q, c) {
      if q in t.children && c in t.children[q] { assert t.Child(q, c); }
    }
  }

  lemma ForkSettled(t: Tree, rank: map<Process, nat>, u: Tree, p: Process, child: Process)
    requires t.Ok(rank) && p in t.children && child !in rank
    requires u == t.(parent := t.parent[child := p], children := t.children[child := {}][p := t.children[p] + {child}])
    ensures u.Settled() <==> t.Settled() && p !in t.zombie
  {
    forall c | c in t.parent ensures t.parent[c] in rank { assert t.Linked(c, rank); }
    assert child in u.children[p];
    assert forall z | z in t.children && z != p :: u.children[z] == t.children[z];
    assert forall c | c in t.parent :: u.parent[c] == t.parent[c];
  }

  lemma FreeOk(t: Tree, u: Tree, rank: map<Process, nat>, p: Process)
    requires t.Ok(rank) && p in t.zombie
    requires u.init == t.init && u.parent == t.parent - {p} && u.zombie == t.zombie - {p}
             && u.subreaper == t.subreaper - {p}
    requires u.children.Keys == t.children.Keys - {p}
             && forall q | q in u.children :: u.children[q] == t.children[q] - {p}
    ensures u.Ok(rank)
    ensures t.Settled() ==> u.Settled()
  {
    forall c | c in u.parent ensures u.Linked(c, rank) { assert t.Linked(c, rank); }
    forall q, c | q in u.children && c in u.children[q] ensures u.Child(q, c) { assert t.Child(q, c); }
    if t.Settled() {
      forall c | c in u.parent ensures u.parent[c] in u.children { assert t.Linked(c, rank); }
    }
  }
}
