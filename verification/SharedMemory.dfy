/**
 System V shared memory: the two-sided record of who is attached to what, kept in
 the range map of every segment and in the map of every process, through attach,
 detach, inheritance by a child, removal and clean-up.
 */
module SharedMemory {

  type Pid = nat
  type Shmid = nat

  const NATTCH_END: nat := 0x1_0000

  type U16 = n: nat | n < 0x1_0000

  const IPC_PRIVATE: int := 0

  datatype Error = EINVAL | ENOMEM

  datatype Result<+T> = Ok(value: T) | Err(error: Error)

  datatype Unit = Unit

  datatype Range = Range(start: nat, size: nat)

  datatype Segment = Segment(key: int, ranges: map<Pid, Range>, rmid: bool, nattch: U16)

  // ---- Two-way maps ----

  datatype BiMap = BiMap(forward: map<Shmid, nat>, reverse: map<nat, Shmid>) {
    ghost predicate Inverse() {
      && (forall k | k in forward :: forward[k] in reverse && reverse[forward[k]] == k)
      && (forall v | v in reverse :: reverse[v] in forward && forward[reverse[v]] == v)
    }

    /** `insert`: evicts the old partner of the key and of the value. */
    function Insert(k: Shmid, v: nat): BiMap {
      var f := if v in reverse then forward - {reverse[v]} else forward;
      var r := reverse[v := k];
      BiMap(f[k := v], if k in f then r - {f[k]} else r)
    }

    function RemoveValue(v: nat): BiMap {
      if v in reverse then BiMap(forward - {reverse[v]}, reverse - {v}) else this
    }
  }

  function NoPairs(): BiMap { BiMap(map[], map[]) }

  lemma InsertInverse(m: BiMap, k: Shmid, v: nat)
    requires m.Inverse()
    ensures m.Insert(k, v).Inverse()
    ensures m.Insert(k, v).forward == (if v in m.reverse then m.forward - {m.reverse[v]} else m.forward)[k := v]
  {
  }

  lemma RemoveInverse(m: BiMap, v: nat)
    requires m.Inverse()
    ensures m.RemoveValue(v).Inverse()
  {
  }

  // ---- The two sides agree ----

  type Segments = map<Shmid, Segment>
  type Processes = map<Pid, BiMap>

  predicate ListsSegment(procs: Processes, p: Pid, s: Shmid) { p in procs && s in procs[p].forward }

  predicate HasRange(segs: Segments, s: Shmid, p: Pid) { s in segs && p in segs[s].ranges }

  /** A process is in a segment's range map exactly when its own map lists the segment, at the same
      address. */
  ghost predicate Agree(segs: Segments, procs: Processes, p: Pid, s: Shmid) {
    && (HasRange(segs, s, p) <==> ListsSegment(procs, p, s))
    && (HasRange(segs, s, p) && ListsSegment(procs, p, s) ==> procs[p].forward[s] == segs[s].ranges[p].start)
  }

  ghost predicate Linked(segs: Segments, procs: Processes) {
    && (forall p, s {:trigger Agree(segs, procs, p, s)} :: Agree(segs, procs, p, s))
    && (forall p | p in procs :: procs[p].Inverse())
  }

  /** The attach counter is the number of attached processes. */
  ghost predicate CountOk(seg: Segment) { seg.nattch == |seg.ranges| }

  ghost predicate CountsOk(segs: Segments) { forall s | s in segs :: CountOk(segs[s]) }

  /** The index names, for each key that is not private, the one segment with that key. */
  ghost predicate Indexed(index: map<int, Shmid>, segs: Segments) {
    && (forall k | k in index && k != IPC_PRIVATE :: index[k] in segs && segs[index[k]].key == k)
    && (forall s | s in segs && segs[s].key != IPC_PRIVATE :: segs[s].key in index && index[segs[s].key] == s)
  }

  lemma IndexKept(index: map<int, Shmid>, a: Segments, b: Segments)
    requires Indexed(index, a) && b.Keys == a.Keys && forall s | s in a :: b[s].key == a[s].key
    ensures Indexed(index, b)
  {
  }

  /** `attach_process` on a segment that p is not attached to; the counter has sixteen bits. */
  function Attached(seg: Segment, p: Pid, r: Range): Segment {
    seg.(ranges := seg.ranges[p := r], nattch := (seg.nattch + 1) % NATTCH_END)
  }

  function Detached(seg: Segment, p: Pid): Segment {
    seg.(ranges := seg.ranges - {p}, nattch := if seg.nattch == 0 then 0 else seg.nattch - 1)
  }

  /** The counter follows an attachment exactly below 65535, and every detachment. */
  lemma AttachedCount(seg: Segment, p: Pid, r: Range)
    requires CountOk(seg) && p !in seg.ranges
    ensures CountOk(Attached(seg, p, r)) <==> |seg.ranges| < NATTCH_END - 1
  {
    SizeWith(seg.ranges, p, r);
  }

  lemma AttachCounts(segs: Segments, shmid: Shmid, p: Pid, r: Range)
    requires CountsOk(segs) && shmid in segs && p !in segs[shmid].ranges
    ensures CountsOk(segs[shmid := Attached(segs[shmid], p, r)]) <==> |segs[shmid].ranges| < NATTCH_END - 1
  {
    AttachedCount(segs[shmid], p, r);
    assert shmid in segs[shmid := Attached(segs[shmid], p, r)];
  }

  lemma DetachedCount(seg: Segment, p: Pid)
    requires CountOk(seg) && p in seg.ranges
    ensures CountOk(Detached(seg, p))
  {
    SizeWith(seg.ranges - {p}, p, seg.ranges[p]);
    assert (seg.ranges - {p})[p := seg.ranges[p]] == seg.ranges;
  }

  lemma SizeWith(m: map<Pid, Range>, p: Pid, r: Range)
    requires p !in m
    ensures |m[p := r]| == |m| + 1
  {
    assert m[p := r].Keys == m.Keys + {p};
  }

  /** `remove_shmaddr`: a process that lists nothing any more leaves the table. */
  function Unlisted(procs: Processes, p: Pid, vaddr: nat): Processes {
    if p !in procs then procs
    else
      var left := procs[p].RemoveValue(vaddr);
      if left.forward == map[] then procs - {p} else procs[p := left]
  }

  function Listed(procs: Processes, p: Pid): BiMap { if p in procs then procs[p] else NoPairs() }

  // ---- What the operations are for, on either side ----

  /** Process p has segment s at range r; nothing else has changed but the counter. */
  ghost predicate JoinsAt(a: Segments, b: Segments, s: Shmid, p: Pid, r: Range) {
    && b.Keys == a.Keys && s in a && (forall u | u in a && u != s :: b[u] == a[u])
    && b[s].ranges == a[s].ranges[p := r] && b[s].key == a[s].key && b[s].rmid == a[s].rmid
  }

  /** The process lists segment s at v; other processes are as they were. */
  ghost predicate ListsAt(a: Processes, b: Processes, p: Pid, s: Shmid, v: nat) {
    && p in b && s in b[p].forward && b[p].forward[s] == v
    && b.Keys == a.Keys + {p} && forall q | q in a && q != p :: b[q] == a[q]
  }

  /** Process p no longer has segment s; nothing else has changed but the counter. */
  ghost predicate Leaves(a: Segments, b: Segments, s: Shmid, p: Pid) {
    && b.Keys == a.Keys && s in a && (forall u | u in a && u != s :: b[u] == a[u])
    && b[s].ranges == a[s].ranges - {p} && b[s].key == a[s].key && b[s].rmid == a[s].rmid
  }

  /** The process no longer lists s, and is gone if it lists nothing else. */
  ghost predicate Drops(a: Processes, b: Processes, p: Pid, s: Shmid) {
    && p in a && b.Keys == (if a[p].forward - {s} == map[] then a.Keys - {p} else a.Keys)
    && (p in b ==> b[p].forward == a[p].forward - {s}) && forall q | q in a && q != p :: b[q] == a[q]
  }

  /** Exactly the segments marked for removal to which nobody is attached are gone. */
  ghost predicate Swept(a: Segments, b: Segments) {
    && (forall s :: s in b <==> s in a && !(a[s].rmid && a[s].ranges == map[]))
    && forall s | s in b :: b[s] == a[s]
  }

  /** The process is attached nowhere, and the marked segments it was the last in are gone. */
  ghost predicate LeavesAll(a: Segments, b: Segments, p: Pid) {
    && (forall s :: s in b <==> s in a && !(a[s].rmid && a[s].ranges - {p} == map[]))
    && forall s | s in b :: b[s].ranges == a[s].ranges - {p} && b[s].key == a[s].key && b[s].rmid == a[s].rmid
  }

  class ShmManager {
    var index: map<int, Shmid>
    var segments: Segments
    var procs: Processes

    ghost predicate Valid()
      reads this
    {
      Linked(segments, procs)
    }

    constructor ()
      ensures Valid() && segments == map[] && procs == map[] && CountsOk(segments) && Indexed(index, segments)
    {
      index, segments, procs := map[], map[], map[];
    }

    /** shmget: the segment with the key if there is one and its size and mode match, or a new one under a
        new id. */
    method Get(key: int, shmid: Shmid, matches: bool) returns (r: Result<Shmid>)
      requires Valid() && Indexed(index, segments) && shmid !in segments
      modifies this
      ensures Valid() && Indexed(index, segments) && procs == old(procs)
      ensures old(CountsOk(segments)) ==> CountsOk(segments)
      ensures var there := key != IPC_PRIVATE && exists s | s in old(segments) :: old(segments)[s].key == key;
              && (r.Err? <==> there && !matches)
              && segments == (if there then old(segments) else old(segments)[shmid := Segment(key, map[], false, 0)])
      ensures r.Ok? ==> r.value in segments && segments[r.value].key == key
    {
      if key != IPC_PRIVATE && key in index {
        return if matches then Ok(index[key]) else Err(EINVAL);
      }
      Create(key, shmid);
      return Ok(shmid);
    }

    /** The registration half of shmget, for a new id. */
    method Create(key: int, shmid: Shmid)
      requires Valid() && shmid !in segments
      modifies this
      ensures Valid() && segments == old(segments)[shmid := Segment(key, map[], false, 0)] && procs == old(procs)
      ensures old(CountsOk(segments)) ==> CountsOk(segments)
      ensures old(Indexed(index, segments)) && (key == IPC_PRIVATE || key !in old(index)) ==> Indexed(index, segments)
    {
      ghost var before := segments;
      index := index[key := shmid];
      segments := segments[shmid := Segment(key, map[], false, 0)];
      forall p, s ensures Agree(segments, procs, p, s) {
        assert Agree(before, procs, p, s);
      }
    }

    /** IPC_RMID */
    method MarkRemoved(shmid: Shmid)
      requires Valid() && shmid in segments
      modifies this`segments
      ensures Valid() && segments == old(segments)[shmid := old(segments)[shmid].(rmid := true)]
      ensures old(CountsOk(segments)) ==> CountsOk(segments)
      ensures old(Indexed(index, segments)) ==> Indexed(index, segments)
    {
      ghost var before := segments;
      segments := segments[shmid := segments[shmid].(rmid := true)];
      forall p, s ensures Agree(segments, procs, p, s) {
        assert Agree(before, procs, p, s);
      }
    }

    /** The bookkeeping of shmat at the address the address space chose. The two sides stay in
        agreement exactly when the process does not already list another segment there. */
    method Attach(shmid: Shmid, p: Pid, r: Range) returns (result: Result<Unit>)
      requires Valid()
      modifies this`segments, this`procs
      ensures result == (if shmid in old(segments) && p !in old(segments)[shmid].ranges then Ok(Unit) else Err(EINVAL))
      ensures result.Err? ==> segments == old(segments) && procs == old(procs)
      ensures result.Ok? ==>
                && segments == old(segments)[shmid := Attached(old(segments)[shmid], p, r)]
                && procs == old(procs)[p := Listed(old(procs), p).Insert(shmid, r.start)]
                && (Valid() <==> r.start !in Listed(old(procs), p).reverse)
      ensures result.Ok? ==> JoinsAt(old(segments), segments, shmid, p, r)
      ensures result.Ok? ==> ListsAt(old(procs), procs, p, shmid, r.start)
      ensures result.Ok? && old(CountsOk(segments)) ==>
                (CountsOk(segments) <==> |old(segments)[shmid].ranges| < NATTCH_END - 1)
      ensures old(Indexed(index, segments)) ==> Indexed(index, segments)
    {
      if shmid !in segments { return Err(EINVAL); }
      if p in segments[shmid].ranges { return Err(EINVAL); }
      ghost var segs0, procs0 := segments, procs;
      segments := segments[shmid := Attached(segments[shmid], p, r)];
      procs := procs[p := Listed(procs, p).Insert(shmid, r.start)];
      AttachLinked(segs0, procs0, shmid, p, r);
      AttachJoins(segs0, procs0, shmid, p, r);
      if CountsOk(segs0) { AttachCounts(segs0, shmid, p, r); }
      return Ok(Unit);
    }

    /** The bookkeeping of shmdt; whether the segment should now be removed is reported. */
    method Detach(p: Pid, vaddr: nat) returns (result: Result<(Shmid, bool)>)
      requires Valid()
      modifies this`segments, this`procs
      ensures Valid()
      ensures result.Ok? <==> p in old(procs) && vaddr in old(procs)[p].reverse
      ensures result.Err? ==> segments == old(segments) && procs == old(procs)
      ensures result.Ok? ==>
                var s := result.value.0;
                && s == old(procs)[p].reverse[vaddr] && s in old(segments) && p in old(segments)[s].ranges
                && segments == old(segments)[s := Detached(old(segments)[s], p)]
                && procs == Unlisted(old(procs), p, vaddr)
                && (result.value.1 <==> segments[s].rmid && segments[s].ranges == map[])
      ensures result.Ok? ==> Leaves(old(segments), segments, result.value.0, p)
      ensures result.Ok? ==> Drops(old(procs), procs, p, result.value.0)
      ensures old(CountsOk(segments)) ==> CountsOk(segments)
      ensures old(Indexed(index, segments)) ==> Indexed(index, segments)
    {
      if p !in procs || vaddr !in procs[p].reverse { return Err(EINVAL); }
      var s := procs[p].reverse[vaddr];
      DetachFacts(segments, procs, index, p, vaddr, s);
      procs := Unlisted(procs, p, vaddr);
      segments := segments[s := Detached(segments[s], p)];
      return Ok((s, segments[s].rmid && segments[s].ranges == map[]));
    }

    /** `remove_shmid`: the two sides stay in agreement exactly when nobody is attached. */
    method RemoveShmid(shmid: Shmid) returns (removed: bool)
      requires Valid()
      modifies this`index, this`segments
      ensures removed == (shmid in old(segments)) && segments == old(segments) - {shmid}
      ensures Valid() <==> shmid !in old(segments) || old(segments)[shmid].ranges == map[]
      ensures old(CountsOk(segments)) ==> CountsOk(segments)
      ensures old(Indexed(index, segments)) ==> Indexed(index, segments)
    {
      removed := shmid in segments;
      if removed { index := index - {segments[shmid].key}; }
      ghost var segs0 := segments;
      segments := segments - {shmid};
      RemoveLinked(segs0, procs, shmid);
    }

    /** `cleanup_orphaned_segments`: exactly the segments marked for removal and without attachments. */
    method Cleanup() returns (count: nat)
      modifies this`index, this`segments
      ensures segments == Kept(old(segments)) && count == |Orphans(old(segments))|
      ensures Swept(old(segments), segments)
      ensures old(Valid()) ==> Valid()
      ensures old(CountsOk(segments)) ==> CountsOk(segments)
      ensures old(Indexed(index, segments)) ==> Indexed(index, segments)
    {
      ghost var segs0 := segments;
      var todo := Orphans(segments);
      count := 0;
      while |todo| > 0
        invariant todo <= Orphans(segs0) && segments == segs0 - (Orphans(segs0) - todo)
        invariant count + |todo| == |Orphans(segs0)| && (old(Indexed(index, segments)) ==> Indexed(index, segments))
        decreases todo
      {
        var s :| s in todo;
        index := index - {segments[s].key};
        segments := segments - {s};
        assert Orphans(segs0) - (todo - {s}) == (Orphans(segs0) - todo) + {s};
        todo := todo - {s};
        count := count + 1;
      }
      assert Orphans(segs0) - todo == Orphans(segs0);
      CleanupLinked(segs0, procs);
    }

    /** `detach_process`: the process leaves every segment it lists; then the clean-up. */
    method DetachProcess(p: Pid)
      modifies this
      ensures procs == old(procs) - {p}
      ensures segments == Kept(WithoutProcess(old(segments), p,
              if p in old(procs) then old(procs)[p].forward.Keys else {}))
      ensures old(Valid()) ==> Valid() && forall s | s in segments :: p !in segments[s].ranges
      ensures old(Valid()) ==> LeavesAll(old(segments), segments, p)
      ensures old(Valid() && CountsOk(segments)) ==> CountsOk(segments)
      ensures old(Indexed(index, segments)) ==> Indexed(index, segments)
    {
      ghost var segs0, procs0 := segments, procs;
      ghost var listed := if p in procs then procs[p].forward.Keys else {};
      LeaveSegments(p);
      if Indexed(index, segs0) { IndexKept(index, segs0, segments); }
      if Linked(segs0, procs0) {
        LeaveLinked(segs0, procs0, p, listed);
        LeaveAll(segs0, procs0, p, listed);
        if CountsOk(segs0) { LeaveCounts(segs0, p, listed); }
      }
      var removed := Cleanup();
    }

    /** The loop of `detach_process`. */
    method LeaveSegments(p: Pid)
      modifies this`segments, this`procs
      ensures procs == old(procs) - {p}
      ensures segments == WithoutProcess(old(segments), p, if p in old(procs) then old(procs)[p].forward.Keys else {})
    {
      ghost var segs0, procs0 := segments, procs;
      ghost var listed := if p in procs then procs[p].forward.Keys else {};
      if p in procs {
        var todo := procs[p].forward.Keys;
        procs := procs - {p};
        assert listed - todo == {};
        WithoutNone(segs0, p);
        while |todo| > 0
          invariant todo <= listed && segments == WithoutProcess(segs0, p, listed - todo) && procs == procs0 - {p}
          decreases todo
        {
          var s :| s in todo;
          if s in segments && p in segments[s].ranges {
            segments := segments[s := Detached(segments[s], p)];
          }
          WithoutOne(segs0, p, listed - todo, s);
          assert listed - (todo - {s}) == (listed - todo) + {s};
          todo := todo - {s};
        }
        assert listed - todo == listed;
      } else {
        WithoutNone(segs0, p);
        assert procs - {p} == procs;
      }
    }

    /** The first loop of `inherit_process`: what the child is to be attached to, or an error. */
    method Collect(parent: Pid, child: Pid) returns (r: Result<seq<Inherited>>)
      requires parent in procs
      ensures r.Ok? ==> Plan(segments, procs[parent].forward, parent, r.value)
      ensures Valid() && child !in procs ==> r.Ok?
    {
      var forward := procs[parent].forward;
      var todo, list := forward.Keys, [];
      while |todo| > 0
        invariant todo <= forward.Keys && PlanOf(segments, forward, parent, list, forward.Keys - todo)
        decreases todo
      {
        var s :| s in todo;
        ghost var sound := Linked(segments, procs) && child !in procs;
        assert sound ==> Agree(segments, procs, parent, s) && Agree(segments, procs, child, s);
        if s !in segments || child in segments[s].ranges || parent !in segments[s].ranges { return Err(EINVAL); }
        PlanMore(segments, forward, parent, list, forward.Keys - todo, s);
        list := list + [Inherited(s, forward[s], segments[s].ranges[parent])];
        assert forward.Keys - (todo - {s}) == forward.Keys - todo + {s};
        todo := todo - {s};
      }
      assert forward.Keys - todo == forward.Keys;
      return Ok(list);
    }

    /** The attaching loop. A failure at item `count` takes back, in reverse, what was attached before it;
        the segments are then as before exactly when no counter among those attached stood at 65535. */
    method AttachAll(child: Pid, list: seq<Inherited>) returns (ok: bool, ghost count: nat)
      requires forall k | 0 <= k < |list| :: list[k].shmid in segments
      modifies this`segments
      ensures ok <==> NoneAttached(old(segments), child, list, |list|)
      ensures ok ==> segments == Joined(old(segments), child, list, |list|)
      ensures !ok ==> count < |list| && NoneAttached(old(segments), child, list, count)
      ensures !ok ==> HasRange(Joined(old(segments), child, list, count), list[count].shmid, child)
      ensures !ok ==> SameAttachments(old(segments), segments) && TookBack(old(segments), segments, Ids(list, count))
      ensures !ok ==>
                (segments == old(segments) <==>
                   forall s | s in Ids(list, count) :: s in old(segments) && !Full(old(segments)[s]))
    {
      ghost var segs0 := segments;
      count := |list|;
      for i := 0 to |list|
        invariant segments == Joined(segs0, child, list, i) && segments.Keys == segs0.Keys
        invariant NoneAttached(segs0, child, list, i)
      {
        var s := list[i].shmid;
        if child in segments[s].ranges {
          AttachedStays(segs0, child, list, i, |list|);
          TakeBack(segs0, child, list, i);
          count := i;
          IdsThere(segs0, list, i);
          TookBackExactly(segs0, segments, Ids(list, i));
          return false, count;
        }
        segments := segments[s := Attached(segments[s], child, list[i].range)];
      }
      return true, count;
    }

    method TakeBack(ghost segs0: Segments, child: Pid, list: seq<Inherited>, count: nat)
      requires count <= |list| && segments == Joined(segs0, child, list, count)
               && NoneAttached(segs0, child, list, count)
      requires forall k | 0 <= k < count :: list[k].shmid in segs0
      modifies this`segments
      ensures TookBack(segs0, segments, Ids(list, count))
    {
      HalfStart(segs0, segments, child, list, count);
      TakeBackAll(segs0, child, list, count);
      HalfEnd(segs0, segments, child, list, count);
    }

    method TakeBackAll(ghost segs0: Segments, child: Pid, list: seq<Inherited>, count: nat)
      requires count <= |list| && HalfBack(segs0, segments, child, list, count, count)
      requires NoneAttached(segs0, child, list, count) && forall k | 0 <= k < count :: list[k].shmid in segs0
      modifies this`segments
      ensures HalfBack(segs0, segments, child, list, 0, count)
    {
      var j := count;
      while j > 0
        invariant 0 <= j <= count && NoneAttached(segs0, child, list, j)
        invariant HalfBack(segs0, segments, child, list, j, count)
      {
        ghost var i := j;
        j := j - 1;
        TakeBackItem(segs0, child, list, j, i, count);
      }
    }

    method TakeBackItem(ghost segs0: Segments, child: Pid, list: seq<Inherited>, j: nat, ghost i: nat, ghost count: nat)
      requires j < i == j + 1 <= count <= |list| && HalfBack(segs0, segments, child, list, i, count)
      requires list[j].shmid in segs0 && NoneAttached(segs0, child, list, i)
      modifies this`segments
      ensures HalfBack(segs0, segments, child, list, j, count)
    {
      var s := list[j].shmid;
      TakeBackOne(segs0, segments, child, list, j, i, count);
      segments := segments[s := Detached(segments[s], child)];
    }

    /** `inherit_process`: a failure leaves every attachment as it was; success attaches the child to
        exactly the parent's segments, at the parent's ranges. */
    method Inherit(parent: Pid, child: Pid, reserve: bool) returns (r: Result<Unit>)
      modifies this`segments, this`procs
      ensures r.Err? ==> SameAttachments(old(segments), segments) && procs == old(procs)
      ensures r.Err? && old(Valid()) ==> segments == old(segments)
      ensures r.Ok? && parent !in old(procs) ==> segments == old(segments) && procs == old(procs)
      ensures r.Ok? && parent in old(procs) && old(Valid()) ==>
                && segments == InheritedBy(old(segments), old(procs)[parent].forward.Keys, parent, child)
                && procs == old(procs)[child := old(procs)[parent]]
      ensures r.Ok? && parent in old(procs) && old(Valid()) ==>
                AllShare(old(segments), segments, parent, child)
      ensures r.Ok? && parent in old(procs) && old(Valid() && CountsOk(segments)) ==>
                (CountsOk(segments) <==> Roomy(old(segments), old(procs)[parent].forward.Keys))
      ensures old(Valid()) ==> Valid()
      ensures old(Valid()) ==> (r.Ok? <==> child !in old(procs) && (reserve || parent !in old(procs)))
      ensures old(Valid() && Indexed(index, segments)) ==> Indexed(index, segments)
    {
      if child in procs { return Err(EINVAL); }
      if parent !in procs { return Ok(Unit); }
      if !reserve { return Err(ENOMEM); }
      var list := Collect(parent, child);
      if list.Err? { return Err(list.error); }
      if Valid() && CountsOk(segments) { InheritCounts(segments, procs, parent, child); }
      if Valid() && Indexed(index, segments) {
        IndexKept(index, segments, InheritedBy(segments, procs[parent].forward.Keys, parent, child));
      }
      if Valid() { InheritedShare(segments, procs, parent, child); }
      r := InheritPlan(parent, child, list.value);
    }

    /** The attaching loop and the new map. */
    method InheritPlan(parent: Pid, child: Pid, list: seq<Inherited>) returns (r: Result<Unit>)
      requires parent in procs && child !in procs && Plan(segments, procs[parent].forward, parent, list)
      modifies this`segments, this`procs
      ensures r.Err? ==> SameAttachments(old(segments), segments) && procs == old(procs)
      ensures old(Valid()) ==>
                && r.Ok? && Valid()
                && segments == InheritedBy(old(segments), old(procs)[parent].forward.Keys, parent, child)
                && procs == old(procs)[child := old(procs)[parent]]
    {
      ghost var segs0, procs0 := segments, procs;
      var ok;
      ghost var count;
      ok, count := AttachAll(child, list);
      if Linked(segs0, procs0) { InheritExactly(segs0, procs0, parent, child, list); }
      if !ok { return Err(EINVAL); }
      var mappings := BuildMap(list);
      procs := procs[child := mappings];
      return Ok(Unit);
    }
  }

  /** The same attachments, marks and keys; attach counters may differ. */
  ghost predicate SameAttachments(a: Segments, b: Segments) {
    && a.Keys == b.Keys
    && forall s | s in a :: a[s].ranges == b[s].ranges && a[s].rmid == b[s].rmid && a[s].key == b[s].key
  }

  /** The segments after the child has been attached by the first i items. */
  function Joined(segs: Segments, child: Pid, list: seq<Inherited>, i: nat): Segments
    requires i <= |list|
  {
    if i == 0 then segs
    else
      var t := Joined(segs, child, list, i - 1);
      var s := list[i - 1].shmid;
      if s in t then t[s := Attached(t[s], child, list[i - 1].range)] else t
  }

  lemma {:induction false} JoinedKeys(segs: Segments, child: Pid, list: seq<Inherited>, i: nat)
    requires i <= |list|
    ensures Joined(segs, child, list, i).Keys == segs.Keys
  {
    if i > 0 { JoinedKeys(segs, child, list, i - 1); }
  }

  /** At each of the first i items the child was not attached yet. */
  ghost predicate NoneAttached(segs: Segments, child: Pid, list: seq<Inherited>, i: nat)
    requires i <= |list|
  {
    i == 0 || (NoneAttached(segs, child, list, i - 1)
               && !HasRange(Joined(segs, child, list, i - 1), list[i - 1].shmid, child))
  }

  /** Each item's segment has the child at the item's range; all else is as it was, counters aside. */
  ghost predicate AllJoined(a: Segments, b: Segments, child: Pid, list: seq<Inherited>) {
    && b.Keys == a.Keys
    && (forall k | 0 <= k < |list| && list[k].shmid in a ::
          b[list[k].shmid].ranges == a[list[k].shmid].ranges[child := list[k].range])
    && (forall s | s in a && (forall k | 0 <= k < |list| :: list[k].shmid != s) :: b[s] == a[s])
    && (forall s | s in a :: b[s].key == a[s].key && b[s].rmid == a[s].rmid)
  }

  lemma AllJoinedIs(segs: Segments, child: Pid, list: seq<Inherited>)
    requires NoneAttached(segs, child, list, |list|)
    ensures AllJoined(segs, Joined(segs, child, list, |list|), child, list)
  {
    JoinedKeys(segs, child, list, |list|);
    forall s | s in segs ensures JoinedOnce(segs, child, list, |list|, s) {
      JoinedOnceIs(segs, child, list, |list|, s);
    }
  }

  ghost predicate JoinedOnce(segs: Segments, child: Pid, list: seq<Inherited>, i: nat, s: Shmid)
    requires i <= |list|
  {
    var b := Joined(segs, child, list, i);
    && s in b && s in segs && b[s].key == segs[s].key && b[s].rmid == segs[s].rmid
    && (forall k | 0 <= k < i && list[k].shmid == s :: b[s].ranges == segs[s].ranges[child := list[k].range])
    && ((forall k | 0 <= k < i :: list[k].shmid != s) ==> b[s] == segs[s])
  }

  lemma {:induction false} JoinedOnceIs(segs: Segments, child: Pid, list: seq<Inherited>, i: nat, s: Shmid)
    requires i <= |list| && s in segs && NoneAttached(segs, child, list, i)
    ensures JoinedOnce(segs, child, list, i, s)
  {
    if i > 0 { JoinedOnceIs(segs, child, list, i - 1, s); }
  }

  /** The child has the segment exactly where the parent has it; others, key and mark are as they were. */
  predicate SharesParent(before: Segment, after: Segment, parent: Pid, child: Pid) {
    && after.key == before.key && after.rmid == before.rmid
    && (parent in before.ranges ==> after.ranges == before.ranges[child := before.ranges[parent]])
    && (parent !in before.ranges ==> after == before)
  }

  ghost predicate AllShare(a: Segments, b: Segments, parent: Pid, child: Pid) {
    b.Keys == a.Keys && forall s | s in a :: SharesParent(a[s], b[s], parent, child)
  }

  lemma InheritedShare(segs: Segments, procs: Processes, parent: Pid, child: Pid)
    requires Linked(segs, procs) && parent in procs
    ensures AllShare(segs, InheritedBy(segs, procs[parent].forward.Keys, parent, child), parent, child)
  {
    forall s | s in segs ensures
      SharesParent(segs[s], InheritedBy(segs, procs[parent].forward.Keys, parent, child)[s], parent, child)
    {
      assert Agree(segs, procs, parent, s);
    }
  }

  lemma {:induction false} AttachedStays(segs: Segments, child: Pid, list: seq<Inherited>, i: nat, n: nat)
    requires i < n <= |list| && HasRange(Joined(segs, child, list, i), list[i].shmid, child)
    ensures !NoneAttached(segs, child, list, n)
    decreases n
  {
    if n - 1 > i { AttachedStays(segs, child, list, i, n - 1); }
  }

  // ---- Taking back ----

  /** The counter is at its last value, from which an attachment takes it to zero. */
  predicate Full(seg: Segment) { seg.nattch == NATTCH_END - 1 }

  /** An attachment and its detachment: the counter comes back unless it was full. */
  function Back(seg: Segment): Segment { if Full(seg) then seg.(nattch := 0) else seg }

  ghost predicate TookBack(a: Segments, b: Segments, ids: set<Shmid>) {
    b.Keys == a.Keys && forall s | s in a :: b[s] == if s in ids then Back(a[s]) else a[s]
  }

  lemma TookBackExactly(a: Segments, b: Segments, ids: set<Shmid>)
    requires TookBack(a, b, ids) && forall s | s in ids :: s in a
    ensures SameAttachments(a, b)
    ensures b == a <==> forall s | s in ids :: !Full(a[s])
  {
  }

  lemma OneTakenBack(seg: Segment, child: Pid, r: Range)
    requires child !in seg.ranges
    ensures Detached(Attached(seg, child, r), child) == Back(seg)
  {
    assert seg.ranges[child := r] - {child} == seg.ranges;
  }

  /** A segment when the items from j on, of the first `count`, have been taken back. */
  function Halfway(segs: Segments, child: Pid, list: seq<Inherited>, j: nat, count: nat, s: Shmid): Segment
    requires j <= count <= |list| && s in segs
  {
    JoinedKeys(segs, child, list, j);
    if s in Ids(list, count) && s !in Ids(list, j) then Back(segs[s]) else Joined(segs, child, list, j)[s]
  }

  ghost predicate HalfBack(segs0: Segments, segs: Segments, child: Pid, list: seq<Inherited>, j: nat, count: nat)
    requires j <= count <= |list|
  {
    segs.Keys == segs0.Keys && forall s | s in segs0 :: segs[s] == Halfway(segs0, child, list, j, count, s)
  }

  lemma HalfStart(segs0: Segments, segs: Segments, child: Pid, list: seq<Inherited>, count: nat)
    requires count <= |list| && segs == Joined(segs0, child, list, count)
    ensures HalfBack(segs0, segs, child, list, count, count)
  {
    JoinedKeys(segs0, child, list, count);
  }

  lemma HalfEnd(segs0: Segments, segs: Segments, child: Pid, list: seq<Inherited>, count: nat)
    requires count <= |list| && HalfBack(segs0, segs, child, list, 0, count)
    ensures TookBack(segs0, segs, Ids(list, count))
  {
    forall s | s in segs0 ensures segs[s] == if s in Ids(list, count) then Back(segs0[s]) else segs0[s] {
      assert segs[s] == Halfway(segs0, child, list, 0, count, s);
    }
  }

  lemma TakeBackOne(segs0: Segments, segs: Segments, child: Pid, list: seq<Inherited>, j: nat, i: nat, count: nat)
    requires j < i == j + 1 <= count <= |list| && HalfBack(segs0, segs, child, list, i, count)
    requires list[j].shmid in segs0 && NoneAttached(segs0, child, list, i)
    ensures HalfBack(segs0, segs[list[j].shmid := Detached(segs[list[j].shmid], child)], child, list, j, count)
  {
    var s := list[j].shmid;
    TakenBackHere(segs0, segs[s], child, list, j, i, count);
    var now := segs[s := Detached(segs[s], child)];
    forall x | x in segs0 && x != s ensures now[x] == Halfway(segs0, child, list, j, count, x) {
      HalfwayOther(segs0, child, list, j, i, count, x);
    }
  }

  lemma TakenBackHere(segs0: Segments, seg: Segment, child: Pid, list: seq<Inherited>, j: nat, i: nat, count: nat)
    requires j < i == j + 1 <= count <= |list| && list[j].shmid in segs0 && NoneAttached(segs0, child, list, i)
    requires seg == Halfway(segs0, child, list, i, count, list[j].shmid)
    ensures Detached(seg, child) == Halfway(segs0, child, list, j, count, list[j].shmid)
  {
    var s := list[j].shmid;
    NotBefore(segs0, child, list, j);
    OneTakenBack(segs0[s], child, list[j].range);
    IdsGrow(list, i, count);
    assert seg == Joined(segs0, child, list, i)[s];
  }

  lemma HalfwayOther(segs: Segments, child: Pid, list: seq<Inherited>, j: nat, i: nat, count: nat, x: Shmid)
    requires j < i == j + 1 <= count <= |list| && x in segs && x != list[j].shmid
    ensures Halfway(segs, child, list, j, count, x) == Halfway(segs, child, list, i, count, x)
  {
  }

  lemma {:induction false} IdsThere(segs: Segments, list: seq<Inherited>, i: nat)
    requires i <= |list| && forall k | 0 <= k < i :: list[k].shmid in segs
    ensures forall s | s in Ids(list, i) :: s in segs
  {
    if i > 0 { IdsThere(segs, list, i - 1); }
  }

  lemma {:induction false} IdsGrow(list: seq<Inherited>, j: nat, n: nat)
    requires j <= n <= |list|
    ensures Ids(list, j) <= Ids(list, n)
    decreases n
  {
    if j < n { IdsGrow(list, j, n - 1); }
  }

  lemma {:induction false} Untouched(segs: Segments, child: Pid, list: seq<Inherited>, i: nat, s: Shmid)
    requires i <= |list| && s in segs
    ensures s in Joined(segs, child, list, i)
    ensures s !in Ids(list, i) ==> Joined(segs, child, list, i)[s] == segs[s]
    ensures s in Ids(list, i) ==> child in Joined(segs, child, list, i)[s].ranges
  {
    if i > 0 { Untouched(segs, child, list, i - 1, s); }
  }

  /** The segment of an item that was attached was not attached by an earlier one. */
  lemma NotBefore(segs: Segments, child: Pid, list: seq<Inherited>, j: nat)
    requires j < |list| && NoneAttached(segs, child, list, j + 1) && list[j].shmid in segs
    ensures var s := list[j].shmid;
            && s !in Ids(list, j) && s in Joined(segs, child, list, j) && Joined(segs, child, list, j)[s] == segs[s]
            && child !in segs[s].ranges
  {
    Untouched(segs, child, list, j, list[j].shmid);
  }

  /** The counters of these segments can all take one more. */
  ghost predicate Roomy(segs: Segments, ids: set<Shmid>) {
    forall s | s in ids :: s in segs && |segs[s].ranges| < NATTCH_END - 1
  }

  /** The counters after an inheritance. */
  lemma InheritCounts(segs: Segments, procs: Processes, parent: Pid, child: Pid)
    requires Linked(segs, procs) && CountsOk(segs) && parent in procs && child !in procs
    ensures CountsOk(InheritedBy(segs, procs[parent].forward.Keys, parent, child)) <==>
            Roomy(segs, procs[parent].forward.Keys)
  {
    var ids := procs[parent].forward.Keys;
    var segs' := InheritedBy(segs, ids, parent, child);
    forall s | s in ids
      ensures s in segs && parent in segs[s].ranges && (CountOk(segs'[s]) <==> |segs[s].ranges| < NATTCH_END - 1)
    {
      assert Agree(segs, procs, parent, s) && Agree(segs, procs, child, s);
      AttachedCount(segs[s], child, segs[s].ranges[parent]);
    }
  }

  // ---- Inheritance ----

  datatype Inherited = Inherited(shmid: Shmid, vaddr: nat, range: Range)

  ghost predicate ItemOk(segs: Segments, forward: map<Shmid, nat>, parent: Pid, it: Inherited) {
    it.shmid in segs && it.shmid in forward && it.vaddr == forward[it.shmid]
    && parent in segs[it.shmid].ranges && it.range == segs[it.shmid].ranges[parent]
  }

  /** One item for each segment of `ids`. */
  ghost predicate PlanOf(segs: Segments, forward: map<Shmid, nat>, parent: Pid, list: seq<Inherited>, ids: set<Shmid>) {
    && (forall k | 0 <= k < |list| :: ItemOk(segs, forward, parent, list[k]) && list[k].shmid in ids)
    && (forall j, k | 0 <= j < k < |list| :: list[j].shmid != list[k].shmid)
    && (forall s | s in ids :: exists k :: 0 <= k < |list| && list[k].shmid == s)
  }

  ghost predicate Plan(segs: Segments, forward: map<Shmid, nat>, parent: Pid, list: seq<Inherited>) {
    PlanOf(segs, forward, parent, list, forward.Keys)
  }

  /** Every segment of `ids` also attached to the child, where the parent has it. */
  function InheritedBy(segs: Segments, ids: set<Shmid>, parent: Pid, child: Pid): Segments {
    map s | s in segs ::
      if s in ids && parent in segs[s].ranges then Attached(segs[s], child, segs[s].ranges[parent]) else segs[s]
  }

  /** One segment after the attaching loop: attached once if it is in the plan, else untouched. */
  lemma {:induction false} JoinedAt(segs: Segments, forward: map<Shmid, nat>, parent: Pid, child: Pid,
                                    list: seq<Inherited>, i: nat, s: Shmid)
    requires i <= |list| && Plan(segs, forward, parent, list) && s in segs
    ensures s in Joined(segs, child, list, i)
    ensures (forall k | 0 <= k < i :: list[k].shmid != s) ==> Joined(segs, child, list, i)[s] == segs[s]
    ensures forall k | 0 <= k < i && list[k].shmid == s ::
            Joined(segs, child, list, i)[s] == Attached(segs[s], child, list[k].range)
  {
    if i > 0 { JoinedAt(segs, forward, parent, child, list, i - 1, s); }
  }

  lemma {:induction false} NoneAttachedYet(segs: Segments, forward: map<Shmid, nat>, parent: Pid, child: Pid,
                                           list: seq<Inherited>, i: nat)
    requires i <= |list| && Plan(segs, forward, parent, list)
    requires forall s | s in segs :: child !in segs[s].ranges
    ensures NoneAttached(segs, child, list, i)
  {
    if i > 0 {
      NoneAttachedYet(segs, forward, parent, child, list, i - 1);
      assert ItemOk(segs, forward, parent, list[i - 1]);
      JoinedAt(segs, forward, parent, child, list, i - 1, list[i - 1].shmid);
    }
  }

  method BuildMap(list: seq<Inherited>) returns (m: BiMap)
    ensures m == Built(list, |list|)
  {
    m := NoPairs();
    for i := 0 to |list|
      invariant m == Built(list, i)
    {
      m := m.Insert(list[i].shmid, list[i].vaddr);
    }
  }

  function Built(list: seq<Inherited>, i: nat): BiMap
    requires i <= |list|
  {
    if i == 0 then NoPairs() else Built(list, i - 1).Insert(list[i - 1].shmid, list[i - 1].vaddr)
  }

  function Ids(list: seq<Inherited>, i: nat): set<Shmid>
    requires i <= |list|
  {
    if i == 0 then {} else Ids(list, i - 1) + {list[i - 1].shmid}
  }

  lemma {:induction false} IdsExactly(list: seq<Inherited>, i: nat, s: Shmid)
    requires i <= |list|
    ensures s in Ids(list, i) <==> exists k :: 0 <= k < i && list[k].shmid == s
  {
    if i > 0 { IdsExactly(list, i - 1, s); }
  }

  /** The pairs of a two-way map whose keys are in a set. */
  function Restrict(m: BiMap, ids: set<Shmid>): BiMap {
    BiMap(map s | s in m.forward && s in ids :: m.forward[s], map v | v in m.reverse
        && m.reverse[v] in ids :: m.reverse[v])
  }

  lemma RestrictInsert(m: BiMap, ids: set<Shmid>, s: Shmid)
    requires m.Inverse() && s in m.forward && s !in ids
    ensures Restrict(m, ids).Insert(s, m.forward[s]) == Restrict(m, ids + {s})
  {
  }

  lemma {:induction false} BuiltRestrict(segs: Segments, m: BiMap, parent: Pid, list: seq<Inherited>, i: nat)
    requires m.Inverse() && Plan(segs, m.forward, parent, list) && i <= |list|
    ensures Built(list, i) == Restrict(m, Ids(list, i))
  {
    if i > 0 {
      BuiltRestrict(segs, m, parent, list, i - 1);
      IdsExactly(list, i - 1, list[i - 1].shmid);
      assert ItemOk(segs, m.forward, parent, list[i - 1]);
      RestrictInsert(m, Ids(list, i - 1), list[i - 1].shmid);
    }
  }

  lemma BuiltIs(segs: Segments, m: BiMap, parent: Pid, list: seq<Inherited>)
    requires m.Inverse() && Plan(segs, m.forward, parent, list)
    ensures Built(list, |list|) == m
  {
    BuiltRestrict(segs, m, parent, list, |list|);
    forall s | s in m.forward ensures s in Ids(list, |list|) { IdsExactly(list, |list|, s); }
    assert Restrict(m, Ids(list, |list|)).forward == m.forward && Restrict(m, Ids(list, |list|)).reverse == m.reverse;
  }

  lemma InheritExactly(segs: Segments, procs: Processes, parent: Pid, child: Pid, list: seq<Inherited>)
    requires Linked(segs, procs) && parent in procs && child !in procs
             && Plan(segs, procs[parent].forward, parent, list)
    ensures NoneAttached(segs, child, list, |list|)
    ensures Joined(segs, child, list, |list|) == InheritedBy(segs, procs[parent].forward.Keys, parent, child)
    ensures AllShare(segs, Joined(segs, child, list, |list|), parent, child)
    ensures Built(list, |list|) == procs[parent]
    ensures Linked(InheritedBy(segs, procs[parent].forward.Keys, parent, child), procs[child := procs[parent]])
  {
    forall s | s in segs ensures child !in segs[s].ranges { assert Agree(segs, procs, child, s); }
    NoneAttachedYet(segs, procs[parent].forward, parent, child, list, |list|);
    JoinedIs(segs, procs[parent].forward, parent, child, list);
    InheritedShare(segs, procs, parent, child);
    BuiltIs(segs, procs[parent], parent, list);
    InheritLinked(segs, procs, parent, child);
  }

  lemma JoinedIs(segs: Segments, forward: map<Shmid, nat>, parent: Pid, child: Pid, list: seq<Inherited>)
    requires Plan(segs, forward, parent, list)
    ensures Joined(segs, child, list, |list|) == InheritedBy(segs, forward.Keys, parent, child)
  {
    JoinedKeys(segs, child, list, |list|);
    forall s | s in segs ensures Joined(segs, child, list, |list|)[s]
        == InheritedBy(segs, forward.Keys, parent, child)[s] {
      JoinedAt(segs, forward, parent, child, list, |list|, s);
      if s in forward {
        var k :| 0 <= k < |list| && list[k].shmid == s;
        assert ItemOk(segs, forward, parent, list[k]);
      }
    }
  }

  lemma InheritLinked(segs: Segments, procs: Processes, parent: Pid, child: Pid)
    requires Linked(segs, procs) && parent in procs && child !in procs
    ensures Linked(InheritedBy(segs, procs[parent].forward.Keys, parent, child), procs[child := procs[parent]])
  {
    var segs', procs' := InheritedBy(segs, procs[parent].forward.Keys, parent, child), procs[child := procs[parent]];
    forall q, u ensures Agree(segs', procs', q, u) {
      assert Agree(segs, procs, q, u) && Agree(segs, procs, parent, u) && Agree(segs, procs, child, u);
    }
  }

  lemma PlanMore(segs: Segments, forward: map<Shmid, nat>, parent: Pid, list: seq<Inherited>, ids: set<Shmid>, s: Shmid)
    requires PlanOf(segs, forward, parent, list, ids) && s !in ids && s in segs && s in forward
             && parent in segs[s].ranges
    ensures PlanOf(segs, forward, parent, list + [Inherited(s, forward[s], segs[s].ranges[parent])], ids + {s})
  {
    var more := list + [Inherited(s, forward[s], segs[s].ranges[parent])];
    forall u | u in ids + {s} ensures exists k :: 0 <= k < |more| && more[k].shmid == u {
      if u == s {
        assert more[|list|].shmid == u;
      } else {
        var k :| 0 <= k < |list| && list[k].shmid == u;
        assert more[k].shmid == u;
      }
    }
  }

  // ---- Clean-up ----

  function Orphans(segs: Segments): set<Shmid> {
    set s | s in segs && segs[s].rmid && segs[s].ranges == map[]
  }

  function Kept(segs: Segments): Segments { segs - Orphans(segs) }

  lemma CleanupLinked(segs: Segments, procs: Processes)
    ensures Linked(segs, procs) ==> Linked(Kept(segs), procs)
  {
    if Linked(segs, procs) {
      forall q, u ensures Agree(Kept(segs), procs, q, u) { assert Agree(segs, procs, q, u); }
    }
  }

  // ---- A process leaves ----

  /** The segments after p has been detached from those in `ids` it was attached to. */
  function WithoutProcess(segs: Segments, p: Pid, ids: set<Shmid>): Segments {
    map s | s in segs :: if s in ids && p in segs[s].ranges then Detached(segs[s], p) else segs[s]
  }

  lemma WithoutNone(segs: Segments, p: Pid)
    ensures WithoutProcess(segs, p, {}) == segs
  {
  }

  lemma WithoutOne(segs: Segments, p: Pid, ids: set<Shmid>, s: Shmid)
    requires s !in ids
    ensures var before := WithoutProcess(segs, p, ids);
            WithoutProcess(segs, p, ids + {s})
            == if s in before && p in before[s].ranges then before[s := Detached(before[s], p)] else before
  {
  }

  lemma LeaveLinked(segs: Segments, procs: Processes, p: Pid, ids: set<Shmid>)
    requires Linked(segs, procs) && ids == if p in procs then procs[p].forward.Keys else {}
    ensures Linked(WithoutProcess(segs, p, ids), procs - {p})
    ensures forall s | s in segs :: p !in WithoutProcess(segs, p, ids)[s].ranges
  {
    var segs' := WithoutProcess(segs, p, ids);
    forall q, u ensures Agree(segs', procs - {p}, q, u) {
      assert Agree(segs, procs, q, u);
      assert Agree(segs, procs, p, u);
    }
    forall s | s in segs ensures p !in segs'[s].ranges { assert Agree(segs, procs, p, s); }
  }

  lemma LeaveCounts(segs: Segments, p: Pid, ids: set<Shmid>)
    requires CountsOk(segs)
    ensures CountsOk(WithoutProcess(segs, p, ids))
  {
    forall s | s in segs ensures CountOk(WithoutProcess(segs, p, ids)[s]) {
      if p in segs[s].ranges { DetachedCount(segs[s], p); }
    }
  }

  lemma AttachLinked(segs: Segments, procs: Processes, shmid: Shmid, p: Pid, r: Range)
    requires Linked(segs, procs) && shmid in segs && p !in segs[shmid].ranges
    ensures Linked(segs[shmid := Attached(segs[shmid], p, r)], procs[p := Listed(procs, p).Insert(shmid, r.start)])
            <==> r.start !in Listed(procs, p).reverse
  {
    var segs' := segs[shmid := Attached(segs[shmid], p, r)];
    var m := Listed(procs, p);
    var procs' := procs[p := m.Insert(shmid, r.start)];
    assert Agree(segs, procs, p, shmid);
    InsertInverse(m, shmid, r.start);
    if r.start !in m.reverse {
      forall q, s ensures Agree(segs', procs', q, s) { assert Agree(segs, procs, q, s); }
    } else {
      var evicted := m.reverse[r.start];
      assert Agree(segs, procs, p, evicted);
      assert !Agree(segs', procs', p, evicted);
    }
  }

  lemma AttachJoins(segs: Segments, procs: Processes, shmid: Shmid, p: Pid, r: Range)
    requires shmid in segs
    ensures JoinsAt(segs, segs[shmid := Attached(segs[shmid], p, r)], shmid, p, r)
    ensures ListsAt(procs, procs[p := Listed(procs, p).Insert(shmid, r.start)], p, shmid, r.start)
  {
  }

  lemma DetachFacts(segs: Segments, procs: Processes, index: map<int, Shmid>, p: Pid, vaddr: nat, s: Shmid)
    requires Linked(segs, procs) && p in procs && vaddr in procs[p].reverse && s == procs[p].reverse[vaddr]
    ensures s in segs && p in segs[s].ranges
    ensures var segs', procs' := segs[s := Detached(segs[s], p)], Unlisted(procs, p, vaddr);
            && Linked(segs', procs') && Leaves(segs, segs', s, p) && Drops(procs, procs', p, s)
            && (CountsOk(segs) ==> CountsOk(segs')) && (Indexed(index, segs) ==> Indexed(index, segs'))
  {
    assert Agree(segs, procs, p, s);
    DetachLinked(segs, procs, p, vaddr);
    DetachLeaves(segs, procs, p, vaddr);
    if CountsOk(segs) { DetachCounts(segs, s, p); }
    if Indexed(index, segs) { IndexKept(index, segs, segs[s := Detached(segs[s], p)]); }
  }

  lemma DetachCounts(segs: Segments, s: Shmid, p: Pid)
    requires CountsOk(segs) && s in segs && p in segs[s].ranges
    ensures CountsOk(segs[s := Detached(segs[s], p)])
  {
    DetachedCount(segs[s], p);
  }

  lemma DetachLeaves(segs: Segments, procs: Processes, p: Pid, vaddr: nat)
    requires p in procs && procs[p].Inverse() && vaddr in procs[p].reverse && procs[p].reverse[vaddr] in segs
    ensures var s := procs[p].reverse[vaddr];
            && Leaves(segs, segs[s := Detached(segs[s], p)], s, p)
            && Drops(procs, Unlisted(procs, p, vaddr), p, s)
  {
  }

  lemma LeaveAll(segs: Segments, procs: Processes, p: Pid, ids: set<Shmid>)
    requires Linked(segs, procs) && ids == if p in procs then procs[p].forward.Keys else {}
    ensures LeavesAll(segs, Kept(WithoutProcess(segs, p, ids)), p)
  {
    forall s | s in segs ensures WithoutProcess(segs, p, ids)[s].ranges == segs[s].ranges - {p} {
      assert Agree(segs, procs, p, s);
    }
  }

  lemma DetachLinked(segs: Segments, procs: Processes, p: Pid, vaddr: nat)
    requires Linked(segs, procs) && p in procs && vaddr in procs[p].reverse && procs[p].reverse[vaddr] in segs
    ensures var s := procs[p].reverse[vaddr]; Linked(segs[s := Detached(segs[s], p)], Unlisted(procs, p, vaddr))
  {
    var s := procs[p].reverse[vaddr];
    var left := procs[p].RemoveValue(vaddr);
    RemoveInverse(procs[p], vaddr);
    var segs' := segs[s := Detached(segs[s], p)];
    var procs' := Unlisted(procs, p, vaddr);
    forall q, u ensures Agree(segs', procs', q, u) {
      assert Agree(segs, procs, q, u);
      assert u in procs[p].forward && u != s ==> u in left.forward;
    }
  }

  lemma RemoveLinked(segs: Segments, procs: Processes, shmid: Shmid)
    requires Linked(segs, procs)
    ensures Linked(segs - {shmid}, procs) <==> shmid !in segs || segs[shmid].ranges == map[]
  {
    if shmid in segs && segs[shmid].ranges != map[] {
      var p :| p in segs[shmid].ranges;
      assert Agree(segs, procs, p, shmid);
      assert !Agree(segs - {shmid}, procs, p, shmid);
    } else {
      forall q, u ensures Agree(segs - {shmid}, procs, q, u) { assert Agree(segs, procs, q, u); }
    }
  }

  // ---- Where the two sides part ----

  /** shmdt decides under the lock that the segment should go, and removes it later: a process that
      attaches in between keeps a listing of a segment that is gone. */
  method RemovalRace(m: ShmManager)
    requires m.Valid() && m.segments == map[0 := Segment(5, map[], true, 0)] && m.procs == map[]
    modifies m
    ensures !m.Valid() && ListsSegment(m.procs, 2, 0) && 0 !in m.segments
  {
    AttachDetach(m);
    var b := m.Attach(0, 2, Range(0, 1));
    var r := m.RemoveShmid(0);
  }

  method AttachDetach(m: ShmManager)
    requires m.Valid() && m.segments == map[0 := Segment(5, map[], true, 0)] && m.procs == map[]
    modifies m
    ensures m.Valid() && 0 in m.segments && m.segments[0].ranges == map[] && m.procs == map[]
  {
    var a := m.Attach(0, 1, Range(0, 1));
    assert m.procs == map[1 := BiMap(map[0 := 0], map[0 := 0])];
    DetachLast(m);
  }

  method DetachLast(m: ShmManager)
    requires m.Valid() && m.procs == map[1 := BiMap(map[0 := 0], map[0 := 0])]
    requires 0 in m.segments && m.segments[0].ranges == map[1 := Range(0, 1)]
    modifies m
    ensures m.Valid() && 0 in m.segments && m.segments[0].ranges == map[] && m.procs == map[]
  {
    var d := m.Detach(1, 0);
    assert m.procs.Keys == {};
  }

  /** A second segment at an address the process still lists (it may have unmapped the first by other
      means) evicts the first from the process's map only. */
  method SameAddress() returns (m: ShmManager)
    ensures fresh(m) && !m.Valid() && HasRange(m.segments, 0, 1) && !ListsSegment(m.procs, 1, 0)
  {
    m := new ShmManager();
    m.Create(5, 0);
    m.Create(6, 1);
    var a := m.Attach(0, 1, Range(0, 1));
    var b := m.Attach(1, 1, Range(0, 1));
  }
}
