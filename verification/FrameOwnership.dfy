/**
 Ownership of physical frames, shared between `Frame` handles and Alloc leaves
 of any number of address spaces. A handle moves into a leaf when the leaf is
 installed and out of it when the leaf is removed; the reference count must
 cover both. The allocator, and failures inside the page table, are parameters.
 */
module FrameOwnership {
  import opened Options
  import opened PageTables

  const U32_MAX: nat := 0xffff_ffff

  datatype Error = OutOfMemory | AlreadyExists | BadAddress | InvalidInput | BadState | PermissionDenied

  datatype Result<+T> = Ok(value: T) | Err(error: Error)

  datatype Unit = Unit

  /** A user address range and its page table. */
  datatype Space = Space(lo: nat, hi: nat, table: Table)

  type Spaces = map<nat, Space>

  function PagingFault(e: PagingError): Error {
    match e
    case NoMemory => OutOfMemory
    case AlreadyMapped => AlreadyExists
    case NotMapped => BadAddress
    case NotAligned => InvalidInput
    case MappedToHugePage => InvalidInput
  }

  // ---- Flags ----

  function Apply(kind: Kind, flags: Flags): Flags {
    if kind == Alloc then flags + {AllocFrame} else flags - {AllocFrame}
  }

  predicate HasAccess(flags: Flags) { Read in flags || Write in flags || Execute in flags }

  /** `pte_flags`; `riscv` is the target architecture. */
  function PteFlags(kind: Kind, flags: Flags, riscv: bool): Result<Flags> {
    var f := Apply(kind, flags - {ProtNone});
    if !HasAccess(f) then Ok(f + {ProtNone})
    else if riscv && Read !in f && Execute !in f then Err(InvalidInput)
    else Ok(f)
  }

  /** Stored flags carry the kind, are never empty of both access and the no-access mark, and give
      back the access that was asked for. */
  lemma PteFlagsMeaning(kind: Kind, flags: Flags, riscv: bool)
    ensures PteFlags(kind, flags, riscv).Err? <==> riscv && Write in flags && Read !in flags && Execute !in flags
    ensures var r := PteFlags(kind, flags, riscv);
            r.Ok? ==>
              && KindOf(r.value) == kind
              && (ProtNone in r.value <==> Read !in flags && Write !in flags && Execute !in flags)
              && r.value - {AllocFrame, ProtNone} == flags - {AllocFrame, ProtNone}
  {
  }

  // ---- Who owns references to a frame ----

  predicate OwnsFrame(leaf: Leaf, p: nat) { KindOf(leaf.flags) == Alloc && leaf.phys == p }

  /** The Alloc leaves, over all spaces, that point at a frame. */
  function Owners(spaces: Spaces, p: nat): set<(nat, nat)> {
    set id, a | id in spaces && a in spaces[id].table && OwnsFrame(spaces[id].table[a], p) :: (id, a)
  }

  lemma InOwners(spaces: Spaces, p: nat, id: nat, a: nat)
    ensures (id, a) in Owners(spaces, p) <==>
              id in spaces && a in spaces[id].table && OwnsFrame(spaces[id].table[a], p)
  {
  }

  function SetTable(spaces: Spaces, id: nat, t: Table): Spaces
    requires id in spaces
  {
    spaces[id := spaces[id].(table := t)]
  }

  /** Only the table of one space has changed, to t. */
  ghost predicate Becomes(was: Spaces, now: Spaces, id: nat, t: Table) {
    id in was && SameSpaces(was, now, id) && now[id].table == t
  }

  ghost predicate SameSpaces(was: Spaces, now: Spaces, id: nat)
    requires id in was
  {
    id in now && now == SetTable(was, id, now[id].table)
  }

  lemma OwnerAfter(spaces: Spaces, id: nat, a: nat, leaf: Leaf, p: nat, i: nat, b: nat)
    requires id in spaces && a !in spaces[id].table
    ensures (i, b) in Owners(SetTable(spaces, id, spaces[id].table[a := leaf]), p) <==>
              (i, b) in Owners(spaces, p) || ((i, b) == (id, a) && OwnsFrame(leaf, p))
  {
    InOwners(spaces, p, i, b);
    InOwners(SetTable(spaces, id, spaces[id].table[a := leaf]), p, i, b);
  }

  lemma OwnersPut(spaces: Spaces, id: nat, a: nat, leaf: Leaf, p: nat)
    requires id in spaces && a !in spaces[id].table
    ensures |Owners(SetTable(spaces, id, spaces[id].table[a := leaf]), p)|
            == |Owners(spaces, p)| + (if OwnsFrame(leaf, p) then 1 else 0)
  {
    var spaces' := SetTable(spaces, id, spaces[id].table[a := leaf]);
    var o, o' := Owners(spaces, p), Owners(spaces', p);
    forall i: nat, b: nat ensures (i, b) in o' <==> (i, b) in o || ((i, b) == (id, a) && OwnsFrame(leaf, p)) {
      OwnerAfter(spaces, id, a, leaf, p, i, b);
    }
    InOwners(spaces, p, id, a);
    if OwnsFrame(leaf, p) {
      assert o' == o + {(id, a)};
    } else {
      assert o' == o;
    }
  }

  lemma OwnersRemove(spaces: Spaces, id: nat, a: nat, p: nat)
    requires id in spaces && a in spaces[id].table
    ensures |Owners(SetTable(spaces, id, Remove(spaces[id].table, a)), p)|
            == |Owners(spaces, p)| - (if OwnsFrame(spaces[id].table[a], p) then 1 else 0)
  {
    var t := spaces[id].table;
    OwnersPut(SetTable(spaces, id, Remove(t, a)), id, a, t[a], p);
    assert Remove(t, a)[a := t[a]] == t;
    assert SetTable(SetTable(spaces, id, Remove(t, a)), id, t) == spaces;
  }

  // ---- The ownership invariant ----

  predicate CountOk(counts: map<nat, nat>, handles: multiset<nat>, spaces: Spaces, p: nat)
    requires p in counts
  {
    counts[p] == handles[p] + |Owners(spaces, p)|
  }

  /** An Alloc leaf lies in its space's range, is one page, and points at a frame of physical memory. */
  predicate AllocLeafOk(s: Space, counts: map<nat, nat>, a: nat)
    requires a in s.table
  {
    KindOf(s.table[a].flags) == Alloc ==>
      s.table[a].size == Size4K && s.lo <= a && End(s.table, a) <= s.hi && s.table[a].phys in counts
      && Aligned(s.table[a].phys, Size4K)
  }

  ghost predicate SpaceOk(s: Space, counts: map<nat, nat>) {
    && s.lo <= s.hi < USIZE_END
    && TableOk(s.table)
    && forall a | a in s.table :: AllocLeafOk(s, counts, a)
  }

  ghost predicate SpacesOk(spaces: Spaces, counts: map<nat, nat>) {
    forall id | id in spaces :: SpaceOk(spaces[id], counts)
  }

  ghost predicate Counted(counts: map<nat, nat>, handles: multiset<nat>, spaces: Spaces) {
    forall p {:trigger CountOk(counts, handles, spaces, p)} | p in counts :: CountOk(counts, handles, spaces, p)
  }

  /** `free` are the allocator's pages, `loaned` the frames it has handed to `Frame` and not got back. */
  ghost predicate Owned(counts: map<nat, nat>, free: set<nat>, loaned: set<nat>, handles: multiset<nat>,
                        spaces: Spaces) {
    && Counted(counts, handles, spaces)
    && (forall p | p in counts :: Aligned(p, Size4K) && counts[p] <= U32_MAX)
    && (forall p | p in counts :: counts[p] > 0 <==> p in loaned)
    && (forall p | p in handles :: p in counts)
    && SpacesOk(spaces, counts)
    && loaned <= counts.Keys && loaned !! free
  }

  /** A page of the allocator's pool is free exactly when no handle and no leaf names it: no leak, and
      no frame is back with the allocator while something still reaches it. */
  lemma FreeExactly(counts: map<nat, nat>, free: set<nat>, pool: set<nat>, handles: multiset<nat>, spaces: Spaces,
                    p: nat)
    requires free <= pool && Owned(counts, free, pool - free, handles, spaces) && p in counts
    ensures p in free <==> p in pool && p !in handles && Owners(spaces, p) == {}
    ensures p in handles || Owners(spaces, p) != {} ==> p in pool
  {
    assert CountOk(counts, handles, spaces, p);
  }

  lemma HandleCounted(counts: map<nat, nat>, free: set<nat>, loaned: set<nat>, handles: multiset<nat>,
                      spaces: Spaces, p: nat)
    requires Owned(counts, free, loaned, handles, spaces) && p in handles
    ensures p in counts && counts[p] > 0 && p in loaned
  {
    assert CountOk(counts, handles, spaces, p);
  }

  lemma LeafCounted(counts: map<nat, nat>, free: set<nat>, loaned: set<nat>, handles: multiset<nat>, spaces: Spaces,
                    id: nat, a: nat)
    requires Owned(counts, free, loaned, handles, spaces) && id in spaces && a in spaces[id].table
    requires KindOf(spaces[id].table[a].flags) == Alloc
    ensures spaces[id].table[a].phys in counts && counts[spaces[id].table[a].phys] > 0
  {
    var p := spaces[id].table[a].phys;
    assert AllocLeafOk(spaces[id], counts, a);
    assert (id, a) in Owners(spaces, p);
    assert CountOk(counts, handles, spaces, p);
  }

  lemma TableChanged(spaces: Spaces, counts: map<nat, nat>, id: nat, t: Table)
    requires SpacesOk(spaces, counts) && id in spaces && TableOk(t)
    requires forall a | a in t && (a !in spaces[id].table || t[a] != spaces[id].table[a]) ::
               AllocLeafOk(spaces[id].(table := t), counts, a)
    ensures SpacesOk(SetTable(spaces, id, t), counts)
  {
    forall a | a in t ensures AllocLeafOk(spaces[id].(table := t), counts, a) {
      if a in spaces[id].table { assert AllocLeafOk(spaces[id], counts, a); }
    }
  }

  function Moves(leaf: Leaf): multiset<nat> {
    if KindOf(leaf.flags) == Alloc then multiset{leaf.phys} else multiset{}
  }

  lemma CountInstalled(counts: map<nat, nat>, handles: multiset<nat>, spaces: Spaces, id: nat, a: nat, leaf: Leaf)
    requires Counted(counts, handles, spaces) && id in spaces && a !in spaces[id].table && Moves(leaf) <= handles
    ensures Counted(counts, handles - Moves(leaf), SetTable(spaces, id, spaces[id].table[a := leaf]))
  {
    forall p | p in counts
      ensures CountOk(counts, handles - Moves(leaf), SetTable(spaces, id, spaces[id].table[a := leaf]), p)
    {
      assert CountOk(counts, handles, spaces, p);
      OwnersPut(spaces, id, a, leaf, p);
    }
  }

  lemma CountTaken(counts: map<nat, nat>, handles: multiset<nat>, spaces: Spaces, id: nat, a: nat)
    requires Counted(counts, handles, spaces) && id in spaces && a in spaces[id].table
    ensures Counted(counts, handles + Moves(spaces[id].table[a]), SetTable(spaces, id, Remove(spaces[id].table, a)))
  {
    forall p | p in counts
      ensures CountOk(counts, handles + Moves(spaces[id].table[a]),
              SetTable(spaces, id, Remove(spaces[id].table, a)), p)
    {
      assert CountOk(counts, handles, spaces, p);
      OwnersRemove(spaces, id, a, p);
    }
  }

  /** into_pte: a handle moves into a new Alloc leaf; a Static leaf takes none. */
  lemma LeafInstalled(counts: map<nat, nat>, free: set<nat>, loaned: set<nat>, handles: multiset<nat>, spaces: Spaces,
                      id: nat, a: nat, leaf: Leaf)
    requires Owned(counts, free, loaned, handles, spaces) && id in spaces
    requires Aligned(a, leaf.size) && a + Bytes(leaf.size) <= USIZE_END
    requires Overlapping(spaces[id].table, a, a + Bytes(leaf.size)) == {} && Moves(leaf) <= handles
    requires KindOf(leaf.flags) == Alloc ==>
               leaf.size == Size4K && spaces[id].lo <= a && a + Bytes(Size4K) <= spaces[id].hi
    ensures Owned(counts, free, loaned, handles - Moves(leaf), SetTable(spaces, id, spaces[id].table[a := leaf]))
  {
    MapKeepsOk(spaces[id].table, a, leaf);
    CountInstalled(counts, handles, spaces, id, a, leaf);
    assert KindOf(leaf.flags) == Alloc ==> leaf.phys in Moves(leaf);
    TableChanged(spaces, counts, id, spaces[id].table[a := leaf]);
  }

  /** take_from_pte: the reference of a removed Alloc leaf becomes a handle again. */
  lemma LeafTaken(counts: map<nat, nat>, free: set<nat>, loaned: set<nat>, handles: multiset<nat>, spaces: Spaces,
                  id: nat, a: nat)
    requires Owned(counts, free, loaned, handles, spaces) && id in spaces && a in spaces[id].table
    ensures Owned(counts, free, loaned, handles + Moves(spaces[id].table[a]),
                  SetTable(spaces, id, Remove(spaces[id].table, a)))
  {
    assert AllocLeafOk(spaces[id], counts, a);
    CountTaken(counts, handles, spaces, id, a);
    SubtableOk(spaces[id].table, Remove(spaces[id].table, a));
    TableChanged(spaces, counts, id, Remove(spaces[id].table, a));
  }

  /** A handle and its count go up together. */
  lemma HandleAdded(counts: map<nat, nat>, free: set<nat>, loaned: set<nat>, handles: multiset<nat>, spaces: Spaces,
                    p: nat)
    requires Owned(counts, free, loaned, handles, spaces) && p in counts && counts[p] < U32_MAX && p !in free
    ensures Owned(counts[p := counts[p] + 1], free, loaned + {p}, handles + multiset{p}, spaces)
  {
    CountMoved(counts, handles, spaces, p, counts[p] + 1, handles + multiset{p});
    FramesKept(spaces, counts, counts[p := counts[p] + 1]);
  }

  /** claim: a page of the allocator has count zero, and becomes a loan with one handle. */
  lemma FrameClaimed(counts: map<nat, nat>, free: set<nat>, loaned: set<nat>, handles: multiset<nat>, spaces: Spaces,
                     p: nat)
    requires Owned(counts, free, loaned, handles, spaces) && p in counts && p in free
    ensures counts[p] == 0 && Owned(counts[p := 1], free - {p}, loaned + {p}, handles + multiset{p}, spaces)
  {
    assert counts[p] == 0;
    HandleAdded(counts, free - {p}, loaned, handles, spaces, p);
  }

  /** They go down together, and the last one ends the loan. */
  lemma HandleDropped(counts: map<nat, nat>, free: set<nat>, loaned: set<nat>, handles: multiset<nat>,
                      spaces: Spaces, p: nat)
    requires Owned(counts, free, loaned, handles, spaces) && p in counts && p in handles && counts[p] > 0
    ensures counts[p] > 1 ==> Owned(counts[p := counts[p] - 1], free, loaned, handles - multiset{p}, spaces)
    ensures counts[p] == 1 ==>
              && Owned(counts[p := 0], free + {p}, loaned - {p}, handles - multiset{p}, spaces)
              && p !in free && p !in handles - multiset{p} && Owners(spaces, p) == {}
  {
    assert CountOk(counts, handles, spaces, p);
    CountMoved(counts, handles, spaces, p, counts[p] - 1, handles - multiset{p});
    FramesKept(spaces, counts, counts[p := counts[p] - 1]);
  }

  lemma CountMoved(counts: map<nat, nat>, handles: multiset<nat>, spaces: Spaces, p: nat, n: nat,
                   handles': multiset<nat>)
    requires Counted(counts, handles, spaces) && p in counts
    requires n + handles[p] == counts[p] + handles'[p] && forall q | q != p :: handles'[q] == handles[q]
    ensures Counted(counts[p := n], handles', spaces)
  {
    forall q | q in counts ensures CountOk(counts[p := n], handles', spaces, q) {
      assert CountOk(counts, handles, spaces, q);
    }
  }

  lemma FramesKept(spaces: Spaces, counts: map<nat, nat>, counts': map<nat, nat>)
    requires SpacesOk(spaces, counts) && counts.Keys == counts'.Keys
    ensures SpacesOk(spaces, counts')
  {
    forall id | id in spaces ensures SpaceOk(spaces[id], counts') {
      forall a | a in spaces[id].table ensures AllocLeafOk(spaces[id], counts', a) {
        assert AllocLeafOk(spaces[id], counts, a);
      }
    }
  }

  // ---- Frames, page tables and their operations ----

  predicate InRange(s: Space, start: nat, size: nat) {
    start + size < USIZE_END && s.lo <= start && start + size <= s.hi
  }

  /** `validate_range` */
  predicate ValidRange(s: Space, start: nat, size: nat, page: PageSize) {
    size != 0 && Aligned(start, page) && Aligned(size, page) && InRange(s, start, size)
  }

  /** A range is valid exactly if it is not empty, made of whole pages, and every address of it lies in the
      space and, with the address behind it, in the machine's range. */
  lemma ValidRangeExactly(s: Space, start: nat, size: nat, page: PageSize)
    ensures ValidRange(s, start, size, page) <==>
              && size > 0 && Aligned(start, page) && Aligned(size, page)
              && forall x | start <= x < start + size :: HasAddress(s, x)
  {
    if size > 0 && forall x | start <= x < start + size :: HasAddress(s, x) {
      assert HasAddress(s, start) && HasAddress(s, start + size - 1);
    }
  }

  /** The address lies in the space, and the next one in the machine's range. */
  predicate HasAddress(s: Space, x: nat) { s.lo <= x < s.hi && x + 1 < USIZE_END }

  /** The checks of `map_frame`, in its order, and the leaf it installs. */
  function NewLeaf(s: Space, address: nat, p: nat, flags: Flags, riscv: bool,
                   fault: Option<PagingError>): Result<Leaf> {
    if !ValidRange(s, address, Bytes(Size4K), Size4K) then Err(InvalidInput)
    else if Query(s.table, address).Some? then Err(AlreadyExists)
    else
      var stored := PteFlags(Alloc, flags, riscv);
      if stored.Err? then Err(stored.error)
      else
        var e := MapError(s.table, address, Size4K, fault);
        if e.Some? then Err(PagingFault(e.value)) else Ok(Leaf(p, stored.value, Size4K))
  }

  lemma NewLeafExactly(s: Space, address: nat, p: nat, flags: Flags, riscv: bool, fault: Option<PagingError>)
    requires TableOk(s.table)
    ensures NewLeaf(s, address, p, flags, riscv, fault).Ok? <==>
              && ValidRange(s, address, Bytes(Size4K), Size4K)
              && Overlapping(s.table, address, address + Bytes(Size4K)) == {}
              && PteFlags(Alloc, flags, riscv).Ok? && fault == None
  {
    QueryMeets(s.table, address, Size4K);
  }

  /** A leaf for a frame's handle, with room for it. */
  predicate RoomFor(s: Space, a: nat, p: nat, leaf: Leaf) {
    && leaf.phys == p && leaf.size == Size4K && KindOf(leaf.flags) == Alloc && Aligned(a, Size4K)
    && s.lo <= a && a + Bytes(Size4K) <= s.hi && Overlapping(s.table, a, a + Bytes(Size4K)) == {}
  }

  lemma NewLeafIs(s: Space, address: nat, p: nat, flags: Flags, riscv: bool, fault: Option<PagingError>)
    requires TableOk(s.table)
    ensures var leaf := NewLeaf(s, address, p, flags, riscv, fault);
            leaf.Ok? ==>
              && PteFlags(Alloc, flags, riscv).Ok? && leaf.value == Leaf(p, PteFlags(Alloc, flags, riscv).value, Size4K)
              && RoomFor(s, address, p, leaf.value)
  {
    NewLeafExactly(s, address, p, flags, riscv, fault);
  }

  /** The checks of `replace_frame` at a page address, and the leaf it leaves there. */
  function Replacement(t: Table, a: nat, expected: nat, p: nat, flags: Flags, riscv: bool): Result<Leaf> {
    var found := Query(t, a);
    if found == None then Err(BadAddress)
    else if found.value !in t || a < found.value then Err(BadAddress)
    else
      var leaf := t[found.value];
      if leaf.phys + (a - found.value) != expected || leaf.size != Size4K
          || AllocFrame !in leaf.flags then Err(BadState)
      else
        var stored := PteFlags(Alloc, flags, riscv);
        if stored.Err? then Err(stored.error) else Ok(Leaf(p, stored.value, Size4K))
  }

  lemma ReplacementExactly(t: Table, a: nat, expected: nat, p: nat, flags: Flags, riscv: bool)
    requires TableOk(t) && Aligned(a, Size4K)
    ensures var r := Replacement(t, a, expected, p, flags, riscv);
            && (r.Ok? <==>
                  && a in t && t[a].size == Size4K && OwnsFrame(t[a], expected)
                  && PteFlags(Alloc, flags, riscv).Ok?)
            && (r.Ok? ==>
                  && r.value == Leaf(p, PteFlags(Alloc, flags, riscv).value, Size4K)
                  && KindOf(r.value.flags) == Alloc)
  {
    var found := Query(t, a);
    if found.Some? {
      QueryFinds(t, a, found.value);
      if t[found.value].size == Size4K {
        assert Placed(t, found.value);
        AlignedDifference(a, found.value, Size4K);
      }
    }
    if a in t { QueryFinds(t, a, a); }
  }

  /** The visitor of `preflight_range`: every leaf at fault overwrites the error of an earlier one. */
  method LastFault(t: Table, walk: seq<nat>, start: nat, end: nat, kind: Kind, page: PageSize, counts: map<nat, nat>)
    returns (fault: Option<Error>, ghost at: nat)
    requires forall k | 0 <= k < |walk| :: walk[k] in t
    ensures fault.Some? ==> at < |walk| && LeafError(t, walk[at], start, end, kind, page, counts) == fault
    ensures forall k | (if fault.Some? then at + 1 else 0) <= k < |walk| ::
              LeafError(t, walk[k], start, end, kind, page, counts) == None
  {
    fault, at := None, 0;
    for i := 0 to |walk|
      invariant fault.Some? ==> at < i && LeafError(t, walk[at], start, end, kind, page, counts) == fault
      invariant forall k | (if fault.Some? then at + 1 else 0) <= k < i ::
                  LeafError(t, walk[k], start, end, kind, page, counts) == None
    {
      var e := LeafError(t, walk[i], start, end, kind, page, counts);
      if e.Some? {
        fault, at := e, i;
      }
    }
  }

  class Memory {
    const riscv: bool
    /** FrameMeta::ref_count of every frame of physical memory. */
    var counts: map<nat, nat>
    var free: set<nat>
    /** The pages the allocator manages; those not free are on loan to `Frame`. */
    ghost const pool: set<nat>
    /** The `Frame` values alive, by the frame they name. */
    ghost var handles: multiset<nat>
    var spaces: Spaces

    ghost predicate Valid()
      reads this
    {
      free <= pool && Owned(counts, free, pool - free, handles, spaces)
    }

    constructor (riscv: bool, frames: set<nat>, free: set<nat>)
      requires forall p | p in frames :: Aligned(p, Size4K)
      ensures Valid() && this.free == pool == free && handles == multiset{} && spaces == map[] && counts.Keys == frames
    {
      this.riscv := riscv;
      counts := map p | p in frames :: 0;
      this.free := free;
      pool := free;
      handles := multiset{};
      spaces := map[];
    }

    /** Gives a page to the allocator: only one that nothing reaches and that is not already there. */
    method Dealloc(p: nat)
      requires p !in free && p !in handles && Owners(spaces, p) == {}
      modifies this`free
      ensures free == old(free) + {p}
    {
      free := free + {p};
    }

    /** `Frame::allocate_zeroed`; `page` is the allocator's answer. */
    method Allocate(page: Option<nat>) returns (r: Option<nat>)
      requires Valid() && (page.Some? ==> page.value in free)
      modifies this
      ensures Valid() && spaces == old(spaces)
      ensures r == (if page.Some? && page.value in counts then page else None)
      ensures r == None ==> counts == old(counts) && free == old(free) && handles == old(handles)
      ensures r.Some? ==>
                && r.value in old(counts) && old(counts)[r.value] == 0 && counts == old(counts)[r.value := 1]
                && free == old(free) - {r.value} && handles == old(handles) + multiset{r.value}
    {
      if page == None { return None; }
      var p := page.value;
      if p !in counts {
        // taken from the allocator and given back
        return None;
      }
      FrameClaimed(counts, free, pool - free, handles, spaces, p);
      free := free - {p};
      counts := counts[p := 1];
      handles := handles + multiset{p};
      return Some(p);
    }

    /** `Frame::clone`; false where the source panics, on a count that is full. */
    method Clone(p: nat) returns (ok: bool)
      requires Valid() && p in handles
      modifies this
      ensures Valid() && spaces == old(spaces) && free == old(free)
      ensures p in old(counts) && (ok <==> old(counts)[p] < U32_MAX)
      ensures counts == if ok then old(counts)[p := old(counts)[p] + 1] else old(counts)
      ensures handles == if ok then old(handles) + multiset{p} else old(handles)
    {
      HandleCounted(counts, free, pool - free, handles, spaces, p);
      if counts[p] == 0 || counts[p] == U32_MAX { return false; }
      HandleAdded(counts, free, pool - free, handles, spaces, p);
      counts := counts[p := counts[p] + 1];
      handles := handles + multiset{p};
      return true;
    }

    /** `Frame::drop`: the last reference takes the frame back to the allocator. */
    method Drop(p: nat)
      requires Valid() && p in handles
      modifies this
      ensures Valid() && spaces == old(spaces) && handles == old(handles) - multiset{p}
      ensures p in old(counts) && old(counts)[p] > 0 && counts == old(counts)[p := old(counts)[p] - 1]
      ensures free == if old(counts)[p] == 1 then old(free) + {p} else old(free)
    {
      HandleCounted(counts, free, pool - free, handles, spaces, p);
      HandleDropped(counts, free, pool - free, handles, spaces, p);
      var last := counts[p] == 1;
      counts := counts[p := counts[p] - 1];
      handles := handles - multiset{p};
      if last {
        Dealloc(p);
      }
    }

    /** `Frame::clone_from_pte` */
    method CloneFromPte(p: nat) returns (r: Result<nat>)
      requires Valid()
      modifies this
      ensures Valid() && spaces == old(spaces)
      ensures r == (if p !in old(counts) then Err(BadAddress)
                    else if old(counts)[p] == 0 || old(counts)[p] == U32_MAX then Err(BadState)
                    else Ok(p))
      ensures r.Err? ==> counts == old(counts) && free == old(free) && handles == old(handles)
      ensures r.Ok? ==> && counts == old(counts)[p := old(counts)[p] + 1] && free == old(free)
                        && handles == old(handles) + multiset{p}
    {
      if p !in counts { return Err(BadAddress); }
      if counts[p] == 0 || counts[p] == U32_MAX { return Err(BadState); }
      HandleAdded(counts, free, pool - free, handles, spaces, p);
      counts := counts[p := counts[p] + 1];
      handles := handles + multiset{p};
      return Ok(p);
    }

    /** `map_frame`: the frame is consumed, into the leaf or, on any error, by being dropped. */
    method MapFrame(id: nat, address: nat, p: nat, flags: Flags, fault: Option<PagingError>) returns (r: Result<Unit>)
      requires Valid() && id in spaces && p in handles
      modifies this
      ensures Valid() && handles == old(handles) - multiset{p}
      ensures r.Ok? <==>
                && ValidRange(old(spaces)[id], address, Bytes(Size4K), Size4K)
                && Overlapping(old(spaces)[id].table, address, address + Bytes(Size4K)) == {}
                && PteFlags(Alloc, flags, riscv).Ok? && fault == None
      ensures r.Ok? ==>
                && counts == old(counts) && free == old(free)
                && spaces == SetTable(old(spaces), id,
                     old(spaces)[id].table[address := Leaf(p, PteFlags(Alloc, flags, riscv).value, Size4K)])
      ensures r.Err? ==>
                && spaces == old(spaces) && p in old(counts) && old(counts)[p] > 0
                && counts == old(counts)[p := old(counts)[p] - 1]
                && free == if old(counts)[p] == 1 then old(free) + {p} else old(free)
    {
      var leaf := NewLeaf(spaces[id], address, p, flags, riscv, fault);
      NewLeafExactly(spaces[id], address, p, flags, riscv, fault);
      NewLeafIs(spaces[id], address, p, flags, riscv, fault);
      r := PutLeaf(id, address, p, leaf);
    }

    /** The handle goes into the new leaf, or is dropped. */
    method PutLeaf(id: nat, a: nat, p: nat, leaf: Result<Leaf>) returns (r: Result<Unit>)
      requires Valid() && id in spaces && p in handles && (leaf.Ok? ==> RoomFor(spaces[id], a, p, leaf.value))
      modifies this
      ensures Valid() && handles == old(handles) - multiset{p} && (r.Ok? <==> leaf.Ok?)
      ensures r.Ok? ==>
                && counts == old(counts) && free == old(free)
                && spaces == SetTable(old(spaces), id, old(spaces)[id].table[a := leaf.value])
      ensures r.Err? ==>
                && spaces == old(spaces) && p in old(counts) && old(counts)[p] > 0
                && counts == old(counts)[p := old(counts)[p] - 1]
                && free == if old(counts)[p] == 1 then old(free) + {p} else old(free)
    {
      if leaf.Err? {
        Drop(p);
        return Err(leaf.error);
      }
      InstallFrame(id, a, leaf.value);
      return Ok(Unit);
    }

    /** map and into_pte: the handle moves into the new leaf. */
    method InstallFrame(id: nat, a: nat, leaf: Leaf)
      requires Valid() && id in spaces && KindOf(leaf.flags) == Alloc && leaf.phys in handles && leaf.size == Size4K
      requires Aligned(a, Size4K) && spaces[id].lo <= a && a + Bytes(Size4K) <= spaces[id].hi
      requires Overlapping(spaces[id].table, a, a + Bytes(Size4K)) == {}
      modifies this`spaces, this`handles
      ensures Valid() && handles == old(handles) - multiset{leaf.phys}
      ensures spaces == SetTable(old(spaces), id, old(spaces)[id].table[a := leaf])
    {
      assert SpaceOk(spaces[id], counts);
      LeafInstalled(counts, free, pool - free, handles, spaces, id, a, leaf);
      spaces := SetTable(spaces, id, spaces[id].table[a := leaf]);
      handles := handles - multiset{leaf.phys};
    }

    /** take_from_pte and drop: a removed Alloc leaf gives up its reference. */
    method RemoveLeaf(id: nat, a: nat)
      requires Valid() && id in spaces && a in spaces[id].table
      modifies this
      ensures Valid() && handles == old(handles) && counts.Keys == old(counts).Keys
      ensures spaces == SetTable(old(spaces), id, Remove(old(spaces)[id].table, a))
      ensures KindOf(old(spaces)[id].table[a].flags) == Static ==> counts == old(counts) && free == old(free)
    {
      var leaf := spaces[id].table[a];
      LeafTaken(counts, free, pool - free, handles, spaces, id, a);
      spaces := SetTable(spaces, id, Remove(spaces[id].table, a));
      handles := handles + Moves(leaf);
      if KindOf(leaf.flags) == Alloc {
        Drop(leaf.phys);
        assert old(handles) + multiset{leaf.phys} - multiset{leaf.phys} == old(handles);
      }
    }

    /** remap: a handle moves into the leaf, and the leaf's old reference is dropped. */
    method SwapLeaf(id: nat, a: nat, leaf: Leaf)
      requires Valid() && id in spaces && a in spaces[id].table && leaf.phys in handles
      requires KindOf(leaf.flags) == KindOf(spaces[id].table[a].flags) == Alloc
      requires leaf.size == spaces[id].table[a].size
      modifies this
      ensures Valid() && handles == old(handles) - multiset{leaf.phys}
      ensures spaces == SetTable(old(spaces), id, old(spaces)[id].table[a := leaf])
    {
      var was := spaces[id].table[a].phys;
      LeafSwapped(counts, free, pool - free, handles, spaces, id, a, leaf);
      spaces := SetTable(spaces, id, spaces[id].table[a := leaf]);
      handles := handles - multiset{leaf.phys} + multiset{was};
      Drop(was);
      assert old(handles) - multiset{leaf.phys} + multiset{was} - multiset{was} == old(handles) - multiset{leaf.phys};
    }

    /** `replace_frame`: the replacement is consumed in every case; on success the leaf's old
        reference is dropped. */
    method ReplaceFrame(id: nat, x: nat, expected: nat, p: nat, flags: Flags) returns (r: Result<Unit>)
      requires Valid() && id in spaces && multiset{expected, p} <= handles
      modifies this
      ensures Valid() && handles == old(handles) - multiset{p}
      ensures r.Err? ==> spaces == old(spaces)
      ensures var t, a := old(spaces)[id].table, x - x % Bytes(Size4K);
              && (r.Ok? <==>
                    && a in t && t[a].size == Size4K && OwnsFrame(t[a], expected)
                    && PteFlags(Alloc, flags, riscv).Ok?)
              && (r.Ok? ==>
                    spaces == SetTable(old(spaces), id, t[a := Leaf(p, PteFlags(Alloc, flags, riscv).value, Size4K)]))
    {
      var a := x - x % Bytes(Size4K);
      PageOf(x, Size4K);
      assert SpaceOk(spaces[id], counts);
      ReplacementExactly(spaces[id].table, a, expected, p, flags, riscv);
      var leaf := Replacement(spaces[id].table, a, expected, p, flags, riscv);
      if leaf.Err? {
        Drop(p);
        return Err(leaf.error);
      }
      SwapLeaf(id, a, leaf.value);
      return Ok(Unit);
    }

    /** `preflight_range`: the number of leaves met, or the error of the last leaf at fault. */
    method Preflight(id: nat, start: nat, size: nat, kind: Kind, page: PageSize) returns (r: Result<nat>)
      requires id in spaces
      ensures !ValidRange(spaces[id], start, size, page) ==> r == Err(InvalidInput)
      ensures ValidRange(spaces[id], start, size, page) ==>
                Verdict(spaces[id].table, start, start + size, kind, page, counts, r)
    {
      if !ValidRange(spaces[id], start, size, page) { return Err(InvalidInput); }
      var t, end := spaces[id].table, start + size;
      var walk := Walk(Overlapping(t, start, end));
      WalkInTable(t, start, end, walk);
      var fault, at := LastFault(t, walk, start, end, kind, page, counts);
      r := if fault.Some? then Err(fault.value) else Ok(|walk|);
      VerdictOfWalk(t, start, end, kind, page, counts, walk, at, if r.Err? then at + 1 else 0, r);
    }

    /** `unmap_range`: nothing changes on an error; on success exactly the leaves of the range go, and
        every Alloc leaf among them gives up one reference. */
    method UnmapRange(id: nat, start: nat, size: nat, kind: Kind, page: PageSize) returns (r: Result<Unit>)
      requires Valid() && id in spaces
      modifies this
      ensures Valid() && handles == old(handles) && counts.Keys == old(counts).Keys
      ensures r.Err? ==> spaces == old(spaces) && counts == old(counts) && free == old(free)
      ensures r.Ok? ==> spaces == SetTable(old(spaces), id, Without(old(spaces)[id].table, start, start + size))
      ensures r.Ok? ==> forall p | p in counts ::
                counts[p] == old(counts)[p] - |Leaving(old(spaces)[id].table, start, start + size, p)|
      ensures r.Ok? <==>
                && ValidRange(old(spaces)[id], start, size, page)
                && AllRemovable(old(spaces)[id].table, start, start + size, kind, page)
    {
      ghost var was, counts0 := spaces, counts;
      assert SpaceOk(spaces[id], counts);
      if ValidRange(spaces[id], start, size, page) {
        RemovableExactly(counts, free, pool - free, handles, spaces, id, start, start + size, kind, page);
        AlignedSum(start, size, page);
      }
      var checked := Preflight(id, start, size, kind, page);
      if checked.Err? { return Err(checked.error); }
      ClearRange(id, start, start + size, kind, page);
      ReferencesDropped(counts0, counts, handles, was, spaces, id, start, start + size);
      return Ok(Unit);
    }

    method ClearPage(id: nat, ghost t: Table, ghost start: nat, address: nat, ghost end: nat, ghost kind: Kind,
                     ghost page: PageSize)
      requires Valid() && id in spaces && spaces[id].table == Without(t, start, address)
      requires TableOk(t) && start <= address && address + Bytes(page) <= end && Aligned(address, page)
      requires AllRemovable(t, start, end, kind, page)
      modifies this
      ensures Valid() && handles == old(handles) && counts.Keys == old(counts).Keys
      ensures spaces == SetTable(old(spaces), id, Without(t, start, address + Bytes(page)))
    {
      PageStep(t, start, address, end, kind, page);
      if Query(spaces[id].table, address).Some? {
        RemoveLeaf(id, address);
      }
    }

    method ClearRange(id: nat, start: nat, end: nat, ghost kind: Kind, page: PageSize)
      requires Valid() && id in spaces && start < end && Aligned(start, page) && Aligned(end, page)
      requires AllRemovable(spaces[id].table, start, end, kind, page)
      modifies this
      ensures Valid() && handles == old(handles) && counts.Keys == old(counts).Keys
      ensures spaces == SetTable(old(spaces), id, Without(old(spaces)[id].table, start, end))
    {
      ghost var was, t := spaces, spaces[id].table;
      var address := start;
      WithoutNone(was, id, start);
      assert SpaceOk(spaces[id], counts);
      while address < end
        invariant start <= address <= end && Aligned(address, page) && Valid()
        invariant handles == old(handles) && counts.Keys == old(counts).Keys
        invariant spaces == SetTable(was, id, Without(t, start, address))
        decreases end - address
      {
        NextPage(address, end, page);
        ClearPage(id, t, start, address, end, kind, page);
        SetTwice(was, id, Without(t, start, address), Without(t, start, address + Bytes(page)));
        address := address + Bytes(page);
      }
    }

    /** `map_static_range`: all pages or none; no reference count moves. */
    method MapStaticRange(id: nat, start: nat, frames: StaticRange, flags: Flags, page: PageSize,
                          faults: map<nat, PagingError>)
      returns (r: Result<Unit>)
      requires Valid() && id in spaces
      modifies this
      ensures Valid() && counts == old(counts) && free == old(free) && handles == old(handles)
      ensures r.Err? ==> spaces == old(spaces)
      ensures r.Ok? <==>
                && StaticInput(old(spaces)[id], start, frames, flags, page) && PteFlags(Static, flags, riscv).Ok?
                && Clear(old(spaces)[id].table, start, start + frames.size)
                && NoFault(start, start + frames.size, page, faults)
      ensures r.Ok? ==> Becomes(old(spaces), spaces, id,
                WithPages(old(spaces)[id].table, start, start + frames.size, frames.start,
                    PteFlags(Static, flags, riscv).value, page))
    {
      if !StaticInput(spaces[id], start, frames, flags, page) { return Err(InvalidInput); }
      var end := start + frames.size;
      AlignedSum(start, frames.size, page);
      assert SpaceOk(spaces[id], counts);
      var clear := AllUnmapped(spaces[id].table, start, end, page);
      if !clear { return Err(AlreadyExists); }
      var stored := PteFlags(Static, flags, riscv);
      if stored.Err? { return Err(stored.error); }
      r := InstallPages(id, start, end, frames.start, stored.value, page, faults);
    }

    method InstallPages(id: nat, start: nat, end: nat, phys: nat, flags: Flags, page: PageSize,
                        faults: map<nat, PagingError>)
      returns (r: Result<Unit>)
      requires Valid() && id in spaces && start < end < USIZE_END && Aligned(start, page) && Aligned(end, page)
      requires KindOf(flags) == Static
      modifies this
      ensures Valid() && counts == old(counts) && free == old(free) && handles == old(handles)
      ensures r.Err? ==> spaces == old(spaces)
      ensures r.Ok? <==> Clear(old(spaces)[id].table, start, end) && NoFault(start, end, page, faults)
      ensures r.Ok? ==> Becomes(old(spaces), spaces, id, WithPages(old(spaces)[id].table, start, end, phys, flags,
              page))
    {
      ghost var was, t := spaces, spaces[id].table;
      var address := start;
      while address < end
        invariant start <= address <= end && OnPage(address, start, page) && Valid()
        invariant counts == old(counts) && free == old(free) && handles == old(handles)
        invariant Clear(t, start, address) && NoFault(start, address, page, faults)
        invariant Becomes(was, spaces, id, WithPages(t, start, address, phys, flags, page))
        decreases end - address
      {
        ghost var mid := spaces;
        var next := address + Bytes(page);
        var e := InstallPage(id, t, start, address, next, end, phys, flags, page, faults);
        if e.Some? {
          RollBack(id, t, start, address, phys, flags, page);
          BecomesAgain(was, mid, spaces, id, t);
          return Err(PagingFault(e.value));
        }
        BecomesAgain(was, mid, spaces, id, WithPages(t, start, next, phys, flags, page));
        address := next;
      }
      return Ok(Unit);
    }

    method InstallPage(id: nat, ghost t: Table, start: nat, address: nat, ghost next: nat, ghost end: nat, phys: nat,
                       flags: Flags, page: PageSize, faults: map<nat, PagingError>) returns (e: Option<PagingError>)
      requires next == address + Bytes(page)
      requires Valid() && id in spaces && start <= address < end < USIZE_END && Aligned(start, page)
               && Aligned(end, page)
      requires OnPage(address, start, page) && Clear(t, start, address) && NoFault(start, address, page, faults)
      requires spaces[id].table == WithPages(t, start, address, phys, flags, page) && KindOf(flags) == Static
      modifies this
      ensures Valid() && counts == old(counts) && free == old(free) && handles == old(handles)
      ensures e.Some? ==> spaces == old(spaces) && !(Clear(t, start, end) && NoFault(start, end, page, faults))
      ensures e == None ==>
                && next <= end && OnPage(next, start, page)
                && Clear(t, start, next) && NoFault(start, next, page, faults)
                && Becomes(old(spaces), spaces, id, WithPages(t, start, next, phys, flags, page))
    {
      var fault := if address in faults then Some(faults[address]) else None;
      InstallDecides(t, start, address, next, end, phys, flags, page, faults, spaces[id].table, fault);
      e := MapError(spaces[id].table, address, page, fault);
      if e == None {
        OneMorePage(t, start, address, next, phys, flags, page);
        InstallStatic(id, address, Leaf(phys + (address - start), flags, page));
      }
    }

    method InstallStatic(id: nat, a: nat, leaf: Leaf)
      requires Valid() && id in spaces && KindOf(leaf.flags) == Static
      requires Aligned(a, leaf.size) && a + Bytes(leaf.size) <= USIZE_END
      requires Overlapping(spaces[id].table, a, a + Bytes(leaf.size)) == {}
      modifies this
      ensures Valid() && counts == old(counts) && free == old(free) && handles == old(handles)
      ensures spaces == SetTable(old(spaces), id, old(spaces)[id].table[a := leaf])
    {
      LeafInstalled(counts, free, pool - free, handles, spaces, id, a, leaf);
      assert handles - Moves(leaf) == handles;
      spaces := SetTable(spaces, id, spaces[id].table[a := leaf]);
    }

    /** The undo loop: every page installed so far is there and is removed. */
    method RollBack(id: nat, ghost t: Table, start: nat, end: nat, ghost phys: nat, ghost flags: Flags, page: PageSize)
      requires Valid() && id in spaces && start <= end && Aligned(start, page) && OnPage(end, start, page)
      requires spaces[id].table == WithPages(t, start, end, phys, flags, page) && Clear(t, start, end)
      requires KindOf(flags) == Static
      modifies this
      ensures Valid() && counts == old(counts) && free == old(free) && handles == old(handles)
      ensures Becomes(old(spaces), spaces, id, t)
    {
      ghost var was, u := spaces, spaces[id].table;
      assert SpaceOk(spaces[id], counts);
      if start == end { return; }
      PagesRemovable(t, start, end, phys, flags, page);
      WithoutNone(was, id, start);
      AlignedSum(end - start, start, page);
      RollBackPages(id, t, u, start, end, phys, flags, page);
    }

    method RollBackPages(id: nat, ghost t: Table, ghost u: Table, start: nat, end: nat, ghost phys: nat,
                         ghost flags: Flags, page: PageSize)
      requires Valid() && id in spaces && start <= end && spaces[id].table == u
      requires Installed(t, u, start, end, phys, flags, page) && Becomes(spaces, spaces, id, Without(u, start, start))
      modifies this
      ensures Valid() && counts == old(counts) && free == old(free) && handles == old(handles)
      ensures Becomes(old(spaces), spaces, id, Without(u, start, end))
    {
      ghost var was := spaces;
      var a := start;
      while a < end
        invariant start <= a <= end && OnPage(a, start, page) && Valid()
        invariant counts == old(counts) && free == old(free) && handles == old(handles)
        invariant Becomes(was, spaces, id, Without(u, start, a))
        decreases end - a
      {
        ghost var mid := spaces;
        var next := a + Bytes(page);
        RollBackPage(id, t, u, start, a, next, end, phys, flags, page);
        BecomesAgain(was, mid, spaces, id, Without(u, start, next));
        a := next;
      }
    }

    method RollBackPage(id: nat, ghost t: Table, ghost u: Table, ghost start: nat, a: nat, ghost next: nat,
                        ghost end: nat, ghost phys: nat, ghost flags: Flags, ghost page: PageSize)
      requires Valid() && id in spaces && spaces[id].table == Without(u, start, a) && next == a + Bytes(page)
      requires start <= a < end && OnPage(a, start, page) && Installed(t, u, start, end, phys, flags, page)
      modifies this
      ensures Valid() && counts == old(counts) && free == old(free) && handles == old(handles)
      ensures next <= end && OnPage(next, start, page)
      ensures Becomes(old(spaces), spaces, id, Without(u, start, next))
    {
      PageBack(t, u, start, a, next, end, phys, flags, page);
      RemoveLeaf(id, a);
    }

    /** `new_empty`; `root` tells whether a root page table could be allocated. */
    method NewSpace(id: nat, base: nat, size: nat, root: bool) returns (r: Result<Unit>)
      requires Valid() && id !in spaces
      modifies this
      ensures Valid() && counts == old(counts) && free == old(free) && handles == old(handles)
      ensures r.Ok? <==> base + size < USIZE_END && root
      ensures spaces == if r.Ok? then old(spaces)[id := Space(base, base + size, map[])] else old(spaces)
    {
      if base + size >= USIZE_END { return Err(InvalidInput); }
      if !root { return Err(OutOfMemory); }
      SpaceAdded(counts, free, pool - free, handles, spaces, id, Space(base, base + size, map[]));
      spaces := spaces[id := Space(base, base + size, map[])];
      return Ok(Unit);
    }

    /** `AddressSpace::drop`: its check of its own range is enough for no reference to be lost. */
    method DropSpace(id: nat)
      requires Valid() && id in spaces
      requires forall a | a in Overlapping(spaces[id].table, spaces[id].lo, spaces[id].hi) ::
               KindOf(spaces[id].table[a].flags) == Static
      modifies this
      ensures Valid() && counts == old(counts) && free == old(free) && handles == old(handles)
      ensures spaces == old(spaces) - {id}
    {
      SpaceDropped(counts, free, pool - free, handles, spaces, id);
      spaces := spaces - {id};
    }

    /** `frame_if_shared`: None exactly when the leaf is the frame's only owner. */
    method FrameIfShared(id: nat, x: nat) returns (r: Result<Option<nat>>)
      requires Valid() && id in spaces
      modifies this
      ensures Valid() && spaces == old(spaces) && free == old(free)
      ensures r.Err? || r == Ok(None) ==> counts == old(counts) && handles == old(handles)
      ensures r.Ok? && r.value.Some? ==> handles == old(handles) + multiset{r.value.value}
      ensures var t, a := old(spaces)[id].table, Query(old(spaces)[id].table, x);
              && (a.Some? && a.value in t && KindOf(t[a.value].flags) == Alloc ==>
                   var p := t[a.value].phys;
                   && (r == Ok(None) <==> p !in old(handles) && Owners(old(spaces), p) == {(id, a.value)})
                   && (r.Ok? && r.value.Some? ==> r.value.value == p)
                   && (r.Err? ==> r == Err(BadState) && p in old(counts) && old(counts)[p] == U32_MAX))
              && (!(a.Some? && a.value in t && KindOf(t[a.value].flags) == Alloc) ==> r.Err?)
    {
      var t := spaces[id].table;
      var found := Query(t, x);
      if found == None { return Err(BadAddress); }
      assert SpaceOk(spaces[id], counts);
      QueryFinds(t, x, found.value);
      var a := found.value;
      if KindOf(t[a].flags) != Alloc || t[a].size != Size4K {
        assert AllocLeafOk(spaces[id], counts, a);
        return Err(BadState);
      }
      var p := t[a].phys;
      SoleOwner(counts, free, pool - free, handles, spaces, id, a);
      if counts[p] == 1 { return Ok(None); }
      var frame := CloneFromPte(p);
      match frame
      case Err(e) => return Err(e);
      case Ok(f) => return Ok(Some(f));
    }

    /** `mapped_frames`: a snapshot of the Alloc leaves met, with one new handle each. On an error the
        handles taken so far are given back, and nothing has changed. */
    method MappedFrames(id: nat, lo: nat, hi: nat) returns (r: Result<seq<Mapped>>)
      requires Valid() && id in spaces && lo <= hi
      modifies this
      ensures Valid() && spaces == old(spaces) && free == old(free)
      ensures r.Err? ==> counts == old(counts) && handles == old(handles)
      ensures r.Ok? <==> lo == hi || Cloneable(spaces[id].table, lo, hi, old(counts))
      ensures r.Ok? ==> handles == old(handles) + Bag(r.value)
      ensures r.Ok? ==> Snapshot(spaces[id].table, if lo < hi then Walk(Overlapping(spaces[id].table, lo, hi))
              else [], r.value)
    {
      if lo == hi { return Ok([]); }
      ghost var counts0 := counts;
      var walk := Walk(Overlapping(spaces[id].table, lo, hi));
      WalkInTable(spaces[id].table, lo, hi, walk);
      var list, fault := CloneLeaves(id, walk);
      if fault.Some? {
        OneRefused(counts0, old(handles), counts, handles, spaces, id, lo, hi, walk, list);
        GiveBack(id, walk[..|list|], list);
        assert old(handles) + Bag(list) - Bag(list) == old(handles);
        CountsDetermined(counts0, counts, handles, spaces);
        return Err(fault.value);
      }
      assert walk[..|list|] == walk;
      AllCloned(counts0, old(handles), counts, free, pool - free, handles, spaces, id, lo, hi, walk, list);
      return Ok(list);
    }

    /** The visitor of `mapped_frames`: after the first error it does nothing. */
    method CloneLeaves(id: nat, walk: seq<nat>) returns (list: seq<Mapped>, fault: Option<Error>)
      requires Valid() && id in spaces && forall k | 0 <= k < |walk| :: walk[k] in spaces[id].table
      modifies this
      ensures Valid() && spaces == old(spaces) && free == old(free) && counts.Keys == old(counts).Keys
      ensures handles == old(handles) + Bag(list)
      ensures |list| <= |walk| && Snapshot(spaces[id].table, walk[..|list|], list)
      ensures fault == None <==> |list| == |walk|
      ensures fault.Some? ==> Refused(spaces[id].table, walk[|list|], counts)
    {
      list, fault := [], None;
      for i := 0 to |walk|
        invariant Valid() && spaces == old(spaces) && free == old(free) && counts.Keys == old(counts).Keys
        invariant handles == old(handles) + Bag(list)
        invariant |list| <= i && (fault == None <==> |list| == i)
        invariant fault.Some? ==> Refused(spaces[id].table, walk[|list|], counts)
        invariant Snapshot(spaces[id].table, walk[..|list|], list)
      {
        if fault == None {
          var m := CloneLeaf(id, walk[i]);
          match m
          case Err(e) => fault := Some(e);
          case Ok(v) =>
            BagAppend(list, v);
            SnapshotMore(spaces[id].table, walk, list, v);
            list := list + [v];
        }
      }
    }

    method CloneLeaf(id: nat, a: nat) returns (r: Result<Mapped>)
      requires Valid() && id in spaces && a in spaces[id].table
      modifies this
      ensures Valid() && spaces == old(spaces) && free == old(free) && counts.Keys == old(counts).Keys
      ensures r.Err? <==> Refused(spaces[id].table, a, old(counts))
      ensures r.Err? ==> handles == old(handles) && counts == old(counts)
      ensures r.Ok? ==> handles == old(handles) + multiset{r.value.frame} && SnapshotOf(spaces[id].table, a, r.value)
    {
      CountedLeaf(counts, free, pool - free, handles, spaces, id, a);
      var leaf := spaces[id].table[a];
      if KindOf(leaf.flags) != Alloc || leaf.size != Size4K { return Err(BadState); }
      var frame := CloneFromPte(leaf.phys);
      if frame.Err? { return Err(frame.error); }
      return Ok(Mapped(a, frame.value, leaf.flags - {AllocFrame, ProtNone}));
    }

    /** Dropping the collected handles: the leaves still own their frames, so none is freed. */
    method GiveBack(id: nat, ghost walk: seq<nat>, list: seq<Mapped>)
      requires Valid() && id in spaces && Snapshot(spaces[id].table, walk, list) && Bag(list) <= handles
      modifies this
      ensures Valid() && spaces == old(spaces) && free == old(free) && counts.Keys == old(counts).Keys
      ensures handles == old(handles) - Bag(list)
    {
      ghost var kept := handles - Bag(list);
      assert kept + Bag(list) == handles;
      for i := 0 to |list|
        invariant Valid() && spaces == old(spaces) && free == old(free) && counts.Keys == old(counts).Keys
        invariant handles == kept + Bag(list[i..])
      {
        BagStep(kept, list, i);
        assert SnapshotOf(spaces[id].table, walk[i], list[i]);
        DropMapped(id, walk[i], list[i].frame);
      }
    }

    method DropMapped(id: nat, ghost a: nat, p: nat)
      requires Valid() && id in spaces && a in spaces[id].table && OwnsFrame(spaces[id].table[a], p) && p in handles
      modifies this
      ensures Valid() && spaces == old(spaces) && free == old(free) && counts.Keys == old(counts).Keys
      ensures handles == old(handles) - multiset{p}
    {
      HandleAndLeaf(counts, free, pool - free, handles, spaces, id, a);
      Drop(p);
    }
  }

  lemma BecomesAgain(was: Spaces, mid: Spaces, now: Spaces, id: nat, t: Table)
    requires id in was && id in mid && SameSpaces(was, mid, id) && Becomes(mid, now, id, t)
    ensures Becomes(was, now, id, t) && now[id].lo == was[id].lo && now[id].hi == was[id].hi
  {
  }

  lemma SetTwice(spaces: Spaces, id: nat, t: Table, u: Table)
    requires id in spaces
    ensures SetTable(SetTable(spaces, id, t), id, u) == SetTable(spaces, id, u)
  {
  }

  /** The leaf a query finds meets the page that starts there. */
  lemma QueryMeets(t: Table, a: nat, size: PageSize)
    requires TableOk(t)
    ensures Query(t, a).Some? ==> Overlapping(t, a, a + Bytes(size)) != {}
  {
    if Query(t, a).Some? {
      QueryFinds(t, a, Query(t, a).value);
      assert Query(t, a).value in Overlapping(t, a, a + Bytes(size));
    }
  }

  lemma RoomAgain(t: Table, a: nat)
    requires TableOk(t) && a in t
    ensures Overlapping(Remove(t, a), a, End(t, a)) == {}
  {
    forall b | b in Remove(t, a) ensures b !in Overlapping(Remove(t, a), a, End(t, a)) {
      assert Apart(t, a, b) && Apart(t, b, a);
    }
  }

  /** remap of an Alloc leaf: one reference goes in, one comes out. */
  lemma LeafSwapped(counts: map<nat, nat>, free: set<nat>, loaned: set<nat>, handles: multiset<nat>, spaces: Spaces,
                    id: nat, a: nat, leaf: Leaf)
    requires Owned(counts, free, loaned, handles, spaces) && id in spaces && a in spaces[id].table
    requires KindOf(leaf.flags) == KindOf(spaces[id].table[a].flags) == Alloc && leaf.phys in handles
    requires leaf.size == spaces[id].table[a].size
    ensures Owned(counts, free, loaned, handles - multiset{leaf.phys} + multiset{spaces[id].table[a].phys},
                  SetTable(spaces, id, spaces[id].table[a := leaf]))
  {
    var t := spaces[id].table;
    var old_ := t[a];
    assert SpaceOk(spaces[id], counts) && AllocLeafOk(spaces[id], counts, a);
    LeafTaken(counts, free, loaned, handles, spaces, id, a);
    var spaces1 := SetTable(spaces, id, Remove(t, a));
    RoomAgain(t, a);
    assert Placed(t, a);
    LeafInstalled(counts, free, loaned, handles + multiset{old_.phys}, spaces1, id, a, leaf);
    assert Remove(t, a)[a := leaf] == t[a := leaf];
    assert SetTable(spaces1, id, t[a := leaf]) == SetTable(spaces, id, t[a := leaf]);
    assert handles + multiset{old_.phys} - multiset{leaf.phys} == handles - multiset{leaf.phys} + multiset{old_.phys};
  }

  // ---- Range operations ----

  /** What `preflight_range` objects to in one leaf. */
  function LeafError(t: Table, a: nat, start: nat, end: nat, kind: Kind, page: PageSize,
                     counts: map<nat, nat>): Option<Error>
    requires a in t
  {
    if End(t, a) >= USIZE_END || a < start || End(t, a) > end then Some(InvalidInput)
    else if KindOf(t[a].flags) != kind || t[a].size != page then Some(BadState)
    else if kind == Alloc && t[a].phys !in counts then Some(BadAddress)
    else if kind == Alloc && counts[t[a].phys] == 0 then Some(BadState)
    else None
  }

  /** All leaves met pass, and are counted; or the error is that of the highest one that does not. */
  ghost predicate Verdict(t: Table, start: nat, end: nat, kind: Kind, page: PageSize, counts: map<nat, nat>,
                          r: Result<nat>) {
    var met := Overlapping(t, start, end);
    match r
    case Ok(n) => n == |met| && forall a | a in met :: LeafError(t, a, start, end, kind, page, counts) == None
    case Err(e) =>
      exists a | a in met ::
        && LeafError(t, a, start, end, kind, page, counts) == Some(e)
        && forall b | b in met && a < b :: LeafError(t, b, start, end, kind, page, counts) == None
  }

  lemma WalkInTable(t: Table, start: nat, end: nat, walk: seq<nat>)
    requires walk == Walk(Overlapping(t, start, end))
    ensures forall k | 0 <= k < |walk| :: walk[k] in t
  {
    forall k | 0 <= k < |walk| ensures walk[k] in t { assert walk[k] in walk; }
  }

  /** Nothing wrong after position `from` of the walk, so nothing wrong in the leaves up there. */
  lemma RestPasses(t: Table, start: nat, end: nat, kind: Kind, page: PageSize, counts: map<nat, nat>, walk: seq<nat>,
                   from: nat, b: nat)
    requires walk == Walk(Overlapping(t, start, end)) && forall k | 0 <= k < |walk| :: walk[k] in t
    requires forall k | from <= k < |walk| :: LeafError(t, walk[k], start, end, kind, page, counts) == None
    requires b in Overlapping(t, start, end) && from <= |walk| && (0 < from ==> walk[from - 1] < b)
    ensures LeafError(t, b, start, end, kind, page, counts) == None
  {
    assert b in walk;
    var k :| 0 <= k < |walk| && walk[k] == b;
  }

  lemma VerdictOfWalk(t: Table, start: nat, end: nat, kind: Kind, page: PageSize, counts: map<nat, nat>, walk: seq<nat>,
                      at: nat, from: nat, r: Result<nat>)
    requires walk == Walk(Overlapping(t, start, end)) && forall k | 0 <= k < |walk| :: walk[k] in t
    requires r.Ok? ==> r.value == |walk| && from == 0
    requires r.Err? ==>
               at < from == at + 1 <= |walk| && LeafError(t, walk[at], start, end, kind, page, counts) == Some(r.error)
    requires forall k | from <= k < |walk| :: LeafError(t, walk[k], start, end, kind, page, counts) == None
    ensures Verdict(t, start, end, kind, page, counts, r)
  {
    forall b | b in Overlapping(t, start, end) && (r.Ok? || walk[at] < b)
      ensures LeafError(t, b, start, end, kind, page, counts) == None
    {
      RestPasses(t, start, end, kind, page, counts, walk, from, b);
    }
    if r.Err? { assert walk[at] in walk; }
  }

  predicate RemovableLeaf(t: Table, a: nat, start: nat, end: nat, kind: Kind, page: PageSize)
    requires a in t
  {
    start <= a && End(t, a) <= end && KindOf(t[a].flags) == kind && t[a].size == page
  }

  predicate AllRemovable(t: Table, start: nat, end: nat, kind: Kind, page: PageSize) {
    forall a | a in Overlapping(t, start, end) :: RemovableLeaf(t, a, start, end, kind, page)
  }

  /** While the counts are right, validation of the frame metadata never fails. */
  lemma RemovableExactly(counts: map<nat, nat>, free: set<nat>, loaned: set<nat>, handles: multiset<nat>,
                         spaces: Spaces,
                         id: nat, start: nat, end: nat, kind: Kind, page: PageSize)
    requires Owned(counts, free, loaned, handles, spaces) && id in spaces && end < USIZE_END
    ensures AllRemovable(spaces[id].table, start, end, kind, page) <==>
              forall a | a in Overlapping(spaces[id].table, start, end) ::
                LeafError(spaces[id].table, a, start, end, kind, page, counts) == None
  {
    forall a | a in spaces[id].table && KindOf(spaces[id].table[a].flags) == Alloc
      ensures spaces[id].table[a].phys in counts && counts[spaces[id].table[a].phys] > 0
    {
      LeafCounted(counts, free, loaned, handles, spaces, id, a);
    }
  }

  lemma WithoutNone(spaces: Spaces, id: nat, start: nat)
    requires id in spaces
    ensures spaces == SetTable(spaces, id, Without(spaces[id].table, start, start))
  {
    assert Without(spaces[id].table, start, start) == spaces[id].table;
  }

  /** In a range whose leaves are all of the page's size, a page holds no leaf but its own. */
  lemma OwnLeafOnly(t: Table, start: nat, address: nat, end: nat, kind: Kind, page: PageSize, a: nat)
    requires TableOk(t) && start <= address && address + Bytes(page) <= end && Aligned(address, page)
    requires AllRemovable(t, start, end, kind, page) && a in t
    requires a < address + Bytes(page) && address < End(t, a)
    ensures a == address && KindOf(t[a].flags) == kind && t[a].size == page
  {
    assert a in Overlapping(t, start, end) && RemovableLeaf(t, a, start, end, kind, page) && Placed(t, a);
    if a < address {
      AlignedDifference(address, a, page);
    } else {
      AlignedDifference(a, address, page);
    }
  }

  lemma PageStep(t: Table, start: nat, address: nat, end: nat, kind: Kind, page: PageSize)
    requires TableOk(t) && start <= address && address + Bytes(page) <= end && Aligned(address, page)
    requires AllRemovable(t, start, end, kind, page)
    ensures Without(t, start, address + Bytes(page))
            == if address in t then Remove(Without(t, start, address), address) else Without(t, start, address)
    ensures address in t <==> Query(Without(t, start, address), address) == Some(address)
    ensures Query(Without(t, start, address), address).Some? ==> address in t
    ensures address in t ==> KindOf(t[address].flags) == kind && t[address].size == page
  {
    WithoutOk(t, start, address);
    forall a | a in t && address <= a < address + Bytes(page) ensures a == address {
      OwnLeafOnly(t, start, address, end, kind, page, a);
    }
    if address in t { OwnLeafOnly(t, start, address, end, kind, page, address); }
    QueryFinds(Without(t, start, address), address, address);
    var found := Query(Without(t, start, address), address);
    if found.Some? {
      QueryFinds(Without(t, start, address), address, found.value);
      OwnLeafOnly(t, start, address, end, kind, page, found.value);
    }
  }

  lemma WithoutOk(t: Table, lo: nat, hi: nat)
    requires TableOk(t)
    ensures TableOk(Without(t, lo, hi))
  {
    SubtableOk(t, Without(t, lo, hi));
  }

  lemma NextPage(x: nat, end: nat, page: PageSize)
    requires Aligned(x, page) && Aligned(end, page) && x < end
    ensures x + Bytes(page) <= end && Aligned(x + Bytes(page), page)
  {
    AlignedSum(x, Bytes(page), page);
    AlignedDifference(end, x, page);
  }

  /** The leaves of a table in [lo, hi) that own a reference to frame p. */
  function Leaving(t: Table, lo: nat, hi: nat, p: nat): set<nat> {
    set a | a in t && lo <= a < hi && OwnsFrame(t[a], p)
  }

  lemma OwnersWithout(spaces: Spaces, id: nat, lo: nat, hi: nat, p: nat)
    requires id in spaces
    ensures |Owners(SetTable(spaces, id, Without(spaces[id].table, lo, hi)), p)|
            == |Owners(spaces, p)| - |Leaving(spaces[id].table, lo, hi, p)|
  {
    var t := spaces[id].table;
    var o, o' := Owners(spaces, p), Owners(SetTable(spaces, id, Without(t, lo, hi)), p);
    var gone := Tag(id, Leaving(t, lo, hi, p));
    Tagged(id, Leaving(t, lo, hi, p));
    forall i: nat, b: nat ensures (i, b) in o <==> (i, b) in o' || (i, b) in gone {
      InOwners(spaces, p, i, b);
      InOwners(SetTable(spaces, id, Without(t, lo, hi)), p, i, b);
    }
    forall b: nat ensures !((id, b) in o' && (id, b) in gone) {
      InOwners(SetTable(spaces, id, Without(t, lo, hi)), p, id, b);
    }
    assert o == o' + gone && o' !! gone;
  }

  function Tag(id: nat, s: set<nat>): set<(nat, nat)> {
    set a | a in s :: (id, a)
  }

  lemma {:induction false} Tagged(id: nat, s: set<nat>)
    ensures |Tag(id, s)| == |s|
  {
    if s != {} {
      var x :| x in s;
      Tagged(id, s - {x});
      assert Tag(id, s) == Tag(id, s - {x}) + {(id, x)};
    }
  }

  lemma ReferencesDropped(counts0: map<nat, nat>, counts: map<nat, nat>, handles: multiset<nat>, was: Spaces,
                          now: Spaces,
                          id: nat, lo: nat, hi: nat)
    requires Counted(counts0, handles, was) && Counted(counts, handles, now) && counts.Keys == counts0.Keys
    requires id in was && now == SetTable(was, id, Without(was[id].table, lo, hi))
    ensures forall p | p in counts :: counts[p] == counts0[p] - |Leaving(was[id].table, lo, hi, p)|
  {
    forall p | p in counts ensures counts[p] == counts0[p] - |Leaving(was[id].table, lo, hi, p)| {
      assert CountOk(counts0, handles, was, p) && CountOk(counts, handles, now, p);
      OwnersWithout(was, id, lo, hi, p);
    }
  }

  // ---- Static ranges ----

  datatype StaticRange = StaticRange(start: nat, size: nat, allowed: Flags)

  predicate Allows(frames: StaticRange, flags: Flags) {
    flags - {User, AllocFrame, ProtNone} <= frames.allowed
  }

  predicate StaticInput(s: Space, start: nat, frames: StaticRange, flags: Flags, page: PageSize) {
    ValidRange(s, start, frames.size, page) && Aligned(frames.start, page) && Allows(frames, flags)
  }

  /** No leaf meets the range. */
  predicate Clear(t: Table, lo: nat, hi: nat) { lo == hi || Overlapping(t, lo, hi) == {} }

  /** The page table can take every page of the range. */
  predicate NoFault(lo: nat, hi: nat, page: PageSize, faults: map<nat, PagingError>) {
    hi < lo + Bytes(page) || (hi - Bytes(page) !in faults && NoFault(lo, hi - Bytes(page), page, faults))
  }

  lemma {:induction false} NoFaultBefore(lo: nat, mid: nat, hi: nat, page: PageSize, faults: map<nat, PagingError>)
    requires NoFault(lo, hi, page, faults) && mid <= hi && OnPage(mid, lo, page) && OnPage(hi, lo, page)
    ensures NoFault(lo, mid, page, faults)
  {
    if mid < hi {
      NextPage(mid - lo, hi - lo, page);
      NoFaultBefore(lo, mid, hi - Bytes(page), page, faults);
    }
  }

  predicate Unmapped(t: Table, lo: nat, hi: nat, page: PageSize) {
    forall a | a in Pages(lo, hi, page) :: Query(t, a) == None
  }

  method AllUnmapped(t: Table, start: nat, end: nat, page: PageSize) returns (clear: bool)
    requires TableOk(t) && start < end && Aligned(start, page) && Aligned(end, page)
    ensures clear <==> Unmapped(t, start, end, page)
    ensures !clear ==> !Clear(t, start, end)
  {
    var address := start;
    while address < end
      invariant start <= address <= end && Aligned(address, page) && OnPage(address, start, page)
      invariant Unmapped(t, start, address, page)
      decreases end - address
    {
      NextPage(address, end, page);
      PagesExtend(start, address, page);
      if Query(t, address).Some? {
        QueryFinds(t, address, Query(t, address).value);
        assert Query(t, address).value in Overlapping(t, start, end);
        assert address in Pages(start, end, page);
        return false;
      }
      address := address + Bytes(page);
    }
    return true;
  }

  /** Whether the next page can be installed depends only on the leaves that were there before. */
  lemma InstalledApart(t: Table, start: nat, address: nat, phys: nat, flags: Flags, page: PageSize)
    requires OnPage(address, start, page) && Clear(t, start, address)
    ensures Overlapping(WithPages(t, start, address, phys, flags, page), address, address + Bytes(page))
            == Overlapping(t, address, address + Bytes(page))
  {
    var u := WithPages(t, start, address, phys, flags, page);
    var met, before := Overlapping(u, address, address + Bytes(page)), Overlapping(t, address, address + Bytes(page));
    forall a: nat ensures a in met <==> a in before {
      WithPagesExactly(t, start, address, phys, flags, page, a);
      if a < address && OnPage(a, start, page) {
        NextPage(a - start, address - start, page);
        assert a !in Overlapping(t, start, address);
      }
    }
  }

  lemma ClearExtends(t: Table, start: nat, address: nat, end: nat, page: PageSize)
    requires start <= address && address + Bytes(page) <= end && Clear(t, start, address)
    ensures Clear(t, start, address + Bytes(page)) <==> Overlapping(t, address, address + Bytes(page)) == {}
    ensures Clear(t, start, end) ==> Overlapping(t, address, address + Bytes(page)) == {}
  {
    var met := Overlapping(t, start, address + Bytes(page));
    assert Overlapping(t, address, address + Bytes(page)) <= met <= Overlapping(t, start, end);
    if start < address {
      assert met <= Overlapping(t, address, address + Bytes(page)) + Overlapping(t, start, address);
    }
  }

  lemma OneMorePage(t: Table, start: nat, address: nat, next: nat, phys: nat, flags: Flags, page: PageSize)
    requires start <= address && next == address + Bytes(page)
    ensures WithPages(t, start, next, phys, flags, page)
            == WithPages(t, start, address, phys, flags, page)[address := Leaf(phys + (address - start), flags, page)]
  {
  }

  /** What decides the next page: room for it, and no failure of the page table. */
  lemma NextInstall(t: Table, start: nat, address: nat, next: nat, end: nat, phys: nat, flags: Flags, page: PageSize,
                    faults: map<nat, PagingError>, u: Table)
    requires start <= address < end && Aligned(start, page) && Aligned(end, page) && OnPage(address, start, page)
    requires next == address + Bytes(page) && Clear(t, start, address) && NoFault(start, address, page, faults)
    requires u == WithPages(t, start, address, phys, flags, page)
    ensures Aligned(address, page) && next <= end && OnPage(next, start, page)
    ensures Overlapping(u, address, next) == {} <==> Clear(t, start, next)
    ensures Clear(t, start, end) ==> Clear(t, start, next)
    ensures NoFault(start, end, page, faults) ==> address !in faults
    ensures address !in faults ==> NoFault(start, next, page, faults)
  {
    AlignedSum(address - start, start, page);
    NextPage(address, end, page);
    InstalledApart(t, start, address, phys, flags, page);
    ClearExtends(t, start, address, end, page);
    AlignedSum(address - start, Bytes(page), page);
    if NoFault(start, end, page, faults) {
      AlignedDifference(end, start, page);
      NoFaultBefore(start, next, end, page, faults);
    }
  }

  lemma MapErrorNone(t: Table, a: nat, next: nat, size: PageSize, fault: Option<PagingError>)
    requires next == a + Bytes(size)
    ensures MapError(t, a, size, fault) == None <==> Overlapping(t, a, next) == {} && fault == None
  {
  }

  lemma InstallDecides(t: Table, start: nat, address: nat, next: nat, end: nat, phys: nat, flags: Flags, page: PageSize,
                       faults: map<nat, PagingError>, u: Table, fault: Option<PagingError>)
    requires start <= address < end && Aligned(start, page) && Aligned(end, page) && OnPage(address, start, page)
    requires next == address + Bytes(page) && Clear(t, start, address) && NoFault(start, address, page, faults)
    requires u == WithPages(t, start, address, phys, flags, page) && (fault == None <==> address !in faults)
    ensures Aligned(address, page) && next <= end && OnPage(next, start, page)
    ensures var e := MapError(u, address, page, fault);
            && (e == None ==> Overlapping(u, address, next) == {} && Clear(t, start, next))
            && (e == None ==> NoFault(start, next, page, faults))
            && (e.Some? ==> !(Clear(t, start, end) && NoFault(start, end, page, faults)))
  {
    NextInstall(t, start, address, next, end, phys, flags, page, faults, u);
    MapErrorNone(u, address, next, page, fault);
  }

  /** What the undo loop meets in the range are exactly the pages just installed; without them the
      table is what it was. */
  /** u is t with the pages of the range installed, all of them removable again. */
  ghost predicate Installed(t: Table, u: Table, start: nat, end: nat, phys: nat, flags: Flags, page: PageSize) {
    && TableOk(u) && Aligned(start, page) && Aligned(end, page)
    && u == WithPages(t, start, end, phys, flags, page) && AllRemovable(u, start, end, Static, page)
  }

  lemma PageBack(t: Table, u: Table, start: nat, a: nat, next: nat, end: nat, phys: nat, flags: Flags, page: PageSize)
    requires start <= a < end && OnPage(a, start, page) && Installed(t, u, start, end, phys, flags, page)
    requires next == a + Bytes(page)
    ensures next <= end && OnPage(next, start, page) && a in u && KindOf(u[a].flags) == Static
    ensures a in Without(u, start, a) && Without(u, start, next) == Remove(Without(u, start, a), a)
  {
    AlignedSum(a - start, start, page);
    NextPage(a, end, page);
    AlignedSum(a - start, Bytes(page), page);
    AlignedDifference(end, start, page);
    WithPagesExactly(t, start, end, phys, flags, page, a);
    PageStep(u, start, a, end, Static, page);
  }

  lemma PagesRemovable(t: Table, start: nat, end: nat, phys: nat, flags: Flags, page: PageSize)
    requires start < end && OnPage(end, start, page) && Clear(t, start, end) && KindOf(flags) == Static
    ensures AllRemovable(WithPages(t, start, end, phys, flags, page), start, end, Static, page)
    ensures Without(WithPages(t, start, end, phys, flags, page), start, end) == t
  {
    var u := WithPages(t, start, end, phys, flags, page);
    forall a | a in Overlapping(u, start, end) ensures RemovableLeaf(u, a, start, end, Static, page) {
      WithPagesExactly(t, start, end, phys, flags, page, a);
      assert a !in Overlapping(t, start, end);
      NextPage(a - start, end - start, page);
    }
    var v := Without(u, start, end);
    forall a: nat ensures (a in v <==> a in t) && (a in t ==> v[a] == t[a]) {
      WithPagesExactly(t, start, end, phys, flags, page, a);
      assert a !in Overlapping(t, start, end);
    }
  }

  // ---- Spaces come and go ----

  lemma OwnersOfSpace(spaces: Spaces, id: nat, s: Space, p: nat)
    requires id !in spaces && forall a | a in s.table :: KindOf(s.table[a].flags) == Static
    ensures Owners(spaces[id := s], p) == Owners(spaces, p)
  {
    forall i: nat, b: nat ensures (i, b) in Owners(spaces[id := s], p) <==> (i, b) in Owners(spaces, p) {
      InOwners(spaces, p, i, b);
      InOwners(spaces[id := s], p, i, b);
    }
  }

  lemma SpaceAdded(counts: map<nat, nat>, free: set<nat>, loaned: set<nat>, handles: multiset<nat>, spaces: Spaces,
                   id: nat, s: Space)
    requires Owned(counts, free, loaned, handles, spaces) && id !in spaces && s.lo <= s.hi < USIZE_END
             && s.table == map[]
    ensures Owned(counts, free, loaned, handles, spaces[id := s])
  {
    forall p | p in counts ensures CountOk(counts, handles, spaces[id := s], p) {
      assert CountOk(counts, handles, spaces, p);
      OwnersOfSpace(spaces, id, s, p);
    }
  }

  lemma SpaceDropped(counts: map<nat, nat>, free: set<nat>, loaned: set<nat>, handles: multiset<nat>, spaces: Spaces,
                     id: nat)
    requires Owned(counts, free, loaned, handles, spaces) && id in spaces
    requires forall a | a in Overlapping(spaces[id].table, spaces[id].lo, spaces[id].hi) ::
             KindOf(spaces[id].table[a].flags) == Static
    ensures Owned(counts, free, loaned, handles, spaces - {id})
  {
    assert SpaceOk(spaces[id], counts);
    forall a | a in spaces[id].table ensures KindOf(spaces[id].table[a].flags) == Static {
      assert AllocLeafOk(spaces[id], counts, a);
      if KindOf(spaces[id].table[a].flags) == Alloc {
        assert a in Overlapping(spaces[id].table, spaces[id].lo, spaces[id].hi);
      }
    }
    assert (spaces - {id})[id := spaces[id]] == spaces;
    forall p | p in counts ensures CountOk(counts, handles, spaces - {id}, p) {
      assert CountOk(counts, handles, spaces, p);
      OwnersOfSpace(spaces - {id}, id, spaces[id], p);
    }
  }

  /** A count of one under an Alloc leaf means that leaf and nothing else. */
  lemma SoleOwner(counts: map<nat, nat>, free: set<nat>, loaned: set<nat>, handles: multiset<nat>, spaces: Spaces,
                  id: nat, a: nat)
    requires Owned(counts, free, loaned, handles, spaces) && id in spaces && a in spaces[id].table
    requires KindOf(spaces[id].table[a].flags) == Alloc
    ensures var p := spaces[id].table[a].phys;
            && p in counts && counts[p] > 0
            && (counts[p] == 1 <==> p !in handles && Owners(spaces, p) == {(id, a)})
  {
    var p := spaces[id].table[a].phys;
    LeafCounted(counts, free, loaned, handles, spaces, id, a);
    InOwners(spaces, p, id, a);
    assert CountOk(counts, handles, spaces, p);
    var others := Owners(spaces, p) - {(id, a)};
    assert Owners(spaces, p) == others + {(id, a)};
    if others != {} { assert |others| > 0; }
  }

  // ---- Snapshots of a range ----

  datatype Mapped = Mapped(address: nat, frame: nat, flags: Flags)

  /** The frames of a list of mappings, with multiplicity. */
  function Bag(list: seq<Mapped>): multiset<nat> {
    if list == [] then multiset{} else multiset{list[0].frame} + Bag(list[1..])
  }

  lemma {:induction false} BagAppend(list: seq<Mapped>, m: Mapped)
    ensures Bag(list + [m]) == Bag(list) + multiset{m.frame}
  {
    if list != [] {
      BagAppend(list[1..], m);
      assert (list + [m])[1..] == list[1..] + [m];
    }
  }

  lemma BagStep(kept: multiset<nat>, list: seq<Mapped>, i: nat)
    requires i < |list|
    ensures list[i].frame in kept + Bag(list[i..])
    ensures kept + Bag(list[i..]) - multiset{list[i].frame} == kept + Bag(list[i + 1..])
  {
    assert list[i..][1..] == list[i + 1..];
  }

  /** One entry for each leaf of the walk, in its order, with the access its owner asked for. */
  predicate Snapshot(t: Table, walk: seq<nat>, list: seq<Mapped>) {
    && |list| == |walk|
    && forall k | 0 <= k < |walk| :: SnapshotOf(t, walk[k], list[k])
  }

  predicate SnapshotOf(t: Table, a: nat, m: Mapped) {
    a in t && KindOf(t[a].flags) == Alloc && m == Mapped(a, t[a].phys, t[a].flags - {AllocFrame, ProtNone})
  }

  /** The leaf is no Alloc leaf, or its frame cannot be counted once more. */
  predicate Refused(t: Table, a: nat, counts: map<nat, nat>) {
    a in t && (KindOf(t[a].flags) != Alloc || (t[a].phys in counts && counts[t[a].phys] == U32_MAX))
  }

  lemma CountedLeaf(counts: map<nat, nat>, free: set<nat>, loaned: set<nat>, handles: multiset<nat>, spaces: Spaces,
                    id: nat, a: nat)
    requires Owned(counts, free, loaned, handles, spaces) && id in spaces && a in spaces[id].table
    ensures var leaf := spaces[id].table[a];
            KindOf(leaf.flags) == Alloc ==> leaf.size == Size4K && leaf.phys in counts && counts[leaf.phys] > 0
  {
    var leaf := spaces[id].table[a];
    assert AllocLeafOk(spaces[id], counts, a);
    if KindOf(leaf.flags) == Alloc {
      InOwners(spaces, leaf.phys, id, a);
      assert CountOk(counts, handles, spaces, leaf.phys);
    }
  }

  /** The leaves met that own a reference to frame p. */
  function Met(t: Table, lo: nat, hi: nat, p: nat): set<nat> {
    set a | a in Overlapping(t, lo, hi) && OwnsFrame(t[a], p)
  }

  /** Every leaf met is an Alloc leaf, and every frame can take one more reference for each of its leaves. */
  ghost predicate Cloneable(t: Table, lo: nat, hi: nat, counts: map<nat, nat>) {
    forall a | a in Overlapping(t, lo, hi) ::
      && KindOf(t[a].flags) == Alloc
      && (t[a].phys in counts ==> counts[t[a].phys] + |Met(t, lo, hi, t[a].phys)| <= U32_MAX)
  }

  /** The places of a walk whose leaves own a reference to frame p. */
  function Holding(t: Table, walk: seq<nat>, p: nat): set<nat> {
    set a | a in walk && a in t && OwnsFrame(t[a], p)
  }

  lemma {:induction false} BagCounts(t: Table, walk: seq<nat>, list: seq<Mapped>, p: nat)
    requires Snapshot(t, walk, list) && Ascending(walk)
    ensures Bag(list)[p] == |Holding(t, walk, p)|
  {
    if list == [] {
      assert Holding(t, walk, p) == {};
    } else {
      var rest := Holding(t, walk[1..], p);
      assert SnapshotOf(t, walk[0], list[0]);
      assert forall k | 0 <= k < |walk| - 1 :: walk[1..][k] == walk[k + 1];
      BagCounts(t, walk[1..], list[1..], p);
      HoldingFirst(t, walk, p);
    }
  }

  lemma HoldingFirst(t: Table, walk: seq<nat>, p: nat)
    requires walk != [] && Ascending(walk) && walk[0] in t
    ensures walk[0] !in Holding(t, walk[1..], p)
    ensures Holding(t, walk, p) == Holding(t, walk[1..], p) + if OwnsFrame(t[walk[0]], p) then {walk[0]} else {}
  {
    assert walk == [walk[0]] + walk[1..];
  }

  lemma CountRises(counts0: map<nat, nat>, handles0: multiset<nat>, counts: map<nat, nat>, handles: multiset<nat>,
                   spaces: Spaces, t: Table, walk: seq<nat>, list: seq<Mapped>, p: nat)
    requires Counted(counts0, handles0, spaces) && Counted(counts, handles, spaces) && counts.Keys == counts0.Keys
    requires handles == handles0 + Bag(list) && Snapshot(t, walk, list) && Ascending(walk) && p in counts
    ensures counts[p] == counts0[p] + |Holding(t, walk, p)|
  {
    assert CountOk(counts0, handles0, spaces, p) && CountOk(counts, handles, spaces, p);
    BagCounts(t, walk, list, p);
  }

  lemma AllCloned(counts0: map<nat, nat>, handles0: multiset<nat>, counts: map<nat, nat>, free: set<nat>,
                  loaned: set<nat>, handles: multiset<nat>, spaces: Spaces, id: nat, lo: nat, hi: nat, walk: seq<nat>,
                  list: seq<Mapped>)
    requires Owned(counts, free, loaned, handles, spaces) && Counted(counts0, handles0, spaces)
    requires counts.Keys == counts0.Keys && id in spaces && walk == Walk(Overlapping(spaces[id].table, lo, hi))
    requires handles == handles0 + Bag(list) && Snapshot(spaces[id].table, walk, list)
    ensures Cloneable(spaces[id].table, lo, hi, counts0)
  {
    var t := spaces[id].table;
    forall a | a in Overlapping(t, lo, hi)
      ensures KindOf(t[a].flags) == Alloc
      ensures t[a].phys in counts0 ==> counts0[t[a].phys] + |Met(t, lo, hi, t[a].phys)| <= U32_MAX
    {
      assert a in walk;
      var k :| 0 <= k < |walk| && walk[k] == a;
      assert SnapshotOf(t, walk[k], list[k]);
      if t[a].phys in counts0 {
        CountRises(counts0, handles0, counts, handles, spaces, t, walk, list, t[a].phys);
        AllMet(t, lo, hi, walk, t[a].phys);
      }
    }
  }

  lemma AllMet(t: Table, lo: nat, hi: nat, walk: seq<nat>, p: nat)
    requires walk == Walk(Overlapping(t, lo, hi))
    ensures Holding(t, walk, p) == Met(t, lo, hi, p)
  {
    assert forall a :: a in walk <==> a in Overlapping(t, lo, hi);
  }

  lemma OneRefused(counts0: map<nat, nat>, handles0: multiset<nat>, counts: map<nat, nat>, handles: multiset<nat>,
                   spaces: Spaces, id: nat, lo: nat, hi: nat, walk: seq<nat>, list: seq<Mapped>)
    requires Counted(counts, handles, spaces) && Counted(counts0, handles0, spaces)
    requires counts.Keys == counts0.Keys && id in spaces && walk == Walk(Overlapping(spaces[id].table, lo, hi))
    requires |list| < |walk| && handles == handles0 + Bag(list) && Snapshot(spaces[id].table, walk[..|list|], list)
    requires Refused(spaces[id].table, walk[|list|], counts)
    ensures !Cloneable(spaces[id].table, lo, hi, counts0)
  {
    var t, n := spaces[id].table, |list|;
    var a := walk[n];
    assert a in walk && a in Overlapping(t, lo, hi);
    if KindOf(t[a].flags) == Alloc {
      var p := t[a].phys;
      PrefixAscends(walk, n);
      CountRises(counts0, handles0, counts, handles, spaces, t, walk[..n], list, p);
      OneMoreHolds(t, lo, hi, walk, n, p);
    }
  }

  lemma PrefixAscends(walk: seq<nat>, n: nat)
    requires Ascending(walk) && n <= |walk|
    ensures Ascending(walk[..n])
  {
  }

  lemma NotBehind(walk: seq<nat>, n: nat)
    requires Ascending(walk) && n < |walk|
    ensures walk[n] in walk && walk[n] !in walk[..n]
  {
  }

  lemma OneMoreHolds(t: Table, lo: nat, hi: nat, walk: seq<nat>, n: nat, p: nat)
    requires walk == Walk(Overlapping(t, lo, hi)) && n < |walk| && walk[n] in t && OwnsFrame(t[walk[n]], p)
    ensures |Holding(t, walk[..n], p)| < |Met(t, lo, hi, p)|
  {
    var before, a := Holding(t, walk[..n], p), walk[n];
    NotBehind(walk, n);
    forall b | b in before + {a} ensures b in Met(t, lo, hi, p) { assert b in walk; }
    Smaller(before + {a}, Met(t, lo, hi, p));
  }

  lemma Smaller(a: set<nat>, b: set<nat>)
    requires a <= b
    ensures |a| <= |b|
  {
    assert b == a + (b - a);
  }

  lemma SnapshotMore(t: Table, walk: seq<nat>, list: seq<Mapped>, m: Mapped)
    requires |list| < |walk| && Snapshot(t, walk[..|list|], list) && SnapshotOf(t, walk[|list|], m)
    ensures Snapshot(t, walk[..|list| + 1], list + [m])
  {
    assert forall k | 0 <= k < |list| :: walk[k] == walk[..|list|][k];
  }

  lemma HandleAndLeaf(counts: map<nat, nat>, free: set<nat>, loaned: set<nat>, handles: multiset<nat>,
                      spaces: Spaces, id: nat, a: nat)
    requires Owned(counts, free, loaned, handles, spaces) && id in spaces && a in spaces[id].table
    requires KindOf(spaces[id].table[a].flags) == Alloc && spaces[id].table[a].phys in handles
    ensures spaces[id].table[a].phys in counts && counts[spaces[id].table[a].phys] >= 2
  {
    var p := spaces[id].table[a].phys;
    assert AllocLeafOk(spaces[id], counts, a);
    InOwners(spaces, p, id, a);
    assert CountOk(counts, handles, spaces, p);
  }

  lemma CountsDetermined(counts: map<nat, nat>, counts': map<nat, nat>, handles: multiset<nat>, spaces: Spaces)
    requires Counted(counts, handles, spaces) && Counted(counts', handles, spaces) && counts.Keys == counts'.Keys
    ensures counts == counts'
  {
    forall p | p in counts ensures counts[p] == counts'[p] {
      assert CountOk(counts, handles, spaces, p) && CountOk(counts', handles, spaces, p);
    }
  }
}
