/**
 The page table as an abstract map from the first address of each present leaf
 to the leaf. Intermediate tables are not represented: installing a leaf may
 fail for reasons of theirs (no memory, a table left where a huge leaf should
 go), and such a failure is a parameter of the operation.
 */
module PageTables {
  import opened Options
  import opened Quotients

  const USIZE_END: nat := 0x1_0000_0000_0000_0000

  datatype Flag = Read | Write | Execute | User | Device | Uncached | AllocFrame | ProtNone

  type Flags = set<Flag>

  datatype PageSize = Size4K | Size2M | Size1G

  datatype PagingError = NoMemory | AlreadyMapped | NotMapped | NotAligned | MappedToHugePage

  datatype Kind = Alloc | Static

  datatype Leaf = Leaf(phys: nat, flags: Flags, size: PageSize)

  type Table = map<nat, Leaf>

  function Bytes(size: PageSize): nat {
    match size
    case Size4K => 0x1000
    case Size2M => 0x20_0000
    case Size1G => 0x4000_0000
  }

  /** A multiple of the page size. */
  predicate Aligned(x: nat, size: PageSize) {
    if x < Bytes(size) then x == 0 else Aligned(x - Bytes(size), size)
  }

  lemma {:induction false} AlignedMod(x: nat, size: PageSize)
    ensures Aligned(x, size) <==> x % Bytes(size) == 0
  {
    if x >= Bytes(size) {
      AlignedMod(x - Bytes(size), size);
      ModShift(x - Bytes(size), Bytes(size));
    }
  }

  function KindOf(flags: Flags): Kind {
    if AllocFrame in flags then Alloc else Static
  }

  function End(t: Table, a: nat): nat
    requires a in t
  {
    a + Bytes(t[a].size)
  }

  /** Leaves are aligned to their size, inside the address range of the machine, and disjoint. */
  ghost predicate TableOk(t: Table) {
    && (forall a {:trigger Placed(t, a)} | a in t :: Placed(t, a))
    && (forall a, b {:trigger Apart(t, a, b)} | a in t && b in t :: Apart(t, a, b))
  }

  predicate Placed(t: Table, a: nat)
    requires a in t
  {
    Aligned(a, t[a].size) && End(t, a) <= USIZE_END
  }

  predicate Apart(t: Table, a: nat, b: nat)
    requires a in t && b in t
  {
    a < b ==> End(t, a) <= b
  }

  /** The leaf whose interval holds an address. */
  function Query(t: Table, x: nat): Option<nat> {
    var hit := Overlapping(t, x, x + 1);
    if hit == {} then None else Some(Min(hit))
  }

  lemma QueryFinds(t: Table, x: nat, a: nat)
    requires TableOk(t)
    ensures Query(t, x) == Some(a) <==> a in t && a <= x < End(t, a)
  {
    if a in t && a <= x < End(t, a) {
      assert a in Overlapping(t, x, x + 1);
      var m := Query(t, x).value;
      assert Apart(t, m, a);
    }
  }

  /** `get_entry`: the table walk tries the largest page size first. */
  function GetEntry(t: Table, x: nat): Option<nat> {
    var giga, mega, page := x - x % Bytes(Size1G), x - x % Bytes(Size2M), x - x % Bytes(Size4K);
    if giga in t && t[giga].size == Size1G then Some(giga)
    else if mega in t && t[mega].size == Size2M then Some(mega)
    else if page in t && t[page].size == Size4K then Some(page)
    else None
  }

  /** The walk by levels finds the leaf that holds the address, or none when there is none. */
  lemma GetEntryIsQuery(t: Table, x: nat)
    requires TableOk(t)
    ensures GetEntry(t, x) == Query(t, x)
  {
    var found, q := GetEntry(t, x), Query(t, x);
    if found.Some? { QueryFinds(t, x, found.value); }
    if q.Some? {
      QueryFinds(t, x, q.value);
      assert Placed(t, q.value);
      AlignDown(q.value, x, t[q.value].size);
    }
  }

  /** The only multiple of a page size within one page below x. */
  lemma AlignDown(a: nat, x: nat, size: PageSize)
    requires Aligned(a, size) && a <= x < a + Bytes(size)
    ensures a == x - x % Bytes(size)
  {
    AlignedMod(a, size);
  }

  lemma PageOf(x: nat, size: PageSize)
    ensures Aligned(x - x % Bytes(size), size)
  {
    var a := x - x % Bytes(size);
    assert a % Bytes(size) == 0 by {
      match size
      case Size4K => assert a % 0x1000 == 0;
      case Size2M => assert a % 0x20_0000 == 0;
      case Size1G => assert a % 0x4000_0000 == 0;
    }
    AlignedMod(a, size);
  }

  /** Leaves that meet [lo, hi). */
  function Overlapping(t: Table, lo: nat, hi: nat): set<nat> {
    set a | a in t && a < hi && lo < End(t, a)
  }

  predicate IsMin(s: set<nat>, m: nat) { m in s && forall x | x in s :: m <= x }

  lemma {:induction false} MinExists(s: set<nat>)
    requires s != {}
    ensures exists m :: IsMin(s, m)
  {
    var y :| y in s;
    if s - {y} == {} {
      assert s == {y};
      assert IsMin(s, y);
    } else {
      MinExists(s - {y});
      var m :| IsMin(s - {y}, m);
      MinOf(s, y, m);
    }
  }

  lemma MinOf(s: set<nat>, y: nat, m: nat)
    requires y in s && IsMin(s - {y}, m)
    ensures IsMin(s, if m < y then m else y)
  {
    assert forall x | x in s :: x == y || x in s - {y};
  }

  function Min(s: set<nat>): nat
    requires s != {}
  {
    MinExists(s);
    var m :| IsMin(s, m);
    m
  }

  ghost predicate Ascending(s: seq<nat>) {
    forall i, j | 0 <= i < j < |s| :: s[i] < s[j]
  }

  /** `walk_leaf_range` visits a set of leaves in ascending order. */
  function Walk(s: set<nat>): (r: seq<nat>)
    ensures Ascending(r) && |r| == |s|
    ensures forall x :: x in r <==> x in s
  {
    if s == {} then []
    else
      var m := Min(s);
      var rest := Walk(s - {m});
      WalkStep(s, m, rest);
      [m] + rest
  }

  lemma WalkStep(s: set<nat>, m: nat, rest: seq<nat>)
    requires m in s && (forall x | x in s :: m <= x)
    requires Ascending(rest) && forall x :: x in rest <==> x in s - {m}
    ensures Ascending([m] + rest)
  {
    forall i | 0 <= i < |rest| ensures m < rest[i] {
      assert rest[i] in s - {m};
    }
  }

  /** `map`: fails when the page would meet a leaf, or with `fault`; otherwise adds one leaf. */
  function MapError(t: Table, a: nat, size: PageSize, fault: Option<PagingError>): Option<PagingError> {
    var met := Overlapping(t, a, a + Bytes(size));
    if exists b | b in met :: Bytes(t[b].size) > Bytes(size) then Some(MappedToHugePage)
    else if met != {} then Some(AlreadyMapped)
    else fault
  }

  function Remove(t: Table, a: nat): Table {
    map b | b in t && b != a :: t[b]
  }

  lemma MapKeepsOk(t: Table, a: nat, leaf: Leaf)
    requires TableOk(t) && Aligned(a, leaf.size) && a + Bytes(leaf.size) <= USIZE_END
    requires Overlapping(t, a, a + Bytes(leaf.size)) == {}
    ensures TableOk(t[a := leaf]) && a !in t
  {
    assert {a} * t.Keys <= Overlapping(t, a, a + Bytes(leaf.size));
    forall b | b in t ensures End(t, b) <= a || a + Bytes(leaf.size) <= b {
      assert b !in Overlapping(t, a, a + Bytes(leaf.size));
    }
    var u := t[a := leaf];
    forall b | b in u ensures Placed(u, b) {
      if b != a { assert Placed(t, b); }
    }
    forall b, c | b in u && c in u ensures Apart(u, b, c) {
      if b != a && c != a { assert Apart(t, b, c); }
    }
  }

  lemma SubtableOk(t: Table, u: Table)
    requires TableOk(t) && forall a | a in u :: a in t && u[a] == t[a]
    ensures TableOk(u)
  {
    forall a | a in u ensures Placed(u, a) { assert Placed(t, a); }
    forall a, b | a in u && b in u ensures Apart(u, a, b) { assert Apart(t, a, b); }
  }

  // ---- Pages of a range ----

  predicate OnPage(a: nat, lo: nat, size: PageSize) { lo <= a && Aligned(a - lo, size) }

  /** The addresses PageIter yields. */
  function Pages(lo: nat, hi: nat, size: PageSize): set<nat> {
    set a | lo <= a < hi && OnPage(a, lo, size)
  }

  lemma PagesExtend(lo: nat, mid: nat, size: PageSize)
    requires OnPage(mid, lo, size)
    ensures Pages(lo, mid + Bytes(size), size) == Pages(lo, mid, size) + {mid}
    ensures OnPage(mid + Bytes(size), lo, size)
  {
    AlignedSum(mid - lo, Bytes(size), size);
    forall a | a in Pages(lo, mid + Bytes(size), size) ensures a in Pages(lo, mid, size) + {mid} {
      if a >= mid {
        AlignedDifference(a - lo, mid - lo, size);
      }
    }
  }

  lemma {:induction false} AlignedSum(x: nat, y: nat, size: PageSize)
    requires Aligned(x, size) && Aligned(y, size)
    ensures Aligned(x + y, size)
  {
    if y >= Bytes(size) { AlignedSum(x, y - Bytes(size), size); }
  }

  lemma {:induction false} AlignedDifference(x: nat, y: nat, size: PageSize)
    requires Aligned(x, size) && Aligned(y, size) && y <= x
    ensures Aligned(x - y, size)
  {
    if y >= Bytes(size) { AlignedDifference(x - Bytes(size), y - Bytes(size), size); }
  }

  /** A range without the leaves that begin in [lo, hi). */
  function Without(t: Table, lo: nat, hi: nat): Table {
    map a | a in t && !(lo <= a < hi) :: t[a]
  }

  /** A table with one more leaf for each whole page of [lo, hi), onto consecutive physical addresses. */
  function WithPages(t: Table, lo: nat, hi: nat, phys: nat, flags: Flags, size: PageSize): Table {
    if hi < lo + Bytes(size) then t
    else
      var last := hi - Bytes(size);
      WithPages(t, lo, last, phys, flags, size)[last := Leaf(phys + (last - lo), flags, size)]
  }

  /** The leaves added are exactly those of the pages of the range; the others stay. */
  lemma {:induction false} WithPagesExactly(t: Table, lo: nat, hi: nat, phys: nat, flags: Flags, size: PageSize, a: nat)
    requires OnPage(hi, lo, size)
    ensures var u := WithPages(t, lo, hi, phys, flags, size);
            && (a in u <==> a in t || (a < hi && OnPage(a, lo, size)))
            && (a < hi && OnPage(a, lo, size) ==> u[a] == Leaf(phys + (a - lo), flags, size))
            && (a in t && !(a < hi && OnPage(a, lo, size)) ==> u[a] == t[a])
  {
    if hi >= lo + Bytes(size) {
      WithPagesExactly(t, lo, hi - Bytes(size), phys, flags, size, a);
      if a < hi && OnPage(a, lo, size) && a >= hi - Bytes(size) {
        AlignedDifference(a - lo, hi - Bytes(size) - lo, size);
      }
    }
  }
}
