/**
 The initial stack of a user program: strings at the top, then the auxiliary
 vector, the environment and argument pointers and the argument count, pushed
 downwards from a given address. The image is proved to be laid out as a program
 start-up reads it, and to decode back to what was put in.
 */
module UserStack {
  import opened Options

  type Byte = x: nat | x < 256

  const USIZE_END: nat := 0x1_0000_0000_0000_0000

  const AT_NULL: nat := 0
  const AT_RANDOM: nat := 25
  const AT_EXECFN: nat := 31

  type Usize = x: nat | x < 0x1_0000_0000_0000_0000

  datatype Aux = Aux(kind: Usize, value: Usize)

  // ---- Words as bytes ----

  /** The n low bytes of x, least first. */
  function LeBytes(x: nat, n: nat): (b: seq<Byte>)
    ensures |b| == n
  {
    if n == 0 then [] else [x % 256] + LeBytes(x / 256, n - 1)
  }

  function FromLe(b: seq<Byte>): nat {
    if b == [] then 0 else b[0] + 256 * FromLe(b[1..])
  }

  function Pow256(n: nat): nat {
    if n == 0 then 1 else 256 * Pow256(n - 1)
  }

  lemma {:induction false} LeRoundTrip(x: nat, n: nat)
    requires x < Pow256(n)
    ensures FromLe(LeBytes(x, n)) == x
  {
    if n > 0 {
      LeRoundTrip(x / 256, n - 1);
      assert LeBytes(x, n)[1..] == LeBytes(x / 256, n - 1);
    }
  }

  function Le(x: nat): (b: seq<Byte>)
    ensures |b| == 8
  {
    LeBytes(x, 8)
  }

  lemma WordRoundTrip(x: nat)
    requires x < USIZE_END
    ensures FromLe(Le(x)) == x
  {
    assert Pow256(8) == USIZE_END by {
      assert Pow256(2) == 0x1_0000 && Pow256(4) == 0x1_0000_0000 && Pow256(6) == 0x1_0000_0000_0000;
    }
    LeRoundTrip(x, 8);
  }

  function Words(ws: seq<nat>): (b: seq<Byte>)
    ensures |b| == 8 * |ws|
  {
    if ws == [] then [] else Le(ws[0]) + Words(ws[1..])
  }

  lemma {:induction false} WordsConcat(a: seq<nat>, b: seq<nat>)
    ensures Words(a + b) == Words(a) + Words(b)
  {
    if a == [] {
      assert a + b == b;
    } else {
      WordsConcat(a[1..], b);
      assert (a + b)[0] == a[0] && (a + b)[1..] == a[1..] + b;
      var head, tail, more := Le(a[0]), Words(a[1..]), Words(b);
      assert head + (tail + more) == (head + tail) + more;
    }
  }

  /** The i-th word of a memory image. */
  function WordAt(d: seq<Byte>, i: nat): nat
    requires 8 * i + 8 <= |d|
  {
    FromLe(d[8 * i..8 * i + 8])
  }

  lemma {:induction false} WordsRead(ws: seq<nat>, rest: seq<Byte>, i: nat)
    requires i < |ws| && forall k | 0 <= k < |ws| :: ws[k] < USIZE_END
    ensures WordAt(Words(ws) + rest, i) == ws[i]
  {
    WordsSplit(ws, rest);
    if i == 0 {
      WordRoundTrip(ws[0]);
    } else {
      WordsRead(ws[1..], rest, i - 1);
      WordShifted(Words(ws) + rest, Words(ws[1..]) + rest, i, i - 1);
    }
  }

  lemma WordsSplit(ws: seq<nat>, rest: seq<Byte>)
    requires ws != []
    ensures (Words(ws) + rest)[0..8] == Le(ws[0]) && (Words(ws) + rest)[8..] == Words(ws[1..]) + rest
  {
    SplitAfter(Le(ws[0]), Words(ws[1..]), rest);
  }

  lemma SplitAfter(a: seq<Byte>, b: seq<Byte>, c: seq<Byte>)
    ensures (a + b + c)[0..|a|] == a && (a + b + c)[|a|..] == b + c
  {
  }

  lemma WordShifted(d: seq<Byte>, e: seq<Byte>, i: nat, j: nat)
    requires |d| >= 8 && d[8..] == e && i == j + 1 && 8 * i + 8 <= |d|
    ensures WordAt(d, i) == WordAt(e, j)
  {
    assert d[8 * i..8 * i + 8] == e[8 * j..8 * j + 8];
  }

  // ---- The image ----

  /** The bytes b lie at address a of an image that begins at sp. */
  predicate At(sp: nat, data: seq<Byte>, a: nat, b: seq<Byte>) {
    sp <= a && a + |b| <= sp + |data| && data[a - sp..a - sp + |b|] == b
  }

  lemma AtKept(sp: nat, data: seq<Byte>, src: seq<Byte>, a: nat, b: seq<Byte>)
    requires |src| <= sp && At(sp, data, a, b)
    ensures At(sp - |src|, src + data, a, b)
  {
    assert (src + data)[a - (sp - |src|)..a - (sp - |src|) + |b|] == data[a - sp..a - sp + |b|];
  }

  /** Each pointer leads to its own string, with its terminating zero. */
  ghost predicate Strings(sp: nat, data: seq<Byte>, ptrs: seq<nat>, strs: seq<seq<Byte>>) {
    |ptrs| == |strs| && forall i | 0 <= i < |strs| :: At(sp, data, ptrs[i], strs[i] + [0])
  }

  lemma StringsKept(sp: nat, data: seq<Byte>, src: seq<Byte>, ptrs: seq<nat>, strs: seq<seq<Byte>>)
    requires |src| <= sp && Strings(sp, data, ptrs, strs)
    ensures Strings(sp - |src|, src + data, ptrs, strs)
  {
    forall i | 0 <= i < |strs| ensures At(sp - |src|, src + data, ptrs[i], strs[i] + [0]) {
      AtKept(sp, data, src, ptrs[i], strs[i] + [0]);
    }
  }

  function Room(strs: seq<seq<Byte>>): nat {
    if strs == [] then 0 else Room(strs[..|strs| - 1]) + |strs[|strs| - 1]| + 1
  }

  function Zeros(n: nat): (b: seq<Byte>)
    ensures |b| == n
  {
    seq(n, _ => 0)
  }

  class Stack {
    var sp: nat
    var data: seq<Byte>

    constructor (sp: nat)
      ensures this.sp == sp && data == []
    {
      this.sp, data := sp, [];
    }

    method Push(src: seq<Byte>)
      requires |src| <= sp
      modifies this
      ensures sp == old(sp) - |src| && data == src + old(data)
    {
      sp := sp - |src|;
      data := src + data;
    }

    method PushWords(src: seq<nat>)
      requires 8 * |src| <= sp
      modifies this
      ensures sp == old(sp) - 8 * |src| && data == Words(src) + old(data)
    {
      var i := |src|;
      assert src[i..] == [];
      while i > 0
        invariant 0 <= i <= |src| && sp == old(sp) - 8 * (|src| - i) && data == Words(src[i..]) + old(data)
      {
        i := i - 1;
        assert src[i..][1..] == src[i + 1..];
        Push(Le(src[i]));
      }
      assert src[0..] == src;
    }

    method PushStr(str: seq<Byte>) returns (p: nat)
      requires |str| + 1 <= sp
      modifies this
      ensures p == sp == old(sp) - (|str| + 1) && data == str + [0] + old(data)
      ensures At(sp, data, p, str + [0])
    {
      Push([0]);
      Push(str);
      assert str + ([0] + old(data)) == str + [0] + old(data);
      return sp;
    }

    /** The strings of a list, one below the other. */
    method PushStrings(strs: seq<seq<Byte>>) returns (ptrs: seq<nat>)
      requires Room(strs) <= sp
      modifies this
      ensures sp == old(sp) - Room(strs) && Strings(sp, data, ptrs, strs)
      ensures |data| == |old(data)| + Room(strs) && data[Room(strs)..] == old(data)
      ensures forall i | 0 <= i < |ptrs| :: sp <= ptrs[i] < old(sp)
    {
      ptrs := [];
      for i := 0 to |strs|
        invariant sp == old(sp) - Room(strs[..i]) && |ptrs| == i && Room(strs[..i]) <= Room(strs)
        invariant Strings(sp, data, ptrs, strs[..i])
        invariant |data| == |old(data)| + Room(strs[..i]) && data[Room(strs[..i])..] == old(data)
        invariant forall k | 0 <= k < i :: sp <= ptrs[k] < old(sp)
      {
        RoomNext(strs, i);
        var p := PushAt(strs, i, ptrs);
        ptrs := ptrs + [p];
      }
      assert strs[..|strs|] == strs;
    }

    method PushAt(strs: seq<seq<Byte>>, i: nat, ghost ptrs: seq<nat>) returns (p: nat)
      requires i < |strs| && |strs[i]| + 1 <= sp && Strings(sp, data, ptrs, strs[..i]) && Room(strs[..i]) <= |data|
      requires Room(strs[..i + 1]) == Room(strs[..i]) + |strs[i]| + 1
      modifies this
      ensures p == sp == old(sp) - (|strs[i]| + 1) && Strings(sp, data, ptrs + [p], strs[..i + 1])
      ensures |data| == |old(data)| + |strs[i]| + 1 && data[Room(strs[..i + 1])..] == old(data)[Room(strs[..i])..]
    {
      ghost var at, below := sp, data;
      p := PushStr(strs[i]);
      NextString(at, below, ptrs, strs, i, sp, data);
      DropMore(strs[i] + [0], below, data, Room(strs[..i]), Room(strs[..i + 1]));
    }
  }

  lemma DropMore(src: seq<Byte>, below: seq<Byte>, data: seq<Byte>, n: nat, m: nat)
    requires n <= |below| && data == src + below && m == n + |src|
    ensures m <= |data| && data[m..] == below[n..]
  {
  }

  lemma NextString(at: nat, below: seq<Byte>, ptrs: seq<nat>, strs: seq<seq<Byte>>, i: nat, sp: nat, data: seq<Byte>)
    requires i < |strs| && |strs[i]| + 1 <= at && Strings(at, below, ptrs, strs[..i])
    requires sp == at - (|strs[i]| + 1) && data == strs[i] + [0] + below
    ensures Strings(sp, data, ptrs + [sp], strs[..i + 1])
  {
    TextsKept(at, below, strs[i] + [0], sp, data, ptrs, strs[..i]);
    StringsMore(sp, data, ptrs, strs, i, sp);
  }

  lemma StringsMore(sp: nat, data: seq<Byte>, ptrs: seq<nat>, strs: seq<seq<Byte>>, i: nat, p: nat)
    requires i < |strs| && Strings(sp, data, ptrs, strs[..i]) && At(sp, data, p, strs[i] + [0])
    ensures Strings(sp, data, ptrs + [p], strs[..i + 1])
  {
    forall k | 0 <= k < i + 1 ensures At(sp, data, (ptrs + [p])[k], strs[..i + 1][k] + [0]) {
      if k < i { assert strs[..i][k] == strs[k] && At(sp, data, ptrs[k], strs[..i][k] + [0]); }
    }
  }

  lemma RoomNext(strs: seq<seq<Byte>>, i: nat)
    requires i < |strs|
    ensures Room(strs[..i + 1]) == Room(strs[..i]) + |strs[i]| + 1
    ensures Room(strs[..i + 1]) <= Room(strs)
    decreases |strs| - i
  {
    assert strs[..i + 1][..i] == strs[..i];
    if i + 1 < |strs| { RoomNext(strs, i + 1); } else { assert strs[..i + 1] == strs; }
  }

  // ---- init_stack ----

  function RandomBytes(): (b: seq<Byte>)
    ensures |b| == 16
  {
    [48, 49, 50, 51, 52, 53, 54, 55, 56, 57, 97, 98, 99, 100, 101, 102]
  }

  /** They spell the sixteen hexadecimal digits. */
  lemma RandomText(i: nat)
    requires i < 16
    ensures RandomBytes()[i] == "0123456789abcdef"[i] as int
  {
  }

  /** The auxiliary vector as the words it is in memory. */
  function AuxWords(auxv: seq<Aux>): (w: seq<nat>)
    ensures |w| == 2 * |auxv|
  {
    if auxv == [] then [] else [auxv[0].kind, auxv[0].value] + AuxWords(auxv[1..])
  }

  function Patched(e: Aux, random: nat, argv: seq<nat>): Aux
    requires random < USIZE_END && (e.kind == AT_EXECFN ==> argv != [] && argv[0] < USIZE_END)
  {
    if e.kind == AT_RANDOM then e.(value := random)
    else if e.kind == AT_EXECFN then e.(value := argv[0])
    else e
  }

  /** What the program start-up finds from the stack pointer on. */
  function Header(argv: seq<nat>, envp: seq<nat>, auxv: seq<Aux>): seq<nat> {
    [|argv|] + argv + [0] + envp + [0] + AuxWords(auxv)
  }

  /** Bytes of stack the image takes, at most. */
  function Needed(args: seq<seq<Byte>>, envs: seq<seq<Byte>>, entries: nat): nat {
    16 + Room(envs) + Room(args) + 8 + 15 + 8 + 8 * (2 * entries + |envs| + |args| + 3)
  }

  method PatchAuxv(auxv: array<Aux>, random: nat, argv: seq<nat>)
    requires random < USIZE_END
    requires forall i | 0 <= i < auxv.Length && auxv[i].kind == AT_EXECFN :: argv != [] && argv[0] < USIZE_END
    modifies auxv
    ensures forall i | 0 <= i < auxv.Length :: auxv[i] == Patched(old(auxv[i]), random, argv)
  {
    for k := 0 to auxv.Length
      invariant forall i | 0 <= i < k :: auxv[i] == Patched(old(auxv[i]), random, argv)
      invariant forall i | k <= i < auxv.Length :: auxv[i] == old(auxv[i])
    {
      if auxv[k].kind == AT_RANDOM {
        auxv[k] := auxv[k].(value := random);
      }
      if auxv[k].kind == AT_EXECFN {
        auxv[k] := auxv[k].(value := argv[0]);
      }
    }
  }

  /** `init_stack`, with the pointers it collects as ghost results. */
  method InitStack(args: seq<seq<Byte>>, envs: seq<seq<Byte>>, auxv: array<Aux>, top: nat)
    returns (data: seq<Byte>, ghost sp: nat, ghost argv: seq<nat>, ghost envp: seq<nat>, ghost random: nat)
    requires Needed(args, envs, auxv.Length) <= top < USIZE_END
    requires forall i | 0 <= i < auxv.Length && auxv[i].kind == AT_EXECFN :: args != []
    modifies auxv
    ensures sp + |data| == top && sp % 16 == 0
    ensures forall i | 0 <= i < |argv| :: 0 < argv[i] < top
    ensures forall i | 0 <= i < |envp| :: 0 < envp[i] < top
    ensures |argv| == |args| && random < top && forall i | 0 <= i < auxv.Length ::
            auxv[i] == Patched(old(auxv[i]), random, argv)
    ensures At(sp, data, sp, Words(Header(argv, envp, auxv[..])))
    ensures Strings(sp, data, argv, args) && Strings(sp, data, envp, envs) && At(sp, data, random, RandomBytes())
  {
    var stack := new Stack(top);
    var randomPos, envSlice, argSlice := PushTexts(stack, args, envs);
    ghost var texts, at := stack.data, stack.sp;
    ghost var pad := Align(stack, |envs| + |args| + 3, auxv.Length);
    PatchAuxv(auxv, randomPos, argSlice);
    PushTables(stack, argSlice, envSlice, auxv[..]);
    data, sp, argv, envp, random := stack.data, stack.sp, argSlice, envSlice, randomPos;
    ghost var header := Words(Header(argv, envp, auxv[..]));
    assert header + (pad + texts) == (header + pad) + texts;
    TextsKept(at, texts, header + pad, sp, data, argv, args);
    TextsKept(at, texts, header + pad, sp, data, envp, envs);
    AtKept(at, texts, header + pad, random, RandomBytes());
  }

  lemma TextsKept(at: nat, texts: seq<Byte>, over: seq<Byte>, sp: nat, data: seq<Byte>, ptrs: seq<nat>,
                  strs: seq<seq<Byte>>)
    requires |over| <= at && Strings(at, texts, ptrs, strs) && sp == at - |over| && data == over + texts
    ensures Strings(sp, data, ptrs, strs)
  {
    StringsKept(at, texts, over, ptrs, strs);
  }

  /** The strings and the sixteen random bytes. */
  method PushTexts(stack: Stack, args: seq<seq<Byte>>, envs: seq<seq<Byte>>)
    returns (random: nat, envp: seq<nat>, argv: seq<nat>)
    requires stack.data == [] && 16 + Room(envs) + Room(args) + 8 <= stack.sp
    modifies stack
    ensures stack.sp == old(stack.sp) - (16 + Room(envs) + Room(args) + 8) && |stack.data| == old(stack.sp) - stack.sp
    ensures Strings(stack.sp, stack.data, argv, args) && Strings(stack.sp, stack.data, envp, envs)
    ensures At(stack.sp, stack.data, random, RandomBytes())
    ensures forall i | 0 <= i < |argv| :: stack.sp < argv[i] < old(stack.sp)
    ensures forall i | 0 <= i < |envp| :: stack.sp < envp[i] < old(stack.sp)
  {
    stack.Push(RandomBytes());
    random := stack.sp;
    ghost var d0, s0 := stack.data, stack.sp;
    envp := stack.PushStrings(envs);
    ghost var d1, s1 := stack.data, stack.sp;
    argv := stack.PushStrings(args);
    ghost var d2, s2 := stack.data, stack.sp;
    stack.Push(Zeros(8));
    KeptOver(s0, d0, Room(envs), s1, d1);
    KeptOver(s1, d1, Room(args), s2, d2);
    TwiceKept(d0, d1, d2, s0, s1, s2, Room(envs), Room(args), random, envp, envs);
    TextsKept(s2, d2, Zeros(8), stack.sp, stack.data, envp, envs);
    TextsKept(s2, d2, Zeros(8), stack.sp, stack.data, argv, args);
    AtKept(s2, d2, Zeros(8), random, RandomBytes());
  }

  /** What was pushed over earlier data is a prefix of the new data. */
  lemma KeptOver(sp0: nat, data0: seq<Byte>, n: nat, sp1: nat, data1: seq<Byte>)
    requires n <= sp0 && sp1 == sp0 - n && |data1| == |data0| + n && data1[n..] == data0
    ensures data1 == data1[..n] + data0
  {
  }

  lemma TwiceKept(d0: seq<Byte>, d1: seq<Byte>, d2: seq<Byte>, s0: nat, s1: nat, s2: nat, m: nat, n: nat,
                  random: nat, envp: seq<nat>, envs: seq<seq<Byte>>)
    requires m <= s0 && s1 == s0 - m && m <= |d1| && d1 == d1[..m] + d0
    requires n <= s1 && s2 == s1 - n && n <= |d2| && d2 == d2[..n] + d1
    requires At(s0, d0, random, RandomBytes()) && Strings(s1, d1, envp, envs)
    ensures At(s2, d2, random, RandomBytes()) && Strings(s2, d2, envp, envs)
  {
    AtKept(s0, d0, d1[..m], random, RandomBytes());
    AtKept(s1, d1, d2[..n], random, RandomBytes());
    StringsKept(s1, d1, d2[..n], envp, envs);
  }

  /** Pads so that `items` words and `entries` entries of two words will end on a multiple of 16. */
  method Align(stack: Stack, items: nat, ghost entries: nat) returns (ghost pad: seq<Byte>)
    requires 15 + 8 + 8 * (2 * entries + items) <= stack.sp
    modifies stack
    ensures |pad| <= 23 && stack.data == pad + old(stack.data) && stack.sp == old(stack.sp) - |pad|
    ensures (stack.sp - 8 * (2 * entries + items)) % 16 == 0
  {
    pad := Zeros(stack.sp % 16);
    stack.Push(Zeros(stack.sp % 16));
    if items % 2 != 0 {
      stack.Push(Zeros(8));
      assert Zeros(8) + (pad + old(stack.data)) == Zeros(8) + pad + old(stack.data);
      pad := Zeros(8) + pad;
    }
  }

  lemma ZeroWord()
    ensures Zeros(8) == Le(0)
  {
    ZeroBytes(8);
  }

  lemma {:induction false} ZeroBytes(n: nat)
    ensures LeBytes(0, n) == Zeros(n)
  {
    if n > 0 { ZeroBytes(n - 1); }
  }

  method PushTables(stack: Stack, argv: seq<nat>, envp: seq<nat>, auxv: seq<Aux>)
    requires 8 * (2 * |auxv| + |envp| + |argv| + 3) <= stack.sp
    modifies stack
    ensures stack.data == Words(Header(argv, envp, auxv)) + old(stack.data)
    ensures stack.sp == old(stack.sp) - 8 * (2 * |auxv| + |envp| + |argv| + 3)
  {
    ghost var rest := stack.data;
    ZeroWord();
    stack.PushWords(AuxWords(auxv));
    stack.Push(Zeros(8));
    stack.PushWords(envp);
    stack.Push(Zeros(8));
    stack.PushWords(argv);
    stack.PushWords([|argv|]);
    HeaderBytes(argv, envp, auxv, rest);
  }

  lemma HeaderBytes(argv: seq<nat>, envp: seq<nat>, auxv: seq<Aux>, rest: seq<Byte>)
    ensures Words([|argv|]) + (Words(argv) + (Le(0) + (Words(envp) + (Le(0) + (Words(AuxWords(auxv)) + rest)))))
            == Words(Header(argv, envp, auxv)) + rest
  {
    assert Words([0]) == Le(0) + Words([]) == Le(0);
    WordsConcat([|argv|], argv);
    WordsConcat([|argv|] + argv, [0]);
    WordsConcat([|argv|] + argv + [0], envp);
    WordsConcat([|argv|] + argv + [0] + envp, [0]);
    WordsConcat([|argv|] + argv + [0] + envp + [0], AuxWords(auxv));
    Regroup(Words([|argv|]), Words(argv), Le(0), Words(envp), Words(AuxWords(auxv)), rest);
  }

  lemma Regroup(a: seq<Byte>, b: seq<Byte>, z: seq<Byte>, c: seq<Byte>, d: seq<Byte>, rest: seq<Byte>)
    ensures a + (b + (z + (c + (z + (d + rest))))) == ((((a + b) + z) + c) + z + d) + rest
  {
  }

  // ---- What a program start-up reads ----

  datatype Start = Start(args: seq<seq<Byte>>, envs: seq<seq<Byte>>, auxv: seq<Aux>)

  /** Words from the i-th on, up to a zero. */
  function ScanPtrs(d: seq<Byte>, i: nat): Option<seq<nat>>
    decreases |d| - 8 * i
  {
    if 8 * i + 8 > |d| then None
    else if WordAt(d, i) == 0 then Some([])
    else
      match ScanPtrs(d, i + 1)
      case None => None
      case Some(rest) => Some([WordAt(d, i)] + rest)
  }

  /** Entries from the i-th word on, up to and with AT_NULL. */
  function ScanAux(d: seq<Byte>, i: nat): Option<seq<Aux>>
    decreases |d| - 8 * i
  {
    if 8 * i + 16 > |d| then None
    else
      WordBound(d, i);
      WordBound(d, i + 1);
      var e := Aux(WordAt(d, i), WordAt(d, i + 1));
      if e.kind == AT_NULL then Some([e])
      else
        match ScanAux(d, i + 2)
        case None => None
        case Some(rest) => Some([e] + rest)
  }

  /** The bytes from offset k up to a zero byte. */
  function CString(d: seq<Byte>, k: nat): Option<seq<Byte>>
    decreases |d| - k
  {
    if k >= |d| then None
    else if d[k] == 0 then Some([])
    else
      match CString(d, k + 1)
      case None => None
      case Some(rest) => Some([d[k]] + rest)
  }

  function Texts(sp: nat, d: seq<Byte>, ptrs: seq<nat>): Option<seq<seq<Byte>>> {
    if ptrs == [] then Some([])
    else if ptrs[0] < sp then None
    else
      match (CString(d, ptrs[0] - sp), Texts(sp, d, ptrs[1..]))
      case (Some(s), Some(rest)) => Some([s] + rest)
      case _ => None
  }

  /** argc, argv up to its null pointer, envp up to its null pointer, the auxiliary vector. */
  function Decode(sp: nat, d: seq<Byte>): Option<Start> {
    if |d| < 8 then None
    else
      var argv := ScanPtrs(d, 1);
      if argv == None then None else DecodeArgv(sp, d, argv.value)
  }

  function DecodeArgv(sp: nat, d: seq<Byte>, argv: seq<nat>): Option<Start>
    requires |d| >= 8
  {
    var envp := ScanPtrs(d, 2 + |argv|);
    if envp == None then None else DecodeEnvp(sp, d, argv, envp.value)
  }

  function DecodeEnvp(sp: nat, d: seq<Byte>, argv: seq<nat>, envp: seq<nat>): Option<Start>
    requires |d| >= 8
  {
    Assemble(WordAt(d, 0), Texts(sp, d, argv), Texts(sp, d, envp), ScanAux(d, 3 + |argv| + |envp|))
  }

  function Assemble(argc: nat, args: Option<seq<seq<Byte>>>, envs: Option<seq<seq<Byte>>>,
                    auxv: Option<seq<Aux>>): Option<Start> {
    if args.Some? && envs.Some? && auxv.Some? && argc == |args.value| then Some(Start(args.value, envs.value,
        auxv.value))
    else None
  }

  lemma {:induction false} LeBound(b: seq<Byte>)
    ensures FromLe(b) < Pow256(|b|)
  {
    if b != [] { LeBound(b[1..]); }
  }

  lemma WordBound(d: seq<Byte>, i: nat)
    requires 8 * i + 8 <= |d|
    ensures WordAt(d, i) < USIZE_END
  {
    LeBound(d[8 * i..8 * i + 8]);
    WordPower();
  }

  lemma WordPower()
    ensures Pow256(8) == USIZE_END
  {
    assert Pow256(2) == 0x1_0000 && Pow256(4) == 0x1_0000_0000 && Pow256(6) == 0x1_0000_0000_0000;
  }

  // ---- The image decodes back ----

  ghost predicate Usizes(ws: seq<nat>) { forall k | 0 <= k < |ws| :: ws[k] < USIZE_END }

  lemma {:induction false} ScanPtrsFinds(ws: seq<nat>, rest: seq<Byte>, i: nat, ptrs: seq<nat>)
    requires Usizes(ws) && i + |ptrs| < |ws| && ws[i..i + |ptrs|] == ptrs && ws[i + |ptrs|] == 0
    requires forall k | 0 <= k < |ptrs| :: ptrs[k] != 0
    ensures ScanPtrs(Words(ws) + rest, i) == Some(ptrs)
    decreases |ptrs|
  {
    WordsRead(ws, rest, i);
    if ptrs != [] {
      assert ws[i] == ptrs[0] && ws[i + 1..i + 1 + |ptrs[1..]|] == ptrs[1..];
      ScanPtrsFinds(ws, rest, i + 1, ptrs[1..]);
      assert ptrs == [ptrs[0]] + ptrs[1..];
    }
  }

  /** The vector ends with its first AT_NULL entry. */
  predicate Terminated(auxv: seq<Aux>) {
    auxv != [] && auxv[|auxv| - 1].kind == AT_NULL && forall i | 0 <= i < |auxv| - 1 :: auxv[i].kind != AT_NULL
  }

  lemma {:induction false} ScanAuxFinds(before: seq<nat>, auxv: seq<Aux>, rest: seq<Byte>, d: seq<Byte>, i: nat)
    requires Usizes(before) && Terminated(auxv) && i == |before| && d == Words(before + AuxWords(auxv)) + rest
    ensures ScanAux(d, i) == Some(auxv)
    decreases |auxv|
  {
    EntryRead(before, auxv, rest, i);
    if |auxv| > 1 {
      EntryMoves(before, auxv);
      ScanAuxFinds(before + [auxv[0].kind, auxv[0].value], auxv[1..], rest, d, i + 2);
      ScanAuxMore(d, i, auxv[0], auxv[1..]);
    } else {
      ScanAuxLast(d, i, auxv[0]);
    }
    Uncons(auxv);
  }

  lemma Uncons(auxv: seq<Aux>)
    requires auxv != []
    ensures auxv == [auxv[0]] + auxv[1..] && (|auxv| == 1 ==> auxv == [auxv[0]])
  {
  }

  lemma EntryMoves(before: seq<nat>, auxv: seq<Aux>)
    requires auxv != []
    ensures before + [auxv[0].kind, auxv[0].value] + AuxWords(auxv[1..]) == before + AuxWords(auxv)
  {
  }

  lemma EntryRead(before: seq<nat>, auxv: seq<Aux>, rest: seq<Byte>, i: nat)
    requires Usizes(before) && auxv != [] && i == |before|
    ensures var d := Words(before + AuxWords(auxv)) + rest;
            8 * i + 16 <= |d| && WordAt(d, i) == auxv[0].kind && WordAt(d, i + 1) == auxv[0].value
  {
    var ws := before + AuxWords(auxv);
    AuxWordsBound(auxv);
    assert ws[i] == auxv[0].kind && ws[i + 1] == auxv[0].value;
    WordsRead(ws, rest, i);
    WordsRead(ws, rest, i + 1);
  }

  lemma ScanAuxMore(d: seq<Byte>, i: nat, e: Aux, rest: seq<Aux>)
    requires 8 * i + 16 <= |d| && WordAt(d, i) == e.kind && WordAt(d, i + 1) == e.value && e.kind != AT_NULL
    requires ScanAux(d, i + 2) == Some(rest)
    ensures ScanAux(d, i) == Some([e] + rest)
  {
  }

  lemma ScanAuxLast(d: seq<Byte>, i: nat, e: Aux)
    requires 8 * i + 16 <= |d| && WordAt(d, i) == e.kind && WordAt(d, i + 1) == e.value && e.kind == AT_NULL
    ensures ScanAux(d, i) == Some([e])
  {
  }

  lemma {:induction false} AuxWordsBound(auxv: seq<Aux>)
    ensures Usizes(AuxWords(auxv))
  {
    if auxv != [] { AuxWordsBound(auxv[1..]); }
  }

  /** A string comes back exactly when it holds no zero byte. */
  lemma {:induction false} CStringExactly(d: seq<Byte>, k: nat, s: seq<Byte>)
    requires k + |s| < |d| && d[k..k + |s| + 1] == s + [0]
    ensures CString(d, k).Some? && (CString(d, k) == Some(s) <==> 0 !in s)
    decreases |s|
  {
    FirstByte(d, k, s);
    if s != [] && s[0] != 0 {
      CStringExactly(d, k + 1, s[1..]);
    }
  }

  lemma FirstByte(d: seq<Byte>, k: nat, s: seq<Byte>)
    requires k + |s| < |d| && d[k..k + |s| + 1] == s + [0]
    ensures d[k] == (if s == [] then 0 else s[0])
    ensures s != [] ==> d[k + 1..k + 1 + |s[1..]| + 1] == s[1..] + [0] && s == [s[0]] + s[1..]
  {
    var t := d[k..k + |s| + 1];
    assert t[0] == d[k] && (s + [0])[0] == if s == [] then 0 else s[0];
    if s != [] {
      assert t[1..] == d[k + 1..k + 1 + |s|];
      assert (s + [0])[1..] == s[1..] + [0];
    }
  }

  ghost predicate NoZero(strs: seq<seq<Byte>>) { forall i | 0 <= i < |strs| :: 0 !in strs[i] }

  lemma StringsTail(sp: nat, d: seq<Byte>, ptrs: seq<nat>, strs: seq<seq<Byte>>)
    requires strs != [] && Strings(sp, d, ptrs, strs)
    ensures At(sp, d, ptrs[0], strs[0] + [0]) && Strings(sp, d, ptrs[1..], strs[1..])
  {
    forall i | 0 <= i < |strs| - 1 ensures At(sp, d, ptrs[1..][i], strs[1..][i] + [0]) {
      assert At(sp, d, ptrs[i + 1], strs[i + 1] + [0]);
    }
  }

  lemma NoZeroTail(strs: seq<seq<Byte>>)
    requires strs != []
    ensures NoZero(strs) <==> 0 !in strs[0] && NoZero(strs[1..])
  {
    assert forall i | 0 <= i < |strs| - 1 :: strs[1..][i] == strs[i + 1];
    if 0 !in strs[0] && NoZero(strs[1..]) {
      forall i | 0 <= i < |strs| ensures 0 !in strs[i] {
        if i > 0 { assert strs[1..][i - 1] == strs[i]; }
      }
    }
  }

  lemma ConsEqual(s: seq<Byte>, rest: seq<seq<Byte>>, strs: seq<seq<Byte>>)
    requires strs != []
    ensures [s] + rest == strs <==> s == strs[0] && rest == strs[1..]
  {
    if [s] + rest == strs { assert ([s] + rest)[0] == s && ([s] + rest)[1..] == rest; }
    assert strs == [strs[0]] + strs[1..];
  }

  lemma {:induction false} TextsExactly(sp: nat, d: seq<Byte>, ptrs: seq<nat>, strs: seq<seq<Byte>>)
    requires Strings(sp, d, ptrs, strs)
    ensures Texts(sp, d, ptrs).Some? && |Texts(sp, d, ptrs).value| == |strs|
    ensures Texts(sp, d, ptrs) == Some(strs) <==> NoZero(strs)
  {
    if strs != [] {
      StringsTail(sp, d, ptrs, strs);
      CStringAt(sp, d, ptrs[0], strs[0]);
      TextsExactly(sp, d, ptrs[1..], strs[1..]);
      NoZeroTail(strs);
      ConsEqual(CString(d, ptrs[0] - sp).value, Texts(sp, d, ptrs[1..]).value, strs);
    }
  }

  lemma CStringAt(sp: nat, d: seq<Byte>, p: nat, s: seq<Byte>)
    requires At(sp, d, p, s + [0])
    ensures sp <= p && CString(d, p - sp).Some? && (CString(d, p - sp).value == s <==> 0 !in s)
  {
    CStringExactly(d, p - sp, s);
  }

  /** A vector that was read ends with its first AT_NULL entry. */
  lemma {:induction false} ScanAuxTerminated(d: seq<Byte>, i: nat)
    ensures ScanAux(d, i).Some? ==> Terminated(ScanAux(d, i).value)
    decreases |d| - 8 * i
  {
    if 8 * i + 16 <= |d| && WordAt(d, i) != AT_NULL { ScanAuxTerminated(d, i + 2); }
  }

  lemma DecodeTerminated(sp: nat, d: seq<Byte>)
    ensures Decode(sp, d).Some? ==> Terminated(Decode(sp, d).value.auxv)
  {
    if |d| >= 8 && ScanPtrs(d, 1).Some? {
      var argv := ScanPtrs(d, 1).value;
      if ScanPtrs(d, 2 + |argv|).Some? {
        ScanAuxTerminated(d, 3 + |argv| + |ScanPtrs(d, 2 + |argv|).value|);
      }
    }
  }

  lemma DecodesTerminated(sp: nat, d: seq<Byte>, argv: seq<nat>, envp: seq<nat>, args: seq<seq<Byte>>,
                          envs: seq<seq<Byte>>,
                          auxv: seq<Aux>)
    requires At(sp, d, sp, Words(Header(argv, envp, auxv))) && Strings(sp, d, argv, args) && Strings(sp, d, envp, envs)
    requires forall i | 0 <= i < |argv| :: 0 < argv[i] < USIZE_END
    requires forall i | 0 <= i < |envp| :: 0 < envp[i] < USIZE_END
    requires |args| < USIZE_END && Terminated(auxv)
    ensures Decode(sp, d).Some?
    ensures Decode(sp, d) == Some(Start(args, envs, auxv)) <==> NoZero(args) && NoZero(envs)
  {
    HeaderReads(sp, d, argv, envp, auxv);
    TextsExactly(sp, d, argv, args);
    TextsExactly(sp, d, envp, envs);
    DecodeOf(sp, d, argv, envp, auxv, Texts(sp, d, argv).value, Texts(sp, d, envp).value);
  }

  /** An image laid out as `init_stack` does reads back as the arguments, the environment and the
      auxiliary vector, exactly when no string holds a zero byte and the vector ends with its first
      AT_NULL entry. */
  lemma DecodesBack(sp: nat, d: seq<Byte>, argv: seq<nat>, envp: seq<nat>, args: seq<seq<Byte>>, envs: seq<seq<Byte>>,
                    auxv: seq<Aux>)
    requires At(sp, d, sp, Words(Header(argv, envp, auxv))) && Strings(sp, d, argv, args) && Strings(sp, d, envp, envs)
    requires forall i | 0 <= i < |argv| :: 0 < argv[i] < USIZE_END
    requires forall i | 0 <= i < |envp| :: 0 < envp[i] < USIZE_END
    requires |args| < USIZE_END
    ensures Decode(sp, d) == Some(Start(args, envs, auxv)) <==> NoZero(args) && NoZero(envs) && Terminated(auxv)
  {
    DecodeTerminated(sp, d);
    if Terminated(auxv) { DecodesTerminated(sp, d, argv, envp, args, envs, auxv); }
  }

  /** What decoding comes to, once the scans have succeeded. */
  lemma DecodeOf(sp: nat, d: seq<Byte>, argv: seq<nat>, envp: seq<nat>, auxv: seq<Aux>, args: seq<seq<Byte>>,
                 envs: seq<seq<Byte>>)
    requires |d| >= 8 && ScanPtrs(d, 1) == Some(argv) && ScanPtrs(d, 2 + |argv|) == Some(envp)
    requires ScanAux(d, 3 + |argv| + |envp|) == Some(auxv)
    requires Texts(sp, d, argv) == Some(args) && Texts(sp, d, envp) == Some(envs) && WordAt(d, 0) == |args|
    ensures Decode(sp, d) == Some(Start(args, envs, auxv))
  {
    assert Decode(sp, d) == DecodeArgv(sp, d, argv);
    DecodeAfterArgv(sp, d, argv, envp);
    DecodeAfterEnvp(sp, d, argv, envp, auxv, args, envs);
  }

  lemma DecodeAfterArgv(sp: nat, d: seq<Byte>, argv: seq<nat>, envp: seq<nat>)
    requires |d| >= 8 && ScanPtrs(d, 2 + |argv|) == Some(envp)
    ensures DecodeArgv(sp, d, argv) == DecodeEnvp(sp, d, argv, envp)
  {
  }

  lemma DecodeAfterEnvp(sp: nat, d: seq<Byte>, argv: seq<nat>, envp: seq<nat>, auxv: seq<Aux>, args: seq<seq<Byte>>,
                        envs: seq<seq<Byte>>)
    requires |d| >= 8 && ScanAux(d, 3 + |argv| + |envp|) == Some(auxv)
    requires Texts(sp, d, argv) == Some(args) && Texts(sp, d, envp) == Some(envs) && WordAt(d, 0) == |args|
    ensures DecodeEnvp(sp, d, argv, envp) == Some(Start(args, envs, auxv))
  {
    Assembled(WordAt(d, 0), Texts(sp, d, argv), Texts(sp, d, envp), ScanAux(d, 3 + |argv| + |envp|), args, envs, auxv);
  }

  lemma Assembled(argc: nat, a: Option<seq<seq<Byte>>>, e: Option<seq<seq<Byte>>>, v: Option<seq<Aux>>,
                  args: seq<seq<Byte>>, envs: seq<seq<Byte>>, auxv: seq<Aux>)
    requires a == Some(args) && e == Some(envs) && v == Some(auxv) && argc == |args|
    ensures Assemble(argc, a, e, v) == Some(Start(args, envs, auxv))
  {
  }

  lemma HeaderReads(sp: nat, d: seq<Byte>, argv: seq<nat>, envp: seq<nat>, auxv: seq<Aux>)
    requires At(sp, d, sp, Words(Header(argv, envp, auxv))) && |argv| < USIZE_END && Terminated(auxv)
    requires forall i | 0 <= i < |argv| :: 0 < argv[i] < USIZE_END
    requires forall i | 0 <= i < |envp| :: 0 < envp[i] < USIZE_END
    ensures |d| >= 8 && WordAt(d, 0) == |argv| && ScanPtrs(d, 1) == Some(argv)
    ensures ScanPtrs(d, 2 + |argv|) == Some(envp) && ScanAux(d, 3 + |argv| + |envp|) == Some(auxv)
  {
    var ws := Header(argv, envp, auxv);
    var rest := d[|Words(ws)|..];
    SplitAt(sp, d, Words(ws));
    ArgumentsRead(argv, envp, auxv, rest);
    EnvironmentRead(argv, envp, auxv, rest);
    VectorRead(argv, envp, auxv, rest);
  }

  lemma SplitAt(sp: nat, d: seq<Byte>, b: seq<Byte>)
    requires At(sp, d, sp, b)
    ensures d == b + d[|b|..]
  {
  }

  lemma ArgumentsRead(argv: seq<nat>, envp: seq<nat>, auxv: seq<Aux>, rest: seq<Byte>)
    requires |argv| < USIZE_END && Usizes(argv) && Usizes(envp) && forall i | 0 <= i < |argv| :: argv[i] != 0
    ensures var d := Words(Header(argv, envp, auxv)) + rest; WordAt(d, 0) == |argv| && ScanPtrs(d, 1) == Some(argv)
  {
    HeaderWords(argv, envp, auxv);
    WordsRead(Header(argv, envp, auxv), rest, 0);
    ScanPtrsFinds(Header(argv, envp, auxv), rest, 1, argv);
  }

  lemma EnvironmentRead(argv: seq<nat>, envp: seq<nat>, auxv: seq<Aux>, rest: seq<Byte>)
    requires |argv| < USIZE_END && Usizes(argv) && Usizes(envp) && forall i | 0 <= i < |envp| :: envp[i] != 0
    ensures ScanPtrs(Words(Header(argv, envp, auxv)) + rest, 2 + |argv|) == Some(envp)
  {
    HeaderWords(argv, envp, auxv);
    ScanPtrsFinds(Header(argv, envp, auxv), rest, 2 + |argv|, envp);
  }

  lemma VectorRead(argv: seq<nat>, envp: seq<nat>, auxv: seq<Aux>, rest: seq<Byte>)
    requires |argv| < USIZE_END && Usizes(argv) && Usizes(envp) && Terminated(auxv)
    ensures ScanAux(Words(Header(argv, envp, auxv)) + rest, 3 + |argv| + |envp|) == Some(auxv)
  {
    HeaderWords(argv, envp, auxv);
    ScanAuxFinds([|argv|] + argv + [0] + envp + [0], auxv, rest, Words(Header(argv, envp, auxv)) + rest,
        3 + |argv| + |envp|);
  }

  lemma HeaderWords(argv: seq<nat>, envp: seq<nat>, auxv: seq<Aux>)
    requires |argv| < USIZE_END && Usizes(argv) && Usizes(envp)
    ensures var ws := Header(argv, envp, auxv);
            && Usizes(ws) && ws[0] == |argv|
            && ws[1..1 + |argv|] == argv && ws[1 + |argv|] == 0
            && ws[2 + |argv|..2 + |argv| + |envp|] == envp && ws[2 + |argv| + |envp|] == 0
    ensures Usizes([|argv|] + argv + [0] + envp + [0])
  {
    AuxWordsBound(auxv);
  }

  /** An entry of the vector keeps its kind and, except for the two that point into the image, its value. */
  ghost predicate Resolved(sp: nat, d: seq<Byte>, was: Aux, e: Aux, args: seq<seq<Byte>>) {
    if was.kind == AT_RANDOM then e.kind == was.kind && At(sp, d, e.value, RandomBytes())
    else if was.kind == AT_EXECFN then e.kind == was.kind && args != [] && At(sp, d, e.value, args[0] + [0])
    else e == was
  }

  /** `app_stack_region`: the image for a stack region, loaded so that it ends at its top, starts on a
      multiple of 16 and decodes back. */
  method AppStackRegion(args: seq<seq<Byte>>, envs: seq<seq<Byte>>, auxv: array<Aux>, base: nat,
                        size: nat) returns (data: seq<Byte>)
    requires Needed(args, envs, auxv.Length) <= base + size < USIZE_END
    requires forall i | 0 <= i < auxv.Length && auxv[i].kind == AT_EXECFN :: args != []
    modifies auxv
    ensures |data| <= base + size && (base + size - |data|) % 16 == 0
    ensures forall i | 0 <= i < auxv.Length :: Resolved(base + size - |data|, data, old(auxv[i]), auxv[i], args)
    ensures Decode(base + size - |data|, data) == Some(Start(args, envs, auxv[..])) <==>
              NoZero(args) && NoZero(envs) && Terminated(auxv[..])
  {
    ghost var sp, argv, envp, random;
    data, sp, argv, envp, random := InitStack(args, envs, auxv, base + size);
    DecodesBack(sp, data, argv, envp, args, envs, auxv[..]);
  }

  /** No vector at all: the image is built, ends where it should, and does not decode back. */
  method NoVector(args: seq<seq<Byte>>, envs: seq<seq<Byte>>, base: nat, size: nat) returns (data: seq<Byte>)
    requires Needed(args, envs, 0) <= base + size < USIZE_END
    ensures |data| <= base + size && (base + size - |data|) % 16 == 0
    ensures Decode(base + size - |data|, data) != Some(Start(args, envs, []))
  {
    var auxv := new Aux[0];
    data := AppStackRegion(args, envs, auxv, base, size);
    assert auxv[..] == [];
  }
}
