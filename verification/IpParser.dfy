/**
 The address parser itself: a cursor over the text that advances and is set back,
 and the arrays of groups it fills in place. Each method is tied to the grammar
 of IpText; together with the theorems there, every text form is read back.
 */
module IpParser {
  import opened Options
  import opened IpText

  /** The result of a method and where it left the cursor, against the grammar. */
  ghost predicate Agrees<T>(r: Option<T>, left: Text, spec: Option<Step<T>>) {
    match spec
    case None => r == None
    case Some(Step(v, rest)) => r == Some(v) && left == rest
  }

  class Parser {
    const data: Text
    var pos: nat

    ghost predicate Valid()
      reads this
    {
      pos <= |data|
    }

    ghost function Left(): Text
      requires Valid()
      reads this
    {
      data[pos..]
    }

    constructor (data: Text)
      ensures Valid() && this.data == data && Left() == data
    {
      this.data := data;
      pos := 0;
    }

    method Lookahead(c: char) returns (yes: bool)
      requires Valid()
      ensures yes <==> StartsWith(Left(), c)
    {
      return pos < |data| && data[pos] == c;
    }

    method AcceptChar(c: char) returns (ok: bool)
      requires Valid()
      modifies this
      ensures Valid() && pos >= old(pos) && (ok <==> StartsWith(old(Left()), c))
      ensures ok ==> pos == old(pos) + 1 && Left() == old(Left())[1..]
    {
      if pos == |data| { return false; }
      pos := pos + 1;
      return data[pos - 1] == c;
    }

    method AcceptDigit(hex: bool) returns (r: Option<nat>)
      requires Valid()
      modifies this
      ensures Valid() && pos >= old(pos)
      ensures r == (if old(Left()) == [] then None else DigitValue(old(Left())[0], hex))
      ensures r.Some? ==> pos == old(pos) + 1 && Left() == old(Left())[1..]
    {
      if pos == |data| { return None; }
      pos := pos + 1;
      return DigitValue(data[pos - 1], hex);
    }

    method AcceptNumber(maxDigits: nat, maxValue: nat, hex: bool) returns (r: Option<nat>)
      requires Valid() && maxDigits > 0
      modifies this
      ensures Valid() && pos >= old(pos) && Agrees(r, Left(), Number(old(Left()), maxDigits, maxValue, hex))
    {
      NumberIs(Left(), maxDigits, maxValue, hex);
      var first := AcceptDigit(hex);
      if first == None { return None; }
      var value := AcceptDigits(maxDigits - 1, hex, first.value);
      return if value < maxValue then Some(value) else None;
    }

    /** The loop of `accept_number`: a digit that does not follow sets the cursor back. */
    method AcceptDigits(k: nat, hex: bool, start: nat) returns (value: nat)
      requires Valid()
      modifies this
      ensures Valid() && pos >= old(pos) && Digits(old(Left()), k, hex, start) == Step(value, Left())
    {
      value := start;
      var more := k;
      ghost var all := Digits(Left(), k, hex, start);
      while more > 0
        invariant Valid() && pos >= old(pos)
        invariant all == Digits(Left(), more, hex, value)
      {
        var next := AcceptOneMore(more, hex, value);
        if next == None { return; }
        value := next.value;
        more := more - 1;
      }
      DigitsEnd(Left(), 0, hex, value);
    }

    method AcceptOneMore(ghost more: nat, hex: bool, value: nat) returns (next: Option<nat>)
      requires Valid() && more > 0
      modifies this
      ensures Valid() && pos >= old(pos)
      ensures next == None ==> Digits(old(Left()), more, hex, value) == Step(value, Left())
      ensures next.Some? ==> Digits(old(Left()), more, hex, value) == Digits(Left(), more - 1, hex, next.value)
    {
      var mark := pos;
      DigitsNext(Left(), more, hex, value);
      var digit := AcceptDigit(hex);
      if digit == None {
        pos := mark;
        return None;
      }
      return Some(Grow(value, digit.value, hex));
    }

    /** `accept_ipv4_octets` */
    method AcceptOctets() returns (r: Option<seq<nat>>)
      requires Valid()
      modifies this
      ensures Valid() && pos >= old(pos) && Agrees(r, Left(), Octets(old(Left()), 4))
    {
      ghost var all := Octets(Left(), 4);
      var octets: seq<nat> := [];
      var more := 4;
      PrecededNone(all);
      while more > 1
        invariant 1 <= more <= 4 && |octets| + more == 4 && Valid() && pos >= old(pos)
        invariant all == Preceded(octets, Octets(Left(), more))
      {
        ghost var todo := Octets(Left(), more);
        var octet := AcceptOctetDot(more);
        if octet == None { return None; }
        OctetTaken(all, octets, octet.value, todo, Octets(Left(), more - 1));
        octets := octets + [octet.value];
        more := more - 1;
      }
      var last := AcceptLastOctet();
      if last == None { return None; }
      return Some(octets + [last.value]);
    }

    method AcceptLastOctet() returns (r: Option<nat>)
      requires Valid()
      modifies this
      ensures Valid() && pos >= old(pos)
      ensures Octets(old(Left()), 1) == if r == None then None else Some(Step([r.value], Left()))
    {
      r := AcceptNumber(3, 0x100, false);
    }

    method AcceptOctetDot(ghost m: nat) returns (r: Option<nat>)
      requires Valid() && m > 1
      modifies this
      ensures Valid() && pos >= old(pos)
      ensures Octets(old(Left()), m) == if r == None then None else Preceded([r.value], Octets(Left(), m - 1))
    {
      r := AcceptNumber(3, 0x100, false);
      if r == None { return; }
      var dot := AcceptChar('.');
      if !dot { r := None; }
    }

    /** `try_do` around a colon and `accept_ipv4_mapped_ipv6_part`: two groups, or the cursor back. */
    method TryMapped(ghost groups: seq<nat>) returns (r: Option<seq<nat>>)
      requires Valid()
      modifies this
      ensures Valid() && pos >= old(pos) && (r.Some? ==> |r.value| == 2)
      ensures Mapped(groups, old(Left())) == Step(if r.Some? then groups + r.value else groups, Left())
    {
      var mark := pos;
      var colon := AcceptChar(':');
      if colon {
        var o := AcceptOctets();
        if o.Some? { return Some(Pairs(o.value)); }
      }
      pos := mark;
      return None;
    }

    /** The number just read goes into the arrays; it may bring a dotted part with it. */
    method PlacePart(part: nat, head: array<nat>, tail: array<nat>, h: nat, t: nat, colons: bool)
      returns (ok: bool, h': nat, t': nat)
      requires Valid() && Shape(head, tail, h, t)
      modifies this, head, tail
      ensures Valid() && pos >= old(pos)
      ensures var spec := Place(old(View(head, tail, h, t, colons)), part, old(Left()));
              && (ok <==> spec.Some?)
              && (ok ==> Shape(head, tail, h', t') && spec == Some(Step(View(head, tail, h', t', colons), Left())))
    {
      if !colons && h < 8 {
        h' := PlaceHead(part, head, tail, h, t);
        return true, h', t;
      }
      if t < 6 {
        t' := PlaceTail(part, head, tail, h, t, colons);
        return true, h, t';
      }
      return false, h, t;
    }

    method PlaceHead(part: nat, head: array<nat>, tail: array<nat>, h: nat, t: nat) returns (h': nat)
      requires Valid() && Shape(head, tail, h, t) && h < 8
      modifies this, head
      ensures Valid() && pos >= old(pos) && Shape(head, tail, h', t)
      ensures Place(old(View(head, tail, h, t, false)), part, old(Left()))
              == Some(Step(View(head, tail, h', t, false), Left()))
    {
      head[h] := part;
      assert head[..h + 1] == old(head[..h]) + [part];
      h' := h + 1;
      if h' == 6 && head[..6] == [0, 0, 0, 0, 0, 0xffff] {
        h' := MappedInto(head, 6);
      }
    }

    method PlaceTail(part: nat, head: array<nat>, tail: array<nat>, h: nat, t: nat,
                     ghost colons: bool) returns (t': nat)
      requires Valid() && Shape(head, tail, h, t) && t < 6 && (colons || h == 8)
      modifies this, tail
      ensures Valid() && pos >= old(pos) && Shape(head, tail, h, t')
      ensures Place(old(View(head, tail, h, t, colons)), part, old(Left()))
              == Some(Step(View(head, tail, h, t', colons), Left()))
    {
      AllZeroPrefix(head, h);
      tail[t] := part;
      ghost var groups := old(tail[..t]) + [part];
      assert tail[..t + 1] == groups && head[..] == old(head[..]);
      assert groups == [0xffff] <==> t == 0 && part == 0xffff;
      t' := t + 1;
      if t' == 1 && tail[0] == 0xffff && head[..] == [0, 0, 0, 0, 0, 0, 0, 0] {
        t' := MappedInto(tail, 1);
      }
    }

    /** Two more groups behind the first k, when a dotted part follows. */
    method MappedInto(parts: array<nat>, k: nat) returns (k': nat)
      requires Valid() && k + 2 <= parts.Length
      modifies this, parts
      ensures Valid() && pos >= old(pos) && k <= k' <= k + 2
      ensures Mapped(old(parts[..k]), old(Left())) == Step(parts[..k'], Left())
      ensures forall i | 0 <= i < parts.Length && !(k <= i < k') :: parts[i] == old(parts[i])
    {
      ghost var groups := parts[..k];
      var two := TryMapped(groups);
      if two == None { return k; }
      StorePair(parts, k, two.value);
      return k + 2;
    }

    /** `try_do` around the double colon. */
    method TryDoubleColon() returns (yes: bool)
      requires Valid()
      modifies this
      ensures Valid() && pos >= old(pos) && (yes <==> DoubleColon(old(Left())))
      ensures Left() == if yes then old(Left())[2..] else old(Left())
    {
      var mark := pos;
      var first := AcceptChar(':');
      if first {
        var second := AcceptChar(':');
        if second { return true; }
      }
      pos := mark;
      return false;
    }

    /** `try_do` around a group of up to four hexadecimal digits. */
    method TryNumber() returns (r: Option<nat>)
      requires Valid()
      modifies this
      ensures Valid() && pos >= old(pos)
      ensures var spec := Number(old(Left()), 4, 0x10000, true);
              if spec == None then r == None && Left() == old(Left())
              else r == Some(spec.value.value) && Left() == spec.value.rest
    {
      var mark := pos;
      r := AcceptNumber(4, 0x10000, true);
      if r == None { pos := mark; }
    }

    /** One round of `accept_ipv6_part`. */
    method AcceptRound(head: array<nat>, tail: array<nat>, h: nat, t: nat, colons: bool)
      returns (ok: bool, h': nat, t': nat, colons': bool)
      requires Valid() && Shape(head, tail, h, t)
      modifies this, head, tail
      ensures Valid() && pos >= old(pos)
      ensures var spec := Round(old(Left()), old(View(head, tail, h, t, colons)));
              && (ok <==> spec.Some?)
              && (ok ==> Shape(head, tail, h', t') && spec == Some(Step(View(head, tail, h', t', colons'), Left())))
    {
      RoundIsFinish(Left(), View(head, tail, h, t, colons));
      h', t', colons' := h, t, colons;
      var double := TryDoubleColon();
      if double {
        if colons || h >= 7 { return false, h, t, colons; }
        colons' := true;
      } else if h != 0 || (colons && t != 0) {
        var colon := AcceptChar(':');
        if !colon { return false, h, t, colons; }
      }
      ok, h', t' := AcceptFinish(head, tail, h, t, colons', double);
    }

    method AcceptFinish(head: array<nat>, tail: array<nat>, h: nat, t: nat, colons: bool, double: bool)
      returns (ok: bool, h': nat, t': nat)
      requires Valid() && Shape(head, tail, h, t)
      modifies this, head, tail
      ensures Valid() && pos >= old(pos)
      ensures var spec := Finish(old(Left()), old(View(head, tail, h, t, colons)), double);
              && (ok <==> spec.Some?)
              && (ok ==> Shape(head, tail, h', t') && spec == Some(Step(View(head, tail, h', t', colons), Left())))
    {
      var part := TryNumber();
      if part == None { return double, h, t; }
      ok, h', t' := PlacePart(part.value, head, tail, h, t, colons);
    }

    /** `accept_ipv6_part`: each round takes at least one character, so the recursion ends. */
    method AcceptParts(head: array<nat>, tail: array<nat>, h: nat, t: nat, colons: bool)
      returns (ok: bool, h': nat, t': nat, ghost colons': bool)
      requires Valid() && Shape(head, tail, h, t)
      modifies this, head, tail
      ensures Valid() && pos >= old(pos)
      ensures var spec := Parts(old(Left()), old(View(head, tail, h, t, colons)));
              && (ok <==> spec.Some?)
              && (ok ==> Shape(head, tail, h', t') && spec == Some(Step(View(head, tail, h', t', colons'), Left())))
      decreases |data| - pos
    {
      var c;
      ok, h', t', c := AcceptRound(head, tail, h, t, colons);
      colons' := c;
      if !ok { return; }
      if h' + t' > 8 { return false, h', t', c; }
      var more := Lookahead(':');
      if !more {
        if h' < 8 && !c { return false, h', t', c; }
        return true, h', t', c;
      }
      ok, h', t', colons' := AcceptParts(head, tail, h', t', c);
    }

    /** `accept_ipv6` */
    method AcceptIpv6() returns (r: Option<seq<nat>>)
      requires Valid()
      modifies this
      ensures Valid() && pos >= old(pos) && Agrees(r, Left(), Ipv6(old(Left())))
    {
      var head := new nat[8](_ => 0);
      var tail := new nat[6](_ => 0);
      assert head[..0] == [] && tail[..0] == [];
      var ok, h, t;
      ghost var colons;
      ok, h, t, colons := AcceptParts(head, tail, 0, 0, false);
      if !ok { return None; }
      ghost var g := View(head, tail, h, t, colons);
      CopyTail(head, tail, h, t);
      assert head[..] == Address(g);
      return Some(head[..]);
    }

    /** `accept_ip` */
    method AcceptIp() returns (r: Option<Ip>)
      requires Valid()
      modifies this
      ensures Valid() && pos >= old(pos) && Agrees(r, Left(), AnyIp(old(Left())))
    {
      var mark := pos;
      var v4 := AcceptOctets();
      if v4.Some? { return Some(V4(v4.value)); }
      pos := mark;
      var v6 := AcceptIpv6();
      if v6.Some? { return Some(V6(v6.value)); }
      return None;
    }

    /** `until_eof` around `accept_ip` */
    method UntilEof() returns (r: Option<Ip>)
      requires Valid()
      modifies this
      ensures r == ParseIp(old(Left()))
    {
      r := AcceptIp();
      AllRead(r, Left(), AnyIp(old(Left())));
      if pos != |data| { r := None; }
    }
  }

  method StorePair(parts: array<nat>, k: nat, two: seq<nat>)
    requires k + 2 <= parts.Length && |two| == 2
    modifies parts
    ensures parts[..k + 2] == old(parts[..k]) + two
    ensures forall i | 0 <= i < parts.Length && !(k <= i < k + 2) :: parts[i] == old(parts[i])
  {
    parts[k] := two[0];
    parts[k + 1] := two[1];
  }

  /** The tail goes to the end of the address. */
  method CopyTail(head: array<nat>, tail: array<nat>, h: nat, t: nat)
    requires Shape(head, tail, h, t) && h + t <= 8
    modifies head
    ensures head[..] == old(head[..h]) + Zeros(8 - h - t) + tail[..t]
  {
    forall i | 8 - t <= i < 8 {
      head[i] := tail[i - (8 - t)];
    }
  }

  /** Parses a whole text, as `from_str` does. */
  method Parse(text: Text) returns (r: Option<Ip>)
    ensures r == ParseIp(text)
  {
    var p := new Parser(text);
    r := p.UntilEof();
  }

  lemma AllRead(r: Option<Ip>, left: Text, spec: Option<Step<Ip>>)
    requires Agrees(r, left, spec)
    ensures ToTheEnd(spec) == if left == [] then r else None
  {
  }

  /** Head and tail arrays with h and t groups filled in; the rest of the head is zero. */
  ghost predicate Shape(head: array<nat>, tail: array<nat>, h: nat, t: nat)
    reads head
  {
    head.Length == 8 && tail.Length == 6 && head != tail && h <= 8 && t <= 6 && forall i | h <= i < 8 :: head[i] == 0
  }

  ghost function View(head: array<nat>, tail: array<nat>, h: nat, t: nat, colons: bool): (g: Groups)
    requires Shape(head, tail, h, t)
    reads head, tail
    ensures Bounded(g)
  {
    Groups(head[..h], tail[..t], colons)
  }

  lemma AllZeroPrefix(head: array<nat>, h: nat)
    requires head.Length == 8 && h <= 8 && forall i | h <= i < 8 :: head[i] == 0
    ensures AllZero(head[..h]) <==> head[..] == [0, 0, 0, 0, 0, 0, 0, 0]
  {
    if AllZero(head[..h]) {
      forall i | 0 <= i < 8 ensures head[..][i] == 0 {
        if i < h { assert head[..h][i] == 0; }
      }
    } else {
      var i :| 0 <= i < h && head[..h][i] != 0;
      assert head[..][i] != 0;
    }
  }

  /** Octets already read, before those still to come. */
  ghost function Preceded(done: seq<nat>, o: Option<Step<seq<nat>>>): Option<Step<seq<nat>>> {
    match o case None => None case Some(Step(more, rest)) => Some(Step(done + more, rest))
  }

  lemma PrecededNone(o: Option<Step<seq<nat>>>)
    ensures Preceded([], o) == o
  {
    if o.Some? { assert [] + o.value.value == o.value.value; }
  }

  lemma OctetTaken(all: Option<Step<seq<nat>>>, done: seq<nat>, octet: nat, before: Option<Step<seq<nat>>>,
                   after: Option<Step<seq<nat>>>)
    requires all == Preceded(done, before) && before == Preceded([octet], after)
    ensures all == Preceded(done + [octet], after)
  {
    PrecededTwice(done, [octet], after);
  }

  lemma PrecededTwice(a: seq<nat>, b: seq<nat>, o: Option<Step<seq<nat>>>)
    ensures Preceded(a, Preceded(b, o)) == Preceded(a + b, o)
  {
    if o.Some? { assert a + (b + o.value.value) == a + b + o.value.value; }
  }
}
