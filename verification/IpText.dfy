/**
 The grammar that the address parser accepts, as functions from a text to a value
 and the rest of the text, and what it makes of the first two text forms of
 section 2.2 of RFC 4291: groups of one to four hexadecimal digits of either
 case, in full or with "::" standing for zero groups. Module IpMixed has the third.
 */
module IpText {
  import opened Options

  type Text = seq<char>

  /** A parsed value and the text behind it. */
  datatype Step<+T> = Step(value: T, rest: Text)

  predicate StartsWith(s: Text, c: char) { s != [] && s[0] == c }

  predicate Suffix(r: Text, s: Text) { |r| <= |s| && r == s[|s| - |r|..] }

  lemma SuffixTail(r: Text, s: Text, k: nat)
    requires k <= |s| && Suffix(r, s[k..])
    ensures Suffix(r, s)
  {
  }

  lemma SuffixTrans(q: Text, r: Text, s: Text)
    requires Suffix(q, r) && Suffix(r, s)
    ensures Suffix(q, s)
  {
  }

  // ---- Numbers ----

  function DigitValue(c: char, hex: bool): Option<nat> {
    if '0' <= c <= '9' then Some(c as int - '0' as int)
    else if hex && 'a' <= c <= 'f' then Some(c as int - 'a' as int + 10)
    else if hex && 'A' <= c <= 'F' then Some(c as int - 'A' as int + 10)
    else None
  }

  /** One more digit behind a value. */
  function Grow(value: nat, digit: nat, hex: bool): nat { if hex then value * 16 + digit else value * 10 + digit }

  /** Up to k more digits behind the ones that make `value`. */
  function Digits(s: Text, k: nat, hex: bool, value: nat): Step<nat> {
    if k == 0 || s == [] || DigitValue(s[0], hex) == None then Step(value, s)
    else Digits(s[1..], k - 1, hex, Grow(value, DigitValue(s[0], hex).value, hex))
  }

  lemma {:induction false} DigitsSuffix(s: Text, k: nat, hex: bool, value: nat)
    ensures Suffix(Digits(s, k, hex, value).rest, s)
  {
    if k > 0 && s != [] && DigitValue(s[0], hex).Some? {
      DigitsSuffix(s[1..], k - 1, hex, Grow(value, DigitValue(s[0], hex).value, hex));
      SuffixTail(Digits(s, k, hex, value).rest, s, 1);
    }
  }

  lemma DigitsNext(s: Text, k: nat, hex: bool, value: nat)
    ensures var d := if s == [] then None else DigitValue(s[0], hex);
            Digits(s, k, hex, value) ==
              if k == 0 || d == None then Step(value, s) else Digits(s[1..], k - 1, hex, Grow(value, d.value, hex))
  {
  }

  /** `accept_number` */
  function Number(s: Text, maxDigits: nat, maxValue: nat, hex: bool): (r: Option<Step<nat>>)
    requires maxDigits > 0
    ensures r.Some? ==> r.value.value < maxValue && Suffix(r.value.rest, s) && |r.value.rest| < |s|
  {
    if s == [] || DigitValue(s[0], hex) == None then None
    else
      var d := Digits(s[1..], maxDigits - 1, hex, DigitValue(s[0], hex).value);
      DigitsSuffix(s[1..], maxDigits - 1, hex, DigitValue(s[0], hex).value);
      SuffixTail(d.rest, s, 1);
      if d.value < maxValue then Some(d) else None
  }

  lemma NumberIs(s: Text, maxDigits: nat, maxValue: nat, hex: bool)
    requires maxDigits > 0
    ensures var d := if s == [] then None else DigitValue(s[0], hex);
            Number(s, maxDigits, maxValue, hex) ==
              if d == None then None
              else
                var all := Digits(s[1..], maxDigits - 1, hex, d.value);
                if all.value < maxValue then Some(all) else None
  {
  }

  // ---- Dotted octets ----

  /** `accept_ipv4_octets`, from the octet before the last n - 1. */
  function Octets(s: Text, n: nat): (r: Option<Step<seq<nat>>>)
    requires n > 0
    ensures r.Some? ==> |r.value.value| == n && Suffix(r.value.rest, s)
  {
    match Number(s, 3, 0x100, false)
    case None => None
    case Some(Step(octet, rest)) =>
      if n == 1 then Some(Step([octet], rest))
      else if !StartsWith(rest, '.') then None
      else
        match Octets(rest[1..], n - 1)
        case None => None
        case Some(Step(more, last)) =>
          SuffixTail(last, rest, 1);
          SuffixTrans(last, rest, s);
          Some(Step([octet] + more, last))
  }

  /** Two groups of sixteen bits from four octets. */
  function Pairs(o: seq<nat>): seq<nat>
    requires |o| == 4
  {
    [o[0] * 256 + o[1], o[2] * 256 + o[3]]
  }

  // ---- Groups ----

  /** The groups before and after the double colon, and whether there was one. */
  datatype Groups = Groups(head: seq<nat>, tail: seq<nat>, colons: bool)

  predicate Bounded(g: Groups) { |g.head| <= 8 && |g.tail| <= 6 }

  predicate AllZero(s: seq<nat>) { forall i | 0 <= i < |s| :: s[i] == 0 }

  /** The last part in dotted form: a colon and four octets, taken back when they do not follow. */
  function Mapped(groups: seq<nat>, s: Text): (r: Step<seq<nat>>)
    ensures Suffix(r.rest, s) && |groups| <= |r.value| <= |groups| + 2
  {
    if !StartsWith(s, ':') then Step(groups, s)
    else
      match Octets(s[1..], 4)
      case None => Step(groups, s)
      case Some(Step(o, rest)) =>
        SuffixTail(rest, s, 1);
        Step(groups + Pairs(o), rest)
  }

  /** A number goes to the head, or to the tail once there was a double colon or the head is full. */
  function Place(g: Groups, part: nat, s: Text): (r: Option<Step<Groups>>)
    requires Bounded(g)
    ensures r.Some? ==> Bounded(r.value.value) && Suffix(r.value.rest, s) && r.value.value.colons == g.colons
  {
    if !g.colons && |g.head| < 8 then
      var head := g.head + [part];
      if head == [0, 0, 0, 0, 0, 0xffff] then
        var m := Mapped(head, s);
        Some(Step(g.(head := m.value), m.rest))
      else Some(Step(g.(head := head), s))
    else if |g.tail| < 6 then
      var tail := g.tail + [part];
      if tail == [0xffff] && AllZero(g.head) then
        var m := Mapped(tail, s);
        Some(Step(g.(tail := m.value), m.rest))
      else Some(Step(g.(tail := tail), s))
    else None
  }

  predicate DoubleColon(s: Text) { |s| >= 2 && s[0] == ':' && s[1] == ':' }

  /** One round of `accept_ipv6_part` before it decides whether to go on. */
  function Round(s: Text, g: Groups): (r: Option<Step<Groups>>)
    requires Bounded(g)
    ensures r.Some? ==> Bounded(r.value.value) && Suffix(r.value.rest, s) && |r.value.rest| < |s|
  {
    if DoubleColon(s) then
      if g.colons || |g.head| >= 7 then None
      else
        match Number(s[2..], 4, 0x10000, true)
        case None => Some(Step(g.(colons := true), s[2..]))
        case Some(Step(part, rest)) => PlaceAt(s, 2, rest, g.(colons := true), part)
    else if !Follows(g) then
      match Number(s, 4, 0x10000, true)
      case None => None
      case Some(Step(part, rest)) => PlaceAt(s, 0, rest, g, part)
    else if !StartsWith(s, ':') then None
    else
      match Number(s[1..], 4, 0x10000, true)
      case None => None
      case Some(Step(part, rest)) => PlaceAt(s, 1, rest, g, part)
  }

  /** A round once its colons are behind it; only after a double colon may the number be missing. */
  function Finish(at: Text, g: Groups, double: bool): Option<Step<Groups>>
    requires Bounded(g)
  {
    match Number(at, 4, 0x10000, true)
    case None => if double then Some(Step(g, at)) else None
    case Some(Step(part, rest)) => Place(g, part, rest)
  }

  lemma RoundIsFinish(s: Text, g: Groups)
    requires Bounded(g)
    ensures Round(s, g) ==
              if DoubleColon(s) then (if g.colons || |g.head| >= 7 then None
                  else Finish(s[2..], g.(colons := true), true))
              else if !Follows(g) then Finish(s, g, false)
              else if !StartsWith(s, ':') then None
              else Finish(s[1..], g, false)
  {
  }

  /** A number here must have a colon before it. */
  predicate Follows(g: Groups) { g.head != [] || (g.colons && g.tail != []) }

  function PlaceAt(s: Text, k: nat, rest: Text, g: Groups, part: nat): (r: Option<Step<Groups>>)
    requires Bounded(g) && k <= |s| && Suffix(rest, s[k..]) && |rest| < |s|
    ensures r == Place(g, part, rest)
    ensures r.Some? ==> Suffix(r.value.rest, s) && |r.value.rest| < |s|
  {
    var r := Place(g, part, rest);
    assert r.Some? ==> Suffix(r.value.rest, s) by {
      SuffixTail(rest, s, k);
      if r.Some? { SuffixTrans(r.value.rest, rest, s); }
    }
    r
  }

  /** `accept_ipv6_part` */
  function Parts(s: Text, g: Groups): (r: Option<Step<Groups>>)
    requires Bounded(g)
    ensures r.Some? ==> Bounded(r.value.value) && |r.value.value.head| + |r.value.value.tail| <= 8
    ensures r.Some? ==> r.value.value.colons || |r.value.value.head| == 8
    decreases |s|
  {
    match Round(s, g)
    case None => None
    case Some(Step(next, rest)) =>
      if |next.head| + |next.tail| > 8 then None
      else if !StartsWith(rest, ':') then
        if |next.head| < 8 && !next.colons then None else Some(Step(next, rest))
      else Parts(rest, next)
  }

  function Zeros(n: nat): (z: seq<nat>)
    ensures |z| == n
  {
    seq(n, _ => 0)
  }

  /** The eight groups: the tail at the end, zeros between. */
  function Address(g: Groups): (a: seq<nat>)
    requires |g.head| + |g.tail| <= 8
    ensures |a| == 8
  {
    g.head + Zeros(8 - |g.head| - |g.tail|) + g.tail
  }

  /** `accept_ipv6` */
  function Ipv6(s: Text): Option<Step<seq<nat>>> {
    match Parts(s, Groups([], [], false))
    case None => None
    case Some(Step(g, rest)) => Some(Step(Address(g), rest))
  }

  datatype Ip = V4(octets: seq<nat>) | V6(groups: seq<nat>)

  /** `accept_ip`: the dotted form first, from the same place the other if it fails. */
  function AnyIp(s: Text): Option<Step<Ip>> {
    match Octets(s, 4)
    case Some(Step(o, rest)) => Some(Step(V4(o), rest))
    case None =>
      match Ipv6(s)
      case Some(Step(a, rest)) => Some(Step(V6(a), rest))
      case None => None
  }

  /** `until_eof` around it. */
  function ParseIp(s: Text): Option<Ip> { ToTheEnd(AnyIp(s)) }

  function ToTheEnd(read: Option<Step<Ip>>): Option<Ip> {
    match read
    case Some(Step(ip, rest)) => if rest == [] then Some(ip) else None
    case None => None
  }

  // ---- Texts of groups ----

  predicate AllHex(a: Text) { forall i | 0 <= i < |a| :: DigitValue(a[i], true).Some? }

  function HexValue(a: Text, value: nat): nat
    requires AllHex(a)
  {
    if a == [] then value else HexValue(a[1..], value * 16 + DigitValue(a[0], true).value)
  }

  /** One to four hexadecimal digits, of either case, with or without leading zeros. */
  predicate Spells(a: Text, g: nat) { 1 <= |a| <= 4 && AllHex(a) && HexValue(a, 0) == g }

  predicate AllSpell(ts: seq<Text>, gs: seq<nat>) {
    |ts| == |gs| && forall i | 0 <= i < |ts| :: Spells(ts[i], gs[i])
  }

  /** Groups with single colons between them. */
  function Join(ts: seq<Text>): Text {
    if ts == [] then [] else if |ts| == 1 then ts[0] else ts[0] + ":" + Join(ts[1..])
  }

  predicate Stops(rest: Text) { rest == [] || DigitValue(rest[0], true) == None }

  lemma {:induction false} DigitsRead(a: Text, rest: Text, k: nat, value: nat)
    requires AllHex(a) && |a| <= k && Stops(rest)
    ensures Digits(a + rest, k, true, value) == Step(HexValue(a, value), rest)
  {
    if a == [] {
      assert a + rest == rest;
    } else {
      assert (a + rest)[1..] == a[1..] + rest;
      DigitsRead(a[1..], rest, k - 1, value * 16 + DigitValue(a[0], true).value);
    }
  }

  function Pow16(n: nat): nat { if n == 0 then 1 else 16 * Pow16(n - 1) }

  lemma {:induction false} HexBound(a: Text, value: nat, m: nat)
    requires AllHex(a) && value < Pow16(m)
    ensures HexValue(a, value) < Pow16(m + |a|)
  {
    if a != [] { HexBound(a[1..], value * 16 + DigitValue(a[0], true).value, m + 1); }
  }

  lemma {:induction false} PowGrows(m: nat, n: nat)
    requires m <= n
    ensures Pow16(m) <= Pow16(n)
  {
    if m < n { PowGrows(m, n - 1); }
  }

  /** A spelling is read as the group it spells, up to where the digits stop. */
  lemma NumberRead(a: Text, g: nat, rest: Text)
    requires Spells(a, g) && Stops(rest)
    ensures g < 0x10000 && Number(a + rest, 4, 0x10000, true) == Some(Step(g, rest))
  {
    HexBound(a, 0, 0);
    PowGrows(|a|, 4);
    assert Pow16(4) == 0x10000 by { assert Pow16(2) == 0x100; }
    assert (a + rest)[1..] == a[1..] + rest;
    DigitsRead(a[1..], rest, 3, DigitValue(a[0], true).value);
  }

  // ---- Without a dot there are no octets ----

  lemma NoOctets(s: Text)
    requires '.' !in s
    ensures Octets(s, 4) == None
  {
  }

  /** A text of hexadecimal digits with a colon behind it does not begin with dotted octets. */
  lemma {:induction false} DigitsNoDot(a: Text, y: Text, k: nat, hex: bool, value: nat)
    requires AllHex(a) && StartsWith(y, ':')
    ensures !StartsWith(Digits(a + y, k, hex, value).rest, '.')
    decreases k
  {
    if k > 0 && a != [] && DigitValue(a[0], hex).Some? {
      assert (a + y)[0] == a[0] && (a + y)[1..] == a[1..] + y;
      var more := Grow(value, DigitValue(a[0], hex).value, hex);
      DigitsNoDot(a[1..], y, k - 1, hex, more);
      DigitsNext(a + y, k, hex, value);
    } else {
      assert (a + y)[0] == if a == [] then y[0] else a[0];
      DigitsEnd(a + y, k, hex, value);
    }
  }

  lemma DigitsEnd(s: Text, k: nat, hex: bool, value: nat)
    requires k == 0 || s == [] || DigitValue(s[0], hex) == None
    ensures Digits(s, k, hex, value) == Step(value, s)
  {
  }

  lemma NotOctets(a: Text, y: Text)
    requires AllHex(a) && a != [] && StartsWith(y, ':')
    ensures Octets(a + y, 4) == None
  {
    assert (a + y)[1..] == a[1..] + y;
    if DigitValue(a[0], false).Some? {
      DigitsNoDot(a[1..], y, 2, false, DigitValue(a[0], false).value);
    }
  }

  /** No colon and dotted octets follow. */
  predicate NoDotted(s: Text) { StartsWith(s, ':') ==> Octets(s[1..], 4) == None }

  /** What may stand behind groups in the texts below. */
  predicate Quiet(z: Text) { '.' !in z || DoubleColon(z) }

  lemma QuietNoDotted(z: Text)
    requires Quiet(z)
    ensures NoDotted(z)
  {
    if StartsWith(z, ':') && '.' !in z { NoOctets(z[1..]); }
  }

  function Placed(g: Groups, part: nat): Option<Groups> {
    if !g.colons && |g.head| < 8 then Some(g.(head := g.head + [part]))
    else if |g.tail| < 6 then Some(g.(tail := g.tail + [part]))
    else None
  }

  lemma PlacePlain(g: Groups, part: nat, s: Text)
    requires Bounded(g) && NoDotted(s)
    ensures Place(g, part, s) == match Placed(g, part) case None => None case Some(n) => Some(Step(n, s))
  {
  }

  lemma {:induction false} JoinPlain(ts: seq<Text>, gs: seq<nat>)
    requires AllSpell(ts, gs)
    ensures '.' !in Join(ts) && (ts != [] ==> Join(ts) != [] && DigitValue(Join(ts)[0], true).Some?)
  {
    if ts != [] {
      assert Spells(ts[0], gs[0]);
      assert forall i | 0 <= i < |ts[0]| :: ts[0][i] != '.';
      assert forall i | 0 <= i < |ts[1..]| :: Spells(ts[1..][i], gs[1..][i]) by {
        assert forall i | 0 <= i < |ts| - 1 :: ts[1..][i] == ts[i + 1] && gs[1..][i] == gs[i + 1];
      }
      JoinPlain(ts[1..], gs[1..]);
    }
  }

  // ---- Running over the groups ----

  /** What is left after the first text of a list. */
  function Behind(ts: seq<Text>, z: Text): Text
    requires ts != []
  {
    if |ts| == 1 then z else ":" + Join(ts[1..]) + z
  }

  lemma JoinSplit(ts: seq<Text>, z: Text)
    requires ts != []
    ensures Join(ts) + z == ts[0] + Behind(ts, z)
  {
    if |ts| > 1 {
      assert ts[0] + ":" + Join(ts[1..]) + z == ts[0] + (":" + Join(ts[1..]) + z);
    }
  }

  lemma BehindPlain(ts: seq<Text>, gs: seq<nat>, z: Text)
    requires ts != [] && AllSpell(ts, gs) && Quiet(z) && Stops(z)
    ensures AllSpell(ts[1..], gs[1..]) && NoDotted(Behind(ts, z)) && Stops(Behind(ts, z))
    ensures |ts| > 1 ==> StartsWith(Behind(ts, z), ':') && !DoubleColon(Behind(ts, z))
  {
    assert forall i | 0 <= i < |ts| - 1 :: ts[1..][i] == ts[i + 1] && gs[1..][i] == gs[i + 1];
    JoinPlain(ts[1..], gs[1..]);
    if |ts| == 1 { QuietNoDotted(z); } else { BehindNoDotted(ts, gs, z); }
  }

  lemma BehindNoDotted(ts: seq<Text>, gs: seq<nat>, z: Text)
    requires |ts| > 1 && |gs| == |ts| && AllSpell(ts[1..], gs[1..]) && Quiet(z)
    ensures NoDotted(Behind(ts, z))
  {
    var rest := Join(ts[1..]) + z;
    assert Behind(ts, z)[1..] == rest;
    if '.' !in z {
      JoinPlain(ts[1..], gs[1..]);
      NoOctets(rest);
    } else {
      JoinSplit(ts[1..], z);
      assert Spells(ts[1..][0], gs[1..][0]);
      NotOctets(ts[1..][0], Behind(ts[1..], z));
    }
  }

  /** One round over the first text of a list, placed behind what it needs before it. */
  lemma RoundRead(ts: seq<Text>, gs: seq<nat>, z: Text, g: Groups)
    requires ts != [] && AllSpell(ts, gs) && Quiet(z) && Stops(z) && Bounded(g)
    ensures var s := (if Follows(g) then ":" else "") + Join(ts) + z;
            && !DoubleColon(s)
            && Round(s, g) == match Placed(g, gs[0]) case None => None case Some(n) => Some(Step(n, Behind(ts, z)))
  {
    var lead: Text := if Follows(g) then ":" else "";
    var t := ts[0] + Behind(ts, z);
    BehindPlain(ts, gs, z);
    LeadText(ts, gs, z, lead);
    NumberRead(ts[0], gs[0], Behind(ts, z));
    RoundPlain(lead + Join(ts) + z, t, g, gs[0], Behind(ts, z));
    PlacePlain(g, gs[0], Behind(ts, z));
  }

  lemma LeadText(ts: seq<Text>, gs: seq<nat>, z: Text, lead: Text)
    requires ts != [] && AllSpell(ts, gs) && (lead == "" || lead == ":")
    ensures var t := ts[0] + Behind(ts, z);
            && Spells(ts[0], gs[0]) && t != [] && DigitValue(t[0], true).Some?
            && lead + Join(ts) + z == lead + t
  {
    JoinSplit(ts, z);
    assert Spells(ts[0], gs[0]);
    Associate(lead, Join(ts), z);
  }

  lemma Associate(a: Text, b: Text, c: Text)
    ensures a + b + c == a + (b + c)
  {
  }

  lemma RoundPlain(s: Text, t: Text, g: Groups, part: nat, rest: Text)
    requires Bounded(g) && s == (if Follows(g) then ":" else "") + t && t != [] && DigitValue(t[0], true).Some?
    requires Number(t, 4, 0x10000, true) == Some(Step(part, rest))
    ensures !DoubleColon(s) && Round(s, g) == Place(g, part, rest)
  {
    if Follows(g) {
      assert s == ":" + t;
      RoundColon(s, t, g);
    } else {
      assert s == t;
      RoundFirst(s, g);
    }
  }

  lemma RoundColon(s: Text, t: Text, g: Groups)
    requires Bounded(g) && Follows(g) && s == ":" + t && t != [] && t[0] != ':'
    ensures !DoubleColon(s) && Round(s, g) == Finish(t, g, false)
  {
    assert s[0] == ':' && s[1] == t[0] && s[1..] == t;
    RoundIsFinish(s, g);
  }

  lemma RoundFirst(s: Text, g: Groups)
    requires Bounded(g) && !Follows(g) && s != [] && s[0] != ':'
    ensures !DoubleColon(s) && Round(s, g) == Finish(s, g, false)
  {
    RoundIsFinish(s, g);
  }

  lemma RoundColons(s: Text, t: Text, head: seq<nat>)
    requires |head| < 7 && s == "::" + t
    ensures Round(s, Groups(head, [], false)) == Finish(t, Groups(head, [], true), true)
  {
    assert DoubleColon(s) && s[2..] == t;
    RoundIsFinish(s, Groups(head, [], false));
  }

  /** How parsing goes on after a round. */
  function After(g: Groups, rest: Text): Option<Step<Groups>>
    requires Bounded(g)
  {
    if |g.head| + |g.tail| > 8 then None
    else if StartsWith(rest, ':') then Parts(rest, g)
    else if |g.head| < 8 && !g.colons then None
    else Some(Step(g, rest))
  }

  lemma PartsRead(s: Text, ts: seq<Text>, gs: seq<nat>, z: Text, g: Groups)
    requires ts != [] && AllSpell(ts, gs) && Quiet(z) && Stops(z) && Bounded(g)
    requires s == (if Follows(g) then ":" else "") + Join(ts) + z
    ensures Parts(s, g) == match Placed(g, gs[0]) case None => None case Some(n) => After(n, Behind(ts, z))
  {
    RoundRead(ts, gs, z, g);
  }

  function Lead(done: seq<nat>): Text { if done == [] then "" else ":" }

  lemma HeadFull(done: seq<nat>, ts: seq<Text>, gs: seq<nat>, z: Text)
    requires ts != [] && AllSpell(ts, gs) && |done| == 8 && Quiet(z) && Stops(z)
    ensures Parts(Lead(done) + Join(ts) + z, Groups(done, [], false)) == None
  {
    PartsRead(Lead(done) + Join(ts) + z, ts, gs, z, Groups(done, [], false));
  }

  lemma HeadMore(done: seq<nat>, ts: seq<Text>, gs: seq<nat>, z: Text)
    requires |ts| > 1 && AllSpell(ts, gs) && |done| < 8 && Quiet(z) && Stops(z)
    ensures Parts(Lead(done) + Join(ts) + z, Groups(done, [], false))
            == Parts(":" + Join(ts[1..]) + z, Groups(done + [gs[0]], [], false))
  {
    PartsRead(Lead(done) + Join(ts) + z, ts, gs, z, Groups(done, [], false));
    BehindPlain(ts, gs, z);
  }

  lemma HeadLast(done: seq<nat>, t: Text, g: nat, z: Text)
    requires Spells(t, g) && |done| < 8 && (z == [] || DoubleColon(z))
    ensures Parts(Lead(done) + t + z, Groups(done, [], false)) ==
              if z != [] then Parts(z, Groups(done + [g], [], false))
              else if |done| == 7 then Some(Step(Groups(done + [g], [], false), []))
              else None
  {
    PartsRead(Lead(done) + t + z, [t], [g], z, Groups(done, [], false));
  }

  /** Groups before any double colon. */
  lemma {:induction false} HeadRun(done: seq<nat>, ts: seq<Text>, gs: seq<nat>, z: Text)
    requires ts != [] && AllSpell(ts, gs) && |done| <= 8 && (z == [] || DoubleColon(z))
    ensures Parts(Lead(done) + Join(ts) + z, Groups(done, [], false)) ==
              if |done| + |ts| > 8 then None
              else if z != [] then Parts(z, Groups(done + gs, [], false))
              else if |done| + |ts| == 8 then Some(Step(Groups(done + gs, [], false), []))
              else None
    decreases |ts|
  {
    if |done| == 8 {
      HeadFull(done, ts, gs, z);
    } else if |ts| == 1 {
      assert Spells(ts[0], gs[0]) && gs == [gs[0]];
      HeadLast(done, ts[0], gs[0], z);
    } else {
      HeadMore(done, ts, gs, z);
      SpellRest(ts, gs);
      HeadRun(done + [gs[0]], ts[1..], gs[1..], z);
      Shift(done, gs);
    }
  }

  lemma Shift(done: seq<nat>, gs: seq<nat>)
    requires gs != []
    ensures done + [gs[0]] + gs[1..] == done + gs
  {
  }

  lemma SpellRest(ts: seq<Text>, gs: seq<nat>)
    requires ts != [] && AllSpell(ts, gs)
    ensures Spells(ts[0], gs[0]) && AllSpell(ts[1..], gs[1..])
  {
    assert forall i | 0 <= i < |ts| - 1 :: ts[1..][i] == ts[i + 1] && gs[1..][i] == gs[i + 1];
  }

  /** Where the text stands before the groups ts. */
  function Ahead(ts: seq<Text>): Text { if ts == [] then [] else ":" + Join(ts) }

  lemma TailStep(head: seq<nat>, done: seq<nat>, ts: seq<Text>, gs: seq<nat>)
    requires ts != [] && AllSpell(ts, gs) && 1 <= |done| <= 6 && |head| + |done| <= 8
    ensures After(Groups(head, done, true), Ahead(ts)) ==
              if |done| == 6 || |head| + |done| == 8 then None
              else After(Groups(head, done + [gs[0]], true), Ahead(ts[1..]))
  {
    assert ":" + Join(ts) + [] == ":" + Join(ts);
    PartsRead(":" + Join(ts), ts, gs, [], Groups(head, done, true));
    BehindIs(ts);
  }

  /** Groups after the first one behind the double colon. */
  lemma {:induction false} TailRun(head: seq<nat>, done: seq<nat>, ts: seq<Text>, gs: seq<nat>)
    requires AllSpell(ts, gs) && 1 <= |done| <= 6 && |head| + |done| <= 8
    ensures After(Groups(head, done, true), Ahead(ts)) ==
              if |done| + |ts| > 6 || |head| + |done| + |ts| > 8 then None
              else Some(Step(Groups(head, done + gs, true), []))
    decreases |ts|
  {
    if ts == [] {
      assert done + gs == done;
    } else {
      TailStep(head, done, ts, gs);
      SpellRest(ts, gs);
      if |done| < 6 && |head| + |done| < 8 {
        TailRun(head, done + [gs[0]], ts[1..], gs[1..]);
        Shift(done, gs);
      }
    }
  }

  lemma BehindIs(ts: seq<Text>)
    requires ts != []
    ensures Behind(ts, []) == Ahead(ts[1..])
  {
    assert |ts| > 1 ==> ":" + Join(ts[1..]) + [] == ":" + Join(ts[1..]);
  }

  lemma ColonsStep(head: seq<nat>, ts: seq<Text>, gs: seq<nat>)
    requires ts != [] && AllSpell(ts, gs) && |head| < 7
    ensures Parts("::" + Join(ts), Groups(head, [], false)) == After(Groups(head, [gs[0]], true), Behind(ts, []))
  {
    var s := "::" + Join(ts);
    BehindPlain(ts, gs, []);
    JoinSplit(ts, []);
    assert Join(ts) == Join(ts) + [];
    RoundColons(s, Join(ts), head);
    assert Spells(ts[0], gs[0]);
    NumberRead(ts[0], gs[0], Behind(ts, []));
    PlacePlain(Groups(head, [], true), gs[0], Behind(ts, []));
    var empty: seq<nat> := [];
    assert empty + [gs[0]] == [gs[0]];
  }

  lemma ColonsEnd(head: seq<nat>)
    requires |head| <= 8
    ensures Parts("::", Groups(head, [], false)) == if |head| >= 7 then None else Some(Step(Groups(head, [], true), []))
  {
    var s: Text := "::";
    assert DoubleColon(s) && s[2..] == [];
  }

  lemma ColonsLate(head: seq<nat>, s: Text)
    requires 7 <= |head| <= 8 && DoubleColon(s)
    ensures Parts(s, Groups(head, [], false)) == None
  {
  }

  /** The double colon and all behind it. */
  lemma ColonsRun(head: seq<nat>, ts: seq<Text>, gs: seq<nat>)
    requires AllSpell(ts, gs) && |head| <= 8
    ensures Parts("::" + Join(ts), Groups(head, [], false)) ==
              if |head| >= 7 || |ts| > 6 || |head| + |ts| > 8 then None
              else Some(Step(Groups(head, gs, true), []))
  {
    if |head| >= 7 {
      ColonsLate(head, "::" + Join(ts));
    } else if ts == [] {
      assert "::" + Join(ts) == "::";
      ColonsEnd(head);
    } else {
      ColonsStep(head, ts, gs);
      SpellRest(ts, gs);
      BehindIs(ts);
      TailRun(head, [gs[0]], ts[1..], gs[1..]);
      assert [gs[0]] + gs[1..] == gs;
    }
  }

  // ---- The text forms ----

  /** Groups without a double colon are an address exactly when there are eight. */
  lemma FullText(ts: seq<Text>, gs: seq<nat>)
    requires ts != [] && AllSpell(ts, gs)
    ensures ParseIp(Join(ts)) == if |ts| == 8 then Some(V6(gs)) else None
  {
    JoinPlain(ts, gs);
    FullParts(Join(ts), ts, gs);
    ParseFull(Join(ts), gs);
  }

  lemma FullParts(s: Text, ts: seq<Text>, gs: seq<nat>)
    requires ts != [] && AllSpell(ts, gs) && s == Join(ts)
    ensures Parts(s, Groups([], [], false)) == if |ts| == 8 then Some(Step(Groups(gs, [], false), [])) else None
  {
    HeadRun([], ts, gs, []);
    FullTextIs(ts);
    NoneBefore(gs);
  }

  lemma FullTextIs(ts: seq<Text>)
    ensures Lead([]) + Join(ts) + [] == Join(ts)
  {
  }

  lemma ParseFull(s: Text, gs: seq<nat>)
    requires '.' !in s
    requires Parts(s, Groups([], [], false)) == if |gs| == 8 then Some(Step(Groups(gs, [], false), [])) else None
    ensures ParseIp(s) == if |gs| == 8 then Some(V6(gs)) else None
  {
    NoOctets(s);
    if |gs| == 8 {
      FromParts(s, Groups(gs, [], false));
      assert Address(Groups(gs, [], false)) == gs;
    } else {
      FromNone(s);
    }
  }

  predicate Fits(h: nat, t: nat) { h <= 6 && t <= 6 && h + t <= 8 }

  /** Groups with a double colon are an address exactly when neither side is longer than six and they
      are no more than eight together; zeros fill the gap. */
  lemma CompressedText(hs: seq<Text>, hg: seq<nat>, ts: seq<Text>, tg: seq<nat>)
    requires AllSpell(hs, hg) && AllSpell(ts, tg)
    ensures ParseIp(Join(hs) + "::" + Join(ts)) ==
              if Fits(|hs|, |ts|) then Some(V6(Address(Groups(hg, tg, true)))) else None
  {
    CompressedPlain(hs, hg, ts, tg);
    Regroup(hs, ts);
    CompressedParts(Join(hs) + "::" + Join(ts), hs, hg, ts, tg);
    ParseGroups(Join(hs) + "::" + Join(ts), hg, tg, Fits(|hs|, |ts|));
  }

  /** From the groups to the address. */
  lemma ParseGroups(s: Text, hg: seq<nat>, tg: seq<nat>, fits: bool)
    requires '.' !in s && (fits ==> |hg| + |tg| <= 8)
    requires Parts(s, Groups([], [], false)) == if fits then Some(Step(Groups(hg, tg, true), [])) else None
    ensures ParseIp(s) == if fits then Some(V6(Address(Groups(hg, tg, true)))) else None
  {
    NoOctets(s);
    if fits { FromParts(s, Groups(hg, tg, true)); } else { FromNone(s); }
  }

  lemma CompressedPlain(hs: seq<Text>, hg: seq<nat>, ts: seq<Text>, tg: seq<nat>)
    requires AllSpell(hs, hg) && AllSpell(ts, tg)
    ensures '.' !in Join(hs) + "::" + Join(ts)
  {
    JoinPlain(hs, hg);
    JoinPlain(ts, tg);
  }

  lemma FromParts(s: Text, g: Groups)
    requires Octets(s, 4) == None && Parts(s, Groups([], [], false)) == Some(Step(g, []))
    ensures |g.head| + |g.tail| <= 8 && ParseIp(s) == Some(V6(Address(g)))
  {
  }

  lemma FromNone(s: Text)
    requires Octets(s, 4) == None && Parts(s, Groups([], [], false)) == None
    ensures ParseIp(s) == None
  {
  }

  lemma ColonsPlain(ts: seq<Text>, tg: seq<nat>)
    requires AllSpell(ts, tg)
    ensures DoubleColon("::" + Join(ts)) && '.' !in "::" + Join(ts)
  {
    JoinPlain(ts, tg);
  }

  lemma CompressedParts(s: Text, hs: seq<Text>, hg: seq<nat>, ts: seq<Text>, tg: seq<nat>)
    requires AllSpell(hs, hg) && AllSpell(ts, tg) && s == Lead([]) + Join(hs) + ("::" + Join(ts))
    ensures Parts(s, Groups([], [], false)) == if Fits(|hs|, |ts|) then Some(Step(Groups(hg, tg, true), [])) else None
  {
    if hs == [] {
      HeadNone(s, "::" + Join(ts));
      ColonsRun([], ts, tg);
    } else {
      ColonsPlain(ts, tg);
      HeadRun([], hs, hg, "::" + Join(ts));
      NoneBefore(hg);
      if |hs| <= 8 { ColonsRun(hg, ts, tg); }
    }
  }

  lemma HeadNone(s: Text, z: Text)
    requires s == Lead([]) + Join([]) + z
    ensures s == z
  {
  }

  lemma Regroup(hs: seq<Text>, ts: seq<Text>)
    ensures Join(hs) + "::" + Join(ts) == Lead([]) + Join(hs) + ("::" + Join(ts))
  {
  }

  lemma NoneBefore(gs: seq<nat>)
    ensures [] + gs == gs
  {
  }

  /** Every text of groups with "::" for two or more zero groups, the second form of section 2.2 of
      RFC 4291, is read back. */
  lemma ZeroRunText(hs: seq<Text>, hg: seq<nat>, ts: seq<Text>, tg: seq<nat>)
    requires AllSpell(hs, hg) && AllSpell(ts, tg) && |hs| + |ts| <= 6
    ensures ParseIp(Join(hs) + "::" + Join(ts)) == Some(V6(Address(Groups(hg, tg, true))))
  {
    CompressedText(hs, hg, ts, tg);
  }

  /** The double colon may stand for no group at all, which section 2.2 of RFC 4291 does not allow... */
  lemma ColonsForNothing() returns (s: Text)
    ensures s == "1:1:1:1::1:1:1:1" && ParseIp(s) == Some(V6([1, 1, 1, 1, 1, 1, 1, 1]))
  {
    s := Join(["1", "1", "1", "1"]) + "::" + Join(["1", "1", "1", "1"]);
    SpellOnes();
    CompressedText(["1", "1", "1", "1"], [1, 1, 1, 1], ["1", "1", "1", "1"], [1, 1, 1, 1]);
    JoinOnes();
  }

  /** ...and may not stand for a last or a first single group, which it does allow. */
  lemma NoSingleGroup(ts: seq<Text>, gs: seq<nat>)
    requires |ts| == 7 && AllSpell(ts, gs)
    ensures ParseIp(Join(ts) + "::") == None && ParseIp("::" + Join(ts)) == None
  {
    SingleTexts(ts);
    CompressedText(ts, gs, [], []);
    CompressedText([], [], ts, gs);
  }

  lemma SingleTexts(ts: seq<Text>)
    ensures Join(ts) + "::" + Join([]) == Join(ts) + "::" && Join([]) + "::" + Join(ts) == "::" + Join(ts)
  {
  }

  lemma SpellOnes()
    ensures AllSpell(["1", "1", "1", "1"], [1, 1, 1, 1])
    ensures Address(Groups([1, 1, 1, 1], [1, 1, 1, 1], true)) == [1, 1, 1, 1, 1, 1, 1, 1]
  {
    var a: Text := "1";
    assert a[1..] == [] && Spells(a, 1);
  }

  lemma JoinOnes()
    ensures Join(["1", "1", "1", "1"]) + "::" + Join(["1", "1", "1", "1"]) == "1:1:1:1::1:1:1:1"
  {
    assert ["1", "1", "1", "1"][1..] == ["1", "1", "1"] && ["1", "1", "1"][1..] == ["1", "1"]
        && ["1", "1"][1..] == ["1"];
    assert Join(["1", "1"]) == "1:1";
    assert Join(["1", "1", "1"]) == "1:1:1";
    assert Join(["1", "1", "1", "1"]) == "1:1:1:1";
  }

  // ---- Dotted forms ----

  predicate AllDecimal(a: Text) { forall i | 0 <= i < |a| :: DigitValue(a[i], false).Some? }

  function DecimalValue(a: Text, value: nat): nat
    requires AllDecimal(a)
  {
    if a == [] then value else DecimalValue(a[1..], value * 10 + DigitValue(a[0], false).value)
  }

  /** One to three decimal digits for a number below 256. */
  predicate SpellsOctet(a: Text, o: nat) { 1 <= |a| <= 3 && AllDecimal(a) && DecimalValue(a, 0) == o < 0x100 }

  predicate StopsDecimal(rest: Text) { rest == [] || DigitValue(rest[0], false) == None }

  lemma {:induction false} DecimalsRead(a: Text, rest: Text, k: nat, value: nat)
    requires AllDecimal(a) && |a| <= k && StopsDecimal(rest)
    ensures Digits(a + rest, k, false, value) == Step(DecimalValue(a, value), rest)
  {
    if a == [] {
      assert a + rest == rest;
    } else {
      assert (a + rest)[1..] == a[1..] + rest;
      DecimalsRead(a[1..], rest, k - 1, value * 10 + DigitValue(a[0], false).value);
    }
  }

  lemma OctetRead(a: Text, o: nat, rest: Text)
    requires SpellsOctet(a, o) && StopsDecimal(rest)
    ensures Number(a + rest, 3, 0x100, false) == Some(Step(o, rest))
  {
    assert (a + rest)[1..] == a[1..] + rest;
    DecimalsRead(a[1..], rest, 2, DigitValue(a[0], false).value);
  }

  predicate AllSpellOctets(ts: seq<Text>, os: seq<nat>) {
    |ts| == |os| && forall i | 0 <= i < |ts| :: SpellsOctet(ts[i], os[i])
  }

  function JoinDots(ts: seq<Text>): Text {
    if ts == [] then [] else if |ts| == 1 then ts[0] else ts[0] + "." + JoinDots(ts[1..])
  }

  lemma {:induction false} OctetsRead(ts: seq<Text>, os: seq<nat>, n: nat)
    requires ts != [] && AllSpellOctets(ts, os) && n == |ts|
    ensures Octets(JoinDots(ts), n) == Some(Step(os, []))
    decreases n
  {
    OctetsRest(ts, os);
    if n == 1 {
      OctetsLast(ts[0], os[0]);
    } else {
      OctetsRead(ts[1..], os[1..], n - 1);
      OctetsNext(ts[0], os[0], JoinDots(ts[1..]), n, os[1..]);
    }
  }

  lemma OctetsRest(ts: seq<Text>, os: seq<nat>)
    requires ts != [] && AllSpellOctets(ts, os)
    ensures SpellsOctet(ts[0], os[0]) && AllSpellOctets(ts[1..], os[1..]) && [os[0]] + os[1..] == os
    ensures |ts| == 1 ==> os == [os[0]]
  {
    assert forall i | 0 <= i < |ts| - 1 :: ts[1..][i] == ts[i + 1] && os[1..][i] == os[i + 1];
  }

  lemma OctetsLast(a: Text, o: nat)
    requires SpellsOctet(a, o)
    ensures Octets(a, 1) == Some(Step([o], []))
  {
    assert a + [] == a;
    OctetRead(a, o, []);
  }

  lemma OctetsNext(a: Text, o: nat, more: Text, n: nat, os: seq<nat>)
    requires SpellsOctet(a, o) && n > 1 && Octets(more, n - 1) == Some(Step(os, []))
    ensures Octets(a + "." + more, n) == Some(Step([o] + os, []))
  {
    DotText(a, more);
    OctetRead(a, o, "." + more);
    OctetsStep(a + "." + more, "." + more, more, n, o, os);
  }

  lemma DotText(a: Text, more: Text)
    ensures a + "." + more == a + ("." + more) && ("." + more)[1..] == more && StartsWith("." + more, '.')
  {
  }

  lemma OctetsStep(s: Text, rest: Text, more: Text, n: nat, o: nat, os: seq<nat>)
    requires n > 1 && Number(s, 3, 0x100, false) == Some(Step(o, rest)) && StartsWith(rest, '.') && rest[1..] == more
    requires Octets(more, n - 1) == Some(Step(os, []))
    ensures Octets(s, n) == Some(Step([o] + os, []))
  {
  }

  /** Four dotted octets are read as an IPv4 address. */
  lemma DottedText(ts: seq<Text>, os: seq<nat>)
    requires |ts| == 4 && AllSpellOctets(ts, os)
    ensures ParseIp(JoinDots(ts)) == Some(V4(os))
  {
    OctetsRead(ts, os, 4);
  }
}
