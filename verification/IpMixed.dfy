/**
 The third text form of section 2.2 of RFC 4291, groups with four dotted octets
 at the end. The parser reads it exactly when the groups are those of an
 IPv4-mapped address: 0:0:0:0:0:ffff in full, or ffff behind a double colon with
 nothing but zeros before it.
 */
module IpMixed {
  import opened Options
  import opened IpText

  const MAPPED: seq<nat> := [0, 0, 0, 0, 0, 0xffff]

  /** Groups with a colon behind each, and then the dotted octets. */
  function Mix(ts: seq<Text>, d: Text): Text {
    if ts == [] then d else ts[0] + (":" + Mix(ts[1..], d))
  }

  /** Four octets and their text. */
  predicate Dotted(d: Text, os: seq<nat>) {
    |os| == 4 && Octets(d, 4) == Some(Step(os, [])) && Hexed(d)
  }

  /** Read as hexadecimal, the text begins with a number below 0x1000 and a dot behind it. */
  predicate Hexed(d: Text) {
    && d != [] && DigitValue(d[0], true).Some?
    && var n := Number(d, 4, 0x10000, true);
       n.Some? && n.value.value < 0x1000 && StartsWith(n.value.rest, '.')
  }

  lemma DecimalIsHex(a: Text)
    requires AllDecimal(a)
    ensures AllHex(a)
  {
  }

  lemma OctetHexed(a: Text, o: nat, rest: Text)
    requires SpellsOctet(a, o) && StartsWith(rest, '.')
    ensures Hexed(a + rest)
  {
    DecimalIsHex(a);
    HexBound(a, 0, 0);
    PowGrows(|a|, 3);
    assert Pow16(3) == 0x1000 by { assert Pow16(2) == 0x100; }
    NumberRead(a, HexValue(a, 0), rest);
  }

  lemma DottedIs(ds: seq<Text>, os: seq<nat>)
    requires |ds| == 4 && AllSpellOctets(ds, os)
    ensures Dotted(JoinDots(ds), os)
  {
    OctetsRead(ds, os, 4);
    OctetsRest(ds, os);
    DotText(ds[0], JoinDots(ds[1..]));
    OctetHexed(ds[0], os[0], "." + JoinDots(ds[1..]));
  }

  // ---- Refused texts ----

  /** Parsing fails, or leaves something behind. */
  predicate Refused(p: Option<Step<Groups>>) { p.Some? ==> p.value.rest != [] }

  lemma FromRefused(s: Text)
    requires Octets(s, 4) == None && Refused(Parts(s, Groups([], [], false)))
    ensures ParseIp(s) == None
  {
  }

  /** Octets where a group could stand: their first number is taken as a group, and the dot stays. */
  lemma AfterDotted(g: Groups, d: Text, os: seq<nat>)
    requires Bounded(g) && Dotted(d, os)
    ensures var n := Number(d, 4, 0x10000, true).value;
            var p := Place(g, n.value, n.rest);
            p.Some? ==> p.value.rest == n.rest && Refused(After(p.value.value, n.rest))
  {
    var n := Number(d, 4, 0x10000, true).value;
    PlacePlain(g, n.value, n.rest);
  }

  lemma DottedRefused(s: Text, g: Groups, d: Text, os: seq<nat>)
    requires Bounded(g) && Dotted(d, os) && s == (if Follows(g) then ":" else "") + d
    ensures Refused(Parts(s, g))
  {
    var n := Number(d, 4, 0x10000, true).value;
    RoundPlain(s, d, g, n.value, n.rest);
    AfterDotted(g, d, os);
  }

  // ---- One group of a mixed text ----

  /** Whether a group completes the prefix of an IPv4-mapped address. */
  predicate Completes(g: Groups, part: nat) {
    if !g.colons && |g.head| < 8 then g.head + [part] == MAPPED
    else |g.tail| < 6 && g.tail + [part] == [0xffff] && AllZero(g.head)
  }

  /** The group and the two that the octets make. */
  function WithOctets(g: Groups, part: nat, os: seq<nat>): Groups
    requires |os| == 4
  {
    if !g.colons && |g.head| < 8 then g.(head := g.head + [part] + Pairs(os))
        else g.(tail := g.tail + [part] + Pairs(os))
  }

  lemma MixNotOctets(ts: seq<Text>, gs: seq<nat>, d: Text)
    requires ts != [] && AllSpell(ts, gs)
    ensures Octets(Mix(ts, d), 4) == None && NoDotted(":" + Mix(ts, d))
  {
    assert Spells(ts[0], gs[0]);
    NotOctets(ts[0], ":" + Mix(ts[1..], d));
    assert (":" + Mix(ts, d))[1..] == Mix(ts, d);
  }

  lemma PlaceCompletes(g: Groups, part: nat, s: Text, os: seq<nat>)
    requires Bounded(g) && Completes(g, part) && StartsWith(s, ':') && |os| == 4
             && Octets(s[1..], 4) == Some(Step(os, []))
    ensures Place(g, part, s) == Some(Step(WithOctets(g, part, os), []))
  {
  }

  lemma PlaceOther(g: Groups, part: nat, s: Text)
    requires Bounded(g) && !Completes(g, part)
    ensures Place(g, part, s) == match Placed(g, part) case None => None case Some(n) => Some(Step(n, s))
  {
  }

  lemma ColonText(d: Text)
    ensures StartsWith(":" + d, ':') && (":" + d)[1..] == d
  {
  }

  lemma PlaceMixed(g: Groups, part: nat, ts: seq<Text>, gs: seq<nat>, d: Text, os: seq<nat>)
    requires Bounded(g) && AllSpell(ts, gs) && Dotted(d, os)
    ensures Place(g, part, ":" + Mix(ts, d)) ==
              if ts == [] && Completes(g, part) then Some(Step(WithOctets(g, part, os), []))
              else match Placed(g, part) case None => None case Some(n) => Some(Step(n, ":" + Mix(ts, d)))
  {
    if ts != [] {
      MixNotOctets(ts, gs, d);
      PlacePlain(g, part, ":" + Mix(ts, d));
    } else if Completes(g, part) {
      ColonText(d);
      PlaceCompletes(g, part, ":" + d, os);
    } else {
      PlaceOther(g, part, ":" + Mix(ts, d));
    }
  }

  lemma GroupRead(ts: seq<Text>, gs: seq<nat>, d: Text)
    requires ts != [] && AllSpell(ts, gs)
    ensures Mix(ts, d) != [] && DigitValue(Mix(ts, d)[0], true).Some? && AllSpell(ts[1..], gs[1..])
    ensures Number(Mix(ts, d), 4, 0x10000, true) == Some(Step(gs[0], ":" + Mix(ts[1..], d)))
  {
    SpellRest(ts, gs);
    NumberRead(ts[0], gs[0], ":" + Mix(ts[1..], d));
  }

  lemma PartsFrom(s: Text, g: Groups)
    requires Bounded(g)
    ensures Parts(s, g) == match Round(s, g) case None => None case Some(Step(n, rest)) => After(n, rest)
  {
  }

  /** One round over the first group of a mixed text. */
  lemma PartsMixed(s: Text, g: Groups, ts: seq<Text>, gs: seq<nat>, d: Text, os: seq<nat>)
    requires ts != [] && AllSpell(ts, gs) && Dotted(d, os) && Bounded(g)
    requires s == (if Follows(g) then ":" else "") + Mix(ts, d)
    ensures |ts| == 1 && Completes(g, gs[0]) ==>
              Bounded(WithOctets(g, gs[0], os)) && Parts(s, g) == After(WithOctets(g, gs[0], os), [])
    ensures !(|ts| == 1 && Completes(g, gs[0])) ==>
              Parts(s, g) == match Placed(g, gs[0]) case None => None case Some(n) => After(n, ":" + Mix(ts[1..], d))
  {
    var rest := ":" + Mix(ts[1..], d);
    GroupRead(ts, gs, d);
    RoundPlain(s, Mix(ts, d), g, gs[0], rest);
    PlaceMixed(g, gs[0], ts[1..], gs[1..], d, os);
    PartsFrom(s, g);
  }

  // ---- Running over a mixed text ----

  /** Without a double colon. */
  lemma {:induction false} HeadMixed(done: seq<nat>, ts: seq<Text>, gs: seq<nat>, d: Text, os: seq<nat>)
    requires ts != [] && AllSpell(ts, gs) && Dotted(d, os) && |done| <= 8
    ensures var p := Parts(Lead(done) + Mix(ts, d), Groups(done, [], false));
            if done + gs == MAPPED then p == Some(Step(Groups(MAPPED + Pairs(os), [], false), [])) else Refused(p)
    decreases |ts|
  {
    PartsMixed(Lead(done) + Mix(ts, d), Groups(done, [], false), ts, gs, d, os);
    SpellRest(ts, gs);
    if |done| < 8 {
      Shift(done, gs);
      HeadMixedOn(done + [gs[0]], ts, gs, d, os);
      if |ts| > 1 { HeadMixed(done + [gs[0]], ts[1..], gs[1..], d, os); } else { assert gs == [gs[0]]; }
    }
  }

  lemma AfterGoesOn(g: Groups, y: Text)
    requires Bounded(g) && |g.head| + |g.tail| <= 8
    ensures After(g, ":" + y) == Parts(":" + y, g)
  {
    ColonText(y);
  }

  lemma HeadMixedOn(done: seq<nat>, ts: seq<Text>, gs: seq<nat>, d: Text, os: seq<nat>)
    requires ts != [] && AllSpell(ts, gs) && Dotted(d, os) && 1 <= |done| <= 8
    ensures |ts| == 1 ==> Refused(After(Groups(done, [], false), ":" + Mix(ts[1..], d)))
    ensures |ts| > 1 ==> After(Groups(done, [], false), ":" + Mix(ts[1..], d))
                         == Parts(Lead(done) + Mix(ts[1..], d), Groups(done, [], false))
  {
    AfterGoesOn(Groups(done, [], false), Mix(ts[1..], d));
    if |ts| == 1 { DottedRefused(":" + Mix(ts[1..], d), Groups(done, [], false), d, os); }
  }

  lemma AfterColon(g: Groups, y: Text)
    requires Bounded(g)
    ensures Refused(Parts(":" + y, g)) ==> Refused(After(g, ":" + y))
  {
  }

  /** Behind a double colon and a group. */
  lemma {:induction false} TailMixed(head: seq<nat>, done: seq<nat>, ts: seq<Text>, gs: seq<nat>, d: Text, os: seq<nat>)
    requires AllSpell(ts, gs) && Dotted(d, os) && |head| <= 8 && 1 <= |done| <= 6
    ensures Refused(Parts(":" + Mix(ts, d), Groups(head, done, true)))
    decreases |ts|
  {
    var g := Groups(head, done, true);
    if ts == [] {
      DottedRefused(":" + Mix(ts, d), g, d, os);
    } else {
      PartsMixed(":" + Mix(ts, d), g, ts, gs, d, os);
      SpellRest(ts, gs);
      if |done| < 6 {
        TailMixed(head, done + [gs[0]], ts[1..], gs[1..], d, os);
        AfterColon(Groups(head, done + [gs[0]], true), Mix(ts[1..], d));
      }
    }
  }

  predicate MappedBehind(head: seq<nat>, tail: seq<nat>) { |head| <= 5 && AllZero(head) && tail == [0xffff] }

  lemma ColonsDotted(head: seq<nat>, d: Text, os: seq<nat>)
    requires |head| < 7 && Dotted(d, os)
    ensures Refused(Parts("::" + d, Groups(head, [], false)))
  {
    var s := "::" + d;
    assert DoubleColon(s) && s[2..] == d;
    RoundIsFinish(s, Groups(head, [], false));
    PartsFrom(s, Groups(head, [], false));
    AfterDotted(Groups(head, [], true), d, os);
  }

  lemma ColonsGroup(head: seq<nat>, ts: seq<Text>, gs: seq<nat>, d: Text, os: seq<nat>)
    requires |head| < 7 && ts != [] && AllSpell(ts, gs) && Dotted(d, os)
    ensures var g, p := Groups(head, [], true), Parts("::" + Mix(ts, d), Groups(head, [], false));
            if |ts| == 1 && Completes(g, gs[0]) then p == After(Groups(head, [0xffff] + Pairs(os), true), [])
            else p == After(Groups(head, [gs[0]], true), ":" + Mix(ts[1..], d))
  {
    var s, g := "::" + Mix(ts, d), Groups(head, [], true);
    assert DoubleColon(s) && s[2..] == Mix(ts, d);
    RoundIsFinish(s, Groups(head, [], false));
    PartsFrom(s, Groups(head, [], false));
    GroupRead(ts, gs, d);
    PlaceMixed(g, gs[0], ts[1..], gs[1..], d, os);
    OneMore(g.tail, gs[0]);
  }

  lemma OneMore(empty: seq<nat>, part: nat)
    requires empty == []
    ensures empty + [part] == [part]
  {
  }

  lemma FirstCompletes(head: seq<nat>, gs: seq<nat>)
    requires gs != []
    ensures |gs| == 1 && Completes(Groups(head, [], true), gs[0]) <==> AllZero(head) && gs == [0xffff]
  {
    OneMore([], gs[0]);
    assert |gs| == 1 ==> gs == [gs[0]];
  }

  lemma ColonsMixed(head: seq<nat>, ts: seq<Text>, gs: seq<nat>, d: Text, os: seq<nat>)
    requires AllSpell(ts, gs) && Dotted(d, os) && |head| <= 8
    ensures var p := Parts("::" + Mix(ts, d), Groups(head, [], false));
            if MappedBehind(head, gs) then p == Some(Step(Groups(head, [0xffff] + Pairs(os), true), [])) else Refused(p)
  {
    if |head| >= 7 {
      ColonsLate(head, "::" + Mix(ts, d));
    } else if ts == [] {
      ColonsDotted(head, d, os);
    } else {
      ColonsGroup(head, ts, gs, d, os);
      SpellRest(ts, gs);
      TailMixed(head, [gs[0]], ts[1..], gs[1..], d, os);
      AfterColon(Groups(head, [gs[0]], true), Mix(ts[1..], d));
      FirstCompletes(head, gs);
    }
  }

  // ---- The third text form ----

  lemma {:induction false} MixIs(ts: seq<Text>, d: Text)
    requires ts != []
    ensures Mix(ts, d) == Join(ts) + ":" + d
  {
    if |ts| > 1 {
      MixIs(ts[1..], d);
      assert ts[0] + (":" + (Join(ts[1..]) + ":" + d)) == ts[0] + ":" + Join(ts[1..]) + ":" + d;
    }
  }

  /** Groups and dotted octets, without a double colon: an address exactly when the groups are
      0:0:0:0:0:ffff. */
  lemma MixedText(ts: seq<Text>, gs: seq<nat>, ds: seq<Text>, os: seq<nat>)
    requires ts != [] && AllSpell(ts, gs) && |ds| == 4 && AllSpellOctets(ds, os)
    ensures ParseIp(Join(ts) + ":" + JoinDots(ds)) == if gs == MAPPED then Some(V6(MAPPED + Pairs(os))) else None
  {
    var d := JoinDots(ds);
    MixIs(ts, d);
    DottedIs(ds, os);
    MixNotOctets(ts, gs, d);
    HeadMixed([], ts, gs, d, os);
    NoneBefore(gs);
    assert Lead([]) + Mix(ts, d) == Mix(ts, d);
    if gs == MAPPED {
      FromParts(Mix(ts, d), Groups(MAPPED + Pairs(os), [], false));
      MappedHeadIs(os);
    } else {
      FromRefused(Mix(ts, d));
    }
  }

  lemma MappedHeadIs(os: seq<nat>)
    requires |os| == 4
    ensures Address(Groups(MAPPED + Pairs(os), [], false)) == MAPPED + Pairs(os)
  {
  }

  lemma MappedIs(head: seq<nat>, os: seq<nat>)
    requires |head| <= 5 && AllZero(head) && |os| == 4
    ensures Address(Groups(head, [0xffff] + Pairs(os), true)) == MAPPED + Pairs(os)
  {
  }

  lemma HeadNotOctets(hs: seq<Text>, hg: seq<nat>, z: Text)
    requires hs != [] && AllSpell(hs, hg) && DoubleColon(z)
    ensures Octets(Join(hs) + z, 4) == None
  {
    JoinSplit(hs, z);
    BehindPlain(hs, hg, z);
    assert Spells(hs[0], hg[0]);
    NotOctets(hs[0], Behind(hs, z));
  }

  lemma CompressedMixParts(s: Text, hs: seq<Text>, hg: seq<nat>, z: Text)
    requires AllSpell(hs, hg) && DoubleColon(z) && s == Join(hs) + z
    ensures Octets(s, 4) == None
    ensures Parts(s, Groups([], [], false)) == if |hs| > 8 then None else Parts(z, Groups(hg, [], false))
  {
    if hs == [] {
      assert s == z;
    } else {
      HeadNotOctets(hs, hg, z);
      LeadNone(hs, z);
      HeadRun([], hs, hg, z);
      NoneBefore(hg);
    }
  }

  lemma LeadNone(hs: seq<Text>, z: Text)
    ensures Lead([]) + Join(hs) + z == Join(hs) + z
  {
  }

  /** Groups, a double colon, perhaps more groups, and dotted octets: an address exactly when there are at
      most five groups before the double colon, all zero, and ffff alone behind it. */
  lemma CompressedMixedText(hs: seq<Text>, hg: seq<nat>, ts: seq<Text>, tg: seq<nat>, ds: seq<Text>, os: seq<nat>)
    requires AllSpell(hs, hg) && AllSpell(ts, tg) && |ds| == 4 && AllSpellOctets(ds, os)
    ensures ParseIp(Join(hs) + ("::" + Mix(ts, JoinDots(ds)))) ==
              if MappedBehind(hg, tg) then Some(V6(MAPPED + Pairs(os))) else None
  {
    var d := JoinDots(ds);
    var z := "::" + Mix(ts, d);
    var s := Join(hs) + z;
    DottedIs(ds, os);
    CompressedMixParts(s, hs, hg, z);
    if |hs| <= 8 { ColonsMixed(hg, ts, tg, d, os); }
    if MappedBehind(hg, tg) {
      FromParts(s, Groups(hg, [0xffff] + Pairs(os), true));
      MappedIs(hg, os);
    } else {
      FromRefused(s);
    }
  }

  /** "::13.1.68.3", which section 2.2 of RFC 4291 gives as an example, is refused. */
  lemma CompatibleRefused()
    ensures ParseIp("::13.1.68.3") == None
  {
    var ds: seq<Text> := ["13", "1", "68", "3"];
    var a: Text, b: Text, c: Text, e: Text := "13", "1", "68", "3";
    assert a[1..] == "3" && a[1..][1..] == [] && b[1..] == [] && c[1..] == "8" && c[1..][1..] == [] && e[1..] == [];
    assert SpellsOctet(a, 13) && SpellsOctet(b, 1) && SpellsOctet(c, 68) && SpellsOctet(e, 3);
    CompressedMixedText([], [], [], [], ds, [13, 1, 68, 3]);
    JoinExample(ds);
  }

  lemma JoinExample(ds: seq<Text>)
    requires ds == ["13", "1", "68", "3"]
    ensures Join([]) + ("::" + Mix([], JoinDots(ds))) == "::13.1.68.3"
  {
    assert ds[1..] == ["1", "68", "3"] && ds[1..][1..] == ["68", "3"] && ds[1..][1..][1..] == ["3"];
    assert JoinDots(ds[1..][1..]) == "68.3";
    assert JoinDots(ds[1..]) == "1.68.3";
    assert JoinDots(ds) == "13.1.68.3";
  }
}
