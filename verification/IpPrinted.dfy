/**
 Addresses as they are printed, with digits taken from a table, and what the
 parser makes of them: every address comes back.
 */
module IpPrinted {
  import opened Options
  import opened IpText
  import opened IpMixed

  const LOWER: Text := "0123456789abcdef"
  const UPPER: Text := "0123456789ABCDEF"

  // ---- Digits ----

  /** Every digit of either table has its place as its value, in decimal only the first ten. */
  lemma DigitIs(v: nat)
    requires v < 16
    ensures DigitValue(LOWER[v], true) == DigitValue(UPPER[v], true) == Some(v)
    ensures DigitValue(LOWER[v], false) == DigitValue(UPPER[v], false) == if v < 10 then Some(v) else None
  {
    if v < 10 {
      assert LOWER[v] == UPPER[v] == ('0' as int + v) as char;
    } else {
      assert LOWER[v] == ('a' as int + (v - 10)) as char && UPPER[v] == ('A' as int + (v - 10)) as char;
    }
  }

  /** Other characters are no digits. */
  lemma NoOtherDigit(c: char, hex: bool)
    requires c !in LOWER && c !in UPPER
    ensures DigitValue(c, hex) == None
  {
    if DigitValue(c, hex).Some? {
      var v := DigitValue(c, hex).value;
      DigitAt(c, hex);
    }
  }

  lemma DigitAt(c: char, hex: bool)
    requires DigitValue(c, hex).Some?
    ensures DigitValue(c, hex).value < 16
    ensures c == LOWER[DigitValue(c, hex).value] || c == UPPER[DigitValue(c, hex).value]
  {
    var v := DigitValue(c, hex).value;
    if v < 10 {
      assert LOWER[v] == ('0' as int + v) as char;
    } else {
      assert LOWER[v] == ('a' as int + (v - 10)) as char && UPPER[v] == ('A' as int + (v - 10)) as char;
    }
  }

  predicate IsTable(table: Text) { table == LOWER || table == UPPER }

  lemma DigitOf(table: Text, v: nat)
    requires IsTable(table) && v < 16
    ensures v < |table| && DigitValue(table[v], true) == Some(v) && (v < 10 ==> DigitValue(table[v], false) == Some(v))
  {
    DigitIs(v);
  }

  // ---- Groups ----

  /** A group with all four digits. */
  function HexText(g: nat, table: Text): Text
    requires g < 0x10000 && IsTable(table)
  {
    [table[g / 4096], table[g / 256 % 16], table[g / 16 % 16], table[g % 16]]
  }

  lemma Places(g: nat)
    requires g < 0x10000
    ensures g == ((g / 4096 * 16 + g / 256 % 16) * 16 + g / 16 % 16) * 16 + g % 16
  {
  }

  lemma HexFour(a: Text, w: nat, x: nat, y: nat, z: nat)
    requires |a| == 4 && DigitValue(a[0], true) == Some(w) && DigitValue(a[1], true) == Some(x)
    requires DigitValue(a[2], true) == Some(y) && DigitValue(a[3], true) == Some(z)
    ensures AllHex(a) && HexValue(a, 0) == ((w * 16 + x) * 16 + y) * 16 + z
  {
    assert a[1..][0] == a[1] && a[1..][1..] == a[2..] && a[2..][0] == a[2] && a[2..][1..] == a[3..];
    assert a[3..][0] == a[3] && a[3..][1..] == [];
    HexNext(a, 0);
    HexNext(a[1..], w);
    HexNext(a[2..], w * 16 + x);
    HexNext(a[3..], (w * 16 + x) * 16 + y);
  }

  lemma HexNext(a: Text, value: nat)
    requires AllHex(a) && a != []
    ensures HexValue(a, value) == HexValue(a[1..], value * 16 + DigitValue(a[0], true).value)
  {
  }

  lemma HexTextSpells(g: nat, table: Text)
    requires g < 0x10000 && IsTable(table)
    ensures Spells(HexText(g, table), g)
  {
    DigitOf(table, g / 4096);
    DigitOf(table, g / 256 % 16);
    DigitOf(table, g / 16 % 16);
    DigitOf(table, g % 16);
    HexFour(HexText(g, table), g / 4096, g / 256 % 16, g / 16 % 16, g % 16);
    Places(g);
  }

  predicate AreGroups(gs: seq<nat>) { forall i | 0 <= i < |gs| :: gs[i] < 0x10000 }

  function HexTexts(gs: seq<nat>, table: Text): seq<Text>
    requires AreGroups(gs) && IsTable(table)
  {
    seq(|gs|, i requires 0 <= i < |gs| => HexText(gs[i], table))
  }

  lemma HexTextsSpell(gs: seq<nat>, table: Text)
    requires AreGroups(gs) && IsTable(table)
    ensures AllSpell(HexTexts(gs, table), gs)
  {
    forall i | 0 <= i < |gs| ensures Spells(HexTexts(gs, table)[i], gs[i]) { HexTextSpells(gs[i], table); }
  }

  /** Every IPv6 address printed in full, in either case, comes back. */
  lemma PrintedRead(gs: seq<nat>, table: Text)
    requires |gs| == 8 && AreGroups(gs) && IsTable(table)
    ensures ParseIp(Join(HexTexts(gs, table))) == Some(V6(gs))
  {
    HexTextsSpell(gs, table);
    FullText(HexTexts(gs, table), gs);
  }

  /** So does every one printed with "::" for its zeros, wherever two or more of them are. */
  lemma PrintedShortRead(head: seq<nat>, zeros: nat, tail: seq<nat>, table: Text)
    requires AreGroups(head) && AreGroups(tail) && IsTable(table) && zeros >= 2 && |head| + zeros + |tail| == 8
    ensures ParseIp(Join(HexTexts(head, table)) + "::" + Join(HexTexts(tail, table)))
            == Some(V6(head + seq(zeros, _ => 0) + tail))
  {
    HexTextsSpell(head, table);
    HexTextsSpell(tail, table);
    ZeroRunText(HexTexts(head, table), head, HexTexts(tail, table), tail);
    assert Address(Groups(head, tail, true)) == head + seq(zeros, _ => 0) + tail;
  }

  // ---- Octets ----

  /** An octet with all three digits. */
  function DecText(o: nat): Text
    requires o < 256
  {
    [LOWER[o / 100], LOWER[o / 10 % 10], LOWER[o % 10]]
  }

  lemma DecThree(a: Text, x: nat, y: nat, z: nat)
    requires |a| == 3 && DigitValue(a[0], false) == Some(x) && DigitValue(a[1], false) == Some(y)
    requires DigitValue(a[2], false) == Some(z)
    ensures AllDecimal(a) && DecimalValue(a, 0) == (x * 10 + y) * 10 + z
  {
    assert a[1..][0] == a[1] && a[1..][1..] == a[2..] && a[2..][0] == a[2] && a[2..][1..] == [];
    DecNext(a, 0);
    DecNext(a[1..], x);
    DecNext(a[2..], x * 10 + y);
  }

  lemma DecNext(a: Text, value: nat)
    requires AllDecimal(a) && a != []
    ensures DecimalValue(a, value) == DecimalValue(a[1..], value * 10 + DigitValue(a[0], false).value)
  {
  }

  lemma DecTextSpells(o: nat)
    requires o < 256
    ensures SpellsOctet(DecText(o), o)
  {
    DigitOf(LOWER, o / 100);
    DigitOf(LOWER, o / 10 % 10);
    DigitOf(LOWER, o % 10);
    DecThree(DecText(o), o / 100, o / 10 % 10, o % 10);
    DecPlaces(o);
  }

  lemma DecPlaces(o: nat)
    requires o < 256
    ensures o == (o / 100 * 10 + o / 10 % 10) * 10 + o % 10
  {
  }

  predicate AreOctets(os: seq<nat>) { |os| == 4 && forall i | 0 <= i < 4 :: os[i] < 256 }

  function DecTexts(os: seq<nat>): seq<Text>
    requires AreOctets(os)
  {
    [DecText(os[0]), DecText(os[1]), DecText(os[2]), DecText(os[3])]
  }

  lemma DecTextsSpell(os: seq<nat>)
    requires AreOctets(os)
    ensures AllSpellOctets(DecTexts(os), os)
  {
    forall i | 0 <= i < 4 ensures SpellsOctet(DecTexts(os)[i], os[i]) { DecTextSpells(os[i]); }
  }

  /** Every IPv4 address comes back. */
  lemma DottedRead(os: seq<nat>)
    requires AreOctets(os)
    ensures ParseIp(JoinDots(DecTexts(os))) == Some(V4(os))
  {
    DecTextsSpell(os);
    DottedText(DecTexts(os), os);
  }

  /** And every IPv4 address mapped into IPv6, its first octet in the high byte. */
  lemma MappedRead(os: seq<nat>)
    requires AreOctets(os)
    ensures ParseIp("::ffff:" + JoinDots(DecTexts(os)))
            == Some(V6([0, 0, 0, 0, 0, 0xffff, 256 * os[0] + os[1], 256 * os[2] + os[3]]))
  {
    DecTextsSpell(os);
    MappedText(JoinDots(DecTexts(os)));
    MappedGroups(DecTexts(os), os);
    PairsAre(os);
  }

  lemma MappedText(d: Text)
    ensures "::ffff:" + d == Join([]) + ("::" + Mix(["ffff"], d))
  {
    var rest: seq<Text> := ["ffff"][1..];
    assert Mix(rest, d) == d;
    assert Mix(["ffff"], d) == "ffff" + (":" + d);
  }

  lemma Ffff()
    ensures Spells("ffff", 0xffff)
  {
    HexTextSpells(0xffff, LOWER);
    assert HexText(0xffff, LOWER) == "ffff";
  }

  lemma MappedGroups(ds: seq<Text>, os: seq<nat>)
    requires |ds| == 4 && AllSpellOctets(ds, os)
    ensures ParseIp(Join([]) + ("::" + Mix(["ffff"], JoinDots(ds)))) == Some(V6(MAPPED + Pairs(os)))
  {
    Ffff();
    MixedRead([], [], ["ffff"], [0xffff], ds, os);
  }

  lemma MixedRead(hs: seq<Text>, hg: seq<nat>, ts: seq<Text>, tg: seq<nat>, ds: seq<Text>, os: seq<nat>)
    requires AllSpell(hs, hg) && AllSpell(ts, tg) && |ds| == 4 && AllSpellOctets(ds, os) && MappedBehind(hg, tg)
    ensures ParseIp(Join(hs) + ("::" + Mix(ts, JoinDots(ds)))) == Some(V6(MAPPED + Pairs(os)))
  {
    CompressedMixedText(hs, hg, ts, tg, ds, os);
  }

  lemma PairsAre(os: seq<nat>)
    requires |os| == 4
    ensures MAPPED + Pairs(os) == [0, 0, 0, 0, 0, 0xffff, 256 * os[0] + os[1], 256 * os[2] + os[3]]
  {
  }

  lemma Fe80()
    ensures Spells("fe80", 0xfe80)
  {
    HexTextSpells(0xfe80, LOWER);
    assert HexText(0xfe80, LOWER) == "fe80";
  }

  lemma One()
    ensures Spells("1", 1)
  {
    HexNext("1", 0);
  }

  lemma ShortRead(s: Text, h: Text, hg: nat, t: Text, tg: nat)
    requires Spells(h, hg) && Spells(t, tg) && s == h + "::" + t
    ensures ParseIp(s) == Some(V6([hg, 0, 0, 0, 0, 0, 0, tg]))
  {
    ZeroRunText([h], [hg], [t], [tg]);
    assert Address(Groups([hg], [tg], true)) == [hg, 0, 0, 0, 0, 0, 0, tg];
  }

  /** A link-local address, end to end. */
  lemma LinkLocal()
    ensures ParseIp("fe80::1") == Some(V6([0xfe80, 0, 0, 0, 0, 0, 0, 1]))
  {
    Fe80();
    One();
    ShortRead("fe80::1", "fe80", 0xfe80, "1", 1);
  }
}
