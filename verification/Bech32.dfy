/** Bech32 strings (nostr_post.py; BIP-173, section "Bech32"). */
module Bech32 {
  import opened Seats
  import opened Bytes
  import opened Checksums
  import opened BitGroups

  const CHARSET: string := "qpzry9x8gf2tvdw0s3jn54khce6mua7l"

  function CharOf(v: Symbol): char { CHARSET[v] }

  /** The place of `c` in the character set, searched from place `k`. */
  function FindFrom(c: char, k: nat): (r: Option<Symbol>)
    requires k <= 32
    ensures r.Some? ==> CharOf(r.value) == c
    decreases 32 - k
  {
    if k == 32 then None else if CHARSET[k] == c then Some(k) else FindFrom(c, k + 1)
  }

  function Find(c: char): (r: Option<Symbol>)
    ensures r.Some? ==> CharOf(r.value) == c
  {
    FindFrom(c, 0)
  }

  /** The inverse of the character set, written out. */
  function Place(c: char): nat {
    match c
    case 'q' => 0 case 'p' => 1 case 'z' => 2 case 'r' => 3 case 'y' => 4 case '9' => 5 case 'x' => 6 case '8' => 7
    case 'g' => 8 case 'f' => 9 case '2' => 10 case 't' => 11 case 'v' => 12 case 'd' => 13 case 'w' => 14 case '0' => 15
    case 's' => 16 case '3' => 17 case 'j' => 18 case 'n' => 19 case '5' => 20 case '4' => 21 case 'k' => 22 case 'h' => 23
    case 'c' => 24 case 'e' => 25 case '6' => 26 case 'm' => 27 case 'u' => 28 case 'a' => 29 case '7' => 30 case 'l' => 31
    case _ => 32
  }

  lemma PlaceOfChar(v: Symbol)
    ensures Place(CharOf(v)) == v
  {
  }

  lemma {:induction false} FindAfter(v: Symbol, k: nat)
    requires k <= v
    ensures FindFrom(CharOf(v), k) == Some(v)
    decreases 32 - k
  {
    hide CharOf, Place;
    if k < v {
      PlaceOfChar(v);
      PlaceOfChar(k);
      assert CharOf(k) == CHARSET[k] by { CharAt(k); }
      FindAfter(v, k + 1);
    } else {
      CharAt(v);
    }
  }

  lemma CharAt(v: Symbol)
    ensures CharOf(v) == CHARSET[v]
  {
  }

  /** Printable, not a capital, not the separator. */
  lemma CharIsPlain(v: Symbol)
    ensures 33 <= CharOf(v) as int <= 126 && ToLower(CharOf(v)) == CharOf(v) && CharOf(v) != '1'
  {
  }

  function ToLower(c: char): char {
    if 'A' <= c <= 'Z' then (c as int + 32) as char else c
  }

  function LowerCase(s: string): (r: string)
    ensures |r| == |s| && forall i :: 0 <= i < |s| ==> r[i] == ToLower(s[i])
  {
    seq(|s|, i requires 0 <= i < |s| => ToLower(s[i]))
  }

  // ---- decoding and encoding ----

  predicate Printable(s: string) { forall i :: 0 <= i < |s| ==> 33 <= s[i] as int <= 126 }

  function HrpExpand(hrp: string): (r: seq<Symbol>)
    requires Printable(hrp)
    ensures |r| == 2 * |hrp| + 1
  {
    seq(|hrp|, i requires 0 <= i < |hrp| => hrp[i] as int / 32) + [0]
    + seq(|hrp|, i requires 0 <= i < |hrp| => hrp[i] as int % 32)
  }

  /** Each character of the prefix is split over two symbols, its high bits before the separating zero and its low five bits
      as far after it. */
  lemma ExpansionSplits(hrp: string)
    requires Printable(hrp)
    ensures var r, n := HrpExpand(hrp), |hrp|;
      r[n] == 0 && forall i :: 0 <= i < n ==> 32 * (r[i] as int) + r[n + 1 + i] as int == hrp[i] as int
  {
    var r, n := HrpExpand(hrp), |hrp|;
    forall i | 0 <= i < n ensures 32 * (r[i] as int) + r[n + 1 + i] as int == hrp[i] as int {
      assert r[i] == hrp[i] as int / 32 && r[n + 1 + i] == hrp[i] as int % 32;
    }
  }

  /** The place of the last `c`. */
  function LastIndex(s: string, c: char): (r: Option<nat>)
    ensures if r.Some? then r.value < |s| && s[r.value] == c && c !in s[r.value + 1..] else c !in s
  {
    if s == [] then None
    else if s[|s| - 1] == c then Some(|s| - 1)
    else LastIndex(s[..|s| - 1], c)
  }

  lemma {:induction false} LastIs(s: string, c: char, i: nat)
    requires i < |s| && s[i] == c && forall j :: i < j < |s| ==> s[j] != c
    ensures LastIndex(s, c) == Some(i)
  {
    if i < |s| - 1 { LastIs(s[..|s| - 1], c, i); }
  }

  predicate InCharset(s: string) { forall i :: 0 <= i < |s| ==> Find(s[i]).Some? }

  function Symbols(s: string): (r: seq<Symbol>)
    requires InCharset(s)
    ensures |r| == |s| && forall i :: 0 <= i < |s| ==> CharOf(r[i]) == s[i]
  {
    seq(|s|, i requires 0 <= i < |s| => Find(s[i]).value)
  }

  function Spell(vs: seq<Symbol>): (s: string)
    ensures |s| == |vs| && forall i :: 0 <= i < |s| ==> s[i] == CharOf(vs[i])
  {
    seq(|vs|, i requires 0 <= i < |vs| => CharOf(vs[i]))
  }

  /** Where the separator of a lower-cased string is, if the string has the shape of a Bech32 string. */
  function Separator(b: string): (pos: Option<nat>)
    ensures pos.Some? ==> 1 <= pos.value && pos.value + 7 <= |b|
  {
    var last := LastIndex(b, '1');
    if last.None? || last.value < 1 || last.value + 7 > |b| || !InCharset(b[last.value + 1..]) then None else last
  }

  function Decode(s: string): Option<(string, seq<Symbol>)> {
    if !Printable(s) then None
    else
      var b := LowerCase(s);
      var pos := Separator(b);
      if pos.None? then None
      else
        LowerPrintable(s);
        var hrp, data := b[..pos.value], Symbols(b[pos.value + 1..]);
        if Polymod(HrpExpand(hrp) + data) != 1 then None
        else Some((hrp, data[..|data| - 6]))
  }

  lemma LowerPrintable(s: string)
    requires Printable(s)
    ensures Printable(LowerCase(s))
  {
  }

  lemma FitsFive(v: nat)
    ensures FitsIn(v, 5) <==> v < 32
  {
    assert Shr(v, 5) == Shr(v / 2, 4) == Shr(v / 2 / 2, 3) == Shr(v / 2 / 2 / 2, 2) == Shr(v / 2 / 2 / 2 / 2, 1)
        == Shr(v / 2 / 2 / 2 / 2 / 2, 0);
  }

  lemma FitsEight(v: nat)
    ensures FitsIn(v, 8) <==> v < 256
  {
    assert Shr(v, 8) == Shr(v / 2, 7) == Shr(v / 2 / 2, 6) == Shr(v / 2 / 2 / 2, 5);
    FitsFive(v / 2 / 2 / 2);
  }

  /** The payload in groups of five bits. */
  function Fives(payload: seq<Byte>): (data: seq<Symbol>)
    ensures Regroup(payload, 8, 5, true) == Some(data) && Regroup(data, 5, 8, false) == Some(payload)
  {
    FivesFit(payload);
    Regroup(payload, 8, 5, true).value
  }

  lemma FivesFit(payload: seq<Byte>)
    ensures var d := Regroup(payload, 8, 5, true);
      d.Some? && (forall i :: 0 <= i < |d.value| ==> d.value[i] < 32) && Regroup(d.value, 5, 8, false) == Some(payload)
  {
    hide Regroup, FitsIn;
    forall v: Byte ensures FitsIn(v, 8) { FitsEight(v); }
    RegroupBack(payload, 8, 5);
    var d := Regroup(payload, 8, 5, true).value;
    forall i | 0 <= i < |d| ensures d[i] < 32 { FitsFive(d[i]); }
  }

  function Encode(hrp: string, payload: seq<Byte>): string
    requires Printable(hrp)
  {
    var data := Fives(payload);
    hrp + "1" + Spell(data + Checksum(HrpExpand(hrp) + data))
  }

  // ---- decoding undoes encoding ----

  lemma SpellIsPlain(vs: seq<Symbol>)
    ensures var s := Spell(vs);
      && Printable(s) && LowerCase(s) == s && '1' !in s && InCharset(s) && Symbols(s) == vs
  {
    forall i | 0 <= i < |vs| ensures 33 <= CharOf(vs[i]) as int <= 126 && ToLower(CharOf(vs[i])) == CharOf(vs[i])
      && CharOf(vs[i]) != '1' && Find(CharOf(vs[i])) == Some(vs[i]) {
      CharIsPlain(vs[i]);
      FindAfter(vs[i], 0);
    }
    hide CharOf, Find, ToLower;
  }

  lemma SeparatorOf(hrp: string, vs: seq<Symbol>)
    requires |hrp| >= 1 && |vs| >= 6
    ensures Separator(hrp + "1" + Spell(vs)) == Some(|hrp|)
  {
    hide CharOf, Find, Spell, LastIndex;
    SpellIsPlain(vs);
    var s := hrp + "1" + Spell(vs);
    assert s[|hrp|] == '1' && s[|hrp| + 1..] == Spell(vs);
    forall j | |hrp| < j < |s| ensures s[j] != '1' { assert s[j] == Spell(vs)[j - |hrp| - 1]; }
    LastIs(s, '1', |hrp|);
  }

  /** Any lower-case string with a good checksum decodes to its parts. */
  lemma DecodeSpelled(hrp: string, data: seq<Symbol>)
    requires |hrp| >= 1 && Printable(hrp) && LowerCase(hrp) == hrp
    ensures Decode(hrp + "1" + Spell(data + Checksum(HrpExpand(hrp) + data))) == Some((hrp, data))
  {
    hide CharOf, Find, ToLower, Separator, HrpExpand, Checksum, Polymod, InCharset;
    var all := data + Checksum(HrpExpand(hrp) + data);
    var s := hrp + "1" + Spell(all);
    SpellIsPlain(all);
    SeparatorOf(hrp, all);
    assert ToLower('1') == '1' by { OneIsLower(); }
    assert LowerCase(s) == LowerCase(hrp) + "1" + LowerCase(Spell(all)) == s;
    assert s[..|hrp|] == hrp && s[|hrp| + 1..] == Spell(all);
    assert HrpExpand(hrp) + all == (HrpExpand(hrp) + data) + Checksum(HrpExpand(hrp) + data);
    ChecksumHolds(HrpExpand(hrp) + data);
    assert all[..|all| - 6] == data;
  }

  lemma OneIsLower()
    ensures ToLower('1') == '1'
  {
  }

  /** For every byte string and every lower-case prefix, decoding and regrouping gives back what was encoded. */
  lemma DecodeEncode(hrp: string, payload: seq<Byte>)
    requires |hrp| >= 1 && (forall i :: 0 <= i < |hrp| ==> 33 <= hrp[i] as int <= 126) && LowerCase(hrp) == hrp
    ensures Printable(hrp)
    ensures var d := Decode(Encode(hrp, payload));
      d.Some? && d.value.0 == hrp && Regroup(d.value.1, 5, 8, false) == Some(payload)
  {
    hide Decode, Spell, Checksum, HrpExpand, Regroup;
    DecodeSpelled(hrp, Fives(payload));
  }

  /** A string with a character outside that range is refused, whatever else it holds. */
  lemma UnprintableIsRefused(s: string, i: nat)
    requires i < |s| && !(33 <= s[i] as int <= 126)
    ensures Decode(s) == None
  {
  }

  // ---- encoding undoes decoding ----

  /** What is accepted is, lower-cased, the one spelling of what it decodes to. */
  lemma DecodedIsSpelled(s: string)
    requires Decode(s).Some?
    ensures var (hrp, data) := Decode(s).value;
      && |hrp| >= 1 && Printable(hrp)
      && LowerCase(s) == hrp + "1" + Spell(data + Checksum(HrpExpand(hrp) + data))
  {
    hide CharOf, Find, ToLower, HrpExpand, Checksum, Polymod, InCharset;
    LowerPrintable(s);
    var b := LowerCase(s);
    var pos := Separator(b).value;
    var hrp, all := b[..pos], Symbols(b[pos + 1..]);
    var n := |all| - 6;
    assert all == all[..n] + all[n..];
    assert HrpExpand(hrp) + all == (HrpExpand(hrp) + all[..n]) + all[n..];
    ChecksumIsUnique(HrpExpand(hrp) + all[..n], all[n..]);
    assert Spell(all) == b[pos + 1..];
    assert b == b[..pos] + [b[pos]] + b[pos + 1..];
  }

  lemma EncodeDecode(s: string, payload: seq<Byte>)
    requires Decode(s).Some? && Regroup(Decode(s).value.1, 5, 8, false) == Some(payload)
    ensures Printable(Decode(s).value.0) && LowerCase(s) == Encode(Decode(s).value.0, payload)
  {
    hide Decode, Spell, Checksum, HrpExpand, Regroup;
    DecodedIsSpelled(s);
    RegroupCanonical(Decode(s).value.1, 8, 5);
  }

  // ---- errors ----

  /** `t` reads as `s` does except within six neighbouring characters of the data part. */
  ghost predicate Garbled(s: string, t: string, i: nat) {
    && |t| == |s| && t != s && Separator(s).Some? && Separator(t) == Separator(s)
    && Separator(s).value < i
    && forall j :: 0 <= j < |s| && !(i <= j < i + 6) ==> t[j] == s[j]
  }

  /** A string that differs from a valid one only within six neighbouring data characters is refused. */
  lemma GarbledIsRefused(s: string, t: string, i: nat)
    requires Decode(s).Some? && Garbled(LowerCase(s), LowerCase(t), i)
    ensures Decode(t) == None
  {
    hide LowerCase, HrpExpand, InCharset, Separator, Printable, Garbled;
    var b, c := LowerCase(s), LowerCase(t);
    GarbledTail(b, c, i);
    if Printable(t) {
      var pos := Separator(b).value;
      DecodeSums(s);
      DecodeSums(t);
      GarbledSymbols(HrpExpand(b[..pos]), b[pos + 1..], c[pos + 1..], i - pos - 1);
    }
  }

  lemma GarbledTail(b: string, c: string, i: nat)
    requires Garbled(b, c, i)
    ensures Separator(b).Some? && Separator(c) == Separator(b)
    ensures var pos := Separator(b).value; var x, y := b[pos + 1..], c[pos + 1..];
      && b[..pos] == c[..pos] && |x| == |y| && x != y && pos < i
      && forall j :: 0 <= j < |x| && !(i - pos - 1 <= j < i - pos + 5) ==> x[j] == y[j]
  {
    hide Separator;
    var pos := Separator(b).value;
    var d :| 0 <= d < |b| && b[d] != c[d];
    assert b[pos + 1..][d - pos - 1] != c[pos + 1..][d - pos - 1];
  }

  /** A well-shaped string is accepted exactly when its checksum is 1. */
  lemma DecodeSums(s: string)
    requires Printable(s) && Separator(LowerCase(s)).Some?
    ensures var b := LowerCase(s); var pos := Separator(b).value;
      && Printable(b[..pos]) && InCharset(b[pos + 1..])
      && (Decode(s).Some? <==> Polymod(HrpExpand(b[..pos]) + Symbols(b[pos + 1..])) == 1)
  {
    LowerPrintable(s);
    hide CharOf, Find, ToLower, Polymod, HrpExpand;
  }

  lemma GarbledSymbols(h: seq<Symbol>, b: string, c: string, i: nat)
    requires InCharset(b) && InCharset(c) && |b| == |c| && b != c
    requires forall j :: 0 <= j < |b| && !(i <= j < i + 6) ==> b[j] == c[j]
    ensures Polymod(h + Symbols(b)) != Polymod(h + Symbols(c))
  {
    hide Polymod, CharOf;
    var x, y := Symbols(b), Symbols(c);
    assert b == Spell(x) && c == Spell(y);
    assert x != y;
    assert (h + x)[|h|..] == x && (h + y)[|h|..] == y;
    hide Symbols, Spell;
    var k := if i + 6 <= |x| then 6 else |x| - i;
    BurstChangesChecksum(h + x, h + y, |h| + i, k);
  }

  /** Changing one data character of a valid string for another of the character set makes it invalid. */
  lemma OneWrongCharacter(s: string, i: nat, c: char)
    requires Decode(s).Some? && Separator(LowerCase(s)).value < i < |s|
    requires Find(ToLower(c)).Some? && ToLower(c) != ToLower(s[i])
    ensures Decode(s[i := c]) == None
  {
    hide CharOf, Find, ToLower, Polymod, HrpExpand, LastIndex;
    var b, pos := LowerCase(s), Separator(LowerCase(s)).value;
    var t := s[i := c];
    assert LowerCase(t) == b[i := ToLower(c)];
    SameSeparator(b, pos, i, ToLower(c));
    GarbledIsRefused(s, t, i);
  }

  lemma SameSeparator(b: string, pos: nat, i: nat, c: char)
    requires Separator(b) == Some(pos) && pos < i < |b| && Find(c).Some?
    ensures Separator(b[i := c]) == Some(pos)
  {
    hide CharOf, Find, LastIndex;
    assert c != '1' by { OneIsNoSymbol(c); }
    var t := b[i := c];
    var rest := b[pos + 1..];
    assert t[pos + 1..] == rest[i - pos - 1 := c];
    forall j | pos < j < |t| ensures t[j] != '1' { assert j == i || t[j] == rest[j - pos - 1]; }
    LastIs(t, '1', pos);
  }

  lemma OneIsNoSymbol(c: char)
    requires Find(c).Some?
    ensures c != '1'
  {
    CharIsPlain(Find(c).value);
  }

  // ---- a published string ----

  lemma SampleExpands()
    ensures Printable("a") && HrpExpand("a") == [3, 0, 1]
  {
    assert 'a' as int == 97;
    assert HrpExpand("a") == [HrpExpand("a")[0], HrpExpand("a")[1], HrpExpand("a")[2]];
  }

  lemma SampleIsSpelled()
    ensures Spell([10, 28, 25, 31, 20, 31]) == "2uel5l"
  {
    var t := Spell([10, 28, 25, 31, 20, 31]);
    assert CHARSET[10] == '2' && CHARSET[28] == 'u' && CHARSET[25] == 'e' && CHARSET[31] == 'l' && CHARSET[20] == '5';
    assert t == [t[0], t[1], t[2], t[3], t[4], t[5]];
  }

  /** A valid string of BIP-173 is accepted: prefix "a", no data. */
  lemma SampleDecodes()
    ensures Decode("a12uel5l") == Some(("a", []))
  {
    hide HrpExpand, Polymod, Spell, CharOf, Decode, Checksum, Find, LowerCase, ToLower, Printable;
    var data: seq<Symbol> := [10, 28, 25, 31, 20, 31];
    SampleExpands();
    SampleIsSpelled();
    SampleIsValid();
    assert HrpExpand("a") + data == SAMPLE;
    ChecksumIsUnique(HrpExpand("a"), data);
    SampleParts(data);
    DecodeSpelled("a", []);
  }

  lemma SampleParts(data: seq<Symbol>)
    requires Printable("a") && data == Checksum(HrpExpand("a"))
    ensures LowerCase("a") == "a"
    ensures [] + Checksum(HrpExpand("a") + []) == data
    ensures "a" + "1" + "2uel5l" == "a12uel5l"
  {
    assert HrpExpand("a") + [] == HrpExpand("a");
    assert LowerCase("a")[0] == 'a';
    hide HrpExpand, Checksum;
    assert [] + data == data;
  }
}
