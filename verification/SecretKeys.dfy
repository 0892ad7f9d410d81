/** Reading a secret key: an nsec1 string or sixty-four hexadecimal digits (nostr_post.py, `decode_seckey`). */
module SecretKeys {
  import opened Seats
  import opened Bytes
  import opened Checksums
  import opened BitGroups
  import opened Bech32

  const NSEC: string := "nsec"

  /** Characters that stripping removes at either end. */
  predicate White(c: char) {
    var i := c as int;
    9 <= i <= 13 || 28 <= i <= 32 || i == 0x85 || i == 0xA0 || i == 0x1680 || 0x2000 <= i <= 0x200A
    || i == 0x2028 || i == 0x2029 || i == 0x202F || i == 0x205F || i == 0x3000
  }

  /** The characters that count as blank space, one by one. */
  const WHITES: set<int> := {9, 10, 11, 12, 13, 28, 29, 30, 31, 32, 133, 160, 5760, 8192, 8193, 8194, 8195, 8196, 8197, 8198,
                             8199, 8200, 8201, 8202, 8232, 8233, 8239, 8287, 12288}

  lemma WhiteIsListed(c: char)
    ensures White(c) <==> c as int in WHITES
  {
  }

  /** Characters that may stand between two bytes in hexadecimal text. */
  predicate Blank(c: char) {
    9 <= c as int <= 13 || c == ' '
  }

  function StripLeft(s: string): string {
    if s != [] && White(s[0]) then StripLeft(s[1..]) else s
  }

  function StripRight(s: string): string {
    if s != [] && White(s[|s| - 1]) then StripRight(s[..|s| - 1]) else s
  }

  function Strip(s: string): string { StripRight(StripLeft(s)) }

  function HexValue(c: char): (v: Option<nat>)
    ensures v.Some? ==> v.value < 16
  {
    if '0' <= c <= '9' then Some(c as int - '0' as int)
    else if 'a' <= c <= 'f' then Some(c as int - 'a' as int + 10)
    else if 'A' <= c <= 'F' then Some(c as int - 'A' as int + 10)
    else None
  }

  /** Pairs of digits, with blanks skipped before a pair. */
  function FromHex(s: string): (r: Option<seq<Byte>>) {
    if s == [] then Some([])
    else if Blank(s[0]) then FromHex(s[1..])
    else if |s| < 2 || HexValue(s[0]).None? || HexValue(s[1]).None? then None
    else
      var rest := FromHex(s[2..]);
      if rest.None? then None else Some([16 * HexValue(s[0]).value + HexValue(s[1]).value] + rest.value)
  }

  /** The decoder; None where the source raises ValueError. */
  function DecodeSecretKey(text: string): Option<seq<Byte>> {
    var s := Strip(text);
    if |s| == 64 && FromHex(s).Some? then FromHex(s)
    else if "nsec1" <= LowerCase(s) then FromNsec(s)
    else None
  }

  function FromNsec(s: string): (r: Option<seq<Byte>>)
    ensures r.Some? ==> |r.value| == 32
  {
    var d := Decode(s);
    if d.None? || d.value.0 != NSEC then None
    else
      var raw := Regroup(d.value.1, 5, 8, false);
      if raw.None? || |raw.value| != 32 then None
      else
        CutBytes(d.value.1);
        Some(raw.value)
  }

  lemma CutBytes(data: seq<Symbol>)
    requires Regroup(data, 5, 8, false).Some?
    ensures forall i :: 0 <= i < |Regroup(data, 5, 8, false).value| ==> Regroup(data, 5, 8, false).value[i] < 256
  {
    var k := CutIsPadded(data, 5, 8);
    var raw := Regroup(data, 5, 8, false).value;
    hide Regroup, FitsIn, AllBits;
    forall i | 0 <= i < |raw| ensures raw[i] < 256 { FitsEight(raw[i]); }
  }

  // ---- nsec1 strings ----

  /** An nsec1 string that is accepted is, stripped and lower-cased, the encoding of its key. */
  lemma AcceptedNsec(text: string)
    requires "nsec1" <= LowerCase(Strip(text)) && DecodeSecretKey(text).Some?
    ensures Printable(NSEC)
    ensures var key := DecodeSecretKey(text).value; |key| == 32 && LowerCase(Strip(text)) == Encode(NSEC, key)
  {
    var s := Strip(text);
    NsecIsNotHex(s);
    hide Strip, LowerCase, FromHex, Decode, Regroup, Encode;
    assert DecodeSecretKey(text) == FromNsec(s);
    EncodeDecode(s, FromNsec(s).value);
  }

  lemma NsecIsNotHex(s: string)
    requires "nsec1" <= LowerCase(s)
    ensures FromHex(s).None?
  {
    assert LowerCase(s)[0] == "nsec1"[0] == 'n';
    assert ToLower(s[0]) == 'n';
    assert s[0] == 'n' || s[0] == 'N';
  }

  /** Every 32-byte key is read back from its nsec1 string. */
  lemma NsecRoundTrip(key: seq<Byte>)
    requires |key| == 32
    ensures Printable(NSEC) && DecodeSecretKey(Encode(NSEC, key)) == Some(key)
  {
    assert Printable(NSEC) && LowerCase(NSEC) == NSEC;
    var s := Encode(NSEC, key);
    EncodedIsBare(key);
    DecodeEncode(NSEC, key);
    StartsNsec(s);
    NsecIsNotHex(s);
    hide Encode, Strip, FromHex, Decode, Regroup, LowerCase;
  }

  lemma StartsNsec(s: string)
    requires |s| >= 5 && s[..5] == "nsec1"
    ensures "nsec1" <= LowerCase(s)
  {
    assert forall i :: 0 <= i < 5 ==> LowerCase(s)[i] == ToLower(s[i]) == s[i] by {
      forall i | 0 <= i < 5 ensures ToLower(s[i]) == s[i] { assert s[i] == s[..5][i] == "nsec1"[i]; }
    }
    assert LowerCase(s)[..5] == s[..5];
  }

  lemma EncodedIsBare(key: seq<Byte>)
    requires Printable(NSEC)
    ensures var s := Encode(NSEC, key); |s| >= 5 && s[..5] == "nsec1" && Strip(s) == s
  {
    var s := Encode(NSEC, key);
    var data := Fives(key);
    var all := data + Checksum(HrpExpand(NSEC) + data);
    assert s == NSEC + "1" + Spell(all);
    SpellIsPlain(all);
    hide Encode, Fives, Checksum, HrpExpand, Spell;
    assert s[0] == 'n' && s[|s| - 1] == Spell(all)[|all| - 1];
    assert StripLeft(s) == s && StripRight(s) == s;
  }

  // ---- hexadecimal text ----

  function Blanks(s: string): nat {
    if s == [] then 0 else (if Blank(s[0]) then 1 else 0) + Blanks(s[1..])
  }

  /** Two digits a byte, and every blank counts towards the sixty-four characters. */
  lemma {:induction false} HexLength(s: string)
    requires FromHex(s).Some?
    ensures |s| == 2 * |FromHex(s).value| + Blanks(s)
  {
    if s != [] {
      if Blank(s[0]) {
        HexLength(s[1..]);
      } else {
        assert !Blank(s[1]);
        HexLength(s[2..]);
        assert s[1..][1..] == s[2..];
        assert Blanks(s) == Blanks(s[1..]) == Blanks(s[2..]);
      }
    }
  }

  /** An accepted key has the promised 32 bytes unless it came from hexadecimal text with blanks between bytes. */
  lemma KeyLength(text: string)
    requires DecodeSecretKey(text).Some?
    ensures |DecodeSecretKey(text).value| == 32
       <==> !(|Strip(text)| == 64 && FromHex(Strip(text)).Some? && Blanks(Strip(text)) > 0)
  {
    var s := Strip(text);
    if FromHex(s).Some? { HexLength(s); }
    hide Strip, LowerCase, Decode, FromHex;
  }

  const HEX: string := "0123456789abcdef"

  /** Two digits for every byte. */
  function ToHex(b: seq<Byte>): (s: string)
    ensures |s| == 2 * |b|
  {
    if b == [] then [] else [HEX[b[0] / 16], HEX[b[0] % 16]] + ToHex(b[1..])
  }

  lemma DigitReads(v: nat)
    requires v < 16
    ensures HexValue(HEX[v]) == Some(v) && !Blank(HEX[v]) && !White(HEX[v])
  {
  }

  lemma PairReads(b: seq<Byte>)
    requires b != []
    ensures var s := ToHex(b);
      && !Blank(s[0]) && HexValue(s[0]) == Some(b[0] / 16) && HexValue(s[1]) == Some(b[0] % 16)
      && !White(s[0]) && !White(s[1]) && s[2..] == ToHex(b[1..])
  {
    DigitReads(b[0] / 16);
    DigitReads(b[0] % 16);
    hide HexValue, White, Blank;
  }

  lemma {:induction false} HexReads(b: seq<Byte>)
    ensures FromHex(ToHex(b)) == Some(b)
  {
    hide HexValue, White, Blank, ToHex;
    if b != [] {
      PairReads(b);
      HexReads(b[1..]);
      assert b == [16 * (b[0] / 16) + b[0] % 16] + b[1..];
    }
  }

  lemma {:induction false} HexIsBare(b: seq<Byte>)
    ensures forall i :: 0 <= i < |ToHex(b)| ==> !White(ToHex(b)[i])
  {
    hide White;
    if b != [] {
      PairReads(b);
      HexIsBare(b[1..]);
      hide ToHex;
      forall i | 0 <= i < |ToHex(b)| ensures !White(ToHex(b)[i]) {
        if i >= 2 { assert ToHex(b)[i] == ToHex(b)[2..][i - 2]; }
      }
    }
  }

  /** A 32-byte key is read back from its sixty-four hexadecimal digits. */
  lemma HexKeyReads(key: seq<Byte>)
    requires |key| == 32
    ensures DecodeSecretKey(ToHex(key)) == Some(key)
  {
    var s := ToHex(key);
    HexReads(key);
    HexIsBare(key);
    hide FromHex, White, LowerCase, Decode, ToHex;
    assert StripLeft(s) == s && StripRight(s) == s;
  }

  function ZeroHex(k: nat): (s: string)
    ensures |s| == 2 * k
  {
    if k == 0 then [] else "00" + ZeroHex(k - 1)
  }

  lemma {:induction false} ZeroHexReads(k: nat)
    ensures FromHex(ZeroHex(k)).Some? && |FromHex(ZeroHex(k)).value| == k
    ensures forall i :: 0 <= i < |ZeroHex(k)| ==> ZeroHex(k)[i] == '0'
  {
    if k > 0 {
      ZeroHexReads(k - 1);
      assert ZeroHex(k)[2..] == ZeroHex(k - 1);
    }
  }

  /** "00", two blanks and thirty more zero bytes: sixty-four characters, accepted as a key of 31 bytes. */
  lemma ShortKeyAccepted()
    ensures var key := DecodeSecretKey("00  " + ZeroHex(30)); key.Some? && |key.value| == 31
  {
    var s := "00  " + ZeroHex(30);
    ZeroHexReads(30);
    hide ZeroHex;
    assert s[0] == '0' && s[63] == '0' && |s| == 64;
    assert Strip(s) == s;
    assert s[2..] == "  " + ZeroHex(30) && s[2..][1..] == " " + ZeroHex(30) && s[2..][1..][1..] == ZeroHex(30);
    assert FromHex(s[2..]) == FromHex(s[2..][1..]) == FromHex(ZeroHex(30));
  }
}
