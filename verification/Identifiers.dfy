/** The printed forms that enter a signed command: UUIDs, decimal numbers and hexadecimal bytes. */
module Identifiers {
  import opened Common

  function HexDigit(d: int): (c: char)
    requires 0 <= d < 16
    ensures IsHexDigit(c)
  {
    if d < 10 then '0' + d as char else 'a' + (d - 10) as char
  }

  predicate IsHexDigit(c: char) {
    '0' <= c <= '9' || 'a' <= c <= 'f' || 'A' <= c <= 'F'
  }

  /** The value of a digit of either case. */
  function HexValue(c: char): (v: int)
    requires IsHexDigit(c)
    ensures 0 <= v < 16
  {
    if c <= '9' then c as int - '0' as int
    else if c <= 'F' then c as int - 'A' as int + 10
    else c as int - 'a' as int + 10
  }

  lemma HexDigitValue(d: int)
    requires 0 <= d < 16
    ensures HexValue(HexDigit(d)) == d
  {
  }

  function Pow16(w: nat): (p: nat)
    ensures p > 0
  {
    if w == 0 then 1 else 16 * Pow16(w - 1)
  }

  /** Exactly `w` lower-case digits, most significant first. */
  function HexFixed(n: nat, w: nat): (s: string)
    ensures |s| == w && forall c | c in s :: IsHexDigit(c)
  {
    if w == 0 then "" else HexFixed(n / 16, w - 1) + [HexDigit(n % 16)]
  }

  function ParseHex(s: string): (r: Option<nat>)
    ensures r.Some? <==> forall c | c in s :: IsHexDigit(c)
    ensures r.Some? ==> r.value < Pow16(|s|)
  {
    if s == "" then
      Some(0)
    else
      var init := s[..|s| - 1];
      var last := s[|s| - 1];
      assert s == init + [last];
      var high := ParseHex(init);
      if high.Some? && IsHexDigit(last) then Some(16 * high.value + HexValue(last)) else None
  }

  lemma {:induction false} ParseHexFixed(n: nat, w: nat)
    requires n < Pow16(w)
    ensures ParseHex(HexFixed(n, w)) == Some(n)
  {
    if w > 0 {
      ParseHexFixed(n / 16, w - 1);
      var s := HexFixed(n, w);
      assert s[..|s| - 1] == HexFixed(n / 16, w - 1);
      HexDigitValue(n % 16);
    }
  }

  lemma Pow16Of32()
    ensures Pow16(32) == UUID_COUNT
  {
    assert Pow16(8) == 0x1_0000_0000;
    assert Pow16(16) == 0x1_0000_0000_0000_0000;
    assert Pow16(24) == 0x1_0000_0000_0000_0000_0000_0000;
  }

  // ----- UUIDs (text form: section 4 of RFC 9562) -----

  /** Cuts 32 digits into the 8-4-4-4-12 form. */
  function Hyphenate(h: string): (s: string)
    requires |h| == 32
    ensures |s| == 36
  {
    h[..8] + "-" + h[8..12] + "-" + h[12..16] + "-" + h[16..20] + "-" + h[20..]
  }

  function Unhyphenate(s: string): (h: string)
    requires |s| == 36
    ensures |h| == 32
  {
    s[..8] + s[9..13] + s[14..18] + s[19..23] + s[24..]
  }

  predicate HyphensInPlace(s: string)
    requires |s| == 36
  {
    s[8] == '-' && s[13] == '-' && s[18] == '-' && s[23] == '-'
  }

  /** `Uuid::to_string`. */
  function PrintUuid(u: Uuid): (s: string)
    ensures |s| == 36
  {
    Hyphenate(HexFixed(u, 32))
  }

  function ParseSimple(s: string): Option<Uuid>
    requires |s| == 32
  {
    var r := ParseHex(s);
    Pow16Of32();
    if r.Some? then Some(r.value) else None
  }

  function ParseHyphenated(s: string): Option<Uuid>
    requires |s| == 36
  {
    if HyphensInPlace(s) then ParseSimple(Unhyphenate(s)) else None
  }

  const URN_PREFIX := "urn:uuid:"

  /** `Uuid::parse_str`: bare digits, hyphenated, braced or as a URN. */
  function ParseUuid(s: string): Option<Uuid> {
    if |s| == 32 then ParseSimple(s)
    else if |s| == 36 then ParseHyphenated(s)
    else if |s| == 38 && s[0] == '{' && s[37] == '}' then ParseHyphenated(s[1..37])
    else if |s| == 45 && s[..9] == URN_PREFIX then ParseHyphenated(s[9..])
    else None
  }

  lemma HyphensComeOut(h: string)
    requires |h| == 32
    ensures HyphensInPlace(Hyphenate(h)) && Unhyphenate(Hyphenate(h)) == h
  {
    var s := Hyphenate(h);
    assert s[..8] == h[..8] && s[9..13] == h[8..12] && s[14..18] == h[12..16];
    assert s[19..23] == h[16..20] && s[24..] == h[20..];
  }

  /** Parsing is a left inverse of printing, so printing is injective. */
  lemma ParsePrintedUuid(u: Uuid)
    ensures ParseUuid(PrintUuid(u)) == Some(u)
  {
    Pow16Of32();
    var h := HexFixed(u, 32);
    ParseHexFixed(u, 32);
    HyphensComeOut(h);
  }

  lemma ParseBraced(s: string)
    requires |s| == 36
    ensures ParseUuid(['{'] + s + ['}']) == ParseHyphenated(s)
  {
  }

  lemma ParseUrn(s: string)
    requires |s| == 36
    ensures ParseUuid(URN_PREFIX + s) == ParseHyphenated(s)
  {
  }

  /** The parser reads the same value from every spelling it accepts. */
  lemma ParseUuidForms(u: Uuid)
    ensures ParseUuid(HexFixed(u, 32)) == Some(u)
    ensures ParseUuid(['{'] + PrintUuid(u) + ['}']) == Some(u)
    ensures ParseUuid(URN_PREFIX + PrintUuid(u)) == Some(u)
  {
    ParsePrintedUuid(u);
    ParseBraced(PrintUuid(u));
    ParseUrn(PrintUuid(u));
    Pow16Of32();
    ParseHexFixed(u, 32);
  }

  lemma HyphenatedAlphabet(s: string)
    requires |s| == 36 && ParseHyphenated(s).Some?
    ensures forall i | 0 <= i < 36 :: s[i] == '-' || IsHexDigit(s[i])
  {
  }

  lemma HyphenatedHasNoNewline(s: string)
    requires |s| == 36 && ParseHyphenated(s).Some?
    ensures '\n' !in s
  {
    HyphenatedAlphabet(s);
  }

  lemma PrintedUuidHasNoNewline(u: Uuid)
    ensures '\n' !in PrintUuid(u)
  {
    ParsePrintedUuid(u);
    HyphenatedHasNoNewline(PrintUuid(u));
  }

  /** Every string the parser accepts, in any of its forms, is free of newlines. */
  lemma ParsedUuidHasNoNewline(s: string)
    requires ParseUuid(s).Some?
    ensures '\n' !in s
  {
    if |s| == 32 {
      assert ParseHex(s).Some?;
    } else if |s| == 36 {
      HyphenatedHasNoNewline(s);
    } else if |s| == 38 {
      HyphenatedHasNoNewline(s[1..37]);
      assert s == ['{'] + s[1..37] + ['}'];
    } else {
      HyphenatedHasNoNewline(s[9..]);
      assert s == URN_PREFIX + s[9..];
    }
  }

  // ----- The exact texts -----

  predicate IsLowerHex(c: char) {
    '0' <= c <= '9' || 'a' <= c <= 'f'
  }

  lemma {:induction false} HexFixedIsLowerCase(n: nat, w: nat)
    ensures forall i | 0 <= i < w :: IsLowerHex(HexFixed(n, w)[i])
  {
    if w > 0 {
      HexFixedIsLowerCase(n / 16, w - 1);
    }
  }

  predicate IsHyphenPlace(i: int) {
    i == 8 || i == 13 || i == 18 || i == 23
  }

  /** A printed UUID has its hyphens in four places and lower-case digits everywhere else. */
  lemma PrintedUuidText(u: Uuid)
    ensures forall i | 0 <= i < 36 ::
              if IsHyphenPlace(i) then PrintUuid(u)[i] == '-' else IsLowerHex(PrintUuid(u)[i])
  {
    HexFixedIsLowerCase(u, 32);
    HyphensComeOut(HexFixed(u, 32));
  }

  /** 36 characters with digits of either case around the four hyphens. */
  predicate IsHyphenated(s: string) {
    |s| == 36 && forall i | 0 <= i < 36 :: if IsHyphenPlace(i) then s[i] == '-' else IsHexDigit(s[i])
  }

  /** The texts the parser accepts: 32 digits, or the hyphenated form, bare, in braces or as a URN. */
  predicate IsUuidText(s: string) {
    || (|s| == 32 && forall i | 0 <= i < 32 :: IsHexDigit(s[i]))
    || IsHyphenated(s)
    || (|s| == 38 && s[0] == '{' && IsHyphenated(s[1..37]) && s[37] == '}')
    || (|s| == 45 && s[..9] == "urn:uuid:" && IsHyphenated(s[9..]))
  }

  /** Where the digits of the hyphenated form end up. */
  function DigitPlace(i: int): int {
    if i < 8 then i else if i < 12 then i + 1 else if i < 16 then i + 2 else if i < 20 then i + 3 else i + 4
  }

  lemma UnhyphenatedDigits(s: string)
    requires |s| == 36
    ensures forall i | 0 <= i < 32 :: Unhyphenate(s)[i] == s[DigitPlace(i)]
    ensures forall k | 0 <= k < 36 && !IsHyphenPlace(k) :: exists i :: 0 <= i < 32 && DigitPlace(i) == k
  {
    forall k | 0 <= k < 36 && !IsHyphenPlace(k)
      ensures exists i :: 0 <= i < 32 && DigitPlace(i) == k
    {
      assert DigitPlace(if k < 8 then k else if k < 13 then k - 1 else if k < 18 then k - 2
                        else if k < 23 then k - 3 else k - 4) == k;
    }
  }

  lemma HyphenatedAccepts(s: string)
    requires |s| == 36
    ensures ParseHyphenated(s).Some? <==> IsHyphenated(s)
  {
    var h := Unhyphenate(s);
    UnhyphenatedDigits(s);
    if ParseHyphenated(s).Some? {
      assert forall i | 0 <= i < 32 :: h[i] in h;
      forall k | 0 <= k < 36 && !IsHyphenPlace(k)
        ensures IsHexDigit(s[k])
      {
        var i :| 0 <= i < 32 && DigitPlace(i) == k;
        assert h[i] in h;
      }
    }
  }

  lemma ParseUuidAccepts(s: string)
    ensures ParseUuid(s).Some? <==> IsUuidText(s)
  {
    if |s| == 36 {
      HyphenatedAccepts(s);
    } else if |s| == 38 {
      HyphenatedAccepts(s[1..37]);
    } else if |s| == 45 {
      HyphenatedAccepts(s[9..]);
    } else if |s| == 32 {
      assert forall i | 0 <= i < 32 :: s[i] in s;
    }
  }

  function LowerCase(c: char): char {
    if 'A' <= c <= 'F' then c - 'A' + 'a' else c
  }

  function Lowered(s: string): (r: string)
    ensures |r| == |s|
  {
    seq(|s|, i requires 0 <= i < |s| => LowerCase(s[i]))
  }

  /** Digits of either case read alike. */
  lemma {:induction false} ParseHexIgnoresCase(s: string)
    requires ParseHex(s).Some?
    ensures ParseHex(Lowered(s)) == ParseHex(s)
  {
    if s != "" {
      var n := |s| - 1;
      ParseHexIgnoresCase(s[..n]);
      assert Lowered(s)[..n] == Lowered(s[..n]);
      assert s[n] in s;
    }
  }

  lemma UuidIgnoresCase(s: string)
    requires ParseUuid(s).Some? && |s| == 36
    ensures ParseUuid(Lowered(s)) == ParseUuid(s)
  {
    HyphenatedAccepts(s);
    UnhyphenatedDigits(s);
    UnhyphenatedDigits(Lowered(s));
    assert Unhyphenate(Lowered(s)) == Lowered(Unhyphenate(s));
    ParseHexIgnoresCase(Unhyphenate(s));
  }

  // ----- Decimal numbers -----

  predicate IsDigit(c: char) {
    '0' <= c <= '9'
  }

  function Decimal(n: nat): (s: string)
    ensures |s| > 0 && forall c | c in s :: IsDigit(c)
  {
    if n < 10 then ['0' + n as char] else Decimal(n / 10) + ['0' + (n % 10) as char]
  }

  function ParseDecimal(s: string): nat
    requires forall c | c in s :: IsDigit(c)
  {
    if s == "" then 0
    else
      assert IsDigit(s[|s| - 1]);
      10 * ParseDecimal(s[..|s| - 1]) + (s[|s| - 1] as int - '0' as int)
  }

  lemma {:induction false} ParsePrintedDecimal(n: nat)
    ensures ParseDecimal(Decimal(n)) == n
  {
    if n >= 10 {
      ParsePrintedDecimal(n / 10);
      assert Decimal(n)[..|Decimal(n)| - 1] == Decimal(n / 10);
    } else {
      assert Decimal(n)[..0] == "";
    }
  }

  /** No leading zeros. */
  lemma {:induction false} DecimalIsCanonical(n: nat)
    ensures Decimal(n)[0] == '0' <==> n == 0
    ensures n == 0 ==> |Decimal(n)| == 1
  {
    if n >= 10 {
      DecimalIsCanonical(n / 10);
    }
  }

  // ----- Hexadecimal bytes -----

  /** `hex::encode`. */
  function HexEncode(bytes: seq<Byte>): string {
    if bytes == [] then "" else HexFixed(bytes[0], 2) + HexEncode(bytes[1..])
  }

  /** `hex::decode`: digits of either case, two per byte; odd lengths and other characters fail. */
  function HexDecode(s: string): Option<seq<Byte>> {
    if s == "" then Some([])
    else if |s| == 1 || !IsHexDigit(s[0]) || !IsHexDigit(s[1]) then None
    else
      var rest := HexDecode(s[2..]);
      if rest.None? then None else Some([16 * HexValue(s[0]) + HexValue(s[1])] + rest.value)
  }

  lemma {:induction false} HexRoundTrip(bytes: seq<Byte>)
    ensures HexDecode(HexEncode(bytes)) == Some(bytes)
  {
    if bytes != [] {
      HexRoundTrip(bytes[1..]);
      var b := bytes[0];
      var pair := HexFixed(b, 2);
      assert HexFixed(b, 2) == HexFixed(b / 16, 1) + [HexDigit(b % 16)];
      assert HexFixed(b / 16, 1) == HexFixed(b / 16 / 16, 0) + [HexDigit(b / 16)];
      assert pair[0] == HexDigit(b / 16) && pair[1] == HexDigit(b % 16);
      HexDigitValue(b / 16);
      HexDigitValue(b % 16);
      assert HexEncode(bytes)[2..] == HexEncode(bytes[1..]);
      assert [b] + bytes[1..] == bytes;
    }
  }

  lemma {:induction false} HexEncodeIsLowerCase(bytes: seq<Byte>)
    ensures |HexEncode(bytes)| == 2 * |bytes|
    ensures forall i | 0 <= i < |HexEncode(bytes)| :: IsLowerHex(HexEncode(bytes)[i])
  {
    if bytes != [] {
      HexFixedIsLowerCase(bytes[0], 2);
      HexEncodeIsLowerCase(bytes[1..]);
    }
  }

  /** The `i`-th pair of digits, of either case, is the byte `b`. */
  predicate IsPair(s: string, i: nat, b: Byte) {
    && 2 * i + 1 < |s|
    && IsHexDigit(s[2 * i]) && IsHexDigit(s[2 * i + 1])
    && 16 * HexValue(s[2 * i]) + HexValue(s[2 * i + 1]) == b
  }

  /** `s` spells out `bytes`. */
  predicate IsHexOf(s: string, bytes: seq<Byte>) {
    |s| == 2 * |bytes| && forall i | 0 <= i < |bytes| :: IsPair(s, i, bytes[i])
  }

  lemma PairInRest(s: string, i: nat, b: Byte)
    requires |s| >= 2
    ensures IsPair(s, i + 1, b) <==> IsPair(s[2..], i, b)
  {
  }

  /** The digits of the first byte, and those of the others. */
  lemma HexOfFirst(s: string, bytes: seq<Byte>)
    requires |s| >= 2 && bytes != []
    ensures IsHexOf(s, bytes) <==> IsPair(s, 0, bytes[0]) && IsHexOf(s[2..], bytes[1..])
  {
    forall i | 0 <= i < |bytes| - 1
      ensures IsPair(s, i + 1, bytes[i + 1]) <==> IsPair(s[2..], i, bytes[1..][i])
    {
      PairInRest(s, i, bytes[i + 1]);
    }
    if IsPair(s, 0, bytes[0]) && IsHexOf(s[2..], bytes[1..]) {
      forall i | 0 <= i < |bytes|
        ensures IsPair(s, i, bytes[i])
      {
        if i > 0 {
          assert IsPair(s[2..], i - 1, bytes[1..][i - 1]);
        }
      }
    }
    if IsHexOf(s, bytes) {
      forall i | 0 <= i < |bytes| - 1
        ensures IsPair(s[2..], i, bytes[1..][i])
      {
        assert IsPair(s, i + 1, bytes[i + 1]);
      }
    }
  }

  lemma {:induction false} HexDecodeExactly(s: string, bytes: seq<Byte>)
    ensures HexDecode(s) == Some(bytes) <==> IsHexOf(s, bytes)
  {
    if |s| >= 2 && bytes != [] {
      HexDecodeExactly(s[2..], bytes[1..]);
      HexOfFirst(s, bytes);
      assert bytes == [bytes[0]] + bytes[1..];
    }
  }
}
