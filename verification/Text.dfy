/** Strings as the server sees them: sequences of Unicode scalar values with a UTF-8 byte length. */
module Text {

  /** Joins `parts` with one separator between neighbours. */
  function Join(parts: seq<string>, sep: char): string
    requires |parts| > 0
  {
    if |parts| == 1 then parts[0] else parts[0] + [sep] + Join(parts[1..], sep)
  }

  /** Cuts `s` at every separator; always yields at least one piece. */
  function Split(s: string, sep: char): (pieces: seq<string>)
    ensures |pieces| > 0
  {
    if s == "" then
      [""]
    else
      var rest := Split(s[1..], sep);
      if s[0] == sep then [""] + rest else [[s[0]] + rest[0]] + rest[1..]
  }

  lemma {:induction false} SplitPlain(s: string, sep: char)
    requires sep !in s
    ensures Split(s, sep) == [s]
  {
    if s != "" {
      SplitPlain(s[1..], sep);
      assert [s[0]] + s[1..] == s;
    }
  }

  lemma {:induction false} SplitConcat(a: string, b: string, sep: char)
    ensures Split(a + [sep] + b, sep) == Split(a, sep) + Split(b, sep)
  {
    if a == "" {
      assert (a + [sep] + b)[1..] == b;
    } else {
      SplitConcat(a[1..], b, sep);
      assert (a + [sep] + b)[1..] == a[1..] + [sep] + b;
      LengthenFirst(a[0], Split(a[1..], sep), Split(b, sep));
    }
  }

  lemma LengthenFirst(c: char, xs: seq<string>, ys: seq<string>)
    requires |xs| > 0
    ensures [[c] + (xs + ys)[0]] + (xs + ys)[1..] == [[c] + xs[0]] + xs[1..] + ys
    ensures [""] + (xs + ys) == [""] + xs + ys
  {
  }

  /** Splitting recovers exactly the parts that were joined, provided none of them holds a separator. */
  lemma {:induction false} SplitJoin(parts: seq<string>, sep: char)
    requires |parts| > 0
    requires forall k | 0 <= k < |parts| :: sep !in parts[k]
    ensures Split(Join(parts, sep), sep) == parts
  {
    if |parts| == 1 {
      SplitPlain(parts[0], sep);
    } else {
      SplitJoin(parts[1..], sep);
      SplitPlain(parts[0], sep);
      SplitConcat(parts[0], Join(parts[1..], sep), sep);
    }
  }

  lemma {:induction false} SplitPieces(s: string, sep: char)
    ensures |Split(s, sep)| == 1 ==> sep !in s
  {
    if s != "" {
      SplitPieces(s[1..], sep);
      assert [s[0]] + s[1..] == s;
    }
  }

  /** Joined parts fall into as many pieces as there are parts only if no part holds a separator. */
  lemma {:induction false} JoinPieces(parts: seq<string>, sep: char)
    requires |parts| > 0
    ensures |Split(Join(parts, sep), sep)| >= |parts|
    ensures |Split(Join(parts, sep), sep)| == |parts| ==> forall k | 0 <= k < |parts| :: sep !in parts[k]
  {
    SplitPieces(parts[0], sep);
    if |parts| > 1 {
      JoinPieces(parts[1..], sep);
      SplitConcat(parts[0], Join(parts[1..], sep), sep);
      assert forall k | 1 <= k < |parts| :: parts[k] == parts[1..][k - 1];
    }
  }

  // ----- UTF-8 byte lengths (section 3 of RFC 3629) -----

  function CharBytes(c: char): (n: nat)
    ensures 1 <= n <= 4
  {
    var code := c as int;
    if code < 0x80 then 1 else if code < 0x800 then 2 else if code < 0x1_0000 then 3 else 4
  }

  /** `str::len`: the number of UTF-8 bytes. */
  function ByteLen(s: string): (n: nat)
    ensures |s| <= n
  {
    if s == "" then 0 else CharBytes(s[0]) + ByteLen(s[1..])
  }

  lemma {:induction false} ByteLenConcat(a: string, b: string)
    ensures ByteLen(a + b) == ByteLen(a) + ByteLen(b)
  {
    if a == "" {
      assert a + b == b;
    } else {
      ByteLenConcat(a[1..], b);
      assert (a + b)[1..] == a[1..] + b;
    }
  }

  lemma {:induction false} ByteLenAscii(s: string)
    requires forall i | 0 <= i < |s| :: s[i] as int < 0x80
    ensures ByteLen(s) == |s|
  {
    if s != "" {
      ByteLenAscii(s[1..]);
    }
  }

  /** The UTF-8 encoding of a character, byte by byte. */
  function Utf8(c: char): (bytes: seq<int>)
    ensures |bytes| > 0
  {
    var code := c as int;
    if code < 0x80 then [code]
    else if code < 0x800 then [0xC0 + code / 0x40, 0x80 + code % 0x40]
    else if code < 0x1_0000 then [0xE0 + code / 0x1000, 0x80 + code / 0x40 % 0x40, 0x80 + code % 0x40]
    else [0xF0 + code / 0x4_0000, 0x80 + code / 0x1000 % 0x40, 0x80 + code / 0x40 % 0x40, 0x80 + code % 0x40]
  }

  /** The code point of an encoding; the first byte says how many bytes follow. */
  function CodeOf(bytes: seq<int>): int {
    if |bytes| == 1 then bytes[0]
    else if |bytes| == 2 then (bytes[0] - 0xC0) * 0x40 + (bytes[1] - 0x80)
    else if |bytes| == 3 then (bytes[0] - 0xE0) * 0x1000 + (bytes[1] - 0x80) * 0x40 + (bytes[2] - 0x80)
    else if |bytes| == 4 then
      (bytes[0] - 0xF0) * 0x4_0000 + (bytes[1] - 0x80) * 0x1000 + (bytes[2] - 0x80) * 0x40 + (bytes[3] - 0x80)
    else 0
  }

  function Utf8All(s: string): seq<int> {
    if s == "" then [] else Utf8(s[0]) + Utf8All(s[1..])
  }

  /** An encoding can be read back, and has as many bytes as the length says. */
  lemma Utf8RoundTrip(c: char)
    ensures CodeOf(Utf8(c)) == c as int && |Utf8(c)| == CharBytes(c)
  {
    var code := c as int;
    assert code / 0x1000 == code / 0x40 / 0x40 && code / 0x4_0000 == code / 0x1000 / 0x40;
  }

  lemma {:induction false} ByteLenIsUtf8(s: string)
    ensures |Utf8All(s)| == ByteLen(s)
  {
    if s != "" {
      Utf8RoundTrip(s[0]);
      ByteLenIsUtf8(s[1..]);
    }
  }

  // ----- Character classes -----

  /** `char::is_control`: general category Cc. */
  predicate IsControl(c: char) {
    var code := c as int;
    code < 0x20 || 0x7F <= code < 0xA0
  }

  /** `char::is_whitespace`: the Unicode White_Space property, which `str::trim` removes. */
  predicate IsWhitespace(c: char) {
    var code := c as int;
    || 0x09 <= code <= 0x0D || code == 0x20 || code == 0x85 || code == 0xA0 || code == 0x1680
    || 0x2000 <= code <= 0x200A || code == 0x2028 || code == 0x2029 || code == 0x202F
    || code == 0x205F || code == 0x3000
  }

  predicate IsLowerOrDigit(c: char) {
    'a' <= c <= 'z' || '0' <= c <= '9'
  }

  predicate IsAlphanumeric(c: char) {
    IsLowerOrDigit(c) || 'A' <= c <= 'Z'
  }

  // ----- Trimming -----

  function TrimStart(s: string): string {
    if s != "" && IsWhitespace(s[0]) then TrimStart(s[1..]) else s
  }

  function TrimEnd(s: string): string {
    if s != "" && IsWhitespace(s[|s| - 1]) then TrimEnd(s[..|s| - 1]) else s
  }

  function Trim(s: string): string {
    TrimEnd(TrimStart(s))
  }

  /** What a trimmed string looks like: no whitespace at either end. */
  predicate Trimmed(s: string) {
    s == "" || (!IsWhitespace(s[0]) && !IsWhitespace(s[|s| - 1]))
  }

  lemma {:induction false} TrimStartIsSuffix(s: string) returns (cut: nat)
    ensures cut <= |s| && TrimStart(s) == s[cut..]
    ensures TrimStart(s) == "" || !IsWhitespace(TrimStart(s)[0])
    ensures forall i | 0 <= i < cut :: IsWhitespace(s[i])
  {
    if s != "" && IsWhitespace(s[0]) {
      var rest := TrimStartIsSuffix(s[1..]);
      cut := rest + 1;
      assert s[1..][rest..] == s[cut..];
      assert forall i | 1 <= i < cut :: s[i] == s[1..][i - 1];
    } else {
      cut := 0;
    }
  }

  lemma {:induction false} TrimEndIsPrefix(s: string) returns (keep: nat)
    ensures keep <= |s| && TrimEnd(s) == s[..keep]
    ensures TrimEnd(s) == "" || !IsWhitespace(TrimEnd(s)[|TrimEnd(s)| - 1])
    ensures forall i | keep <= i < |s| :: IsWhitespace(s[i])
  {
    if s != "" && IsWhitespace(s[|s| - 1]) {
      keep := TrimEndIsPrefix(s[..|s| - 1]);
      assert s[..|s| - 1][..keep] == s[..keep];
    } else {
      keep := |s|;
    }
  }

  /** Trimming removes whitespace from the two ends and nothing else. */
  lemma TrimIsSlice(s: string) returns (lo: nat, hi: nat)
    ensures lo <= hi <= |s| && Trim(s) == s[lo..hi]
    ensures Trimmed(Trim(s))
    ensures forall i | 0 <= i < lo || hi <= i < |s| :: IsWhitespace(s[i])
  {
    lo := TrimStartIsSuffix(s);
    var keep := TrimEndIsPrefix(s[lo..]);
    hi := lo + keep;
    assert s[lo..][..keep] == s[lo..hi];
    assert forall i | hi <= i < |s| :: s[i] == s[lo..][i - lo];
  }

  /** Nothing is left exactly if there was nothing but whitespace. */
  lemma TrimIsEmpty(s: string)
    ensures Trim(s) == "" <==> forall i | 0 <= i < |s| :: IsWhitespace(s[i])
  {
    var lo, hi := TrimIsSlice(s);
    if Trim(s) != "" {
      assert s[lo..hi][0] == s[lo];
    }
  }

  lemma {:induction false} SliceBytes(s: string, lo: nat, hi: nat)
    requires lo <= hi <= |s|
    ensures ByteLen(s[lo..hi]) <= ByteLen(s)
  {
    ByteLenConcat(s[..lo], s[lo..hi]);
    ByteLenConcat(s[..hi], s[hi..]);
    assert s[..lo] + s[lo..hi] == s[..hi];
    assert s[..hi] + s[hi..] == s;
  }
}
