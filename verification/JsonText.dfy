/** The texts that stand for a JSON value (RFC 8259), and why the server's own rendering is the shortest of them. */
module JsonText {
  import opened Common
  import opened Text
  import opened Identifiers
  import opened Wire

  // ----- Grammar -----

  /** Insignificant whitespace (section 2 of RFC 8259). */
  predicate Blank(s: string) {
    forall i | 0 <= i < |s| :: s[i] == ' ' || s[i] == '\t' || s[i] == '\n' || s[i] == '\r'
  }

  /** The two-character escapes of section 7. */
  function ShortEscape(c: char): Option<char> {
    if c == '"' || c == '\\' || c == '/' then Some(c)
    else if c == '\n' then Some('n')
    else if c == '\r' then Some('r')
    else if c == '\t' then Some('t')
    else if c as int == 0x08 then Some('b')
    else if c as int == 0x0C then Some('f')
    else None
  }

  predicate IsUnicodeEscape(text: string, unit: int) {
    |text| == 6 && text[0] == '\\' && text[1] == 'u' && ParseHex(text[2..]) == Some(unit)
  }

  /** One character of a string: as it is, with a short escape, or as one or two UTF-16 units. */
  predicate SpellsChar(text: string, c: char) {
    var code := c as int;
    || (text == [c] && c != '"' && c != '\\' && 0x20 <= code)
    || (ShortEscape(c).Some? && text == ['\\', ShortEscape(c).value])
    || IsUnicodeEscape(text, code)
    || (code >= 0x1_0000 && |text| == 12
        && IsUnicodeEscape(text[..6], 0xD800 + (code - 0x1_0000) / 0x400)
        && IsUnicodeEscape(text[6..], 0xDC00 + (code - 0x1_0000) % 0x400))
  }

  ghost predicate SpellsString(text: string, s: string)
    decreases s
  {
    if s == "" then text == ""
    else exists k | 0 <= k <= |text| :: SpellsChar(text[..k], s[0]) && SpellsString(text[k..], s[1..])
  }

  ghost predicate SpellsQuoted(text: string, s: string) {
    |text| >= 2 && text[0] == '"' && text[|text| - 1] == '"' && SpellsString(text[1..|text| - 1], s)
  }

  /** A value with whitespace around it. */
  ghost predicate Spells(text: string, j: Json)
    decreases j, 2
  {
    exists lo, hi | 0 <= lo <= hi <= |text| :: Blank(text[..lo]) && SpellsBare(text[lo..hi], j) && Blank(text[hi..])
  }

  ghost predicate SpellsBare(text: string, j: Json)
    decreases j, 1
  {
    match j
    case Null => text == "null"
    case Bool(b) => text == if b then "true" else "false"
    case Num(digits) => text == digits
    case Str(s) => SpellsQuoted(text, s)
    case Arr(items) =>
      |text| >= 2 && text[0] == '[' && text[|text| - 1] == ']' && SpellsItems(text[1..|text| - 1], items)
    case Obj(fields) =>
      |text| >= 2 && text[0] == '{' && text[|text| - 1] == '}' && SpellsFields(text[1..|text| - 1], fields)
  }

  ghost predicate SpellsItems(text: string, items: seq<Json>)
    decreases items, 0
  {
    if items == [] then Blank(text)
    else if |items| == 1 then Spells(text, items[0])
    else
      exists k | 0 <= k < |text| ::
        text[k] == ',' && Spells(text[..k], items[0]) && SpellsItems(text[k + 1..], items[1..])
  }

  ghost predicate SpellsFields(text: string, fields: seq<Member>)
    decreases fields, 0
  {
    if fields == [] then Blank(text)
    else if |fields| == 1 then SpellsField(text, fields[0])
    else
      exists k | 0 <= k < |text| ::
        text[k] == ',' && SpellsField(text[..k], fields[0]) && SpellsFields(text[k + 1..], fields[1..])
  }

  ghost predicate SpellsField(text: string, field: Member)
    decreases field, 3
  {
    exists k | 0 <= k < |text| ::
      text[k] == ':' && SpellsName(text[..k], field.name) && Spells(text[k + 1..], field.value)
  }

  ghost predicate SpellsName(text: string, name: string) {
    exists lo, hi | 0 <= lo <= hi <= |text| :: Blank(text[..lo]) && SpellsQuoted(text[lo..hi], name) && Blank(text[hi..])
  }

  // ----- No spelling is shorter than the server's -----

  lemma SplitBytes(text: string, k: nat)
    requires k <= |text|
    ensures ByteLen(text) == ByteLen(text[..k]) + ByteLen(text[k..])
  {
    ByteLenConcat(text[..k], text[k..]);
    assert text[..k] + text[k..] == text;
  }

  lemma CutBytes(text: string, k: nat)
    requires k < |text|
    ensures ByteLen(text) == ByteLen(text[..k]) + CharBytes(text[k]) + ByteLen(text[k + 1..])
  {
    SplitBytes(text, k);
    assert text[k..][1..] == text[k + 1..];
  }

  lemma CharIsNoShorter(text: string, c: char)
    requires SpellsChar(text, c)
    ensures ByteLen(Escape(c)) <= ByteLen(text)
  {
    if text == [c] && c != '"' && c != '\\' && 0x20 <= c as int {
      assert Escape(c) == [c];
    } else if c as int < 0x20 || c == '"' || c == '\\' {
      EscapeBytes(c);
    } else {
      assert Escape(c) == [c] && [c][1..] == "";
      assert CharBytes(c) <= |text| by {
        if c == '/' {
          assert CharBytes(c) == 1;
        }
      }
    }
  }

  /** A character that must be escaped takes two bytes with a short escape and six without. */
  lemma EscapeBytes(c: char)
    requires c as int < 0x20 || c == '"' || c == '\\'
    ensures ByteLen(Escape(c)) == if ShortEscape(c).Some? then 2 else 6
  {
    var e := Escape(c);
    if ShortEscape(c).None? {
      var digits := HexFixed(c as int, 4);
      assert forall i | 0 <= i < 4 :: digits[i] in digits;
      assert e == "\\u" + digits;
    }
    assert forall i | 0 <= i < |e| :: e[i] as int < 0x80;
    ByteLenAscii(e);
  }

  lemma {:induction false} StringIsNoShorter(text: string, s: string)
    requires SpellsString(text, s)
    ensures ByteLen(EscapeAll(s)) <= ByteLen(text)
    decreases s
  {
    if s != "" {
      var k :| 0 <= k <= |text| && SpellsChar(text[..k], s[0]) && SpellsString(text[k..], s[1..]);
      CharIsNoShorter(text[..k], s[0]);
      StringIsNoShorter(text[k..], s[1..]);
      SplitBytes(text, k);
      ByteLenConcat(Escape(s[0]), EscapeAll(s[1..]));
    }
  }

  lemma QuotedIsNoShorter(text: string, s: string)
    requires SpellsQuoted(text, s)
    ensures ByteLen(Quote(s)) <= ByteLen(text)
  {
    StringIsNoShorter(text[1..|text| - 1], s);
    QuoteBytes(s);
    InnerBytes(text);
  }

  lemma InnerBytes(text: string)
    requires |text| >= 2 && text[0] as int < 0x80 && text[|text| - 1] as int < 0x80
    ensures ByteLen(text) == ByteLen(text[1..|text| - 1]) + 2
  {
    Unwrap(text);
    WrapBytes(text[0], text[1..|text| - 1], text[|text| - 1]);
  }

  lemma Unwrap(text: string)
    requires |text| >= 2
    ensures text == [text[0]] + text[1..|text| - 1] + [text[|text| - 1]]
  {
  }

  lemma NameIsNoShorter(text: string, name: string)
    requires SpellsName(text, name)
    ensures ByteLen(Quote(name)) <= ByteLen(text)
  {
    var lo, hi :| 0 <= lo <= hi <= |text|
                  && Blank(text[..lo]) && SpellsQuoted(text[lo..hi], name) && Blank(text[hi..]);
    QuotedIsNoShorter(text[lo..hi], name);
    SliceBytes(text, lo, hi);
  }

  /** Whatever spelling, escapes and whitespace a text uses, it is at least as long as the rendering. */
  lemma {:induction false} RenderIsShortest(text: string, j: Json)
    requires Spells(text, j)
    ensures Bytes(j) <= ByteLen(text)
    decreases j, 2
  {
    var lo, hi :| 0 <= lo <= hi <= |text| && Blank(text[..lo]) && SpellsBare(text[lo..hi], j) && Blank(text[hi..]);
    BareIsNoShorter(text[lo..hi], j);
    SliceBytes(text, lo, hi);
  }

  lemma {:induction false} BareIsNoShorter(text: string, j: Json)
    requires SpellsBare(text, j)
    ensures Bytes(j) <= ByteLen(text)
    decreases j, 1
  {
    match j
    case Str(s) => QuotedIsNoShorter(text, s);
    case Arr(items) =>
      ItemsAreNoShorter(text[1..|text| - 1], items);
      InnerBytes(text);
      WrapBytes('[', RenderItems(items), ']');
    case Obj(fields) =>
      FieldsAreNoShorter(text[1..|text| - 1], fields);
      InnerBytes(text);
      WrapBytes('{', RenderFields(fields), '}');
    case _ =>
  }

  lemma {:induction false} ItemsAreNoShorter(text: string, items: seq<Json>)
    requires SpellsItems(text, items)
    ensures ByteLen(RenderItems(items)) <= ByteLen(text)
    decreases items, 0
  {
    if |items| == 1 {
      RenderIsShortest(text, items[0]);
    } else if items != [] {
      var k :| 0 <= k < |text|
               && text[k] == ',' && Spells(text[..k], items[0]) && SpellsItems(text[k + 1..], items[1..]);
      RenderIsShortest(text[..k], items[0]);
      ItemsAreNoShorter(text[k + 1..], items[1..]);
      CutBytes(text, k);
      ItemBytes(items[0], items[1..]);
      assert [items[0]] + items[1..] == items;
    }
  }

  lemma {:induction false} FieldIsNoShorter(text: string, field: Member)
    requires SpellsField(text, field)
    ensures ByteLen(Quote(field.name)) + 1 + Bytes(field.value) <= ByteLen(text)
    decreases field, 3
  {
    var k :| 0 <= k < |text|
             && text[k] == ':' && SpellsName(text[..k], field.name) && Spells(text[k + 1..], field.value);
    NameIsNoShorter(text[..k], field.name);
    RenderIsShortest(text[k + 1..], field.value);
    CutBytes(text, k);
  }

  lemma {:induction false} FieldsAreNoShorter(text: string, fields: seq<Member>)
    requires SpellsFields(text, fields)
    ensures ByteLen(RenderFields(fields)) <= ByteLen(text)
    decreases fields, 0
  {
    if fields != [] {
      FieldRendering(fields[0], fields[1..]);
      assert [fields[0]] + fields[1..] == fields;
      if |fields| == 1 {
        FieldIsNoShorter(text, fields[0]);
      } else {
        var k :| 0 <= k < |text|
                 && text[k] == ',' && SpellsField(text[..k], fields[0]) && SpellsFields(text[k + 1..], fields[1..]);
        FieldIsNoShorter(text[..k], fields[0]);
        FieldsAreNoShorter(text[k + 1..], fields[1..]);
        CutBytes(text, k);
      }
    }
  }

  // ----- The server's rendering is one of the spellings -----

  lemma EscapeSpells(c: char)
    ensures SpellsChar(Escape(c), c)
  {
    if c as int < 0x20 && ShortEscape(c).None? {
      var digits := HexFixed(c as int, 4);
      assert Pow16(4) == 0x1_0000;
      ParseHexFixed(c as int, 4);
      assert ("\\u" + digits)[2..] == digits;
    }
  }

  lemma {:induction false} EscapeAllSpells(s: string)
    ensures SpellsString(EscapeAll(s), s)
  {
    if s != "" {
      EscapeAllSpells(s[1..]);
      EscapeSpells(s[0]);
      var text, k := EscapeAll(s), |Escape(s[0])|;
      assert text[..k] == Escape(s[0]) && text[k..] == EscapeAll(s[1..]);
    }
  }

  lemma QuoteSpells(s: string)
    ensures SpellsQuoted(Quote(s), s)
  {
    EscapeAllSpells(s);
    assert Quote(s)[1..|Quote(s)| - 1] == EscapeAll(s);
  }

  lemma NameSpells(name: string)
    ensures SpellsName(Quote(name), name)
  {
    QuoteSpells(name);
    var text := Quote(name);
    assert text[0..|text|] == text && Blank(text[..0]) && Blank(text[|text|..]);
  }

  lemma {:induction false} RenderSpells(j: Json)
    ensures Spells(Render(j), j)
    decreases j, 2
  {
    BareSpells(j);
    var text := Render(j);
    assert text[0..|text|] == text && Blank(text[..0]) && Blank(text[|text|..]);
  }

  lemma {:induction false} BareSpells(j: Json)
    ensures SpellsBare(Render(j), j)
    decreases j, 1
  {
    var text := Render(j);
    match j
    case Str(s) => QuoteSpells(s);
    case Arr(items) =>
      ItemsSpell(items);
      assert text[1..|text| - 1] == RenderItems(items);
    case Obj(fields) =>
      FieldsSpell(fields);
      assert text[1..|text| - 1] == RenderFields(fields);
    case _ =>
  }

  lemma CutAtComma(text: string, front: string, back: string)
    requires text == front + "," + back
    ensures |front| < |text| && text[..|front|] == front && text[|front|] == ',' && text[|front| + 1..] == back
  {
  }

  lemma {:induction false} ItemsSpell(items: seq<Json>)
    ensures SpellsItems(RenderItems(items), items)
    decreases items, 0
  {
    if |items| == 1 {
      RenderSpells(items[0]);
    } else if items != [] {
      RenderSpells(items[0]);
      ItemsSpell(items[1..]);
      CutAtComma(RenderItems(items), Render(items[0]), RenderItems(items[1..]));
    }
  }

  lemma {:induction false} FieldSpells(field: Member)
    ensures SpellsField(Quote(field.name) + ":" + Render(field.value), field)
    decreases field, 3
  {
    NameSpells(field.name);
    RenderSpells(field.value);
    var text, k := Quote(field.name) + ":" + Render(field.value), |Quote(field.name)|;
    assert text[..k] == Quote(field.name) && text[k] == ':' && text[k + 1..] == Render(field.value);
  }

  lemma {:induction false} FieldsSpell(fields: seq<Member>)
    ensures SpellsFields(RenderFields(fields), fields)
    decreases fields, 0
  {
    if fields != [] {
      FieldSpells(fields[0]);
      if |fields| > 1 {
        FieldsSpell(fields[1..]);
        var first := Quote(fields[0].name) + ":" + Render(fields[0].value);
        CutAtComma(RenderFields(fields), first, RenderFields(fields[1..]));
      }
    }
  }
}
