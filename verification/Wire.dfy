/** JSON replies and events (RFC 8259) and the byte limits they are checked against. */
module Wire {
  import opened Common
  import opened Text
  import opened Identifiers
  import opened Rules

  const MAX_FRAME_BYTES := 65_536
  const MAX_NATS_PAYLOAD_BYTES := 262_144

  datatype Json =
    | Null
    | Bool(value: bool)
    | Num(text: string)
    | Str(str: string)
    | Arr(items: seq<Json>)
    | Obj(fields: seq<Member>)

  datatype Member = Member(name: string, value: Json)

  datatype OperationReply = OperationReply(
    operationId: Uuid,
    status: string,
    result: Option<seq<AlertRule>>,
    error: Option<string>
  )

  datatype EventEnvelope = EventEnvelope(
    eventId: Uuid,
    correlationId: Uuid,
    dedupeKey: string,
    productTenant: string,
    subject: string,
    reply: OperationReply
  )

  // ----- Rendering -----

  /** String escaping: quotes, backslashes and the controls below U+0020. */
  function Escape(c: char): string {
    if c == '"' || c == '\\' then ['\\', c]
    else if c == '\n' then "\\n"
    else if c == '\r' then "\\r"
    else if c == '\t' then "\\t"
    else if c as int == 0x08 then "\\b"
    else if c as int == 0x0C then "\\f"
    else if c as int < 0x20 then "\\u" + HexFixed(c as int, 4)
    else [c]
  }

  function EscapeAll(s: string): string {
    if s == "" then "" else Escape(s[0]) + EscapeAll(s[1..])
  }

  function Quote(s: string): string {
    "\"" + EscapeAll(s) + "\""
  }

  function Render(j: Json): string
    decreases j, 1
  {
    match j
    case Null => "null"
    case Bool(b) => if b then "true" else "false"
    case Num(text) => text
    case Str(s) => Quote(s)
    case Arr(items) => "[" + RenderItems(items) + "]"
    case Obj(fields) => "{" + RenderFields(fields) + "}"
  }

  function RenderItems(items: seq<Json>): string
    decreases items, 0
  {
    if items == [] then ""
    else if |items| == 1 then Render(items[0])
    else Render(items[0]) + "," + RenderItems(items[1..])
  }

  function RenderFields(fields: seq<Member>): string
    decreases fields, 0
  {
    if fields == [] then ""
    else
      var first := Quote(fields[0].name) + ":" + Render(fields[0].value);
      if |fields| == 1 then first else first + "," + RenderFields(fields[1..])
  }

  function Bytes(j: Json): nat {
    ByteLen(Render(j))
  }

  // ----- Replies and events as JSON -----

  /** The library printers for timestamps and floating-point numbers, and its reader for numbers. */
  datatype Printer = Printer(time: int -> string, number: real -> string, read: string -> Float)

  /** All that is used of the printers: their output is short and free of controls. */
  ghost predicate Bounded(p: Printer) {
    && (forall t :: ByteLen(p.time(t)) <= 64 && !HasControl(p.time(t)))
    && (forall x :: ByteLen(p.number(x)) <= 32)
  }

  function Strings(values: seq<string>): seq<Json> {
    seq(|values|, i requires 0 <= i < |values| => Str(values[i]))
  }

  /** Pairs field names with their values. */
  function Members(names: seq<string>, values: seq<Json>): (r: seq<Member>)
    requires |names| == |values|
    ensures |r| == |names|
  {
    if names == [] then [] else [Member(names[0], values[0])] + Members(names[1..], values[1..])
  }

  function ThresholdJson(p: Printer, x: Float): Json {
    if x.Finite? then Num(p.number(x.value)) else Null
  }

  function RuleNames(): (names: seq<string>)
    ensures |names| == 10
  {
    ["id", "created_at", "updated_at", "name", "query_text", "embedding_model", "similarity_threshold",
     "source_filters", "delivery_channels", "enabled"]
  }

  function RuleValues(p: Printer, rule: AlertRule): (values: seq<Json>)
    ensures |values| == 10
  {
    [Str(PrintUuid(rule.id)), Str(p.time(rule.createdAt)), Str(p.time(rule.updatedAt)), Str(rule.name),
     Str(rule.queryText), Str(rule.embeddingModel), ThresholdJson(p, rule.similarityThreshold),
     Arr(Strings(rule.sourceFilters)), Arr(Strings(rule.deliveryChannels)), Bool(rule.enabled)]
  }

  function RuleJson(p: Printer, rule: AlertRule): Json {
    Obj(Members(RuleNames(), RuleValues(p, rule)))
  }

  function RulesJson(p: Printer, rules: seq<AlertRule>): seq<Json> {
    seq(|rules|, i requires 0 <= i < |rules| => RuleJson(p, rules[i]))
  }

  function ReplyNames(): (names: seq<string>)
    ensures |names| == 4
  {
    ["operation_id", "status", "result", "error"]
  }

  function ReplyValues(p: Printer, reply: OperationReply): (values: seq<Json>)
    ensures |values| == 4
  {
    [Str(PrintUuid(reply.operationId)), Str(reply.status),
     if reply.result.Some? then Arr(RulesJson(p, reply.result.value)) else Null,
     if reply.error.Some? then Str(reply.error.value) else Null]
  }

  function ReplyJson(p: Printer, reply: OperationReply): Json {
    Obj(Members(ReplyNames(), ReplyValues(p, reply)))
  }

  function EventNames(): (names: seq<string>)
    ensures |names| == 6
  {
    ["event_id", "correlation_id", "dedupe_key", "product_tenant", "subject", "reply"]
  }

  function EventValues(p: Printer, event: EventEnvelope): (values: seq<Json>)
    ensures |values| == 6
  {
    [Str(PrintUuid(event.eventId)), Str(PrintUuid(event.correlationId)), Str(event.dedupeKey),
     Str(event.productTenant), Str(event.subject), ReplyJson(p, event.reply)]
  }

  function EventJson(p: Printer, event: EventEnvelope): Json {
    Obj(Members(EventNames(), EventValues(p, event)))
  }

  function ReplyBytes(p: Printer, reply: OperationReply): nat {
    Bytes(ReplyJson(p, reply))
  }

  function EventBytes(p: Printer, event: EventEnvelope): nat {
    Bytes(EventJson(p, event))
  }

  // ----- Sizes of the pieces -----

  /** Without controls, escaping at most doubles the number of bytes. */
  lemma {:induction false} EscapeAtMostDoubles(s: string)
    requires !HasControl(s)
    ensures ByteLen(s) <= ByteLen(EscapeAll(s)) <= 2 * ByteLen(s)
  {
    if s != "" {
      assert !IsControl(s[0]);
      assert forall i | 0 <= i < |s[1..]| :: s[1..][i] == s[i + 1];
      EscapeAtMostDoubles(s[1..]);
      ByteLenConcat(Escape(s[0]), EscapeAll(s[1..]));
      EscapeOne(s[0]);
    }
  }

  lemma EscapeOne(c: char)
    requires !IsControl(c)
    ensures CharBytes(c) <= ByteLen(Escape(c)) <= 2 * CharBytes(c)
  {
    if c == '"' || c == '\\' {
      assert Escape(c) == ['\\', c] && ['\\', c][1..] == [c] && [c][1..] == "";
      assert ByteLen([c]) == 1;
    } else {
      assert Escape(c) == [c] && [c][1..] == "";
    }
  }

  lemma QuoteBytes(s: string)
    ensures ByteLen(Quote(s)) == ByteLen(EscapeAll(s)) + 2
    ensures !HasControl(s) ==> ByteLen(s) + 2 <= ByteLen(Quote(s)) <= 2 * ByteLen(s) + 2
  {
    ByteLenConcat("\"" + EscapeAll(s), "\"");
    ByteLenConcat("\"", EscapeAll(s));
    assert ByteLen("\"") == 1 by { assert "\""[1..] == ""; }
    if !HasControl(s) {
      EscapeAtMostDoubles(s);
    }
  }

  lemma EscapeControl(c: char)
    requires c as int < 0x20
    ensures ByteLen(Escape(c)) <= 6
  {
    if c == '\n' || c == '\r' || c == '\t' || c as int == 0x08 || c as int == 0x0C {
      ByteLenAscii(Escape(c));
    } else {
      var digits := HexFixed(c as int, 4);
      assert forall i | 0 <= i < 4 :: digits[i] in digits;
      ByteLenAscii(digits);
      ByteLenAscii("\\u");
      ByteLenConcat("\\u", digits);
    }
  }

  /** With controls as well, a character takes at most six bytes once escaped. */
  lemma {:induction false} EscapeAtMostSix(s: string)
    ensures ByteLen(EscapeAll(s)) <= 6 * |s|
  {
    if s != "" {
      EscapeAtMostSix(s[1..]);
      ByteLenConcat(Escape(s[0]), EscapeAll(s[1..]));
      if IsControl(s[0]) && s[0] as int < 0x20 {
        EscapeControl(s[0]);
      } else if IsControl(s[0]) {
        assert Escape(s[0]) == [s[0]] && [s[0]][1..] == "";
      } else {
        EscapeOne(s[0]);
      }
    }
  }

  /** The exact size of the first field and what follows it. */
  lemma {:induction false} FieldRendering(field: Member, rest: seq<Member>)
    ensures ByteLen(RenderFields([field] + rest))
            == ByteLen(Quote(field.name)) + 1 + Bytes(field.value)
               + if rest == [] then 0 else 1 + ByteLen(RenderFields(rest))
  {
    var fields := [field] + rest;
    var first := Quote(field.name) + ":" + Render(field.value);
    assert fields[1..] == rest;
    ByteLenConcat(Quote(field.name) + ":", Render(field.value));
    ByteLenConcat(Quote(field.name), ":");
    assert ByteLen(":") == 1 by { assert ":"[1..] == ""; }
    if rest != [] {
      ByteLenConcat(first + ",", RenderFields(rest));
      ByteLenConcat(first, ",");
      assert ByteLen(",") == 1 by { assert ","[1..] == ""; }
    }
  }

  lemma {:induction false} FieldBytes(name: string, value: Json, rest: seq<Member>)
    ensures ByteLen(RenderFields([Member(name, value)] + rest))
            <= 6 * |name| + 4 + Bytes(value) + ByteLen(RenderFields(rest))
    ensures ByteLen(RenderFields([Member(name, value)] + rest)) >= Bytes(value) + ByteLen(RenderFields(rest))
  {
    FieldRendering(Member(name, value), rest);
    QuoteBytes(name);
    EscapeAtMostSix(name);
  }

  lemma WrapBytes(open: char, body: string, close: char)
    requires open as int < 0x80 && close as int < 0x80
    ensures ByteLen([open] + body + [close]) == ByteLen(body) + 2
  {
    ByteLenConcat([open] + body, [close]);
    ByteLenConcat([open], body);
    assert [open][1..] == "" && [close][1..] == "";
  }

  lemma ObjBytes(fields: seq<Member>)
    ensures Bytes(Obj(fields)) == ByteLen(RenderFields(fields)) + 2
  {
    WrapBytes('{', RenderFields(fields), '}');
  }

  lemma {:induction false} ItemBytes(first: Json, rest: seq<Json>)
    requires rest != []
    ensures ByteLen(RenderItems([first] + rest)) == Bytes(first) + 1 + ByteLen(RenderItems(rest))
  {
    assert ([first] + rest)[1..] == rest;
    ByteLenConcat(Render(first) + ",", RenderItems(rest));
    ByteLenConcat(Render(first), ",");
    assert ByteLen(",") == 1 by { assert ","[1..] == ""; }
  }

  /** The bytes of the items without the commas between them. */
  function TotalBytes(items: seq<Json>): nat {
    if items == [] then 0 else Bytes(items[0]) + TotalBytes(items[1..])
  }

  lemma {:induction false} RenderedItemsBytes(items: seq<Json>)
    ensures TotalBytes(items) <= ByteLen(RenderItems(items)) <= TotalBytes(items) + |items|
  {
    if |items| > 1 {
      RenderedItemsBytes(items[1..]);
      ItemBytes(items[0], items[1..]);
      assert [items[0]] + items[1..] == items;
    }
  }

  lemma MulStep(n: nat, k: nat)
    ensures (n + 1) * k == n * k + k
  {
  }

  lemma {:induction false} TotalAtMost(items: seq<Json>, hi: nat)
    requires forall i | 0 <= i < |items| :: Bytes(items[i]) <= hi
    ensures TotalBytes(items) <= |items| * hi
  {
    if items != [] {
      var rest := items[1..];
      assert forall i | 0 <= i < |rest| :: Bytes(rest[i]) <= hi by {
        assert forall i | 0 <= i < |rest| :: rest[i] == items[i + 1];
      }
      TotalAtMost(rest, hi);
      MulStep(|rest|, hi);
    }
  }

  lemma ArrBytes(items: seq<Json>, hi: nat)
    requires forall i | 0 <= i < |items| :: Bytes(items[i]) <= hi
    ensures Bytes(Arr(items)) <= |items| * hi + |items| + 2
  {
    TotalAtMost(items, hi);
    RenderedItemsBytes(items);
    WrapBytes('[', RenderItems(items), ']');
  }

  predicate ShortNames(names: seq<string>) {
    forall i | 0 <= i < |names| :: |names[i]| <= 20
  }

  lemma {:induction false} MembersBytes(names: seq<string>, values: seq<Json>)
    requires |names| == |values| && ShortNames(names)
    ensures TotalBytes(values) <= ByteLen(RenderFields(Members(names, values)))
            <= 124 * |names| + TotalBytes(values)
  {
    if names != [] {
      assert forall i | 0 <= i < |names[1..]| :: names[1..][i] == names[i + 1];
      MembersBytes(names[1..], values[1..]);
      FieldBytes(names[0], values[0], Members(names[1..], values[1..]));
    }
  }

  lemma ObjectBytes(names: seq<string>, values: seq<Json>)
    requires |names| == |values| && ShortNames(names)
    ensures TotalBytes(values) <= Bytes(Obj(Members(names, values))) <= 124 * |names| + TotalBytes(values) + 2
  {
    MembersBytes(names, values);
    ObjBytes(Members(names, values));
  }

  lemma {:induction false} TotalConcat(a: seq<Json>, b: seq<Json>)
    ensures TotalBytes(a + b) == TotalBytes(a) + TotalBytes(b)
  {
    if a == [] {
      assert a + b == b;
    } else {
      TotalConcat(a[1..], b);
      assert (a + b)[1..] == a[1..] + b;
    }
  }

  lemma {:induction false} TotalOfTwo(v: seq<Json>)
    requires |v| == 2
    ensures TotalBytes(v) == Bytes(v[0]) + Bytes(v[1])
  {
    assert v[1..][0] == v[1] && v[1..][1..] == [];
    assert TotalBytes(v[1..]) == Bytes(v[1]);
  }

  lemma {:induction false} TotalOfFour(v: seq<Json>)
    requires |v| == 4
    ensures TotalBytes(v) == Bytes(v[0]) + Bytes(v[1]) + Bytes(v[2]) + Bytes(v[3])
  {
    TotalOfTwo(v[..2]);
    TotalOfTwo(v[2..]);
    TotalConcat(v[..2], v[2..]);
    assert v == v[..2] + v[2..];
  }

  lemma {:induction false} TotalOfTen(v: seq<Json>)
    requires |v| == 10
    ensures TotalBytes(v) == Bytes(v[0]) + Bytes(v[1]) + Bytes(v[2]) + Bytes(v[3]) + Bytes(v[4])
                             + Bytes(v[5]) + Bytes(v[6]) + Bytes(v[7]) + Bytes(v[8]) + Bytes(v[9])
  {
    TotalOfFour(v[..4]);
    TotalOfFour(v[4..8]);
    TotalOfTwo(v[8..]);
    TotalConcat(v[..4], v[4..8]);
    TotalConcat(v[..8], v[8..]);
    assert v[..4] + v[4..8] == v[..8] && v[..8] + v[8..] == v;
  }

  lemma UuidBytes(u: Uuid)
    ensures Bytes(Str(PrintUuid(u))) <= 74
  {
    var s := PrintUuid(u);
    ParsePrintedUuid(u);
    assert forall i | 0 <= i < 36 :: s[i] == '-' || IsHexDigit(s[i]) by {
      HyphenatedAlphabet(s);
    }
    ByteLenAscii(s);
    QuoteBytes(s);
  }

  // ----- Rules -----

  lemma StringBytes(s: string, max: nat)
    requires !HasControl(s) && ByteLen(s) <= max
    ensures ByteLen(s) + 2 <= Bytes(Str(s)) <= 2 * max + 2
  {
    QuoteBytes(s);
  }

  lemma ListBytes(values: seq<string>)
    requires CleanList(values)
    ensures Bytes(Arr(Strings(values))) <= 16_482
  {
    forall i | 0 <= i < |values|
      ensures Bytes(Strings(values)[i]) <= 514
    {
      StringBytes(values[i], MAX_LIST_ITEM_BYTES);
    }
    ArrBytes(Strings(values), 514);
  }

  const RULE_BYTES := 51_543

  lemma {:induction false} RuleFieldsBytes(p: Printer, rule: AlertRule)
    ensures var v := RuleValues(p, rule);
            var total := Bytes(v[0]) + Bytes(v[1]) + Bytes(v[2]) + Bytes(v[3]) + Bytes(v[4])
                         + Bytes(v[5]) + Bytes(v[6]) + Bytes(v[7]) + Bytes(v[8]) + Bytes(v[9]);
            total <= Bytes(RuleJson(p, rule)) <= total + 1_242
  {
    ObjectBytes(RuleNames(), RuleValues(p, rule));
    TotalOfTen(RuleValues(p, rule));
  }

  lemma BoolBytes(b: bool)
    ensures Bytes(Bool(b)) <= 5 && Bytes(Null) == 4
  {
    ByteLenAscii("true");
    ByteLenAscii("false");
    ByteLenAscii("null");
  }

  /** Every clean rule renders within a fixed number of bytes. */
  lemma {:induction false} RuleBytes(p: Printer, rule: AlertRule)
    requires Bounded(p) && CleanRule(rule)
    ensures Bytes(RuleJson(p, rule)) <= RULE_BYTES
  {
    RuleFieldsBytes(p, rule);
    UuidBytes(rule.id);
    StringBytes(p.time(rule.createdAt), 64);
    StringBytes(p.time(rule.updatedAt), 64);
    StringBytes(rule.name, MAX_ALERT_NAME_BYTES);
    StringBytes(rule.queryText, MAX_QUERY_BYTES);
    StringBytes(rule.embeddingModel, MAX_MODEL_BYTES);
    ListBytes(rule.sourceFilters);
    ListBytes(rule.deliveryChannels);
    BoolBytes(rule.enabled);
  }

  // ----- Replies and events -----

  ghost predicate RulesWithin(p: Printer, rules: seq<AlertRule>, max: nat) {
    forall i | 0 <= i < |rules| :: Bytes(RuleJson(p, rules[i])) <= max
  }

  lemma CleanRulesWithin(p: Printer, rules: seq<AlertRule>)
    requires Bounded(p) && forall i | 0 <= i < |rules| :: CleanRule(rules[i])
    ensures RulesWithin(p, rules, RULE_BYTES)
  {
    forall i | 0 <= i < |rules|
      ensures Bytes(RuleJson(p, rules[i])) <= RULE_BYTES
    {
      RuleBytes(p, rules[i]);
    }
  }

  /** A completed reply as the server builds it. */
  function Completed(operationId: Uuid, rules: seq<AlertRule>): OperationReply {
    OperationReply(operationId, "completed", Some(rules), None)
  }

  /** What the reply adds to the rendering of its rules. */
  lemma CompletedReplyBytes(p: Printer, operationId: Uuid, rules: seq<AlertRule>)
    ensures ReplyBytes(p, Completed(operationId, rules)) <= Bytes(Arr(RulesJson(p, rules))) + 596
  {
    var v := ReplyValues(p, Completed(operationId, rules));
    ObjectBytes(ReplyNames(), v);
    TotalOfFour(v);
    UuidBytes(operationId);
    CompletedBytes();
    BoolBytes(true);
  }

  lemma RulesBytes(p: Printer, rules: seq<AlertRule>, max: nat)
    requires RulesWithin(p, rules, max)
    ensures Bytes(Arr(RulesJson(p, rules))) <= |rules| * max + |rules| + 2
  {
    ArrBytes(RulesJson(p, rules), max);
  }

  lemma CompletedBytes()
    ensures Bytes(Str("completed")) <= 20
  {
    ByteLenAscii("completed");
    StringBytes("completed", 9);
  }

  /** A TCP reply with at most one rule always fits a frame. */
  lemma OneRuleReplyFitsFrame(p: Printer, operationId: Uuid, rules: seq<AlertRule>)
    requires Bounded(p) && forall i | 0 <= i < |rules| :: CleanRule(rules[i])
    requires |rules| <= 1
    ensures ReplyBytes(p, Completed(operationId, rules)) <= MAX_FRAME_BYTES
  {
    CleanRulesWithin(p, rules);
    RulesBytes(p, rules, RULE_BYTES);
    CompletedReplyBytes(p, operationId, rules);
  }

  predicate ShortEnvelope(event: EventEnvelope) {
    && !HasControl(event.dedupeKey) && ByteLen(event.dedupeKey) <= 134
    && !HasControl(event.productTenant) && ByteLen(event.productTenant) <= 64
    && !HasControl(event.subject) && ByteLen(event.subject) <= 256
  }

  lemma {:induction false} TotalOfSix(v: seq<Json>)
    requires |v| == 6
    ensures TotalBytes(v) == Bytes(v[0]) + Bytes(v[1]) + Bytes(v[2]) + Bytes(v[3]) + Bytes(v[4]) + Bytes(v[5])
  {
    TotalOfFour(v[..4]);
    TotalOfTwo(v[4..]);
    TotalConcat(v[..4], v[4..]);
    assert v == v[..4] + v[4..];
  }

  lemma CompletedEventBytes(p: Printer, event: EventEnvelope, rules: seq<AlertRule>)
    requires ShortEnvelope(event) && event.reply == Completed(event.correlationId, rules)
    ensures EventBytes(p, event) <= Bytes(Arr(RulesJson(p, rules))) + 2_404
  {
    var v := EventValues(p, event);
    ObjectBytes(EventNames(), v);
    TotalOfSix(v);
    UuidBytes(event.eventId);
    UuidBytes(event.correlationId);
    StringBytes(event.dedupeKey, 134);
    StringBytes(event.productTenant, 64);
    StringBytes(event.subject, 256);
    CompletedReplyBytes(p, event.correlationId, rules);
  }

  /** A JetStream event with at most five rules that pass validation always fits the payload limit. */
  lemma FiveRuleEventFitsPayload(p: Printer, event: EventEnvelope, rules: seq<AlertRule>)
    requires Bounded(p) && ShortEnvelope(event) && forall i | 0 <= i < |rules| :: CleanRule(rules[i])
    requires event.reply == Completed(event.correlationId, rules) && |rules| <= 5
    ensures EventBytes(p, event) <= MAX_NATS_PAYLOAD_BYTES
  {
    CleanRulesWithin(p, rules);
    RulesBytes(p, rules, RULE_BYTES);
    CompletedEventBytes(p, event, rules);
  }
}
