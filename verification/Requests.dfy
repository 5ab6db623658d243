/** The body of a create request: its size limit, and what it means for the size of replies. */
module Requests {
  import opened Common
  import opened Text
  import opened Identifiers
  import opened Rules
  import opened AlertStore
  import opened Wire
  import opened JsonText

  const MAX_JSON_BODY_BYTES := 32_768

  // ----- From a body to an input -----

  function RequestNames(): (names: seq<string>)
    ensures |names| == 7
  {
    ["name", "query_text", "embedding_model", "similarity_threshold", "source_filters", "delivery_channels", "enabled"]
  }

  function Field(fields: seq<Member>, name: string): Option<Json> {
    if fields == [] then None
    else if fields[0].name == name then Some(fields[0].value)
    else Field(fields[1..], name)
  }

  ghost predicate ReadsList(value: Option<Json>, list: seq<string>) {
    value == Some(Arr(Strings(list))) || (value.None? && list == [])
  }

  ghost predicate ReadsNumber(p: Printer, value: Json, x: Float) {
    value.Num? && p.read(value.text) == x
  }

  /** The object form: the seven fields in any order, none twice and no others; the lists may be missing. */
  ghost predicate DecodesObject(p: Printer, fields: seq<Member>, input: CreateAlertRule) {
    && (forall i, j | 0 <= i < j < |fields| :: fields[i].name != fields[j].name)
    && (forall i | 0 <= i < |fields| :: fields[i].name in RequestNames())
    && Field(fields, "name") == Some(Str(input.name))
    && Field(fields, "query_text") == Some(Str(input.queryText))
    && Field(fields, "embedding_model") == Some(Str(input.embeddingModel))
    && Field(fields, "similarity_threshold").Some?
    && ReadsNumber(p, Field(fields, "similarity_threshold").value, input.similarityThreshold)
    && ReadsList(Field(fields, "source_filters"), input.sourceFilters)
    && ReadsList(Field(fields, "delivery_channels"), input.deliveryChannels)
    && Field(fields, "enabled") == Some(Bool(input.enabled))
  }

  /** The array form, which the server's decoder takes as well: the seven values in declaration order. */
  ghost predicate DecodesArray(p: Printer, values: seq<Json>, input: CreateAlertRule) {
    && |values| == 7
    && values[0] == Str(input.name) && values[1] == Str(input.queryText) && values[2] == Str(input.embeddingModel)
    && ReadsNumber(p, values[3], input.similarityThreshold)
    && values[4] == Arr(Strings(input.sourceFilters)) && values[5] == Arr(Strings(input.deliveryChannels))
    && values[6] == Bool(input.enabled)
  }

  ghost predicate Decodes(p: Printer, j: Json, input: CreateAlertRule) {
    || (j.Obj? && DecodesObject(p, j.fields, input))
    || (j.Arr? && DecodesArray(p, j.items, input))
  }

  /** The body is a text, in whatever spelling, for a value that decodes to `input`. */
  ghost predicate Denotes(p: Printer, body: string, input: CreateAlertRule) {
    exists j :: Spells(body, j) && Decodes(p, j, input)
  }

  ghost predicate AcceptedBody(p: Printer, body: string, input: CreateAlertRule) {
    ByteLen(body) <= MAX_JSON_BODY_BYTES && Denotes(p, body, input) && Validate(input).Pass?
  }

  /** A rule that some create request stores. */
  ghost predicate Storable(p: Printer, rule: AlertRule) {
    exists body, input :: AcceptedBody(p, body, input) && rule == IntoRule(input, rule.id, rule.updatedAt)
  }

  // ----- The members of what the server renders -----

  lemma {:induction false} FieldOfMembers(names: seq<string>, values: seq<Json>, i: nat)
    requires |names| == |values| && i < |names| && DistinctNames(names)
    ensures Field(Members(names, values), names[i]) == Some(values[i])
    ensures Members(names, values)[i] == Member(names[i], values[i])
  {
    var fields := Members(names, values);
    assert fields[1..] == Members(names[1..], values[1..]);
    if i > 0 {
      assert names[0] != names[i];
      FieldOfMembers(names[1..], values[1..], i - 1);
    }
  }

  /** Names of one length that differ in the first letter. */
  lemma RuleNamesAreDistinct()
    ensures DistinctNames(RuleNames())
  {
    var n := RuleNames();
    assert |n[0]| == 2 && |n[1]| == 10 && |n[2]| == 10 && |n[3]| == 4 && |n[4]| == 10 && |n[5]| == 15;
    assert |n[6]| == 20 && |n[7]| == 14 && |n[8]| == 17 && |n[9]| == 7;
    assert n[1][0] == 'c' && n[2][0] == 'u' && n[4][0] == 'q';
  }

  lemma FieldsOfMembers(names: seq<string>, values: seq<Json>)
    requires |names| == |values| && DistinctNames(names)
    ensures forall i | 0 <= i < |names| :: Field(Members(names, values), names[i]) == Some(values[i])
  {
    forall i | 0 <= i < |names|
      ensures Field(Members(names, values), names[i]) == Some(values[i])
    {
      FieldOfMembers(names, values, i);
    }
  }

  /** Each field of a rendered rule under its name. */
  lemma RuleMembers(p: Printer, rule: AlertRule)
    ensures RuleJson(p, rule).Obj? && |RuleJson(p, rule).fields| == 10
    ensures var f := RuleJson(p, rule).fields;
            && Field(f, "id") == Some(Str(PrintUuid(rule.id)))
            && Field(f, "created_at") == Some(Str(p.time(rule.createdAt)))
            && Field(f, "updated_at") == Some(Str(p.time(rule.updatedAt)))
            && Field(f, "name") == Some(Str(rule.name))
            && Field(f, "query_text") == Some(Str(rule.queryText))
            && Field(f, "embedding_model") == Some(Str(rule.embeddingModel))
            && Field(f, "similarity_threshold")
               == Some(if rule.similarityThreshold.Finite? then Num(p.number(rule.similarityThreshold.value)) else Null)
            && Field(f, "source_filters") == Some(Arr(Strings(rule.sourceFilters)))
            && Field(f, "delivery_channels") == Some(Arr(Strings(rule.deliveryChannels)))
            && Field(f, "enabled") == Some(Bool(rule.enabled))
  {
    var n := RuleNames();
    RuleNamesAreDistinct();
    FieldsOfMembers(n, RuleValues(p, rule));
    assert n[0] == "id" && n[1] == "created_at" && n[2] == "updated_at" && n[3] == "name" && n[4] == "query_text";
    assert n[5] == "embedding_model" && n[6] == "similarity_threshold" && n[7] == "source_filters";
    assert n[8] == "delivery_channels" && n[9] == "enabled";
  }

  /** Each field of a rendered reply: a result lists the rules in their order. */
  lemma ReplyMembers(p: Printer, reply: OperationReply)
    ensures ReplyJson(p, reply).Obj? && |ReplyJson(p, reply).fields| == 4
    ensures var f := ReplyJson(p, reply).fields;
            && Field(f, "operation_id") == Some(Str(PrintUuid(reply.operationId)))
            && Field(f, "status") == Some(Str(reply.status))
            && Field(f, "error") == Some(if reply.error.Some? then Str(reply.error.value) else Null)
            && (reply.result.None? ==> Field(f, "result") == Some(Null))
            && (reply.result.Some? ==>
                  && Field(f, "result").Some? && Field(f, "result").value.Arr?
                  && var items := Field(f, "result").value.items;
                  && |items| == |reply.result.value|
                  && forall i | 0 <= i < |items| :: items[i] == RuleJson(p, reply.result.value[i]))
  {
    var n := ReplyNames();
    assert |n[0]| == 12 && |n[1]| == 6 && |n[2]| == 6 && |n[3]| == 5 && n[1][0] == 's' && n[2][0] == 'r';
    FieldsOfMembers(n, ReplyValues(p, reply));
    assert n[0] == "operation_id" && n[1] == "status" && n[2] == "result" && n[3] == "error";
  }

  /** Each field of a rendered event. */
  lemma EventMembers(p: Printer, event: EventEnvelope)
    ensures EventJson(p, event).Obj? && |EventJson(p, event).fields| == 6
    ensures var f := EventJson(p, event).fields;
            && Field(f, "event_id") == Some(Str(PrintUuid(event.eventId)))
            && Field(f, "correlation_id") == Some(Str(PrintUuid(event.correlationId)))
            && Field(f, "dedupe_key") == Some(Str(event.dedupeKey))
            && Field(f, "product_tenant") == Some(Str(event.productTenant))
            && Field(f, "subject") == Some(Str(event.subject))
            && Field(f, "reply") == Some(ReplyJson(p, event.reply))
  {
    var n := EventNames();
    assert |n[0]| == 8 && |n[1]| == 14 && |n[2]| == 10 && |n[3]| == 14 && |n[4]| == 7 && |n[5]| == 5;
    assert n[1][0] == 'c' && n[3][0] == 'p';
    FieldsOfMembers(n, EventValues(p, event));
    assert n[0] == "event_id" && n[1] == "correlation_id" && n[2] == "dedupe_key" && n[3] == "product_tenant";
    assert n[4] == "subject" && n[5] == "reply";
  }

  // ----- A body holds the texts and lists of its input -----

  function OptionBytes(value: Option<Json>): nat {
    if value.Some? then Bytes(value.value) else 0
  }

  /** The bytes of the values found under these names. */
  function FoundBytes(fields: seq<Member>, names: seq<string>): nat {
    if names == [] then 0 else OptionBytes(Field(fields, names[0])) + FoundBytes(fields, names[1..])
  }

  ghost predicate DistinctNames(names: seq<string>) {
    forall i, j | 0 <= i < j < |names| :: names[i] != names[j]
  }

  lemma {:induction false} FoundInRest(first: Member, rest: seq<Member>, names: seq<string>)
    requires first.name !in names
    ensures FoundBytes([first] + rest, names) == FoundBytes(rest, names)
  {
    if names != [] {
      assert ([first] + rest)[1..] == rest;
      FoundInRest(first, rest, names[1..]);
    }
  }

  lemma {:induction false} FoundInFirst(first: Member, rest: seq<Member>, names: seq<string>)
    requires DistinctNames(names)
    ensures FoundBytes([first] + rest, names) <= Bytes(first.value) + FoundBytes(rest, names)
  {
    if names != [] {
      assert ([first] + rest)[1..] == rest;
      if names[0] == first.name {
        FoundInRest(first, rest, names[1..]);
      } else {
        FoundInFirst(first, rest, names[1..]);
      }
    }
  }

  lemma {:induction false} FoundInNothing(names: seq<string>)
    ensures FoundBytes([], names) == 0
  {
    if names != [] {
      FoundInNothing(names[1..]);
    }
  }

  /** An object is at least as long as the values found under distinct names, wherever they stand. */
  lemma {:induction false} ObjectHoldsFields(fields: seq<Member>, names: seq<string>)
    requires DistinctNames(names)
    ensures FoundBytes(fields, names) <= ByteLen(RenderFields(fields))
  {
    if fields == [] {
      FoundInNothing(names);
    } else {
      ObjectHoldsFields(fields[1..], names);
      FoundInFirst(fields[0], fields[1..], names);
      FieldRendering(fields[0], fields[1..]);
      assert [fields[0]] + fields[1..] == fields;
    }
  }

  /** The bytes of an input's texts and lists as the server would render them. */
  function InputBytes(input: CreateAlertRule): nat {
    Bytes(Str(input.name)) + Bytes(Str(input.queryText)) + Bytes(Str(input.embeddingModel))
    + Bytes(Arr(Strings(input.sourceFilters))) + Bytes(Arr(Strings(input.deliveryChannels)))
  }

  function TextNames(): seq<string> {
    ["name", "query_text", "embedding_model", "source_filters", "delivery_channels"]
  }

  lemma TextNamesAreDistinct()
    ensures DistinctNames(TextNames())
  {
    var n := TextNames();
    assert |n[0]| == 4 && |n[1]| == 10 && |n[2]| == 15 && |n[3]| == 14 && |n[4]| == 17;
  }

  lemma FoundTexts(fields: seq<Member>)
    ensures FoundBytes(fields, TextNames())
         == OptionBytes(Field(fields, "name")) + OptionBytes(Field(fields, "query_text"))
            + OptionBytes(Field(fields, "embedding_model")) + OptionBytes(Field(fields, "source_filters"))
            + OptionBytes(Field(fields, "delivery_channels"))
  {
    var n := TextNames();
    assert n[4..][1..] == [] && n[3..][1..] == n[4..] && n[2..][1..] == n[3..] && n[1..][1..] == n[2..];
    assert FoundBytes(fields, n[4..]) == OptionBytes(Field(fields, "delivery_channels"));
    assert FoundBytes(fields, n[3..]) == OptionBytes(Field(fields, "source_filters")) + FoundBytes(fields, n[4..]);
    assert FoundBytes(fields, n[2..]) == OptionBytes(Field(fields, "embedding_model")) + FoundBytes(fields, n[3..]);
    assert FoundBytes(fields, n[1..]) == OptionBytes(Field(fields, "query_text")) + FoundBytes(fields, n[2..]);
  }

  lemma EmptyListBytes()
    ensures Bytes(Arr(Strings([]))) == 2
  {
    WrapBytes('[', "", ']');
    assert RenderItems(Strings([])) == "";
  }

  lemma ObjectBodyBytes(p: Printer, fields: seq<Member>, input: CreateAlertRule)
    requires DecodesObject(p, fields, input)
    ensures InputBytes(input) <= Bytes(Obj(fields)) + 2
  {
    TextNamesAreDistinct();
    ObjectHoldsFields(fields, TextNames());
    FoundTexts(fields);
    EmptyListBytes();
    ObjBytes(fields);
  }

  lemma {:induction false} TotalOfSeven(v: seq<Json>)
    requires |v| == 7
    ensures TotalBytes(v)
         == Bytes(v[0]) + Bytes(v[1]) + Bytes(v[2]) + Bytes(v[3]) + Bytes(v[4]) + Bytes(v[5]) + Bytes(v[6])
  {
    TotalOfSix(v[1..]);
  }

  lemma ArrayBodyBytes(p: Printer, values: seq<Json>, input: CreateAlertRule)
    requires DecodesArray(p, values, input)
    ensures InputBytes(input) <= Bytes(Arr(values))
  {
    TotalOfSeven(values);
    RenderedItemsBytes(values);
    WrapBytes('[', RenderItems(values), ']');
  }

  lemma BodyBytes(p: Printer, body: string, input: CreateAlertRule)
    requires Denotes(p, body, input)
    ensures InputBytes(input) <= ByteLen(body) + 2
  {
    var j :| Spells(body, j) && Decodes(p, j, input);
    RenderIsShortest(body, j);
    if j.Obj? {
      ObjectBodyBytes(p, j.fields, input);
    } else {
      ArrayBodyBytes(p, j.items, input);
    }
  }

  // ----- A stored rule is hardly longer than its body -----

  /** The sum of a weight over the characters of a text. */
  function Weigh(s: string, weight: char -> nat): nat {
    if s == "" then 0 else weight(s[0]) + Weigh(s[1..], weight)
  }

  lemma {:induction false} WeighConcat(a: string, b: string, weight: char -> nat)
    ensures Weigh(a + b, weight) == Weigh(a, weight) + Weigh(b, weight)
  {
    if a == "" {
      assert a + b == b;
    } else {
      WeighConcat(a[1..], b, weight);
      assert (a + b)[1..] == a[1..] + b;
    }
  }

  lemma WeighSlice(s: string, lo: nat, hi: nat, weight: char -> nat)
    requires lo <= hi <= |s|
    ensures Weigh(s[lo..hi], weight) <= Weigh(s, weight)
  {
    WeighPart(s[..hi], s[..lo], s[lo..hi], weight);
    WeighPart(s, s[..hi], s[hi..], weight);
  }

  lemma WeighPart(whole: string, front: string, back: string, weight: char -> nat)
    requires whole == front + back
    ensures Weigh(front, weight) <= Weigh(whole, weight) && Weigh(back, weight) <= Weigh(whole, weight)
  {
    WeighConcat(front, back, weight);
  }

  function EscapedWeight(): char -> nat {
    c => ByteLen(Escape(c))
  }

  lemma {:induction false} EscapedBytes(s: string)
    ensures ByteLen(EscapeAll(s)) == Weigh(s, EscapedWeight())
  {
    if s != "" {
      EscapedBytes(s[1..]);
      ByteLenConcat(Escape(s[0]), EscapeAll(s[1..]));
    }
  }

  lemma TrimmedIsNoLonger(s: string)
    ensures Bytes(Str(Trim(s))) <= Bytes(Str(s))
  {
    var lo, hi := TrimIsSlice(s);
    WeighSlice(s, lo, hi, EscapedWeight());
    EscapedBytes(Trim(s));
    EscapedBytes(s);
    QuoteBytes(Trim(s));
    QuoteBytes(s);
  }

  lemma {:induction false} TotalIsNoMore(xs: seq<Json>, ys: seq<Json>)
    requires |xs| == |ys| && forall i | 0 <= i < |xs| :: Bytes(xs[i]) <= Bytes(ys[i])
    ensures TotalBytes(xs) <= TotalBytes(ys)
  {
    if xs != [] {
      assert forall i | 0 <= i < |xs| - 1 :: xs[1..][i] == xs[i + 1] && ys[1..][i] == ys[i + 1];
      TotalIsNoMore(xs[1..], ys[1..]);
    }
  }

  lemma NormalizedListBytes(values: seq<string>)
    requires |values| <= MAX_LIST_ITEMS
    ensures Bytes(Arr(Strings(NormalizeList(values)))) <= Bytes(Arr(Strings(values))) + MAX_LIST_ITEMS
  {
    var xs, ys := Strings(NormalizeList(values)), Strings(values);
    forall i | 0 <= i < |values|
      ensures Bytes(xs[i]) <= Bytes(ys[i])
    {
      TrimmedIsNoLonger(values[i]);
    }
    TotalIsNoMore(xs, ys);
    RenderedItemsBytes(xs);
    RenderedItemsBytes(ys);
    WrapBytes('[', RenderItems(xs), ']');
    WrapBytes('[', RenderItems(ys), ']');
  }

  const RULE_OVERHEAD := 1_700
  const STORED_RULE_BYTES := 34_468

  /** Whatever its body's spelling, a stored rule renders within its body plus a constant. */
  lemma {:induction false} StoredRuleBytes(p: Printer, body: string, input: CreateAlertRule, id: Uuid, now: int)
    requires Bounded(p) && Denotes(p, body, input) && Validate(input).Pass?
    ensures Bytes(RuleJson(p, IntoRule(input, id, now))) <= ByteLen(body) + RULE_OVERHEAD
  {
    RuleAroundInput(p, IntoRule(input, id, now));
    NormalizedBytes(input, id, now);
    BodyBytes(p, body, input);
  }

  /** What a rule's rendering adds to the texts and lists in it. */
  lemma {:induction false} RuleAroundInput(p: Printer, rule: AlertRule)
    requires Bounded(p)
    ensures Bytes(RuleJson(p, rule)) <= InputBytes(AsInput(rule)) + 1_614
  {
    RuleFieldsBytes(p, rule);
    UuidBytes(rule.id);
    StringBytes(p.time(rule.createdAt), 64);
    StringBytes(p.time(rule.updatedAt), 64);
    BoolBytes(rule.enabled);
  }

  lemma NormalizedBytes(input: CreateAlertRule, id: Uuid, now: int)
    requires |input.sourceFilters| <= MAX_LIST_ITEMS && |input.deliveryChannels| <= MAX_LIST_ITEMS
    ensures InputBytes(AsInput(IntoRule(input, id, now))) <= InputBytes(input) + 2 * MAX_LIST_ITEMS
  {
    TrimmedIsNoLonger(input.name);
    TrimmedIsNoLonger(input.queryText);
    TrimmedIsNoLonger(input.embeddingModel);
    NormalizedListBytes(input.sourceFilters);
    NormalizedListBytes(input.deliveryChannels);
  }

  lemma StorableBytes(p: Printer, rule: AlertRule)
    requires Bounded(p) && Storable(p, rule)
    ensures Bytes(RuleJson(p, rule)) <= STORED_RULE_BYTES
  {
    var body, input :| AcceptedBody(p, body, input) && rule == IntoRule(input, rule.id, rule.updatedAt);
    StoredRuleBytes(p, body, input, rule.id, rule.updatedAt);
  }

  // ----- What fits -----

  /** A page of rules that create requests have stored. */
  ghost predicate ServablePage(p: Printer, rules: seq<AlertRule>) {
    NewestFirst(rules) && forall i | 0 <= i < |rules| :: Storable(p, rules[i])
  }

  lemma StoredRulesWithin(p: Printer, rules: seq<AlertRule>)
    requires Bounded(p) && forall i | 0 <= i < |rules| :: Storable(p, rules[i])
    ensures RulesWithin(p, rules, STORED_RULE_BYTES)
  {
    forall i | 0 <= i < |rules|
      ensures Bytes(RuleJson(p, rules[i])) <= STORED_RULE_BYTES
    {
      StorableBytes(p, rules[i]);
    }
  }

  /** An event with at most seven stored rules always fits the payload limit. */
  lemma SevenStoredRulesFit(p: Printer, event: EventEnvelope, rules: seq<AlertRule>)
    requires Bounded(p) && ShortEnvelope(event) && forall i | 0 <= i < |rules| :: Storable(p, rules[i])
    requires event.reply == Completed(event.correlationId, rules) && |rules| <= 7
    ensures EventBytes(p, event) <= MAX_NATS_PAYLOAD_BYTES
  {
    StoredRulesWithin(p, rules);
    RulesBytes(p, rules, STORED_RULE_BYTES);
    CompletedEventBytes(p, event, rules);
  }

  lemma OneStoredRuleFits(p: Printer, operationId: Uuid, rules: seq<AlertRule>)
    requires Bounded(p) && |rules| <= 1 && forall i | 0 <= i < |rules| :: Storable(p, rules[i])
    ensures ReplyBytes(p, Completed(operationId, rules)) <= MAX_FRAME_BYTES
  {
    StoredRulesWithin(p, rules);
    RulesBytes(p, rules, STORED_RULE_BYTES);
    CompletedReplyBytes(p, operationId, rules);
  }
}
