/** The heaviest rule a create request can store, and so exactly how many rules a reply can always hold. */
module Overflow {
  import opened Common
  import opened Text
  import opened Identifiers
  import opened Rules
  import opened AlertStore
  import opened Wire
  import opened JsonText
  import opened Requests

  // ----- Texts of quotes, each of which takes two bytes -----

  function Quotes(n: nat): (s: string)
    ensures |s| == n
  {
    seq(n, _ => '"')
  }

  lemma {:induction false} QuotesBytes(n: nat)
    ensures ByteLen(Quotes(n)) == n && ByteLen(EscapeAll(Quotes(n))) == 2 * n
  {
    if n > 0 {
      QuotesBytes(n - 1);
      assert Quotes(n)[1..] == Quotes(n - 1);
      ByteLenConcat(Escape('"'), EscapeAll(Quotes(n - 1)));
      assert ByteLen(Escape('"')) == 2 by { ByteLenAscii(Escape('"')); }
    }
  }

  lemma QuotesAreClean(n: nat, max: nat)
    requires 0 < n <= max
    ensures CleanText(Quotes(n), max)
    ensures Bytes(Str(Quotes(n))) == 2 * n + 2
  {
    QuotesBytes(n);
    QuoteBytes(Quotes(n));
  }

  function QuoteList(count: nat, n: nat, last: nat): (values: seq<string>)
    ensures |values| == count + 1
  {
    seq(count, i => Quotes(n)) + [Quotes(last)]
  }

  lemma QuoteListIsClean(count: nat, n: nat, last: nat)
    requires count < MAX_LIST_ITEMS && 0 < n <= MAX_LIST_ITEM_BYTES && 0 < last <= MAX_LIST_ITEM_BYTES
    ensures CleanList(QuoteList(count, n, last))
  {
    QuotesAreClean(n, MAX_LIST_ITEM_BYTES);
    QuotesAreClean(last, MAX_LIST_ITEM_BYTES);
  }

  lemma {:induction false} TotalOfEqual(items: seq<Json>, size: nat)
    requires forall i | 0 <= i < |items| :: Bytes(items[i]) == size
    ensures TotalBytes(items) == |items| * size
  {
    if items != [] {
      var rest := items[1..];
      assert forall i | 0 <= i < |rest| :: Bytes(rest[i]) == size by {
        assert forall i | 0 <= i < |rest| :: rest[i] == items[i + 1];
      }
      TotalOfEqual(rest, size);
      MulStep(|rest|, size);
    }
  }

  lemma QuoteFrontBytes(count: nat, n: nat, size: nat)
    requires 0 < n && size == 2 * n + 2
    ensures TotalBytes(Strings(seq(count, i => Quotes(n)))) == count * size
  {
    var items := Strings(seq(count, i => Quotes(n)));
    forall i | 0 <= i < |items|
      ensures Bytes(items[i]) == size
    {
      assert items[i] == Str(Quotes(n));
      QuotesAreClean(n, n);
    }
    TotalOfEqual(items, size);
  }

  lemma QuoteListTotal(count: nat, n: nat, last: nat)
    ensures TotalBytes(Strings(QuoteList(count, n, last)))
         == TotalBytes(Strings(seq(count, i => Quotes(n)))) + Bytes(Str(Quotes(last)))
  {
    var front, back := Strings(seq(count, i => Quotes(n))), [Str(Quotes(last))];
    assert Strings(QuoteList(count, n, last)) == front + back;
    TotalConcat(front, back);
    assert back[1..] == [];
  }

  lemma ListAroundItems(values: seq<string>)
    ensures TotalBytes(Strings(values)) + 2 <= Bytes(Arr(Strings(values))) <= TotalBytes(Strings(values)) + |values| + 2
  {
    RenderedItemsBytes(Strings(values));
    WrapBytes('[', RenderItems(Strings(values)), ']');
  }

  // ----- Exact sizes of objects -----

  predicate IsNameChar(c: char) {
    'a' <= c <= 'z' || c == '_'
  }

  predicate PlainName(s: string) {
    forall i | 0 <= i < |s| :: IsNameChar(s[i])
  }

  lemma {:induction false} PlainBytes(s: string)
    requires PlainName(s)
    ensures ByteLen(EscapeAll(s)) == |s|
  {
    if s != "" {
      PlainBytes(s[1..]);
      ByteLenConcat(Escape(s[0]), EscapeAll(s[1..]));
      assert Escape(s[0]) == [s[0]] && [s[0]][1..] == "";
    }
  }

  predicate PlainNames(names: seq<string>) {
    forall i | 0 <= i < |names| :: PlainName(names[i])
  }

  function Lengths(names: seq<string>): nat {
    if names == [] then 0 else |names[0]| + Lengths(names[1..])
  }

  lemma {:induction false} NamesBytes(names: seq<string>)
    requires PlainNames(names)
    ensures TotalBytes(Strings(names)) == Lengths(names) + 2 * |names|
  {
    if names != [] {
      NamesBytes(names[1..]);
      assert Strings(names)[1..] == Strings(names[1..]);
      PlainBytes(names[0]);
      QuoteBytes(names[0]);
    }
  }

  lemma {:induction false} LengthsOfSeven(n: seq<string>)
    requires |n| == 7
    ensures Lengths(n) == |n[0]| + |n[1]| + |n[2]| + |n[3]| + |n[4]| + |n[5]| + |n[6]|
  {
    assert n[6..][1..] == [] && n[5..][1..] == n[6..] && n[4..][1..] == n[5..];
    assert n[3..][1..] == n[4..] && n[2..][1..] == n[3..] && n[1..][1..] == n[2..];
    assert Lengths(n[6..]) == |n[6]|;
    assert Lengths(n[4..]) == |n[4]| + (|n[5]| + Lengths(n[6..]));
    assert Lengths(n[2..]) == |n[2]| + (|n[3]| + Lengths(n[4..]));
  }

  lemma {:induction false} MembersExactly(names: seq<string>, values: seq<Json>)
    requires |names| == |values| && names != []
    ensures ByteLen(RenderFields(Members(names, values)))
         == TotalBytes(Strings(names)) + TotalBytes(values) + 2 * |names| - 1
  {
    FieldRendering(Member(names[0], values[0]), Members(names[1..], values[1..]));
    assert Strings(names)[1..] == Strings(names[1..]);
    if |names| > 1 {
      MembersExactly(names[1..], values[1..]);
    } else {
      assert TotalBytes(Strings(names)[1..]) == 0 && TotalBytes(values[1..]) == 0;
    }
  }

  lemma RuleNamesArePlain()
    ensures PlainNames(RuleNames())
  {
    assert PlainName("id") && PlainName("created_at") && PlainName("updated_at");
    assert PlainName("name") && PlainName("query_text") && PlainName("embedding_model");
    assert PlainName("similarity_threshold") && PlainName("source_filters") && PlainName("delivery_channels");
    assert PlainName("enabled");
  }

  lemma {:induction false} LengthsOfThree(n: seq<string>)
    requires |n| >= 3
    ensures Lengths(n) == |n[0]| + |n[1]| + |n[2]| + Lengths(n[3..])
  {
    assert n[1..][1..] == n[2..] && n[2..][1..] == n[3..];
    assert Lengths(n[1..]) == |n[1]| + Lengths(n[2..]);
  }

  /** The names of a stored rule are those of the request behind three more. */
  lemma RuleNamesEnd()
    ensures RuleNames()[3..] == RequestNames()
    ensures Lengths(RuleNames()) == 22 + Lengths(RequestNames())
  {
    LengthsOfThree(RuleNames());
    assert |"id"| == 2 && |"created_at"| == 10 && |"updated_at"| == 10;
  }

  lemma RequestNamesBytes()
    ensures TotalBytes(Strings(RequestNames())) == 101
  {
    var n := RequestNames();
    RuleNamesArePlain();
    RuleNamesEnd();
    assert PlainNames(n) by {
      assert forall i | 0 <= i < 7 :: n[i] == RuleNames()[i + 3];
    }
    NamesBytes(n);
    LengthsOfSeven(n);
    RequestNamesAreDistinct();
  }

  lemma RuleNamesBytes()
    ensures TotalBytes(Strings(RuleNames())) == 129
  {
    RuleNamesArePlain();
    RuleNamesEnd();
    NamesBytes(RuleNames());
    LengthsOfSeven(RequestNames());
    RequestNamesAreDistinct();
  }

  // ----- The heaviest rule and its request -----

  function HeavyList(): seq<string> {
    QuoteList(31, 256, 140)
  }

  function HeavyRule(id: Uuid, now: int): AlertRule {
    AlertRule(id, now, now, Quotes(1), Quotes(8192), Quotes(1), Finite(1.0), HeavyList(), [], true)
  }

  function HeavyValues(): (values: seq<Json>)
    ensures |values| == 7
  {
    [Str(Quotes(1)), Str(Quotes(8192)), Str(Quotes(1)), Num("1"), Arr(Strings(HeavyList())), Arr(Strings([])), Bool(true)]
  }

  function HeavyJson(): Json {
    Obj(Members(RequestNames(), HeavyValues()))
  }

  lemma HeavyListBytes()
    ensures 16_218 <= Bytes(Arr(Strings(HeavyList()))) <= 16_250
  {
    QuoteFrontBytes(31, 256, 514);
    QuoteListTotal(31, 256, 140);
    QuotesAreClean(140, 140);
    ListAroundItems(HeavyList());
  }

  lemma HeavyTextBytes()
    ensures Bytes(Str(Quotes(1))) == 4 && Bytes(Str(Quotes(8192))) == 16_386
    ensures Bytes(Num("1")) == 1 && Bytes(Bool(true)) == 4
  {
    QuotesAreClean(1, 1);
    QuotesAreClean(8192, 8192);
    ByteLenAscii("1");
    ByteLenAscii("true");
  }

  lemma HeavyBodyBytes()
    ensures Bytes(HeavyJson()) <= MAX_JSON_BODY_BYTES
  {
    MembersExactly(RequestNames(), HeavyValues());
    ObjBytes(Members(RequestNames(), HeavyValues()));
    RequestNamesBytes();
    TotalOfSeven(HeavyValues());
    HeavyTextBytes();
    HeavyListBytes();
    EmptyListBytes();
  }

  lemma HeavyRuleIsClean(id: Uuid, now: int)
    ensures CleanRule(HeavyRule(id, now))
  {
    QuotesAreClean(1, MAX_ALERT_NAME_BYTES);
    QuotesAreClean(8192, MAX_QUERY_BYTES);
    QuotesAreClean(1, MAX_MODEL_BYTES);
    QuoteListIsClean(31, 256, 140);
  }

  lemma RequestNamesAreDistinct()
    ensures DistinctNames(RequestNames())
    ensures var n := RequestNames();
            && |n[0]| == 4 && |n[1]| == 10 && |n[2]| == 15 && |n[3]| == 20 && |n[4]| == 14 && |n[5]| == 17
            && |n[6]| == 7
  {
    var n := RequestNames();
    assert |n[0]| == 4 && |n[1]| == 10 && |n[2]| == 15 && |n[3]| == 20 && |n[4]| == 14 && |n[5]| == 17 && |n[6]| == 7;
  }

  lemma HeavyJsonDecodes(p: Printer, id: Uuid, now: int)
    requires p.read("1") == Finite(1.0)
    ensures Decodes(p, HeavyJson(), AsInput(HeavyRule(id, now)))
  {
    var names, values := RequestNames(), HeavyValues();
    RequestNamesAreDistinct();
    forall i | 0 <= i < 7
      ensures Field(Members(names, values), names[i]) == Some(values[i])
      ensures Members(names, values)[i].name == names[i]
    {
      FieldOfMembers(names, values, i);
    }
    assert names[0] == "name" && names[1] == "query_text" && names[2] == "embedding_model";
    assert names[3] == "similarity_threshold" && names[4] == "source_filters" && names[5] == "delivery_channels";
    assert names[6] == "enabled";
  }

  /** A create request within the body limit stores this rule. */
  lemma HeavyRuleIsStorable(p: Printer, id: Uuid, now: int)
    requires p.read("1") == Finite(1.0)
    ensures Storable(p, HeavyRule(id, now))
  {
    var rule := HeavyRule(id, now);
    var body, input := Render(HeavyJson()), AsInput(rule);
    HeavyBodyBytes();
    RenderSpells(HeavyJson());
    HeavyJsonDecodes(p, id, now);
    HeavyRuleIsClean(id, now);
    CleanRuleIsStable(rule);
    assert AcceptedBody(p, body, input);
  }

  lemma UuidAtLeast(id: Uuid)
    ensures Bytes(Str(PrintUuid(id))) >= 38
  {
    var s := PrintUuid(id);
    ParsePrintedUuid(id);
    HyphenatedAlphabet(s);
    QuoteBytes(s);
  }

  lemma {:induction false} HeavyRuleBytes(p: Printer, id: Uuid, now: int)
    ensures Bytes(RuleJson(p, HeavyRule(id, now))) >= 32_810
  {
    var rule := HeavyRule(id, now);
    var v := RuleValues(p, rule);
    MembersExactly(RuleNames(), v);
    ObjBytes(Members(RuleNames(), v));
    RuleNamesBytes();
    TotalOfTen(v);
    UuidAtLeast(id);
    QuoteBytes(p.time(now));
    HeavyTextBytes();
    HeavyListBytes();
    EmptyListBytes();
  }

  // ----- Replies full of heavy rules -----

  function HeavyRules(n: nat, now: int): (rules: seq<AlertRule>)
    requires n <= LIST_LIMIT
    ensures |rules| == n
  {
    seq(n, i requires 0 <= i < n => HeavyRule(i, now))
  }

  lemma HeavyRulesAreServable(p: Printer, n: nat, now: int)
    requires n <= LIST_LIMIT && p.read("1") == Finite(1.0)
    ensures ServablePage(p, HeavyRules(n, now))
  {
    forall i | 0 <= i < n
      ensures Storable(p, HeavyRules(n, now)[i])
    {
      HeavyRuleIsStorable(p, i, now);
    }
  }

  lemma {:induction false} TotalAtLeast(items: seq<Json>, lo: nat)
    requires forall i | 0 <= i < |items| :: lo <= Bytes(items[i])
    ensures |items| * lo <= TotalBytes(items)
  {
    if items != [] {
      var first, rest := items[0], items[1..];
      assert forall i | 0 <= i < |rest| :: rest[i] == items[i + 1];
      TotalAtLeast(rest, lo);
      MulStep(|rest|, lo);
      assert TotalBytes(items) == Bytes(first) + TotalBytes(rest);
    }
  }

  lemma ArrAtLeast(items: seq<Json>)
    ensures TotalBytes(items) <= Bytes(Arr(items))
  {
    RenderedItemsBytes(items);
    WrapBytes('[', RenderItems(items), ']');
  }

  lemma HeavyItemsBytes(p: Printer, n: nat, now: int)
    requires n <= LIST_LIMIT
    ensures Bytes(Arr(RulesJson(p, HeavyRules(n, now)))) >= n * 32_810
  {
    var items := RulesJson(p, HeavyRules(n, now));
    forall i | 0 <= i < |items|
      ensures 32_810 <= Bytes(items[i])
    {
      HeavyRuleBytes(p, i, now);
    }
    TotalAtLeast(items, 32_810);
    ArrAtLeast(items);
  }

  lemma HeavyReplyBytes(p: Printer, operationId: Uuid, n: nat, now: int)
    requires n <= LIST_LIMIT
    ensures ReplyBytes(p, Completed(operationId, HeavyRules(n, now))) >= n * 32_810
  {
    HeavyItemsBytes(p, n, now);
    var v := ReplyValues(p, Completed(operationId, HeavyRules(n, now)));
    ObjectBytes(ReplyNames(), v);
    TotalOfFour(v);
  }

  lemma HeavyEventBytes(p: Printer, event: EventEnvelope, n: nat, now: int)
    requires n <= LIST_LIMIT && event.reply == Completed(event.correlationId, HeavyRules(n, now))
    ensures EventBytes(p, event) >= n * 32_810
  {
    HeavyReplyBytes(p, event.correlationId, n, now);
    var v := EventValues(p, event);
    ObjectBytes(EventNames(), v);
    TotalOfSix(v);
  }

  // ----- Exactly how many rules always fit -----

  /** Every TCP answer with `n` stored rules fits a frame. */
  ghost predicate FramesHold(p: Printer, n: nat) {
    forall id, rules | |rules| == n && ServablePage(p, rules) ::
      ReplyBytes(p, Completed(id, rules)) <= MAX_FRAME_BYTES
  }

  /** A TCP answer with `n` rules is certain to fit a frame if and only if `n` is at most one. */
  lemma ReplyFitsIff(p: Printer, n: nat)
    requires Bounded(p) && p.read("1") == Finite(1.0) && n <= LIST_LIMIT
    ensures FramesHold(p, n) <==> n <= 1
  {
    if n <= 1 {
      forall id, rules | |rules| == n && ServablePage(p, rules)
        ensures ReplyBytes(p, Completed(id, rules)) <= MAX_FRAME_BYTES
      {
        OneStoredRuleFits(p, id, rules);
      }
    } else {
      HeavyRulesAreServable(p, n, 0);
      HeavyReplyBytes(p, NIL_UUID, n, 0);
    }
  }

  /** The event of a completed reply with `n` stored rules. */
  ghost predicate ServableEvent(p: Printer, n: nat, event: EventEnvelope) {
    && ShortEnvelope(event)
    && event.reply.result.Some? && |event.reply.result.value| == n
    && event.reply == Completed(event.correlationId, event.reply.result.value)
    && ServablePage(p, event.reply.result.value)
  }

  /** An event with `n` rules is certain to fit the payload limit if and only if `n` is at most seven. */
  lemma EventFitsIff(p: Printer, n: nat)
    requires Bounded(p) && p.read("1") == Finite(1.0) && n <= LIST_LIMIT
    ensures (forall event | ServableEvent(p, n, event) :: EventBytes(p, event) <= MAX_NATS_PAYLOAD_BYTES) <==> n <= 7
  {
    if n <= 7 {
      forall event | ServableEvent(p, n, event)
        ensures EventBytes(p, event) <= MAX_NATS_PAYLOAD_BYTES
      {
        SevenStoredRulesFit(p, event, event.reply.result.value);
      }
    } else {
      var event := EventEnvelope(NIL_UUID, NIL_UUID, "", "", "", Completed(NIL_UUID, HeavyRules(n, 0)));
      HeavyRulesAreServable(p, n, 0);
      HeavyEventBytes(p, event, n, 0);
      assert ServableEvent(p, n, event);
    }
  }
}
