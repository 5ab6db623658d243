/** Alert rules: validation of submitted input and the normalised rule built from it. */
module Rules {
  import opened Common
  import opened Text

  const MAX_ALERT_NAME_BYTES := 160
  const MAX_QUERY_BYTES := 8192
  const MAX_MODEL_BYTES := 128
  const MAX_LIST_ITEMS := 32
  const MAX_LIST_ITEM_BYTES := 256

  /** A 32-bit float up to rounding; infinities and NaN are one case. */
  datatype Float = Finite(value: real) | NonFinite

  datatype AlertRule = AlertRule(
    id: Uuid,
    createdAt: int,
    updatedAt: int,
    name: string,
    queryText: string,
    embeddingModel: string,
    similarityThreshold: Float,
    sourceFilters: seq<string>,
    deliveryChannels: seq<string>,
    enabled: bool
  )

  datatype CreateAlertRule = CreateAlertRule(
    name: string,
    queryText: string,
    embeddingModel: string,
    similarityThreshold: Float,
    sourceFilters: seq<string>,
    deliveryChannels: seq<string>,
    enabled: bool
  )

  datatype ValidationError = BadText | BadThreshold | TooManyEntries

  predicate HasControl(s: string) {
    exists i | 0 <= i < |s| :: IsControl(s[i])
  }

  function ValidateText(value: string, max: nat): Outcome<ValidationError> {
    if Trim(value) == "" || ByteLen(value) > max || HasControl(value) then Fail(BadText) else Pass
  }

  function ValidateItems(values: seq<string>): Outcome<ValidationError> {
    if values == [] then Pass
    else
      var first := ValidateText(values[0], MAX_LIST_ITEM_BYTES);
      if first.Fail? then first else ValidateItems(values[1..])
  }

  function ValidateList(values: seq<string>): Outcome<ValidationError> {
    if |values| > MAX_LIST_ITEMS then Fail(TooManyEntries) else ValidateItems(values)
  }

  predicate UnitInterval(x: Float) {
    x.Finite? && 0.0 <= x.value <= 1.0
  }

  /** The first failing check, in the order the server applies them. */
  function Validate(input: CreateAlertRule): Outcome<ValidationError> {
    var name := ValidateText(input.name, MAX_ALERT_NAME_BYTES);
    if name.Fail? then name else
    var query := ValidateText(input.queryText, MAX_QUERY_BYTES);
    if query.Fail? then query else
    var model := ValidateText(input.embeddingModel, MAX_MODEL_BYTES);
    if model.Fail? then model else
    if !UnitInterval(input.similarityThreshold) then Fail(BadThreshold) else
    var filters := ValidateList(input.sourceFilters);
    if filters.Fail? then filters else
    ValidateList(input.deliveryChannels)
  }

  function NormalizeList(values: seq<string>): (r: seq<string>)
    ensures |r| == |values|
  {
    seq(|values|, i requires 0 <= i < |values| => Trim(values[i]))
  }

  function IntoRule(input: CreateAlertRule, id: Uuid, now: int): AlertRule {
    AlertRule(
      id, now, now,
      Trim(input.name), Trim(input.queryText), Trim(input.embeddingModel),
      input.similarityThreshold,
      NormalizeList(input.sourceFilters), NormalizeList(input.deliveryChannels),
      input.enabled)
  }

  /** Reading a stored rule back as if it were submitted again. */
  function AsInput(rule: AlertRule): CreateAlertRule {
    CreateAlertRule(
      rule.name, rule.queryText, rule.embeddingModel, rule.similarityThreshold,
      rule.sourceFilters, rule.deliveryChannels, rule.enabled)
  }

  // ----- What an accepted input guarantees -----

  /** A text the table and the wire can hold: visible, trimmed, bounded in bytes, free of controls. */
  predicate CleanText(s: string, max: nat) {
    s != "" && Trimmed(s) && ByteLen(s) <= max && !HasControl(s)
  }

  predicate CleanList(values: seq<string>) {
    |values| <= MAX_LIST_ITEMS && forall i | 0 <= i < |values| :: CleanText(values[i], MAX_LIST_ITEM_BYTES)
  }

  predicate CleanRule(rule: AlertRule) {
    && CleanText(rule.name, MAX_ALERT_NAME_BYTES)
    && CleanText(rule.queryText, MAX_QUERY_BYTES)
    && CleanText(rule.embeddingModel, MAX_MODEL_BYTES)
    && UnitInterval(rule.similarityThreshold)
    && CleanList(rule.sourceFilters)
    && CleanList(rule.deliveryChannels)
  }

  /** The CHECK constraints of `eal_alert_rules`, whose `length` counts characters. */
  predicate AlertTableChecks(tenant: string, rule: AlertRule) {
    && 1 <= |tenant| <= 64
    && 1 <= |rule.name| <= 160
    && 1 <= |rule.queryText| <= 8192
    && 1 <= |rule.embeddingModel| <= 128
    && UnitInterval(rule.similarityThreshold)
  }

  lemma TrimCleans(value: string, max: nat)
    requires ValidateText(value, max).Pass?
    ensures CleanText(Trim(value), max)
  {
    var lo, hi := TrimIsSlice(value);
    SliceBytes(value, lo, hi);
  }

  lemma CleanTextIsStable(value: string, max: nat)
    requires CleanText(value, max)
    ensures ValidateText(value, max).Pass? && Trim(value) == value
  {
  }

  lemma {:induction false} ValidItems(values: seq<string>)
    ensures ValidateItems(values).Pass? <==>
              forall i | 0 <= i < |values| :: ValidateText(values[i], MAX_LIST_ITEM_BYTES).Pass?
  {
    if values != [] {
      ValidItems(values[1..]);
      assert forall i | 1 <= i < |values| :: values[i] == values[1..][i - 1];
      assert values[1..] == [] || values[1..][0] == values[1];
    }
  }

  /** A text within its byte limit, with something to see in it and no controls. */
  predicate AcceptableText(s: string, max: nat) {
    && ByteLen(s) <= max
    && (exists i | 0 <= i < |s| :: !IsWhitespace(s[i]))
    && forall i | 0 <= i < |s| :: !IsControl(s[i])
  }

  lemma TextIsAcceptable(value: string, max: nat)
    ensures ValidateText(value, max).Pass? <==> AcceptableText(value, max)
  {
    TrimIsEmpty(value);
  }

  lemma ListIsAcceptable(values: seq<string>)
    ensures ValidateList(values).Pass? <==>
              |values| <= 32 && forall i | 0 <= i < |values| :: AcceptableText(values[i], 256)
  {
    ValidItems(values);
    forall i | 0 <= i < |values|
      ensures ValidateText(values[i], 256).Pass? <==> AcceptableText(values[i], 256)
    {
      TextIsAcceptable(values[i], 256);
    }
  }

  /** Exactly which inputs are accepted. */
  lemma ValidatesExactly(input: CreateAlertRule)
    ensures Validate(input).Pass? <==>
              && AcceptableText(input.name, 160)
              && AcceptableText(input.queryText, 8192)
              && AcceptableText(input.embeddingModel, 128)
              && input.similarityThreshold.Finite? && 0.0 <= input.similarityThreshold.value <= 1.0
              && |input.sourceFilters| <= 32 && |input.deliveryChannels| <= 32
              && (forall i | 0 <= i < |input.sourceFilters| :: AcceptableText(input.sourceFilters[i], 256))
              && (forall i | 0 <= i < |input.deliveryChannels| :: AcceptableText(input.deliveryChannels[i], 256))
  {
    TextIsAcceptable(input.name, 160);
    TextIsAcceptable(input.queryText, 8192);
    TextIsAcceptable(input.embeddingModel, 128);
    ListIsAcceptable(input.sourceFilters);
    ListIsAcceptable(input.deliveryChannels);
  }

  lemma NormalizeCleans(values: seq<string>)
    requires ValidateList(values).Pass?
    ensures CleanList(NormalizeList(values))
  {
    ValidItems(values);
    forall i | 0 <= i < |values|
      ensures CleanText(NormalizeList(values)[i], MAX_LIST_ITEM_BYTES)
    {
      TrimCleans(values[i], MAX_LIST_ITEM_BYTES);
    }
  }

  lemma CleanListIsStable(values: seq<string>)
    requires CleanList(values)
    ensures ValidateList(values).Pass? && NormalizeList(values) == values
  {
    forall i | 0 <= i < |values|
      ensures ValidateText(values[i], MAX_LIST_ITEM_BYTES).Pass? && Trim(values[i]) == values[i]
    {
      CleanTextIsStable(values[i], MAX_LIST_ITEM_BYTES);
    }
    ValidItems(values);
  }

  /** Every accepted input yields a clean rule. */
  lemma AcceptedInputIsClean(input: CreateAlertRule, id: Uuid, now: int)
    requires Validate(input).Pass?
    ensures CleanRule(IntoRule(input, id, now))
  {
    TrimCleans(input.name, MAX_ALERT_NAME_BYTES);
    TrimCleans(input.queryText, MAX_QUERY_BYTES);
    TrimCleans(input.embeddingModel, MAX_MODEL_BYTES);
    NormalizeCleans(input.sourceFilters);
    NormalizeCleans(input.deliveryChannels);
  }

  /** A clean rule is a fixed point: it validates as input and normalising it again changes nothing. */
  lemma CleanRuleIsStable(rule: AlertRule)
    requires CleanRule(rule)
    ensures Validate(AsInput(rule)).Pass?
    ensures IntoRule(AsInput(rule), rule.id, rule.updatedAt) == rule.(createdAt := rule.updatedAt)
  {
    CleanTextIsStable(rule.name, MAX_ALERT_NAME_BYTES);
    CleanTextIsStable(rule.queryText, MAX_QUERY_BYTES);
    CleanTextIsStable(rule.embeddingModel, MAX_MODEL_BYTES);
    CleanListIsStable(rule.sourceFilters);
    CleanListIsStable(rule.deliveryChannels);
  }

  /**
   * Validation, normalisation and the table agree: an accepted input's rule meets every CHECK of the
   * alert table, validates again, and a second normalisation is the identity.
   */
  lemma AcceptedInputRoundTrips(input: CreateAlertRule, id: Uuid, now: int, tenant: string)
    requires Validate(input).Pass? && 1 <= |tenant| <= 64
    ensures var rule := IntoRule(input, id, now);
            && AlertTableChecks(tenant, rule)
            && 1 <= |rule.name| <= 160 && 1 <= |rule.queryText| <= 8192 && 1 <= |rule.embeddingModel| <= 128
            && rule.similarityThreshold.Finite? && 0.0 <= rule.similarityThreshold.value <= 1.0
            && Validate(AsInput(rule)).Pass?
            && IntoRule(AsInput(rule), id, now) == rule
  {
    AcceptedInputIsClean(input, id, now);
    CleanRuleIsStable(IntoRule(input, id, now));
  }

  /** Nothing visible is lost: a stored text is the submitted one without the whitespace around it. */
  lemma StoredTextKeepsContent(value: string) returns (lo: nat, hi: nat)
    ensures lo <= hi <= |value| && Trim(value) == value[lo..hi]
    ensures forall i | 0 <= i < |value| && !IsWhitespace(value[i]) :: lo <= i < hi
  {
    lo, hi := TrimIsSlice(value);
  }
}
