/** Asynchronous commands: their signed text, their signature and the gate that admits them. */
module Command {
  import opened Common
  import opened Text
  import opened Identifiers

  const MAX_OPERATION_DEADLINE_MS := 15_000

  datatype OperationEnvelope = OperationEnvelope(
    version: Byte,
    operationId: Uuid,
    operation: string,
    actorSubject: string,
    productTenant: string,
    deadlineMs: U64
  )

  datatype AsyncCommand = AsyncCommand(
    eventId: Uuid,
    correlationId: Uuid,
    dedupeKey: string,
    productTenant: string,
    operation: OperationEnvelope,
    signature: string
  )

  /** HMAC-SHA-256 (RFC 2104) as an arbitrary function of key and text. */
  type Mac = (seq<Byte>, string) -> seq<Byte>

  /** What a consumer is configured with. */
  datatype GateConfig = GateConfig(productTenant: string, key: seq<Byte>, mac: Mac)

  // ----- Signed text and signature -----

  function SigningFields(c: AsyncCommand): (fields: seq<string>)
    ensures |fields| == 9
  {
    [
      PrintUuid(c.eventId),
      PrintUuid(c.correlationId),
      c.dedupeKey,
      c.productTenant,
      Decimal(c.operation.version),
      PrintUuid(c.operation.operationId),
      c.operation.operation,
      c.operation.actorSubject,
      Decimal(c.operation.deadlineMs)
    ]
  }

  function SigningText(c: AsyncCommand): string {
    Join(SigningFields(c), '\n')
  }

  predicate ValidCommandKey(key: seq<Byte>) {
    32 <= |key| <= 1024 && forall b | b in key :: 0x20 <= b && b != 0x7F
  }

  function SignCommand(mac: Mac, c: AsyncCommand, key: seq<Byte>): Option<string> {
    if !ValidCommandKey(key) then None else Some(HexEncode(mac(key, SigningText(c))))
  }

  predicate VerifyCommandSignature(mac: Mac, c: AsyncCommand, key: seq<Byte>) {
    var signature := HexDecode(c.signature);
    && signature.Some?
    && ValidCommandKey(key)
    && mac(key, SigningText(c)) == signature.value
  }

  // ----- Shape checks -----

  predicate BoundedTenant(value: string) {
    && value != ""
    && ByteLen(value) <= 64
    && forall i | 0 <= i < |value| ::
         IsLowerOrDigit(value[i]) || (i > 0 && (value[i] == '_' || value[i] == '-'))
  }

  predicate IsDedupeChar(c: char) {
    IsAlphanumeric(c) || c == ':' || c == '_' || c == '-'
  }

  predicate BoundedDedupeKey(value: string) {
    value != "" && ByteLen(value) <= 128 && forall i | 0 <= i < |value| :: IsDedupeChar(value[i])
  }

  function SaturatingSub(a: U64, b: U64): U64 {
    if a < b then 0 else a - b
  }

  /** The part of the envelope check that does not look at the clock. */
  predicate EnvelopeShape(e: OperationEnvelope) {
    && e.version == 1
    && e.operation == "list_alerts"
    && e.operationId != NIL_UUID
    && BoundedTenant(e.productTenant)
    && ParseUuid(e.actorSubject).Some?
  }

  function ValidateEnvelopeAt(e: OperationEnvelope, now: U64): Outcome<string> {
    if e.version != 1
       || e.operation != "list_alerts"
       || e.operationId == NIL_UUID
       || !BoundedTenant(e.productTenant)
       || ParseUuid(e.actorSubject).None?
       || e.deadlineMs < now
       || SaturatingSub(e.deadlineMs, now) > MAX_OPERATION_DEADLINE_MS
    then Fail("operation envelope is invalid")
    else Pass
  }

  /** Every check of the gate except the signature. */
  predicate PassesChecks(c: AsyncCommand, tenant: string, now: U64) {
    && c.productTenant == tenant
    && c.productTenant == c.operation.productTenant
    && c.operation.operationId == c.correlationId
    && BoundedDedupeKey(c.dedupeKey)
    && ValidateEnvelopeAt(c.operation, now).Pass?
  }

  /** The consumer's gate: it processes a command exactly when this holds, and terminates it otherwise. */
  predicate Admits(cfg: GateConfig, c: AsyncCommand, now: U64) {
    PassesChecks(c, cfg.productTenant, now) && VerifyCommandSignature(cfg.mac, c, cfg.key)
  }

  // ----- The deadline window -----

  /**
   * The envelope is accepted exactly on a closed interval of at most 15 seconds ending at the
   * deadline; the interval's left end may lie before time zero, which the saturating subtraction hides.
   */
  lemma EnvelopeWindow(e: OperationEnvelope, now: U64)
    ensures ValidateEnvelopeAt(e, now).Pass? <==>
              EnvelopeShape(e) && e.deadlineMs - MAX_OPERATION_DEADLINE_MS <= now <= e.deadlineMs
  {
  }

  /** Every check of the gate that does not look at the clock. */
  predicate TimelessChecks(cfg: GateConfig, c: AsyncCommand) {
    && c.productTenant == cfg.productTenant
    && c.productTenant == c.operation.productTenant
    && c.operation.operationId == c.correlationId
    && BoundedDedupeKey(c.dedupeKey)
    && EnvelopeShape(c.operation)
    && VerifyCommandSignature(cfg.mac, c, cfg.key)
  }

  /** The gate opens for a command exactly on the window of its envelope. */
  lemma AdmitsInWindow(cfg: GateConfig, c: AsyncCommand, now: U64)
    ensures Admits(cfg, c, now) <==>
              && TimelessChecks(cfg, c)
              && c.operation.deadlineMs - MAX_OPERATION_DEADLINE_MS <= now <= c.operation.deadlineMs
  {
    EnvelopeWindow(c.operation, now);
  }

  /** No command is admitted at two times more than 15 seconds apart. */
  lemma AdmissionsAreClose(cfg: GateConfig, c: AsyncCommand, t1: U64, t2: U64)
    requires Admits(cfg, c, t1) && Admits(cfg, c, t2)
    ensures t2 - t1 <= MAX_OPERATION_DEADLINE_MS
  {
  }

  // ----- The gate in plain terms -----

  predicate TenantText(s: string) {
    && 1 <= |s| <= 64
    && s[0] != '_' && s[0] != '-'
    && forall i | 0 <= i < |s| ::
         'a' <= s[i] <= 'z' || '0' <= s[i] <= '9' || s[i] == '_' || s[i] == '-'
  }

  predicate DedupeText(s: string) {
    && 1 <= |s| <= 128
    && forall i | 0 <= i < |s| ::
         || 'a' <= s[i] <= 'z' || 'A' <= s[i] <= 'Z' || '0' <= s[i] <= '9'
         || s[i] == ':' || s[i] == '_' || s[i] == '-'
  }

  lemma AsciiBytes(s: string)
    ensures (forall i | 0 <= i < |s| :: s[i] as int < 0x80) ==> ByteLen(s) == |s|
  {
    if forall i | 0 <= i < |s| :: s[i] as int < 0x80 {
      ByteLenAscii(s);
    }
  }

  lemma BoundedTenantExactly(s: string)
    ensures BoundedTenant(s) <==> TenantText(s)
  {
    AsciiBytes(s);
    if BoundedTenant(s) {
      assert forall i | 0 <= i < |s| :: s[i] as int < 0x80;
    }
  }

  lemma BoundedDedupeKeyExactly(s: string)
    ensures BoundedDedupeKey(s) <==> DedupeText(s)
  {
    AsciiBytes(s);
    if BoundedDedupeKey(s) {
      assert forall i | 0 <= i < |s| :: IsDedupeChar(s[i]);
    }
    if DedupeText(s) {
      assert forall i | 0 <= i < |s| :: s[i] as int < 0x80;
    }
  }

  /** The signature spells out, in digits of either case, the MAC of the signed text under a well-formed key. */
  lemma VerifiesExactly(mac: Mac, c: AsyncCommand, key: seq<Byte>)
    ensures VerifyCommandSignature(mac, c, key) <==>
              && 32 <= |key| <= 1024 && (forall i | 0 <= i < |key| :: 0x20 <= key[i] && key[i] != 0x7F)
              && IsHexOf(c.signature, mac(key, SigningText(c)))
  {
    HexDecodeExactly(c.signature, mac(key, SigningText(c)));
    KeyExactly(key);
  }

  lemma KeyExactly(key: seq<Byte>)
    ensures ValidCommandKey(key) <==>
              32 <= |key| <= 1024 && forall i | 0 <= i < |key| :: 0x20 <= key[i] && key[i] != 0x7F
  {
    assert forall i | 0 <= i < |key| :: key[i] in key;
  }

  /** Exactly which commands the gate admits, and when. */
  lemma AdmitsExactly(cfg: GateConfig, c: AsyncCommand, now: U64)
    ensures Admits(cfg, c, now) <==>
              && c.productTenant == cfg.productTenant && c.operation.productTenant == cfg.productTenant
              && c.operation.operationId == c.correlationId && c.correlationId != 0
              && c.operation.version == 1 && c.operation.operation == "list_alerts"
              && TenantText(c.productTenant) && DedupeText(c.dedupeKey)
              && IsUuidText(c.operation.actorSubject)
              && c.operation.deadlineMs - 15_000 <= now <= c.operation.deadlineMs
              && 32 <= |cfg.key| <= 1024 && (forall i | 0 <= i < |cfg.key| :: 0x20 <= cfg.key[i] && cfg.key[i] != 0x7F)
              && IsHexOf(c.signature, cfg.mac(cfg.key, SigningText(c)))
  {
    AdmitsInWindow(cfg, c, now);
    BoundedTenantExactly(c.productTenant);
    BoundedDedupeKeyExactly(c.dedupeKey);
    ParseUuidAccepts(c.operation.actorSubject);
    VerifiesExactly(cfg.mac, c, cfg.key);
  }

  // ----- Injectivity of the signed text -----

  lemma ShapedFieldsHaveNoNewline(tenant: string, dedupeKey: string)
    ensures BoundedTenant(tenant) ==> '\n' !in tenant
    ensures BoundedDedupeKey(dedupeKey) ==> '\n' !in dedupeKey
  {
  }

  lemma NumbersHaveNoNewline(n: nat)
    ensures '\n' !in Decimal(n)
  {
  }

  lemma EachFieldHasNoNewline(c: AsyncCommand, tenant: string, now: U64)
    requires PassesChecks(c, tenant, now)
    ensures '\n' !in c.dedupeKey && '\n' !in c.productTenant
    ensures '\n' !in c.operation.operation && '\n' !in c.operation.actorSubject
  {
    ShapedFieldsHaveNoNewline(c.productTenant, c.dedupeKey);
    ParsedUuidHasNoNewline(c.operation.actorSubject);
  }

  lemma FieldsHaveNoNewline(c: AsyncCommand)
    requires '\n' !in c.dedupeKey && '\n' !in c.productTenant
    requires '\n' !in c.operation.operation && '\n' !in c.operation.actorSubject
    ensures forall k | 0 <= k < 9 :: '\n' !in SigningFields(c)[k]
  {
    PrintedUuidHasNoNewline(c.eventId);
    PrintedUuidHasNoNewline(c.correlationId);
    PrintedUuidHasNoNewline(c.operation.operationId);
    NumbersHaveNoNewline(c.operation.version);
    NumbersHaveNoNewline(c.operation.deadlineMs);
  }

  lemma FieldsSplit(c: AsyncCommand, tenant: string, now: U64)
    requires PassesChecks(c, tenant, now)
    ensures Split(SigningText(c), '\n') == SigningFields(c)
  {
    EachFieldHasNoNewline(c, tenant, now);
    FieldsHaveNoNewline(c);
    SplitJoin(SigningFields(c), '\n');
  }

  /**
   * Splitting the signed text of a command that passes the checks recovers its nine fields, in this
   * order: the four identifiers read back as UUIDs, the two numbers as decimals, the texts as they are.
   */
  lemma SigningTextSplits(c: AsyncCommand, tenant: string, now: U64)
    requires PassesChecks(c, tenant, now)
    ensures var f := Split(SigningText(c), '\n');
            && |f| == 9
            && ParseUuid(f[0]) == Some(c.eventId) && f[0] == PrintUuid(c.eventId)
            && ParseUuid(f[1]) == Some(c.correlationId) && f[1] == PrintUuid(c.correlationId)
            && f[2] == c.dedupeKey
            && f[3] == c.productTenant
            && (forall x | x in f[4] :: IsDigit(x)) && ParseDecimal(f[4]) == c.operation.version
            && ParseUuid(f[5]) == Some(c.operation.operationId) && f[5] == PrintUuid(c.operation.operationId)
            && f[6] == c.operation.operation
            && f[7] == c.operation.actorSubject
            && (forall x | x in f[8] :: IsDigit(x)) && ParseDecimal(f[8]) == c.operation.deadlineMs
            && |f[4]| > 0 && (f[4][0] == '0' ==> |f[4]| == 1)
            && |f[8]| > 0 && (f[8][0] == '0' ==> |f[8]| == 1)
  {
    FieldsSplit(c, tenant, now);
    ParsePrintedUuid(c.eventId);
    ParsePrintedUuid(c.correlationId);
    ParsePrintedUuid(c.operation.operationId);
    ParsePrintedDecimal(c.operation.version);
    ParsePrintedDecimal(c.operation.deadlineMs);
    DecimalIsCanonical(c.operation.version);
    DecimalIsCanonical(c.operation.deadlineMs);
  }

  /**
   * Two commands that pass the checks, at any times and even for consumers of different tenants,
   * sign the same text only if they agree on every field but the signature.
   */
  lemma SigningTextInjective(c: AsyncCommand, tenantC: string, nowC: U64,
                             d: AsyncCommand, tenantD: string, nowD: U64)
    requires PassesChecks(c, tenantC, nowC) && PassesChecks(d, tenantD, nowD)
    requires SigningText(c) == SigningText(d)
    ensures c.(signature := "") == d.(signature := "")
  {
    SigningTextDetermines(c, d, tenantD, nowD);
  }

  /** The two commands agree on everything that is signed. */
  predicate SameSigned(c: AsyncCommand, d: AsyncCommand) {
    c.(signature := "", operation := c.operation.(productTenant := ""))
    == d.(signature := "", operation := d.operation.(productTenant := ""))
  }

  lemma SameFieldsSameSigned(c: AsyncCommand, d: AsyncCommand)
    requires SigningFields(c) == SigningFields(d)
    ensures SameSigned(c, d)
  {
    var f, g := SigningFields(c), SigningFields(d);
    assert f[0] == g[0] && f[1] == g[1] && f[2] == g[2] && f[3] == g[3] && f[4] == g[4];
    assert f[5] == g[5] && f[6] == g[6] && f[7] == g[7] && f[8] == g[8];
    ParsePrintedUuid(c.eventId);
    ParsePrintedUuid(d.eventId);
    ParsePrintedUuid(c.correlationId);
    ParsePrintedUuid(d.correlationId);
    ParsePrintedUuid(c.operation.operationId);
    ParsePrintedUuid(d.operation.operationId);
    ParsePrintedDecimal(c.operation.version);
    ParsePrintedDecimal(d.operation.version);
    ParsePrintedDecimal(c.operation.deadlineMs);
    ParsePrintedDecimal(d.operation.deadlineMs);
  }

  /**
   * Only one of the two needs to pass the checks: its text has exactly eight newlines, so any command
   * with that text has none in its fields, and agrees on everything that is signed.
   */
  lemma SigningTextDetermines(c: AsyncCommand, d: AsyncCommand, tenant: string, now: U64)
    requires PassesChecks(d, tenant, now) && SigningText(c) == SigningText(d)
    ensures SameSigned(c, d)
  {
    FieldsSplit(d, tenant, now);
    JoinPieces(SigningFields(c), '\n');
    SplitJoin(SigningFields(c), '\n');
    SameFieldsSameSigned(c, d);
  }

  /** Joining depends on two neighbouring parts only through the text they form together. */
  lemma {:induction false} JoinFusesNeighbours(a: string, b: string, x: string, y: string, rest: seq<string>, sep: char)
    requires |rest| > 0
    requires a + [sep] + b == x + [sep] + y
    ensures Join([a, b] + rest, sep) == Join([x, y] + rest, sep)
  {
    calc {
      Join([a, b] + rest, sep);
      { assert ([a, b] + rest)[1..] == [b] + rest; assert ([b] + rest)[1..] == rest; }
      a + [sep] + (b + [sep] + Join(rest, sep));
      (a + [sep] + b) + [sep] + Join(rest, sep);
      (x + [sep] + y) + [sep] + Join(rest, sep);
      x + [sep] + (y + [sep] + Join(rest, sep));
      { assert ([x, y] + rest)[1..] == [y] + rest; assert ([y] + rest)[1..] == rest; }
      Join([x, y] + rest, sep);
    }
  }

  /**
   * Without the checks the text is not injective: moving a newline between the dedupe key and the
   * tenant yields a different command with the same signed text, whatever the other fields are.
   */
  lemma UncheckedTextsCollide(c: AsyncCommand) returns (d: AsyncCommand, e: AsyncCommand)
    ensures d != e && d.dedupeKey != e.dedupeKey && d.productTenant != e.productTenant
    ensures SigningText(d) == SigningText(e)
    ensures d == c.(dedupeKey := d.dedupeKey, productTenant := d.productTenant)
    ensures e == c.(dedupeKey := e.dedupeKey, productTenant := e.productTenant)
  {
    d := c.(dedupeKey := "a\nb", productTenant := "c");
    e := c.(dedupeKey := "a", productTenant := "b\nc");
    var head := SigningFields(c)[..2];
    var tail := SigningFields(c)[4..];
    assert "a\nb" + ['\n'] + "c" == "a" + ['\n'] + "b\nc";
    JoinFusesNeighbours("a\nb", "c", "a", "b\nc", tail, '\n');
    JoinHead(head, ["a\nb", "c"] + tail, ["a", "b\nc"] + tail, '\n');
    assert SigningFields(d) == head + (["a\nb", "c"] + tail);
    assert SigningFields(e) == head + (["a", "b\nc"] + tail);
    assert d.dedupeKey[..1] == e.dedupeKey && |d.dedupeKey| == 3;
  }

  lemma {:induction false} JoinHead(head: seq<string>, p: seq<string>, q: seq<string>, sep: char)
    requires |p| > 0 && |q| > 0 && Join(p, sep) == Join(q, sep)
    ensures Join(head + p, sep) == Join(head + q, sep)
  {
    if head == [] {
      assert head + p == p && head + q == q;
    } else {
      JoinHead(head[1..], p, q, sep);
      assert (head + p)[1..] == head[1..] + p;
      assert (head + q)[1..] == head[1..] + q;
    }
  }

  // ----- Signatures -----

  /** A signature is made exactly with a well-formed key, in lower case, and verifies under that key. */
  lemma SignedCommandVerifies(mac: Mac, c: AsyncCommand, key: seq<Byte>)
    ensures SignCommand(mac, c, key).Some? <==> ValidCommandKey(key)
    ensures SignCommand(mac, c, key).Some? ==>
              && VerifyCommandSignature(mac, c.(signature := SignCommand(mac, c, key).value), key)
              && forall x | x in SignCommand(mac, c, key).value :: IsLowerHex(x)
  {
    HexEncodeIsLowerCase(mac(key, SigningText(c)));
    HexRoundTrip(mac(key, SigningText(c)));
    var signed := c.(signature := HexEncode(mac(key, SigningText(c))));
    assert SigningFields(signed) == SigningFields(c);
  }

  /**
   * A signature made for any command, well-formed or not, admits another one only if the MAC cannot tell
   * their texts apart or the two agree on everything that is signed: every field but the signature
   * itself and the envelope's copy of the tenant, which the gate compares with the signed one.
   */
  lemma SignatureBindsFields(cfg: GateConfig, c: AsyncCommand, d: AsyncCommand, now: U64)
    requires SignCommand(cfg.mac, c, cfg.key) == Some(d.signature)
    requires Admits(cfg, d, now)
    ensures cfg.mac(cfg.key, SigningText(c)) == cfg.mac(cfg.key, SigningText(d))
    ensures SigningText(c) != SigningText(d) || SameSigned(c, d)
    ensures SameSigned(c, d) ==> d.operation.productTenant == c.productTenant
  {
    HexRoundTrip(cfg.mac(cfg.key, SigningText(c)));
    if SigningText(c) == SigningText(d) {
      SigningTextDetermines(c, d, cfg.productTenant, now);
    }
  }
}
