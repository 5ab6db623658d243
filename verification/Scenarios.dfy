/** Concrete runs from the initial state, for every usable configuration: where order and admission give way. */
module Scenarios {
  import opened Common
  import opened Text
  import opened Identifiers
  import opened Command
  import opened AlertStore
  import opened Wire
  import opened Transport
  import opened Outbox
  import opened Protocol
  import opened Durability
  import opened Safety
  import opened Consumer
  import opened ConsumerRuns
  import opened ReplySizes
  import opened DeliveryOrder
  import opened QueueOrder
  import opened OrderLimits
  import opened ManyPublishers
  import opened Readmission
  import opened Rules

  // ----- A command the gate accepts -----

  /** A server that can start and accept commands: a well-formed key and tenant. */
  ghost predicate Operable(gate: GateConfig) {
    ValidCommandKey(gate.key) && BoundedTenant(gate.productTenant)
  }

  function Unsigned(gate: GateConfig, id: Uuid, key: string, deadline: U64): AsyncCommand {
    AsyncCommand(
      id, id, key, gate.productTenant,
      OperationEnvelope(1, id, "list_alerts", PrintUuid(id), gate.productTenant, deadline),
      "")
  }

  /** A signed request for the rules of subject `id`. */
  function Sample(gate: GateConfig, id: Uuid, key: string, deadline: U64): AsyncCommand {
    var c := Unsigned(gate, id, key, deadline);
    c.(signature := HexEncode(gate.mac(gate.key, SigningText(c))))
  }

  lemma SamplePasses(gate: GateConfig, id: Uuid, key: string, deadline: U64)
    requires Operable(gate) && id != NIL_UUID && BoundedDedupeKey(key)
    ensures TimelessChecks(gate, Sample(gate, id, key, deadline))
  {
    SignedCommandVerifies(gate.mac, Unsigned(gate, id, key, deadline), gate.key);
    ParsePrintedUuid(id);
  }

  // ----- A command answered -----

  /** What the consumer meets: the sample command at time zero, and the rules its query finds. */
  function Arriving(gate: GateConfig, id: Uuid, key: string, rules: seq<AlertRule>, stamp: int): Arrival {
    Arrival(0, Some(Sample(gate, id, key, 15_000)), Some(0), Read(rules), id, stamp, TxFault.NoFault, true)
  }

  function ReplyRow(gate: GateConfig, id: Uuid, key: string, rules: seq<AlertRule>, stamp: int): OutboxRow {
    OutboxRowOf(Sample(gate, id, key, 15_000), Completed(id, rules), id, stamp)
  }

  lemma AdmittedIsHandled(gate: GateConfig, t: Tables, a: Arrival)
    requires Accepts(gate, a) && a.fault.NoFault? && a.ackSent
    ensures var after := Process(t, a.body.value, ReplyTo(a.body.value.correlationId, a.read), a.eventId, a.stamp);
            after.Some? ==> Handle(gate, t, a) == (after.value, Some(Acked))
  {
    UndisturbedTransaction(t, a.body.value, ReplyTo(a.body.value.correlationId, a.read), a.eventId, a.stamp);
  }

  lemma UndisturbedTransaction(t: Tables, c: AsyncCommand, reply: OperationReply, eventId: Uuid, now: int)
    ensures var after := Process(t, c, reply, eventId, now);
            after.Some? ==> Transact(t, c, reply, eventId, now, TxFault.NoFault) == (after.value, true)
  {
  }

  lemma ArrivingIsAnswered(gate: GateConfig, t: Tables, id: Uuid, key: string, rules: seq<AlertRule>, stamp: int)
    requires Operable(gate) && id != NIL_UUID && BoundedDedupeKey(key) && Consistent(t)
    requires !Recorded(t.inbox, Sample(gate, id, key, 15_000)) && !HasEventId(t.outbox, id)
    ensures var r := Handle(gate, t, Arriving(gate, id, key, rules, stamp));
            && r.1 == Some(Acked) && Consistent(r.0)
            && r.0.outbox == t.outbox + [ReplyRow(gate, id, key, rules, stamp)]
            && |r.0.inbox| == |t.inbox| + 1 && t.inbox <= r.0.inbox
            && r.0.inbox[|t.inbox|].eventId == id && r.0.inbox[|t.inbox|].correlationId == id
            && r.0.inbox[|t.inbox|].dedupeKey == key
  {
    var c := Sample(gate, id, key, 15_000);
    SamplePasses(gate, id, key, 15_000);
    AdmitsInWindow(gate, c, 0);
    AdmittedIsWellShaped(gate, c, 0);
    ProcessExactly(t, c, Completed(id, rules), id, stamp);
    ProcessKeepsConsistent(t, c, Completed(id, rules), id, stamp);
    AdmittedIsHandled(gate, t, Arriving(gate, id, key, rules, stamp));
  }

  /** `later` is `s` with one more reply. */
  ghost predicate GotReply(gate: GateConfig, s: State, later: State, id: Uuid, key: string, rules: seq<AlertRule>,
                           stamp: int)
  {
    && ReadyAt(later) && later.alerts == s.alerts
    && later.events == s.events && later.publishers == s.publishers
    && OneMoreRow(s.tables, later.tables, id, key)
    && later.tables.outbox == s.tables.outbox + [ReplyRow(gate, id, key, rules, stamp)]
  }

  /** At time zero, with a consumer at rest and the tables in order. */
  ghost predicate ReadyAt(s: State) {
    s.clock == 0 && Consistent(s.tables) && ConsumerAt(s, 0).Idle?
  }

  predicate OneMoreRow(t: Tables, later: Tables, id: Uuid, key: string) {
    && |later.inbox| == |t.inbox| + 1 && t.inbox <= later.inbox
    && later.inbox[|t.inbox|].eventId == id && later.inbox[|t.inbox|].correlationId == id
    && later.inbox[|t.inbox|].dedupeKey == key
  }

  /** The command is new to the tables. */
  predicate IsNew(gate: GateConfig, t: Tables, id: Uuid, key: string) {
    !Recorded(t.inbox, Sample(gate, id, key, 15_000)) && !HasEventId(t.outbox, id)
  }

  function Ask(s: State, body: AsyncCommand): seq<Action> {
    [Produce(0, Some(body)), Deliver(|s.messages|)]
  }

  lemma Asked(cfg: Config, s: State, body: AsyncCommand)
    ensures RunFrom(cfg, s, Ask(s, body))
         == s.(messages := s.messages + [Message(0, Some(body), Open, 1, s.clock)],
               deliveries := s.deliveries + [Delivery(|s.messages|, s.clock, false)])
  {
    RunTwo(cfg, s, Produce(0, Some(body)), Deliver(|s.messages|));
  }

  lemma AskedAwaits(cfg: Config, s: State, id: Uuid, key: string, rules: seq<AlertRule>, stamp: int)
    requires s.clock == 0 && rules == ReadAlerts(s.alerts, Actor(cfg.gate.productTenant, id))
    ensures Awaits(RunFrom(cfg, s, Ask(s, Sample(cfg.gate, id, key, 15_000))),
                   Item(|s.deliveries|, Arriving(cfg.gate, id, key, rules, stamp), Succeeds))
  {
    Asked(cfg, s, Sample(cfg.gate, id, key, 15_000));
    ParsePrintedUuid(id);
  }

  lemma AnswerIsQuiet(s: State, body: AsyncCommand, item: Item, p: nat)
    requires item.arrival.now == Some(0)
    ensures SolePublisher(Ask(s, body) + (TakeUp(0, 0, item) + MessageActions(s.tables, 0, item.arrival, Succeeds)), p)
  {
  }

  /** From any such state, a new command is delivered, admitted and answered with the rules of its subject. */
  lemma Answers(cfg: Config, s: State, id: Uuid, key: string, rules: seq<AlertRule>, stamp: int)
    returns (run: seq<Action>)
    requires Operable(cfg.gate) && id != NIL_UUID && BoundedDedupeKey(key)
    requires ReadyAt(s) && IsNew(cfg.gate, s.tables, id, key)
    requires rules == ReadAlerts(s.alerts, Actor(cfg.gate.productTenant, id))
    ensures GotReply(cfg.gate, s, RunFrom(cfg, s, run), id, key, rules, stamp)
    ensures forall p :: SolePublisher(run, p)
  {
    var body := Sample(cfg.gate, id, key, 15_000);
    var item := Item(|s.deliveries|, Arriving(cfg.gate, id, key, rules, stamp), Succeeds);
    Asked(cfg, s, body);
    AskedAwaits(cfg, s, id, key, rules, stamp);
    var asked := RunFrom(cfg, s, Ask(s, body));
    FirstIsARun(cfg, asked, 0, item);
    ArrivingIsAnswered(cfg.gate, s.tables, id, key, rules, stamp);
    var handle := TakeUp(0, 0, item) + MessageActions(s.tables, 0, item.arrival, Succeeds);
    RunConcat(cfg, s, Ask(s, body), handle);
    RunConcat(cfg, asked, TakeUp(0, 0, item), MessageActions(s.tables, 0, item.arrival, Succeeds));
    run := Ask(s, body) + handle;
    forall p: nat
      ensures SolePublisher(run, p)
    {
      AnswerIsQuiet(s, body, item, p);
    }
  }

  // ----- Two replies -----

  /** The identities of two commands A and B. */
  datatype Pair = Pair(idA: Uuid, keyA: string, idB: Uuid, keyB: string)

  predicate Distinct(pair: Pair) {
    && pair.idA != NIL_UUID && pair.idB != NIL_UUID && pair.idA != pair.idB
    && BoundedDedupeKey(pair.keyA) && BoundedDedupeKey(pair.keyB) && pair.keyA != pair.keyB
  }

  function RowA(gate: GateConfig, pair: Pair, stamp: int): OutboxRow {
    ReplyRow(gate, pair.idA, pair.keyA, [], stamp)
  }

  function RowB(gate: GateConfig, pair: Pair, stamp: int): OutboxRow {
    ReplyRow(gate, pair.idB, pair.keyB, [], stamp)
  }

  lemma SecondIsNew(gate: GateConfig, pair: Pair, t: Tables, later: Tables, stamp: int)
    requires Distinct(pair) && t == EMPTY_TABLES && OneMoreRow(t, later, pair.idA, pair.keyA)
    requires later.outbox == [RowA(gate, pair, stamp)]
    ensures IsNew(gate, later, pair.idB, pair.keyB)
  {
    assert !SharesKey(later.inbox[0], Sample(gate, pair.idB, pair.keyB, 15_000));
  }

  /** A run that commits replies A and B, in this order, with the given creation times. */
  lemma TwoReplies(cfg: Config, pair: Pair, stampA: int, stampB: int) returns (run: seq<Action>)
    requires Operable(cfg.gate) && Distinct(pair)
    ensures var s := Run(cfg, run);
            && s.tables.outbox == [RowA(cfg.gate, pair, stampA), RowB(cfg.gate, pair, stampB)]
            && s.events == [] && s.publishers == map[]
    ensures forall p :: SolePublisher(run, p)
  {
    var first := Answers(cfg, INITIAL, pair.idA, pair.keyA, [], stampA);
    var s := Run(cfg, first);
    SecondIsNew(cfg.gate, pair, EMPTY_TABLES, s.tables, stampA);
    var second := Answers(cfg, s, pair.idB, pair.keyB, [], stampB);
    RunConcat(cfg, INITIAL, first, second);
    run := first + second;
    forall p: nat
      ensures SolePublisher(run, p)
    {
      QuietConcat(first, second, p);
    }
  }

  lemma QuietConcat(a: seq<Action>, b: seq<Action>, p: nat)
    requires SolePublisher(a, p) && SolePublisher(b, p)
    ensures SolePublisher(a + b, p)
  {
  }

  // ----- Order -----

  /** Replies without rules can be published. */
  ghost predicate EmptyRepliesFit(cfg: Config) {
    forall e | ShortEnvelope(e) && e.reply == Completed(e.correlationId, []) ::
      cfg.size(e) <= MAX_NATS_PAYLOAD_BYTES
  }

  /** They can with the server's own serialisation. */
  lemma ServerRepliesFit(cfg: Config, p: Printer)
    requires Bounded(p) && forall e :: cfg.size(e) == EventBytes(p, e)
    ensures EmptyRepliesFit(cfg)
  {
    forall e | ShortEnvelope(e) && e.reply == Completed(e.correlationId, [])
      ensures cfg.size(e) <= MAX_NATS_PAYLOAD_BYTES
    {
      FiveRuleEventFitsPayload(p, e, []);
    }
  }

  lemma EmptyReplyFits(cfg: Config, inbox: InboxRow, outbox: OutboxRow, row: StatusRow)
    requires EmptyRepliesFit(cfg) && Paired(inbox, outbox, row)
    requires outbox.payload.reply == Completed(outbox.correlationId, [])
    ensures !Oversized(cfg.size, outbox)
  {
    PairedEnvelopeIsShort(inbox, outbox, row);
  }

  lemma RowsHoldEmptyReplies(gate: GateConfig, pair: Pair, stampA: int, stampB: int)
    ensures var outbox := [RowA(gate, pair, stampA), RowB(gate, pair, stampB)];
            forall i | 0 <= i < 2 ::
              outbox[i].publishedAt.None? && outbox[i].payload.reply == Completed(outbox[i].correlationId, [])
  {
  }

  /** Where the two replies leave a publisher: nothing sent, nothing oversized, in step with the commits. */
  lemma TwoRepliesInStep(cfg: Config, s: State, pair: Pair, stampA: int, stampB: int)
    requires EmptyRepliesFit(cfg) && Consistent(s.tables) && s.events == [] && PublisherAt(s, 0).Resting?
    requires s.tables.outbox == [RowA(cfg.gate, pair, stampA), RowB(cfg.gate, pair, stampB)]
    ensures NothingOversized(cfg, s.tables.outbox, 0) && InStep(s, 0, 0, 0)
  {
    var t := s.tables;
    RowsHoldEmptyReplies(cfg.gate, pair, stampA, stampB);
    EmptyReplyFits(cfg, t.inbox[0], t.outbox[0], t.status[t.inbox[0].correlationId]);
    EmptyReplyFits(cfg, t.inbox[1], t.outbox[1], t.status[t.inbox[1].correlationId]);
    assert EventsOf(t.outbox[..0]) == [];
  }

  /** One such server and pair of commands; the results below hold for all of them. */
  lemma SomeServer() returns (cfg: Config, pair: Pair)
    ensures Operable(cfg.gate) && EmptyRepliesFit(cfg) && Distinct(pair)
  {
    var key := seq(32, _ => 0x41);
    cfg := Config(GateConfig("t", key, (k, text) => []), e => 0);
    pair := Pair(1, "a", 2, "b");
    ByteLenAscii("t");
    ByteLenAscii("a");
    ByteLenAscii("b");
  }

  /** Two publishers: replies created and committed in order, and the first one is shown again after the second. */
  lemma TwoPublishersReorder(cfg: Config, pair: Pair) returns (run: seq<Action>)
    requires Operable(cfg.gate) && EmptyRepliesFit(cfg) && Distinct(pair)
    ensures var s := Run(cfg, run);
            && OldestFirst(s.tables.outbox)
            && !(Collapse(s.events) <= EventsOf(s.tables.outbox))
  {
    var start := TwoReplies(cfg, pair, 0, 1);
    EveryRunIsSafe(cfg, start);
    TwoRepliesInStep(cfg, Run(cfg, start), pair, 0, 1);
    TwoRowsAscend(cfg.gate, pair);
    StaleRunReorders(cfg, Run(cfg, start));
    run := start + StaleRun(0);
    RunConcat(cfg, INITIAL, start, StaleRun(0));
  }

  lemma StaleRunReorders(cfg: Config, s: State)
    requires UniqueOutbox(s.tables.outbox) && PublisherAt(s, 0).Resting? && PublisherAt(s, 1).Resting?
    requires NothingOversized(cfg, s.tables.outbox, 0) && |s.tables.outbox| >= 2 && OldestFirst(s.tables.outbox)
    requires forall i | 0 <= i < |s.tables.outbox| :: s.tables.outbox[i].publishedAt.None?
    ensures var later := RunFrom(cfg, s, StaleRun(0));
            OldestFirst(later.tables.outbox) && !(Collapse(later.events) <= EventsOf(later.tables.outbox))
  {
    WholeQueueFits(cfg, s.tables.outbox, 0);
    QueueLength(s.tables.outbox, 0);
    StaleRunBreaksOrder(cfg, s);
    StaleRunCommitsNothing(0);
    EventsAreFixed(cfg, s, StaleRun(0));
    var later := RunFrom(cfg, s, StaleRun(0)).tables.outbox;
    assert s.tables.outbox[0..] == s.tables.outbox && later[0..] == later;
    OrderCarriesOver(s.tables.outbox, later, 0);
  }

  lemma TwoRowsAscend(gate: GateConfig, pair: Pair)
    ensures var rows := [RowA(gate, pair, 0), RowB(gate, pair, 1)];
            OldestFirst(rows) && forall i | 0 <= i < |rows| :: rows[i].publishedAt.None?
  {
  }

  lemma ReversedOrder(gate: GateConfig, pair: Pair)
    ensures !OldestFirst([RowA(gate, pair, 1), RowB(gate, pair, 0)][0..])
  {
    var rows := [RowA(gate, pair, 1), RowB(gate, pair, 0)];
    assert !Ahead(rows[0..][0], rows[0..][1]);
  }

  lemma OrderBreaks(cfg: Config, s: State) returns (more: seq<Action>)
    requires Inv(cfg, s) && InStep(s, 0, 0, 0) && PublisherAt(s, 0).Resting?
    requires NothingOversized(cfg, s.tables.outbox, 0) && !OldestFirst(s.tables.outbox[0..])
    ensures SolePublisher(more, 0)
    ensures !(Collapse(RunFrom(cfg, s, more).events) <= EventsOf(RunFrom(cfg, s, more).tables.outbox))
  {
    OrderIsKeptIff(cfg, s, 0, 0, 0);
    ContinuesIffOldestFirst(cfg, s.tables.outbox, s.events, 0, 0);
    more :| SolePublisher(more, 0) && NoCommits(more)
            && !(Collapse(RunFrom(cfg, s, more).events) <= EventsOf(s.tables.outbox));
    EventsAreFixed(cfg, s, more);
  }

  /** One publisher: the reply committed second was created first, and is shown first. */
  lemma LateCommitReorders(cfg: Config, pair: Pair) returns (run: seq<Action>)
    requires Operable(cfg.gate) && EmptyRepliesFit(cfg) && Distinct(pair)
    ensures SolePublisher(run, 0)
    ensures var s := Run(cfg, run);
            !(Collapse(s.events) <= EventsOf(s.tables.outbox))
  {
    var start := TwoReplies(cfg, pair, 1, 0);
    EveryRunIsSafe(cfg, start);
    TwoRepliesInStep(cfg, Run(cfg, start), pair, 1, 0);
    ReversedOrder(cfg.gate, pair);
    var more := OrderBreaks(cfg, Run(cfg, start));
    QuietConcat(start, more, 0);
    run := start + more;
    RunConcat(cfg, INITIAL, start, more);
  }

  // ----- Admission -----

  function FirstTry(c: AsyncCommand, at: U64): seq<Action> {
    [Tick(at), Produce(0, Some(c)), Deliver(0), Take(0, 0)]
  }

  /** Delivered at `at` and taken up, but not judged yet. */
  ghost predicate HeldAt(s: State, c: AsyncCommand, at: U64) {
    && s.clock == at && s.admissions == [] && ConsumerAt(s, 0) == Holding(0)
    && s.messages == [Message(0, Some(c), Open, 1, at)] && s.deliveries == [Delivery(0, at, true)]
  }

  lemma FirstTryHolds(cfg: Config, c: AsyncCommand, at: U64)
    ensures HeldAt(Run(cfg, FirstTry(c, at)), c, at)
  {
    RunFour(cfg, INITIAL, Tick(at), Produce(0, Some(c)), Deliver(0), Take(0, 0));
  }

  lemma TickAndJudge(cfg: Config, s: State, at: U64)
    requires s.clock + 15_000 == at && ConsumerAt(s, 0) == Holding(0)
    requires |s.deliveries| > 0 && s.deliveries[0].message < |s.messages|
    requires Passes(cfg, s.messages[s.deliveries[0].message], at)
    ensures var later := RunFrom(cfg, s, [Tick(15_000), Judge(0, true)]);
            && later.admissions == s.admissions + [Admission(0, at)] && later.deliveries == s.deliveries
            && later.messages == s.messages && later.clock == at
  {
    RunTwo(cfg, s, Tick(15_000), Judge(0, true));
    TickMoves(cfg, s, at);
    LetThrough(cfg, s.(clock := at), 0);
  }

  lemma SampleAdmitted(cfg: Config, id: Uuid, key: string, deadline: U64)
    requires Operable(cfg.gate) && id != NIL_UUID && BoundedDedupeKey(key) && 30_000 <= deadline
    ensures var message := Message(0, Some(Sample(cfg.gate, id, key, deadline)), Open, 1, deadline - 30_000);
            Passes(cfg, message, deadline - 15_000)
  {
    SamplePasses(cfg.gate, id, key, deadline);
    AdmitsInWindow(cfg.gate, Sample(cfg.gate, id, key, deadline), deadline - 15_000);
  }

  /** A message delivered at `at` and admitted 15 seconds later. */
  ghost predicate AdmittedOnceAt(s: State, c: AsyncCommand, at: U64)
    requires at + 15_000 <= 0xFFFF_FFFF_FFFF_FFFF
  {
    && s.admissions == [Admission(0, at + 15_000)] && s.clock == at + 15_000
    && s.deliveries == [Delivery(0, at, true)] && s.messages == [Message(0, Some(c), Open, 1, at)]
  }

  function JudgeLater(): seq<Action> {
    [Tick(15_000), Judge(0, true)]
  }

  lemma HeldIsAdmitted(cfg: Config, s: State, c: AsyncCommand, at: U64)
    requires at + 15_000 <= 0xFFFF_FFFF_FFFF_FFFF && Passes(cfg, Message(0, Some(c), Open, 1, at), at + 15_000)
    requires HeldAt(s, c, at)
    ensures AdmittedOnceAt(RunFrom(cfg, s, JudgeLater()), c, at)
  {
    TickAndJudge(cfg, s, at + 15_000);
  }

  lemma AdmittedOnce(cfg: Config, c: AsyncCommand, at: U64) returns (run: seq<Action>)
    requires at + 15_000 <= 0xFFFF_FFFF_FFFF_FFFF && Passes(cfg, Message(0, Some(c), Open, 1, at), at + 15_000)
    ensures AdmittedOnceAt(Run(cfg, run), c, at)
  {
    FirstTryHolds(cfg, c, at);
    HeldIsAdmitted(cfg, Run(cfg, FirstTry(c, at)), c, at);
    run := FirstTry(c, at) + JudgeLater();
    RunConcat(cfg, INITIAL, FirstTry(c, at), JudgeLater());
  }

  lemma AdmittedAgain(cfg: Config, s: State, c: AsyncCommand, at: U64) returns (more: seq<Action>, k: nat)
    requires at + 30_000 <= 0xFFFF_FFFF_FFFF_FFFF && AdmittedOnceAt(s, c, at)
    requires TimelessChecks(cfg.gate, c) && c.operation.deadlineMs == at + 30_000
    ensures var later := RunFrom(cfg, s, more);
            && 0 < k < |later.admissions| && later.admissions[0] == Admission(0, at + 15_000)
            && 0 < later.admissions[k].delivery < |later.deliveries|
            && later.deliveries[0].message == later.deliveries[later.admissions[k].delivery].message
  {
    more := AdmittedThen(cfg, s, 0);
    RunExtends(cfg, s, more);
    k :| AdmittedAt(s, RunFrom(cfg, s, more), 0, k);
  }

  /**
   * A message admitted on two deliveries, for every deadline from 30 seconds on: delivered 30 seconds
   * before it, admitted 15 seconds later, not acknowledged, and admitted again on the redelivery.
   */
  lemma MessageAdmittedTwice(cfg: Config, id: Uuid, key: string, deadline: U64) returns (run: seq<Action>, k: nat)
    requires Operable(cfg.gate) && id != NIL_UUID && BoundedDedupeKey(key) && 30_000 <= deadline
    ensures var s := Run(cfg, run);
            && 0 < k < |s.admissions|
            && s.admissions[0] == Admission(0, deadline - 15_000)
            && 0 < s.admissions[k].delivery < |s.deliveries|
            && s.deliveries[0].message == s.deliveries[s.admissions[k].delivery].message
  {
    SampleAdmitted(cfg, id, key, deadline);
    SamplePasses(cfg.gate, id, key, deadline);
    run, k := CommandAdmittedTwice(cfg, Sample(cfg.gate, id, key, deadline), deadline - 30_000);
  }

  lemma CommandAdmittedTwice(cfg: Config, c: AsyncCommand, at: U64) returns (run: seq<Action>, k: nat)
    requires at + 30_000 <= 0xFFFF_FFFF_FFFF_FFFF && Passes(cfg, Message(0, Some(c), Open, 1, at), at + 15_000)
    requires TimelessChecks(cfg.gate, c) && c.operation.deadlineMs == at + 30_000
    ensures var s := Run(cfg, run);
            && 0 < k < |s.admissions| && s.admissions[0] == Admission(0, at + 15_000)
            && 0 < s.admissions[k].delivery < |s.deliveries|
            && s.deliveries[0].message == s.deliveries[s.admissions[k].delivery].message
  {
    var first := AdmittedOnce(cfg, c, at);
    var more;
    more, k := AdmittedAgain(cfg, Run(cfg, first), c, at);
    RunConcat(cfg, INITIAL, first, more);
    run := first + more;
  }
}
