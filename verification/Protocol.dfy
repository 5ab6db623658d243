/**
 * The durable command/reply protocol as a step machine: any number of consumers and publishers share a
 * command stream, the database and an event stream. An action names one atomic step and how it turns
 * out; a step that is not possible leaves the state as it is, so every sequence of actions is a run.
 */
module Protocol {
  import opened Common
  import opened Identifiers
  import opened Command
  import opened AlertStore
  import opened Wire
  import opened Transport
  import opened Outbox

  const ACK_WAIT_MS := 30_000
  const MAX_DELIVER := 8

  datatype Config = Config(gate: GateConfig, size: Sizer)

  // ----- Command stream -----

  datatype Disposition = Open | Acked | Terminated

  /** A stored message; `body` is `None` when it does not parse as a command. */
  datatype Message = Message(
    bytes: nat,
    body: Option<AsyncCommand>,
    disposition: Disposition,
    deliveries: nat,
    lastDelivery: U64
  )

  /** One delivery of a message; clients may buffer it before a consumer takes it up. */
  datatype Delivery = Delivery(message: nat, at: U64, taken: bool)

  /** History: the gate let the command of a delivery through. */
  datatype Admission = Admission(delivery: nat, at: U64)

  // ----- Local states -----

  datatype Consumer =
    | Idle
    | Holding(delivery: nat)
    | Admitted(delivery: nat, at: U64)
    | Replying(delivery: nat, at: U64, reply: OperationReply)
    | Committed(delivery: nat, at: U64)

  datatype Publisher =
    | Resting
    | Batch(rows: seq<OutboxRow>)
    | Unmarked(row: OutboxRow, rest: seq<OutboxRow>)

  datatype State = State(
    clock: U64,
    alerts: seq<AlertRow>,
    messages: seq<Message>,
    deliveries: seq<Delivery>,
    admissions: seq<Admission>,
    tables: Tables,
    events: seq<Event>,
    consumers: map<nat, Consumer>,
    publishers: map<nat, Publisher>
  )

  const INITIAL := State(0, [], [], [], [], EMPTY_TABLES, [], map[], map[])

  function ConsumerAt(s: State, c: nat): Consumer {
    if c in s.consumers then s.consumers[c] else Idle
  }

  function PublisherAt(s: State, p: nat): Publisher {
    if p in s.publishers then s.publishers[p] else Resting
  }

  // ----- Actions -----

  datatype ReadKind = Succeeds | Fails | TimesOut

  datatype CommitKind = Commits | Unknown(applied: bool)

  datatype Action =
    | Tick(ms: nat)
    | CreateAlert(row: AlertRow)
    | Produce(bytes: nat, body: Option<AsyncCommand>)
    | Deliver(message: nat)
    | Take(consumer: nat, delivery: nat)
    | Judge(consumer: nat, applied: bool)
    | ReadRules(consumer: nat, kind: ReadKind)
    | Commit(consumer: nat, eventId: Uuid, stamp: int, result: CommitKind)
    | Acknowledge(consumer: nat, applied: bool)
    | StopConsumer(consumer: nat)
    | Select(publisher: nat)
    | Publish(publisher: nat, sent: PublishOutcome)
    | Mark(publisher: nat, stamp: int, update: MarkOutcome)
    | StopPublisher(publisher: nat)

  /** The broker hands out an open message first when it likes, and again once the ack wait has passed. */
  predicate Deliverable(s: State, m: nat) {
    && m < |s.messages|
    && s.messages[m].disposition.Open?
    && s.messages[m].deliveries < MAX_DELIVER
    && (s.messages[m].deliveries == 0 || s.messages[m].lastDelivery + ACK_WAIT_MS <= s.clock)
  }

  function ExecDeliver(s: State, m: nat): State {
    if !Deliverable(s, m) then s
    else
      var message := s.messages[m];
      s.(messages := s.messages[m := message.(deliveries := message.deliveries + 1, lastDelivery := s.clock)],
         deliveries := s.deliveries + [Delivery(m, s.clock, false)])
  }

  function SetConsumer(s: State, c: nat, phase: Consumer): State {
    s.(consumers := s.consumers[c := phase])
  }

  function ExecTake(s: State, c: nat, d: nat): State {
    if ConsumerAt(s, c).Idle? && d < |s.deliveries| && !s.deliveries[d].taken then
      SetConsumer(s, c, Holding(d)).(deliveries := s.deliveries[d := s.deliveries[d].(taken := true)])
    else s
  }

  /** The acknowledgement of a delivery reaches the broker (`applied`) or gets lost; the first one counts. */
  function Settle(messages: seq<Message>, m: nat, disposition: Disposition, applied: bool): (r: seq<Message>)
    ensures |r| == |messages|
  {
    if applied && m < |messages| && messages[m].disposition.Open?
    then messages[m := messages[m].(disposition := disposition)] else messages
  }

  predicate Passes(cfg: Config, message: Message, now: U64) {
    && message.bytes <= MAX_NATS_PAYLOAD_BYTES
    && message.body.Some?
    && Admits(cfg.gate, message.body.value, now)
  }

  /** The gate: a refused message is terminated, an admitted one goes on to its transaction. */
  function ExecJudge(cfg: Config, s: State, c: nat, applied: bool): State {
    var phase := ConsumerAt(s, c);
    if !phase.Holding? || phase.delivery >= |s.deliveries| then s
    else
      var m := s.deliveries[phase.delivery].message;
      if m >= |s.messages| then s
      else if Passes(cfg, s.messages[m], s.clock) then
        SetConsumer(s, c, Admitted(phase.delivery, s.clock))
        .(admissions := s.admissions + [Admission(phase.delivery, s.clock)])
      else
        SetConsumer(s, c, Idle).(messages := Settle(s.messages, m, Terminated, applied))
  }

  /** The command a delivery carries. */
  function BodyOf(s: State, d: nat): Option<AsyncCommand> {
    if d < |s.deliveries| && s.deliveries[d].message < |s.messages|
    then s.messages[s.deliveries[d].message].body else None
  }

  function ActorOf(c: AsyncCommand): Option<Actor> {
    var subject := ParseUuid(c.operation.actorSubject);
    if subject.None? then None else Some(Actor(c.productTenant, subject.value))
  }

  function ReadOutcomeOf(alerts: seq<AlertRow>, actor: Actor, kind: ReadKind): ReadOutcome {
    match kind
    case Succeeds => Read(ReadAlerts(alerts, actor))
    case Fails => ReadFailed
    case TimesOut => ReadTimedOut
  }

  /** The query sees the alert table as it is now; other steps may follow before the commit. */
  function ExecRead(s: State, c: nat, kind: ReadKind): State {
    var phase := ConsumerAt(s, c);
    if !phase.Admitted? then s
    else
      var body := BodyOf(s, phase.delivery);
      if body.None? || ActorOf(body.value).None? then SetConsumer(s, c, Idle)
      else
        var read := ReadOutcomeOf(s.alerts, ActorOf(body.value).value, kind);
        SetConsumer(s, c, Replying(phase.delivery, phase.at, ReplyTo(body.value.correlationId, read)))
  }

  /** `Unknown` is a commit whose result never reached the consumer; a failed transaction stops it as well. */
  function ExecCommit(s: State, c: nat, eventId: Uuid, stamp: int, outcome: CommitKind): State {
    var phase := ConsumerAt(s, c);
    if !phase.Replying? then s
    else
      var body := BodyOf(s, phase.delivery);
      if body.None? then SetConsumer(s, c, Idle)
      else
        var after := Process(s.tables, body.value, phase.reply, eventId, stamp);
        if after.None? || outcome == Unknown(false) then SetConsumer(s, c, Idle)
        else
          SetConsumer(s, c, if outcome.Commits? then Committed(phase.delivery, phase.at) else Idle)
          .(tables := after.value)
  }

  function ExecAcknowledge(s: State, c: nat, applied: bool): State {
    var phase := ConsumerAt(s, c);
    if !phase.Committed? || phase.delivery >= |s.deliveries| then s
    else
      SetConsumer(s, c, Idle)
      .(messages := Settle(s.messages, s.deliveries[phase.delivery].message, Acked, applied))
  }

  function SetPublisher(s: State, p: nat, phase: Publisher): State {
    s.(publishers := s.publishers[p := phase])
  }

  function ExecSelect(s: State, p: nat): State {
    if PublisherAt(s, p).Resting? then SetPublisher(s, p, Batch(SelectBatch(s.tables.outbox))) else s
  }

  function ExecPublish(cfg: Config, s: State, p: nat, outcome: PublishOutcome): State {
    var phase := PublisherAt(s, p);
    if !phase.Batch? then s
    else if phase.rows == [] || Oversized(cfg.size, phase.rows[0]) || outcome.Refused? then
      SetPublisher(s, p, Resting)
    else
      var row := phase.rows[0];
      SetPublisher(s, p, if outcome.acked then Unmarked(row, phase.rows[1..]) else Resting)
      .(events := StoreEvent(s.events, EventOf(row), outcome.inWindow))
  }

  function ExecMark(s: State, p: nat, stamp: int, outcome: MarkOutcome): State {
    var phase := PublisherAt(s, p);
    if !phase.Unmarked? then s
    else
      var marked := if outcome == MarkFails(false) then s.tables.outbox
                    else MarkRow(s.tables.outbox, phase.row.eventId, stamp);
      SetPublisher(s, p, if outcome.Marked? then Batch(phase.rest) else Resting)
      .(tables := s.tables.(outbox := marked))
  }

  function ExecCreate(s: State, row: AlertRow): State {
    if exists i | 0 <= i < |s.alerts| :: s.alerts[i].rule.id == row.rule.id then s
    else s.(alerts := s.alerts + [row])
  }

  function Exec(cfg: Config, s: State, a: Action): State {
    match a
    case Tick(ms) => if s.clock + ms <= 0xFFFF_FFFF_FFFF_FFFF then s.(clock := s.clock + ms) else s
    case CreateAlert(row) => ExecCreate(s, row)
    case Produce(bytes, body) => s.(messages := s.messages + [Message(bytes, body, Open, 0, 0)])
    case Deliver(m) => ExecDeliver(s, m)
    case Take(c, d) => ExecTake(s, c, d)
    case Judge(c, applied) => ExecJudge(cfg, s, c, applied)
    case ReadRules(c, kind) => ExecRead(s, c, kind)
    case Commit(c, eventId, stamp, outcome) => ExecCommit(s, c, eventId, stamp, outcome)
    case Acknowledge(c, applied) => ExecAcknowledge(s, c, applied)
    case StopConsumer(c) => SetConsumer(s, c, Idle)
    case Select(p) => ExecSelect(s, p)
    case Publish(p, outcome) => ExecPublish(cfg, s, p, outcome)
    case Mark(p, stamp, outcome) => ExecMark(s, p, stamp, outcome)
    case StopPublisher(p) => SetPublisher(s, p, Resting)
  }

  /** What a step asks of the state; input, time, stops and the alert table ask nothing. */
  predicate Possible(s: State, a: Action) {
    match a
    case Deliver(m) => Deliverable(s, m)
    case Take(c, d) => ConsumerAt(s, c).Idle? && d < |s.deliveries| && !s.deliveries[d].taken
    case Judge(c, _) => ConsumerAt(s, c).Holding?
    case ReadRules(c, _) => ConsumerAt(s, c).Admitted?
    case Commit(c, _, _, _) => ConsumerAt(s, c).Replying?
    case Acknowledge(c, _) => ConsumerAt(s, c).Committed?
    case Select(p) => PublisherAt(s, p).Resting?
    case Publish(p, _) => PublisherAt(s, p).Batch?
    case Mark(p, _, _) => PublisherAt(s, p).Unmarked?
    case _ => true
  }

  /** A step that is not possible leaves the state as it is. */
  lemma ImpossibleStepsDoNothing(cfg: Config, s: State, a: Action)
    requires !Possible(s, a)
    ensures Exec(cfg, s, a) == s
  {
  }

  /** The state after a sequence of actions, the last one last. */
  function RunFrom(cfg: Config, s: State, run: seq<Action>): State {
    if run == [] then s
    else Exec(cfg, RunFrom(cfg, s, run[..|run| - 1]), run[|run| - 1])
  }

  function Run(cfg: Config, run: seq<Action>): State {
    RunFrom(cfg, INITIAL, run)
  }

  lemma {:induction false} RunConcat(cfg: Config, s: State, first: seq<Action>, second: seq<Action>)
    ensures RunFrom(cfg, s, first + second) == RunFrom(cfg, RunFrom(cfg, s, first), second)
  {
    if second == [] {
      assert first + second == first;
    } else {
      var n := |second| - 1;
      RunConcat(cfg, s, first, second[..n]);
      assert (first + second)[..|first + second| - 1] == first + second[..n];
    }
  }

  lemma RunOne(cfg: Config, s: State, a: Action)
    ensures RunFrom(cfg, s, [a]) == Exec(cfg, s, a)
  {
    assert [a][..0] == [];
    assert RunFrom(cfg, s, []) == s;
  }

  lemma RunCons(cfg: Config, s: State, a: Action, rest: seq<Action>)
    ensures RunFrom(cfg, s, [a] + rest) == RunFrom(cfg, Exec(cfg, s, a), rest)
  {
    RunConcat(cfg, s, [a], rest);
    RunOne(cfg, s, a);
  }

  lemma RunTwo(cfg: Config, s: State, a: Action, b: Action)
    ensures RunFrom(cfg, s, [a, b]) == Exec(cfg, Exec(cfg, s, a), b)
  {
    RunCons(cfg, s, a, [b]);
    RunOne(cfg, Exec(cfg, s, a), b);
    assert [a] + [b] == [a, b];
  }

  lemma RunThree(cfg: Config, s: State, a: Action, b: Action, c: Action)
    ensures RunFrom(cfg, s, [a, b, c]) == Exec(cfg, Exec(cfg, Exec(cfg, s, a), b), c)
  {
    RunCons(cfg, s, a, [b, c]);
    RunTwo(cfg, Exec(cfg, s, a), b, c);
    assert [a] + [b, c] == [a, b, c];
  }

  lemma RunFour(cfg: Config, s: State, a: Action, b: Action, c: Action, d: Action)
    ensures RunFrom(cfg, s, [a, b, c, d]) == Exec(cfg, Exec(cfg, Exec(cfg, Exec(cfg, s, a), b), c), d)
  {
    RunConcat(cfg, s, [a, b], [c, d]);
    RunTwo(cfg, s, a, b);
    RunTwo(cfg, RunFrom(cfg, s, [a, b]), c, d);
    assert [a, b] + [c, d] == [a, b, c, d];
  }

  // ----- What no step ever takes back -----

  /** The same outbox row, published at the same time or only later. */
  predicate SameRow(row: OutboxRow, later: OutboxRow) {
    && row.(publishedAt := None) == later.(publishedAt := None)
    && (row.publishedAt.Some? ==> later == row)
  }

  /** The same message; once settled it stays settled. */
  predicate SameMessage(message: Message, later: Message) {
    && later.body == message.body
    && later.bytes == message.bytes
    && (message.disposition.Open? || later.disposition == message.disposition)
  }

  /** `later` keeps everything `s` has durably recorded. */
  ghost predicate Extends(s: State, later: State) {
    && s.clock <= later.clock
    && s.alerts <= later.alerts
    && |s.messages| <= |later.messages|
    && (forall m | 0 <= m < |s.messages| :: SameMessage(s.messages[m], later.messages[m]))
    && |s.deliveries| <= |later.deliveries|
    && (forall d | 0 <= d < |s.deliveries| ::
          later.deliveries[d].message == s.deliveries[d].message && later.deliveries[d].at == s.deliveries[d].at)
    && s.admissions <= later.admissions
    && s.tables.inbox <= later.tables.inbox
    && |s.tables.outbox| <= |later.tables.outbox|
    && (forall i | 0 <= i < |s.tables.outbox| :: SameRow(s.tables.outbox[i], later.tables.outbox[i]))
    && s.events <= later.events
  }
}
