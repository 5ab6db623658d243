/** The consumer's loop, executed alone, is a run of the protocol with the same tables and answers. */
module ConsumerRuns {
  import opened Common
  import opened Command
  import opened Wire
  import opened Transport
  import opened Protocol
  import opened Consumer

  // ----- One message -----

  function CommitKindOf(fault: TxFault): CommitKind {
    if fault.CommitFails? then Unknown(fault.applied) else Commits
  }

  /** The message stops the server before the gate: its text parses, but the clock cannot be read. */
  predicate Clockless(a: Arrival) {
    a.bytes <= MAX_NATS_PAYLOAD_BYTES && a.body.Some? && a.now.None?
  }

  /** The steps a consumer takes for a message it holds, with whatever fault hits its transaction. */
  function MessageActions(t: Tables, c: nat, a: Arrival, kind: ReadKind): seq<Action> {
    if Clockless(a) then [StopConsumer(c)]
    else if a.body.Some? && Interrupts(t, a.body.value, a.fault) then [Judge(c, a.ackSent), StopConsumer(c)]
    else [Judge(c, a.ackSent), ReadRules(c, kind), Commit(c, a.eventId, a.stamp, CommitKindOf(a.fault)),
          Acknowledge(c, a.ackSent)]
  }

  /** The arrival describes delivery `d` as it is now, and the query result it would get. */
  ghost predicate Describes(s: State, d: nat, a: Arrival, kind: ReadKind) {
    && d < |s.deliveries|
    && var m := s.deliveries[d].message;
    && m < |s.messages|
    && a.bytes == s.messages[m].bytes && a.body == s.messages[m].body
    && (a.now.Some? ==> a.now.value == s.clock)
    && (a.body.Some? && ActorOf(a.body.value).Some? ==>
          a.read == ReadOutcomeOf(s.alerts, ActorOf(a.body.value).value, kind))
  }

  /** Everything that handling a message leaves alone. */
  ghost predicate RestUnchanged(s: State, later: State, c: nat) {
    && later.clock == s.clock && later.alerts == s.alerts && later.deliveries == s.deliveries
    && later.events == s.events && later.publishers == s.publishers
    && |later.messages| == |s.messages|
    && (forall x | x != c :: ConsumerAt(later, x) == ConsumerAt(s, x))
  }

  lemma RefusedMessage(cfg: Config, s: State, c: nat, a: Arrival, kind: ReadKind)
    requires ConsumerAt(s, c).Holding? && Describes(s, ConsumerAt(s, c).delivery, a, kind)
    requires !Clockless(a) && !Accepts(cfg.gate, a)
    ensures var later := ExecJudge(cfg, s, c, a.ackSent);
            && ConsumerAt(later, c).Idle? && later.tables == s.tables && RestUnchanged(s, later, c)
            && later.messages == Settle(s.messages, s.deliveries[ConsumerAt(s, c).delivery].message,
                                        Terminated, a.ackSent)
            && SetConsumer(later, c, Idle) == later
  {
  }

  lemma IdleStepsDoNothing(s: State, c: nat, a: Arrival, kind: ReadKind, result: CommitKind)
    requires ConsumerAt(s, c).Idle?
    ensures ExecAcknowledge(ExecCommit(ExecRead(s, c, kind), c, a.eventId, a.stamp, result), c, a.ackSent) == s
  {
  }

  lemma AcceptedMessage(cfg: Config, s: State, c: nat, a: Arrival, kind: ReadKind)
    requires ConsumerAt(s, c).Holding? && Describes(s, ConsumerAt(s, c).delivery, a, kind) && Accepts(cfg.gate, a)
    ensures var later := ExecJudge(cfg, s, c, a.ackSent);
            && ConsumerAt(later, c) == Admitted(ConsumerAt(s, c).delivery, s.clock)
            && BodyOf(later, ConsumerAt(s, c).delivery) == a.body
            && later.tables == s.tables && later.messages == s.messages && RestUnchanged(s, later, c)
  {
  }

  lemma QueryForMessage(cfg: Config, s: State, c: nat, d: nat, at: U64, a: Arrival, kind: ReadKind)
    requires ConsumerAt(s, c) == Admitted(d, at) && a.body.Some? && BodyOf(s, d) == a.body
    requires Admits(cfg.gate, a.body.value, at)
    requires ActorOf(a.body.value).Some? ==>
               a.read == ReadOutcomeOf(s.alerts, ActorOf(a.body.value).value, kind)
    ensures var later := ExecRead(s, c, kind);
            && ConsumerAt(later, c) == Replying(d, at, ReplyTo(a.body.value.correlationId, a.read))
            && BodyOf(later, d) == a.body
            && later.tables == s.tables && later.messages == s.messages && RestUnchanged(s, later, c)
  {
    AdmittedIsWellShaped(cfg.gate, a.body.value, at);
  }

  lemma CommitForMessage(s: State, c: nat, body: AsyncCommand, a: Arrival)
    requires ConsumerAt(s, c).Replying? && BodyOf(s, ConsumerAt(s, c).delivery) == Some(body)
    requires !Interrupts(s.tables, body, a.fault)
    ensures var phase := ConsumerAt(s, c);
            var tx := Transact(s.tables, body, phase.reply, a.eventId, a.stamp, a.fault);
            var later := ExecCommit(s, c, a.eventId, a.stamp, CommitKindOf(a.fault));
            && later.tables == tx.0 && later.messages == s.messages && RestUnchanged(s, later, c)
            && ConsumerAt(later, c) == if tx.1 then Committed(phase.delivery, phase.at) else Idle
  {
  }

  lemma AcknowledgeMessage(s: State, c: nat, applied: bool)
    requires ConsumerAt(s, c).Idle? || (ConsumerAt(s, c).Committed? && ConsumerAt(s, c).delivery < |s.deliveries|)
    ensures var later := ExecAcknowledge(s, c, applied);
            && ConsumerAt(later, c).Idle? && later.tables == s.tables && RestUnchanged(s, later, c)
            && later.messages == if ConsumerAt(s, c).Idle? then s.messages
                                 else Settle(s.messages, s.deliveries[ConsumerAt(s, c).delivery].message, Acked, applied)
  {
  }

  /** From the reply on: commit, then acknowledge if the server learns of the commit. */
  lemma CommitAndAcknowledge(s: State, c: nat, body: AsyncCommand, a: Arrival)
    requires ConsumerAt(s, c).Replying? && BodyOf(s, ConsumerAt(s, c).delivery) == Some(body)
    requires !Interrupts(s.tables, body, a.fault)
    ensures var phase := ConsumerAt(s, c);
            var tx := Transact(s.tables, body, phase.reply, a.eventId, a.stamp, a.fault);
            var later := ExecAcknowledge(ExecCommit(s, c, a.eventId, a.stamp, CommitKindOf(a.fault)), c, a.ackSent);
            && later.tables == tx.0 && ConsumerAt(later, c).Idle? && RestUnchanged(s, later, c)
            && later.messages == Settle(s.messages, s.deliveries[phase.delivery].message, Acked, a.ackSent && tx.1)
  {
    var committed := ExecCommit(s, c, a.eventId, a.stamp, CommitKindOf(a.fault));
    CommitForMessage(s, c, body, a);
    AcknowledgeMessage(committed, c, a.ackSent);
    RestUnchangedTwice(s, committed, ExecAcknowledge(committed, c, a.ackSent), c);
  }

  /**
   * What the answer does to the broker's messages: an answer settles message `m` that way, if it was open,
   * and touches no other; without an answer nothing changes.
   */
  ghost predicate Disposed(messages: seq<Message>, later: seq<Message>, m: nat, answer: Option<Disposition>) {
    && m < |messages| && |later| == |messages|
    && (forall x | 0 <= x < |messages| && x != m :: later[x] == messages[x])
    && (answer.Some? && messages[m].disposition.Open? ==> later[m] == messages[m].(disposition := answer.value))
    && (answer.None? || !messages[m].disposition.Open? ==> later[m] == messages[m])
  }

  /** What handling message `m` did: tables, the broker's record and the consumer's return to rest. */
  ghost predicate Handled(s: State, later: State, c: nat, m: nat, result: (Tables, Option<Disposition>)) {
    && later.tables == result.0
    && Disposed(s.messages, later.messages, m, result.1)
    && ConsumerAt(later, c).Idle?
    && RestUnchanged(s, later, c)
  }

  lemma RestUnchangedTwice(s: State, mid: State, later: State, c: nat)
    requires RestUnchanged(s, mid, c) && RestUnchanged(mid, later, c)
    ensures RestUnchanged(s, later, c)
  {
  }

  lemma WholeMessage(cfg: Config, s: State, c: nat, a: Arrival, kind: ReadKind)
    requires ConsumerAt(s, c).Holding? && Describes(s, ConsumerAt(s, c).delivery, a, kind)
    requires Accepts(cfg.gate, a) && !Interrupts(s.tables, a.body.value, a.fault)
    ensures var m := s.deliveries[ConsumerAt(s, c).delivery].message;
            var replying := ExecRead(ExecJudge(cfg, s, c, a.ackSent), c, kind);
            var later := ExecAcknowledge(ExecCommit(replying, c, a.eventId, a.stamp, CommitKindOf(a.fault)), c, a.ackSent);
            Handled(s, later, c, m, Handle(cfg.gate, s.tables, a))
  {
    var d := ConsumerAt(s, c).delivery;
    var judged := ExecJudge(cfg, s, c, a.ackSent);
    AcceptedMessage(cfg, s, c, a, kind);
    QueryForMessage(cfg, judged, c, d, s.clock, a, kind);
    var replying := ExecRead(judged, c, kind);
    CommitAndAcknowledge(replying, c, a.body.value, a);
    RestUnchangedTwice(s, judged, replying, c);
    var committed := ExecCommit(replying, c, a.eventId, a.stamp, CommitKindOf(a.fault));
    RestUnchangedTwice(s, replying, ExecAcknowledge(committed, c, a.ackSent), c);
  }

  lemma StoppedMessage(cfg: Config, s: State, c: nat, a: Arrival, kind: ReadKind)
    requires ConsumerAt(s, c).Holding? && Describes(s, ConsumerAt(s, c).delivery, a, kind)
    requires Accepts(cfg.gate, a) && Interrupts(s.tables, a.body.value, a.fault)
    ensures var m := s.deliveries[ConsumerAt(s, c).delivery].message;
            Handled(s, SetConsumer(ExecJudge(cfg, s, c, a.ackSent), c, Idle), c, m, Handle(cfg.gate, s.tables, a))
  {
    AcceptedMessage(cfg, s, c, a, kind);
  }

  lemma ClocklessIsARun(cfg: Config, s: State, c: nat, a: Arrival, m: nat)
    requires ConsumerAt(s, c).Holding? && Clockless(a) && m < |s.messages|
    ensures Handled(s, RunFrom(cfg, s, [StopConsumer(c)]), c, m, Handle(cfg.gate, s.tables, a))
  {
    RunOne(cfg, s, StopConsumer(c));
  }

  lemma InterruptedIsARun(cfg: Config, s: State, c: nat, a: Arrival, kind: ReadKind)
    requires ConsumerAt(s, c).Holding? && Describes(s, ConsumerAt(s, c).delivery, a, kind) && !Clockless(a)
    requires a.body.Some? && Interrupts(s.tables, a.body.value, a.fault)
    ensures Handled(s, RunFrom(cfg, s, [Judge(c, a.ackSent), StopConsumer(c)]), c,
                    s.deliveries[ConsumerAt(s, c).delivery].message, Handle(cfg.gate, s.tables, a))
  {
    RunTwo(cfg, s, Judge(c, a.ackSent), StopConsumer(c));
    if Accepts(cfg.gate, a) {
      StoppedMessage(cfg, s, c, a, kind);
    } else {
      RefusedMessage(cfg, s, c, a, kind);
    }
  }

  lemma FourStepsAreARun(cfg: Config, s: State, c: nat, a: Arrival, kind: ReadKind)
    ensures RunFrom(cfg, s, [Judge(c, a.ackSent), ReadRules(c, kind),
                             Commit(c, a.eventId, a.stamp, CommitKindOf(a.fault)), Acknowledge(c, a.ackSent)])
         == ExecAcknowledge(ExecCommit(ExecRead(ExecJudge(cfg, s, c, a.ackSent), c, kind),
                                       c, a.eventId, a.stamp, CommitKindOf(a.fault)), c, a.ackSent)
  {
    RunFour(cfg, s, Judge(c, a.ackSent), ReadRules(c, kind), Commit(c, a.eventId, a.stamp, CommitKindOf(a.fault)),
            Acknowledge(c, a.ackSent));
  }

  lemma FourStepsHandle(cfg: Config, s: State, c: nat, a: Arrival, kind: ReadKind)
    requires ConsumerAt(s, c).Holding? && Describes(s, ConsumerAt(s, c).delivery, a, kind) && !Clockless(a)
    requires a.body.Some? ==> !Interrupts(s.tables, a.body.value, a.fault)
    ensures Handled(s, ExecAcknowledge(ExecCommit(ExecRead(ExecJudge(cfg, s, c, a.ackSent), c, kind),
                                                  c, a.eventId, a.stamp, CommitKindOf(a.fault)), c, a.ackSent), c,
                    s.deliveries[ConsumerAt(s, c).delivery].message, Handle(cfg.gate, s.tables, a))
  {
    if Accepts(cfg.gate, a) {
      WholeMessage(cfg, s, c, a, kind);
    } else {
      RefusedMessage(cfg, s, c, a, kind);
      IdleStepsDoNothing(ExecJudge(cfg, s, c, a.ackSent), c, a, kind, CommitKindOf(a.fault));
    }
  }

  /**
   * A consumer that handles the message it holds, with any fault in its transaction, an unreadable
   * clock or a lost acknowledgement, performs a run of the protocol: it leaves the tables the message
   * loop specifies, settles the message by the loop's answer and leaves the consumer idle.
   */
  lemma MessageIsARun(cfg: Config, s: State, c: nat, a: Arrival, kind: ReadKind)
    requires ConsumerAt(s, c).Holding? && Describes(s, ConsumerAt(s, c).delivery, a, kind)
    ensures Handled(s, RunFrom(cfg, s, MessageActions(s.tables, c, a, kind)), c,
                    s.deliveries[ConsumerAt(s, c).delivery].message, Handle(cfg.gate, s.tables, a))
  {
    if Clockless(a) {
      ClocklessIsARun(cfg, s, c, a, s.deliveries[ConsumerAt(s, c).delivery].message);
    } else if a.body.Some? && Interrupts(s.tables, a.body.value, a.fault) {
      InterruptedIsARun(cfg, s, c, a, kind);
    } else {
      FourStepsAreARun(cfg, s, c, a, kind);
      FourStepsHandle(cfg, s, c, a, kind);
    }
  }

  // ----- The loop -----

  /** A delivery together with what happens to its message. */
  datatype Item = Item(delivery: nat, arrival: Arrival, kind: ReadKind)

  function Arrivals(items: seq<Item>): (r: seq<Arrival>)
    ensures |r| == |items|
  {
    seq(|items|, i requires 0 <= i < |items| => items[i].arrival)
  }

  /** The clock when a message is looked at. */
  function ClockAt(clock: U64, a: Arrival): U64 {
    if a.now.Some? then a.now.value else clock
  }

  /** From item `k` on, the times at which messages are judged do not go back. */
  ghost predicate InTime(clock: U64, items: seq<Item>, k: nat)
    requires k <= |items|
    decreases |items| - k
  {
    k == |items| || (clock <= ClockAt(clock, items[k].arrival)
                     && InTime(ClockAt(clock, items[k].arrival), items, k + 1))
  }

  /** The item describes, at its own time, a delivery that nobody has taken up yet. */
  ghost predicate Awaits(s: State, item: Item) {
    && Describes(s.(clock := ClockAt(s.clock, item.arrival)), item.delivery, item.arrival, item.kind)
    && !s.deliveries[item.delivery].taken
  }

  ghost predicate Waiting(s: State, items: seq<Item>, k: nat) {
    && (forall i | k <= i < |items| :: Awaits(s, items[i]))
    && (forall i, j | k <= i < j < |items| :: items[i].delivery != items[j].delivery)
  }

  function TakeUp(clock: U64, c: nat, item: Item): seq<Action>
    requires clock <= ClockAt(clock, item.arrival)
  {
    [Tick(ClockAt(clock, item.arrival) - clock), Take(c, item.delivery)]
  }

  /** The steps of the loop from item `k` on; it ends at the first error. */
  function LoopActions(gate: GateConfig, clock: U64, t: Tables, c: nat, items: seq<Item>, k: nat): seq<Action>
    requires k <= |items| && InTime(clock, items, k)
    decreases |items| - k
  {
    if k == |items| then []
    else
      var a := items[k].arrival;
      var r := Handle(gate, t, a);
      TakeUp(clock, c, items[k])
      + (MessageActions(t, c, a, items[k].kind)
         + if r.1.None? then [] else LoopActions(gate, ClockAt(clock, a), r.0, c, items, k + 1))
  }

  lemma TakeHolds(s: State, c: nat, d: nat, a: Arrival, kind: ReadKind)
    requires ConsumerAt(s, c).Idle? && Describes(s, d, a, kind) && !s.deliveries[d].taken
    ensures var later := ExecTake(s, c, d);
            && later == s.(consumers := later.consumers, deliveries := s.deliveries[d := s.deliveries[d].(taken := true)])
            && ConsumerAt(later, c) == Holding(d) && Describes(later, d, a, kind)
  {
  }

  lemma TickMoves(cfg: Config, s: State, now: U64)
    requires s.clock <= now
    ensures Exec(cfg, s, Tick(now - s.clock)) == s.(clock := now)
  {
  }

  lemma TickAndTake(cfg: Config, s: State, c: nat, item: Item)
    requires s.clock <= ClockAt(s.clock, item.arrival) && ConsumerAt(s, c).Idle? && Awaits(s, item)
    ensures var later := RunFrom(cfg, s, TakeUp(s.clock, c, item));
            && later == s.(clock := ClockAt(s.clock, item.arrival), consumers := later.consumers,
                           deliveries := s.deliveries[item.delivery := s.deliveries[item.delivery].(taken := true)])
            && ConsumerAt(later, c) == Holding(item.delivery)
            && Describes(later, item.delivery, item.arrival, item.kind)
  {
    var now := ClockAt(s.clock, item.arrival);
    RunTwo(cfg, s, Tick(now - s.clock), Take(c, item.delivery));
    TickMoves(cfg, s, now);
    TakeHolds(s.(clock := now), c, item.delivery, item.arrival, item.kind);
  }

  /** `later` differs from `s` only in the clock, in who took delivery `d` and in what was settled. */
  ghost predicate OnlyTook(s: State, later: State, d: nat)
    requires d < |s.deliveries|
  {
    && later.deliveries == s.deliveries[d := s.deliveries[d].(taken := true)]
    && later.alerts == s.alerts && later.events == s.events && later.publishers == s.publishers
    && |later.messages| == |s.messages|
    && forall m | 0 <= m < |s.messages| ::
         later.messages[m].body == s.messages[m].body && later.messages[m].bytes == s.messages[m].bytes
  }

  lemma OtherAwaits(s: State, later: State, d: nat, item: Item)
    requires d < |s.deliveries| && OnlyTook(s, later, d) && item.delivery != d && Awaits(s, item)
    ensures Awaits(later, item)
  {
  }

  /** Handling one message leaves the others waiting. */
  lemma OthersWait(s: State, later: State, items: seq<Item>, k: nat)
    requires k < |items| && Waiting(s, items, k) && OnlyTook(s, later, items[k].delivery)
    ensures Waiting(later, items, k + 1)
  {
    forall i | k + 1 <= i < |items|
      ensures Awaits(later, items[i])
    {
      assert items[k].delivery != items[i].delivery;
      OtherAwaits(s, later, items[k].delivery, items[i]);
    }
  }

  lemma HandledOnlyTook(s: State, held: State, later: State, c: nat, d: nat, m: nat,
                        result: (Tables, Option<Disposition>))
    requires d < |s.deliveries|
    requires held == s.(clock := held.clock, consumers := held.consumers,
                        deliveries := s.deliveries[d := s.deliveries[d].(taken := true)])
    requires Handled(held, later, c, m, result)
    ensures OnlyTook(s, later, d)
  {
  }

  /** The state after the first message of the loop. */
  function AfterFirst(cfg: Config, s: State, c: nat, item: Item): State
    requires s.clock <= ClockAt(s.clock, item.arrival)
  {
    RunFrom(cfg, RunFrom(cfg, s, TakeUp(s.clock, c, item)), MessageActions(s.tables, c, item.arrival, item.kind))
  }

  lemma FirstIsARun(cfg: Config, s: State, c: nat, item: Item)
    requires s.clock <= ClockAt(s.clock, item.arrival) && ConsumerAt(s, c).Idle? && Awaits(s, item)
    ensures var later := AfterFirst(cfg, s, c, item);
            && later.clock == ClockAt(s.clock, item.arrival)
            && later.tables == Handle(cfg.gate, s.tables, item.arrival).0
            && ConsumerAt(later, c).Idle? && OnlyTook(s, later, item.delivery)
  {
    TickAndTake(cfg, s, c, item);
    var held := RunFrom(cfg, s, TakeUp(s.clock, c, item));
    MessageIsARun(cfg, held, c, item.arrival, item.kind);
    HandledOnlyTook(s, held, AfterFirst(cfg, s, c, item), c, item.delivery,
                    held.deliveries[item.delivery].message, Handle(cfg.gate, s.tables, item.arrival));
  }

  lemma LoopSplits(cfg: Config, s: State, c: nat, items: seq<Item>, k: nat)
    requires k < |items| && InTime(s.clock, items, k)
    ensures var a := items[k].arrival;
            var r := Handle(cfg.gate, s.tables, a);
            var rest := if r.1.None? then [] else LoopActions(cfg.gate, ClockAt(s.clock, a), r.0, c, items, k + 1);
            RunFrom(cfg, s, LoopActions(cfg.gate, s.clock, s.tables, c, items, k))
            == RunFrom(cfg, AfterFirst(cfg, s, c, items[k]), rest)
  {
    var a := items[k].arrival;
    var r := Handle(cfg.gate, s.tables, a);
    var rest := if r.1.None? then [] else LoopActions(cfg.gate, ClockAt(s.clock, a), r.0, c, items, k + 1);
    var start, message := TakeUp(s.clock, c, items[k]), MessageActions(s.tables, c, a, items[k].kind);
    RunConcat(cfg, s, start, message + rest);
    RunConcat(cfg, RunFrom(cfg, s, start), message, rest);
  }

  /** What a run of the loop leaves. */
  ghost predicate LoopDone(s: State, later: State, c: nat, t: Tables) {
    && later.tables == t && ConsumerAt(later, c).Idle?
    && later.events == s.events && later.publishers == s.publishers && later.alerts == s.alerts
  }

  lemma {:induction false} LoopFromIsARun(cfg: Config, s: State, c: nat, items: seq<Item>, k: nat)
    requires k <= |items| && ConsumerAt(s, c).Idle? && Waiting(s, items, k) && InTime(s.clock, items, k)
    ensures LoopDone(s, RunFrom(cfg, s, LoopActions(cfg.gate, s.clock, s.tables, c, items, k)), c,
                     LoopFrom(Step(cfg.gate), s.tables, Arrivals(items), k).0)
    decreases |items| - k
  {
    if k < |items| {
      var later := AfterFirst(cfg, s, c, items[k]);
      LoopSplits(cfg, s, c, items, k);
      FirstIsARun(cfg, s, c, items[k]);
      var r := Handle(cfg.gate, s.tables, items[k].arrival);
      assert r == Step(cfg.gate)(s.tables, Arrivals(items)[k]);
      if r.1.Some? {
        OthersWait(s, later, items, k);
        LoopFromIsARun(cfg, later, c, items, k + 1);
      }
    }
  }

  /**
   * The whole loop, with any faults at any message and time passing between messages, is a run of the
   * protocol that ends with exactly the tables the loop leaves, those of the message it failed on included.
   */
  lemma LoopIsARun(cfg: Config, s: State, c: nat, items: seq<Item>)
    requires ConsumerAt(s, c).Idle? && Waiting(s, items, 0) && InTime(s.clock, items, 0)
    ensures var later := RunFrom(cfg, s, LoopActions(cfg.gate, s.clock, s.tables, c, items, 0));
            && later.tables == HandleAll(cfg.gate, s.tables, Arrivals(items)).0
            && ConsumerAt(later, c).Idle?
            && later.events == s.events && later.publishers == s.publishers && later.alerts == s.alerts
  {
    LoopFromIsARun(cfg, s, c, items, 0);
  }
}
