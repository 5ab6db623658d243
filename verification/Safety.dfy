/** The protocol's guarantees, for every run: any interleaving, any faults, any number of servers. */
module Safety {
  import opened Common
  import opened Identifiers
  import opened Command
  import opened AlertStore
  import opened Transport
  import opened Outbox
  import opened Protocol
  import opened Durability
  import opened Inbound
  import opened Outbound
  import opened Timing

  // ----- Where inbox rows come from -----

  /** The inbox row of a command. */
  predicate RowOf(row: InboxRow, c: AsyncCommand) {
    && row.eventId == c.eventId
    && row.correlationId == c.correlationId
    && row.dedupeKey == c.dedupeKey
    && row.productTenant == c.productTenant
    && ParseUuid(c.operation.actorSubject) == Some(row.actorSubject)
  }

  ghost predicate Origin(messages: seq<Message>, row: InboxRow) {
    exists m | 0 <= m < |messages| :: messages[m].body.Some? && RowOf(row, messages[m].body.value)
  }

  ghost predicate OriginInv(s: State) {
    forall i | 0 <= i < |s.tables.inbox| :: Origin(s.messages, s.tables.inbox[i])
  }

  lemma OriginFrame(s: State, later: State)
    requires OriginInv(s) && Extends(s, later)
    requires forall i | |s.tables.inbox| <= i < |later.tables.inbox| :: Origin(later.messages, later.tables.inbox[i])
    ensures OriginInv(later)
  {
  }

  lemma CommitKeepsOrigin(s: State, c: nat, eventId: Uuid, stamp: int, result: CommitKind)
    requires OriginInv(s)
    ensures OriginInv(ExecCommit(s, c, eventId, stamp, result))
  {
  }

  lemma StepKeepsOrigin(cfg: Config, s: State, a: Action)
    requires OriginInv(s)
    ensures OriginInv(Exec(cfg, s, a))
  {
    if a.Commit? {
      CommitKeepsOrigin(s, a.consumer, a.eventId, a.stamp, a.result);
    } else {
      StepExtends(cfg, s, a);
      OriginFrame(s, Exec(cfg, s, a));
    }
  }

  /** The alert table keeps its primary key. */
  lemma StepKeepsIds(cfg: Config, s: State, a: Action)
    requires DistinctIds(s.alerts)
    ensures DistinctIds(Exec(cfg, s, a).alerts)
  {
    if !a.CreateAlert? {
      assert Exec(cfg, s, a).alerts == s.alerts;
    }
  }

  // ----- The invariant -----

  ghost predicate Inv(cfg: Config, s: State) {
    && Consistent(s.tables)
    && InboundInv(cfg, s)
    && OutboundInv(cfg, s)
    && DistinctIds(s.alerts)
    && TimingInv(cfg, s)
    && OriginInv(s)
  }

  lemma StepKeepsInv(cfg: Config, s: State, a: Action)
    requires Inv(cfg, s)
    ensures Inv(cfg, Exec(cfg, s, a))
  {
    StepKeepsConsistent(cfg, s, a);
    StepKeepsInbound(cfg, s, a);
    StepKeepsOutbound(cfg, s, a);
    StepKeepsIds(cfg, s, a);
    StepKeepsTiming(cfg, s, a);
    StepKeepsOrigin(cfg, s, a);
  }

  lemma {:induction false} RunKeepsInv(cfg: Config, s: State, run: seq<Action>)
    requires Inv(cfg, s)
    ensures Inv(cfg, RunFrom(cfg, s, run))
  {
    if run != [] {
      var n := |run| - 1;
      RunKeepsInv(cfg, s, run[..n]);
      StepKeepsInv(cfg, RunFrom(cfg, s, run[..n]), run[n]);
    }
  }

  /** Every state of every run satisfies the invariant. */
  lemma EveryRunIsSafe(cfg: Config, run: seq<Action>)
    ensures Inv(cfg, Run(cfg, run))
  {
    assert Inv(cfg, INITIAL);
    RunKeepsInv(cfg, INITIAL, run);
  }

  // ----- Inbox, outbox and status -----

  ghost function CorrelationIds(inbox: seq<InboxRow>): set<Uuid> {
    set i | 0 <= i < |inbox| :: inbox[i].correlationId
  }

  lemma {:induction false} CorrelationCount(inbox: seq<InboxRow>)
    requires UniqueInbox(inbox)
    ensures |CorrelationIds(inbox)| == |inbox|
  {
    if inbox != [] {
      var n := |inbox| - 1;
      CorrelationCount(inbox[..n]);
      assert CorrelationIds(inbox) == CorrelationIds(inbox[..n]) + {inbox[n].correlationId};
      assert forall i | 0 <= i < n :: inbox[i].correlationId != inbox[n].correlationId;
    }
  }

  /**
   * In every run the three tables have equally many rows, and the i-th committed command has its inbox
   * row, its reply under `"reply:" + dedupe key` and its status row, agreeing on correlation id, tenant,
   * actor and status; all keys are unique and all CHECK constraints hold.
   */
  lemma TablesCorrespond(cfg: Config, run: seq<Action>)
    ensures var t := Run(cfg, run).tables;
            && |t.inbox| == |t.outbox| == |t.status|
            && UniqueInbox(t.inbox) && UniqueOutbox(t.outbox)
            && t.status.Keys == CorrelationIds(t.inbox)
            && forall i | 0 <= i < |t.inbox| ::
                 t.inbox[i].correlationId in t.status
                 && Paired(t.inbox[i], t.outbox[i], t.status[t.inbox[i].correlationId])
                 && 1 <= |t.inbox[i].dedupeKey| <= 128 && 1 <= |t.inbox[i].productTenant| <= 64
                 && 1 <= |t.outbox[i].dedupeKey| <= 134 && 1 <= |t.outbox[i].subject| <= 256
  {
    EveryRunIsSafe(cfg, run);
    var t := Run(cfg, run).tables;
    CorrelationCount(t.inbox);
    assert t.status.Keys == CorrelationIds(t.inbox) by {
      forall id | id in t.status.Keys
        ensures id in CorrelationIds(t.inbox)
      {
        assert HasCorrelation(t.inbox, id);
      }
    }
  }

  /**
   * Whenever a consumer is about to commit, its transaction either finds the command recorded and
   * changes nothing, or adds one row to each table. The outbox conflict clause and the status update
   * branch are never taken, and only a repeated random event id can make the transaction fail.
   */
  lemma ConflictClausesNeverApply(cfg: Config, run: seq<Action>, c: nat, eventId: Uuid, stamp: int)
    requires ConsumerAt(Run(cfg, run), c).Replying?
    ensures var s := Run(cfg, run);
            var phase := ConsumerAt(s, c);
            BodyOf(s, phase.delivery).Some? &&
            var body := BodyOf(s, phase.delivery).value;
            var after := Process(s.tables, body, phase.reply, eventId, stamp);
            && (Recorded(s.tables.inbox, body) ==> after == Some(s.tables))
            && (!Recorded(s.tables.inbox, body) ==>
                  && !HasReplyKey(s.tables.outbox, ReplyKey(body.dedupeKey))
                  && body.correlationId !in s.tables.status
                  && (after.None? <==> HasEventId(s.tables.outbox, eventId)))
  {
    EveryRunIsSafe(cfg, run);
    var s := Run(cfg, run);
    var phase := ConsumerAt(s, c);
    ConsumerAtOk(cfg, s, c);
    var body := BodyOf(s, phase.delivery).value;
    AdmittedIsWellShaped(cfg.gate, body, phase.at);
    ProcessExactly(s.tables, body, phase.reply, eventId, stamp);
    if !Recorded(s.tables.inbox, body) {
      NewCommandMeetsNoConflict(s.tables, body);
    }
  }

  // ----- The event stream -----

  /** The event carries this reply to its tenant's subject. */
  predicate Carries(inbox: InboxRow, outbox: OutboxRow, event: Event) {
    && event.messageId == "reply:" + inbox.dedupeKey && event.messageId == outbox.dedupeKey
    && event.subject == "eal.event." + inbox.productTenant + ".v1" && event.subject == outbox.subject
    && event.payload == outbox.payload
    && event.payload.correlationId == inbox.correlationId && event.payload.productTenant == inbox.productTenant
    && event.payload.dedupeKey == event.messageId && event.payload.subject == event.subject
  }

  lemma EventCarries(t: Tables, i: nat, event: Event)
    requires Consistent(t) && i < |t.outbox| && EventOf(t.outbox[i]) == event
    ensures i < |t.inbox| && Carries(t.inbox[i], t.outbox[i], event)
  {
    assert Paired(t.inbox[i], t.outbox[i], t.status[t.inbox[i].correlationId]);
  }

  ghost predicate CarriesSome(t: Tables, event: Event) {
    |t.inbox| == |t.outbox| && exists i :: 0 <= i < |t.outbox| && Carries(t.inbox[i], t.outbox[i], event)
  }

  ghost predicate IsCarried(t: Tables, i: nat, events: seq<Event>) {
    i < |t.outbox| && i < |t.inbox| && exists e :: 0 <= e < |events| && Carries(t.inbox[i], t.outbox[i], events[e])
  }

  lemma EventCarriesSome(cfg: Config, t: Tables, event: Event)
    requires Consistent(t) && Accounted(cfg, t.outbox, event)
    ensures CarriesSome(t, event) && cfg.size(event.payload) <= 262_144
  {
    var i :| 0 <= i < |t.outbox| && EventOf(t.outbox[i]) == event && !Oversized(cfg.size, t.outbox[i]);
    EventCarries(t, i, event);
  }

  lemma MarkedIsCarried(t: Tables, i: nat, events: seq<Event>)
    requires Consistent(t) && i < |t.outbox| && EventOf(t.outbox[i]) in events
    ensures IsCarried(t, i, events)
  {
    var e :| 0 <= e < |events| && events[e] == EventOf(t.outbox[i]);
    EventCarries(t, i, events[e]);
  }

  /**
   * In every run, with stale batches: each message of the event stream carries the reply of a committed
   * command, under `"reply:"` and its dedupe key, on its tenant's subject, with the payload of its
   * outbox row and within 256 KiB; and each row marked published has such a message.
   */
  lemma EventsCarryReplies(cfg: Config, run: seq<Action>)
    ensures var s := Run(cfg, run);
            && (forall e | 0 <= e < |s.events| ::
                  CarriesSome(s.tables, s.events[e]) && cfg.size(s.events[e].payload) <= 262_144)
            && (forall i | 0 <= i < |s.tables.outbox| && s.tables.outbox[i].publishedAt.Some? ::
                  IsCarried(s.tables, i, s.events))
  {
    EveryRunIsSafe(cfg, run);
    var s := Run(cfg, run);
    forall e | 0 <= e < |s.events|
      ensures CarriesSome(s.tables, s.events[e]) && cfg.size(s.events[e].payload) <= 262_144
    {
      EventCarriesSome(cfg, s.tables, s.events[e]);
    }
    forall i | 0 <= i < |s.tables.outbox| && s.tables.outbox[i].publishedAt.Some?
      ensures IsCarried(s.tables, i, s.events)
    {
      MarkedIsCarried(s.tables, i, s.events);
    }
  }

  /**
   * With any number of publishers working from stale batches: a row marked published has its exact
   * payload on the stream, every message on the stream comes from an outbox row, and two messages
   * with the same message id or the same correlation id are the same message.
   */
  lemma StreamMatchesOutbox(cfg: Config, run: seq<Action>)
    ensures var s := Run(cfg, run);
            && (forall i | 0 <= i < |s.tables.outbox| && s.tables.outbox[i].publishedAt.Some? ::
                  EventOf(s.tables.outbox[i]) in s.events)
            && (forall e | 0 <= e < |s.events| :: Accounted(cfg, s.tables.outbox, s.events[e]))
            && (forall d, e | 0 <= d < |s.events| && 0 <= e < |s.events| ::
                  s.events[d].messageId == s.events[e].messageId
                  || s.events[d].payload.correlationId == s.events[e].payload.correlationId ==>
                  s.events[d] == s.events[e])
  {
    EveryRunIsSafe(cfg, run);
    var s := Run(cfg, run);
    forall d, e | 0 <= d < |s.events| && 0 <= e < |s.events|
      ensures s.events[d].messageId == s.events[e].messageId
              || s.events[d].payload.correlationId == s.events[e].payload.correlationId ==>
              s.events[d] == s.events[e]
    {
      SameKeySameEvent(cfg, s.tables, s.events[d], s.events[e]);
    }
  }

  lemma SameKeySameEvent(cfg: Config, t: Tables, d: Event, e: Event)
    requires Consistent(t) && Accounted(cfg, t.outbox, d) && Accounted(cfg, t.outbox, e)
    ensures d.messageId == e.messageId || d.payload.correlationId == e.payload.correlationId ==> d == e
  {
  }

  // ----- Acknowledged commands -----

  predicate CommandsShareKey(c: AsyncCommand, d: AsyncCommand) {
    c.eventId == d.eventId || c.correlationId == d.correlationId || c.dedupeKey == d.dedupeKey
  }

  /** Producers never give two different commands the same event id, correlation id or dedupe key. */
  ghost predicate KeysIdentifyCommands(messages: seq<Message>) {
    forall m, n | 0 <= m < |messages| && 0 <= n < |messages| && messages[m].body.Some? && messages[n].body.Some? ::
      CommandsShareKey(messages[m].body.value, messages[n].body.value) ==> messages[m].body == messages[n].body
  }

  /** Command `c` was committed by the `i`-th transaction, with its own reply and status. */
  ghost predicate Answered(t: Tables, c: AsyncCommand, i: nat) {
    && i < |t.inbox| == |t.outbox|
    && RowOf(t.inbox[i], c)
    && t.outbox[i].correlationId == c.correlationId
    && t.outbox[i].dedupeKey == ReplyKey(c.dedupeKey)
    && t.outbox[i].subject == ReplySubject(c.productTenant)
    && c.correlationId in t.status
    && t.status[c.correlationId].status == t.outbox[i].payload.reply.status
  }

  lemma RecordedIsAnswered(s: State, m: nat)
    requires Consistent(s.tables) && OriginInv(s) && KeysIdentifyCommands(s.messages)
    requires m < |s.messages| && s.messages[m].body.Some? && Recorded(s.tables.inbox, s.messages[m].body.value)
    ensures exists i :: Answered(s.tables, s.messages[m].body.value, i)
  {
    var c := s.messages[m].body.value;
    var i :| 0 <= i < |s.tables.inbox| && SharesKey(s.tables.inbox[i], c);
    assert Origin(s.messages, s.tables.inbox[i]);
    var n :| 0 <= n < |s.messages| && s.messages[n].body.Some?
             && RowOf(s.tables.inbox[i], s.messages[n].body.value);
    assert CommandsShareKey(s.messages[n].body.value, c);
    assert RowOf(s.tables.inbox[i], c);
    assert Paired(s.tables.inbox[i], s.tables.outbox[i], s.tables.status[s.tables.inbox[i].correlationId]);
    assert Answered(s.tables, c, i);
  }

  /**
   * An acknowledged message is a command with at least one of its three keys in the inbox; if keys
   * identify commands, it has its own committed reply and status.
   */
  lemma AcknowledgedMeansAnswered(cfg: Config, run: seq<Action>, m: nat)
    requires m < |Run(cfg, run).messages| && Run(cfg, run).messages[m].disposition.Acked?
    ensures var s := Run(cfg, run);
            && s.messages[m].body.Some?
            && Recorded(s.tables.inbox, s.messages[m].body.value)
            && (KeysIdentifyCommands(s.messages) ==>
                  exists i :: Answered(s.tables, s.messages[m].body.value, i))
  {
    EveryRunIsSafe(cfg, run);
    var s := Run(cfg, run);
    assert AckJustified(s, m);
    if KeysIdentifyCommands(s.messages) {
      RecordedIsAnswered(s, m);
    }
  }

  lemma RowDeterminesReply(t: Tables, c: AsyncCommand, i: nat)
    requires Consistent(t) && i < |t.inbox| && RowOf(t.inbox[i], c)
    ensures Answered(t, c, i)
  {
  }

  /**
   * Once committed, a command keeps its reply and its status through everything that may follow:
   * crashes, redeliveries, even a redelivery that the gate terminates.
   */
  lemma CommittedReplyIsKept(cfg: Config, run: seq<Action>, more: seq<Action>, c: AsyncCommand, i: nat)
    requires Answered(Run(cfg, run).tables, c, i)
    ensures var before, after := Run(cfg, run).tables, Run(cfg, run + more).tables;
            && Answered(after, c, i)
            && after.inbox[i] == before.inbox[i]
            && EventOf(after.outbox[i]) == EventOf(before.outbox[i])
            && (before.outbox[i].publishedAt.Some? ==> after.outbox[i] == before.outbox[i])
            && after.status[c.correlationId].status == before.status[c.correlationId].status
  {
    EveryRunIsSafe(cfg, run + more);
    var before, after := Run(cfg, run), Run(cfg, run + more);
    RunConcat(cfg, INITIAL, run, more);
    RunExtends(cfg, before, more);
    assert SameRow(before.tables.outbox[i], after.tables.outbox[i]);
    RowDeterminesReply(after.tables, c, i);
  }

  // ----- Admissions -----

  /** In every run two admissions of one command are at most 15 seconds apart, whichever servers made them. */
  lemma AdmissionsStayClose(cfg: Config, run: seq<Action>, k1: nat, k2: nat)
    requires var s := Run(cfg, run);
             && k1 < |s.admissions| && k2 < |s.admissions|
             && BodyOf(s, s.admissions[k1].delivery) == BodyOf(s, s.admissions[k2].delivery)
    ensures var s := Run(cfg, run);
            && s.admissions[k2].at - s.admissions[k1].at <= MAX_OPERATION_DEADLINE_MS
            && s.admissions[k1].at - s.admissions[k2].at <= MAX_OPERATION_DEADLINE_MS
  {
    EveryRunIsSafe(cfg, run);
    AdmissionsWithinWindow(cfg, Run(cfg, run), k1, k2);
    AdmissionsWithinWindow(cfg, Run(cfg, run), k2, k1);
  }

  /** In every run a message admitted on two deliveries had waited at least 15 seconds on the first. */
  lemma PromptCommandsAreAdmittedOnce(cfg: Config, run: seq<Action>, k1: nat, k2: nat)
    requires var s := Run(cfg, run);
             && k1 < |s.admissions| && k2 < |s.admissions|
             && s.admissions[k1].delivery < s.admissions[k2].delivery < |s.deliveries|
             && s.deliveries[s.admissions[k1].delivery].message == s.deliveries[s.admissions[k2].delivery].message
    ensures var s := Run(cfg, run);
            s.admissions[k1].at >= s.deliveries[s.admissions[k1].delivery].at + 15_000
  {
    EveryRunIsSafe(cfg, run);
    ReadmissionNeedsDelay(cfg, Run(cfg, run), k1, k2);
  }
}
