/** The inbox, outbox and status tables, and the transaction that turns an admitted command into a reply. */
module Transport {
  import opened Common
  import opened Text
  import opened Identifiers
  import opened Command
  import opened Rules
  import opened Wire

  datatype InboxRow = InboxRow(
    eventId: Uuid,
    correlationId: Uuid,
    dedupeKey: string,
    productTenant: string,
    actorSubject: Uuid,
    receivedAt: int
  )

  datatype OutboxRow = OutboxRow(
    eventId: Uuid,
    correlationId: Uuid,
    dedupeKey: string,
    subject: string,
    payload: EventEnvelope,
    createdAt: int,
    publishedAt: Option<int>
  )

  datatype StatusRow = StatusRow(productTenant: string, actorSubject: Uuid, status: string, updatedAt: int)

  /** Rows in commit order; the status table is keyed by correlation id. */
  datatype Tables = Tables(inbox: seq<InboxRow>, outbox: seq<OutboxRow>, status: map<Uuid, StatusRow>)

  const EMPTY_TABLES := Tables([], [], map[])

  // ----- CHECK constraints -----

  predicate InboxChecks(row: InboxRow) {
    1 <= |row.dedupeKey| <= 128 && 1 <= |row.productTenant| <= 64
  }

  predicate OutboxChecks(row: OutboxRow) {
    1 <= |row.dedupeKey| <= 134 && 1 <= |row.subject| <= 256
  }

  predicate StatusChecks(row: StatusRow) {
    1 <= |row.productTenant| <= 64 && (row.status == "completed" || row.status == "rejected")
  }

  // ----- The transaction -----

  /** What the alert query inside the transaction gave. */
  datatype ReadOutcome = Read(rules: seq<AlertRule>) | ReadFailed | ReadTimedOut

  function ErrorReply(operationId: Uuid, error: string): OperationReply {
    OperationReply(operationId, "rejected", None, Some(error))
  }

  function ReplyTo(correlationId: Uuid, read: ReadOutcome): OperationReply {
    match read
    case Read(rules) => Completed(correlationId, rules)
    case ReadFailed => ErrorReply(correlationId, "unavailable")
    case ReadTimedOut => ErrorReply(correlationId, "timeout")
  }

  function ReplyKey(dedupeKey: string): string {
    "reply:" + dedupeKey
  }

  function ReplySubject(tenant: string): string {
    "eal.event." + tenant + ".v1"
  }

  function InboxRowOf(c: AsyncCommand, actor: Uuid, now: int): InboxRow {
    InboxRow(c.eventId, c.correlationId, c.dedupeKey, c.productTenant, actor, now)
  }

  function OutboxRowOf(c: AsyncCommand, reply: OperationReply, eventId: Uuid, now: int): OutboxRow {
    var subject := ReplySubject(c.productTenant);
    var key := ReplyKey(c.dedupeKey);
    OutboxRow(
      eventId, c.correlationId, key, subject,
      EventEnvelope(eventId, c.correlationId, key, c.productTenant, subject, reply),
      now, None)
  }

  /** A row and a command that one of the three unique constraints of the inbox would not let coexist. */
  predicate SharesKey(row: InboxRow, c: AsyncCommand) {
    row.eventId == c.eventId || row.correlationId == c.correlationId || row.dedupeKey == c.dedupeKey
  }

  predicate Recorded(inbox: seq<InboxRow>, c: AsyncCommand) {
    exists i | 0 <= i < |inbox| :: SharesKey(inbox[i], c)
  }

  predicate HasCorrelation(inbox: seq<InboxRow>, id: Uuid) {
    exists i | 0 <= i < |inbox| :: inbox[i].correlationId == id
  }

  predicate HasReplyKey(outbox: seq<OutboxRow>, key: string) {
    exists i | 0 <= i < |outbox| :: outbox[i].dedupeKey == key
  }

  predicate HasEventId(outbox: seq<OutboxRow>, eventId: Uuid) {
    exists i | 0 <= i < |outbox| :: outbox[i].eventId == eventId
  }

  /** `INSERT INTO eal_transport_outbox ... ON CONFLICT (dedupe_key) DO NOTHING`; `None` is an error. */
  function InsertOutbox(outbox: seq<OutboxRow>, row: OutboxRow): Option<seq<OutboxRow>> {
    if !OutboxChecks(row) then None
    else if HasReplyKey(outbox, row.dedupeKey) then Some(outbox)
    else if HasEventId(outbox, row.eventId) then None
    else Some(outbox + [row])
  }

  /** `INSERT ... ON CONFLICT (correlation_id) DO UPDATE SET status, updated_at`; `None` is an error. */
  function UpsertStatus(status: map<Uuid, StatusRow>, id: Uuid, row: StatusRow): Option<map<Uuid, StatusRow>> {
    if !StatusChecks(row) then None
    else if id in status then Some(status[id := status[id].(status := row.status, updatedAt := row.updatedAt)])
    else Some(status[id := row])
  }

  /** The tables once the transaction commits; `None` when a statement fails and it rolls back. */
  function Process(t: Tables, c: AsyncCommand, reply: OperationReply, eventId: Uuid, now: int): Option<Tables> {
    var actor := ParseUuid(c.operation.actorSubject);
    if actor.None? then None else
    var row := InboxRowOf(c, actor.value, now);
    if !InboxChecks(row) then None else
    if Recorded(t.inbox, c) then Some(t) else
    var outbox := InsertOutbox(t.outbox, OutboxRowOf(c, reply, eventId, now));
    if outbox.None? then None else
    var status := UpsertStatus(
      t.status, c.correlationId, StatusRow(c.productTenant, actor.value, reply.status, now));
    if status.None? then None else
    Some(Tables(t.inbox + [row], outbox.value, status.value))
  }

  // ----- What the tables always satisfy -----

  /** An inbox row, the outbox row of the same transaction and the status row it left. */
  predicate Paired(inbox: InboxRow, outbox: OutboxRow, row: StatusRow) {
    && BoundedDedupeKey(inbox.dedupeKey) && BoundedTenant(inbox.productTenant)
    && outbox.dedupeKey == ReplyKey(inbox.dedupeKey)
    && outbox.correlationId == inbox.correlationId
    && outbox.subject == ReplySubject(inbox.productTenant)
    && outbox.payload == EventEnvelope(outbox.eventId, inbox.correlationId, outbox.dedupeKey,
                                       inbox.productTenant, outbox.subject, outbox.payload.reply)
    && outbox.payload.reply.operationId == inbox.correlationId
    && row == StatusRow(inbox.productTenant, inbox.actorSubject, outbox.payload.reply.status, row.updatedAt)
    && InboxChecks(inbox) && OutboxChecks(outbox) && StatusChecks(row)
  }

  ghost predicate UniqueInbox(inbox: seq<InboxRow>) {
    forall i, j | 0 <= i < j < |inbox| ::
      && inbox[i].eventId != inbox[j].eventId
      && inbox[i].correlationId != inbox[j].correlationId
      && inbox[i].dedupeKey != inbox[j].dedupeKey
  }

  ghost predicate UniqueOutbox(outbox: seq<OutboxRow>) {
    forall i, j | 0 <= i < j < |outbox| ::
      && outbox[i].eventId != outbox[j].eventId
      && outbox[i].correlationId != outbox[j].correlationId
      && outbox[i].dedupeKey != outbox[j].dedupeKey
  }

  /** Inbox, outbox and status rows correspond one to one, in commit order. */
  ghost predicate Consistent(t: Tables) {
    && |t.inbox| == |t.outbox|
    && UniqueInbox(t.inbox)
    && UniqueOutbox(t.outbox)
    && (forall i | 0 <= i < |t.inbox| ::
          && t.inbox[i].correlationId in t.status
          && Paired(t.inbox[i], t.outbox[i], t.status[t.inbox[i].correlationId]))
    && (forall id | id in t.status :: HasCorrelation(t.inbox, id))
  }

  /** The checks of the gate that the transaction relies on. */
  predicate WellShaped(c: AsyncCommand) {
    && BoundedTenant(c.productTenant)
    && BoundedDedupeKey(c.dedupeKey)
    && ParseUuid(c.operation.actorSubject).Some?
  }

  /** A reply the server can have built for a command. */
  predicate ServerReply(c: AsyncCommand, reply: OperationReply) {
    reply.operationId == c.correlationId && (reply.status == "completed" || reply.status == "rejected")
  }

  lemma AdmittedIsWellShaped(cfg: GateConfig, c: AsyncCommand, now: U64)
    requires Admits(cfg, c, now)
    ensures WellShaped(c)
  {
  }

  lemma ReplyKeyInjective(a: string, b: string)
    requires ReplyKey(a) == ReplyKey(b)
    ensures a == b
  {
    assert ReplyKey(a)[6..] == a && ReplyKey(b)[6..] == b;
  }

  /**
   * For a command that is not recorded yet, the outbox holds no row under its reply key and the
   * status table none under its correlation id: neither conflict clause can apply.
   */
  lemma NewCommandMeetsNoConflict(t: Tables, c: AsyncCommand)
    requires Consistent(t) && !Recorded(t.inbox, c)
    ensures !HasReplyKey(t.outbox, ReplyKey(c.dedupeKey))
    ensures c.correlationId !in t.status
    ensures forall i | 0 <= i < |t.outbox| :: t.outbox[i].correlationId != c.correlationId
  {
    forall i | 0 <= i < |t.outbox|
      ensures t.outbox[i].dedupeKey != ReplyKey(c.dedupeKey) && t.outbox[i].correlationId != c.correlationId
    {
      assert Paired(t.inbox[i], t.outbox[i], t.status[t.inbox[i].correlationId]);
      assert !SharesKey(t.inbox[i], c);
      if t.outbox[i].dedupeKey == ReplyKey(c.dedupeKey) {
        ReplyKeyInjective(t.inbox[i].dedupeKey, c.dedupeKey);
      }
    }
    assert forall i | 0 <= i < |t.inbox| :: !SharesKey(t.inbox[i], c);
  }

  /** Byte bounds of the gate imply the character bounds of the tables. */
  lemma RowsPassChecks(c: AsyncCommand, actor: Uuid, reply: OperationReply, eventId: Uuid, now: int)
    requires WellShaped(c) && ServerReply(c, reply)
    ensures InboxChecks(InboxRowOf(c, actor, now))
    ensures OutboxChecks(OutboxRowOf(c, reply, eventId, now))
    ensures StatusChecks(StatusRow(c.productTenant, actor, reply.status, now))
    ensures 1 <= |c.dedupeKey| <= 128 && 1 <= |c.productTenant| <= 64
    ensures 1 <= |"reply:" + c.dedupeKey| <= 134 && 1 <= |"eal.event." + c.productTenant + ".v1"| <= 256
  {
  }

  /**
   * Exactly when the transaction of any command, well-formed or not, fails on any tables: its subject is
   * not a UUID, its keys do not fit the columns, or, for a new command, the random event id is taken
   * under a new reply key or the status is none of the two.
   */
  lemma ProcessFailsExactly(t: Tables, c: AsyncCommand, reply: OperationReply, eventId: Uuid, now: int)
    ensures Process(t, c, reply, eventId, now).None? <==>
              || ParseUuid(c.operation.actorSubject).None?
              || !(1 <= |c.dedupeKey| <= 128) || !(1 <= |c.productTenant| <= 64)
              || (!Recorded(t.inbox, c) && HasEventId(t.outbox, eventId)
                  && !HasReplyKey(t.outbox, "reply:" + c.dedupeKey))
              || (!Recorded(t.inbox, c) && reply.status != "completed" && reply.status != "rejected")
  {
  }

  /** The conflict clauses: a reply key that is taken leaves the outbox as it is, a status keeps its owner. */
  lemma ConflictClauses(t: Tables, row: OutboxRow, id: Uuid, status: StatusRow)
    requires OutboxChecks(row) && HasReplyKey(t.outbox, row.dedupeKey)
    requires StatusChecks(status) && id in t.status
    ensures InsertOutbox(t.outbox, row) == Some(t.outbox)
    ensures var after := UpsertStatus(t.status, id, status);
            && after.Some? && after.value.Keys == t.status.Keys
            && after.value[id].status == status.status && after.value[id].updatedAt == status.updatedAt
            && after.value[id].productTenant == t.status[id].productTenant
            && after.value[id].actorSubject == t.status[id].actorSubject
            && forall x | x in t.status && x != id :: after.value[x] == t.status[x]
  {
  }

  /**
   * The transaction of an admitted command: a recorded command changes nothing; a new one adds one
   * row to each of the three tables. It fails only if the random event id is already taken.
   */
  lemma ProcessExactly(t: Tables, c: AsyncCommand, reply: OperationReply, eventId: Uuid, now: int)
    requires Consistent(t) && WellShaped(c) && ServerReply(c, reply)
    ensures Recorded(t.inbox, c) ==> Process(t, c, reply, eventId, now) == Some(t)
    ensures !Recorded(t.inbox, c) && HasEventId(t.outbox, eventId) ==> Process(t, c, reply, eventId, now).None?
    ensures !Recorded(t.inbox, c) && !HasEventId(t.outbox, eventId) ==>
              var actor := ParseUuid(c.operation.actorSubject).value;
              var key, subject := "reply:" + c.dedupeKey, "eal.event." + c.productTenant + ".v1";
              Process(t, c, reply, eventId, now) == Some(Tables(
                t.inbox + [InboxRow(c.eventId, c.correlationId, c.dedupeKey, c.productTenant, actor, now)],
                t.outbox + [OutboxRow(eventId, c.correlationId, key, subject,
                                      EventEnvelope(eventId, c.correlationId, key, c.productTenant, subject, reply),
                                      now, None)],
                t.status[c.correlationId := StatusRow(c.productTenant, actor, reply.status, now)]))
  {
    RowsPassChecks(c, ParseUuid(c.operation.actorSubject).value, reply, eventId, now);
    if !Recorded(t.inbox, c) {
      NewCommandMeetsNoConflict(t, c);
    }
  }

  lemma NewRowsArePaired(c: AsyncCommand, actor: Uuid, reply: OperationReply, eventId: Uuid, now: int)
    requires WellShaped(c) && ServerReply(c, reply)
    ensures Paired(InboxRowOf(c, actor, now), OutboxRowOf(c, reply, eventId, now),
                   StatusRow(c.productTenant, actor, reply.status, now))
  {
  }

  /** Adding one matching row to each table, under keys none of them holds, keeps them consistent. */
  lemma AppendKeepsConsistent(t: Tables, inbox: InboxRow, outbox: OutboxRow, row: StatusRow)
    requires Consistent(t)
    requires forall i | 0 <= i < |t.inbox| ::
               && t.inbox[i].eventId != inbox.eventId
               && t.inbox[i].correlationId != inbox.correlationId
               && t.inbox[i].dedupeKey != inbox.dedupeKey
    requires forall i | 0 <= i < |t.outbox| ::
               && t.outbox[i].eventId != outbox.eventId
               && t.outbox[i].correlationId != outbox.correlationId
               && t.outbox[i].dedupeKey != outbox.dedupeKey
    requires Paired(inbox, outbox, row)
    ensures Consistent(Tables(t.inbox + [inbox], t.outbox + [outbox], t.status[inbox.correlationId := row]))
  {
    var t' := Tables(t.inbox + [inbox], t.outbox + [outbox], t.status[inbox.correlationId := row]);
    var n := |t.inbox|;
    forall id | id in t'.status
      ensures HasCorrelation(t'.inbox, id)
    {
      if id == inbox.correlationId {
        assert t'.inbox[n].correlationId == id;
      } else {
        assert HasCorrelation(t.inbox, id);
        var i :| 0 <= i < n && t.inbox[i].correlationId == id;
        assert t'.inbox[i].correlationId == id;
      }
    }
  }

  /** Committing keeps the tables consistent, only adds rows and leaves the command recorded. */
  lemma ProcessKeepsConsistent(t: Tables, c: AsyncCommand, reply: OperationReply, eventId: Uuid, now: int)
    requires Consistent(t) && WellShaped(c) && ServerReply(c, reply)
    requires Process(t, c, reply, eventId, now).Some?
    ensures var t' := Process(t, c, reply, eventId, now).value;
            Consistent(t') && Recorded(t'.inbox, c) && t.inbox <= t'.inbox && t.outbox <= t'.outbox
  {
    ProcessExactly(t, c, reply, eventId, now);
    if !Recorded(t.inbox, c) {
      var actor := ParseUuid(c.operation.actorSubject).value;
      var inbox, outbox := InboxRowOf(c, actor, now), OutboxRowOf(c, reply, eventId, now);
      var row := StatusRow(c.productTenant, actor, reply.status, now);
      NewCommandMeetsNoConflict(t, c);
      NewRowsArePaired(c, actor, reply, eventId, now);
      assert forall i | 0 <= i < |t.inbox| :: !SharesKey(t.inbox[i], c);
      AppendKeepsConsistent(t, inbox, outbox, row);
      assert SharesKey((t.inbox + [inbox])[|t.inbox|], c);
    }
  }

  // ----- Subjects -----

  /** NATS subject matching without the tail wildcard: `*` stands for exactly one token. */
  predicate SubjectMatches(pattern: seq<string>, subject: seq<string>) {
    && |pattern| == |subject|
    && forall i | 0 <= i < |pattern| :: pattern[i] == subject[i] || (pattern[i] == "*" && subject[i] != "")
  }

  /** The reply subject of a bounded tenant has the tenant as one token and falls in the event stream. */
  lemma ReplySubjectIsOneToken(tenant: string)
    requires BoundedTenant(tenant)
    ensures Split(ReplySubject(tenant), '.') == ["eal", "event", tenant, "v1"]
    ensures SubjectMatches(["eal", "event", "*", "v1"], Split(ReplySubject(tenant), '.'))
  {
    var parts := ["eal", "event", tenant, "v1"];
    assert '.' !in tenant;
    SplitJoin(parts, '.');
    assert Join(parts[3..], '.') == "v1";
    assert parts[2..][1..] == parts[3..] && parts[1..][1..] == parts[2..];
    assert Join(parts[2..], '.') == tenant + "." + "v1";
    assert Join(parts, '.') == "eal" + "." + ("event" + "." + (tenant + "." + "v1"));
    assert Join(parts, '.') == ReplySubject(tenant);
  }

  // ----- The transaction as the server runs it -----

  /** Where a transaction can break: before a statement, or at commit with an outcome the server cannot see. */
  datatype TxFault = NoFault | BeginFails | InboxFails | OutboxFails | StatusFails | CommitFails(applied: bool)

  /** A fault that hits before the commit; a recorded command runs neither of the last two statements. */
  predicate Interrupts(t: Tables, c: AsyncCommand, fault: TxFault) {
    || fault.BeginFails? || fault.InboxFails?
    || ((fault.OutboxFails? || fault.StatusFails?) && !Recorded(t.inbox, c))
  }

  /** The tables a transaction leaves, and whether the server learns that it committed. */
  function Transact(t: Tables, c: AsyncCommand, reply: OperationReply, eventId: Uuid, now: int, fault: TxFault)
    : (Tables, bool)
  {
    var after := Process(t, c, reply, eventId, now);
    if Interrupts(t, c, fault) || after.None? || fault == CommitFails(false) then (t, false)
    else (after.value, !fault.CommitFails?)
  }

  class Database {
    var inbox: seq<InboxRow>
    var outbox: seq<OutboxRow>
    var status: map<Uuid, StatusRow>

    ghost function Contents(): Tables
      reads this
    {
      Tables(inbox, outbox, status)
    }

    constructor ()
      ensures Contents() == EMPTY_TABLES
    {
      inbox, outbox, status := [], [], map[];
    }

    /** Runs on local copies that replace the tables only at commit. */
    method ProcessCommand(c: AsyncCommand, read: ReadOutcome, eventId: Uuid, now: int, fault: TxFault)
      returns (ok: bool)
      modifies this
      ensures (Contents(), ok) == Transact(old(Contents()), c, ReplyTo(c.correlationId, read), eventId, now, fault)
      ensures var after := Process(old(Contents()), c, ReplyTo(c.correlationId, read), eventId, now);
              && (ok ==> after.Some? && Contents() == after.value)
              && (!ok ==> Contents() == old(Contents())
                          || (fault == CommitFails(true) && after.Some? && Contents() == after.value))
              && (fault.NoFault? ==> ok == after.Some?)
      ensures old(Consistent(Contents())) && WellShaped(c) ==> Consistent(Contents())
      ensures old(Consistent(Contents())) && WellShaped(c) && ok ==> Recorded(inbox, c)
    {
      var reply := ReplyTo(c.correlationId, read);
      if Consistent(Contents()) && WellShaped(c) && Process(Contents(), c, reply, eventId, now).Some? {
        ProcessKeepsConsistent(Contents(), c, reply, eventId, now);
      }
      if fault.BeginFails? || fault.InboxFails? {
        return false;
      }
      var actor := ParseUuid(c.operation.actorSubject);
      if actor.None? || !InboxChecks(InboxRowOf(c, actor.value, now)) {
        return false;
      }
      var txInbox, txOutbox, txStatus := inbox, outbox, status;
      var inserted := !Recorded(txInbox, c);
      if inserted {
        txInbox := txInbox + [InboxRowOf(c, actor.value, now)];
        if fault.OutboxFails? {
          return false;
        }
        var enqueued := InsertOutbox(txOutbox, OutboxRowOf(c, reply, eventId, now));
        if enqueued.None? {
          return false;
        }
        txOutbox := enqueued.value;
        if fault.StatusFails? {
          return false;
        }
        var upserted := UpsertStatus(
          txStatus, c.correlationId, StatusRow(c.productTenant, actor.value, reply.status, now));
        if upserted.None? {
          return false;
        }
        txStatus := upserted.value;
      }
      if fault == CommitFails(false) {
        return false;
      }
      inbox, outbox, status := txInbox, txOutbox, txStatus;
      ok := !fault.CommitFails?;
    }
  }
}
