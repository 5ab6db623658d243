/** The outbound half of the protocol invariant: tables, publishers and the event stream. */
module Outbound {
  import opened Common
  import opened Transport
  import opened Outbox
  import opened Protocol
  import opened Durability
  import opened Inbound

  // ----- Tables -----

  lemma MarkKeepsConsistent(t: Tables, eventId: Uuid, now: int)
    requires Consistent(t)
    ensures Consistent(t.(outbox := MarkRow(t.outbox, eventId, now)))
  {
  }

  /** Inbox, outbox and status rows stay in one-to-one correspondence under every step. */
  lemma StepKeepsConsistent(cfg: Config, s: State, a: Action)
    requires Consistent(s.tables) && InboundInv(cfg, s)
    ensures Consistent(Exec(cfg, s, a).tables)
  {
    match a
    case Commit(c, eventId, stamp, result) =>
      CommitKeepsConsistent(cfg, s, c, eventId, stamp, result);
    case Mark(p, stamp, update) =>
      if PublisherAt(s, p).Unmarked? {
        MarkKeepsConsistent(s.tables, PublisherAt(s, p).row.eventId, stamp);
      }
    case _ =>
  }

  lemma CommitKeepsConsistent(cfg: Config, s: State, c: nat, eventId: Uuid, stamp: int, result: CommitKind)
    requires Consistent(s.tables) && InboundInv(cfg, s)
    ensures Consistent(ExecCommit(s, c, eventId, stamp, result).tables)
  {
    var phase := ConsumerAt(s, c);
    ConsumerAtOk(cfg, s, c);
    if phase.Replying? {
      var body := BodyOf(s, phase.delivery).value;
      if Process(s.tables, body, phase.reply, eventId, stamp).Some? {
        AdmittedProcess(cfg, s.tables, body, phase.at, phase.reply, eventId, stamp);
      }
    }
  }

  // ----- Publishers and events -----

  /** `row` is a snapshot, possibly stale, of a row of the outbox. */
  ghost predicate Snapshot(outbox: seq<OutboxRow>, row: OutboxRow) {
    exists i | 0 <= i < |outbox| :: SameRow(row, outbox[i])
  }

  ghost predicate Snapshots(outbox: seq<OutboxRow>, rows: seq<OutboxRow>) {
    forall k | 0 <= k < |rows| :: Snapshot(outbox, rows[k])
  }

  /** An event that some publishable row of the outbox accounts for. */
  ghost predicate Accounted(cfg: Config, outbox: seq<OutboxRow>, event: Event) {
    exists i | 0 <= i < |outbox| :: EventOf(outbox[i]) == event && !Oversized(cfg.size, outbox[i])
  }

  ghost predicate PublisherOk(outbox: seq<OutboxRow>, events: seq<Event>, phase: Publisher) {
    match phase
    case Resting => true
    case Batch(rows) => Snapshots(outbox, rows)
    case Unmarked(row, rest) => Snapshot(outbox, row) && EventOf(row) in events && Snapshots(outbox, rest)
  }

  ghost predicate OutboundInv(cfg: Config, s: State) {
    && (forall e | 0 <= e < |s.events| :: Accounted(cfg, s.tables.outbox, s.events[e]))
    && (forall i | 0 <= i < |s.tables.outbox| ::
          s.tables.outbox[i].publishedAt.Some? ==> EventOf(s.tables.outbox[i]) in s.events)
    && (forall p | p in s.publishers :: PublisherOk(s.tables.outbox, s.events, s.publishers[p]))
  }

  lemma PublisherOkPersists(s: State, later: State, phase: Publisher)
    requires Extends(s, later) && PublisherOk(s.tables.outbox, s.events, phase)
    ensures PublisherOk(later.tables.outbox, later.events, phase)
  {
  }

  /** The publisher that moved is in order, new events and new marks are justified, the rest is as before. */
  lemma OutboundFrame(cfg: Config, s: State, later: State, p: nat)
    requires Extends(s, later) && OutboundInv(cfg, s)
    requires forall x | x in later.publishers && x != p :: x in s.publishers && later.publishers[x] == s.publishers[x]
    requires p in later.publishers ==>
               || PublisherOk(later.tables.outbox, later.events, later.publishers[p])
               || (p in s.publishers && later.publishers[p] == s.publishers[p])
    requires forall e | |s.events| <= e < |later.events| :: Accounted(cfg, later.tables.outbox, later.events[e])
    requires forall i | 0 <= i < |later.tables.outbox| && later.tables.outbox[i].publishedAt.Some? ::
               || EventOf(later.tables.outbox[i]) in later.events
               || (i < |s.tables.outbox| && s.tables.outbox[i].publishedAt.Some?)
    ensures OutboundInv(cfg, later)
  {
  }

  lemma PublisherAtOk(cfg: Config, s: State, p: nat)
    requires OutboundInv(cfg, s)
    ensures PublisherOk(s.tables.outbox, s.events, PublisherAt(s, p))
  {
  }

  lemma BatchIsSnapshot(outbox: seq<OutboxRow>)
    requires UniqueOutbox(outbox)
    ensures Snapshots(outbox, SelectBatch(outbox))
  {
    QueueIsOrdered(outbox);
    var batch := SelectBatch(outbox);
    forall k | 0 <= k < |batch|
      ensures Snapshot(outbox, batch[k])
    {
      assert batch[k] == Queue(outbox)[k];
      assert batch[k] in Queue(outbox);
      var i :| 0 <= i < |outbox| && outbox[i] == batch[k];
      assert SameRow(batch[k], outbox[i]);
    }
  }

  lemma PublishKeepsOutbound(cfg: Config, s: State, p: nat, sent: PublishOutcome)
    requires OutboundInv(cfg, s) && UniqueOutbox(s.tables.outbox)
    ensures OutboundInv(cfg, ExecPublish(cfg, s, p, sent))
  {
  }

  /** Marking a row that was sent marks only rows that are on the stream. */
  lemma MarkIsJustified(outbox: seq<OutboxRow>, events: seq<Event>, row: OutboxRow, stamp: int)
    requires UniqueOutbox(outbox) && Snapshot(outbox, row) && EventOf(row) in events
    ensures var later := MarkRow(outbox, row.eventId, stamp);
            forall i | 0 <= i < |later| && later[i].publishedAt.Some? ::
              EventOf(later[i]) in events || outbox[i].publishedAt.Some?
  {
    var k :| 0 <= k < |outbox| && SameRow(row, outbox[k]);
    assert forall i | 0 <= i < |outbox| && i != k :: outbox[i].eventId != row.eventId;
    assert EventOf(outbox[k]) == EventOf(row);
  }

  lemma MarkKeepsOutbound(cfg: Config, s: State, p: nat, stamp: int, update: MarkOutcome)
    requires OutboundInv(cfg, s) && UniqueOutbox(s.tables.outbox)
    ensures OutboundInv(cfg, ExecMark(s, p, stamp, update))
  {
    var later := ExecMark(s, p, stamp, update);
    var phase := PublisherAt(s, p);
    if phase.Unmarked? {
      MarkExtends(s, p, stamp, update);
      PublisherAtOk(cfg, s, p);
      PublisherOkPersists(s, later, phase);
      MarkIsJustified(s.tables.outbox, s.events, phase.row, stamp);
      OutboundFrame(cfg, s, later, p);
    }
  }

  lemma CommitKeepsOutbound(cfg: Config, s: State, c: nat, eventId: Uuid, stamp: int, result: CommitKind)
    requires OutboundInv(cfg, s)
    ensures OutboundInv(cfg, ExecCommit(s, c, eventId, stamp, result))
  {
    CommitExtends(s, c, eventId, stamp, result);
    OutboundFrame(cfg, s, ExecCommit(s, c, eventId, stamp, result), 0);
  }

  lemma SelectKeepsOutbound(cfg: Config, s: State, p: nat)
    requires OutboundInv(cfg, s) && UniqueOutbox(s.tables.outbox)
    ensures OutboundInv(cfg, ExecSelect(s, p))
  {
    BatchIsSnapshot(s.tables.outbox);
    LocalStepExtends(s, ExecSelect(s, p));
    OutboundFrame(cfg, s, ExecSelect(s, p), p);
  }

  lemma OtherStepsKeepOutbound(cfg: Config, s: State, a: Action)
    requires OutboundInv(cfg, s)
    requires !a.Commit? && !a.Select? && !a.Publish? && !a.Mark?
    ensures OutboundInv(cfg, Exec(cfg, s, a))
  {
  }

  lemma StepKeepsOutbound(cfg: Config, s: State, a: Action)
    requires OutboundInv(cfg, s) && UniqueOutbox(s.tables.outbox)
    ensures OutboundInv(cfg, Exec(cfg, s, a))
  {
    match a
    case Commit(c, eventId, stamp, result) => CommitKeepsOutbound(cfg, s, c, eventId, stamp, result);
    case Select(p) => SelectKeepsOutbound(cfg, s, p);
    case Publish(p, sent) => PublishKeepsOutbound(cfg, s, p, sent);
    case Mark(p, stamp, update) => MarkKeepsOutbound(cfg, s, p, stamp, update);
    case _ => OtherStepsKeepOutbound(cfg, s, a);
  }
}
