/** A reply too large to publish: it stays pending for ever, and exactly when it holds back what is behind it. */
module Blocking {
  import opened Common
  import opened Transport
  import opened Outbox
  import opened Protocol
  import opened Durability
  import opened Outbound
  import opened Safety

  /** Before this batch ends or stops at an oversized row, nothing behind `row` comes up. */
  predicate Clear(size: Sizer, rows: seq<OutboxRow>, row: OutboxRow) {
    forall j | 0 <= j < FirstOversized(size, rows) :: !Ahead(row, rows[j])
  }

  ghost predicate IsMarked(outbox: seq<OutboxRow>, row: OutboxRow) {
    forall i | 0 <= i < |outbox| && outbox[i].eventId == row.eventId :: outbox[i].publishedAt.Some?
  }

  /** A publisher that will move nothing behind `row`; a mark that is there already moves nothing. */
  ghost predicate ClearPhase(size: Sizer, outbox: seq<OutboxRow>, phase: Publisher, row: OutboxRow) {
    match phase
    case Resting => true
    case Batch(rows) => Clear(size, rows, row)
    case Unmarked(r, rest) => (Ahead(row, r) ==> IsMarked(outbox, r)) && Clear(size, rest, row)
  }

  /** Published marks and stream messages of rows behind `row` are the same in both states. */
  ghost predicate NothingBehindMoves(s: State, later: State, row: OutboxRow) {
    && |s.tables.outbox| <= |later.tables.outbox|
    && s.events <= later.events
    && (forall i | 0 <= i < |later.tables.outbox| && Ahead(row, later.tables.outbox[i]) ::
          later.tables.outbox[i].publishedAt
          == if i < |s.tables.outbox| then s.tables.outbox[i].publishedAt else None)
    && (forall e, i | |s.events| <= e < |later.events| && 0 <= i < |later.tables.outbox|
                      && Ahead(row, later.tables.outbox[i]) ::
          later.events[e] != EventOf(later.tables.outbox[i]))
  }

  /** An oversized row is never marked and never on the stream. */
  lemma OversizedIsPending(cfg: Config, s: State, b: nat)
    requires OutboundInv(cfg, s) && b < |s.tables.outbox| && Oversized(cfg.size, s.tables.outbox[b])
    ensures s.tables.outbox[b].publishedAt.None? && EventOf(s.tables.outbox[b]) !in s.events
  {
  }

  /** Once committed, an oversized reply is unpublished in that state and in every later one. */
  lemma OversizedStaysPending(cfg: Config, run: seq<Action>, more: seq<Action>, b: nat)
    requires b < |Run(cfg, run).tables.outbox| && Oversized(cfg.size, Run(cfg, run).tables.outbox[b])
    ensures var later := Run(cfg, run + more);
            && b < |later.tables.outbox|
            && later.tables.outbox[b] == Run(cfg, run).tables.outbox[b]
            && later.tables.outbox[b].publishedAt.None?
            && EventOf(later.tables.outbox[b]) !in later.events
  {
    EveryRunIsSafe(cfg, run);
    EveryRunIsSafe(cfg, run + more);
    RunConcat(cfg, INITIAL, run, more);
    RunExtends(cfg, Run(cfg, run), more);
    assert SameRow(Run(cfg, run).tables.outbox[b], Run(cfg, run + more).tables.outbox[b]);
    OversizedIsPending(cfg, Run(cfg, run), b);
    OversizedIsPending(cfg, Run(cfg, run + more), b);
  }

  // ----- What keeps a publisher clear -----

  lemma BatchIsClear(size: Sizer, outbox: seq<OutboxRow>, b: nat)
    requires UniqueOutbox(outbox) && b < |outbox| && outbox[b].publishedAt.None? && Oversized(size, outbox[b])
    ensures Clear(size, SelectBatch(outbox), outbox[b])
  {
    QueueIsOrdered(outbox);
    var q, batch := Queue(outbox), SelectBatch(outbox);
    FirstOversizedSplits(size, batch);
    assert outbox[b] in q;
    var i :| 0 <= i < |q| && q[i] == outbox[b];
    forall j | 0 <= j < FirstOversized(size, batch)
      ensures !Ahead(outbox[b], batch[j])
    {
      assert batch[j] == q[j];
      assert i < |batch| ==> batch[i] == q[i];
      assert j < i;
      assert Ahead(q[j], q[i]);
    }
  }

  lemma ClearTail(size: Sizer, rows: seq<OutboxRow>, row: OutboxRow)
    requires rows != [] && !Oversized(size, rows[0]) && Clear(size, rows, row)
    ensures !Ahead(row, rows[0]) && Clear(size, rows[1..], row)
  {
    assert FirstOversized(size, rows) == 1 + FirstOversized(size, rows[1..]);
    forall j | 0 <= j < FirstOversized(size, rows[1..])
      ensures !Ahead(row, rows[1..][j])
    {
      assert rows[1..][j] == rows[j + 1];
    }
  }

  lemma PublishKeepsClear(cfg: Config, s: State, p: nat, sent: PublishOutcome, row: OutboxRow)
    requires ClearPhase(cfg.size, s.tables.outbox, PublisherAt(s, p), row)
    ensures ClearPhase(cfg.size, s.tables.outbox, PublisherAt(ExecPublish(cfg, s, p, sent), p), row)
  {
    var phase := PublisherAt(s, p);
    if phase.Batch? && phase.rows != [] && !Oversized(cfg.size, phase.rows[0]) {
      ClearTail(cfg.size, phase.rows, row);
    }
  }

  lemma MarkedPersists(s: State, later: State, r: OutboxRow)
    requires Extends(s, later) && UniqueOutbox(later.tables.outbox)
    requires Snapshot(s.tables.outbox, r) && IsMarked(s.tables.outbox, r)
    ensures IsMarked(later.tables.outbox, r)
  {
    var before, after := s.tables.outbox, later.tables.outbox;
    var k :| 0 <= k < |before| && SameRow(r, before[k]);
    assert SameRow(before[k], after[k]);
    assert forall i | 0 <= i < |after| && i != k :: after[i].eventId != after[k].eventId;
  }

  lemma ClearPersists(size: Sizer, s: State, later: State, phase: Publisher, row: OutboxRow)
    requires Extends(s, later) && UniqueOutbox(later.tables.outbox)
    requires PublisherOk(s.tables.outbox, s.events, phase)
    requires ClearPhase(size, s.tables.outbox, phase, row)
    ensures ClearPhase(size, later.tables.outbox, phase, row)
  {
    if phase.Unmarked? && Ahead(row, phase.row) {
      MarkedPersists(s, later, phase.row);
    }
  }

  /** What else can happen to a publisher: it marks the row it has sent and goes on, or it stops. */
  lemma OtherStepsKeepPhase(cfg: Config, s: State, p: nat, a: Action)
    requires a != Select(p) && !(a.Publish? && a.publisher == p)
    ensures var phase, later := PublisherAt(s, p), PublisherAt(Exec(cfg, s, a), p);
            later == phase || later.Resting? || (phase.Unmarked? && later == Batch(phase.rest))
  {
  }

  /** Whatever step is taken, and whatever the other publishers hold, a clear publisher stays clear. */
  lemma StepKeepsClear(cfg: Config, s: State, b: nat, p: nat, a: Action)
    requires Inv(cfg, s) && b < |s.tables.outbox| && Oversized(cfg.size, s.tables.outbox[b])
    requires ClearPhase(cfg.size, s.tables.outbox, PublisherAt(s, p), s.tables.outbox[b])
    ensures var later := Exec(cfg, s, a);
            ClearPhase(cfg.size, later.tables.outbox, PublisherAt(later, p), s.tables.outbox[b])
  {
    OversizedIsPending(cfg, s, b);
    if a == Select(p) {
      BatchIsClear(cfg.size, s.tables.outbox, b);
    } else if a.Publish? && a.publisher == p {
      PublishKeepsClear(cfg, s, p, a.sent, s.tables.outbox[b]);
    } else {
      OtherStepKeepsClear(cfg, s, p, a, s.tables.outbox[b]);
    }
  }

  lemma OtherStepKeepsClear(cfg: Config, s: State, p: nat, a: Action, row: OutboxRow)
    requires Inv(cfg, s) && a != Select(p) && !(a.Publish? && a.publisher == p)
    requires ClearPhase(cfg.size, s.tables.outbox, PublisherAt(s, p), row)
    ensures var later := Exec(cfg, s, a);
            ClearPhase(cfg.size, later.tables.outbox, PublisherAt(later, p), row)
  {
    OtherStepsKeepPhase(cfg, s, p, a);
    StepExtends(cfg, s, a);
    StepKeepsConsistent(cfg, s, a);
    PublisherAtOk(cfg, s, p);
    ClearPersists(cfg.size, s, Exec(cfg, s, a), PublisherAt(s, p), row);
  }

  // ----- What a step moves -----

  /** A snapshot that is not behind `row` is the snapshot of no row that is. */
  lemma SnapshotIsElsewhere(outbox: seq<OutboxRow>, x: OutboxRow, row: OutboxRow)
    requires UniqueOutbox(outbox) && Snapshot(outbox, x) && !Ahead(row, x)
    ensures forall i | 0 <= i < |outbox| && Ahead(row, outbox[i]) ::
              outbox[i].eventId != x.eventId && EventOf(outbox[i]) != EventOf(x)
  {
    var k :| 0 <= k < |outbox| && SameRow(x, outbox[k]);
    forall i | 0 <= i < |outbox| && Ahead(row, outbox[i])
      ensures outbox[i].eventId != x.eventId && EventOf(outbox[i]) != EventOf(x)
    {
      assert i != k;
    }
  }

  lemma PublishMovesNothing(cfg: Config, s: State, p: nat, sent: PublishOutcome, row: OutboxRow)
    requires UniqueOutbox(s.tables.outbox) && OutboundInv(cfg, s)
    requires ClearPhase(cfg.size, s.tables.outbox, PublisherAt(s, p), row)
    ensures NothingBehindMoves(s, ExecPublish(cfg, s, p, sent), row)
  {
    var phase := PublisherAt(s, p);
    if phase.Batch? && phase.rows != [] && !Oversized(cfg.size, phase.rows[0]) {
      ClearTail(cfg.size, phase.rows, row);
      PublisherAtOk(cfg, s, p);
      SnapshotIsElsewhere(s.tables.outbox, phase.rows[0], row);
    }
  }

  lemma MarkMovesNothing(cfg: Config, s: State, p: nat, stamp: int, update: MarkOutcome, row: OutboxRow)
    requires UniqueOutbox(s.tables.outbox) && OutboundInv(cfg, s)
    requires ClearPhase(cfg.size, s.tables.outbox, PublisherAt(s, p), row)
    ensures NothingBehindMoves(s, ExecMark(s, p, stamp, update), row)
  {
    var phase := PublisherAt(s, p);
    if phase.Unmarked? {
      if Ahead(row, phase.row) {
        MarkAgain(s.tables.outbox, phase.row, stamp);
      } else {
        PublisherAtOk(cfg, s, p);
        SnapshotIsElsewhere(s.tables.outbox, phase.row, row);
        MarkElsewhere(s.tables.outbox, phase.row.eventId, stamp, row);
      }
    }
  }

  lemma MarkAgain(outbox: seq<OutboxRow>, row: OutboxRow, stamp: int)
    requires IsMarked(outbox, row)
    ensures MarkRow(outbox, row.eventId, stamp) == outbox
  {
  }

  lemma MarkElsewhere(outbox: seq<OutboxRow>, eventId: Uuid, stamp: int, row: OutboxRow)
    requires forall i | 0 <= i < |outbox| && Ahead(row, outbox[i]) :: outbox[i].eventId != eventId
    ensures forall i | 0 <= i < |outbox| && Ahead(row, MarkRow(outbox, eventId, stamp)[i]) ::
              MarkRow(outbox, eventId, stamp)[i] == outbox[i]
  {
  }

  lemma OtherStepsMoveNothing(cfg: Config, s: State, a: Action, row: OutboxRow)
    requires !a.Publish? && !a.Mark?
    ensures NothingBehindMoves(s, Exec(cfg, s, a), row)
  {
    if a.Commit? {
      CommitMovesNothing(s, a.consumer, a.eventId, a.stamp, a.result, row);
    } else {
      QuietStep(cfg, s, a);
    }
  }

  lemma QuietStep(cfg: Config, s: State, a: Action)
    requires !a.Publish? && !a.Mark? && !a.Commit?
    ensures Exec(cfg, s, a).tables == s.tables && Exec(cfg, s, a).events == s.events
  {
  }

  /** A commit appends at most one row, unpublished, and sends nothing. */
  lemma CommitMovesNothing(s: State, c: nat, eventId: Uuid, stamp: int, result: CommitKind, row: OutboxRow)
    ensures NothingBehindMoves(s, ExecCommit(s, c, eventId, stamp, result), row)
  {
  }

  /** Only a publisher that is not clear of `row` moves anything behind it. */
  lemma StepMovesNothing(cfg: Config, s: State, a: Action, row: OutboxRow)
    requires UniqueOutbox(s.tables.outbox) && OutboundInv(cfg, s)
    requires a.Publish? || a.Mark? ==> ClearPhase(cfg.size, s.tables.outbox, PublisherAt(s, a.publisher), row)
    ensures NothingBehindMoves(s, Exec(cfg, s, a), row)
  {
    match a
    case Publish(p, sent) => PublishMovesNothing(cfg, s, p, sent, row);
    case Mark(p, stamp, update) => MarkMovesNothing(cfg, s, p, stamp, update, row);
    case _ => OtherStepsMoveNothing(cfg, s, a, row);
  }

  // ----- Runs -----

  lemma RowStaysOversized(cfg: Config, s: State, b: nat, run: seq<Action>)
    requires Inv(cfg, s) && b < |s.tables.outbox| && Oversized(cfg.size, s.tables.outbox[b])
    ensures var later := RunFrom(cfg, s, run);
            && Inv(cfg, later) && b < |later.tables.outbox|
            && later.tables.outbox[b] == s.tables.outbox[b] && s.tables.outbox[b].publishedAt.None?
  {
    RunKeepsInv(cfg, s, run);
    RunExtends(cfg, s, run);
    assert SameRow(s.tables.outbox[b], RunFrom(cfg, s, run).tables.outbox[b]);
    OversizedIsPending(cfg, s, b);
    OversizedIsPending(cfg, RunFrom(cfg, s, run), b);
  }

  lemma {:induction false} RunKeepsClear(cfg: Config, s: State, b: nat, p: nat, run: seq<Action>)
    requires Inv(cfg, s) && b < |s.tables.outbox| && Oversized(cfg.size, s.tables.outbox[b])
    requires ClearPhase(cfg.size, s.tables.outbox, PublisherAt(s, p), s.tables.outbox[b])
    ensures var later := RunFrom(cfg, s, run);
            ClearPhase(cfg.size, later.tables.outbox, PublisherAt(later, p), s.tables.outbox[b])
  {
    if run != [] {
      var n := |run| - 1;
      RunKeepsClear(cfg, s, b, p, run[..n]);
      RowStaysOversized(cfg, s, b, run[..n]);
      StepKeepsClear(cfg, RunFrom(cfg, s, run[..n]), b, p, run[n]);
    }
  }

  lemma ClearStepMovesNothing(cfg: Config, s: State, b: nat, run: seq<Action>, a: Action)
    requires Inv(cfg, s) && b < |s.tables.outbox| && Oversized(cfg.size, s.tables.outbox[b])
    requires a.Publish? || a.Mark? ==>
               ClearPhase(cfg.size, s.tables.outbox, PublisherAt(s, a.publisher), s.tables.outbox[b])
    ensures var mid := RunFrom(cfg, s, run);
            NothingBehindMoves(mid, Exec(cfg, mid, a), s.tables.outbox[b])
  {
    RowStaysOversized(cfg, s, b, run);
    if a.Publish? || a.Mark? {
      RunKeepsClear(cfg, s, b, a.publisher, run);
    }
    StepMovesNothing(cfg, RunFrom(cfg, s, run), a, s.tables.outbox[b]);
  }

  /**
   * One publisher, whatever all the others hold: let an oversized reply be in the outbox and publisher
   * `p` clear of it, for instance at rest. From then on, in particular with every batch `p` selects
   * afterwards, no publish and no mark of `p` ever touches a row that sorts behind that reply, rows
   * committed later included.
   */
  lemma OversizedBlocksPublisher(cfg: Config, run: seq<Action>, more: seq<Action>, next: Action, b: nat, p: nat)
    requires var s := Run(cfg, run);
             && b < |s.tables.outbox| && Oversized(cfg.size, s.tables.outbox[b])
             && ClearPhase(cfg.size, s.tables.outbox, PublisherAt(s, p), s.tables.outbox[b])
    requires (next.Publish? || next.Mark?) && next.publisher == p
    ensures var mid := Run(cfg, run + more);
            NothingBehindMoves(mid, Exec(cfg, mid, next), Run(cfg, run).tables.outbox[b])
  {
    EveryRunIsSafe(cfg, run);
    RunConcat(cfg, INITIAL, run, more);
    ClearStepMovesNothing(cfg, Run(cfg, run), b, more, next);
  }

  lemma NothingMovesTransitive(cfg: Config, s: State, mid: State, later: State, row: OutboxRow)
    requires Extends(s, mid) && Extends(mid, later)
    requires NothingBehindMoves(s, mid, row) && NothingBehindMoves(mid, later, row)
    requires OutboundInv(cfg, mid) && UniqueOutbox(later.tables.outbox)
    ensures NothingBehindMoves(s, later, row)
  {
  }

  lemma {:induction false} AllClearBlocks(cfg: Config, s: State, b: nat, run: seq<Action>)
    requires Inv(cfg, s) && b < |s.tables.outbox| && Oversized(cfg.size, s.tables.outbox[b])
    requires forall p :: ClearPhase(cfg.size, s.tables.outbox, PublisherAt(s, p), s.tables.outbox[b])
    ensures NothingBehindMoves(s, RunFrom(cfg, s, run), s.tables.outbox[b])
  {
    if run != [] {
      var n := |run| - 1;
      var mid, row := RunFrom(cfg, s, run[..n]), s.tables.outbox[b];
      AllClearBlocks(cfg, s, b, run[..n]);
      ClearStepMovesNothing(cfg, s, b, run[..n], run[n]);
      RunKeepsInv(cfg, s, run[..n]);
      StepKeepsInv(cfg, mid, run[n]);
      RunExtends(cfg, s, run[..n]);
      StepExtends(cfg, mid, run[n]);
      NothingMovesTransitive(cfg, s, mid, RunFrom(cfg, s, run), row);
    }
  }

  // ----- A publisher that is not clear passes -----

  const SENT := Stored(false, true)

  /** The steps of a publisher that sends the first rows of its batch up to row `j`. */
  function SendUpTo(p: nat, j: nat): seq<Action> {
    if j == 0 then [Publish(p, SENT)] else [Publish(p, SENT), Mark(p, 0, Marked)] + SendUpTo(p, j - 1)
  }

  lemma SendAndMark(cfg: Config, s: State, p: nat, rows: seq<OutboxRow>)
    requires PublisherAt(s, p) == Batch(rows) && rows != [] && !Oversized(cfg.size, rows[0])
    ensures var later := RunFrom(cfg, s, [Publish(p, SENT), Mark(p, 0, Marked)]);
            PublisherAt(later, p) == Batch(rows[1..]) && later.events == s.events + [EventOf(rows[0])]
  {
    RunTwo(cfg, s, Publish(p, SENT), Mark(p, 0, Marked));
    var s1 := ExecPublish(cfg, s, p, SENT);
    assert PublisherAt(s1, p) == Unmarked(rows[0], rows[1..]) && s1.events == s.events + [EventOf(rows[0])];
  }

  lemma EventsFromFirst(events: seq<Event>, rows: seq<OutboxRow>, j: nat)
    requires j < |rows|
    ensures j == 0 ==> events + EventsOf(rows[..j + 1]) == events + [EventOf(rows[0])]
    ensures events + EventsOf(rows[..j + 1]) == events + [EventOf(rows[0])] + EventsOf(rows[1..][..j])
  {
    assert rows[..j + 1] == [rows[0]] + rows[1..][..j];
  }

  lemma {:induction false} SendsUpTo(cfg: Config, s: State, p: nat, rows: seq<OutboxRow>, j: nat)
    requires PublisherAt(s, p) == Batch(rows) && j < FirstOversized(cfg.size, rows)
    ensures RunFrom(cfg, s, SendUpTo(p, j)).events == s.events + EventsOf(rows[..j + 1])
    decreases j
  {
    EventsFromFirst(s.events, rows, j);
    if j == 0 {
      RunOne(cfg, s, Publish(p, SENT));
    } else {
      var first := [Publish(p, SENT), Mark(p, 0, Marked)];
      SendAndMark(cfg, s, p, rows);
      SendsUpTo(cfg, RunFrom(cfg, s, first), p, rows[1..], j - 1);
      RunConcat(cfg, s, first, SendUpTo(p, j - 1));
    }
  }

  /** A new event of a row behind is a move. */
  lemma NewEventMoves(cfg: Config, s: State, later: State, row: OutboxRow, x: OutboxRow)
    requires Extends(s, later) && Snapshot(s.tables.outbox, x) && Ahead(row, x)
    requires EventOf(x) in later.events[|s.events|..]
    ensures !NothingBehindMoves(s, later, row)
  {
    var k :| 0 <= k < |s.tables.outbox| && SameRow(x, s.tables.outbox[k]);
    assert SameRow(s.tables.outbox[k], later.tables.outbox[k]);
    var e :| 0 <= e < |later.events| - |s.events| && later.events[|s.events|..][e] == EventOf(x);
    assert later.events[|s.events| + e] == EventOf(later.tables.outbox[k]);
  }

  /** After steps that sent nothing, the publisher holds a batch that is not clear: it can send a row behind. */
  lemma BatchPasses(cfg: Config, s: State, lead: seq<Action>, p: nat, rows: seq<OutboxRow>, row: OutboxRow)
    returns (run: seq<Action>)
    requires var mid := RunFrom(cfg, s, lead); PublisherAt(mid, p) == Batch(rows) && mid.events == s.events
    requires Snapshots(s.tables.outbox, rows) && !Clear(cfg.size, rows, row)
    ensures !NothingBehindMoves(s, RunFrom(cfg, s, run), row)
  {
    var j :| 0 <= j < FirstOversized(cfg.size, rows) && Ahead(row, rows[j]);
    run := lead + SendUpTo(p, j);
    SendsUpTo(cfg, RunFrom(cfg, s, lead), p, rows, j);
    RunConcat(cfg, s, lead, SendUpTo(p, j));
    RunExtends(cfg, s, run);
    var sent := EventsOf(rows[..j + 1]);
    assert RunFrom(cfg, s, run).events[|s.events|..] == sent && sent[j] == EventOf(rows[j]);
    NewEventMoves(cfg, s, RunFrom(cfg, s, run), row, rows[j]);
  }

  /** Marking a row behind that has no mark yet is a move. */
  lemma MarkPasses(cfg: Config, s: State, p: nat, row: OutboxRow)
    requires PublisherAt(s, p).Unmarked? && Ahead(row, PublisherAt(s, p).row)
    requires UniqueOutbox(s.tables.outbox) && Snapshot(s.tables.outbox, PublisherAt(s, p).row)
    requires !IsMarked(s.tables.outbox, PublisherAt(s, p).row)
    ensures !NothingBehindMoves(s, RunFrom(cfg, s, [Mark(p, 0, Marked)]), row)
  {
    var outbox, r := s.tables.outbox, PublisherAt(s, p).row;
    RunOne(cfg, s, Mark(p, 0, Marked));
    var k :| 0 <= k < |outbox| && SameRow(r, outbox[k]);
    var i :| 0 <= i < |outbox| && outbox[i].eventId == r.eventId && outbox[i].publishedAt.None?;
    assert i == k;
    assert MarkRow(outbox, r.eventId, 0)[k] == outbox[k].(publishedAt := Some(0));
  }

  lemma MarkThenHolds(cfg: Config, s: State, p: nat)
    requires PublisherAt(s, p).Unmarked?
    ensures var later := RunFrom(cfg, s, [Mark(p, 0, Marked)]);
            later.events == s.events && PublisherAt(later, p) == Batch(PublisherAt(s, p).rest)
  {
    RunOne(cfg, s, Mark(p, 0, Marked));
  }

  /** The other direction: a publisher that is not clear has a run in which it passes. */
  lemma UnclearPasses(cfg: Config, s: State, p: nat, row: OutboxRow) returns (run: seq<Action>)
    requires Inv(cfg, s) && !ClearPhase(cfg.size, s.tables.outbox, PublisherAt(s, p), row)
    ensures !NothingBehindMoves(s, RunFrom(cfg, s, run), row)
  {
    var phase := PublisherAt(s, p);
    PublisherAtOk(cfg, s, p);
    if phase.Batch? {
      run := BatchPasses(cfg, s, [], p, phase.rows, row);
    } else if Ahead(row, phase.row) && !IsMarked(s.tables.outbox, phase.row) {
      run := [Mark(p, 0, Marked)];
      MarkPasses(cfg, s, p, row);
    } else {
      MarkThenHolds(cfg, s, p);
      run := BatchPasses(cfg, s, [Mark(p, 0, Marked)], p, phase.rest, row);
    }
  }

  /**
   * Exactly when an oversized reply holds back everything behind it: no continuation publishes or marks
   * a row that sorts behind it if and only if no publisher, with the batch it holds now, reaches such a
   * row before an oversized one stops it (or has sent one and still has to mark it). Resting publishers
   * never do. (What an undisturbed poll does to the rows ahead of it is `PollTakesPrefix`.)
   */
  lemma OversizedBlocksIff(cfg: Config, s: State, b: nat)
    requires Inv(cfg, s) && b < |s.tables.outbox| && Oversized(cfg.size, s.tables.outbox[b])
    ensures (forall run :: NothingBehindMoves(s, RunFrom(cfg, s, run), s.tables.outbox[b]))
            <==> forall p :: ClearPhase(cfg.size, s.tables.outbox, PublisherAt(s, p), s.tables.outbox[b])
  {
    var row := s.tables.outbox[b];
    if p: nat :| !ClearPhase(cfg.size, s.tables.outbox, PublisherAt(s, p), row) {
      var run := UnclearPasses(cfg, s, p, row);
    } else {
      forall run
        ensures NothingBehindMoves(s, RunFrom(cfg, s, run), row)
      {
        AllClearBlocks(cfg, s, b, run);
      }
    }
  }
}
