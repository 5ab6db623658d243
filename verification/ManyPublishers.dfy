/** With several publishers: exactly which states keep the commit order. */
module ManyPublishers {
  import opened Transport
  import opened Outbox
  import opened Protocol
  import opened DeliveryOrder
  import opened Blocking
  import opened QueueOrder
  import opened OrderLimits

  // ----- Two replies to send -----

  /** A publisher holding a batch sends its first two rows. */
  lemma SendsTwo(cfg: Config, s: State, p: nat, batch: seq<OutboxRow>, stamp: int)
    requires |batch| >= 2 && !Oversized(cfg.size, batch[0]) && !Oversized(cfg.size, batch[1])
    requires PublisherAt(s, p) == Batch(batch)
    ensures var later := Exec(cfg, Exec(cfg, Exec(cfg, s, Publish(p, SENT)), Mark(p, stamp, Marked)), Publish(p, SENT));
            && later.events == s.events + [EventOf(batch[0]), EventOf(batch[1])]
            && forall x | x != p :: PublisherAt(later, x) == PublisherAt(s, x)
  {
    var s1 := Exec(cfg, s, Publish(p, SENT));
    assert PublisherAt(s1, p) == Unmarked(batch[0], batch[1..]) && s1.events == s.events + [EventOf(batch[0])];
    var s2 := Exec(cfg, s1, Mark(p, stamp, Marked));
    assert PublisherAt(s2, p) == Batch(batch[1..]) && s2.events == s1.events;
  }

  /** Running those three steps. */
  lemma RunSendsTwo(cfg: Config, s: State, p: nat, batch: seq<OutboxRow>, stamp: int)
    requires |batch| >= 2 && !Oversized(cfg.size, batch[0]) && !Oversized(cfg.size, batch[1])
    requires PublisherAt(s, p) == Batch(batch)
    ensures var later := RunFrom(cfg, s, SendTwo(p, stamp));
            && later.events == s.events + [EventOf(batch[0]), EventOf(batch[1])]
            && forall x | x != p :: PublisherAt(later, x) == PublisherAt(s, x)
  {
    RunThree(cfg, s, Publish(p, SENT), Mark(p, stamp, Marked), Publish(p, SENT));
    SendsTwo(cfg, s, p, batch, stamp);
  }

  function SendTwo(p: nat, stamp: int): seq<Action> {
    [Publish(p, SENT), Mark(p, stamp, Marked), Publish(p, SENT)]
  }

  lemma BothSelect(cfg: Config, s: State)
    requires PublisherAt(s, 0).Resting? && PublisherAt(s, 1).Resting?
    ensures var later := RunFrom(cfg, s, [Select(0), Select(1)]);
            && PublisherAt(later, 0) == PublisherAt(later, 1) == Batch(SelectBatch(s.tables.outbox))
            && later.events == s.events
  {
    RunTwo(cfg, s, Select(0), Select(1));
  }

  lemma RunSends(cfg: Config, s: State, p: nat, batch: seq<OutboxRow>)
    requires batch != [] && !Oversized(cfg.size, batch[0]) && PublisherAt(s, p) == Batch(batch)
    ensures RunFrom(cfg, s, [Publish(p, SENT)]).events == s.events + [EventOf(batch[0])]
  {
    RunOne(cfg, s, Publish(p, SENT));
  }

  function StaleRun(stamp: int): seq<Action> {
    [Select(0), Select(1)] + (SendTwo(0, stamp) + [Publish(1, SENT)])
  }

  /** Two publishers with the same batch can put its first reply on the stream again after the second. */
  lemma StaleRunRepeats(cfg: Config, s: State, stamp: int)
    requires |Sendable(cfg.size, s.tables.outbox)| >= 2
    requires PublisherAt(s, 0).Resting? && PublisherAt(s, 1).Resting?
    ensures var xs := Sendable(cfg.size, s.tables.outbox);
            RunFrom(cfg, s, StaleRun(stamp)).events == s.events + [EventOf(xs[0]), EventOf(xs[1]), EventOf(xs[0])]
  {
    var q, batch := Queue(s.tables.outbox), SelectBatch(s.tables.outbox);
    FirstOversizedSplits(cfg.size, q);
    assert batch[0] == q[0] && batch[1] == q[1];
    RunConcat(cfg, s, [Select(0), Select(1)], SendTwo(0, stamp) + [Publish(1, SENT)]);
    BothSelect(cfg, s);
    var s2 := RunFrom(cfg, s, [Select(0), Select(1)]);
    RunConcat(cfg, s2, SendTwo(0, stamp), [Publish(1, SENT)]);
    RunSendsTwo(cfg, s2, 0, batch, stamp);
    RunSends(cfg, RunFrom(cfg, s2, SendTwo(0, stamp)), 1, batch);
    assert s.events + [EventOf(q[0]), EventOf(q[1])] + [EventOf(q[0])]
        == s.events + [EventOf(q[0]), EventOf(q[1]), EventOf(q[0])];
  }

  /** The repeat is not next to the original, so collapsing keeps it, and no order of replies shows it. */
  lemma RepeatIsNoPrefix(events: seq<Event>, a: Event, b: Event, all: seq<Event>)
    requires a != b && forall i, j | 0 <= i < j < |all| :: all[i] != all[j]
    ensures !(Collapse(events + [a, b, a]) <= all)
  {
    var added, n := [a, b, a], |Collapse(events)|;
    CollapseKeepsEvents(events);
    CollapseConcat(events, added);
    var shown := Collapse(events + added);
    if events != [] && a == events[|events| - 1] {
      assert shown == Collapse(events) + [b, a] && shown[n - 1] == shown[n + 1];
    } else {
      assert shown == Collapse(events) + [a, b, a] && shown[n] == shown[n + 2];
    }
  }

  /** With two replies to send, two publishers can break any order. */
  lemma StaleRunBreaksOrder(cfg: Config, s: State)
    requires UniqueOutbox(s.tables.outbox) && |Sendable(cfg.size, s.tables.outbox)| >= 2
    requires PublisherAt(s, 0).Resting? && PublisherAt(s, 1).Resting?
    ensures !(Collapse(RunFrom(cfg, s, StaleRun(0)).events) <= EventsOf(s.tables.outbox))
  {
    var xs := Sendable(cfg.size, s.tables.outbox);
    SendableKeys(cfg.size, s.tables.outbox);
    StaleRunRepeats(cfg, s, 0);
    EventsAreDistinct(s.tables.outbox);
    RepeatIsNoPrefix(s.events, EventOf(xs[0]), EventOf(xs[1]), EventsOf(s.tables.outbox));
  }

  lemma StaleRunCommitsNothing(stamp: int)
    ensures NoCommits(StaleRun(stamp))
  {
  }

  // ----- At most one reply to send -----

  /** All the publisher will still send or mark is the one row of `xs`, or nothing if there is none. */
  ghost predicate OnlySends(size: Sizer, phase: Publisher, xs: seq<OutboxRow>) {
    match phase
    case Resting => true
    case Batch(rows) => BatchIsOnly(size, rows, xs)
    case Unmarked(row, rest) => xs == [row] && BatchIsOnly(size, rest, xs)
  }

  predicate BatchIsOnly(size: Sizer, rows: seq<OutboxRow>, xs: seq<OutboxRow>) {
    forall j | 0 <= j < FirstOversized(size, rows) :: xs == [rows[j]]
  }

  /** The outbox of `s`, or the same with its one row that can be sent marked. */
  ghost predicate SameOrMarked(outbox: seq<OutboxRow>, later: seq<OutboxRow>, xs: seq<OutboxRow>) {
    later == outbox || (xs != [] && exists now :: later == MarkRow(outbox, xs[0].eventId, now))
  }

  predicate Copies(before: seq<Event>, events: seq<Event>, xs: seq<OutboxRow>) {
    && before <= events
    && (xs == [] ==> events == before)
    && forall e | |before| <= e < |events| :: xs != [] && events[e] == EventOf(xs[0])
  }

  ghost predicate OnlyOne(size: Sizer, s: State, xs: seq<OutboxRow>, later: State) {
    && SameOrMarked(s.tables.outbox, later.tables.outbox, xs)
    && Copies(s.events, later.events, xs)
    && forall p :: OnlySends(size, PublisherAt(later, p), xs)
  }

  lemma OnlyBatch(size: Sizer, outbox: seq<OutboxRow>, later: seq<OutboxRow>)
    requires UniqueOutbox(outbox) && |Sendable(size, outbox)| <= 1
    requires SameOrMarked(outbox, later, Sendable(size, outbox))
    ensures BatchIsOnly(size, SelectBatch(later), Sendable(size, outbox))
  {
    var q, xs := Queue(outbox), Sendable(size, outbox);
    if later == outbox {
      BatchOversized(size, q);
      var batch := SelectBatch(later);
      forall j | 0 <= j < FirstOversized(size, batch)
        ensures xs == [batch[j]]
      {
        assert batch[j] == q[j] && j == 0;
      }
    } else {
      var now :| later == MarkRow(outbox, xs[0].eventId, now);
      QueueAfterFirst(outbox, now);
      FirstOversizedDrop(size, q, 1);
      BatchOversized(size, q[1..]);
    }
  }

  lemma OnlyTail(size: Sizer, rows: seq<OutboxRow>, xs: seq<OutboxRow>)
    requires rows != [] && !Oversized(size, rows[0]) && BatchIsOnly(size, rows, xs)
    ensures xs == [rows[0]] && BatchIsOnly(size, rows[1..], xs)
  {
    assert FirstOversized(size, rows) == 1 + FirstOversized(size, rows[1..]);
    assert forall j | 0 <= j < |rows[1..]| :: rows[1..][j] == rows[j + 1];
  }

  lemma OnlyMark(outbox: seq<OutboxRow>, later: seq<OutboxRow>, xs: seq<OutboxRow>, now: int)
    requires xs != [] && SameOrMarked(outbox, later, xs)
    ensures SameOrMarked(outbox, MarkRow(later, xs[0].eventId, now), xs)
  {
    if later != outbox {
      var t :| later == MarkRow(outbox, xs[0].eventId, t);
      assert MarkRow(later, xs[0].eventId, now) == later;
    }
  }

  lemma OnlyPublish(cfg: Config, s: State, xs: seq<OutboxRow>, later: State, p: nat, outcome: PublishOutcome)
    requires OnlyOne(cfg.size, s, xs, later)
    ensures OnlyOne(cfg.size, s, xs, ExecPublish(cfg, later, p, outcome))
  {
    var phase, next := PublisherAt(later, p), ExecPublish(cfg, later, p, outcome);
    assert OnlySends(cfg.size, phase, xs);
    if phase.Batch? && phase.rows != [] && !Oversized(cfg.size, phase.rows[0]) {
      OnlyTail(cfg.size, phase.rows, xs);
    }
    OnlyPhases(cfg.size, xs, later, next, p);
  }

  lemma OnlyPhases(size: Sizer, xs: seq<OutboxRow>, later: State, next: State, p: nat)
    requires forall x :: OnlySends(size, PublisherAt(later, x), xs)
    requires forall x | x != p :: PublisherAt(next, x) == PublisherAt(later, x)
    requires OnlySends(size, PublisherAt(next, p), xs)
    ensures forall x :: OnlySends(size, PublisherAt(next, x), xs)
  {
  }

  lemma OnlyMarks(cfg: Config, s: State, xs: seq<OutboxRow>, later: State, p: nat, stamp: int, update: MarkOutcome)
    requires OnlyOne(cfg.size, s, xs, later)
    ensures OnlyOne(cfg.size, s, xs, ExecMark(later, p, stamp, update))
  {
    var phase, next := PublisherAt(later, p), ExecMark(later, p, stamp, update);
    assert OnlySends(cfg.size, phase, xs);
    if phase.Unmarked? {
      OnlyMark(s.tables.outbox, later.tables.outbox, xs, stamp);
    }
    OnlyPhases(cfg.size, xs, later, next, p);
  }

  lemma OnlySelect(cfg: Config, s: State, later: State, p: nat)
    requires UniqueOutbox(s.tables.outbox) && |Sendable(cfg.size, s.tables.outbox)| <= 1
    requires OnlyOne(cfg.size, s, Sendable(cfg.size, s.tables.outbox), later)
    ensures OnlyOne(cfg.size, s, Sendable(cfg.size, s.tables.outbox), ExecSelect(later, p))
  {
    OnlyBatch(cfg.size, s.tables.outbox, later.tables.outbox);
    OnlyPhases(cfg.size, Sendable(cfg.size, s.tables.outbox), later, ExecSelect(later, p), p);
  }

  lemma OnlyOthers(cfg: Config, s: State, xs: seq<OutboxRow>, later: State, a: Action)
    requires OnlyOne(cfg.size, s, xs, later) && !a.Commit? && !a.Select? && !a.Publish? && !a.Mark?
    ensures OnlyOne(cfg.size, s, xs, Exec(cfg, later, a))
  {
    forall p: nat
      ensures OnlySends(cfg.size, PublisherAt(Exec(cfg, later, a), p), xs)
    {
      OtherStepsAreQuiet(cfg, later, a, p);
    }
    OtherStepsAreQuiet(cfg, later, a, 0);
  }

  lemma {:induction false} RunsOnlyOne(cfg: Config, s: State, more: seq<Action>)
    requires UniqueOutbox(s.tables.outbox) && |Sendable(cfg.size, s.tables.outbox)| <= 1
    requires NoCommits(more) && forall p :: PublisherAt(s, p).Resting?
    ensures OnlyOne(cfg.size, s, Sendable(cfg.size, s.tables.outbox), RunFrom(cfg, s, more))
  {
    if more != [] {
      var n := |more| - 1;
      var later := RunFrom(cfg, s, more[..n]);
      RunsOnlyOne(cfg, s, more[..n]);
      StepOnlyOne(cfg, s, later, more[n]);
    }
  }

  lemma StepOnlyOne(cfg: Config, s: State, later: State, a: Action)
    requires UniqueOutbox(s.tables.outbox) && |Sendable(cfg.size, s.tables.outbox)| <= 1 && !a.Commit?
    requires OnlyOne(cfg.size, s, Sendable(cfg.size, s.tables.outbox), later)
    ensures OnlyOne(cfg.size, s, Sendable(cfg.size, s.tables.outbox), Exec(cfg, later, a))
  {
    var xs := Sendable(cfg.size, s.tables.outbox);
    match a
    case Select(p) => OnlySelect(cfg, s, later, p);
    case Publish(p, outcome) => OnlyPublish(cfg, s, xs, later, p, outcome);
    case Mark(p, stamp, update) => OnlyMarks(cfg, s, xs, later, p, stamp, update);
    case _ => OnlyOthers(cfg, s, xs, later, a);
  }

  /** Any number of copies show as one. */
  lemma {:induction false} CollapseCopies(before: seq<Event>, events: seq<Event>, e: Event)
    requires before <= events && forall i | |before| <= i < |events| :: events[i] == e
    ensures Collapse(events) == Collapse(before) || Collapse(events) == Collapse(before + [e])
    ensures |events| > |before| ==> Collapse(events) == Collapse(before + [e])
  {
    if |events| > |before| {
      var n := |events| - 1;
      assert events == events[..n] + [e];
      if n == |before| {
        assert events[..n] == before;
      } else {
        CollapseCopies(before, events[..n], e);
        CollapseSame(events[..n], e);
      }
    } else {
      assert events == before;
    }
  }

  lemma OneReplyKeepsOrder(cfg: Config, s: State, marked: nat, sent: nat, more: seq<Action>)
    requires UniqueOutbox(s.tables.outbox) && StreamInStep(s.tables.outbox, s.events, marked, sent)
    requires |Sendable(cfg.size, s.tables.outbox)| <= 1 && NoCommits(more) && forall p :: PublisherAt(s, p).Resting?
    requires ContinuesStream(Sendable(cfg.size, s.tables.outbox), s.tables.outbox, marked, sent)
    ensures Collapse(RunFrom(cfg, s, more).events) <= EventsOf(s.tables.outbox)
  {
    var outbox, xs, later := s.tables.outbox, Sendable(cfg.size, s.tables.outbox), RunFrom(cfg, s, more);
    RunsOnlyOne(cfg, s, more);
    SendableKeys(cfg.size, outbox);
    ContinuedIsShown(outbox, s.events, marked, sent, xs);
    CopiesArePrefix(s.events, later.events, xs, EventsOf(outbox));
  }

  lemma CopiesArePrefix(before: seq<Event>, events: seq<Event>, xs: seq<OutboxRow>, all: seq<Event>)
    requires Copies(before, events, xs) && |xs| <= 1 && Collapse(before + EventsOf(xs)) <= all
    ensures Collapse(events) <= all
  {
    if xs == [] {
      assert before + EventsOf(xs) == before;
    } else {
      ShownPrefix(before, xs, 0, all);
      assert EventsOf(xs) == [EventOf(xs[0])] && before + EventsOf(xs[..0]) == before;
      CollapseCopies(before, events, EventOf(xs[0]));
    }
  }

  /** Every continuation, whichever publishers take part, shows a prefix of the commit order. */
  ghost predicate OrderIsKeptByAll(cfg: Config, s: State) {
    forall more | NoCommits(more) :: Collapse(RunFrom(cfg, s, more).events) <= EventsOf(s.tables.outbox)
  }

  /**
   * Several publishers, exactly. Take any state in which the order was kept so far and all publishers
   * rest. All continuations, whichever publishers take part, keep the order if and only if at most one
   * reply can be sent before an oversized one comes up, and that one continues the stream.
   */
  lemma ManyPublishersKeepOrderIff(cfg: Config, s: State, marked: nat, sent: nat)
    requires UniqueOutbox(s.tables.outbox) && StreamInStep(s.tables.outbox, s.events, marked, sent)
    requires forall p :: PublisherAt(s, p).Resting?
    ensures var xs := Sendable(cfg.size, s.tables.outbox);
            OrderIsKeptByAll(cfg, s) <==> |xs| <= 1 && ContinuesStream(xs, s.tables.outbox, marked, sent)
  {
    var xs := Sendable(cfg.size, s.tables.outbox);
    if OrderIsKeptByAll(cfg, s) {
      assert OrderIsKept(cfg, s, 0);
      OrderIsKeptIff(cfg, s, 0, marked, sent);
      if |xs| >= 2 {
        StaleRunCommitsNothing(0);
        StaleRunBreaksOrder(cfg, s);
        assert false;
      }
    }
    if |xs| <= 1 && ContinuesStream(xs, s.tables.outbox, marked, sent) {
      forall more | NoCommits(more)
        ensures Collapse(RunFrom(cfg, s, more).events) <= EventsOf(s.tables.outbox)
      {
        OneReplyKeepsOrder(cfg, s, marked, sent, more);
      }
    }
  }
}
