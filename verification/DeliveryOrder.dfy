/** With a single publisher, replies reach the event stream in commit order, repeats aside. */
module DeliveryOrder {
  import opened Common
  import opened Ordering
  import opened Transport
  import opened Outbox
  import opened Protocol
  import opened Durability
  import opened Safety

  /** Removes every event equal to the one just before it. */
  function Collapse(events: seq<Event>): seq<Event> {
    if |events| <= 1 then events
    else
      var n := |events| - 1;
      if events[n] == events[n - 1] then Collapse(events[..n]) else Collapse(events[..n]) + [events[n]]
  }

  lemma {:induction false} CollapseKeepsEvents(events: seq<Event>)
    ensures forall e :: e in Collapse(events) <==> e in events
    ensures events != [] ==> Collapse(events) != [] && Collapse(events)[|Collapse(events)| - 1] == events[|events| - 1]
  {
    if |events| > 1 {
      var n := |events| - 1;
      CollapseKeepsEvents(events[..n]);
      assert events == events[..n] + [events[n]];
    }
  }

  lemma {:induction false} CollapseAppend(events: seq<Event>, event: Event)
    ensures events != [] && events[|events| - 1] == event ==> Collapse(events + [event]) == Collapse(events)
    ensures events == [] || events[|events| - 1] != event ==> Collapse(events + [event]) == Collapse(events) + [event]
  {
  }

  predicate OnlyPublisher(a: Action, p: nat) {
    match a
    case Select(x) => x == p
    case Publish(x, _) => x == p
    case Mark(x, _, _) => x == p
    case StopPublisher(x) => x == p
    case _ => true
  }

  ghost predicate SolePublisher(run: seq<Action>, p: nat) {
    forall i | 0 <= i < |run| :: OnlyPublisher(run[i], p)
  }

  /**
   * The shape of every reachable state: the first `marked` rows are published and no others; the stream
   * shows the first `sent` rows, which is the marked ones and at most one more; the publisher's batch
   * starts at the first unmarked row.
   */
  ghost predicate InStep(s: State, p: nat, marked: nat, sent: nat) {
    && StreamInStep(s.tables.outbox, s.events, marked, sent)
    && PhaseInStep(s.tables.outbox, PublisherAt(s, p), marked, sent)
  }

  ghost predicate StreamInStep(outbox: seq<OutboxRow>, events: seq<Event>, marked: nat, sent: nat) {
    && marked <= sent <= marked + 1 && sent <= |outbox|
    && (forall i | 0 <= i < |outbox| :: outbox[i].publishedAt.Some? <==> i < marked)
    && Collapse(events) == EventsOf(outbox[..sent])
  }

  ghost predicate PhaseInStep(outbox: seq<OutboxRow>, phase: Publisher, marked: nat, sent: nat) {
    match phase
    case Resting => true
    case Batch(rows) => marked + |rows| <= |outbox| && rows == outbox[marked..marked + |rows|]
    case Unmarked(row, rest) =>
      && sent == marked + 1 && marked + 1 + |rest| <= |outbox|
      && row == outbox[marked]
      && rest == outbox[marked + 1..marked + 1 + |rest|]
  }

  lemma {:induction false} PendingIsSuffix(outbox: seq<OutboxRow>, marked: nat)
    requires marked <= |outbox|
    requires forall i | 0 <= i < |outbox| :: outbox[i].publishedAt.Some? <==> i < marked
    ensures Pending(outbox) == outbox[marked..]
  {
    if outbox != [] {
      if marked > 0 {
        PendingIsSuffix(outbox[1..], marked - 1);
        assert outbox[1..][marked - 1..] == outbox[marked..];
      } else {
        PendingIsSuffix(outbox[1..], 0);
        assert outbox == [outbox[0]] + outbox[1..];
      }
    }
  }

  lemma AscendingQueue(outbox: seq<OutboxRow>, marked: nat)
    requires marked <= |outbox| && OldestFirst(outbox[marked..])
    requires forall i | 0 <= i < |outbox| :: outbox[i].publishedAt.Some? <==> i < marked
    ensures Queue(outbox) == outbox[marked..]
  {
    PendingIsSuffix(outbox, marked);
    assert Ascending(outbox[marked..], PendingKey);
    SortOfAscending(outbox[marked..], PendingKey);
  }

  lemma BatchContinues(outbox: seq<OutboxRow>, marked: nat)
    requires marked <= |outbox| && OldestFirst(outbox[marked..])
    requires forall i | 0 <= i < |outbox| :: outbox[i].publishedAt.Some? <==> i < marked
    ensures var batch := SelectBatch(outbox);
            marked + |batch| <= |outbox| && batch == outbox[marked..marked + |batch|]
  {
    AscendingQueue(outbox, marked);
  }

  lemma SelectInStep(s: State, p: nat, marked: nat, sent: nat)
    requires InStep(s, p, marked, sent) && OldestFirst(s.tables.outbox[marked..])
    ensures InStep(ExecSelect(s, p), p, marked, sent)
  {
    BatchContinues(s.tables.outbox, marked);
  }

  /** Publishing the first unmarked row either adds it to the collapsed stream or repeats its last event. */
  lemma StoreInStep(outbox: seq<OutboxRow>, events: seq<Event>, marked: nat, sent: nat, inWindow: bool)
    requires UniqueOutbox(outbox) && marked < |outbox|
    requires marked <= sent <= marked + 1 && sent <= |outbox|
    requires Collapse(events) == EventsOf(outbox[..sent])
    ensures Collapse(StoreEvent(events, EventOf(outbox[marked]), inWindow)) == EventsOf(outbox[..marked + 1])
  {
    var event := EventOf(outbox[marked]);
    CollapseKeepsEvents(events);
    CollapseAppend(events, event);
    var shown := EventsOf(outbox[..sent]);
    if sent == marked {
      forall e | 0 <= e < |events|
        ensures events[e].messageId != event.messageId
      {
        assert events[e] in shown;
        var i :| 0 <= i < sent && shown[i] == events[e];
        assert outbox[i].dedupeKey != outbox[marked].dedupeKey;
      }
      assert EventsOf(outbox[..marked + 1]) == shown + [event];
    } else {
      assert shown[marked] == event;
      assert shown != [];
    }
  }

  lemma NextPhaseInStep(outbox: seq<OutboxRow>, rows: seq<OutboxRow>, marked: nat, sent: nat)
    requires rows != [] && PhaseInStep(outbox, Batch(rows), marked, sent)
    ensures marked < |outbox| && rows[0] == outbox[marked]
    ensures PhaseInStep(outbox, Unmarked(rows[0], rows[1..]), marked, marked + 1)
  {
  }

  lemma PublishInStep(cfg: Config, s: State, p: nat, outcome: PublishOutcome, marked: nat, sent: nat)
    returns (sent': nat)
    requires InStep(s, p, marked, sent) && UniqueOutbox(s.tables.outbox)
    ensures InStep(ExecPublish(cfg, s, p, outcome), p, marked, sent')
  {
    sent' := sent;
    var phase := PublisherAt(s, p);
    var later := ExecPublish(cfg, s, p, outcome);
    if phase.Batch? && phase.rows != [] && !Oversized(cfg.size, phase.rows[0]) && outcome.Stored? {
      NextPhaseInStep(s.tables.outbox, phase.rows, marked, sent);
      StoreInStep(s.tables.outbox, s.events, marked, sent, outcome.inWindow);
      sent' := marked + 1;
      assert StreamInStep(later.tables.outbox, later.events, marked, sent');
    } else {
      assert later.tables == s.tables && later.events == s.events;
      assert PublisherAt(later, p).Resting? || PublisherAt(later, p) == phase;
    }
  }

  lemma MarkFirst(outbox: seq<OutboxRow>, marked: nat, stamp: int)
    requires UniqueOutbox(outbox) && marked < |outbox|
    requires forall i | 0 <= i < |outbox| :: outbox[i].publishedAt.Some? <==> i < marked
    ensures var later := MarkRow(outbox, outbox[marked].eventId, stamp);
            && (forall i | 0 <= i < |outbox| :: later[i].publishedAt.Some? <==> i < marked + 1)
            && later[marked + 1..] == outbox[marked + 1..]
            && EventsOf(later[..marked + 1]) == EventsOf(outbox[..marked + 1])
  {
  }

  lemma MarkInStep(s: State, p: nat, stamp: int, update: MarkOutcome, marked: nat, sent: nat)
    returns (marked': nat)
    requires InStep(s, p, marked, sent) && UniqueOutbox(s.tables.outbox)
    ensures InStep(ExecMark(s, p, stamp, update), p, marked', sent) && marked <= marked'
  {
    marked' := marked;
    var phase := PublisherAt(s, p);
    if phase.Unmarked? && update != MarkFails(false) {
      MarkFirst(s.tables.outbox, marked, stamp);
      marked' := marked + 1;
      var outbox, later := s.tables.outbox, ExecMark(s, p, stamp, update).tables.outbox;
      assert later == MarkRow(outbox, outbox[marked].eventId, stamp);
      assert later[marked + 1..marked + 1 + |phase.rest|] == later[marked + 1..][..|phase.rest|] == phase.rest;
    }
  }

  /** Rows committed later go behind everything the publisher is working on. */
  lemma GrowthInStep(outbox: seq<OutboxRow>, later: seq<OutboxRow>, events: seq<Event>, phase: Publisher,
                     marked: nat, sent: nat)
    requires outbox <= later && forall i | |outbox| <= i < |later| :: later[i].publishedAt.None?
    requires StreamInStep(outbox, events, marked, sent) && PhaseInStep(outbox, phase, marked, sent)
    ensures StreamInStep(later, events, marked, sent) && PhaseInStep(later, phase, marked, sent)
  {
  }

  lemma CommitInStep(s: State, c: nat, eventId: Uuid, stamp: int, result: CommitKind, p: nat, marked: nat, sent: nat)
    requires InStep(s, p, marked, sent)
    ensures InStep(ExecCommit(s, c, eventId, stamp, result), p, marked, sent)
  {
    CommitAppends(s, c, eventId, stamp, result);
    GrowthInStep(s.tables.outbox, ExecCommit(s, c, eventId, stamp, result).tables.outbox, s.events,
                 PublisherAt(s, p), marked, sent);
  }

  lemma CommitAppends(s: State, c: nat, eventId: Uuid, stamp: int, result: CommitKind)
    ensures var later := ExecCommit(s, c, eventId, stamp, result);
            && s.tables.outbox <= later.tables.outbox
            && (forall i | |s.tables.outbox| <= i < |later.tables.outbox| :: later.tables.outbox[i].publishedAt.None?)
            && later.events == s.events && later.publishers == s.publishers
  {
  }

  lemma OtherStepsInStep(cfg: Config, s: State, a: Action, p: nat, marked: nat, sent: nat)
    requires InStep(s, p, marked, sent) && OnlyPublisher(a, p)
    requires !a.Commit? && !a.Select? && !a.Publish? && !a.Mark?
    ensures InStep(Exec(cfg, s, a), p, marked, sent)
  {
  }

  lemma StepInStep(cfg: Config, s: State, a: Action, p: nat, marked: nat, sent: nat)
    returns (marked': nat, sent': nat)
    requires InStep(s, p, marked, sent) && OnlyPublisher(a, p)
    requires UniqueOutbox(s.tables.outbox) && OldestFirst(s.tables.outbox[marked..])
    ensures InStep(Exec(cfg, s, a), p, marked', sent') && marked <= marked'
  {
    marked', sent' := marked, sent;
    match a
    case Commit(c, eventId, stamp, result) => CommitInStep(s, c, eventId, stamp, result, p, marked, sent);
    case Select(_) => SelectInStep(s, p, marked, sent);
    case Publish(_, outcome) => sent' := PublishInStep(cfg, s, p, outcome, marked, sent);
    case Mark(_, stamp, update) => marked' := MarkInStep(s, p, stamp, update, marked, sent);
    case _ => OtherStepsInStep(cfg, s, a, p, marked, sent);
  }

  /** Rows keep their place and their key, so an order that holds later held before. */
  lemma OrderedEarlier(s: State, later: State, from: nat)
    requires Extends(s, later) && from <= |s.tables.outbox| && OldestFirst(later.tables.outbox[from..])
    ensures OldestFirst(s.tables.outbox[from..])
  {
    var mine, theirs := s.tables.outbox[from..], later.tables.outbox[from..];
    forall i, j | 0 <= i < j < |mine|
      ensures Ahead(mine[i], mine[j])
    {
      assert Ahead(theirs[i], theirs[j]);
      assert SameRow(s.tables.outbox[from + i], later.tables.outbox[from + i]);
      assert SameRow(s.tables.outbox[from + j], later.tables.outbox[from + j]);
    }
  }

  lemma OrderedSuffix(rows: seq<OutboxRow>, from: nat, further: nat)
    requires from <= further <= |rows| && OldestFirst(rows[from..])
    ensures OldestFirst(rows[further..])
  {
    assert forall i | 0 <= i < |rows| - further :: rows[further..][i] == rows[from..][further - from + i];
  }

  lemma {:induction false} RunInStep(cfg: Config, s: State, run: seq<Action>, p: nat, from: nat, sent: nat)
    returns (marked': nat, sent': nat)
    requires Inv(cfg, s) && InStep(s, p, from, sent) && SolePublisher(run, p)
    requires from <= |RunFrom(cfg, s, run).tables.outbox|
    requires OldestFirst(RunFrom(cfg, s, run).tables.outbox[from..])
    ensures InStep(RunFrom(cfg, s, run), p, marked', sent') && from <= marked'
  {
    marked', sent' := from, sent;
    if run != [] {
      var n := |run| - 1;
      var before := RunFrom(cfg, s, run[..n]);
      RunExtends(cfg, s, run[..n]);
      StepExtends(cfg, before, run[n]);
      OrderedEarlier(before, RunFrom(cfg, s, run), from);
      assert SolePublisher(run[..n], p);
      marked', sent' := RunInStep(cfg, s, run[..n], p, from, sent);
      OrderedSuffix(before.tables.outbox, from, marked');
      RunKeepsInv(cfg, s, run[..n]);
      marked', sent' := StepInStep(cfg, before, run[n], p, marked', sent');
    }
  }

  /**
   * In every run with one publisher in which (created_at, event_id) increases in commit order, the
   * event stream with consecutive repeats removed is a prefix of the replies in commit order. This holds
   * through refused publishes, lost acknowledgements, failed marks and restarts at any point, for any
   * number of consumers. The prefix covers every row marked published and at most one row more.
   */
  lemma EventsFollowCommitOrder(cfg: Config, run: seq<Action>, p: nat) returns (sent: nat)
    requires SolePublisher(run, p) && OldestFirst(Run(cfg, run).tables.outbox)
    ensures var s := Run(cfg, run);
            && sent <= |s.tables.outbox|
            && Collapse(s.events) == EventsOf(s.tables.outbox)[..sent]
            && (forall i | 0 <= i < |s.tables.outbox| && s.tables.outbox[i].publishedAt.Some? :: i < sent)
            && (forall i | 0 <= i < sent - 1 :: s.tables.outbox[i].publishedAt.Some?)
  {
    EveryRunIsSafe(cfg, []);
    assert EventsOf([]) == [];
    var outbox := Run(cfg, run).tables.outbox;
    assert outbox[0..] == outbox;
    var marked;
    marked, sent := RunInStep(cfg, INITIAL, run, p, 0, 0);
    assert EventsOf(outbox[..sent]) == EventsOf(outbox)[..sent];
  }
}
