/** What a publisher alone shows: the queue, in its order, after whatever the stream showed before. */
module QueueOrder {
  import opened Transport
  import opened Outbox
  import opened Protocol
  import opened DeliveryOrder
  import opened Blocking

  /** No step of the run commits a reply. */
  ghost predicate NoCommits(run: seq<Action>) {
    forall i | 0 <= i < |run| :: !run[i].Commit?
  }

  function SendFirst(p: nat): seq<Action> {
    [Select(p), Publish(p, SENT), Mark(p, 0, Marked), StopPublisher(p)]
  }

  /** A resting publisher sends and marks the head of the queue, then stops. */
  lemma SendsFirst(cfg: Config, s: State, p: nat)
    requires DistinctEventIds(s.tables.outbox) && PublisherAt(s, p).Resting? && Queue(s.tables.outbox) != []
    requires !Oversized(cfg.size, Queue(s.tables.outbox)[0])
    ensures var q, later := Queue(s.tables.outbox), RunFrom(cfg, s, SendFirst(p));
            && PublisherAt(later, p).Resting?
            && later.events == s.events + [EventOf(q[0])]
            && DistinctEventIds(later.tables.outbox) && Queue(later.tables.outbox) == q[1..]
  {
    var batch := SelectBatch(s.tables.outbox);
    QueueAfterFirst(s.tables.outbox, 0);
    SendFirstIs(cfg, s, p);
    SelectThenSend(cfg, s, p);
    MarkThenStop(ExecPublish(cfg, ExecSelect(s, p), p, SENT), p, batch[0], batch[1..]);
  }

  lemma SendFirstIs(cfg: Config, s: State, p: nat)
    ensures RunFrom(cfg, s, SendFirst(p))
         == SetPublisher(ExecMark(ExecPublish(cfg, ExecSelect(s, p), p, SENT), p, 0, Marked), p, Resting)
  {
    RunFour(cfg, s, Select(p), Publish(p, SENT), Mark(p, 0, Marked), StopPublisher(p));
  }

  lemma SelectThenSend(cfg: Config, s: State, p: nat)
    requires PublisherAt(s, p).Resting? && Queue(s.tables.outbox) != []
    requires !Oversized(cfg.size, Queue(s.tables.outbox)[0])
    ensures var batch, later := SelectBatch(s.tables.outbox), ExecPublish(cfg, ExecSelect(s, p), p, SENT);
            && batch != [] && batch[0] == Queue(s.tables.outbox)[0]
            && PublisherAt(later, p) == Unmarked(batch[0], batch[1..])
            && later.events == s.events + [EventOf(batch[0])] && later.tables == s.tables
  {
  }

  lemma MarkThenStop(s: State, p: nat, row: OutboxRow, rest: seq<OutboxRow>)
    requires PublisherAt(s, p) == Unmarked(row, rest)
    ensures var later := SetPublisher(ExecMark(s, p, 0, Marked), p, Resting);
            && PublisherAt(later, p).Resting? && later.events == s.events
            && later.tables.outbox == MarkRow(s.tables.outbox, row.eventId, 0)
  {
  }

  lemma QueueAfterFirst(outbox: seq<OutboxRow>, now: int)
    requires DistinctEventIds(outbox) && Queue(outbox) != []
    ensures var later := MarkRow(outbox, Queue(outbox)[0].eventId, now);
            DistinctEventIds(later) && Queue(later) == Queue(outbox)[1..]
  {
    var q := Queue(outbox);
    assert IdsOf(q[..1]) == {q[0].eventId};
    assert MarkedBy(outbox, IdsOf(q[..1]), now) == MarkRow(outbox, q[0].eventId, now);
    QueueAfterMarking(outbox, 1, now);
  }

  lemma NextOfQueue(q: seq<OutboxRow>, k: nat)
    requires 0 < k <= |q|
    ensures q[k - 1..][1..] == q[k..]
    ensures EventsOf(q[..k]) == EventsOf(q[..k - 1]) + [EventOf(q[k - 1])]
  {
  }

  /** The publisher rests after sending the first `k` rows of the queue `q`, with the others still in it. */
  ghost predicate SentFirst(later: State, p: nat, before: seq<Event>, q: seq<OutboxRow>, k: nat) {
    && k <= |q|
    && PublisherAt(later, p).Resting? && DistinctEventIds(later.tables.outbox)
    && Queue(later.tables.outbox) == q[k..]
    && later.events == before + EventsOf(q[..k])
  }

  lemma SendsOneMore(cfg: Config, s: State, p: nat, before: seq<Event>, q: seq<OutboxRow>, k: nat)
    requires SentFirst(s, p, before, q, k) && k < |q| && !Oversized(cfg.size, q[k])
    ensures SentFirst(RunFrom(cfg, s, SendFirst(p)), p, before, q, k + 1)
  {
    assert Queue(s.tables.outbox)[0] == q[k];
    SendsFirst(cfg, s, p);
    NextOfQueue(q, k + 1);
    assert before + EventsOf(q[..k]) + [EventOf(q[k])] == before + EventsOf(q[..k + 1]);
  }

  /** A publisher alone can put the first `k` rows of the queue on the stream, in queue order. */
  lemma {:induction false} SendsInQueueOrder(cfg: Config, s: State, p: nat, k: nat) returns (run: seq<Action>)
    requires DistinctEventIds(s.tables.outbox) && PublisherAt(s, p).Resting?
    requires k <= FirstOversized(cfg.size, Queue(s.tables.outbox))
    ensures SolePublisher(run, p) && NoCommits(run)
    ensures SentFirst(RunFrom(cfg, s, run), p, s.events, Queue(s.tables.outbox), k)
  {
    var q := Queue(s.tables.outbox);
    if k == 0 {
      run := [];
      assert q[0..] == q && EventsOf(q[..0]) == [];
    } else {
      var before := SendsInQueueOrder(cfg, s, p, k - 1);
      FirstOversizedSplits(cfg.size, q);
      SendsOneMore(cfg, RunFrom(cfg, s, before), p, s.events, q, k - 1);
      run := before + SendFirst(p);
      RunConcat(cfg, s, before, SendFirst(p));
    }
  }

  ghost predicate NoRepeats(events: seq<Event>) {
    forall i | 0 < i < |events| :: events[i - 1] != events[i]
  }

  /** Where `b` repeats nothing, collapsing can merge at most its first event with the last one of `a`. */
  lemma {:induction false} CollapseConcat(a: seq<Event>, b: seq<Event>)
    requires NoRepeats(b)
    ensures var merged := if a != [] && b != [] && b[0] == a[|a| - 1] then 1 else 0;
            Collapse(a + b) == Collapse(a) + b[merged..]
  {
    if |b| <= 1 {
      CollapseOne(a, b);
    } else {
      var n := |b| - 1;
      var merged := if a != [] && b[0] == a[|a| - 1] then 1 else 0;
      var front := a + b[..n];
      CollapseConcat(a, b[..n]);
      CollapseAppend(front, b[n]);
      assert front + [b[n]] == a + b && front[|front| - 1] == b[n - 1];
      LastEvent(Collapse(a), b, merged);
    }
  }

  lemma LastEvent(before: seq<Event>, b: seq<Event>, from: nat)
    requires from < |b|
    ensures before + b[..|b| - 1][from..] + [b[|b| - 1]] == before + b[from..]
  {
  }

  lemma CollapseOne(a: seq<Event>, b: seq<Event>)
    requires |b| <= 1
    ensures var merged := if a != [] && b != [] && b[0] == a[|a| - 1] then 1 else 0;
            Collapse(a + b) == Collapse(a) + b[merged..]
  {
    if b == [] {
      assert a + b == a;
    } else {
      assert b == [b[0]];
      CollapseAppend(a, b[0]);
    }
  }

  lemma EventsAreDistinct(outbox: seq<OutboxRow>)
    requires UniqueOutbox(outbox)
    ensures forall i, j | 0 <= i < j < |outbox| :: EventsOf(outbox)[i] != EventsOf(outbox)[j]
  {
  }

  // ----- What a publisher alone shows -----

  /** Of the rows that can be sent, only the first may be on the stream already, and then as its last event. */
  ghost predicate Unrepeated(events: seq<Event>, xs: seq<OutboxRow>) {
    forall j | 0 <= j < |xs| && HasMessage(events, xs[j].dedupeKey) :: IsLastEvent(events, xs, j)
  }

  /** Row `j` is the first one, and what the stream ends with. */
  predicate IsLastEvent(events: seq<Event>, xs: seq<OutboxRow>, j: nat) {
    j == 0 && events != [] && xs != [] && events[|events| - 1] == EventOf(xs[0])
  }

  /** The publisher holds the rows of `xs` from the `k`-th on, as far as it will get. */
  predicate PhaseShows(size: Sizer, phase: Publisher, xs: seq<OutboxRow>, k: nat, shown: nat) {
    match phase
    case Resting => true
    case Batch(rows) => Continues(size, rows, xs, k)
    case Unmarked(row, rest) => shown == k + 1 && k < |xs| && row == xs[k] && Continues(size, rest, xs, k + 1)
  }

  predicate Continues(size: Sizer, rows: seq<OutboxRow>, xs: seq<OutboxRow>, k: nat) {
    var f := FirstOversized(size, rows);
    k + f <= |xs| && rows[..f] == xs[k..k + f]
  }

  /** Since `s`, whose queue began with `xs`, `k` rows were marked and `shown` rows put on the stream. */
  ghost predicate Shows(size: Sizer, s: State, xs: seq<OutboxRow>, later: State, p: nat, k: nat, shown: nat) {
    && k <= shown <= k + 1 && shown <= |xs|
    && QueueFrom(s.tables.outbox, later.tables.outbox, k)
    && Collapse(later.events) == Collapse(s.events + EventsOf(xs[..shown]))
    && PhaseShows(size, PublisherAt(later, p), xs, k, shown)
  }

  ghost predicate QueueFrom(outbox: seq<OutboxRow>, later: seq<OutboxRow>, k: nat) {
    DistinctEventIds(later) && k <= |Queue(outbox)| && Queue(later) == Queue(outbox)[k..]
  }

  /** The rows at the head of the queue that are small enough to be sent. */
  function Sendable(size: Sizer, outbox: seq<OutboxRow>): seq<OutboxRow> {
    Queue(outbox)[..FirstOversized(size, Queue(outbox))]
  }

  lemma BatchShows(size: Sizer, outbox: seq<OutboxRow>, later: seq<OutboxRow>, k: nat)
    requires QueueFrom(outbox, later, k) && k <= |Sendable(size, outbox)|
    ensures Continues(size, SelectBatch(later), Sendable(size, outbox), k)
  {
    var q := Queue(outbox);
    FirstOversizedDrop(size, q, k);
    BatchOversized(size, q[k..]);
    var batch := SelectBatch(later);
    var f := FirstOversized(size, batch);
    assert batch[..f] == q[k..][..f] == q[k..k + f];
  }

  lemma ContinuesTail(size: Sizer, rows: seq<OutboxRow>, xs: seq<OutboxRow>, k: nat)
    requires rows != [] && !Oversized(size, rows[0]) && Continues(size, rows, xs, k)
    ensures k < |xs| && rows[0] == xs[k] && Continues(size, rows[1..], xs, k + 1)
  {
    var f := FirstOversized(size, rows);
    assert f == 1 + FirstOversized(size, rows[1..]);
    assert rows[..f][0] == xs[k..k + f][0];
    assert rows[1..][..f - 1] == rows[..f][1..] == xs[k..k + f][1..] == xs[k + 1..k + f];
  }

  lemma CollapseCongruent(a: seq<Event>, b: seq<Event>, e: Event)
    requires Collapse(a) == Collapse(b)
    ensures Collapse(a + [e]) == Collapse(b + [e])
  {
    CollapseKeepsEvents(a);
    CollapseKeepsEvents(b);
    CollapseAppend(a, e);
    CollapseAppend(b, e);
  }

  lemma CollapseSame(events: seq<Event>, e: Event)
    requires events != [] && events[|events| - 1] == e
    ensures Collapse(events + [e]) == Collapse(events)
  {
    CollapseAppend(events, e);
  }

  /** Sending row `k` again changes nothing that is shown. */
  lemma StoreAgainShows(before: seq<Event>, xs: seq<OutboxRow>, events: seq<Event>, k: nat, inWindow: bool)
    requires k < |xs| && Collapse(events) == Collapse(before + EventsOf(xs[..k + 1]))
    ensures Collapse(StoreEvent(events, EventOf(xs[k]), inWindow)) == Collapse(events)
  {
    var whole := before + EventsOf(xs[..k + 1]);
    assert EventsOf(xs[..k + 1])[k] == EventOf(xs[k]);
    assert whole[|whole| - 1] == EventOf(xs[k]);
    CollapseKeepsEvents(whole);
    CollapseKeepsEvents(events);
    assert Collapse([]) == [];
    CollapseSame(events, EventOf(xs[k]));
  }

  lemma SameMessages(a: seq<Event>, b: seq<Event>, key: string)
    requires Collapse(a) == Collapse(b) && HasMessage(a, key)
    ensures HasMessage(b, key)
  {
    CollapseKeepsEvents(a);
    CollapseKeepsEvents(b);
    var i :| 0 <= i < |a| && a[i].messageId == key;
    assert a[i] in b;
  }

  lemma MessageWasBefore(before: seq<Event>, xs: seq<OutboxRow>, key: string)
    requires HasMessage(before + EventsOf(xs), key) && forall j | 0 <= j < |xs| :: xs[j].dedupeKey != key
    ensures HasMessage(before, key)
  {
    var whole := before + EventsOf(xs);
    assert forall i | |before| <= i < |whole| :: whole[i] == EventOf(xs[i - |before|]);
    var i :| 0 <= i < |whole| && whole[i].messageId == key;
    assert before[i].messageId == key;
  }

  /** If the broker knows row `k` before it is sent, it was the last event from the start. */
  lemma KnownIsLast(before: seq<Event>, xs: seq<OutboxRow>, events: seq<Event>, k: nat)
    requires k < |xs| && DistinctReplyKeys(xs) && Unrepeated(before, xs)
    requires Collapse(events) == Collapse(before + EventsOf(xs[..k])) && HasMessage(events, xs[k].dedupeKey)
    ensures IsLastEvent(before, xs, k)
  {
    SameMessages(events, before + EventsOf(xs[..k]), xs[k].dedupeKey);
    MessageWasBefore(before, xs[..k], xs[k].dedupeKey);
  }

  lemma NextEvents(before: seq<Event>, xs: seq<OutboxRow>, k: nat)
    requires k < |xs|
    ensures before + EventsOf(xs[..k + 1]) == before + EventsOf(xs[..k]) + [EventOf(xs[k])]
  {
  }

  lemma StoreShows(before: seq<Event>, xs: seq<OutboxRow>, events: seq<Event>, k: nat, inWindow: bool)
    requires k < |xs| && DistinctReplyKeys(xs) && Unrepeated(before, xs)
    requires Collapse(events) == Collapse(before + EventsOf(xs[..k]))
    ensures Collapse(StoreEvent(events, EventOf(xs[k]), inWindow)) == Collapse(before + EventsOf(xs[..k + 1]))
  {
    NextEvents(before, xs, k);
    if inWindow && HasMessage(events, xs[k].dedupeKey) {
      KnownIsLast(before, xs, events, k);
      assert before + EventsOf(xs[..0]) == before;
      CollapseSame(before, EventOf(xs[0]));
    } else {
      CollapseCongruent(events, before + EventsOf(xs[..k]), EventOf(xs[k]));
    }
  }

  lemma PublishShows(cfg: Config, s: State, xs: seq<OutboxRow>, later: State, p: nat, k: nat, shown: nat,
                     outcome: PublishOutcome)
    returns (shown': nat)
    requires Shows(cfg.size, s, xs, later, p, k, shown) && DistinctReplyKeys(xs) && Unrepeated(s.events, xs)
    ensures Shows(cfg.size, s, xs, ExecPublish(cfg, later, p, outcome), p, k, shown')
  {
    shown' := shown;
    var phase := PublisherAt(later, p);
    if phase.Batch? && phase.rows != [] && !Oversized(cfg.size, phase.rows[0]) && outcome.Stored? {
      ContinuesTail(cfg.size, phase.rows, xs, k);
      shown' := k + 1;
      if shown == k {
        StoreShows(s.events, xs, later.events, k, outcome.inWindow);
      } else {
        StoreAgainShows(s.events, xs, later.events, k, outcome.inWindow);
      }
    }
  }

  lemma MarkShows(cfg: Config, s: State, later: State, p: nat, k: nat, shown: nat, stamp: int, update: MarkOutcome)
    returns (k': nat)
    requires Shows(cfg.size, s, Sendable(cfg.size, s.tables.outbox), later, p, k, shown)
    ensures Shows(cfg.size, s, Sendable(cfg.size, s.tables.outbox), ExecMark(later, p, stamp, update), p, k', shown)
  {
    k' := k;
    if PublisherAt(later, p).Unmarked? && update != MarkFails(false) {
      var q := Queue(s.tables.outbox);
      assert Queue(later.tables.outbox)[0] == q[k];
      QueueAfterFirst(later.tables.outbox, stamp);
      assert q[k..][1..] == q[k + 1..];
      k' := k + 1;
    }
  }

  lemma OtherStepsShow(cfg: Config, s: State, xs: seq<OutboxRow>, later: State, p: nat, k: nat, shown: nat, a: Action)
    requires Shows(cfg.size, s, xs, later, p, k, shown) && OnlyPublisher(a, p)
    requires !a.Commit? && !a.Select? && !a.Publish? && !a.Mark?
    ensures Shows(cfg.size, s, xs, Exec(cfg, later, a), p, k, shown)
  {
    OtherStepsAreQuiet(cfg, later, a, p);
  }

  lemma OtherStepsAreQuiet(cfg: Config, s: State, a: Action, p: nat)
    requires !a.Commit? && !a.Select? && !a.Publish? && !a.Mark?
    ensures var later := Exec(cfg, s, a);
            && later.tables == s.tables && later.events == s.events
            && (PublisherAt(later, p) == PublisherAt(s, p) || PublisherAt(later, p).Resting?)
  {
  }

  lemma SelectShows(cfg: Config, s: State, later: State, p: nat, k: nat, shown: nat)
    requires Shows(cfg.size, s, Sendable(cfg.size, s.tables.outbox), later, p, k, shown)
    ensures Shows(cfg.size, s, Sendable(cfg.size, s.tables.outbox), ExecSelect(later, p), p, k, shown)
  {
    BatchShows(cfg.size, s.tables.outbox, later.tables.outbox, k);
  }

  lemma StepShows(cfg: Config, s: State, later: State, p: nat, k: nat, shown: nat, a: Action)
    returns (k': nat, shown': nat)
    requires var xs := Sendable(cfg.size, s.tables.outbox);
             Shows(cfg.size, s, xs, later, p, k, shown) && DistinctReplyKeys(xs) && Unrepeated(s.events, xs)
    requires OnlyPublisher(a, p) && !a.Commit?
    ensures Shows(cfg.size, s, Sendable(cfg.size, s.tables.outbox), Exec(cfg, later, a), p, k', shown')
  {
    k', shown' := k, shown;
    var xs := Sendable(cfg.size, s.tables.outbox);
    match a
    case Select(_) => SelectShows(cfg, s, later, p, k, shown);
    case Publish(_, outcome) => shown' := PublishShows(cfg, s, xs, later, p, k, shown, outcome);
    case Mark(_, stamp, update) => k' := MarkShows(cfg, s, later, p, k, shown, stamp, update);
    case _ => OtherStepsShow(cfg, s, xs, later, p, k, shown, a);
  }

  /** In every run of a publisher alone, the stream shows what it showed before and then the queue in its order. */
  lemma {:induction false} RunShows(cfg: Config, s: State, p: nat, more: seq<Action>) returns (k: nat, shown: nat)
    requires UniqueOutbox(s.tables.outbox) && PublisherAt(s, p).Resting?
    requires Unrepeated(s.events, Sendable(cfg.size, s.tables.outbox))
    requires SolePublisher(more, p) && NoCommits(more)
    ensures Shows(cfg.size, s, Sendable(cfg.size, s.tables.outbox), RunFrom(cfg, s, more), p, k, shown)
  {
    if more == [] {
      k, shown := 0, 0;
      var xs := Sendable(cfg.size, s.tables.outbox);
      assert Queue(s.tables.outbox)[0..] == Queue(s.tables.outbox);
      assert s.events + EventsOf(xs[..0]) == s.events;
    } else {
      var n := |more| - 1;
      k, shown := RunShows(cfg, s, p, more[..n]);
      SendableKeys(cfg.size, s.tables.outbox);
      k, shown := StepShows(cfg, s, RunFrom(cfg, s, more[..n]), p, k, shown, more[n]);
    }
  }

  lemma SendableKeys(size: Sizer, outbox: seq<OutboxRow>)
    requires UniqueOutbox(outbox)
    ensures DistinctReplyKeys(Sendable(size, outbox)) && NoRepeats(EventsOf(Sendable(size, outbox)))
    ensures forall x | x in Sendable(size, outbox) :: x in outbox && x.publishedAt.None?
  {
    QueueIsOrdered(outbox);
    QueueKeys(outbox);
    var xs, q := Sendable(size, outbox), Queue(outbox);
    assert forall i | 0 <= i < |xs| :: xs[i] == q[i] && q[i] in q;
  }

  lemma QueueKeys(outbox: seq<OutboxRow>)
    requires UniqueOutbox(outbox)
    ensures DistinctReplyKeys(Queue(outbox))
  {
    QueueIsOrdered(outbox);
    var q := Queue(outbox);
    forall i, j | 0 <= i < j < |q|
      ensures q[i].dedupeKey != q[j].dedupeKey
    {
      assert Ahead(q[i], q[j]);
      assert q[i] in outbox && q[j] in outbox;
    }
  }
}
