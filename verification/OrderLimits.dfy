/** With one publisher: exactly which states keep the commit order. */
module OrderLimits {
  import opened Ordering
  import opened Transport
  import opened Outbox
  import opened Protocol
  import opened DeliveryOrder
  import opened QueueOrder

  lemma QueueLength(outbox: seq<OutboxRow>, marked: nat)
    requires marked <= |outbox|
    requires forall i | 0 <= i < |outbox| :: outbox[i].publishedAt.Some? <==> i < marked
    ensures |Queue(outbox)| == |outbox| - marked
  {
    PendingIsSuffix(outbox, marked);
    SortRows(Pending(outbox), PendingKey);
  }

  ghost predicate NothingOversized(cfg: Config, outbox: seq<OutboxRow>, from: nat) {
    forall i | from <= i < |outbox| :: !Oversized(cfg.size, outbox[i])
  }

  lemma WholeQueueFits(cfg: Config, outbox: seq<OutboxRow>, marked: nat)
    requires DistinctEventIds(outbox) && NothingOversized(cfg, outbox, marked)
    requires forall i | 0 <= i < |outbox| :: outbox[i].publishedAt.Some? <==> i < marked
    ensures FirstOversized(cfg.size, Queue(outbox)) == |Queue(outbox)|
  {
    var q := Queue(outbox);
    QueueIsOrdered(outbox);
    FirstOversizedSplits(cfg.size, q);
    forall k | 0 <= k < |q|
      ensures !Oversized(cfg.size, q[k])
    {
      assert q[k] in q;
    }
  }

  /** Every continuation by publisher `p` alone, without new commits, shows a prefix of the commit order. */
  ghost predicate OrderIsKept(cfg: Config, s: State, p: nat) {
    forall more | SolePublisher(more, p) && NoCommits(more) ::
      Collapse(RunFrom(cfg, s, more).events) <= EventsOf(s.tables.outbox)
  }

  lemma {:induction false} EventsAreFixed(cfg: Config, s: State, more: seq<Action>)
    requires NoCommits(more)
    ensures EventsOf(RunFrom(cfg, s, more).tables.outbox) == EventsOf(s.tables.outbox)
    ensures forall i | 0 <= i < |s.tables.outbox| ::
              PendingKey(RunFrom(cfg, s, more).tables.outbox[i]) == PendingKey(s.tables.outbox[i])
  {
    if more != [] {
      var n := |more| - 1;
      EventsAreFixed(cfg, s, more[..n]);
      StepFixesEvents(cfg, RunFrom(cfg, s, more[..n]), more[n]);
    }
  }

  lemma StepFixesEvents(cfg: Config, s: State, a: Action)
    requires !a.Commit?
    ensures EventsOf(Exec(cfg, s, a).tables.outbox) == EventsOf(s.tables.outbox)
    ensures forall i | 0 <= i < |s.tables.outbox| ::
              PendingKey(Exec(cfg, s, a).tables.outbox[i]) == PendingKey(s.tables.outbox[i])
  {
    if !a.Mark? {
      assert Exec(cfg, s, a).tables.outbox == s.tables.outbox;
    }
  }

  lemma OrderCarriesOver(before: seq<OutboxRow>, after: seq<OutboxRow>, from: nat)
    requires |before| == |after| && from <= |before| && OldestFirst(before[from..])
    requires forall i | 0 <= i < |before| :: PendingKey(after[i]) == PendingKey(before[i])
    ensures OldestFirst(after[from..])
  {
    forall i, j | 0 <= i < j < |after| - from
      ensures Ahead(after[from..][i], after[from..][j])
    {
      assert Ahead(before[from..][i], before[from..][j]);
      assert PendingKey(after[from + i]) == PendingKey(before[from + i]);
      assert PendingKey(after[from + j]) == PendingKey(before[from + j]);
    }
  }

  // ----- When the queue continues the commit order -----

  /** `rows` are the replies committed from position `from` on. */
  predicate InCommitOrder(rows: seq<OutboxRow>, outbox: seq<OutboxRow>, from: nat) {
    from + |rows| <= |outbox| && rows == outbox[from..from + |rows|]
  }

  /**
   * The rows that can be sent continue what the stream shows: from the first unmarked reply, which the
   * stream may show already, or else from the first reply that it does not show.
   */
  predicate ContinuesStream(rows: seq<OutboxRow>, outbox: seq<OutboxRow>, marked: nat, sent: nat) {
    InCommitOrder(rows, outbox, marked) || InCommitOrder(rows, outbox, sent)
  }

  /** What the stream ends with while it is in step. */
  lemma LastShown(outbox: seq<OutboxRow>, events: seq<Event>, marked: nat, sent: nat)
    requires StreamInStep(outbox, events, marked, sent)
    ensures events == [] <==> sent == 0
    ensures events != [] ==> events[|events| - 1] == EventOf(outbox[sent - 1])
  {
    CollapseKeepsEvents(events);
    var shown := EventsOf(outbox[..sent]);
    assert events == [] ==> Collapse(events) == [];
  }

  lemma ContinuedFromSent(outbox: seq<OutboxRow>, events: seq<Event>, marked: nat, sent: nat, xs: seq<OutboxRow>)
    requires UniqueOutbox(outbox) && StreamInStep(outbox, events, marked, sent) && NoRepeats(EventsOf(xs))
    requires xs != [] && InCommitOrder(xs, outbox, sent)
    ensures Collapse(events + EventsOf(xs)) <= EventsOf(outbox)
  {
    CollapseConcat(events, EventsOf(xs));
    LastShown(outbox, events, marked, sent);
    assert xs[0] == outbox[sent];
    assert sent > 0 ==> EventOf(outbox[sent - 1]) != EventOf(outbox[sent]);
    ShownThen(outbox, sent, xs, sent, 0);
  }

  /** The first row is what the stream ends with, and collapses into it. */
  lemma ContinuedFromMarked(outbox: seq<OutboxRow>, events: seq<Event>, marked: nat, sent: nat, xs: seq<OutboxRow>)
    requires StreamInStep(outbox, events, marked, sent) && NoRepeats(EventsOf(xs))
    requires xs != [] && InCommitOrder(xs, outbox, marked) && sent == marked + 1
    ensures Collapse(events + EventsOf(xs)) <= EventsOf(outbox)
  {
    CollapseConcat(events, EventsOf(xs));
    LastShown(outbox, events, marked, sent);
    assert xs[0] == outbox[marked];
    ShownThen(outbox, sent, xs, marked, 1);
  }

  lemma ContinuedIsShown(outbox: seq<OutboxRow>, events: seq<Event>, marked: nat, sent: nat, xs: seq<OutboxRow>)
    requires UniqueOutbox(outbox) && StreamInStep(outbox, events, marked, sent) && NoRepeats(EventsOf(xs))
    requires ContinuesStream(xs, outbox, marked, sent)
    ensures Collapse(events + EventsOf(xs)) <= EventsOf(outbox)
  {
    if xs == [] {
      assert events + EventsOf(xs) == events;
      assert EventsOf(outbox[..sent]) == EventsOf(outbox)[..sent];
    } else if InCommitOrder(xs, outbox, sent) {
      ContinuedFromSent(outbox, events, marked, sent, xs);
    } else {
      ContinuedFromMarked(outbox, events, marked, sent, xs);
    }
  }

  lemma ShownThen(outbox: seq<OutboxRow>, sent: nat, xs: seq<OutboxRow>, from: nat, merged: nat)
    requires InCommitOrder(xs, outbox, from) && merged <= |xs| && from + merged == sent
    ensures sent <= |outbox|
    ensures EventsOf(outbox[..sent]) + EventsOf(xs)[merged..] <= EventsOf(outbox)
  {
    var left := EventsOf(outbox[..sent]) + EventsOf(xs)[merged..];
    assert forall i | sent <= i < from + |xs| :: left[i] == EventOf(xs[i - from]) == EventOf(outbox[i]);
  }

  lemma SameEventSameRow(outbox: seq<OutboxRow>, x: OutboxRow, i: nat)
    requires UniqueOutbox(outbox) && x in outbox && i < |outbox| && EventOf(x) == EventOf(outbox[i])
    ensures x == outbox[i]
  {
  }

  lemma ShownContinues(outbox: seq<OutboxRow>, events: seq<Event>, marked: nat, sent: nat, xs: seq<OutboxRow>)
    requires UniqueOutbox(outbox) && StreamInStep(outbox, events, marked, sent) && NoRepeats(EventsOf(xs))
    requires forall x | x in xs :: x in outbox && x.publishedAt.None?
    requires Collapse(events + EventsOf(xs)) <= EventsOf(outbox)
    ensures ContinuesStream(xs, outbox, marked, sent)
  {
    var added := EventsOf(xs);
    CollapseConcat(events, added);
    LastShown(outbox, events, marked, sent);
    if events != [] && xs != [] && added[0] == events[|events| - 1] {
      assert xs[0] in xs;
      SameEventSameRow(outbox, xs[0], sent - 1);
      AddedFollow(outbox, sent, xs, sent - 1, 1);
    } else {
      AddedFollow(outbox, sent, xs, sent, 0);
    }
  }

  lemma AddedFollow(outbox: seq<OutboxRow>, sent: nat, xs: seq<OutboxRow>, from: nat, merged: nat)
    requires UniqueOutbox(outbox) && sent <= |outbox| && merged <= |xs| && from + merged == sent
    requires forall x | x in xs :: x in outbox
    requires EventsOf(outbox[..sent]) + EventsOf(xs)[merged..] <= EventsOf(outbox)
    requires merged > 0 ==> merged == 1 && xs[0] == outbox[from]
    ensures InCommitOrder(xs, outbox, from)
  {
    var left, all := EventsOf(outbox[..sent]) + EventsOf(xs)[merged..], EventsOf(outbox);
    forall i | merged <= i < |xs|
      ensures from + i < |outbox| && xs[i] == outbox[from + i]
    {
      assert left[from + i] == EventsOf(xs)[i] && left[from + i] == all[from + i];
      assert xs[i] in xs;
      SameEventSameRow(outbox, xs[i], from + i);
    }
    assert |left| == from + |xs|;
    assert xs == outbox[from..from + |xs|];
  }

  lemma ContinuedIsUnrepeated(outbox: seq<OutboxRow>, events: seq<Event>, marked: nat, sent: nat, xs: seq<OutboxRow>)
    requires UniqueOutbox(outbox) && StreamInStep(outbox, events, marked, sent)
    requires ContinuesStream(xs, outbox, marked, sent)
    ensures Unrepeated(events, xs)
  {
    CollapseKeepsEvents(events);
    LastShown(outbox, events, marked, sent);
    var shown := EventsOf(outbox[..sent]);
    var from := if InCommitOrder(xs, outbox, sent) then sent else marked;
    forall j | 0 <= j < |xs| && HasMessage(events, xs[j].dedupeKey)
      ensures IsLastEvent(events, xs, j)
    {
      var e :| 0 <= e < |events| && events[e].messageId == xs[j].dedupeKey;
      assert events[e] in shown;
      var i :| 0 <= i < sent && shown[i] == events[e];
      assert xs[j] == outbox[from + j];
      assert outbox[i].dedupeKey == outbox[from + j].dedupeKey;
      assert i == from + j;
    }
  }

  lemma CollapseGrows(a: seq<Event>, b: seq<Event>)
    requires NoRepeats(b)
    ensures forall k | 0 <= k <= |b| :: Collapse(a + b[..k]) <= Collapse(a + b)
  {
    CollapseConcat(a, b);
    forall k | 0 <= k <= |b|
      ensures Collapse(a + b[..k]) <= Collapse(a + b)
    {
      CollapseConcat(a, b[..k]);
    }
  }

  lemma ContinuedKeepsOrder(cfg: Config, s: State, p: nat, marked: nat, sent: nat, more: seq<Action>)
    requires UniqueOutbox(s.tables.outbox) && PublisherAt(s, p).Resting?
    requires StreamInStep(s.tables.outbox, s.events, marked, sent)
    requires ContinuesStream(Sendable(cfg.size, s.tables.outbox), s.tables.outbox, marked, sent)
    requires SolePublisher(more, p) && NoCommits(more)
    ensures Collapse(RunFrom(cfg, s, more).events) <= EventsOf(s.tables.outbox)
  {
    var outbox, xs := s.tables.outbox, Sendable(cfg.size, s.tables.outbox);
    SendableKeys(cfg.size, outbox);
    ContinuedIsUnrepeated(outbox, s.events, marked, sent, xs);
    ContinuedIsShown(outbox, s.events, marked, sent, xs);
    var k, shown := RunShows(cfg, s, p, more);
    ShownPrefix(s.events, xs, shown, EventsOf(outbox));
  }

  lemma ShownPrefix(before: seq<Event>, xs: seq<OutboxRow>, k: nat, all: seq<Event>)
    requires NoRepeats(EventsOf(xs)) && k <= |xs| && Collapse(before + EventsOf(xs)) <= all
    ensures Collapse(before + EventsOf(xs[..k])) <= all
  {
    CollapseGrows(before, EventsOf(xs));
    assert EventsOf(xs[..k]) == EventsOf(xs)[..k];
  }

  lemma SendableIsSent(cfg: Config, s: State, p: nat) returns (run: seq<Action>)
    requires UniqueOutbox(s.tables.outbox) && PublisherAt(s, p).Resting?
    ensures SolePublisher(run, p) && NoCommits(run)
    ensures RunFrom(cfg, s, run).events == s.events + EventsOf(Sendable(cfg.size, s.tables.outbox))
  {
    run := SendsInQueueOrder(cfg, s, p, FirstOversized(cfg.size, Queue(s.tables.outbox)));
  }

  /**
   * One publisher, exactly. Take any state in which the order was kept so far and the publisher rests.
   * All continuations with that publisher alone keep the order if and only if the rows at the head of
   * the queue, up to the first oversized one, continue the stream in commit order.
   */
  lemma OrderIsKeptIff(cfg: Config, s: State, p: nat, marked: nat, sent: nat)
    requires UniqueOutbox(s.tables.outbox) && PublisherAt(s, p).Resting?
    requires StreamInStep(s.tables.outbox, s.events, marked, sent)
    ensures OrderIsKept(cfg, s, p)
            <==> ContinuesStream(Sendable(cfg.size, s.tables.outbox), s.tables.outbox, marked, sent)
  {
    var outbox, xs := s.tables.outbox, Sendable(cfg.size, s.tables.outbox);
    if OrderIsKept(cfg, s, p) {
      var run := SendableIsSent(cfg, s, p);
      SendableKeys(cfg.size, outbox);
      ShownContinues(outbox, s.events, marked, sent, xs);
    }
    if ContinuesStream(xs, outbox, marked, sent) {
      forall more | SolePublisher(more, p) && NoCommits(more)
        ensures Collapse(RunFrom(cfg, s, more).events) <= EventsOf(outbox)
      {
        ContinuedKeepsOrder(cfg, s, p, marked, sent, more);
      }
    }
  }

  /** With nothing oversized, that is: creation follows commits among the pending replies. */
  lemma ContinuesIffOldestFirst(cfg: Config, outbox: seq<OutboxRow>, events: seq<Event>, marked: nat, sent: nat)
    requires UniqueOutbox(outbox) && StreamInStep(outbox, events, marked, sent)
    requires NothingOversized(cfg, outbox, marked)
    ensures ContinuesStream(Sendable(cfg.size, outbox), outbox, marked, sent) <==> OldestFirst(outbox[marked..])
  {
    WholeQueueFits(cfg, outbox, marked);
    QueueLength(outbox, marked);
    WholeQueueContinues(outbox, marked);
    assert Queue(outbox)[..|Queue(outbox)|] == Queue(outbox);
  }

  lemma WholeQueueContinues(outbox: seq<OutboxRow>, marked: nat)
    requires DistinctEventIds(outbox) && marked <= |outbox| && |Queue(outbox)| == |outbox| - marked
    requires forall i | 0 <= i < |outbox| :: outbox[i].publishedAt.Some? <==> i < marked
    ensures InCommitOrder(Queue(outbox), outbox, marked) <==> OldestFirst(outbox[marked..])
  {
    QueueIsOrdered(outbox);
    assert outbox[marked..|outbox|] == outbox[marked..];
    if OldestFirst(outbox[marked..]) {
      AscendingQueue(outbox, marked);
    }
  }
}
