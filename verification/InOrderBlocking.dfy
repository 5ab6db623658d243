/** While replies are created in commit order, an oversized one holds back all later ones, whatever batches are held. */
module InOrderBlocking {
  import opened Transport
  import opened Outbox
  import opened Protocol
  import opened Durability
  import opened Outbound
  import opened Safety
  import opened DeliveryOrder
  import opened Blocking

  /** What holds of an oversized row while creation follows commits. */
  ghost predicate BlocksLater(cfg: Config, s: State, b: nat) {
    b < |s.tables.outbox| && Oversized(cfg.size, s.tables.outbox[b]) ==>
      && (forall p :: ClearPhase(cfg.size, s.tables.outbox, PublisherAt(s, p), s.tables.outbox[b]))
      && forall i | b < i < |s.tables.outbox| :: Unsent(s, i)
  }

  lemma AppendedRowsAreUnsent(cfg: Config, s: State, later: State)
    requires OutboundInv(cfg, s) && UniqueOutbox(later.tables.outbox)
    requires s.tables.outbox <= later.tables.outbox && later.events == s.events
    requires forall i | |s.tables.outbox| <= i < |later.tables.outbox| :: later.tables.outbox[i].publishedAt.None?
    ensures forall i | |s.tables.outbox| <= i < |later.tables.outbox| :: Unsent(later, i)
  {
    var outbox, rows := s.tables.outbox, later.tables.outbox;
    forall i | |outbox| <= i < |rows|
      ensures Unsent(later, i)
    {
      assert forall e | 0 <= e < |s.events| :: Accounted(cfg, outbox, s.events[e]);
      assert forall k | 0 <= k < |outbox| :: rows[k] == outbox[k] && rows[k].dedupeKey != rows[i].dedupeKey;
    }
  }

  /** Rows committed in a step are unmarked and not on the stream. */
  lemma NewRowsAreUnsent(cfg: Config, s: State, a: Action)
    requires Inv(cfg, s)
    ensures var later := Exec(cfg, s, a);
            forall i | |s.tables.outbox| <= i < |later.tables.outbox| :: Unsent(later, i)
  {
    OutboxLength(cfg, s, a);
    if a.Commit? {
      StepKeepsConsistent(cfg, s, a);
      CommitAppends(s, a.consumer, a.eventId, a.stamp, a.result);
      AppendedRowsAreUnsent(cfg, s, Exec(cfg, s, a));
    }
  }

  lemma OutboxLength(cfg: Config, s: State, a: Action)
    ensures !a.Commit? ==> |Exec(cfg, s, a).tables.outbox| == |s.tables.outbox|
    ensures |Exec(cfg, s, a).tables.outbox| <= |s.tables.outbox| + 1
    ensures a.Commit? ==> Exec(cfg, s, a).publishers == s.publishers
  {
  }

  /** Batches hold snapshots of rows committed before; a row created after all of those is behind them. */
  lemma LatestRowIsClear(cfg: Config, s: State, later: State, p: nat)
    requires Inv(cfg, s) && Extends(s, later) && later.publishers == s.publishers
    requires |later.tables.outbox| == |s.tables.outbox| + 1 && OldestFirst(later.tables.outbox)
    ensures ClearPhase(cfg.size, later.tables.outbox, PublisherAt(later, p), later.tables.outbox[|s.tables.outbox|])
  {
    var row, phase := later.tables.outbox[|s.tables.outbox|], PublisherAt(s, p);
    PublisherAtOk(cfg, s, p);
    forall x | Snapshot(s.tables.outbox, x)
      ensures !Ahead(row, x)
    {
      SnapshotIsAhead(s, later, x);
    }
    assert phase.Batch? ==> forall j | 0 <= j < |phase.rows| :: Snapshot(s.tables.outbox, phase.rows[j]);
    assert phase.Unmarked? ==> forall j | 0 <= j < |phase.rest| :: Snapshot(s.tables.outbox, phase.rest[j]);
  }

  lemma SnapshotIsAhead(s: State, later: State, x: OutboxRow)
    requires Extends(s, later) && Snapshot(s.tables.outbox, x)
    requires |later.tables.outbox| == |s.tables.outbox| + 1 && OldestFirst(later.tables.outbox)
    ensures !Ahead(later.tables.outbox[|s.tables.outbox|], x)
  {
    var n := |s.tables.outbox|;
    var k :| 0 <= k < n && SameRow(x, s.tables.outbox[k]);
    assert SameRow(s.tables.outbox[k], later.tables.outbox[k]);
    assert Ahead(later.tables.outbox[k], later.tables.outbox[n]);
  }

  ghost predicate Unsent(s: State, i: nat) {
    i < |s.tables.outbox| && s.tables.outbox[i].publishedAt.None? && EventOf(s.tables.outbox[i]) !in s.events
  }

  lemma RowBehindStaysUnsent(s: State, later: State, b: nat, i: nat)
    requires Extends(s, later) && OldestFirst(later.tables.outbox) && b < i && Unsent(s, i)
    requires NothingBehindMoves(s, later, s.tables.outbox[b])
    ensures Unsent(later, i)
  {
    assert SameRow(s.tables.outbox[b], later.tables.outbox[b]) && SameRow(s.tables.outbox[i], later.tables.outbox[i]);
    assert Ahead(later.tables.outbox[b], later.tables.outbox[i]);
    assert Ahead(s.tables.outbox[b], later.tables.outbox[i]);
  }

  lemma ClearRowStaysClear(cfg: Config, s: State, a: Action, b: nat)
    requires Inv(cfg, s) && BlocksLater(cfg, s, b) && b < |s.tables.outbox| && Oversized(cfg.size, s.tables.outbox[b])
    requires OldestFirst(Exec(cfg, s, a).tables.outbox)
    ensures BlocksLater(cfg, Exec(cfg, s, a), b)
  {
    var later := Exec(cfg, s, a);
    RowStays(cfg, s, a, b);
    StepExtends(cfg, s, a);
    NewRowsAreUnsent(cfg, s, a);
    StepMovesNothing(cfg, s, a, s.tables.outbox[b]);
    forall i | b < i < |later.tables.outbox|
      ensures Unsent(later, i)
    {
      if i < |s.tables.outbox| {
        RowBehindStaysUnsent(s, later, b, i);
      }
    }
    forall p: nat
      ensures ClearPhase(cfg.size, later.tables.outbox, PublisherAt(later, p), s.tables.outbox[b])
    {
      StepKeepsClear(cfg, s, b, p, a);
    }
  }

  lemma SmallRowStaysSmall(cfg: Config, s: State, later: State, b: nat)
    requires Extends(s, later) && b < |s.tables.outbox| && !Oversized(cfg.size, s.tables.outbox[b])
    ensures BlocksLater(cfg, later, b)
  {
    assert SameRow(s.tables.outbox[b], later.tables.outbox[b]);
  }

  lemma StepBlocksLater(cfg: Config, s: State, a: Action, b: nat)
    requires Inv(cfg, s) && BlocksLater(cfg, s, b) && OldestFirst(Exec(cfg, s, a).tables.outbox)
    ensures BlocksLater(cfg, Exec(cfg, s, a), b)
  {
    if b < |s.tables.outbox| && Oversized(cfg.size, s.tables.outbox[b]) {
      ClearRowStaysClear(cfg, s, a, b);
    } else if b < |s.tables.outbox| {
      StepExtends(cfg, s, a);
      SmallRowStaysSmall(cfg, s, Exec(cfg, s, a), b);
    } else if |s.tables.outbox| < |Exec(cfg, s, a).tables.outbox| {
      NewestBlocksLater(cfg, s, a);
    }
  }

  lemma NewestBlocksLater(cfg: Config, s: State, a: Action)
    requires Inv(cfg, s) && |Exec(cfg, s, a).tables.outbox| > |s.tables.outbox|
    requires OldestFirst(Exec(cfg, s, a).tables.outbox)
    ensures |Exec(cfg, s, a).tables.outbox| == |s.tables.outbox| + 1
    ensures BlocksLater(cfg, Exec(cfg, s, a), |s.tables.outbox|)
  {
    var later := Exec(cfg, s, a);
    OutboxLength(cfg, s, a);
    StepExtends(cfg, s, a);
    forall p: nat
      ensures ClearPhase(cfg.size, later.tables.outbox, PublisherAt(later, p), later.tables.outbox[|s.tables.outbox|])
    {
      LatestRowIsClear(cfg, s, later, p);
    }
  }

  lemma RowStays(cfg: Config, s: State, a: Action, b: nat)
    requires Inv(cfg, s) && b < |s.tables.outbox| && Oversized(cfg.size, s.tables.outbox[b])
    ensures b < |Exec(cfg, s, a).tables.outbox| && Exec(cfg, s, a).tables.outbox[b] == s.tables.outbox[b]
  {
    RowStaysOversized(cfg, s, b, [a]);
    RunOne(cfg, s, a);
  }

  lemma {:induction false} RunBlocksLater(cfg: Config, run: seq<Action>, b: nat)
    requires OldestFirst(Run(cfg, run).tables.outbox)
    ensures BlocksLater(cfg, Run(cfg, run), b)
  {
    if run != [] {
      var n := |run| - 1;
      var before := Run(cfg, run[..n]);
      StepExtends(cfg, before, run[n]);
      OrderedBefore(before, Run(cfg, run));
      RunBlocksLater(cfg, run[..n], b);
      EveryRunIsSafe(cfg, run[..n]);
      StepBlocksLater(cfg, before, run[n], b);
    }
  }

  lemma OrderedBefore(s: State, later: State)
    requires Extends(s, later) && OldestFirst(later.tables.outbox)
    ensures OldestFirst(s.tables.outbox)
  {
    assert later.tables.outbox[0..] == later.tables.outbox && s.tables.outbox[0..] == s.tables.outbox;
    OrderedEarlier(s, later, 0);
  }

  /**
   * While (created_at, event_id) increases in commit order, an oversized reply holds back every reply
   * committed after it, whatever batches are held, in every run: none of them is marked or on the
   * stream.
   */
  lemma OversizedBlocksInOrder(cfg: Config, run: seq<Action>, b: nat, i: nat)
    requires OldestFirst(Run(cfg, run).tables.outbox) && b < i < |Run(cfg, run).tables.outbox|
    requires Oversized(cfg.size, Run(cfg, run).tables.outbox[b])
    ensures var s := Run(cfg, run);
            s.tables.outbox[i].publishedAt.None? && EventOf(s.tables.outbox[i]) !in s.events
  {
    RunBlocksLater(cfg, run, b);
    assert Unsent(Run(cfg, run), i);
  }
}
