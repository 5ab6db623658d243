/** Concrete runs from the initial state with replies that are too large to publish. */
module SizeScenarios {
  import opened Common
  import opened Command
  import opened AlertStore
  import opened Ordering
  import opened Rules
  import opened Wire
  import opened Transport
  import opened Outbox
  import opened Protocol
  import opened Safety
  import opened Blocking
  import opened Requests
  import opened Overflow
  import opened Scenarios

  // ----- Size -----

  function RowsOf(owner: Actor, rules: seq<AlertRule>): (rows: seq<AlertRow>)
    ensures |rows| == |rules|
  {
    seq(|rules|, i requires 0 <= i < |rules| => AlertRow(owner, rules[i]))
  }

  lemma {:induction false} OwnedOfRows(owner: Actor, rules: seq<AlertRule>)
    ensures Owned(RowsOf(owner, rules), owner) == rules
  {
    if rules != [] {
      OwnedOfRows(owner, rules[1..]);
      assert RowsOf(owner, rules)[1..] == RowsOf(owner, rules[1..]);
      assert rules == [rules[0]] + rules[1..];
    }
  }

  lemma HeavyPage(owner: Actor, n: nat)
    requires n <= LIST_LIMIT
    ensures ReadAlerts(RowsOf(owner, HeavyRules(n, 0)), owner) == HeavyRules(n, 0)
  {
    OwnedOfRows(owner, HeavyRules(n, 0));
    assert Ascending(HeavyRules(n, 0), RuleKey);
    SortOfAscending(HeavyRules(n, 0), RuleKey);
  }

  function CreateAll(rows: seq<AlertRow>): seq<Action> {
    seq(|rows|, i requires 0 <= i < |rows| => CreateAlert(rows[i]))
  }

  lemma {:induction false} CreatesAll(cfg: Config, rows: seq<AlertRow>)
    requires DistinctIds(rows)
    ensures Run(cfg, CreateAll(rows)) == INITIAL.(alerts := rows)
  {
    if rows != [] {
      var n := |rows| - 1;
      CreatesAll(cfg, rows[..n]);
      assert CreateAll(rows)[..n] == CreateAll(rows[..n]);
      assert rows[..n] + [rows[n]] == rows;
    }
  }

  /** Any rules, created first, and the reply that shows them. */
  lemma ReplyToCreated(cfg: Config, id: Uuid, key: string, rows: seq<AlertRow>, rules: seq<AlertRule>)
    returns (run: seq<Action>)
    requires Operable(cfg.gate) && id != NIL_UUID && BoundedDedupeKey(key) && DistinctIds(rows)
    requires rules == ReadAlerts(rows, Actor(cfg.gate.productTenant, id))
    ensures Run(cfg, run).alerts == rows && Run(cfg, run).tables.outbox == [ReplyRow(cfg.gate, id, key, rules, 0)]
  {
    CreatesAll(cfg, rows);
    var more := Answers(cfg, Run(cfg, CreateAll(rows)), id, key, rules, 0);
    run := CreateAll(rows) + more;
    RunConcat(cfg, INITIAL, CreateAll(rows), more);
  }

  lemma HeavyRowsAreStorable(p: Printer, owner: Actor, n: nat)
    requires n <= LIST_LIMIT && p.read("1") == Finite(1.0)
    ensures var rows := RowsOf(owner, HeavyRules(n, 0));
            DistinctIds(rows) && forall r | r in rows :: Storable(p, r.rule)
  {
    HeavyRulesAreServable(p, n, 0);
  }

  lemma HeavyReplyIsOversized(cfg: Config, p: Printer, id: Uuid, key: string, n: nat)
    requires 8 <= n <= LIST_LIMIT && forall e :: cfg.size(e) == EventBytes(p, e)
    ensures Oversized(cfg.size, ReplyRow(cfg.gate, id, key, HeavyRules(n, 0), 0))
  {
    HeavyEventBytes(p, ReplyRow(cfg.gate, id, key, HeavyRules(n, 0), 0).payload, n, 0);
  }

  /**
   * Too many rules: for every page size from eight on, create requests that the server accepts and one
   * command that it admits end in a committed reply that is oversized, and so blocks the outbox for good.
   */
  lemma EightRulesBlockTheOutbox(cfg: Config, p: Printer, id: Uuid, key: string, n: nat) returns (run: seq<Action>)
    requires Operable(cfg.gate) && id != NIL_UUID && BoundedDedupeKey(key)
    requires p.read("1") == Finite(1.0) && forall e :: cfg.size(e) == EventBytes(p, e)
    requires 8 <= n <= LIST_LIMIT
    ensures var s := Run(cfg, run);
            && |s.alerts| == n && (forall r | r in s.alerts :: Storable(p, r.rule))
            && |s.tables.outbox| == 1 && Oversized(cfg.size, s.tables.outbox[0])
  {
    var owner := Actor(cfg.gate.productTenant, id);
    HeavyPage(owner, n);
    HeavyRowsAreStorable(p, owner, n);
    run := ReplyToCreated(cfg, id, key, RowsOf(owner, HeavyRules(n, 0)), HeavyRules(n, 0));
    HeavyReplyIsOversized(cfg, p, id, key, n);
  }

  // ----- Blocking -----

  lemma {:induction false} OwnedByOther(owner: Actor, other: Actor, rules: seq<AlertRule>)
    requires owner != other
    ensures Owned(RowsOf(owner, rules), other) == []
  {
    if rules != [] {
      OwnedByOther(owner, other, rules[1..]);
      assert RowsOf(owner, rules)[1..] == RowsOf(owner, rules[1..]);
    }
  }

  lemma SelectHolds(cfg: Config, s: State, row: OutboxRow)
    requires PublisherAt(s, 0).Resting? && s.tables.outbox == [row] && row.publishedAt.None?
    ensures var later := RunFrom(cfg, s, [Select(0)]);
            later == s.(publishers := later.publishers) && PublisherAt(later, 0) == Batch([row])
  {
    RunOne(cfg, s, Select(0));
    assert Pending([row]) == [row];
    SortOfAscending([row], PendingKey);
  }

  /** B is answered, publisher 0 selects it, and A, created earlier and oversized, is answered after that. */
  lemma LateOversized(cfg: Config, pair: Pair, rows: seq<AlertRow>, rules: seq<AlertRule>) returns (run: seq<Action>)
    requires Operable(cfg.gate) && Distinct(pair) && DistinctIds(rows)
    requires rules == ReadAlerts(rows, Actor(cfg.gate.productTenant, pair.idA))
    requires ReadAlerts(rows, Actor(cfg.gate.productTenant, pair.idB)) == []
    ensures var s := Run(cfg, run);
            && s.alerts == rows && s.events == []
            && s.tables.outbox == [RowB(cfg.gate, pair, 1), ReplyRow(cfg.gate, pair.idA, pair.keyA, rules, 0)]
            && PublisherAt(s, 0) == Batch([RowB(cfg.gate, pair, 1)])
  {
    CreatesAll(cfg, rows);
    var created := Run(cfg, CreateAll(rows));
    var first := Answers(cfg, created, pair.idB, pair.keyB, [], 1);
    var held := RunFrom(cfg, created, first);
    var more := OversizedWhileHeld(cfg, pair, created.tables, held, rules);
    run := CreateAll(rows) + (first + more);
    RunConcat(cfg, INITIAL, CreateAll(rows), first + more);
    RunConcat(cfg, created, first, more);
  }

  lemma OversizedWhileHeld(cfg: Config, pair: Pair, t: Tables, s: State, rules: seq<AlertRule>)
    returns (run: seq<Action>)
    requires Operable(cfg.gate) && Distinct(pair) && ReadyAt(s) && PublisherAt(s, 0).Resting? && s.events == []
    requires t == EMPTY_TABLES && OneMoreRow(t, s.tables, pair.idB, pair.keyB)
    requires s.tables.outbox == [RowB(cfg.gate, pair, 1)]
    requires rules == ReadAlerts(s.alerts, Actor(cfg.gate.productTenant, pair.idA))
    ensures var later := RunFrom(cfg, s, run);
            && later.alerts == s.alerts && later.events == []
            && later.tables.outbox == [RowB(cfg.gate, pair, 1), ReplyRow(cfg.gate, pair.idA, pair.keyA, rules, 0)]
            && PublisherAt(later, 0) == Batch([RowB(cfg.gate, pair, 1)])
  {
    SelectHolds(cfg, s, RowB(cfg.gate, pair, 1));
    var holding := RunFrom(cfg, s, [Select(0)]);
    OtherIsNew(cfg.gate, pair, t, holding.tables, 1);
    var second := Answers(cfg, holding, pair.idA, pair.keyA, rules, 0);
    run := [Select(0)] + second;
    RunConcat(cfg, s, [Select(0)], second);
  }

  lemma OtherIsNew(gate: GateConfig, pair: Pair, t: Tables, later: Tables, stamp: int)
    requires Distinct(pair) && t == EMPTY_TABLES && OneMoreRow(t, later, pair.idB, pair.keyB)
    requires later.outbox == [RowB(gate, pair, stamp)]
    ensures IsNew(gate, later, pair.idA, pair.keyA)
  {
    assert !SharesKey(later.inbox[0], Sample(gate, pair.idA, pair.keyA, 15_000));
  }

  lemma EmptyRowFits(cfg: Config, run: seq<Action>, p: Printer, pair: Pair)
    requires Bounded(p) && forall e :: cfg.size(e) == EventBytes(p, e)
    requires |Run(cfg, run).tables.outbox| > 0 && Run(cfg, run).tables.outbox[0] == RowB(cfg.gate, pair, 1)
    ensures !Oversized(cfg.size, RowB(cfg.gate, pair, 1))
  {
    var t := Run(cfg, run).tables;
    TablesCorrespond(cfg, run);
    ServerRepliesFit(cfg, p);
    EmptyReplyFits(cfg, t.inbox[0], t.outbox[0], t.status[t.inbox[0].correlationId]);
  }

  lemma PublishPasses(cfg: Config, s: State, b: OutboxRow, a: OutboxRow)
    requires s.tables.outbox == [b, a] && s.events == [] && PublisherAt(s, 0) == Batch([b])
    requires !Oversized(cfg.size, b) && Ahead(a, b)
    ensures var later := RunFrom(cfg, s, [Publish(0, SENT)]);
            later.events == [EventOf(b)] && !NothingBehindMoves(s, later, a)
  {
    RunOne(cfg, s, Publish(0, SENT));
    var later := RunFrom(cfg, s, [Publish(0, SENT)]);
    assert later.tables.outbox[0] == b && later.events[0] == EventOf(later.tables.outbox[0]);
  }

  /**
   * A stale batch passes: a reply is committed and selected, an oversized one with an earlier creation
   * time is committed after that, and then the first, which sorts behind it, is published all the same.
   */
  lemma StaleBatchPasses(cfg: Config, p: Printer, pair: Pair, n: nat) returns (run: seq<Action>)
    requires Operable(cfg.gate) && Distinct(pair) && Bounded(p) && p.read("1") == Finite(1.0)
    requires forall e :: cfg.size(e) == EventBytes(p, e)
    requires 8 <= n <= LIST_LIMIT
    ensures var s, later := Run(cfg, run), Run(cfg, run + [Publish(0, SENT)]);
            && (forall r | r in s.alerts :: Storable(p, r.rule))
            && |s.tables.outbox| == 2 && Oversized(cfg.size, s.tables.outbox[1])
            && Ahead(s.tables.outbox[1], s.tables.outbox[0])
            && s.events == [] && later.events == [EventOf(s.tables.outbox[0])]
            && !NothingBehindMoves(s, later, s.tables.outbox[1])
  {
    var ownerA, ownerB := Actor(cfg.gate.productTenant, pair.idA), Actor(cfg.gate.productTenant, pair.idB);
    var rules := HeavyRules(n, 0);
    HeavyPage(ownerA, n);
    HeavyRowsAreStorable(p, ownerA, n);
    OwnedByOther(ownerA, ownerB, rules);
    run := LateOversized(cfg, pair, RowsOf(ownerA, rules), rules);
    HeavyReplyIsOversized(cfg, p, pair.idA, pair.keyA, n);
    EmptyRowFits(cfg, run, p, pair);
    PublishPasses(cfg, Run(cfg, run), RowB(cfg.gate, pair, 1), ReplyRow(cfg.gate, pair.idA, pair.keyA, rules, 0));
    RunConcat(cfg, INITIAL, run, [Publish(0, SENT)]);
  }
}
