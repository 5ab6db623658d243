/** Where each reply comes from: the query that read its rules and the commit that enqueued it. */
module Replies {
  import opened Common
  import opened Command
  import opened AlertStore
  import opened Rules
  import opened Wire
  import opened Transport
  import opened Protocol
  import opened Durability
  import opened Inbound
  import opened Safety

  /** `rules` is the actor's page of the alert table: own rules only, newest first, as many as fit. */
  ghost predicate OwnPage(rules: seq<AlertRule>, actor: Actor, table: seq<AlertRow>) {
    && rules == ReadAlerts(table, actor)
    && |rules| == Min(LIST_LIMIT, |Owned(table, actor)|)
    && NewestFirst(rules)
    && forall rule | rule in rules :: AlertRow(actor, rule) in table
  }

  // ----- The query -----

  /** Step `n` is the query of consumer `c` for the command it was admitted with, and gives `reply`. */
  ghost predicate ReadAt(cfg: Config, run: seq<Action>, n: nat, c: nat, kind: ReadKind, d: nat, at: U64,
                         reply: OperationReply)
  {
    && n < |run| && run[n] == ReadRules(c, kind)
    && var s := Run(cfg, run[..n]);
    && ConsumerAt(s, c) == Admitted(d, at)
    && BodyOf(s, d).Some?
    && ReplyIs(s, BodyOf(s, d).value, kind, reply)
  }

  predicate ReplyIs(s: State, body: AsyncCommand, kind: ReadKind, reply: OperationReply) {
    && ActorOf(body).Some?
    && reply == ReplyTo(body.correlationId, ReadOutcomeOf(s.alerts, ActorOf(body).value, kind))
  }

  /** Only its own query gives a consumer a reply. */
  lemma OnlyReadsReply(cfg: Config, s: State, a: Action, c: nat)
    requires ConsumerAt(Exec(cfg, s, a), c).Replying? && ConsumerAt(Exec(cfg, s, a), c) != ConsumerAt(s, c)
    ensures a.ReadRules? && a.consumer == c
    ensures var phase := ConsumerAt(Exec(cfg, s, a), c);
            && ConsumerAt(s, c) == Admitted(phase.delivery, phase.at)
            && BodyOf(s, phase.delivery).Some?
            && ReplyIs(s, BodyOf(s, phase.delivery).value, a.kind, phase.reply)
  {
  }

  /** After step `n` the consumer did nothing up to the end of the run. */
  ghost predicate Unchanged(cfg: Config, run: seq<Action>, n: nat, c: nat) {
    forall k | n < k <= |run| :: ConsumerAt(Run(cfg, run[..k]), c) == ConsumerAt(Run(cfg, run), c)
  }

  lemma UnchangedNext(cfg: Config, run: seq<Action>, n: nat, c: nat)
    requires run != []
    requires n == |run| - 1
             || (Unchanged(cfg, run[..|run| - 1], n, c)
                 && ConsumerAt(Run(cfg, run[..|run| - 1]), c) == ConsumerAt(Run(cfg, run), c))
    ensures Unchanged(cfg, run, n, c)
  {
    var before := run[..|run| - 1];
    forall k | n < k <= |run|
      ensures ConsumerAt(Run(cfg, run[..k]), c) == ConsumerAt(Run(cfg, run), c)
    {
      if k == |run| {
        assert run[..k] == run;
      } else {
        assert run[..k] == before[..k];
      }
    }
  }

  lemma {:induction false} ReplyingWasRead(cfg: Config, run: seq<Action>, c: nat) returns (n: nat, kind: ReadKind)
    requires ConsumerAt(Run(cfg, run), c).Replying?
    ensures var phase := ConsumerAt(Run(cfg, run), c);
            ReadAt(cfg, run, n, c, kind, phase.delivery, phase.at, phase.reply)
    ensures Unchanged(cfg, run, n, c)
  {
    n := |run| - 1;
    var before := Run(cfg, run[..n]);
    if ConsumerAt(before, c) == ConsumerAt(Run(cfg, run), c) {
      var last := n;
      n, kind := ReplyingWasRead(cfg, run[..last], c);
      assert run[..last][..n] == run[..n];
    } else {
      OnlyReadsReply(cfg, before, run[n], c);
      kind := run[n].kind;
    }
    UnchangedNext(cfg, run, n, c);
  }

  // ----- The commit -----

  /** In state `s` a commit of consumer `c` writes these as the `i`-th rows, with the reply it holds. */
  ghost predicate Writes(s: State, c: nat, inbox: InboxRow, outbox: OutboxRow, i: nat) {
    && |s.tables.outbox| == i
    && ConsumerAt(s, c).Replying?
    && BodyOf(s, ConsumerAt(s, c).delivery).Some?
    && RowOf(inbox, BodyOf(s, ConsumerAt(s, c).delivery).value)
    && outbox.payload.reply == ConsumerAt(s, c).reply
  }

  lemma CommitWrites(cfg: Config, s: State, c: nat, eventId: Uuid, stamp: int, result: CommitKind, i: nat)
    requires Inv(cfg, s)
    requires |s.tables.outbox| <= i < |ExecCommit(s, c, eventId, stamp, result).tables.outbox|
    ensures var t := ExecCommit(s, c, eventId, stamp, result).tables;
            i < |t.inbox| && Writes(s, c, t.inbox[i], t.outbox[i], i)
  {
    var phase := ConsumerAt(s, c);
    ConsumerAtOk(cfg, s, c);
    var body := BodyOf(s, phase.delivery).value;
    AdmittedIsWellShaped(cfg.gate, body, phase.at);
    ProcessExactly(s.tables, body, phase.reply, eventId, stamp);
  }

  lemma OnlyCommitsWrite(cfg: Config, s: State, a: Action)
    requires !a.Commit?
    ensures |Exec(cfg, s, a).tables.outbox| == |s.tables.outbox|
  {
  }

  /** A step keeps the rows there are, or is the commit that adds row `i`. */
  lemma StepWritesAtMostOne(cfg: Config, s: State, a: Action, i: nat)
    requires Inv(cfg, s) && i < |Exec(cfg, s, a).tables.outbox|
    ensures var t := Exec(cfg, s, a).tables;
            i < |t.inbox|
            && (i < |s.tables.outbox| ==>
                  && i < |s.tables.inbox| && t.inbox[i] == s.tables.inbox[i]
                  && t.outbox[i].payload == s.tables.outbox[i].payload)
            && (i >= |s.tables.outbox| ==> a.Commit? && Writes(s, a.consumer, t.inbox[i], t.outbox[i], i))
  {
    if i < |s.tables.outbox| {
      StepExtends(cfg, s, a);
      assert SameRow(s.tables.outbox[i], Exec(cfg, s, a).tables.outbox[i]);
    } else {
      if !a.Commit? {
        OnlyCommitsWrite(cfg, s, a);
      }
      CommitWrites(cfg, s, a.consumer, a.eventId, a.stamp, a.result, i);
    }
  }

  lemma {:induction false} RowWasWritten(cfg: Config, run: seq<Action>, i: nat) returns (w: nat, c: nat)
    requires i < |Run(cfg, run).tables.outbox|
    ensures i < |Run(cfg, run).tables.inbox|
    ensures w < |run| && run[w].Commit? && run[w].consumer == c
    ensures Writes(Run(cfg, run[..w]), c, Run(cfg, run).tables.inbox[i], Run(cfg, run).tables.outbox[i], i)
  {
    w := |run| - 1;
    EveryRunIsSafe(cfg, run[..w]);
    StepWritesAtMostOne(cfg, Run(cfg, run[..w]), run[w], i);
    if i < |Run(cfg, run[..w]).tables.outbox| {
      var last := w;
      w, c := RowWasWritten(cfg, run[..last], i);
      assert run[..last][..w] == run[..w];
    } else {
      c := run[w].consumer;
    }
  }

  // ----- Replies of whole runs -----

  /** The consumer still holds the delivery it was admitted with in state `read`, and this reply. */
  predicate HoldsReply(s: State, c: nat, read: State, reply: OperationReply) {
    && ConsumerAt(read, c).Admitted?
    && ConsumerAt(s, c) == Replying(ConsumerAt(read, c).delivery, ConsumerAt(read, c).at, reply)
  }

  /** `reply` is what the query of `inbox`'s command gave in state `s`; on success it is the page as it was then. */
  ghost predicate AnswersAsOf(s: State, inbox: InboxRow, kind: ReadKind, reply: OperationReply) {
    var actor := Actor(inbox.productTenant, inbox.actorSubject);
    && reply == ReplyTo(inbox.correlationId, ReadOutcomeOf(s.alerts, actor, kind))
    && (reply.status == "completed" <==> kind.Succeeds?)
    && (kind.Succeeds? ==> reply.result.Some? && OwnPage(reply.result.value, actor, s.alerts))
  }

  lemma AnswerOf(s: State, body: AsyncCommand, inbox: InboxRow, kind: ReadKind, reply: OperationReply)
    requires DistinctIds(s.alerts) && RowOf(inbox, body) && ReplyIs(s, body, kind, reply)
    ensures AnswersAsOf(s, inbox, kind, reply)
  {
    PageIsSorted(s.alerts, Actor(inbox.productTenant, inbox.actorSubject));
  }

  /**
   * Every reply ever enqueued was read in its own transaction. The run has a step `n` at which some
   * consumer, admitted with the command of the i-th inbox row, queries the alert table, and a later
   * step `w` at which that consumer commits the i-th rows; in between it does nothing but hold the
   * reply, without a stop, and the reply is the outcome of that query. A
   * completed one is exactly the first 100 rules of the command's tenant and subject, newest first, of
   * the alert table right before step `n`, whatever is created before, between or after.
   */
  lemma RepliesShowOwnRules(cfg: Config, run: seq<Action>, i: nat)
    returns (c: nat, kind: ReadKind, n: nat, w: nat)
    requires i < |Run(cfg, run).tables.outbox|
    ensures n < w < |run| && run[n] == ReadRules(c, kind) && run[w].Commit? && run[w].consumer == c
    ensures |Run(cfg, run[..w]).tables.outbox| == i < |Run(cfg, run).tables.inbox|
    ensures forall k | n < k <= w :: HoldsReply(Run(cfg, run[..k]), c, Run(cfg, run[..n]),
                                                Run(cfg, run).tables.outbox[i].payload.reply)
    ensures var read, t := Run(cfg, run[..n]), Run(cfg, run).tables;
            && ConsumerAt(read, c).Admitted?
            && BodyOf(read, ConsumerAt(read, c).delivery).Some?
            && RowOf(t.inbox[i], BodyOf(read, ConsumerAt(read, c).delivery).value)
            && AnswersAsOf(read, t.inbox[i], kind, t.outbox[i].payload.reply)
  {
    w, c := RowWasWritten(cfg, run, i);
    n, kind := ReplyingWasRead(cfg, run[..w], c);
    assert forall k | 0 <= k <= w :: run[..w][..k] == run[..k];
    EveryRunIsSafe(cfg, run[..n]);
    BodyWasTheSame(cfg, run, n, w, ConsumerAt(Run(cfg, run[..w]), c).delivery);
    AnswerOf(Run(cfg, run[..n]), BodyOf(Run(cfg, run[..n]), ConsumerAt(Run(cfg, run[..w]), c).delivery).value,
             Run(cfg, run).tables.inbox[i], kind, Run(cfg, run).tables.outbox[i].payload.reply);
  }

  lemma BodyWasTheSame(cfg: Config, run: seq<Action>, n: nat, w: nat, d: nat)
    requires n <= w <= |run| && BodyOf(Run(cfg, run[..n]), d).Some?
    ensures BodyOf(Run(cfg, run[..w]), d) == BodyOf(Run(cfg, run[..n]), d)
  {
    assert run[..n] + run[n..w] == run[..w];
    RunConcat(cfg, INITIAL, run[..n], run[n..w]);
    RunExtends(cfg, Run(cfg, run[..n]), run[n..w]);
    BodyPersists(Run(cfg, run[..n]), Run(cfg, run[..w]), d);
  }
}
