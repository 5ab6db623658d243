/** No step of the protocol takes back what an earlier step has durably recorded. */
module Durability {
  import opened Common
  import opened Outbox
  import opened Protocol

  lemma CommitExtends(s: State, c: nat, eventId: Uuid, stamp: int, result: CommitKind)
    ensures Extends(s, ExecCommit(s, c, eventId, stamp, result))
  {
  }

  lemma MarkExtends(s: State, p: nat, stamp: int, update: MarkOutcome)
    ensures Extends(s, ExecMark(s, p, stamp, update))
  {
  }

  lemma DeliverExtends(s: State, m: nat)
    ensures Extends(s, ExecDeliver(s, m))
  {
  }

  lemma TakeExtends(s: State, c: nat, d: nat)
    ensures Extends(s, ExecTake(s, c, d))
  {
  }

  lemma JudgeExtends(cfg: Config, s: State, c: nat, applied: bool)
    ensures Extends(s, ExecJudge(cfg, s, c, applied))
  {
  }

  lemma AcknowledgeExtends(s: State, c: nat, applied: bool)
    ensures Extends(s, ExecAcknowledge(s, c, applied))
  {
  }

  lemma PublishExtends(cfg: Config, s: State, p: nat, sent: PublishOutcome)
    ensures Extends(s, ExecPublish(cfg, s, p, sent))
  {
  }

  /** Steps that move a consumer or a publisher and nothing else. */
  lemma LocalStepExtends(s: State, later: State)
    requires later == s.(consumers := later.consumers, publishers := later.publishers)
    ensures Extends(s, later)
  {
  }

  lemma InputExtends(cfg: Config, s: State, a: Action)
    requires a.Tick? || a.CreateAlert? || a.Produce?
    ensures Extends(s, Exec(cfg, s, a))
  {
  }

  lemma StepExtends(cfg: Config, s: State, a: Action)
    ensures Extends(s, Exec(cfg, s, a))
  {
    match a
    case Deliver(m) => DeliverExtends(s, m);
    case Take(c, d) => TakeExtends(s, c, d);
    case Judge(c, applied) => JudgeExtends(cfg, s, c, applied);
    case Acknowledge(c, applied) => AcknowledgeExtends(s, c, applied);
    case Commit(c, eventId, stamp, result) => CommitExtends(s, c, eventId, stamp, result);
    case Publish(p, sent) => PublishExtends(cfg, s, p, sent);
    case Mark(p, stamp, update) => MarkExtends(s, p, stamp, update);
    case Tick(_) => InputExtends(cfg, s, a);
    case CreateAlert(_) => InputExtends(cfg, s, a);
    case Produce(_, _) => InputExtends(cfg, s, a);
    case _ => LocalStepExtends(s, Exec(cfg, s, a));
  }

  /** The same deliveries, apart from who has taken them up. */
  ghost predicate SameDeliveries(deliveries: seq<Delivery>, later: seq<Delivery>) {
    && |later| == |deliveries|
    && forall d | 0 <= d < |deliveries| ::
         later[d].message == deliveries[d].message && later[d].at == deliveries[d].at
  }

  /** Only the broker's own step delivers or counts a delivery. */
  lemma CountersKept(cfg: Config, s: State, a: Action, m: nat)
    requires !a.Deliver? && m < |s.messages|
    ensures var later := Exec(cfg, s, a);
            && SameDeliveries(s.deliveries, later.deliveries) && m < |later.messages|
            && later.messages[m].deliveries == s.messages[m].deliveries
            && later.messages[m].lastDelivery == s.messages[m].lastDelivery
  {
  }

  /** New messages start without a delivery. */
  lemma NewMessagesAreUncounted(cfg: Config, s: State, a: Action, m: nat)
    requires !a.Deliver? && |s.messages| <= m < |Exec(cfg, s, a).messages|
    ensures Exec(cfg, s, a).messages[m].deliveries == 0
    ensures SameDeliveries(s.deliveries, Exec(cfg, s, a).deliveries)
  {
  }

  lemma ExtendsTransitive(a: State, b: State, c: State)
    requires Extends(a, b) && Extends(b, c)
    ensures Extends(a, c)
  {
  }

  /**
   * Along every run the inbox, the outbox, the event stream and the alert table only grow; a published
   * mark is never removed or changed; an acknowledged or terminated message stays so.
   */
  lemma {:induction false} RunExtends(cfg: Config, s: State, run: seq<Action>)
    ensures Extends(s, RunFrom(cfg, s, run))
  {
    if run != [] {
      var n := |run| - 1;
      RunExtends(cfg, s, run[..n]);
      StepExtends(cfg, RunFrom(cfg, s, run[..n]), run[n]);
      ExtendsTransitive(s, RunFrom(cfg, s, run[..n]), RunFrom(cfg, s, run));
    }
  }
}
