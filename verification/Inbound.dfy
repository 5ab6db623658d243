/** The inbound half of the protocol invariant: consumers, acknowledgements and the commands behind them. */
module Inbound {
  import opened Common
  import opened Command
  import opened Wire
  import opened Transport
  import opened Protocol
  import opened Durability

  // ----- Inbound side -----

  /** A command the gate let through at time `at`. */
  ghost predicate AdmittedBody(cfg: Config, s: State, d: nat, at: U64) {
    BodyOf(s, d).Some? && Admits(cfg.gate, BodyOf(s, d).value, at)
  }

  ghost predicate ConsumerOk(cfg: Config, s: State, phase: Consumer) {
    match phase
    case Idle => true
    case Holding(d) => BodyKnown(s, d)
    case Admitted(d, at) => AdmittedBody(cfg, s, d, at)
    case Replying(d, at, reply) =>
      && AdmittedBody(cfg, s, d, at)
      && ServerReply(BodyOf(s, d).value, reply)
      && ActorOf(BodyOf(s, d).value).Some?
    case Committed(d, at) =>
      && AdmittedBody(cfg, s, d, at)
      && Recorded(s.tables.inbox, BodyOf(s, d).value)
  }

  ghost predicate BodyKnown(s: State, d: nat) {
    d < |s.deliveries| && s.deliveries[d].message < |s.messages|
  }

  /** An acknowledged message is a command whose keys the inbox holds. */
  ghost predicate AckJustified(s: State, m: nat)
    requires m < |s.messages|
  {
    s.messages[m].disposition.Acked? ==>
      s.messages[m].body.Some? && Recorded(s.tables.inbox, s.messages[m].body.value)
  }

  ghost predicate InboundInv(cfg: Config, s: State) {
    && (forall d | 0 <= d < |s.deliveries| :: s.deliveries[d].message < |s.messages|)
    && (forall c | c in s.consumers :: ConsumerOk(cfg, s, s.consumers[c]))
    && (forall m | 0 <= m < |s.messages| :: AckJustified(s, m))
  }

  // ----- Monotonicity of the pieces -----

  lemma RecordedPersists(inbox: seq<InboxRow>, later: seq<InboxRow>, c: AsyncCommand)
    requires inbox <= later && Recorded(inbox, c)
    ensures Recorded(later, c)
  {
  }

  lemma BodyPersists(s: State, later: State, d: nat)
    requires Extends(s, later) && BodyOf(s, d).Some?
    ensures BodyOf(later, d) == BodyOf(s, d)
  {
  }

  lemma ConsumerOkPersists(cfg: Config, s: State, later: State, phase: Consumer)
    requires Extends(s, later) && ConsumerOk(cfg, s, phase)
    ensures ConsumerOk(cfg, later, phase)
  {
    if !phase.Idle? && !phase.Holding? {
      BodyPersists(s, later, phase.delivery);
    }
    if phase.Committed? {
      RecordedPersists(s.tables.inbox, later.tables.inbox, BodyOf(s, phase.delivery).value);
    }
  }

  lemma AckPersists(s: State, later: State, m: nat)
    requires Extends(s, later) && m < |s.messages| && AckJustified(s, m)
    requires later.messages[m].disposition == s.messages[m].disposition
    ensures AckJustified(later, m)
  {
  }

  /** The consumer that moved is in order, the messages newly acknowledged are justified, the rest is as before. */
  lemma InboundFrame(cfg: Config, s: State, later: State, c: nat)
    requires Extends(s, later) && InboundInv(cfg, s)
    requires forall d | |s.deliveries| <= d < |later.deliveries| :: later.deliveries[d].message < |later.messages|
    requires forall x | x in later.consumers && x != c :: x in s.consumers && later.consumers[x] == s.consumers[x]
    requires c in later.consumers ==>
               ConsumerOk(cfg, later, later.consumers[c])
               || (c in s.consumers && later.consumers[c] == s.consumers[c])
    requires forall m | 0 <= m < |later.messages| ::
               || AckJustified(later, m)
               || (m < |s.messages| && later.messages[m].disposition == s.messages[m].disposition)
    ensures InboundInv(cfg, later)
  {
    forall x | x in later.consumers
      ensures ConsumerOk(cfg, later, later.consumers[x])
    {
      if x in s.consumers && later.consumers[x] == s.consumers[x] {
        ConsumerOkPersists(cfg, s, later, s.consumers[x]);
      }
    }
    forall m | 0 <= m < |later.messages|
      ensures AckJustified(later, m)
    {
      if !AckJustified(later, m) {
        AckPersists(s, later, m);
      }
    }
  }

  // ----- Each inbound step -----

  lemma ConsumerAtOk(cfg: Config, s: State, c: nat)
    requires InboundInv(cfg, s)
    ensures ConsumerOk(cfg, s, ConsumerAt(s, c))
  {
  }

  lemma JudgeKeepsInbound(cfg: Config, s: State, c: nat, applied: bool)
    requires InboundInv(cfg, s)
    ensures InboundInv(cfg, ExecJudge(cfg, s, c, applied))
  {
    JudgeExtends(cfg, s, c, applied);
    ConsumerAtOk(cfg, s, c);
    InboundFrame(cfg, s, ExecJudge(cfg, s, c, applied), c);
  }

  lemma ReadPhaseOk(cfg: Config, s: State, c: nat, kind: ReadKind)
    requires InboundInv(cfg, s) && ConsumerAt(s, c).Admitted?
    ensures var later := ExecRead(s, c, kind);
            c in later.consumers && ConsumerOk(cfg, later, later.consumers[c])
  {
    ConsumerAtOk(cfg, s, c);
    var phase := ConsumerAt(s, c);
    var later := ExecRead(s, c, kind);
    LocalStepExtends(s, later);
    BodyPersists(s, later, phase.delivery);
  }

  lemma ReadKeepsInbound(cfg: Config, s: State, c: nat, kind: ReadKind)
    requires InboundInv(cfg, s)
    ensures InboundInv(cfg, ExecRead(s, c, kind))
  {
    if ConsumerAt(s, c).Admitted? {
      ReadPhaseOk(cfg, s, c, kind);
      LocalStepExtends(s, ExecRead(s, c, kind));
      InboundFrame(cfg, s, ExecRead(s, c, kind), c);
    }
  }

  /** The transaction of an admitted command keeps the tables consistent and records the command. */
  lemma AdmittedProcess(cfg: Config, t: Tables, c: AsyncCommand, at: U64, reply: OperationReply,
                        eventId: Uuid, stamp: int)
    requires Consistent(t) && Admits(cfg.gate, c, at) && ServerReply(c, reply)
    requires Process(t, c, reply, eventId, stamp).Some?
    ensures Consistent(Process(t, c, reply, eventId, stamp).value)
    ensures Recorded(Process(t, c, reply, eventId, stamp).value.inbox, c)
  {
    AdmittedIsWellShaped(cfg.gate, c, at);
    ProcessKeepsConsistent(t, c, reply, eventId, stamp);
  }

  lemma CommitPhaseOk(cfg: Config, s: State, c: nat, eventId: Uuid, stamp: int, result: CommitKind)
    requires InboundInv(cfg, s) && Consistent(s.tables) && ConsumerAt(s, c).Replying?
    ensures var later := ExecCommit(s, c, eventId, stamp, result);
            c in later.consumers && ConsumerOk(cfg, later, later.consumers[c])
  {
    var later := ExecCommit(s, c, eventId, stamp, result);
    var phase := ConsumerAt(s, c);
    CommitExtends(s, c, eventId, stamp, result);
    ConsumerAtOk(cfg, s, c);
    BodyPersists(s, later, phase.delivery);
    var body := BodyOf(s, phase.delivery).value;
    if Process(s.tables, body, phase.reply, eventId, stamp).Some? {
      AdmittedProcess(cfg, s.tables, body, phase.at, phase.reply, eventId, stamp);
    }
  }

  lemma CommitKeepsInbound(cfg: Config, s: State, c: nat, eventId: Uuid, stamp: int, result: CommitKind)
    requires InboundInv(cfg, s) && Consistent(s.tables)
    ensures InboundInv(cfg, ExecCommit(s, c, eventId, stamp, result))
  {
    CommitExtends(s, c, eventId, stamp, result);
    if ConsumerAt(s, c).Replying? {
      CommitPhaseOk(cfg, s, c, eventId, stamp, result);
      InboundFrame(cfg, s, ExecCommit(s, c, eventId, stamp, result), c);
    }
  }

  lemma AcknowledgeKeepsInbound(cfg: Config, s: State, c: nat, applied: bool)
    requires InboundInv(cfg, s)
    ensures InboundInv(cfg, ExecAcknowledge(s, c, applied))
  {
    var later := ExecAcknowledge(s, c, applied);
    AcknowledgeExtends(s, c, applied);
    ConsumerAtOk(cfg, s, c);
    var phase := ConsumerAt(s, c);
    if phase.Committed? {
      var m := s.deliveries[phase.delivery].message;
      assert SameMessage(s.messages[m], later.messages[m]);
      assert AckJustified(later, m);
    }
    InboundFrame(cfg, s, later, c);
  }

  lemma BrokerKeepsInbound(cfg: Config, s: State, a: Action)
    requires InboundInv(cfg, s)
    requires a.Tick? || a.CreateAlert? || a.Produce? || a.Deliver? || a.Take? || a.StopConsumer?
    ensures InboundInv(cfg, Exec(cfg, s, a))
  {
    StepExtends(cfg, s, a);
    var moved := if a.Take? || a.StopConsumer? then a.consumer else 0;
    InboundFrame(cfg, s, Exec(cfg, s, a), moved);
  }

  lemma PublisherKeepsInbound(cfg: Config, s: State, a: Action)
    requires InboundInv(cfg, s)
    requires a.Select? || a.Publish? || a.Mark? || a.StopPublisher?
    ensures InboundInv(cfg, Exec(cfg, s, a))
  {
    StepExtends(cfg, s, a);
    InboundFrame(cfg, s, Exec(cfg, s, a), 0);
  }

  lemma StepKeepsInbound(cfg: Config, s: State, a: Action)
    requires InboundInv(cfg, s) && Consistent(s.tables)
    ensures InboundInv(cfg, Exec(cfg, s, a))
  {
    match a
    case Judge(c, applied) => JudgeKeepsInbound(cfg, s, c, applied);
    case ReadRules(c, kind) => ReadKeepsInbound(cfg, s, c, kind);
    case Commit(c, eventId, stamp, result) => CommitKeepsInbound(cfg, s, c, eventId, stamp, result);
    case Acknowledge(c, applied) => AcknowledgeKeepsInbound(cfg, s, c, applied);
    case Select(_) => PublisherKeepsInbound(cfg, s, a);
    case Publish(_, _) => PublisherKeepsInbound(cfg, s, a);
    case Mark(_, _, _) => PublisherKeepsInbound(cfg, s, a);
    case StopPublisher(_) => PublisherKeepsInbound(cfg, s, a);
    case _ => BrokerKeepsInbound(cfg, s, a);
  }
}
