/** Delivery times, redelivery and the deadline window: when a command can pass the gate again. */
module Timing {
  import opened Command
  import opened Protocol
  import opened Durability
  import opened Inbound

  ghost predicate DeliveryOk(s: State, d: nat)
    requires d < |s.deliveries|
  {
    && s.deliveries[d].message < |s.messages|
    && s.messages[s.deliveries[d].message].deliveries > 0
    && s.deliveries[d].at <= s.messages[s.deliveries[d].message].lastDelivery <= s.clock
  }

  /** Two deliveries of one message are at least the ack wait apart. */
  ghost predicate Spaced(s: State) {
    forall i, j | 0 <= i < j < |s.deliveries| && s.deliveries[i].message == s.deliveries[j].message ::
      s.deliveries[i].at + 30_000 <= s.deliveries[j].at
  }

  ghost predicate AdmissionOk(cfg: Config, s: State, k: nat)
    requires k < |s.admissions|
  {
    && s.admissions[k].delivery < |s.deliveries|
    && s.deliveries[s.admissions[k].delivery].at <= s.admissions[k].at <= s.clock
    && s.deliveries[s.admissions[k].delivery].message < |s.messages|
    && Passes(cfg, s.messages[s.deliveries[s.admissions[k].delivery].message], s.admissions[k].at)
  }

  ghost predicate TimingInv(cfg: Config, s: State) {
    && (forall d | 0 <= d < |s.deliveries| :: DeliveryOk(s, d))
    && Spaced(s)
    && (forall k | 0 <= k < |s.admissions| :: AdmissionOk(cfg, s, k))
  }

  lemma AdmissionPersists(cfg: Config, s: State, later: State, k: nat)
    requires Extends(s, later) && k < |s.admissions| && AdmissionOk(cfg, s, k)
    ensures AdmissionOk(cfg, later, k)
  {
    var m := s.deliveries[s.admissions[k].delivery].message;
    assert SameMessage(s.messages[m], later.messages[m]);
  }

  /** Nothing about deliveries changed apart from which are taken, and new admissions are in order. */
  lemma TimingFrame(cfg: Config, s: State, later: State)
    requires Extends(s, later) && TimingInv(cfg, s)
    requires |later.deliveries| == |s.deliveries|
    requires forall m | 0 <= m < |s.messages| ::
               && later.messages[m].deliveries == s.messages[m].deliveries
               && later.messages[m].lastDelivery == s.messages[m].lastDelivery
    requires forall k | |s.admissions| <= k < |later.admissions| :: AdmissionOk(cfg, later, k)
    ensures TimingInv(cfg, later)
  {
    forall d | 0 <= d < |later.deliveries|
      ensures DeliveryOk(later, d)
    {
      assert DeliveryOk(s, d);
    }
    forall k | 0 <= k < |later.admissions|
      ensures AdmissionOk(cfg, later, k)
    {
      if k < |s.admissions| {
        AdmissionPersists(cfg, s, later, k);
      }
    }
  }

  lemma DeliverKeepsTiming(cfg: Config, s: State, m: nat)
    requires TimingInv(cfg, s)
    ensures TimingInv(cfg, ExecDeliver(s, m))
  {
    var later := ExecDeliver(s, m);
    DeliverExtends(s, m);
    if Deliverable(s, m) {
      forall i, j | 0 <= i < j < |later.deliveries| && later.deliveries[i].message == later.deliveries[j].message
        ensures later.deliveries[i].at + ACK_WAIT_MS <= later.deliveries[j].at
      {
        assert DeliveryOk(s, i);
      }
      forall d | 0 <= d < |later.deliveries|
        ensures DeliveryOk(later, d)
      {
        if d < |s.deliveries| {
          assert DeliveryOk(s, d);
        }
      }
      forall k | 0 <= k < |later.admissions|
        ensures AdmissionOk(cfg, later, k)
      {
        AdmissionPersists(cfg, s, later, k);
      }
    }
  }

  lemma JudgeKeepsTiming(cfg: Config, s: State, c: nat, applied: bool)
    requires TimingInv(cfg, s) && InboundInv(cfg, s)
    ensures TimingInv(cfg, ExecJudge(cfg, s, c, applied))
  {
    JudgeExtends(cfg, s, c, applied);
    ConsumerAtOk(cfg, s, c);
    var phase := ConsumerAt(s, c);
    if phase.Holding? {
      assert DeliveryOk(s, phase.delivery);
    }
    TimingFrame(cfg, s, ExecJudge(cfg, s, c, applied));
  }

  lemma StepKeepsTiming(cfg: Config, s: State, a: Action)
    requires TimingInv(cfg, s) && InboundInv(cfg, s)
    ensures TimingInv(cfg, Exec(cfg, s, a))
  {
    match a
    case Deliver(m) => DeliverKeepsTiming(cfg, s, m);
    case Judge(c, applied) => JudgeKeepsTiming(cfg, s, c, applied);
    case Commit(c, eventId, stamp, result) =>
      CommitExtends(s, c, eventId, stamp, result);
      TimingFrame(cfg, s, ExecCommit(s, c, eventId, stamp, result));
    case _ => OtherStepsKeepTiming(cfg, s, a);
  }

  lemma OtherStepsKeepTiming(cfg: Config, s: State, a: Action)
    requires TimingInv(cfg, s)
    requires !a.Deliver? && !a.Judge? && !a.Commit?
    ensures TimingInv(cfg, Exec(cfg, s, a))
  {
    StepExtends(cfg, s, a);
    TimingFrame(cfg, s, Exec(cfg, s, a));
  }

  // ----- Consequences -----

  /** The same command, on whatever deliveries or messages, is never admitted more than 15 seconds apart. */
  lemma AdmissionsWithinWindow(cfg: Config, s: State, k1: nat, k2: nat)
    requires TimingInv(cfg, s) && k1 < |s.admissions| && k2 < |s.admissions|
    requires BodyOf(s, s.admissions[k1].delivery) == BodyOf(s, s.admissions[k2].delivery)
    ensures s.admissions[k2].at - s.admissions[k1].at <= MAX_OPERATION_DEADLINE_MS
  {
    assert AdmissionOk(cfg, s, k1) && AdmissionOk(cfg, s, k2);
    AdmissionsAreClose(cfg.gate, BodyOf(s, s.admissions[k1].delivery).value, s.admissions[k1].at, s.admissions[k2].at);
  }

  /**
   * A message is admitted on a redelivery only if, on the earlier delivery, it waited at least 15
   * seconds before it was admitted; a command admitted sooner than that is never admitted again.
   */
  lemma ReadmissionNeedsDelay(cfg: Config, s: State, k1: nat, k2: nat)
    requires TimingInv(cfg, s) && k1 < |s.admissions| && k2 < |s.admissions|
    requires s.admissions[k1].delivery < s.admissions[k2].delivery < |s.deliveries|
    requires s.deliveries[s.admissions[k1].delivery].message == s.deliveries[s.admissions[k2].delivery].message
    ensures s.admissions[k1].at >= s.deliveries[s.admissions[k1].delivery].at + 15_000
  {
    assert AdmissionOk(cfg, s, k1) && AdmissionOk(cfg, s, k2);
    AdmissionsWithinWindow(cfg, s, k1, k2);
  }
}
