/** How often a message can pass the gate: once per delivery, and at most eight deliveries. */
module Admissions {
  import opened Common
  import opened Protocol
  import opened Durability

  // ----- A delivery is judged once -----

  /** Each delivery is in the hands of one consumer, which has not judged it yet, or was judged at most once. */
  ghost predicate JudgedOnce(s: State) {
    && (forall c | c in s.consumers && s.consumers[c].Holding? ::
          && s.consumers[c].delivery < |s.deliveries|
          && s.deliveries[s.consumers[c].delivery].taken
          && forall k | 0 <= k < |s.admissions| :: s.admissions[k].delivery != s.consumers[c].delivery)
    && (forall b, c | b in s.consumers && c in s.consumers && b != c
                      && s.consumers[b].Holding? && s.consumers[c].Holding? ::
          s.consumers[b].delivery != s.consumers[c].delivery)
    && (forall k | 0 <= k < |s.admissions| ::
          s.admissions[k].delivery < |s.deliveries| && s.deliveries[s.admissions[k].delivery].taken)
    && (forall j, k | 0 <= j < k < |s.admissions| :: s.admissions[j].delivery != s.admissions[k].delivery)
  }

  lemma StepJudgesOnce(cfg: Config, s: State, a: Action)
    requires JudgedOnce(s)
    ensures JudgedOnce(Exec(cfg, s, a))
  {
    match a
    case Take(c, d) => TakeJudgesOnce(s, c, d);
    case Judge(c, applied) => JudgeJudgesOnce(cfg, s, c, applied);
    case Deliver(m) => DeliverJudgesOnce(s, m);
    case _ => OthersJudgeOnce(cfg, s, a);
  }

  lemma TakeJudgesOnce(s: State, c: nat, d: nat)
    requires JudgedOnce(s)
    ensures JudgedOnce(ExecTake(s, c, d))
  {
  }

  lemma DeliverJudgesOnce(s: State, m: nat)
    requires JudgedOnce(s)
    ensures JudgedOnce(ExecDeliver(s, m))
  {
  }

  lemma JudgeJudgesOnce(cfg: Config, s: State, c: nat, applied: bool)
    requires JudgedOnce(s)
    ensures JudgedOnce(ExecJudge(cfg, s, c, applied))
  {
    var later := ExecJudge(cfg, s, c, applied);
    if later.admissions == s.admissions {
      JudgedOnceFrame(s, later);
    } else {
      AdmissionJudgesOnce(s, c, s.clock);
    }
  }

  lemma AdmissionJudgesOnce(s: State, c: nat, at: U64)
    requires JudgedOnce(s) && c in s.consumers && s.consumers[c].Holding?
    ensures var d := s.consumers[c].delivery;
            JudgedOnce(SetConsumer(s, c, Admitted(d, at)).(admissions := s.admissions + [Admission(d, at)]))
  {
  }

  /** Nothing happened to deliveries and admissions, and nobody started holding a delivery. */
  lemma JudgedOnceFrame(s: State, later: State)
    requires JudgedOnce(s)
    requires later.deliveries == s.deliveries && later.admissions == s.admissions
    requires forall c | c in later.consumers && later.consumers[c].Holding? ::
               c in s.consumers && later.consumers[c] == s.consumers[c]
    ensures JudgedOnce(later)
  {
  }

  lemma OthersJudgeOnce(cfg: Config, s: State, a: Action)
    requires JudgedOnce(s) && !a.Take? && !a.Judge? && !a.Deliver?
    ensures JudgedOnce(Exec(cfg, s, a))
  {
    JudgedOnceFrame(s, Exec(cfg, s, a));
  }

  // ----- A message is delivered at most eight times -----

  ghost function DeliveriesOf(deliveries: seq<Delivery>, m: nat): set<nat> {
    set d | 0 <= d < |deliveries| && deliveries[d].message == m
  }

  /** The broker's counter is the true number of deliveries, and it stops at eight. */
  ghost predicate Counted(s: State) {
    && (forall d | 0 <= d < |s.deliveries| :: s.deliveries[d].message < |s.messages|)
    && (forall m | 0 <= m < |s.messages| ::
          |DeliveriesOf(s.deliveries, m)| == s.messages[m].deliveries <= MAX_DELIVER)
  }

  lemma DeliverCounts(s: State, m: nat)
    requires Counted(s)
    ensures Counted(ExecDeliver(s, m))
  {
    if Deliverable(s, m) {
      var later := ExecDeliver(s, m);
      forall x | 0 <= x < |later.messages|
        ensures |DeliveriesOf(later.deliveries, x)| == later.messages[x].deliveries <= MAX_DELIVER
      {
        var n := |s.deliveries|;
        if x == m {
          assert DeliveriesOf(later.deliveries, x) == DeliveriesOf(s.deliveries, x) + {n};
        } else {
          assert DeliveriesOf(later.deliveries, x) == DeliveriesOf(s.deliveries, x);
        }
      }
    }
  }

  lemma SameCount(deliveries: seq<Delivery>, later: seq<Delivery>, m: nat)
    requires SameDeliveries(deliveries, later)
    ensures DeliveriesOf(later, m) == DeliveriesOf(deliveries, m)
  {
  }

  lemma OthersCount(cfg: Config, s: State, a: Action)
    requires Counted(s) && !a.Deliver?
    ensures Counted(Exec(cfg, s, a))
  {
    var later := Exec(cfg, s, a);
    StepExtends(cfg, s, a);
    forall x | 0 <= x < |later.messages|
      ensures |DeliveriesOf(later.deliveries, x)| == later.messages[x].deliveries <= MAX_DELIVER
    {
      if x < |s.messages| {
        CountersKept(cfg, s, a, x);
      } else {
        NewMessagesAreUncounted(cfg, s, a, x);
        assert DeliveriesOf(s.deliveries, x) == {};
      }
      SameCount(s.deliveries, later.deliveries, x);
    }
    assert |later.deliveries| == |s.deliveries|;
  }

  lemma {:induction false} RunIsCounted(cfg: Config, run: seq<Action>)
    ensures JudgedOnce(Run(cfg, run)) && Counted(Run(cfg, run))
  {
    if run != [] {
      var n := |run| - 1;
      RunIsCounted(cfg, run[..n]);
      StepJudgesOnce(cfg, Run(cfg, run[..n]), run[n]);
      if run[n].Deliver? {
        DeliverCounts(Run(cfg, run[..n]), run[n].message);
      } else {
        OthersCount(cfg, Run(cfg, run[..n]), run[n]);
      }
    }
  }

  /** The deliveries of message `m` on which its command was admitted. */
  ghost function AdmittedDeliveries(s: State, m: nat): set<nat> {
    set k | 0 <= k < |s.admissions| && s.admissions[k].delivery < |s.deliveries|
            && s.deliveries[s.admissions[k].delivery].message == m :: s.admissions[k].delivery
  }

  /**
   * In every run no delivery is admitted twice and no message is delivered more than eight times, so
   * no message starts more than eight transactions.
   */
  lemma AtMostEightAdmissions(cfg: Config, run: seq<Action>, m: nat)
    ensures var s := Run(cfg, run);
            && (forall j, k | 0 <= j < k < |s.admissions| :: s.admissions[j].delivery != s.admissions[k].delivery)
            && |AdmittedDeliveries(s, m)| <= 8
  {
    RunIsCounted(cfg, run);
    var s := Run(cfg, run);
    var admitted, delivered := AdmittedDeliveries(s, m), DeliveriesOf(s.deliveries, m);
    assert admitted <= delivered;
    assert delivered == admitted + (delivered - admitted);
    if m >= |s.messages| {
      assert delivered == {};
    }
  }
}
