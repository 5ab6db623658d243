/** When a message can pass the gate on a further delivery: exactly, for every state of every run. */
module Readmission {
  import opened Common
  import opened Command
  import opened Wire
  import opened Protocol
  import opened Durability
  import opened Timing
  import opened Safety

  function Max(a: int, b: int): int {
    if a >= b then a else b
  }

  /** The earliest time at which the broker may hand out message `m` once more. */
  function NextDelivery(s: State, m: nat): int
    requires m < |s.messages|
  {
    if s.messages[m].deliveries == 0 then s.clock else Max(s.clock, s.messages[m].lastDelivery + 30_000)
  }

  /** The broker still has a delivery left for message `m`. */
  predicate HasDeliveryLeft(s: State, m: nat)
    requires m < |s.messages|
  {
    s.messages[m].disposition.Open? && s.messages[m].deliveries < 8
  }

  // ----- New deliveries wait -----

  /** Deliveries of `m` made since `s` were possible in `s` and did not come early. */
  ghost predicate Waited(s: State, later: State, m: nat)
    requires m < |s.messages|
  {
    && m < |later.messages|
    && s.messages[m].deliveries <= later.messages[m].deliveries
    && (s.messages[m].deliveries > 0 ==> s.messages[m].lastDelivery <= later.messages[m].lastDelivery)
    && forall d | |s.deliveries| <= d < |later.deliveries| && later.deliveries[d].message == m ::
         HasDeliveryLeft(s, m) && NextDelivery(s, m) <= later.deliveries[d].at
  }

  lemma DeliverWaits(s: State, mid: State, x: nat, m: nat)
    requires m < |s.messages| && Extends(s, mid) && Waited(s, mid, m)
    ensures Waited(s, ExecDeliver(mid, x), m)
  {
    assert SameMessage(s.messages[m], mid.messages[m]);
  }

  lemma OtherStepsWait(cfg: Config, s: State, mid: State, a: Action, m: nat)
    requires m < |s.messages| && Extends(s, mid) && Waited(s, mid, m) && !a.Deliver?
    ensures Waited(s, Exec(cfg, mid, a), m)
  {
    CountersKept(cfg, mid, a, m);
    WaitedFrame(s, mid, Exec(cfg, mid, a), m);
  }

  lemma WaitedFrame(s: State, mid: State, later: State, m: nat)
    requires m < |s.messages| && Waited(s, mid, m) && m < |later.messages|
    requires SameDeliveries(mid.deliveries, later.deliveries)
    requires later.messages[m].deliveries == mid.messages[m].deliveries
    requires later.messages[m].lastDelivery == mid.messages[m].lastDelivery
    ensures Waited(s, later, m)
  {
  }

  lemma {:induction false} RunWaits(cfg: Config, s: State, more: seq<Action>, m: nat)
    requires m < |s.messages|
    ensures Waited(s, RunFrom(cfg, s, more), m)
  {
    if more != [] {
      var n := |more| - 1;
      var mid := RunFrom(cfg, s, more[..n]);
      RunWaits(cfg, s, more[..n], m);
      RunExtends(cfg, s, more[..n]);
      if more[n].Deliver? {
        DeliverWaits(s, mid, more[n].message, m);
      } else {
        OtherStepsWait(cfg, s, mid, more[n], m);
      }
    }
  }

  /**
   * A settled message stays settled the same way, is never deliverable again and gets no further
   * delivery, in every continuation.
   */
  lemma SettledIsFinal(cfg: Config, s: State, more: seq<Action>, m: nat)
    requires m < |s.messages| && !s.messages[m].disposition.Open?
    ensures var later := RunFrom(cfg, s, more);
            && m < |later.messages| && later.messages[m].disposition == s.messages[m].disposition
            && !Deliverable(later, m)
            && forall d | |s.deliveries| <= d < |later.deliveries| :: later.deliveries[d].message != m
  {
    RunWaits(cfg, s, more, m);
    RunExtends(cfg, s, more);
    assert SameMessage(s.messages[m], RunFrom(cfg, s, more).messages[m]);
  }

  // ----- The condition -----

  /** Since `s`, message `m` was delivered once more and the gate let its command through on that delivery. */
  ghost predicate AdmittedSince(s: State, later: State, m: nat) {
    exists k: nat :: AdmittedAt(s, later, m, k)
  }

  predicate AdmittedAt(s: State, later: State, m: nat, k: nat) {
    && |s.admissions| <= k < |later.admissions|
    && |s.deliveries| <= later.admissions[k].delivery < |later.deliveries|
    && later.deliveries[later.admissions[k].delivery].message == m
  }

  /** What decides it: the message itself, the broker's record of it and the clock. */
  predicate CanPassAgain(cfg: Config, s: State, m: nat)
    requires m < |s.messages|
  {
    && HasDeliveryLeft(s, m)
    && s.messages[m].bytes <= 262_144
    && s.messages[m].body.Some?
    && TimelessChecks(cfg.gate, s.messages[m].body.value)
    && NextDelivery(s, m) <= s.messages[m].body.value.operation.deadlineMs
  }

  lemma AdmittedOnlyThen(cfg: Config, s: State, more: seq<Action>, m: nat)
    requires m < |s.messages| && TimingInv(cfg, RunFrom(cfg, s, more))
    requires AdmittedSince(s, RunFrom(cfg, s, more), m)
    ensures CanPassAgain(cfg, s, m)
  {
    var later := RunFrom(cfg, s, more);
    var k: nat :| AdmittedAt(s, later, m, k);
    RunWaits(cfg, s, more, m);
    RunExtends(cfg, s, more);
    assert SameMessage(s.messages[m], later.messages[m]);
    assert AdmissionOk(cfg, later, k);
    AdmitsInWindow(cfg.gate, later.messages[m].body.value, later.admissions[k].at);
  }

  /** The steps of one more try: wait and deliver, then let a fresh consumer judge it. */
  function Await(s: State, m: nat, at: U64): seq<Action>
    requires s.clock <= at
  {
    [Tick(at - s.clock), Deliver(m)]
  }

  function Attempt(d: nat): seq<Action> {
    [StopConsumer(0), Take(0, d), Judge(0, true)]
  }

  lemma DeliveredAt(cfg: Config, s: State, m: nat, at: U64)
    requires m < |s.messages| && HasDeliveryLeft(s, m) && NextDelivery(s, m) <= at
    ensures var later := RunFrom(cfg, s, Await(s, m, at));
            && later.clock == at && later.admissions == s.admissions
            && later.deliveries == s.deliveries + [Delivery(m, at, false)]
            && m < |later.messages|
            && later.messages[m].bytes == s.messages[m].bytes && later.messages[m].body == s.messages[m].body
  {
    RunTwo(cfg, s, Tick(at - s.clock), Deliver(m));
  }

  lemma TakenUp(s: State, d: nat)
    requires d < |s.deliveries| && !s.deliveries[d].taken
    ensures var later := ExecTake(SetConsumer(s, 0, Idle), 0, d);
            && ConsumerAt(later, 0) == Holding(d)
            && later.clock == s.clock && later.admissions == s.admissions && later.messages == s.messages
            && |later.deliveries| == |s.deliveries| && later.deliveries[d].message == s.deliveries[d].message
  {
  }

  lemma LetThrough(cfg: Config, s: State, d: nat)
    requires ConsumerAt(s, 0) == Holding(d) && d < |s.deliveries| && s.deliveries[d].message < |s.messages|
    requires Passes(cfg, s.messages[s.deliveries[d].message], s.clock)
    ensures var later := ExecJudge(cfg, s, 0, true);
            && later.admissions == s.admissions + [Admission(d, s.clock)] && later.deliveries == s.deliveries
            && later.messages == s.messages && later.clock == s.clock
  {
  }

  lemma AttemptIs(cfg: Config, s: State, d: nat)
    ensures RunFrom(cfg, s, Attempt(d)) == ExecJudge(cfg, ExecTake(SetConsumer(s, 0, Idle), 0, d), 0, true)
  {
    RunThree(cfg, s, StopConsumer(0), Take(0, d), Judge(0, true));
  }

  lemma JudgedAt(cfg: Config, s: State, d: nat)
    requires d < |s.deliveries| && !s.deliveries[d].taken && s.deliveries[d].message < |s.messages|
    requires Passes(cfg, s.messages[s.deliveries[d].message], s.clock)
    ensures var later := RunFrom(cfg, s, Attempt(d));
            && later.admissions == s.admissions + [Admission(d, s.clock)]
            && |later.deliveries| == |s.deliveries| && later.deliveries[d].message == s.deliveries[d].message
  {
    AttemptIs(cfg, s, d);
    TakenUp(s, d);
    LetThrough(cfg, ExecTake(SetConsumer(s, 0, Idle), 0, d), d);
  }

  lemma AttemptSucceeds(cfg: Config, s: State, mid: State, m: nat)
    requires mid.deliveries == s.deliveries + [Delivery(m, mid.clock, false)] && mid.admissions == s.admissions
    requires m < |mid.messages| && Passes(cfg, mid.messages[m], mid.clock)
    ensures AdmittedAt(s, RunFrom(cfg, mid, Attempt(|s.deliveries|)), m, |s.admissions|)
  {
    JudgedAt(cfg, mid, |s.deliveries|);
  }

  lemma TrySucceeds(cfg: Config, s: State, m: nat, at: U64)
    requires m < |s.messages| && HasDeliveryLeft(s, m) && NextDelivery(s, m) <= at
    requires Passes(cfg, s.messages[m], at)
    ensures AdmittedAt(s, RunFrom(cfg, s, Await(s, m, at) + Attempt(|s.deliveries|)), m, |s.admissions|)
  {
    DeliveredAt(cfg, s, m, at);
    AttemptSucceeds(cfg, s, RunFrom(cfg, s, Await(s, m, at)), m);
    RunConcat(cfg, s, Await(s, m, at), Attempt(|s.deliveries|));
  }

  lemma AdmittedThen(cfg: Config, s: State, m: nat) returns (more: seq<Action>)
    requires m < |s.messages| && CanPassAgain(cfg, s, m)
    ensures AdmittedSince(s, RunFrom(cfg, s, more), m)
  {
    var c := s.messages[m].body.value;
    var at: U64 := Max(NextDelivery(s, m), c.operation.deadlineMs - MAX_OPERATION_DEADLINE_MS);
    AdmitsInWindow(cfg.gate, c, at);
    TrySucceeds(cfg, s, m, at);
    more := Await(s, m, at) + Attempt(|s.deliveries|);
  }

  /**
   * In every state of every run a message can be admitted on a further delivery if and only if it is
   * unsettled with a delivery left, passes the checks that do not look at the clock, and its deadline is
   * not before the time the broker can next deliver it: now, and 30 seconds after the last delivery.
   */
  lemma AdmittedAgainIff(cfg: Config, run: seq<Action>, m: nat)
    requires m < |Run(cfg, run).messages|
    ensures (exists more :: AdmittedSince(Run(cfg, run), Run(cfg, run + more), m))
            <==> CanPassAgain(cfg, Run(cfg, run), m)
  {
    var s := Run(cfg, run);
    if more :| AdmittedSince(s, Run(cfg, run + more), m) {
      EveryRunIsSafe(cfg, run + more);
      RunConcat(cfg, INITIAL, run, more);
      AdmittedOnlyThen(cfg, s, more, m);
    }
    if CanPassAgain(cfg, s, m) {
      var more := AdmittedThen(cfg, s, m);
      RunConcat(cfg, INITIAL, run, more);
    }
  }
}
