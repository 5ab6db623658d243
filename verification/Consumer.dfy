/** The consumer's message loop over one connection: judge, run the transaction, acknowledge, stop on error. */
module Consumer {
  import opened Common
  import opened Command
  import opened Wire
  import opened Transport
  import opened Protocol

  /** A delivered message together with everything outside the server that decides its fate. */
  datatype Arrival = Arrival(
    bytes: nat,
    body: Option<AsyncCommand>,
    now: Option<U64>,
    read: ReadOutcome,
    eventId: Uuid,
    stamp: int,
    fault: TxFault,
    ackSent: bool
  )

  predicate Accepts(gate: GateConfig, a: Arrival) {
    && a.bytes <= MAX_NATS_PAYLOAD_BYTES
    && a.body.Some?
    && a.now.Some?
    && Admits(gate, a.body.value, a.now.value)
  }

  function Verdict(gate: GateConfig, a: Arrival): Disposition {
    if Accepts(gate, a) then Acked else Terminated
  }

  /** The tables after a message whose transaction, if it has one, commits. */
  function Absorb(gate: GateConfig, t: Tables, a: Arrival): Tables {
    if !Accepts(gate, a) then t
    else
      var after := Process(t, a.body.value, ReplyTo(a.body.value.correlationId, a.read), a.eventId, a.stamp);
      if after.None? then t else after.value
  }

  function AbsorbAll(gate: GateConfig, t: Tables, feed: seq<Arrival>): Tables {
    if feed == [] then t else Absorb(gate, AbsorbAll(gate, t, feed[..|feed| - 1]), feed[|feed| - 1])
  }

  /** One message: the tables it leaves, and how it was settled; `None` is an error that ends the loop. */
  function Handle(gate: GateConfig, t: Tables, a: Arrival): (Tables, Option<Disposition>) {
    if a.bytes > MAX_NATS_PAYLOAD_BYTES || a.body.None? then
      (t, if a.ackSent then Some(Terminated) else None)
    else if a.now.None? then
      (t, None)
    else if !Admits(gate, a.body.value, a.now.value) then
      (t, if a.ackSent then Some(Terminated) else None)
    else
      var reply := ReplyTo(a.body.value.correlationId, a.read);
      var tx := Transact(t, a.body.value, reply, a.eventId, a.stamp, a.fault);
      (tx.0, if tx.1 && a.ackSent then Some(Acked) else None)
  }

  /** A loop over messages `i`, `i + 1`, ... that ends at the first error. */
  function LoopFrom(step: (Tables, Arrival) -> (Tables, Option<Disposition>), t: Tables, feed: seq<Arrival>, i: nat)
    : (Tables, seq<Disposition>)
    requires i <= |feed|
    decreases |feed| - i
  {
    if i == |feed| then (t, [])
    else
      var first := step(t, feed[i]);
      if first.1.None? then (first.0, [])
      else
        var rest := LoopFrom(step, first.0, feed, i + 1);
        (rest.0, [first.1.value] + rest.1)
  }

  function Step(gate: GateConfig): (Tables, Arrival) -> (Tables, Option<Disposition>) {
    (t, a) => Handle(gate, t, a)
  }

  function HandleAll(gate: GateConfig, t: Tables, feed: seq<Arrival>): (Tables, seq<Disposition>) {
    LoopFrom(Step(gate), t, feed, 0)
  }

  lemma ReplyToIsServerReply(c: AsyncCommand, read: ReadOutcome)
    ensures ServerReply(c, ReplyTo(c.correlationId, read))
  {
  }

  lemma AbsorbKeepsConsistent(gate: GateConfig, t: Tables, a: Arrival)
    requires Consistent(t)
    ensures Consistent(Absorb(gate, t, a)) && t.inbox <= Absorb(gate, t, a).inbox
  {
    if Accepts(gate, a) {
      var c := a.body.value;
      var reply := ReplyTo(c.correlationId, a.read);
      AdmittedIsWellShaped(gate, c, a.now.value);
      ReplyToIsServerReply(c, a.read);
      if Process(t, c, reply, a.eventId, a.stamp).Some? {
        ProcessKeepsConsistent(t, c, reply, a.eventId, a.stamp);
      }
    }
  }

  /** A redelivered command that is already recorded leaves every table as it is. */
  lemma RedeliveryIsAbsorbed(gate: GateConfig, t: Tables, a: Arrival)
    requires Consistent(t)
    requires a.body.Some? ==> Recorded(t.inbox, a.body.value)
    ensures Absorb(gate, t, a) == t
  {
  }

  /**
   * Redelivery is safe: feeding any number of recorded commands again, in any order, at any times and
   * with any query results, changes none of the three tables.
   */
  lemma {:induction false} RedeliveriesChangeNothing(gate: GateConfig, t: Tables, again: seq<Arrival>)
    requires Consistent(t)
    requires forall i | 0 <= i < |again| && again[i].body.Some? :: Recorded(t.inbox, again[i].body.value)
    ensures AbsorbAll(gate, t, again) == t
  {
    if again != [] {
      RedeliveriesChangeNothing(gate, t, again[..|again| - 1]);
      RedeliveryIsAbsorbed(gate, t, again[|again| - 1]);
    }
  }

  lemma {:induction false} AbsorbAllKeepsConsistent(gate: GateConfig, t: Tables, feed: seq<Arrival>)
    requires Consistent(t)
    ensures Consistent(AbsorbAll(gate, t, feed)) && t.inbox <= AbsorbAll(gate, t, feed).inbox
  {
    if feed != [] {
      var n := |feed| - 1;
      AbsorbAllKeepsConsistent(gate, t, feed[..n]);
      AbsorbKeepsConsistent(gate, AbsorbAll(gate, t, feed[..n]), feed[n]);
    }
  }

  lemma AbsorbNext(gate: GateConfig, t: Tables, feed: seq<Arrival>, i: nat)
    requires i < |feed|
    ensures AbsorbAll(gate, t, feed[..i + 1]) == Absorb(gate, AbsorbAll(gate, t, feed[..i]), feed[i])
  {
    assert feed[..i + 1][..i] == feed[..i];
  }

  /** The answer the broker gets for a message; `None` is an error that ends the loop. */
  method HandleMessage(db: Database, gate: GateConfig, a: Arrival) returns (r: Option<Disposition>)
    requires Consistent(db.Contents())
    modifies db
    ensures (db.Contents(), r) == Handle(gate, old(db.Contents()), a)
    ensures Consistent(db.Contents()) && old(db.inbox) <= db.inbox
    ensures r.Some? ==> && r.value == Verdict(gate, a)
                        && db.Contents() == Absorb(gate, old(db.Contents()), a)
                        && (r.value.Acked? ==> a.body.Some? && Recorded(db.inbox, a.body.value))
    ensures r.None? ==> || db.Contents() == old(db.Contents())
                        || (Accepts(gate, a) && db.Contents() == Absorb(gate, old(db.Contents()), a))
  {
    AbsorbKeepsConsistent(gate, db.Contents(), a);
    if a.bytes > MAX_NATS_PAYLOAD_BYTES || a.body.None? {
      return if a.ackSent then Some(Terminated) else None;
    }
    if a.now.None? {
      return None;
    }
    var c := a.body.value;
    if !Admits(gate, c, a.now.value) {
      return if a.ackSent then Some(Terminated) else None;
    }
    AdmittedIsWellShaped(gate, c, a.now.value);
    var ok := db.ProcessCommand(c, a.read, a.eventId, a.stamp, a.fault);
    r := if ok && a.ackSent then Some(Acked) else None;
  }

  /** The messages acknowledged so far carry commands that the inbox records. */
  ghost predicate AcksRecorded(feed: seq<Arrival>, settled: seq<Disposition>, inbox: seq<InboxRow>) {
    && |settled| <= |feed|
    && forall i | 0 <= i < |settled| && settled[i].Acked? ::
         feed[i].body.Some? && Recorded(inbox, feed[i].body.value)
  }

  /** What the loop knows after settling some messages. */
  ghost predicate Progress(gate: GateConfig, start: Tables, feed: seq<Arrival>, settled: seq<Disposition>, t: Tables) {
    && SettledByVerdict(gate, feed, settled)
    && AcksRecorded(feed, settled, t.inbox)
    && t == AbsorbAll(gate, start, feed[..|settled|])
    && start.inbox <= t.inbox
  }

  ghost predicate SettledByVerdict(gate: GateConfig, feed: seq<Arrival>, settled: seq<Disposition>) {
    |settled| <= |feed| && forall i | 0 <= i < |settled| :: settled[i] == Verdict(gate, feed[i])
  }

  lemma VerdictOneMore(gate: GateConfig, feed: seq<Arrival>, settled: seq<Disposition>, answer: Disposition)
    requires SettledByVerdict(gate, feed, settled) && |settled| < |feed| && answer == Verdict(gate, feed[|settled|])
    ensures SettledByVerdict(gate, feed, settled + [answer])
  {
  }

  lemma AcksStayRecorded(feed: seq<Arrival>, settled: seq<Disposition>, inbox: seq<InboxRow>, later: seq<InboxRow>)
    requires AcksRecorded(feed, settled, inbox) && inbox <= later
    ensures AcksRecorded(feed, settled, later)
  {
    forall i | 0 <= i < |settled| && settled[i].Acked?
      ensures feed[i].body.Some? && Recorded(later, feed[i].body.value)
    {
      var k :| 0 <= k < |inbox| && SharesKey(inbox[k], feed[i].body.value);
      assert later[k] == inbox[k];
    }
  }

  lemma AckOneMore(feed: seq<Arrival>, settled: seq<Disposition>, inbox: seq<InboxRow>, answer: Disposition)
    requires AcksRecorded(feed, settled, inbox) && |settled| < |feed|
    requires answer.Acked? ==> feed[|settled|].body.Some? && Recorded(inbox, feed[|settled|].body.value)
    ensures AcksRecorded(feed, settled + [answer], inbox)
  {
  }

  lemma SettleOneMore(gate: GateConfig, start: Tables, feed: seq<Arrival>, settled: seq<Disposition>,
                      t: Tables, t': Tables, answer: Disposition)
    requires Progress(gate, start, feed, settled, t) && |settled| < |feed|
    requires t' == Absorb(gate, t, feed[|settled|]) && t.inbox <= t'.inbox
    requires answer == Verdict(gate, feed[|settled|])
    requires answer.Acked? ==> feed[|settled|].body.Some? && Recorded(t'.inbox, feed[|settled|].body.value)
    ensures Progress(gate, start, feed, settled + [answer], t')
  {
    AbsorbNext(gate, start, feed, |settled|);
    VerdictOneMore(gate, feed, settled, answer);
    AcksStayRecorded(feed, settled, t.inbox, t'.inbox);
    AckOneMore(feed, settled, t'.inbox, answer);
  }

  /** The loop's result is what it has settled so far and what it still makes of the rest. */
  ghost predicate Remains(step: (Tables, Arrival) -> (Tables, Option<Disposition>), feed: seq<Arrival>,
                          whole: (Tables, seq<Disposition>), settled: seq<Disposition>, t: Tables)
  {
    && |settled| <= |feed|
    && var rest := LoopFrom(step, t, feed, |settled|);
       whole == (rest.0, settled + rest.1)
  }

  lemma RemainsAtTheEnds(step: (Tables, Arrival) -> (Tables, Option<Disposition>), feed: seq<Arrival>,
                         whole: (Tables, seq<Disposition>), settled: seq<Disposition>, t: Tables)
    ensures whole == LoopFrom(step, t, feed, 0) ==> Remains(step, feed, whole, [], t)
    ensures Remains(step, feed, whole, settled, t) && |settled| == |feed| ==> whole == (t, settled)
  {
    assert [] + whole.1 == whole.1 && settled + [] == settled;
  }

  lemma StepOneMore(step: (Tables, Arrival) -> (Tables, Option<Disposition>), feed: seq<Arrival>,
                    whole: (Tables, seq<Disposition>), settled: seq<Disposition>, t: Tables)
    requires Remains(step, feed, whole, settled, t) && |settled| < |feed|
    ensures var next := step(t, feed[|settled|]);
            && (next.1.None? ==> whole == (next.0, settled))
            && (next.1.Some? ==> Remains(step, feed, whole, settled + [next.1.value], next.0))
  {
    var next := step(t, feed[|settled|]);
    if next.1.None? {
      assert settled + [] == settled;
    } else {
      var rest := LoopFrom(step, next.0, feed, |settled| + 1);
      assert settled + ([next.1.value] + rest.1) == settled + [next.1.value] + rest.1;
    }
  }

  /**
   * Returns how each message was settled, in order, up to the first error. A message is terminated
   * exactly when the gate refuses it; an acknowledged one is recorded in the inbox. The tables are
   * those of the settled messages, possibly with the transaction of the one it failed on.
   */
  method Consume(db: Database, gate: GateConfig, feed: seq<Arrival>) returns (settled: seq<Disposition>)
    requires Consistent(db.Contents())
    modifies db
    ensures (db.Contents(), settled) == HandleAll(gate, old(db.Contents()), feed)
    ensures |settled| <= |feed|
    ensures forall i | 0 <= i < |settled| :: settled[i] == if Accepts(gate, feed[i]) then Acked else Terminated
    ensures AcksRecorded(feed, settled, db.inbox)
    ensures || db.Contents() == AbsorbAll(gate, old(db.Contents()), feed[..|settled|])
            || (|settled| < |feed| && Accepts(gate, feed[|settled|])
                && db.Contents() == AbsorbAll(gate, old(db.Contents()), feed[..|settled| + 1]))
    ensures Consistent(db.Contents()) && old(db.inbox) <= db.inbox
  {
    settled := [];
    ghost var start := db.Contents();
    ghost var whole := HandleAll(gate, start, feed);
    RemainsAtTheEnds(Step(gate), feed, whole, [], start);
    while |settled| < |feed|
      invariant Progress(gate, start, feed, settled, db.Contents())
      invariant Remains(Step(gate), feed, whole, settled, db.Contents())
      invariant Consistent(db.Contents())
      decreases |feed| - |settled|
    {
      ghost var before := db.Contents();
      StepOneMore(Step(gate), feed, whole, settled, before);
      var answer := HandleMessage(db, gate, feed[|settled|]);
      if answer.None? {
        AbsorbNext(gate, start, feed, |settled|);
        AcksStayRecorded(feed, settled, before.inbox, db.inbox);
        return;
      }
      SettleOneMore(gate, start, feed, settled, before, db.Contents(), answer.value);
      settled := settled + [answer.value];
    }
    RemainsAtTheEnds(Step(gate), feed, whole, settled, db.Contents());
  }
}
