/** The outbox publisher: the batch query, the publish-then-mark loop and what repeated polls achieve. */
module Outbox {
  import opened Common
  import opened Ordering
  import opened Transport
  import opened Wire

  const BATCH_LIMIT := 50

  /** A message of the event stream; `messageId` is its `Nats-Msg-Id` header. */
  datatype Event = Event(messageId: string, subject: string, payload: EventEnvelope)

  function EventOf(row: OutboxRow): Event {
    Event(row.dedupeKey, row.subject, row.payload)
  }

  // ----- The two statements -----

  /** `WHERE published_at IS NULL`, in table order. */
  function Pending(outbox: seq<OutboxRow>): seq<OutboxRow> {
    if outbox == [] then []
    else if outbox[0].publishedAt.None? then [outbox[0]] + Pending(outbox[1..])
    else Pending(outbox[1..])
  }

  /** `ORDER BY created_at, event_id`. */
  function PendingKey(row: OutboxRow): Key {
    Key(row.createdAt, row.eventId)
  }

  function Queue(outbox: seq<OutboxRow>): seq<OutboxRow> {
    Sort(Pending(outbox), PendingKey)
  }

  function SelectBatch(outbox: seq<OutboxRow>): seq<OutboxRow> {
    Limit(Queue(outbox), BATCH_LIMIT)
  }

  /** `UPDATE ... SET published_at = now() WHERE event_id = $1 AND published_at IS NULL`. */
  function MarkRow(outbox: seq<OutboxRow>, eventId: Uuid, now: int): (r: seq<OutboxRow>)
    ensures |r| == |outbox|
  {
    seq(|outbox|, i requires 0 <= i < |outbox| =>
      if outbox[i].eventId == eventId && outbox[i].publishedAt.None?
      then outbox[i].(publishedAt := Some(now)) else outbox[i])
  }

  // ----- The broker -----

  predicate HasMessage(events: seq<Event>, messageId: string) {
    exists i | 0 <= i < |events| :: events[i].messageId == messageId
  }

  /** Storing a message; within its duplicate window the broker drops a message id it has already seen. */
  function StoreEvent(events: seq<Event>, event: Event, inWindow: bool): seq<Event> {
    if inWindow && HasMessage(events, event.messageId) then events else events + [event]
  }

  /** The number of bytes of a serialised payload; `Wire.EventBytes` is the one the server computes. */
  type Sizer = EventEnvelope -> nat

  predicate Oversized(size: Sizer, row: OutboxRow) {
    size(row.payload) > MAX_NATS_PAYLOAD_BYTES
  }

  // ----- One poll -----

  /** What happens to one publish: refused, or stored with or without the acknowledgement coming back. */
  datatype PublishOutcome = Refused | Stored(inWindow: bool, acked: bool)

  datatype MarkOutcome = Marked | MarkFails(applied: bool)

  datatype RowOutcome = RowOutcome(publish: PublishOutcome, mark: MarkOutcome)

  datatype Channel = Channel(outbox: seq<OutboxRow>, events: seq<Event>)

  /** One iteration of the publish loop; `false` ends the poll with an error. */
  function PublishRow(size: Sizer, ch: Channel, row: OutboxRow, luck: RowOutcome, now: int): (Channel, bool) {
    if Oversized(size, row) || luck.publish.Refused? then
      (ch, false)
    else
      var stored := ch.(events := StoreEvent(ch.events, EventOf(row), luck.publish.inWindow));
      if !luck.publish.acked then
        (stored, false)
      else
        var marked := stored.(outbox := MarkRow(stored.outbox, row.eventId, now));
        match luck.mark
        case Marked => (marked, true)
        case MarkFails(applied) => (if applied then marked else stored, false)
  }

  function PollFrom(size: Sizer, ch: Channel, rows: seq<OutboxRow>, k: nat, luck: nat -> RowOutcome, now: int)
    : (Channel, bool)
    requires k <= |rows|
    decreases |rows| - k
  {
    if k == |rows| then
      (ch, true)
    else
      var step := PublishRow(size, ch, rows[k], luck(k), now);
      if step.1 then PollFrom(size, step.0, rows, k + 1, luck, now) else step
  }

  /** One call of the publisher; `luck(k)` is what happens to the k-th row of the batch. */
  function Poll(size: Sizer, ch: Channel, luck: nat -> RowOutcome, now: int): (Channel, bool) {
    PollFrom(size, ch, SelectBatch(ch.outbox), 0, luck, now)
  }

  class EventStream {
    var log: seq<Event>

    constructor ()
      ensures log == []
    {
      log := [];
    }
  }

  method PublishPending(db: Database, stream: EventStream, size: Sizer, luck: nat -> RowOutcome, now: int)
    returns (ok: bool)
    modifies db`outbox, stream
    ensures (Channel(db.outbox, stream.log), ok)
            == Poll(size, Channel(old(db.outbox), old(stream.log)), luck, now)
    ensures old(stream.log) <= stream.log
    ensures forall e | |old(stream.log)| <= e < |stream.log| :: SentFrom(size, stream.log[e], old(db.outbox))
  {
    PollSendsRows(size, Channel(db.outbox, stream.log), luck, now);
    var rows := SelectBatch(db.outbox);
    var k := 0;
    while k < |rows|
      invariant 0 <= k <= |rows|
      invariant PollFrom(size, Channel(db.outbox, stream.log), rows, k, luck, now)
                == Poll(size, Channel(old(db.outbox), old(stream.log)), luck, now)
    {
      var row := rows[k];
      var outcome := luck(k);
      if Oversized(size, row) {
        return false;
      }
      if outcome.publish.Refused? {
        return false;
      }
      stream.log := StoreEvent(stream.log, EventOf(row), outcome.publish.inWindow);
      if !outcome.publish.acked {
        return false;
      }
      if outcome.mark == MarkFails(false) {
        return false;
      }
      db.outbox := MarkRow(db.outbox, row.eventId, now);
      if outcome.mark.MarkFails? {
        return false;
      }
      k := k + 1;
    }
    ok := true;
  }

  /** The event is published under the reply key and the subject of this row, with its payload. */
  predicate Publishes(event: Event, row: OutboxRow) {
    event.messageId == row.dedupeKey && event.subject == row.subject && event.payload == row.payload
  }

  /** The event publishes an unpublished row of the outbox that is within the payload limit. */
  ghost predicate SentFrom(size: Sizer, event: Event, outbox: seq<OutboxRow>) {
    exists row :: row in outbox && row.publishedAt.None? && size(row.payload) <= 262_144 && Publishes(event, row)
  }

  lemma {:induction false} LoopSendsRows(size: Sizer, ch: Channel, rows: seq<OutboxRow>, k: nat,
                                        luck: nat -> RowOutcome, now: int, outbox: seq<OutboxRow>)
    requires k <= |rows| && forall row | row in rows :: row in outbox && row.publishedAt.None?
    ensures var after := PollFrom(size, ch, rows, k, luck, now).0.events;
            && ch.events <= after
            && forall e | |ch.events| <= e < |after| :: SentFrom(size, after[e], outbox)
    decreases |rows| - k
  {
    if k < |rows| {
      var step := PublishRow(size, ch, rows[k], luck(k), now);
      assert rows[k] in rows;
      RowSends(size, ch, rows[k], luck(k), now, outbox);
      if step.1 {
        LoopSendsRows(size, step.0, rows, k + 1, luck, now, outbox);
      }
    }
  }

  lemma RowSends(size: Sizer, ch: Channel, row: OutboxRow, luck: RowOutcome, now: int, outbox: seq<OutboxRow>)
    requires row in outbox && row.publishedAt.None?
    ensures var after := PublishRow(size, ch, row, luck, now).0.events;
            && ch.events <= after
            && forall e | |ch.events| <= e < |after| :: SentFrom(size, after[e], outbox)
  {
    var after := PublishRow(size, ch, row, luck, now).0.events;
    if after != ch.events {
      assert Publishes(after[|ch.events|], row);
    }
  }

  /** Whatever fails, a poll adds to the stream only messages of unpublished rows within the limit. */
  lemma PollSendsRows(size: Sizer, ch: Channel, luck: nat -> RowOutcome, now: int)
    ensures var after := Poll(size, ch, luck, now).0.events;
            && ch.events <= after
            && forall e | |ch.events| <= e < |after| :: SentFrom(size, after[e], ch.outbox)
  {
    SortRows(Pending(ch.outbox), PendingKey);
    PendingRows(ch.outbox);
    assert forall row | row in SelectBatch(ch.outbox) :: row in Queue(ch.outbox);
    LoopSendsRows(size, ch, SelectBatch(ch.outbox), 0, luck, now, ch.outbox);
  }

  // ----- Properties of the queue -----

  lemma {:induction false} PendingRows(outbox: seq<OutboxRow>)
    ensures forall row :: row in Pending(outbox) <==> row in outbox && row.publishedAt.None?
  {
    if outbox != [] {
      PendingRows(outbox[1..]);
      assert outbox == [outbox[0]] + outbox[1..];
    }
  }

  ghost predicate DistinctEventIds(outbox: seq<OutboxRow>) {
    forall i, j | 0 <= i < j < |outbox| :: outbox[i].eventId != outbox[j].eventId
  }

  lemma {:induction false} PendingKeysDistinct(outbox: seq<OutboxRow>)
    requires DistinctEventIds(outbox)
    ensures DistinctKeys(Pending(outbox), PendingKey)
  {
    if outbox != [] {
      PendingKeysDistinct(outbox[1..]);
      PendingRows(outbox[1..]);
      var rest := Pending(outbox[1..]);
      forall j | 0 <= j < |rest|
        ensures rest[j].eventId != outbox[0].eventId
      {
        assert rest[j] in outbox[1..];
      }
    }
  }

  /** Earlier creation time first; equal times by event id. */
  predicate Ahead(a: OutboxRow, b: OutboxRow) {
    a.createdAt < b.createdAt || (a.createdAt == b.createdAt && a.eventId < b.eventId)
  }

  ghost predicate OldestFirst(rows: seq<OutboxRow>) {
    forall i, j | 0 <= i < j < |rows| :: Ahead(rows[i], rows[j])
  }

  /** The queue holds exactly the unpublished rows, strictly ordered by creation time and event id. */
  lemma QueueIsOrdered(outbox: seq<OutboxRow>)
    requires DistinctEventIds(outbox)
    ensures Ascending(Queue(outbox), PendingKey) && OldestFirst(Queue(outbox))
    ensures forall row :: row in Queue(outbox) <==> row in outbox && row.publishedAt.None?
  {
    PendingKeysDistinct(outbox);
    SortAscends(Pending(outbox), PendingKey);
    SortRows(Pending(outbox), PendingKey);
    PendingRows(outbox);
    var q := Queue(outbox);
    forall i, j | 0 <= i < j < |q|
      ensures Ahead(q[i], q[j])
    {
      assert Less(PendingKey(q[i]), PendingKey(q[j]));
    }
  }

  // ----- What an undisturbed poll does -----

  ghost predicate AllSucceed(luck: nat -> RowOutcome) {
    forall k :: luck(k).publish.Stored? && luck(k).publish.acked && luck(k).mark.Marked?
  }

  function MarkedBy(outbox: seq<OutboxRow>, ids: set<Uuid>, now: int): (r: seq<OutboxRow>)
    ensures |r| == |outbox|
  {
    seq(|outbox|, i requires 0 <= i < |outbox| =>
      if outbox[i].eventId in ids && outbox[i].publishedAt.None?
      then outbox[i].(publishedAt := Some(now)) else outbox[i])
  }

  ghost function IdsOf(rows: seq<OutboxRow>): set<Uuid> {
    set row | row in rows :: row.eventId
  }

  /** The number of rows ahead of the first one that is too large to publish. */
  function FirstOversized(size: Sizer, rows: seq<OutboxRow>): (n: nat)
    ensures n <= |rows|
  {
    if rows == [] || Oversized(size, rows[0]) then 0 else 1 + FirstOversized(size, rows[1..])
  }

  lemma {:induction false} FirstOversizedSplits(size: Sizer, rows: seq<OutboxRow>)
    ensures forall i | 0 <= i < FirstOversized(size, rows) :: !Oversized(size, rows[i])
    ensures FirstOversized(size, rows) < |rows| ==> Oversized(size, rows[FirstOversized(size, rows)])
  {
    if rows != [] && !Oversized(size, rows[0]) {
      FirstOversizedSplits(size, rows[1..]);
      assert forall i | 1 <= i < |rows| :: rows[i] == rows[1..][i - 1];
    }
  }

  lemma {:induction false} FirstOversizedDrop(size: Sizer, rows: seq<OutboxRow>, k: nat)
    requires k <= FirstOversized(size, rows)
    ensures FirstOversized(size, rows[k..]) == FirstOversized(size, rows) - k
  {
    if k > 0 {
      FirstOversizedDrop(size, rows[1..], k - 1);
      assert rows[1..][k - 1..] == rows[k..];
    } else {
      assert rows[k..] == rows;
    }
  }

  lemma MarkOneMore(outbox: seq<OutboxRow>, ids: set<Uuid>, id: Uuid, now: int)
    ensures MarkRow(MarkedBy(outbox, ids, now), id, now) == MarkedBy(outbox, ids + {id}, now)
  {
  }

  lemma IdsOfPrefix(rows: seq<OutboxRow>, k: nat)
    requires k < |rows|
    ensures IdsOf(rows[..k + 1]) == IdsOf(rows[..k]) + {rows[k].eventId}
  {
  }

  /** Where the loop goes when every broker and database call succeeds. */
  lemma SuccessfulRow(size: Sizer, ch: Channel, rows: seq<OutboxRow>, k: nat, luck: nat -> RowOutcome, now: int)
    requires AllSucceed(luck) && k < |rows|
    ensures Oversized(size, rows[k]) ==> PollFrom(size, ch, rows, k, luck, now) == (ch, false)
    ensures !Oversized(size, rows[k]) ==>
              PollFrom(size, ch, rows, k, luck, now)
              == PollFrom(size, Channel(MarkRow(ch.outbox, rows[k].eventId, now),
                                        StoreEvent(ch.events, EventOf(rows[k]), luck(k).publish.inWindow)),
                          rows, k + 1, luck, now)
  {
  }

  /** From row `k` on, the loop marks the rows up to the first oversized one and stops there. */
  lemma {:induction false} LoopMarksPrefix(size: Sizer, outbox: seq<OutboxRow>, events: seq<Event>,
                                          rows: seq<OutboxRow>, k: nat, luck: nat -> RowOutcome, now: int)
    requires AllSucceed(luck)
    requires k <= FirstOversized(size, rows)
    ensures var n := FirstOversized(size, rows);
            var r := PollFrom(size, Channel(MarkedBy(outbox, IdsOf(rows[..k]), now), events), rows, k, luck, now);
            r.0.outbox == MarkedBy(outbox, IdsOf(rows[..n]), now) && r.1 == (n == |rows|)
    decreases |rows| - k
  {
    FirstOversizedSplits(size, rows);
    if k < |rows| {
      SuccessfulRow(size, Channel(MarkedBy(outbox, IdsOf(rows[..k]), now), events), rows, k, luck, now);
      if k < FirstOversized(size, rows) {
        var next := StoreEvent(events, EventOf(rows[k]), luck(k).publish.inWindow);
        MarkOneMore(outbox, IdsOf(rows[..k]), rows[k].eventId, now);
        IdsOfPrefix(rows, k);
        LoopMarksPrefix(size, outbox, next, rows, k + 1, luck, now);
      }
    }
  }

  /** Over the same rows it leaves a message under every reply key, and removes none. */
  lemma {:induction false} LoopStoresMessages(size: Sizer, ch: Channel, rows: seq<OutboxRow>, k: nat,
                                             luck: nat -> RowOutcome, now: int)
    requires AllSucceed(luck) && k <= FirstOversized(size, rows)
    ensures var after := PollFrom(size, ch, rows, k, luck, now).0.events;
            && ch.events <= after
            && forall i | k <= i < FirstOversized(size, rows) :: HasMessage(after, rows[i].dedupeKey)
    decreases |rows| - k
  {
    FirstOversizedSplits(size, rows);
    if k < |rows| {
      SuccessfulRow(size, ch, rows, k, luck, now);
      if k < FirstOversized(size, rows) {
        var next := Channel(MarkRow(ch.outbox, rows[k].eventId, now),
                            StoreEvent(ch.events, EventOf(rows[k]), luck(k).publish.inWindow));
        LoopStoresMessages(size, next, rows, k + 1, luck, now);
        StoreHasMessage(ch.events, rows[k], luck(k).publish.inWindow);
        MessagesPersist(next.events, PollFrom(size, next, rows, k + 1, luck, now).0.events, rows[k].dedupeKey);
      }
    }
  }

  lemma StoreHasMessage(events: seq<Event>, row: OutboxRow, inWindow: bool)
    ensures HasMessage(StoreEvent(events, EventOf(row), inWindow), row.dedupeKey)
  {
    assert (events + [EventOf(row)])[|events|].messageId == row.dedupeKey;
  }

  lemma MessagesPersist(events: seq<Event>, later: seq<Event>, messageId: string)
    requires events <= later && HasMessage(events, messageId)
    ensures HasMessage(later, messageId)
  {
  }

  lemma MarkedRow(outbox: seq<OutboxRow>, ids: set<Uuid>, now: int, row: OutboxRow)
    ensures row in MarkedBy(outbox, ids, now) && row.publishedAt.None?
            <==> row in outbox && row.publishedAt.None? && row.eventId !in ids
  {
    var marked := MarkedBy(outbox, ids, now);
    if row in marked && row.publishedAt.None? {
      var i :| 0 <= i < |marked| && marked[i] == row;
      assert outbox[i] == row;
    }
    if row in outbox && row.publishedAt.None? && row.eventId !in ids {
      var i :| 0 <= i < |outbox| && outbox[i] == row;
      assert marked[i] == row;
    }
  }

  /** Marking a prefix of the queue leaves exactly the rest of it, in the same order. */
  lemma QueueAfterMarking(outbox: seq<OutboxRow>, k: nat, now: int)
    requires DistinctEventIds(outbox) && k <= |Queue(outbox)|
    ensures var marked := MarkedBy(outbox, IdsOf(Queue(outbox)[..k]), now);
            DistinctEventIds(marked) && Queue(marked) == Queue(outbox)[k..]
  {
    var q := Queue(outbox);
    var ids := IdsOf(q[..k]);
    var marked := MarkedBy(outbox, ids, now);
    QueueIsOrdered(outbox);
    assert forall i | 0 <= i < |outbox| :: marked[i].eventId == outbox[i].eventId;
    PendingKeysDistinct(marked);
    PendingRows(marked);
    forall row
      ensures row in Pending(marked) <==> row in q[k..]
    {
      MarkedRow(outbox, ids, now, row);
      RestOfQueue(outbox, k, row);
    }
    SortIsDetermined(Pending(marked), q[k..], PendingKey);
  }

  lemma RestOfQueue(outbox: seq<OutboxRow>, k: nat, row: OutboxRow)
    requires DistinctEventIds(outbox) && k <= |Queue(outbox)|
    ensures row in Queue(outbox)[k..] <==>
              row in outbox && row.publishedAt.None? && row.eventId !in IdsOf(Queue(outbox)[..k])
  {
    var q := Queue(outbox);
    QueueIsOrdered(outbox);
    assert q == q[..k] + q[k..];
    forall i, j | 0 <= i < k <= j < |q|
      ensures q[i].eventId != q[j].eventId
    {
      assert q[i] in outbox && q[j] in outbox;
      assert Less(PendingKey(q[i]), PendingKey(q[j]));
      assert q[i] != q[j];
    }
  }

  /**
   * An undisturbed poll publishes and marks exactly the first rows of the queue: at most 50, and
   * none at or behind the first oversized row. It reports success exactly when it met no such row.
   */
  lemma PollTakesPrefix(size: Sizer, ch: Channel, luck: nat -> RowOutcome, now: int)
    requires DistinctEventIds(ch.outbox) && AllSucceed(luck)
    ensures var q := Queue(ch.outbox);
            var n := Min(50, FirstOversized(size, q));
            var r := Poll(size, ch, luck, now);
            && r.0.outbox == MarkedBy(ch.outbox, IdsOf(q[..n]), now)
            && DistinctEventIds(r.0.outbox)
            && Queue(r.0.outbox) == q[n..]
            && ch.events <= r.0.events
            && (forall i | 0 <= i < n :: HasMessage(r.0.events, q[i].dedupeKey))
            && r.1 == (n == Min(50, |q|))
  {
    var q := Queue(ch.outbox);
    var batch := SelectBatch(ch.outbox);
    var n := FirstOversized(size, batch);
    BatchOversized(size, q);
    assert batch[..0] == [];
    assert MarkedBy(ch.outbox, IdsOf([]), now) == ch.outbox;
    LoopMarksPrefix(size, ch.outbox, ch.events, batch, 0, luck, now);
    LoopStoresMessages(size, ch, batch, 0, luck, now);
    assert batch[..n] == q[..n];
    QueueAfterMarking(ch.outbox, n, now);
  }

  lemma BatchOversized(size: Sizer, q: seq<OutboxRow>)
    ensures FirstOversized(size, Limit(q, BATCH_LIMIT)) == Min(BATCH_LIMIT, FirstOversized(size, q))
  {
    var batch := Limit(q, BATCH_LIMIT);
    FirstOversizedSplits(size, q);
    FirstOversizedSplits(size, batch);
    var a, b := FirstOversized(size, batch), FirstOversized(size, q);
    assert forall i | 0 <= i < |batch| :: batch[i] == q[i];
    assert a < |batch| ==> Oversized(size, q[a]);
    assert b < |batch| ==> Oversized(size, batch[b]);
  }

  function EventsOf(rows: seq<OutboxRow>): (r: seq<Event>)
    ensures |r| == |rows|
  {
    seq(|rows|, i requires 0 <= i < |rows| => EventOf(rows[i]))
  }

  /** The broker drops this row: it falls in the duplicate window of a message the stream already has. */
  predicate Suppressed(events: seq<Event>, row: OutboxRow, luck: RowOutcome) {
    luck.publish.Stored? && luck.publish.inWindow && HasMessage(events, row.dedupeKey)
  }

  /** Of rows `k` up to `n`, those the broker does not drop, in their order. */
  function Kept(rows: seq<OutboxRow>, events: seq<Event>, luck: nat -> RowOutcome, k: nat, n: nat): seq<OutboxRow>
    requires k <= n <= |rows|
    decreases n - k
  {
    if k == n then []
    else
      (if Suppressed(events, rows[k], luck(k)) then [] else [rows[k]]) + Kept(rows, events, luck, k + 1, n)
  }

  /** Nothing the stream has not seen is ever dropped. */
  lemma {:induction false} NewRowsAreKept(rows: seq<OutboxRow>, events: seq<Event>, luck: nat -> RowOutcome,
                                         k: nat, n: nat)
    requires k <= n <= |rows| && forall i | k <= i < n :: !HasMessage(events, rows[i].dedupeKey)
    ensures Kept(rows, events, luck, k, n) == rows[k..n]
    decreases n - k
  {
    if k < n {
      NewRowsAreKept(rows, events, luck, k + 1, n);
      assert rows[k..n] == [rows[k]] + rows[k + 1..n];
    }
  }

  ghost predicate DistinctReplyKeys(rows: seq<OutboxRow>) {
    forall i, j | 0 <= i < j < |rows| :: rows[i].dedupeKey != rows[j].dedupeKey
  }

  lemma BatchKeysDistinct(outbox: seq<OutboxRow>)
    requires UniqueOutbox(outbox)
    ensures DistinctReplyKeys(SelectBatch(outbox))
  {
    QueueIsOrdered(outbox);
    var q := Queue(outbox);
    forall i, j | 0 <= i < j < |q|
      ensures q[i].dedupeKey != q[j].dedupeKey
    {
      assert Ahead(q[i], q[j]);
      assert q[i] in outbox && q[j] in outbox;
    }
  }

  /** The rows still to come are on the stream exactly if they were at the start. */
  ghost predicate SeenAsBefore(rows: seq<OutboxRow>, k: nat, before: seq<Event>, events: seq<Event>) {
    forall i | k <= i < |rows| :: HasMessage(events, rows[i].dedupeKey) <==> HasMessage(before, rows[i].dedupeKey)
  }

  lemma StillSeenAsBefore(rows: seq<OutboxRow>, k: nat, before: seq<Event>, events: seq<Event>)
    requires k < |rows| && DistinctReplyKeys(rows) && SeenAsBefore(rows, k, before, events)
    ensures SeenAsBefore(rows, k + 1, before, events + [EventOf(rows[k])])
  {
    var later := events + [EventOf(rows[k])];
    forall i | k + 1 <= i < |rows|
      ensures HasMessage(later, rows[i].dedupeKey) <==> HasMessage(before, rows[i].dedupeKey)
    {
      assert forall e | 0 <= e < |events| :: later[e] == events[e];
      assert rows[k].dedupeKey != rows[i].dedupeKey;
    }
  }

  lemma {:induction false} LoopPublishesInOrder(size: Sizer, ch: Channel, rows: seq<OutboxRow>, k: nat,
                                               luck: nat -> RowOutcome, now: int, before: seq<Event>)
    requires AllSucceed(luck) && k <= FirstOversized(size, rows)
    requires DistinctReplyKeys(rows) && SeenAsBefore(rows, k, before, ch.events)
    ensures PollFrom(size, ch, rows, k, luck, now).0.events
            == ch.events + EventsOf(Kept(rows, before, luck, k, FirstOversized(size, rows)))
    decreases |rows| - k
  {
    var n := FirstOversized(size, rows);
    FirstOversizedSplits(size, rows);
    if k < n {
      var next := Channel(MarkRow(ch.outbox, rows[k].eventId, now),
                          StoreEvent(ch.events, EventOf(rows[k]), luck(k).publish.inWindow));
      SuccessfulRow(size, ch, rows, k, luck, now);
      StoreUnlessSeen(rows, k, luck(k), before, ch.events);
      LoopPublishesInOrder(size, next, rows, k + 1, luck, now, before);
      KeptEvents(rows, before, luck, k, n, ch.events);
    } else {
      assert EventsOf([]) == [];
    }
  }

  lemma StoreUnlessSeen(rows: seq<OutboxRow>, k: nat, luck: RowOutcome, before: seq<Event>, events: seq<Event>)
    requires k < |rows| && DistinctReplyKeys(rows) && SeenAsBefore(rows, k, before, events) && luck.publish.Stored?
    ensures var later := StoreEvent(events, EventOf(rows[k]), luck.publish.inWindow);
            && later == (if Suppressed(before, rows[k], luck) then events else events + [EventOf(rows[k])])
            && SeenAsBefore(rows, k + 1, before, later)
  {
    StillSeenAsBefore(rows, k, before, events);
  }

  lemma KeptEvents(rows: seq<OutboxRow>, before: seq<Event>, luck: nat -> RowOutcome, k: nat, n: nat,
                   events: seq<Event>)
    requires k < n <= |rows|
    ensures events + EventsOf(Kept(rows, before, luck, k, n))
         == (if Suppressed(before, rows[k], luck(k)) then events else events + [EventOf(rows[k])])
            + EventsOf(Kept(rows, before, luck, k + 1, n))
  {
  }

  /** One event for each row, in the same order. */
  predicate AllPublished(events: seq<Event>, rows: seq<OutboxRow>) {
    |events| == |rows| && forall k | 0 <= k < |rows| :: Publishes(events[k], rows[k])
  }

  /**
   * What an undisturbed poll adds to the stream: one event per row of the prefix, in queue order, leaving
   * out exactly the rows that the broker recognises as sent before (after a failed mark).
   */
  lemma PollPublishesInOrder(size: Sizer, ch: Channel, luck: nat -> RowOutcome, now: int)
    requires AllSucceed(luck) && UniqueOutbox(ch.outbox)
    ensures var q := Queue(ch.outbox);
            var n := Min(BATCH_LIMIT, FirstOversized(size, q));
            && ch.events <= Poll(size, ch, luck, now).0.events
            && AllPublished(Poll(size, ch, luck, now).0.events[|ch.events|..], Kept(q, ch.events, luck, 0, n))
            && ((forall i | 0 <= i < n :: !HasMessage(ch.events, q[i].dedupeKey)) ==>
                  AllPublished(Poll(size, ch, luck, now).0.events[|ch.events|..], q[..n]))
  {
    var q, batch := Queue(ch.outbox), SelectBatch(ch.outbox);
    var n := FirstOversized(size, batch);
    BatchOversized(size, q);
    BatchKeysDistinct(ch.outbox);
    LoopPublishesInOrder(size, ch, batch, 0, luck, now, ch.events);
    SameKept(batch, q, ch.events, luck, 0, n);
    var kept := Kept(q, ch.events, luck, 0, n);
    assert Poll(size, ch, luck, now).0.events[|ch.events|..] == EventsOf(kept);
    if forall i | 0 <= i < n :: !HasMessage(ch.events, q[i].dedupeKey) {
      NewRowsAreKept(q, ch.events, luck, 0, n);
    }
  }

  lemma {:induction false} SameKept(batch: seq<OutboxRow>, q: seq<OutboxRow>, events: seq<Event>,
                                   luck: nat -> RowOutcome, k: nat, n: nat)
    requires k <= n <= |batch| && batch <= q
    ensures Kept(batch, events, luck, k, n) == Kept(q, events, luck, k, n)
    decreases n - k
  {
    if k < n {
      assert batch[k] == q[k];
      SameKept(batch, q, events, luck, k + 1, n);
    }
  }

  /** `m` polls in a row, each with its own luck and time, with no new replies in between. */
  function Polls(size: Sizer, ch: Channel, m: nat, luck: nat -> nat -> RowOutcome, now: nat -> int): Channel {
    if m == 0 then ch
    else
      var before := Polls(size, ch, m - 1, luck, now);
      Poll(size, before, luck(m - 1), now(m - 1)).0
  }

  lemma PollShortensQueue(size: Sizer, ch: Channel, luck: nat -> RowOutcome, now: int)
    requires DistinctEventIds(ch.outbox) && AllSucceed(luck)
    ensures var after := Poll(size, ch, luck, now).0.outbox;
            && DistinctEventIds(after)
            && Queue(after) == Queue(ch.outbox)[Min(BATCH_LIMIT, FirstOversized(size, Queue(ch.outbox)))..]
  {
    PollTakesPrefix(size, ch, luck, now);
  }

  lemma OneMorePoll(size: Sizer, before: Channel, q: seq<OutboxRow>, done: nat, luck: nat -> RowOutcome, now: int)
    requires DistinctEventIds(before.outbox) && AllSucceed(luck)
    requires done <= FirstOversized(size, q) && Queue(before.outbox) == q[done..]
    ensures var after := Poll(size, before, luck, now).0;
            && DistinctEventIds(after.outbox)
            && Queue(after.outbox) == q[done + Min(BATCH_LIMIT, FirstOversized(size, q) - done)..]
  {
    FirstOversizedDrop(size, q, done);
    PollShortensQueue(size, before, luck, now);
    var n := Min(BATCH_LIMIT, FirstOversized(size, q) - done);
    assert q[done..][n..] == q[done + n..];
  }

  /** How many of the first `first` rows `m` batches cover. */
  function Covered(m: nat, first: nat): (done: nat)
    ensures done <= first
  {
    Min(BATCH_LIMIT * m, first)
  }

  lemma OneMoreBatch(m: nat, first: nat)
    requires m > 0
    ensures Covered(m, first) == Covered(m - 1, first) + Min(BATCH_LIMIT, first - Covered(m - 1, first))
  {
  }

  /** Of the queue `q`, the channel has the rows from `done` on left. */
  ghost predicate HasLeft(ch: Channel, q: seq<OutboxRow>, done: nat) {
    DistinctEventIds(ch.outbox) && done <= |q| && Queue(ch.outbox) == q[done..]
  }

  lemma CoverOneMore(size: Sizer, before: Channel, q: seq<OutboxRow>, m: nat, luck: nat -> RowOutcome, now: int)
    requires AllSucceed(luck) && HasLeft(before, q, Covered(m, FirstOversized(size, q)))
    ensures HasLeft(Poll(size, before, luck, now).0, q, Covered(m + 1, FirstOversized(size, q)))
  {
    var first := FirstOversized(size, q);
    OneMorePoll(size, before, q, Covered(m, first), luck, now);
    OneMoreBatch(m + 1, first);
  }

  lemma {:induction false} PollsCover(size: Sizer, ch: Channel, m: nat,
                                      luck: nat -> nat -> RowOutcome, now: nat -> int)
    requires DistinctEventIds(ch.outbox)
    requires forall i :: AllSucceed(luck(i))
    ensures var q := Queue(ch.outbox);
            HasLeft(Polls(size, ch, m, luck, now), q, Covered(m, FirstOversized(size, q)))
  {
    var q := Queue(ch.outbox);
    if m == 0 {
      assert q[0..] == q;
    } else {
      PollsCover(size, ch, m - 1, luck, now);
      CoverOneMore(size, Polls(size, ch, m - 1, luck, now), q, m - 1, luck(m - 1), now(m - 1));
    }
  }

  /**
   * Repeated undisturbed polls remove exactly a prefix of the queue, 50 rows at a time, up to the
   * first oversized row. There they stay for ever: that row and all rows behind it are never published.
   */
  lemma RepeatedPolls(size: Sizer, ch: Channel, m: nat, luck: nat -> nat -> RowOutcome, now: nat -> int)
    requires DistinctEventIds(ch.outbox)
    requires forall i :: AllSucceed(luck(i))
    ensures var q := Queue(ch.outbox);
            var after := Polls(size, ch, m, luck, now);
            && DistinctEventIds(after.outbox)
            && Queue(after.outbox) == q[Min(50 * m, FirstOversized(size, q))..]
  {
    PollsCover(size, ch, m, luck, now);
  }

  lemma AllFit(size: Sizer, rows: seq<OutboxRow>)
    requires forall row | row in rows :: size(row.payload) <= 262_144
    ensures FirstOversized(size, rows) == |rows|
  {
    FirstOversizedSplits(size, rows);
    assert forall i | 0 <= i < |rows| :: rows[i] in rows;
  }

  /** With every pending reply within 256 KiB, `n` of them are drained by `ceil(n / 50)` polls and by no fewer. */
  lemma DrainedAfterCeiling(size: Sizer, ch: Channel, m: nat, luck: nat -> nat -> RowOutcome, now: nat -> int)
    requires DistinctEventIds(ch.outbox)
    requires forall i :: AllSucceed(luck(i))
    requires forall row | row in Queue(ch.outbox) :: size(row.payload) <= 262_144
    ensures Queue(Polls(size, ch, m, luck, now).outbox) == [] <==> m >= (|Queue(ch.outbox)| + 49) / 50
  {
    AllFit(size, Queue(ch.outbox));
    RepeatedPolls(size, ch, m, luck, now);
  }
}
