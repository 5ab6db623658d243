/** The publisher's loop, executed alone, is a run of the protocol: the same statements, step by step. */
module PublisherRuns {
  import opened Transport
  import opened Outbox
  import opened Protocol

  /** The steps a poll takes from row `k` of its batch on; a last step on the empty batch ends it. */
  function RowActions(cfg: Config, p: nat, rows: seq<OutboxRow>, k: nat, luck: nat -> RowOutcome, now: int)
    : seq<Action>
    requires k <= |rows|
    decreases |rows| - k
  {
    if k == |rows| then [Publish(p, Refused)]
    else
      var outcome := luck(k);
      [Publish(p, outcome.publish)]
      + (if Oversized(cfg.size, rows[k]) || outcome.publish.Refused? || !outcome.publish.acked then []
         else [Mark(p, now, outcome.mark)]
              + (if outcome.mark.Marked? then RowActions(cfg, p, rows, k + 1, luck, now) else []))
  }

  function PollActions(cfg: Config, p: nat, outbox: seq<OutboxRow>, luck: nat -> RowOutcome, now: int): seq<Action> {
    [Select(p)] + RowActions(cfg, p, SelectBatch(outbox), 0, luck, now)
  }

  function WithChannel(s: State, p: nat, ch: Channel): State {
    SetPublisher(s, p, Resting).(tables := s.tables.(outbox := ch.outbox), events := ch.events)
  }

  /** Whatever a poll did before, its end state is determined by the channel it leaves. */
  lemma OnlyChannelMatters(s: State, p: nat, phase: Publisher, before: Channel, ch: Channel)
    ensures var mid := SetPublisher(s, p, phase)
                       .(tables := s.tables.(outbox := before.outbox), events := before.events);
            WithChannel(mid, p, ch) == WithChannel(s, p, ch)
  {
  }

  lemma {:induction false} LoopIsARun(cfg: Config, s: State, p: nat, rows: seq<OutboxRow>, k: nat,
                                     luck: nat -> RowOutcome, now: int)
    requires k <= |rows| && PublisherAt(s, p) == Batch(rows[k..])
    ensures RunFrom(cfg, s, RowActions(cfg, p, rows, k, luck, now))
            == WithChannel(s, p, PollFrom(cfg.size, Channel(s.tables.outbox, s.events), rows, k, luck, now).0)
    decreases |rows| - k
  {
    var actions := RowActions(cfg, p, rows, k, luck, now);
    if k == |rows| {
      RunOne(cfg, s, Publish(p, Refused));
    } else {
      var outcome := luck(k);
      assert rows[k..][0] == rows[k] && rows[k..][1..] == rows[k + 1..];
      var s1 := Exec(cfg, s, Publish(p, outcome.publish));
      RunCons(cfg, s, Publish(p, outcome.publish), actions[1..]);
      assert [actions[0]] + actions[1..] == actions;
      if !Oversized(cfg.size, rows[k]) && outcome.publish.Stored? && outcome.publish.acked {
        assert PublisherAt(s1, p) == Unmarked(rows[k], rows[k + 1..]);
        if outcome.mark.Marked? {
          var s2 := ExecMark(s1, p, now, Marked);
          LoopIsARun(cfg, s2, p, rows, k + 1, luck, now);
          MarkThenContinue(cfg, s1, p, now, RowActions(cfg, p, rows, k + 1, luck, now),
                           PollFrom(cfg.size, Channel(s2.tables.outbox, s2.events), rows, k + 1, luck, now).0);
        } else {
          MarkFailsEnds(cfg, s1, p, rows[k], outcome.mark.applied, now);
        }
        OnlyChannelMatters(s, p, PublisherAt(s1, p), Channel(s1.tables.outbox, s1.events),
                           PollFrom(cfg.size, Channel(s.tables.outbox, s.events), rows, k, luck, now).0);
      }
    }
  }

  /** Marking a row and then ending with channel `ch` is one run ending with channel `ch`. */
  lemma MarkThenContinue(cfg: Config, s: State, p: nat, now: int, rest: seq<Action>, ch: Channel)
    requires PublisherAt(s, p).Unmarked?
    requires var s1 := ExecMark(s, p, now, Marked);
             RunFrom(cfg, s1, rest) == WithChannel(s1, p, ch)
    ensures RunFrom(cfg, s, [Mark(p, now, Marked)] + rest) == WithChannel(s, p, ch)
  {
    var phase := PublisherAt(s, p);
    RunCons(cfg, s, Mark(p, now, Marked), rest);
    OnlyChannelMatters(s, p, Batch(phase.rest),
                       Channel(MarkRow(s.tables.outbox, phase.row.eventId, now), s.events), ch);
  }

  lemma MarkFailsEnds(cfg: Config, s: State, p: nat, row: OutboxRow, applied: bool, now: int)
    requires PublisherAt(s, p).Unmarked? && PublisherAt(s, p).row == row
    ensures var marked := if applied then MarkRow(s.tables.outbox, row.eventId, now) else s.tables.outbox;
            RunFrom(cfg, s, [Mark(p, now, MarkFails(applied))] + [])
            == WithChannel(s, p, Channel(marked, s.events))
  {
  }

  /** A resting publisher that polls undisturbed by others performs exactly these steps. */
  lemma PollIsARun(cfg: Config, s: State, p: nat, luck: nat -> RowOutcome, now: int)
    requires PublisherAt(s, p).Resting?
    ensures RunFrom(cfg, s, PollActions(cfg, p, s.tables.outbox, luck, now))
            == WithChannel(s, p, Poll(cfg.size, Channel(s.tables.outbox, s.events), luck, now).0)
  {
    var batch := SelectBatch(s.tables.outbox);
    var s1 := Exec(cfg, s, Select(p));
    assert batch[0..] == batch;
    RunCons(cfg, s, Select(p), RowActions(cfg, p, batch, 0, luck, now));
    LoopIsARun(cfg, s1, p, batch, 0, luck, now);
    assert s1.publishers[p := Resting] == s.publishers[p := Resting];
  }
}
