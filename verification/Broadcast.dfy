/** Live events over WebSockets: a bounded broadcast ring, and sockets that show each owner its own events. */
module Broadcast {
  import opened Common
  import opened Text
  import opened Rules
  import opened AlertStore
  import opened Wire
  import opened Requests

  const RING_SLOTS := 512

  /** A `created` event with the scope it is delivered in. */
  datatype ScopedEvent = ScopedEvent(owner: Actor, rule: AlertRule)

  datatype Received = Nothing | Lagged | Got(event: ScopedEvent)

  class Ring {
    const slots: array<Option<ScopedEvent>>
    var tail: nat
    ghost var log: seq<ScopedEvent>

    /** The last 512 events of the log are in their slots; earlier ones have been overwritten. */
    ghost predicate Valid()
      reads this, slots
    {
      && slots.Length == RING_SLOTS
      && tail == |log|
      && forall p | 0 <= p < tail && tail <= p + RING_SLOTS :: slots[p % RING_SLOTS] == Some(log[p])
    }

    constructor ()
      ensures Valid() && log == [] && fresh(slots)
    {
      slots := new Option<ScopedEvent>[RING_SLOTS](_ => None);
      tail, log := 0, [];
    }

    method Send(event: ScopedEvent)
      requires Valid()
      modifies this, slots
      ensures Valid() && log == old(log) + [event]
    {
      slots[tail % RING_SLOTS] := Some(event);
      tail, log := tail + 1, log + [event];
    }

    /** Reads position `next`; a receiver more than 512 events behind has lost its slot. */
    method Receive(next: nat) returns (r: Received)
      requires Valid() && next <= tail
      ensures r == if next == |log| then Nothing
                   else if |log| - next > 512 then Lagged
                   else Got(log[next])
    {
      if next == tail {
        return Nothing;
      }
      if tail - next > RING_SLOTS {
        return Lagged;
      }
      var slot := slots[next % RING_SLOTS];
      assert slot == Some(log[next]);
      r := Got(slot.value);
    }
  }

  /** What an owner should see of a log. */
  function OwnEvents(log: seq<ScopedEvent>, actor: Actor): seq<ScopedEvent> {
    if log == [] then []
    else
      var n := |log| - 1;
      OwnEvents(log[..n], actor) + if log[n].owner == actor then [log[n]] else []
  }

  lemma {:induction false} OwnEventsConcat(a: seq<ScopedEvent>, b: seq<ScopedEvent>, actor: Actor)
    ensures OwnEvents(a + b, actor) == OwnEvents(a, actor) + OwnEvents(b, actor)
  {
    if b == [] {
      assert a + b == a;
    } else {
      var n := |b| - 1;
      OwnEventsConcat(a, b[..n], actor);
      assert (a + b)[..|a + b| - 1] == a + b[..n];
    }
  }

  /** Filtering keeps the owner's events and only those, and a longer log only adds events at the end. */
  lemma {:induction false} OwnEventsExactly(log: seq<ScopedEvent>, actor: Actor)
    ensures forall e :: e in OwnEvents(log, actor) <==> e in log && e.owner == actor
    ensures forall k | 0 <= k <= |log| :: OwnEvents(log[..k], actor) <= OwnEvents(log, actor)
  {
    if log != [] {
      var n := |log| - 1;
      OwnEventsExactly(log[..n], actor);
      assert log == log[..n] + [log[n]];
    }
    forall k | 0 <= k <= |log|
      ensures OwnEvents(log[..k], actor) <= OwnEvents(log, actor)
    {
      OwnEventsConcat(log[..k], log[k..], actor);
      assert log[..k] + log[k..] == log;
    }
  }

  lemma NextEvent(log: seq<ScopedEvent>, start: nat, next: nat, actor: Actor)
    requires start <= next < |log|
    ensures OwnEvents(log[start..next + 1], actor)
            == OwnEvents(log[start..next], actor) + if log[next].owner == actor then [log[next]] else []
  {
    assert log[start..next + 1][..next - start] == log[start..next];
  }

  /** One turn of the socket's loop, or an event broadcast by some other task in between. */
  datatype Turn = Broadcast(event: ScopedEvent) | ClientMessage | ClientGone | Receive(sendOk: bool)

  datatype Ending = StillOpen | Closed | FellBehind | SendFailed

  /** The events of the turns that broadcast. */
  function Broadcasts(turns: seq<Turn>): seq<ScopedEvent> {
    if turns == [] then []
    else Broadcasts(turns[..|turns| - 1]) + if turns[|turns| - 1].Broadcast? then [turns[|turns| - 1].event] else []
  }

  /** How many `Receive` turns found an event waiting. */
  function Taken(turns: seq<Turn>): (n: nat)
    ensures n <= |Broadcasts(turns)|
  {
    if turns == [] then 0
    else
      var before, last := turns[..|turns| - 1], turns[|turns| - 1];
      if last.Receive? && Taken(before) < |Broadcasts(before)| then Taken(before) + 1 else Taken(before)
  }

  /** The events that wait for the socket after these turns, oldest first. */
  function Waiting(turns: seq<Turn>): seq<ScopedEvent> {
    Broadcasts(turns)[Taken(turns)..]
  }

  /** How turn `k` ends the socket, if it does. */
  function EndingAt(turns: seq<Turn>, k: nat, actor: Actor): Ending
    requires k < |turns|
  {
    var waiting := Waiting(turns[..k]);
    match turns[k]
    case ClientGone => Closed
    case Receive(sendOk) =>
      if |waiting| > 512 then FellBehind
      else if waiting != [] && waiting[0].owner == actor && !sendOk then SendFailed
      else StillOpen
    case _ => StillOpen
  }

  /** `stop` is the first turn that ends the socket, or the end of the turns. */
  ghost predicate StopsAt(turns: seq<Turn>, stop: nat, actor: Actor, ending: Ending) {
    && stop <= |turns|
    && (forall k | 0 <= k < stop :: EndingAt(turns, k, actor).StillOpen?)
    && ending == (if stop < |turns| then EndingAt(turns, stop, actor) else StillOpen)
    && (stop < |turns| ==> !ending.StillOpen?)
  }

  function Receives(turns: seq<Turn>): nat {
    if turns == [] then 0
    else Receives(turns[..|turns| - 1]) + if turns[|turns| - 1].Receive? then 1 else 0
  }

  /** Once nothing is broadcast any more, as many receives as events are waiting leave none. */
  lemma {:induction false} CatchesUp(a: seq<Turn>, b: seq<Turn>)
    requires forall i | 0 <= i < |b| :: !b[i].Broadcast?
    ensures Broadcasts(a + b) == Broadcasts(a)
    ensures Taken(a + b) >= Min(|Broadcasts(a)|, Taken(a) + Receives(b))
    ensures Receives(b) >= |Waiting(a)| ==> Waiting(a + b) == []
  {
    if b == [] {
      assert a + b == a;
    } else {
      var n := |b| - 1;
      CatchesUp(a, b[..n]);
      assert (a + b)[..|a + b| - 1] == a + b[..n];
    }
  }

  /** `sent` is what the owner should have seen of the log between two positions. */
  ghost predicate Shown(log: seq<ScopedEvent>, start: nat, upTo: nat, actor: Actor, sent: seq<ScopedEvent>) {
    start <= upTo <= |log| && sent == OwnEvents(log[start..upTo], actor)
  }

  lemma ShownLater(log: seq<ScopedEvent>, later: seq<ScopedEvent>, start: nat, upTo: nat, actor: Actor,
                   sent: seq<ScopedEvent>)
    requires Shown(log, start, upTo, actor, sent) && log <= later
    ensures Shown(later, start, upTo, actor, sent)
  {
    assert later[start..upTo] == log[start..upTo];
  }

  lemma ShownIsPrefix(log: seq<ScopedEvent>, start: nat, upTo: nat, actor: Actor, sent: seq<ScopedEvent>)
    requires Shown(log, start, upTo, actor, sent)
    ensures sent <= OwnEvents(log[start..], actor)
  {
    OwnEventsExactly(log[start..], actor);
    assert log[start..][..upTo - start] == log[start..upTo];
  }

  /** The socket's turn to receive: skip a foreign event, send an own one, or give up. */
  method ServeNext(ring: Ring, actor: Actor, ghost start: nat, next: nat, sent: seq<ScopedEvent>, sendOk: bool)
    returns (next': nat, sent': seq<ScopedEvent>, ending: Ending)
    requires ring.Valid() && Shown(ring.log, start, next, actor, sent)
    ensures Shown(ring.log, start, next', actor, sent') && next <= next' <= next + 1
    ensures ending.FellBehind? <==> |ring.log| - next > 512
    ensures ending.SendFailed? <==>
              !sendOk && next < |ring.log| <= next + RING_SLOTS && ring.log[next].owner == actor
    ensures !ending.Closed?
    ensures ending.StillOpen? && next < |ring.log| ==> next' == next + 1
    ensures !ending.StillOpen? ==> next' == next
  {
    next', sent', ending := next, sent, StillOpen;
    var received := ring.Receive(next);
    if received.Lagged? {
      ending := FellBehind;
    } else if received.Got? {
      NextEvent(ring.log, start, next, actor);
      if received.event.owner == actor {
        if !sendOk {
          ending := SendFailed;
          return;
        }
        sent' := sent + [received.event];
      }
      next' := next + 1;
    }
  }

  lemma NextTurn(turns: seq<Turn>, i: nat)
    requires i < |turns|
    ensures Broadcasts(turns[..i + 1])
            == Broadcasts(turns[..i]) + if turns[i].Broadcast? then [turns[i].event] else []
    ensures Taken(turns[..i + 1])
            == Taken(turns[..i]) + if turns[i].Receive? && Waiting(turns[..i]) != [] then 1 else 0
  {
    assert turns[..i + 1][..i] == turns[..i];
  }

  /** Where the loop stands after some turns that did not end the socket. */
  ghost predicate InStep(origin: seq<ScopedEvent>, log: seq<ScopedEvent>, upTo: nat, sent: seq<ScopedEvent>,
                         turns: seq<Turn>, i: nat, actor: Actor)
  {
    && i <= |turns|
    && log == origin + Broadcasts(turns[..i])
    && upTo == |origin| + Taken(turns[..i])
    && Shown(log, |origin|, upTo, actor, sent)
    && forall k | 0 <= k < i :: EndingAt(turns, k, actor).StillOpen?
  }

  /** Seen from the socket, what waits is the rest of the log. */
  lemma WaitingIsRest(origin: seq<ScopedEvent>, log: seq<ScopedEvent>, upTo: nat, turns: seq<Turn>)
    requires log == origin + Broadcasts(turns) && upTo == |origin| + Taken(turns)
    ensures upTo <= |log| && log[upTo..] == Waiting(turns)
    ensures |Waiting(turns)| == |log| - upTo && (upTo < |log| ==> Waiting(turns)[0] == log[upTo])
  {
  }

  /** Everything shown so far, in terms of the turns alone. */
  lemma ShownOfTurns(origin: seq<ScopedEvent>, log: seq<ScopedEvent>, upTo: nat, sent: seq<ScopedEvent>,
                     turns: seq<Turn>, actor: Actor)
    requires log == origin + Broadcasts(turns) && upTo == |origin| + Taken(turns)
    requires Shown(log, |origin|, upTo, actor, sent)
    ensures sent == OwnEvents(Broadcasts(turns)[..Taken(turns)], actor)
  {
    assert log[|origin|..upTo] == Broadcasts(turns)[..Taken(turns)];
  }

  lemma StepsInto(origin: seq<ScopedEvent>, log: seq<ScopedEvent>, log': seq<ScopedEvent>, upTo: nat, upTo': nat,
                  sent: seq<ScopedEvent>, sent': seq<ScopedEvent>, turns: seq<Turn>, i: nat, actor: Actor)
    requires i < |turns| && InStep(origin, log, upTo, sent, turns, i, actor)
    requires EndingAt(turns, i, actor).StillOpen?
    requires log' == log + if turns[i].Broadcast? then [turns[i].event] else []
    requires upTo' == upTo + if turns[i].Receive? && Waiting(turns[..i]) != [] then 1 else 0
    requires Shown(log', |origin|, upTo', actor, sent')
    ensures InStep(origin, log', upTo', sent', turns, i + 1, actor)
  {
    NextTurn(turns, i);
  }

  /** One turn of the loop. */
  method TakeTurn(ring: Ring, actor: Actor, ghost origin: seq<ScopedEvent>, turns: seq<Turn>, i: nat,
                  upTo: nat, sent: seq<ScopedEvent>)
    returns (upTo': nat, sent': seq<ScopedEvent>, ending: Ending)
    requires ring.Valid() && i < |turns| && InStep(origin, ring.log, upTo, sent, turns, i, actor)
    modifies ring, ring.slots
    ensures ring.Valid() && ending == EndingAt(turns, i, actor)
    ensures ending.StillOpen? ==> InStep(origin, ring.log, upTo', sent', turns, i + 1, actor)
    ensures !ending.StillOpen? ==> InStep(origin, ring.log, upTo', sent', turns, i, actor)
  {
    upTo', sent', ending := upTo, sent, StillOpen;
    WaitingIsRest(origin, ring.log, upTo, turns[..i]);
    ghost var before := ring.log;
    match turns[i] {
      case Broadcast(event) =>
        ring.Send(event);
        ShownLater(before, ring.log, |origin|, upTo, actor, sent);
      case ClientMessage =>
      case ClientGone =>
        ending := Closed;
        return;
      case Receive(sendOk) =>
        upTo', sent', ending := ServeNext(ring, actor, |origin|, upTo, sent, sendOk);
        if !ending.StillOpen? {
          return;
        }
    }
    StepsInto(origin, before, ring.log, upTo, upTo', sent, sent', turns, i, actor);
  }

  /**
   * Everything a socket sends is, in order and without gaps, the owner's events from the moment it
   * subscribed up to a position that the turns determine: it advances by one with every receive that
   * finds an event. It ends exactly at the first turn at which the client is gone, a receive finds more
   * than 512 events waiting, or an own event cannot be sent; `stop` is that turn.
   */
  method Websocket(ring: Ring, actor: Actor, turns: seq<Turn>)
    returns (sent: seq<ScopedEvent>, upTo: nat, ending: Ending, stop: nat)
    requires ring.Valid()
    modifies ring, ring.slots
    ensures ring.Valid() && StopsAt(turns, stop, actor, ending)
    ensures ring.log == old(ring.log) + Broadcasts(turns[..stop])
    ensures upTo == |old(ring.log)| + Taken(turns[..stop]) <= |ring.log|
    ensures sent == OwnEvents(ring.log[|old(ring.log)|..upTo], actor)
    ensures sent == OwnEvents(Broadcasts(turns[..stop])[..Taken(turns[..stop])], actor)
    ensures sent <= OwnEvents(ring.log[|old(ring.log)|..], actor)
  {
    ghost var origin := ring.log;
    upTo, sent, ending, stop := ring.tail, [], StillOpen, 0;
    while stop < |turns|
      invariant 0 <= stop <= |turns|
      invariant ring.Valid() && InStep(origin, ring.log, upTo, sent, turns, stop, actor)
      invariant ending.StillOpen?
    {
      upTo, sent, ending := TakeTurn(ring, actor, origin, turns, stop, upTo, sent);
      if !ending.StillOpen? {
        break;
      }
      stop := stop + 1;
    }
    ShownIsPrefix(ring.log, |origin|, upTo, actor, sent);
    ShownOfTurns(origin, ring.log, upTo, sent, turns[..stop], actor);
  }

  /** A socket that had as many receives as events were waiting has shown its owner everything. */
  lemma CaughtUpShowsAll(a: seq<Turn>, b: seq<Turn>, actor: Actor)
    requires forall i | 0 <= i < |b| :: !b[i].Broadcast?
    requires Receives(b) >= |Waiting(a)|
    ensures OwnEvents(Broadcasts(a + b)[..Taken(a + b)], actor) == OwnEvents(Broadcasts(a), actor)
  {
    CatchesUp(a, b);
    assert Broadcasts(a)[..|Broadcasts(a)|] == Broadcasts(a);
  }

  // ----- Creating alerts -----

  datatype ApiResult = BodyRefused | Unauthorized | InvalidRequest | ServiceUnavailable | Created201(rule: AlertRule)

  /** Every event ever broadcast is a rule that was stored, for the owner it is delivered to. */
  ghost predicate EventsAreStored(history: seq<AlertRow>, log: seq<ScopedEvent>) {
    forall e | 0 <= e < |log| :: AlertRow(log[e].owner, log[e].rule) in history
  }

  /** Every stored rule came from a request within the body limit. */
  ghost predicate RulesAreStorable(p: Printer, history: seq<AlertRow>) {
    forall row | row in history :: Storable(p, row.rule)
  }

  /** The store takes a valid rule: always in memory; in the database if the row is admissible and the call works. */
  ghost predicate Stores(durable: bool, history: seq<AlertRow>, owner: Actor, id: Uuid, fault: Fault) {
    durable ==>
      && fault.NoFault? && 1 <= |owner.productTenant| <= 64
      && forall row | row in history :: row.rule.id != id
  }

  /** The handler once the body is decoded; `caller` is what authorization made of the request. */
  method CreateDecoded(store: Store, ring: Ring, caller: Option<Actor>, input: CreateAlertRule, id: Uuid, now: int,
                       fault: Fault)
    returns (r: ApiResult)
    requires store.Valid() && ring.Valid() && EventsAreStored(store.history, ring.log)
    modifies store, ring, ring.slots
    ensures store.Valid() && ring.Valid() && EventsAreStored(store.history, ring.log)
    ensures r.Created201? ==>
              && caller.Some? && Validate(input).Pass? && r.rule == IntoRule(input, id, now)
              && store.history == old(store.history) + [AlertRow(caller.value, r.rule)]
              && ring.log == old(ring.log) + [ScopedEvent(caller.value, r.rule)]
    ensures !r.Created201? ==> ring.log == old(ring.log)
    ensures !r.BodyRefused? && (r.Unauthorized? <==> caller.None?)
    ensures r.InvalidRequest? <==> caller.Some? && Validate(input).Fail?
    ensures r.Created201? <==>
              caller.Some? && Validate(input).Pass? && Stores(store.durable, old(store.history), caller.value, id, fault)
    ensures r.Unauthorized? || r.InvalidRequest? ==> store.history == old(store.history)
    ensures || store.history == old(store.history)
            || (caller.Some? && Validate(input).Pass?
                && store.history == old(store.history) + [AlertRow(caller.value, IntoRule(input, id, now))])
  {
    if caller.None? {
      return Unauthorized;
    }
    if Validate(input).Fail? {
      return InvalidRequest;
    }
    ghost var before := store.history;
    var created := store.Create(caller.value, input, id, now, fault);
    assert before <= store.history;
    if created.Rejected? {
      return ServiceUnavailable;
    }
    var event := ScopedEvent(caller.value, created.rule);
    assert store.history[|before|] == AlertRow(caller.value, created.rule);
    ring.Send(event);
    r := Created201(created.rule);
  }

  lemma StoresStorable(p: Printer, history: seq<AlertRow>, owner: Actor, body: string, input: CreateAlertRule,
                       id: Uuid, now: int)
    requires RulesAreStorable(p, history) && AcceptedBody(p, body, input)
    ensures RulesAreStorable(p, history + [AlertRow(owner, IntoRule(input, id, now))])
  {
    var rule := IntoRule(input, id, now);
    assert Storable(p, rule);
  }

  /**
   * The route for new alerts. The body is limited and decoded before anything else; `decoded` is what
   * the decoder made of it. Only requests within the limit are ever stored, and an event is broadcast
   * exactly for a rule that was stored and answered.
   */
  method CreateAlert(store: Store, ring: Ring, caller: Option<Actor>, body: string, decoded: Option<CreateAlertRule>,
                     id: Uuid, now: int, fault: Fault, ghost p: Printer)
    returns (r: ApiResult)
    requires store.Valid() && ring.Valid() && EventsAreStored(store.history, ring.log)
    requires RulesAreStorable(p, store.history) && (decoded.Some? ==> Denotes(p, body, decoded.value))
    modifies store, ring, ring.slots
    ensures store.Valid() && ring.Valid() && EventsAreStored(store.history, ring.log)
    ensures RulesAreStorable(p, store.history)
    ensures r.Created201? ==>
              && caller.Some? && decoded.Some? && Validate(decoded.value).Pass?
              && r.rule == IntoRule(decoded.value, id, now)
              && store.history == old(store.history) + [AlertRow(caller.value, r.rule)]
              && ring.log == old(ring.log) + [ScopedEvent(caller.value, r.rule)]
    ensures !r.Created201? ==> ring.log == old(ring.log)
    ensures r.BodyRefused? <==> ByteLen(body) > MAX_JSON_BODY_BYTES || decoded.None?
    ensures r.Unauthorized? <==> !r.BodyRefused? && caller.None?
    ensures r.InvalidRequest? <==> !r.BodyRefused? && caller.Some? && Validate(decoded.value).Fail?
    ensures r.Created201? <==>
              && !r.BodyRefused? && caller.Some? && Validate(decoded.value).Pass?
              && Stores(store.durable, old(store.history), caller.value, id, fault)
    ensures r.BodyRefused? || r.Unauthorized? || r.InvalidRequest? ==> store.history == old(store.history)
  {
    if ByteLen(body) > MAX_JSON_BODY_BYTES || decoded.None? {
      return BodyRefused;
    }
    ghost var before := store.history;
    r := CreateDecoded(store, ring, caller, decoded.value, id, now, fault);
    if store.history != before {
      StoresStorable(p, before, caller.value, body, decoded.value, id, now);
    }
  }
}
