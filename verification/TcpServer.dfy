/** The framed TCP service: connection permits, and one answer per frame in the order of the frames. */
module TcpServer {
  import opened Common
  import opened Identifiers
  import opened Command
  import opened AlertStore
  import opened Wire
  import opened Transport
  import opened Protocol

  const CONNECTION_LIMIT := 128
  const BEARER := "Bearer "

  datatype AuthenticatedOperation = AuthenticatedOperation(authorization: string, envelope: OperationEnvelope)

  /**
   * A frame as it is executed: its parsed content if it parses, the clock if it can be read, what
   * introspection makes of a token, and the alert table with the fate of the query on it.
   */
  datatype Frame = Frame(
    request: Option<AuthenticatedOperation>,
    now: Option<U64>,
    verify: string -> Option<Actor>,
    table: seq<AlertRow>,
    kind: ReadKind
  )

  /** The caller a request is authorized as: the token's actor, if the envelope names the same one. */
  function AuthorizedActor(request: AuthenticatedOperation, verify: string -> Option<Actor>): Option<Actor> {
    if !(BEARER <= request.authorization) then None
    else
      var actor := verify(request.authorization[|BEARER|..]);
      if actor.Some?
         && PrintUuid(actor.value.subject) == request.envelope.actorSubject
         && actor.value.productTenant == request.envelope.productTenant
      then actor else None
  }

  function ExecuteOperation(frame: Frame): OperationReply {
    if frame.request.None? then ErrorReply(NIL_UUID, "invalid_request")
    else
      var request := frame.request.value;
      var id := request.envelope.operationId;
      if frame.now.None? then ErrorReply(id, "unavailable")
      else if ValidateEnvelopeAt(request.envelope, frame.now.value).Fail? then ErrorReply(id, "invalid_request")
      else
        var actor := AuthorizedActor(request, frame.verify);
        if actor.None? then ErrorReply(id, "unauthorized")
        else ReplyTo(id, ReadOutcomeOf(frame.table, actor.value, frame.kind))
  }

  /** The operation id an answer must carry. */
  function AnswerId(frame: Frame): Uuid {
    if frame.request.Some? then frame.request.value.envelope.operationId else NIL_UUID
  }

  /** The frame parses, the clock can be read, and the request is well-formed and inside its deadline window. */
  predicate Timely(frame: Frame) {
    && frame.request.Some? && frame.now.Some?
    && var e := frame.request.value.envelope;
    && EnvelopeShape(e)
    && e.deadlineMs - MAX_OPERATION_DEADLINE_MS <= frame.now.value <= e.deadlineMs
  }

  /** The frame carries a bearer token that is valid for `actor`, and names that very subject and tenant. */
  predicate Grants(frame: Frame, actor: Actor) {
    && frame.request.Some?
    && var r := frame.request.value;
    && "Bearer " <= r.authorization
    && frame.verify(r.authorization[7..]) == Some(actor)
    && r.envelope.actorSubject == PrintUuid(actor.subject)
    && r.envelope.productTenant == actor.productTenant
  }

  lemma AuthorizedIsGranted(frame: Frame)
    requires frame.request.Some?
    ensures forall a :: AuthorizedActor(frame.request.value, frame.verify) == Some(a) <==> Grants(frame, a)
  {
    assert |BEARER| == 7;
  }

  /** The page of an actor, as an answer. */
  ghost predicate AnswersWithPage(frame: Frame, reply: OperationReply, actor: Actor) {
    && reply.result == Some(ReadAlerts(frame.table, actor))
    && frame.request.Some?
    && ParseUuid(frame.request.value.envelope.actorSubject) == Some(actor.subject)
    && NewestFirst(reply.result.value)
    && |reply.result.value| <= 100
    && forall rule | rule in reply.result.value :: AlertRow(actor, rule) in frame.table
  }

  /**
   * What an answer tells the client. Rules: the request was timely, its bearer token was introspected and
   * is valid for the very actor and tenant the request names, and these are that actor's page.
   * "invalid_request": the frame is at fault, and sending it again does not help. "unauthorized": only
   * the token is. "timeout" and "unavailable": only the server is; the former, and the latter once the
   * clock is read, are for authorized callers.
   */
  lemma CompletedExactly(frame: Frame)
    requires DistinctIds(frame.table) && frame.request.Some?
    ensures var reply, granted := ExecuteOperation(frame), exists a :: Grants(frame, a);
            && reply.operationId == frame.request.value.envelope.operationId
            && (reply.status == "completed" <==> reply.result.Some?) && (reply.error.None? <==> reply.result.Some?)
            && (reply.result.Some? <==> Timely(frame) && granted && frame.kind.Succeeds?)
            && (reply.error == Some("invalid_request") <==> frame.now.Some? && !Timely(frame))
            && (reply.error == Some("unauthorized") <==> Timely(frame) && !granted)
            && (reply.error == Some("timeout") <==> Timely(frame) && granted && frame.kind.TimesOut?)
            && (reply.error == Some("unavailable") <==>
                  frame.now.None? || (Timely(frame) && granted && frame.kind.Fails?))
            && (reply.result.Some? ==> forall a | Grants(frame, a) :: AnswersWithPage(frame, reply, a))
  {
    ErrorsDiffer();
    if frame.now.Some? {
      EnvelopeWindow(frame.request.value.envelope, frame.now.value);
    }
    AuthorizedOrNot(frame);
    if a :| Grants(frame, a) && ExecuteOperation(frame).result.Some? {
      PageAnswers(frame, a);
    }
  }

  /** At most one actor is granted, and it is the one the request is executed for. */
  lemma AuthorizedOrNot(frame: Frame)
    requires frame.request.Some?
    ensures var actor := AuthorizedActor(frame.request.value, frame.verify);
            && (actor.Some? <==> exists a :: Grants(frame, a))
            && forall a | Grants(frame, a) :: actor == Some(a)
  {
    AuthorizedIsGranted(frame);
  }

  lemma PageAnswers(frame: Frame, a: Actor)
    requires DistinctIds(frame.table) && Grants(frame, a) && ExecuteOperation(frame).result.Some?
    ensures AnswersWithPage(frame, ExecuteOperation(frame), a)
  {
    AuthorizedOrNot(frame);
    ParsePrintedUuid(a.subject);
    PageIsSorted(frame.table, a);
  }

  /** A frame that does not parse is answered under the nil identifier. */
  lemma UnparsableIsRejected(frame: Frame)
    requires frame.request.None?
    ensures var reply := ExecuteOperation(frame);
            && reply.operationId == 0 && reply.status == "rejected" && reply.result.None?
            && reply.error == Some("invalid_request")
  {
  }

  lemma ErrorsDiffer()
    ensures "invalid_request" != "unauthorized" && "invalid_request" != "timeout" && "invalid_request" != "unavailable"
    ensures "unauthorized" != "timeout" && "unauthorized" != "unavailable" && "timeout" != "unavailable"
  {
    assert |"invalid_request"| == 15 && |"unauthorized"| == 12 && |"timeout"| == 7 && |"unavailable"| == 11;
  }

  // ----- Connections and permits -----

  /** A connection's history: the frames it read and the replies it sent. */
  datatype Connection = Connection(frames: seq<Frame>, replies: seq<OperationReply>)

  datatype Server = Server(free: nat, live: map<nat, Connection>, ended: seq<Connection>)

  const STARTED := Server(CONNECTION_LIMIT, map[], [])

  /**
   * `Accept` without a free permit drops the socket. `Read` is one turn of a connection's loop:
   * execute, serialise, check the frame limit and send. `End` is a failed handshake, a timeout, a
   * broken frame or the client leaving.
   */
  datatype TcpAction =
    | Accept(connection: nat)
    | ReadFrame(connection: nat, frame: Frame, sendOk: bool)
    | End(connection: nat)

  function Finish(s: Server, id: nat, last: Connection): Server {
    Server(s.free + 1, s.live - {id}, s.ended + [last])
  }

  function Advance(p: Printer, s: Server, a: TcpAction): Server {
    match a
    case Accept(id) =>
      if s.free == 0 || id in s.live then s
      else s.(free := s.free - 1, live := s.live[id := Connection([], [])])
    case ReadFrame(id, frame, sendOk) =>
      if id !in s.live then s
      else
        var c := s.live[id].(frames := s.live[id].frames + [frame]);
        var reply := ExecuteOperation(frame);
        if ReplyBytes(p, reply) > MAX_FRAME_BYTES || !sendOk then Finish(s, id, c)
        else s.(live := s.live[id := c.(replies := c.replies + [reply])])
    case End(id) => if id in s.live then Finish(s, id, s.live[id]) else s
  }

  function Serve(p: Printer, run: seq<TcpAction>): Server {
    if run == [] then STARTED else Advance(p, Serve(p, run[..|run| - 1]), run[|run| - 1])
  }

  /** The replies are the answers to a prefix of the frames; at most the last frame is unanswered. */
  ghost predicate AnswersInOrder(p: Printer, c: Connection) {
    && |c.replies| <= |c.frames| <= |c.replies| + 1
    && forall i | 0 <= i < |c.replies| ::
         && c.replies[i] == ExecuteOperation(c.frames[i])
         && c.replies[i].operationId == AnswerId(c.frames[i])
         && ReplyBytes(p, c.replies[i]) <= MAX_FRAME_BYTES
  }

  ghost predicate ServerInv(p: Printer, s: Server) {
    && s.free + |s.live| == 128
    && (forall id | id in s.live :: AnswersInOrder(p, s.live[id]) && |s.live[id].replies| == |s.live[id].frames|)
    && (forall i | 0 <= i < |s.ended| :: AnswersInOrder(p, s.ended[i]))
  }

  lemma AnswerCarriesId(frame: Frame)
    ensures ExecuteOperation(frame).operationId == AnswerId(frame)
  {
  }

  lemma AnswerKeepsOrder(p: Printer, c: Connection, frame: Frame)
    requires AnswersInOrder(p, c) && |c.replies| == |c.frames|
    ensures AnswersInOrder(p, c.(frames := c.frames + [frame]))
    ensures ReplyBytes(p, ExecuteOperation(frame)) <= MAX_FRAME_BYTES ==>
              AnswersInOrder(p, Connection(c.frames + [frame], c.replies + [ExecuteOperation(frame)]))
  {
    AnswerCarriesId(frame);
  }

  lemma FinishKeepsInv(p: Printer, s: Server, id: nat, last: Connection)
    requires ServerInv(p, s) && id in s.live && AnswersInOrder(p, last)
    ensures ServerInv(p, Finish(s, id, last))
  {
  }

  lemma AnswerKeepsInv(p: Printer, s: Server, id: nat, next: Connection)
    requires ServerInv(p, s) && id in s.live && AnswersInOrder(p, next) && |next.replies| == |next.frames|
    ensures ServerInv(p, s.(live := s.live[id := next]))
  {
    assert s.live[id := next].Keys == s.live.Keys;
  }

  lemma AcceptKeepsInv(p: Printer, s: Server, id: nat)
    requires ServerInv(p, s)
    ensures ServerInv(p, Advance(p, s, Accept(id)))
  {
    if s.free > 0 && id !in s.live {
      assert s.live[id := Connection([], [])].Keys == s.live.Keys + {id};
    }
  }

  lemma AdvanceKeepsInv(p: Printer, s: Server, a: TcpAction)
    requires ServerInv(p, s)
    ensures ServerInv(p, Advance(p, s, a))
  {
    match a
    case Accept(id) => AcceptKeepsInv(p, s, id);
    case ReadFrame(id, frame, sendOk) =>
      if id in s.live {
        var c := s.live[id];
        AnswerKeepsOrder(p, c, frame);
        if ReplyBytes(p, ExecuteOperation(frame)) > MAX_FRAME_BYTES || !sendOk {
          FinishKeepsInv(p, s, id, c.(frames := c.frames + [frame]));
        } else {
          AnswerKeepsInv(p, s, id, Connection(c.frames + [frame], c.replies + [ExecuteOperation(frame)]));
        }
      }
    case End(id) =>
      if id in s.live {
        FinishKeepsInv(p, s, id, s.live[id]);
      }
  }

  /**
   * When a frame is answered: on a live connection exactly if its answer fits the frame limit and the
   * send succeeds. Then the connection goes on with this one frame and answer more; otherwise it ends
   * with the frame unanswered and gives its permit back. No other connection is touched.
   */
  lemma FrameAnsweredExactly(p: Printer, s: Server, id: nat, frame: Frame, sendOk: bool)
    requires id in s.live
    ensures var later, c, answer := Advance(p, s, ReadFrame(id, frame, sendOk)), s.live[id], ExecuteOperation(frame);
            && (id in later.live <==> ReplyBytes(p, answer) <= 65_536 && sendOk)
            && (id in later.live ==>
                  && later.free == s.free && later.ended == s.ended && later.live.Keys == s.live.Keys
                  && later.live[id].frames == c.frames + [frame] && later.live[id].replies == c.replies + [answer])
            && (id !in later.live ==>
                  && later.free == s.free + 1 && later.live.Keys == s.live.Keys - {id}
                  && |later.ended| == |s.ended| + 1 && s.ended <= later.ended
                  && later.ended[|s.ended|].frames == c.frames + [frame]
                  && later.ended[|s.ended|].replies == c.replies)
            && forall x | x in s.live && x != id :: x in later.live && later.live[x] == s.live[x]
  {
  }

  /** A new connection is served exactly while fewer than 128 are, with an empty history and one permit. */
  lemma ConnectionServedExactly(p: Printer, s: Server, id: nat)
    requires ServerInv(p, s) && id !in s.live
    ensures var later := Advance(p, s, Accept(id));
            && (id in later.live <==> |s.live| < 128)
            && (id in later.live ==>
                  && later.free == s.free - 1 && later.live.Keys == s.live.Keys + {id}
                  && later.live[id].frames == [] && later.live[id].replies == [])
            && (id !in later.live ==> later == s)
            && later.ended == s.ended
            && forall x | x in s.live :: x in later.live && later.live[x] == s.live[x]
  {
  }

  /**
   * In every run, live connections and free permits add up to 128, and on each connection, live or
   * ended, the replies are in order the answers to a prefix of its frames, each with the operation id
   * of its frame and within the frame limit.
   */
  lemma {:induction false} ServerIsOrderly(p: Printer, run: seq<TcpAction>)
    ensures ServerInv(p, Serve(p, run))
  {
    if run != [] {
      ServerIsOrderly(p, run[..|run| - 1]);
      AdvanceKeepsInv(p, Serve(p, run[..|run| - 1]), run[|run| - 1]);
    }
  }
}
