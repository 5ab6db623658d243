# Verification of the Embedded Alerts API server

A Dafny model of the server's stateful behaviour, with proofs. The core is the durable JetStream
request/reply protocol: signed commands pass a gate, one database transaction per command writes an
inbox row, a reply and a status row, and a separate publisher moves replies to the event stream. The
protocol is a step machine over unbounded runs: any number of consumers and publishers, any
interleaving, lost acknowledgements, unknown commits, failed marks, crashes at every point. Around it
are the signed command text, the alert store in its two modes, rule validation, the size of JSON
replies, the WebSocket fan-out and the framed TCP service.

## Layout

- `Common`, `Text`, `Identifiers`, `Ordering`: shared types, UTF-8 lengths, splitting, trimming, UUID,
  decimal and hexadecimal text, `ORDER BY ... LIMIT`.
- `Command`: signed text, signature, gate, deadline window.
- `Rules`, `Wire`, `JsonText`, `Requests`, `Overflow`, `ReplySizes`: alert input, JSON rendering, the JSON
  texts of a value, the limit on request bodies and the byte limits of replies.
- `AlertStore`: database mode, fallback mode and the class that holds either.
- `Transport`, `Consumer`, `Outbox`: the tables with their constraints, the command transaction, the
  message loop and the publish loop. Classes and methods carry the imperative form; each is tied to a
  function on values that the protocol uses.
- `Protocol`, `Durability`, `Inbound`, `Outbound`, `Timing`, `Safety`: the step machine, the parts of its
  invariant and the guarantees for every run. `Replies`, `Admissions` and `Readmission` are about what
  replies show and about repeated admission, `Blocking` and `InOrderBlocking` about oversized replies,
  `DeliveryOrder`, `QueueOrder`, `OrderLimits` and `ManyPublishers` about publication order.
  `ConsumerRuns` and `PublisherRuns` show the two imperative loops to be runs of the machine;
  `Scenarios` and `SizeScenarios` build runs from the start.
- `Broadcast`, `TcpServer`: WebSocket events and TCP connections.

A run is a sequence of actions. An action says which step is taken and how the outside world makes it
turn out, and an action that is not possible changes nothing, so a statement about every sequence of
actions is a statement about every behaviour.

## Where the guarantees stop

- Readmission. With an ack wait of 30 seconds and a deadline window of 15 seconds one expects that a
  command admitted on one delivery is refused on the next. A command admitted less than 15 seconds after
  its delivery is (`PromptCommandsAreAdmittedOnce`). In general the deadline decides: an unsettled message
  with a delivery left can be admitted again exactly if its deadline is not before the next possible
  delivery (`AdmittedAgainIff`), and for deadlines 30 seconds after a delivery this happens
  (`MessageAdmittedTwice`). The transaction is idempotent, so it costs nothing but work.
- Order. Replies appear in commit order with a single publisher if (created_at, event_id) increases in
  commit order (`EventsFollowCommitOrder`). As long as the order was kept and the publishers rest, one
  publisher is certain to keep it exactly if the rows it can send continue the stream in commit order
  (`OrderIsKeptIff`; with nothing oversized, exactly if creation follows commits,
  `ContinuesIffOldestFirst`), and several publishers only if that is at most one row
  (`ManyPublishersKeepOrderIff`). The batch query prevents neither kind of failure:
  `LateCommitReorders` and `TwoPublishersReorder` are runs from the start.
- Size. Create requests are limited to 32 KiB, so an event with seven rules always fits 256 KiB and one
  with eight may not (`EventFitsIff`, `EightRulesBlockTheOutbox`); a TCP reply with one rule always fits a
  frame and one with two may not (`ReplyFitsIff`), in which case the connection ends without an answer.
- Blocking. A reply above 256 KiB is never published (`OversizedStaysPending`). It holds back what sorts
  behind it exactly unless some publisher holds a batch in which it is already past it
  (`OversizedBlocksIff`). That takes a late commit: while creation follows commits, everything committed
  after it is held back for ever (`OversizedBlocksInOrder`), and otherwise a batch selected before it can
  pass (`StaleBatchPasses`).
- Lookup. In database mode a rule that is not among its owner's newest 100 cannot be fetched by id.

## Model

| member | source | states |
|---|---|---|
| Identifiers.ParsePrintedUuid | src/transport.rs:151-156 | Parsing a printed UUID gives it back, so printing is injective. |
| Identifiers.ParseUuidForms | src/transport.rs:195 | The subject parser reads the same UUID from the bare, braced and URN spellings. |
| Identifiers.ParsedUuidHasNoNewline | src/transport.rs:195 | No spelling of a subject that the envelope check accepts contains a newline. |
| Identifiers.PrintedUuidText | src/transport.rs:151-156 | A printed UUID has hyphens in its four places and lower-case digits everywhere else. |
| Identifiers.ParseUuidAccepts | src/transport.rs:195 | The subject parser accepts exactly 32 digits or the hyphenated form, bare, in braces or as a URN, with digits of either case. |
| Identifiers.UuidIgnoresCase | src/transport.rs:195 | Digits of either case read as the same UUID. |
| Identifiers.HexDecodeExactly | src/transport.rs:173-175 | Decoding a signature yields given bytes exactly if it spells them out, two digits of either case for each. |
| Text.ByteLenIsUtf8 | src/model.rs:70-78 | The byte length is that of the UTF-8 encoding. |
| Text.Utf8RoundTrip | src/model.rs:70-78 | That encoding can be read back. |
| Command.AdmitsExactly | src/transport.rs:462-469 | Exactly which commands the gate admits, and when: tenant and identifier equalities, alphabets and lengths, version, operation, subject text, deadline window, key and MAC, all in plain terms. |
| Command.EnvelopeWindow | src/transport.rs:187-202 | An envelope is accepted exactly if its shape is right and the time lies in the closed interval from 15 s before the deadline to the deadline; the saturating subtraction loses nothing. |
| Command.AdmissionsAreClose | src/transport.rs:462-469 | One command is never admitted at two times more than 15 s apart. |
| Command.SigningTextSplits | src/transport.rs:148-161 | For a command that passes the checks, splitting the signed text at newlines recovers its nine fields in their order: identifiers, dedupe key, tenant, version, operation id, operation, subject, deadline. |
| Command.SigningTextInjective | src/transport.rs:148-161 | Over commands that pass the checks, equal signed texts force equal commands apart from the signature, across times and tenants. |
| Command.UncheckedTextsCollide | src/transport.rs:148-161 | Without the checks it is false: every command has two variants, differing in dedupe key and tenant, with the same signed text. |
| Command.SignedCommandVerifies | src/transport.rs:163-185 | Signing succeeds exactly for a well-formed key, yields lower-case digits, and the signed command verifies under that key. |
| Command.SigningTextDetermines | src/transport.rs:148-161 | Even if only one of two commands passes the checks, equal signed texts force them to agree on everything that is signed. |
| Command.SignatureBindsFields | src/transport.rs:172-181 | A signature made for any command admits another only if the MAC cannot tell their texts apart or they agree on every field but the signature and the envelope's copy of the tenant. |
| Rules.AcceptedInputIsClean | src/model.rs:40-95 | Every accepted input yields texts that are non-empty, trimmed, within their byte limits and free of controls, and lists within their limits. |
| Rules.CleanRuleIsStable | src/model.rs:54-95 | Such a rule validates again as input, and normalising it again changes nothing. |
| Rules.ValidatesExactly | src/model.rs:40-93 | An input is accepted exactly if its texts have something to see, are within their byte limits and free of controls, its threshold is finite between 0 and 1, and its lists have at most 32 such items of at most 256 bytes. |
| Rules.AcceptedInputRoundTrips | migrations/0001_four_mode_transport.sql:7-17 | An accepted input's rule meets every CHECK of the alert table, whose lengths count characters, and is a fixed point of validation and normalisation. |
| Rules.StoredTextKeepsContent | src/model.rs:59-61 | A stored text is a slice of the submitted one that misses only whitespace at the ends. |
| Wire.EscapeAtMostDoubles | src/transport.rs:594-595 | JSON escaping (section 7 of RFC 8259) of a text without controls never shortens it and at most doubles its bytes. |
| Wire.RuleBytes | src/model.rs:11-23 | Every clean rule renders within 51,543 bytes. |
| Requests.RuleMembers | src/model.rs:11-23 | A rendered rule has ten members, each field of the rule under its own name. |
| Requests.ReplyMembers | src/transport.rs:119-125 | A rendered reply has its four members, with the rules in their order under "result". |
| Requests.EventMembers | src/transport.rs:138-146 | A rendered event has its six members, each under its own name. |
| Wire.OneRuleReplyFitsFrame | src/transport.rs:300-305 | A completed TCP reply with at most one rule that passed validation fits the 64 KiB frame, whatever the request. |
| Wire.FiveRuleEventFitsPayload | src/transport.rs:594-598 | A completed event with at most five rules that passed validation fits the 256 KiB payload limit, whatever the requests. |
| JsonText.RenderIsShortest | src/lib.rs:198 | No JSON text for a value, with whatever escapes and whitespace (RFC 8259), is shorter than the server's rendering of it. |
| JsonText.RenderSpells | src/transport.rs:300 | The rendering is itself a JSON text for the value. |
| Requests.StoredRuleBytes | src/lib.rs:195-218 | A rule stored from a create request renders within the request's body plus 1,700 bytes, whatever the body's spelling, field order or omitted lists. |
| Overflow.HeavyRuleIsStorable | src/lib.rs:101 | A create request of at most 32,768 bytes stores the rule used for the two overflow results. |
| Overflow.ReplyFitsIff | src/transport.rs:303-305 | With rules stored by create requests within the body limit, a TCP reply with n rules is certain to fit a frame if and only if n is at most one. |
| Overflow.EventFitsIff | src/transport.rs:596-598 | With such rules, an event with n rules is certain to fit the 256 KiB payload limit if and only if n is at most seven. |
| AlertStore.PageIsSorted | src/transport.rs:47-60 | The page lists only the actor's rules, newest first with ties by id, and has min(100, owned) entries. |
| AlertStore.PageMembership | src/store.rs:140-153 | A rule is on the page exactly if it is the actor's and fewer than 100 of the actor's rules precede it. |
| AlertStore.DatabaseGetExactly | src/store.rs:73-84 | Database `get` returns a rule exactly if the id matches, the rule is the actor's and fewer than 100 precede it. |
| AlertStore.FallbackHoldsHistory | src/store.rs:85-91 | After creates with distinct ids, fallback `get` returns exactly the rule the actor created under that id. |
| AlertStore.FallbackListsHistory | src/store.rs:57-71 | Fallback `list` holds exactly what the actor created, and `get` is membership in it. |
| AlertStore.DatabaseGetRefinesFallback | src/store.rs:73-91 | Database `get` differs from the fallback only by missing a rule, and never for owners of at most 100. |
| AlertStore.ModesAgreeIffWithinLimit | src/store.rs:73-91 | The two modes answer every `get` alike if and only if the actor owns at most 100 rules. |
| AlertStore.ListsAgreeIffWithinLimit | src/store.rs:57-71 | The two lists agree as sets if and only if the actor owns at most 100 rules. |
| AlertStore.Store.constructor | src/store.rs:42-47 | A new store is empty. |
| AlertStore.Store.List | src/store.rs:57-71 | Returns the page in database mode and, in fallback mode, each of the actor's entries exactly once. |
| AlertStore.Store.Get | src/store.rs:73-91 | Finds by id in the page, or by key in the map. |
| AlertStore.Store.Create | src/store.rs:93-137 | Succeeds exactly on accepted input that the database, if any, takes; success appends exactly the normalised rule, failure nothing unless the database applied it and the answer got lost. |
| Transport.NewCommandMeetsNoConflict | src/transport.rs:70-85 | For a command not yet in the inbox, neither the outbox conflict clause nor the status update branch can apply. |
| Transport.ConflictClauses | src/transport.rs:70-85 | A taken reply key leaves the outbox as it is; a repeated status keeps its tenant and actor and takes the new status and time. |
| Transport.RowsPassChecks | migrations/0001_four_mode_transport.sql:24-53 | The three rows written for a command of the gate's shape meet every CHECK. |
| Transport.ProcessExactly | src/transport.rs:485-579 | The transaction changes nothing for a recorded command, adds exactly one row to each table for a new one, every column of which is given, and fails only on a repeated random event id. |
| Transport.ProcessFailsExactly | migrations/0001_four_mode_transport.sql:24-53 | Exactly when the transaction of any command on any tables fails: subject not a UUID, keys outside the CHECKs, event id taken, or status none of the two. |
| Transport.ProcessKeepsConsistent | src/transport.rs:485-579 | Committing keeps the one-to-one correspondence of the tables, only adds rows and leaves the command recorded. |
| Transport.ReplySubjectIsOneToken | src/transport.rs:553 | The reply subject splits into four tokens with the tenant as exactly one, and matches the event stream's wildcard. |
| Transport.Database.ProcessCommand | src/transport.rs:485-545 | The imperative transaction ends in exactly the specified tables, or in the old ones, or, when the commit result is lost, in either; it keeps the tables consistent. |
| Consumer.HandleMessage | src/transport.rs:443-481 | One message is terminated exactly if the gate refuses it, acknowledged only with its command recorded, and an error leaves the tables before or after its transaction. |
| Consumer.Consume | src/transport.rs:443-483 | The whole loop settles messages in order, acknowledging exactly those the gate accepts and terminating the others, stops at the first error, and leaves exactly the tables of the settled messages or of one more. |
| Consumer.RedeliveriesChangeNothing | docs/architecture.md:38-42 | Redelivery is safe: any number of recorded commands fed again, in any order, at any times, changes none of the tables. |
| Outbox.QueueIsOrdered | src/transport.rs:87-93 | The pending query yields exactly the unpublished rows in (created_at, event_id) order. |
| Outbox.PublishPending | src/transport.rs:581-621 | The imperative loop ends with exactly the outbox, stream and result of the specified poll, whatever fails at whichever row, and adds to the stream only unpublished rows within the limit, under their reply key and on their subject. |
| Outbox.PollTakesPrefix | src/transport.rs:592-620 | An undisturbed poll marks exactly the first min(50, rows ahead of the first oversized one) rows, leaves the rest of the queue in order, and succeeds exactly if it met no oversized row. |
| Outbox.PollPublishesInOrder | src/transport.rs:592-610 | It appends to the stream exactly one event per marked row, with that row's reply key, subject and payload, in queue order, without those the broker recognises as sent before; all of them if none was. |
| Outbox.RepeatedPolls | src/transport.rs:428-437 | After m undisturbed polls exactly the first min(50 m, rows ahead of the first oversized one) rows are gone from the queue, for every m. |
| Outbox.DrainedAfterCeiling | src/transport.rs:428-437 | With every pending payload within 256 KiB, n pending rows are drained after m polls if and only if m is at least ceil(n / 50). |
| Durability.RunExtends | src/transport.rs:95-99 | Along every run tables, streams and history only grow; a published mark is never removed or changed; a settled message stays settled. |
| Protocol.ImpossibleStepsDoNothing | src/transport.rs:428-483 | A consumer or publisher takes a step only in the phase the loops reach it in; otherwise nothing changes. |
| Inbound.StepKeepsInbound | src/transport.rs:443-481 | Every step keeps: consumers past the gate hold admitted commands, and acknowledged messages carry recorded commands. |
| Outbound.StepKeepsConsistent | migrations/0001_four_mode_transport.sql:24-53 | Every step keeps the tables in one-to-one correspondence with unique keys. |
| Outbound.StepKeepsOutbound | src/transport.rs:581-621 | Every step keeps: marked rows are on the stream, stream messages come from publishable rows, stale batches are snapshots of current rows. |
| Replies.RowWasWritten | src/transport.rs:509-544 | In every run each outbox row was written by one commit step of a consumer holding the command of its inbox row, with the reply that consumer held. |
| Timing.StepKeepsTiming | src/transport.rs:412-424 | Every step keeps: deliveries of a message are at least 30 s apart and each admission was inside its window, after its delivery. |
| Readmission.AdmittedAgainIff | src/transport.rs:412-424 | In every state of every run a message can be admitted on a further delivery if and only if it is unsettled with a delivery left, passes the checks that ignore the clock, and its deadline is not before the next possible delivery: now and 30 s after the last one. |
| Readmission.SettledIsFinal | src/transport.rs:446-480 | An acknowledged or terminated message stays so, is never deliverable again and gets no further delivery, in every continuation. |
| Scenarios.MessageAdmittedTwice | src/transport.rs:462-475 | For every usable configuration and every deadline from 30 s on, a run in which one message is admitted on two deliveries. |
| Safety.EveryRunIsSafe | docs/architecture.md:38-42 | The whole invariant holds in every state of every run. |
| Safety.TablesCorrespond | src/transport.rs:485-579 | In every run the three tables have equally many rows, paired by reply key and correlation id with matching tenant, actor and status, with unique keys and all CHECKs met. |
| Safety.ConflictClausesNeverApply | src/transport.rs:62-85 | In every run a transaction about to commit finds its command recorded and changes nothing, or meets no outbox or status conflict and fails only on a repeated event id. |
| Safety.StreamMatchesOutbox | src/transport.rs:585-619 | In every run with stale batches: a marked row has its exact payload on the stream, every message comes from an outbox row, equal message or correlation ids mean equal messages. |
| Safety.EventsCarryReplies | src/transport.rs:547-610 | In every run each event carries the reply of a committed command under "reply:" and its dedupe key, on its tenant's subject, with its row's payload and within 256 KiB; each marked row has such an event. |
| Safety.AcknowledgedMeansAnswered | src/transport.rs:476-480 | In every run an acknowledged message is a command sharing a key with an inbox row; if keys identify commands it has its own reply and status. |
| Safety.CommittedReplyIsKept | src/transport.rs:541-544 | A committed command keeps its inbox row, reply and status through every continuation. |
| Replies.RepliesShowOwnRules | src/transport.rs:509-526 | In every run each reply is the outcome of the query its own consumer made, at a step between its admission and its commit, holding the reply all the while; a completed one is exactly the first 100 of its own actor's rules, newest first, of the alert table at that step. |
| Safety.AdmissionsStayClose | src/transport.rs:462-475 | In every run two admissions of one command, by whichever servers, are at most 15 s apart. |
| Safety.PromptCommandsAreAdmittedOnce | src/transport.rs:412-424 | In every run a message admitted on two deliveries waited at least 15 s before the first admission. |
| Admissions.AtMostEightAdmissions | src/transport.rs:420-421 | In every run no delivery is admitted twice and no message is admitted on more than eight deliveries. |
| Blocking.OversizedStaysPending | src/transport.rs:596-598 | A committed oversized reply is unmarked and off the stream in every later state of every run. |
| Blocking.OversizedBlocksPublisher | src/transport.rs:592-598 | In every run, once an oversized reply is in the outbox and a publisher is clear of it, for instance at rest, no later publish or mark of that publisher touches a row that sorts behind it, whatever stale batches the others hold. |
| Blocking.OversizedBlocksIff | src/transport.rs:592-598 | Exactly: no continuation marks or publishes a row that sorts behind an oversized one, rows committed later included, if and only if no publisher reaches such a row in the batch it holds before an oversized row stops it, or still has to mark one. |
| InOrderBlocking.OversizedBlocksInOrder | src/transport.rs:87-93 | In every run in which (created_at, event_id) increases in commit order, no reply committed after an oversized one is ever marked or on the stream, whatever batches are held. |
| SizeScenarios.StaleBatchPasses | src/transport.rs:87-93 | A run from the start, with the server's own serialisation, in which an oversized reply is committed late with an earlier creation time and a reply that sorts behind it is published from a batch selected before. |
| DeliveryOrder.EventsFollowCommitOrder | src/transport.rs:581-621 | With one publisher and (created_at, event_id) increasing in commit order, the stream without consecutive repeats is a prefix of the replies in commit order, covering all marked rows and at most one more, through all failures and restarts. |
| QueueOrder.RunShows | src/transport.rs:581-621 | A publisher alone shows, after what the stream showed before, a prefix of the rows at the head of the queue up to the first oversized one, in queue order, through all failures and restarts. |
| OrderLimits.OrderIsKeptIff | src/transport.rs:87-93 | One publisher, exactly: from any state in which the order was kept so far and the publisher rests, every continuation without commits keeps it if and only if the rows at the head of the queue, up to the first oversized one, continue the stream in commit order. |
| OrderLimits.ContinuesIffOldestFirst | src/transport.rs:87-93 | With nothing oversized pending, that is the case if and only if the pending rows have increasing (created_at, event_id) in commit order. |
| ManyPublishers.ManyPublishersKeepOrderIff | src/transport.rs:428-437 | Several publishers, exactly: from any state in which the order was kept so far and all publishers rest, every continuation without commits keeps it if and only if at most one reply can be sent before an oversized one comes up, and that one continues the stream. |
| Scenarios.TwoPublishersReorder | src/transport.rs:87-93 | For every usable configuration, a run from the start in which replies are created and committed in order and two publishers show the first again after the second. |
| Scenarios.LateCommitReorders | src/transport.rs:79-93 | For every usable configuration, a run from the start with one publisher in which the reply committed second was created first and is shown first. |
| PublisherRuns.PollIsARun | src/transport.rs:581-621 | The publish loop executed alone is a run of the protocol with the same outbox and stream at the end, for every outcome. |
| ConsumerRuns.MessageIsARun | src/transport.rs:443-481 | Handling a held message alone, with any fault in its transaction, an unreadable clock or a lost acknowledgement, is a run of the protocol that leaves the specified tables, settles an open message exactly by the answer that reached the broker and touches no other message. |
| ConsumerRuns.LoopIsARun | src/transport.rs:443-483 | The message loop executed alone, over any messages with any faults and time passing between them, is a run of the protocol with the same tables at the end. |
| ReplySizes.SevenRuleRepliesArePublishable | src/transport.rs:594-598 | In every run over rules stored by create requests, a completed reply with at most seven rules is never oversized. |
| SizeScenarios.EightRulesBlockTheOutbox | src/transport.rs:596-598 | For every number of rules from 8 to 100, accepted create requests and one admitted command end, in a run from the start, in a committed reply that is oversized. |
| Broadcast.Ring.constructor | src/lib.rs:111 | A new ring is empty with its 512 slots. |
| Broadcast.Ring.Send | src/lib.rs:216 | Sending appends to the log; the last 512 events stay in their slots. |
| Broadcast.Ring.Receive | src/lib.rs:242-251 | A receiver gets the log's event at its position, nothing at the end, or a lag report exactly when more than 512 behind. |
| Broadcast.OwnEventsExactly | src/lib.rs:243-249 | Owner filtering keeps exactly the owner's events, and a longer log only adds at the end. |
| Broadcast.ServeNext | src/lib.rs:242-251 | One receive advances past a foreign event, sends an own one, ends exactly on lag or a failed send, and never leaves a gap. |
| Broadcast.Websocket | src/lib.rs:232-255 | What a socket sends is, in order and without gaps, the owner's events since it subscribed, up to a position that advances with every receive that finds an event; it ends exactly at the first turn at which the client is gone, more than 512 events are waiting, or an own event cannot be sent. |
| Broadcast.CaughtUpShowsAll | src/lib.rs:242-249 | Once nothing more is broadcast, as many receives as events are waiting show the owner everything. |
| Broadcast.CreateAlert | src/lib.rs:195-218 | A body over 32 KiB or one that does not decode is refused before authorization; a rule is created exactly for an authorized, valid request that the store takes; only rules from bodies within the limit are ever stored; an event is broadcast exactly for a created rule, to its owner, and every event ever broadcast is a stored rule of that owner. |
| TcpServer.CompletedExactly | src/transport.rs:317-355 | A frame that parses is answered with rules exactly if it is inside its window, its bearer token is introspected as an actor it names by subject and tenant, and the query succeeds, and the answer is that actor's page; each error code is given exactly when the frame, the token or the server is at fault. |
| TcpServer.UnparsableIsRejected | src/transport.rs:322-325 | A frame that does not parse is rejected under the nil operation id. |
| TcpServer.ServerIsOrderly | src/transport.rs:267-315 | In every run live connections and free permits add up to 128, and on each connection the replies are in order the answers to a prefix of its frames, within the frame limit. |
| TcpServer.FrameAnsweredExactly | src/transport.rs:296-314 | A frame on a live connection is answered exactly if its answer fits 64 KiB and the send succeeds; otherwise the connection ends with it unanswered and gives its permit back. |
| TcpServer.ConnectionServedExactly | src/transport.rs:273-283 | A new connection is served exactly while fewer than 128 are. |

## Left out

- TLS, certificates, sockets, NATS connection and stream creation: only delivery, acknowledgement, redelivery and publish acknowledgement are kept, as steps.
- HMAC-SHA-256 is an arbitrary function of key and text; nothing is said about forgery.
- JSON parsing: a message or frame arrives as a parsed value or as unparsable. For create requests the decoder is a parameter held to the grammar of RFC 8259; the form of number literals and their reading are left to it.
- Remote token introspection is a function from tokens to actors; the claim checks in `src/auth.rs` are one conjunction.
- PostgreSQL: a transaction is one atomic step, with its alert query as an earlier step; parameters keep their values, including the subject text bound to `uuid` columns; failures are outcomes of a step.
- JetStream limits: the streams keep every message (no eviction at 100,000), the number of unacknowledged deliveries is not bounded by 64, and the duplicate window is an outcome of each publish rather than a length of time.
- Messages in flight: a publish whose acknowledgement is lost is stored at that step or never, not later.
- Clocks: one clock that does not go backwards serves the broker and the servers; database timestamps are arbitrary.
- Library printers of timestamps and numbers are parameters assumed to yield at most 64 and 32 bytes; of the number reader only that `1` reads as one is used.
- Floating point: the similarity threshold is a real number or not finite.
- Broadcast.Websocket: a frame whose send fails is not counted as sent, whether or not the client saw it.
- TcpServer.CompletedExactly: models database mode; in fallback mode the list has no order.
- Flags, telemetry, health and capability routes, row-level security, deployment files: no state that these results rest on.
