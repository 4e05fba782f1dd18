# A verified model of the service's transactions, messaging and search

The service keeps aggregates in a database, archives and logs every change, lets event handlers
react to a change inside the transaction that makes it, and tells other services about it through
a message broker. This project models the three parts of it that are hard to reason about and
proves what they keep.

**The unit of work.** `Cascade.dfy` is the reference meaning of a controller call: a batch of
commands, each of which changes one aggregate, records it (row, archive, event), and hands its
event to every subscriber before anything else happens. It knows no session, no scope and no
fault. `Service.dfy` is the service as it runs: use case objects with their one-shot tracing slots,
mutable aggregates, one reference-counted session that nested handlers re-enter, and an exception
or a cancellation possible at every await of a body. Every method of `Service` is proved against the
reference (`Service.Service.Refines`), at any depth of nesting, so that a call is all of its
reference meaning or none of it or, if it is cancelled, what the reference had come to. What the
reference keeps is then proved once, along its recursion: the database is the replay of its event
log (`Consistency.dfy`), events form trees (`Tracing.dfy`), subscribers are reached exactly once
(`Delivering.dfy`), and what is pushed is what is voided (`Pushes.dfy`). `Turns.dfy`, `Outbox.dfy`
and `Announcing.dfy` go on to whole runs of calls, with the message buffer that survives from one to
the next. `Snapshots.dfy` is about lists as objects: which of them a row, an archive and an
aggregate share.

**Messaging.** `Messages.dfy` has the publisher's buffer, merging, and draining with a fault at any
point; `Consumer.dfy` the consumer as a state machine over a broker queue, with deferral, retry,
exhaustion, publications that fail before or after they are sent, acknowledgements that fail, and
redelivery. `Accounting.dfy`
counts the copies and the attempts of every message, `Attempts.dfy` says what each chain of copies
keeps, and `Invocations.dfy` when a message as a whole keeps its number of attempts, its retry delay
and its schedule. `Topic.dfy` has the matching of routing keys, on which the consumer's
republishing rests; `Supervisor.dfy` the loop that restarts the consumer processes.

**Search.** `SearchPattern.dfy` compiles search keys to a regular expression and has a reference
parser and matcher to say what the compiled pattern finds; `SortOrder.dfy` does the same for sort
specifications and comparators; `Search.dfy` puts filter, order and page together.

Assumptions, made everywhere: calls are made one at a time (concurrent requests share the tracing
slots of the singleton controllers, and the trace properties do not hold for them); a rollback does
not itself raise, nor does closing the session a second time after a first close that raised; a
commit and the close after it may raise but are not cancelled half-way; an identifier drawn from
`uuid4` is new, which is modelled by naming it after the number of the call and its place in it; a
handler is a list of use case actions that depends only on its event; timestamps are left out of
rows, histories and events; a message survives its trip through JSON unchanged.

Where the code and what is written about it differ, the model follows the code:

- The API documentation describes `starts:`, `ends:` and `equals:` as prefix, suffix and exact match
  of a search key. With several keys the code anchors only the first at the start and only the last
  at the end. `SearchPattern.AsIntendedIff` says for which lists of keys the two agree.
- A failed commit leaves the call's messages in the buffer, and the next call of the same context
  that commits sends them: a completing drain announces voided aggregates only exactly if everything
  that was waiting before the call was voided already or is what the call is asked to void
  (`Announcing.AnnouncesOnlyVoidedIff`, `Announcing.FailedCommitLeaks`).
- A call that raises, and a new request context, throw away messages of earlier committed calls that
  had not been sent yet: a committed voiding stays unannounced exactly if that comes before a drain
  gets as far as its message (`Announcing.VoidAnnouncedIff`, `Announcing.VoidUnannouncedIff`,
  `Announcing.LaterTurnForgets`).
- A session that fails to close after its commit makes the call raise although its data is committed,
  and a command counts it as a failure (`Session.SessionProvider.Exit`,
  `Turns.FailedCallUnchangedIff`, `Service.Service.Command`).
- In a batch only the first command gets the trace id of the request
  (`Tracing.OneTraceIffOneCommand`).
- An event that a handler saves has the event it reacts to as parent exactly if it is the first that
  it saves (`Tracing.FirstSaveIff`, `Tracing.SecondSaveLeavesTheTree`).
- A cancellation is not an `Exception`: no wrapper rolls back, and leaving the scope commits what
  was written so far, which may be half of a call (`Announcing.CancelledCreateKeepsHalf`).
- A message is attempted more often than its producer allowed, or sooner than its retry delay, only
  if a deferral is sent and then raises, which leaves two copies, or if it is redelivered; a message
  that allows one attempt only if its acknowledgement fails, which happens outside the handler's
  `try`, and it is redelivered (`Invocations.BoundIff`, `Invocations.SpacingIff`). It is attempted
  before its scheduled time only if a deferral raises (`Invocations.ScheduleIff`).
- The fallback order `-created` names a field that aggregates cannot be sorted by, and compiles to
  no order at all (`SortOrder.YourAggregateOrder`).

## Model

| member | source | states |
|---|---|---|
| Domain.ReplayMeaning | app/core/your_bounded_context/domain/entity/your_aggregate.py:71-140 | A log folded to a row: its value is the last one created or updated, its creator whoever created it, and it is voided exactly if the log voids it; its history has one entry for each event but a deletion, in order, done by the doer of the event, with the value before and after for an update that changes it, none for one that does not, and the change of status for a voiding |
| Aggregate.YourAggregate.CreateYourAggregate | app/core/your_bounded_context/domain/entity/your_aggregate.py:71-88 | A new aggregate has status created, one history entry and one event |
| Aggregate.YourAggregate.AddOperationHistory | app/core/your_bounded_context/domain/entity/your_aggregate.py:93-108 | Refused with nothing appended once voided; otherwise one entry, holding only the changes that change something |
| Aggregate.DifferingKeeps | app/core/your_bounded_context/domain/entity/your_aggregate.py:101-108 | The changes kept are exactly those whose before and after differ, in order |
| Aggregate.YourAggregate.DeleteYourAggregate | app/core/your_bounded_context/domain/entity/your_aggregate.py:110-112 | Marks for deletion and adds one event, whatever the status |
| Aggregate.YourAggregate.VoidYourAggregate | app/core/your_bounded_context/domain/entity/your_aggregate.py:114-123 | Raises with nothing changed if already voided; otherwise status, a history entry with the change of status, and event, and nothing else |
| Aggregate.YourAggregate.UpdateYourAggregate | app/core/your_bounded_context/domain/entity/your_aggregate.py:125-140 | Raises with nothing changed if voided; otherwise value, a history entry with the value before and after, unless they are equal, and event |
| Aggregate.YourAggregate.SaveEventsTracing | app/core/ddd_base/aggregate.py:21-30 | Stamps every collected event with the parent's span and trace, or else with the given trace |
| Aggregate.UseCase.SetParentEvent | app/core/ddd_base/use_case.py:14-19 | Overwrites the slot for the parent and empties the one for the trace |
| Aggregate.UseCase.SetTraceId | app/core/ddd_base/use_case.py:25-28 | Overwrites the slot for the trace and empties the one for the parent |
| Aggregate.UseCase.SaveTracing | app/core/ddd_base/use_case.py:30-36 | Stamps an aggregate's events from the slot that is set, parent first, and empties that slot |
| EventBus.EventBus.Subscribe | app/core/ddd_base/event_bus.py:19-45 | Adds the handler to exactly the kinds asked for; asking for kinds and for all is refused and changes nothing |
| EventBus.EventBus.DeregisterAllEvents | app/core/ddd_base/event_bus.py:61-64 | Nobody is subscribed to anything any more |
| Session.SessionProvider.Enter | app/adapter/repository/base.py:31-35 | Only the outermost scope opens a session, on the committed data; an inner one shares it |
| Session.SessionProvider.Exit | app/adapter/repository/base.py:37-50 | An inner scope only counts down; the outermost commits whatever its body raised; a commit that raises is rolled back, a close that raises after it does so with the data committed; the session is closed in any case |
| Cascade.StepRanks | app/core/ddd_base/event_bus.py:47-59 | What a task sets off has smaller rank than the task, if handlers emit only events of smaller rank: the termination of publish_all, on which the recursion of the reference rests |
| Cascade.RunConcat | app/core/your_bounded_context/use_case/your_aggregate_use_case.py:16-19 | Running tasks is running a front part and then the rest, the first failure ending it all |
| Cascade.ContinuesWith | app/core/ddd_base/event_bus.py:51-59 | What a run that stops within its next tasks has come to, the whole run passes through; what it goes on from is the rest |
| Service.Service.Call | app/adapter/controller/base.py:110-152 | A controller call, with a fault or a cancellation possible at every await of its body, and faults in its commit, its close and its drain, is exactly one turn of the system: all of the reference meaning, or none of it, or, if cancelled, a state that the reference passes through; the session is closed and counted down on every path; without a fault it fails exactly as the reference does |
| Service.Service.InScope | app/adapter/controller/base.py:117-144 | The session scope of a call: success commits the reference result and buffers exactly its pushes; a failure of the body restores the data and empties the buffer; a failed commit restores the data and a failed close does not, and both leave the buffer; a cancellation commits what the reference had come to |
| Service.Service.RunBatch | app/adapter/controller/your_bounded_context/your_aggregate_controller.py:37-128 | A call that reads, or a batch, refines the reference run of its commands in order, also when it is cut short; a missing aggregate and an empty batch raise |
| Service.Service.SetTracing | app/adapter/controller/base.py:101-105 | The use case gets the trace of the request, or a new one if that is missing or empty |
| Service.Service.Load | app/adapter/repository/base.py:134-146 | A loaded aggregate has the stored row's state and no events; any exception but a cancellation reads as not found |
| Service.Service.Read | app/adapter/controller/your_bounded_context/your_aggregate_controller.py:37-83 | A call that only reads changes nothing, and fails of itself exactly if the aggregate it asks for is missing |
| Service.Service.SaveYourAggregate | app/adapter/repository/base.py:204-233 | Writes or removes the row, keeping the creator of one that exists, adds one archive under the last event, and appends every event to the log; if it raises, all of that is there or nothing of it |
| Service.Service.Save | app/core/your_bounded_context/use_case/your_aggregate_use_case.py:16-19 | Stamping, saving and publishing refines recording the event and running its deliveries |
| Service.Service.PublishAll | app/core/ddd_base/event_bus.py:47-52 | Publishing events one after the other refines their deliveries in order |
| Service.Service.Publish | app/core/ddd_base/event_bus.py:54-59 | Awaiting every subscriber in the order of the set refines the event's deliveries |
| Service.Service.HandleEvent | app/adapter/event_handler/helper.py:34-46 | A handler in its nested scope leaves count and committed data as they were and refines its delivery; an Exception rolls the whole transaction back first |
| Service.Service.CreateYourAggregate | app/core/your_bounded_context/use_case/your_aggregate_use_case.py:21-26 | Refines the reference creation and its whole cascade |
| Service.Service.UpdateYourAggregate | app/core/your_bounded_context/use_case/your_aggregate_use_case.py:38-43 | Refines the reference update and its cascade, with the same refusals |
| Service.Service.VoidYourAggregate | app/core/your_bounded_context/use_case/your_aggregate_use_case.py:33-36 | Refines the reference voiding and its cascade, with the same refusals |
| Service.Service.DeleteYourAggregate | app/core/your_bounded_context/use_case/your_aggregate_use_case.py:28-31 | Refines the reference deletion and its cascade |
| Service.Service.NotifyVoided | app/adapter/event_handler/your_aggregate_event_handler.py:53-68 | Buffers one notification exactly if the loaded aggregate is voided |
| Service.Service.Command | app/port/restful/handler/your_bounded_context/your_aggregate_handler.py:113-157 | Successes and failures partition the payloads, each list in payload order; unless a cancelled call was committed, the database is what the stored payloads alone make of it, one after the other, each of them succeeding, and those are the successes exactly if every session closed well; an unsupported command changes nothing |
| Consistency.RecordKeepsConsistent | app/adapter/repository/base.py:218-233 | Recording an event with the row it leads to keeps rows equal to the replay of the log, archives in step with events, and identifiers distinct |
| Consistency.RunKeepsConsistent | app/core/your_bounded_context/use_case/your_aggregate_use_case.py:16-43 | Every cascade, under every bus and order of handlers, keeps that |
| Consistency.ServeKeepsConsistent | app/adapter/controller/base.py:117-148 | So does every controller call |
| Consistency.VoidedOnce | app/core/your_bounded_context/domain/entity/your_aggregate.py:99-123 | An aggregate is voided at most once, and nothing but a deletion follows |
| Consistency.PassesConsistent | app/adapter/controller/base.py:117-144 | So does whatever a cancelled cascade leaves behind |
| Turns.RunsKeepConsistent | app/adapter/controller/base.py:117-148 | Every state that any run of calls reaches from the empty database, however the calls end, cancelled ones included, is consistent: replay, one archive per event with the state just after it (or just before a deletion), distinct span and archive ids |
| Turns.FailedCallUnchangedIff | app/adapter/repository/base.py:41-50 | A call that fails leaves the data as it was exactly unless it made commands and its close raised after the commit, or it was cancelled after its first save was written and its commit did not raise |
| Snapshots.Store.Load | app/adapter/repository/your_aggregate_repository.py:40-57 | A loaded aggregate gets a history list of its own |
| Snapshots.Store.Append | app/core/your_bounded_context/domain/entity/your_aggregate.py:101-108 | Appending in place changes no archive, no stored row and no other aggregate |
| Snapshots.Store.Save | app/adapter/repository/your_aggregate_repository.py:59-71 | The row gets a new list, the archive of the save shares that very list, and all earlier archives keep their contents |
| Tracing.PassesUnchanged | app/adapter/repository/base.py:218-233 | Wherever a run is cut short, the data is unchanged if nothing is logged yet |
| Tracing.FirstSaveTraced | app/adapter/event_handler/helper.py:21-23 | The first event that a handler saves has the event it reacts to as parent, and its trace |
| Tracing.FirstSaveIff | app/core/ddd_base/use_case.py:30-36 | For every bus, an event saved by a reaction has the event reacted to as parent exactly if it is the first that the reaction saves; a later one has no parent and a trace of its own, or the parent and the trace of an event logged since that a handler left in the slot |
| Tracing.CascadeDescends | app/core/ddd_base/use_case.py:30-36 | Everything a cascade logs shares the trace of the event that set it off and has a parent logged earlier in the same cascade |
| Tracing.BatchTraces | app/adapter/controller/your_bounded_context/your_aggregate_controller.py:85-128 | A batch logs one tree for each command; the first root has the request's trace, each later one a trace of its own |
| Tracing.ServeTraces | app/adapter/controller/base.py:101-105 | A call logs one tree for each of its commands; no root has a parent; the first has the trace given or, if none or an empty one is, the first identifier drawn, and each later one a trace of its own |
| Tracing.OneTraceIffOneCommand | app/adapter/controller/base.py:101-105 | All events of a call share the request's trace exactly if it makes at most one command |
| Tracing.SecondSaveLeavesTheTree | app/core/ddd_base/use_case.py:30-36 | A creation handled by saving twice: the second event has no parent and another trace or, if the first is handed to a handler that only reads, the first event as parent and the same trace |
| Tracing.StaleSlotUnread | app/core/ddd_base/use_case.py:14-36 | What an earlier call left in the handlers' slot changes nothing in a later one |
| Tracing.StaleSlotNeverReachesACall | app/adapter/controller/base.py:101-105 | Nor in a whole controller call |
| Tracing.StaleSlotUnreached | app/adapter/controller/base.py:101-105 | Nor what a call that is cut short has come to |
| Delivering.RunDelivers | app/core/ddd_base/event_bus.py:54-59 | The deliveries of a run are those its tasks ask for and those its new events call for, counted |
| Delivering.EachSubscriberOnce | app/core/ddd_base/event_bus.py:69-74 | Every event of a successful call reached each subscriber exactly once, also one registered twice, and nobody else |
| Handlers.CreateOutcome | app/adapter/event_handler/your_aggregate_event_handler.py:36-48 | With the registered handlers, creating ends with `_test_event_handler` put after the first property, two history entries, the second with the value given and the value written, and two events, in every order of handlers |
| Handlers.VoidOutcome | app/adapter/event_handler/your_aggregate_event_handler.py:50-68 | Voiding is refused if the aggregate is missing or voided; otherwise it pushes exactly one notification, for that aggregate, changes its status, adds one history entry, and logs one event by the doer |
| Handlers.UpdateOutcome | app/core/your_bounded_context/use_case/your_aggregate_use_case.py:38-43 | Updating is refused if the aggregate is missing or voided; otherwise it replaces the value, adds one history entry with the value before and after, unless they are equal, and logs one event by the doer |
| Handlers.DeleteOutcome | app/core/your_bounded_context/use_case/your_aggregate_use_case.py:28-31 | Deleting is refused only if the aggregate is missing; otherwise its row goes and no other, and one event names who deleted it |
| Handlers.ServeRecords | app/adapter/controller/your_bounded_context/your_aggregate_controller.py:85-128 | What a successful call logs, told by its request alone, in order: for a creation its value and its doer, and then the update to the suffixed value; for every other command its own id, value and doer |
| Handlers.ServeFailsIff | app/adapter/controller/your_bounded_context/your_aggregate_controller.py:85-128 | A call of one command fails exactly if its aggregate is missing, or is voided and the command is not a deletion |
| Handlers.ReadOutcome | app/adapter/controller/your_bounded_context/your_aggregate_controller.py:37-128 | A call that only reads fails exactly if the aggregate it asks for is missing, and changes and pushes nothing; one with nothing to do fails |
| Handlers.RegisteredInAnyOrder | app/adapter/event_handler/your_aggregate_event_handler.py:34-68 | A creation ranks above the update it leads to, so there is a terminating bus with these handlers for every order of iteration |
| Handlers.CallsShareTheTrace | app/adapter/event_handler/your_aggregate_event_handler.py:36-68 | With the registered handlers, all events of a call share the trace of its request exactly if it makes at most one command |
| Pushes.ServePushesWhatItVoids | app/adapter/event_handler/your_aggregate_event_handler.py:53-68 | A call pushes exactly the aggregates it voids, in order, which are those it is asked to void |
| Pushes.PassesPushesVoided | app/adapter/event_handler/your_aggregate_event_handler.py:53-68 | For every bus, wherever a call is cut short, what it has pushed is voided by what it has logged |
| Pushes.PassesPushesNew | app/adapter/event_handler/your_aggregate_event_handler.py:53-68 | With the registered handlers, it has voided it itself |
| Pushes.VoidedIdsDistinct | app/core/your_bounded_context/domain/entity/your_aggregate.py:99-123 | No aggregate is announced by two voidings |
| Outbox.OutboxSafe | app/adapter/controller/base.py:125-148 | Over every run and for every bus, whatever was sent or is waiting concerns an aggregate that a committed call voided, cancelled ones included, or one pushed by a call whose commit raised |
| Outbox.NothingLost | app/adapter/controller/base.py:125-148 | With no failed commit there is none of the latter |
| Outbox.OutboxExact | app/adapter/controller/base.py:146-148 | With no failed commit and no failed drain, the wire carries exactly the voided aggregates, once each, in log order |
| Outbox.CallSendsOneMessage | app/adapter/event_handler/your_aggregate_event_handler.py:57-68 | Such a call sends one message, to `your-aggregate-service` for `your_aggregate_voided`, with the trace of its context, three attempts, a delay of three seconds and no schedule, listing the aggregates it was asked to void, in order; and none if it voids nothing |
| Announcing.AnnouncesOnlyVoidedIff | app/adapter/controller/base.py:146-148 | With the registered handlers, a drain that completes announces voided aggregates only exactly if, before the call, every id that waits is of an aggregate voided already or one that the call is asked to void |
| Announcing.AnnouncesVoidedIff | app/adapter/controller/base.py:146-148 | For every bus, it does exactly if every id that waited is voided after the call |
| Announcing.TurnFate | packages/message_queue/rabbitmq_message_queue.py:40-84 | An id that waits is sent, cleared or goes on waiting, and which of them |
| Announcing.VoidAnnouncedIff | app/adapter/controller/base.py:125-148 | Over every run of commands and of calls that only read, a committed voiding not yet announced is announced exactly if a drain gets as far as its message before a call raises or a fresh context begins |
| Announcing.VoidUnannouncedIff | app/adapter/controller/base.py:125-148 | When drains send everything or nothing, one whose message waits stays unannounced exactly if no sending call comes before the next raising call or fresh context |
| Announcing.FailedCommitLeaks | app/adapter/repository/base.py:41-50 | A failed commit, and then a call that commits, announce an aggregate that is not voided |
| Announcing.LaterTurnForgets | packages/message_queue/rabbitmq_message_queue.py:40-41 | A failed drain, and then a call that raises or a fresh context: a committed voiding is never announced |
| Announcing.CancelledCreateKeepsHalf | app/adapter/repository/base.py:37-44 | A cancelled creation may be committed without the update that its handler makes |
| Messages.PushRefusedIff | packages/message_queue/message_queue.py:29-45 | A push raises exactly if an entry with its key differs in trace, function or kind of data, or holds a dict |
| Messages.MergeMeans | packages/message_queue/message_queue.py:29-45 | Two messages merge exactly if they are lists for one trace and function; the items of the later follow those of the earlier, whose schedule, attempts and delay stay; and which error refuses which others |
| Messages.MergeConserves | packages/message_queue/rabbitmq_message_queue.py:43-59 | After any pushes of lists or dicts, refused ones changing nothing, each routing key, trace and function has at most one message, and the list items held for it are those pushed for it and not refused, in order |
| Messages.BufferAsPushed | packages/message_queue/rabbitmq_message_queue.py:43-59 | After any pushes, routing keys are in the order of their first pushes, the messages of each in the order of theirs, and a message keeps the schedule, attempts and delay of the first push merged into it |
| Messages.CollidingKeys | packages/message_queue/rabbitmq_message_queue.py:55-59 | Two different trace and function pairs with the same key: the second push raises, and nothing is mixed |
| Messages.Publisher.PushMessage | packages/message_queue/rabbitmq_message_queue.py:43-59 | Inserts or merges in place, or raises with the buffer as it was; published at once, it leaves the buffer alone and is sent or raises, before or after it is sent |
| Messages.Publisher.CleanMessages | packages/message_queue/rabbitmq_message_queue.py:40-41 | The buffer is empty |
| Messages.Publisher.PublishMessages | packages/message_queue/rabbitmq_message_queue.py:61-84 | For every fault point, exactly what is sent and what is left: nothing and all if it cannot connect; all and nothing without a fault or with one in closing; else the messages before the fault, and the one being sent if it raises after it, which is left all the same |
| Messages.DropFlat | packages/message_queue/rabbitmq_message_queue.py:61-84 | What was popped, followed by what is left, is the original buffer in order |
| Messages.StretchAt | packages/message_queue/rabbitmq_message_queue.py:64-81 | A drain sends bucket by bucket and entry by entry: which message is sent at which place |
| Messages.DrainsSendAll | packages/message_queue/rabbitmq_message_queue.py:61-84 | Drains repeated until one completes send everything in order, each message at least once, and once more only for a drain that raised between send and pop |
| Messages.Publisher.PublishRepeatedly | packages/message_queue/rabbitmq_message_queue.py:61-84 | The same of the publisher itself, drained again and again under any faults |
| Topic.MatchesIffCut | packages/message_queue/message_queue.py:107-112 | The backtracking matcher accepts a key exactly if the key can be cut into pieces that the words of the pattern stand for (section 3.1.3.3 of the AMQP 0-9-1 specification) |
| Topic.PatternMatchesItself | packages/message_queue/rabbitmq_message_queue.py:161-165 | Every binding pattern matches itself as a routing key, so a republished message reaches the consumer's own queue |
| Topic.HashWordHash | app/message_queue_consumer.py:59-61 | The pattern `# word #` takes exactly the keys that have the word among theirs |
| Topic.WordsMeans | app/message_queue_consumer.py:59-61 | A key is its words with dots between them, and no word has a dot |
| Topic.WordsOnly | app/message_queue_consumer.py:59-61 | A list of words without dots is what its dotted string is split into |
| Topic.ServiceBinding | app/message_queue_consumer.py:57-61 | The binding `#.service.#` takes exactly the keys in which the service's name stands between dots or ends |
| Topic.StarOrPlain | packages/message_queue/message_queue.py:107-112 | The pattern `*` takes exactly the keys without a dot, and a pattern without wildcards exactly itself |
| Consumer.RabbitMqConsumer.PublishRawMessage | packages/message_queue/rabbitmq_message_queue.py:86-103 | A publication reaches the queue, or raises before or after it does |
| Consumer.RabbitMqConsumer.RabbitmqHandler | packages/message_queue/rabbitmq_message_queue.py:141-201 | One delivery, body by body: a message not yet due goes back as it came; one that failed with attempts left goes back once, due the retry delay after the moment it failed and with one attempt less unless it has -1; one with none left is given up; what is not acknowledged stays as it came. It is acknowledged only after success, after a successor has reached the queue, or when attempts are used up |
| Accounting.EveryMessageAccountedFor | packages/message_queue/rabbitmq_message_queue.py:141-201 | In every reachable state each accepted message is in the broker, handled or exhausted exactly once, plus once for each publication of it that raised although sent and for each acknowledgement of it that raised |
| Accounting.CallsBounded | packages/message_queue/rabbitmq_message_queue.py:152-201 | Over every run, the handler is invoked for a message with n attempts at most n times (once for n <= 0 but -1), and beyond that once for each redelivery of a copy whose retry was not sent, and as often as a copy has attempts left for each redelivery of one that was dealt with and for each deferral sent and then raised |
| Accounting.StepCharges | packages/message_queue/rabbitmq_message_queue.py:152-201 | What is given in excess, event by event: the attempts left for a deferral sent and then raised and for the redelivery of a copy that was dealt with, one for any other redelivery, and nothing else |
| Accounting.UnackedSettled | packages/message_queue/rabbitmq_message_queue.py:169-201 | A copy that stays unacknowledged was dealt with, unless it failed with attempts left and its retry was not sent |
| Attempts.ChainsAreSound | packages/message_queue/rabbitmq_message_queue.py:152-199 | In every run, along every chain of copies: the attempts made and left add up to those allowed and one for each time it was left unacknowledged, and it is given up only when all are used up; -1 only if the producer set it; more than the retry delay from the end of an attempt to the next unless left unacknowledged; none before the producer's time unless a deferral failed |
| Attempts.RetryWaits | packages/message_queue/rabbitmq_message_queue.py:153-170 | In every run, a message that failed is due exactly when more than its retry delay has passed since its last failure, and one that did not exactly after the producer's time, unless left unacknowledged |
| Attempts.AttemptRetried | packages/message_queue/rabbitmq_message_queue.py:169-195 | A failed attempt's successor has one attempt less, is due the retry delay after the failure, and is otherwise the same message |
| Invocations.BoundIff | packages/message_queue/rabbitmq_message_queue.py:152-201 | A message with n attempts, other than -1, is attempted at most as often as allowed over every run exactly if, for n <= 1, acknowledgements do not fail or nothing is redelivered, and for n > 1, no deferral is sent and then raises and nothing is redelivered |
| Invocations.SpacingIff | packages/message_queue/rabbitmq_message_queue.py:153-201 | From the end of each of its attempts to the start of the next more than the retry delay passes, over every run, under the same condition, or if the delay is negative |
| Invocations.ScheduleIff | packages/message_queue/rabbitmq_message_queue.py:153-170 | None comes before the producer's time over every run exactly if it has one attempt, or no deferral raises |
| Invocations.BoundBroken | packages/message_queue/rabbitmq_message_queue.py:160-201 | Runs that exceed n attempts, by a deferral sent and then raised, by a redelivery, and for n <= 1 by a failed acknowledgement and a redelivery |
| Invocations.HandledTwice | packages/message_queue/rabbitmq_message_queue.py:201 | A message handled, its acknowledgement failed, redelivered and handled again |
| Supervisor.Supervise | app/message_queue_consumer.py:73-94 | The two nested loops compute the state after the observed sweeps |
| Supervisor.SupervisorBound | app/message_queue_consumer.py:77-94 | Every sweep starts with one worker per exchange, in order; at most 2n + 9 are submitted whatever they do; none is dropped before its result was seen |
| Supervisor.RunningWorkersStay | app/message_queue_consumer.py:79-85 | A sweep keeps exactly the workers that are still running, and has seen the results of exactly the others |
| Supervisor.SweepReplaces | app/message_queue_consumer.py:79-93 | A sweep submits one worker for each that returned or raised, for its exchange and in order, and counts 1 for each of these and 10 for each failed connector |
| Supervisor.ConnectorFailureEnds | app/message_queue_consumer.py:86-88 | A sweep in which the connector fails is the last |
| Supervisor.BoundReached | app/message_queue_consumer.py:77-94 | The bound 2n + 9 is reached |
| SearchPattern.CompiledParses | app/adapter/repository/base.py:91-106 | The compiled pattern parses to one branch per key, the key as literals whatever its metacharacters, anchored at the start on the first branch and at the end on the last only |
| SearchPattern.CompiledMeans | app/adapter/repository/base.py:87-108 | The pattern finds a text exactly if some key occurs in it, where only the first key is held to the start and only the last to the end |
| SearchPattern.OneKey | app/adapter/repository/base.py:98-106 | With one key: prefix, suffix, the whole text, or anywhere |
| SearchPattern.MoreKeysFindMore | app/adapter/repository/base.py:91 | A key appended to a list of keys never removes a match |
| SearchPattern.IntendedIsFound | app/port/restful/openapi/paths/your_aggregates/your_aggregates.yml:55-61 | Whatever the documented meaning finds is found |
| SearchPattern.AsIntendedIff | app/port/restful/openapi/paths/your_aggregates/your_aggregates.yml:55-61 | Pattern and documented meaning agree on every text exactly if there is no operator, or one key, or, but for `equals`, an empty key |
| SearchPattern.AllCharactersAgree | app/port/restful/openapi/paths/your_aggregates/your_aggregates.yml:55-61 | The bound on the number of keys in the former is exact: a key for each character makes `starts` and `ends` agree too |
| Search.SplitFieldMeans | app/adapter/repository/base.py:92-108 | A search field reads as an operator and a name in one way at most; what does not read so is taken whole, without an operator |
| Search.SearchKeyFilters | app/adapter/repository/base.py:160-177 | The loop builds one filter for each known field, in order, and none without keys |
| Search.SearchMeans | app/adapter/repository/base.py:159-179 | A row passes exactly if there are no keys, or no known field is named, or some key is met in a named known field |
| Search.OneKeySearch | app/adapter/repository/base.py:87-108 | A search for one key: `starts:`, `ends:`, `equals:` before a field, or nothing, keep the rows whose text has the key as prefix, as suffix, as its whole, or anywhere |
| Search.PagesCover | app/adapter/repository/base.py:189-191 | The pages of one answer, end to end, are that answer |
| Search.PageRows | app/adapter/repository/base.py:189-191 | For every offset and limit, row i of the page is row offset + i of the answer; the page ends with the answer, or at the limit if that is positive |
| Search.OrderingUnique | app/adapter/repository/base.py:184-191 | If no two rows tie, every search answers in the same order |
| Search.AnswerInOrder | app/adapter/repository/base.py:121-124 | Of two rows of an answer that earlier sort fields do not tell apart, the earlier has the smaller entry if the order ascends, the larger if it descends; a missing entry comes last ascending, first descending |
| Search.OrderingIff | app/adapter/repository/base.py:121-124 | And an answer is one the database may give exactly if it holds every row once and that is so of any two of them |
| Search.SortedByOne | app/adapter/repository/base.py:114-124 | A search sorted by `field` answers smaller entries first and missing ones last, by `-field` the other way round |
| Search.FallbackNewestFirst | app/adapter/repository/base.py:185-186 | Under the fallback, of two rows the one created later comes first, and one without a time before all that have one |
| Search.TieMovesBetweenPages | app/adapter/repository/base.py:184-191 | If two rows tie, the pages of two searches may show one of them twice |
| SortOrder.ParseSortMeans | app/adapter/repository/base.py:114-118 | A sort specification parses to the field and direction that it reads as |
| SortOrder.CreateSortByExp | app/adapter/repository/base.py:110-125 | The loop with its set of used fields computes the compiled order |
| SortOrder.CompiledInSequence | app/adapter/repository/base.py:110-125 | Each order comes from the first specification of its field, they keep the sequence of the specifications, and no known field that is named is left out |
| SortOrder.CompiledComparesAlike | app/adapter/repository/base.py:113-125 | The compiled order compares any two rows as the whole recognised list does, sorts by no field twice and by known fields only |
| SortOrder.TotalPreorder | app/adapter/repository/base.py:121-124 | The comparison is reflexive, total and transitive |
| SortOrder.BeforeIff | app/adapter/repository/base.py:121-124 | One row may come before another exactly if, in each sort field whose predecessors do not tell them apart, its entry is not the larger (ascending) or not the smaller (descending), missing entries last or first |
| SortOrder.OrderBy | app/adapter/repository/base.py:184-187 | An empty order is replaced by the one for `-created` |
| SortOrder.FallbackOrders | app/adapter/repository/base.py:185-186 | The fallback sorts by newest first exactly if there is a field `created`; otherwise no row comes before another |
| SortOrder.YourAggregateOrder | app/adapter/repository/your_aggregate_repository.py:38 | Aggregates are unordered exactly if no specification names `created_at` |

## Left out

- Concurrent requests: calls run one after the other.
- A rollback that raises, a second close of the session that raises, and a commit or close that is cancelled half-way.
- SearchPattern.AsIntendedIff: for `starts` and `ends` its second half is for fewer keys than there are characters (1112064), because a longer list can contain a key for every character and then agrees by exhausting them.
- Messages.MergeConserves: messages are values; pushing two messages that share one payload list, or the same message object twice, is not modelled.
- Snapshots.Store.Save: shares lists only; the value object, the creator and the entries of a list are values.
- Accounting.EveryMessageAccountedFor: message bodies that do not parse are not modelled; the code raises outside its try block for them.
- Supervisor.Supervise: `submit` does not raise, and a worker's SystemExit is not modelled.
- The regular expressions of the database beyond literals, anchors, alternation and escapes; the quoting of a pattern inside a JSON path; which characters are word characters, but for the ones the patterns themselves use.
- Date, status and id filters of a search, the columns loaded, and the total that is counted besides a page.
- The creation handler's guard against a missing value object: an event always carries one.
- The results a call returns (ids, payload details), REST wiring, tokens, configuration, logging and its chunking.
- The consumer's re-registration after connection errors, signals, and what a consumer process publishes when it stops.
- The Excel export, scaffolding, migrations and deployment.
