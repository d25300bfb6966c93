# Delivery core of the lzt-eventus SDK, verified

A Dafny model of the part of the SDK that decides whether an event's handler runs, how often it runs,
and where a source resumes: the timed storage with the two façades over it, the idempotency
middleware, the dispatcher with its router tree and middleware chains, the SSE, WebSocket and polling
sources, the SSE framing, the filter expressions, the supervisor and the webhook receiver.

`dafny verify dfyconfig.toml` checks everything.

## How it is modelled

- **Objects that change** are classes with the same fields (`MemoryStorage`, `CursorStore`,
  `IdempotencyStore`, `IdempotencyMiddleware`, `Router`, `Dispatcher`, `StreamSource`,
  `PollingSource`, `SourceSupervisor`, `WebhookReceiver`). Their methods have the source's loops and
  early returns and are proved against functions; what the source promises is proved about those
  functions.
- **The clock** is an object whose readings never go back. One storage operation may read it up to
  three times: to check, to write and to sweep (`TimedMap.Readings`).
- **Tasks.** A storage operation never suspends, so it is one atomic action, and an interleaving of
  tasks is a sequence of actions (`Dedup`, `Supervision`).
- **Endless loops** run over a script: what each connection or fetch brings, how the dispatcher
  answers, what raises, when the source is closed. A script ends where one stops looking, so the
  traces of all scripts are the beginnings of all runs.
- **Filters, callbacks and middleware** are arbitrary functions that pass the rest of the world along
  as a value, so they may keep state, raise, and (for middleware) call the next handler any number of
  times. They get the data as a value and cannot change it in place.
- **Given from outside** and otherwise arbitrary: JSON decoding (good, malformed, or another
  exception), the signature function, the resolvers, payload parsing, log lines, jitter (any value of
  its interval), and what attribute access, indexing, comparison and truth testing do on an object.
- Time is `real`, without rounding. Sequence numbers are unbounded integers, as in Python.

## Where the documentation promises more than the code does

- `docs/architecture.en.md:70-71` says that the cursor does not pass a failed event. It does as soon
  as a later event succeeds: `StreamTraces.FailedEventCanBeLost`; the exact condition is
  `StreamTraces.OfferedAgainIff`.
- The same lines promise that a failed event is redelivered. Delivered again in time it is a duplicate,
  because its key is marked before the handler runs: `Dedup.ArrivalIsDuplicateIff`. So the
  cursor passes it and its handler never runs again: `Redelivery.FailedEventIsPassedOver`. A failed
  polling batch is confirmed on the next fetch in the same way: `Redelivery.RefetchedBatchIsConfirmed`.
- The client describes `up_to_seq` as inclusive (`src/lzt_eventus_sdk/client.py:265`) while the source
  confirms `next_seq`, and a source with a type filter confirms events it never asked for. Events can be
  lost both ways: `PollServers.NextEventCanBeLost`, `PollServers.UnwantedEventCanBeLost`. The exact
  condition is on the numbers the source itself fed and confirmed: `PollServers.PollingLosesNothingIff`,
  `PollServers.FirstConfirmLosesNothingIff`.
- `src/lzt_eventus_sdk/dispatch/router.py:11-13` says that a raised SkipHandler falls through. It does
  exactly if no error boundary is among the inner middlewares: `Dispatch.FallsThroughIff`.

## Model

| member | source | states |
|---|---|---|
| TimedMap.ExpiryIsUnobservable | src/lzt_eventus_sdk/storage/memory.py:30-70 | every run of get, set, set-if-absent and delete answers exactly like a map that never drops anything and only hides entries past their deadline |
| TimedMap.StepRefines | src/lzt_eventus_sdk/storage/memory.py:30-59 | one operation answers as the ideal map does and keeps the dictionary equal to it except for entries already out of date |
| TimedMap.IdealRemembersIff | src/lzt_eventus_sdk/storage/memory.py:30-59 | the ideal map has a value in date exactly if the latest operation that touched its key stored it and the time to live is not over |
| TimedMap.StorageRemembers | src/lzt_eventus_sdk/storage/memory.py:30-70 | after any run the storage answers a get with a value exactly if the latest operation that touched the key stored it and its time to live is not over; a set-if-absent writes exactly if there is none |
| TimedMap.StepSize | src/lzt_eventus_sdk/storage/memory.py:61-70 | a sweep leaves exactly the keys live at its reading; any other operation adds at most one entry, and only with a counted write |
| TimedMap.SizeFollowsSweeps | src/lzt_eventus_sdk/storage/memory.py:39-70 | after every run the size is at most the number of entries live at the last sweep plus the writes modulo 500 |
| TimedMap.SizeStaysBounded | src/lzt_eventus_sdk/storage/memory.py:18-24 | if never more than n keys are live at once, the dictionary never holds more than n + 499 entries |
| MemoryStorages.MemoryStorage.Get | src/lzt_eventus_sdk/storage/memory.py:30-37 | answers from the ideal map at its clock reading, drops the entry only if it is out of date, keeps the size bound |
| MemoryStorages.MemoryStorage.Put | src/lzt_eventus_sdk/storage/memory.py:39-42 | the ideal map gains the entry with its deadline counted from the write reading |
| MemoryStorages.MemoryStorage.PutIfNew | src/lzt_eventus_sdk/storage/memory.py:44-56 | writes exactly if the ideal map has no entry for the key in date at the check reading |
| MemoryStorages.MemoryStorage.MaybeSweep | src/lzt_eventus_sdk/storage/memory.py:61-70 | counts the write and on every 500th removes exactly the entries out of date at its reading |
| MemoryStorages.MemoryStorage.Delete | src/lzt_eventus_sdk/storage/memory.py:58-59 | the ideal map loses the key |
| Events.DecimalInjective | src/lzt_eventus_sdk/middleware/idempotency.py:26 | different sequence numbers have different texts |
| Events.BroughtKeysDecide | src/lzt_eventus_sdk/middleware/idempotency.py:26 | events that bring a non-empty idempotency key, or without one a non-empty event id, share a deduplication key exactly if those texts are equal, whatever else they carry |
| Events.BroughtKeyMeetsKeyless | src/lzt_eventus_sdk/middleware/idempotency.py:25-26 | such a key coincides with the fallback key of another event exactly if it spells its subscription and number |
| Events.KeylessEventsShareAKeyIff | src/lzt_eventus_sdk/middleware/idempotency.py:25-26 | events without a key of their own share the fallback key exactly if subscription and sequence number agree |
| Idempotency.IdempotencyStore.Seen | src/lzt_eventus_sdk/storage/idempotency.py:17-18 | true exactly if the key's mark is in date |
| Idempotency.IdempotencyStore.MarkIfNew | src/lzt_eventus_sdk/storage/idempotency.py:23-29 | atomically marks the key exactly if no mark of it is in date |
| Idempotency.IdempotencyMiddleware.Call | src/lzt_eventus_sdk/middleware/idempotency.py:24-29 | a marked key gives Duplicate and leaves the world alone; otherwise the key is marked before the handler runs and stays marked whatever the handler does |
| Dedup.RunKeepsMarks | src/lzt_eventus_sdk/storage/memory.py:44-56 | in every interleaving of tasks the store agrees with the latest entry of each key |
| Dedup.ArrivalIsDuplicateIff | src/lzt_eventus_sdk/middleware/idempotency.py:27-29 | an arrival is a duplicate exactly if some earlier entry of its key is at most ttl old, however that entry's handler ended |
| Dedup.EntriesAreApart | src/lzt_eventus_sdk/middleware/idempotency.py:13-29 | any two entries into the handler for one key are more than ttl apart, and without a ttl there are no two |
| Dedup.EntriesSpan | src/lzt_eventus_sdk/middleware/idempotency.py:13-29 | n entries for one key span more than (n - 1) times the ttl in every interleaving; without a ttl there is at most one |
| Dedup.ArrivedKeyHasEntry | src/lzt_eventus_sdk/middleware/idempotency.py:27-29 | no key is turned away unless a delivery of it entered the handler |
| Dedup.SecondArrivalTurnedAway | src/lzt_eventus_sdk/middleware/idempotency.py:27-28 | a key that arrives again within ttl of its latest mark is turned away without entering a handler, whatever other tasks did in between |
| Cursors.CursorKeyInjective | src/lzt_eventus_sdk/storage/cursor.py:18-20 | two pairs of subscription and transport share an entry only if they are the same, whatever characters the subscription has |
| Cursors.CursorIsMaximum | src/lzt_eventus_sdk/storage/cursor.py:26-29 | the cursor of a pair is the maximum of 0 and the numbers given for it, in whatever order and however often |
| Cursors.CursorStore.Get | src/lzt_eventus_sdk/storage/cursor.py:22-24 | returns that maximum over all calls so far, by any source |
| Cursors.CursorStore.Advance | src/lzt_eventus_sdk/storage/cursor.py:26-29 | adds one call, keeping every entry a maximum without a deadline |
| Backoff.BaseClosedForm | src/lzt_eventus_sdk/sources/polling.py:49-52 | after n >= 1 doublings the base delay is the smaller of start times two to the n and the cap |
| Backoff.BaseInRange | src/lzt_eventus_sdk/sources/base.py:71-86 | the base delay stays between start and cap |
| Backoff.DelayIsJittered | src/lzt_eventus_sdk/sources/base.py:81 | the sleep lies between the base and 1.25 times the base |
| Backoff.JitteredSum | src/lzt_eventus_sdk/sources/sse.py:114-115 | n such sleeps total between the sum of the bases and 1.25 times it |
| Backoff.DelayIff | src/lzt_eventus_sdk/sources/base.py:81 | the possible sleeps are exactly those between the base and 1.25 times the base |
| StreamTraces.LifeIsLawful | src/lzt_eventus_sdk/sources/sse.py:90-128 | over any reconnects and restarts each resume hint is the maximum of the starting cursor and the numbers dispatched without error, left out by SSE exactly when 0; each sleep's base is the closed form for the sleeps since an event last arrived |
| StreamTraces.LifeIsJittered | src/lzt_eventus_sdk/sources/sse.py:114 | with limits that are not negative every sleep lies between its base and 1.25 times its base |
| StreamTraces.LifeSleepsTotal | src/lzt_eventus_sdk/sources/sse.py:114-115 | all sleeps of a life total between the sum of their bases and 1.25 times it |
| StreamTraces.RunConnectsIff | src/lzt_eventus_sdk/sources/sse.py:103-128 | a run connects again after a connection exactly if no exception but a caught one left it and the source was not closed; a refused or broken connection and a malformed frame lead to a sleep and a reconnect; each connection feeds exactly the events up to the first malformed frame or raise |
| StreamTraces.NothingIsSkipped | src/lzt_eventus_sdk/sources/sse.py:90-128 | against a log server that may cut anywhere, at every moment every event the cursor has reached was fed |
| StreamTraces.CursorBelowIff | src/lzt_eventus_sdk/sources/sse.py:120-128 | the cursor is below a number exactly if it started below and every number dispatched without error is below |
| StreamTraces.OfferedAgainIff | src/lzt_eventus_sdk/sources/sse.py:118-128 | an event is offered by a connection exactly if no event at or after it was dispatched without error before |
| StreamTraces.FailedEventCanBeLost | docs/architecture.en.md:66-72 | a concrete run in which a failed event is never offered again |
| StreamSources.StreamSource.Consume | src/lzt_eventus_sdk/sources/ws.py:89-117 | the loop over one connection makes the trace of its frames, and the stored cursor ends as the trace demands |
| StreamSources.StreamSource.Run | src/lzt_eventus_sdk/sources/sse.py:103-128 | the loop over the real cursor store makes exactly the trace the theorems are about, connects as often as `RunConnectsIff` says, and touches no other cursor |
| StreamSources.OthersKept | src/lzt_eventus_sdk/storage/cursor.py:7-13 | a source moves no cursor but its own |
| PollTraces.FeedsAndConfirms | src/lzt_eventus_sdk/sources/polling.py:64-82 | every fetched item is fed once in order, and the confirms are exactly the next_seq of the non-empty batches without an error; an exception ends both |
| PollTraces.RunFetchesIff | src/lzt_eventus_sdk/sources/polling.py:64-82 | each fetch is followed by its items up to the first raise; by the confirm exactly in auto mode with items of which none raised or came to an error; by a sleep exactly if drained; and by the next fetch unless an exception left the loop |
| PollTraces.ConfirmedIsWell | src/lzt_eventus_sdk/sources/polling.py:68-78 | between any confirm of a run and the fetch before it there are only feeds, at least one, and none that raised or came to an error; the mode is auto |
| PollTraces.ManualNeverConfirms | src/lzt_eventus_sdk/sources/polling.py:75 | in manual mode nothing is confirmed |
| PollTraces.ConfirmsAndSleepsJustified | src/lzt_eventus_sdk/sources/polling.py:66-82 | when a confirm is sent all items of its batch and of the batches before were fed and no later one; each sleep is the capped power of two for the streak of empty fetches |
| PollingSources.PollingSource.FeedBatch | src/lzt_eventus_sdk/sources/polling.py:68-73 | feeds the items up to the first raise and reports whether any came to an error |
| PollingSources.PollingSource.Run | src/lzt_eventus_sdk/sources/polling.py:64-82 | the loop makes exactly the trace the theorems are about, with the fetches, confirms and sleeps `RunFetchesIff` says |
| PollServers.PollingLosesNothingIff | src/lzt_eventus_sdk/sources/polling.py:64-82 | over any runs of the polling loop, with or without a type filter and an inclusive confirm: no log that may lie behind what the source saw has an event marked as read unfed exactly if each confirm covered only numbers that were fed, or, where other types do not matter, that a fetch went past |
| PollServers.ConfirmFitsIff | src/lzt_eventus_sdk/sources/polling.py:75-78 | unless events not asked for matter, a confirm is of that kind exactly if it does not go beyond the highest number fed so far |
| PollServers.FirstConfirmLosesNothingIff | src/lzt_eventus_sdk/client.py:264-266 | the first confirm can lose no event exactly if next_seq is at most the last item's number; with a filter, and if other types matter, exactly if every number up to it is that of an item |
| PollServers.NextEventCanBeLost | tests/fixtures/api_captures.json:131-143 | with the captured numbers the event appended next is lost |
| PollServers.UnwantedEventCanBeLost | src/lzt_eventus_sdk/sources/polling.py:42-47 | a source that asks for one type marks an event of another type as read although nothing fed it |
| Redelivery.SourceKeyIsChosen | src/lzt_eventus_sdk/events/event.py:37-45 | an event decoded by a source has no key of its own, so its deduplication key is subscription and number |
| Redelivery.DuplicateReachesNoHandler | src/lzt_eventus_sdk/dispatch/dispatcher.py:58-63 | with the idempotency middleware outermost a marked event is a duplicate whatever middlewares and handlers are inside; any other is marked and goes on to them |
| Redelivery.RefetchedBatchIsConfirmed | src/lzt_eventus_sdk/sources/polling.py:66-78 | a batch refetched unchanged while the marks of its events hold is confirmed and enters no handler, with any other tasks in between |
| Redelivery.FailedEventIsPassedOver | src/lzt_eventus_sdk/sources/sse.py:118-128 | behind the idempotency middleware a failed event that a connection offers again in time is a duplicate, the cursor passes it, and no later connection offers it, even if no later event succeeds |
| SseParser.ParseLines | src/lzt_eventus_sdk/sources/sse.py:56-66 | the line loop yields what the recursive reading gives |
| SseParser.ParseAppend | src/lzt_eventus_sdk/sources/sse.py:56-66 | parsing a concatenation is parsing the second part from where the first one stopped |
| SseParser.ParseComposes | src/lzt_eventus_sdk/sources/sse.py:60-64 | after a blank line parsing starts afresh |
| SseParser.NoiseIsIgnored | src/lzt_eventus_sdk/sources/sse.py:65-66 | lines that are neither blank nor data change nothing |
| SseParser.OtherLineIsIgnored | src/lzt_eventus_sdk/sources/sse.py:60-66 | a line of any field but data, a comment, or a line without a colon that is not blank changes nothing wherever it stands |
| SseParser.RepeatedBlankIsIgnored | src/lzt_eventus_sdk/sources/sse.py:60-64 | further blank lines add nothing |
| SseParser.UnterminatedYieldsNothing | src/lzt_eventus_sdk/sources/sse.py:57-66 | lines after the last blank one yield nothing |
| SseParser.StripPad | src/lzt_eventus_sdk/sources/sse.py:66 | stripping gives back a text whatever white space was printed around it |
| SseParser.RoundTrip | src/lzt_eventus_sdk/sources/sse.py:56-66 | lines printed behind the literal `data:` and parsed give their payloads back, decoded in order |
| SseParser.TextRoundTrip | src/lzt_eventus_sdk/sources/sse.py:60-66 | a text printed line by line as data is decoded as that very text, with newlines between its lines |
| SseParser.FirstBadFrameEnds | src/lzt_eventus_sdk/sources/sse.py:43-53 | if frame n is the first undecodable one exactly the first n events are yielded |
| SseParser.CutAnywhere | src/lzt_eventus_sdk/sources/sse.py:96-101 | a connection cut after any line yields the events of its whole frames |
| SseParser.CutLogIsPrefix | src/lzt_eventus_sdk/sources/sse.py:96-101 | a printed log cut after any line delivers a beginning of the log |
| MagicFilters.BuildMeansEval | src/lzt_eventus_sdk/dispatch/filters.py:41-87 | the closures the operators build compute the left-to-right partial evaluation of the expression |
| MagicFilters.CallMeansTruth | src/lzt_eventus_sdk/dispatch/filters.py:89-95 | calling a filter gives the truth of its expression, with the three caught exceptions failing it |
| MagicFilters.FieldsAreRead | src/lzt_eventus_sdk/dispatch/filters.py:41-75 | attribute access, indexing and comparison act on the value of what stands left of them and hand on what it raises |
| MagicFilters.RightSideDecidesIff | src/lzt_eventus_sdk/dispatch/filters.py:77-83 | the right side of a conjunction decides exactly if the left one came out true, that of a disjunction exactly if it came out false; otherwise the left side does |
| MagicFilters.ConjPassesIff | src/lzt_eventus_sdk/dispatch/filters.py:77-79 | a conjunction passes exactly if both sides pass |
| MagicFilters.NegationLaws | src/lzt_eventus_sdk/dispatch/filters.py:85-95 | an expression and its negation never both pass, and both fail exactly if a caught exception is raised |
| MagicFilters.DisjPassesIff | src/lzt_eventus_sdk/dispatch/filters.py:81-95 | a passing disjunction has a passing side; the converse fails exactly if the left side raises and the right one would pass |
| MagicFilters.PushKeepsTruth | src/lzt_eventus_sdk/dispatch/filters.py:77-87 | De Morgan's laws and double negation hold at any depth, exceptions included |
| MagicFilters.PushKeepsCall | src/lzt_eventus_sdk/dispatch/filters.py:77-95 | pushing negations inwards never changes a filter's answer |
| Chains.Fold | src/lzt_eventus_sdk/dispatch/dispatcher.py:58-60 | the loop over the reversed list builds the chain with the first middleware outermost |
| Chains.ChainAppend | src/lzt_eventus_sdk/dispatch/dispatcher.py:94-96 | a longer chain is one chain around another |
| Chains.StopHidesTheInside | src/lzt_eventus_sdk/dispatch/dispatcher.py:110-114 | if a middleware answers each time without calling its handler, what is inside it makes no difference and those outside work on its answers |
| Chains.RunsLikeAnOnion | src/lzt_eventus_sdk/dispatch/dispatcher.py:58-62 | for chains of any length, and however often each middleware calls its handler, the trace is well nested in list order around the core |
| Chains.ShippedMiddlewaresAreLayers | src/lzt_eventus_sdk/middleware/errors.py:32-44 | the error boundary and the logging middleware are such middlewares |
| Chains.ShippedChainIs | src/lzt_eventus_sdk/middleware/errors.py:33-44 | in any list of the two the core sees the event after all log lines, and its exception becomes a HandlerError exactly if a boundary is in the list |
| Chains.BoundaryHidesSkip | src/lzt_eventus_sdk/middleware/errors.py:33-44 | with a boundary anywhere among any middlewares no SkipHandler reaches those outside it |
| Routers.Router.WalkFlattens | src/lzt_eventus_sdk/dispatch/router.py:50-55 | walking the routers and taking each one's handlers is the preorder of the tree |
| Routers.Router.On | src/lzt_eventus_sdk/dispatch/router.py:37-48 | a handler is placed after the router's own and before its children's |
| Routers.Router.IncludeRouter | src/lzt_eventus_sdk/dispatch/router.py:33-35 | everything below the child comes last |
| Dispatch.MatchedIff | src/lzt_eventus_sdk/dispatch/dispatcher.py:70-78 | a handler matches exactly if every filter gives something truthy, an empty dictionary being falsy |
| Dispatch.LaterExtrasWin | src/lzt_eventus_sdk/dispatch/dispatcher.py:75-80 | a handler's data is overridden by its own filters' dictionaries, the later ones winning |
| Dispatch.MatchStopsAt | src/lzt_eventus_sdk/dispatch/dispatcher.py:69-78 | filters are asked up to the first that gives nothing truthy; if it raises so does the match, and otherwise the handler does not match |
| Dispatch.KwargsAre | src/lzt_eventus_sdk/dispatch/dispatcher.py:16-27 | a callback gets the event and the data under the names it declares, the event hiding a value of its name |
| Dispatch.SearchEndsAt | src/lzt_eventus_sdk/dispatch/dispatcher.py:65-85 | the handlers entered are the matching ones up to the first whose inner chain does not end in SkipHandler, which decides; Skipped exactly if there is none; the world is left as the last one tried left it |
| Dispatch.SearchEndsSomewhere | src/lzt_eventus_sdk/dispatch/dispatcher.py:65-85 | there is exactly one such end |
| Dispatch.TrialNeverSkips | src/lzt_eventus_sdk/dispatch/dispatcher.py:98-104 | a handler that decides gives Handled or Errored |
| Dispatch.Dispatcher.MatchFilters | src/lzt_eventus_sdk/dispatch/dispatcher.py:68-78 | the filter loop gives the match the theorems are about |
| Dispatch.Dispatcher.RunOne | src/lzt_eventus_sdk/dispatch/dispatcher.py:87-104 | the inner chain is built and run, and its end judged |
| Dispatch.Dispatcher.WalkAndHandle | src/lzt_eventus_sdk/dispatch/dispatcher.py:65-85 | the nested loops over the walked routers are the search over the flattened list, with the same entries |
| Dispatch.Dispatcher.Feed | src/lzt_eventus_sdk/dispatch/dispatcher.py:48-63 | an event goes through the outer chain around the search; with no outer middleware the answer is that of the handler at which the search ends, or Skipped exactly if there is none |
| Dispatch.CoreSearches | src/lzt_eventus_sdk/dispatch/dispatcher.py:58-63 | the core of the outer chain answers as the search of the flattened list does, and leaves the world as it does |
| Dispatch.FeedSearches | src/lzt_eventus_sdk/dispatch/dispatcher.py:58-63 | the same with any list of the shipped middlewares outside |
| Dispatch.FallsThroughIff | src/lzt_eventus_sdk/dispatch/dispatcher.py:82-104 | a matching handler whose callback returns decides with Handled; the search goes past it exactly if the callback raises SkipHandler and no error boundary is among the inner middlewares; any other exception, and that one under a boundary, decides with Errored |
| Dispatch.UnmatchedIsPassed | src/lzt_eventus_sdk/dispatch/dispatcher.py:70-81 | a handler that does not match is not entered and the search goes on; a filter that raises ends it |
| Dispatch.SpecsMatchIff | src/lzt_eventus_sdk/dispatch/router.py:37-48 | a registration matches exactly if every event type given is that of the event and its other filters match by themselves |
| Dispatch.TwoTypesNeverMatch | src/lzt_eventus_sdk/dispatch/router.py:40-42 | a registration for two different event types, among whatever other filters, matches no event |
| Supervision.OthersDoNotMatter | src/lzt_eventus_sdk/sources/base.py:41-45 | removing all actions of other tasks, crashes included, leaves a task's phase, backoff and trace the same |
| Supervision.NoStartAfterStop | src/lzt_eventus_sdk/sources/base.py:88-91 | once the flag is set no run starts until the supervisor is run again |
| Supervision.EveryTaskIsLawful | src/lzt_eventus_sdk/sources/base.py:70-86 | in every interleaving a task restarts only first, after a return, or after a sleep between the base and 1.25 times it, the base being the closed form for its crashes since a return |
| Supervision.CrashedSourceRestarts | src/lzt_eventus_sdk/sources/base.py:72-82 | a source whose run crashed is started again after a sleep unless the flag is set |
| Supervision.ReturnedSourceRestarts | src/lzt_eventus_sdk/sources/base.py:83-86 | a source whose run returned is started again at once unless the flag is set |
| SourceSupervisors.LoopIsActions | src/lzt_eventus_sdk/sources/base.py:70-86 | a task's loop does what its actions do in the interleaved system, whatever else happens while its source runs and while it sleeps, stops and new runs included |
| SourceSupervisors.SourceSupervisor.Supervise | src/lzt_eventus_sdk/sources/base.py:70-86 | the loop with its local backoff and the shared flag makes exactly that trace |
| SourceSupervisors.SourceSupervisor.Run | src/lzt_eventus_sdk/sources/base.py:64-68 | clears the flag and starts one task per source, as the interleaved system does |
| WebhookReceivers.ReadBody | src/lzt_eventus_sdk/server/receiver.py:51-65 | the result depends on the concatenated body only: all of it exactly if within the cap; never more than the cap is kept, also of a body that never ends |
| WebhookReceivers.SentIs | src/lzt_eventus_sdk/server/receiver.py:54-65 | what is sent are the bytes of the messages up to the first that announces no more |
| WebhookReceivers.SubscriptionIdFoundIff | src/lzt_eventus_sdk/server/receiver.py:34 | an id is found exactly if the path ends in a slash and a non-empty segment, with perhaps one more slash; of several readings it is the one that starts first |
| WebhookReceivers.OnlySignedRequestsDispatch | src/lzt_eventus_sdk/server/receiver.py:109-149 | only a request within the cap that carries the signature of its body under the known secret is dispatched; refusals are 400, 401 or 413 |
| WebhookReceivers.HeaderIff | src/lzt_eventus_sdk/server/receiver.py:43-44 | a header is found under its name in any case, the last of several |
| WebhookReceivers.DispatchedEventIs | src/lzt_eventus_sdk/server/receiver.py:139-149 | the idempotency-key and event-id headers give the event's keys, the event-type header its type if not empty, the body the rest |
| WebhookReceivers.StatusByCause | src/lzt_eventus_sdk/server/receiver.py:109-127 | 400 without an id, 413 over the cap, 401 for an unknown subscription or without the signature of the body |
| WebhookReceivers.GenuineIsDispatchedIff | src/lzt_eventus_sdk/server/receiver.py:129-149 | a signed request is dispatched exactly if its body is JSON with the fields and the account is known; else 400 or 401 by cause |
| WebhookReceivers.StatusByOutcome | src/lzt_eventus_sdk/server/receiver.py:151-167 | a delivery that is not a duplicate gets 503 if its dispatch is Errored or raises, and 200 otherwise |
| WebhookReceivers.SecondRequest | src/lzt_eventus_sdk/middleware/idempotency.py:24-29 | of two requests with equal Idempotency-Key headers the second enters no handler within the ttl; with different ones it enters its handler, whatever else they have in common |
| WebhookReceivers.ChangedBodyNeedsSameSignature | src/lzt_eventus_sdk/server/receiver.py:124-127 | a body put in the place of a dispatched one is dispatched only if both have one signature |
| WebhookReceivers.FourHundredsChangeNothing | src/lzt_eventus_sdk/server/receiver.py:109-167 | a 4xx answer is given exactly if the request is refused before the dispatch, and then nothing is marked and no handler runs |
| WebhookReceivers.DeliveryIsArrival | src/lzt_eventus_sdk/server/receiver.py:151-167 | a dispatched request does to the marks what an arrival in the interleaved system does, and enters the handler exactly if no earlier entry of its key still holds |
| WebhookReceivers.RedeliveryEntersNoHandler | src/lzt_eventus_sdk/server/receiver.py:151-167 | after any run of requests and other tasks, a delivery whose key was dispatched before and is within ttl of its latest mark gets 200 and enters no handler |
| WebhookReceivers.WebhookReceiver.Handle | src/lzt_eventus_sdk/server/receiver.py:109-167 | the checks with their early answers, the feed and the status mapping come to exactly the delivery the theorems are about, over the real store |

## Left out

- `ManagementClient`, its response parsing, the DTOs, the enums and the error classes: field copying over HTTP.
- Sockets, httpx and websockets streams and ASGI `send`: replaced by scripts of lines, frames and messages that may end or fail anywhere.
- HMAC itself and timing of the comparison: the signature is any function, compared for equality, raising on text that is not ASCII.
- JSON decoding and `received_at`: a frame or body decodes, is malformed, or raises something else.
- `inspect.signature` beyond restricting the data to the declared names; `PayloadRegistry` model construction; `as_starlette_route`.
- `BaseSource.run` and the raw `stream()` iterators of the sources: the loops are modelled with their `run` as the consumer.
- Cyclic router graphs, on which `walk` does not terminate: `Routers.Router.IncludeRouter` asks for ranks that fall from parent to child. Routers shared by several parents are covered.
- Storage back ends other than the in-memory one: there `CursorStore.advance` would not be one atomic step.
- Cancellation, task groups, generator finalisation and closing of the HTTP client; names beginning with an underscore in filter expressions, which raise when the expression is built.
- Termination of the supervisor after `stop`: a polling source has no closed flag, so its run need not return.
- StreamTraces.NothingIsSkipped: assumes that a server given no hint starts at 0, and that a log only grows above what it holds.
- PollServers.PollingLosesNothingIff: reads the confirm as the client describes it, inclusive; a confirm whose call raises counts as having reached the server, and nobody else confirms; the server itself is not part of this model.
- Chains.RunsLikeAnOnion: a middleware is given by what it decides from its handler's replies so far, with some bound on the number of its calls for each event.
- Idempotency.IdempotencyMiddleware.Call: the wrapped handler cannot reach the deduplication storage, which it does not in the package.
- MemoryStorages.MemoryStorage.Get: a stored `None`, which Python cannot tell from an absent key, is not distinguished from other values.
- WebhookReceivers.WebhookReceiver.Handle: models a dispatcher whose only outer middleware is the idempotency one; requests that are handled at the same time interleave only in the store, as in `Dedup`.
