# A verified model of mapexGoKit

mapexGoKit is a Go service kit. This project models the parts of it that are algorithms,
protocols or state machines, and proves what they promise for every input, every run and every
interleaving:

| Module | What it models |
|---|---|
| `Text`, `Modular`, `Optional` | splitting and joining strings, byte order, residues, optional values |
| `PathKey`, `SubtreeRange`, `OrgFilter` | hierarchical pathKeys: subtree queries as string ranges, ancestor queries, template visibility |
| `RetryPolicy`, `DeadLetter`, `Verdicts`, `NackedRuns`, `Consumer` | NATS retry policy, the delivery and dead-letter protocol, what each verdict of a handler does to its message, what becomes of a message always Nacked, consumer setup and the double-buffered fetch loop |
| `Transaction`, `Backpressure` | MongoDB transaction retry against a server with unknown commit results; the write-latency ring, its percentile and the mode machine |
| `TieredCache`, `TieredCacheRuns`, `TieredCacheService` | the L0/L1/L2/fallback cache, what holds over whole runs of it, and which tier serves what |
| `CursorPages`, `CursorListings`, `Traversal`, `CursorTraversal`, `CursorWindows` | MongoDB cursor pagination, what following cursors returns and what single pages show |
| `SqlBuilder`, `SqlQueries`, `TimeCursor` | the ClickHouse query builder, the texts it builds read back by a lexer and a parser and run, and pagination by time |
| `Flatten` | lookup by dotted path and flattening to dotted keys |
| `Shutdown` | ordered shutdown hooks |

`dafny verify dfyconfig.toml` checks everything.

## How the model is built

Code that updates state is a class or a method with loops, each proved equal to a specification
function or against a stated property; the theorems are then lemmas about those functions or about
all finite runs of a state machine. A run is a sequence of steps, each enabled where it is taken
(`Possible`), and `After` is the state it leads to.

- Clocks, random ids, I/O outcomes, server replies and remote values are parameters of the
  operation that meets them, so every theorem holds for every behaviour of the outside.
- Strings are `seq<char>`; byte order is character order, exact for the ASCII text of pathKeys.
- Integers are unbounded except in `PathKey`, where the 64-bit parse and the wrapping increment
  are written out. Durations are whole numbers of some unit.
- The 99th percentile index is the exact `ceil(99 n / 100) - 1` in place of the floating-point
  expression.
- The sort of shutdown hooks is a library call that is not stable: any sorted arrangement of the
  hooks may come out of it.
- The collection behind the MongoDB finders is held in ascending `_id` order, ids being distinct.
- An unbounded retry or traversal is given as a finite script of replies, or as a request bound
  that any number from the size of the data on satisfies; a script that ends early is a run still
  in progress, and the theorems cover it.

## Where code and documentation differ

The model follows the code; these are stated as lemmas.

- A pathKey whose last segment is all 'Z' overflows its width: the range query then loses even the
  organization itself (`SubtreeRange.RangeIsSubtreeIff`). With segment widths not fixed by depth the
  range of p catches strangers: the keys that follow p's segments down to p's depth and have there a
  shorter segment, a beginning of the next one that sorts above p's own
  (`SubtreeRange.RangeIsSubtreeAndStrangers`, `SubtreeRange.RangeIsRightIff`). They exist exactly when
  p's last segment ends in 'Z' (`SubtreeRange.HasStrangersIff`); "000Z" and "001" are an example
  (`SubtreeRange.MixedWidthsBreakTheRange`).
- "Three consecutive windows above a threshold" do not always raise the backpressure mode: mid,
  high, high leaves it at Normal (`Backpressure.ThreeWindowsMayNotRaise`, exact condition in
  `Backpressure.ThreeWindowsRaiseIff`).
- A message Nacked to its last delivery is removed if and only if its data is JSON and the publish of
  that last Nack is confirmed; otherwise it is stranded: in the stream, and never delivered again
  (`NackedRuns.NackedEndsInDlqIff`, `NackedRuns.LastNackRemovesIff`). So one refused publish strands a
  JSON message (`NackedRuns.JsonRunIsStranded`), and data that is not JSON, whose record cannot be
  marshalled, never reaches the queue at all (`NackedRuns.NonJsonStays`,
  `NackedRuns.NackedCanLeaveIff`).
- With MaxRetries at or below zero the client gives up at once while the server allows six
  deliveries (`RetryPolicy.RetryMatchesMaxDeliverIff`).
- A changed retry policy does not reach a consumer that already exists
  (`Consumer.DeliveryLimitFollowsPolicyIff`).
- `DLQPolicy.Subject` is documented to default to `dlq.{ServiceName}`; the code uses `dlq.mapexos`
  (`DeadLetter.DefaultSubjectIsDocumentedIff`).
- A cursor replaces whatever the caller's filter said about `_id`
  (`CursorListings.CursorReplacesIdCondition`), so a client that follows cursors can be handed
  documents that do not match (`CursorTraversal.FarBoundBreaksTraversal`). Both finders are right
  exactly when all matches fit the first page or no such stranger lies beyond it
  (`CursorTraversal.ByCursorTraversesAllIff`, `CursorTraversal.WithCursorTraversesAllIff`), as with an
  equality or a bound on the near side (`CursorTraversal.HarmlessIdConditions`). Going back can return
  another page too (`CursorWindows.ForgottenListBreaksBack`). MongoDB's FindByCursor also writes the
  condition into the caller's map.
- HasPrev and HasNext of FindByCursor repeat whether a cursor was given, so a cursor beyond the
  documents makes them wrong (`CursorWindows.FarCursorMisleads`, exact condition in
  `CursorWindows.FlagsAreTruthfulIff`).
- FindWithCursor going back flips the filter but not the sort, so it is the preceding page only
  when at most one document precedes the cursor (`CursorWindows.PreviousIsPrecedingPageIff`,
  `CursorWindows.PreviousIsReversed`).
- ClickHouse FindByCursor loses rows when a page boundary falls between equal timestamps
  (`TimeCursor.TimeTraversalIsCompleteIff`, `TimeCursor.TieLosesRow`). Going back it shows the head of
  the rows before the cursor, which is the preceding page only when they fit one page
  (`TimeCursor.PreviousIsPrecedingPageIff`).
- `Where` called directly with BETWEEN adds two placeholders and one argument
  (`SqlBuilder.DirectWhereMatchesIff`). Field names are written into the text as they are: it reads
  back as the filters, with as many placeholders as arguments, exactly when no name is empty, has a
  blank or has a question mark (`SqlBuilder.WhereIsReadBackIff`, `SqlBuilder.SpacedFieldIsMisread`,
  `SqlBuilder.MarkedFieldIsMalformed`). A whole query reads back exactly when no clause holds a keyword
  that ends it and the table is one word (`SqlQueries.RenderIsReadBackIff`).
- L1Size is not reduced when a data file is overwritten (`TieredCacheRuns.SizeDriftIsOverwrites`).
- A failed data write can leave L0 and L1 with different live values
  (`TieredCacheRuns.FailedWriteKeepsAgreementIff`).

## Model

| member | source | states |
|---|---|---|
| PathKey.CalculateNextSiblingPathKey | utils/pathkey/pathkey.go:39-77 | the increment of the last base-36 segment, padded to its width, with the empty and the unparsable key handled; the lemmas below say what it is for |
| PathKey.GetAncestorPaths | utils/pathkey/pathkey.go:151-171 | the proper ancestors are exactly the proper prefixes of the segment list, root first |
| PathKey.DigitOrder | utils/pathkey/pathkey.go:54-65 | on equal widths, byte order of base-36 digit strings is numeric order |
| PathKey.FormatParses | utils/pathkey/pathkey.go:54-65 | parsing inverts base-36 formatting |
| PathKey.ParseInvertsFormatIff | utils/pathkey/pathkey.go:54-65 | and does so exactly on the 64-bit integers |
| PathKey.ParseOfDigits | utils/pathkey/pathkey.go:54 | a text of digits, signed or not, parses to its value if that fits 64 bits |
| PathKey.ParseFails | utils/pathkey/pathkey.go:54 | nothing else parses |
| PathKey.UpperKeepsValue | utils/pathkey/pathkey.go:54-65 | letter case changes no value |
| PathKey.UnparsableIsUnchanged | utils/pathkey/pathkey.go:39-59 | the empty key and one whose last segment does not parse come back unchanged |
| PathKey.NextOfParsable | utils/pathkey/pathkey.go:61-77 | any other key keeps its segments but the last, which is the next number, wrapping at 64 bits, in upper case, padded with zeros to the old width |
| PathKey.NextSegmentIsSuccessor | utils/pathkey/pathkey.go:50-70 | short of all 'Z' the next segment keeps its width and is one larger |
| PathKey.OrderIsomorphism | utils/pathkey/pathkey.go:25-32 | byte order on well-formed pathKeys is the lexicographic order of their number paths |
| PathKey.PathRange | utils/pathkey/pathkey.go:25-32 | between a number path and its successor lie exactly the paths it is a prefix of |
| PathKey.PrefixTestIsHierarchy | utils/pathkey/pathkey.go:92-124 | the plain string-prefix tests are exactly the segment hierarchy |
| PathKey.DescentIsExtension | utils/pathkey/pathkey.go:92-124 | for any texts: everything is below the empty key, and below another key are exactly its proper extensions |
| PathKey.RangeInNumbers | utils/pathkey/pathkey.go:25-77 | in numbers, the range [p, next(p)) holds exactly the paths that p's path begins |
| SubtreeRange.SegmentRange | utils/pathkey/pathkey.go:50-70 | the texts from a segment up to the next one are those that start with it and those whose first segment is a shorter beginning of the next one, sorting above it |
| SubtreeRange.RangeIsSubtreeAndStrangers | utils/pathkey/pathkey.go:25-124 | for keys of any widths the range holds exactly p, its descendants and the strangers, never both |
| SubtreeRange.RangeIsRightIff | utils/pathkey/pathkey.go:25-124 | for keys of any widths, range and prefix test agree about x if and only if x is not a stranger; for an all-'Z' segment, if and only if x is not below p |
| SubtreeRange.RangeIsSubtree | utils/pathkey/pathkey.go:25-77 | with widths fixed by depth the range holds exactly p and its descendants |
| SubtreeRange.NextSiblingIsAboveIff | utils/pathkey/pathkey.go:39-77 | next(p) sorts above p if and only if p's last segment is not all 'Z', whatever the other segments |
| SubtreeRange.RangeIsSubtreeIff | utils/pathkey/pathkey.go:39-124 | the range is right for all well-formed keys if and only if p's last segment is not all 'Z' |
| PathKey.OrgWidthsAreValid | utils/pathkey/pathkey.go:4-7 | the documented widths meet the theorems' conditions |
| SubtreeRange.HasStrangersIff | utils/pathkey/pathkey.go:39-77 | some key of another width is wrongly caught if and only if p's last segment ends in 'Z' |
| SubtreeRange.MixedWidthsBreakTheRange | utils/pathkey/pathkey.go:39-77 | an example of such a key |
| OrgFilter.GetAncestorPathKeysIncludingSelf | utils/orgfilter/org_filter.go:308-332 | all prefixes of the trimmed segment list, joined, root first |
| OrgFilter.BuildTemplateAncestorFilter | utils/orgfilter/org_filter.go:361-414 | the filter or error for every context, refined by the loop over ancestors |
| OrgFilter.KeepTemplateCreators | utils/orgfilter/org_filter.go:394-400 | the loop keeps exactly the keys that may create templates, in order; CreatorsAreUppermost says which those are |
| OrgFilter.AncestorKeysAreSegmentPrefixes | utils/orgfilter/org_filter.go:308-332 | p is among x's ancestors-or-self exactly when p's segments begin x's |
| OrgFilter.DownAndUpAgree | utils/orgfilter/org_filter.go:308-332 | x is in the range of p if and only if p is among x's ancestors or x itself |
| OrgFilter.TypeIsDepth | utils/orgfilter/org_type.go:38-69 | the type of an organization is the number of its segments: vendor 1, customer 2, site 3, other below |
| OrgFilter.CreatorsAreUppermost | utils/orgfilter/org_type.go:38-85 | a key may create templates if and only if it has one or two segments |
| OrgFilter.TrimsOneSlash | utils/orgfilter/org_filter.go:308-315 | one trailing slash is ignored, and only one |
| OrgFilter.AncestorsAreRootFirst | utils/orgfilter/org_filter.go:308-332 | there are as many ancestors-or-self as segments; each is its first segments joined, the key itself last |
| OrgFilter.TemplateErrors | utils/orgfilter/org_filter.go:361-414 | for every pathKey, exactly when each error is given |
| OrgFilter.TemplateFilterIsExactIff | utils/orgfilter/org_filter.go:361-414 | for every pathKey, the filter admits exactly the ancestors-or-self of one or two segments if and only if a vendor key has no trailing slash and a customer key no empty vendor part |
| OrgFilter.HierarchyTemplates | utils/orgfilter/org_filter.go:361-414 | on well-formed keys the filter exists and admits exactly those |
| OrgFilter.HierarchyFilterIsUppermost | utils/orgfilter/org_filter.go:361-414 | it is the vendor itself, or the list of vendor and customer, in this order |
| RetryPolicy.RetryMatchesMaxDeliverIff | infrastructure/nats/retry.go:55-77 | ShouldRetry(d) is d < MaxDeliver for all d if and only if retries are configured |
| RetryPolicy.DelayIsBackoffEntry | infrastructure/nats/retry.go:27-51 | the delay after delivery d is entry d-1 of the backoff, the last entry beyond, the first for a count below one; 1, 5, 30, 120, 600 seconds if none is configured |
| RetryPolicy.PolicyDefaults | infrastructure/nats/retry.go:12-77 | delivery limit, ack wait and retry count, with what stands in for a missing policy |
| RetryPolicy.DefaultScheduleFitsWindow | infrastructure/nats/retry.go:12-51 | the default schedule takes 756 seconds, under the fifteen-minute window |
| DeadLetter.NewMessage | infrastructure/nats/message.go:56-81 | a fresh wrapper around one delivery, or none when the delivery has no metadata |
| DeadLetter.Message.AckMessage | infrastructure/nats/message.go:85-98 | the calls this verdict makes; Verdicts.AckOrTermRemoves says that they remove the message |
| DeadLetter.Message.Nack | infrastructure/nats/message.go:106-141 | a plain or delayed Nak, or dead-lettering, by policy and delivery count; Verdicts.NackRetries and Verdicts.NackGivesUp say what that does |
| DeadLetter.Message.Reject | infrastructure/nats/message.go:145-154 | dead-lettering at once; Verdicts.RejectGivesUp says what that does |
| DeadLetter.Message.Terminate | infrastructure/nats/message.go:159-166 | the calls this verdict makes; Verdicts.AckOrTermRemoves says that they remove the message |
| DeadLetter.Message.CopyHeaders | infrastructure/nats/message.go:178-184 | the first value of every non-empty header, whatever the iteration order |
| DeadLetter.Message.SendToDlqAndAck | infrastructure/nats/message.go:169-224 | Term without a policy, Nak if the record cannot be marshalled, else a publish and then Ack only if confirmed |
| DeadLetter.EveryRunIsSound | infrastructure/nats/message.go:85-224 | in every run no client holds an unjustified Ack or Term, and every record is true |
| DeadLetter.NoMessageIsLost | infrastructure/nats/message.go:85-224 | in every run of server, handler and crash steps a message is still in the stream, or was acknowledged or terminated by a handler, or is in the dead-letter queue, or was given up with no policy set |
| DeadLetter.DeadLettersAreTrue | infrastructure/nats/message.go:106-224 | dead letters carry data and subject unchanged; a Nack makes one only from delivery MaxRetries+1 on; deliveries never exceed the server's limit |
| Verdicts.AckOrTermRemoves | infrastructure/nats/message.go:85-166 | from every reachable state, a message acknowledged or terminated is gone once the call is made, and the queue is as before |
| Verdicts.RejectGivesUp | infrastructure/nats/message.go:145-224 | from every reachable state, a rejected message is removed and the queue gains one record of it, true in every field and published under the policy's subject, if its data is JSON and the publish confirmed; without a policy it is terminated; otherwise it waits to be delivered again |
| Verdicts.NackGivesUp | infrastructure/nats/message.go:106-224 | so is a message Nacked after its last retry |
| Verdicts.NackRetries | infrastructure/nats/message.go:106-141 | one Nacked before waits again, for the delay its delivery count calls for |
| NackedRuns.NackedLeavesAtLastDelivery | infrastructure/nats/message.go:106-141 | in every run, a message only ever Nacked is gone only after exactly MaxRetries+1 deliveries, and then the queue holds it with that count |
| NackedRuns.EveryOrderlyRunHasStage | infrastructure/nats/message.go:106-224 | in every run, among any other traffic, that Nacks each delivery of a message once without crash or ack-wait expiry, the message is in the stage that the number of steps on it says: delivered, Nacked, waiting, published, ended |
| NackedRuns.NackDelaysFollowSchedule | infrastructure/nats/retry.go:36-51 | in every such run the delays asked for are the backoff schedule so far |
| NackedRuns.NackStepsAreBounded | infrastructure/nats/message.go:106-224 | no such run takes more than 3*(MaxRetries+1)+1 steps on the message |
| NackedRuns.NackedEndsInDlqIff | infrastructure/nats/message.go:106-224 | in every such run, when no step on the message is left, it has had MaxRetries+1 deliveries and the whole backoff schedule, and is gone, with its record in the queue, if and only if its data is JSON and the last publish was confirmed; otherwise it is never delivered again |
| NackedRuns.LastNackRemovesIff | infrastructure/nats/message.go:169-224 | in any run at all, the performed Nack of the last allowed delivery removes the message if and only if its data is JSON and the publish is confirmed, says all it leaves behind, and the message is never delivered again |
| NackedRuns.NackedRun | infrastructure/nats/message.go:106-224 | both ends are reached, for any data and any last reply |
| NackedRuns.NonJsonStays | infrastructure/nats/message.go:169-224 | in every run with a dead-letter policy a message that is not JSON stays in the stream and out of the queue until a handler acknowledges or terminates it |
| NackedRuns.JsonRunIsStranded | infrastructure/nats/message.go:169-224 | an example: one refused publish leaves a JSON message in the stream, in no queue and out of deliveries |
| NackedRuns.NackedCanLeaveIff | infrastructure/nats/message.go:106-224 | some run of Nacks alone takes a message out of the stream if and only if its data is JSON |
| DeadLetter.DefaultSubjectIsDocumentedIff | infrastructure/nats/dlq.go:34-39 | the documented default subject is used if and only if the service is called mapexos |
| Consumer.Server.CreateOrGetConsumer | infrastructure/nats/subscribe.go:101-161 | for every combination of failing calls, exactly when setup succeeds and what the server holds then: created, kept, recreated, or deleted without a replacement |
| Consumer.ConfigFollowsOptions | infrastructure/nats/subscribe.go:108-135 | what a new consumer is asked to have: delivery limit, ack wait and pending limit, the policy's ack wait before the options' own |
| Consumer.ConsumerDefaults | infrastructure/nats/consumer.go:55-401 | the pending limit is twice the batch size, at least 128; batch size and retry limit default to 50 and 5 |
| Consumer.DeliveryLimitFollowsPolicyIff | infrastructure/nats/consumer.go:55-72 | room for two batches always; the policy's delivery limit exactly when the consumer was made anew or already had it |
| Consumer.FetchLoop.constructor | infrastructure/nats/consumer.go:387-401 | the defaulted retry limit |
| Consumer.FetchLoop.AsyncFetch | infrastructure/nats/consumer.go:97-112 | one more outstanding prefetch |
| Consumer.FetchLoop.Stop | infrastructure/nats/consumer.go:329-337 | stopped, also when called twice |
| Consumer.FetchLoop.Start | infrastructure/nats/consumer.go:119-169 | for any fetch results and any stop moment: one prefetch outstanding, non-empty batches processed once in order, the retry count a function of the error run and below the limit, stopped exactly when it has returned, and the exact condition for stopping on errors |
| Consumer.ErrorRunCountsFailures | infrastructure/nats/consumer.go:119-169 | the retry count is the number of failed fetches since the last successful one, empty fetches in between changing nothing |
| Consumer.FlightIsFetchLoop | infrastructure/nats/consumer.go:97-169 | in every interleaving of server, prefetch and handlers the batches processed are those the fetch loop makes of the results it takes |
| Consumer.UnsettledIsAccounted | infrastructure/nats/consumer.go:97-169 | in every run, with fetch errors and careless handlers, what was handed over and not settled is the at most two batches held plus what was let go of |
| Consumer.TidyIff | infrastructure/nats/consumer.go:138-169 | nothing is let go of if and only if no fetch error comes with messages and every handler settles its batch; then order is kept too |
| Consumer.InFlightIsBounded | infrastructure/nats/consumer.go:55-169 | in every such run each message is processed once in order or still prefetched, and unsettled messages never exceed 2*BatchSize <= MaxAckPending |
| Transaction.CommitWithRetry | infrastructure/mongodb/manager/internals.go:143-158 | repeats only unknown results; the database changes exactly when the transaction is applied |
| Transaction.RunTransactionWithRetry | infrastructure/mongodb/manager/internals.go:96-140 | refines the specified run; on success exactly the last execution is committed, for any honest server; after a failed function or commit whose abort succeeds nothing is pending |
| Transaction.CommitLoopIsHonest | infrastructure/mongodb/manager/internals.go:143-173 | success means applied, a transient end means not applied |
| Transaction.CommitStopsAtFirstKnown | infrastructure/mongodb/manager/internals.go:143-158 | the commit is repeated exactly while its result is unknown; the first other reply decides, with that very error |
| Transaction.RunStopsAtFirstFinal | infrastructure/mongodb/manager/internals.go:96-140 | for any server: the runner goes round again exactly while attempts end in a transient error of the function or the commit; the first that does not gives the outcome, its own value or its own error |
| Transaction.LabelIsOnFirstError | infrastructure/mongodb/manager/internals.go:161-173 | a label is looked for on the first command error of the chain, and on the first write exception only if there is no command error |
| Transaction.ExactlyOnce | infrastructure/mongodb/manager/internals.go:96-158 | at every moment at most one execution, the last, has taken effect; every earlier one was retried and left nothing; success means exactly the last one |
| Transaction.DishonestServerCommitsTwice | infrastructure/mongodb/manager/internals.go:96-158 | the assumption on the server is needed |
| Backpressure.Tracker.constructor | infrastructure/mongodb/manager/backpressure.go:65-71 | an empty ring at Normal |
| Backpressure.Tracker.Record | infrastructure/mongodb/manager/backpressure.go:75-79 | the ring goes on holding exactly the latest min(k, size) latencies |
| Backpressure.Tracker.CopyPositives | infrastructure/mongodb/manager/backpressure.go:88-94 | the positive samples in slot order |
| Backpressure.Tracker.NearestRank | infrastructure/mongodb/manager/backpressure.go:104-111 | the sort and the index pick the percentile |
| Backpressure.PositivesAreExact | infrastructure/mongodb/manager/backpressure.go:88-94 | exactly the samples above zero are kept, as often as they occur |
| Backpressure.Tracker.ComputeP99 | infrastructure/mongodb/manager/backpressure.go:87-138 | p99 is that of the latest latencies, and the level stays the closed form of all windows so far |
| Backpressure.Tracker.UpdateMode | infrastructure/mongodb/manager/backpressure.go:113-138 | the threshold branches refine one step of the mode machine |
| Backpressure.RingRecords | infrastructure/mongodb/manager/backpressure.go:75-79 | writing one slot keeps the ring holding the latest latencies |
| Backpressure.RingWindow | infrastructure/mongodb/manager/backpressure.go:75-111 | the window read from the rotated ring is that of the latest latencies in order |
| Backpressure.SortIgnoresRotation | infrastructure/mongodb/manager/backpressure.go:104-111 | where the ring starts does not matter to the sorted samples |
| Backpressure.ShareIsCeiling | infrastructure/mongodb/manager/backpressure.go:106-109 | the number of samples taken is ceil(0.99 n) |
| Backpressure.PercentileBounds | infrastructure/mongodb/manager/backpressure.go:104-111 | p99 is a sample with at least ceil(0.99 n) samples at or below it, fewer than that below it, and at most n/100 above |
| Backpressure.PercentileIsTheRank | infrastructure/mongodb/manager/backpressure.go:104-111 | it is the only value of which that is true |
| Backpressure.WindowIsPercentile | infrastructure/mongodb/manager/backpressure.go:87-111 | a window is empty if and only if no sample is positive; otherwise its value is the one positive sample with ceil(0.99 n) of the n positive samples at or below it but fewer below it |
| Backpressure.ModeIsClosedForm | infrastructure/mongodb/manager/backpressure.go:113-138 | in every run, for any thresholds, the mode is the closed form of the two latest run lengths |
| Backpressure.ThreeWindowsMayNotRaise | infrastructure/mongodb/manager/backpressure.go:83-138 | the documented rule fails on mid, high, high |
| Backpressure.ThreeWindowsRaiseIff | infrastructure/mongodb/manager/backpressure.go:83-138 | exactly when three windows above the lower threshold raise the mode |
| Backpressure.RecoveryIsImmediate | infrastructure/mongodb/manager/backpressure.go:96-138 | one low or empty window resets everything |
| TieredCache.Client.StoreL0 | infrastructure/tieredcache/methods.go:271-278 | the value is stored, or refused leaving no older one |
| TieredCache.Client.WriteFiles | infrastructure/tieredcache/internals.go:49-84 | both files and the size, or what each failure leaves |
| TieredCache.Client.ReadFiles | infrastructure/tieredcache/internals.go:87-126 | what is found, what is swept away and the expiry counter, for every fault |
| TieredCache.Client.DeleteFiles | infrastructure/tieredcache/internals.go:129-140 | both files gone and their size deducted |
| TieredCache.Client.Get | infrastructure/tieredcache/methods.go:31-92 | the whole lookup through four tiers with promotion and counters |
| TieredCache.Client.GetRemote | infrastructure/tieredcache/methods.go:60-91 | the remote half of it |
| TieredCache.Client.Set | infrastructure/tieredcache/methods.go:104-134 | argument errors, default lifetimes, both local tiers; the runs' Set step is this very function, so ReadYourWrite and ServedFromRam are about it |
| TieredCache.Client.Delete | infrastructure/tieredcache/methods.go:139-157 | both local tiers; TieredCacheService.DeletedIsNotServed says what that is for |
| TieredCache.Client.GetOrLoad | infrastructure/tieredcache/methods.go:282-315 | a Get, and on a miss a load that is cached and counted |
| TieredCache.Client.Warmup | infrastructure/tieredcache/methods.go:256-267 | one Get for each key in turn |
| TieredCacheRuns.WarmupIsRun | infrastructure/tieredcache/methods.go:256-267 | a Warmup is a run of Gets, so the run theorems cover it |
| TieredCacheRuns.GetOrLoadIsRun | infrastructure/tieredcache/methods.go:282-315 | a GetOrLoad is a run of a Get and, on a miss it can fill, a load |
| TieredCacheRuns.ServedIsFresh | infrastructure/tieredcache/methods.go:31-134 | in every run a value served from L0 or L1 was stored for that key no longer ago than max(its L0 TTL, its L1 TTL + the default L0 TTL) |
| TieredCacheRuns.TiersAgree | infrastructure/tieredcache/internals.go:49-126 | while no write fails before its data file, a key live in both local tiers has the same bytes in both, in every reachable state |
| TieredCacheRuns.FailedWriteKeepsAgreementIff | infrastructure/tieredcache/internals.go:49-84 | exactly when a failed write keeps them in agreement |
| TieredCacheRuns.ReadYourWrite | infrastructure/tieredcache/methods.go:31-134 | after a Set whose files were written, any mix of evictions, Gets and operations on other keys leaves Get returning that value until it expires |
| TieredCacheService.ServedFromRam | infrastructure/tieredcache/methods.go:31-134 | after a Set that L0 admits, and until it is evicted, deleted or stored anew, Get serves exactly that value from L0 for the lifetime asked for or the default one, whatever the disk does |
| TieredCacheService.DeletedIsNotServed | infrastructure/tieredcache/methods.go:139-157 | in every run, after a Delete and until a value is stored for the key again, no Get serves it from L0 or L1 |
| TieredCacheService.FirstTierServes | infrastructure/tieredcache/methods.go:31-92 | the first of L0, L1, loader and fallback that has the value serves it, its own value; a miss only when none has it |
| TieredCacheService.DiskHitIsPromoted | infrastructure/tieredcache/methods.go:44-58 | a value read from disk is served from L0 from then on, with the default lifetime |
| TieredCacheService.ServedRemotelyIsStored | infrastructure/tieredcache/methods.go:60-91 | a value from the loader or the fallback is put into both local tiers with the default lifetimes |
| TieredCacheService.GetOrLoadReturns | infrastructure/tieredcache/methods.go:282-315 | GetOrLoad returns what Get returns or, on a miss, what the loader returns |
| TieredCacheService.LoadedIsStored | infrastructure/tieredcache/methods.go:282-315 | and then that value is in both local tiers |
| TieredCacheService.MissRemovesOnlyJunk | infrastructure/tieredcache/internals.go:87-126 | a miss removes exactly the files that are expired, unreadable or without data, with their size, and leaves the rest as it was |
| TieredCacheService.EmptyKeyDoesNothing | infrastructure/tieredcache/methods.go:31-157 | the empty key is never looked up, stored or deleted |
| TieredCacheService.PrefixesSeparate | infrastructure/tieredcache/internals.go:13-18 | keys of caches with different prefixes never meet, if the prefixes have no colon |
| TieredCacheRuns.EveryRunBalances | infrastructure/tieredcache/methods.go:31-92 | in every run and configuration each lookup is counted once in each enabled tier it reaches |
| TieredCacheRuns.CountersAddUp | infrastructure/tieredcache/methods.go:31-92 | the four identities between hits and misses with all tiers on |
| TieredCacheService.HitIsCounted | infrastructure/tieredcache/methods.go:31-92 | a lookup adds one to the hits of the tier that serves it and to no other |
| TieredCacheService.EveryRunCountsHits | infrastructure/tieredcache/methods.go:31-92 | in every run the hit counters are the numbers of Gets each tier served, the loads of GetOrLoad added to L2 |
| TieredCacheService.ExpiriesAreCounted | infrastructure/tieredcache/internals.go:87-126 | the expiry counter counts the lookups that come to the disk and find the expiry passed |
| TieredCacheRuns.SizeDriftIsOverwrites | infrastructure/tieredcache/internals.go:80-140 | in every run L1Size exceeds the bytes on disk by exactly the bytes that writes replaced |
| CursorPages.FindByCursor | infrastructure/mongodb/model/methods.go:188-284 | every error, the filter written back, and the page for either direction |
| CursorPages.FindWithCursor | infrastructure/mongodb/model/methods.go:542-668 | the missing-options error, or the result with its cursors and flags |
| CursorPages.BuildCursorFilter | infrastructure/mongodb/model/utils.go:98-133 | a copy of the filter with the cursor condition for direction and sort; nothing for an invalid cursor |
| CursorPages.BuildResult | infrastructure/mongodb/model/methods.go:585-668 | trimming, reversal, flags, and cursors that are the ids at the ends of the page |
| CursorPages.CollectRows | infrastructure/mongodb/model/methods.go:585-610 | the rows and the first, last and last-but-one ids |
| CursorPages.ReverseInPlace | infrastructure/mongodb/model/methods.go:258-263 | the swap loop reverses the array |
| CursorListings.CursorCuts | infrastructure/mongodb/model/methods.go:214-232 | on a sorted scan, for any filter, the cursor condition cuts off exactly the part up to the cursor of what the rest of the filter matches |
| CursorListings.CursorReplacesIdCondition | infrastructure/mongodb/model/utils.go:98-133 | a cursor replaces any condition on _id and keeps all others |
| CursorListings.ListingIsExact | infrastructure/mongodb/model/methods.go:188-284 | the listing traversed is the matching documents, each once, in sort order |
| CursorWindows.PageIsWindow | infrastructure/mongodb/model/methods.go:188-284 | every FindByCursor page, for any filter, is the window right after, or right before, the cursor of the listing its request obeys |
| CursorWindows.CutExists | infrastructure/mongodb/model/methods.go:214-232 | every cursor, the id of a document or not, has such a place in the listing |
| CursorWindows.SizeIsUsed | infrastructure/mongodb/model/methods.go:204-557 | FindByCursor uses a size from 1 to 300 as asked for and 25 for any other; FindWithCursor any positive limit and 300 for any other |
| CursorWindows.PageKeepsSize | infrastructure/mongodb/model/methods.go:188-284 | a page never holds more, and reports its size |
| CursorWindows.CursorsAreEnds | infrastructure/mongodb/model/methods.go:616-668 | FindWithCursor's NextCursor and PrevCursor are the ids of the last and the first document shown, given exactly when their flags are set |
| CursorWindows.ForwardFlagsAre | infrastructure/mongodb/model/methods.go:616-653 | going forward from any place, HasNext says whether documents remain and HasPrevious whether a cursor was given |
| CursorWindows.BackwardFlagsAre | infrastructure/mongodb/model/methods.go:616-665 | going back, HasPrevious says whether more than one page precedes the cursor, HasNext whether anything does |
| CursorTraversal.ByCursorTraversesAllIff | infrastructure/mongodb/model/methods.go:188-284 | for any filter, following FindByCursor forward returns every matching document exactly once in order if and only if all matches fit the first page or no document beyond it is let in by forgetting the _id condition |
| CursorTraversal.ByCursorTraversesAll | infrastructure/mongodb/model/methods.go:188-284 | always, for filters that do not name _id |
| CursorTraversal.HarmlessIdConditions | infrastructure/mongodb/model/methods.go:214-232 | that condition holds for an equality on _id and for a bound on the side the client comes from |
| CursorTraversal.FarBoundBreaksTraversal | infrastructure/mongodb/model/methods.go:214-232 | ids 1, 2, 3 under _id < 3, one a page: the client is handed document 3 |
| CursorTraversal.WithCursorTraversesAllIff | infrastructure/mongodb/model/methods.go:542-668 | the same if and only if for FindWithCursor, for any limit and either sort |
| CursorTraversal.WithCursorTraversesAll | infrastructure/mongodb/model/methods.go:542-668 | always, for filters that do not name _id |
| CursorWindows.BackwardUndoesForwardIff | infrastructure/mongodb/model/methods.go:214-274 | a page with a next page is full, and going back from the first id of the next page returns exactly it if and only if it was asked for with a cursor or no document between its ends is let in by forgetting the _id condition |
| CursorWindows.BackwardUndoesForward | infrastructure/mongodb/model/methods.go:214-274 | always, for filters that do not name _id |
| CursorWindows.FlagsAreTruthfulIff | infrastructure/mongodb/model/methods.go:265-274 | for any filter and cursor, exactly when page, HasNext and HasPrev tell the truth about the matching documents |
| CursorWindows.FlagsAreTruthfulAtDocuments | infrastructure/mongodb/model/methods.go:265-274 | they do whenever the cursor is the id of a matching document and the filter does not name _id |
| CursorWindows.PreviousIsReversedHead | infrastructure/mongodb/model/methods.go:542-668 | what FindWithCursor returns going back, for any filter: the head of the listing its request obeys, reversed |
| CursorWindows.PreviousIsPrecedingPageIff | infrastructure/mongodb/model/methods.go:542-668 | for any filter, that is the preceding page if and only if at most one matching document precedes the cursor and no other takes its place |
| CursorWindows.ForgottenListBreaksBack | infrastructure/mongodb/model/methods.go:214-274 | an example: under _id in 1, 3, 4 going back returns 2, 3 for the page 1, 3 |
| CursorWindows.FarCursorMisleads | infrastructure/mongodb/model/methods.go:265-274 | an example: HasPrev is set with nothing before the page |
| CursorWindows.PreviousIsReversed | infrastructure/mongodb/model/methods.go:542-668 | an example: before 3 FindWithCursor shows 2, 1 |
| Traversal.FollowReturnsAll | infrastructure/mongodb/model/methods.go:188-284 | pages that tile a list from any cursor on add up to all of it |
| SqlBuilder.Builder.constructor | infrastructure/clickhouse/model/query_builder.go:20-27 | an empty builder for a table |
| SqlBuilder.Builder.Where | infrastructure/clickhouse/model/query_builder.go:36-47 | the condition's text and one argument, also for BETWEEN |
| SqlBuilder.Builder.WhereFilter | infrastructure/clickhouse/model/query_builder.go:50-58 | the condition's text and its one or two arguments |
| SqlBuilder.Builder.WhereFilters | infrastructure/clickhouse/model/query_builder.go:61-66 | all of them in order |
| SqlBuilder.Builder.BuildSelect | infrastructure/clickhouse/model/query_builder.go:109-147 | the text of the query, clause by clause, with * for no columns and non-positive limits left off |
| SqlBuilder.Builder.BuildCount | infrastructure/clickhouse/model/query_builder.go:150-162 | the text of the count with the same WHERE and arguments |
| SqlBuilder.TextIsWords | infrastructure/clickhouse/model/query_builder.go:36-66 | the WHERE text is the words of its conditions, joined by single blanks |
| SqlBuilder.ParseInvertsWords | infrastructure/clickhouse/model/query_builder.go:36-66 | those words parse back to the conditions: the AND of BETWEEN is never misread |
| SqlBuilder.ParseInvertsTextIff | infrastructure/clickhouse/model/query_builder.go:36-66 | split on blanks and parsed, the WHERE text gives back the conditions if and only if no field name is empty or has a blank |
| SqlBuilder.SpacedFieldIsMisread | infrastructure/clickhouse/model/query_builder.go:38-39 | an example: IN on "x NOT" writes what NOT IN on x writes |
| SqlBuilder.BindGivesFilters | infrastructure/clickhouse/model/query_builder.go:50-66 | binding arguments left to right gives back every filter, none left over |
| SqlBuilder.WhereIsReadBackIff | infrastructure/clickhouse/model/query_builder.go:36-66 | the WHERE text is read back as the conditions, with as many placeholders as arguments, if and only if every field name is not empty and has no blank and no question mark |
| SqlBuilder.WhereMeansConjunction | infrastructure/clickhouse/model/query_builder.go:36-66 | for any filters on such fields the text with its arguments is well formed and means their conjunction |
| SqlBuilder.MarkedFieldIsMalformed | infrastructure/clickhouse/model/query_builder.go:36-47 | a question mark in a field name makes the text malformed |
| SqlBuilder.CountsMatchIff | infrastructure/clickhouse/model/query_builder.go:36-66 | as many placeholders as arguments if and only if no field name has a question mark |
| SqlBuilder.DirectWhereMatchesIff | infrastructure/clickhouse/model/query_builder.go:36-47 | a direct Where keeps them equal if and only if, besides, the operator is not BETWEEN |
| SqlQueries.RenderIsReadBackIff | infrastructure/clickhouse/model/query_builder.go:109-162 | the whole text of a SELECT or COUNT is read back clause by clause if and only if no clause holds a keyword that ends it and the table is a word |
| SqlQueries.ConditionsAreReadableIff | infrastructure/clickhouse/model/query_builder.go:36-66 | for the conditions of filters, if and only if no field is such a keyword |
| SqlQueries.SelectReturnsFiltered | infrastructure/clickhouse/model/query_builder.go:109-147 | the text BuildSelect returns, run with its arguments, gives the rows that pass every filter, ordered and cut by limit and offset |
| SqlQueries.CountIsSelectSize | infrastructure/clickhouse/model/query_builder.go:109-162 | the text BuildCount returns, run with the same arguments, gives the number of rows that the text of BuildSelect gives without limit and offset, which are those passing every filter |
| TimeCursor.FindByCursor | infrastructure/clickhouse/model/methods.go:462-577 | the page, its cursors and flags for both directions and missing options |
| TimeCursor.BuildResult | infrastructure/clickhouse/model/methods.go:514-577 | limit, trimming, flags and cursors |
| TimeCursor.LimitIsUsed | infrastructure/clickhouse/model/methods.go:467-471 | a limit from 1 to 300 is used as asked for; any other, or none, is 20 |
| TimeCursor.CursorsAreEnds | infrastructure/clickhouse/model/methods.go:544-574 | in either direction NextCursor and PrevCursor are the timestamps of the last and the first row shown |
| TimeCursor.TimeTraversalIsCompleteIff | infrastructure/clickhouse/model/methods.go:462-577 | following the time cursor forward returns every row once in order if and only if no page boundary splits equal timestamps |
| TimeCursor.DistinctTimesTraverseAll | infrastructure/clickhouse/model/methods.go:462-577 | distinct timestamps make every limit safe |
| TimeCursor.TieLosesRow | infrastructure/clickhouse/model/methods.go:462-577 | an example: of two rows with one timestamp, one a page, the second is never returned |
| TimeCursor.ForwardFlagsAreTruthfulIff | infrastructure/clickhouse/model/methods.go:555-577 | exactly when HasNext and HasPrevious tell the truth going forward |
| TimeCursor.PreviousIsPrecedingPageIff | infrastructure/clickhouse/model/methods.go:489-577 | going back shows the preceding page if and only if at most one page of rows comes before the cursor |
| TimeCursor.BackwardFlagsAreTruthfulIff | infrastructure/clickhouse/model/methods.go:555-577 | exactly when the flags tell the truth going back |
| Flatten.GetValueByPath | utils/flatten/flatten.go:58-68 | the errors, and the value found through objects and arrays |
| Flatten.ResolvePath | utils/flatten/flatten.go:73-114 | the recursive lookup with its fan-out loop |
| Flatten.ResolveReturnsReached | utils/flatten/flatten.go:73-114 | a lookup returns exactly the values the path reaches with arrays transparent, multi exactly when it meets an array, and fails exactly when nothing is reached and the path does not end on an array |
| Flatten.LookupErrors | utils/flatten/flatten.go:58-68 | exactly when each error is given |
| Flatten.LookupReturnsReached | utils/flatten/flatten.go:58-114 | otherwise a lookup returns all the values its path reaches, as a list exactly when it meets an array |
| Flatten.IndexedAt | utils/flatten/flatten.go:190-204 | array elements are keyed by their decimal index |
| Flatten.IndexedOnly | utils/flatten/flatten.go:190-204 | and by nothing else |
| Flatten.Sink.Emit | utils/flatten/flatten.go:179-189 | one child adds exactly its leaves under its key |
| Flatten.Sink.FlattenInto | utils/flatten/flatten.go:176-208 | for any style and iteration order exactly the keys of the leaves are added to the shared map, each with its leaf; a bare scalar is refused |
| Flatten.FlattenMap | utils/flatten/flatten.go:119-126 | the result is a flattening of the tree, in any style |
| Flatten.FlatKeyIsJoin | utils/flatten/flatten.go:210-235 | in dot style a flat key is the prefix and the path joined with dots |
| Flatten.FlatKeyIsStyled | utils/flatten/flatten.go:210-235 | in any style a flat key is the prefix, the first key as it is, and every further key between the strings of the style |
| Flatten.FlatKeyIsInjective | utils/flatten/flatten.go:210-235 | dot-free paths never share a key |
| Flatten.OneEntryPerLeaf | utils/flatten/flatten.go:119-208 | one entry per leaf |
| Flatten.FlatteningIsUnique | utils/flatten/flatten.go:119-208 | the result does not depend on the map iteration order |
| Flatten.LookupFindsLeafIff | utils/flatten/flatten.go:58-126 | looking up a flat key returns exactly its leaf if and only if the leaf is not below an array and the key is not empty |
| Flatten.EveryEntryLooksUp | utils/flatten/flatten.go:58-126 | on array-free trees with non-empty, dot-free keys every entry is what its key looks up, and every leaf is an entry |
| Shutdown.GroupByPriority | microservices/shutdown/internals.go:5-24 | the hooks, in order, cut into maximal runs of one priority |
| Shutdown.SortedRunsAscend | microservices/shutdown/internals.go:3-24 | on sorted hooks the groups have one priority each, strictly rising |
| Shutdown.ShutdownManager.constructor | microservices/shutdown/shutdown.go:4-6 | no hooks, not terminating |
| Shutdown.ShutdownManager.RegisterFunc | microservices/shutdown/methods.go:32-36 | the hook is appended |
| Shutdown.ShutdownManager.Prepare | microservices/shutdown/methods.go:46-64 | the groups hold exactly the registered hooks in ascending order, and the flag is set |
| Shutdown.EveryRunIsSound | microservices/shutdown/methods.go:66-87 | what every interleaving keeps: lower groups finished, spawned hooks accounted for, the wait group counting them |
| Shutdown.PriorityOrder | microservices/shutdown/methods.go:66-87 | in every interleaving, when a hook starts all hooks of lower priority have finished and it has not started before |
| Shutdown.WholeGroupsRan | microservices/shutdown/methods.go:66-87 | at the end the hooks started are those of the first groups, all finished, and all groups if the deadline did not pass |
| Shutdown.DeadlineStopsGroups | microservices/shutdown/methods.go:66-87 | in every interleaving, a hook called after the deadline belongs to the group that was running when it passed |
| Shutdown.EveryRegisteredHookRan | microservices/shutdown/methods.go:42-90 | within the deadline every registered hook has run |
| Shutdown.NeverStuck | microservices/shutdown/methods.go:66-87 | until the end some step other than the clock is enabled |
| Shutdown.RunsAreFinite | microservices/shutdown/methods.go:66-87 | a bound on the steps of every run, so it ends if every hook returns |

## Left out

- Redis, MinIO, MQTT, HTTP clients, connection setup, middleware, auth, cryptography, reflection, configuration and logging: library calls or single branches.
- MongoDB FindByOffset, ClickHouse FindWithFilters and FindByOffset, WhereMap, WhereLike, WhereRaw, ParseSort, the BuildOrgFilter cases other than the range: they would only add easy members.
- The stream half of createOrGetConsumer (subjects, duplicate window) and option validation.
- DeadLetter.NewMessage: leaves out the index in the batch, which is only logged.
- DeadLetter.Message.SendToDlqAndAck: leaves out the generated id and failure time of a dead letter and the compaction that marshalling applies to its data; a lost Ack is a crash before it.
- Consumer.FetchLoop.AsyncFetch: counts the open prefetch; what it yields is given to Start and, message by message, to the Flight machine.
- Consumer.InFlightIsBounded: holds for tidy runs, because messages returned together with a fetch error, and those a handler leaves unsettled, stay unsettled without bound; UnsettledIsAccounted covers all runs.
- Transaction.RunTransactionWithRetry: leaves out starting and ending the session, and the context's deadline; an abort that fails is a parameter.
- Backpressure.Tracker.Record: leaves out the race between recording and copying and the wrap of the 64-bit position; the ticker is not part of this model.
- TieredCache.Client.StoreL0: knows no admission policy of L0 beyond "may refuse or evict at any time, never keeps an older value after a set".
- TieredCache.Client.WriteFiles: leaves out hash collisions, partial file writes and the external cleanup script; counters do not wrap.
- TieredCacheRuns.TiersAgree: needs both local tiers on and no write failing before its data file; FailedWriteKeepsAgreementIff says what a failure does.
- CursorPages.FindByCursor: leaves out decoding errors, hexadecimal ids (an id is a number or invalid), projections, and overflow of limit + 1; a condition is an equality, a bound or a list of values.
- CursorWindows.FlagsAreTruthfulAtDocuments: filters that name _id are left to FlagsAreTruthfulIff, which gives their exact condition.
- SqlBuilder.WhereMeansConjunction: field names that are empty or have a blank or a question mark are left out, because their text does not read back as the filters (WhereIsReadBackIff); the lexer knows blanks only, so other SQL punctuation in a name ("x--") counts as part of it, and quoting and types of values are not modelled.
- SqlQueries.SelectReturnsFiltered: which columns of a row are returned is not modelled, nor are queries whose pieces hold keywords or question marks; RenderIsReadBackIff says what becomes of keywords.
- TimeCursor.FindByCursor: the rows given have already passed the caller's filters; extraction of the timestamp by reflection is left out.
- TimeCursor.TimeTraversalIsCompleteIff: every request is taken to order rows with equal timestamps alike, which ORDER BY on the timestamp alone does not promise.
- Flatten.Sink.FlattenInto: objects and arrays go through one loop over their named children, in any order; the source has one loop for each.
- FlattenString: JSON text.
- Shutdown.ShutdownManager.Prepare: leaves out the signal, logging, hooks registered while the sequence runs (the copy is taken before), and the errors hooks return, which are only logged.
