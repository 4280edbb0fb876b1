# A verified model of the directory's routing index, event bus and search pipeline

The directory stores agent records by content identifier (CID), announces them to
other peers with labels such as `/skills/...`, and answers label queries, natural
language searches and catalogue listings. This project models the parts of it whose
correctness spans several operations, and proves what they keep over every run or
every input.

| file | what it models |
|---|---|
| `Basics.dfy`, `Text.dfy`, `Ordering.dfy` | options, sequences as sets, Go's string operations, sorting under a strict total order |
| `Labels.dfy`, `Segments.dfy`, `Matching.dfy` | label values, their path segments, datastore keys, query matching, query de-duplication |
| `Index.dfy`, `IndexRuns.dfy`, `IndexTheorems.dfy`, `IndexMetrics.dfy`, `Publishing.dfy` | the label index as a state machine over one key-value store |
| `RoutingNode.dfy`, `Answers.dfy` | the handlers, List and Search as imperative code over that store |
| `EventBus.dfy`, `EventBusSafety.dfy`, `EventBusAccounting.dfy`, `EventBusDelivery.dfy` | the event bus as an interleaved protocol |
| `FanOut.dfy`, `FanOutMeaning.dfy`, `Paging.dfy` | search fan-out, ranking, page tokens |
| `FilterParser.dfy`, `FilterRoundTrip.dfy`, `FilterGrammar.dfy` | the catalogue filter parser, a printer for it, and the language it accepts |
| `ScanMerge.dfy`, `Retry.dfy` | merging scan results, retry back-off |
| `YamlInline.dfy`, `YamlSections.dfy` | preserving unknown sections of the client config file: inlining aliases, capturing and writing sections |
| `YamlText.dfy`, `YamlReload.dfy`, `YamlNames.dfy`, `YamlAliases.dfy`, `YamlMeaning.dfy`, `YamlExamples.dfy` | reading the written file again, where an alias stands for the last anchor of its name: what comes back, when the file loads, what it means, and the documents that go wrong |

The main results, in the order of the table:

- **Refinement over runs.** Every key of the store, after any sequence of publish,
  unpublish, announcement, provider notice, stale cleanup and orphan cleanup steps, is
  determined by a small view: the published CIDs and one metadata cell per (CID, remote
  peer) (`RunRepresents`). The local index invariant, all-or-nothing caching,
  confluence of announcements, monotone `LastSeen` and the exact condition under which
  cached labels survive cleanups are read off it. The imperative handlers perform
  exactly these steps, and List and Search return exactly the records that a
  specification over the view selects, down to the values that a record lists.
- **Concurrency.** In every interleaving of publishers, deliveries, subscribers and
  consumers the bus never sends on or closes a closed channel, delivers an event at
  most once and only past the filters, keeps each channel first in first out, and its
  counters balance. Once a publication has finished, everyone who subscribed before it
  and stays has every event that passes the filters, or a drop for a full channel.
- **Determinism.** The search ranking is the only strictly ordered listing of the CIDs
  found, whatever order the concurrent queries finish in; and following page tokens
  visits it once, in order, whatever page sizes are asked for.
- **Round trips.** Label keys, page tokens and filters parse back to what was printed,
  each with its exact condition; nested scan merges equal one flat merge; alias
  inlining preserves meaning to every depth; and a config file that is loaded, saved
  and loaded again has the same unknown sections under an exact condition on the
  document. Where that fails, the written file still loads under another exact
  condition, and means the same whenever each of its aliases finds the node it was.
- **Languages.** The page tokens and the filters that are accepted are exactly those of
  a grammar.

## What the code does not do

Some properties that one would expect fail on some inputs. The code is modelled as it
is; each case has the exact condition.

- A List request whose only query is nil rejects every record, while two nil queries
  accept every record: nil queries are dropped only when there is more than one query
  (`DedupKeepsAnd`, `ListRefines`; `LoneNil`).
- Labels announced with a timestamp ahead of the receiver's clock are deleted by the next
  cleanup however fresh they are, unless a provider notice has caught up with the
  timestamp before (`KeptIffValid`, `CachedLabelsSurvive`; `AheadOfTheClock`).
- Label counters drift when a record that is not published is unpublished and shares a
  counted label with a published one, and when orphan cleanup removes a published
  record that has labels (`ExactStepIff`; `UnpublishDrifts`, `OrphanCleanupDrifts`).
- A label whose value is empty or has a dot segment is not filed under its key,
  because the datastore cleans key paths (`FiledIffGood`; `DotSkillIsNotFiled`).
- An announced label whose key is cleaned into a path below `/records/` adds a record
  marker of its own to the store (`GossipKeepsLocalIff`; `RecordsLabelIsMarker`). Labels
  without empty and dot segments never do (`AdmissibleKeepsLocal`).
- A normalised label value keeps inner edge whitespace that a second normalisation
  removes (`NormalizeFixedPoint`; `SpaceBehindSlash`), and a leading slash in front of a
  value that begins with the namespace's own name is not dropped
  (`LeadingSlashSpelling`; `NamespaceLookalike`).
- A CID's hit count exceeds the number of signals that matched it when a search
  repeats the CID (`CountsAreSignals`; `RepeatCountsTwice`).
- The retry delay is the capped power of two for every failure count only if no power
  of two of `RetryBase` lies from 2^62 nanoseconds up to `RetryMax`; otherwise doubling
  overflows into a negative delay (`DelayIsCappedPower`; `OverflowSchedulesInThePast`).
- Merging several nil results gives a skipped result, which makes an otherwise complete
  merge partial, and a complete merge drops the reasons of its inputs, which a flat merge
  would pass on (`MergeFlattens`, `NestedMerges`; `NilsMakePartial`, `LostReason`).
- The comment at utils/scanner/scanner.go:174-175 says that merging passes a skip reason
  on only when every input was skipped; the code also does so for partial results, and
  the model follows the code (`MergeMeaning`; `PartialPassesReason`).
- A quoted filter value loses its outer whitespace (`RoundTrip`; `OuterSpaceIsLost`),
  although the comment at server/controller/ai_finder_filter.go:313-315 presents trimming
  as a property of unquoted values.
- The filter grammar at server/controller/ai_finder_filter.go:20-24 has a clause after
  each AND and either a quoted or an unquoted token; the code drops blank text between
  and after ANDs, and adds what follows a quoted string to it (`AcceptedExactly`,
  `ValuesExactly`; `TrailingAnd`, `DoubledAnd`, `QuotedTailIsAdded`).
- A top-level config key that is a YAML alias is looked up by the name of its anchor, so
  its section can be dropped (`UnknownSectionsSurvive`; `AliasKeyLosesSection`), written
  beside the known section it reads as, or written beside another section with the same
  key (`SavedKeysDistinct`; `AliasKeyIsDoubled`, `AliasKeyRepeats`).
- A section with a cycle keeps a reference into the old document, and loading and saving
  wraps it once more each time (`SaveThenLoad`; `LoopGrows`).
- An alias inside such a cycle that refers out of it can be written without its anchor.
  Then the file cannot be loaded (`SavedParsesIff`, `SavedParsesIffInward`;
  `OutwardAliasDangles`), which is what the comment at client/config/config.go:245-251
  wants to prevent; or the alias finds another anchor of the same name and is read as a
  different value (`SavedMeaning`, `ResolvesIffEach`; `OutwardAliasIsMisread`).

## Assumptions

- Content addressing: a CID determines the labels of its record, so an announcement for
  a CID carries those labels (`Admissible`). CIDs and peer identifiers are single path
  segments, and in the results over runs labels have no empty and no dot segment.
- Times are integer nanoseconds, 0 is the zero time, and each handler reads the clock once.
- YAML nodes are numbered in document order and each stands in one place, the decoder
  admits no two top-level keys of the same kind and value, and the encoder emits each
  known key at most once and shares nothing.
- Strings are sequences of Unicode code points.
- Every handler call is one atomic step on the datastore.

## Model

| member | source | states |
|---|---|---|
| Labels.NormalizeValue | server/types/label.go:65-79 | repeating the double-slash replacement until none is left gives the collapsed, prefix-stripped, slash-trimmed value, and ends |
| Labels.PassKeepsCollapse | server/types/label.go:68-71 | one replacement pass does not change the value with every run of slashes collapsed |
| Labels.PassHalvesRuns | server/types/label.go:68-71 | one replacement pass halves each run of slashes, rounding up |
| Labels.NormalizeShape | server/types/label.go:65-79 | a normalised value has no doubled slash and no slash at either end |
| Segments.CollapseKeepsParts | server/types/label.go:68-71 | collapsing keeps the first segment, all non-empty segments in order, and both end characters |
| Segments.NormalizeByParts | server/types/label.go:65-79 | the normalised value is the non-empty segments of the trimmed value joined by slashes, without the namespace's name if the value begins with a slash, that name and another slash |
| Labels.NormalizeFixedPoint | server/types/label.go:65-79 | normalising twice equals normalising once exactly when the first result has no whitespace at its ends |
| Labels.QualifiedSpelling | server/types/label.go:53-87 | for every canonical value the namespaced and the bare spelling normalise alike, and the query target is the label key |
| Labels.LeadingSlashSpelling | server/types/label.go:53-79 | a leading slash is dropped exactly when it does not make the value begin with the namespace prefix |
| Labels.SpaceBehindSlash | server/types/label.go:65-79 | a slash and a space before a value: the first normalisation leaves the space, the second removes it |
| Labels.NamespaceLookalike | server/types/label.go:61-79 | a value that begins with its namespace's name is kept, and with a leading slash loses that name |
| Labels.ParseBuild | server/routing/label_utils.go:18-63 | parsing a built key returns the label, CID and peer, however many segments the label has |
| Labels.BuildParse | server/routing/label_utils.go:18-63 | every key that parses is rebuilt exactly from its parts |
| Labels.KeysInjective | server/routing/label_utils.go:18-20 | two keys are equal exactly when label, CID and peer are |
| Labels.NewKeyIdentity | server/routing/routing_local.go:100-103 | the datastore leaves a key alone exactly when it is a clean rooted path |
| Labels.NewKeyIdempotent | server/routing/routing_local.go:100-103 | cleaning a key twice is cleaning it once |
| Labels.CleanLast | server/routing/routing_local.go:100-103 | from the end of the path: cleaning drops empty and `.` segments, and `..` takes away the segment before it |
| Labels.LabelsExactly | server/types/label.go:214-240 | extraction gives each label as often as the record lists values with it, and no other label |
| Labels.LabelListed | server/types/label.go:214-240 | a label is extracted exactly when some listed value of some type has it |
| Labels.GoodLabelKey | server/types/label.go:45-51 | an extracted label keeps its key exactly when its normalised value is not empty and has no dot segment |
| Matching.QueryMatchesLabels | server/routing/query_matching.go:60-162 | the loops accept exactly when some label matches the query: equal or below the target within the query's type, equal only for locators |
| Matching.AnyPathMatches | server/routing/query_matching.go:66-88 | one such loop |
| Matching.MatchBySegments | server/routing/query_matching.go:60-162 | a skill, domain or module query matches a label exactly when the types agree and its segments are a prefix of the label's segments |
| Matching.MatchLocator | server/routing/query_matching.go:60-162 | a locator query matches exactly the equal locator |
| Matching.QueryMeaning | server/routing/query_matching.go:60-162 | skill, domain and module queries match exactly when some label in that namespace lies at or below the normalised value, locators exactly the equal one, unspecified always, unrecognised and nil never |
| Matching.RecordAnswers | server/routing/query_matching.go:60-162 | the labels of a record match a query exactly when the record lists a value of that type at or below the one asked for, or for locators an equal one |
| Matching.TypeOfPrefixed | server/types/label.go:134-149 | a label built in a namespace is recognised as of that type, and of no other |
| Matching.DeduplicateQueries | server/routing/utils.go:30-55 | the loop returns the first occurrence of every non-nil query, in order |
| Matching.Firsts | server/routing/utils.go:38-54 | de-duplication keeps exactly the non-nil queries, each once |
| Matching.FirstsInOrder | server/routing/utils.go:38-54 | what is kept are the first occurrences, in the order of the request |
| Matching.DedupKeepsAnd | server/routing/utils.go:27-55 | de-duplication leaves the AND filter's answer unchanged for all label sets exactly when the request is not one lone nil query |
| Matching.ScoreCountsDistinct | server/routing/routing_remote.go:467-491 | the score is the number of distinct matching queries, so repeats and nils never add to it |
| Matching.SafeUint32 | server/routing/utils.go:15-25 | values in the 32-bit range are kept, others go to the nearer end |
| IndexRuns.StepRepresents | server/routing/routing_remote.go:723-947 | each handler changes the whole store as the view says, for every key |
| IndexRuns.RunRepresents | server/routing/routing_local.go:40-309 | over every run of all six steps the store is exactly what the view determines, key by key and value by value |
| IndexRuns.EmptyRepresents | server/routing/routing_local.go:40-125 | an empty store represents the empty view |
| IndexRuns.CachedIffCell | server/routing/routing_remote.go:836-857 | the cached-record check holds exactly when the pair has a cell |
| IndexTheorems.LocalIndexInvariant | server/routing/routing_local.go:40-309 | in every reachable store a local label key exists exactly when the record's marker does and the record carries the label |
| IndexTheorems.FiledIffGood | server/routing/routing_local.go:86-110 | into any store, publishing an unpublished record stores a listed value under its label key exactly when the counters load and the normalised value is not empty and has no dot segment |
| IndexTheorems.DotSkillIsNotFiled | server/routing/routing_local.go:100-110 | the skill `..` is extracted and published, and its key is absent |
| IndexTheorems.RemoteStepsKeepLocal | server/routing/routing_remote.go:723-1004 | for any store and any content, announcements and notices from a peer named by a path segment other than `metrics` change no counter and no label of this node, and stale cleanup no record marker either |
| IndexTheorems.GossipKeepsLocalIff | server/routing/routing_remote.go:881-947 | an announcement leaves all local keys alone exactly when no label's key is cleaned into a path below `/records/` that does not hold the same metadata already |
| IndexTheorems.RecordsLabelIsMarker | server/routing/routing_remote.go:907-941 | the label `/records` with the CID `.` is stored as a record marker |
| IndexTheorems.AdmissibleKeepsLocal | server/routing/cleanup_tasks.go:249-356 | announcements of a record's own labels, notices and stale cleanup change no local key and no local value, record markers included |
| IndexTheorems.AllOrNothing | server/routing/routing_remote.go:723-947 | every reachable store caches all labels of a pair or none, all with the same metadata |
| IndexTheorems.CellProjection | server/routing/routing_remote.go:723-1004 | what happens to one remote pair depends only on the steps that concern it |
| IndexTheorems.Confluence | server/routing/routing_remote.go:723-947 | any order and repetition of announcements and notices ends with the record's labels cached exactly when one of them carried the labels |
| IndexTheorems.LastSeenNeverDecreases | server/routing/routing_remote.go:950-1004 | under a clock that does not run backwards a pair's last-seen time never decreases, even across deletion and return |
| IndexTheorems.StoredLastSeenNeverDecreases | server/routing/routing_remote.go:907-1004 | in the store, a label entry present before and after a run has not gone back in time |
| IndexTheorems.CleanStaleExact | server/routing/cleanup_tasks.go:249-356 | stale cleanup keeps exactly the local keys and the valid remote entries within the maximum age |
| IndexTheorems.CleanStaleAnywhere | server/routing/cleanup_tasks.go:249-356 | in any store exactly these stay: keys outside the namespaces, this node's label keys, and keys that parse and were seen within 72 hours with a set time not after that |
| IndexTheorems.CleanOrphanAnywhere | server/routing/cleanup_tasks.go:372-447 | in any store exactly these go: the record's marker, this node's label keys of the record, and namespaced keys that do not parse |
| IndexTheorems.KeptIffValid | server/routing/cleanup_tasks.go:249-356 | whatever the clocks do, an entry survives every cleanup of a run exactly when each finds the last gossip's timestamp and the last announcement's time valid and young enough |
| IndexTheorems.KeptIffRefreshed | server/routing/constants.go:45-47 | with clocks that agree, that is exactly when each cleanup comes within the maximum age of the last refresh |
| IndexTheorems.NeverLostIsAllPrefixes | server/routing/cleanup_tasks.go:249-356 | surviving the run is the same as being present after every prefix of it |
| IndexTheorems.CachedLabelsSurvive | server/routing/cleanup_tasks.go:249-356 | in the store itself, cached labels are there after every prefix of any run exactly when every cleanup finds their metadata valid and young enough |
| IndexTheorems.CachedLabelsRefreshed | server/routing/cleanup_tasks.go:249-356 | with clocks that agree, exactly under the refresh condition |
| IndexTheorems.AnnouncedThenCleaned | server/routing/pubsub/events.go:80-98 | one accepted announcement and a cleanup: kept exactly when the timestamp is set and not ahead of the receiver's clock and the cleanup is in time |
| IndexTheorems.AheadOfTheClock | server/types/label.go:177-191 | a peer's clock ahead: its fresh labels are deleted, and a provider notice in between saves them |
| IndexMetrics.IncrementTotals | server/routing/metrics.go:42-55 | publishing adds each label's multiplicity to its counter |
| IndexMetrics.DecrementTotals | server/routing/metrics.go:57-75 | unpublishing subtracts it, stopping at zero |
| IndexMetrics.PublishExact | server/routing/routing_local.go:83-121 | publishing a record keeps exact counters exact |
| IndexMetrics.UnpublishExact | server/routing/routing_local.go:251-309 | unpublishing keeps them exact exactly when the record was published or shares no counted label |
| IndexMetrics.OrphanExact | server/routing/cleanup_tasks.go:372-447 | orphan cleanup keeps them exact exactly when the record is unpublished or has no labels |
| IndexMetrics.TotalsAfter | server/routing/metrics.go:97-117 | how each kind of step changes the stored counters |
| IndexMetrics.ExactStepIff | server/routing/routing_local.go:83-309 | exact counters stay exact after a step exactly when the step is not one of the two drifting kinds |
| IndexMetrics.ExactRun | server/routing/metrics.go:42-75 | over every run without those steps each counter is the number of published label occurrences |
| IndexMetrics.UnpublishDrifts | server/routing/routing_local.go:251-309 | unpublishing a record never published takes away the count of a published one |
| IndexMetrics.OrphanCleanupDrifts | server/routing/cleanup_tasks.go:372-447 | orphan cleanup of a published record leaves its count behind |
| Publishing.PublishExactly | server/routing/routing_local.go:40-125 | in any store: nothing happens without a CID, with counters that do not decode or if the marker is there; else the marker and one timed key per listed value are new, every counter grows by the number of listed values with that label, and nothing else changes |
| Publishing.UnpublishExactly | server/routing/routing_local.go:251-309 | in any store with positive counters: exactly the marker and the keys of the listed values go, and every counter shrinks by the number of listed values with that label, down to zero |
| RoutingNode.Node.constructor | server/routing/routing_local.go:32-38 | a node starts with an empty store |
| RoutingNode.Node.QueryAllNamespaces | server/routing/routing_remote.go:51-96 | the four prefix queries return every namespaced key once |
| RoutingNode.Node.Publish | server/routing/routing_local.go:40-125 | the batch performs the publish step on the store |
| RoutingNode.Node.Unpublish | server/routing/routing_local.go:251-309 | the batch performs the unpublish step |
| RoutingNode.Node.CacheLabels | server/routing/routing_remote.go:907-941 | the loop stores all labels of a pair with one metadata value |
| RoutingNode.Node.HandleRecordPublishEvent | server/routing/routing_remote.go:881-947 | performs the announcement step |
| RoutingNode.Node.HasRemoteRecordCached | server/routing/routing_remote.go:836-857 | true exactly when some key belongs to the pair |
| RoutingNode.Node.UpdateRemoteRecordLastSeen | server/routing/routing_remote.go:950-1004 | refreshes exactly the pair's keys |
| RoutingNode.Node.HandleProviderNotice | server/routing/routing_remote.go:723-832 | performs the provider-notice step, with the pull fallback |
| RoutingNode.Node.CleanupStaleRemoteLabels | server/routing/cleanup_tasks.go:249-356 | performs the stale-cleanup step |
| RoutingNode.Node.CleanupLabelsForCid | server/routing/cleanup_tasks.go:372-447 | performs the orphan-cleanup step and reports success |
| RoutingNode.Node.GetLabels | server/routing/routing_local.go:221-249 | returns exactly the labels stored for the pair, each once |
| RoutingNode.Node.MatchesAllQueries | server/routing/query_matching.go:32-53 | true exactly when every query matches the stored labels |
| RoutingNode.Node.List | server/routing/routing_local.go:128-209 | each answer once, each matching with its stored labels, as many as the limit allows, all of them without a limit |
| RoutingNode.ListedIsMarked | server/routing/routing_local.go:154-209 | in any store, whatever is listed has a record marker and a CID that is not empty |
| RoutingNode.Node.CalculateMatchScore | server/routing/routing_remote.go:467-491 | the matching queries in order and their capped count |
| RoutingNode.Node.Search | server/routing/routing_remote.go:360-463 | one answer per CID from a pair that reaches the threshold, with its matched queries and score, as many as the limit allows, every such CID without a limit |
| Answers.LabelsInLive | server/routing/routing_remote.go:494-516 | the labels stored for a live pair are its record's labels |
| Answers.PairsAreCells | server/routing/routing_remote.go:395-463 | the pairs found by scanning are the view's cells |
| Answers.ListRefines | server/routing/routing_local.go:128-209 | List selects exactly the published records that satisfy all queries, exactly when the request is not a lone nil query or nothing is published |
| Answers.LoneNil | server/routing/utils.go:30-36 | a lone nil query rejects everything although it asks for nothing |
| Answers.ListAnswers | server/routing/routing_local.go:128-209 | a record is listed for one query exactly when it is published and lists a value that the query asks for |
| Answers.SearchAnswers | server/routing/routing_remote.go:360-463 | a record is found for one query exactly when some remote peer is cached for it, it lists a value that the query asks for, and no more than one match is required |
| Answers.SearchRefines | server/routing/routing_remote.go:360-463 | Search selects exactly the remote CIDs whose labels match enough distinct queries |
| EventBus.FiltersMeanRequest | server/events/filters.go:21-99 | the built filters accept an event exactly when each kind of criterion given is met by one of its values |
| EventBus.ContainsIsInside | server/events/filters.go:79-99 | a label passes a part exactly when the part stands somewhere inside it |
| EventBusSafety.SendsDoNotPanic | server/events/bus.go:93-171 | in a safe state no delivery sends on a closed channel |
| EventBusSafety.ClosesDoNotPanic | server/events/bus.go:221-247 | in a safe state no close hits a closed channel |
| EventBusSafety.OpSnapshotKept | server/events/bus.go:221-247 | waiting for in-flight deliveries before the close leaves every snapshot sendable |
| EventBusSafety.TaskKeepsSafe | server/events/bus.go:59-171 | every step of a publication keeps the invariant |
| EventBusSafety.OpKeepsSafe | server/events/bus.go:189-247 | every step of subscribe and unsubscribe keeps it |
| EventBusSafety.StepKeepsSafe | server/events/bus.go:59-247 | every action keeps it |
| EventBusSafety.RunsAreSafe | server/events/bus.go:59-247 | in every interleaving nothing ever panics |
| EventBusAccounting.StepKeepsBooks | server/events/bus.go:59-247 | every action keeps the balance of logs, channels and counters |
| EventBusAccounting.RunsBalance | server/events/bus.go:59-247 | in every reachable state the counters plus what is owed equal the log, channels are first in first out and lose nothing |
| EventBusAccounting.DeliveryGuarantees | server/events/bus.go:46-273 | at most one delivery per event and subscriber, only past its filters, bounded buffers, exact totals whenever the WaitGroup is at zero, exact subscriber count when the lock is free |
| EventBusDelivery.StepKeepsDelivery | server/events/bus.go:59-247 | every action keeps this: each subscriber of a snapshot is still to come, has the event or its drop, does not want it, or was cancelled; and nobody outside the snapshot has anything |
| EventBusDelivery.FinishedIsServed | server/events/bus.go:93-171 | once a publication has finished, every subscriber of its snapshot whose filters pass has the event enqueued or dropped, unless cancelled, and nobody else has |
| EventBusDelivery.StayingIsServed | server/events/bus.go:93-171 | for a subscriber who never unsubscribes: enqueued or dropped exactly when it was in the snapshot and the filters pass |
| EventBusDelivery.SnapshotStep | server/events/bus.go:105-115 | a snapshot is the registry of the moment, each subscriber once, and is never taken again |
| EventBusDelivery.EarlySubscribersAreServed | server/events/bus.go:46-171 | whoever subscribed before the publication and never unsubscribes has an outcome exactly when the filters pass |
| EventBusDelivery.LateSubscribersGetNothing | server/events/bus.go:93-171 | whoever subscribes after the publication has finished never gets it |
| EventBusDelivery.DropsMeanFull | server/events/bus.go:140-158 | an event is dropped only in a state where the channel is full and not cancelled, and enqueued only where there is room or a receiver waits |
| EventBusDelivery.CancelledIsSkipped | server/events/bus.go:123-131 | once cancelled, a subscriber is skipped for good by every delivery that has not yet passed its check |
| EventBusDelivery.FiltersAreRequested | server/events/bus.go:189-219 | every subscription passes exactly the events that the request it was made with asks for |
| EventBusDelivery.GoneIsClosed | server/events/bus.go:221-247 | every subscription is registered, being taken down by some call, or closed |
| EventBusDelivery.NeverStuck | server/events/bus.go:93-171 | a delivery can always take its next step, except that it may wait for the write lock |
| EventBusDelivery.OnlyValidEvents | server/events/bus.go:59-66 | exactly the events with an identifier, a type, a resource and a time are published |
| FanOut.CollectSignalCids | utils/nlsearch/fanout.go:145-193 | a keyword yields the de-duplicated union of its two searches, or an error if either fails |
| FanOutMeaning.OutcomeMeaning | utils/nlsearch/fanout.go:141-193 | a keyword fails exactly when its name or its description search fails, and otherwise has each CID of either once; any other signal has the outcome of its one search |
| FanOut.FirstSeen | utils/nlsearch/fanout.go:179-192 | the union holds every CID found, each once |
| FanOut.QueryAll | utils/nlsearch/fanout.go:77-95 | whatever order the queries finish in, each slot holds its own signal's outcome |
| FanOut.CountHit | utils/nlsearch/fanout.go:105-124 | the accumulators hold the count, the labels and the score sum of every CID so far |
| FanOut.FanOutAndScore | utils/nlsearch/fanout.go:70-139 | the result is the ranking of the outcomes |
| FanOut.RankStrictTotal | utils/nlsearch/fanout.go:126-136 | count, then score, then CID is a strict total order |
| FanOut.RankingIsTheOrder | utils/nlsearch/fanout.go:62-139 | every CID of a successful signal once, strictly ordered, and no other such listing exists |
| FanOutMeaning.RankingMeaning | utils/nlsearch/fanout.go:62-139 | in terms of the searches alone: which CIDs are ranked, by hits, then summed score, then CID; the hit count and the signal labels of each; and the count and failure of each signal |
| Ordering.LessIsFirstDifference | utils/nlsearch/fanout.go:135 | one CID is smaller than another exactly when at the first difference it ends or has the smaller character |
| FanOut.CountsAreSignals | utils/nlsearch/fanout.go:105-124 | a hit count is at least the number of matching signals, and equal exactly when no successful search repeats the CID |
| FanOut.RepeatCountsTwice | utils/nlsearch/fanout.go:105-124 | one signal whose search repeats a CID counts it twice |
| FanOut.CountsAddUp | utils/nlsearch/fanout.go:105-124 | the hit counts add up to the number of results returned |
| Paging.ClampPageSize | server/controller/ai_finder_paging.go:30-39 | none asked for gives the default, sizes in range are kept, larger ones are cut to the maximum |
| Paging.TokenRoundTrip | server/controller/ai_finder_paging.go:131-160 | every positive offset decodes from its token |
| Paging.DecodeExact | server/controller/ai_finder_paging.go:141-160 | the accepted tokens are exactly the empty one and the spellings of 64-bit offsets, with sign and leading zeros, that are not too long |
| Paging.TokensMoveForward | server/controller/ai_finder_search.go:99-128 | a page either ends the listing with the rest of it or is full and its token points strictly forward inside the ranking, also where the sum wraps |
| Paging.WalkVisitsAll | server/controller/ai_finder_search.go:99-128 | following tokens from the start concatenates to the ranking, for any page sizes |
| Paging.HydrateInRankOrder | server/controller/ai_finder_search.go:168-197 | the page has exactly the CIDs with an entry, at increasing positions of the ranking, each with the last entry for it |
| FilterParser.SplitFilterClauses | server/controller/ai_finder_filter.go:208-294 | the index loop scans as the recursive scanner does, quotes and keyword included |
| FilterParser.SplitAtFirstEqual | server/controller/ai_finder_filter.go:298-311 | splits at the first unquoted equals sign, if any |
| FilterParser.ParseValueList | server/controller/ai_finder_filter.go:318-378 | the loop reads as the recursive value scanner does, with all its errors |
| FilterParser.ReadClause | server/controller/ai_finder_filter.go:108-134 | one clause's field and values, or its rejection |
| FilterParser.ParseAgentFilter | server/controller/ai_finder_filter.go:89-142 | the whole filter: length limit, empty input, duplicate fields, rejected clauses |
| FilterParser.Rejected | server/controller/ai_finder_filter.go:107-139 | one rejected clause rejects the filter |
| FilterRoundTrip.SplitPrinted | server/controller/ai_finder_filter.go:208-294 | a printed filter is cut exactly between its clauses, whatever its quoted values contain |
| FilterRoundTrip.ReadValues | server/controller/ai_finder_filter.go:318-378 | a printed value list reads back trimmed, and is rejected exactly when a value is blank |
| FilterRoundTrip.ReadBareValues | server/controller/ai_finder_filter.go:318-378 | a list of unquoted values reads back trimmed, and is rejected exactly when a value is blank or holds an equals sign |
| FilterRoundTrip.PrintThenParse | server/controller/ai_finder_filter.go:89-142 | a printed filter is accepted exactly when it fits, repeats no field and has acceptable non-blank values, and then gives the trimmed values |
| FilterRoundTrip.RoundTrip | server/controller/ai_finder_filter.go:89-142 | printing and parsing is the identity exactly when every value is non-empty and trimmed |
| FilterRoundTrip.OuterSpaceIsLost | server/controller/ai_finder_filter.go:318-378 | a quoted value with a leading space comes back without it |
| FilterRoundTrip.ParsedShape | server/controller/ai_finder_filter.go:89-142 | every accepted filter has distinct fields and non-empty lists of non-empty, trimmed, quote-free values |
| FilterRoundTrip.Reprint | server/controller/ai_finder_filter.go:383-469 | every accepted filter over known fields, printed within the limit, parses to itself |
| FilterGrammar.ValuesExactly | server/controller/ai_finder_filter.go:318-378 | the accepted value lists and their values are exactly those of a grammar of open and quoted items |
| FilterGrammar.ClauseExactly | server/controller/ai_finder_filter.go:298-378 | the accepted clauses are exactly a field, an unquoted equals sign and such a list |
| FilterGrammar.SplitExactly | server/controller/ai_finder_filter.go:208-294 | the clause scanner accepts exactly texts made of pieces between whitespace and AND, not all blank, and returns the non-blank ones |
| FilterGrammar.AcceptedExactly | server/controller/ai_finder_filter.go:89-142 | the accepted filters and their clauses are exactly those of the grammar within the length limit, with distinct fields that applyClause takes |
| FilterGrammar.LengthInBytes | server/controller/ai_finder_filter.go:89-95 | the length that is limited is that of the UTF-8 encoding |
| FilterGrammar.TrailingAnd | server/controller/ai_finder_filter.go:89-142 | `type=a AND` is accepted as the one clause |
| FilterGrammar.DoubledAnd | server/controller/ai_finder_filter.go:89-142 | `type=a AND AND safe=b` is accepted as the two clauses |
| FilterGrammar.QuotedTailIsAdded | server/controller/ai_finder_filter.go:318-378 | `type="a"b` is accepted with the value `ab` |
| ScanMerge.PickFailureReason | utils/scanner/scanner.go:276-294 | the first real failure, else the first reason |
| ScanMerge.UnionAnalyzers | utils/scanner/scanner.go:300-321 | the names of all results, sorted, each once |
| ScanMerge.MergeResults | utils/scanner/scanner.go:328-396 | the merged result is the finished summary of its inputs |
| ScanMerge.MergeMeaning | utils/scanner/scanner.go:323-396 | skipped exactly when all skipped, partial exactly when some but not all lacked coverage, safe exactly when all that ran were safe and nothing was found; skipped and partial results carry all texts joined in order and the first real failure or else the first reason, complete ones neither; findings and notices are concatenated in order, and analyzers united and sorted |
| ScanMerge.PartialPassesReason | utils/scanner/scanner.go:328-396 | one skipped and one clean result give a partial one with the skipped one's text and reason |
| ScanMerge.RunAll | utils/scanner/scanner.go:232-260 | an error exactly when there are runners and all failed, else the merge of the successes; it has exactly the findings of the runs that succeeded, and is safe only if none of them ran unsafe |
| ScanMerge.SuccessesConcat | utils/scanner/scanner.go:241-254 | the merged results are those of each run that succeeded, in order |
| ScanMerge.RunAllMeaning | utils/scanner/scanner.go:232-260 | the findings and the safety of the merged successes in terms of the runs |
| ScanMerge.CombineAssociative | utils/scanner/scanner.go:328-396 | summaries combine associatively |
| ScanMerge.MergedSummary | utils/scanner/scanner.go:328-396 | a merged result sums up its inputs as they do themselves, but for several nils, which count as skipped, and for a complete merge, which has no reason |
| ScanMerge.MergeFlattens | utils/scanner/scanner.go:328-396 | merging two merges equals one flat merge in every field, exactly when no merge of several nils meets a complete one and, unless all is complete, the reasons that the parts keep choose as all reasons do |
| ScanMerge.WellFormedKeeps | utils/scanner/scanner.go:328-396 | no reason is lost where only skipped and partial results have one |
| ScanMerge.LostReason | utils/scanner/scanner.go:276-294 | a reason on a complete result is lost by nesting |
| ScanMerge.NilsMakePartial | utils/scanner/scanner.go:328-396 | two nils merged first make the same clean result partial |
| ScanMerge.NestedMerges | utils/scanner/scanner.go:232-396 | however merges nest, nil results and empty merges included, the outcome is one merge of all the leaves, exactly when several nils are not merged on their own inside an otherwise complete result and, unless all is complete, the surviving reason is the one of the leaves |
| ScanMerge.NestedSummary | utils/scanner/scanner.go:328-396 | seen from outside, a nested merge sums up its leaves, with the reason that survives |
| Retry.NextAttempt | server/types/database.go:279-299 | the loop's delay with 64-bit doubling, on the defaulted schedule |
| Retry.Schedule.WithDefaults | server/types/database.go:259-275 | positive fields are kept, others become 7 days, 1 hour and 24 hours |
| Retry.DelayIsCappedPower | server/types/database.go:279-299 | one schedule's delay is the capped power of two for all failure counts exactly when no doubling below the cap overflows |
| Retry.EveryBaseIsCappedPower | server/types/database.go:279-299 | for all bases exactly when the cap is at most 2^62 |
| Retry.OverflowSchedulesInThePast | server/types/database.go:285-298 | above that cap a second failure can get a negative delay |
| Retry.DelaysGrow | server/types/database.go:279-299 | short of overflow delays are positive, within the cap, and never shrink with more failures |
| YamlInline.Inliner.constructor | client/config/config.go:233-236 | every inlining starts with nothing visited |
| YamlInline.Inliner.InlineAliases | client/config/config.go:255-286 | ends on every graph, leaves the visiting set as found, and returns the inlined tree |
| YamlInline.InlineKeepsMeaning | client/config/config.go:242-286 | to every depth the inlined tree shows what the node shows, on cyclic documents too |
| YamlInline.SelfContainedIffAcyclic | client/config/config.go:242-286 | no anchor and no reference into the old document is left exactly when no path from the node returns to itself |
| YamlSections.CaptureUnknownSections | client/config/config.go:207-240 | captures, in order, every entry whose key node's value is not a known key |
| YamlSections.MarshalFile | client/config/config.go:545-566 | the encoded fields followed by all captured sections |
| YamlSections.KeyResolves | client/config/config.go:229-236 | an alias key reads as its target's kind and value, any other key as its own |
| YamlSections.PlainKeysAreSafe | client/config/config.go:296-319 | a key that is not an alias is skipped exactly when it reads as known |
| YamlSections.UnknownSectionsSurvive | client/config/config.go:203-240 | every section that reads as unknown is captured as often as the document holds it, exactly when no key is an alias whose anchor is named like a known key and that reads as an unknown one |
| YamlSections.SavedKeysDistinct | client/config/config.go:541-566 | the written file repeats no key exactly when no captured alias key reads as an emitted key or like another captured key |
| YamlText.ParseDocument | client/config/config.go:207-227 | whatever text is read, its nodes form a closed document whose aliases refer to nodes that are not aliases |
| YamlReload.Reread | client/config/config.go:255-286 | inlining what a reader makes of a written tree gives the tree exactly when it is self-contained, and if not, not even its shape |
| YamlReload.InlineContentShared | client/config/config.go:255-286 | inlining leaves references only to nodes with content, never to aliases |
| YamlReload.SaveThenLoad | client/config/config.go:207-566 | capturing from the written file gives the same sections exactly when no captured key is an alias that reads as a known key or like another key, and no captured key or value is cyclic, whether or not nodes are compared by identity |
| YamlNames.ParsesIff | client/config/config.go:242-286 | written trees can be read exactly when every alias in the nodes left as references has an earlier anchor of its name there |
| YamlAliases.ResolvesIffEach | client/config/config.go:242-286 | every alias is read as the node it was exactly when for each the last anchor of its name before it is on that node |
| YamlAliases.ResolvesIffInward | client/config/config.go:242-286 | with distinct anchor names, exactly when each alias refers into the written node it stands in or into one written earlier |
| YamlMeaning.SavedParsesIff | client/config/config.go:242-566 | the written file can be read exactly when every alias in it has an earlier anchor of its name |
| YamlMeaning.SavedParsesIffInward | client/config/config.go:242-566 | with distinct anchor names, the written file can be read exactly when each alias of a node left as a reference refers into that node or one written earlier, and exactly when every alias is read as the node it was |
| YamlMeaning.NoReferencesIffAcyclic | client/config/config.go:242-566 | the written file refers to no node of the old document exactly when no captured key or value is cyclic |
| YamlMeaning.SavedMeaning | client/config/config.go:242-566 | if every alias in the written file is read as the node it was, then, on cyclic documents too, key and value of a captured entry, and what loading makes of them, show to every depth what they showed before |
| YamlExamples.AliasKeyLosesSection | client/config/config.go:229-231 | a document whose unknown section is dropped because its key is an alias to an anchor named like a known key |
| YamlExamples.AliasKeyIsDoubled | client/config/config.go:229-231 | a document whose aliased section is written beside the known section of that name |
| YamlExamples.AliasKeyRepeats | client/config/config.go:229-231 | a document with two captured sections that are written with the same key |
| YamlExamples.LoopGrows | client/config/config.go:255-286 | each load and save of `s: &a [*a, v]` wraps the list once more |
| YamlExamples.OutwardAliasDangles | client/config/config.go:242-286 | a cyclic section that refers outside is written with an alias whose anchor is nowhere, and the file cannot be read |
| YamlExamples.OutwardAliasIsMisread | client/config/config.go:242-286 | with two anchors of one name such an alias is read as the other value |

## Left out

- Datastore failures between the writes of one handler, and the JSON encoding of stored metadata and counters.
- Peer address storage, DHT autosync, libp2p, the publication scheduler and republishing.
- The order of List and Search answers, which the datastore chooses; the model fixes which answers, not their order.
- Labels.NormalizeValue: the model's strings are code points, so invalid UTF-8 is not covered.
- IndexMetrics.ExactRun: counters are unbounded, so 64-bit wrap-around is not covered.
- Matching.DeduplicateQueries: the (type, value) pair stands for the string key the code builds from it.
- GetMatchingQueries, an unused variant of the matching loop.
- EventBusSafety.RunsAreSafe: the protocol is modelled on values, one atomic step at a time; the WaitGroup is a counter, and its misuse panic is not modelled.
- Liveness of the event bus: that every delivery eventually finishes; `NeverStuck` says that none is ever blocked.
- FanOut.FanOutAndScore: scores are real numbers, so rounding is not covered.
- Paging.WalkVisitsAll: rankings are shorter than the largest slice Go can allocate.
- Retry.NextAttempt: adding the delay to the clock does not wrap.
- FilterParser.ParseAgentFilter: the conversions of applyClause (times, booleans, types) are a parameter that accepts or rejects a clause.
- The order-by language and the translation of filters into database options.
- YamlInline.InlineKeepsMeaning: documents as the parser builds them, where an alias refers to a node that is not an alias.
- YamlReload.SaveThenLoad: the written file is modelled as the nested nodes, anchors and aliases that its text shows, not as characters.
- YamlMeaning.SavedMeaning: its condition is also necessary where anchor names are distinct (`SavedParsesIffInward`); elsewhere an alias can be read as another node that happens to show the same.
- knownTopLevelKeys by reflection; the model has the three keys it yields.
- The scanners themselves, the record import pipeline, the storage back ends and the command line.
