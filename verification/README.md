# Solr Benchmark: a verified model of its core

This project models the parts of Solr Benchmark in which state, recursion or arithmetic make it hard to see that the code
is right, and proves what they are for. `dafny verify dfyconfig.toml` checks it.

- **Starting and stopping a cluster** (`HostTable`, `Messages`, `Dispatcher`, `Builder`, `EngineProtocol`, `EngineSafety`,
  `EngineFailures`, `EngineReports`, `EngineNodes`, `EngineProgress`).
  The message handlers are classes proved against functions on states; the functions then make up a transition system
  of orchestrator, builder, dispatcher and node actors, with a multiset of messages delivered in any order, nodes that may
  fail before or after launching, machines that come and go at any time, and any number of start/stop cycles.
- **Compiling queries** (`QueryModel`, `QueryTranslation`, `QueryMeaning`, `QueryLimits`, `QueryNested`, `QueryText`,
  `TermsText`).
  OpenSearch queries and Lucene clauses (MUST, MUST_NOT, SHOULD) have a meaning over documents; the compiler, in both its
  modes, preserves it on a fragment that is described by a predicate. Clauses are printed as text and read back.
- **Converting workloads** (`Jinja`, `JinjaExact`, `Paths`, `ExternalCollect`, `OperationConversion`, `OperationMeaning`).
  Placeholders for template expressions, the walk along references to files outside the workload, and the conversion of
  operations in place.
- **Reading data fast** (`LineOffsets`, `CorpusGenerator`, `DataSets`, `DataSetFormat`). Offset tables from two producers against plain line
  reading, and a reader with a file cursor against one that slices an array and against a writer of the files.
- **Measuring and accounting** (`RequestContexts`, `TimeWindows`, `DatasetGeneration`, `Percentiles`, `Aggregation`,
  `ScopedConfig`).

Code that updates objects is a class or a method with loops, proved against a function of the old state; the theorems are
about these functions, over all inputs, runs and orders.

## What the code does that its documentation does not say

Where the two differ the model follows the code, and the difference is stated as a lemma.

- A `gt` or `lt` bound is written as an inclusive one: `QueryLimits.RangeExact`, `QueryLimits.LowerBoundExact`,
  `QueryLimits.UpperBoundExact`. What cannot be translated is ignored, and a filter on an empty list of terms is left out
  instead of matching nothing: `QueryLimits.UntranslatableFindsAll`, `QueryLimits.EmptyTerms`.
- Should clauses are joined without parentheses, so a conjunction beside another should clause becomes required:
  `QueryLimits.FlattenedShould`, `QueryNested.ShouldListExact`. A filter below an exclusion is hoisted as if it were asked
  for: `QueryLimits.HoistedFromExclusion`, `QueryNested.ExclusionsExact`. A nested purely negative query matches nothing:
  `QueryLimits.NestedNegation`, `QueryNested.NegationsExact`.
- In a terms clause the values AND, OR and NOT are written as they are and read as operators: `TermsText.ReadsBack`.
- A `{!terms}` filter joins its values by commas and cannot hold a value with a comma: `TermsText.TermsFilterReadsBack`.
- When the engine is stopped before it has started, start answers are counted as stop replies: `Builder.EarlyStop`.
- When a machine leaves while others are awaited, the dispatcher means to report a failure but calls the address of the
  starter as a function, which is a TypeError; the start stays unreported while a machine is missing:
  `EngineFailures.MissingMachineGoesUnreported`.
- A text that holds what looks like a placeholder may not be restored: `JinjaExact.RestoredExactlyWhen`.
- The converted workload is meant to be self-contained. An external file that is mirrored onto a file of the workload's own
  overwrites it, or the other way round: `ExternalCollect.Collector.FollowAll`, `ExternalCollect.OwnOperationsAreLost`,
  `ExternalCollect.SharedOperationsAreLost`. That goes for own files the walk does not visit, too, which are all but JSON
  files: `ExternalCollect.OwnSettingsAreLost`. Where the walk comes to a copy once more, it takes it for a file of the
  workload itself, and may follow a reference to a file that was not meant: `ExternalCollect.FollowedAgainExactlyWhen`,
  `ExternalCollect.AnotherFileIsFollowed`. References from external files back into the workload are left as they are and
  lead to no copy: `ExternalCollect.LeadsToCopyExactlyWhen`, `ExternalCollect.PlainBackReference`.
- A reference to a missing file is left alone the first time and rewritten to a path without a file afterwards:
  `ExternalCollect.Collector.EnsureExternal`, `ExternalCollect.MissingHasNoCopy`.
- `_convert_task` is said to remove unsupported operations, but nobody looks at its result; they stay in the schedule, and
  the names of removed ones then refer to nothing: `OperationConversion.InlineWorkload.Convert`,
  `OperationConversion.NameIsFoundExactlyWhen`.
- A nested request context without any request end makes the context around it raise a TypeError, and one without a
  request start leaves None as the start for good: `RequestContexts.NoErrorExactlyWhen`,
  `RequestContexts.StartRecordedExactlyWhen`.
- A data set file that fails its check when it is opened is not checked again; with something behind its rows it is then
  read as if nothing were wrong: `DataSets.CheckedAtFirstUseOnly`, `DataSets.ShortFileHasNoRows`, `DataSets.JunkIsIgnored`. Reads of negative size move the row counter but not the file:
  `DataSets.NegativeReadLosesPlace`, `DataSets.ReadAgreesExactlyWhen`.
- With one document per chunk the time windows never end: `TimeWindows.EndsExactlyWhen`. A span of length zero has one
  timestamp but no window: `TimeWindows.NoWindowForAMoment`.
- An input line of at most 24 characters makes a generated document that is no line of its own, and an offset table that is
  wrong from there on: `CorpusGenerator.DocIsLine`, `CorpusGenerator.OutputTableExactlyWhen`.
- The weighted average counts the iterations of runs that lack the operation, and weights the values of later runs with the
  iterations of others: `Aggregation.EqualValuesExactlyWhen`, `Aggregation.LaterValuesAreShifted`. A number that one result
  lacks is not averaged at all: `Aggregation.MissingIsNotAveraged`.
- A statistic that a run lacks, such as a percentile for which it has too few samples, counts as a 0 in the average, and a
  missing minimum makes the overall one 0: `Aggregation.MissingFieldExactlyWhen`, `Aggregation.SameValueExactlyWhen`,
  `Aggregation.MissingExtremes`.

## Model

| member | source | states |
|---|---|---|
| HostTable.NodesByHost | osbenchmark/builder/builder.py:318-326 | the loop groups host positions by distinct (ip, port), in order of first appearance |
| HostTable.KeysAreTheDistinctPairs | osbenchmark/builder/builder.py:318-326 | the groups are exactly the distinct pairs of the host list |
| HostTable.KeysInOrder | osbenchmark/builder/builder.py:318-326 | and in the order in which they first occur |
| HostTable.IdsAreThePositions | osbenchmark/builder/builder.py:318-326 | a group's node ids are exactly the positions of its pair, ascending |
| HostTable.IdsPartition | osbenchmark/builder/builder.py:311-326 | every node id from 0 to the number of hosts belongs to exactly one group |
| Dispatcher.DispatcherActor.ReceiveStartEngine | osbenchmark/builder/builder.py:476-503 | local hosts get a pending start message at once, remote ones are remembered by machine; all are sent if no machine is awaited |
| Dispatcher.DispatcherActor.ReceiveRemoteAdded | osbenchmark/builder/builder.py:505-530 | a machine that checks in turns its remembered messages into node actors; the last one releases all |
| Dispatcher.DispatcherActor.ReceiveConventionUpdate | osbenchmark/builder/builder.py:505-523 | a machine that checks in is handled as above; one that leaves ends in a TypeError with nothing sent or changed, whatever is awaited |
| Dispatcher.NothingLeft | osbenchmark/builder/builder.py:505-530 | a late notice after everything has been sent sends nothing |
| Dispatcher.DispatchRun | osbenchmark/builder/builder.py:476-530 | for every host list and every sequence of notices, repeated, unknown and late ones included: nothing is sent while a machine is missing, then exactly one start message per distinct (ip, port), each to its own actor |
| Dispatcher.EveryNodeIsStarted | osbenchmark/builder/builder.py:476-530 | said of the messages themselves: nothing is sent while a machine other than 127.0.0.1 has not checked in; then every node id is in exactly one start message, whose host is its own, whose ids ascend and which answers to the sender |
| Builder.BuilderActor.TransitionWhenAllChildrenResponded | osbenchmark/actor.py:130-161 | responses are counted against the children; the last one changes the status and clears the list, one too many or out of turn is rejected |
| Builder.BuilderActor.SendToChildren | osbenchmark/actor.py:163-180 | a message goes to every known child in slot order |
| Builder.BuilderActor.ReceiveStartEngine | osbenchmark/builder/builder.py:368-398 | one empty slot per distinct (ip, port); no hosts is a failure |
| Builder.BuilderActor.ReceiveNodesStarted | osbenchmark/builder/builder.py:400-410 | a new sender enters at the front and pushes the last slot out; the last answer announces the start |
| Builder.BuilderActor.ReceiveStopEngine | osbenchmark/builder/builder.py:428-435 | every known child is asked to stop; the responses are not reset |
| Builder.BuilderActor.ReceiveNodesStopped | osbenchmark/builder/builder.py:437-453 | the last reply announces the stop, dismisses all children and forgets them |
| Builder.OneMoreStarted | osbenchmark/builder/builder.py:400-410 | children are the known senders followed by placeholders, as many known as responses; each new sender keeps this, and only the last one announces the start |
| Builder.ToSlots | osbenchmark/actor.py:163-180 | messages to the slots reach exactly the known senders, once each |
| Builder.OneMoreStopped | osbenchmark/builder/builder.py:437-453 | each reply is counted, and the last one leaves no children and no responses |
| Builder.OutOfTurn | osbenchmark/actor.py:130-161 | an answer out of turn is rejected to its sender and changes neither status nor responses |
| Builder.EarlyStop | osbenchmark/actor.py:163-180 | stopped after k of n answers, the stop is announced after j replies exactly when n - k <= j |
| EngineSafety.StepKeeps | osbenchmark/builder/builder.py:329-611 | the invariant over builder, dispatcher, nodes, orchestrator and network is kept by every step |
| EngineSafety.EveryCycleIsSafe | osbenchmark/builder/builder.py:368-453 | in every run, delivery order and cycle: the start is announced at most once and only if all n distinct node actors have answered and none has failed; the stop at most once and only after all n were asked and have answered; stop messages go to exactly the node actors of the cycle; no message is ever rejected |
| EngineSafety.BuilderIsClean | osbenchmark/builder/builder.py:447-453 | between cycles the builder has no children and no pending responses, and only dismissals and failure notices are on their way |
| EngineSafety.StartGetsThrough | osbenchmark/builder/builder.py:400-410 | no deadlock: a start that comes to rest unannounced had no hosts or a node that failed |
| EngineSafety.StopGetsThrough | osbenchmark/builder/builder.py:437-453 | no deadlock: a stop that comes to rest unannounced had a node that could not be stopped |
| EngineFailures.FailuresHaveCauses | osbenchmark/builder/builder.py:368-597 | no failure without a cause: in every run, none is sent or on its way in a cycle in which no node has failed to start or stop, unless there are no hosts |
| EngineReports.FailuresArePassedOn | osbenchmark/builder/builder.py:368-425 | no cause without a failure: in every run, and for failed starts and failed stops alike, as many failures of the cycle were sent to the orchestrator as were sent to the builder, less those still on their way; a start without hosts is refused |
| EngineReports.StartIsAnswered | osbenchmark/builder/builder.py:368-425 | a start that has come to rest without the engine being up has sent the orchestrator a failure: that of the launch without hosts, that of a node otherwise |
| EngineReports.StopIsAnswered | osbenchmark/builder/builder.py:424-453 | a stop that has come to rest without being announced has sent the orchestrator the failure of a node |
| EngineNodes.NodesRunWhileUp | osbenchmark/builder/builder.py:553-611 | in every run, while the engine is up exactly the node actors of the cycle run, one for each distinct (ip, port) |
| EngineNodes.NothingRunsWhenDown | osbenchmark/builder/builder.py:437-453 | and when it is down none does |
| EngineFailures.MissingMachineGoesUnreported | osbenchmark/builder/builder.py:505-510 | while a machine is missing, a start is neither announced nor failed, and any number of machines that leave changes nothing at all |
| EngineProgress.StepUses | osbenchmark/builder/builder.py:368-611 | every delivery uses up some of what a cycle can still send; machines that come or go add nothing |
| EngineProgress.ComesToRest | osbenchmark/builder/builder.py:368-611 | from every reachable state only a fixed number of messages can be delivered until the next start or stop: starting and stopping come to rest |
| EngineProgress.SlotsHoldAllNodes | osbenchmark/builder/builder.py:394-409 | while the engine is up, the n slots hold the n node actors of the cycle, each once |
| QueryTranslation.TranslateQueryNode | osbenchmark/conversion/query.py:131-255 | the recursion over the shared filter list computes the translation, hoisting if there is a list and inlining if not |
| QueryTranslation.TranslateOpenSearchQuery | osbenchmark/conversion/query.py:67-81 | the whole query, with the shortcut for a terms query at the top |
| QueryMeaning.VanishingNode | osbenchmark/conversion/query.py:208-252 | exactly the nodes that restrict nothing are translated to the text that is left out |
| QueryMeaning.NodeMeaning | osbenchmark/conversion/query.py:131-255 | in both modes, a translatable node's clauses together with the filters it hoists select the documents it asks for |
| QueryMeaning.FqMeaning | osbenchmark/conversion/query.py:273-299 | a filter, with everything inlined below it, selects the documents its node asks for |
| QueryMeaning.TranslationMeaning | osbenchmark/conversion/query.py:67-81 | for every translatable query and every document: q and all fq filters match iff the query does |
| QueryLimits.FlatExact | osbenchmark/conversion/query.py:205-252 | for flat bool queries translation is right on all documents if and only if the query is translatable |
| QueryNested.ShouldListExact | osbenchmark/conversion/query.py:237-247 | for should lists of tests and conjunctions without common tests, translation is right on all documents iff there is one choice or no conjunction |
| QueryNested.ExclusionsExact | osbenchmark/conversion/query.py:208-235 | for required tests with exclusions of tests and of filters, translation is right on all documents iff no exclusion is a filter |
| QueryNested.NegationsExact | osbenchmark/conversion/query.py:208-252 | for required and excluded tests and nested exclusions on either side, no test twice, translation is right on all documents iff there are no nested exclusions |
| QueryLimits.RangeFinds | osbenchmark/conversion/query.py:180-191 | what the translation of a range finds, for all four bounds |
| QueryLimits.RangeIsWidened | osbenchmark/conversion/query.py:180-191 | what a range asks for is found; with at most one lower and one upper bound, what is found besides is just on a strict bound |
| QueryLimits.RangeExact | osbenchmark/conversion/query.py:180-191 | the translation of a range is right on all documents iff strict bounds are implied by inclusive ones or the written bounds shut out everything |
| QueryLimits.LowerBoundExact | osbenchmark/conversion/query.py:180-191 | with lower bounds only, the translation is right on all documents iff a strict bound is implied by an inclusive one |
| QueryLimits.UpperBoundExact | osbenchmark/conversion/query.py:180-191 | likewise for upper bounds |
| QueryLimits.UntranslatableFindsAll | osbenchmark/conversion/query.py:139-252 | unknown queries, identifiers without values and tests on metadata find every document |
| QueryLimits.EmptyTerms | osbenchmark/conversion/query.py:273-299 | terms without values find nothing as a query, but as a filter they are left out and everything is found |
| QueryLimits.NestedNegation | osbenchmark/conversion/query.py:208-252 | a nested query of exclusions only matches nothing |
| QueryLimits.FlattenedShould | osbenchmark/conversion/query.py:237-247 | the smallest such case: a conjunction and a test side by side in should ask for the conjunction |
| QueryLimits.HoistedFromExclusion | osbenchmark/conversion/query.py:218-235 | the smallest such case: a single filter below must_not is required instead of excluded |
| QueryText.RoundTrip | osbenchmark/conversion/query.py:208-255 | the printed clauses are read back as themselves, whatever is nested in them |
| QueryText.LooksLike | osbenchmark/conversion/query.py:208-250 | required and excluded clauses are written with their prefix before a parenthesis, optional ones as they are |
| TermsText.EscapeSolrValue | osbenchmark/conversion/query.py:302-311 | the loop puts a backslash before each reserved character |
| TermsText.PhraseEscapeIsSimultaneous | osbenchmark/conversion/query.py:314-321 | the two replacements in turn are one simultaneous escape of backslashes and quotes |
| TermsText.NoBareReserved | osbenchmark/conversion/query.py:302-311 | in an escaped value no reserved character is without its backslash |
| TermsText.OnlySyntaxIsEscaped | osbenchmark/conversion/query.py:302-311 | exactly the characters of the query syntax are escaped |
| TermsText.ReadsBack | osbenchmark/conversion/query.py:258-270 | a reader of terms gets back exactly the list iff every value is readable: not empty, and either quoted, which a space in it brings about, or without white space and none of the words AND, OR, NOT |
| TermsText.TermsFilterReadsBack | osbenchmark/conversion/query.py:287-296 | a terms filter is split into exactly its values iff none has a comma |
| Jinja.Substitute | osbenchmark/conversion/workload_converter.py:68-90 | the text with numbered placeholders in place of the matches, and the matched tokens |
| Jinja.TokenAt | osbenchmark/conversion/workload_converter.py:68-90 | the k-th token is the text of the k-th match, without its quotes if it has some, and says so |
| Jinja.PlaceholderIs | osbenchmark/conversion/workload_converter.py:84-88 | what placeholders look like |
| Jinja.Restore | osbenchmark/conversion/workload_converter.py:93-110 | one global replacement per token, in turn |
| Jinja.ReplaceFills | osbenchmark/conversion/workload_converter.py:103-110 | one global replacement fills exactly the places of its own placeholder, though numbers may begin alike |
| Jinja.SurvivorsGetTheirTokens | osbenchmark/conversion/workload_converter.py:93-110 | placeholders dropped, doubled or reordered: each one left gets exactly its own token, despite the replacements in turn |
| Jinja.TokensMakeNoMark | osbenchmark/conversion/workload_converter.py:93-110 | pieces and tokens without the marker, tokens bounded by other characters, make a text without it |
| Jinja.RestoreUndoesSubstitute | osbenchmark/conversion/workload_converter.py:68-110 | for every text without the marker and every set of disjoint matches, restoring gives back the text |
| Jinja.MarkerIsTaken | osbenchmark/conversion/workload_converter.py:93-110 | a witness: the placeholder of the only token, in front of it in the text, is replaced by the token too |
| JinjaExact.GoesWrong | osbenchmark/conversion/workload_converter.py:103-110 | a replacement that finds its placeholder elsewhere than in its hole leaves a difference of one of a few kinds |
| JinjaExact.StaysWrong | osbenchmark/conversion/workload_converter.py:103-110 | no later replacement makes such a difference good |
| JinjaExact.RestoredExactlyWhen | osbenchmark/conversion/workload_converter.py:68-110 | for every text and all disjoint matches that begin as templates do: restoring gives back the text iff placeholder k occurs neither in the text before match k, with a quote behind it, nor in the placeholder text behind it, for every k |
| JinjaExact.ClosedByTheNext | osbenchmark/conversion/workload_converter.py:93-110 | it is not enough that no piece and no token holds a placeholder: a piece may end with one that lacks its closing quote |
| Paths.RelPathLeadsThere | osbenchmark/conversion/workload_converter.py:783-795 | a relative path, joined and normalised, leads to its target |
| Paths.RelPathDown | osbenchmark/conversion/workload_converter.py:704-709 | a relative path begins with a step up exactly if the target is not below the directory |
| Paths.ResolveIsNet | osbenchmark/conversion/workload_converter.py:783 | a relative path leads a fixed number of levels up from any directory, not beyond the root, and then a fixed way down |
| ExternalCollect.MirrorKeepsThePlace | osbenchmark/conversion/workload_converter.py:704-711 | which external files are mirrored, and where |
| ExternalCollect.MirrorInjective | osbenchmark/conversion/workload_converter.py:711-715 | the visited set, which holds places, tells files apart |
| ExternalCollect.RewrittenLeadsToMirror | osbenchmark/conversion/workload_converter.py:781-795 | a rewritten reference leads to the mirrored copy of what the source refers to |
| ExternalCollect.RewrittenIsLeftAlone | osbenchmark/conversion/workload_converter.py:781-810 | read once more from the output, a rewritten reference leads inside the workload and is left as it is |
| ExternalCollect.ReachedIsInClosed | osbenchmark/conversion/workload_converter.py:690-692 | reachability along references is the least closed set |
| ExternalCollect.Collector.EnsureExternal | osbenchmark/conversion/workload_converter.py:699-732 | terminates on cyclic references; when a place is returned, and which; a missing file is reported once; everything newly converted is done and everything else left alone |
| ExternalCollect.Collector.ProcessOneFile | osbenchmark/conversion/workload_converter.py:765-799 | all references of a file are covered; unless a copy is written over it meanwhile, they are rewritten, but for one that is found missing; if one is, the file is written back over it |
| ExternalCollect.Collector.FollowAll | osbenchmark/conversion/workload_converter.py:801-810 | for every site: no file that is in the output before, visited or not, and no copy is lost iff no reached external file that exists is mirrored onto one of them; if none is mirrored onto a visited one, the files converted are exactly the reached ones that exist, those reported exactly the reached ones that do not, each once, and all references are settled |
| ExternalCollect.LostExactlyWhen | osbenchmark/conversion/workload_converter.py:721-728 | in every walk, a visited file keeps its own text iff no copy was written over it while another file was visited; otherwise it has the converted text of the external file |
| ExternalCollect.OthersLostExactlyWhen | osbenchmark/conversion/workload_converter.py:721-728 | in every walk, an output file that is not visited stays exactly as it was iff no copy was written over it |
| ExternalCollect.OverwrittenByReference | osbenchmark/conversion/workload_converter.py:781-799 | a file is overwritten if an earlier visited one refers to a file that is mirrored onto it |
| ExternalCollect.OwnOperationsAreLost | osbenchmark/conversion/workload_converter.py:721-728 | a workload that collects shared operations of the same name as its own loses its own |
| ExternalCollect.SharedOperationsAreLost | osbenchmark/conversion/workload_converter.py:795-799 | operations that collect shared ones of their own name keep their text, and the copy of the shared ones is lost |
| ExternalCollect.OwnSettingsAreLost | osbenchmark/conversion/workload_converter.py:721-728 | a workload that collects shared settings of the same name as its own, which are no JSON, loses its own, though nothing is mirrored onto a visited file |
| ExternalCollect.SettledLeadsToCopy | osbenchmark/conversion/workload_converter.py:781-799 | afterwards a reference to an external file that is mirrored and exists leads to its converted copy, which is there |
| ExternalCollect.LeadsToCopyExactlyWhen | osbenchmark/conversion/workload_converter.py:787-795 | a reference in a converted external file leads to the output copy of its target iff the target is external and mirrored, or the reference goes up beyond the root and down where the output has the path of the source |
| ExternalCollect.PlainBackReference | osbenchmark/conversion/workload_converter.py:787-789 | the plain way from an external file back into the workload leads, from the copy, to a place below the output that is not where the workload's file is |
| ExternalCollect.FollowedAgainExactlyWhen | osbenchmark/conversion/workload_converter.py:801-810 | a second visit of a copy, as a file of the workload itself, follows a reference iff it was not rewritten and, read from one directory further down, leads to a place that is mirrored |
| ExternalCollect.AnotherFileIsFollowed | osbenchmark/conversion/workload_converter.py:801-810 | an input: a reference that is too far up the tree to be mirrored is followed to another file on a second visit |
| ExternalCollect.MissingHasNoCopy | osbenchmark/conversion/workload_converter.py:713-719 | a rewritten reference to a missing file leads to no file |
| OperationConversion.FoundIsThere | osbenchmark/conversion/workload_converter.py:542-552 | if the search says so there is an auto_date_histogram at some level |
| OperationConversion.NotFoundIsNotThere | osbenchmark/conversion/workload_converter.py:542-552 | if it says not there is none |
| OperationConversion.Operation.Convert | osbenchmark/conversion/workload_converter.py:555-634 | an operation is changed in place as the rules say, one to be removed is left as it was; files and issues |
| OperationConversion.NewTypeIsFinal | osbenchmark/conversion/workload_converter.py:179-210 | no new type is an old one, an unsupported one or another search type |
| OperationConversion.BodyOfIsFinal | osbenchmark/conversion/query.py:343-373 | a translated body has a string as query and no aggregations |
| OperationConversion.ConvertTwice | osbenchmark/conversion/workload_converter.py:555-634 | converting twice is converting once, over all types and renames, and what is kept stays kept, also with other directories |
| OperationConversion.KeptMeans | osbenchmark/conversion/workload_converter.py:582-605 | in a kept operation the type is the Solr one, `indices` or else `index` has become the collection, segments are renamed for force-merge, and every key that has nothing to do with it is as before |
| OperationConversion.EffectsTwice | osbenchmark/conversion/workload_converter.py:607-632 | files are written once, in place too; failures are reported again |
| OperationConversion.InlineWorkload.Convert | osbenchmark/conversion/workload_converter.py:414-422 | although named operations are visited again through every task, operations and tasks end up converted once; no file is translated twice; it fails exactly if one of them raises |
| OperationMeaning.TypeIs | osbenchmark/conversion/workload_converter.py:560 | the type of an operation is under the first of two keys that says something |
| OperationMeaning.HistogramUnderEitherKey | osbenchmark/conversion/workload_converter.py:568-581 | a search with an auto_date_histogram at any depth is removed, whichever of the two keys has its aggregations |
| OperationMeaning.TypeInSolr | osbenchmark/conversion/workload_converter.py:583-587 | the new type of a kept operation by name, under both keys that may have it |
| OperationMeaning.SegmentsInSolr | osbenchmark/conversion/workload_converter.py:604-605 | the number of segments is renamed for force-merge only |
| OperationMeaning.BodyInSolr | osbenchmark/conversion/workload_converter.py:607-614 | the body of a kept search with a query that can be translated becomes a request with the translated query, its filters in order, and limit, sort and facet where there are some; every other body is as before |
| OperationMeaning.ConfigsetInSolr | osbenchmark/conversion/workload_converter.py:595-602 | a collection that is created is given the name and path of its configset iff the directory exists, unless it says so itself; nothing else is |
| OperationMeaning.BodyFileInSolr | osbenchmark/conversion/workload_converter.py:616-632 | a body file is written to the output, translated, iff it exists and has a query that can be translated; nothing else is written; which failures are reported |
| OperationMeaning.NoBodyFile | osbenchmark/conversion/workload_converter.py:607-618 | operations that are no search, or refer to no file, write nothing |
| OperationMeaning.FailureInSolr | osbenchmark/conversion/workload_converter.py:610-614 | a failed translation of a body is reported iff it happens, with the name of the operation |
| OperationMeaning.KeptInOrder | osbenchmark/conversion/workload_converter.py:414-417 | operations are converted one by one and stay in order |
| OperationMeaning.KeptAlone | osbenchmark/conversion/workload_converter.py:414-417 | an element that is no dictionary stays, an operation stays as converted or goes |
| OperationConversion.VerdictExactlyWhen | osbenchmark/conversion/workload_converter.py:560-581 | an operation is removed iff its type is unsupported or it is a search with an auto_date_histogram; an exception is raised iff it is malformed in one of three ways |
| OperationConversion.NameIsFoundExactlyWhen | osbenchmark/conversion/workload_converter.py:511-539 | after a conversion a name in the schedule finds an operation iff one of that name is neither rejected nor malformed |
| LineOffsets.PrepareTable | osbenchmark/utils/io.py:608-621 | an entry for every so many lines whose offset is where plain reading of that many lines leads; the number of lines |
| LineOffsets.FindClosestOffset | osbenchmark/utils/io.py:533-555 | the closest entry at or before a line, its offset, and how many lines are left |
| LineOffsets.SkipLines | osbenchmark/utils/io.py:636-661 | for every file, any table of it or none, and every n: the cursor is where n plain line reads from the start lead, also past the end |
| LineOffsets.AfterInTwo | osbenchmark/utils/io.py:655-661 | reading some lines and then others is reading all of them |
| LineOffsets.AfterGrows | osbenchmark/utils/io.py:608-621 | offsets increase with lines up to the end of the file |
| CorpusGenerator.DocGenerator.Next | scripts/expand-data-corpus.py:121-139 | document i has the i-th timestamp and the next line of the input, over and over |
| CorpusGenerator.NextTimestamp | scripts/expand-data-corpus.py:121-139 | the closed form of the timestamps agrees with the increments |
| CorpusGenerator.DocIsLine | scripts/expand-data-corpus.py:129-130 | a document is one line iff its input line has more than 24 characters |
| CorpusGenerator.DocKeepsTheRest | scripts/expand-data-corpus.py:129 | a line with a timestamp of nine digits becomes the same line with a number in its place that reads as the new timestamp |
| CorpusGenerator.AfterDocs | scripts/expand-data-corpus.py:198-216 | plain reading of k lines of the output leads past the first k documents |
| CorpusGenerator.GenerateDocs | scripts/expand-data-corpus.py:193-219 | terminates at the document or size limit for every input; the output is the documents in turn, with an entry per batch at the length of the documents before; for every input file, the table is a table of the output iff all lines read before its last entry have a line feed and more than 24 characters |
| CorpusGenerator.OutputTableExactlyWhen | scripts/expand-data-corpus.py:198-216 | likewise, for any number of documents of any input file |
| DataSets.SlicingDataSet.Read | osbenchmark/utils/dataset.py:106-118 | the rows from the current one on, None at the end |
| DataSets.CursorDataSet.Load | osbenchmark/utils/dataset.py:177-193 | header and size check at first use only |
| DataSets.CursorDataSet.Read | osbenchmark/utils/dataset.py:195-209 | the nested loops read as many numbers as the rows have, from the file position on |
| DataSets.CursorDataSet.Seek | osbenchmark/utils/dataset.py:211-226 | the file position of the row, or a failure that changes nothing |
| DataSets.CursorDataSet.Reset | osbenchmark/utils/dataset.py:236-239 | back to the first row |
| DataSets.RowIsInside | osbenchmark/utils/dataset.py:290-295 | in a file that passes the check all rows lie in its body, for ground truth in the first half |
| DataSets.RowsEndThere | osbenchmark/utils/dataset.py:328-337 | and the last row ends exactly where the body, or its first half, does |
| DataSets.ReadRefines | osbenchmark/utils/dataset.py:195-209 | a read of a size that is not negative returns what the slicing reader returns, and file position = 8 + bytes of a row * current is kept |
| DataSets.StepRefines | osbenchmark/utils/dataset.py:195-239 | so do reads of any size at the end, seeks, with the same failures, and resets |
| DataSets.RunRefines | osbenchmark/utils/dataset.py:101-239 | over every sequence of reads, seeks and resets, without a negative size before the end, both readers return the same |
| DataSets.RunsAgreeExactlyWhen | osbenchmark/utils/dataset.py:101-239 | with negative sizes: if no rows are asked for between one before the end and the next seek or reset, both readers return the same over the whole run iff every slice of negative size is empty |
| DataSets.ReadStaysInside | osbenchmark/utils/dataset.py:328-337 | the bytes that a read of any size asks for end within the part of the body that has the rows |
| DataSets.ReadsCoverTheData | osbenchmark/utils/dataset.py:106-118 | reading on until None returns every row once, in order |
| DataSets.SeekThenRead | osbenchmark/utils/dataset.py:47-127 | seeking works exactly for the rows there are, and the next read begins with the row |
| DataSetFormat.DataIsWhatWasWritten | osbenchmark/utils/dataset.py:177-188 | round trip: of a file that holds a header with the number and the length of the rows, the rows with lowest bytes first, and for ground truth as many bytes of distances, the rows are those that were written |
| DataSetFormat.WrittenIsRead | osbenchmark/utils/dataset.py:177-239 | over every sequence of operations the cursor reader returns the rows that were written to its file, as if it had sliced their list |
| DataSets.NegativeReadLosesPlace | osbenchmark/utils/dataset.py:195-209 | a negative size returns no rows and keeps the position right iff rows are empty and the counter stays at zero or above |
| DataSets.ReadAgreesExactlyWhen | osbenchmark/utils/dataset.py:106-209 | for every size both readers return the same iff it is not negative, or at the end, or the slice is empty |
| DataSets.CheckedAtFirstUseOnly | osbenchmark/utils/dataset.py:177-193 | in every run over every file, an operation fails because the file is invalid iff it is invalid and this is its first use |
| DataSets.JunkIsIgnored | osbenchmark/utils/dataset.py:177-193 | a file with something behind its rows fails once, and then every sequence of operations returns what it would without |
| DataSets.ShortReadExactlyWhen | osbenchmark/utils/dataset.py:309-316 | a read fails exactly if it asks for floats beyond the end of the file; integers are cut off without an error |
| DataSets.ShortFileHasNoRows | osbenchmark/utils/dataset.py:177-193 | in every run, a file too short for a header fails at its first use, and from then on reads find nothing and seeks are out of range |
| RequestContexts.Holder.Exit | osbenchmark/context.py:68-82 | leaving a context passes its timings to the one around it, or fails on a None among the ends |
| RequestContexts.Run | osbenchmark/context.py:43-127 | a run of nested contexts leaves the dictionaries that the function computes, and restores the outer context |
| RequestContexts.PropagatedToEmpty | osbenchmark/context.py:68-82 | a context without a client start takes over the client's times from one inside, but not the request start |
| RequestContexts.FirstAndLast | osbenchmark/context.py:105-128 | only the first request start counts and none before the client's; the first client start and the last client end count |
| RequestContexts.LatestIsRecorded | osbenchmark/context.py:52-58 | the request end is the latest of all ends |
| RequestContexts.LaterEndsAreIgnored | osbenchmark/context.py:52-58 | whatever is recorded, the request end is the latest of the ends before the client's, and none if there is none |
| RequestContexts.RunTimings | osbenchmark/context.py:43-127 | for every tree of contexts, each with a request, and every increasing clock: request start is the earliest and request end the latest of the whole subtree, client start < request start < request end < client end |
| RequestContexts.OneRequest | osbenchmark/context.py:43-127 | a context around one request records its start and end |
| RequestContexts.NoErrorExactlyWhen | osbenchmark/context.py:52-75 | a run raises no error iff every nested context has an end or holds a context |
| RequestContexts.StartRecordedExactlyWhen | osbenchmark/context.py:105-109 | a start is recorded, and is the earliest, iff the events begin with a start or with a context that does |
| TimeWindows.CountIsNumberOfStamps | osbenchmark/synthetic_data_generator/timeseries_partitioner.py:186-194 | the arithmetic count is the number of timestamps |
| TimeWindows.StampsAreTheGrid | osbenchmark/synthetic_data_generator/timeseries_partitioner.py:186-194 | the timestamps are exactly the times up to the end that are whole steps after the start |
| TimeWindows.GenerateWindows | osbenchmark/synthetic_data_generator/timeseries_partitioner.py:123-131 | the generator terminates with the windows the function lists |
| TimeWindows.WindowsCover | osbenchmark/synthetic_data_generator/timeseries_partitioner.py:123-131 | the windows cover the span, neighbours share one end, all but the last are equally long |
| TimeWindows.WindowsPartitionTheGrid | osbenchmark/synthetic_data_generator/timeseries_partitioner.py:123-194 | all but the last hold exactly docs_per_chunk timestamps, together they are exactly the grid, and the sizes sum to the count plus the number of windows minus one |
| TimeWindows.EndsExactlyWhen | osbenchmark/synthetic_data_generator/timeseries_partitioner.py:123-131 | the generator comes to an end iff a chunk has at least two documents |
| TimeWindows.NoWindowForAMoment | osbenchmark/synthetic_data_generator/timeseries_partitioner.py:123-131 | a span of length zero has one timestamp and no window |
| DatasetGeneration.WriteChunk | osbenchmark/synthetic_data_generator/helpers.py:119-125 | a chunk's documents and pickled bytes are counted and its lines appended |
| DatasetGeneration.GenerateDataset | osbenchmark/synthetic_data_generator/synthetic_data_generator.py:139-213 | terminates if every turn writes something; one record per file in order, each from where the one before ended to the first turn at which it is full or there is enough; the files on disk |
| DatasetGeneration.BuildRecord | osbenchmark/synthetic_data_generator/helpers.py:162-178 | the totals over all records |
| DatasetGeneration.TurnsAddUp | osbenchmark/synthetic_data_generator/helpers.py:119-125 | the sums are those over all documents so far |
| DatasetGeneration.CutAtFirstChance | osbenchmark/synthetic_data_generator/synthetic_data_generator.py:178-211 | a file ends at the first turn at which its bytes reach the maximum or the bytes counted reach the total |
| DatasetGeneration.NothingIsLost | osbenchmark/synthetic_data_generator/synthetic_data_generator.py:139-213 | recorded documents sum to all documents written, recorded sizes to all bytes written and those there before |
| DatasetGeneration.AllButTheLastAreFull | osbenchmark/synthetic_data_generator/synthetic_data_generator.py:192-211 | every file but the last has reached the maximum size |
| DatasetGeneration.RecordsAreDetermined | osbenchmark/synthetic_data_generator/synthetic_data_generator.py:139-213 | batches, limits and earlier sizes leave only one possible list of records |
| Percentiles.SortedForgetsOrder | osbenchmark/metrics.py:631-640 | samples in any order are sorted to the same list |
| Percentiles.PercentilesGrow | osbenchmark/metrics.py:643-662 | the interpolated value grows with the percentile and is the first value at 0, the last at 100 |
| Percentiles.LinearBetweenSamples | osbenchmark/metrics.py:643-662 | the k-th of n samples is the percentile 100 k / (n - 1), and in between the value is linear |
| Percentiles.PercentilesOfSamples | osbenchmark/metrics.py:631-692 | percentiles do not decrease, lie between the reported minimum and maximum, equal them at 0 and 100, and do not depend on the order of samples |
| Percentiles.GetPercentiles | osbenchmark/metrics.py:631-640 | exactly the wanted percentiles, each of the sorted samples; nothing without samples |
| Percentiles.EffectiveSizeBounds | osbenchmark/metrics.py:1204 | the effective sample size is the power of ten just not above the sample size |
| Percentiles.EnoughSamples | osbenchmark/metrics.py:1185-1187 | of the default percentiles the 99th is shown iff there are at least 100 samples, the 99.9th iff 1000, the 99.99th iff 10000 |
| Percentiles.SuitableExactlyWhen | osbenchmark/metrics.py:1204-1211 | a percentile is suitable iff so large a part of the effective size is a whole number up to a millionth, or it is a quartile |
| Percentiles.FilterPercentiles | osbenchmark/metrics.py:1184-1215 | never empty, ascending if the list was, and exactly the suitable ones, or 100 if there are none |
| Percentiles.PercentilesForSampleSize | osbenchmark/metrics.py:1217-1223 | ascending and not empty, whatever order the list was in, and exactly the suitable ones or 100 |
| Percentiles.SingleLatency | osbenchmark/metrics.py:1448-1479 | what is reported for a metric grows with the percentile, and is reported for exactly the suitable ones |
| Aggregation.CopiesAggregateToThemselves | osbenchmark/aggregator.py:65-80 | aggregating k >= 1 copies of a result tree returns the tree |
| Aggregation.AverageWhereAllHaveNumbers | osbenchmark/aggregator.py:65-80 | at every path at which all trees have a number, the aggregate has their average |
| Aggregation.AggregateWithin | osbenchmark/aggregator.py:65-80 | and it lies between the least and the greatest of them |
| Aggregation.NothingIsDropped | osbenchmark/aggregator.py:70-77 | an aggregate of dictionaries has the keys of all of them, one of lists as many items as the longest |
| Aggregation.FirstPresentIs | osbenchmark/aggregator.py:78-79 | of values of mixed kinds the first that is there is taken |
| Aggregation.MissingIsNotAveraged | osbenchmark/aggregator.py:79-80 | a number that one result lacks is replaced by the first that is there |
| Aggregation.MissingItemIsNotAveraged | osbenchmark/aggregator.py:74-79 | nor is an item that a shorter list lacks |
| Aggregation.WeightedAverageWithin | osbenchmark/aggregator.py:232-235 | the weighted average lies between the least and the greatest value |
| Aggregation.WeightedIsPlain | osbenchmark/aggregator.py:229-235 | with a value for every run, the weighted average is the plain average with every value as often as there were iterations |
| Aggregation.EqualValuesExactlyWhen | osbenchmark/aggregator.py:213-235 | equal positive values average to themselves iff every run has a value |
| Aggregation.LaterValuesAreShifted | osbenchmark/aggregator.py:213-235 | if one run lacks the operation, later values are paired with the iterations of the run before their own, and the sum is off by just that |
| Aggregation.SharedFieldWithin | osbenchmark/aggregator.py:218-232 | of a statistic that all runs report, the overall minimum, maximum or average lies between the least and the greatest value reported |
| Aggregation.MissingFieldExactlyWhen | osbenchmark/aggregator.py:229-232 | the average of a statistic is that over the runs which report it, times their part of the iterations; so the two are the same iff all runs report it, or the latter is 0 |
| Aggregation.SameValueExactlyWhen | osbenchmark/aggregator.py:229-232 | if the runs that report it agree on a positive value, it averages to that value iff every run reports it, and to less otherwise |
| Aggregation.MissingExtremes | osbenchmark/aggregator.py:225-228 | with positive values, the overall minimum is 0 if a run lacks the minimum and between those reported if none does; the overall maximum is between those reported in any case |
| Aggregation.CombineMetric | osbenchmark/aggregator.py:218-235 | the loops combine every field of the first run's statistics, in any order of fields; metrics of mixed kinds are an error exactly if the program gets to them |
| Aggregation.EveryFieldIsCombined | osbenchmark/aggregator.py:218-232 | each field is combined over the runs, and stands under its new name |
| Aggregation.ExtremesAreBounds | osbenchmark/aggregator.py:225-228 | the reported overall minimum is at most every minimum of the runs, the overall maximum at least every maximum |
| Aggregation.OthersKeepTheirName | osbenchmark/aggregator.py:229-232 | every other statistic that all runs have stands under its own name, averaged over all iterations |
| ScopedConfig.ResolveMeans | osbenchmark/config.py:277-284 | resolution finds a value iff some scope has one, and takes that of the most specific |
| ScopedConfig.ResolveInOrder | osbenchmark/config.py:39-49 | the scopes by name: invocation, test procedure, benchmark, application override, application |
| ScopedConfig.AddedWithoutScope | osbenchmark/config.py:151-160 | a setting without a scope takes effect iff no scope but the application's has the option |
| ScopedConfig.AddedIsResolved | osbenchmark/config.py:151-160 | a setting takes effect iff no more specific scope has it, and changes no other option |
| ScopedConfig.Config.Add | osbenchmark/config.py:151-160 | one key set; no scope means the application's |
| ScopedConfig.Config.AddAll | osbenchmark/config.py:162-173 | exactly the source's options of the section are taken over, in any order of the map |
| ScopedConfig.Config.Opts | osbenchmark/config.py:175-193 | the resolved value, the default, or an error |
| ScopedConfig.Config.AllOpts | osbenchmark/config.py:195-211 | one pass over the map in any order holds exactly the keys that resolve, each with the value of its most specific scope |

## Left out

- Starting and stopping: the actor system itself, wake-up messages and resets of the clock, poison and exit notices, the
  externally provisioned path, host name resolution, and sending to a placeholder child (a known child is always there
  when messages are sent in the runs that are modelled).
- Provisioning and launching of nodes: a node actor's work ends in success, a failure before or a failure after launch, and
  on which machine the actor system creates it is not part of this model.
- Queries: `minimum_should_match`, which the program ignores, the text analysis of `match`, date formats and date arithmetic
  in ranges, the normalisation of field names, sort strings, and the mapping of aggregations to facets. A test on a field is opaque. A query node has one key.
- Query text beyond clauses: bounds and terms are single tokens for `QueryText.RoundTrip`; `TermsText` has their characters.
- Jinja: the regular expression that finds tokens is any set of disjoint spans, and JSON reading and writing between
  substitution and restoration is any change that keeps placeholders whole.
- ExternalCollect: the output directory and the source files are two separate trees, and the walk visits the output files
  there are at first; of files that appear in directories not yet listed, only what a second visit does to a reference is
  stated. Absolute references and links are not part of this model. Conversion of a file's text keeps its
  references.
- OperationConversion: the translation of search bodies is any function to a Solr body or a failure; operations are looked
  up by position rather than by reference; paths that differ as text are different files; log messages, and the list of
  the names that were skipped.
- OperationConversion.Operation.Convert: does not state how much of an operation is changed when an exception is raised,
  because the caller then discards the whole document.
- LineOffsets: whether a table is up to date, downloads of tables, encodings and universal newlines; a character is a byte.
- CorpusGenerator: reading the configuration, the metadata files, and an empty input file, on which the program hangs.
- DataSets.RunRefines: does not allow negative sizes before the end; `DataSets.RunsAgreeExactlyWhen` does.
- DataSets.RunsAgreeExactlyWhen: does not say whether rows that are read after a negative size without a seek or reset, from
  another place than the counter says, happen to be the same, which depends on the data.
- DataSets: HDF5 itself, the decoding of floats (a number is the value of its bytes) and arrays of numpy.
- RequestContexts: concurrent contexts that share an outer one; `raw_response`.
- TimeWindows: business-day frequencies, formats, the search for another frequency and its prompts; times are integers.
- DatasetGeneration: workers, windows running out, progress and logging; what workers return is given.
- Percentiles: floating-point rounding, the selection of samples by name and kind, mean and unit.
- Aggregation: booleans, relative standard deviations, the choice of result keys, and metrics that are None.
- Aggregation.CombineMetric: does not tell which of two fields with the same new name is taken (`overall_min` beside `min`,
  in results that are aggregates themselves), because fields have no order in this model.
- ScopedConfig: the configuration file, its defaults and its migration.
- HTTP clients, telemetry, result publishing, the command line, the worker coordinator and the workload loader.
