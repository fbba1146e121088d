# Chronicle client verification

A Dafny model of the parts of the Chronicle TypeScript client that carry algorithms, protocols and codecs, with proofs of what they
promise. `dafny verify dfyconfig.toml` checks the whole project.

The model follows the client's own forms. Classes with mutable fields stay classes (`EventBatch`, `BuiltProjection`, the connection
string builder, the token provider, the client and its lifecycle, the broadcaster, the round-robin strategy), loops stay loops with
invariants, and pure code is functions. Whatever runs over time is a function of the state and a step, so that the lemmas range over
every run; the classes are proved to do exactly what those functions say. A single append is a batch of one event
(`GuardedAppends.SingleAppendIsABatchOfOne`), so the protocol lemmas speak of batches. Every lemma switches automatic induction off, so
that each induction is one that is written down.

| modules | what they model |
|---|---|
| `PartitionSettlement`, `EventBatches`, `ReactorPageDispatcher`, `AcknowledgementExactness` | a delivered page of partitions fanned out to batch methods and per-event methods, how far each partition is acknowledged, and exactly when that is sound |
| `EventRouting`, `ConcurrencyGuards`, `GuardedAppends`, `ConcurrencyProtocol` | routing, guard planning, derived scopes, and the optimistic protocol of many clients over one log |
| `VariantReclassifier`, `VariantSemantics`, `VariantMerging`, `VariantExactness`, `VariantRuns`, `VariantExclusion` | merging shared handlers into variant projections and lowering them into update-only joins and removals, a small-step meaning for projection records, and exactly when merging and lowering preserve it and a group of variants is exclusive |
| `ProtobufWire`, `ProtobufStreams`, `SubscriptionContracts`, `SubscriptionRequests`, `UnknownRecords`, `ComplianceContracts`, `ExplicitFalse`, `WireBytes` | the hand-written encoders and decoders over the bytes of the Protocol Buffers Encoding specification (sections "Base 128 Varints", "Submessages", "Optional and Repeated Elements" and "Last One Wins") |
| `ServerAddresses`, `ConnectionStrings`, `ConnectionStringRoundTrip`, `WrittenConnectionStrings` | the connection string builder, printer and parser, over printed texts and over texts written by hand |
| `IndexCollector` | index paths over a type graph that may have cycles |
| `TokenProvider` | the OAuth token cache: clock, throttle, single flight |
| `ConnectionLifecycles`, `ChronicleClients`, `ConnectionRuns`, `ConnectionSteps` | connecting, recovering, classifying failures and giving up |
| `AppendOperations` | the multicast queue of append operations |
| `CanonicalJson`, `JsonText`, `DefinitionStamp` | canonical JSON text and the stable `LastUpdated` stamp |
| `Guids`, `RoundRobin`, `Paging` | Guid packing, round-robin selection, paged reads |
| `Wrappers`, `Texts`, `OrderedMaps` | optional values, text operations and insertion-ordered maps the others share |

## Findings

Where a property does not hold of the code as it stands, the model keeps the code and proves exactly when it holds.

- Acknowledging a reactor page is sound whatever the batch methods report exactly when every event of a batch lies in the partition the
  batch has for its source or is blocked by a failure of the page's own: the map from source to partition keeps the last one, so a
  report of the whole source holds only that one back (Source/reactors/ReactorPageDispatcher.ts:189-201;
  `AcknowledgementExactness.SoundExactlyWhenCovered`). When nothing else fails, that is when no batch holds a source for two partitions
  (`AcknowledgementExactness.SoundExactlyWhenTogether`).
- The number reported for "nothing observed" is also a sequence number: a partition whose last handled event has it reads as
  acknowledging nothing (Source/observation/batches/PartitionSettlement.ts:9; `PartitionSettlement.ReadsAsNothingObserved`).
- The no-lost-update claim needs no non-empty event source ids, only sequence numbers below the sentinels
  (Source/eventSequences/resolveEventSourceRouting.ts:107-124; `GuardedAppends.DerivedGuardIsExact`).
- Merging a shared mapping into a variant's record of its event type keeps that record's key and drops the shared one
  (Source/projections/VariantReclassifier.ts:73-78), so a shared mapping keyed otherwise acts on another instance. Merging changes
  nothing exactly when the records of each event type are keyed alike and set different properties, and of several own records of one
  type, of which the map keeps the last (Source/projections/VariantReclassifier.ts:61-63), no other sets anything
  (`VariantMerging.MergingPreservedExactly`).
- Reclassified joins follow the declared ones (Source/projections/VariantReclassifier.ts:112-127), so an update changes its place
  among the declared joins of its event type. When the records of a type agree on what its declared joins also set, lowering changes
  no update exactly when each record and each declared join of its event type commute: they set the properties they share by the same
  expression, and the record does not write what the join correlates on (`VariantExactness.UpdatesPreservedExactly`). In a kernel that
  applies removals first, lowering keeps a variant's activity exactly when no event type both updates it without entering it and
  removes it (`VariantExactness.ActivityPreservedExactly`). For variants that one event can set up in any state, the same conditions
  are exact over whole runs (`VariantRuns.RunsPreservedExactly`).
- Cross-wiring keeps a removal a variant already declares for a sibling's entering event, whatever its key
  (Source/projections/VariantReclassifier.ts:159-168). And although a variant is promised no removal for its own entering events
  (Source/projections/VariantReclassifier.ts:130-132), it gets one for each that enters a sibling too
  (`VariantExclusion.WiredAgainstItsOwnEntrance`): such an event then leaves neither variant active when removals act last and both when
  they act first (`VariantExclusion.SharedEntrance`). With removals first, a compiled group is exclusive over every run exactly when no
  kept removal is keyed elsewhere than on the event source and no event type enters two variants; with removals last, the first
  condition is enough, and exact among disjoint entrances (`VariantExclusion.ExclusiveExactly`).
- Callers that arrive during a recovery wait for it so as not to create a competing channel (Source/ChronicleClient.ts:321-322). A
  connect run and a recovery come to compete all the same, exactly when a recovery starts beside a connect run, or when a caller that
  waited for one recovery goes on while the next one is under way, because it does not look again
  (`ConnectionRuns.CompetitionBegins`); both occur (`ConnectionRuns.RecoveryBesideConnecting`, `ConnectionRuns.CallerBetweenRecoveries`).
- The rejection counter does not move on terminal server errors, and only the rejection that makes it exactly three creates the
  rejected-credentials error (Source/ChronicleClient.ts:438-447; `ConnectionRuns.ThirdRejectionGivesUp`).
- A read of materialized read models goes to the end of the page that holds `skip`, not `take` instances further, so it gives what
  was asked for exactly when `skip` starts a page or the list ends with that page; with a `take` that is not positive, `skip` is
  ignored (Source/readModels/MaterializedReadModels.ts:74-83; `Paging.ReadsWhatWasAsked`).
- A `next` that overtakes a waiting one replaces its resolver (Source/eventSequences/AppendOperationsBroadcaster.ts:34-44): no value
  is lost, but the overtaken promise is settled in no continuation of the run (`AppendOperations.OvertakenIsNeverSettled`), and the
  answers come in the order of the calls exactly when no call before the last answered one was overtaken
  (`AppendOperations.AnsweredInOrderExactly`).

## Model

| member | source | states |
|---|---|---|
| `PartitionSettlement.AcknowledgesExactlyTheUnblocked` | Source/observation/batches/PartitionSettlement.ts:35-53 | a settled partition acknowledges an event if and only if no problem of the partition lies at or before it, up to the sentinel collision |
| `PartitionSettlement.ReadsAsNothingObserved` | Source/observation/batches/PartitionSettlement.ts:9-53 | the report reads as "nothing observed" exactly when every event is blocked or the greatest unblocked number is the sentinel |
| `PartitionSettlement.EarliestIsMinimal` | Source/observation/batches/PartitionSettlement.ts:36-38 | the reduction finds a least problem of the partition, the first reported among equals, and none exactly when the partition has no problem |
| `PartitionSettlement.SettlesAsSuccess` | Source/observation/batches/PartitionSettlement.ts:35-44 | a partition without problems succeeded through its last number, or through the sentinel when it has no events |
| `PartitionSettlement.SettlesAsTheEarliest` | Source/observation/batches/PartitionSettlement.ts:36-53 | a partition with problems ends with the state, messages and delay of the first of its earliest ones, after the greatest number before it |
| `EventBatches.EventBatch.FailPartition` | Source/observation/batches/EventBatch.ts:69-72 | one failed outcome more with the error given, at the first event of a source reported as a whole and at exactly the number of an event reported; nothing when the batch does not hold the source |
| `EventBatches.EventBatch.DeferPartition` | Source/observation/batches/EventBatch.ts:81-88 | as failing, deferred by the nearest whole number of milliseconds that is not negative; a failure with its own message when the kernel takes no deferrals |
| `EventBatches.OutcomesAreLocatedReports` | Source/observation/batches/EventBatch.ts:69-104 | the outcomes of a run are exactly those of the reports whose source the batch holds |
| `EventBatches.WholePartitionReportCoversIt` | Source/observation/batches/EventBatch.ts:95-100 | a source reported as a whole is reported at or before each of its events in the batch |
| `EventBatches.LocateFinds` | Source/observation/batches/EventBatch.ts:95-104 | a report is located exactly when the batch holds its source: a source at its first event, an event at its own number |
| `ReactorPageDispatcher.ObservePartition` | Source/reactors/ReactorPageDispatcher.ts:212-247 | the handlers run up to the first event whose handler fails or whose content does not convert, and that event is the problem |
| `ReactorPageDispatcher.PerEventOutcome` | Source/reactors/ReactorPageDispatcher.ts:212-247 | without a problem every event with a selected handler finished; otherwise the problem is the first failing event's and every handler before it finished |
| `ReactorPageDispatcher.HandlerByEntry` | Source/reactors/ReactorDispatcher.ts:98-107 | an event has a handler exactly when the first entry of its type names a method for it, on replay the replay method if there is one, that the instance does not mark as once-only on replay |
| `ReactorPageDispatcher.PageOrLegacy` | Source/observation/batches/PageMessages.ts:13-26 | a message with partitions is a page of them, and one without is the one partition of its legacy fields |
| `ReactorPageDispatcher.InvokeBatchMethod` | Source/reactors/ReactorPageDispatcher.ts:186-210 | the problems are the located reports mapped to their partitions, or one problem at the first event of every partition when the method throws or returns a value |
| `ReactorPageDispatcher.BatchProblemsAreReports` | Source/reactors/ReactorPageDispatcher.ts:196-201 | the problems of a method that returned are exactly those its reports stand for: in the partition of the last event the batch holds of the source, at the place reported, with the report's own error or delay |
| `ReactorPageDispatcher.FailAllByPlace` | Source/reactors/ReactorPageDispatcher.ts:202-208 | a batch method that threw or returned a value fails each partition of its batch once, at its first event there, with what went wrong |
| `ReactorPageDispatcher.EventReportBlocksFromThere` | Source/reactors/ReactorPageDispatcher.ts:186-201 | an event reported by a method that returned blocks its partition from exactly its number on, and below that only reports of other sources do |
| `ReactorPageDispatcher.FinishedByReports` | Source/observation/batches/EventBatch.ts:65-88 | what a batch method finished: every event it was called with, when it returned, that no report of the event's source stands at or before |
| `ReactorPageDispatcher.CollectBatchEvents` | Source/reactors/ReactorPageDispatcher.ts:160-173 | the converted batch events in delivery order and a problem for each one that does not convert |
| `ReactorPageDispatcher.SortIsSortedPermutation` | Source/reactors/ReactorPageDispatcher.ts:174-175 | sorting by sequence number gives an ascending permutation |
| `ReactorPageDispatcher.SortIsStable` | Source/reactors/ReactorPageDispatcher.ts:174-175 | events with the same number stay in delivery order |
| `ReactorPageDispatcher.BatchMembers` | Source/reactors/ReactorPageDispatcher.ts:163-181 | a batch method is called with exactly the converted events of its types, in sequence |
| `ReactorPageDispatcher.BatchFinishesOrBlocks` | Source/reactors/ReactorPageDispatcher.ts:186-210 | whatever a batch method does, each event that lies in the partition the batch has for its source is finished by it or blocked by a problem it caused |
| `ReactorPageDispatcher.BatchAccountsExactlyWhenTogether` | Source/reactors/ReactorPageDispatcher.ts:186-210 | a batch is accounted for under every run of its method if and only if each source it holds lies in one partition |
| `ReactorPageDispatcher.ObserveBatches` | Source/reactors/ReactorPageDispatcher.ts:160-184 | the problems and the finished events of all batch methods, an empty batch being no call |
| `ReactorPageDispatcher.BatchesFinishOrBlock` | Source/reactors/ReactorPageDispatcher.ts:160-210 | after all batch methods ran, a batch event that lies in the partition each batch has for its source is finished by every method that observes it or blocked |
| `ReactorPageDispatcher.ObserveWith` | Source/reactors/ReactorPageDispatcher.ts:148-158 | every recorded invocation really finished, and every delivered event is settled or blocked, when each batch event lies in the partition the batch has for its source or is blocked by a failure of the page's own |
| `ReactorPageDispatcher.Observe` | Source/reactors/ReactorPageDispatcher.ts:106-141 | the same when an instance is activated, fails to activate, or fails to complete |
| `ReactorPageDispatcher.InstanceByActivation` | Source/reactors/ReactorPageDispatcher.ts:106-141 | a page is observed with an instance activated for it exactly when that is possible and some event has a batch method or a handler on the shared instance |
| `ReactorPageDispatcher.FailuresByCause` | Source/reactors/ReactorPageDispatcher.ts:136-141 | when activating or completing the instance fails, each partition fails at its first event with the messages of its earliest reported problem and the failure after them |
| `ReactorPageDispatcher.NotificationFailsAll` | Source/reactors/ReactorPageDispatcher.ts:76-104 | when announcing the delivery fails, each partition fails at its first event with its messages, and nothing runs |
| `ReactorPageDispatcher.FirstEventFailuresBlockAll` | Source/reactors/ReactorPageDispatcher.ts:271-294 | failing a partition at its first event blocks all of its events |
| `ReactorPageDispatcher.Dispatch` | Source/reactors/ReactorPageDispatcher.ts:60-74 | the result sent back, the settled outcomes and what finished; a quiet delivery succeeds in full |
| `ReactorPageDispatcher.ReportedEventIsNotAcknowledged` | Source/reactors/ReactorPageDispatcher.ts:60-201 | an event a batch method reported, and every later one of the partition the batch has for its source, is not acknowledged, whatever else goes wrong on the page |
| `ReactorPageDispatcher.ResultCarriesOutcomes` | Source/reactors/ReactorPageDispatcher.ts:303-320 | a page is answered with the settled outcome of each partition in order, the delay in whole milliseconds; a legacy delivery with its one outcome |
| `ReactorPageDispatcher.DispatchIsSound` | Source/reactors/ReactorPageDispatcher.ts:60-74 | acknowledgement soundness, whatever throws, fails, is deferred or is skipped, under the same condition: an event the settled outcomes acknowledge has no handler, is skipped for replay, or had every handler finish |
| `ReactorPageDispatcher.TogetherIsCovered` | Source/reactors/ReactorPageDispatcher.ts:189-201 | a page no batch of which holds a source for two partitions meets that condition |
| `AcknowledgementExactness.SplitSourceIsAcknowledgedUnhandled` | Source/reactors/ReactorPageDispatcher.ts:189-201 | for any batch event outside the partition the batch has for its source that no failure of the page's own blocks, there is a run in which it is acknowledged and its batch method did not finish it |
| `AcknowledgementExactness.UndisturbedIsObserved` | Source/reactors/ReactorPageDispatcher.ts:60-141 | an announced delivery whose instance is activated and completed is observed, and has no other problems |
| `AcknowledgementExactness.SoundExactlyWhenCovered` | Source/reactors/ReactorPageDispatcher.ts:60-210 | acknowledgement is sound under every run of the batch methods if and only if each batch event lies in the partition the batch has for its source or is blocked by a failure of the page's own |
| `AcknowledgementExactness.SoundExactlyWhenTogether` | Source/reactors/ReactorPageDispatcher.ts:60-210 | when nothing on the page fails by itself, that is if and only if no batch holds a source for two partitions |
| `ReactorPageDispatcher.LegacyDeliveryNeverDefers` | Source/reactors/ReactorPageDispatcher.ts:310-320 | the settled outcome of a legacy delivery is never a deferral, so its result is that outcome unchanged |
| `EventRouting.ResolvedRouteAgrees` | Source/eventSources/ResolvedEventRouting.ts:50-77 | a resolved route is the registered definition of the event's own source or else the shared one, with a declared stream, and agrees with every explicit type that is not a wildcard, the event's own or inherited |
| `EventRouting.SharedStreamIsNotInherited` | Source/eventSequences/resolveEventSourceRouting.ts:19-32 | an event that names its own source resolves alike whatever stream the options share |
| `EventRouting.ResolvesExactly` | Source/eventSources/ResolvedEventRouting.ts:50-77 | which calls resolve, to which definition and first declared stream of the name, and which error each other call gets |
| `EventRouting.OwnValuesWin` | Source/eventSequences/resolveEventSourceRouting.ts:19-32 | each value of an event is its own where it has one and the shared one otherwise; the stream goes with the source |
| `ConcurrencyGuards.PlanDerivedGuards` | Source/eventSequences/resolveEventSourceRouting.ts:67-91 | planning succeeds exactly when all guarded events of each id share one predicate; the plan guards exactly the ids that ask, by their first event; a failure names an id with two differing predicates |
| `ConcurrencyGuards.DerivedScopeNarrowsAsDeclared` | Source/eventSequences/resolveEventSourceRouting.ts:101-125 | a route derives a scope exactly when its stream or its source declares a dimension; the scope narrows by a dimension exactly when the stream declares it, or the source does and the stream declares none, and it expects the tail read under the same values |
| `ConcurrencyGuards.PredicateNamesWhatIsGuarded` | Source/eventSequences/resolveEventSourceRouting.ts:43-53 | the predicate guards are compared by holds the values of exactly those dimensions |
| `ConcurrencyGuards.SameScopeExactlyForSamePredicate` | Source/eventSequences/resolveEventSourceRouting.ts:43-53 | two guards of an id derive the same scope under a tail reader exactly when their predicates are equal |
| `ConcurrencyGuards.PlannedGuardSpeaksForEveryEvent` | Source/eventSequences/resolveEventSourceRouting.ts:72-91 | in a planned batch every guarded event of an id would derive the scope its id got, under any tail reader |
| `ConcurrencyGuards.UnguardedEventSuppressesNothing` | Source/eventSequences/resolveEventSourceRouting.ts:76-79 | an event without a guard, anywhere in the batch, changes neither plannability nor the plan |
| `GuardedAppends.PrepareScopes` | Source/eventSequences/prepareBatchAppend.ts:45-48 | every label keeps its scope and every other event source id gets the shared one |
| `GuardedAppends.ApplyBatchRouting` | Source/eventSequences/EventSequence.ts:260-270 | a routed event carries the definition's types and source, an unrouted one is unchanged |
| `GuardedAppends.DeriveScopes` | Source/eventSequences/EventSequence.ts:236-238 | exactly the planned ids get the scope derived for them, the others keep theirs |
| `GuardedAppends.AppendMany` | Source/eventSequences/EventSequence.ts:215-240 | explicit scopes reach the wire unchanged, each planned guard becomes its derived scope, ids with neither are unguarded, and nothing is sent when a route or a plan fails |
| `GuardedAppends.DerivedScopesGoOut` | Source/eventSequences/EventSequence.ts:215-240 | on the wire the id of an event whose route guards a dimension, without an explicit scope, narrows by exactly what that route guards and expects the tail read |
| `GuardedAppends.UnderivedScopesGoOut` | Source/eventSequences/EventSequence.ts:215-240 | an explicit scope goes out as it is, the labelled one before the shared one; an id with neither none of whose routes guards a dimension goes out unguarded |
| `GuardedAppends.EventsGoOutRouted` | Source/eventSequences/EventSequence.ts:260-270 | each event goes out with its own values or the shared ones, except that a resolved route puts its definition's name for the source and its type and its stream's name for the stream type |
| `GuardedAppends.SingleAppendIsABatchOfOne` | Source/eventSequences/EventSequence.ts:138-189 | a single append fails and sends exactly as a batch of that one event under the same options |
| `GuardedAppends.DerivedGuardIsExact` | Source/eventSequences/resolveEventSourceRouting.ts:101-125 | an append guarded by a scope derived from a tail read passes if and only if no event of that scope was appended since the read |
| `GuardedAppends.GuardedEventIsInItsScope` | Source/eventSequences/resolveEventSourceRouting.ts:107-124 | a guarded event lies in its own derived scope, so it conflicts with guards like its own |
| `GuardedAppends.ScopeEncodingIsFaithful` | Source/eventSequences/EventSequence.ts:781-794 | only the sentinel is encoded as "no matching event", and numbers below the sentinels survive the wire |
| `GuardedAppends.ScopeByFields` | Source/eventSequences/EventSequence.ts:781-794 | how a scope is encoded, field by field; without one nothing is checked |
| `ConcurrencyProtocol.NoLostUpdate` | Source/eventSequences/EventSequence.ts:215-240 | in every interleaving of clients, a commit guarded by a scope derived from a read has no event of that scope between the read and the commit |
| `ConcurrencyProtocol.GuardedCommitsAreOrdered` | Source/eventSequences/EventSequence.ts:236-238 | of two commits with the same predicate, held for the same or for different event source ids, the later read after the earlier committed and holds another scope, so two clients that derived the same scope from the same tail cannot both commit |
| `ConcurrencyProtocol.RejectionIsARealConflict` | Source/eventSequences/resolveEventSourceRouting.ts:116-124 | a batch without explicit scopes is rejected exactly when an event of one of its scopes was appended since its read |
| `ConcurrencyProtocol.AcceptsExactlyTheRequest` | Source/eventSequences/EventSequence.ts:215-240 | the kernel accepts a pending batch if and only if it permits every scope of the request sent for it, and it stores the request's events |
| `ConcurrencyProtocol.InScopeByRoute` | Source/eventSequences/resolveEventSourceRouting.ts:101-125 | an event is in the scope of a guard exactly when it agrees with it in each dimension the route guards, an empty value agreeing with any |
| `ConcurrencyProtocol.BeginTakes` | Source/eventSequences/EventSequence.ts:208-222 | a batch that resolves and can be planned is taken with the events to store, the guards planned and none of them read, and the explicit scopes |
| `ConcurrencyProtocol.ReadTakes` | Source/eventSequences/EventSequence.ts:236-238 | a read holds one guard with the scope derived from the tail of that moment and changes nothing else |
| `ConcurrencyProtocol.AppendTakes` | Source/eventSequences/EventSequence.ts:215-240 | a batch whose guards are all held is stored and remembered exactly when each of its scopes permits it, and the client is done with it either way |
| `VariantReclassifier.EventTypeKeyIsOneToOne` | Source/projections/VariantReclassifier.ts:35-37 | the key texts of two event types are equal only for the same event type, even with colons in identifiers |
| `VariantReclassifier.MergeGlobalHandlers` | Source/projections/VariantReclassifier.ts:50-82 | merging fails exactly when a shared mapping names a property the variant does not have, and names it; otherwise it is the merge below |
| `VariantReclassifier.MergedRecordIsContribution` | Source/projections/VariantReclassifier.ts:65-79 | the merge keeps one record per event type: the own one with every shared mapping of the type laid over it in order |
| `VariantReclassifier.MergedPropertiesByPlace` | Source/projections/VariantReclassifier.ts:60-79 | each property of the merged record of an event type is set by the last shared record of the type that sets it, and where none does as by the last own record; nothing else is set |
| `VariantReclassifier.MergedKeysByPlace` | Source/projections/VariantReclassifier.ts:60-79 | an event type has one merged record exactly when some record declares it, with the keys of the last own record, or else of the first shared one |
| `VariantMerging.MergedStep` | Source/projections/VariantReclassifier.ts:60-81 | on every event and key the merged records of a variant do what the one record does that its own and the shared records of the event's type add up to |
| `VariantMerging.MergingPreservedExactly` | Source/projections/VariantReclassifier.ts:50-82 | merging changes nothing, over every evaluation, key, event and instance, if and only if the records of each event type are keyed alike and set different properties and no own record is lost that sets one |
| `VariantMerging.DroppedKeyDiffers` | Source/projections/VariantReclassifier.ts:75-77 | a record keyed unlike the one the merge keeps makes merging differ for some evaluation, event and key |
| `VariantMerging.FewerWritesDiffer` | Source/projections/VariantReclassifier.ts:76 | a property the merged record writes less often than the declared ones makes merging differ |
| `VariantMerging.MergingAndLoweringPreserveMeaning` | Source/projections/VariantReclassifier.ts:50-128 | over every run of a cleanly merged and safely lowered variant an active instance was created by an entering event and holds what the own and the shared records, one after the other, give from that event on |
| `VariantReclassifier.Reclassify` | Source/projections/VariantReclassifier.ts:97-128 | entering records stay, every other becomes a join on the variant's own key after the declared joins; no entering event is an error |
| `VariantReclassifier.OneRecordMore` | Source/projections/VariantReclassifier.ts:97-128 | each record in order stays when its event type enters the variant and otherwise becomes a join on the variant's key, keyed as it was or on the event source, setting the same properties |
| `VariantReclassifier.CollectRemovals` | Source/projections/VariantReclassifier.ts:153-178 | the removals of one variant: its own, then one for each event type that enters a sibling and has none |
| `VariantReclassifier.CrossWireGroups` | Source/projections/VariantReclassifier.ts:140-179 | every projection ends with exactly its wired removals, those without a variant or without siblings unchanged |
| `VariantReclassifier.WiredRemovalOf` | Source/projections/VariantReclassifier.ts:159-177 | an event type's removal after wiring: the existing one, or one on the event source exactly when it enters a sibling, whatever the discovery order |
| `VariantReclassifier.WiredByDeclaration` | Source/projections/VariantReclassifier.ts:140-179 | by the declarations: a variant with a sibling of the same identity removes on the event source whatever enters one, where it declares no removal for it itself; a projection without siblings keeps what it declares |
| `VariantReclassifier.CrossWiringIsIdempotent` | Source/projections/VariantReclassifier.ts:153-178 | wiring twice is wiring once |
| `VariantSemantics.UpdatingJoinsAct` | Source/projections/VariantReclassifier.ts:112-125 | the joins made from records do to an active instance what the records did, and nothing to an inactive one |
| `VariantSemantics.LoweredStep` | Source/projections/VariantReclassifier.ts:97-128 | one event does to a lowered variant what it did to the original while active or entering, and nothing otherwise |
| `VariantSemantics.LoweringPreservesMeaning` | Source/projections/VariantReclassifier.ts:84-128 | over every run an active instance was created by an entering event and holds what the original records give from that event on |
| `VariantExactness.UpdatesPreservedExactly` | Source/projections/VariantReclassifier.ts:112-127 | lowering changes no update of an active instance, over every evaluation, key, event and instance, if and only if each record commutes with each declared join of its non-entering event type |
| `VariantExactness.DifferentExpressionsDiffer` | Source/projections/VariantReclassifier.ts:127 | a record and a declared join that set a property by different expressions make the lowered update differ for some evaluation, event and instance |
| `VariantExactness.WrittenCorrelationDiffers` | Source/projections/VariantReclassifier.ts:127 | so does a record that writes the property a declared join correlates on |
| `VariantExactness.DisagreeingRecordsMayBeHarmless` | Source/projections/VariantReclassifier.ts:127 | why the condition asks the records of one event type to agree: a definition whose records disagree and whose updates lowering preserves although they do not commute with its joins |
| `VariantExactness.RemovalFirstLosesTheUpdate` | Source/projections/VariantReclassifier.ts:113-124 | if removals act first, a non-entering event that also removes leaves the lowered variant inactive, and the original active exactly when it also has a record for the event and key |
| `VariantExactness.ActivityPreservedExactly` | Source/projections/VariantReclassifier.ts:113-124 | if removals act first, lowering keeps activity over every evaluation, key, event and instance if and only if no event type both updates without entering and removes |
| `VariantRuns.LoweringGates` | Source/projections/VariantReclassifier.ts:84-128 | over every run the lowered records are the original ones, let through while the variant is active and on entering events |
| `VariantRuns.RunsPreservedExactly` | Source/projections/VariantReclassifier.ts:84-128 | for a variant that one event can set up in any state, that holds of every run if and only if lowering is safe, with removals first; with removals last too, when no event both updates and removes |
| `VariantExclusion.AtMostOneVariantIsActive` | Source/projections/VariantReclassifier.ts:130-139 | over every event sequence and every key, no two variants of an exclusive group are active |
| `VariantExclusion.ExclusiveExactly` | Source/projections/VariantReclassifier.ts:140-179 | with removals first, a lowered and wired group whose variants can be entered is exclusive over every run and key if and only if no kept removal is keyed elsewhere and no event type enters two variants; with removals last the first condition suffices, and is exact among disjoint entrances |
| `VariantExclusion.CompiledGroupIsExclusive` | Source/projections/VariantReclassifier.ts:140-179 | lowering and wiring make a group exclusive when no kept removal is keyed elsewhere and, if removals act first, entering types are disjoint |
| `VariantExclusion.RemovalKeyedElsewhereBreaksExclusion` | Source/projections/VariantReclassifier.ts:159-168 | a kept removal keyed elsewhere lets two variants of the compiled group be active in some run, under either order of removals |
| `VariantExclusion.WiredAgainstItsOwnEntrance` | Source/projections/VariantReclassifier.ts:130-170 | a variant is wired against an event type that enters it if and only if the type enters a sibling too |
| `VariantExclusion.SharedEntrance` | Source/projections/VariantReclassifier.ts:130-170 | an event that enters two variants leaves each of them active if and only if removals act first, whatever they were before |
| `ProtobufWire.Varint64RoundTrip` | Source/eventStoreSubscriptions/contracts.ts:220-256 | a 64-bit varint is read back and consumes exactly its bytes |
| `WireBytes.NumbersAsRead` | Source/eventStoreSubscriptions/contracts.ts:243-248 | a number is read as its low 32 bits and a flag as whether it is zero |
| `ProtobufWire.SkipConsumesPayload` | Source/eventStoreSubscriptions/contracts.ts:250-253 | skipping a well-formed record, groups included, consumes exactly its payload |
| `WireBytes.PayloadsAsSkipped` | Source/eventStoreSubscriptions/contracts.ts:250-253 | eight or four bytes are skipped by wire type, and the wire types that do not exist are refused |
| `ProtobufWire.ReadsEveryField` | Source/eventStoreSubscriptions/contracts.ts:107-127 | the decoding loop over any list of well-formed records is the fold of its cases over them and stops at their last byte |
| `ProtobufWire.UnknownFieldsChangeNothing` | Source/eventStoreSubscriptions/contracts.ts:121-124 | records a decoder does not know change nothing, wherever they are inserted |
| `ProtobufStreams.BinaryWriter.Join` | Source/eventStoreSubscriptions/contracts.ts:103 | joining a fork writes the length of what was written since it and then those bytes |
| `SubscriptionContracts.EncodeEventType` | Source/eventStoreSubscriptions/contracts.ts:221-232 | the encoder appends exactly the records of the fields that are not default, or fails when a value does not fit |
| `SubscriptionContracts.DecodeEventType` | Source/eventStoreSubscriptions/contracts.ts:233-256 | the decoder is the decoding loop over its cases, within its length |
| `SubscriptionContracts.EventTypeDecodes` | Source/eventStoreSubscriptions/contracts.ts:220-256 | an encoded event type decodes onto another as their field-wise merge and consumes exactly its bytes |
| `SubscriptionContracts.EncodeDefinition` | Source/eventStoreSubscriptions/contracts.ts:155-166 | the encoder appends exactly the records of a definition, each event type nested under its length |
| `SubscriptionContracts.DecodeDefinition` | Source/eventStoreSubscriptions/contracts.ts:167-190 | the decoder is the decoding loop over its cases, nested event types included |
| `SubscriptionContracts.DefinitionDecodes` | Source/eventStoreSubscriptions/contracts.ts:154-190 | an encoded definition decodes onto another as their merge and consumes exactly its bytes |
| `SubscriptionRequests.EncodeAdditions` | Source/eventStoreSubscriptions/contracts.ts:98-106 | the encoder appends exactly the records of the request |
| `SubscriptionRequests.DecodeAdditions` | Source/eventStoreSubscriptions/contracts.ts:107-127 | the decoder is the decoding loop over its cases |
| `SubscriptionRequests.AdditionsRoundTrip` | Source/eventStoreSubscriptions/contracts.ts:97-127 | the encoding of any request, with any number of definitions and event types, decodes to it and is consumed to the byte |
| `SubscriptionRequests.ConcatenationMerges` | Source/eventStoreSubscriptions/contracts.ts:107-127 | two encodings in a row decode to the merge: the last non-empty text wins, lists append |
| `UnknownRecords.UnknownRecordsAreIgnored` | Source/eventStoreSubscriptions/contracts.ts:107-256 | two requests whose known records agree, down to the definitions and event types nested in them, decode to the same message, wherever unknown records stand at any of the three levels |
| `UnknownRecords.AddedToNestedAgrees` | Source/eventStoreSubscriptions/contracts.ts:121-124 | unknown records put into a definition and into one of its event types are such a difference |
| `SubscriptionRequests.ListingDecodes` | Source/eventStoreSubscriptions/contracts.ts:388-410 | a listing of any length decodes to itself after what was read before, to the byte |
| `SubscriptionRequests.DecodeListing` | Source/eventStoreSubscriptions/contracts.ts:394-410 | the decoder is the decoding loop over its case |
| `SubscriptionRequests.RemovalsDecode` | Source/eventStoreSubscriptions/contracts.ts:284-314 | a removal decodes onto another as their merge; empty ids are written and read |
| `SubscriptionRequests.DecodeRemovals` | Source/eventStoreSubscriptions/contracts.ts:294-314 | the decoder is the decoding loop over its cases |
| `SubscriptionRequests.EncodeRemovals` | Source/eventStoreSubscriptions/contracts.ts:285-293 | the encoder appends exactly the records of a removal |
| `WireBytes.EventTypeBytes` | Source/eventStoreSubscriptions/contracts.ts:221-232 | the bytes of an event type: id under tag 10, generation under 16, tombstone under 24 |
| `WireBytes.SparseEventTypeBytes` | Source/eventStoreSubscriptions/contracts.ts:221-232 | default values are not written, and a generation above 127 takes two bytes |
| `WireBytes.DefinitionBytes` | Source/eventStoreSubscriptions/contracts.ts:155-166 | the bytes of a definition: identifier under tag 10, source store under 18, an event type with its length under 26 |
| `WireBytes.RequestBytes` | Source/eventStoreSubscriptions/contracts.ts:98-106 | the bytes of a request to add: target store under tag 10, a definition with its length under 18; in a listing under 10 |
| `WireBytes.RemovalBytes` | Source/eventStoreSubscriptions/contracts.ts:285-293 | the bytes of a request to remove: target store under tag 10, an id under 18, also an empty one |
| `ComplianceContracts.FlatDecodes` | Source/compliance/ComplianceContracts.ts:66-230 | for any flat schema, an encoded message decodes onto another as their field-wise merge, to the byte |
| `ComplianceContracts.MessageRoundTrip` | Source/compliance/ComplianceContracts.ts:65-255 | each message of the service decodes from its encoding to itself, to the byte |
| `ComplianceContracts.EncodeFlat` | Source/compliance/ComplianceContracts.ts:66-84 | the encoder appends exactly the records of the values that are not default |
| `WireBytes.ComplianceFields` | Source/compliance/ComplianceContracts.ts:65-255 | which kind of value each field of each message of the service has |
| `WireBytes.FlatBytes` | Source/compliance/ComplianceContracts.ts:66-84 | the bytes of a flat message: each value that is not a default under eight times its number, plus two for a text |
| `ComplianceContracts.DecodeFlat` | Source/compliance/ComplianceContracts.ts:85-110 | the decoder is the decoding loop over the schema's fields |
| `ExplicitFalse.MessageDefinition.WriteExplicitFalse` | Source/connection/encodeExplicitFalse.ts:21-41 | after it the encoder delivers every flag of every message to decoders of either default; it appends exactly the false flags to what the generated encoder writes, and a second call changes nothing |
| `ExplicitFalse.ApplyExplicitFalseEncoding` | Source/connection/encodeExplicitFalse.ts:47-54 | however often applied, a kernel that takes an absent flag for true reads the flags of reactors and webhooks as they are |
| `ExplicitFalse.WrappedFlagsArrive` | Source/connection/encodeExplicitFalse.ts:29-38 | wrapping any encoder that omits false flags makes every flag arrive from the bytes |
| `ExplicitFalse.AppendExplicitFalses` | Source/connection/encodeExplicitFalse.ts:30-38 | after the original encoding, a zero record for every flag that is false and for no other |
| `ExplicitFalse.FlagsAreRecoveredFromBytes` | Source/connection/encodeExplicitFalse.ts:30-38 | from the bytes written, a decoder reads every flag as it is, whatever it takes an absent flag for |
| `ExplicitFalse.FlagsAreRecovered` | Source/connection/encodeExplicitFalse.ts:8-11 | the same on the records |
| `ExplicitFalse.WithoutItFalseReadsAsTrue` | Source/connection/encodeExplicitFalse.ts:8-11 | without the wrapper every flag reads as true |
| `ExplicitFalse.OtherFieldsAreLeftAlone` | Source/connection/encodeExplicitFalse.ts:32-36 | the records of the other fields are the same, in the same order |
| `ServerAddresses.SplitHostList` | Source/connection/ChronicleConnectionString.ts:31-57 | the splitter computes the top-level entries of a host list |
| `ServerAddresses.SplitHostListOfJoin` | Source/connection/ChronicleConnectionString.ts:31-57 | splitting undoes joining for entries that balance their brackets, whatever commas stand inside them |
| `ServerAddresses.ParseOfFormat` | Source/connection/formatServerAddress.ts:13-16 | parsing a formatted address gives it back, for names, IPv4 and IPv6 addresses and any port |
| `ConnectionStrings.ChronicleConnectionStringBuilder.SetHost` | Source/connection/ChronicleConnectionString.ts:141-143 | setting the host leaves one host, with the first host's port, and nothing else changed |
| `ConnectionStrings.ChronicleConnectionStringBuilder.SetOrDelete` | Source/connection/ChronicleConnectionString.ts:162-169 | a text setter stores a non-empty text and deletes on an empty one |
| `ConnectionStrings.ChronicleConnectionStringBuilder.Build` | Source/connection/ChronicleConnectionString.ts:331-402 | the built text is the printed form of what the getters say, or the error for several SRV hosts or an unknown load balancer |
| `ConnectionStrings.ChronicleConnectionStringBuilder.KnownParameters` | Source/connection/ChronicleConnectionString.ts:348-378 | the parameters pushed are those of the slots that hold something, in order |
| `ConnectionStrings.ChronicleConnectionStringBuilder.ParseConnectionString` | Source/connection/ChronicleConnectionString.ts:412-466 | parsing a text leaves the properties and hosts of the specification, or its error |
| `ConnectionStringRoundTrip.CredentialsOf` | Source/connection/ChronicleConnectionString.ts:443-452 | the credentials before the last at sign give back the username and the password |
| `ConnectionStringRoundTrip.ParsePrinted` | Source/connection/ChronicleConnectionString.ts:419-466 | parsing a printed text stores exactly the settings that hold something, in order, and the hosts |
| `ConnectionStringRoundTrip.ObserveStored` | Source/connection/ChronicleConnectionString.ts:123-329 | the getters read the stored settings back as they were |
| `ConnectionStringRoundTrip.ParseOfPrint` | Source/connection/ChronicleConnectionString.ts:331-466 | for every builder whose texts need no percent-coding, parsing the built string gives the same settings, and building again the same text |
| `WrittenConnectionStrings.ParseOfWritten` | Source/connection/ChronicleConnectionString.ts:59-94 | a host with white space around it, in brackets or not, is read with the port given, and with 35000 when none or an empty one is |
| `WrittenConnectionStrings.NoHostIsRefused` | Source/connection/ChronicleConnectionString.ts:81-83 | an entry without a host is refused |
| `WrittenConnectionStrings.BadBracketsAreRefused` | Source/connection/ChronicleConnectionString.ts:67-83 | nothing between brackets and a bracket that nothing closes are refused |
| `WrittenConnectionStrings.RefusedPort` | Source/connection/ChronicleConnectionString.ts:89-92 | a port with a character that no numeral holds is refused |
| `WrittenConnectionStrings.KnownSchemes` | Source/connection/ChronicleConnectionString.ts:412-417 | a text is parsed exactly when it starts with one of the two schemes, whatever the case of its letters |
| `WrittenConnectionStrings.ParseOfText` | Source/connection/ChronicleConnectionString.ts:419-466 | a text written by hand, with ports, credentials, path and query left out or not, gives the hosts meant and under each key its last parameter, or else what scheme and credentials left; several hosts under the SRV scheme are refused |
| `WrittenConnectionStrings.OtherTextsAreIgnored` | Source/connection/ChronicleConnectionString.ts:412-417 | a text under another scheme leaves the builder empty |
| `WrittenConnectionStrings.GettersByKey` | Source/connection/ChronicleConnectionString.ts:123-329 | what each getter says of the property under its key, with its default |
| `WrittenConnectionStrings.PrintedHost` | Source/connection/formatServerAddress.ts:13-16 | a host is printed in brackets exactly when it holds a colon, and always with its port |
| `WrittenConnectionStrings.PrintedParameters` | Source/connection/ChronicleConnectionString.ts:348-378 | which parameters are printed, in which order and with which value |
| `WrittenConnectionStrings.PrintedText` | Source/connection/ChronicleConnectionString.ts:331-402 | the printed text part by part; several hosts under the SRV scheme and an unknown load balancer are refused |
| `IndexCollector.Collector.Collect` | Source/readModels/indexDecorator.ts:36-58 | the walk keeps every listed path sound and unique, expands only unvisited types, and leaves every visited type outside those still being walked done |
| `IndexCollector.ClosedHoldsReachable` | Source/readModels/indexDecorator.ts:36-58 | a done set of types that holds the root holds every reachable type |
| `IndexCollector.GetIndexesForType` | Source/readModels/indexDecorator.ts:31-62 | each marked member of each reachable type has exactly one path, each path is the way to one, and the paths come in the order of a depth-first walk over the members, each type on its first way |
| `IndexCollector.NestedGoesTo` | Source/readModels/indexDecorator.ts:47-54 | the walk goes on to the type a member is of or a list of, where the decorator of a list is decisive, and to no built-in type, concept or Guid |
| `IndexCollector.PathNamesTheWay` | Source/readModels/indexDecorator.ts:42-45 | splitting a listed path at its dots gives the names that lead to its member |
| `IndexCollector.PathsDiffer` | Source/readModels/indexDecorator.ts:41-45 | when members of a type have different names, no path is listed twice |
| `TokenProvider.OAuthTokenProvider.GetAccessToken` | Source/connection/TokenProvider.ts:88-110 | a call answers from a fresh token, joins the fetch under way, answers from a valid token or with nothing while throttled, and otherwise starts a fetch |
| `TokenProvider.OAuthTokenProvider.Refresh` | Source/connection/TokenProvider.ts:112-118 | a refresh forgets token, expiry and failure, but not the fetch under way, and then asks |
| `TokenProvider.OAuthTokenProvider.FetchSucceeded` | Source/connection/TokenProvider.ts:138-144 | a response stores the token until its lifetime from now, or an hour, and forgets the failure |
| `TokenProvider.OAuthTokenProvider.FetchFailed` | Source/connection/TokenProvider.ts:145-151 | a failure is remembered with its time and falls back to the cached token while that is valid |
| `TokenProvider.AnswersByTime` | Source/connection/TokenProvider.ts:88-135 | which of the four answers a call gives, by the minute of margin, the fetch under way, and the five seconds after a failure that tells of no rejected credentials; a throttled call falls back to a token that has not expired |
| `TokenProvider.FailedFetchFallsBack` | Source/connection/TokenProvider.ts:145-151 | a failed fetch gives its callers the held token while it has not expired, and rejects them otherwise |
| `TokenProvider.GrantsForItsLifetime` | Source/connection/TokenProvider.ts:138-144 | a granted token is held for its lifetime, or for an hour when the response gives no positive one |
| `TokenProvider.OneFetchServesAll` | Source/connection/TokenProvider.ts:88-110 | after a fetch every call until a minute before expiry is answered with its token and none starts another fetch |
| `TokenProvider.ChosenIsSupplied` | Source/connection/TokenProvider.ts:88-151 | the token a step supplies to its callers is the one it answers with, found good at that moment |
| `TokenProvider.StepLeaves` | Source/connection/TokenProvider.ts:88-151 | what each step leaves of the cache, the fetches under way, the clock and the grants |
| `TokenProvider.SingleFlight` | Source/connection/TokenProvider.ts:93-109 | in every run at most one fetch is outstanding |
| `TokenProvider.SuppliedTokensAreUnexpired` | Source/connection/TokenProvider.ts:120-135 | in every run each token supplied was granted by the server for longer than the moment it is chosen |
| `TokenProvider.RefreshIsAFetch` | Source/connection/TokenProvider.ts:112-118 | a refresh never answers from the cache |
| `TokenProvider.TransientFailuresAreThrottled` | Source/connection/TokenProvider.ts:124-131 | after any run, transient failures without a refresh start at most floor(W/5000)+1 fetches in any window of W milliseconds |
| `TokenProvider.RejectionsAreRetried` | Source/connection/TokenProvider.ts:125-129 | in every run whose last settled fetch was an authentication rejection and is released, the next call starts a fetch, however little time has passed |
| `ConnectionLifecycles.ConnectionLifecycle.Fail` | Source/connection/ConnectionLifecycle.ts:67-72 | the first failure is recorded, disconnects and invokes the handlers; a later one does nothing |
| `ConnectionLifecycles.ConnectionLifecycle.Connect` | Source/connection/ConnectionLifecycle.ts:77-81 | connects and invokes the handlers, unless a failure is recorded |
| `ChronicleClients.ChronicleClient.TerminalConnectionError` | Source/ChronicleClient.ts:438-447 | terminal errors pass through without touching the counter; others count or reset it, and the third creates the rejected-credentials error |
| `ChronicleClients.RejectionsByCodeAndCause` | Source/ChronicleClient.ts:438-454 | which failures count against the credentials: code 16 with an API key, or with a token refused by status 400 or 401 and one of three codes |
| `ChronicleClients.RecoveriesByCodeAndCause` | Source/ChronicleClient.ts:456-466 | which failures start a recovery: code 16 with an API key or a failed token, the codes 4, 13 and 14, and those that mention the connection |
| `ChronicleClients.FailuresAreCounted` | Source/ChronicleClient.ts:438-447 | an ending error leaves the count alone and gives up, a rejection adds one, anything else resets it, and the third in a row gives up |
| `ChronicleClients.ChronicleClient.FailConnection` | Source/ChronicleClient.ts:549-560 | the client's failure is replaced, the lifecycle's is recorded once, and its handlers are invoked with the first one only |
| `ChronicleClients.ChronicleClient.Catch` | Source/ChronicleClient.ts:291-299 | a failure is classified and, when terminal, given up on, which invokes the failure handlers the first time |
| `ChronicleClients.ChronicleClient.EnsureConnecting` | Source/ChronicleClient.ts:324-334 | goes on when connected, joins the connect operation, or starts one |
| `ChronicleClients.ChronicleClient.Reconnect` | Source/ChronicleClient.ts:337-347 | throws the recorded failure, joins the recovery, or starts one |
| `ConnectionRuns.OneRunOfEachKind` | Source/ChronicleClient.ts:328-347 | in every interleaving at most one connect run and one recovery run are not over |
| `ConnectionRuns.CompetitionBegins` | Source/ChronicleClient.ts:312-347 | in every interleaving a connect run and a recovery come to compete if and only if a recovery starts beside a connect run or a caller that waited for one recovery goes on during the next |
| `ConnectionRuns.CompetingExactly` | Source/ChronicleClient.ts:321-334 | the same for one step; a caller that arrives during a recovery starts nothing beside it |
| `ConnectionRuns.RecoveryBesideConnecting` | Source/ChronicleClient.ts:337-347 | a run in which a recovery starts beside a connect run |
| `ConnectionRuns.CallerBetweenRecoveries` | Source/ChronicleClient.ts:322-334 | a run in which a caller starts a connect run beside the recovery after the one it waited for |
| `ConnectionRuns.FailureIsFinal` | Source/connection/ConnectionLifecycle.ts:67-81 | once the lifecycle records a failure no continuation changes it or connects again |
| `ConnectionRuns.FailureIsAnnouncedOnce` | Source/connection/ConnectionLifecycle.ts:61-72 | once a step has recorded a failure, each handler registered just before it was invoked once and no other handler was, whatever failures and registrations follow |
| `ConnectionRuns.NoFailureIsAnnounced` | Source/connection/ConnectionLifecycle.ts:67-72 | in every run without a recorded failure no failure handler was invoked |
| `ConnectionRuns.RunKeepsInv` | Source/ChronicleClient.ts:262-447 | every run keeps: the rejection counter is the number of trailing rejections, each operation names its run, a failed lifecycle is disconnected |
| `ConnectionSteps.RunsByStep` | Source/ChronicleClient.ts:262-393 | each step moves the run it names on to its next phase or clears it, and leaves every other run alone |
| `ConnectionSteps.NewRunsByStep` | Source/ChronicleClient.ts:312-365 | which steps start a connect run or a recovery, and in which phase |
| `ConnectionSteps.OperationsByStep` | Source/ChronicleClient.ts:328-347 | each operation is set by the step that starts its run and cleared with that run |
| `ConnectionSteps.CallersByStep` | Source/ChronicleClient.ts:312-334 | which calls are taken, which wait for a recovery, and which are gone |
| `ConnectionSteps.ConnectedByStep` | Source/ChronicleClient.ts:349-393 | when the client becomes connected, and when it is so no longer |
| `ConnectionSteps.FailuresByStep` | Source/ChronicleClient.ts:438-447 | the client takes the last failure that ends the connection and the lifecycle the first; the count is reset by a probe and otherwise moved by failures alone |
| `ConnectionSteps.RecordsByStep` | Source/ChronicleClient.ts:438-447 | each probe and each failure is remembered by its kind, in order |
| `ConnectionSteps.CompetingIsBoth` | Source/ChronicleClient.ts:312-347 | two operations compete exactly when a connect run and a recovery are both not over |
| `ConnectionRuns.ThirdRejectionGivesUp` | Source/ChronicleClient.ts:438-447 | in every interleaving a failure creates the rejected-credentials error exactly when it is the third of an unbroken row of rejections since a probe or another failure |
| `ConnectionRuns.NoRecoveryAfterFailure` | Source/ChronicleClient.ts:337-338 | after a failure no recovery starts |
| `AppendOperations.AppendOperationsQueue.Send` | Source/eventSequences/AppendOperationsBroadcaster.ts:14-23 | a value settles the waiting call or is buffered; a completed queue takes nothing |
| `AppendOperations.AppendOperationsQueue.Next` | Source/eventSequences/AppendOperationsBroadcaster.ts:34-44 | the oldest buffered value, the end, or a wait that replaces an earlier one |
| `AppendOperations.AppendOperationsBroadcaster.Publish` | Source/eventSequences/AppendOperationsBroadcaster.ts:63-67 | every current subscriber is sent the value once, and nobody else |
| `AppendOperations.NothingIsLost` | Source/eventSequences/AppendOperationsBroadcaster.ts:8-83 | in every run, what a subscriber received followed by its buffer is exactly what was published between its subscription and its return, in order; a waiting call finds the buffer empty |
| `AppendOperations.EveryCallIsAccounted` | Source/eventSequences/AppendOperationsBroadcaster.ts:8-44 | in every run each call of `next` is in exactly one place: settled with a value, settled with the end, overtaken, or waiting |
| `AppendOperations.OvertakenIsNeverSettled` | Source/eventSequences/AppendOperationsBroadcaster.ts:34-44 | in no continuation of a run is an overtaken call settled, with a value or with the end |
| `AppendOperations.AnsweredInOrderExactly` | Source/eventSequences/AppendOperationsBroadcaster.ts:34-44 | in every run the k-th value received answers call number k, for every k, if and only if no call before the last answered one was overtaken |
| `AppendOperations.OvertakesExactlyWhenTwoWait` | Source/eventSequences/AppendOperationsBroadcaster.ts:34-44 | a call was overtaken if and only if `next` was called while one waited |
| `AppendOperations.CallsAreAnsweredInOrder` | Source/eventSequences/AppendOperationsBroadcaster.ts:34-44 | one call at a time, call number k is settled with the k-th value published to the subscriber |
| `CanonicalJson.SortSorts` | Source/projections/canonicalStringify.ts:10 | sorting members of unique keys gives a strictly sorted list of the same members |
| `CanonicalJson.IndexByDigits` | Source/projections/canonicalStringify.ts:10 | which keys are array indices: digits without a leading zero below 4294967295 |
| `CanonicalJson.KeysByUnits` | Source/projections/canonicalStringify.ts:5-12 | keys that are array indices come first, by number, and the others unit by unit |
| `CanonicalJson.CanonicalForm` | Source/projections/canonicalStringify.ts:5-12 | two values have the same canonical form exactly when they differ in the order of object members only |
| `JsonText.EscapeDetermined` | Source/projections/canonicalStringify.ts:6 | a quoted string determines its text and its end, surrogates and control characters included |
| `JsonText.TextDetermines` | Source/projections/canonicalStringify.ts:6 | a JSON text determines its value |
| `JsonText.CanonicalText` | Source/projections/canonicalStringify.ts:5-12 | the canonical text is the same for two values exactly when they differ in the order of object members only |
| `JsonText.ScalarsAsWritten` | Source/projections/canonicalStringify.ts:5-12 | how null, flags, numbers and texts are written |
| `JsonText.ListsAsWritten` | Source/projections/canonicalStringify.ts:5-12 | a list is written between brackets with commas between its elements |
| `JsonText.ObjectsAsWritten` | Source/projections/canonicalStringify.ts:5-12 | an object is written between braces, each key as a text with a colon after it |
| `JsonText.EscapesAsWritten` | Source/projections/canonicalStringify.ts:5-12 | how each unit of a text is written: pairs kept, the quote, the backslash and control characters escaped, lone surrogates as six characters |
| `DefinitionStamp.TurnIsHorner` | Source/projections/ProjectionDefinitionCompiler.ts:538 | one turn of the loop, signed 32-bit shift included, multiplies by 33 and adds modulo 2^32 |
| `DefinitionStamp.HashOf` | Source/projections/ProjectionDefinitionCompiler.ts:536-539 | the loop computes the base-33 polynomial with seed 5381 modulo 2^32 |
| `DefinitionStamp.PolynomialByUnits` | Source/projections/ProjectionDefinitionCompiler.ts:536-539 | the polynomial has the seed 5381 and multiplies by 33 for each unit |
| `DefinitionStamp.ComputeStableLastUpdated` | Source/projections/ProjectionDefinitionCompiler.ts:533-541 | the stamp is that hash of the canonical text in seconds, and always a valid date |
| `DefinitionStamp.StampIgnoresLastUpdated` | Source/projections/ProjectionDefinitionCompiler.ts:92-94 | stamping a stamped definition gives the same stamp |
| `DefinitionStamp.StampedAtTheEnd` | Source/projections/ProjectionDefinitionCompiler.ts:92-94 | a definition without a stamp gets it at its end |
| `DefinitionStamp.StampedInPlace` | Source/projections/ProjectionDefinitionCompiler.ts:92-94 | a definition with a stamp gets the new one in its place |
| `DefinitionStamp.StampIgnoresOrder` | Source/projections/ProjectionDefinitionCompiler.ts:534-535 | definitions that differ in member order only have the same stamp |
| `Guids.ToContractsGuid` | Source/connection/Guid.ts:13-30 | sixteen bytes become the little-endian base-256 values of their halves; any other number of bytes is an error |
| `Guids.OrIsSum` | Source/connection/Guid.ts:22-23 | or with a shifted number is a sum when the other number is below the shift |
| `Guids.BitsTogether` | Source/connection/Guid.ts:22-45 | an or has the bits of either number and an and the bits both have |
| `Guids.FromContractsGuid` | Source/connection/Guid.ts:36-48 | the bytes are the base-256 digits of the halves, and zero without a Guid |
| `Guids.UnpackOfPack` | Source/connection/Guid.ts:13-48 | unpacking undoes packing on sixteen bytes |
| `Guids.PackOfUnpack` | Source/connection/Guid.ts:13-48 | packing undoes unpacking on two 64-bit numbers |
| `RoundRobin.RoundRobinLoadBalancerStrategy.Select` | Source/connection/RoundRobinLoadBalancerStrategy.ts:15-28 | the candidate at the position modulo the count, which is in range even when the count changes; the position moves on by one; no candidates is an error |
| `RoundRobin.EachOncePerRound` | Source/connection/RoundRobinLoadBalancerStrategy.ts:24-25 | any n consecutive picks of n candidates pick each exactly once |
| `RoundRobin.PicksDifferByOneAtMost` | Source/connection/RoundRobinLoadBalancerStrategy.ts:24-25 | after any number of picks two candidates' counts differ by at most one |
| `Paging.GetInstances` | Source/readModels/MaterializedReadModels.ts:26-45 | a read gives the instances from `skip` to the end of the page that holds it |
| `Paging.PagesByTake` | Source/readModels/MaterializedReadModels.ts:74-83 | which page is read, how long it is and what is dropped from it, by `skip` and `take` |
| `Paging.ReadsWhatWasAsked` | Source/readModels/MaterializedReadModels.ts:74-83 | that is `take` instances from `skip` exactly when `skip` starts a page or the list ends with the page |
| `Paging.WalkReassembles` | Source/readModels/MaterializedReadModels.ts:40-42 | advancing by what each read returns reassembles the rest of the list and ends |

## Left out

- Stack traces, logging, metrics, telemetry spans and named tags of the modelled functions.
- The environment: gRPC channels, DNS, HTTP, timers, backoff delays and randomness are steps or parameters with any outcome. What a handler, a batch method, an activation or a token request does is a parameter.
- The kernel beyond what the lemmas name: an append-only log that validates every scope of a batch when it appends, a tail read of the last matching event, missing routes resolved to the kernel's defaults, page contents, and projection records applied as From, then Join, all records of an event type in order, with removals before or after them as a parameter.
- VariantRuns.RunsPreservedExactly: asks that one entering event, keyed on the event source and with nothing else acting on its type, sets every property the definition speaks of, by different expressions; what the definition never lets an instance hold cannot tell two orders apart in a run. With removals last it asks that no event both updates and removes, because such a removal hides the update.
- VariantExactness.UpdatesPreservedExactly: asks that the records of one non-entering event type agree on the properties a declared join of the type sets too, because records that disagree can compensate for joins that do, as `VariantExactness.DisagreeingRecordsMayBeHarmless` shows; the sufficient direction does not need it.
- VariantExclusion.ExclusiveExactly: asks that every variant has a record for what enters it and declares no removal for it; a variant that never becomes active excludes its siblings whatever is kept. With removals last and shared entrances, only the sufficient direction is stated.
- AcknowledgementExactness.SoundExactlyWhenCovered: no event is numbered like the sentinel for "nothing observed", whose report acknowledges nothing; failed activations and notifications block every event and need no condition.
- Expressions of projections are an arbitrary function of the event and the previous value.
- ConnectionStringRoundTrip.ParseOfPrint: asks for unreserved characters, because percent-coding and UTF-8 are not modelled; the plus sign of a query is part of that.
- WrittenConnectionStrings.ParseOfText: asks for the same characters, and for hosts as they can be written.
- ServerAddresses.ParseOfFormat: white space is space, tab, newline and carriage return, and ports are natural numbers in decimal digits; the other texts that `Number` reads as integers, and numbers beyond the exact range of doubles, are not modelled.
- The authentication mode, the other setters of the builder, credentials and the copies `withCredentials` and `withApiKey` make: easy members.
- Texts are sequences of characters; in the codecs they are their UTF-8 bytes, and the reader's refusal of invalid UTF-8 is not modelled.
- The `fromJSON`, `toJSON`, `create` and `fromPartial` members of the codecs, and the flat get and empty requests as modules of their own: they are instances of `ComplianceContracts`.
- ConcurrencyGuards.PlanDerivedGuards: predicates are compared as values; their JSON text, which the source compares, is one-to-one with them.
- Discovery of event sources, event types, decorators and metadata: their results are plain data.
- `toAppendManyResults`: it only distributes what the kernel answered.
- Unavailable tail numbers when the kernel answers none (`?? 0n`).
- JsonText.TextDetermines: a number is named by its decimal text, as Number::toString of ECMA-262 writes it, fractions and exponents included; that different finite numbers have different texts is taken from there. Members that are `undefined` are not modelled.
- The calendar text of the stamp: the stamp is its time in milliseconds.
- TokenProvider: a synchronous throw of the token request, which the default request never does.
- The clock of one synchronous stretch is read where the code reads it, and never goes back.
- ConnectionRuns: a caller is tracked until it connects, waits for the connect run or is refused; the string search behind `mentionsConnectionProblem` is a flag of the error.
- ConnectionLifecycle: the identifier that changes on every disconnect.
- Compliance release of paged instances, and observing pages as a stream: every update is a page read as modelled.
- RoundRobin: the other load balancer strategies.
- Reactor re-observation, read model watchers, the unit of work, projection builders, time buckets and enum mappings.
